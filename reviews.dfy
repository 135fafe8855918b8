/**
 * The review streak (getReviewStreak in src/lib/db/reviews.ts): how many
 * consecutive calendar days, counting back from the most recent review, have
 * a review. Review dates are day numbers; `now` is the wall-clock instant.
 */
module ReviewStreak {
  import opened Calendar

  const RowLimit: nat := 60

  /** The rows the query returns: the user's review dates, most recent first, at most 60. */
  function Rows(datesDescending: seq<int>): (rows: seq<int>)
    ensures |rows| <= RowLimit && |rows| <= |datesDescending|
    ensures rows == datesDescending[..|rows|]
    ensures |rows| == RowLimit || rows == datesDescending
  {
    if |datesDescending| <= RowLimit then datesDescending else datesDescending[..RowLimit]
  }

  /** `k` is the length of the run of consecutive days going back from rows[0]. */
  predicate IsStreak(rows: seq<int>, k: nat)
    requires rows != []
  {
    && k <= |rows|
    && (forall i :: 0 <= i < k ==> rows[i] == rows[0] - i)
    && (k == |rows| || rows[k] != rows[0] - k)
  }

  /** The run is determined by the rows: there is only one. */
  lemma StreakUnique(rows: seq<int>, a: nat, b: nat)
    requires rows != [] && IsStreak(rows, a) && IsStreak(rows, b)
    ensures a == b
  {
  }

  /** Rows after the first gap never count: any tail after it leaves the run as it is. */
  lemma GapEndsStreak(rows: seq<int>, k: nat, tail: seq<int>)
    requires rows != [] && IsStreak(rows, k) && k < |rows|
    ensures IsStreak(rows[..k + 1] + tail, k)
  {
    var r := rows[..k + 1] + tail;
    assert forall i :: 0 <= i <= k ==> r[i] == rows[i];
  }

  /**
   * getReviewStreak: 0 without reviews or when the latest review is more
   * than one day before today; otherwise the length of the run of
   * consecutive days from the latest review, which is at least 1.
   */
  method GetReviewStreak(datesDescending: seq<int>, now: nat) returns (streak: nat)
    ensures var rows := Rows(datesDescending);
      && streak <= |rows| <= RowLimit
      && (rows == [] ==> streak == 0)
      && (rows != [] && DayOf(now) - rows[0] > 1 ==> streak == 0)
      && (rows != [] && DayOf(now) - rows[0] <= 1 ==> streak >= 1 && IsStreak(rows, streak))
  {
    var rows := Rows(datesDescending);
    if |rows| == 0 {
      return 0;
    }
    streak := 0;
    var today := DayOf(now);
    var firstReviewDate := rows[0];
    var diffFromToday := today - firstReviewDate;
    if diffFromToday > 1 {
      return 0;
    }
    var checkDate := firstReviewDate;
    var i := 0;
    while i < |rows|
      invariant 0 <= i <= |rows|
      invariant streak == i
      invariant checkDate == rows[0] - i
      invariant forall j :: 0 <= j < i ==> rows[j] == rows[0] - j
    {
      var reviewDate := rows[i];
      var expected := checkDate;
      if reviewDate == expected {
        streak := streak + 1;
        checkDate := checkDate - 1;
      } else {
        break;
      }
      i := i + 1;
    }
  }
}
