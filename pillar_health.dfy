/**
 * The plate health score: a 0..100 composite of the plate's recent review
 * ratings (40%), its completions in the last seven days (35%) and the
 * recency of its latest completion (25%). `now` is the wall-clock instant,
 * in milliseconds, that the original reads itself.
 */
module PillarHealth {
  import opened Types
  import opened Calendar

  /** One rating of one plate in a review (1..5 in practice). */
  datatype RatingRow = RatingRow(plateId: string, rating: int)

  // ==========================================================================
  // Review signal
  // ==========================================================================

  function RatingsOf(plateId: string, reviews: seq<RatingRow>): (r: seq<RatingRow>)
    ensures |r| <= |reviews|
    ensures forall x :: x in r <==> x in reviews && x.plateId == plateId
  {
    if reviews == [] then []
    else if reviews[0].plateId == plateId then [reviews[0]] + RatingsOf(plateId, reviews[1..])
    else RatingsOf(plateId, reviews[1..])
  }

  /** The plate's ratings, at most the first seven. */
  function PillarRatings(plateId: string, reviews: seq<RatingRow>): (r: seq<RatingRow>)
    ensures |r| <= 7 && |r| <= |RatingsOf(plateId, reviews)|
    ensures r == RatingsOf(plateId, reviews)[..|r|]
    ensures |r| == 7 || r == RatingsOf(plateId, reviews)
    ensures forall x :: x in r ==> x in reviews && x.plateId == plateId
  {
    var all := RatingsOf(plateId, reviews);
    if |all| <= 7 then all else all[..7]
  }

  function SumRatings(rs: seq<RatingRow>): int {
    if rs == [] then 0 else rs[0].rating + SumRatings(rs[1..])
  }

  predicate RatingsInRange(rs: seq<RatingRow>) {
    forall i :: 0 <= i < |rs| ==> 1 <= rs[i].rating <= 5
  }

  lemma {:induction false} SumRatingsBounds(rs: seq<RatingRow>)
    requires RatingsInRange(rs)
    ensures |rs| <= SumRatings(rs) <= 5 * |rs|
  {
    if rs != [] {
      assert RatingsInRange(rs[1..]) by {
        forall i | 0 <= i < |rs[1..]| ensures 1 <= rs[1..][i].rating <= 5 {
          assert rs[1..][i] == rs[i + 1];
        }
      }
      SumRatingsBounds(rs[1..]);
    }
  }

  /** 50 with no ratings, else the average rating scaled from 5 to 100. */
  function ReviewScore(rs: seq<RatingRow>): (r: real)
    ensures rs == [] ==> r == 50.0
    ensures rs != [] ==> r * (|rs| as real) == 20.0 * (SumRatings(rs) as real)
  {
    if |rs| > 0 then
      var avg := (SumRatings(rs) as real) / (|rs| as real);
      avg / 5.0 * 100.0
    else 50.0
  }

  /** With ratings in 1..5 the review signal lies in 20..100. */
  lemma ReviewScoreBounds(rs: seq<RatingRow>)
    requires RatingsInRange(rs)
    ensures 20.0 <= ReviewScore(rs) <= 100.0
  {
    if rs != [] {
      SumRatingsBounds(rs);
      var n, r, sum := |rs| as real, ReviewScore(rs), SumRatings(rs) as real;
      ScaledBounds(r, n, sum);
    }
  }

  lemma ScaledBounds(r: real, n: real, sum: real)
    requires r * n == 20.0 * sum
    requires 20.0 * n <= 20.0 * sum <= 100.0 * n
    requires n > 0.0
    ensures 20.0 <= r <= 100.0
  {
    if r > 100.0 {
      var d := r - 100.0;
      assert d > 0.0;
      assert d * n > 0.0;
      assert r * n == (100.0 + d) * n == 100.0 * n + d * n;
    }
  }

  // ==========================================================================
  // Completion signal
  // ==========================================================================

  /** The instant seven days before `now`. */
  function SevenDaysAgo(now: nat): int {
    now - 7 * MsPerDay
  }

  /** The plate's completions at or after seven days ago. */
  function PillarCompletions(plateId: string, completions: seq<Completion>, now: nat): (r: seq<Completion>)
    ensures |r| <= |completions|
    ensures forall c :: c in r <==> c in completions && c.plateId == plateId && c.completedAt >= SevenDaysAgo(now)
  {
    if completions == [] then []
    else
      var rest := PillarCompletions(plateId, completions[1..], now);
      var c := completions[0];
      if c.plateId == plateId && c.completedAt >= SevenDaysAgo(now) then [c] + rest else rest
  }

  /** 20 for none, 20 more per completion, at most 100. */
  function CompletionScore(n: nat): (r: int)
    ensures 20 <= r <= 100
    ensures n == 0 ==> r == 20
    ensures n >= 4 ==> r == 100
    ensures n < 4 ==> r == 20 + 20 * n
  {
    if 20 + n * 20 < 100 then 20 + n * 20 else 100
  }

  lemma CompletionScoreMonotone(m: nat, n: nat)
    requires m <= n
    ensures CompletionScore(m) <= CompletionScore(n)
  {
  }

  // ==========================================================================
  // Recency signal
  // ==========================================================================

  /** The reduce that keeps the later completion, the earlier one on ties. */
  function LatestFrom(acc: Completion, cs: seq<Completion>): (r: Completion)
    ensures r == acc || r in cs
    ensures r.completedAt >= acc.completedAt
    ensures forall c :: c in cs ==> c.completedAt <= r.completedAt
    decreases |cs|
  {
    if cs == [] then acc
    else LatestFrom(if cs[0].completedAt > acc.completedAt then cs[0] else acc, cs[1..])
  }

  function Latest(cs: seq<Completion>): (r: Completion)
    requires cs != []
    ensures r in cs
    ensures forall c :: c in cs ==> c.completedAt <= r.completedAt
  {
    LatestFrom(cs[0], cs[1..])
  }

  /** Whole days between two instants, rounded down (Math.floor). */
  function DaysBetween(later: nat, earlier: nat): int {
    (later - earlier) / MsPerDay
  }

  /** The recency tiers. A negative day count (a completion after `now`) falls into the "≤ 3" tier. */
  function RecencyForDays(days: int): (r: int)
    ensures 20 <= r <= 100
    ensures days == 0 ==> r == 100
    ensures days == 1 ==> r == 85
    ensures 2 <= days <= 3 ==> r == 60
    ensures 4 <= days <= 7 ==> r == 30
    ensures days > 7 ==> r == 20
  {
    if days == 0 then 100
    else if days == 1 then 85
    else if days <= 3 then 60
    else if days <= 7 then 30
    else 20
  }

  /** Recency never grows as the latest completion gets older. */
  lemma RecencyNonIncreasing(d1: int, d2: int)
    requires 0 <= d1 <= d2
    ensures RecencyForDays(d2) <= RecencyForDays(d1)
  {
  }

  function RecencyScore(cs: seq<Completion>, now: nat): (r: int)
    ensures 20 <= r <= 100
    ensures cs == [] ==> r == 20
  {
    if |cs| > 0 then RecencyForDays(DaysBetween(now, Latest(cs).completedAt)) else 20
  }

  // ==========================================================================
  // The composite
  // ==========================================================================

  /** Math.round: the nearest integer, halves rounded up. */
  function Round(x: real): (r: int)
    ensures r as real <= x + 0.5 < r as real + 1.0
  {
    (x + 0.5).Floor
  }

  lemma RoundMonotone(x: real, y: real)
    requires x <= y
    ensures Round(x) <= Round(y)
  {
  }

  function Clamp(h: int): (r: int)
    ensures 0 <= r <= 100
    ensures 0 <= h <= 100 ==> r == h
  {
    if h < 0 then 0 else if h > 100 then 100 else h
  }

  /** The composite before clamping. */
  function RawHealth(plateId: string, reviews: seq<RatingRow>, completions: seq<Completion>, now: nat): int {
    var pcs := PillarCompletions(plateId, completions, now);
    Round(ReviewScore(PillarRatings(plateId, reviews)) * 0.4
          + (CompletionScore(|pcs|) as real) * 0.35
          + (RecencyScore(pcs, now) as real) * 0.25)
  }

  /** calculatePillarHealth. */
  function PillarHealth(plateId: string, reviews: seq<RatingRow>, completions: seq<Completion>, now: nat): (r: int)
    ensures 0 <= r <= 100
  {
    Clamp(RawHealth(plateId, reviews, completions, now))
  }

  // ==========================================================================
  // Properties
  // ==========================================================================

  /** No ratings and no completions give round(50·0.4 + 20·0.35 + 20·0.25) = 32. */
  lemma EmptyHealth(plateId: string, reviews: seq<RatingRow>, completions: seq<Completion>, now: nat)
    requires forall r :: r in reviews ==> r.plateId != plateId
    requires forall c :: c in completions ==> c.plateId != plateId
    ensures PillarHealth(plateId, reviews, completions, now) == 32
  {
    assert 50.0 * 0.4 + 20.0 * 0.35 + 20.0 * 0.25 == 32.0;
  }

  /** With ratings in 1..5 the composite already lies in 0..100, so the clamp never binds. */
  lemma ClampIsNoOp(plateId: string, reviews: seq<RatingRow>, completions: seq<Completion>, now: nat)
    requires forall r :: r in reviews ==> 1 <= r.rating <= 5
    ensures 0 <= RawHealth(plateId, reviews, completions, now) <= 100
    ensures PillarHealth(plateId, reviews, completions, now) == RawHealth(plateId, reviews, completions, now)
  {
    var rs := PillarRatings(plateId, reviews);
    assert RatingsInRange(rs) by {
      forall i | 0 <= i < |rs| ensures 1 <= rs[i].rating <= 5 {
        assert rs[i] in rs;
      }
    }
    ReviewScoreBounds(rs);
    var pcs := PillarCompletions(plateId, completions, now);
    var x := ReviewScore(rs) * 0.4 + (CompletionScore(|pcs|) as real) * 0.35 + (RecencyScore(pcs, now) as real) * 0.25;
    assert 8.0 + 7.0 + 5.0 <= x <= 40.0 + 35.0 + 25.0;
  }

  lemma {:induction false} RatingsOfOther(plateId: string, reviews: seq<RatingRow>, k: nat, row: RatingRow)
    requires k <= |reviews| && row.plateId != plateId
    ensures RatingsOf(plateId, reviews[..k] + [row] + reviews[k..]) == RatingsOf(plateId, reviews)
  {
    if k == 0 {
      assert reviews[..k] + [row] + reviews[k..] == [row] + reviews;
      assert ([row] + reviews)[1..] == reviews;
      assert RatingsOf(plateId, [row] + reviews) == RatingsOf(plateId, reviews);
    } else {
      var s := reviews[..k] + [row] + reviews[k..];
      assert s[0] == reviews[0];
      assert s[1..] == reviews[1..][..k - 1] + [row] + reviews[1..][k - 1..];
      RatingsOfOther(plateId, reviews[1..], k - 1, row);
      assert RatingsOf(plateId, s[1..]) == RatingsOf(plateId, reviews[1..]);
      if reviews[0].plateId == plateId {
        assert RatingsOf(plateId, s) == [reviews[0]] + RatingsOf(plateId, s[1..]);
        assert RatingsOf(plateId, reviews) == [reviews[0]] + RatingsOf(plateId, reviews[1..]);
      } else {
        assert RatingsOf(plateId, s) == RatingsOf(plateId, s[1..]);
        assert RatingsOf(plateId, reviews) == RatingsOf(plateId, reviews[1..]);
      }
    }
  }

  lemma {:induction false} CompletionsOfOther(plateId: string, completions: seq<Completion>, now: nat, k: nat, c: Completion)
    requires k <= |completions|
    requires c.plateId != plateId || c.completedAt < SevenDaysAgo(now)
    ensures PillarCompletions(plateId, completions[..k] + [c] + completions[k..], now) == PillarCompletions(plateId, completions, now)
  {
    if k == 0 {
      assert completions[..k] + [c] + completions[k..] == [c] + completions;
      assert ([c] + completions)[1..] == completions;
    } else {
      var s := completions[..k] + [c] + completions[k..];
      assert s[0] == completions[0];
      assert s[1..] == completions[1..][..k - 1] + [c] + completions[1..][k - 1..];
      CompletionsOfOther(plateId, completions[1..], now, k - 1, c);
    }
  }

  /**
   * Only the plate's own ratings and its own completions in the window count:
   * inserting another plate's rating, or a completion of another plate or
   * from before the window, anywhere in the inputs leaves the score unchanged.
   */
  lemma OnlyOwnRowsCount(plateId: string, reviews: seq<RatingRow>, completions: seq<Completion>, now: nat,
                         k: nat, row: RatingRow, j: nat, c: Completion)
    requires k <= |reviews| && row.plateId != plateId
    requires j <= |completions| && (c.plateId != plateId || c.completedAt < SevenDaysAgo(now))
    ensures PillarHealth(plateId, reviews[..k] + [row] + reviews[k..], completions[..j] + [c] + completions[j..], now)
         == PillarHealth(plateId, reviews, completions, now)
  {
    RatingsOfOther(plateId, reviews, k, row);
    CompletionsOfOther(plateId, completions, now, j, c);
  }

  lemma {:induction false} CompletionsAppend(plateId: string, completions: seq<Completion>, now: nat, c: Completion)
    requires c.plateId == plateId && c.completedAt >= SevenDaysAgo(now)
    ensures PillarCompletions(plateId, completions + [c], now) == PillarCompletions(plateId, completions, now) + [c]
  {
    if completions == [] {
      assert ([] + [c]) == [c];
    } else {
      assert (completions + [c])[1..] == completions[1..] + [c];
      CompletionsAppend(plateId, completions[1..], now, c);
    }
  }

  /** The recency signal never drops when a completion not after `now` is added. */
  lemma RecencyAppend(cs: seq<Completion>, now: nat, c: Completion)
    requires c.completedAt <= now
    ensures RecencyScore(cs, now) <= RecencyScore(cs + [c], now)
  {
    if cs != [] {
      var lb, la := Latest(cs), Latest(cs + [c]);
      assert lb in cs + [c];
      assert la == c || la in cs;
      if lb.completedAt <= now {
        RecencyNonIncreasing(DaysBetween(now, la.completedAt), DaysBetween(now, lb.completedAt));
      } else {
        assert la.completedAt == lb.completedAt;
      }
    }
  }

  lemma WeightedMonotone(rev: real, c1: int, c2: int, r1: int, r2: int)
    requires c1 <= c2 && r1 <= r2
    ensures Round(rev * 0.4 + (c1 as real) * 0.35 + (r1 as real) * 0.25)
         <= Round(rev * 0.4 + (c2 as real) * 0.35 + (r2 as real) * 0.25)
  {
    RoundMonotone(rev * 0.4 + (c1 as real) * 0.35 + (r1 as real) * 0.25,
                  rev * 0.4 + (c2 as real) * 0.35 + (r2 as real) * 0.25);
  }

  /**
   * A new completion of the plate within the window, not after `now`, never
   * lowers the health score: the count signal and the recency signal are
   * both monotone.
   */
  lemma CompletionNeverLowersHealth(plateId: string, reviews: seq<RatingRow>, completions: seq<Completion>, now: nat, c: Completion)
    requires c.plateId == plateId && SevenDaysAgo(now) <= c.completedAt <= now
    ensures PillarHealth(plateId, reviews, completions, now) <= PillarHealth(plateId, reviews, completions + [c], now)
  {
    var before := PillarCompletions(plateId, completions, now);
    CompletionsAppend(plateId, completions, now, c);
    CompletionScoreMonotone(|before|, |before| + 1);
    RecencyAppend(before, now, c);
    WeightedMonotone(ReviewScore(PillarRatings(plateId, reviews)),
      CompletionScore(|before|), CompletionScore(|before + [c]|),
      RecencyScore(before, now), RecencyScore(before + [c], now));
  }
}
