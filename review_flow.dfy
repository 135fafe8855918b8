/**
 * The state of the evening review (src/components/ReviewFlow.tsx): the
 * per-plate ratings and notes, the decisions about unfinished tasks, and the
 * payloads built from them on submit.
 */
module ReviewFlow {
  import opened Wrappers
  import opened Types
  import Text

  // ==========================================================================
  // Plate ratings
  // ==========================================================================

  /** `{ plateId, rating, note }`; a rating of 0 means "not rated". */
  datatype PlateRating = PlateRating(plateId: string, rating: int, note: string)

  /** `plates.map((p) => ({ plateId: p.id, rating: 0, note: '' }))`. */
  function InitialRatings(plates: seq<Plate>): (r: seq<PlateRating>)
    ensures |r| == |plates|
    ensures forall k :: 0 <= k < |r| ==> r[k].plateId == plates[k].id && r[k].rating == 0 && r[k].note == ""
  {
    seq(|plates|, k requires 0 <= k < |plates| => PlateRating(plates[k].id, 0, ""))
  }

  /** setPlateRating: the rating of the entries for the plate is replaced. */
  function SetPlateRating(prev: seq<PlateRating>, plateId: string, rating: int): (r: seq<PlateRating>)
    ensures |r| == |prev|
    ensures forall k :: 0 <= k < |prev| ==>
      && r[k].plateId == prev[k].plateId
      && r[k].note == prev[k].note
      && r[k].rating == (if prev[k].plateId == plateId then rating else prev[k].rating)
  {
    seq(|prev|, k requires 0 <= k < |prev| =>
      if prev[k].plateId == plateId then prev[k].(rating := rating) else prev[k])
  }

  /** setPlateNote: the note of the entries for the plate is replaced. */
  function SetPlateNote(prev: seq<PlateRating>, plateId: string, note: string): (r: seq<PlateRating>)
    ensures |r| == |prev|
    ensures forall k :: 0 <= k < |prev| ==>
      && r[k].plateId == prev[k].plateId
      && r[k].rating == prev[k].rating
      && r[k].note == (if prev[k].plateId == plateId then note else prev[k].note)
  {
    seq(|prev|, k requires 0 <= k < |prev| =>
      if prev[k].plateId == plateId then prev[k].(note := note) else prev[k])
  }

  /** The last rating given to a plate is the one kept. */
  lemma RatingLastWins(prev: seq<PlateRating>, plateId: string, a: int, b: int)
    ensures SetPlateRating(SetPlateRating(prev, plateId, a), plateId, b) == SetPlateRating(prev, plateId, b)
  {
    var x, y := SetPlateRating(SetPlateRating(prev, plateId, a), plateId, b), SetPlateRating(prev, plateId, b);
    assert forall k :: 0 <= k < |prev| ==> x[k] == y[k];
  }

  /** Rating two different plates, or rating and annotating, can be done in either order. */
  lemma RatingUpdatesCommute(prev: seq<PlateRating>, p: string, q: string, a: int, b: int, note: string)
    ensures p != q ==> SetPlateRating(SetPlateRating(prev, p, a), q, b) == SetPlateRating(SetPlateRating(prev, q, b), p, a)
    ensures SetPlateNote(SetPlateRating(prev, p, a), q, note) == SetPlateRating(SetPlateNote(prev, q, note), p, a)
  {
    if p != q {
      var x, y := SetPlateRating(SetPlateRating(prev, p, a), q, b), SetPlateRating(SetPlateRating(prev, q, b), p, a);
      assert forall k :: 0 <= k < |prev| ==> x[k] == y[k];
    }
    var x, y := SetPlateNote(SetPlateRating(prev, p, a), q, note), SetPlateRating(SetPlateNote(prev, q, note), p, a);
    assert forall k :: 0 <= k < |prev| ==> x[k] == y[k];
  }

  // ==========================================================================
  // Task decisions
  // ==========================================================================

  datatype Decision = Tomorrow | Drop

  /** One key of the `taskDecisions` record, in its insertion order. */
  datatype Entry = Entry(taskId: string, decision: Decision)

  predicate UniqueKeys(entries: seq<Entry>) {
    forall i, j :: 0 <= i < j < |entries| ==> entries[i].taskId != entries[j].taskId
  }

  predicate HasTask(entries: seq<Entry>, taskId: string) {
    exists i :: 0 <= i < |entries| && entries[i].taskId == taskId
  }

  /** `record[taskId]`. */
  function DecisionOf(entries: seq<Entry>, taskId: string): (r: Option<Decision>)
    ensures r.None? <==> !HasTask(entries, taskId)
    ensures UniqueKeys(entries) ==> forall i :: 0 <= i < |entries| && entries[i].taskId == taskId ==> r == Some(entries[i].decision)
  {
    if entries == [] then None
    else if entries[0].taskId == taskId then Some(entries[0].decision)
    else
      var r := DecisionOf(entries[1..], taskId);
      assert forall i :: 1 <= i < |entries| ==> entries[i] == entries[1..][i - 1];
      assert HasTask(entries, taskId) ==> HasTask(entries[1..], taskId) by {
        if HasTask(entries, taskId) {
          var i :| 0 <= i < |entries| && entries[i].taskId == taskId;
          assert entries[1..][i - 1].taskId == taskId;
        }
      }
      assert UniqueKeys(entries) ==> UniqueKeys(entries[1..]) by {
        if UniqueKeys(entries) {
          forall i, j | 0 <= i < j < |entries[1..]| ensures entries[1..][i].taskId != entries[1..][j].taskId {
            assert entries[1..][i] == entries[i + 1] && entries[1..][j] == entries[j + 1];
          }
        }
      }
      r
  }

  /**
   * handleTaskDecision, `{ ...prev, [taskId]: decision }`: a key already
   * present keeps its place and takes the new value, a new key goes last.
   */
  function Decide(prev: seq<Entry>, taskId: string, decision: Decision): (r: seq<Entry>)
    ensures UniqueKeys(prev) ==> UniqueKeys(r)
    ensures HasTask(prev, taskId) ==> |r| == |prev|
    ensures !HasTask(prev, taskId) ==> |r| == |prev| + 1 && r[..|prev|] == prev
    ensures forall t :: HasTask(r, t) <==> HasTask(prev, t) || t == taskId
    ensures UniqueKeys(prev) ==> DecisionOf(r, taskId) == Some(decision)
    ensures UniqueKeys(prev) ==> forall t :: t != taskId ==> DecisionOf(r, t) == DecisionOf(prev, t)
  {
    var r := if HasTask(prev, taskId) then
      seq(|prev|, k requires 0 <= k < |prev| => if prev[k].taskId == taskId then Entry(taskId, decision) else prev[k])
    else prev + [Entry(taskId, decision)];
    assert forall k :: 0 <= k < |prev| ==> r[k].taskId == prev[k].taskId;
    assert forall t :: HasTask(r, t) <==> HasTask(prev, t) || t == taskId by {
      forall t ensures HasTask(r, t) <==> HasTask(prev, t) || t == taskId {
        if t == taskId && HasTask(prev, taskId) {
          var i :| 0 <= i < |prev| && prev[i].taskId == taskId;
          assert r[i].taskId == taskId;
        }
        if t == taskId && !HasTask(prev, taskId) {
          assert r[|prev|].taskId == taskId;
        }
        if HasTask(r, t) && t != taskId {
          var i :| 0 <= i < |r| && r[i].taskId == t;
          assert i < |prev|;
        }
        if HasTask(prev, t) {
          var i :| 0 <= i < |prev| && prev[i].taskId == t;
          assert r[i].taskId == t;
        }
      }
    }
    if UniqueKeys(prev) then DecideLookup(prev, taskId, decision, r); r else r
  }

  lemma DecideLookup(prev: seq<Entry>, taskId: string, decision: Decision, r: seq<Entry>)
    requires UniqueKeys(prev)
    requires r == if HasTask(prev, taskId) then
      seq(|prev|, k requires 0 <= k < |prev| => if prev[k].taskId == taskId then Entry(taskId, decision) else prev[k])
    else prev + [Entry(taskId, decision)]
    ensures UniqueKeys(r)
    ensures DecisionOf(r, taskId) == Some(decision)
    ensures forall t :: t != taskId ==> DecisionOf(r, t) == DecisionOf(prev, t)
  {
    if HasTask(prev, taskId) {
      assert forall k :: 0 <= k < |prev| ==> r[k].taskId == prev[k].taskId;
      SameKeys(prev, r);
      var i :| 0 <= i < |prev| && prev[i].taskId == taskId;
      assert r[i] == Entry(taskId, decision);
    } else {
      AppendKey(prev, Entry(taskId, decision));
      assert r[|prev|] == Entry(taskId, decision);
    }
    forall t | t != taskId ensures DecisionOf(r, t) == DecisionOf(prev, t) {
      if HasTask(prev, t) {
        var i :| 0 <= i < |prev| && prev[i].taskId == t;
        assert r[i] == prev[i];
      } else if !HasTask(prev, taskId) {
        assert !HasTask(r, t) by {
          forall i | 0 <= i < |r| ensures r[i].taskId != t {
            if i < |prev| { assert r[i] == prev[i]; }
          }
        }
      }
    }
  }

  /** Entries with the same keys in the same places: the keys are present, and unique, together. */
  lemma SameKeys(prev: seq<Entry>, r: seq<Entry>)
    requires |r| == |prev| && forall k :: 0 <= k < |prev| ==> r[k].taskId == prev[k].taskId
    ensures forall t :: HasTask(r, t) <==> HasTask(prev, t)
    ensures UniqueKeys(prev) ==> UniqueKeys(r)
  {
  }

  /** Appending an entry for a new key keeps the keys unique. */
  lemma AppendKey(prev: seq<Entry>, e: Entry)
    requires UniqueKeys(prev) && !HasTask(prev, e.taskId)
    ensures UniqueKeys(prev + [e])
  {
    var r := prev + [e];
    forall i, j | 0 <= i < j < |r| ensures r[i].taskId != r[j].taskId {
      if j == |prev| {
        assert r[i] == prev[i];
      } else {
        assert r[i] == prev[i] && r[j] == prev[j];
      }
    }
  }

  /** A later decision about the same task replaces the earlier one. */
  lemma DecisionLastWins(prev: seq<Entry>, taskId: string, a: Decision, b: Decision)
    ensures Decide(Decide(prev, taskId, a), taskId, b) == Decide(prev, taskId, b)
  {
    if HasTask(prev, taskId) {
      LastWinsPresent(prev, taskId, a, b);
    } else {
      LastWinsNew(prev, taskId, a, b);
    }
  }

  lemma LastWinsPresent(prev: seq<Entry>, taskId: string, a: Decision, b: Decision)
    requires HasTask(prev, taskId)
    ensures Decide(Decide(prev, taskId, a), taskId, b) == Decide(prev, taskId, b)
  {
    var once := Decide(prev, taskId, a);
    assert HasTask(once, taskId);
    var x, y := Decide(once, taskId, b), Decide(prev, taskId, b);
    assert forall k :: 0 <= k < |prev| ==> x[k] == y[k];
  }

  lemma LastWinsNew(prev: seq<Entry>, taskId: string, a: Decision, b: Decision)
    requires !HasTask(prev, taskId)
    ensures Decide(Decide(prev, taskId, a), taskId, b) == Decide(prev, taskId, b)
  {
    var once := Decide(prev, taskId, a);
    assert once == prev + [Entry(taskId, a)];
    assert once[|prev|].taskId == taskId;
    var x, y := Decide(once, taskId, b), Decide(prev, taskId, b);
    assert forall k :: 0 <= k < |once| ==> x[k] == y[k];
  }

  /** The ids of the tasks to mark completed: the dropped ones, in record order. */
  function DroppedTasks(entries: seq<Entry>): (r: seq<string>)
    ensures forall t :: t in r <==> exists i :: 0 <= i < |entries| && entries[i] == Entry(t, Drop)
  {
    if entries == [] then []
    else
      assert forall i :: 1 <= i < |entries| ==> entries[i] == entries[1..][i - 1];
      (if entries[0].decision == Drop then [entries[0].taskId] else []) + DroppedTasks(entries[1..])
  }

  /** With one entry per task, a task is completed on submit exactly when its decision is 'drop'. */
  lemma OnlyDropCompletes(entries: seq<Entry>, taskId: string)
    requires UniqueKeys(entries)
    ensures taskId in DroppedTasks(entries) <==> DecisionOf(entries, taskId) == Some(Drop)
  {
    if taskId in DroppedTasks(entries) {
      var i :| 0 <= i < |entries| && entries[i] == Entry(taskId, Drop);
    }
  }

  // ==========================================================================
  // Submit payload
  // ==========================================================================

  /** `s.trim() || undefined`. */
  function TrimmedOrNone(s: string): (r: Option<string>)
    ensures r.None? <==> Text.Trim(s) == ""
    ensures r.Some? ==> r.value == Text.Trim(s) && r.value != ""
  {
    var t := Text.Trim(s);
    if t == "" then None else Some(t)
  }

  /** An entry of `plateRatings` in the review request. */
  datatype RatingPayload = RatingPayload(plateId: string, rating: int, note: Option<string>)

  function PayloadOf(r: PlateRating): RatingPayload {
    RatingPayload(r.plateId, r.rating, TrimmedOrNone(r.note))
  }

  /** `plateRatings.filter((r) => r.rating > 0).map(...)`. */
  function RatingsPayload(ratings: seq<PlateRating>): (r: seq<RatingPayload>)
    ensures |r| <= |ratings|
    ensures r == [] <==> forall i :: 0 <= i < |ratings| ==> ratings[i].rating <= 0
    ensures forall q :: q in r <==> exists i :: 0 <= i < |ratings| && ratings[i].rating > 0 && q == PayloadOf(ratings[i])
  {
    if ratings == [] then []
    else
      var rest := RatingsPayload(ratings[1..]);
      PayloadCons(ratings, rest, PayloadOf);
      (if ratings[0].rating > 0 then [PayloadOf(ratings[0])] else []) + rest
  }

  /** One step of the filter and map: the first rating, then the payload `rest` of the others. */
  lemma PayloadCons(ratings: seq<PlateRating>, rest: seq<RatingPayload>, f: PlateRating -> RatingPayload)
    requires ratings != []
    requires rest == [] <==> forall j :: 0 <= j < |ratings[1..]| ==> ratings[1..][j].rating <= 0
    requires forall q :: q in rest <==> exists j :: 0 <= j < |ratings[1..]| && ratings[1..][j].rating > 0 && q == f(ratings[1..][j])
    ensures var r := (if ratings[0].rating > 0 then [f(ratings[0])] else []) + rest;
      && (r == [] <==> forall i :: 0 <= i < |ratings| ==> ratings[i].rating <= 0)
      && forall q :: q in r <==> exists i :: 0 <= i < |ratings| && ratings[i].rating > 0 && q == f(ratings[i])
  {
    var head := if ratings[0].rating > 0 then [f(ratings[0])] else [];
    var r := head + rest;
    assert forall i :: 1 <= i < |ratings| ==> ratings[i] == ratings[1..][i - 1];
    forall q ensures q in r <==> exists i :: 0 <= i < |ratings| && ratings[i].rating > 0 && q == f(ratings[i]) {
      if q in rest {
        var j :| 0 <= j < |ratings[1..]| && ratings[1..][j].rating > 0 && q == f(ratings[1..][j]);
        assert ratings[j + 1] == ratings[1..][j];
      }
      if exists i :: 0 <= i < |ratings| && ratings[i].rating > 0 && q == f(ratings[i]) {
        var i :| 0 <= i < |ratings| && ratings[i].rating > 0 && q == f(ratings[i]);
        if i > 0 { assert ratings[1..][i - 1] == ratings[i]; }
      }
    }
  }

  /** The body of POST /api/reviews. */
  datatype ReviewPayload = ReviewPayload(mood: int, notes: Option<string>, plateRatings: seq<RatingPayload>)

  function SubmitPayload(mood: int, notes: string, ratings: seq<PlateRating>): ReviewPayload {
    ReviewPayload(mood, TrimmedOrNone(notes), RatingsPayload(ratings))
  }

  /**
   * The submitted ratings are exactly the positive ones, each with its note
   * trimmed, or without a note when only spaces remain; every submitted
   * rating is positive.
   */
  lemma SubmittedRatings(mood: int, notes: string, ratings: seq<PlateRating>)
    ensures var p := SubmitPayload(mood, notes, ratings);
      && (forall q :: q in p.plateRatings ==> q.rating > 0)
      && (forall i :: 0 <= i < |ratings| && ratings[i].rating > 0 ==>
            RatingPayload(ratings[i].plateId, ratings[i].rating, TrimmedOrNone(ratings[i].note)) in p.plateRatings)
      && (forall q :: q in p.plateRatings && q.note.Some? ==> q.note.value != "" && Text.Trim(q.note.value) == q.note.value)
  {
    var p := SubmitPayload(mood, notes, ratings);
    forall q | q in p.plateRatings ensures q.rating > 0 && (q.note.Some? ==> q.note.value != "" && Text.Trim(q.note.value) == q.note.value) {
      var i :| 0 <= i < |ratings| && ratings[i].rating > 0 && q == PayloadOf(ratings[i]);
      Text.TrimIdempotent(ratings[i].note);
    }
    forall i | 0 <= i < |ratings| && ratings[i].rating > 0
      ensures RatingPayload(ratings[i].plateId, ratings[i].rating, TrimmedOrNone(ratings[i].note)) in p.plateRatings
    {
      assert PayloadOf(ratings[i]) in p.plateRatings;
    }
  }

  /** Before any plate is rated nothing is submitted for the plates. */
  lemma UnratedSubmitsNothing(plates: seq<Plate>)
    ensures RatingsPayload(InitialRatings(plates)) == []
  {
  }

  /** A plate given a positive rating is submitted with that rating. */
  lemma RatedPlateSubmitted(prev: seq<PlateRating>, plateId: string, rating: int, k: nat)
    requires rating > 0 && k < |prev| && prev[k].plateId == plateId
    ensures RatingPayload(plateId, rating, TrimmedOrNone(prev[k].note)) in RatingsPayload(SetPlateRating(prev, plateId, rating))
  {
    var r := SetPlateRating(prev, plateId, rating);
    assert r[k] == PlateRating(plateId, rating, prev[k].note);
    assert PayloadOf(r[k]) in RatingsPayload(r);
  }
}
