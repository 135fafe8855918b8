/** What the daily plan of PlanGenerator satisfies. */
module PlanProperties {
  import opened Wrappers
  import opened Types
  import opened Calendar
  import opened Sorting
  import opened PlanGenerator

  // ==========================================================================
  // First pass
  // ==========================================================================

  /**
   * The first pass takes at least min(minTasks, |scored|) entries and at most
   * maxTasks; it stops at the end, at maxTasks, or at an entry that would
   * overrun the budget once minTasks are taken; and every entry it takes
   * beyond the first minTasks keeps the running total within the budget.
   */
  lemma FirstPassEndProperties(scored: seq<ScoredTask>, i: nat, total: int, lim: Limits)
    requires i <= |scored| && i <= lim.maxTasks && lim.minTasks <= lim.maxTasks
    requires total == SumEffort(scored[..i])
    ensures var k := FirstPassEnd(scored, i, total, lim);
      && k <= lim.maxTasks
      && k >= Min(lim.minTasks, |scored|)
      && (k == |scored| || k == lim.maxTasks
          || (k >= lim.minTasks && SumEffort(scored[..k]) + Effort(scored[k].task) > lim.available))
      && (forall j :: i < j <= k && j > lim.minTasks ==> SumEffort(scored[..j]) <= lim.available)
  {
    FirstPassEndStops(scored, i, total, lim);
    FirstPassEndFits(scored, i, total, lim);
  }

  /** Where the first pass stops: within maxTasks, past min(minTasks, #entries), and for one of the three reasons. */
  lemma {:induction false} FirstPassEndStops(scored: seq<ScoredTask>, i: nat, total: int, lim: Limits)
    requires i <= |scored| && i <= lim.maxTasks && lim.minTasks <= lim.maxTasks
    requires total == SumEffort(scored[..i])
    ensures var k := FirstPassEnd(scored, i, total, lim);
      && k <= lim.maxTasks
      && k >= Min(lim.minTasks, |scored|)
      && (k == |scored| || k == lim.maxTasks
          || (k >= lim.minTasks && SumEffort(scored[..k]) + Effort(scored[k].task) > lim.available))
    decreases |scored| - i
  {
    if i == |scored| || i >= lim.maxTasks {
      assert FirstPassEnd(scored, i, total, lim) == i;
    } else if total + Effort(scored[i].task) > lim.available && i >= lim.minTasks {
      assert FirstPassEnd(scored, i, total, lim) == i;
    } else {
      assert scored[..i + 1][..i] == scored[..i];
      assert SumEffort(scored[..i + 1]) == total + Effort(scored[i].task);
      FirstPassEndStops(scored, i + 1, total + Effort(scored[i].task), lim);
      assert FirstPassEnd(scored, i, total, lim) == FirstPassEnd(scored, i + 1, total + Effort(scored[i].task), lim);
    }
  }

  /** Every prefix the first pass takes beyond minTasks fits the budget. */
  lemma {:induction false} FirstPassEndFits(scored: seq<ScoredTask>, i: nat, total: int, lim: Limits)
    requires i <= |scored|
    requires total == SumEffort(scored[..i])
    ensures var k := FirstPassEnd(scored, i, total, lim);
      forall j :: i < j <= k && j > lim.minTasks ==> SumEffort(scored[..j]) <= lim.available
    decreases |scored| - i
  {
    if i == |scored| || i >= lim.maxTasks {
      assert FirstPassEnd(scored, i, total, lim) == i;
    } else if total + Effort(scored[i].task) > lim.available && i >= lim.minTasks {
      assert FirstPassEnd(scored, i, total, lim) == i;
    } else {
      assert scored[..i + 1][..i] == scored[..i];
      assert SumEffort(scored[..i + 1]) == total + Effort(scored[i].task);
      FirstPassEndFits(scored, i + 1, total + Effort(scored[i].task), lim);
      assert FirstPassEnd(scored, i, total, lim) == FirstPassEnd(scored, i + 1, total + Effort(scored[i].task), lim);
    }
  }

  // ==========================================================================
  // Top-up
  // ==========================================================================

  lemma PrefixPlates(s: seq<ScoredTask>, r: seq<ScoredTask>)
    requires |s| <= |r| && r[..|s|] == s
    ensures PlateIdsOf(s) <= PlateIdsOf(r)
  {
    forall i | 0 <= i < |s| ensures s[i].task.plateId in PlateIdsOf(r) {
      assert r[i] == s[i];
    }
  }

  /**
   * The top-up only appends: what was selected stays selected, in place. It
   * stays within maxTasks, adds only unselected entries of `scored`, and
   * leaves every plate of `plates` that has an entry in `scored` represented
   * unless maxTasks was reached.
   */
  lemma {:induction false} TopUpProperties(plates: seq<Plate>, scored: seq<ScoredTask>, selected: seq<ScoredTask>, maxTasks: nat)
    ensures var r := TopUp(plates, scored, selected, maxTasks);
      && |selected| <= |r| && r[..|selected|] == selected
      && (|selected| <= maxTasks ==> |r| <= maxTasks)
      && (forall k :: |selected| <= k < |r| ==> r[k] in scored)
      && (Distinct(selected) ==> Distinct(r))
      && (forall p :: p in plates && (exists s :: s in scored && s.task.plateId == p.id) ==>
            p.id in PlateIdsOf(r) || |r| >= maxTasks)
    decreases |plates|
  {
    var r := TopUp(plates, scored, selected, maxTasks);
    if plates == [] {
    } else if plates[0].id in PlateIdsOf(selected) {
      TopUpProperties(plates[1..], scored, selected, maxTasks);
      PrefixPlates(selected, r);
    } else if |selected| >= maxTasks {
    } else {
      var found := FindForPlate(scored, plates[0].id, selected);
      if found.Some? {
        var next := selected + [found.value];
        TopUpProperties(plates[1..], scored, next, maxTasks);
        assert r[..|next|] == next;
        assert r[..|selected|] == next[..|selected|] == selected;
        PrefixPlates(next, r);
        PlateIdsOfAppend(selected, found.value);
        forall k | |selected| <= k < |r| ensures r[k] in scored {
          if k == |selected| { assert r[k] == next[k] == found.value; }
        }
        if Distinct(selected) {
          assert Distinct(next) by {
            forall i, j | 0 <= i < j < |next| ensures next[i] != next[j] {
              if j == |selected| { assert next[i] == selected[i]; }
            }
          }
        }
      } else {
        TopUpProperties(plates[1..], scored, selected, maxTasks);
        PrefixPlates(selected, r);
      }
    }
  }

  /** The entry scored.find picks for a plate scores at least as much as every other unselected entry of that plate. */
  lemma {:induction false} FindForPlateIsBest(scored: seq<ScoredTask>, plateId: string, selected: seq<ScoredTask>)
    requires SortedBy(scored, ScoreKey)
    ensures var r := FindForPlate(scored, plateId, selected);
      r.Some? ==> forall s :: s in scored && s.task.plateId == plateId && s !in selected ==> s.score <= r.value.score
  {
    if scored != [] {
      if scored[0].task.plateId == plateId && scored[0] !in selected {
        forall s | s in scored ensures s.score <= scored[0].score {
          var k :| 0 <= k < |scored| && scored[k] == s;
          if k > 0 { assert !KeyLess(ScoreKey(scored[k]), ScoreKey(scored[0])); }
        }
      } else {
        assert SortedBy(scored[1..], ScoreKey) by {
          forall i, j | 0 <= i < j < |scored[1..]| ensures !KeyLess(ScoreKey(scored[1..][j]), ScoreKey(scored[1..][i])) {
            assert scored[1..][i] == scored[i + 1] && scored[1..][j] == scored[j + 1];
          }
        }
        FindForPlateIsBest(scored[1..], plateId, selected);
        forall s | s in scored && s.task.plateId == plateId && s !in selected ensures s in scored[1..] {
          var k :| 0 <= k < |scored| && scored[k] == s;
          if k == 0 { assert false; }
          assert scored[1..][k - 1] == s;
        }
      }
    }
  }

  // ==========================================================================
  // The plan
  // ==========================================================================

  lemma ScoredFacts(input: PlanInput, now: nat)
    ensures var hm := HealthMap(input.plates, input.recentReviews, input.recentCompletions, now);
      var raw := ScoreAll(InputCandidates(input), input.date, hm);
      && multiset(Scored(input, now)) == multiset(raw)
      && |Scored(input, now)| == |InputCandidates(input)|
      && Distinct(Scored(input, now))
      && SortedBy(Scored(input, now), ScoreKey)
  {
    var hm := HealthMap(input.plates, input.recentReviews, input.recentCompletions, now);
    var raw := ScoreAll(InputCandidates(input), input.date, hm);
    assert Distinct(raw) by {
      forall i, j | 0 <= i < j < |raw| ensures raw[i] != raw[j] {
        assert raw[i].slot == i && raw[j].slot == j;
      }
    }
    DistinctPermutation(raw, Scored(input, now));
  }

  /** Every entry of the selection is a scored candidate, and none occurs twice. */
  lemma SelectionFacts(input: PlanInput, now: nat)
    requires ValidSchedule(input.user)
    ensures forall s :: s in Selection(input, now) ==> s in Scored(input, now)
    ensures Distinct(Selection(input, now))
    ensures |Selection(input, now)| <= InputLimits(input).maxTasks
    ensures |Selection(input, now)| >= Min(InputLimits(input).minTasks, |InputCandidates(input)|)
  {
    var scored := Scored(input, now);
    var lim := InputLimits(input);
    var first := FirstPass(input, now);
    ScoredFacts(input, now);
    FirstPassEndProperties(scored, 0, 0, lim);
    assert Distinct(first);
    TopUpProperties(ActivePlates(input.plates), scored, first, lim.maxTasks);
    var sel := Selection(input, now);
    forall s | s in sel ensures s in scored {
      var k :| 0 <= k < |sel| && sel[k] == s;
      if k < |first| { assert sel[..|first|][k] == s; }
    }
  }

  /** The plan keeps the original's count bounds: at most 12 (workday) or 15 (weekend) items, and at least 8 or 10 when there are that many candidates. */
  lemma PlanSize(input: PlanInput, now: nat)
    requires ValidSchedule(input.user)
    ensures var plan := DailyPlan(input, now);
      var n := |InputCandidates(input)|;
      && (plan.dayType == Workday ==> Min(8, n) <= |plan.items| <= 12)
      && (plan.dayType == Weekend ==> Min(10, n) <= |plan.items| <= 15)
  {
    SelectionFacts(input, now);
  }

  /** Day type is workday or weekend, never holiday or day off, and the budget is at least 120 or 180 minutes. */
  lemma PlanDayType(input: PlanInput, now: nat)
    requires ValidSchedule(input.user)
    ensures var plan := DailyPlan(input, now);
      && (plan.dayType == Workday <==> Weekday(DayOf(input.date)) in input.user.workDays)
      && (plan.dayType == Weekend <==> Weekday(DayOf(input.date)) !in input.user.workDays)
      && (plan.dayType == Workday ==> plan.availableMinutes >= 120)
      && (plan.dayType == Weekend ==> plan.availableMinutes >= 180)
  {
  }

  /** The candidates with their scores, in candidate order. */
  function Unsorted(input: PlanInput, now: nat): seq<ScoredTask> {
    ScoreAll(InputCandidates(input), input.date,
      HealthMap(input.plates, input.recentReviews, input.recentCompletions, now))
  }

  /** Each scored entry is the unsorted entry at its slot, and carries the candidate there. */
  lemma ScoredSlots(input: PlanInput, now: nat)
    ensures forall s :: s in Scored(input, now) ==>
      && s.slot < |InputCandidates(input)| && s == Unsorted(input, now)[s.slot]
      && s.task == InputCandidates(input)[s.slot]
  {
    var raw := Unsorted(input, now);
    ScoredFacts(input, now);
    forall s | s in Scored(input, now)
      ensures s.slot < |InputCandidates(input)| && s == raw[s.slot] && s.task == InputCandidates(input)[s.slot]
    {
      assert s in multiset(raw);
      var k :| 0 <= k < |raw| && raw[k] == s;
    }
  }

  /** The plan order is a permutation of the selection, so it holds only scored entries and none twice. */
  lemma OrderedFacts(input: PlanInput, now: nat)
    requires ValidSchedule(input.user)
    ensures forall s :: s in Ordered(input, now) ==> s in Scored(input, now)
    ensures Distinct(Ordered(input, now))
  {
    var sel, o := Selection(input, now), Ordered(input, now);
    SelectionFacts(input, now);
    DistinctPermutation(sel, o);
    forall s | s in o ensures s in sel {
      assert s in multiset(o);
    }
  }

  /** Every planned task is one of the input tasks that passes the candidate filter; in particular no work task is planned on a weekend. */
  lemma PlanTasksAreCandidates(input: PlanInput, now: nat)
    requires ValidSchedule(input.user)
    ensures var o := Ordered(input, now);
      forall i :: 0 <= i < |o| ==>
        && o[i].task in input.tasks
        && IsCandidate(o[i].task, DayOf(input.date), InputDayType(input))
        && (o[i].task.status == Pending || o[i].task.status == InProgress)
        && !(InputDayType(input) == Weekend && o[i].task.context == AtWork)
  {
    var o := Ordered(input, now);
    var cands := InputCandidates(input);
    OrderedFacts(input, now);
    ScoredSlots(input, now);
    forall i | 0 <= i < |o| ensures o[i].task in cands {
      assert o[i] in Scored(input, now);
    }
  }

  /** With unique task ids, no task appears twice in the plan. */
  lemma PlanNoDuplicates(input: PlanInput, now: nat)
    requires ValidSchedule(input.user)
    requires UniqueIds(input.tasks)
    ensures var items := DailyPlan(input, now).items;
      forall i, j :: 0 <= i < j < |items| ==> items[i].taskId != items[j].taskId
  {
    var o := Ordered(input, now);
    var cands := InputCandidates(input);
    OrderedFacts(input, now);
    ScoredSlots(input, now);
    assert UniqueIds(cands);
    forall i, j | 0 <= i < j < |o| ensures o[i].task.id != o[j].task.id {
      assert o[i] in Scored(input, now) && o[j] in Scored(input, now);
      assert o[i] != o[j];
      if o[i].slot == o[j].slot { assert false; }
    }
  }

  lemma SelectionCovers(input: PlanInput, now: nat)
    requires ValidSchedule(input.user)
    ensures forall p :: (p in ActivePlates(input.plates) && exists s :: s in Scored(input, now) && s.task.plateId == p.id) ==>
      p.id in PlateIdsOf(Selection(input, now)) || |Selection(input, now)| >= InputLimits(input).maxTasks
  {
    TopUpProperties(ActivePlates(input.plates), Scored(input, now), FirstPass(input, now), InputLimits(input).maxTasks);
  }

  /** Every candidate task has a scored entry. */
  lemma CandidatesScored(input: PlanInput, now: nat, t: Task)
    requires t in InputCandidates(input)
    ensures exists s :: s in Scored(input, now) && s.task == t
  {
    var cands, raw := InputCandidates(input), Unsorted(input, now);
    ScoredFacts(input, now);
    var k :| 0 <= k < |cands| && cands[k] == t;
    assert raw[k] in multiset(Scored(input, now));
  }

  lemma PlateCovered(input: PlanInput, now: nat, p: Plate, t: Task)
    requires ValidSchedule(input.user)
    requires p in input.plates && p.status == PlateActive
    requires t in InputCandidates(input) && t.plateId == p.id
    ensures var o := Ordered(input, now);
      (exists i :: 0 <= i < |o| && o[i].task.plateId == p.id) || |o| == InputLimits(input).maxTasks
  {
    var sel := Selection(input, now);
    CandidatesScored(input, now, t);
    var s :| s in Scored(input, now) && s.task == t;
    assert p in ActivePlates(input.plates);
    SelectionCovers(input, now);
    assert p.id in PlateIdsOf(sel) || |sel| >= InputLimits(input).maxTasks;
    if p.id in PlateIdsOf(sel) {
      PlateInPermutation(sel, Ordered(input, now), p.id);
    } else {
      SelectionFacts(input, now);
    }
  }

  /** A plate with an entry in `a` has one in every permutation of `a`. */
  lemma PlateInPermutation(a: seq<ScoredTask>, b: seq<ScoredTask>, plateId: string)
    requires multiset(a) == multiset(b) && plateId in PlateIdsOf(a)
    ensures exists i :: 0 <= i < |b| && b[i].task.plateId == plateId
  {
    var m :| 0 <= m < |a| && a[m].task.plateId == plateId;
    assert a[m] in multiset(b);
    var i :| 0 <= i < |b| && b[i] == a[m];
  }

  /**
   * Coverage: every active plate that has a candidate task is represented in
   * the plan, unless the plan already holds the maximum number of tasks.
   */
  lemma PlanCoversPlates(input: PlanInput, now: nat)
    requires ValidSchedule(input.user)
    ensures var o := Ordered(input, now);
      forall p, t :: p in input.plates && p.status == PlateActive && t in InputCandidates(input) && t.plateId == p.id ==>
        (exists i :: 0 <= i < |o| && o[i].task.plateId == p.id) || |o| == InputLimits(input).maxTasks
  {
    forall p, t | p in input.plates && p.status == PlateActive && t in InputCandidates(input) && t.plateId == p.id
      ensures var o := Ordered(input, now);
        (exists i :: 0 <= i < |o| && o[i].task.plateId == p.id) || |o| == InputLimits(input).maxTasks
    {
      PlateCovered(input, now, p, t);
    }
  }

  /**
   * Plan order and fields: items are ordered by time preference (morning,
   * afternoon, anytime, evening), then context, then score descending;
   * sortOrder is the position; the context group is the context's label.
   */
  lemma PlanOrder(input: PlanInput, now: nat)
    requires ValidSchedule(input.user)
    ensures var o, items := Ordered(input, now), DailyPlan(input, now).items;
      && |items| == |o|
      && multiset(o) == multiset(Selection(input, now))
      && (forall i :: 0 <= i < |o| ==>
            items[i].taskId == o[i].task.id && items[i].sortOrder == i
            && items[i].contextGroup == ContextLabel(o[i].task.context))
      && (forall i, j :: 0 <= i < j < |o| ==>
            var a, b := o[i].task, o[j].task;
            || TimeRank(a.timePreference) < TimeRank(b.timePreference)
            || (TimeRank(a.timePreference) == TimeRank(b.timePreference) && ContextRank(a.context) < ContextRank(b.context))
            || (TimeRank(a.timePreference) == TimeRank(b.timePreference) && ContextRank(a.context) == ContextRank(b.context)
                && o[i].score >= o[j].score))
  {
    var o := Ordered(input, now);
    forall i, j | 0 <= i < j < |o| ensures !KeyLess(PlanKey(o[j]), PlanKey(o[i])) {
    }
  }

  /** The first pass takes the highest-scoring candidates in order and respects the budget once the minimum count is reached. */
  lemma FirstPassIsGreedy(input: PlanInput, now: nat)
    requires ValidSchedule(input.user)
    ensures var scored, first, lim := Scored(input, now), FirstPass(input, now), InputLimits(input);
      && first == scored[..|first|]
      && (|first| == |scored| || |first| == lim.maxTasks
          || (|first| >= lim.minTasks && SumEffort(first) + Effort(scored[|first|].task) > lim.available))
      && (|first| > lim.minTasks ==> SumEffort(first) <= lim.available)
  {
    var scored := Scored(input, now);
    var lim := InputLimits(input);
    FirstPassEndProperties(scored, 0, 0, lim);
  }

  /** A plate's top-up task is its highest-scoring candidate not yet selected. */
  lemma TopUpPicksBest(input: PlanInput, now: nat, plateId: string, selected: seq<ScoredTask>)
    ensures var scored := Scored(input, now);
      var r := FindForPlate(scored, plateId, selected);
      r.Some? ==> forall s :: s in scored && s.task.plateId == plateId && s !in selected ==> s.score <= r.value.score
  {
    ScoredFacts(input, now);
    FindForPlateIsBest(Scored(input, now), plateId, selected);
  }
}
