/**
 * The selection reducers of the onboarding wizard
 * (src/components/OnboardingWizard.tsx): choosing pillars, toggling and adding
 * their tasks, toggling work days, and the task requests built on finishing.
 */
module OnboardingWizard {
  import opened Wrappers
  import opened Types
  import opened Sorting

  datatype PillarKind = Ongoing | Goal

  /** A suggested pillar: name, icon, colour, kind and description. */
  datatype SuggestedPillar = SuggestedPillar(name: string, icon: string, color: string, kind: PillarKind, description: string)

  datatype Recurrence = OneTime | DailyTask | WeeklyTask | CustomTask

  /** A suggested task; `days` are weekdays for a weekly task. */
  datatype SuggestedTask = SuggestedTask(title: string, recurrence: Recurrence, days: Option<seq<int>>)

  datatype SelectedTask = SelectedTask(title: string, recurrence: Recurrence, days: Option<seq<int>>, selected: bool)

  /** A chosen pillar with its task list. */
  datatype SelectedPillar = SelectedPillar(info: SuggestedPillar, selectedTasks: seq<SelectedTask>)

  // ==========================================================================
  // togglePillar
  // ==========================================================================

  /** `prev.find((p) => p.name === name)` finds something. */
  predicate HasPillar(prev: seq<SelectedPillar>, name: string) {
    exists i :: 0 <= i < |prev| && prev[i].info.name == name
  }

  /** `prev.filter((p) => p.name !== name)`. */
  function WithoutPillar(prev: seq<SelectedPillar>, name: string): (r: seq<SelectedPillar>)
    ensures |r| <= |prev|
  {
    if prev == [] then []
    else (if prev[0].info.name != name then [prev[0]] else []) + WithoutPillar(prev[1..], name)
  }

  /** The pillars left are exactly the chosen ones with another name. */
  lemma {:induction false} WithoutPillarMembers(prev: seq<SelectedPillar>, name: string)
    ensures forall p :: p in WithoutPillar(prev, name) <==> p in prev && p.info.name != name
  {
    if prev != [] {
      WithoutPillarMembers(prev[1..], name);
      assert forall p :: p in prev <==> p == prev[0] || p in prev[1..];
    }
  }

  lemma {:induction false} WithoutPillarAppend(prev: seq<SelectedPillar>, x: SelectedPillar, name: string)
    ensures WithoutPillar(prev + [x], name) == WithoutPillar(prev, name) + (if x.info.name != name then [x] else [])
  {
    if prev != [] {
      var h := if prev[0].info.name != name then [prev[0]] else [];
      var hx := if x.info.name != name then [x] else [];
      var w := WithoutPillar(prev[1..], name);
      assert (prev + [x])[0] == prev[0] && (prev + [x])[1..] == prev[1..] + [x];
      assert WithoutPillar(prev + [x], name) == h + WithoutPillar(prev[1..] + [x], name);
      WithoutPillarAppend(prev[1..], x, name);
      assert WithoutPillar(prev, name) == h + w;
      assert h + (w + hx) == (h + w) + hx;
    } else {
      assert [x][1..] == [];
    }
  }

  lemma {:induction false} WithoutAbsentPillar(prev: seq<SelectedPillar>, name: string)
    requires !HasPillar(prev, name)
    ensures WithoutPillar(prev, name) == prev
  {
    if prev != [] {
      assert !HasPillar(prev[1..], name) by {
        forall i | 0 <= i < |prev[1..]| ensures prev[1..][i].info.name != name {
          assert prev[1..][i] == prev[i + 1];
        }
      }
      WithoutAbsentPillar(prev[1..], name);
      assert prev[0].info.name != name;
    }
  }

  /** `SUGGESTED_TASKS[name] || []`, the suggestion table being a parameter. */
  function Suggestions(table: map<string, seq<SuggestedTask>>, name: string): seq<SuggestedTask> {
    if name in table then table[name] else []
  }

  /** `suggestions.map((t) => ({ ...t, selected: true }))`. */
  function Preselected(suggestions: seq<SuggestedTask>): (r: seq<SelectedTask>)
    ensures |r| == |suggestions|
    ensures forall k :: 0 <= k < |r| ==>
      r[k] == SelectedTask(suggestions[k].title, suggestions[k].recurrence, suggestions[k].days, true)
  {
    seq(|suggestions|, k requires 0 <= k < |suggestions| =>
      SelectedTask(suggestions[k].title, suggestions[k].recurrence, suggestions[k].days, true))
  }

  /**
   * togglePillar: a pillar already chosen (by name) is removed, otherwise it
   * is appended with all its suggested tasks selected.
   */
  function TogglePillar(prev: seq<SelectedPillar>, pillar: SuggestedPillar, table: map<string, seq<SuggestedTask>>): (r: seq<SelectedPillar>)
    ensures HasPillar(prev, pillar.name) ==>
      && !HasPillar(r, pillar.name)
      && forall p :: p in r <==> p in prev && p.info.name != pillar.name
    ensures !HasPillar(prev, pillar.name) ==>
      && |r| == |prev| + 1
      && r[..|prev|] == prev
      && r[|prev|].info == pillar
      && r[|prev|].selectedTasks == Preselected(Suggestions(table, pillar.name))
      && |r[|prev|].selectedTasks| == |Suggestions(table, pillar.name)|
      && forall k :: 0 <= k < |r[|prev|].selectedTasks| ==>
           var s := Suggestions(table, pillar.name)[k];
           r[|prev|].selectedTasks[k] == SelectedTask(s.title, s.recurrence, s.days, true)
  {
    if HasPillar(prev, pillar.name) then
      var r := WithoutPillar(prev, pillar.name);
      WithoutPillarMembers(prev, pillar.name);
      assert !HasPillar(r, pillar.name) by {
        forall i | 0 <= i < |r| ensures r[i].info.name != pillar.name {
          assert r[i] in r;
        }
      }
      r
    else
      prev + [SelectedPillar(pillar, Preselected(Suggestions(table, pillar.name)))]
  }

  /** Choosing a pillar that was not chosen and then toggling it again gives back the list. */
  lemma TogglePillarTwice(prev: seq<SelectedPillar>, pillar: SuggestedPillar, table: map<string, seq<SuggestedTask>>)
    requires !HasPillar(prev, pillar.name)
    ensures TogglePillar(TogglePillar(prev, pillar, table), pillar, table) == prev
  {
    var added := SelectedPillar(pillar, Preselected(Suggestions(table, pillar.name)));
    var once := TogglePillar(prev, pillar, table);
    assert once == prev + [added];
    assert once[|prev|].info.name == pillar.name;
    assert HasPillar(once, pillar.name);
    WithoutPillarAppend(prev, added, pillar.name);
    WithoutAbsentPillar(prev, pillar.name);
  }

  // ==========================================================================
  // toggleTask and addCustomTask
  // ==========================================================================

  /** `tasks.map((t) => t.title === title ? { ...t, selected: !t.selected } : t)`. */
  function FlipTitle(tasks: seq<SelectedTask>, title: string): (r: seq<SelectedTask>) {
    seq(|tasks|, j requires 0 <= j < |tasks| =>
      if tasks[j].title == title then tasks[j].(selected := !tasks[j].selected) else tasks[j])
  }

  /** toggleTask: flips `selected` of the tasks with the title, in the pillars with the name. */
  function ToggleTask(prev: seq<SelectedPillar>, pillarName: string, taskTitle: string): (r: seq<SelectedPillar>)
    ensures |r| == |prev|
    ensures forall k :: 0 <= k < |prev| ==> r[k].info == prev[k].info
    ensures forall k :: 0 <= k < |prev| && prev[k].info.name != pillarName ==> r[k] == prev[k]
    ensures forall k :: 0 <= k < |prev| && prev[k].info.name == pillarName ==>
      && |r[k].selectedTasks| == |prev[k].selectedTasks|
      && forall j :: 0 <= j < |prev[k].selectedTasks| ==>
           var t, u := prev[k].selectedTasks[j], r[k].selectedTasks[j];
           && u.title == t.title && u.recurrence == t.recurrence && u.days == t.days
           && (u.selected <==> (if t.title == taskTitle then !t.selected else t.selected))
  {
    seq(|prev|, k requires 0 <= k < |prev| =>
      if prev[k].info.name != pillarName then prev[k]
      else prev[k].(selectedTasks := FlipTitle(prev[k].selectedTasks, taskTitle)))
  }

  /** Toggling the same task twice restores the pillars. */
  lemma ToggleTaskTwice(prev: seq<SelectedPillar>, pillarName: string, taskTitle: string)
    ensures ToggleTask(ToggleTask(prev, pillarName, taskTitle), pillarName, taskTitle) == prev
  {
    var once := ToggleTask(prev, pillarName, taskTitle);
    var twice := ToggleTask(once, pillarName, taskTitle);
    forall k | 0 <= k < |prev| ensures twice[k] == prev[k] {
      if prev[k].info.name == pillarName {
        assert twice[k].selectedTasks == prev[k].selectedTasks;
      }
    }
  }

  /** The task addCustomTask appends. */
  function CustomTask(title: string): SelectedTask {
    SelectedTask(title, OneTime, None, true)
  }

  /** addCustomTask: appends a selected one-time task to the pillars with the name. */
  function AddCustomTask(prev: seq<SelectedPillar>, pillarName: string, title: string): (r: seq<SelectedPillar>)
    ensures |r| == |prev|
    ensures forall k :: 0 <= k < |prev| ==> r[k].info == prev[k].info
    ensures forall k :: 0 <= k < |prev| && prev[k].info.name != pillarName ==> r[k] == prev[k]
    ensures forall k :: 0 <= k < |prev| && prev[k].info.name == pillarName ==>
      && |r[k].selectedTasks| == |prev[k].selectedTasks| + 1
      && r[k].selectedTasks[..|prev[k].selectedTasks|] == prev[k].selectedTasks
      && var t := r[k].selectedTasks[|prev[k].selectedTasks|];
         t.title == title && t.recurrence == OneTime && t.days.None? && t.selected
  {
    seq(|prev|, k requires 0 <= k < |prev| =>
      if prev[k].info.name != pillarName then prev[k]
      else prev[k].(selectedTasks := prev[k].selectedTasks + [CustomTask(title)]))
  }

  // ==========================================================================
  // Selected tasks and their count
  // ==========================================================================

  /** `tasks.filter((t) => t.selected)`. */
  function SelectedOnly(tasks: seq<SelectedTask>): (r: seq<SelectedTask>)
    ensures |r| <= |tasks|
    ensures forall t :: t in r <==> t in tasks && t.selected
  {
    if tasks == [] then []
    else
      assert forall t :: t in tasks <==> t == tasks[0] || t in tasks[1..];
      (if tasks[0].selected then [tasks[0]] else []) + SelectedOnly(tasks[1..])
  }

  lemma {:induction false} SelectedOnlyAppend(tasks: seq<SelectedTask>, t: SelectedTask)
    ensures SelectedOnly(tasks + [t]) == SelectedOnly(tasks) + (if t.selected then [t] else [])
  {
    if tasks != [] {
      assert (tasks + [t])[1..] == tasks[1..] + [t];
      SelectedOnlyAppend(tasks[1..], t);
    } else {
      assert [t][1..] == [];
    }
  }

  /**
   * `pillars.reduce((acc, p) => acc + p.selectedTasks.filter((t) => t.selected).length, 0)`.
   */
  function TotalTasks(pillars: seq<SelectedPillar>): nat {
    if pillars == [] then 0
    else TotalTasks(pillars[..|pillars| - 1]) + |SelectedOnly(pillars[|pillars| - 1].selectedTasks)|
  }

  /** A list whose tasks are all selected is its own selection. */
  lemma {:induction false} AllSelected(tasks: seq<SelectedTask>)
    requires forall k :: 0 <= k < |tasks| ==> tasks[k].selected
    ensures SelectedOnly(tasks) == tasks
  {
    if tasks != [] {
      AllSelected(tasks[1..]);
      assert tasks == [tasks[0]] + tasks[1..];
    }
  }

  /** Choosing a new pillar adds every one of its suggested tasks to the total. */
  lemma TogglePillarAddsSuggestions(prev: seq<SelectedPillar>, pillar: SuggestedPillar, table: map<string, seq<SuggestedTask>>)
    requires !HasPillar(prev, pillar.name)
    ensures TotalTasks(TogglePillar(prev, pillar, table)) == TotalTasks(prev) + |Suggestions(table, pillar.name)|
  {
    var r := TogglePillar(prev, pillar, table);
    assert r[..|r| - 1] == prev;
    AllSelected(r[|prev|].selectedTasks);
  }

  /** The number of pillars with a name. */
  function PillarsNamed(pillars: seq<SelectedPillar>, name: string): nat {
    if pillars == [] then 0
    else PillarsNamed(pillars[..|pillars| - 1], name) + (if pillars[|pillars| - 1].info.name == name then 1 else 0)
  }

  /** A custom task adds one to the task count of every pillar it is added to. */
  lemma {:induction false} AddCustomTaskCount(prev: seq<SelectedPillar>, pillarName: string, title: string)
    ensures TotalTasks(AddCustomTask(prev, pillarName, title)) == TotalTasks(prev) + PillarsNamed(prev, pillarName)
  {
    if prev != [] {
      var r := AddCustomTask(prev, pillarName, title);
      var n := |prev| - 1;
      assert r[..n] == AddCustomTask(prev[..n], pillarName, title);
      AddCustomTaskCount(prev[..n], pillarName, title);
      if prev[n].info.name == pillarName {
        assert r[n].selectedTasks == prev[n].selectedTasks + [CustomTask(title)];
        SelectedOnlyAppend(prev[n].selectedTasks, CustomTask(title));
      }
    }
  }

  // ==========================================================================
  // The task requests of handleFinish
  // ==========================================================================

  /** `task.recurrence !== 'one-time'`. */
  predicate IsRecurring(task: SelectedTask) { task.recurrence != OneTime }

  /** The recurrence rule sent for a task: daily, weekly with its days, or none. */
  function RuleFor(task: SelectedTask): (r: Option<RecurrenceRule>)
    ensures r.Some? <==> task.recurrence == DailyTask || (task.recurrence == WeeklyTask && task.days.Some?)
    ensures task.recurrence == DailyTask ==> r == Some(RecurrenceRule(Daily, None, None, None, None))
    ensures r.Some? && task.recurrence != DailyTask ==> r.value.pattern == Weekly && r.value.days == task.days
    ensures r.Some? ==> r.value.dayOfMonth.None? && r.value.interval.None? && r.value.endDate.None?
  {
    if task.recurrence == DailyTask then Some(RecurrenceRule(Daily, None, None, None, None))
    else if task.recurrence == WeeklyTask && task.days.Some? then Some(RecurrenceRule(Weekly, task.days, None, None, None))
    else None
  }

  /** The body of one POST /api/tasks. */
  datatype TaskRequest = TaskRequest(pillarId: string, title: string, isRecurring: bool, recurrenceRule: Option<RecurrenceRule>)

  function RequestFor(pillarId: string, task: SelectedTask): TaskRequest {
    TaskRequest(pillarId, task.title, IsRecurring(task), RuleFor(task))
  }

  /** The requests for one created pillar: one per selected task, in order. */
  function PillarRequests(pillarId: string, pillar: SelectedPillar): (r: seq<TaskRequest>)
    ensures |r| == |SelectedOnly(pillar.selectedTasks)|
    ensures forall k :: 0 <= k < |r| ==> r[k] == RequestFor(pillarId, SelectedOnly(pillar.selectedTasks)[k])
  {
    var tasks := SelectedOnly(pillar.selectedTasks);
    seq(|tasks|, k requires 0 <= k < |tasks| => RequestFor(pillarId, tasks[k]))
  }

  /**
   * All task requests of handleFinish; `created[i]` is the id returned for
   * pillar i, or None when its creation failed and the pillar is skipped.
   */
  function FinishRequests(pillars: seq<SelectedPillar>, created: seq<Option<string>>): seq<TaskRequest>
    requires |created| == |pillars|
  {
    if pillars == [] then []
    else
      var n := |pillars| - 1;
      FinishRequests(pillars[..n], created[..n])
        + (if created[n].Some? then PillarRequests(created[n].value, pillars[n]) else [])
  }

  /**
   * Every request is for a selected task of a pillar that was created, and
   * when every pillar is created the number of requests is the task count
   * shown on the tasks step.
   */
  lemma {:induction false} FinishRequestsAreSelected(pillars: seq<SelectedPillar>, created: seq<Option<string>>)
    requires |created| == |pillars|
    ensures |FinishRequests(pillars, created)| <= TotalTasks(pillars)
    ensures (forall i :: 0 <= i < |created| ==> created[i].Some?) ==> |FinishRequests(pillars, created)| == TotalTasks(pillars)
    ensures forall q :: q in FinishRequests(pillars, created) ==>
      exists i, t :: 0 <= i < |pillars| && created[i] == Some(q.pillarId) && t in pillars[i].selectedTasks && t.selected && q == RequestFor(q.pillarId, t)
  {
    if pillars != [] {
      var n := |pillars| - 1;
      FinishRequestsAreSelected(pillars[..n], created[..n]);
      var rest := FinishRequests(pillars[..n], created[..n]);
      var last := if created[n].Some? then PillarRequests(created[n].value, pillars[n]) else [];
      assert FinishRequests(pillars, created) == rest + last;
      forall q | q in FinishRequests(pillars, created)
        ensures exists i, t :: 0 <= i < |pillars| && created[i] == Some(q.pillarId) && t in pillars[i].selectedTasks && t.selected && q == RequestFor(q.pillarId, t)
      {
        if q in rest {
          var i, t :| 0 <= i < n && created[..n][i] == Some(q.pillarId) && t in pillars[..n][i].selectedTasks && t.selected && q == RequestFor(q.pillarId, t);
          assert created[i] == created[..n][i] && pillars[i] == pillars[..n][i];
        } else {
          assert q in last;
          var k :| 0 <= k < |last| && last[k] == q;
          var t := SelectedOnly(pillars[n].selectedTasks)[k];
          assert t in SelectedOnly(pillars[n].selectedTasks);
          assert created[n] == Some(q.pillarId) && t in pillars[n].selectedTasks && t.selected && q == RequestFor(q.pillarId, t);
        }
      }
      if forall i :: 0 <= i < |created| ==> created[i].Some? {
        assert forall i :: 0 <= i < |created[..n]| ==> created[..n][i].Some? by {
          forall i | 0 <= i < |created[..n]| ensures created[..n][i].Some? {
            assert created[..n][i] == created[i];
          }
        }
      }
    }
  }

  // ==========================================================================
  // toggleWorkDay
  // ==========================================================================

  /** `days.filter((d) => d !== day)`. */
  function WithoutDay(days: seq<int>, day: int): (r: seq<int>)
    ensures multiset(r) == multiset(days)[day := 0]
    ensures Ascending(days) ==> Ascending(r)
  {
    if days == [] then []
    else
      var rest := WithoutDay(days[1..], day);
      WithoutDayCons(days, day, rest);
      if days[0] != day then [days[0]] + rest else rest
  }

  lemma WithoutDayCons(days: seq<int>, day: int, rest: seq<int>)
    requires days != []
    requires multiset(rest) == multiset(days[1..])[day := 0]
    requires Ascending(days[1..]) ==> Ascending(rest)
    ensures var r := if days[0] != day then [days[0]] + rest else rest;
      && multiset(r) == multiset(days)[day := 0]
      && (Ascending(days) ==> Ascending(r))
  {
    WithoutDayCount(days, day, rest);
    if Ascending(days) {
      AscendingTail(days);
      WithoutDayOrder(days, day, rest);
    }
  }

  lemma WithoutDayCount(days: seq<int>, day: int, rest: seq<int>)
    requires days != []
    requires multiset(rest) == multiset(days[1..])[day := 0]
    ensures multiset(if days[0] != day then [days[0]] + rest else rest) == multiset(days)[day := 0]
  {
    assert days == [days[0]] + days[1..];
    var m, r := multiset(days), multiset(if days[0] != day then [days[0]] + rest else rest);
    assert m == multiset{days[0]} + multiset(days[1..]);
    forall x ensures r[x] == m[day := 0][x] {
      if x == day {
        assert r[x] == 0;
      }
    }
  }

  lemma WithoutDayOrder(days: seq<int>, day: int, rest: seq<int>)
    requires days != [] && Ascending(days) && Ascending(rest)
    requires multiset(rest) == multiset(days[1..])[day := 0]
    ensures Ascending(if days[0] != day then [days[0]] + rest else rest)
  {
    if days[0] != day {
      forall x | x in rest ensures days[0] <= x {
        assert x in multiset(rest);
        assert x in multiset(days[1..]);
        var j :| 0 <= j < |days[1..]| && days[1..][j] == x;
        assert days[j + 1] == x;
      }
      var r := [days[0]] + rest;
      forall i, j | 0 <= i < j < |r| ensures r[i] <= r[j] {
        if i > 0 { assert r[i] == rest[i - 1] && r[j] == rest[j - 1]; }
        else { assert r[j] == rest[j - 1] && r[j] in rest; }
      }
    }
  }

  /**
   * toggleWorkDay: a day that is a work day is removed, any other day is
   * added and the days are sorted numerically.
   */
  function ToggleWorkDay(days: seq<int>, day: int): (r: seq<int>)
    ensures day in days ==> multiset(r) == multiset(days)[day := 0]
    ensures day !in days ==> multiset(r) == multiset(days) + multiset{day} && Ascending(r)
    ensures Ascending(days) ==> Ascending(r)
    ensures forall d :: d in r <==> if d == day then day !in days else d in days
  {
    var r := if day in days then WithoutDay(days, day) else StableSort(days + [day], IntKey);
    assert forall d :: d in r <==> d in multiset(r);
    assert forall d :: d in days <==> d in multiset(days);
    if day in days then r else SortedAscending(r); r
  }

  lemma AddThenClear(m: multiset<int>, day: int)
    requires m[day] == 0
    ensures (m + multiset{day})[day := 0] == m
  {
    forall x ensures (m + multiset{day})[day := 0][x] == m[x] {
      if x != day { assert (m + multiset{day})[x] == m[x]; }
    }
  }

  lemma ClearThenAdd(m: multiset<int>, day: int)
    requires m[day] == 1
    ensures m[day := 0] + multiset{day} == m
  {
    forall x ensures (m[day := 0] + multiset{day})[x] == m[x] {
      if x != day { assert m[day := 0][x] == m[x]; }
    }
  }

  /** Adding a day that is not a work day and toggling it again gives back ascending work days. */
  lemma ToggleWorkDayAddRemove(days: seq<int>, day: int)
    requires Ascending(days) && day !in days
    ensures ToggleWorkDay(ToggleWorkDay(days, day), day) == days
  {
    var once := ToggleWorkDay(days, day);
    assert day in once;
    var twice := ToggleWorkDay(once, day);
    assert multiset(days)[day] == 0;
    AddThenClear(multiset(days), day);
    AscendingUnique(twice, days);
  }

  /** Removing a work day listed once and toggling it again gives back ascending work days. */
  lemma ToggleWorkDayRemoveAdd(days: seq<int>, day: int)
    requires Ascending(days) && multiset(days)[day] == 1
    ensures ToggleWorkDay(ToggleWorkDay(days, day), day) == days
  {
    assert day in multiset(days);
    var once := ToggleWorkDay(days, day);
    assert day !in once;
    var twice := ToggleWorkDay(once, day);
    ClearThenAdd(multiset(days), day);
    AscendingUnique(twice, days);
  }
}
