/**
 * Task lifecycle logic of the task store (src/lib/db/tasks.ts) without the
 * SQL: the next date of a recurring task, the days of a month, and the
 * updates that creating, completing and skipping a task make to its record.
 * Dates are day numbers and instants are milliseconds, as in Calendar; `now`
 * stands for the wall clock that the original reads.
 */
module TaskStore {
  import opened Wrappers
  import opened Types
  import opened Calendar
  import opened Sorting

  function Min(a: int, b: int): int { if a <= b then a else b }

  // ==========================================================================
  // daysInMonth
  // ==========================================================================

  /** daysInMonth(year, month): the day of `new Date(year, month + 1, 0)`, the last of the month. */
  function DaysInMonthOf(year: int, month: int): (r: int)
    requires year >= EpochYear && 0 <= month < 12
    ensures r == DaysInMonth(year, month)
    ensures 28 <= r <= 31
  {
    var last := MakeDay(year, month + 1, 0);
    FirstOfNextMonth(year, month);
    assert last == FirstOfMonth(year, month) + DaysInMonth(year, month) - 1;
    FromDayInMonth(last, year, month);
    FromDay(last).day
  }

  // ==========================================================================
  // calculateNextOccurrence
  // ==========================================================================

  /** Array.prototype.find(d => d > cur). */
  function FindAfter(s: seq<int>, cur: int): (r: Option<int>)
    ensures r.None? <==> forall x :: x in s ==> x <= cur
    ensures r.Some? ==> r.value in s && r.value > cur
    ensures r.Some? && Ascending(s) ==> forall x :: x in s && x > cur ==> r.value <= x
  {
    if s == [] then None
    else if s[0] > cur then assert s[0] in s; Some(s[0])
    else
      var r := FindAfter(s[1..], cur);
      assert Ascending(s) ==> Ascending(s[1..]) by {
        if Ascending(s) {
          forall i, j | 0 <= i < j < |s[1..]| ensures s[1..][i] <= s[1..][j] {
            assert s[1..][i] == s[i + 1] && s[1..][j] == s[j + 1];
          }
        }
      }
      assert forall x :: x in s <==> x == s[0] || x in s[1..];
      r
  }

  /** next.setDate(next.getDate() + k) on the day `from`. */
  function AddDays(from: nat, k: int): (r: int)
    ensures r == from + k
  {
    SetDateAdd(from, k);
    SetDate(from, FromDay(from).day + k)
  }

  /** The weekly step with listed weekdays: the next listed weekday after today's, else the first one of next week. */
  function WeeklyNext(days: seq<int>, from: nat): int
    requires |days| > 0
  {
    var cur := Weekday(from);
    var sorted := StableSort(days, IntKey);
    match FindAfter(sorted, cur)
    case Some(nextDay) => AddDays(from, nextDay - cur)
    case None => AddDays(from, 7 - cur + sorted[0])
  }

  /** The monthly step: the same day of the next month, then the given day of that month, capped at its length. */
  function MonthlyNext(dayOfMonth: Option<int>, from: nat): int {
    var moved := SetMonth(from, FromDay(from).month + 1);
    if Truthy(dayOfMonth) then
      var m := FromDay(moved);
      SetDate(moved, Min(dayOfMonth.value, DaysInMonthOf(m.year, m.month)))
    else moved
  }

  /** The date a rule moves `from` to, before the end date is considered. */
  function NextDate(rule: RecurrenceRule, from: nat): int {
    match rule.pattern
    case Daily => AddDays(from, 1)
    case Weekly =>
      if rule.days.Some? && |rule.days.value| > 0 then WeeklyNext(rule.days.value, from)
      else AddDays(from, 7)
    case Biweekly => AddDays(from, 14)
    case Monthly => MonthlyNext(rule.dayOfMonth, from)
    case Custom => AddDays(from, if Truthy(rule.interval) then rule.interval.value else 1)
  }

  /** The result is absent exactly when the rule has an end date and the next date is after it. */
  function NextOccurrence(rule: RecurrenceRule, from: nat): (r: Option<int>)
    ensures r.None? <==> rule.endDate.Some? && NextDate(rule, from) > rule.endDate.value
    ensures r.Some? ==> r.value == NextDate(rule, from)
  {
    var next := NextDate(rule, from);
    if rule.endDate.Some? && next > rule.endDate.value then None else Some(next)
  }

  /**
   * calculateNextOccurrence(rule, fromDate), from the day of `fromDate`
   * (its time set to midnight): one calendar step on the date `next`, chosen
   * by the pattern, then the end-date check.
   */
  method CalculateNextOccurrence(rule: RecurrenceRule, from: nat) returns (r: Option<int>)
    ensures r == NextOccurrence(rule, from)
  {
    var next: int := from;
    match rule.pattern {
      case Daily =>
        next := AddDays(from, 1);
      case Weekly =>
        if rule.days.Some? && |rule.days.value| > 0 {
          next := WeeklyStep(rule.days.value, from);
        } else {
          next := AddDays(from, 7);
        }
      case Biweekly =>
        next := AddDays(from, 14);
      case Monthly =>
        next := MonthlyStep(rule.dayOfMonth, from);
      case Custom =>
        next := AddDays(from, if Truthy(rule.interval) then rule.interval.value else 1);
    }
    assert next == NextDate(rule, from);
    if rule.endDate.Some? && next > rule.endDate.value {
      return None;
    }
    return Some(next);
  }

  /** The weekly branch with listed days: sort the days, then find the next one after today's weekday. */
  method WeeklyStep(days: seq<int>, from: nat) returns (next: int)
    requires |days| > 0
    ensures next == WeeklyNext(days, from)
  {
    var currentDay := Weekday(from);
    var sortedDays := StableSort(days, IntKey);
    var nextDay := FindAfter(sortedDays, currentDay);
    if nextDay.Some? {
      next := AddDays(from, nextDay.value - currentDay);
    } else {
      next := AddDays(from, 7 - currentDay + sortedDays[0]);
    }
  }

  /** The monthly branch: setMonth(getMonth() + 1), then setDate(min(dayOfMonth, days in that month)). */
  method MonthlyStep(dayOfMonth: Option<int>, from: nat) returns (next: int)
    ensures next == MonthlyNext(dayOfMonth, from)
  {
    next := SetMonth(from, FromDay(from).month + 1);
    if Truthy(dayOfMonth) {
      var m := FromDay(next);
      next := SetDate(next, Min(dayOfMonth.value, DaysInMonthOf(m.year, m.month)));
    }
  }

  // ==========================================================================
  // Properties of the next date
  // ==========================================================================

  /** The fixed steps: a day, a week without listed days, two weeks, and `interval` days (1 when 0 or absent). */
  lemma FixedSteps(rule: RecurrenceRule, from: nat)
    ensures rule.pattern == Daily ==> NextDate(rule, from) == from + 1
    ensures rule.pattern == Weekly && (rule.days.None? || rule.days.value == []) ==> NextDate(rule, from) == from + 7
    ensures rule.pattern == Biweekly ==> NextDate(rule, from) == from + 14
    ensures rule.pattern == Custom && !Truthy(rule.interval) ==> NextDate(rule, from) == from + 1
    ensures rule.pattern == Custom && Truthy(rule.interval) ==> NextDate(rule, from) == from + rule.interval.value
  {
  }

  /** Days ahead of a weekday `cur`, the weekday reached `j` days on. */
  lemma WeekdayAhead(from: nat, j: int)
    requires 0 <= Weekday(from) + j < 14
    ensures Weekday(from + j) == if Weekday(from) + j < 7 then Weekday(from) + j else Weekday(from) + j - 7
  {
    WeekdayAdvance(from, j);
  }

  /** `d` is 1 to 7 days after `from`, on a listed weekday, and no listed weekday falls strictly between. */
  predicate NextListed(days: seq<int>, from: nat, d: int) {
    && from < d <= from + 7
    && Weekday(d) in days
    && forall k :: from < k < d ==> Weekday(k) !in days
  }

  lemma WeeklyFound(days: seq<int>, sorted: seq<int>, from: nat, nd: int, d: int)
    requires forall x :: x in days <==> x in sorted
    requires forall x :: x in days ==> 0 <= x <= 6
    requires nd in sorted && nd > Weekday(from)
    requires forall x :: x in sorted && x > Weekday(from) ==> nd <= x
    requires d == from + (nd - Weekday(from))
    ensures NextListed(days, from, d)
  {
    var cur := Weekday(from);
    WeekdayAhead(from, nd - cur);
    forall k | from < k < d ensures Weekday(k) !in days {
      WeekdayAhead(from, k - from);
      assert from + (k - from) == k;
    }
  }

  lemma WeeklyWrapped(days: seq<int>, sorted: seq<int>, from: nat, d: int)
    requires forall x :: x in days <==> x in sorted
    requires forall x :: x in days ==> 0 <= x <= 6
    requires Ascending(sorted) && |sorted| > 0
    requires forall x :: x in sorted ==> x <= Weekday(from)
    requires d == from + (7 - Weekday(from) + sorted[0])
    ensures NextListed(days, from, d)
  {
    var cur := Weekday(from);
    var m := sorted[0];
    assert m in sorted;
    assert forall x :: x in sorted ==> m <= x by {
      forall x | x in sorted ensures m <= x {
        var i :| 0 <= i < |sorted| && sorted[i] == x;
        if i > 0 { assert sorted[0] <= sorted[i]; }
      }
    }
    WeekdayAhead(from, 7 - cur + m);
    forall k | from < k < d ensures Weekday(k) !in days {
      WeekdayAhead(from, k - from);
      assert from + (k - from) == k;
    }
  }

  /**
   * Weekly with listed weekdays 0..6: the next date is 1 to 7 days ahead, on
   * a listed weekday, and no listed weekday falls strictly between.
   */
  lemma WeeklyNextListedDay(days: seq<int>, from: nat)
    requires |days| > 0
    requires forall x :: x in days ==> 0 <= x <= 6
    ensures NextListed(days, from, WeeklyNext(days, from))
  {
    var sorted := StableSort(days, IntKey);
    SortedDays(days);
    var d := WeeklyNext(days, from);
    match FindAfter(sorted, Weekday(from))
    case Some(nd) =>
      WeeklyFound(days, sorted, from, nd, d);
    case None =>
      WeeklyWrapped(days, sorted, from, d);
  }

  /** The sorted copy of the weekdays holds the same weekdays, in ascending order. */
  lemma SortedDays(days: seq<int>)
    ensures var sorted := StableSort(days, IntKey);
      Ascending(sorted) && |sorted| == |days| && forall x :: x in days <==> x in sorted
  {
    var sorted := StableSort(days, IntKey);
    SameMembers(days, sorted);
    SortedAscending(sorted);
  }

  lemma SameMembers(a: seq<int>, b: seq<int>)
    requires multiset(a) == multiset(b)
    ensures forall x :: x in a <==> x in b
  {
    forall x ensures x in a <==> x in b {
      assert x in a <==> x in multiset(a);
      assert x in b <==> x in multiset(b);
    }
  }

  /** The date setMonth(getMonth() + 1) gives, and the month it falls in. */
  lemma MonthlyMoved(from: nat)
    ensures var c := FromDay(from);
      var moved := SetMonth(from, c.month + 1);
      var (y, m) := NextMonth(c.year, c.month);
      var c2 := FromDay(moved);
      && from < FirstOfMonth(y, m) <= moved
      && FirstOfMonth(c2.year, c2.month) > from
      && (c.day <= 28 ==> c2 == Civil(y, m, c.day))
  {
    var c := FromDay(from);
    var moved := SetMonth(from, c.month + 1);
    var (y, m) := NextMonth(c.year, c.month);
    var c2 := FromDay(moved);
    SetMonthNext(from);
    FirstOfNextMonth(c.year, c.month);
    assert FirstOfMonth(y, m) == FirstOfMonth(c.year, c.month) + DaysInMonth(c.year, c.month);
    if FirstOfMonth(c2.year, c2.month) <= from {
      assert ToDay(c2) == moved;
      FromDayInMonth(from, c2.year, c2.month);
      assert false;
    }
    if c.day <= 28 {
      FromDayInMonth(moved, y, m);
    }
  }

  /**
   * Monthly: the date lands in the month reached by setMonth, on
   * min(dayOfMonth, days of that month) when a day of the month is given;
   * it is strictly after `from`, and in the next month when `from`'s day of
   * the month is at most 28.
   */
  lemma MonthlyDayOfMonth(dayOfMonth: Option<int>, from: nat)
    requires Truthy(dayOfMonth) ==> dayOfMonth.value >= 1
    ensures var c, d := FromDay(from), MonthlyNext(dayOfMonth, from);
      var (y, m) := NextMonth(c.year, c.month);
      var c2 := FromDay(SetMonth(from, c.month + 1));
      && d > from
      && FromDay(d).year == c2.year && FromDay(d).month == c2.month
      && (Truthy(dayOfMonth) ==> FromDay(d).day == Min(dayOfMonth.value, DaysInMonth(c2.year, c2.month)))
      && (!Truthy(dayOfMonth) ==> d == SetMonth(from, c.month + 1))
      && (c.day <= 28 ==> FromDay(d).year == y && FromDay(d).month == m)
      && (c.day <= 28 && !Truthy(dayOfMonth) ==> FromDay(d).day == c.day)
  {
    if Truthy(dayOfMonth) {
      MonthlyGivenDay(dayOfMonth, from);
    } else {
      MonthlyMoved(from);
    }
  }

  lemma MonthlyGivenDay(dayOfMonth: Option<int>, from: nat)
    requires Truthy(dayOfMonth) && dayOfMonth.value >= 1
    ensures var c, d := FromDay(from), MonthlyNext(dayOfMonth, from);
      var (y, m) := NextMonth(c.year, c.month);
      var c2 := FromDay(SetMonth(from, c.month + 1));
      && d > from
      && FromDay(d).year == c2.year && FromDay(d).month == c2.month
      && FromDay(d).day == Min(dayOfMonth.value, DaysInMonth(c2.year, c2.month))
      && (c.day <= 28 ==> FromDay(d).year == y && FromDay(d).month == m)
  {
    var c := FromDay(from);
    var moved := SetMonth(from, c.month + 1);
    var c2 := FromDay(moved);
    var k := Min(dayOfMonth.value, DaysInMonth(c2.year, c2.month));
    var d := MonthlyNext(dayOfMonth, from);
    assert d == SetDate(moved, k);
    MonthlyMoved(from);
    DayOfMovedMonth(moved, dayOfMonth.value);
    assert FromDay(d) == Civil(c2.year, c2.month, k);
    assert d == FirstOfMonth(c2.year, c2.month) + k - 1 by {
      assert d == ToDay(FromDay(d));
    }
  }

  /** setDate(k) with 1 <= k <= the month's length gives day k of the same month. */
  lemma DayOfMovedMonth(moved: nat, dom: int)
    requires dom >= 1
    ensures var c2 := FromDay(moved);
      var d := SetDate(moved, Min(dom, DaysInMonthOf(c2.year, c2.month)));
      FromDay(d) == Civil(c2.year, c2.month, Min(dom, DaysInMonth(c2.year, c2.month)))
  {
    var c2 := FromDay(moved);
    SetDateInMonth(moved, Min(dom, DaysInMonth(c2.year, c2.month)));
  }

  /**
   * The monthly step overflows from a day after the 28th: from 31 January
   * of a common year, setMonth moves to "31 February", which is 3 March, so
   * February is skipped.
   */
  lemma MonthlySkipsShortMonth(y: int)
    requires y >= EpochYear && !IsLeapYear(y)
    ensures MonthlyNext(None, ToDay(Civil(y, 0, 31))) == ToDay(Civil(y, 2, 3))
  {
    FromDayToDay(Civil(y, 0, 31));
    assert FirstOfMonth(y, 2) == FirstOfMonth(y, 1) + 28;
  }

  /** A rule without nonsense values: weekdays 0..6, a day of the month of at least 1, a non-negative interval. */
  predicate SaneRule(rule: RecurrenceRule) {
    && (rule.days.Some? ==> forall x :: x in rule.days.value ==> 0 <= x <= 6)
    && (Truthy(rule.dayOfMonth) ==> rule.dayOfMonth.value >= 1)
    && (rule.interval.Some? ==> rule.interval.value >= 0)
  }

  /** For a sane rule the next date is strictly after `from`, because `from` is a whole day. */
  lemma NextDateIsLater(rule: RecurrenceRule, from: nat)
    requires SaneRule(rule)
    ensures NextDate(rule, from) > from
  {
    FixedSteps(rule, from);
    match rule.pattern {
      case Weekly =>
        if rule.days.Some? && |rule.days.value| > 0 { WeeklyNextListedDay(rule.days.value, from); }
      case Monthly =>
        MonthlyDayOfMonth(rule.dayOfMonth, from);
      case _ =>
    }
  }

  // ==========================================================================
  // completeTask, skipTask, createTask
  // ==========================================================================

  /**
   * completeTask on the looked-up task: a recurring task whose rule yields a
   * next date goes back to pending with that next occurrence; any other task
   * becomes completed. Both record the completion time; nothing else changes.
   */
  function CompleteTask(task: Option<Task>, now: nat): (r: Option<Task>)
    ensures task.None? <==> r.None?
    ensures r.Some? ==>
      var t, u := task.value, r.value;
      var next := if t.isRecurring && t.recurrenceRule.Some? then NextOccurrence(t.recurrenceRule.value, DayOf(now)) else None;
      && u.completedAt == Some(now) && u.updatedAt == now
      && (next.Some? ==> u.status == Pending && u.nextOccurrence == next)
      && (next.None? ==> u.status == Completed && u.nextOccurrence == t.nextOccurrence)
      && u.(status := t.status, completedAt := t.completedAt, updatedAt := t.updatedAt, nextOccurrence := t.nextOccurrence) == t
  {
    match task
    case None => None
    case Some(t) =>
      var next := if t.isRecurring && t.recurrenceRule.Some? then NextOccurrence(t.recurrenceRule.value, DayOf(now)) else None;
      if next.Some? then
        Some(t.(completedAt := Some(now), nextOccurrence := next, status := Pending, updatedAt := now))
      else
        Some(t.(status := Completed, completedAt := Some(now), updatedAt := now))
  }

  /**
   * skipTask: a recurring task whose rule yields a next date moves its next
   * occurrence there; any other task is returned unchanged.
   */
  function SkipTask(task: Option<Task>, now: nat): (r: Option<Task>)
    ensures task.None? <==> r.None?
    ensures r.Some? ==>
      var t, u := task.value, r.value;
      var next := if t.isRecurring && t.recurrenceRule.Some? then NextOccurrence(t.recurrenceRule.value, DayOf(now)) else None;
      && (next.None? ==> u == t)
      && (next.Some? ==> u == t.(nextOccurrence := next, updatedAt := now))
  {
    match task
    case None => None
    case Some(t) =>
      if t.isRecurring && t.recurrenceRule.Some? then
        var next := NextOccurrence(t.recurrenceRule.value, DayOf(now));
        if next.Some? then Some(t.(nextOccurrence := next, updatedAt := now)) else task
      else task
  }

  /** A completed recurring task with a sane rule and no end date is due again strictly after today. */
  lemma CompletedRecurringIsPending(t: Task, now: nat)
    requires t.isRecurring && t.recurrenceRule.Some? && SaneRule(t.recurrenceRule.value)
    requires t.recurrenceRule.value.endDate.None?
    ensures var u := CompleteTask(Some(t), now).value;
      u.status == Pending && u.nextOccurrence.Some? && u.nextOccurrence.value > DayOf(now)
  {
    NextDateIsLater(t.recurrenceRule.value, DayOf(now));
  }

  /** A one-time task is unchanged by a skip and completed by a completion. */
  lemma OneTimeTask(t: Task, now: nat)
    requires !t.isRecurring
    ensures SkipTask(Some(t), now) == Some(t)
    ensures CompleteTask(Some(t), now).value.status == Completed
  {
  }

  /** The fields a new task is created from; absent ones take the defaults. */
  datatype NewTask = NewTask(
    plateId: string,
    title: string,
    description: Option<string>,
    priority: Option<Priority>,
    effortMinutes: Option<int>,
    energyLevel: Option<EnergyLevel>,
    context: Option<TaskContext>,
    timePreference: Option<TimePreference>,
    dueDate: Option<int>,
    isRecurring: Option<bool>,
    recurrenceRule: Option<RecurrenceRule>)

  /** COALESCE(MAX(sort_order), -1) + 1 over the plate's tasks. */
  function NextSortOrder(orders: seq<int>): (r: int)
    ensures orders == [] ==> r == 0
    ensures forall o :: o in orders ==> o < r
    ensures orders != [] ==> r - 1 in orders
  {
    if orders == [] then 0
    else
      var rest := NextSortOrder(orders[1..]);
      assert forall o :: o in orders ==> o == orders[0] || o in orders[1..];
      if orders[1..] == [] || orders[0] >= rest then orders[0] + 1 else rest
  }

  /**
   * createTask: the inserted record, given the sort orders of the plate's
   * existing tasks, the new id and the creation instant. The status is the
   * table default 'pending'.
   */
  function CreateTask(data: NewTask, plateSortOrders: seq<int>, id: string, now: nat): (t: Task)
    ensures t.plateId == data.plateId && t.title == data.title && t.id == id
    ensures t.priority == (if data.priority.Some? then data.priority.value else Medium)
    ensures t.energyLevel == (if data.energyLevel.Some? then data.energyLevel.value else MediumEnergy)
    ensures t.context == (if data.context.Some? then data.context.value else Anywhere)
    ensures t.timePreference == (if data.timePreference.Some? then data.timePreference.value else Anytime)
    ensures t.description.Some? <==> data.description.Some? && data.description.value != ""
    ensures t.description.Some? ==> t.description == data.description
    ensures t.effortMinutes.Some? <==> Truthy(data.effortMinutes)
    ensures t.effortMinutes.Some? ==> t.effortMinutes == data.effortMinutes
    ensures t.dueDate == data.dueDate && t.recurrenceRule == data.recurrenceRule
    ensures t.isRecurring <==> data.isRecurring == Some(true)
    ensures t.nextOccurrence.Some? <==> data.isRecurring == Some(true) && data.recurrenceRule.Some?
    ensures t.nextOccurrence.Some? ==> t.nextOccurrence.value == DayOf(now)
    ensures t.status == Pending && t.completedAt.None?
    ensures t.sortOrder == NextSortOrder(plateSortOrders)
    ensures forall o :: o in plateSortOrders ==> o < t.sortOrder
    ensures plateSortOrders == [] ==> t.sortOrder == 0
    ensures t.createdAt == now && t.updatedAt == now
  {
    var recurring := data.isRecurring.GetOr(false);
    Task(
      id, data.plateId, data.title,
      if data.description.Some? && data.description.value != "" then data.description else None,
      Pending,
      data.priority.GetOr(Medium),
      if Truthy(data.effortMinutes) then data.effortMinutes else None,
      data.energyLevel.GetOr(MediumEnergy),
      data.context.GetOr(Anywhere),
      data.timePreference.GetOr(Anytime),
      data.dueDate,
      None,
      recurring,
      data.recurrenceRule,
      if recurring && data.recurrenceRule.Some? then Some(DayOf(now)) else None,
      NextSortOrder(plateSortOrders),
      now, now)
  }
}
