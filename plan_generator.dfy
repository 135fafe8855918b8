/**
 * The daily plan generator (src/lib/plan-generator.ts): from a user's
 * schedule, tasks, plates, recent reviews and completions and a date, an
 * ordered plan of at most 12 (workday) or 15 (weekend) tasks.
 *
 * GenerateDailyPlan is the imperative procedure of the original; DailyPlan is
 * the same computation as a function, and the lemmas at the end state what
 * the plan satisfies. Scores are the original's weighted sums scaled by 100,
 * so they are exact integers.
 */
module PlanGenerator {
  import opened Wrappers
  import opened Types
  import opened Calendar
  import opened Sorting
  import Text

  // --- Scoring weights, scaled by 100 ---
  const WeightUrgency := 35
  const WeightPriority := 30
  const WeightPlateBalance := 20
  const WeightStaleness := 15

  // --- Limits ---
  const WorkdayMinTasks := 8
  const WorkdayMaxTasks := 12
  const WeekendMinTasks := 10
  const WeekendMaxTasks := 15
  const DefaultEffortMinutes := 30

  datatype PlanInput = PlanInput(
    user: User,
    date: nat,
    tasks: seq<Task>,
    plates: seq<Plate>,
    recentReviews: seq<Review>,
    recentCompletions: seq<Completion>)

  datatype PlanEntry = PlanEntry(taskId: string, sortOrder: nat, contextGroup: string)

  datatype GeneratedPlan = GeneratedPlan(
    date: nat,
    dayType: DayType,
    availableMinutes: int,
    items: seq<PlanEntry>)

  /**
   * A candidate with its score. `slot` is the candidate's position in the
   * filtered task list; it stands for the object identity that the
   * original's `selected.includes(s)` compares.
   */
  datatype ScoredTask = ScoredTask(task: Task, score: int, slot: nat)

  function Min(a: int, b: int): int { if a <= b then a else b }
  function Max(a: int, b: int): int { if a >= b then a else b }

  // ==========================================================================
  // Day type and time budget
  // ==========================================================================

  /** Workday exactly when the date's weekday is one of the user's work days. */
  function DayTypeOf(user: User, date: nat): (d: DayType)
    ensures d == Workday <==> Weekday(DayOf(date)) in user.workDays
    ensures d == Weekend <==> Weekday(DayOf(date)) !in user.workDays
  {
    if Weekday(DayOf(date)) in user.workDays then Workday else Weekend
  }

  /** The shape 'H:M' with digit runs that timeToMinutes reads as numbers. */
  predicate IsClockString(s: string) {
    var parts := Text.Split(s, ':');
    |parts| >= 2 && Text.IsDigits(parts[0]) && Text.IsDigits(parts[1])
  }

  predicate ValidSchedule(user: User) {
    && IsClockString(user.wakeTime)
    && IsClockString(user.sleepTime)
    && IsClockString(user.workStartTime)
    && IsClockString(user.workEndTime)
  }

  /** Minutes after midnight of an 'HH:MM' string. */
  function TimeToMinutes(time: string): nat
    requires IsClockString(time)
  {
    var parts := Text.Split(time, ':');
    Text.DigitsValue(parts[0]) * 60 + Text.DigitsValue(parts[1])
  }

  /** The 'HH:MM' rendering of a time of day. */
  function Clock(h: nat, m: nat): string
    requires h < 100 && m < 100
  {
    Text.TwoDigits(h) + [':'] + Text.TwoDigits(m)
  }

  /** timeToMinutes reads back the hours and minutes of an 'HH:MM' string. */
  lemma TimeToMinutesOfClock(h: nat, m: nat)
    requires h < 100 && m < 100
    ensures IsClockString(Clock(h, m))
    ensures TimeToMinutes(Clock(h, m)) == 60 * h + m
  {
    var parts := [Text.TwoDigits(h), Text.TwoDigits(m)];
    assert Text.Join(parts, ':') == Clock(h, m) by {
      assert Text.Join(parts[1..], ':') == parts[1];
    }
    Text.SplitJoin(parts, ':');
    Text.TwoDigitsValue(h);
    Text.TwoDigitsValue(m);
  }

  /**
   * Discretionary minutes: awake time less work time and a 120-minute buffer
   * on a workday, floored at 120; awake time less 180 minutes on any other
   * day, floored at 180.
   */
  function AvailableMinutes(user: User, dayType: DayType): (r: int)
    requires ValidSchedule(user)
    ensures dayType == Workday ==> r >= 120
    ensures dayType != Workday ==> r >= 180
  {
    var totalAwake := TimeToMinutes(user.sleepTime) - TimeToMinutes(user.wakeTime);
    if dayType == Workday then
      var workHours := TimeToMinutes(user.workEndTime) - TimeToMinutes(user.workStartTime);
      Max(totalAwake - workHours - 120, 120)
    else
      Max(totalAwake - 180, 180)
  }

  /** With the default schedule (06:30 to 22:30, work 08:00 to 17:00): 300 minutes on a workday, 780 on a weekend. */
  lemma DefaultScheduleBudget()
    ensures var user := User(Clock(6, 30), Clock(22, 30), Clock(8, 0), Clock(17, 0), [1, 2, 3, 4, 5]);
      && ValidSchedule(user)
      && AvailableMinutes(user, Workday) == 300
      && AvailableMinutes(user, Weekend) == 780
  {
    TimeToMinutesOfClock(6, 30);
    TimeToMinutesOfClock(22, 30);
    TimeToMinutesOfClock(8, 0);
    TimeToMinutesOfClock(17, 0);
  }

  // ==========================================================================
  // Candidates
  // ==========================================================================

  /** Pending or in progress, due again by `today` if recurring, and not a work task on a weekend. */
  predicate IsCandidate(task: Task, today: int, dayType: DayType) {
    && (task.status == Pending || task.status == InProgress)
    && !(task.isRecurring && task.nextOccurrence.Some? && task.nextOccurrence.value > today)
    && !(dayType == Weekend && task.context == AtWork)
  }

  /** tasks.filter(IsCandidate). */
  function Candidates(tasks: seq<Task>, today: int, dayType: DayType): (r: seq<Task>)
    ensures |r| <= |tasks|
    ensures forall t :: t in r <==> t in tasks && IsCandidate(t, today, dayType)
    ensures UniqueIds(tasks) ==> UniqueIds(r)
  {
    if tasks == [] then []
    else
      var rest := Candidates(tasks[1..], today, dayType);
      FilterCons(tasks, rest, t => IsCandidate(t, today, dayType));
      if IsCandidate(tasks[0], today, dayType) then [tasks[0]] + rest else rest
  }

  /** One step of a filter: the first task, kept when `keep` holds, before the filtered rest. */
  lemma FilterCons(tasks: seq<Task>, rest: seq<Task>, keep: Task -> bool)
    requires tasks != [] && |rest| <= |tasks| - 1
    requires forall t :: t in rest <==> t in tasks[1..] && keep(t)
    requires UniqueIds(tasks[1..]) ==> UniqueIds(rest)
    ensures var r := if keep(tasks[0]) then [tasks[0]] + rest else rest;
      && |r| <= |tasks|
      && (forall t :: t in r <==> t in tasks && keep(t))
      && (UniqueIds(tasks) ==> UniqueIds(r))
  {
    assert tasks == [tasks[0]] + tasks[1..];
    if UniqueIds(tasks) {
      assert UniqueIds(tasks[1..]) by {
        forall i, j | 0 <= i < j < |tasks[1..]| ensures tasks[1..][i].id != tasks[1..][j].id {
          assert tasks[1..][i] == tasks[i + 1] && tasks[1..][j] == tasks[j + 1];
        }
      }
      forall t | t in rest ensures t.id != tasks[0].id {
        var k :| 0 <= k < |tasks[1..]| && tasks[1..][k] == t;
        assert tasks[k + 1] == t;
      }
      if keep(tasks[0]) {
        var r := [tasks[0]] + rest;
        forall i, j | 0 <= i < j < |r| ensures r[i].id != r[j].id {
          assert r[j] == rest[j - 1] && r[j] in rest;
          if i > 0 { assert r[i] == rest[i - 1]; }
        }
      }
    }
  }

  // ==========================================================================
  // Plate health estimate
  // ==========================================================================

  /** The number of the plate's completions at or after seven days before `now`. */
  function RecentCompletionCount(plateId: string, completions: seq<Completion>, now: nat): (n: nat)
    ensures n <= |completions|
  {
    if completions == [] then 0
    else
      var c := completions[0];
      (if c.plateId == plateId && c.completedAt >= now - 7 * MsPerDay then 1 else 0)
      + RecentCompletionCount(plateId, completions[1..], now)
  }

  /** 20 + min(15 n, 60) for n recent completions, plus 10 when there is any review, capped at 100. */
  function PlateHealthEstimate(plateId: string, reviews: seq<Review>, completions: seq<Completion>, now: nat): (h: int)
    ensures 20 <= h <= 90
    ensures h == Min(20 + Min(15 * RecentCompletionCount(plateId, completions, now), 60) + (if |reviews| > 0 then 10 else 0), 100)
  {
    var health := 20 + Min(RecentCompletionCount(plateId, completions, now) * 15, 60);
    var health' := if |reviews| > 0 then Min(health + 10, 100) else health;
    Min(health', 100)
  }

  function PlateIds(plates: seq<Plate>): set<string> {
    set i | 0 <= i < |plates| :: plates[i].id
  }

  /** The health estimate of every plate, keyed by plate id. */
  function HealthMap(plates: seq<Plate>, reviews: seq<Review>, completions: seq<Completion>, now: nat): map<string, int> {
    map id | id in PlateIds(plates) :: PlateHealthEstimate(id, reviews, completions, now)
  }

  /** buildPlateHealthMap: one entry per plate, each the plate's health estimate. */
  method BuildPlateHealthMap(plates: seq<Plate>, recentReviews: seq<Review>, recentCompletions: seq<Completion>, now: nat)
    returns (m: map<string, int>)
    ensures m.Keys == PlateIds(plates)
    ensures forall id :: id in m ==> m[id] == PlateHealthEstimate(id, recentReviews, recentCompletions, now)
    ensures forall id :: id in m ==> 20 <= m[id] <= 90
  {
    m := map[];
    var i := 0;
    while i < |plates|
      invariant 0 <= i <= |plates|
      invariant m.Keys == PlateIds(plates[..i])
      invariant forall id :: id in m ==> m[id] == PlateHealthEstimate(id, recentReviews, recentCompletions, now)
    {
      var plate := plates[i];
      var health := 20 + Min(RecentCompletionCount(plate.id, recentCompletions, now) * 15, 60);
      if |recentReviews| > 0 {
        health := Min(health + 10, 100);
      }
      m := m[plate.id := Min(health, 100)];
      assert PlateIds(plates[..i + 1]) == PlateIds(plates[..i]) + {plate.id} by {
        assert forall k :: 0 <= k < i ==> plates[..i + 1][k] == plates[..i][k];
      }
      i := i + 1;
    }
    assert plates[..i] == plates;
  }

  // ==========================================================================
  // Scoring
  // ==========================================================================

  /** Urgency by days until due: overdue 100, today 90, tomorrow 70, within a week 50, within a month 30, else 10. */
  function UrgencyForDays(daysUntilDue: int): (u: int)
    ensures 10 <= u <= 100
  {
    if daysUntilDue < 0 then 100
    else if daysUntilDue == 0 then 90
    else if daysUntilDue == 1 then 70
    else if daysUntilDue <= 7 then 50
    else if daysUntilDue <= 30 then 30
    else 10
  }

  function UrgencyScore(task: Task, date: nat): (u: int)
    ensures 10 <= u <= 100
    ensures task.dueDate.None? ==> u == 10
  {
    match task.dueDate
    case None => 10
    case Some(due) => UrgencyForDays(due - DayOf(date))
  }

  /** Urgency never grows as the due date moves further away. */
  lemma UrgencyNonIncreasing(a: int, b: int)
    requires a <= b
    ensures UrgencyForDays(b) <= UrgencyForDays(a)
    ensures a < 0 <= b ==> UrgencyForDays(b) < UrgencyForDays(a)
  {
  }

  function PriorityScore(task: Task): (p: int)
    ensures 25 <= p <= 100
  {
    match task.priority
    case Critical => 100
    case High => 75
    case Medium => 50
    case Low => 25
  }

  /** 100 minus the plate's health; 50 for a plate without an estimate. */
  function PlateBalanceScore(task: Task, healthMap: map<string, int>): int {
    if task.plateId in healthMap then 100 - healthMap[task.plateId] else 50
  }

  /** Whole days since the task was created, at most 50. */
  function StalenessScore(task: Task, date: nat): (s: int)
    ensures s <= 50
  {
    Min((date - task.createdAt) / MsPerDay, 50)
  }

  function ScoreTask(task: Task, date: nat, healthMap: map<string, int>): int {
    UrgencyScore(task, date) * WeightUrgency
    + PriorityScore(task) * WeightPriority
    + PlateBalanceScore(task, healthMap) * WeightPlateBalance
    + StalenessScore(task, date) * WeightStaleness
  }

  /** With health estimates from HealthMap, the balance term lies in 10..80. */
  lemma BalanceBounds(task: Task, plates: seq<Plate>, reviews: seq<Review>, completions: seq<Completion>, now: nat)
    ensures var b := PlateBalanceScore(task, HealthMap(plates, reviews, completions, now));
      10 <= b <= 80
      && (task.plateId !in PlateIds(plates) ==> b == 50)
  {
  }

  /**
   * The blended score, weights scaled by 100: at most 35*100 + 30*100 +
   * 20*80 + 15*50 with health estimates from HealthMap, and at least
   * 35*10 + 30*25 + 20*10 for a task created no later than the plan's date.
   * A task created after the date has a negative staleness term, so there is
   * no lower bound in general.
   */
  lemma ScoreTaskBounds(task: Task, date: nat, plates: seq<Plate>, reviews: seq<Review>, completions: seq<Completion>, now: nat)
    ensures var s := ScoreTask(task, date, HealthMap(plates, reviews, completions, now));
      && s <= 8850
      && (task.createdAt <= date ==> 1300 <= s)
  {
    BalanceBounds(task, plates, reviews, completions, now);
    if task.createdAt <= date {
      assert StalenessScore(task, date) >= 0;
    }
  }

  /** A task created after the plan's date has a negative staleness term, as Math.floor of a negative day count. */
  lemma FutureTaskStaleness(task: Task, date: nat)
    requires task.createdAt > date
    ensures StalenessScore(task, date) < 0
  {
    var diff := date - task.createdAt;
    assert diff < 0;
    assert diff / MsPerDay * MsPerDay <= diff;
  }

  /** Candidates with their scores, in candidate order. */
  function ScoreAll(cands: seq<Task>, date: nat, healthMap: map<string, int>): (r: seq<ScoredTask>)
    ensures |r| == |cands|
    ensures forall i :: 0 <= i < |r| ==> r[i].task == cands[i] && r[i].slot == i
  {
    seq(|cands|, i requires 0 <= i < |cands| => ScoredTask(cands[i], ScoreTask(cands[i], date, healthMap), i))
  }

  /** Score descending. */
  function ScoreKey(s: ScoredTask): SortKey {
    SortKey(-s.score, 0, 0)
  }

  /** TIME_PREF_ORDER: morning 0, afternoon 1, anytime 2, evening 3. */
  function TimeRank(p: TimePreference): int {
    match p
    case Morning => 0
    case Afternoon => 1
    case Anytime => 2
    case Evening => 3
  }

  /** The order of localeCompare on the context strings: anywhere, at_home, at_work, errands. */
  function ContextRank(c: TaskContext): int {
    match c
    case Anywhere => 0
    case AtHome => 1
    case AtWork => 2
    case Errands => 3
  }

  /** Time preference, then context, then score descending. */
  function PlanKey(s: ScoredTask): SortKey {
    SortKey(TimeRank(s.task.timePreference), ContextRank(s.task.context), -s.score)
  }

  function ContextLabel(c: TaskContext): string {
    match c
    case AtWork => "At Work"
    case AtHome => "At Home"
    case Errands => "Errands"
    case Anywhere => "Anywhere"
  }

  // ==========================================================================
  // Selection
  // ==========================================================================

  /** effort_minutes, or 30 when it is absent or 0. */
  function Effort(task: Task): int {
    if task.effortMinutes.Some? && task.effortMinutes.value != 0 then task.effortMinutes.value
    else DefaultEffortMinutes
  }

  function SumEffort(s: seq<ScoredTask>): int {
    if s == [] then 0 else SumEffort(s[..|s| - 1]) + Effort(s[|s| - 1].task)
  }

  datatype Limits = Limits(minTasks: nat, maxTasks: nat, available: int)

  function LimitsFor(dayType: DayType, available: int): (lim: Limits)
    ensures lim.minTasks < lim.maxTasks
  {
    if dayType == Workday then Limits(WorkdayMinTasks, WorkdayMaxTasks, available)
    else Limits(WeekendMinTasks, WeekendMaxTasks, available)
  }

  /**
   * Where the first pass stops, having taken scored[..i] for `total` minutes:
   * at the end, at the maximum count, or at a task that overruns the budget
   * once the minimum count is reached.
   */
  function FirstPassEnd(scored: seq<ScoredTask>, i: nat, total: int, lim: Limits): (k: nat)
    requires i <= |scored|
    ensures i <= k <= |scored|
    decreases |scored| - i
  {
    if i == |scored| || i >= lim.maxTasks then i
    else if total + Effort(scored[i].task) > lim.available && i >= lim.minTasks then i
    else FirstPassEnd(scored, i + 1, total + Effort(scored[i].task), lim)
  }

  /** The plates that tasks of `s` belong to. */
  function PlateIdsOf(s: seq<ScoredTask>): set<string> {
    set i | 0 <= i < |s| :: s[i].task.plateId
  }

  lemma PlateIdsOfAppend(s: seq<ScoredTask>, x: ScoredTask)
    ensures PlateIdsOf(s + [x]) == PlateIdsOf(s) + {x.task.plateId}
  {
    assert forall i :: 0 <= i < |s| ==> (s + [x])[i] == s[i];
    assert (s + [x])[|s|] == x;
  }

  /** scored.find: the first entry of the plate that is not selected yet. */
  function FindForPlate(scored: seq<ScoredTask>, plateId: string, selected: seq<ScoredTask>): (r: Option<ScoredTask>)
    ensures r.Some? ==> r.value in scored && r.value.task.plateId == plateId && r.value !in selected
    ensures r.None? ==> forall s :: s in scored && s.task.plateId == plateId ==> s in selected
  {
    if scored == [] then None
    else if scored[0].task.plateId == plateId && scored[0] !in selected then Some(scored[0])
    else FindForPlate(scored[1..], plateId, selected)
  }

  function ActivePlates(plates: seq<Plate>): (r: seq<Plate>)
    ensures forall p :: p in r <==> p in plates && p.status == PlateActive
  {
    if plates == [] then []
    else (if plates[0].status == PlateActive then [plates[0]] else []) + ActivePlates(plates[1..])
  }

  /**
   * The second pass: for each plate in turn that has no selected task, while
   * fewer than `maxTasks` are selected, append its first unselected entry.
   */
  function TopUp(plates: seq<Plate>, scored: seq<ScoredTask>, selected: seq<ScoredTask>, maxTasks: nat): seq<ScoredTask>
    decreases |plates|
  {
    if plates == [] then selected
    else if plates[0].id in PlateIdsOf(selected) then TopUp(plates[1..], scored, selected, maxTasks)
    else if |selected| >= maxTasks then selected
    else match FindForPlate(scored, plates[0].id, selected)
      case Some(s) => TopUp(plates[1..], scored, selected + [s], maxTasks)
      case None => TopUp(plates[1..], scored, selected, maxTasks)
  }

  /** The plan's entries: task id, 0-based position, and context label. */
  function Entries(ordered: seq<ScoredTask>): (r: seq<PlanEntry>)
    ensures |r| == |ordered|
  {
    seq(|ordered|, i requires 0 <= i < |ordered| =>
      PlanEntry(ordered[i].task.id, i, ContextLabel(ordered[i].task.context)))
  }

  // ==========================================================================
  // The generator as a function
  // ==========================================================================

  function InputDayType(input: PlanInput): DayType {
    DayTypeOf(input.user, input.date)
  }

  function InputCandidates(input: PlanInput): seq<Task> {
    Candidates(input.tasks, DayOf(input.date), InputDayType(input))
  }

  function InputLimits(input: PlanInput): Limits
    requires ValidSchedule(input.user)
  {
    LimitsFor(InputDayType(input), AvailableMinutes(input.user, InputDayType(input)))
  }

  /** The candidates with their scores, highest first. */
  function Scored(input: PlanInput, now: nat): seq<ScoredTask> {
    var hm := HealthMap(input.plates, input.recentReviews, input.recentCompletions, now);
    StableSort(ScoreAll(InputCandidates(input), input.date, hm), ScoreKey)
  }

  /** The tasks the first pass takes. */
  function FirstPass(input: PlanInput, now: nat): seq<ScoredTask>
    requires ValidSchedule(input.user)
  {
    var scored := Scored(input, now);
    scored[..FirstPassEnd(scored, 0, 0, InputLimits(input))]
  }

  /** The selected tasks after the top-up, in selection order. */
  function Selection(input: PlanInput, now: nat): seq<ScoredTask>
    requires ValidSchedule(input.user)
  {
    TopUp(ActivePlates(input.plates), Scored(input, now), FirstPass(input, now), InputLimits(input).maxTasks)
  }

  /** The selected tasks in plan order. */
  function Ordered(input: PlanInput, now: nat): seq<ScoredTask>
    requires ValidSchedule(input.user)
  {
    StableSort(Selection(input, now), PlanKey)
  }

  /** generateDailyPlan. `now` is the wall-clock instant that the health estimate reads. */
  function DailyPlan(input: PlanInput, now: nat): GeneratedPlan
    requires ValidSchedule(input.user)
  {
    var dayType := InputDayType(input);
    GeneratedPlan(input.date, dayType, AvailableMinutes(input.user, dayType), Entries(Ordered(input, now)))
  }

  // ==========================================================================
  // The generator as the original runs it
  // ==========================================================================

  /** The first pass: take tasks in score order until the budget or the maximum count stops it. */
  method FillByBudget(scored: seq<ScoredTask>, lim: Limits) returns (selected: seq<ScoredTask>, selectedPlates: set<string>)
    ensures selected == scored[..FirstPassEnd(scored, 0, 0, lim)]
    ensures selectedPlates == PlateIdsOf(selected)
  {
    selected := [];
    var totalMinutes := 0;
    selectedPlates := {};
    var i := 0;
    while i < |scored|
      invariant 0 <= i <= |scored|
      invariant selected == scored[..i]
      invariant selectedPlates == PlateIdsOf(selected)
      invariant FirstPassEnd(scored, i, totalMinutes, lim) == FirstPassEnd(scored, 0, 0, lim)
    {
      var item := scored[i];
      if |selected| >= lim.maxTasks {
        break;
      }
      var effort := Effort(item.task);
      if totalMinutes + effort > lim.available && |selected| >= lim.minTasks {
        break;
      }
      PlateIdsOfAppend(selected, item);
      selected := selected + [item];
      totalMinutes := totalMinutes + effort;
      selectedPlates := selectedPlates + {item.task.plateId};
      assert scored[..i + 1] == scored[..i] + [item];
      i := i + 1;
    }
  }

  /** The second pass: give each active plate without a selected task its first unselected entry. */
  method CoverPlates(activePlates: seq<Plate>, scored: seq<ScoredTask>, first: seq<ScoredTask>, firstPlates: set<string>, maxTasks: nat)
    returns (selected: seq<ScoredTask>)
    requires firstPlates == PlateIdsOf(first)
    ensures selected == TopUp(activePlates, scored, first, maxTasks)
  {
    selected := first;
    var selectedPlates := firstPlates;
    var j := 0;
    while j < |activePlates|
      invariant 0 <= j <= |activePlates|
      invariant selectedPlates == PlateIdsOf(selected)
      invariant TopUp(activePlates[j..], scored, selected, maxTasks) == TopUp(activePlates, scored, first, maxTasks)
    {
      var plate := activePlates[j];
      assert activePlates[j..][1..] == activePlates[j + 1..];
      if plate.id in selectedPlates {
        j := j + 1;
        continue;
      }
      if |selected| >= maxTasks {
        break;
      }
      var plateTask := FindForPlate(scored, plate.id, selected);
      if plateTask.Some? {
        PlateIdsOfAppend(selected, plateTask.value);
        selected := selected + [plateTask.value];
        selectedPlates := selectedPlates + {plate.id};
      }
      j := j + 1;
    }
  }

  method GenerateDailyPlan(input: PlanInput, now: nat) returns (plan: GeneratedPlan)
    requires ValidSchedule(input.user)
    ensures plan == DailyPlan(input, now)
  {
    var user, date := input.user, input.date;

    // 1. Day type
    var dayType := DayTypeOf(user, date);

    // 2. Available time
    var availableMinutes := AvailableMinutes(user, dayType);

    // 3. Candidates
    var candidates := Candidates(input.tasks, DayOf(date), dayType);

    // 4. Plate health map
    var plateHealthMap := BuildPlateHealthMap(input.plates, input.recentReviews, input.recentCompletions, now);
    assert plateHealthMap == HealthMap(input.plates, input.recentReviews, input.recentCompletions, now);

    // 5. Score, then sort by score descending
    var scored := ScoreAll(candidates, date, plateHealthMap);
    scored := StableSort(scored, ScoreKey);

    // 6. Fit to the available time, then cover the active plates
    var lim := LimitsFor(dayType, availableMinutes);
    var selected, selectedPlates := FillByBudget(scored, lim);
    selected := CoverPlates(ActivePlates(input.plates), scored, selected, selectedPlates, lim.maxTasks);

    // 7. Time preference, context, score
    selected := StableSort(selected, PlanKey);

    // 8. Result
    plan := GeneratedPlan(date, dayType, availableMinutes, Entries(selected));
  }
}
