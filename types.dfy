/**
 * The records the core works on (src/lib/types.ts). Store and wire formats
 * are left behind: date strings 'YYYY-MM-DD' are day numbers and timestamps
 * are instants, both as in the Calendar module; and plates (called pillars in
 * some files) are reached through a single category-id field.
 */
module Types {
  import opened Wrappers

  datatype PlateStatus = PlateActive | PlateCompleted | PlateArchived

  /** A category of tasks ("plate" or "pillar"); only the fields the core reads. */
  datatype Plate = Plate(id: string, name: string, status: PlateStatus)

  datatype TaskStatus = Pending | InProgress | Completed
  datatype Priority = Critical | High | Medium | Low
  datatype EnergyLevel = LowEnergy | MediumEnergy | HighEnergy
  datatype TaskContext = AtWork | AtHome | Errands | Anywhere
  datatype TimePreference = Morning | Afternoon | Evening | Anytime
  datatype DayType = Workday | Weekend | Holiday | DayOff
  datatype RecurrencePattern = Daily | Weekly | Biweekly | Monthly | Custom

  /**
   * A recurrence rule. `days` are weekdays 0..6 (Sunday first) for weekly
   * rules, `endDate` is a day number; the optional numbers keep their
   * JavaScript truthiness, so Some(0) behaves as an absent value.
   */
  datatype RecurrenceRule = RecurrenceRule(
    pattern: RecurrencePattern,
    days: Option<seq<int>>,
    dayOfMonth: Option<int>,
    interval: Option<int>,
    endDate: Option<int>)

  /** JavaScript truthiness of an optional number: present and not 0. */
  predicate Truthy(n: Option<int>) {
    n.Some? && n.value != 0
  }

  datatype Task = Task(
    id: string,
    plateId: string,
    title: string,
    description: Option<string>,
    status: TaskStatus,
    priority: Priority,
    effortMinutes: Option<int>,
    energyLevel: EnergyLevel,
    context: TaskContext,
    timePreference: TimePreference,
    dueDate: Option<int>,
    completedAt: Option<nat>,
    isRecurring: bool,
    recurrenceRule: Option<RecurrenceRule>,
    nextOccurrence: Option<int>,
    sortOrder: int,
    createdAt: nat,
    updatedAt: nat)

  /** The user's schedule; times of day are 'HH:MM' strings. */
  datatype User = User(
    wakeTime: string,
    sleepTime: string,
    workStartTime: string,
    workEndTime: string,
    workDays: seq<int>)

  datatype Review = Review(date: int, mood: Option<int>)

  /** A completed task of a plate, at an instant. */
  datatype Completion = Completion(plateId: string, completedAt: nat)

  /** A row of a daily plan as the today view receives it. */
  datatype PlanItem = PlanItem(
    id: string,
    taskId: string,
    sortOrder: int,
    contextGroup: Option<string>,
    completed: bool,
    completedAt: Option<nat>,
    skipped: bool)

  /** No two of the tasks share an id, as the tasks table's primary key ensures. */
  predicate UniqueIds(tasks: seq<Task>) {
    forall i, j :: 0 <= i < j < |tasks| ==> tasks[i].id != tasks[j].id
  }
}
