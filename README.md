# Plates: a verified model of the daily-plan core

Plates is a personal planner. Every task belongs to a *plate* (also called a
*pillar*): a life area such as Work or Health. Each morning a plan is generated
from the user's schedule and open tasks. The plan is a bounded, time-boxed
and ordered list of tasks. The repository is written in TypeScript (Next.js
over Postgres). This project models its sequential core in Dafny and proves
what that core promises:

- **The daily plan generator** (`src/lib/plan-generator.ts`). It classifies the day
  and computes a minute budget. It filters the candidate tasks, scores each one
  with four bounded integer terms and sorts them by score. It fills the plan
  greedily under the budget with minimum and maximum counts, tops it up so
  that every active plate is represented, and orders the result by time
  preference, context and score. `PlanGenerator.GenerateDailyPlan` is the
  imperative procedure, with its loops and the set of selected plates. It is
  proved equal to the function `PlanGenerator.DailyPlan`. The lemmas in
  `PlanProperties` state what every plan satisfies.
- **The plate health score** (`src/lib/pillar-health.ts`): a 0–100 blend of
  the average recent rating, the number of completions in the last seven days
  and how recent the latest completion is.
- **Recurrence and task transitions** (`src/lib/db/tasks.ts`).
  `calculateNextOccurrence` moves a JavaScript `Date` step by step, and
  `TaskStore.CalculateNextOccurrence` does the same with `setDate` and
  `setMonth` as modelled in `Calendar`. Completing, skipping and creating a
  task are modelled as record updates.
- **The review streak** (`src/lib/db/reviews.ts`): a loop over review dates in
  descending order that counts the run of consecutive days.
- **The client list logic**. This covers grouping plan items by context, the
  progress counters and the optimistic completion and skip updates (TodayView).
  It covers the pillar, task and work-day reducers of onboarding and the task
  requests sent when onboarding finishes (OnboardingWizard). It covers the
  rating, note and decision reducers of the evening review and its submit
  payload (ReviewFlow).

Time is naive local time:

- An instant is a `nat` of milliseconds since 1970-01-01 00:00.
- A date is an `int` day number, with day 0 = 1970-01-01, a Thursday.
- `Calendar` converts day numbers to civil dates and back, with a proof of the
  round trip. It models `Date.prototype.setDate` and `setMonth`, including the
  overflow into the following month.
- The wall clock (`new Date()`) becomes a `now` parameter.

Every `Array.prototype.sort` in the core is stable (ES2019). Each one is
modelled by the stable insertion sort `Sorting.StableSort` with a three-part
integer key. The sort is proved to be a sorted permutation and stable. The
numeric sorts and the group sort of the today view already compare integers.
The generator's comparators do not, so the model turns them into integer ranks:
- `scored.sort` subtracts float scores; the model uses the score scaled by 100 (`ScoreKey`).
- `selected.sort` calls `localeCompare` on the context strings; the model uses
  their alphabetical rank (`ContextRank`: anywhere, at_home, at_work, errands).

Three behaviours of the code that are easy to miss, which the model keeps as written:

- The generator estimates the health of **every** plate it is given, not only
  the active ones (`src/lib/plan-generator.ts:247`).
- Monthly recurrence moves the month with `setMonth`. From a day after the
  28th this overflows past a short month. For example, January 31 without a
  `dayOfMonth` becomes March 3, not the end of February (`TaskStore.MonthlySkipsShortMonth`).
  The clamping to the month's length applies only to `dayOfMonth`, and only
  within the month that `setMonth` reached.
- The health map is built from the wall clock (`src/lib/plan-generator.ts:249`),
  not from the plan's date. `DailyPlan` therefore takes both `input.date` and `now`.

## Model

| member | source | states |
|---|---|---|
| PlanGenerator.DayTypeOf | src/lib/plan-generator.ts:51-52 | the day is a workday exactly when its weekday (0 = Sunday) is among the user's work days, and a weekend otherwise; never holiday or day off |
| PlanGenerator.TimeToMinutesOfClock | src/lib/plan-generator.ts:235-238 | an "HH:MM" string is read back as 60·HH + MM minutes |
| PlanGenerator.AvailableMinutes | src/lib/plan-generator.ts:218-233 | the budget is at least 120 minutes on a workday and at least 180 on a weekend |
| PlanGenerator.DefaultScheduleBudget | src/lib/plan-generator.ts:218-233 | with the default schedule (06:30–22:30, work 08:00–17:00) the budget is 300 minutes on a workday and 780 on a weekend |
| PlanGenerator.Candidates | src/lib/plan-generator.ts:59-72 | a task is a candidate exactly when it is pending or in progress, is not a recurring task whose next occurrence is after today, and is not an at-work task on a weekend; candidates keep unique ids |
| PlanGenerator.PlateHealthEstimate | src/lib/plan-generator.ts:249-267 | the estimate is min(20 + min(15·completions in the last 7 days, 60) + 10 when any review exists, 100), so it lies in 20..90 |
| PlanGenerator.BuildPlateHealthMap | src/lib/plan-generator.ts:240-271 | the loop builds one entry per plate id, each the plate's estimate, each in 20..90 |
| PlanGenerator.UrgencyScore | src/lib/plan-generator.ts:173-187 | urgency lies in 10..100 and is 10 for a task without a due date |
| PlanGenerator.UrgencyNonIncreasing | src/lib/plan-generator.ts:181-186 | urgency never grows as the due date moves further away, and an overdue task is strictly more urgent than one not overdue |
| PlanGenerator.PriorityScore | src/lib/plan-generator.ts:189-197 | priority lies in 25..100 |
| PlanGenerator.StalenessScore | src/lib/plan-generator.ts:206-212 | staleness is at most 50 |
| PlanGenerator.BalanceBounds | src/lib/plan-generator.ts:199-204 | with estimates from the health map, the balance term lies in 10..80, and is 50 for a plate without an estimate |
| PlanGenerator.ScoreTaskBounds | src/lib/plan-generator.ts:155-171 | the weighted score (weights scaled by 100) is at most 8850 with estimates from the health map, and at least 1300 for a task created no later than the plan's date |
| PlanGenerator.FutureTaskStaleness | src/lib/plan-generator.ts:206-212 | a task created after the plan's date gets a negative staleness term, so the score has no lower bound in general |
| PlanGenerator.ScoreAll | src/lib/plan-generator.ts:78-81 | one scored entry per candidate, in candidate order |
| PlanGenerator.FindForPlate | src/lib/plan-generator.ts:112-114 | a found entry is scored, belongs to the plate and is not yet selected; none is found only when every entry of the plate is already selected |
| PlanGenerator.ActivePlates | src/lib/plan-generator.ts:107 | exactly the plates with status active |
| PlanGenerator.FillByBudget | src/lib/plan-generator.ts:91-104 | the first-pass loop takes the prefix of the sorted entries that the budget rule allows, and its plate set is the set of plates of that prefix |
| PlanGenerator.CoverPlates | src/lib/plan-generator.ts:106-119 | the second-pass loop appends what the top-up rule gives |
| PlanGenerator.GenerateDailyPlan | src/lib/plan-generator.ts:47-149 | the procedure returns exactly the plan `DailyPlan` defines |
| PlanProperties.FirstPassEndProperties | src/lib/plan-generator.ts:95-104 | the first pass takes at most maxTasks and at least min(minTasks, #entries). It stops only at the end, at maxTasks, or at an over-budget entry once minTasks are taken. Every prefix beyond minTasks that it takes fits the budget |
| PlanProperties.FirstPassIsGreedy | src/lib/plan-generator.ts:95-104 | the first pass is a prefix of the sorted entries with the same stop reasons and budget bound, applied to the plan's own input |
| PlanProperties.TopUpProperties | src/lib/plan-generator.ts:106-119 | the top-up extends the selection by scored entries and stays within maxTasks. It adds no duplicates. Afterwards every plate that has a scored entry is represented, unless maxTasks is reached |
| PlanProperties.FindForPlateIsBest | src/lib/plan-generator.ts:112-114 | over a score-sorted list, the entry found for a plate has the highest score among that plate's unselected entries |
| PlanProperties.TopUpPicksBest | src/lib/plan-generator.ts:84-114 | the entry the top-up picks for a plate is its highest-scoring unselected candidate |
| PlanProperties.ScoredFacts | src/lib/plan-generator.ts:78-84 | the sorted entries are a permutation of the scored candidates, without repeats, in non-increasing score order |
| PlanProperties.SelectionFacts | src/lib/plan-generator.ts:87-119 | the selection consists of scored entries, has no repeats, and has between min(minTasks, #candidates) and maxTasks entries |
| PlanProperties.PlanSize | src/lib/plan-generator.ts:87-119 | a workday plan has between min(8, #candidates) and 12 items, a weekend plan between min(10, #candidates) and 15 |
| PlanProperties.PlanDayType | src/lib/plan-generator.ts:51-55 | the plan's day type follows the work days, and its budget is at least 120 (workday) or 180 (weekend) |
| PlanProperties.ScoredSlots | src/lib/plan-generator.ts:78-84 | every sorted entry is the scored entry of the candidate at its slot |
| PlanProperties.OrderedFacts | src/lib/plan-generator.ts:122-134 | the final order is made of scored entries, without repeats |
| PlanProperties.PlanTasksAreCandidates | src/lib/plan-generator.ts:59-72 | every planned task comes from the input and passes the candidate filter: pending or in progress, due by today if recurring, never at work on a weekend |
| PlanProperties.PlanNoDuplicates | src/lib/plan-generator.ts:110-114 | with unique task ids in the input, no task appears twice in the plan |
| PlanProperties.CandidatesScored | src/lib/plan-generator.ts:78-84 | every candidate has a sorted scored entry |
| PlanProperties.SelectionCovers | src/lib/plan-generator.ts:106-119 | every active plate with a candidate is in the selection, unless maxTasks was reached |
| PlanProperties.PlateCovered | src/lib/plan-generator.ts:106-119 | an active plate with a candidate has a task in the final plan, unless the plan holds maxTasks items |
| PlanProperties.PlanCoversPlates | src/lib/plan-generator.ts:106-119 | the same for all active plates at once |
| PlanProperties.PlanOrder | src/lib/plan-generator.ts:122-141 | the items are the selection reordered. Item i has sortOrder i and the context label of its task. The items are ordered by time preference (morning, afternoon, anytime, evening), then context, then score descending |
| PillarHealth.RatingsOf | src/lib/pillar-health.ts:27-28 | exactly the rating rows of the plate |
| PillarHealth.PillarRatings | src/lib/pillar-health.ts:27-29 | at most the first 7 of the plate's rating rows, all 7 when there are that many |
| PillarHealth.SumRatingsBounds | src/lib/pillar-health.ts:33 | with ratings in 1..5 the sum lies between n and 5n |
| PillarHealth.ReviewScore | src/lib/pillar-health.ts:31-35 | 50 without ratings, otherwise the average rating scaled by 20 (avg / 5 · 100) |
| PillarHealth.ReviewScoreBounds | src/lib/pillar-health.ts:31-35 | with ratings in 1..5 the review signal lies in 20..100 |
| PillarHealth.PillarCompletions | src/lib/pillar-health.ts:38-43 | exactly the plate's completions at or after now minus seven days |
| PillarHealth.CompletionScore | src/lib/pillar-health.ts:45-46 | 20 + 20n below 4 completions, 100 from 4 on, always in 20..100 |
| PillarHealth.CompletionScoreMonotone | src/lib/pillar-health.ts:46 | the completion signal never decreases with more completions |
| PillarHealth.Latest | src/lib/pillar-health.ts:51-53 | the reduce picks a completion with the greatest time |
| PillarHealth.RecencyForDays | src/lib/pillar-health.ts:58-62 | 100 for 0 days, 85 for 1, 60 for 2–3, 30 for 4–7, 20 beyond |
| PillarHealth.RecencyNonIncreasing | src/lib/pillar-health.ts:54-62 | the recency signal never grows with more days since the latest completion |
| PillarHealth.RecencyScore | src/lib/pillar-health.ts:48-63 | the recency signal lies in 20..100 and is 20 without completions |
| PillarHealth.Round | src/lib/pillar-health.ts:66 | Math.round as floor(x + 0.5) |
| PillarHealth.PillarHealth | src/lib/pillar-health.ts:19-73 | the result is an integer in 0..100 |
| PillarHealth.EmptyHealth | src/lib/pillar-health.ts:31-70 | without ratings or completions of the plate the score is 32 |
| PillarHealth.ClampIsNoOp | src/lib/pillar-health.ts:66-72 | with ratings in 1..5 the weighted sum already lies in 0..100, so the final clamp changes nothing |
| PillarHealth.OnlyOwnRowsCount | src/lib/pillar-health.ts:27-43 | inserting a rating row of another plate, or a completion of another plate or outside the window, anywhere, leaves the score unchanged |
| PillarHealth.RecencyAppend | src/lib/pillar-health.ts:50-63 | a further completion that is not in the future never lowers the recency signal |
| PillarHealth.CompletionNeverLowersHealth | src/lib/pillar-health.ts:41-72 | adding an in-window completion of the plate never lowers its score |
| TaskStore.DaysInMonthOf | src/lib/db/tasks.ts:273-275 | day 0 of the following month is the month's last day, in 28..31 |
| TaskStore.FindAfter | src/lib/db/tasks.ts:236 | none exactly when no listed day is after the current one; otherwise a listed later day, the smallest one when the list is ascending |
| TaskStore.NextOccurrence | src/lib/db/tasks.ts:265-270 | absent exactly when there is an end date and the next date is after it |
| TaskStore.CalculateNextOccurrence | src/lib/db/tasks.ts:223-271 | the procedure, which updates the date step by step, returns exactly `NextOccurrence` |
| TaskStore.FixedSteps | src/lib/db/tasks.ts:228-262 | daily moves 1 day, weekly without days 7, biweekly 14, custom its interval, or 1 when the interval is absent or 0 |
| TaskStore.WeeklyNextListedDay | src/lib/db/tasks.ts:232-243 | weekly with days in 0..6 gives the first later date whose weekday is listed, 1 to 7 days ahead, with no listed weekday in between |
| TaskStore.WeeklyStep | src/lib/db/tasks.ts:233-243 | the weekly branch with listed days (copy, numeric sort, find, move forward) returns the weekly next date, which `WeeklyNextListedDay` characterises |
| TaskStore.MonthlyStep | src/lib/db/tasks.ts:253-258 | the monthly branch (setMonth, then setDate capped at the month's length when dayOfMonth is set) returns the monthly next date, which `MonthlyDayOfMonth` characterises |
| TaskStore.SortedDays | src/lib/db/tasks.ts:235 | the numeric sort of the days is ascending with the same members |
| TaskStore.MonthlyMoved | src/lib/db/tasks.ts:254 | the month step lands after the date, in or after the next month, and exactly on the same day of the next month when the day is at most 28 |
| TaskStore.MonthlyDayOfMonth | src/lib/db/tasks.ts:253-258 | the monthly result is after the date and stays in the month setMonth reached. With a dayOfMonth its day is min(dayOfMonth, length of that month). From a day at most 28 it is in the next month |
| TaskStore.DayOfMovedMonth | src/lib/db/tasks.ts:255-256 | setDate(min(dayOfMonth, daysInMonth)) lands on that day of the same month |
| TaskStore.MonthlySkipsShortMonth | src/lib/db/tasks.ts:253-254 | from January 31 of a common year, monthly without dayOfMonth gives March 3 |
| TaskStore.NextDateIsLater | src/lib/db/tasks.ts:224-262 | for a rule with weekdays in 0..6, a positive dayOfMonth and a non-negative interval, the next date is strictly after the start day |
| TaskStore.CompleteTask | src/lib/db/tasks.ts:164-198 | a missing task gives none. A recurring task with a rule and a next date is reset to pending with that date as next occurrence. Any other task becomes completed. Both get completed_at and updated_at = now and keep every other field |
| TaskStore.SkipTask | src/lib/db/tasks.ts:200-221 | a missing task gives none. A recurring task with a next date changes only next_occurrence and updated_at. Any other task is returned unchanged |
| TaskStore.CompletedRecurringIsPending | src/lib/db/tasks.ts:169-184 | completing a recurring task without end date leaves it pending with a next occurrence after today |
| TaskStore.OneTimeTask | src/lib/db/tasks.ts:188-220 | skipping a one-time task changes nothing, completing it marks it completed |
| TaskStore.NextSortOrder | src/lib/db/tasks.ts:85-89 | COALESCE(MAX(sort_order), -1) + 1: 0 for an empty plate, otherwise one more than the largest order |
| TaskStore.CreateTask | src/lib/db/tasks.ts:85-118 | the defaults are medium priority, medium energy, anywhere and anytime. Empty description and zero effort become null; otherwise the requested values are stored. The due date and the recurrence rule are the requested ones. A next occurrence of today is set exactly when the request is recurring and has a rule. The task is pending, with sort order COALESCE(MAX(sort_order), -1) + 1 (`NextSortOrder`), and created and updated at `now` |
| ReviewStreak.Rows | src/lib/db/reviews.ts:95-100 | at most 60 rows, the first of the newest-first list |
| ReviewStreak.StreakUnique | src/lib/db/reviews.ts:115-127 | the run length of consecutive days is determined by the rows |
| ReviewStreak.GapEndsStreak | src/lib/db/reviews.ts:121-126 | rows after the first gap never change the streak |
| ReviewStreak.GetReviewStreak | src/lib/db/reviews.ts:93-130 | 0 without rows or when the latest review is more than a day old. Otherwise the streak is at least 1 and is the length of the run of consecutive days from the latest review. It never exceeds the rows, which are at most 60 |
| TodayView.LabelOf | src/app/today/TodayView.tsx:286 | a non-empty label, 'Anywhere' for an item without a context group |
| TodayView.LabelsInOrder | src/app/today/TodayView.tsx:283-289 | the Map's keys: distinct, and exactly the labels of the items |
| TodayView.WithLabel | src/app/today/TodayView.tsx:287-288 | exactly the items carrying the label |
| TodayView.FilledSnoc | src/app/today/TodayView.tsx:285-289 | one step of the loop keeps each Map entry equal to the items so far with its label |
| TodayView.GroupByContext | src/app/today/TodayView.tsx:282-302 | the procedure returns the Map's entries stably sorted by label rank |
| TodayView.GroupsAreFaithful | src/app/today/TodayView.tsx:282-302 | the group labels are distinct and exactly the items' labels. Each group holds exactly its items in input order. Groups are ordered At Work, At Home, Errands, Anywhere, then unknown labels in order of first appearance |
| TodayView.GroupingPreservesCount | src/app/today/TodayView.tsx:282-302 | every item lands in exactly one group: the group sizes add up to the number of items |
| TodayView.MissingContextIsAnywhere | src/app/today/TodayView.tsx:286 | an item without a context group is in the 'Anywhere' group |
| TodayView.CompletedCountIsLength | src/app/today/TodayView.tsx:27 | the count of completed or skipped items reaches the number of items exactly when every item is done |
| TodayView.AllDoneMeansEveryItem | src/app/today/TodayView.tsx:27-30 | all done exactly when there are items and every one is completed or skipped |
| TodayView.ProgressBounds | src/app/today/TodayView.tsx:27-30 | progress is a percentage in 0..100, 0 for an empty plan, and exactly 100 when all items are done |
| TodayView.FindByTask | src/app/today/TodayView.tsx:69 | none exactly when no item has the task; otherwise the first item with it |
| TodayView.OptimisticComplete | src/app/today/TodayView.tsx:68-77 | without a plan or an item for the task nothing changes. Otherwise the items with the found id become completed at now, and every other item is unchanged |
| TodayView.RevertComplete | src/app/today/TodayView.tsx:81-85 | the items with the found id get completed = false and no completed_at, and every other item is unchanged |
| TodayView.OptimisticSkip | src/app/today/TodayView.tsx:90-97 | without a plan or an item for the task nothing changes. Otherwise only the items with the found id become skipped |
| TodayView.RevertSkip | src/app/today/TodayView.tsx:101-104 | only the items with the found id get skipped = false |
| TodayView.CompleteMarksDone | src/app/today/TodayView.tsx:73-77 | the found item is done after the update, and the completed count never drops |
| TodayView.RevertCompleteRestores | src/app/today/TodayView.tsx:73-85 | when the matched items were not completed, the revert gives back the original items |
| TodayView.SkipMarksDone | src/app/today/TodayView.tsx:95-97 | the found item is done after the skip, and the completed count never drops |
| TodayView.RevertSkipRestores | src/app/today/TodayView.tsx:95-104 | when the matched items were not skipped, the revert gives back the original items |
| OnboardingWizard.WithoutPillarMembers | src/components/OnboardingWizard.tsx:71 | exactly the chosen pillars with another name |
| OnboardingWizard.Preselected | src/components/OnboardingWizard.tsx:79 | each suggestion as a selected task |
| OnboardingWizard.TogglePillar | src/components/OnboardingWizard.tsx:67-82 | a chosen pillar is removed with every pillar of its name. Otherwise it is appended, keeping the list before it. Its tasks are the pillar's suggestions copied field by field (title, recurrence, days), each with selected set |
| OnboardingWizard.TogglePillarTwice | src/components/OnboardingWizard.tsx:67-82 | toggling a pillar that was not chosen twice gives back the list |
| OnboardingWizard.ToggleTask | src/components/OnboardingWizard.tsx:87-98 | only the tasks with the title in the pillars with the name flip `selected`; every other field and pillar is unchanged |
| OnboardingWizard.ToggleTaskTwice | src/components/OnboardingWizard.tsx:87-98 | toggling the same task twice restores the pillars |
| OnboardingWizard.AddCustomTask | src/components/OnboardingWizard.tsx:101-114 | only the pillars with the name gain one selected one-time task with the title, at the end |
| OnboardingWizard.SelectedOnly | src/components/OnboardingWizard.tsx:157 | exactly the selected tasks |
| OnboardingWizard.AddCustomTaskCount | src/components/OnboardingWizard.tsx:101-114 | the displayed task total grows by the number of pillars with the name |
| OnboardingWizard.TogglePillarAddsSuggestions | src/components/OnboardingWizard.tsx:366 | choosing a pillar not yet chosen adds every one of its suggested tasks to the displayed task total |
| OnboardingWizard.RuleFor | src/components/OnboardingWizard.tsx:160-166 | daily gives { pattern: daily }, weekly with days gives { pattern: weekly, days }, anything else gives no rule |
| OnboardingWizard.PillarRequests | src/components/OnboardingWizard.tsx:157-178 | one request per selected task, in order, with is_recurring unless one-time and the rule above |
| OnboardingWizard.FinishRequestsAreSelected | src/components/OnboardingWizard.tsx:140-179 | every request is for a selected task of a created pillar. There are at most as many requests as the displayed total, and exactly as many when every pillar is created |
| OnboardingWizard.WithoutDay | src/components/OnboardingWizard.tsx:122 | removes every copy of the day and keeps the order |
| OnboardingWizard.ToggleWorkDay | src/components/OnboardingWizard.tsx:118-125 | a work day is removed; any other day is added and the days come out ascending; ascending days stay ascending |
| OnboardingWizard.ToggleWorkDayAddRemove | src/components/OnboardingWizard.tsx:118-125 | adding a day to ascending work days and toggling it again gives them back |
| OnboardingWizard.ToggleWorkDayRemoveAdd | src/components/OnboardingWizard.tsx:118-125 | removing a day listed once and toggling it again gives back the ascending work days |
| ReviewFlow.InitialRatings | src/components/ReviewFlow.tsx:30-32 | one entry per plate, in plate order, with rating 0 and an empty note |
| ReviewFlow.SetPlateRating | src/components/ReviewFlow.tsx:45-49 | only the rating of the plate's entries changes |
| ReviewFlow.SetPlateNote | src/components/ReviewFlow.tsx:51-55 | only the note of the plate's entries changes |
| ReviewFlow.RatingLastWins | src/components/ReviewFlow.tsx:45-49 | rating a plate twice keeps the last rating |
| ReviewFlow.RatingUpdatesCommute | src/components/ReviewFlow.tsx:45-55 | ratings of different plates, and a rating and a note, can be given in either order |
| ReviewFlow.DecisionOf | src/components/ReviewFlow.tsx:57-59 | the recorded decision of a task, none when it has no key |
| ReviewFlow.Decide | src/components/ReviewFlow.tsx:57-59 | the task's decision becomes the new one and every other task keeps its decision. A known key keeps its place and a new key goes last; keys stay unique |
| ReviewFlow.DecisionLastWins | src/components/ReviewFlow.tsx:57-59 | a later decision about a task replaces the earlier one |
| ReviewFlow.DroppedTasks | src/components/ReviewFlow.tsx:103-112 | exactly the tasks with a 'drop' entry |
| ReviewFlow.OnlyDropCompletes | src/components/ReviewFlow.tsx:103-112 | a task is marked completed on submit exactly when its decision is 'drop'; 'tomorrow' leaves it alone |
| ReviewFlow.TrimmedOrNone | src/components/ReviewFlow.tsx:91-97 | the trimmed text, or none when nothing but spaces remains |
| ReviewFlow.RatingsPayload | src/components/ReviewFlow.tsx:92-98 | exactly the entries with a positive rating, each with its note trimmed or omitted; empty exactly when no plate is rated |
| ReviewFlow.SubmittedRatings | src/components/ReviewFlow.tsx:89-98 | every submitted rating is positive, every positive rating is submitted, and a submitted note is non-empty and already trimmed |
| ReviewFlow.UnratedSubmitsNothing | src/components/ReviewFlow.tsx:92-93 | before any rating nothing is submitted for the plates |
| ReviewFlow.RatedPlateSubmitted | src/components/ReviewFlow.tsx:92-98 | a plate rated positively is submitted with that rating |
| Calendar.FromDay | src/lib/db/tasks.ts:254-256 | a day number becomes a valid civil date that converts back to it |
| Calendar.FromDayToDay | src/lib/db/tasks.ts:254-256 | a valid civil date converts to a day number and back to itself |
| Calendar.SetDateAdd | src/lib/db/tasks.ts:229-261 | setDate(getDate() + k) moves the date by k days, across month ends |
| Calendar.SetMonthNext | src/lib/db/tasks.ts:254 | setMonth(getMonth() + 1) is the first of the next month plus the day minus one, overflowing past short months |
| Calendar.SetDateInMonth | src/lib/db/tasks.ts:256 | setDate(k) for k within the month gives day k of the same month |
| Sorting.StableSort | src/lib/plan-generator.ts:122-134 | the result is a sorted permutation of the input |
| Sorting.StableSortIsStable | src/app/today/TodayView.tsx:293-298 | elements with equal keys keep their input order |
| Sorting.AscendingUnique | src/components/OnboardingWizard.tsx:123 | two ascending arrangements of the same numbers are equal |
| Text.TrimIsMiddle | src/components/ReviewFlow.tsx:91-97 | trim keeps a contiguous middle part and drops only spaces around it |
| Text.TrimIdempotent | src/components/ReviewFlow.tsx:97 | trimming twice is trimming once |

## Left out

- SQL, HTTP and rendering. The queries, routes, `fetch`, toasts and JSX are not modelled. `completeTask`/`skipTask` start from the task record that `getTaskById` would return, and `getReviewStreak` starts from the date list that its query would return.
- Time zones. Some of the date handling works in local time: `setHours(0, 0, 0, 0)`, `setDate`, `getDate`, `setMonth` and `getDay` (tasks.ts:225-262, plan-generator.ts:51,177, reviews.ts:106). Two steps work in UTC: the output string from `toISOString` (tasks.ts:96,270, plan-generator.ts:58) and the date-only parse `new Date(rule.endDate)` (tasks.ts:266). The model uses one naive day number for both and ignores daylight saving time, so it is exact only when the server runs in UTC. It does not capture two effects of the mix:
  - East of UTC, local midnight prints as the previous day.
  - West of UTC, a next date equal to `endDate` is local midnight, which is later than UTC midnight, so the code returns null. `TaskStore.NextOccurrence` keeps that date.
- Instants before 1970 are not modelled; instants are `nat` milliseconds.
- The wall clock: every `new Date()` becomes a `now` parameter (plan-generator.ts:249, pillar-health.ts:24, tasks.ts:171,206, reviews.ts:105).
- Strings of dates and times: dates are day numbers, not "YYYY-MM-DD" strings. The `next_occurrence > today` string comparison becomes an integer comparison. `timeToMinutes` is modelled for clock strings of decimal digits only (`ValidSchedule`); `Number` of any other text (NaN) is not modelled.
- Unknown enum strings: priority, context, time preference, status and recurrence pattern are closed datatypes. The `default: return 50` of priorityScore, the `?? 2` for an unknown time preference and a pattern outside the union cannot occur and are not modelled.
- PlanGenerator.ScoreTask: the float weights 0.35/0.30/0.20/0.15 are modelled as the exact integer sum scaled by 100, without floating-point rounding.
- PillarHealth.ReviewScore: the average is an exact `real`, without floating-point rounding.
- The `date` field of a review rating is not used by the health score and is not modelled.
- In-place sorting: `scored.sort` and `selected.sort` are modelled as the function `Sorting.StableSort` over sequences, not as an in-place array algorithm.
- Object identity in the generator (`selected.includes(s)`) is modelled by the `slot` of each scored entry.
- The constant tables SUGGESTED_PILLARS and SUGGESTED_TASKS of src/lib/onboarding-data.ts are a parameter (`table`) of `TogglePillar`, not fixed data.
- Request order and failures in ReviewFlow's handleSubmit (the review POST, then one PATCH per dropped task) and in OnboardingWizard's handleFinish. In both, a request that throws skips every remaining request. In handleFinish, a pillar whose creation response is not ok is skipped with its tasks; `FinishRequests` takes that outcome as its `created` parameter.
- completed_at of an optimistic completion is the instant `now`, not its ISO string.
- The onboarding step counter, the progress bar, input fields, `handleAddTask` and the schedule fields other than work_days are not modelled.
- A JavaScript `Date` has a time of day; the model keeps only the day for recurrence (the original zeroes the time first) and instants for completions.
