# pomoStudy session bookkeeping in Dafny

pomoStudy is a Pomodoro study app. The app is written in React. Beneath the
React plumbing it keeps a small amount of bookkeeping, and this project
models that bookkeeping and proves properties of it.

- **Timer.** The countdown is a state machine. It runs focus and break
  phases, counts completed sessions up to a target, and notifies its
  subscribers when a focus phase ends.
- **Stats reducer.** It keeps streaks, daily and total counters, the total
  focused time in hours and minutes, and level progress with level-ups.
- **Activity ledger.** It keeps one record per day with the minutes studied
  and a heat-map intensity. It also decides, at the start of a new day,
  whether the streak goes on.
- **Achievements.** Each achievement unlocks once its statistic reaches a
  target. A filtered, searchable view shows the list.
- **Task list.** The study tasks can be added, removed, toggled and given a
  priority.
- **Display rules.** These are the sidebar's focused-time text, the
  countdown's `mm:ss` face, the total-progress text and the ±1 buttons of the
  timer settings.

Each piece has the form its source has:

- Objects whose fields the source updates in place are classes:
  - the timer provider is `Timer.Timer`;
  - the all-in-one provider is `StudyContext.Study`;
  - the activity provider's ledger is `Activity.Ledger`;
  - the browser store is `Stats.LocalStorage`.
- Pure switch, map and filter code is functions on datatypes and sequences.
- Loops are methods with loop invariants:
  - unsubscribe's `indexOf`;
  - `resetProgress`'s key removal;
  - `checkAchievements`;
  - the calendar window and week grouping;
  - the dispatch of completion callbacks.

Each method is proved against a function that specifies it. The lemmas then
state what the source promises about those functions.

Conventions:

- **Dates.** A date is an integer day number. "Today" is a parameter and
  "yesterday" is today − 1.
- **Callbacks.** A callback is a natural-number identity. The source keeps
  closures and compares them with `===`.
- **Ticks.** A timer tick is one explicit call of `Tick`.
- **Reals.** Level progress and the hours metric are Dafny `real` (exact
  rationals).
- **Minute counters.** These are `nat`. On naturals, `Math.floor(x / 60)` and
  `x % 60` agree with Dafny's `/` and `%`.
- **Negative remainders.** The countdown face can go negative, so there
  JavaScript's truncating `%` is written out.

## Model

| member | source | states |
|---|---|---|
| Stats.CalculateLevelUp | context/StatsContext.tsx:82-94 | the new level number is one more, progress restarts at 0, and the hours needed become 10 * (number + 2) |
| Stats.LevelUpNames | context/StatsContext.tsx:83-85 | the new name is the table entry at the new number, or "Legendary" past the table; the announced next name is the entry one further, or "Legendary+" |
| Stats.NextLevelAnnouncesNextName | context/StatsContext.tsx:84-85 | the announced next name equals the name the following level-up really gives if and only if number + 2 is still inside the 7-entry table |
| Stats.ResetLevelSkipsSilver | context/StatsContext.tsx:83-84 | the reset level Bronze/1 announces "Silver" but levels up to Gold/2, because the table is indexed from 0 |
| Stats.StreakIncremented | context/StatsContext.tsx:99-107 | streak + 1, best streak the larger of the new streak and the old best, no other field changed |
| Stats.StreakReset | context/StatsContext.tsx:109-113 | streak 0, no other field changed, so best streak >= streak is kept |
| Stats.ProgressIncrement | context/StatsContext.tsx:164 | the increment is non-negative, and increment * hours * 60 = minutes * 100 (minutes over the level's hours, as a percentage) |
| Stats.LevelProgressUpdated | context/StatsContext.tsx:130-149 | a value >= 100 levels up exactly once, a smaller value is stored as it is, and nothing else changes |
| Stats.SessionCompleted | context/StatsContext.tsx:151-193 | hours * 60 + minutes grows by exactly the minutes added, minutes stay below 60, both session counts grow by 1, today's minutes grow by the minutes added, progress is min(p + increment, 100) with exactly one level-up on reaching 100, and every other field is unchanged |
| Stats.DailyStatsReset | context/StatsContext.tsx:195-201 | today's sessions and minutes become 0, the login date becomes today, and nothing else changes |
| Stats.AllProgressReset | context/StatsContext.tsx:203-219 | every counter becomes 0 and the level goes back to Bronze/1, 0, "Silver", 10; motivation, tips, target hours and login date are kept, and the result satisfies the invariants |
| Stats.Reduce | context/StatsContext.tsx:97-224 | no action changes the tips or the target; the motivation text changes only by UPDATE_DAILY_MOTIVATION, the login date only by RESET_DAILY_STATS (to today), the streak only by the two streak actions and the full reset; UPDATE_DAILY_MOTIVATION and UPDATE_LEVEL change their one field and nothing else |
| Stats.ReducePreservesValid | context/StatsContext.tsx:97-224 | every action keeps best streak >= streak, minutes < 60 and progress in [0, 100), for progress values >= 0 |
| Stats.CheckForDailyReset | context/StatsContext.tsx:235-244 | the daily reset is issued exactly when the stored login date is not today, and afterwards the login date is today |
| Stats.DailyCheckIdempotent | context/StatsContext.tsx:236-238 | a second daily check on the same day changes nothing |
| Stats.CompleteAllAccumulates | context/StatsContext.tsx:158-161 | over any run of sessions the total minutes grow by their sum, minutes stay below 60, and the session count grows by the number of sessions |
| Stats.LocalStorage.RemoveItem | context/StatsContext.tsx:319 | the store loses exactly that key |
| Stats.KeptSettings | context/StatsContext.tsx:312-316 | the keys left are the stored keys among focusTime, breakTime and timerTechnique, with their values |
| Stats.ResetProgress | context/StatsContext.tsx:309-325 | the loop removes every stored key except the three timer settings, which keep their values, and the state becomes RESET_ALL_PROGRESS of the old one |
| Timer.Step | context/TimerContext.tsx:100-128 | outside the running phase nothing changes; a non-final tick adds one second; a final focus tick starts a running break at 0 with min(sessions + 1, target) sessions; a final break tick returns to idle focus at 0 |
| Timer.StepKeepsSettings | context/TimerContext.tsx:101-128 | a tick never changes the focus length, the break length, the target or the technique |
| Timer.StepKeepsElapsedBelowTotal | context/TimerContext.tsx:103-105 | with both lengths at least one minute, 0 <= elapsed < phase length is kept from tick to tick |
| Timer.StepsCountSeconds | context/TimerContext.tsx:105-127 | from the start of a running focus phase, the first k ticks (k below the phase length) only count seconds |
| Timer.FirstSessionAfterFocusTicks | context/TimerContext.tsx:103-119 | from the start of a running focus phase of F >= 1 minutes, tick j completes a session iff j = F * 60, after which a running break has begun with one more session (capped at the target) |
| Timer.RemoveFirst | context/TimerContext.tsx:88-93 | an absent subscriber leaves the list as it is; a present one makes it one shorter |
| Timer.FirstIndex | context/TimerContext.tsx:89 | the result is -1 iff no entry holds the subscriber, and otherwise an index holding it with none before it |
| Timer.RemoveFirstCounts | context/TimerContext.tsx:89-92 | as a multiset, the list loses exactly one occurrence of the subscriber when it holds one, and nothing otherwise |
| Timer.SubscribeThenUnsubscribe | context/TimerContext.tsx:85-94 | registering a new subscriber and calling its handle restores the list, and calling the handle again changes nothing |
| Timer.IndexOf | context/TimerContext.tsx:89 | the loop returns exactly the position FirstIndex specifies |
| Timer.Timer.constructor | context/TimerContext.tsx:34-46 | the timer starts from the stored values with no subscribers |
| Timer.Timer.StartTimer | context/TimerContext.tsx:52-54 | the phase becomes running and nothing else changes |
| Timer.Timer.PauseTimer | context/TimerContext.tsx:56-58 | the phase becomes paused and nothing else changes |
| Timer.Timer.ResetTimer | context/TimerContext.tsx:60-64 | the timer becomes idle, at 0 seconds, outside a break, and nothing else changes |
| Timer.Timer.SkipToBreak | context/TimerContext.tsx:66-69 | the timer is on break at 0 seconds and the phase is left as it was |
| Timer.Timer.UpdateFocusTime | context/TimerContext.tsx:72-74 | only the focus length changes |
| Timer.Timer.UpdateBreakTime | context/TimerContext.tsx:76-78 | only the break length changes |
| Timer.Timer.UpdateTargetSessions | context/TimerContext.tsx:80-82 | only the target changes |
| Timer.Timer.SetTimerTechnique | context/TimerContext.tsx:46 | only the technique changes |
| Timer.Timer.OnSessionComplete | context/TimerContext.tsx:85-86 | the subscriber is appended to the list |
| Timer.Timer.Unsubscribe | context/TimerContext.tsx:88-93 | the first occurrence of the subscriber, if any, is removed |
| Timer.Timer.Tick | context/TimerContext.tsx:100-128 | the new state is Step of the old one; a final focus tick calls every subscriber once, in registration order, and no other tick calls any |
| StudyContext.Study.constructor | context/study-context.tsx:64-91 | the provider starts from the given timer state, tasks and motivation |
| StudyContext.Study.StartTimer | context/study-context.tsx:221-223 | the phase becomes running and nothing else changes |
| StudyContext.Study.PauseTimer | context/study-context.tsx:225-227 | the phase becomes paused and nothing else changes |
| StudyContext.Study.ResetTimer | context/study-context.tsx:229-233 | idle, 0 seconds, outside a break, and nothing else changes |
| StudyContext.Study.SkipToBreak | context/study-context.tsx:235-238 | on break at 0 seconds with the phase left as it was |
| StudyContext.Study.UpdateFocusTime | context/study-context.tsx:264-266 | only the focus length changes |
| StudyContext.Study.UpdateBreakTime | context/study-context.tsx:268-270 | only the break length changes |
| StudyContext.Study.UpdateTargetSessions | context/study-context.tsx:272-274 | only the target changes |
| StudyContext.Study.SetTimerTechnique | context/study-context.tsx:72 | only the technique changes |
| StudyContext.Study.UpdateDailyMotivation | context/study-context.tsx:276-278 | only the motivation text changes |
| StudyContext.Study.Tick | context/study-context.tsx:284-305 | the duplicated tick does exactly what Timer.Step specifies, so it agrees with the timer provider |
| StudyContext.Study.AddTask | context/study-context.tsx:241-249 | the list becomes Tasks.AddTask of the old one and nothing else changes |
| StudyContext.Study.RemoveTask | context/study-context.tsx:251-253 | the list becomes Tasks.RemoveTask of the old one and nothing else changes |
| StudyContext.Study.ToggleTask | context/study-context.tsx:255-257 | the list becomes Tasks.ToggleTask of the old one and nothing else changes |
| StudyContext.Study.UpdateTaskPriority | context/study-context.tsx:259-261 | the list becomes Tasks.UpdateTaskPriority of the old one and nothing else changes |
| Tasks.AddTask | context/TaskContext.tsx:23-31 | one more task; the old list is a prefix; the new task is (id, text, not completed, priority 1) |
| Tasks.RemoveTask | context/TaskContext.tsx:33-35 | no task with the id remains; the result is an order-preserving subsequence, and every task with another id is kept with its multiplicity |
| Tasks.RemoveAbsentIsIdentity | context/TaskContext.tsx:33-35 | removing an id no task carries gives the list back |
| Tasks.ToggleTask | context/TaskContext.tsx:37-39 | the ids are unchanged; `completed` flips exactly on the tasks with the id, and no other field changes |
| Tasks.ToggleTwiceIsIdentity | context/TaskContext.tsx:37-39 | toggling the same id twice restores the list |
| Tasks.UpdateTaskPriority | context/TaskContext.tsx:41-43 | the ids are unchanged; the given priority, unclamped, is stored on the tasks with the id, and no other field changes |
| Tasks.LaterPriorityWins | context/TaskContext.tsx:41-43 | of two priority updates of one id, the later one wins |
| Activity.FindIndex | context/ActivityContext.tsx:76 | -1 iff no record has the date; otherwise the first index holding it |
| Activity.GetActivityForDate | context/ActivityContext.tsx:37-39 | nothing iff no record has the date; otherwise the first record with that date |
| Activity.Intensity | context/ActivityContext.tsx:82 | at most 4, and for b < 4 the minutes lie in [60b, 60(b + 1)); 4 iff at least 240 minutes |
| Activity.Upsert | context/ActivityContext.tsx:74-90 | an existing record of today gets the minutes added and is re-bucketed, with the length and every other record unchanged; otherwise (today, intensity 1, m) is appended |
| Activity.UpsertRecordsToday | context/ActivityContext.tsx:74-90 | afterwards the first record of today sits where it was (or at the end), with intensity in [0, 4] and its old minutes plus the ones added |
| Activity.UpsertKeepsDatesUnique | context/ActivityContext.tsx:76-90 | if the dates are unique before the upsert, they are unique after it |
| Activity.SecondShortSessionDropsIntensity | context/ActivityContext.tsx:79-89 | a new day starts at intensity 1, and a second session that keeps the day under 60 minutes drops it to 0 |
| Activity.LedgerMinutesOfUpdate | context/ActivityContext.tsx:79-84 | replacing one record changes the ledger's total by the difference of their minutes |
| Activity.UpsertAddsMinutes | context/ActivityContext.tsx:70-94 | a session of m minutes adds exactly m to the ledger's total |
| Activity.StreakAction | context/ActivityContext.tsx:52-60 | the streak is incremented iff yesterday has a record with intensity > 0, and reset otherwise |
| Activity.StreakDecision | context/ActivityContext.tsx:54-60 | after the decision the streak is one longer iff yesterday was active and 0 iff it was not, and the best streak keeps up |
| Activity.Ledger.constructor | context/ActivityContext.tsx:27-34 | the ledger starts from the stored records and login date |
| Activity.Ledger.RecordSession | context/ActivityContext.tsx:70-94 | the records become Upsert of the old ones and the login date is kept |
| Activity.Ledger.CheckDailyStreak | context/ActivityContext.tsx:42-66 | on a new day the streak command is the one StreakAction decides; on the same day the stats are unchanged; the login date is today afterwards |
| ActivityHistory.FilledDay | components/stats/activity-history.tsx:120-128 | the shown record has the date asked for; it is the first stored record of that date when there is one, and the empty day (date, 0, 0) otherwise |
| ActivityHistory.FillMissingDays | components/stats/activity-history.tsx:111-133 | exactly n entries (none for n < 1); entry k is the stored record of today − (n − 1 − k), or an empty day; dates strictly increase and the last is today |
| ActivityHistory.GroupByWeek | components/stats/activity-history.tsx:23-26 | the weeks put back together are the window; their number is the length divided by 7, rounded up; each is the matching 7-day slice; all are full when the length is a multiple of 7 |
| ActivityHistory.HistoryWeeks | components/stats/activity-history.tsx:7-26 | 53 full weeks whose days are the filled window of 371 days ending today |
| ActivityHistory.WeekSplitSizes | components/stats/activity-history.tsx:23-26 | a split into consecutive 7-day slices has no empty week, none longer than 7, and only full weeks when 7 divides the length |
| ActivityHistory.ColorMarks | components/stats/activity-history.tsx:97-104 | the fifth and ninth characters of the colour class identify its bucket |
| ActivityHistory.ColorsFollowBuckets | components/stats/activity-history.tsx:97-104 | two intensities get the same colour iff they fall in the same bucket: 0 grey, 1 to 4 four distinct greens, anything else the darkest green |
| Achievements.UnlockAchievement | context/AchievementContext.tsx:45-52 | same length; the entries with the id become unlocked and nothing else changes |
| Achievements.UnlockIdempotent | context/AchievementContext.tsx:45-52 | unlocking twice is unlocking once |
| Achievements.UpdateAchievementProgress | context/AchievementContext.tsx:54-70 | the entries with the id take the new progress and are unlocked iff the progress reaches their target or they already were; the other entries are unchanged |
| Achievements.UnlockedStaysUnlocked | context/AchievementContext.tsx:54-70 | no run of progress updates locks an unlocked achievement again, and the length and ids are kept |
| Achievements.Metric | context/AchievementContext.tsx:79-99 | only streaks, sessions and hours have a statistic; it is never negative; the hours statistic is the total focused minutes divided by 60 |
| Achievements.CheckOne | context/AchievementContext.tsx:76-102 | unlocked entries and types without a rule stay as they are; otherwise the entry unlocks iff its statistic reaches the target, keeping its progress when it unlocks and recording the statistic as progress when it does not |
| Achievements.UnlockAt | context/AchievementContext.tsx:45-52 | with distinct ids, unlocking entry i's id changes entry i alone |
| Achievements.UpdateAt | context/AchievementContext.tsx:54-70 | with distinct ids, a progress update for entry i's id changes entry i alone |
| Achievements.CheckAchievements | context/AchievementContext.tsx:73-104 | the length and ids are kept, unlocked entries stay unlocked, and with distinct ids every entry ends as CheckOne makes it |
| AchievementsList.Lower | components/achievements/achievements-list.tsx:24-25 | the length is kept, no capital letter is left, each capital becomes the character 32 code points up (its small letter), and every other character is kept |
| AchievementsList.LowerIdempotent | components/achievements/achievements-list.tsx:24-25 | lower-casing twice is lower-casing once |
| AchievementsList.FilteredAchievements | components/achievements/achievements-list.tsx:17-30 | the result is an order-preserving subsequence of the type given, matching the query in title or description; an item is kept, with its multiplicity, iff it matches |
| AchievementsList.EmptyQueryFiltersByTypeOnly | components/achievements/achievements-list.tsx:22-29 | with an empty query the view is the type filter alone |
| AchievementsList.AllWithoutQueryIsIdentity | components/achievements/achievements-list.tsx:17-30 | "all" with an empty query gives the list unchanged |
| AchievementsList.FilteringTwiceIsOnce | components/achievements/achievements-list.tsx:17-30 | filtering the view again with the same settings changes nothing |
| AchievementsList.SearchIgnoresCase | components/achievements/achievements-list.tsx:24-25 | queries equal after lower-casing give the same view |
| AchievementsList.SearchUsesLowerCasedQuery | components/achievements/achievements-list.tsx:22-26 | the view for a query is the view for its lower-cased form |
| Sidebar.FormatTime | components/sidebar.tsx:59-64 | the text starts with the numeral of the minutes below an hour and of the whole hours otherwise, and it ends in 'h' exactly on whole hours of an hour or more, in 'm' otherwise |
| Sidebar.FormatTimeRoundTrip | components/sidebar.tsx:59-64 | reading the text back gives the minutes |
| Sidebar.FormatTimeInjective | components/sidebar.tsx:59-64 | different minute counts never give the same text |
| TotalProgress.FormattedTime | components/stats/total-progress.tsx:10 | the text starts with the hours' numeral and 'h', and it ends in 'm' iff the minutes are positive |
| TotalProgress.FormattedTimeRoundTrip | components/stats/total-progress.tsx:10 | reading the text back gives the hours and the minutes |
| TimerDisplay.RemainingTime | components/timer/timer.tsx:10-11 | the remaining time never exceeds the phase length, and it is negative exactly when the phase has overrun |
| TimerDisplay.Minutes | components/timer/timer.tsx:14 | the floor of the seconds divided by 60: minutes * 60 <= x < minutes * 60 + 60 |
| TimerDisplay.Seconds | components/timer/timer.tsx:15 | JavaScript's remainder by 60: in [0, 59] for x >= 0, in [-59, 0] for x < 0, and always x minus a multiple of 60 |
| TimerDisplay.ClockSplit | components/timer/timer.tsx:10-15 | while the phase has not overrun, minutes * 60 + seconds = remaining time, with minutes >= 0 and seconds in [0, 59] |
| TimerDisplay.PadStart2 | components/timer/timer.tsx:40 | at least two characters, ending in the input, preceded only by '0's |
| TimerDisplay.ClockRoundTrip | components/timer/timer.tsx:10-40 | while the phase has not overrun, the `mm:ss` text reads back as the remaining seconds and has at least 5 characters |
| TimerDisplay.ClockTextRoundTrip | components/timer/timer.tsx:40 | two padded numerals around a colon read back as minutes * 60 + seconds |
| TimerDisplay.OverrunShowsNegativeFields | components/timer/timer.tsx:11-15 | one second past the end of the phase, the face shows "-1:-1" |
| TimerDisplay.SkipToBreakWithdrawsOffer | components/timer/timer.tsx:68 | where "Skip to break" is offered, taking it withdraws the offer and shows the full break length |
| TimerSettings.Decrement | components/timer/timer-settings.tsx:59 | the minus button gives v − 1 above 1 and 1 otherwise, so never less than 1 |
| TimerSettings.Increment | components/timer/timer-settings.tsx:75 | the plus button gives v + 1 below the maximum and the maximum otherwise |
| TimerSettings.ButtonsKeepRange | components/timer/timer-settings.tsx:59-76 | for focus [1, 60], break [1, 30] and target [1, 10], a value in range stays in range after either button; minus at the bottom and plus at the top change nothing |
| TimerSettings.ButtonsUndoEachOther | components/timer/timer-settings.tsx:92-109 | away from the bounds, plus undoes minus and minus undoes plus |
| Session.HandleAddsFocusTime | context/StatsContext.tsx:264-271 | the stats subscriber adds the focus length to the stats total, the activity subscriber adds it to the ledger, and any other callback adds nothing |
| Session.DeliverAddsFocusTime | context/ActivityContext.tsx:70-94 | over a run of callbacks each total grows by the focus length times the number of calls of its subscriber |
| Session.CompletionKeepsTotalsInStep | context/StatsContext.tsx:264-271 | with each subscriber registered once, a completion adds the focus length to both the stats total and the ledger, so the two move in step |
| Session.DeliverCompletions | context/TimerContext.tsx:116 | the callbacks take effect one after another, as Deliver specifies |
| Session.FocusTick | context/TimerContext.tsx:100-128 | the timer takes one Step, and the callbacks it calls reach the stats and the ledger with the focus length it holds |

Some definitions carry no contract of their own. They are the source's
expressions given a name, and the rows above state their properties:

- `Stats.LevelName` (context/StatsContext.tsx:84-85): the level-name table
  lookup with its fallback. See `Stats.LevelUpNames` and
  `Stats.NextLevelAnnouncesNextName`.
- `Tasks.Ids`: the ids of a task list in order, a helper of the task
  contracts. See `Tasks.ToggleTask` and `Tasks.UpdateTaskPriority`.

- `Timer.TotalTime` (context/TimerContext.tsx:103) and `Timer.IsFinalTick`
  (context/TimerContext.tsx:105): the phase length in seconds and the final
  tick test. See `Timer.Step`, `Timer.StepKeepsElapsedBelowTotal` and
  `Timer.FirstSessionAfterFocusTicks`.
- `TimerDisplay.Clock` (components/timer/timer.tsx:40): the `mm:ss` text.
  See `TimerDisplay.ClockRoundTrip` and
  `TimerDisplay.OverrunShowsNegativeFields`.
- `TimerDisplay.ShowsSkipToBreak` (components/timer/timer.tsx:68): when the
  "Skip to break" button shows. See `TimerDisplay.SkipToBreakWithdrawsOffer`.
- `ActivityHistory.ActivityColor` (components/stats/activity-history.tsx:97-104):
  the heat-map colour classes. See `ActivityHistory.ColorMarks` and
  `ActivityHistory.ColorsFollowBuckets`.
- `AchievementsList.Matches` (components/achievements/achievements-list.tsx:17-29):
  the filter callback. See `AchievementsList.FilteredAchievements` and the
  lemmas after it.
- `Session.Handle` (context/StatsContext.tsx:264-271 and
  context/ActivityContext.tsx:70-94) and `Session.Deliver`
  (context/TimerContext.tsx:116): one subscriber's effect and the subscribers
  called in order. See `Session.HandleAddsFocusTime`,
  `Session.DeliverAddsFocusTime` and `Session.DeliverCompletions`.

## Left out

- React machinery is not modelled: state hooks, effects, context creation
  and the hooks' "outside provider" errors. Commands and ticks are explicit
  method and function calls.
- Scheduling is not modelled: `setInterval`/`clearInterval`, the
  window-focus listener and the hourly poll of the daily check. A tick is one
  `Tick` call, and the daily check is `Stats.CheckForDailyReset` called with
  today's day number.
- Persistence is modelled only where the source's logic needs it.
  `resetProgress` removes keys, so the store is a `map` there. Loading state
  from storage is a constructor argument. The write-back effects are left
  out because they are I/O.
- Dates are not modelled: `Date`, `toISOString`, `setDate` and
  `getTodayString` depend on the clock and the time zone. Dates are day
  numbers and today is a parameter.
- `generateActivityData` and study-context's hard-coded sample state are
  left out, because they are random or fixed mock data.
  `StudyContext.Study` takes its initial state as constructor arguments.
- Floating point is not modelled: the timer's progress ring, the
  progress-percentage bars and total-progress's `progressPercentage` are
  rendering-only floats. Level progress and the hours metric are exact
  `real` values without IEEE rounding.
- Presentation files are left out: JSX, class strings (apart from the
  heat-map colour classes), the navbar, the app pages, the layout, the
  providers, the achievement card and the stats overview.
- The `isDayChange` flag in the stats provider is left out. It is a
  one-second UI flag set through `setTimeout`.
- `resetProgress`'s `typeof window` guard is not modelled, because the store
  is always present here. Its console message is left out.
- The tick's console message before it calls the subscribers
  (context/TimerContext.tsx:115) is left out; it is logging only.
- `AchievementsList.Lower`: lower-cases ASCII letters only. `toLowerCase`'s
  full Unicode case mapping is not modelled.
- `Achievements.CheckAchievements`: its commands are modelled as taking
  effect one after another. In the source each command maps the same
  captured array and sets the state, so when several entries change in one
  check only the last change survives. The model states the per-entry rule
  the code spells out, and its last-write-wins outcome is not modelled. The
  per-entry result is stated for lists with distinct ids.
- `Activity.Ledger.RecordSession`: the subscriber in the source reads the
  activity list captured when it was registered. The model reads the
  current list, and a stale capture is not modelled.
- `Session.FocusTick`: other subscribers, such as the achievement check
  (context/AchievementContext.tsx:107-113), are ordinary callbacks. The
  model gives them no effect on the stats or the ledger.
- `Stats.ReducePreservesValid`: it requires UPDATE_LEVEL_PROGRESS values to
  be at least 0. `updateLevelProgress` has no caller in the app
  (context/StatsContext.tsx:305-306, 340), and the reducer does not check
  the value.
- `Stats.Level`: level numbers are `nat`. A stored negative level number is
  not modelled.
- `Stats.HoursPositive`: `hoursToNextLevel` is a positive integer. That holds
  for every value the source produces (10 at the start, 10 * (n + 1) after a
  level-up), and it keeps the real division defined. A stored zero is not
  modelled.
- `TimerSettings.Increment`: the three sliders' own `onValueChange` updates
  are not modelled. They pass the slider's value through unchanged.
- The activity history view reads its records from the all-in-one provider
  (context/study-context.tsx). Its functions take the record list as a
  parameter, so they apply to either provider's list.
