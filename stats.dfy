/** The statistics reducer of context/StatsContext.tsx: streaks, daily and
    cumulative session counters, and level progress with level-up. The
    reducer is a pure function from (state, action) to state; the one
    imperative piece, resetProgress, clears the persisted keys in a loop and
    is modelled over a LocalStorage object holding a key/value map.
    Dates are day numbers; "today" is passed in (the source reads the clock). */
module Stats {

  /** hoursToNextLevel is always positive: 10 at the start, 10 * (n + 1)
      after a level-up to level n. */
  type HoursPositive = h: int | h > 0 witness 10

  datatype Level = Level(name: string, number: nat)

  datatype LevelInfo = LevelInfo(level: Level, progress: real, nextLevel: string, hoursToNextLevel: HoursPositive)

  datatype StatsState = StatsState(
    streak: nat,
    bestStreak: nat,
    sessionsToday: nat,
    focusedTimeToday: nat,
    totalSessions: nat,
    totalHours: nat,
    totalMinutes: nat,
    targetHours: int,
    levelInfo: LevelInfo,
    dailyMotivation: string,
    focusTips: seq<string>,
    lastLoginDate: int)

  datatype Action =
    | IncrementStreak
    | ResetStreak
    | UpdateDailyMotivation(text: string)
    | UpdateLevel(level: Level)
    | UpdateLevelProgress(progress: real)
    | CompleteSession(minutesAdded: nat)
    | ResetDailyStats
    | ResetAllProgress

  const LevelNames: seq<string> := ["Bronze", "Silver", "Gold", "Platinum", "Diamond", "Master", "Grandmaster"]

  /** LEVEL_NAMES[index] || fallback: an index outside the array reads undefined. */
  function LevelName(index: int, fallback: string): string
  {
    if 0 <= index < |LevelNames| then LevelNames[index] else fallback
  }

  const InitialLevelInfo := LevelInfo(Level("Bronze", 1), 0.0, "Silver", 10)

  /** Focused time as one number of minutes. */
  function TotalMinutes(s: StatsState): nat
  {
    s.totalHours * 60 + s.totalMinutes
  }

  /** The invariants the reducer keeps: the best streak is never behind the
      current one, minutes never reach an hour, progress stays in [0, 100). */
  predicate Valid(s: StatsState)
  {
    s.bestStreak >= s.streak && s.totalMinutes < 60 &&
    0.0 <= s.levelInfo.progress < 100.0
  }

  /** Progress values callers hand to UPDATE_LEVEL_PROGRESS are percentages. */
  predicate ValidAction(a: Action)
  {
    a.UpdateLevelProgress? ==> a.progress >= 0.0
  }

  /** The level that follows `current`, with progress restarted. */
  function CalculateLevelUp(current: Level): (r: LevelInfo)
    ensures r.level.number == current.number + 1
    ensures r.progress == 0.0
    ensures r.hoursToNextLevel == 10 * (current.number + 2)
  {
    var newNumber := current.number + 1;
    LevelInfo(Level(LevelName(newNumber, "Legendary"), newNumber),
              0.0,
              LevelName(newNumber + 1, "Legendary+"),
              10 * (newNumber + 1))
  }

  /** The names the level-up gives: the table entry at the new number (the
      table is indexed from 0 while levels start at 1), then "Legendary"; the
      announced next name is the entry one further, then "Legendary+". */
  lemma LevelUpNames(current: Level)
    ensures current.number + 1 < 7 ==>
      CalculateLevelUp(current).level.name == LevelNames[current.number + 1]
    ensures current.number + 1 >= 7 ==> CalculateLevelUp(current).level.name == "Legendary"
    ensures current.number + 2 < 7 ==>
      CalculateLevelUp(current).nextLevel == LevelNames[current.number + 2]
    ensures current.number + 2 >= 7 ==> CalculateLevelUp(current).nextLevel == "Legendary+"
  {
  }

  /** The announced next name is the name the next level-up really gives,
      up to the end of the table; after it the announcement says
      "Legendary+" but the level-up still says "Legendary". */
  lemma NextLevelAnnouncesNextName(current: Level)
    ensures var up := CalculateLevelUp(current);
      (current.number + 2 < 7 <==> up.nextLevel == CalculateLevelUp(up.level).level.name)
  {
    var up := CalculateLevelUp(current);
    if current.number + 2 >= 7 {
      assert up.nextLevel == "Legendary+";
      assert CalculateLevelUp(up.level).level.name == "Legendary";
    }
  }

  /** From the reset level ("Bronze", 1, announcing "Silver") one level-up
      gives "Gold": the announced "Silver" is skipped. */
  lemma ResetLevelSkipsSilver()
    ensures InitialLevelInfo.nextLevel == "Silver"
    ensures CalculateLevelUp(InitialLevelInfo.level).level == Level("Gold", 2)
  {
  }

  function StreakIncremented(s: StatsState): (r: StatsState)
    ensures r.streak == s.streak + 1
    ensures r.bestStreak >= r.streak && r.bestStreak >= s.bestStreak
    ensures r.bestStreak == r.streak || r.bestStreak == s.bestStreak
    ensures r.(streak := s.streak, bestStreak := s.bestStreak) == s
  {
    var newStreak := s.streak + 1;
    s.(streak := newStreak, bestStreak := if newStreak > s.bestStreak then newStreak else s.bestStreak)
  }

  function StreakReset(s: StatsState): (r: StatsState)
    ensures r.streak == 0
    ensures r.(streak := s.streak) == s
    ensures s.bestStreak >= s.streak ==> r.bestStreak >= r.streak
  {
    s.(streak := 0)
  }

  /** The share of a level a session adds: minutes over the level's hours, in percent. */
  function ProgressIncrement(minutesAdded: nat, hoursToNextLevel: HoursPositive): (inc: real)
    ensures inc >= 0.0
    ensures inc * (hoursToNextLevel as real) * 60.0 == (minutesAdded as real) * 100.0
  {
    (minutesAdded as real / 60.0) / (hoursToNextLevel as real) * 100.0
  }

  /** UPDATE_LEVEL_PROGRESS: a value of 100 or more levels up exactly once
      (progress restarts at 0); a smaller value is stored as it is. */
  function LevelProgressUpdated(s: StatsState, progress: real): (r: StatsState)
    ensures progress >= 100.0 ==> r.levelInfo == CalculateLevelUp(s.levelInfo.level)
    ensures progress < 100.0 ==> r.levelInfo == s.levelInfo.(progress := progress)
    ensures r.(levelInfo := s.levelInfo) == s
  {
    if progress >= 100.0 then s.(levelInfo := CalculateLevelUp(s.levelInfo.level))
    else s.(levelInfo := s.levelInfo.(progress := progress))
  }

  /** COMPLETE_SESSION: one more session today and in total, the minutes
      added to today's and to the running total (carried into hours), and
      level progress advanced, levelling up exactly once on reaching 100. */
  function SessionCompleted(s: StatsState, minutesAdded: nat): (r: StatsState)
    ensures TotalMinutes(r) == TotalMinutes(s) + minutesAdded
    ensures r.totalMinutes < 60 && r.totalHours >= s.totalHours
    ensures r.sessionsToday == s.sessionsToday + 1
    ensures r.totalSessions == s.totalSessions + 1
    ensures r.focusedTimeToday == s.focusedTimeToday + minutesAdded
    ensures var p := s.levelInfo.progress + ProgressIncrement(minutesAdded, s.levelInfo.hoursToNextLevel);
      if p >= 100.0 then r.levelInfo == CalculateLevelUp(s.levelInfo.level)
      else r.levelInfo == s.levelInfo.(progress := p)
    ensures r.(sessionsToday := s.sessionsToday, focusedTimeToday := s.focusedTimeToday,
               totalSessions := s.totalSessions, totalHours := s.totalHours,
               totalMinutes := s.totalMinutes, levelInfo := s.levelInfo) == s
  {
    var minutesTemp := s.totalMinutes + minutesAdded;
    var newTotalMinutes := minutesTemp % 60;
    var newTotalHours := s.totalHours + minutesTemp / 60;
    var increment := ProgressIncrement(minutesAdded, s.levelInfo.hoursToNextLevel);
    var sum := s.levelInfo.progress + increment;
    var newProgress := if sum < 100.0 then sum else 100.0;
    var counted := s.(sessionsToday := s.sessionsToday + 1,
                      focusedTimeToday := s.focusedTimeToday + minutesAdded,
                      totalSessions := s.totalSessions + 1,
                      totalHours := newTotalHours,
                      totalMinutes := newTotalMinutes);
    if newProgress >= 100.0 then counted.(levelInfo := CalculateLevelUp(s.levelInfo.level))
    else counted.(levelInfo := s.levelInfo.(progress := newProgress))
  }

  /** RESET_DAILY_STATS: today's counters to zero and the login date to today. */
  function DailyStatsReset(s: StatsState, today: int): (r: StatsState)
    ensures r.sessionsToday == 0 && r.focusedTimeToday == 0 && r.lastLoginDate == today
    ensures r.(sessionsToday := s.sessionsToday, focusedTimeToday := s.focusedTimeToday,
               lastLoginDate := s.lastLoginDate) == s
  {
    s.(sessionsToday := 0, focusedTimeToday := 0, lastLoginDate := today)
  }

  /** RESET_ALL_PROGRESS: every counter to zero, the level back to the
      initial one; the motivation text, the tips, the target and the login
      date are kept. */
  function AllProgressReset(s: StatsState): (r: StatsState)
    ensures Valid(r)
    ensures r.streak == 0 && r.bestStreak == 0 && r.sessionsToday == 0 && r.focusedTimeToday == 0
    ensures r.totalSessions == 0 && TotalMinutes(r) == 0
    ensures r.levelInfo == InitialLevelInfo
    ensures r.dailyMotivation == s.dailyMotivation && r.focusTips == s.focusTips
    ensures r.targetHours == s.targetHours && r.lastLoginDate == s.lastLoginDate
  {
    s.(streak := 0, bestStreak := 0, sessionsToday := 0, focusedTimeToday := 0,
       totalSessions := 0, totalHours := 0, totalMinutes := 0,
       levelInfo := InitialLevelInfo)
  }

  /** statsReducer. No action touches the tips or the target; only
      UPDATE_DAILY_MOTIVATION changes the motivation text, only
      RESET_DAILY_STATS the login date, and only the streak actions and the
      full reset the streak. UPDATE_DAILY_MOTIVATION and UPDATE_LEVEL change
      their one field and nothing else. */
  function Reduce(s: StatsState, a: Action, today: int): (r: StatsState)
    ensures r.focusTips == s.focusTips && r.targetHours == s.targetHours
    ensures r.dailyMotivation == if a.UpdateDailyMotivation? then a.text else s.dailyMotivation
    ensures r.lastLoginDate == if a.ResetDailyStats? then today else s.lastLoginDate
    ensures r.streak != s.streak ==> a.IncrementStreak? || a.ResetStreak? || a.ResetAllProgress?
    ensures a.UpdateDailyMotivation? ==> r.(dailyMotivation := s.dailyMotivation) == s
    ensures a.UpdateLevel? ==>
      r.levelInfo.level == a.level && r.levelInfo.(level := s.levelInfo.level) == s.levelInfo &&
      r.(levelInfo := s.levelInfo) == s
  {
    match a
    case IncrementStreak => StreakIncremented(s)
    case ResetStreak => StreakReset(s)
    case UpdateDailyMotivation(text) => s.(dailyMotivation := text)
    case UpdateLevel(level) => s.(levelInfo := s.levelInfo.(level := level))
    case UpdateLevelProgress(progress) => LevelProgressUpdated(s, progress)
    case CompleteSession(minutesAdded) => SessionCompleted(s, minutesAdded)
    case ResetDailyStats => DailyStatsReset(s, today)
    case ResetAllProgress => AllProgressReset(s)
  }

  /** Every action keeps the state's invariants. */
  lemma ReducePreservesValid(s: StatsState, a: Action, today: int)
    requires Valid(s) && ValidAction(a)
    ensures Valid(Reduce(s, a, today))
  {
    if a.CompleteSession? {
      var r := Reduce(s, a, today);
      var p := s.levelInfo.progress + ProgressIncrement(a.minutesAdded, s.levelInfo.hoursToNextLevel);
      assert p >= 100.0 ==> r.levelInfo.progress == 0.0;
      assert p < 100.0 ==> r.levelInfo.progress == p;
    }
  }

  /** The daily check of the provider: reset today's counters only when the
      stored login date is not today. */
  function CheckForDailyReset(s: StatsState, today: int): (r: StatsState)
    ensures r.lastLoginDate == today
    ensures s.lastLoginDate == today ==> r == s
    ensures s.lastLoginDate != today ==> r == Reduce(s, ResetDailyStats, today)
  {
    if s.lastLoginDate != today then Reduce(s, ResetDailyStats, today) else s
  }

  /** Running the daily check again on the same day changes nothing. */
  lemma DailyCheckIdempotent(s: StatsState, today: int)
    ensures CheckForDailyReset(CheckForDailyReset(s, today), today) == CheckForDailyReset(s, today)
  {
  }

  function Sum(ms: seq<nat>): nat
  {
    if ms == [] then 0 else ms[0] + Sum(ms[1..])
  }

  /** A run of COMPLETE_SESSION actions, one per entry of ms. */
  function CompleteAll(s: StatsState, ms: seq<nat>, today: int): StatsState
    decreases ms
  {
    if ms == [] then s else CompleteAll(Reduce(s, CompleteSession(ms[0]), today), ms[1..], today)
  }

  /** Over any run of sessions, hours * 60 + minutes grows by exactly the sum
      of the minutes added, the minutes stay below an hour, and the session
      count grows by the number of sessions. */
  lemma {:induction false} CompleteAllAccumulates(s: StatsState, ms: seq<nat>, today: int)
    requires s.totalMinutes < 60
    ensures TotalMinutes(CompleteAll(s, ms, today)) == TotalMinutes(s) + Sum(ms)
    ensures CompleteAll(s, ms, today).totalMinutes < 60
    ensures CompleteAll(s, ms, today).totalSessions == s.totalSessions + |ms|
    decreases ms
  {
    if ms != [] {
      CompleteAllAccumulates(Reduce(s, CompleteSession(ms[0]), today), ms[1..], today);
    }
  }

  /** The keys resetProgress leaves in storage: the timer settings. */
  const KeysToKeep: set<string> := {"focusTime", "breakTime", "timerTechnique"}

  /** The browser's key/value store, reduced to the map it holds. */
  class LocalStorage<V> {
    var items: map<string, V>

    constructor (items: map<string, V>)
      ensures this.items == items
    {
      this.items := items;
    }

    method RemoveItem(key: string)
      modifies this
      ensures items == old(items) - {key}
    {
      items := items - {key};
    }
  }

  /** What remains of a store once every key but the kept ones is removed. */
  function KeptSettings<V>(items: map<string, V>): (r: map<string, V>)
    ensures r.Keys == items.Keys * KeysToKeep
    ensures forall k :: k in r ==> r[k] == items[k]
  {
    map k | k in items && k in KeysToKeep :: items[k]
  }

  /** resetProgress: remove every stored key except the timer settings, one
      at a time, then apply RESET_ALL_PROGRESS. */
  method ResetProgress<V>(storage: LocalStorage<V>, s: StatsState) returns (r: StatsState)
    modifies storage
    ensures storage.items == KeptSettings(old(storage.items))
    ensures r == AllProgressReset(s)
  {
    var keysToRemove := storage.items.Keys - KeysToKeep;
    var pending := keysToRemove;
    while pending != {}
      invariant pending <= keysToRemove
      invariant storage.items == old(storage.items) - (keysToRemove - pending)
      decreases pending
    {
      var key :| key in pending;
      storage.RemoveItem(key);
      pending := pending - {key};
    }
    assert storage.items.Keys == KeptSettings(old(storage.items)).Keys;
    r := AllProgressReset(s);
  }
}
