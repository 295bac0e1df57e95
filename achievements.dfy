/** The achievement engine of context/AchievementContext.tsx. unlock and
    progress update are maps over the list; checkAchievements walks the list
    and issues one of them per locked entry, by the entry's type. */
module Achievements {
  import opened Wrappers
  import Stats

  /** The declared types are daily, streaks and progress; the check also
      has cases for "sessions" and "hours". */
  datatype Kind = Daily | Streaks | Progress | Sessions | Hours

  datatype Achievement = Achievement(
    id: string,
    title: string,
    description: string,
    kind: Kind,
    unlocked: bool,
    progress: real,
    target: real,
    icon: string)

  predicate UniqueIds(list: seq<Achievement>)
  {
    forall i, j :: 0 <= i < j < |list| ==> list[i].id != list[j].id
  }

  /** unlockAchievement: the entries with the id become unlocked; nothing
      else changes. */
  function UnlockAchievement(list: seq<Achievement>, id: string): (r: seq<Achievement>)
    ensures |r| == |list|
    ensures forall i :: 0 <= i < |r| ==>
      r[i].unlocked == (list[i].unlocked || list[i].id == id) &&
      r[i].(unlocked := list[i].unlocked) == list[i]
  {
    seq(|list|, i requires 0 <= i < |list| =>
      if list[i].id == id then list[i].(unlocked := true) else list[i])
  }

  /** Unlocking twice is unlocking once. */
  lemma UnlockIdempotent(list: seq<Achievement>, id: string)
    ensures UnlockAchievement(UnlockAchievement(list, id), id) == UnlockAchievement(list, id)
  {
    var once := UnlockAchievement(list, id);
    var twice := UnlockAchievement(once, id);
    forall i | 0 <= i < |list| ensures twice[i] == once[i] {
      assert once[i].id == list[i].id;
    }
  }

  /** updateAchievementProgress: the entries with the id take the new
      progress and become unlocked when it reaches their target; an unlocked
      entry stays unlocked. Nothing else changes. */
  function UpdateAchievementProgress(list: seq<Achievement>, id: string, progress: real): (r: seq<Achievement>)
    ensures |r| == |list|
    ensures forall i :: 0 <= i < |r| && list[i].id == id ==>
      r[i].progress == progress &&
      r[i].unlocked == (progress >= list[i].target || list[i].unlocked)
    ensures forall i :: 0 <= i < |r| && list[i].id != id ==> r[i] == list[i]
    ensures forall i :: 0 <= i < |r| ==>
      r[i].(progress := list[i].progress, unlocked := list[i].unlocked) == list[i]
  {
    seq(|list|, i requires 0 <= i < |list| =>
      if list[i].id == id then
        list[i].(progress := progress, unlocked := if progress >= list[i].target then true else list[i].unlocked)
      else list[i])
  }

  /** Any run of progress updates, each an (id, value) pair. */
  function UpdateAll(list: seq<Achievement>, updates: seq<(string, real)>): seq<Achievement>
    decreases updates
  {
    if updates == [] then list
    else UpdateAll(UpdateAchievementProgress(list, updates[0].0, updates[0].1), updates[1..])
  }

  /** No run of progress updates locks an unlocked achievement again,
      whatever the values; the list keeps its length and ids. */
  lemma {:induction false} UnlockedStaysUnlocked(list: seq<Achievement>, updates: seq<(string, real)>)
    ensures |UpdateAll(list, updates)| == |list|
    ensures forall i :: 0 <= i < |list| ==>
      UpdateAll(list, updates)[i].id == list[i].id &&
      (list[i].unlocked ==> UpdateAll(list, updates)[i].unlocked)
    decreases updates
  {
    if updates != [] {
      var next := UpdateAchievementProgress(list, updates[0].0, updates[0].1);
      UnlockedStaysUnlocked(next, updates[1..]);
      assert forall i :: 0 <= i < |list| ==> next[i].id == list[i].id;
    }
  }

  /** The statistic an achievement type is measured by, if any: the streak,
      the total sessions, or the total hours with minutes as a fraction. */
  function Metric(kind: Kind, s: Stats.StatsState): (m: Option<real>)
    ensures m.Some? <==> kind.Streaks? || kind.Sessions? || kind.Hours?
    ensures m.Some? ==> m.value >= 0.0
    ensures kind.Hours? ==> m == Some(Stats.TotalMinutes(s) as real / 60.0)
  {
    match kind
    case Streaks => Some(s.streak as real)
    case Sessions => Some(s.totalSessions as real)
    case Hours => Some(s.totalHours as real + s.totalMinutes as real / 60.0)
    case Daily => None
    case Progress => None
  }

  /** What the check does to one entry: an unlocked entry and an entry of a
      type without a rule stay as they are; otherwise the entry unlocks when
      its statistic reaches the target and otherwise records the statistic
      as its progress. */
  function CheckOne(a: Achievement, s: Stats.StatsState): (r: Achievement)
    ensures a.unlocked || Metric(a.kind, s).None? ==> r == a
    ensures !a.unlocked && Metric(a.kind, s).Some? ==>
      (r.unlocked <==> Metric(a.kind, s).value >= a.target) &&
      (!r.unlocked ==> r.progress == Metric(a.kind, s).value) &&
      (r.unlocked ==> r.progress == a.progress) &&
      r.(unlocked := a.unlocked, progress := a.progress) == a
  {
    if a.unlocked then a
    else match Metric(a.kind, s)
      case None => a
      case Some(v) =>
        if v >= a.target then a.(unlocked := true) else a.(progress := v)
  }

  /** With distinct ids, unlocking the id of entry i changes entry i only. */
  lemma UnlockAt(list: seq<Achievement>, i: nat)
    requires i < |list|
    ensures UniqueIds(list) ==>
      UnlockAchievement(list, list[i].id) == list[i := list[i].(unlocked := true)]
  {
    if UniqueIds(list) {
      var r := UnlockAchievement(list, list[i].id);
      forall j | 0 <= j < |list| ensures r[j] == list[i := list[i].(unlocked := true)][j] {
        assert j != i ==> list[j].id != list[i].id;
      }
    }
  }

  /** With distinct ids, a progress update for the id of entry i changes
      entry i only. */
  lemma UpdateAt(list: seq<Achievement>, i: nat, progress: real)
    requires i < |list|
    ensures UniqueIds(list) ==>
      UpdateAchievementProgress(list, list[i].id, progress) ==
      list[i := list[i].(progress := progress,
                         unlocked := if progress >= list[i].target then true else list[i].unlocked)]
  {
    if UniqueIds(list) {
      var r := UpdateAchievementProgress(list, list[i].id, progress);
      var u := list[i := list[i].(progress := progress,
                                  unlocked := if progress >= list[i].target then true else list[i].unlocked)];
      forall j | 0 <= j < |list| ensures r[j] == u[j] {
        assert j != i ==> list[j].id != list[i].id;
      }
    }
  }

  /** checkAchievements, with the commands taking effect one after the other.
      The switch on the entry's type is the choice of statistic that Metric
      makes. An unlocked entry is never changed; with distinct ids every
      entry ends as CheckOne makes it. */
  method CheckAchievements(list: seq<Achievement>, s: Stats.StatsState) returns (r: seq<Achievement>)
    ensures |r| == |list|
    ensures forall i :: 0 <= i < |r| ==> r[i].id == list[i].id && (list[i].unlocked ==> r[i].unlocked)
    ensures UniqueIds(list) ==> forall i :: 0 <= i < |r| ==> r[i] == CheckOne(list[i], s)
  {
    r := list;
    var i := 0;
    while i < |list|
      invariant 0 <= i <= |list| && |r| == |list|
      invariant forall j :: 0 <= j < |r| ==> r[j].id == list[j].id && (list[j].unlocked ==> r[j].unlocked)
      invariant UniqueIds(list) ==>
        UniqueIds(r) &&
        (forall j :: 0 <= j < i ==> r[j] == CheckOne(list[j], s)) &&
        (forall j :: i <= j < |r| ==> r[j] == list[j])
    {
      var achievement := list[i];
      if !achievement.unlocked {
        var metric := Metric(achievement.kind, s);
        if metric.Some? {
          assert achievement.id == r[i].id;
          if metric.value >= achievement.target {
            UnlockAt(r, i);
            r := UnlockAchievement(r, achievement.id);
          } else {
            UpdateAt(r, i, metric.value);
            r := UpdateAchievementProgress(r, achievement.id, metric.value);
          }
        }
      }
      i := i + 1;
    }
  }
}
