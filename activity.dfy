/** The per-day activity ledger of context/ActivityContext.tsx. Dates are
    day numbers; "today" is passed in and "yesterday" is today - 1 (the
    source derives both from the clock). The ledger object keeps the record
    list and its own last-login date; the session-completion subscriber and
    the new-day streak check are its methods. */
module Activity {
  import opened Wrappers
  import Stats

  datatype ActivityDay = ActivityDay(date: int, intensity: int, minutes: nat)

  predicate UniqueDates(data: seq<ActivityDay>)
  {
    forall i, j :: 0 <= i < j < |data| ==> data[i].date != data[j].date
  }

  /** findIndex: the first position holding the date, or -1. */
  function FindIndex(data: seq<ActivityDay>, date: int): (i: int)
    ensures -1 <= i < |data|
    ensures i == -1 <==> forall j :: 0 <= j < |data| ==> data[j].date != date
    ensures i >= 0 ==> data[i].date == date && forall j :: 0 <= j < i ==> data[j].date != date
  {
    if data == [] then -1
    else if data[0].date == date then 0
    else
      var k := FindIndex(data[1..], date);
      if k == -1 then -1 else k + 1
  }

  /** getActivityForDate: the first record of the date, if there is one. */
  function GetActivityForDate(data: seq<ActivityDay>, date: int): (r: Option<ActivityDay>)
    ensures r.None? <==> forall j :: 0 <= j < |data| ==> data[j].date != date
    ensures r.Some? ==> r.value.date == date && r.value == data[FindIndex(data, date)]
  {
    var i := FindIndex(data, date);
    if i >= 0 then Some(data[i]) else None
  }

  /** The heat-map bucket of a day's minutes: whole hours, at most 4. */
  function Intensity(minutes: nat): (b: nat)
    ensures b <= 4
    ensures b < 4 ==> b * 60 <= minutes < (b + 1) * 60
    ensures b == 4 <==> minutes >= 240
  {
    if minutes / 60 < 4 then minutes / 60 else 4
  }

  /** The session subscriber's update: add the minutes to today's record and
      re-bucket it, or append a record for today with intensity 1. */
  function Upsert(data: seq<ActivityDay>, today: int, minutesAdded: nat): (r: seq<ActivityDay>)
    ensures var i := FindIndex(data, today);
      i >= 0 ==>
        |r| == |data| &&
        r[i] == data[i].(minutes := data[i].minutes + minutesAdded,
                         intensity := Intensity(data[i].minutes + minutesAdded)) &&
        forall j :: 0 <= j < |data| && j != i ==> r[j] == data[j]
    ensures FindIndex(data, today) == -1 ==> r == data + [ActivityDay(today, 1, minutesAdded)]
  {
    var i := FindIndex(data, today);
    if i >= 0 then
      var day := data[i];
      data[i := day.(minutes := day.minutes + minutesAdded,
                     intensity := Intensity(day.minutes + minutesAdded))]
    else
      data + [ActivityDay(today, 1, minutesAdded)]
  }

  /** After the upsert today has a record, at the same place as before or
      at the end, holding the minutes it had plus the ones added. */
  lemma UpsertRecordsToday(data: seq<ActivityDay>, today: int, minutesAdded: nat)
    ensures var r := Upsert(data, today, minutesAdded);
      var i := FindIndex(data, today);
      FindIndex(r, today) == (if i >= 0 then i else |data|) &&
      GetActivityForDate(r, today).Some? &&
      0 <= GetActivityForDate(r, today).value.intensity <= 4 &&
      GetActivityForDate(r, today).value.minutes == minutesAdded + (if i >= 0 then data[i].minutes else 0)
  {
    var r := Upsert(data, today, minutesAdded);
    var i := FindIndex(data, today);
    if i >= 0 {
      assert r[i].date == today;
      assert forall j :: 0 <= j < i ==> r[j].date != today;
      assert FindIndex(r, today) == i;
    } else {
      assert r[|data|].date == today;
      assert forall j :: 0 <= j < |data| ==> r[j].date != today;
      assert FindIndex(r, today) == |data|;
    }
  }

  /** The upsert never creates a second record for a date. */
  lemma UpsertKeepsDatesUnique(data: seq<ActivityDay>, today: int, minutesAdded: nat)
    requires UniqueDates(data)
    ensures UniqueDates(Upsert(data, today, minutesAdded))
  {
    var r := Upsert(data, today, minutesAdded);
    var i := FindIndex(data, today);
    if i >= 0 {
      forall a, b | 0 <= a < b < |r| ensures r[a].date != r[b].date {
        assert r[a].date == data[a].date && r[b].date == data[b].date;
      }
    }
  }

  /** Source behaviour: a new day's record starts at intensity 1 even below an
      hour, and the next session re-buckets by whole hours, so a day that
      stays under 60 minutes drops from 1 to 0 on its second session. */
  lemma SecondShortSessionDropsIntensity(data: seq<ActivityDay>, today: int, first: nat, second: nat)
    requires FindIndex(data, today) == -1
    requires first + second < 60
    ensures GetActivityForDate(Upsert(data, today, first), today) == Some(ActivityDay(today, 1, first))
    ensures GetActivityForDate(Upsert(Upsert(data, today, first), today, second), today) ==
      Some(ActivityDay(today, 0, first + second))
  {
    var once := Upsert(data, today, first);
    UpsertRecordsToday(data, today, first);
    UpsertRecordsToday(once, today, second);
  }

  /** All minutes on record. */
  function LedgerMinutes(data: seq<ActivityDay>): nat
  {
    if data == [] then 0 else LedgerMinutes(data[..|data| - 1]) + data[|data| - 1].minutes
  }

  lemma {:induction false} LedgerMinutesOfUpdate(data: seq<ActivityDay>, i: nat, day: ActivityDay)
    requires i < |data|
    ensures LedgerMinutes(data[i := day]) + data[i].minutes == LedgerMinutes(data) + day.minutes
  {
    var n := |data|;
    var upd := data[i := day];
    if i == n - 1 {
      assert upd[..n - 1] == data[..n - 1];
    } else {
      assert upd[..n - 1] == data[..n - 1][i := day];
      LedgerMinutesOfUpdate(data[..n - 1], i, day);
    }
  }

  /** A session of m minutes adds exactly m minutes to the ledger. */
  lemma UpsertAddsMinutes(data: seq<ActivityDay>, today: int, minutesAdded: nat)
    ensures LedgerMinutes(Upsert(data, today, minutesAdded)) == LedgerMinutes(data) + minutesAdded
  {
    var i := FindIndex(data, today);
    var r := Upsert(data, today, minutesAdded);
    if i >= 0 {
      assert r == data[i := r[i]];
      LedgerMinutesOfUpdate(data, i, r[i]);
    } else {
      assert r[..|r| - 1] == data;
    }
  }

  /** Yesterday has a record with some activity. */
  predicate YesterdayActive(data: seq<ActivityDay>, today: int)
  {
    var y := GetActivityForDate(data, today - 1);
    y.Some? && y.value.intensity > 0
  }

  /** The new-day decision: keep the streak going after an active yesterday,
      reset it otherwise. */
  function StreakAction(data: seq<ActivityDay>, today: int): (a: Stats.Action)
    ensures a == Stats.IncrementStreak || a == Stats.ResetStreak
    ensures a == Stats.IncrementStreak <==> YesterdayActive(data, today)
  {
    if YesterdayActive(data, today) then Stats.IncrementStreak else Stats.ResetStreak
  }

  /** After the new-day decision the streak is one longer exactly when
      yesterday was active, and zero otherwise; the best streak keeps up. */
  lemma StreakDecision(s: Stats.StatsState, data: seq<ActivityDay>, today: int)
    requires s.bestStreak >= s.streak
    ensures var r := Stats.Reduce(s, StreakAction(data, today), today);
      (r.streak == s.streak + 1 <==> YesterdayActive(data, today)) &&
      (r.streak == 0 <==> !YesterdayActive(data, today)) &&
      r.bestStreak >= r.streak
  {
  }

  class Ledger {
    var activityData: seq<ActivityDay>
    var lastLoginDate: int

    constructor (activityData: seq<ActivityDay>, lastLoginDate: int)
      ensures this.activityData == activityData && this.lastLoginDate == lastLoginDate
    {
      this.activityData := activityData;
      this.lastLoginDate := lastLoginDate;
    }

    /** The session-complete subscriber: copy the list, update today's
        record in place or push a new one, then store the copy. */
    method RecordSession(today: int, minutesAdded: nat)
      modifies this
      ensures activityData == Upsert(old(activityData), today, minutesAdded)
      ensures lastLoginDate == old(lastLoginDate)
    {
      var updated := activityData;
      var todayIndex := FindIndex(updated, today);
      if todayIndex >= 0 {
        var day := updated[todayIndex];
        updated := updated[todayIndex := day.(minutes := day.minutes + minutesAdded,
                                              intensity := Intensity(day.minutes + minutesAdded))];
      } else {
        updated := updated + [ActivityDay(today, 1, minutesAdded)];
      }
      activityData := updated;
    }

    /** The streak check of a new day: when the last login was not today,
        increment or reset the streak (the stats provider's commands, applied
        to the stats state passed in) and remember today; otherwise nothing. */
    method CheckDailyStreak(today: int, stats: Stats.StatsState) returns (r: Stats.StatsState)
      modifies this
      ensures old(lastLoginDate) != today ==> r == Stats.Reduce(stats, StreakAction(activityData, today), today)
      ensures old(lastLoginDate) == today ==> r == stats
      ensures lastLoginDate == today && activityData == old(activityData)
    {
      r := stats;
      if lastLoginDate != today {
        var yesterdayActivity := GetActivityForDate(activityData, today - 1);
        if yesterdayActivity.Some? && yesterdayActivity.value.intensity > 0 {
          r := Stats.Reduce(stats, Stats.IncrementStreak, today);
        } else {
          r := Stats.Reduce(stats, Stats.ResetStreak, today);
        }
        lastLoginDate := today;
      }
    }
  }
}
