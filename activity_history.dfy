/** The calendar heat map of components/stats/activity-history.tsx: the
    gap-filled window of the last days ending today, its grouping into
    weeks, and the colour of a day's intensity. Both builders are loops
    pushing into a local list, as in the source; "today" is a day number
    passed in. */
module ActivityHistory {
  import opened Wrappers
  import opened Activity

  const DaysInWeek: nat := 7
  const WeeksToShow: nat := 53

  /** The record shown for a date: the first stored one, or an empty day. */
  function FilledDay(data: seq<ActivityDay>, date: int): (d: ActivityDay)
    ensures d.date == date
    ensures FindIndex(data, date) >= 0 ==> d == data[FindIndex(data, date)]
    ensures FindIndex(data, date) == -1 ==> d == ActivityDay(date, 0, 0)
  {
    match GetActivityForDate(data, date)
    case Some(day) => day
    case None => ActivityDay(date, 0, 0)
  }

  /** fillMissingDays: exactly daysToFill entries (none for a count below 1),
      entry k dated today - (daysToFill - 1 - k), each the stored record of
      its date or an empty day. The input list is a value and is not changed. */
  method FillMissingDays(data: seq<ActivityDay>, daysToFill: int, today: int) returns (filled: seq<ActivityDay>)
    ensures |filled| == if daysToFill > 0 then daysToFill else 0
    ensures forall k :: 0 <= k < |filled| ==> filled[k] == FilledDay(data, today - (|filled| - 1 - k))
    ensures forall j, k :: 0 <= j < k < |filled| ==> filled[j].date < filled[k].date
    ensures |filled| > 0 ==> filled[|filled| - 1].date == today
  {
    filled := [];
    var i := daysToFill - 1;
    while i >= 0
      invariant daysToFill <= 0 ==> filled == []
      invariant daysToFill > 0 ==> -1 <= i < daysToFill && |filled| == daysToFill - 1 - i
      invariant forall k :: 0 <= k < |filled| ==> filled[k] == FilledDay(data, today - (daysToFill - 1 - k))
    {
      var date := today - i;
      var existingDay := GetActivityForDate(data, date);
      if existingDay.Some? {
        filled := filled + [existingDay.value];
      } else {
        filled := filled + [ActivityDay(date, 0, 0)];
      }
      i := i - 1;
    }
  }

  function Flatten<T>(weeks: seq<seq<T>>): seq<T>
  {
    if weeks == [] then [] else Flatten(weeks[..|weeks| - 1]) + weeks[|weeks| - 1]
  }

  function Min(a: int, b: int): int
  {
    if a < b then a else b
  }

  /** weeks cuts days into consecutive slices of seven, the last one
      possibly shorter (no slice starts past the end). */
  ghost predicate IsWeekSplit<T>(days: seq<T>, weeks: seq<seq<T>>)
  {
    |weeks| * DaysInWeek < |days| + DaysInWeek &&
    forall w :: 0 <= w < |weeks| ==>
      weeks[w] == days[w * DaysInWeek .. Min(w * DaysInWeek + DaysInWeek, |days|)]
  }

  /** A split into ceil(n / 7) slices has no empty week and none longer than
      seven days, and only full weeks when seven divides n. */
  lemma WeekSplitSizes<T>(days: seq<T>, weeks: seq<seq<T>>)
    requires IsWeekSplit(days, weeks)
    ensures forall w :: 0 <= w < |weeks| ==> 0 < |weeks[w]| <= DaysInWeek
    ensures |days| % DaysInWeek == 0 ==> forall w :: 0 <= w < |weeks| ==> |weeks[w]| == DaysInWeek
  {
    forall w | 0 <= w < |weeks| ensures 0 < |weeks[w]| <= DaysInWeek {
      assert w * DaysInWeek < |days|;
    }
    if |days| % DaysInWeek == 0 {
      forall w | 0 <= w < |weeks| ensures |weeks[w]| == DaysInWeek {
        var n := |days| / DaysInWeek;
        assert |days| == n * DaysInWeek;
        assert w < n;
        assert w * DaysInWeek + DaysInWeek <= |days|;
      }
    }
  }

  /** The week loop: slices of seven days, the last one possibly shorter,
      that put back together give the window. */
  method GroupByWeek<T>(days: seq<T>) returns (weeks: seq<seq<T>>)
    ensures Flatten(weeks) == days
    ensures |weeks| == (|days| + DaysInWeek - 1) / DaysInWeek
    ensures forall w :: 0 <= w < |weeks| ==>
      weeks[w] == days[w * DaysInWeek .. Min(w * DaysInWeek + DaysInWeek, |days|)]
    ensures forall w :: 0 <= w < |weeks| ==> 0 < |weeks[w]| <= DaysInWeek
    ensures |days| % DaysInWeek == 0 ==> forall w :: 0 <= w < |weeks| ==> |weeks[w]| == DaysInWeek
  {
    weeks := [];
    var i := 0;
    while i < |days|
      invariant i == |weeks| * DaysInWeek
      invariant i < |days| + DaysInWeek
      invariant Flatten(weeks) == days[..Min(i, |days|)]
      invariant IsWeekSplit(days, weeks)
    {
      var week := days[i .. Min(i + DaysInWeek, |days|)];
      assert days[..Min(i + DaysInWeek, |days|)] == days[..i] + week;
      ghost var before := weeks;
      weeks := weeks + [week];
      assert weeks[..|weeks| - 1] == before;
      assert forall w :: 0 <= w < |before| ==> weeks[w] == before[w];
      i := i + DaysInWeek;
    }
    assert days[..|days|] == days;
    assert |weeks| == (|days| + DaysInWeek - 1) / DaysInWeek by {
      assert |days| <= |weeks| * DaysInWeek < |days| + DaysInWeek;
    }
    WeekSplitSizes(days, weeks);
  }

  /** The whole calendar: 53 weeks of 7 filled days ending today. */
  method HistoryWeeks(data: seq<ActivityDay>, today: int) returns (weeks: seq<seq<ActivityDay>>)
    ensures |weeks| == WeeksToShow
    ensures forall w :: 0 <= w < |weeks| ==> |weeks[w]| == DaysInWeek
    ensures var days := Flatten(weeks);
      |days| == WeeksToShow * DaysInWeek &&
      forall k :: 0 <= k < |days| ==> days[k] == FilledDay(data, today - (|days| - 1 - k))
  {
    var filled := FillMissingDays(data, WeeksToShow * DaysInWeek, today);
    assert |filled| == 371 && 371 % DaysInWeek == 0 && (371 + DaysInWeek - 1) / DaysInWeek == 53;
    weeks := GroupByWeek(filled);
  }

  /** getActivityColor. */
  function ActivityColor(intensity: int): string
  {
    if intensity == 0 then "bg-gray-100 dark:bg-gray-700"
    else if intensity == 1 then "bg-green-100 dark:bg-green-900"
    else if intensity == 2 then "bg-green-300 dark:bg-green-700"
    else if intensity == 3 then "bg-green-500 dark:bg-green-500"
    else if intensity == 4 then "bg-green-700 dark:bg-green-300"
    else "bg-green-900 dark:bg-green-100"
  }

  /** The colour class a value falls in: 0 to 4 each on its own, every other value together. */
  function ColorBucket(intensity: int): nat
  {
    if 0 <= intensity <= 4 then intensity else 5
  }

  /** Two characters that tell the colour classes apart: the fifth ('a' of
      "gray" or 'e' of "green") and the ninth (the first digit of the shade). */
  lemma ColorMarks(intensity: int)
    ensures var c := ActivityColor(intensity); var k := ColorBucket(intensity);
      |c| > 9 &&
      c[5] == (if k == 0 then 'a' else 'e') &&
      c[9] as int == '0' as int + (if k == 0 then 0 else 2 * k - 1)
  {
    var c := ActivityColor(intensity);
    if intensity == 0 {
      assert c == "bg-gray-100 dark:bg-gray-700";
    } else if intensity == 1 {
      assert c == "bg-green-100 dark:bg-green-900";
    } else if intensity == 2 {
      assert c == "bg-green-300 dark:bg-green-700";
    } else if intensity == 3 {
      assert c == "bg-green-500 dark:bg-green-500";
    } else if intensity == 4 {
      assert c == "bg-green-700 dark:bg-green-300";
    } else {
      assert c == "bg-green-900 dark:bg-green-100";
    }
  }

  /** Two intensities get the same colour exactly when they fall in the same
      bucket: 0 is grey, 1 to 4 get four different greens, and anything else
      gets the darkest green. */
  lemma ColorsFollowBuckets(a: int, b: int)
    ensures ActivityColor(a) == ActivityColor(b) <==> ColorBucket(a) == ColorBucket(b)
  {
    ColorMarks(a);
    ColorMarks(b);
  }
}
