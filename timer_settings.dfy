/** The minus and plus buttons of components/timer/timer-settings.tsx: each
    moves a setting by one, never below 1 and never above the setting's
    slider maximum (60 focus minutes, 30 break minutes, 10 sessions). */
module TimerSettings {

  datatype Range = Range(lo: int, hi: int)

  const FocusRange := Range(1, 60)
  const BreakRange := Range(1, 30)
  const TargetRange := Range(1, 10)

  predicate IsSliderRange(range: Range)
  {
    range == FocusRange || range == BreakRange || range == TargetRange
  }

  predicate InRange(v: int, range: Range)
  {
    range.lo <= v <= range.hi
  }

  /** The minus button: Math.max(1, v - 1). */
  function Decrement(v: int): (r: int)
    ensures r >= 1
    ensures v > 1 ==> r == v - 1
    ensures v <= 1 ==> r == 1
  {
    if v - 1 > 1 then v - 1 else 1
  }

  /** The plus button: Math.min(max, v + 1). */
  function Increment(v: int, max: int): (r: int)
    ensures r <= max
    ensures v < max ==> r == v + 1
    ensures v >= max ==> r == max
  {
    if v + 1 < max then v + 1 else max
  }

  /** A value inside its slider range stays inside after either button;
      minus at the bottom and plus at the top change nothing. */
  lemma ButtonsKeepRange(v: int, range: Range)
    requires IsSliderRange(range) && InRange(v, range)
    ensures InRange(Decrement(v), range) && InRange(Increment(v, range.hi), range)
    ensures v == range.lo ==> Decrement(v) == v
    ensures v == range.hi ==> Increment(v, range.hi) == v
  {
  }

  /** Away from the bounds, plus undoes minus and minus undoes plus. */
  lemma ButtonsUndoEachOther(v: int, range: Range)
    requires IsSliderRange(range)
    ensures range.lo < v <= range.hi ==> Increment(Decrement(v), range.hi) == v
    ensures range.lo <= v < range.hi ==> Decrement(Increment(v, range.hi)) == v
  {
  }
}
