/** The countdown face of components/timer/timer.tsx: the remaining time of
    the current phase split into minutes and seconds and shown as two
    zero-padded numbers, and the condition for offering "Skip to break". */
module TimerDisplay {
  import opened Wrappers
  import opened Decimal
  import opened Timer

  /** The seconds left in the phase: never more than its length, and
      negative exactly when the phase has overrun. */
  function RemainingTime(t: TimerState): (r: int)
    ensures r <= TotalTime(t)
    ensures r >= 0 <==> t.elapsed <= TotalTime(t)
  {
    TotalTime(t) - t.elapsed
  }

  /** Math.floor(x / 60); for a positive divisor Dafny's division is the floor. */
  function Minutes(remaining: int): (m: int)
    ensures m * 60 <= remaining < m * 60 + 60
  {
    remaining / 60
  }

  /** x % 60 as JavaScript computes it: the result takes the sign of x. */
  function Seconds(remaining: int): (r: int)
    ensures remaining >= 0 ==> 0 <= r < 60
    ensures remaining < 0 ==> -60 < r <= 0
    ensures (remaining - r) % 60 == 0
  {
    if remaining >= 0 then remaining % 60 else -((-remaining) % 60)
  }

  /** While the phase has not overrun, the split is exact and in range. */
  lemma ClockSplit(t: TimerState)
    requires t.elapsed <= TotalTime(t)
    ensures var r := RemainingTime(t);
      Minutes(r) * 60 + Seconds(r) == r && Minutes(r) >= 0 && 0 <= Seconds(r) <= 59
  {
  }

  /** padStart(2, "0"). */
  function PadStart2(s: string): (r: string)
    ensures |r| == if |s| >= 2 then |s| else 2
    ensures r[|r| - |s|..] == s
    ensures forall i :: 0 <= i < |r| - |s| ==> r[i] == '0'
  {
    if |s| >= 2 then s else if |s| == 1 then "0" + s else "00"
  }

  /** The "mm:ss" text. */
  function Clock(t: TimerState): string
  {
    var r := RemainingTime(t);
    PadStart2(IntToString(Minutes(r))) + ":" + PadStart2(IntToString(Seconds(r)))
  }

  /** Reads "mm:ss" back into a number of seconds. */
  function ParseClock(s: string): Option<nat>
  {
    match ReadNat(s)
    case None => None
    case Some((minutes, rest)) => ParseSecondsField(minutes, rest)
  }

  /** The part of ParseClock after the minutes: ":ss" and nothing more. */
  function ParseSecondsField(minutes: nat, rest: string): Option<nat>
  {
    if |rest| >= 1 && rest[0] == ':' then
      match ReadNat(rest[1..])
      case Some((seconds, tail)) => if tail == "" then Some(minutes * 60 + seconds) else None
      case None => None
    else None
  }

  /** A padded numeral reads back as the number. */
  lemma ReadPadded(n: nat, rest: string)
    requires EndsNumeral(rest)
    ensures ReadNat(PadStart2(NatToString(n)) + rest) == Some((n, rest))
  {
    var s := NatToString(n);
    ValueOfNatToString(n);
    if |s| == 1 {
      ValueIgnoresLeadingZero(s);
      ReadDigitsThen("0" + s, rest);
    } else {
      ReadDigitsThen(s, rest);
    }
  }

  lemma SecondsFieldRoundTrip(minutes: nat, seconds: nat)
    ensures ParseSecondsField(minutes, ":" + PadStart2(NatToString(seconds))) == Some(minutes * 60 + seconds)
  {
    var ss := PadStart2(NatToString(seconds));
    ReadPadded(seconds, "");
    assert ss + "" == ss;
    SecondsFieldOf(minutes, ss, seconds);
  }

  lemma SecondsFieldOf(minutes: nat, ss: string, seconds: nat)
    requires ReadNat(ss) == Some((seconds, ""))
    ensures ParseSecondsField(minutes, ":" + ss) == Some(minutes * 60 + seconds)
  {
    assert (":" + ss)[1..] == ss;
  }

  /** Two padded numerals around a colon read back as minutes * 60 + seconds. */
  lemma ClockTextRoundTrip(minutes: nat, seconds: nat)
    ensures ParseClock(PadStart2(NatToString(minutes)) + ":" + PadStart2(NatToString(seconds)))
      == Some(minutes * 60 + seconds)
  {
    var mm := PadStart2(NatToString(minutes));
    var ss := PadStart2(NatToString(seconds));
    var rest := ":" + ss;
    assert EndsNumeral(rest) by { assert rest[0] == ':'; }
    ReadPadded(minutes, rest);
    SecondsFieldRoundTrip(minutes, seconds);
    ParseClockSplits(mm + rest, minutes, rest);
    ConcatAssoc(mm, ":", ss);
  }

  /** Regrouping a concatenation, spelled out for the solver. */
  lemma ConcatAssoc(a: string, b: string, c: string)
    ensures a + b + c == a + (b + c)
  {
  }

  lemma ParseClockSplits(text: string, minutes: nat, rest: string)
    requires ReadNat(text) == Some((minutes, rest))
    ensures ParseClock(text) == ParseSecondsField(minutes, rest)
  {
  }

  /** While the phase has not overrun, the text reads back as the remaining
      seconds and its minute field has at least two characters. */
  lemma ClockRoundTrip(t: TimerState)
    requires t.elapsed <= TotalTime(t)
    ensures ParseClock(Clock(t)) == Some(RemainingTime(t) as nat)
    ensures |Clock(t)| >= 5
  {
    var r := RemainingTime(t);
    ClockSplit(t);
    var minutes: nat, seconds: nat := Minutes(r), Seconds(r);
    ClockOfFields(t, minutes, seconds);
    ClockTextRoundTrip(minutes, seconds);
  }

  lemma ClockOfFields(t: TimerState, minutes: nat, seconds: nat)
    requires minutes == Minutes(RemainingTime(t)) && seconds == Seconds(RemainingTime(t))
    ensures Clock(t) == PadStart2(NatToString(minutes)) + ":" + PadStart2(NatToString(seconds))
  {
  }

  /** Past the end of the phase (a shorter phase set mid-run) the source's
      split goes negative in both fields: one second over shows "-1:-1". */
  lemma OverrunShowsNegativeFields(t: TimerState)
    requires t.elapsed == TotalTime(t) + 1
    ensures Clock(t) == "-1:-1"
  {
    assert NatToString(1) == "1";
  }

  /** "Skip to break" is offered outside a break while the timer is not running. */
  predicate ShowsSkipToBreak(t: TimerState)
  {
    !t.isBreak && t.phase != Running
  }

  /** Taking the offer starts a full break clock and withdraws the offer. */
  lemma SkipToBreakWithdrawsOffer(t: TimerState)
    requires ShowsSkipToBreak(t)
    ensures var after := t.(isBreak := true, elapsed := 0);
      !ShowsSkipToBreak(after) && RemainingTime(after) == t.breakTime * 60
  {
  }
}
