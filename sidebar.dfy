/** formatTime of components/sidebar.tsx: today's focused minutes as "45m",
    "2h" or "2h 5m". A reader for the three shapes shows that the rendering
    loses nothing. */
module Sidebar {
  import opened Wrappers
  import opened Decimal

  /** The text starts with the minutes below an hour and with the whole
      hours otherwise, and ends in 'h' exactly on whole hours. */
  function FormatTime(minutes: nat): (r: string)
    ensures var lead := NatToString(if minutes < 60 then minutes else minutes / 60);
      |lead| < |r| && r[..|lead|] == lead
    ensures r[|r| - 1] == if minutes >= 60 && minutes % 60 == 0 then 'h' else 'm'
  {
    if minutes < 60 then NatToString(minutes) + "m"
    else
      var hours := minutes / 60;
      var mins := minutes % 60;
      if mins > 0 then NatToString(hours) + "h " + NatToString(mins) + "m" else NatToString(hours) + "h"
  }

  /** Reads "<m>m", "<h>h" or "<h>h <m>m" back into minutes. */
  function ParseFocusedTime(s: string): Option<nat>
  {
    match ReadNat(s)
    case None => None
    case Some((first, rest)) => ParseUnits(first, rest)
  }

  /** The part after the first number: its unit, and the minutes after "h ". */
  function ParseUnits(first: nat, rest: string): Option<nat>
  {
    if rest == "m" then Some(first)
    else if rest == "h" then Some(first * 60)
    else if |rest| >= 2 && rest[..2] == "h " then
      match ReadNat(rest[2..])
      case Some((second, tail)) => if tail == "m" then Some(first * 60 + second) else None
      case None => None
    else None
  }

  lemma ParseFocusedTimeSplits(text: string, first: nat, rest: string)
    requires ReadNat(text) == Some((first, rest))
    ensures ParseFocusedTime(text) == ParseUnits(first, rest)
  {
  }

  lemma HoursAndMinutesUnits(hours: nat, mins: nat)
    requires mins > 0
    ensures ParseUnits(hours, "h " + NatToString(mins) + "m") == Some(hours * 60 + mins)
  {
    var rest := "h " + NatToString(mins) + "m";
    assert rest[..2] == "h " && rest != "m" && rest != "h";
    assert rest[2..] == NatToString(mins) + "m";
    ReadNatToString(mins, "m");
  }

  lemma FormatTimeRoundTrip(minutes: nat)
    ensures ParseFocusedTime(FormatTime(minutes)) == Some(minutes)
  {
    if minutes < 60 {
      RoundTripMinutes(minutes);
    } else if minutes % 60 > 0 {
      RoundTripHoursAndMinutes(minutes);
    } else {
      RoundTripWholeHours(minutes);
    }
  }

  lemma RoundTripMinutes(minutes: nat)
    requires minutes < 60
    ensures ParseFocusedTime(FormatTime(minutes)) == Some(minutes)
  {
    assert FormatTime(minutes) == NatToString(minutes) + "m";
    ReadsBack(minutes, "m");
  }

  lemma RoundTripHoursAndMinutes(minutes: nat)
    requires minutes >= 60 && minutes % 60 > 0
    ensures ParseFocusedTime(FormatTime(minutes)) == Some(minutes)
  {
    var hours, mins := minutes / 60, minutes % 60;
    HoursAndMinutesText(hours, mins);
    assert hours * 60 + mins == minutes;
    assert FormatTime(minutes) == NatToString(hours) + "h " + NatToString(mins) + "m";
  }

  lemma HoursAndMinutesText(hours: nat, mins: nat)
    requires mins > 0
    ensures ParseFocusedTime(NatToString(hours) + "h " + NatToString(mins) + "m") == Some(hours * 60 + mins)
  {
    var rest := "h " + NatToString(mins) + "m";
    assert NatToString(hours) + "h " + NatToString(mins) + "m" == NatToString(hours) + rest;
    ReadsBack(hours, rest);
    HoursAndMinutesUnits(hours, mins);
  }

  lemma RoundTripWholeHours(minutes: nat)
    requires minutes >= 60 && minutes % 60 == 0
    ensures ParseFocusedTime(FormatTime(minutes)) == Some(minutes)
  {
    assert FormatTime(minutes) == NatToString(minutes / 60) + "h";
    ReadsBack(minutes / 60, "h");
  }

  /** A numeral followed by a unit text reads back as that number and the units. */
  lemma ReadsBack(n: nat, rest: string)
    requires rest != [] && !IsDigit(rest[0])
    ensures ParseFocusedTime(NatToString(n) + rest) == ParseUnits(n, rest)
  {
    ReadNatToString(n, rest);
    ParseFocusedTimeSplits(NatToString(n) + rest, n, rest);
  }

  /** Different minute counts never render alike. */
  lemma FormatTimeInjective(a: nat, b: nat)
    requires FormatTime(a) == FormatTime(b)
    ensures a == b
  {
    FormatTimeRoundTrip(a);
    FormatTimeRoundTrip(b);
  }
}
