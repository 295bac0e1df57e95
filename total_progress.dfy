/** formattedTime of components/stats/total-progress.tsx: the cumulative
    focus time as "<hours>h" followed, when there are minutes, by
    "<minutes>m" with no separator. */
module TotalProgress {
  import opened Wrappers
  import opened Decimal

  function FormattedTime(totalHours: nat, totalMinutes: nat): (r: string)
    ensures |r| > |NatToString(totalHours)|
    ensures r[..|NatToString(totalHours)| + 1] == NatToString(totalHours) + "h"
    ensures r[|r| - 1] == 'm' <==> totalMinutes > 0
  {
    NatToString(totalHours) + "h" + (if totalMinutes > 0 then NatToString(totalMinutes) + "m" else "")
  }

  /** Reads "<h>h" or "<h>h<m>m" back into hours and minutes. */
  function ParseFormattedTime(s: string): Option<(nat, nat)>
  {
    match ReadNat(s)
    case None => None
    case Some((hours, rest)) =>
      if rest == "h" then Some((hours, 0))
      else if |rest| >= 1 && rest[0] == 'h' then
        match ReadNat(rest[1..])
        case Some((minutes, tail)) => if tail == "m" && minutes > 0 then Some((hours, minutes)) else None
        case None => None
      else None
  }

  lemma FormattedTimeRoundTrip(totalHours: nat, totalMinutes: nat)
    ensures ParseFormattedTime(FormattedTime(totalHours, totalMinutes)) == Some((totalHours, totalMinutes))
  {
    if totalMinutes > 0 {
      var rest := "h" + NatToString(totalMinutes) + "m";
      assert FormattedTime(totalHours, totalMinutes) == NatToString(totalHours) + rest;
      ReadNatToString(totalHours, rest);
      assert rest[1..] == NatToString(totalMinutes) + "m";
      ReadNatToString(totalMinutes, "m");
    } else {
      assert FormattedTime(totalHours, totalMinutes) == NatToString(totalHours) + "h";
      ReadNatToString(totalHours, "h");
    }
  }
}
