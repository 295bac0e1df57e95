/** How a completed focus session reaches the bookkeeping. The stats
    provider (context/StatsContext.tsx) and the activity provider
    (context/ActivityContext.tsx) each subscribe one callback to the timer;
    when a tick completes a focus session the timer calls its subscribers in
    order, the stats callback dispatching COMPLETE_SESSION with the focus
    length and the activity callback adding the same minutes to today's
    record. */
module Session {
  import opened Stats
  import opened Activity
  import opened Timer

  /** The two records a completion updates. */
  datatype Records = Records(stats: StatsState, activity: seq<ActivityDay>)

  /** One callback's effect: the stats subscriber, the activity subscriber,
      or (for any other callback) nothing. */
  function Handle(b: Records, c: Callback, statsId: Callback, activityId: Callback,
                  focusTime: nat, today: int): Records
  {
    var b1 := if c == statsId then b.(stats := Reduce(b.stats, CompleteSession(focusTime), today)) else b;
    if c == activityId then b1.(activity := Upsert(b1.activity, today, focusTime)) else b1
  }

  /** The callbacks called in order. */
  function Deliver(b: Records, calls: seq<Callback>, statsId: Callback, activityId: Callback,
                   focusTime: nat, today: int): Records
    decreases |calls|
  {
    if calls == [] then b
    else Handle(Deliver(b, calls[..|calls| - 1], statsId, activityId, focusTime, today),
                calls[|calls| - 1], statsId, activityId, focusTime, today)
  }

  function Count(calls: seq<Callback>, c: Callback): nat
  {
    if calls == [] then 0
    else Count(calls[..|calls| - 1], c) + (if calls[|calls| - 1] == c then 1 else 0)
  }

  /** One callback adds the focus length to the stats total when it is the
      stats subscriber and to the ledger when it is the activity subscriber. */
  lemma HandleAddsFocusTime(b: Records, c: Callback, statsId: Callback, activityId: Callback,
                            focusTime: nat, today: int)
    ensures var r := Handle(b, c, statsId, activityId, focusTime, today);
      TotalMinutes(r.stats) == TotalMinutes(b.stats) + (if c == statsId then focusTime else 0) &&
      LedgerMinutes(r.activity) == LedgerMinutes(b.activity) + (if c == activityId then focusTime else 0)
  {
    if c == activityId {
      UpsertAddsMinutes(b.activity, today, focusTime);
    }
  }

  /** Each call of the stats subscriber adds the focus length to the stats
      total, and each call of the activity subscriber adds it to the ledger;
      nothing else changes either total. */
  lemma {:induction false} DeliverAddsFocusTime(b: Records, calls: seq<Callback>, statsId: Callback,
                                               activityId: Callback, focusTime: nat, today: int)
    ensures var r := Deliver(b, calls, statsId, activityId, focusTime, today);
      TotalMinutes(r.stats) == TotalMinutes(b.stats) + Count(calls, statsId) * focusTime &&
      LedgerMinutes(r.activity) == LedgerMinutes(b.activity) + Count(calls, activityId) * focusTime
    decreases |calls|
  {
    if calls != [] {
      var prefix, last := calls[..|calls| - 1], calls[|calls| - 1];
      var prev := Deliver(b, prefix, statsId, activityId, focusTime, today);
      DeliverAddsFocusTime(b, prefix, statsId, activityId, focusTime, today);
      HandleAddsFocusTime(prev, last, statsId, activityId, focusTime, today);
      assert Deliver(b, calls, statsId, activityId, focusTime, today)
        == Handle(prev, last, statsId, activityId, focusTime, today);
      var ks, ka := Count(prefix, statsId), Count(prefix, activityId);
      var ds, da := (if last == statsId then 1 else 0), (if last == activityId then 1 else 0);
      assert Count(calls, statsId) == ks + ds && Count(calls, activityId) == ka + da;
      Distribute(ks, ds, focusTime);
      Distribute(ka, da, focusTime);
    }
  }

  /** Arithmetic step for DeliverAddsFocusTime, spelled out for the solver. */
  lemma Distribute(k: nat, d: nat, f: nat)
    ensures (k + d) * f == k * f + d * f
  {
  }

  /** With both subscribers registered once, a completion adds the focus
      length to the stats total and to the ledger alike, so the two totals
      move in step. */
  lemma CompletionKeepsTotalsInStep(b: Records, calls: seq<Callback>, statsId: Callback,
                                    activityId: Callback, focusTime: nat, today: int)
    requires Count(calls, statsId) == 1 && Count(calls, activityId) == 1
    ensures var r := Deliver(b, calls, statsId, activityId, focusTime, today);
      TotalMinutes(r.stats) == TotalMinutes(b.stats) + focusTime &&
      LedgerMinutes(r.activity) == LedgerMinutes(b.activity) + focusTime &&
      TotalMinutes(r.stats) - LedgerMinutes(r.activity) == TotalMinutes(b.stats) - LedgerMinutes(b.activity)
  {
    DeliverAddsFocusTime(b, calls, statsId, activityId, focusTime, today);
  }

  /** Calls the callbacks a tick returned, one after another. */
  method DeliverCompletions(invoked: seq<Callback>, statsId: Callback, activityId: Callback,
                            stats: StatsState, ledger: Ledger, focusTime: nat, today: int)
    returns (r: StatsState)
    modifies ledger
    ensures Records(r, ledger.activityData)
      == Deliver(Records(stats, old(ledger.activityData)), invoked, statsId, activityId, focusTime, today)
    ensures ledger.lastLoginDate == old(ledger.lastLoginDate)
  {
    r := stats;
    var i := 0;
    while i < |invoked|
      invariant 0 <= i <= |invoked|
      invariant Records(r, ledger.activityData)
        == Deliver(Records(stats, old(ledger.activityData)), invoked[..i], statsId, activityId, focusTime, today)
      invariant ledger.lastLoginDate == old(ledger.lastLoginDate)
    {
      var c := invoked[i];
      if c == statsId {
        r := Reduce(r, CompleteSession(focusTime), today);
      }
      if c == activityId {
        ledger.RecordSession(today, focusTime);
      }
      assert invoked[..i + 1][..i] == invoked[..i];
      i := i + 1;
    }
    assert invoked[..i] == invoked;
  }

  /** One second of the running app: the timer ticks and the callbacks it
      returns reach the stats and the ledger, with the focus length the
      timer holds (a tick never changes it). */
  method FocusTick(timer: Timer, ledger: Ledger, stats: StatsState, statsId: Callback,
                   activityId: Callback, today: int) returns (r: StatsState)
    modifies timer, ledger
    ensures timer.State() == Step(old(timer.State())) && timer.callbacks == old(timer.callbacks)
    ensures Records(r, ledger.activityData)
      == Deliver(Records(stats, old(ledger.activityData)),
                 if CompletesSession(old(timer.State())) then old(timer.callbacks) else [],
                 statsId, activityId, old(timer.focusTime), today)
    ensures ledger.lastLoginDate == old(ledger.lastLoginDate)
  {
    var invoked := timer.Tick();
    StepKeepsSettings(old(timer.State()));
    r := DeliverCompletions(invoked, statsId, activityId, stats, ledger, timer.focusTime, today);
  }
}
