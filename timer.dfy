/** The countdown timer of context/TimerContext.tsx. The provider's state
    variables become the fields of a Timer object, its commands become
    methods, and the body of the one-second interval becomes the method
    Tick, called explicitly once per second. The value TimerState and the
    function Step give the tick rule as a pure transition; Tick is proved to
    perform it. Session-complete subscribers are kept by identity in
    registration order (the source keeps closures and compares them with
    ===); Tick returns the ones it calls. */
module Timer {

  datatype Phase = Idle | Running | Paused | Completed

  /** One snapshot of the timer's state variables. */
  datatype TimerState = TimerState(
    phase: Phase,
    isBreak: bool,
    elapsed: nat,
    focusTime: nat,
    breakTime: nat,
    targetSessions: nat,
    sessionsCompleted: nat,
    technique: string)

  /** The length in seconds of the current phase. */
  function TotalTime(t: TimerState): nat
  {
    (if t.isBreak then t.breakTime else t.focusTime) * 60
  }

  /** This tick ends the current phase. */
  predicate IsFinalTick(t: TimerState)
  {
    t.elapsed >= TotalTime(t) - 1
  }

  /** This tick completes a focus session (and so notifies subscribers). */
  predicate CompletesSession(t: TimerState)
  {
    t.phase == Running && !t.isBreak && IsFinalTick(t)
  }

  /** The effect of one tick of the interval. */
  function Step(t: TimerState): (r: TimerState)
    ensures t.phase != Running ==> r == t
    ensures t.phase == Running && !IsFinalTick(t) ==> r == t.(elapsed := t.elapsed + 1)
    ensures CompletesSession(t) ==>
      r.phase == Running && r.isBreak && r.elapsed == 0 &&
      r.sessionsCompleted <= r.targetSessions &&
      r.sessionsCompleted <= t.sessionsCompleted + 1 &&
      (r.sessionsCompleted == t.sessionsCompleted + 1 || r.sessionsCompleted == t.targetSessions) &&
      r.(isBreak := false, elapsed := t.elapsed, sessionsCompleted := t.sessionsCompleted) == t
    ensures t.phase == Running && t.isBreak && IsFinalTick(t) ==>
      r == t.(phase := Idle, isBreak := false, elapsed := 0)
  {
    if t.phase != Running then t
    else if t.elapsed >= TotalTime(t) - 1 then
      if !t.isBreak then
        var next := if t.sessionsCompleted + 1 < t.targetSessions then t.sessionsCompleted + 1 else t.targetSessions;
        t.(sessionsCompleted := next, isBreak := true, elapsed := 0)
      else
        t.(isBreak := false, phase := Idle, elapsed := 0)
    else
      t.(elapsed := t.elapsed + 1)
  }

  /** A tick never touches the settings. */
  lemma StepKeepsSettings(t: TimerState)
    ensures var r := Step(t);
      r.focusTime == t.focusTime && r.breakTime == t.breakTime &&
      r.targetSessions == t.targetSessions && r.technique == t.technique
  {
  }

  /** With both phase lengths at least one minute, a running phase keeps
      0 <= elapsed < its length from tick to tick. */
  lemma StepKeepsElapsedBelowTotal(t: TimerState)
    requires t.focusTime >= 1 && t.breakTime >= 1
    requires t.elapsed < TotalTime(t)
    ensures Step(t).elapsed < TotalTime(Step(t))
  {
  }

  /** k ticks in a row. */
  function Steps(t: TimerState, k: nat): TimerState
  {
    if k == 0 then t else Step(Steps(t, k - 1))
  }

  /** From the start of a running focus phase, the first k ticks (k below
      the phase length) only count seconds. */
  lemma {:induction false} StepsCountSeconds(t: TimerState, k: nat)
    requires t.phase == Running && !t.isBreak && t.elapsed == 0
    requires k < TotalTime(t)
    ensures Steps(t, k) == t.(elapsed := k)
  {
    if k > 0 {
      StepsCountSeconds(t, k - 1);
    }
  }

  /** From the start of a running focus phase of F >= 1 minutes, tick number
      j (counting from 1) completes a session exactly when j = F * 60, and
      after those F * 60 ticks the break has begun with one more session. */
  lemma {:induction false} FirstSessionAfterFocusTicks(t: TimerState)
    requires t.phase == Running && !t.isBreak && t.elapsed == 0 && t.focusTime >= 1
    ensures forall k :: 0 <= k < t.focusTime * 60 ==>
      (CompletesSession(Steps(t, k)) <==> k == t.focusTime * 60 - 1)
    ensures var after := Steps(t, t.focusTime * 60);
      after.phase == Running && after.isBreak && after.elapsed == 0 &&
      after.sessionsCompleted == (if t.sessionsCompleted + 1 < t.targetSessions then t.sessionsCompleted + 1 else t.targetSessions)
  {
    forall k | 0 <= k < t.focusTime * 60
      ensures CompletesSession(Steps(t, k)) <==> k == t.focusTime * 60 - 1
    {
      StepsCountSeconds(t, k);
    }
    StepsCountSeconds(t, t.focusTime * 60 - 1);
  }

  /** A subscriber's identity. */
  type Callback = nat

  /** indexOf: the first position of x in s, or -1. */
  function FirstIndex(s: seq<Callback>, x: Callback): (i: int)
    ensures -1 <= i < |s|
    ensures i == -1 <==> forall j :: 0 <= j < |s| ==> s[j] != x
    ensures i >= 0 ==> s[i] == x && forall j :: 0 <= j < i ==> s[j] != x
  {
    if s == [] then -1
    else if s[0] == x then 0
    else
      var k := FirstIndex(s[1..], x);
      if k == -1 then -1 else k + 1
  }

  /** The list without the first occurrence of x (indexOf, then splice). */
  function RemoveFirst(s: seq<Callback>, x: Callback): (r: seq<Callback>)
    ensures x !in s ==> r == s
    ensures x in s ==> |r| == |s| - 1
  {
    var i := FirstIndex(s, x);
    if i == -1 then s else s[..i] + s[i + 1..]
  }

  /** Removing a subscriber takes out exactly one occurrence when there is one. */
  lemma RemoveFirstCounts(s: seq<Callback>, x: Callback)
    ensures multiset(RemoveFirst(s, x)) == multiset(s) - multiset{x}
  {
    var i := FirstIndex(s, x);
    if i >= 0 {
      assert s == s[..i] + [x] + s[i + 1..];
    }
  }

  /** Registering a new subscriber and then calling its handle restores the
      list, and calling the handle again does nothing. */
  lemma SubscribeThenUnsubscribe(s: seq<Callback>, x: Callback)
    requires x !in s
    ensures RemoveFirst(s + [x], x) == s
    ensures RemoveFirst(RemoveFirst(s + [x], x), x) == s
  {
    var t := s + [x];
    assert t[|s|] == x;
    assert forall j :: 0 <= j < |s| ==> t[j] != x;
    assert FirstIndex(t, x) == |s|;
    assert (s + [x])[..|s|] == s;
  }

  /** indexOf, as a loop. */
  method IndexOf(s: seq<Callback>, x: Callback) returns (index: int)
    ensures index == FirstIndex(s, x)
  {
    index := 0;
    while index < |s|
      invariant 0 <= index <= |s|
      invariant forall j :: 0 <= j < index ==> s[j] != x
    {
      if s[index] == x {
        return;
      }
      index := index + 1;
    }
    index := -1;
  }

  class Timer {
    var timerState: Phase
    var isBreak: bool
    var elapsedTime: nat
    var focusTime: nat
    var breakTime: nat
    var targetSessions: nat
    var sessionsCompleted: nat
    var timerTechnique: string
    var callbacks: seq<Callback>

    function State(): TimerState
      reads this
    {
      TimerState(timerState, isBreak, elapsedTime, focusTime, breakTime,
                 targetSessions, sessionsCompleted, timerTechnique)
    }

    /** The provider starts from the persisted values, with no subscribers. */
    constructor (saved: TimerState)
      ensures State() == saved && callbacks == []
    {
      timerState := saved.phase;
      isBreak := saved.isBreak;
      elapsedTime := saved.elapsed;
      focusTime := saved.focusTime;
      breakTime := saved.breakTime;
      targetSessions := saved.targetSessions;
      sessionsCompleted := saved.sessionsCompleted;
      timerTechnique := saved.technique;
      callbacks := [];
    }

    method StartTimer()
      modifies this
      ensures State() == old(State()).(phase := Running) && callbacks == old(callbacks)
    {
      timerState := Running;
    }

    method PauseTimer()
      modifies this
      ensures State() == old(State()).(phase := Paused) && callbacks == old(callbacks)
    {
      timerState := Paused;
    }

    method ResetTimer()
      modifies this
      ensures State() == old(State()).(phase := Idle, elapsed := 0, isBreak := false)
      ensures callbacks == old(callbacks)
    {
      timerState := Idle;
      elapsedTime := 0;
      isBreak := false;
    }

    /** Leaves the phase as it is: a running focus phase becomes a running break. */
    method SkipToBreak()
      modifies this
      ensures State() == old(State()).(isBreak := true, elapsed := 0) && callbacks == old(callbacks)
    {
      isBreak := true;
      elapsedTime := 0;
    }

    method UpdateFocusTime(time: nat)
      modifies this
      ensures State() == old(State()).(focusTime := time) && callbacks == old(callbacks)
    {
      focusTime := time;
    }

    method UpdateBreakTime(time: nat)
      modifies this
      ensures State() == old(State()).(breakTime := time) && callbacks == old(callbacks)
    {
      breakTime := time;
    }

    method UpdateTargetSessions(sessions: nat)
      modifies this
      ensures State() == old(State()).(targetSessions := sessions) && callbacks == old(callbacks)
    {
      targetSessions := sessions;
    }

    method SetTimerTechnique(technique: string)
      modifies this
      ensures State() == old(State()).(technique := technique) && callbacks == old(callbacks)
    {
      timerTechnique := technique;
    }

    /** onSessionComplete: register a subscriber at the end of the list. */
    method OnSessionComplete(callback: Callback)
      modifies this
      ensures callbacks == old(callbacks) + [callback] && State() == old(State())
    {
      callbacks := callbacks + [callback];
    }

    /** The handle onSessionComplete returns: remove the first occurrence of
        the subscriber, if it is still there. */
    method Unsubscribe(callback: Callback)
      modifies this
      ensures callbacks == RemoveFirst(old(callbacks), callback) && State() == old(State())
    {
      var index := IndexOf(callbacks, callback);
      if index != -1 {
        callbacks := callbacks[..index] + callbacks[index + 1..];
      }
    }

    /** One tick of the interval. On a final focus tick every subscriber is
        called once, in registration order; no other tick calls any. */
    method Tick() returns (invoked: seq<Callback>)
      modifies this
      ensures State() == Step(old(State()))
      ensures invoked == if CompletesSession(old(State())) then old(callbacks) else []
      ensures callbacks == old(callbacks)
    {
      invoked := [];
      if timerState == Running {
        var totalTime := if isBreak then breakTime * 60 else focusTime * 60;
        if elapsedTime >= totalTime - 1 {
          if !isBreak {
            sessionsCompleted := if sessionsCompleted + 1 < targetSessions then sessionsCompleted + 1 else targetSessions;
            invoked := callbacks;
            isBreak := true;
            elapsedTime := 0;
          } else {
            isBreak := false;
            timerState := Idle;
            elapsedTime := 0;
          }
        } else {
          elapsedTime := elapsedTime + 1;
        }
      }
    }
  }
}
