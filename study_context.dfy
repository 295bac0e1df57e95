/** The all-in-one provider of context/study-context.tsx. It repeats the
    timer commands and the tick rule of the timer provider (without
    subscribers) and keeps the task list in its own state. Each method here
    is written after that file: the tick is proved to do what Timer.Step
    specifies, which shows the duplicate agrees with the timer provider, and
    the task commands replace the list by the functions of Tasks, whose code
    is the same as in context/TaskContext.tsx. */
module StudyContext {
  import opened Timer
  import Tasks

  class Study {
    var timerState: Phase
    var isBreak: bool
    var elapsedTime: nat
    var focusTime: nat
    var breakTime: nat
    var targetSessions: nat
    var sessionsCompleted: nat
    var timerTechnique: string
    var tasks: seq<Tasks.Task>
    var dailyMotivation: string

    function TimerSnapshot(): TimerState
      reads this
    {
      TimerState(timerState, isBreak, elapsedTime, focusTime, breakTime,
                 targetSessions, sessionsCompleted, timerTechnique)
    }

    /** The initial values are the caller's (the source hard-codes sample data). */
    constructor (timer: TimerState, tasks: seq<Tasks.Task>, dailyMotivation: string)
      ensures TimerSnapshot() == timer && this.tasks == tasks && this.dailyMotivation == dailyMotivation
    {
      timerState := timer.phase;
      isBreak := timer.isBreak;
      elapsedTime := timer.elapsed;
      focusTime := timer.focusTime;
      breakTime := timer.breakTime;
      targetSessions := timer.targetSessions;
      sessionsCompleted := timer.sessionsCompleted;
      timerTechnique := timer.technique;
      this.tasks := tasks;
      this.dailyMotivation := dailyMotivation;
    }

    method StartTimer()
      modifies this
      ensures TimerSnapshot() == old(TimerSnapshot()).(phase := Running)
      ensures tasks == old(tasks) && dailyMotivation == old(dailyMotivation)
    {
      timerState := Running;
    }

    method PauseTimer()
      modifies this
      ensures TimerSnapshot() == old(TimerSnapshot()).(phase := Paused)
      ensures tasks == old(tasks) && dailyMotivation == old(dailyMotivation)
    {
      timerState := Paused;
    }

    method ResetTimer()
      modifies this
      ensures TimerSnapshot() == old(TimerSnapshot()).(phase := Idle, elapsed := 0, isBreak := false)
      ensures tasks == old(tasks) && dailyMotivation == old(dailyMotivation)
    {
      timerState := Idle;
      elapsedTime := 0;
      isBreak := false;
    }

    method SkipToBreak()
      modifies this
      ensures TimerSnapshot() == old(TimerSnapshot()).(isBreak := true, elapsed := 0)
      ensures tasks == old(tasks) && dailyMotivation == old(dailyMotivation)
    {
      isBreak := true;
      elapsedTime := 0;
    }

    method UpdateFocusTime(time: nat)
      modifies this
      ensures TimerSnapshot() == old(TimerSnapshot()).(focusTime := time)
      ensures tasks == old(tasks) && dailyMotivation == old(dailyMotivation)
    {
      focusTime := time;
    }

    method UpdateBreakTime(time: nat)
      modifies this
      ensures TimerSnapshot() == old(TimerSnapshot()).(breakTime := time)
      ensures tasks == old(tasks) && dailyMotivation == old(dailyMotivation)
    {
      breakTime := time;
    }

    method UpdateTargetSessions(sessions: nat)
      modifies this
      ensures TimerSnapshot() == old(TimerSnapshot()).(targetSessions := sessions)
      ensures tasks == old(tasks) && dailyMotivation == old(dailyMotivation)
    {
      targetSessions := sessions;
    }

    method SetTimerTechnique(technique: string)
      modifies this
      ensures TimerSnapshot() == old(TimerSnapshot()).(technique := technique)
      ensures tasks == old(tasks) && dailyMotivation == old(dailyMotivation)
    {
      timerTechnique := technique;
    }

    method UpdateDailyMotivation(text: string)
      modifies this
      ensures TimerSnapshot() == old(TimerSnapshot()) && tasks == old(tasks)
      ensures dailyMotivation == text
    {
      dailyMotivation := text;
    }

    /** The interval body: count a second, or end the phase. */
    method Tick()
      modifies this
      ensures TimerSnapshot() == Step(old(TimerSnapshot()))
      ensures tasks == old(tasks) && dailyMotivation == old(dailyMotivation)
    {
      if timerState == Running {
        var totalTime := if isBreak then breakTime * 60 else focusTime * 60;
        if elapsedTime >= totalTime - 1 {
          if !isBreak {
            sessionsCompleted := if sessionsCompleted + 1 < targetSessions then sessionsCompleted + 1 else targetSessions;
            isBreak := true;
            elapsedTime := 0;
          } else {
            isBreak := false;
            timerState := Idle;
            elapsedTime := 0;
          }
        } else {
          elapsedTime := elapsedTime + 1;
        }
      }
    }

    method AddTask(id: string, text: string)
      modifies this
      ensures tasks == Tasks.AddTask(old(tasks), id, text)
      ensures TimerSnapshot() == old(TimerSnapshot()) && dailyMotivation == old(dailyMotivation)
    {
      tasks := Tasks.AddTask(tasks, id, text);
    }

    method RemoveTask(id: string)
      modifies this
      ensures tasks == Tasks.RemoveTask(old(tasks), id)
      ensures TimerSnapshot() == old(TimerSnapshot()) && dailyMotivation == old(dailyMotivation)
    {
      tasks := Tasks.RemoveTask(tasks, id);
    }

    method ToggleTask(id: string)
      modifies this
      ensures tasks == Tasks.ToggleTask(old(tasks), id)
      ensures TimerSnapshot() == old(TimerSnapshot()) && dailyMotivation == old(dailyMotivation)
    {
      tasks := Tasks.ToggleTask(tasks, id);
    }

    method UpdateTaskPriority(id: string, priority: int)
      modifies this
      ensures tasks == Tasks.UpdateTaskPriority(old(tasks), id, priority)
      ensures TimerSnapshot() == old(TimerSnapshot()) && dailyMotivation == old(dailyMotivation)
    {
      tasks := Tasks.UpdateTaskPriority(tasks, id, priority);
    }
  }
}
