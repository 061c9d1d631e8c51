/** src/plugins/node/prof/watchdog.h in its own form: each function takes its steps of the protocol. */
module Watchdog {
  import opened Transitions
  import opened WatchdogProtocol

  /** The first half of the bracket around a poll. */
  function EnterPolling(s: State, drop: bool): (res: State)
    requires s.main.Working?
  {
    var t := Take(Suspend, s, EnterPoll);
    if s.watched then Take(Suspend, t, Disarm(drop)) else t
  }

  /** Everything a stop does up to the join. */
  function StopWatched(s: State, drop: bool, drop': bool): (t: State)
    requires s.main.Working? && s.watched
  {
    Take(Suspend, Take(Suspend, Take(Suspend, s, StopSignal), StopDisarm(drop)), StopDelete(drop'))
  }

  lemma {:induction false} StoppedState(s: State, drop: bool, drop': bool)
    requires s.main.Working? && s.watched
    ensures var forgotten := (drop || drop') && s.fired;
      StopWatched(s, drop, drop') == s.(main := Joining, watched := false, timer := NoTimer,
        resumes := s.resumes + 1, sent := s.sent + 1, fired := s.fired && !forgotten,
        dropped := s.dropped + if forgotten then 1 else 0)
  {
  }

  /** `s` once the handler has been told to resume. */
  function Resumed(s: State): (t: State) {
    s.(thread := Running, count := s.count + 1, activations := s.activations + 1)
  }

  /** Before one return of `sigwaitinfo`: what the main thread and the timer do, and whether it is cut short. */
  datatype Wait = Wait(others: seq<Step>, interrupted: bool)

  /** A step of the main thread or the timer. */
  predicate Foreign(step: Step) {
    !step.Dequeue? && !step.Interrupted? && !step.Exit?
  }

  predicate ForeignOnly(waits: seq<Wait>) {
    forall i, j :: 0 <= i < |waits| && 0 <= j < |waits[i].others| ==> Foreign(waits[i].others[j])
  }

  /** Nobody else does anything, and nothing interrupts. */
  predicate Undisturbed(waits: seq<Wait>) {
    forall i :: 0 <= i < |waits| ==> waits[i] == Wait([], false)
  }

  /** In the handler's loop: `steps` lead from its entry to `s`, or, told to resume, past it. */
  ghost predicate Handling(entered: State, steps: seq<Step>, s: State, signo: Signal) {
    && s.thread.Waiting? && s.activations == entered.activations
    && Runs(System(Suspend), entered, steps)
    && After(System(Suspend), entered, steps) == if signo.Suspend? then s else Resumed(s)
  }

  lemma {:induction false} OneMoreWait(entered: State, steps: seq<Step>, s: State, step: Step, t: State,
      signo: Signal)
    requires Handling(entered, steps, s, Suspend) && Enabled(Suspend, s, step)
    requires !step.Dequeue? ==> t == Take(Suspend, s, step) && (Foreign(step) || step.Interrupted?) && signo == Suspend
    requires step.Dequeue? ==> step == Dequeue(signo, s.fired) && t == Consume(s, signo, s.fired)
    ensures Handling(entered, steps + [step], t, signo)
  {
    RunsOneMore(System(Suspend), entered, steps, step);
  }

  /** What the functions ask of the kernel. */
  datatype SystemCall = TgKill(signo: Signal) | TimerCreate | TimerSettime(arm: bool) | TimerDelete

  /**
   Where the main thread is, the file's variables, and what the kernel holds for the profiler thread.
   The fields from `sent` on, and `calls`, only record what has happened.
   */
  class Watchdog {
    var main: Main
    var profilerTid: nat
    var activationCount: nat
    var timer: Timer
    var thread: Thread
    var suspends: nat
    var resumes: nat
    var fired: bool
    ghost var calls: seq<SystemCall>
    var sent: nat
    var activations: nat
    var ignored: nat
    var dropped: nat
    var reported: nat
    var reset: nat

    function View(): (t: State)
      reads this
    {
      State(main, profilerTid > 0, thread, timer, suspends, resumes, fired, activationCount,
            sent, activations, ignored, dropped, reported, reset)
    }

    constructor ()
      ensures Initial(View()) && calls == []
    {
      main, profilerTid, activationCount, timer, thread := Working, 0, 0, NoTimer, Absent;
      suspends, resumes, fired, calls := 0, 0, false, [];
      sent, activations, ignored, dropped, reported, reset := 0, 0, 0, 0, 0, 0;
    }

    method SendSignal(signo: Signal)
      modifies this`suspends, this`resumes, this`sent, this`calls
      ensures calls == old(calls) + [TgKill(signo)]
      ensures suspends == old(suspends) + if signo.Suspend? then 1 else 0
      ensures resumes == old(resumes) + (if signo.Resume? then 1 else 0) && sent - resumes == old(sent - resumes)
    {
      if signo == Suspend {
        suspends := suspends + 1;
      } else {
        resumes, sent := resumes + 1, sent + 1;
      }
      calls := calls + [TgKill(signo)];
    }

    method ArmTimer()
      modifies this`timer, this`calls
      ensures calls == old(calls) + [TimerSettime(true)] && timer == Armed
    {
      timer := Armed;
      calls := calls + [TimerSettime(true)];
    }

    /** Disarming or deleting the timer; the kernel may forget a signal the timer has queued. */
    method SilenceTimer(call: SystemCall, kernelForgets: bool)
      requires call == TimerSettime(false) || call == TimerDelete
      modifies this`timer, this`calls, this`fired, this`dropped
      ensures calls == old(calls) + [call] && timer == if call.TimerDelete? then NoTimer else Disarmed
      ensures fired == (old(fired) && !kernelForgets)
      ensures dropped == old(dropped) + if kernelForgets && old(fired) then 1 else 0
    {
      if kernelForgets && fired {
        fired := false;
        dropped := dropped + 1;
      }
      timer := if call == TimerDelete then NoTimer else Disarmed;
      calls := calls + [call];
    }

    /** `tid` is what `FindProfilerTid` finds in /proc once the profiler thread exists. */
    method StartCpuProfiling(timeoutInMs: nat, tid: nat)
      requires tid > 0 && main.Working?
      modifies this
      ensures View() == if timeoutInMs == 0 || old(profilerTid) != 0
        then Take(Suspend, old(View()), StartPlain)
        else Take(Suspend, Take(Suspend, Take(Suspend, old(View()), StartWatched), SuspendFirst), ArmFirst)
      ensures calls == old(calls) + if timeoutInMs == 0 || old(profilerTid) != 0 then []
        else [TgKill(Suspend), TimerCreate, TimerSettime(true)]
      ensures !thread.Absent? && (!old(thread).Absent? ==> thread == old(thread)) && main.Working?
      ensures timeoutInMs == 0 || old(profilerTid) != 0 ==>
        && profilerTid == old(profilerTid) && activationCount == old(activationCount) && timer == old(timer)
        && suspends == old(suspends)
      ensures timeoutInMs != 0 && old(profilerTid) == 0 ==>
        profilerTid == tid && activationCount == 0 && timer == Armed && suspends == old(suspends) + 1
      ensures resumes == old(resumes) && fired == old(fired)
    {
      if timeoutInMs == 0 || profilerTid != 0 {
        StartThread();
        return;
      }
      reset := reset + activationCount;
      activationCount := 0;
      StartThread();
      profilerTid := tid;
      SendSignal(Suspend);
      calls := calls + [TimerCreate];
      ArmTimer();
    }

    /** V8 creates its thread unless it is there already. */
    method StartThread()
      modifies this`thread
      ensures thread == if old(thread).Absent? then Running else old(thread)
    {
      if thread.Absent? {
        thread := Running;
      }
    }

    /** `Syscall` up to the system call; `polls` says that it is one of the epoll waits. */
    method BeforeSyscall(polls: bool, kernelForgets: bool) returns (enabled: bool)
      requires main.Working?
      modifies this`main, this`suspends, this`resumes, this`fired, this`sent, this`dropped, this`timer, this`calls
      ensures calls == old(calls) + if enabled then [TgKill(Suspend), TimerSettime(false)] else []
      ensures enabled <==> polls && profilerTid > 0
      ensures polls ==> View() == EnterPolling(old(View()), kernelForgets)
      ensures !polls ==> View() == old(View())
      ensures main == if polls then Polling(enabled) else Working
      ensures suspends == old(suspends) + if enabled then 1 else 0
      ensures timer == if enabled then Disarmed else old(timer)
      ensures fired == (old(fired) && !(enabled && kernelForgets)) && resumes == old(resumes)
    {
      enabled := polls && profilerTid > 0;
      if enabled {
        SendSignal(Suspend);
        SilenceTimer(TimerSettime(false), kernelForgets);
      }
      if polls {
        main := Polling(enabled);
      }
    }

    /** `Syscall` from there on. */
    method AfterSyscall(enabled: bool)
      requires main == Polling(enabled)
      modifies this`main, this`timer, this`calls
      ensures calls == old(calls) + if enabled then [TimerSettime(true)] else []
      ensures View() == Take(Suspend, old(View()), LeavePoll)
      ensures main == Working && timer == if enabled then Armed else old(timer)
    {
      if enabled {
        ArmTimer();
      }
      main := Working;
    }

    /** Up to where V8 joins the profiler thread; the arguments say when a queued timer signal is forgotten. */
    method StopCpuProfiling(kernelForgets: bool, kernelForgets': bool)
      requires main.Working?
      modifies this
      ensures View() == if old(profilerTid) == 0
        then Take(Suspend, old(View()), StopPlain)
        else StopWatched(old(View()), kernelForgets, kernelForgets')
      ensures calls == old(calls) + if old(profilerTid) == 0 then []
        else [TgKill(Resume), TimerSettime(false), TimerDelete]
      ensures main == Joining && profilerTid == 0 && thread == old(thread) && suspends == old(suspends)
      ensures activationCount == old(activationCount)
      ensures resumes == old(resumes) + if old(profilerTid) == 0 then 0 else 1
      ensures timer == if old(profilerTid) == 0 then old(timer) else NoTimer
      ensures fired == (old(fired) && (old(profilerTid) == 0 || !(kernelForgets || kernelForgets')))
    {
      if profilerTid > 0 {
        StoppedState(View(), kernelForgets, kernelForgets');
        SendSignal(Resume);
        SilenceTimer(TimerSettime(false), kernelForgets);
        SilenceTimer(TimerDelete, kernelForgets');
        profilerTid := 0;
      }
      main := Joining;
    }

    method WatchdogActivationCount() returns (count: nat)
      requires main.Working?
      modifies this
      ensures count == old(activationCount) && activationCount == 0
      ensures View() == Take(Suspend, old(View()), ReadCount)
    {
      count := activationCount;
      activationCount := 0;
      reported := reported + count;
    }

    /** `sigwaitinfo`: the lowest-numbered pending signal. */
    method SigWaitInfo() returns (signo: Signal, ghost step: Step)
      requires thread.Waiting? && (suspends > 0 || resumes > 0 || fired)
      modifies this`suspends, this`resumes, this`fired
      ensures step == Dequeue(signo, old(fired)) && (signo.Suspend? <==> old(suspends) > 0)
      ensures Enabled(Suspend, old(View()), step) && View() == Consume(old(View()), signo, old(fired))
    {
      if suspends > 0 {
        signo := Suspend;
        suspends := suspends - 1;
      } else {
        signo := Resume;
        if fired {
          fired := false;
        } else {
          resumes := resumes - 1;
        }
      }
      step := Dequeue(signo, old(fired));
    }

    /** A step of another thread, while the profiler thread is in its handler. */
    method Elsewhere(step: Step)
      requires Foreign(step) && Enabled(Suspend, View(), step)
      modifies this
      ensures View() == Take(Suspend, old(View()), step)
    {
      Install(Take(Suspend, View(), step));
    }

    method Install(t: State)
      modifies this
      ensures View() == t
    {
      if t.watched != (profilerTid > 0) {
        profilerTid := if t.watched then 1 else 0;
      }
      main, thread, timer, suspends, resumes, fired := t.main, t.thread, t.timer, t.suspends, t.resumes, t.fired;
      activationCount, sent, activations, ignored := t.count, t.sent, t.activations, t.ignored;
      dropped, reported, reset := t.dropped, t.reported, t.reset;
    }

    /** Those of the steps that are possible when their turn comes. */
    method Others(steps: seq<Step>, ghost entered: State, ghost before: seq<Step>) returns (ghost after: seq<Step>)
      requires forall i :: 0 <= i < |steps| ==> Foreign(steps[i])
      requires Handling(entered, before, View(), Suspend)
      modifies this
      ensures Handling(entered, after, View(), Suspend)
      ensures steps == [] ==> View() == old(View())
    {
      after := before;
      var i := 0;
      while i < |steps|
        invariant 0 <= i <= |steps| && Handling(entered, after, View(), Suspend)
        invariant i == 0 ==> View() == old(View())
      {
        if Enabled(Suspend, View(), steps[i]) {
          ghost var s := View();
          Elsewhere(steps[i]);
          OneMoreWait(entered, after, s, steps[i], View(), Suspend);
          after := after + [steps[i]];
        }
        i := i + 1;
      }
    }

    /** One turn of the handler's loop; with no signal pending it stays blocked. */
    method WaitOnce(wait: Wait, ghost entered: State, ghost before: seq<Step>)
      returns (signo: Signal, ghost after: seq<Step>)
      requires forall i :: 0 <= i < |wait.others| ==> Foreign(wait.others[i])
      requires Handling(entered, before, View(), Suspend)
      modifies this
      ensures Handling(entered, after, View(), signo)
      ensures wait == Wait([], false) && old(suspends) > 0 ==>
        signo == Suspend && View() == old(View()).(suspends := old(suspends) - 1)
      ensures wait == Wait([], false) ==> activationCount == old(activationCount)
      ensures wait == Wait([], false) && old(suspends) == 0 && Resumes(old(View())) > 0 ==> signo == Resume
    {
      signo := Suspend;
      after := Others(wait.others, entered, before);
      ghost var s := View();
      ghost var step := Interrupted;
      if !wait.interrupted {
        if suspends == 0 && resumes == 0 && !fired {
          return;
        }
        signo, step := SigWaitInfo();
      }
      OneMoreWait(entered, after, s, step, View(), signo);
      after := after + [step];
    }

    /**
     The handler, entered with `first` dequeued, through a given number of returns of `sigwaitinfo`:
     `resumed` says whether it has returned by then.  Whatever the other threads do meanwhile, it takes
     steps of the protocol; undisturbed, a pending resume signal ends it.
     */
    method OnSignal(first: Signal, waits: seq<Wait>) returns (resumed: bool, ghost steps: seq<Step>)
      requires thread.Running? && ForeignOnly(waits)
      modifies this
      ensures resumed <==> thread.Running?
      ensures first.Resume? ==> resumed && steps == [] && View() == old(View()).(ignored := old(ignored) + 1)
      ensures first.Suspend? ==>
        && Runs(System(Suspend), old(View()).(thread := Waiting), steps)
        && View() == After(System(Suspend), old(View()).(thread := Waiting), steps)
        && activations == old(activations) + (if resumed then 1 else 0)
      ensures Undisturbed(waits) && Resumes(old(View())) > 0 && |waits| > old(suspends) ==> resumed
      ensures Undisturbed(waits) && first.Suspend? ==>
        activationCount == old(activationCount) + if resumed then 1 else 0
    {
      steps := [];
      resumed := first.Resume?;
      if first.Resume? {
        ignored := ignored + 1;
        return;
      }
      thread := Waiting;
      ghost var entered := View();
      var i := 0;
      var signo := first;
      while signo.Suspend? && i < |waits|
        invariant 0 <= i <= |waits| && Handling(entered, steps, View(), signo)
        invariant Undisturbed(waits) ==> activationCount == entered.count
        invariant Undisturbed(waits) && Resumes(entered) > 0 && signo.Suspend? ==>
          Resumes(View()) > 0 && suspends + i == entered.suspends
      {
        signo, steps := WaitOnce(waits[i], entered, steps);
        i := i + 1;
      }
      if signo.Resume? {
        resumed, thread := true, Running;
        activationCount := activationCount + 1;
        activations := activations + 1;
      }
    }
  }
}
