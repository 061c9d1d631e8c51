/**
 The suspend and resume signals of src/plugins/node/prof/watchdog.h as a protocol between the main
 thread, the profiler thread and a one-shot timer.

 `lowest` is the signal the kernel dequeues first when both are pending.  The source picks the
 numbers so that it is the suspend signal; here it is a parameter, to show what depends on it.
 */
module WatchdogProtocol {
  import opened Options
  import opened Transitions

  datatype Signal = Suspend | Resume

  /** The profiler thread: `Waiting` is inside the handler, in `sigwaitinfo`. */
  datatype Thread = Absent | Running | Waiting

  datatype Timer = NoTimer | Disarmed | Armed

  /** Where the main thread is, between two actions the other threads can observe. */
  datatype Main =
    | Working
    | SuspendNew | ArmNew
    | DisarmToPoll | Polling(bracketed: bool)
    | DisarmToStop | DeleteToStop | Joining

  /**
   `watched` says that `profiler_tid` is set.  `suspends` and `resumes` are the signals queued by the
   main thread, `fired` is the timer's, of which at most one is queued.  `count` is
   `watchdog_activation_count`.  The remaining fields only record what has happened.
   */
  datatype State = State(
    main: Main, watched: bool, thread: Thread, timer: Timer,
    suspends: nat, resumes: nat, fired: bool, count: nat,
    sent: nat, activations: nat, ignored: nat, dropped: nat, reported: nat, reset: nat)

  /** `drop` says whether the kernel forgets a pending timer signal when the timer is disarmed or deleted. */
  datatype Step =
    | StartPlain | StartWatched | SuspendFirst | ArmFirst
    | EnterPoll | Disarm(drop: bool) | LeavePoll
    | StopPlain | StopSignal | StopDisarm(drop: bool) | StopDelete(drop: bool) | Join
    | ReadCount
    | Fire
    | Dequeue(signal: Signal, timer: bool) | Interrupted | Exit

  /** No profiler, and nothing recorded yet. */
  predicate Initial(s: State) {
    && s.main.Working? && !s.watched && s.thread.Absent? && s.timer.NoTimer?
    && s.suspends == 0 && s.resumes == 0 && !s.fired && s.count == 0
    && s.sent == 0 && s.activations == 0 && s.ignored == 0 && s.dropped == 0 && s.reported == 0 && s.reset == 0
  }

  function Resumes(s: State): (n: nat) {
    s.resumes + if s.fired then 1 else 0
  }

  function Pending(s: State, signal: Signal): (n: nat) {
    if signal.Suspend? then s.suspends else Resumes(s)
  }

  function Other(signal: Signal): (res: Signal) {
    if signal.Suspend? then Resume else Suspend
  }

  predicate Dequeuable(lowest: Signal, s: State, signal: Signal, timer: bool) {
    && Pending(s, signal) > 0 && (signal == lowest || Pending(s, Other(signal)) == 0)
    && (signal.Resume? ==> if timer then s.fired else s.resumes > 0)
  }

  predicate Enabled(lowest: Signal, s: State, step: Step) {
    match step
    case StartPlain => s.main.Working?
    case StartWatched => s.main.Working? && !s.watched
    case SuspendFirst => s.main.SuspendNew?
    case ArmFirst => s.main.ArmNew?
    case EnterPoll => s.main.Working?
    case Disarm(_) => s.main.DisarmToPoll?
    case LeavePoll => s.main.Polling?
    case StopPlain => s.main.Working? && !s.watched
    case StopSignal => s.main.Working? && s.watched
    case StopDisarm(_) => s.main.DisarmToStop?
    case StopDelete(_) => s.main.DeleteToStop?
    case Join => s.main.Joining? && s.thread.Absent?
    case ReadCount => s.main.Working?
    case Fire => s.timer.Armed?
    case Dequeue(signal, timer) => !s.thread.Absent? && Dequeuable(lowest, s, signal, timer)
    case Interrupted => s.thread.Waiting?
    case Exit => s.thread.Running? && s.main.Joining?
  }

  function Consume(s: State, signal: Signal, timer: bool): (t: State)
    requires signal.Suspend? ==> s.suspends > 0
    requires signal.Resume? && !timer ==> s.resumes > 0
  {
    if signal.Suspend? then s.(suspends := s.suspends - 1)
    else if timer then s.(fired := false)
    else s.(resumes := s.resumes - 1)
  }

  function Forget(s: State, drop: bool): (t: State) {
    if drop && s.fired then s.(fired := false, dropped := s.dropped + 1) else s
  }

  function Take(lowest: Signal, s: State, step: Step): (res: State)
    requires Enabled(lowest, s, step)
  {
    match step
    case StartPlain => s.(thread := if s.thread.Absent? then Running else s.thread)
    case StartWatched =>
      s.(main := SuspendNew, watched := true, thread := if s.thread.Absent? then Running else s.thread,
         count := 0, reset := s.reset + s.count)
    case SuspendFirst => s.(main := ArmNew, suspends := s.suspends + 1)
    case ArmFirst => s.(main := Working, timer := Armed)
    case EnterPoll =>
      if s.watched then s.(main := DisarmToPoll, suspends := s.suspends + 1) else s.(main := Polling(false))
    case Disarm(drop) => Forget(s, drop).(main := Polling(true), timer := Disarmed)
    case LeavePoll => s.(main := Working, timer := if s.main.bracketed then Armed else s.timer)
    case StopPlain => s.(main := Joining)
    case StopSignal => s.(main := DisarmToStop, resumes := s.resumes + 1, sent := s.sent + 1)
    case StopDisarm(drop) => Forget(s, drop).(main := DeleteToStop, timer := Disarmed)
    case StopDelete(drop) => Forget(s, drop).(main := Joining, timer := NoTimer, watched := false)
    case Join => s.(main := Working)
    case ReadCount => s.(count := 0, reported := s.reported + s.count)
    case Fire => s.(timer := Disarmed, fired := true, sent := if s.fired then s.sent else s.sent + 1)
    case Dequeue(signal, timer) =>
      var t := Consume(s, signal, timer);
      if signal.Suspend? then t.(thread := Waiting)
      else if s.thread.Waiting? then t.(thread := Running, count := s.count + 1, activations := s.activations + 1)
      else t.(ignored := s.ignored + 1)
    case Interrupted => s
    case Exit => s.(thread := Absent, suspends := 0, resumes := 0, fired := false, dropped := s.dropped + Resumes(s))
  }

  // ----- runs

  function System(lowest: Signal): (res: (State, Step) -> Option<State>) {
    (s, step) => if Enabled(lowest, s, step) then Some(Take(lowest, s, step)) else None
  }

  predicate AnyStep(step: Step) {
    true
  }

  /** Some run leads from `init` to `s`. */
  ghost predicate Reachable(lowest: Signal, init: State, s: State) {
    Reaches(System(lowest), AnyStep, init, s)
  }

  // ----- what every run keeps

  predicate Stopping(s: State) {
    s.main.DisarmToStop? || s.main.DeleteToStop? || s.main.Joining?
  }

  predicate Suspended(s: State) {
    s.thread.Waiting? || s.suspends > 0
  }

  /** Every resume signal is still queued, or was dropped, ignored, or ended one wait. */
  predicate Conserved(s: State) {
    && s.sent == Resumes(s) + s.activations + s.ignored + s.dropped
    && s.activations == s.count + s.reported + s.reset
  }

  /** Which threads and signals there can be at each point of the main thread. */
  predicate Shape(s: State) {
    && (s.thread.Absent? ==> s.suspends == 0 && Resumes(s) == 0 && (!s.watched || Stopping(s)))
    && (s.main.SuspendNew? || s.main.ArmNew? || s.main.DisarmToPoll? || s.main.DisarmToStop? || s.main.DeleteToStop?
        ==> s.watched && !s.thread.Absent?)
    && (s.main.Polling? ==> s.main.bracketed == s.watched && !s.timer.Armed?)
    && (!s.watched ==> s.timer.NoTimer? && (s.main.Joining? || !Suspended(s)))
    && (s.main.Joining? ==> !s.watched)
  }

  /** Once the main thread waits for the profiler thread, that thread is awake or will be woken. */
  predicate WillWake(s: State) {
    Stopping(s) && Suspended(s) ==> s.resumes > 0
  }

  /** While the main thread works, a suspended profiler thread will be woken, now or by the timer. */
  predicate WillSample(s: State) {
    s.main.Working? && s.watched && Suspended(s) ==> s.timer.Armed? || Resumes(s) > 0
  }

  predicate Inv(s: State) {
    Shape(s) && WillWake(s) && WillSample(s)
  }

  lemma {:induction false} StepConserves(lowest: Signal, s: State, step: Step)
    requires Conserved(s) && Enabled(lowest, s, step)
    ensures Conserved(Take(lowest, s, step))
  {
  }

  lemma {:induction false} StepKeepsInv(s: State, step: Step)
    requires Inv(s) && Enabled(Suspend, s, step)
    ensures Inv(Take(Suspend, s, step))
  {
  }

  /** Resume signals are conserved in every run, whichever signal comes first. */
  lemma {:induction false} ResumesConserved(lowest: Signal, init: State, s: State)
    requires Initial(init) && Reachable(lowest, init, s)
    ensures Conserved(s)
  {
    forall s, step | Conserved(s) && System(lowest)(s, step).Some?
      ensures Conserved(System(lowest)(s, step).value)
    {
      StepConserves(lowest, s, step);
    }
    ReachesWithin(System(lowest), AnyStep, Conserved, init, s);
  }

  lemma {:induction false} InvClosed(only: Step -> bool)
    ensures Closed(System(Suspend), only, Inv)
  {
    forall s, step | Inv(s) && System(Suspend)(s, step).Some?
      ensures Inv(System(Suspend)(s, step).value)
    {
      StepKeepsInv(s, step);
    }
  }

  lemma {:induction false} ReachableInv(init: State, s: State)
    requires Initial(init) && Reachable(Suspend, init, s)
    ensures Inv(s)
  {
    InvClosed(AnyStep);
    ReachesWithin(System(Suspend), AnyStep, Inv, init, s);
  }

  /** From the moment `StopCpuProfiling` has signalled, a suspended profiler thread has a resume coming. */
  lemma {:induction false} StopWillWake(init: State, s: State)
    requires Initial(init) && Reachable(Suspend, init, s) && Stopping(s) && Suspended(s)
    ensures s.resumes > 0
  {
    ReachableInv(init, s);
  }

  // ----- starting

  predicate NotExit(step: Step) {
    !step.Exit?
  }

  /** A start of either kind is possible whenever the main thread works (a watched one unless the thread is watched
      already), and from then on there is a profiler thread until it exits. */
  lemma {:induction false} StartMakesThread(lowest: Signal, s: State, start: Step, steps: seq<Step>)
    requires s.main.Working? && (start.StartPlain? || (start.StartWatched? && !s.watched))
    ensures Enabled(lowest, s, start)
    ensures var t := Take(lowest, s, start);
      && !t.thread.Absent? && (!s.thread.Absent? ==> t.thread == s.thread)
      && (Runs(System(lowest), t, steps) && All(steps, NotExit) ==>
           !After(System(lowest), t, steps).thread.Absent?)
  {
    var t := Take(lowest, s, start);
    if Runs(System(lowest), t, steps) && All(steps, NotExit) {
      HasThreadClosed(lowest);
      RunsKeep(System(lowest), NotExit, u => HasThread(u), t, steps);
    }
  }

  predicate HasThread(s: State) {
    !s.thread.Absent?
  }

  lemma {:induction false} HasThreadClosed(lowest: Signal)
    ensures Closed(System(lowest), NotExit, s => HasThread(s))
  {
    forall s, step | HasThread(s) && NotExit(step) && System(lowest)(s, step).Some?
      ensures HasThread(System(lowest)(s, step).value)
    {
    }
  }

  predicate NotCounted(step: Step) {
    !step.ReadCount? && !step.StartWatched?
  }

  /** A watched start begins with a count of 0, and the count is what has been activated since. */
  lemma {:induction false} CountsSinceStart(lowest: Signal, s: State, steps: seq<Step>)
    requires Enabled(lowest, s, StartWatched)
    ensures var t := Take(lowest, s, StartWatched);
      && t.count == 0
      && (Runs(System(lowest), t, steps) && All(steps, NotCounted) ==>
           After(System(lowest), t, steps).count == After(System(lowest), t, steps).activations - s.activations)
  {
    var t := Take(lowest, s, StartWatched);
    if Runs(System(lowest), t, steps) && All(steps, NotCounted) {
      CountedClosed(lowest, s.activations);
      RunsKeep(System(lowest), NotCounted, u => CountedSince(s.activations, u), t, steps);
    }
  }

  lemma {:induction false} CountedClosed(lowest: Signal, n: nat)
    ensures Closed(System(lowest), NotCounted, s => CountedSince(n, s))
  {
    forall s, step | CountedSince(n, s) && NotCounted(step) && System(lowest)(s, step).Some?
      ensures CountedSince(n, System(lowest)(s, step).value)
    {
      StepCounts(lowest, n, s, step);
    }
  }

  lemma {:induction false} StepCounts(lowest: Signal, n: nat, s: State, step: Step)
    requires CountedSince(n, s) && NotCounted(step) && Enabled(lowest, s, step)
    ensures CountedSince(n, Take(lowest, s, step))
  {
  }

  predicate CountedSince(n: nat, s: State) {
    s.count + n == s.activations
  }

  // ----- what happens while the main thread stands still

  /** A step of another thread, apart from an interrupted wait being repeated. */
  predicate Background(step: Step) {
    step.Fire? || step.Dequeue? || step.Exit?
  }

  function Measure(s: State): (n: nat) {
    2 * (s.suspends + Resumes(s)) + (if s.timer.Armed? then 3 else 0)
    + match s.thread case Absent => 0 case Running => 1 case Waiting => 2
  }

  lemma {:induction false} BackgroundDecreases(lowest: Signal, s: State, step: Step)
    requires Enabled(lowest, s, step) && Background(step)
    ensures Measure(Take(lowest, s, step)) < Measure(s)
  {
  }

  ghost predicate BackgroundRun(s: State, steps: seq<Step>) {
    Runs(System(Suspend), s, steps) && All(steps, Background)
  }

  /** The other threads cannot go on for ever by themselves. */
  lemma {:induction false} BackgroundEnds(s: State, steps: seq<Step>)
    requires BackgroundRun(s, steps)
    ensures Measure(After(System(Suspend), s, steps)) + |steps| <= Measure(s)
  {
    forall s, step | Background(step) && System(Suspend)(s, step).Some?
      ensures Measure(System(Suspend)(s, step).value) < Measure(s)
    {
      BackgroundDecreases(Suspend, s, step);
    }
    RunsEnd(System(Suspend), Background, Measure, s, steps);
  }

  predicate StandsStill(main: Main, watched: bool, s: State) {
    s.main == main && s.watched == watched
  }

  lemma {:induction false} BackgroundStandsStill(main: Main, watched: bool)
    ensures Closed(System(Suspend), Background, s => StandsStill(main, watched, s))
  {
  }

  lemma {:induction false} BackgroundKeeps(s: State, steps: seq<Step>)
    requires Inv(s) && BackgroundRun(s, steps)
    ensures var t := After(System(Suspend), s, steps);
      Inv(t) && t.main == s.main && t.watched == s.watched
  {
    InvClosed(Background);
    RunsKeep(System(Suspend), Background, Inv, s, steps);
    BackgroundStandsStill(s.main, s.watched);
    RunsKeep(System(Suspend), Background, t => StandsStill(s.main, s.watched, t), s, steps);
  }

  /** No other thread can move until the main thread does. */
  ghost predicate Stalled(s: State) {
    forall step :: Enabled(Suspend, s, step) ==> !Background(step)
  }

  lemma {:induction false} StalledMeans(s: State)
    requires Stalled(s)
    ensures !s.timer.Armed?
    ensures !s.thread.Absent? ==> s.suspends == 0 && Resumes(s) == 0
    ensures s.main.Joining? ==> !s.thread.Running?
  {
    assert !Enabled(Suspend, s, Fire) && !Enabled(Suspend, s, Exit) && !Enabled(Suspend, s, Dequeue(Suspend, false));
    assert !Enabled(Suspend, s, Dequeue(Resume, true)) && !Enabled(Suspend, s, Dequeue(Resume, false));
  }

  /** A stalled event loop is sampled: while the main thread works on, the profiler thread comes to run. */
  lemma {:induction false} StallIsSampled(init: State, s: State, steps: seq<Step>)
    requires Initial(init) && Reachable(Suspend, init, s) && s.main.Working? && s.watched && BackgroundRun(s, steps)
    ensures |steps| <= Measure(s)
    ensures Stalled(After(System(Suspend), s, steps)) ==> After(System(Suspend), s, steps).thread.Running?
  {
    ReachableInv(init, s);
    BackgroundEnds(s, steps);
    BackgroundKeeps(s, steps);
    var t := After(System(Suspend), s, steps);
    if Stalled(t) {
      StalledMeans(t);
    }
  }

  /** Blocked in the join, the program cannot run on for ever, and comes to rest only with the thread gone. */
  lemma {:induction false} JoinReturns(init: State, s: State, steps: seq<Step>)
    requires Initial(init) && Reachable(Suspend, init, s) && s.main.Joining? && BackgroundRun(s, steps)
    ensures |steps| <= Measure(s)
    ensures Stalled(After(System(Suspend), s, steps)) ==> Enabled(Suspend, After(System(Suspend), s, steps), Join)
  {
    ReachableInv(init, s);
    BackgroundEnds(s, steps);
    BackgroundKeeps(s, steps);
    var t := After(System(Suspend), s, steps);
    if Stalled(t) {
      StalledMeans(t);
    }
  }

  // ----- the order of the signals

  /** The main thread waits for a profiler thread that nothing will ever wake. */
  ghost predicate Deadlocked(lowest: Signal, s: State) {
    s.main.Joining? && !s.thread.Absent? && forall step :: Enabled(lowest, s, step) ==> step.Interrupted?
  }

  /** Profiling has started and the profiler thread has not looked at the suspend signal yet. */
  predicate JustStarted(s: State) {
    && s.main.Working? && s.watched && s.thread.Running? && s.timer.Armed?
    && s.suspends == 1 && s.resumes == 0 && !s.fired
  }

  lemma {:induction false} Started(lowest: Signal, init: State, states: State -> bool) returns (s: State)
    requires Initial(init) && states(init) && Closed(System(lowest), AnyStep, states)
    ensures states(s) && JustStarted(s)
  {
    s := Next(System(lowest), AnyStep, states, init, StartWatched);
    s := Next(System(lowest), AnyStep, states, s, SuspendFirst);
    s := Next(System(lowest), AnyStep, states, s, ArmFirst);
  }

  lemma {:induction false} StoppedAtOnce(lowest: Signal, start: State, states: State -> bool) returns (s: State)
    requires JustStarted(start) && states(start) && Closed(System(lowest), AnyStep, states)
    ensures states(s) && s.main.Joining? && s.thread.Running? && s.timer.NoTimer?
    ensures s.suspends == 1 && s.resumes == 1 && !s.fired
  {
    s := Next(System(lowest), AnyStep, states, start, StopSignal);
    s := Next(System(lowest), AnyStep, states, s, StopDisarm(false));
    s := Next(System(lowest), AnyStep, states, s, StopDelete(false));
  }

  /** Resume first: the profiler thread ignores the last resume signal and then waits for another. */
  lemma {:induction false} ResumeFirstDeadlocks(init: State, states: State -> bool) returns (s: State)
    requires Initial(init) && states(init) && Closed(System(Resume), AnyStep, states)
    ensures states(s) && Deadlocked(Resume, s)
  {
    s := Started(Resume, init, states);
    s := StoppedAtOnce(Resume, s, states);
    s := Next(System(Resume), AnyStep, states, s, Dequeue(Resume, false));
    s := Next(System(Resume), AnyStep, states, s, Dequeue(Suspend, false));
  }

  /**
   `StopCpuProfiling` is free of deadlock in all runs exactly because the suspend signal has the
   lower number.
   */
  lemma {:induction false} NoDeadlockExactly(lowest: Signal, init: State)
    requires Initial(init)
    ensures (forall s :: Reachable(lowest, init, s) ==> !Deadlocked(lowest, s)) <==> lowest == Suspend
  {
    if lowest == Suspend {
      forall s | Reachable(lowest, init, s)
        ensures !Deadlocked(lowest, s)
      {
        ReachableInv(init, s);
        if Deadlocked(Suspend, s) {
          assert Stalled(s);
          StalledMeans(s);
          assert false;
        }
      }
    } else {
      ReachesClosed(System(lowest), AnyStep, init);
      var s := ResumeFirstDeadlocks(init, s => Reachable(lowest, init, s));
    }
  }

  // ----- asleep in the poll

  /** What can happen while the main thread sleeps. */
  predicate Asleep(step: Step) {
    Background(step) || step.Interrupted?
  }

  predicate SoundAsleep(s: State) {
    s.main.Polling? && !s.timer.Armed? && Suspended(s) && Resumes(s) == 0
  }

  lemma {:induction false} StaysAsleep()
    ensures Closed(System(Suspend), Asleep, SoundAsleep)
  {
  }

  /** A resume signal left over from the timer undoes every suspend signal queued before it is taken. */
  lemma {:induction false} WakesUp(states: State -> bool, s: State) returns (t: State)
    requires Closed(System(Suspend), Asleep, states) && states(s)
    requires !s.thread.Absent? && (Suspended(s) ==> Resumes(s) > 0)
    ensures states(t) && !Suspended(t)
    decreases s.suspends
  {
    t := s;
    if s.suspends > 0 {
      t := Next(System(Suspend), Asleep, states, s, Dequeue(Suspend, false));
      t := WakesUp(states, t);
    } else if Suspended(s) {
      t := Next(System(Suspend), Asleep, states, s, Dequeue(Resume, s.fired));
    }
  }

  /** Suspending before the poll keeps the profiler thread off exactly when no resume signal is pending by then. */
  lemma {:induction false} AsleepExactly(init: State, s: State)
    requires Initial(init) && Reachable(Suspend, init, s) && s.main == Polling(true)
    ensures (forall t :: Reaches(System(Suspend), Asleep, s, t) ==> Suspended(t))
      <==> Suspended(s) && Resumes(s) == 0
  {
    ReachableInv(init, s);
    if Suspended(s) && Resumes(s) == 0 {
      StaysAsleep();
      forall t | Reaches(System(Suspend), Asleep, s, t)
        ensures Suspended(t)
      {
        ReachesWithin(System(Suspend), Asleep, SoundAsleep, s, t);
      }
    } else {
      ReachesClosed(System(Suspend), Asleep, s);
      var t := WakesUp(t => Reaches(System(Suspend), Asleep, s, t), s);
    }
  }

  lemma {:induction false} StaleResumeInPoll(init: State, states: State -> bool) returns (s: State)
    requires Initial(init) && states(init) && Closed(System(Suspend), AnyStep, states)
    ensures states(s) && s.main == Polling(true) && !s.thread.Absent? && Suspended(s) && Resumes(s) == 1
  {
    s := Started(Suspend, init, states);
    s := Next(System(Suspend), AnyStep, states, s, Fire);
    s := Next(System(Suspend), AnyStep, states, s, EnterPoll);
    s := Next(System(Suspend), AnyStep, states, s, Disarm(false));
  }

  /** It can be pending: the timer may fire between the work and the poll, and the profiler then runs meanwhile. */
  lemma {:induction false} PollCanBeDisturbed(init: State) returns (s: State, t: State)
    requires Initial(init)
    ensures Reachable(Suspend, init, s) && s.main == Polling(true)
    ensures Reaches(System(Suspend), Asleep, s, t) && !Suspended(t)
  {
    ReachesClosed(System(Suspend), AnyStep, init);
    s := StaleResumeInPoll(init, s => Reachable(Suspend, init, s));
    ReachesClosed(System(Suspend), Asleep, s);
    t := WakesUp(t => Reaches(System(Suspend), Asleep, s, t), s);
  }
}
