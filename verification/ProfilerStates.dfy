/**
 The state of the profiling plugin (src/plugins/node/prof/nodeprofplugin.cpp) and what its
 callbacks, its timer and its messages do to it.
 */
module ProfilerStates {
  import opened Options
  import opened Transitions

  const JSON_INTERVAL := 60000
  const CSV_INTERVAL := 5000

  /**
   `running` is V8's profiler, `timer` the period of the gather timer or zero while it is stopped, and
   the `want` flags are the asynchronous wakeups sent and not yet called back: sending one twice makes
   no difference.  `supported` says whether the platform has the watchdog, without which a start with
   a threshold fails.
   */
  datatype State = State(
    enabled: bool, json: bool, threshold: int, supported: bool, running: bool, timer: nat,
    wantEnable: bool, wantDisable: bool, wantStart: bool, wantStop: bool, closed: bool, log: Log)

  /** How many profiles have been started, sent to the agent, and thrown away. */
  datatype Log = Log(started: nat, sent: nat, discarded: nat)

  datatype Step =
    | SetEnabled(value: bool) | SetJson(on: bool) | SetThreshold(threshold: int)
    | OnEnable | OnDisable | OnStart | OnStop | OnTimer
    | PluginStop

  function Interval(json: bool): (n: nat) {
    if json then JSON_INTERVAL else CSV_INTERVAL
  }

  /** `ibmras_monitoring_plugin_start`. */
  function PluginStart(enabled: bool, supported: bool): (t: State) {
    var s := State(enabled, false, 0, supported, false, 0, false, false, false, false, false, Log(0, 0, 0));
    if enabled then StartTheProfiler(s).(timer := Interval(false)) else s
  }

  function StartTheProfiler(s: State): (t: State) {
    if s.running || (s.threshold != 0 && !s.supported) then s
    else s.(running := true, log := s.log.(started := s.log.started + 1))
  }

  function CollectData(s: State): (t: State) {
    if s.enabled && s.running then s.(running := false, log := s.log.(sent := s.log.sent + 1)) else s
  }

  function DiscardData(s: State): (t: State) {
    if s.running then s.(running := false, log := s.log.(discarded := s.log.discarded + 1)) else s
  }

  function OnGatherData(s: State): (t: State) {
    StartTheProfiler(CollectData(s))
  }

  function Enable(s: State): (t: State) {
    if s.enabled then s else StartTheProfiler(s.(enabled := true)).(timer := Interval(s.json))
  }

  function Disable(s: State): (t: State) {
    if !s.enabled then s else DiscardData(s.(enabled := false, timer := 0))
  }

  function StartWithoutTiming(s: State): (t: State) {
    if s.enabled then s else StartTheProfiler(s.(enabled := true))
  }

  function StopWithoutTiming(s: State): (t: State) {
    CollectData(s).(enabled := false)
  }

  function Ask(s: State, value: bool): (t: State) {
    if value then if s.json then s.(wantStart := true) else s.(wantEnable := true)
    else (if s.json then s.(wantStop := true) else s.(wantDisable := true)).(threshold := 0)
  }

  function Close(s: State): (t: State) {
    Disable(s).(wantEnable := false, wantDisable := false, wantStart := false, wantStop := false, closed := true)
  }

  predicate Enabled(s: State, step: Step) {
    match step
    case SetEnabled(_) => !s.closed
    case SetJson(_) => true
    case SetThreshold(_) => true
    case OnEnable => s.wantEnable && !s.closed
    case OnDisable => s.wantDisable && !s.closed
    case OnStart => s.wantStart && !s.closed
    case OnStop => s.wantStop && !s.closed
    case OnTimer => s.timer > 0
    case PluginStop => !s.closed
  }

  function Take(s: State, step: Step): (t: State)
    requires Enabled(s, step)
  {
    match step
    case SetEnabled(value) => Ask(s, value)
    case SetJson(on) => s.(json := on)
    case SetThreshold(threshold) => s.(threshold := threshold)
    case OnEnable => Enable(s.(wantEnable := false))
    case OnDisable => Disable(s.(wantDisable := false))
    case OnStart => StartWithoutTiming(s.(wantStart := false))
    case OnStop => StopWithoutTiming(s.(wantStop := false))
    case OnTimer => OnGatherData(s)
    case PluginStop => Close(s)
  }

  // ----- what should hold

  /** The profiler runs just when profiling is enabled, and is timed just when that is not in JSON mode. */
  predicate Good(s: State) {
    s.running == s.enabled && s.timer == if s.enabled && !s.json then CSV_INTERVAL else 0
  }

  /** Good, and no callback of the other mode is still to come that would break it. */
  predicate Safe(s: State) {
    Good(s) && s.supported && if s.json then !s.wantEnable else !s.wantStart && !s.wantStop
  }

  predicate Quiet(s: State) {
    !s.enabled && !s.wantEnable && !s.wantDisable && !s.wantStart && !s.wantStop
  }

  predicate Conserved(s: State) {
    Balanced(s.log, s.running)
  }

  predicate Balanced(log: Log, running: bool) {
    log.started == log.sent + log.discarded + if running then 1 else 0
  }

  lemma {:induction false} StepConserves(s: State, step: Step)
    requires Conserved(s) && Enabled(s, step)
    ensures Conserved(Take(s, step))
  {
    match step
    case OnEnable => EnableConserves(s.(wantEnable := false));
    case OnStart => StartWithoutTimingConserves(s.(wantStart := false));
    case OnDisable => DisableConserves(s.(wantDisable := false));
    case OnStop => StopWithoutTimingConserves(s.(wantStop := false));
    case OnTimer => TimerConserves(s);
    case PluginStop => DisableConserves(s);
    case _ =>
  }

  lemma {:induction false} EnableConserves(s: State)
    requires Conserved(s)
    ensures Conserved(Enable(s))
  {
    StartConserves(s.(enabled := true));
  }

  lemma {:induction false} StartWithoutTimingConserves(s: State)
    requires Conserved(s)
    ensures Conserved(StartWithoutTiming(s))
  {
    StartConserves(s.(enabled := true));
  }

  lemma {:induction false} DisableConserves(s: State)
    requires Conserved(s)
    ensures Conserved(Disable(s))
  {
    DiscardConserves(s.(enabled := false, timer := 0));
  }

  lemma {:induction false} StopWithoutTimingConserves(s: State)
    requires Conserved(s)
    ensures Conserved(StopWithoutTiming(s))
  {
    CollectConserves(s);
  }

  lemma {:induction false} StartConserves(s: State)
    requires Conserved(s)
    ensures Conserved(StartTheProfiler(s))
  {
  }

  lemma {:induction false} CollectConserves(s: State)
    requires Conserved(s)
    ensures Conserved(CollectData(s))
  {
  }

  lemma {:induction false} DiscardConserves(s: State)
    requires Conserved(s)
    ensures Conserved(DiscardData(s))
  {
  }

  lemma {:induction false} TimerConserves(s: State)
    requires Conserved(s)
    ensures Conserved(OnGatherData(s))
  {
    CollectConserves(s);
    StartConserves(CollectData(s));
  }

  lemma {:induction false} StepKeepsSafe(s: State, step: Step)
    requires Safe(s) && Enabled(s, step) && !step.SetJson?
    ensures Safe(Take(s, step))
  {
  }

  /** When the mode may be changed without harm. */
  lemma {:induction false} ModeChangeSafeExactly(s: State, on: bool)
    requires Safe(s)
    ensures Safe(Take(s, SetJson(on)))
      <==> on == s.json || (!s.enabled && if on then !s.wantEnable else !s.wantStart && !s.wantStop)
  {
  }

  /** While profiling is enabled and timed, each turn of the timer is due, and sends the profile that was being taken
      instead of throwing it away; the next one is begun unless a start fails. */
  lemma {:induction false} TimerSends(s: State)
    requires Good(s) && s.enabled && !s.json
    ensures Enabled(s, OnTimer) && Take(s, OnTimer).enabled && Take(s, OnTimer).timer == s.timer
    ensures var log := Take(s, OnTimer).log;
      && log.sent == s.log.sent + 1 && log.discarded == s.log.discarded
      && log.started == s.log.started + if s.threshold == 0 || s.supported then 1 else 0
  {
  }

  /** Disabling throws it away. */
  lemma {:induction false} DisableDiscards(s: State)
    requires Good(s) && s.enabled && s.wantDisable && !s.closed
    ensures Enabled(s, OnDisable) && !Take(s, OnDisable).enabled
    ensures Take(s, OnDisable).log == s.log.(discarded := s.log.discarded + 1)
  {
  }

  // ----- runs

  function System(): (res: (State, Step) -> Option<State>) {
    (s, step) => if Enabled(s, step) then Some(Take(s, step)) else None
  }

  /** The mode changes only while profiling is disabled and no callback is outstanding. */
  function CarefulSystem(): (res: (State, Step) -> Option<State>) {
    (s, step) => if Enabled(s, step) && Careful(s, step) then Some(Take(s, step)) else None
  }

  predicate Careful(s: State, step: Step) {
    step.SetJson? ==> step.on == s.json || Quiet(s)
  }

  predicate AnyStep(step: Step) {
    true
  }

  predicate KeepsMode(step: Step) {
    !step.SetJson?
  }

  lemma {:induction false} CarefulStepKeepsSafe(s: State, step: Step)
    requires Safe(s) && Enabled(s, step) && Careful(s, step)
    ensures Safe(Take(s, step))
  {
    if step.SetJson? {
      ModeChangeSafeExactly(s, step.on);
    } else {
      StepKeepsSafe(s, step);
    }
  }

  /** After each callback of a careful run, the profiler and its timer are as they should be. */
  lemma {:induction false} CarefulRunsAreGood(enabled: bool, steps: seq<Step>)
    requires Runs(CarefulSystem(), PluginStart(enabled, true), steps)
    ensures Good(After(CarefulSystem(), PluginStart(enabled, true), steps))
  {
    forall s, step | Safe(s) && CarefulSystem()(s, step).Some?
      ensures Safe(CarefulSystem()(s, step).value)
    {
      CarefulStepKeepsSafe(s, step);
    }
    RunsKeep(CarefulSystem(), AnyStep, Safe, PluginStart(enabled, true), steps);
  }

  /** Other runs may go wrong, however the plugin starts: the mode changes while profiling is enabled, or just before
      it is. */
  lemma {:induction false} CarelessRunsBreak(enabled: bool, supported: bool)
    ensures exists t :: Reaches(System(), AnyStep, PluginStart(enabled, supported), t) && !Good(t)
  {
    var start := PluginStart(enabled, supported);
    var states := t => Reaches(System(), AnyStep, start, t);
    ReachesClosed(System(), AnyStep, start);
    var t := start;
    if enabled {
      t := Next(System(), AnyStep, states, t, SetJson(true));
    } else {
      t := Next(System(), AnyStep, states, t, SetEnabled(true));
      t := Next(System(), AnyStep, states, t, SetJson(true));
      t := Next(System(), AnyStep, states, t, OnEnable);
    }
    assert states(t) && !Good(t);
  }

  /** In every run, careful or not, each profile started is sent once, discarded once, or still being taken. */
  lemma {:induction false} ProfilesConserved(enabled: bool, supported: bool, steps: seq<Step>)
    requires Runs(System(), PluginStart(enabled, supported), steps)
    ensures Conserved(After(System(), PluginStart(enabled, supported), steps))
  {
    forall s, step | Conserved(s) && System()(s, step).Some?
      ensures Conserved(System()(s, step).value)
    {
      StepConserves(s, step);
    }
    RunsKeep(System(), AnyStep, Conserved, PluginStart(enabled, supported), steps);
  }

  // ----- which states are safe

  /** What a request to switch profiling to `value`, and its callback, leave as it was, and what they set. */
  predicate Switched(s: State, t: State, value: bool) {
    && !t.closed && t.enabled == value && t.json == s.json && t.supported == s.supported
    && t.threshold == (if value then s.threshold else 0)
    && (Good(s) ==> t.timer == (if value && !s.json then CSV_INTERVAL else 0) && (!value ==> !t.running))
    && (if s.json then s.wantEnable ==> t.wantEnable
        else (s.wantStart ==> t.wantStart) && (s.wantStop ==> t.wantStop))
  }

  lemma {:induction false} SwitchOn(states: State -> bool, s: State) returns (t: State)
    requires Closed(System(), KeepsMode, states) && states(s) && !s.closed
    ensures states(t) && Switched(s, t, true)
  {
    t := Next(System(), KeepsMode, states, s, SetEnabled(true));
    if s.json {
      t := Next(System(), KeepsMode, states, t, OnStart);
    } else {
      t := Next(System(), KeepsMode, states, t, OnEnable);
    }
  }

  lemma {:induction false} SwitchOff(states: State -> bool, s: State) returns (t: State)
    requires Closed(System(), KeepsMode, states) && states(s) && !s.closed
    ensures states(t) && Switched(s, t, false)
  {
    t := Next(System(), KeepsMode, states, s, SetEnabled(false));
    if s.json {
      t := Next(System(), KeepsMode, states, t, OnStop);
    } else {
      t := Next(System(), KeepsMode, states, t, OnDisable);
    }
  }

  /** From a good state that is not safe, the invariant can be broken. */
  lemma {:induction false} Breaks(states: State -> bool, s: State) returns (t: State)
    requires Closed(System(), KeepsMode, states) && states(s) && !s.closed && Good(s) && !Safe(s)
    ensures states(t) && !Good(t)
  {
    if s.json && s.wantEnable {
      t := SwitchOff(states, s);
      t := Next(System(), KeepsMode, states, t, OnEnable);
    } else if !s.json && s.wantStart {
      t := SwitchOff(states, s);
      t := Next(System(), KeepsMode, states, t, OnStart);
    } else if !s.json && s.wantStop {
      t := SwitchOn(states, s);
      t := Next(System(), KeepsMode, states, t, OnStop);
    } else {
      t := SwitchOff(states, s);
      t := Next(System(), KeepsMode, states, t, SetThreshold(1));
      t := Next(System(), KeepsMode, states, t, SetEnabled(true));
      t := Next(System(), KeepsMode, states, t, if s.json then OnStart else OnEnable);
    }
  }

  lemma {:induction false} SafeClosed()
    ensures Closed(System(), KeepsMode, Safe)
  {
    forall s, step | Safe(s) && KeepsMode(step) && System()(s, step).Some?
      ensures Safe(System()(s, step).value)
    {
      StepKeepsSafe(s, step);
    }
  }

  /** The states from which nothing but a mode change can break the invariant. */
  lemma {:induction false} SafeExactly(s: State)
    requires !s.closed
    ensures (forall t :: Reaches(System(), KeepsMode, s, t) ==> Good(t)) <==> Safe(s)
  {
    ReachesClosed(System(), KeepsMode, s);
    if Safe(s) {
      SafeClosed();
      forall t | Reaches(System(), KeepsMode, s, t)
        ensures Good(t)
      {
        ReachesWithin(System(), KeepsMode, Safe, s, t);
      }
    } else if Good(s) {
      var t := Breaks(t => Reaches(System(), KeepsMode, s, t), s);
    }
  }

  /** Two opposite requests that are both outstanding: the order of their callbacks decides, not theirs. */
  lemma {:induction false} CrossedRequests(s: State)
    requires !s.json && !s.closed && s.wantEnable && s.wantDisable
    ensures !Take(Take(s, OnEnable), OnDisable).enabled && Take(Take(s, OnDisable), OnEnable).enabled
  {
  }
}
