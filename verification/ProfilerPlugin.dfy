/** The callbacks and messages of nodeprofplugin.cpp in their own form, updating the plugin's variables. */
module ProfilerPlugin {
  import opened Options
  import opened ProfilerStates
  import opened StringReplace

  /** A message is a command and what it is for, split at the first comma. */
  function Split(message: string): (res: (string, string)) {
    var found := Find(message, ",", 0);
    if found == -1 then (message, message) else (message[..found], message[found + 1..])
  }

  /** What index.js joins with a comma is taken apart again exactly when the command has no comma itself. */
  lemma {:induction false} SplitJoined(command: string, rest: string)
    ensures Split(command + "," + rest) == (command, rest) <==> ',' !in command
  {
    var message := command + "," + rest;
    var k := Find(message, ",", 0);
    assert message[|command|] == ',' && OccursAt(message, ",", |command|);
    FindIsFirst(message, ",", 0, |command|);
    assert forall i :: 0 <= i < |command| ==> message[i] == command[i];
    assert message[..|command|] == command && message[|command| + 1..] == rest;
    if ',' in command {
      var j :| 0 <= j < |command| && command[j] == ',';
      assert OccursAt(message, ",", j);
      FindIsFirst(message, ",", 0, j);
      assert |message[..k]| < |command|;
    }
  }

  lemma {:induction false} CommaFound(message: string)
    ensures Find(message, ",", 0) != -1 ==> ',' in message
  {
    var k := Find(message, ",", 0);
    if k != -1 {
      assert OccursAt(message, ",", k);
      assert ","[0] == message[k + 0];
    }
  }

  /** A message without a comma is both. */
  lemma {:induction false} SplitWhole(message: string)
    requires ',' !in message
    ensures Split(message) == (message, message)
  {
    CommaFound(message);
  }

  /** The step a message to the plugin stands for, if any; `readInt` reads a number, zero if there is none. */
  function Request(id: string, message: string, readInt: string -> int): (o: Option<Step>) {
    var (command, rest) := Split(message);
    if id != "profiling_node" then None
    else if rest == "profiling_node_subsystem" then Some(SetEnabled(command == "on"))
    else if rest == "profiling_node_v8json" then Some(SetJson(command == "on"))
    else if rest == "profiling_node_threshold" then Some(SetThreshold(readInt(command)))
    else None
  }

  /** A command joined with a comma to a subject. */
  lemma {:induction false} RequestExact(command: string, subject: string, readInt: string -> int)
    requires ',' !in command
    ensures Request("profiling_node", command + "," + subject, readInt)
      == if subject == "profiling_node_subsystem" then Some(SetEnabled(command == "on"))
         else if subject == "profiling_node_v8json" then Some(SetJson(command == "on"))
         else if subject == "profiling_node_threshold" then Some(SetThreshold(readInt(command)))
         else None
  {
    SplitJoined(command, subject);
  }

  predicate Subject(s: string) {
    s == "profiling_node_subsystem" || s == "profiling_node_v8json" || s == "profiling_node_threshold"
  }

  lemma {:induction false} DistinctSubjects()
    ensures "profiling_node_subsystem" != "profiling_node_v8json"
    ensures "profiling_node_subsystem" != "profiling_node_threshold"
    ensures "profiling_node_v8json" != "profiling_node_threshold"
  {
    assert |"profiling_node_subsystem"| == 24 && |"profiling_node_v8json"| == 21;
    assert "profiling_node_subsystem"[15] != "profiling_node_threshold"[15];
    assert |"profiling_node_threshold"| == 24;
  }

  class Plugin {
    var enabled: bool
    var jsonEnabled: bool
    var profilingInterval: nat
    var watchdogThreshold: int
    const supported: bool
    var running: bool
    var timer: nat
    var asyncEnable: bool
    var asyncDisable: bool
    var asyncStartProfiler: bool
    var asyncStopProfiler: bool
    var closed: bool
    ghost var log: Log

    ghost function View(): (t: State)
      reads this
    {
      State(enabled, jsonEnabled, watchdogThreshold, supported, running, timer,
            asyncEnable, asyncDisable, asyncStartProfiler, asyncStopProfiler, closed, log)
    }

    ghost predicate Valid()
      reads this
    {
      profilingInterval == Interval(jsonEnabled)
    }

    /** `enabledProp` is the property read by `registerPushSource`, before `plugin_start`. */
    constructor (enabledProp: string, supported: bool)
      ensures Valid() && View() == PluginStart(enabledProp == "on", supported)
      ensures enabled == running == (enabledProp == "on") && !jsonEnabled && watchdogThreshold == 0 && !closed
      ensures timer == (if enabledProp == "on" then 5000 else 0) && profilingInterval == 5000
      ensures !asyncEnable && !asyncDisable && !asyncStartProfiler && !asyncStopProfiler
    {
      this.supported := supported;
      enabled, jsonEnabled, profilingInterval, watchdogThreshold := enabledProp == "on", false, CSV_INTERVAL, 0;
      running, timer, closed, log := false, 0, false, Log(0, 0, 0);
      asyncEnable, asyncDisable, asyncStartProfiler, asyncStopProfiler := false, false, false, false;
      new;
      if enabled {
        StartTheProfiler();
        timer := profilingInterval;
      }
    }

    method StartTheProfiler()
      modifies this`running, this`log
      ensures View() == ProfilerStates.StartTheProfiler(old(View()))
      ensures running == (old(running) || watchdogThreshold == 0 || supported)
      ensures log == old(log).(started := old(log).started + if running && !old(running) then 1 else 0)
    {
      if watchdogThreshold == 0 || supported {
        if !running {
          log := log.(started := log.started + 1);
        }
        running := true;
      }
    }

    /** Whether there was a profile to return. */
    method StopTheProfiler() returns (profile: bool)
      modifies this`running
      ensures profile == old(running) && !running
    {
      profile := running;
      running := false;
    }

    method CollectData()
      modifies this`running, this`log
      ensures View() == ProfilerStates.CollectData(old(View()))
      ensures running == (old(running) && !enabled)
      ensures log == old(log).(sent := old(log).sent + if enabled && old(running) then 1 else 0)
    {
      if !enabled {
        return;
      }
      var profile := StopTheProfiler();
      if profile {
        log := log.(sent := log.sent + 1);
      }
    }

    method OnGatherDataOnV8Thread()
      modifies this`running, this`log
      ensures View() == OnGatherData(old(View()))
      ensures running == ((old(running) && !enabled) || watchdogThreshold == 0 || supported)
      ensures log.sent == old(log).sent + (if enabled && old(running) then 1 else 0)
      ensures log.discarded == old(log).discarded
    {
      CollectData();
      StartTheProfiler();
    }

    method StartProfilerWithoutTiming()
      modifies this`enabled, this`running, this`log
      ensures View() == StartWithoutTiming(old(View()))
      ensures enabled && running == (old(running) || (!old(enabled) && (watchdogThreshold == 0 || supported)))
      ensures log.sent == old(log).sent && log.discarded == old(log).discarded
    {
      if enabled {
        return;
      }
      enabled := true;
      StartTheProfiler();
    }

    method StopProfilerWithoutTiming()
      modifies this`enabled, this`running, this`log
      ensures View() == StopWithoutTiming(old(View()))
      ensures !enabled && running == (old(running) && !old(enabled))
      ensures log == old(log).(sent := old(log).sent + if old(enabled) && old(running) then 1 else 0)
    {
      CollectData();
      if !enabled {
        return;
      }
      enabled := false;
    }

    method EnableOnV8Thread()
      requires Valid()
      modifies this`enabled, this`running, this`timer, this`log
      ensures Valid() && View() == Enable(old(View()))
      ensures enabled && running == (old(running) || (!old(enabled) && (watchdogThreshold == 0 || supported)))
      ensures timer == if old(enabled) then old(timer) else profilingInterval
      ensures log.sent == old(log).sent && log.discarded == old(log).discarded
    {
      if enabled {
        return;
      }
      ghost var s := View();
      enabled := true;
      assert View() == s.(enabled := true);
      StartTheProfiler();
      assert View() == ProfilerStates.StartTheProfiler(s.(enabled := true));
      timer := profilingInterval;
    }

    method DisableOnV8Thread()
      modifies this`enabled, this`running, this`timer, this`log
      ensures View() == Disable(old(View()))
      ensures !enabled && running == (old(running) && !old(enabled))
      ensures timer == if old(enabled) then 0 else old(timer)
      ensures log == old(log).(discarded := old(log).discarded + if old(enabled) && old(running) then 1 else 0)
    {
      if !enabled {
        return;
      }
      enabled := false;
      timer := 0;
      var profile := StopTheProfiler();
      if profile {
        log := log.(discarded := log.discarded + 1);
      }
    }

    method SetEnabled(value: bool)
      requires !closed
      modifies this`asyncEnable, this`asyncDisable, this`asyncStartProfiler, this`asyncStopProfiler
      modifies this`watchdogThreshold
      ensures View() == Ask(old(View()), value)
      ensures asyncEnable == (old(asyncEnable) || (value && !jsonEnabled))
      ensures asyncStartProfiler == (old(asyncStartProfiler) || (value && jsonEnabled))
      ensures asyncDisable == (old(asyncDisable) || (!value && !jsonEnabled))
      ensures asyncStopProfiler == (old(asyncStopProfiler) || (!value && jsonEnabled))
      ensures watchdogThreshold == if value then old(watchdogThreshold) else 0
    {
      if value {
        if jsonEnabled {
          asyncStartProfiler := true;
        } else {
          asyncEnable := true;
        }
      } else {
        if jsonEnabled {
          asyncStopProfiler := true;
        } else {
          asyncDisable := true;
        }
        watchdogThreshold := 0;
      }
    }

    /** `ibmras_monitoring_receiveMessage`. */
    method ReceiveMessage(id: string, message: string, readInt: string -> int)
      requires Valid() && !closed
      modifies this
      ensures Valid()
      ensures View() == (match Request(id, message, readInt)
        case None => old(View())
        case Some(step) => Take(old(View()), step))
    {
      if id == "profiling_node" {
        var (command, rest) := Split(message);
        if rest == "profiling_node_subsystem" {
          SetEnabled(command == "on");
        } else if rest == "profiling_node_v8json" {
          jsonEnabled := command == "on";
          if jsonEnabled {
            profilingInterval := JSON_INTERVAL;
          } else {
            profilingInterval := CSV_INTERVAL;
          }
        } else if rest == "profiling_node_threshold" {
          watchdogThreshold := readInt(command);
        }
      }
    }

    /** index.js joins a command and its subject with a comma. */
    method SendControlCommand(topic: string, command: string, subject: string, readInt: string -> int)
      requires Valid() && !closed && ',' !in command
      modifies this
      ensures Valid() && (topic != "profiling_node" ==> View() == old(View()))
      ensures topic == "profiling_node" && subject == "profiling_node_subsystem" ==>
        View() == (if command == "on"
          then if old(jsonEnabled) then old(View()).(wantStart := true) else old(View()).(wantEnable := true)
          else if old(jsonEnabled) then old(View()).(wantStop := true, threshold := 0)
          else old(View()).(wantDisable := true, threshold := 0))
      ensures topic == "profiling_node" && subject == "profiling_node_v8json" ==>
        View() == old(View()).(json := command == "on")
      ensures topic == "profiling_node" && subject == "profiling_node_threshold" ==>
        View() == old(View()).(threshold := readInt(command))
      ensures !Subject(subject) ==> View() == old(View())
      ensures profilingInterval == if jsonEnabled then 60000 else 5000
    {
      RequestExact(command, subject, readInt);
      DistinctSubjects();
      ReceiveMessage(topic, command + "," + subject, readInt);
    }

    /** One turn of the event loop for the plugin: a wakeup that has been sent, or the timer. */
    method Dispatch(step: Step)
      requires Valid() && Enabled(View(), step)
      requires step.OnEnable? || step.OnDisable? || step.OnStart? || step.OnStop? || step.OnTimer?
      modifies this
      ensures Valid() && View() == Take(old(View()), step)
    {
      match step
      case OnEnable => DispatchEnable();
      case OnDisable => DispatchDisable();
      case OnStart => DispatchStart();
      case OnStop => DispatchStop();
      case OnTimer => OnGatherDataOnV8Thread();
    }

    method DispatchEnable()
      requires Valid() && Enabled(View(), OnEnable)
      modifies this
      ensures Valid() && View() == Take(old(View()), OnEnable)
      ensures enabled && !asyncEnable && timer == if old(enabled) then old(timer) else profilingInterval
    {
      asyncEnable := false;
      EnableOnV8Thread();
    }

    method DispatchDisable()
      requires Valid() && Enabled(View(), OnDisable)
      modifies this
      ensures Valid() && View() == Take(old(View()), OnDisable)
      ensures !enabled && !asyncDisable && timer == if old(enabled) then 0 else old(timer)
    {
      asyncDisable := false;
      DisableOnV8Thread();
    }

    method DispatchStart()
      requires Valid() && Enabled(View(), OnStart)
      modifies this
      ensures Valid() && View() == Take(old(View()), OnStart)
      ensures enabled && !asyncStartProfiler && timer == old(timer)
    {
      asyncStartProfiler := false;
      StartProfilerWithoutTiming();
    }

    method DispatchStop()
      requires Valid() && Enabled(View(), OnStop)
      modifies this
      ensures Valid() && View() == Take(old(View()), OnStop)
      ensures !enabled && !asyncStopProfiler && timer == old(timer)
      ensures old(enabled) && old(running) ==> !running && log.sent == old(log).sent + 1
    {
      asyncStopProfiler := false;
      StopProfilerWithoutTiming();
    }

    /** `ibmras_monitoring_plugin_stop`. */
    method Stop()
      requires Valid() && !closed
      modifies this
      ensures Valid() && View() == Take(old(View()), PluginStop)
      ensures closed && !enabled && !asyncEnable && !asyncDisable && !asyncStartProfiler && !asyncStopProfiler
      ensures old(enabled) ==> timer == 0 && !running
      ensures log == old(log).(discarded := old(log).discarded + if old(enabled) && old(running) then 1 else 0)
      ensures jsonEnabled == old(jsonEnabled) && watchdogThreshold == old(watchdogThreshold)
    {
      if enabled {
        enabled := false;
        timer := 0;
        var profile := StopTheProfiler();
        if profile {
          log := log.(discarded := log.discarded + 1);
        }
      }
      asyncEnable, asyncDisable, asyncStartProfiler, asyncStopProfiler := false, false, false, false;
      closed := true;
    }
  }
}
