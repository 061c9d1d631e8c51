/** State machines: a system says which state a step leads to, if the step is possible at all. */
module Transitions {
  import opened Options

  ghost predicate Runs<S, T>(system: (S, T) -> Option<S>, s: S, steps: seq<T>)
    decreases |steps|
  {
    steps != [] ==> system(s, steps[0]).Some? && Runs(system, system(s, steps[0]).value, steps[1..])
  }

  ghost function After<S, T>(system: (S, T) -> Option<S>, s: S, steps: seq<T>): (t: S)
    requires Runs(system, s, steps)
    decreases |steps|
  {
    if steps == [] then s else After(system, system(s, steps[0]).value, steps[1..])
  }

  lemma {:induction false} RunsAppend<S, T>(system: (S, T) -> Option<S>, s: S, a: seq<T>, b: seq<T>)
    requires Runs(system, s, a) && Runs(system, After(system, s, a), b)
    ensures Runs(system, s, a + b) && After(system, s, a + b) == After(system, After(system, s, a), b)
    decreases |a|
  {
    if a == [] {
      assert a + b == b;
    } else {
      assert (a + b)[1..] == a[1..] + b;
      RunsAppend(system, system(s, a[0]).value, a[1..], b);
    }
  }

  /** A run that goes on for one more step. */
  lemma {:induction false} RunsOneMore<S, T>(system: (S, T) -> Option<S>, s: S, steps: seq<T>, step: T)
    requires Runs(system, s, steps) && system(After(system, s, steps), step).Some?
    ensures Runs(system, s, steps + [step])
    ensures After(system, s, steps + [step]) == system(After(system, s, steps), step).value
  {
    assert [step][1..] == [];
    RunsAppend(system, s, steps, [step]);
  }

  ghost predicate All<T>(steps: seq<T>, only: T -> bool) {
    forall i :: 0 <= i < |steps| ==> only(steps[i])
  }

  /** No step of the kind leaves these states. */
  ghost predicate Closed<S(!new), T(!new)>(system: (S, T) -> Option<S>, only: T -> bool, states: S -> bool) {
    forall s, step :: states(s) && only(step) && system(s, step).Some? ==> states(system(s, step).value)
  }

  /** What every step keeps, every run keeps. */
  lemma {:induction false} RunsKeep<S(!new), T(!new)>(system: (S, T) -> Option<S>, only: T -> bool,
      states: S -> bool, s: S, steps: seq<T>)
    requires Closed(system, only, states) && states(s) && Runs(system, s, steps) && All(steps, only)
    ensures states(After(system, s, steps))
    decreases |steps|
  {
    if steps != [] {
      RunsKeep(system, only, states, system(s, steps[0]).value, steps[1..]);
    }
  }

  /** Every step of the kind uses up part of the measure. */
  ghost predicate Decreases<S(!new), T(!new)>(system: (S, T) -> Option<S>, only: T -> bool, measure: S -> nat) {
    forall s, step :: only(step) && system(s, step).Some? ==> measure(system(s, step).value) < measure(s)
  }

  /** So that there are only so many of them. */
  lemma {:induction false} RunsEnd<S(!new), T(!new)>(system: (S, T) -> Option<S>, only: T -> bool,
      measure: S -> nat, s: S, steps: seq<T>)
    requires Decreases(system, only, measure) && Runs(system, s, steps) && All(steps, only)
    ensures measure(After(system, s, steps)) + |steps| <= measure(s)
    decreases |steps|
  {
    if steps != [] {
      RunsEnd(system, only, measure, system(s, steps[0]).value, steps[1..]);
    }
  }

  /** Some run of steps of the kind leads from `s` to `t`. */
  ghost predicate Reaches<S, T(!new)>(system: (S, T) -> Option<S>, only: T -> bool, s: S, t: S) {
    exists steps :: Runs(system, s, steps) && All(steps, only) && After(system, s, steps) == t
  }

  lemma {:induction false} ReachesClosed<S(!new), T(!new)>(system: (S, T) -> Option<S>, only: T -> bool, s: S)
    ensures Closed(system, only, t => Reaches(system, only, s, t)) && Reaches(system, only, s, s)
  {
    assert Runs(system, s, []) && All([], only) && After(system, s, []) == s;
    forall t, step | Reaches(system, only, s, t) && only(step) && system(t, step).Some?
      ensures Reaches(system, only, s, system(t, step).value)
    {
      var steps :| Runs(system, s, steps) && All(steps, only) && After(system, s, steps) == t;
      RunsOneMore(system, s, steps, step);
      assert All(steps + [step], only);
    }
  }

  /** What holds of a closed set that holds `s` holds of everything reached from `s`. */
  lemma {:induction false} ReachesWithin<S(!new), T(!new)>(system: (S, T) -> Option<S>, only: T -> bool,
      states: S -> bool, s: S, t: S)
    requires Closed(system, only, states) && states(s) && Reaches(system, only, s, t)
    ensures states(t)
  {
    var steps :| Runs(system, s, steps) && All(steps, only) && After(system, s, steps) == t;
    RunsKeep(system, only, states, s, steps);
  }

  /** One step within a closed set. */
  lemma {:induction false} Next<S(!new), T(!new)>(system: (S, T) -> Option<S>, only: T -> bool, states: S -> bool,
      s: S, step: T) returns (t: S)
    requires Closed(system, only, states) && states(s) && only(step) && system(s, step).Some?
    ensures t == system(s, step).value && states(t)
  {
    t := system(s, step).value;
  }
}
