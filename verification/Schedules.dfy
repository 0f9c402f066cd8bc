/** Runs of interleaved systems: a system is a step function that is None where a step cannot be
    taken, a schedule any sequence of steps, and impossible steps are skipped. */
module Schedules {
  import opened Wrappers

  function Run<S, A>(step: (S, A) -> Option<S>, s: S, schedule: seq<A>): S
    decreases |schedule|
  {
    if schedule == [] then s else
      var next := step(s, schedule[0]);
      Run(step, if next.Some? then next.value else s, schedule[1..])
  }

  /** What every step keeps, every run keeps. */
  lemma {:induction false} RunKeeps<S(!new), A(!new)>(
      step: (S, A) -> Option<S>, inv: S -> bool, s: S, schedule: seq<A>)
    requires inv(s) && forall t, a :: inv(t) && step(t, a).Some? ==> inv(step(t, a).value)
    ensures inv(Run(step, s, schedule))
    decreases |schedule|
  {
    if schedule != [] {
      var next := step(s, schedule[0]);
      RunKeeps(step, inv, if next.Some? then next.value else s, schedule[1..]);
    }
  }

  lemma {:induction false} RunAppend<S, A>(step: (S, A) -> Option<S>, s: S, first: seq<A>, second: seq<A>)
    ensures Run(step, s, first + second) == Run(step, Run(step, s, first), second)
    decreases |first|
  {
    if first == [] {
      assert first + second == second;
    } else {
      var next := step(s, first[0]);
      assert (first + second)[0] == first[0] && (first + second)[1..] == first[1..] + second;
      RunAppend(step, if next.Some? then next.value else s, first[1..], second);
    }
  }

  /** Extend a schedule from `s` to `t` by one possible step. */
  lemma Then<S, A>(step: (S, A) -> Option<S>, s: S, schedule: seq<A>, t: S, a: A) returns (longer: seq<A>)
    requires Run(step, s, schedule) == t && step(t, a).Some?
    ensures Run(step, s, longer) == step(t, a).value
  {
    longer := schedule + [a];
    RunAppend(step, s, schedule, [a]);
    assert [a][1..] == [];
    assert Run(step, step(t, a).value, []) == step(t, a).value;
  }

  lemma Start<S, A>(step: (S, A) -> Option<S>, s: S) returns (schedule: seq<A>)
    ensures Run(step, s, schedule) == s
  {
    schedule := [];
  }
}
