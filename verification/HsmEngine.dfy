/** The engine in the form of main/hsm.c: one mutable record, path arrays and loops. Every
    operation computes exactly its counterpart on values. */
module HsmEngine {
  import opened Wrappers
  import opened Hsm

  /** The last step of a path. */
  lemma PathEnd(s: State)
    ensures var p := Path(s);
      && p != [] && p[|p| - 1] == s
      && (if s.parent.None? then |p| == 1 else Path(s.parent.value) == p[..|p| - 1])
  {
  }

  lemma PathIsNotEmpty(s: State)
    ensures 0 < |Path(s)|
  {
  }

  /** From a state on a path to its parent on the same path. */
  lemma OneUp(s: State, all: seq<State>, i: nat)
    requires 0 < i <= |all| && Path(s) == all[..i]
    ensures all[i - 1] == s
    ensures match s.parent case None => i == 1 case Some(up) => 1 < i && Path(up) == all[..i - 1]
  {
    PathEnd(s);
    hide Path;
    assert all[..i][..i - 1] == all[..i - 1];
  }

  class Engine {
    const chart: Chart
    var current: State
    var pending: Option<State>
    var pendingArg: int
    var entryArg: int
    var now: int
    const enteredTs: array<int>
    var leafTicks: nat
    var generation: nat
    // The client: what its callbacks will do, and the history of what happened.
    var tape: seq<Behaviour>
    ghost var log: seq<Entry>

    ghost predicate Valid()
      reads this
    {
      enteredTs.Length == SM_MAX_DEPTH
    }

    ghost function Value(): (m: Machine)
      requires Valid()
      reads this, enteredTs
      ensures |m.entered| == SM_MAX_DEPTH
    {
      Machine(current, pending, pendingArg, entryArg, now, enteredTs[..], leafTicks, generation, tape, log)
    }

    /** `sm_init`. */
    constructor (chart: Chart, initial: State, at: int, tape: seq<Behaviour>)
      ensures Valid() && fresh(enteredTs) && this.chart == chart
      ensures Value() == Init(chart, initial, at, tape)
    {
      this.chart := chart;
      current, pending, pendingArg, entryArg, now := initial, None, 0, 0, at;
      enteredTs := new int[SM_MAX_DEPTH](_ => 0);
      leafTicks, generation, this.tape, log := 0, 0, tape, [];
      new;
      assert enteredTs[..] == [0, 0, 0, 0];
      ghost var goal := Init(chart, initial, at, tape);
      var path := new State[SM_MAX_DEPTH](_ => initial);
      var n := AncestorPath(initial, path);
      EnterStates(path, n, 0);
      var leaf := EnterDefaults(initial, n);
      current := leaf;
      var _ := ApplyIfPending();
    }

    static method CountAncestors(s: State) returns (n: nat)
      ensures n == |Path(s)|
    {
      n := 0;
      var p := Some(s);
      while p.Some?
        invariant |Path(s)| == n + (if p.Some? then |Path(p.value)| else 0)
        decreases p
      {
        n := n + 1;
        p := p.value.parent;
      }
    }

    /** The second pass over the parents, from the end of `path` forwards. */
    static method FillPath(s: State, path: array<State>, n: nat)
      requires n == |Path(s)| <= path.Length
      modifies path
      ensures path[..n] == Path(s)
    {
      hide *;
      ghost var all := Path(s);
      assert all[..n] == all;
      var i := n;
      var p := Some(s);
      PathIsNotEmpty(s);
      while p.Some?
        invariant 0 <= i <= n == |all| <= path.Length
        invariant if p.Some? then 0 < i && Path(p.value) == all[..i] else i == 0
        invariant forall j :: i <= j < n ==> path[j] == all[j]
        decreases i
      {
        OneUp(p.value, all, i);
        i := i - 1;
        path[i] := p.value;
        p := p.value.parent;
      }
    }

    /** Fill `path` with the ancestors of `s`, outermost first; zero for a state too deep. */
    static method AncestorPath(s: State, path: array<State>) returns (n: nat)
      requires path.Length == SM_MAX_DEPTH
      modifies path
      ensures n == |BoundedPath(s)| && path[..n] == BoundedPath(s)
    {
      hide Path;
      n := CountAncestors(s);
      if n > SM_MAX_DEPTH {
        return 0;
      }
      FillPath(s, path, n);
    }

    /** Take the client's next behaviour. */
    method NextCallback() returns (b: Behaviour)
      requires Valid()
      modifies this`tape
      ensures Valid() && b == NextBehaviour(old(Value())) && Value() == Wind(old(Value()))
    {
      if tape == [] {
        return Behaviour([], false);
      }
      b := tape[0];
      tape := tape[1..];
    }

    /** `sm_transition_arg`. */
    method Transition(target: State, arg: int)
      requires Valid()
      modifies this`pending, this`pendingArg
      ensures Valid() && Value() == RequestTransition(old(Value()), target, arg)
    {
      pending := Some(target);
      pendingArg := arg;
    }

    /** An enter or exit handler: only its transition requests take effect. */
    method RunHandler()
      requires Valid()
      modifies this`tape, this`pending, this`pendingArg
      ensures Valid()
      ensures Value() == RunRequests(Wind(old(Value())), NextBehaviour(old(Value())).actions)
    {
      var b := NextCallback();
      ghost var before := Value();
      var i := 0;
      while i < |b.actions|
        invariant 0 <= i <= |b.actions|
        invariant Value() == RunRequests(before, b.actions[..i])
      {
        assert b.actions[..i + 1][..i] == b.actions[..i];
        match b.actions[i] {
          case Request(target, arg) => Transition(target, arg);
          case Send(_) =>
        }
        i := i + 1;
      }
      assert b.actions[..i] == b.actions;
    }

    method EnterState(s: State, depth: nat)
      requires Valid() && depth < SM_MAX_DEPTH
      modifies this, enteredTs
      ensures Valid() && Value() == Hsm.EnterState(old(Value()), s, depth)
    {
      enteredTs[depth] := now;
      log := log + [Entered(s, now)];
      RunHandler();
    }

    method EnterStates(path: array<State>, n: nat, from: nat)
      requires Valid() && path.Length == SM_MAX_DEPTH && from <= n <= path.Length
      requires path as object != enteredTs
      modifies this, enteredTs
      ensures Valid() && Value() == EnterFrom(old(Value()), path[..n], from)
    {
      ghost var goal := EnterFrom(Value(), path[..n], from);
      ghost var states := path[..n];
      var i := from;
      while i < n
        invariant from <= i <= n && Valid() && path[..n] == states
        invariant EnterFrom(Value(), states, i) == goal
      {
        assert path[i] == states[i];
        EnterState(path[i], i);
        i := i + 1;
      }
    }

    method EnterDefaults(target: State, from: nat) returns (leaf: State)
      requires Valid() && from <= SM_MAX_DEPTH
      modifies this, enteredTs
      ensures Valid() && (Value(), leaf) == Descend(chart, old(Value()), target, from)
    {
      ghost var goal := Descend(chart, Value(), target, from);
      leaf := target;
      var depth := from;
      while leaf in chart.initial && depth < SM_MAX_DEPTH
        invariant from <= depth <= SM_MAX_DEPTH && Valid()
        invariant Descend(chart, Value(), leaf, depth) == goal
        decreases SM_MAX_DEPTH - depth
      {
        leaf := chart.initial[leaf];
        EnterState(leaf, depth);
        depth := depth + 1;
      }
    }

    method ExitStates(path: array<State>, n: nat, keep: nat)
      requires Valid() && path.Length == SM_MAX_DEPTH && keep <= n <= path.Length
      modifies this
      ensures Valid() && Value() == ExitDownTo(old(Value()), path[..n], keep)
    {
      ghost var goal := ExitDownTo(Value(), path[..n], keep);
      var i := n;
      while i > keep
        invariant keep <= i <= n && Valid()
        invariant ExitDownTo(Value(), path[..i], keep) == goal
      {
        i := i - 1;
        assert path[..i + 1][..i] == path[..i] && path[..i + 1][i] == path[i];
        log := log + [Exited(path[i])];
        RunHandler();
      }
    }

    /** The depth of the first level that a transition between two paths leaves. */
    static method KeepDepth(srcPath: array<State>, ns: nat, dstPath: array<State>, nd: nat) returns (keep: nat)
      requires ns <= srcPath.Length && nd <= dstPath.Length
      ensures keep == Keep(srcPath[..ns], dstPath[..nd])
      ensures keep <= ns && keep <= nd
    {
      ghost var src, dst := srcPath[..ns], dstPath[..nd];
      keep := 0;
      while keep < ns && keep < nd && srcPath[keep] == dstPath[keep]
        invariant keep <= Common(src, dst)
      {
        assert src[keep] == dst[keep];
        keep := keep + 1;
      }
      assert keep < ns && keep < nd ==> src[keep] != dst[keep];
      if (keep == ns || keep == nd) && keep > 0 {
        keep := keep - 1;
      }
    }

    method DoTransition(target: State)
      requires Valid()
      modifies this, enteredTs
      ensures Valid() && Value() == Hsm.DoTransition(chart, old(Value()), target)
    {
      hide EnterFrom, ExitDownTo, Descend, Keep;
      var srcPath := new State[SM_MAX_DEPTH](_ => target);
      var dstPath := new State[SM_MAX_DEPTH](_ => target);
      var ns := AncestorPath(current, srcPath);
      var nd := AncestorPath(target, dstPath);
      var keep := KeepDepth(srcPath, ns, dstPath, nd);
      ExitStates(srcPath, ns, keep);
      EnterStates(dstPath, nd, keep);
      var leaf := EnterDefaults(target, nd);
      current := leaf;
      leafTicks := 0;
      generation := generation + 1;
    }

    /** Apply what handlers requested, at most eight transitions long; true if one happened. */
    method ApplyIfPending() returns (applied: bool)
      requires Valid()
      modifies this, enteredTs
      ensures Valid() && Value() == Hsm.ApplyIfPending(chart, old(Value()))
      ensures applied <==> old(pending).Some?
    {
      if pending.None? {
        return false;
      }
      ghost var goal := ApplyChain(chart, Value(), CHAIN_LIMIT);
      var count := 0;
      while pending.Some? && count < CHAIN_LIMIT
        invariant 0 <= count <= CHAIN_LIMIT && Valid()
        invariant ApplyChain(chart, Value(), CHAIN_LIMIT - count) == goal
      {
        var target := pending.value;
        pending := None;
        entryArg := pendingArg;
        pendingArg := 0;
        DoTransition(target);
        count := count + 1;
      }
      pending := None;
      return true;
    }

    // -------------------------------------------------------------- dispatch

    /** One callback of a dispatch, with the events it sends and the transitions it requests. */
    method Invoke() returns (handled: bool)
      requires Valid()
      modifies this, enteredTs
      ensures Valid() && Value() == Hsm.Invoke(chart, old(Value()))
      ensures handled == NextBehaviour(old(Value())).handled
      ensures |tape| <= |old(tape)|
      decreases |tape|, 0
    {
      var b := NextCallback();
      if b.actions != [] {
        RunActions(b.actions);
      }
      var _ := ApplyIfPending();
      return b.handled;
    }

    method RunActions(acts: seq<Action>)
      requires Valid()
      modifies this, enteredTs
      ensures Valid() && Value() == Hsm.RunActions(chart, old(Value()), acts)
      decreases |tape|, 2
    {
      ghost var goal := Hsm.RunActions(chart, Value(), acts);
      var i := 0;
      while i < |acts|
        invariant 0 <= i <= |acts| && Valid() && |tape| <= |old(tape)|
        invariant Hsm.RunActions(chart, Value(), acts[i..]) == goal
      {
        assert acts[i..][0] == acts[i] && acts[i..][1..] == acts[i + 1..];
        match acts[i] {
          case Request(target, arg) => Transition(target, arg);
          case Send(at) => SendEvent(at);
        }
        i := i + 1;
      }
      assert acts[i..] == [];
    }

    /** `sm_send_event`. */
    method SendEvent(at: int)
      requires Valid()
      modifies this, enteredTs
      ensures Valid() && Value() == Hsm.SendEvent(chart, old(Value()), at)
      ensures |tape| <= |old(tape)|
      decreases |tape|, 1
    {
      now := at;
      var gen := generation;
      var s := Some(current);
      ghost var goal := EventWalk(chart, Value(), gen, s);
      while s.Some?
        invariant Valid() && |tape| <= |old(tape)|
        invariant EventWalk(chart, Value(), gen, s) == goal
        decreases s
      {
        if OnEvent in s.value.handlers {
          log := log + [Called(s.value, OnEvent)];
          var handled := Invoke();
          if generation != gen || handled {
            return;
          }
        }
        s := s.value.parent;
      }
    }

    /** `sm_tick`; `hook` tells whether a global tick callback is installed. */
    method Tick(at: int, hook: bool)
      requires Valid()
      modifies this, enteredTs
      ensures Valid() && Value() == Perform(chart, old(Value()), Dispatch.Tick(at, hook))
    {
      now := at;
      if hook {
        var _ := Invoke();
      }
      var leaf := current;
      var path := new State[SM_MAX_DEPTH](_ => leaf);
      var n := AncestorPath(leaf, path);
      TickStates(path, n);
    }

    method TickStates(path: array<State>, n: nat)
      requires Valid() && n <= path.Length && path as object != enteredTs
      modifies this, enteredTs
      ensures Valid() && Value() == TickWalk(chart, old(Value()), old(generation), path[..n])
    {
      var gen := generation;
      ghost var states := path[..n];
      ghost var goal := TickWalk(chart, Value(), gen, states);
      var i := 0;
      while i < n
        invariant 0 <= i <= n && Valid() && path[..n] == states
        invariant TickWalk(chart, Value(), gen, states[i..]) == goal
      {
        assert states[i..][0] == path[i] && states[i..][1..] == states[i + 1..];
        if OnTick in path[i].handlers {
          log := log + [Called(path[i], OnTick)];
          var _ := Invoke();
          if generation != gen {
            return;
          }
        }
        i := i + 1;
      }
      assert states[i..] == [];
      leafTicks := (leafTicks + 1) % WORD;
      log := log + [Ticked];
    }

    /** `sm_rx`. */
    method Rx(at: int, hook: bool)
      requires Valid()
      modifies this, enteredTs
      ensures Valid() && Value() == Perform(chart, old(Value()), Dispatch.Rx(at, hook))
    {
      now := at;
      if hook {
        var _ := Invoke();
      }
      var gen := generation;
      var s := Some(current);
      ghost var goal := RxWalk(chart, Value(), gen, s);
      while s.Some?
        invariant Valid() && RxWalk(chart, Value(), gen, s) == goal
        decreases s
      {
        if OnRx in s.value.handlers {
          log := log + [Called(s.value, OnRx)];
          var _ := Invoke();
          if generation != gen {
            return;
          }
        }
        s := s.value.parent;
      }
    }

    /** One filter: its requests wait until the whole dispatch is over. */
    method AskFilter() returns (decided: bool)
      requires Valid()
      modifies this`tape, this`pending, this`pendingArg
      ensures Valid() && (Value(), decided) == Filter(old(Value()))
    {
      decided := if tape == [] then false else tape[0].handled;
      RunHandler();
    }

    /** `sm_fwd`: whether a filter decided about the frame. */
    method Fwd(at: int, hook: bool) returns (decided: bool)
      requires Valid()
      modifies this, enteredTs
      ensures Valid() && Value() == Perform(chart, old(Value()), Dispatch.Fwd(at, hook))
      ensures decided == FwdAsked(old(Value()), at, hook).1
    {
      now := at;
      decided := false;
      if hook {
        decided := AskFilter();
      }
      var s := Some(current);
      ghost var goal := FwdWalk(Value(), s, decided);
      while s.Some? && !decided
        invariant Valid() && FwdWalk(Value(), s, decided) == goal
        decreases s
      {
        if OnFwd in s.value.handlers {
          log := log + [Called(s.value, OnFwd)];
          decided := AskFilter();
        }
        s := s.value.parent;
      }
      assert goal == (Value(), decided);
      var _ := ApplyIfPending();
    }

    // -------------------------------------------------------------- queries

    /** `sm_in`: whether a state is the active leaf or one of its ancestors. */
    method In(state: State) returns (inside: bool)
      ensures inside <==> state in Path(current)
    {
      var s := Some(current);
      while s.Some?
        invariant state in Path(current) <==> s.Some? && state in Path(s.value)
        decreases s
      {
        if s.value == state {
          return true;
        }
        s := s.value.parent;
      }
      return false;
    }
  }
}
