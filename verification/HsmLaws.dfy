/** What every client of the engine can rely on, whatever its callbacks do. */
module HsmLaws {
  import opened Wrappers
  import opened Hsm

  // ---------------------------------------------------------------- paths

  lemma {:induction false} PathOfPrefix(s: State, i: nat)
    requires i < |Path(s)|
    ensures Path(Path(s)[i]) == Path(s)[..i + 1]
  {
    if i < |Path(s)| - 1 {
      PathOfPrefix(s.parent.value, i);
      assert Path(s)[..i + 1] == Path(s.parent.value)[..i + 1];
    } else {
      assert Path(s)[..i + 1] == Path(s);
    }
  }

  lemma ParentInPath(s: State, t: State)
    requires t in Path(s) && t.parent.Some?
    ensures t.parent.value in Path(s)
  {
    var i :| 0 <= i < |Path(s)| && Path(s)[i] == t;
    PathOfPrefix(s, i);
    assert Path(t) == Path(t.parent.value) + [t];
    assert Path(s)[i - 1] == Path(t)[|Path(t)| - 2] == t.parent.value;
  }

  /** Being a proper ancestor is being on the path before its end. */
  lemma {:induction false} AncestorOnPath(a: State, s: State)
    ensures ProperAncestor(a, s) <==> a in Path(s)[..|Path(s)| - 1]
    decreases s
  {
    if s.parent.Some? {
      var p := s.parent.value;
      AncestorOnPath(a, p);
      assert Path(s)[..|Path(s)| - 1] == Path(p);
      assert Path(p) == Path(p)[..|Path(p)| - 1] + [p];
    }
  }

  lemma OnPathAt(a: State, s: State) returns (i: nat)
    requires ProperAncestor(a, s)
    ensures i < |Path(s)| - 1 && Path(s)[i] == a && Path(s)[..i + 1] == Path(a)
  {
    AncestorOnPath(a, s);
    i :| 0 <= i < |Path(s)| - 1 && Path(s)[i] == a;
    PathOfPrefix(s, i);
  }

  lemma KeptIsShared(current: State, target: State, i: nat)
    requires i < |Path(current)| && i < Keep(Path(current), Path(target))
    ensures ProperAncestor(Path(current)[i], current) && ProperAncestor(Path(current)[i], target)
  {
    var src, dst := Path(current), Path(target);
    var k := Common(src, dst);
    assert src[i] == src[..k][i] == dst[..k][i] == dst[i];
    AncestorOnPath(src[i], current);
    AncestorOnPath(src[i], target);
    assert src[..|src| - 1][i] == src[i] && dst[..|dst| - 1][i] == src[i];
  }

  lemma {:induction false} CommonIsLongest(a: seq<State>, b: seq<State>, n: nat)
    requires n <= |a| && n <= |b| && a[..n] == b[..n]
    ensures n <= Common(a, b)
    decreases n
  {
    if n > 0 {
      assert a[0] == a[..n][0] == b[..n][0] == b[0];
      assert a[1..][..n - 1] == a[..n][1..] == b[..n][1..] == b[1..][..n - 1];
      CommonIsLongest(a[1..], b[1..], n - 1);
    }
  }

  lemma SharedIsKept(current: State, target: State, i: nat)
    requires i < |Path(current)|
    requires ProperAncestor(Path(current)[i], current) && ProperAncestor(Path(current)[i], target)
    ensures i < Keep(Path(current), Path(target))
  {
    hide Path, ProperAncestor, Common;
    var src, dst := Path(current), Path(target);
    var a := src[i];
    var n := OnPathAt(a, current);
    var j := OnPathAt(a, target);
    PathOfPrefix(current, i);
    assert |Path(a)| == i + 1 == n + 1 == j + 1;
    assert src[..i + 1] == Path(a) == dst[..i + 1];
    CommonIsLongest(src, dst, i + 1);
  }

  /** Exactly the shared proper ancestors of source and target stay active: in particular a
      transition to the active state itself, or to one of its ancestors, leaves and re-enters it. */
  lemma KeepIsSharedAncestors(current: State, target: State, i: nat)
    requires i < |Path(current)|
    ensures i < Keep(Path(current), Path(target))
       <==> ProperAncestor(Path(current)[i], current) && ProperAncestor(Path(current)[i], target)
  {
    if i < Keep(Path(current), Path(target)) {
      KeptIsShared(current, target, i);
    } else if ProperAncestor(Path(current)[i], current) && ProperAncestor(Path(current)[i], target) {
      SharedIsKept(current, target, i);
    }
  }

  // ---------------------------------------------------------------- one entry of a history

  lemma Extend(log: seq<Entry>, e: Entry)
    ensures (log + [e])[..|log + [e]| - 1] == log && (log + [e])[|log + [e]| - 1] == e
  {
  }

  lemma NextIsOk(c: Chart, m: Machine)
    requires RequestsOk(c, m)
    ensures ActionsOk(c, NextBehaviour(m).actions)
    ensures RequestsOk(c, Wind(m))
  {
  }

  lemma RequestsStayOk(c: Chart, m: Machine, acts: seq<Action>)
    requires RequestsOk(c, m) && ActionsOk(c, acts)
    ensures RequestsOk(c, RunRequests(m, acts))
  {
  }

  lemma PlayEntered(log: seq<Entry>, s: State, at: int, open: seq<State>)
    requires Play(log) == Some(open) && Path(s) == open + [s]
    ensures Play(log + [Entered(s, at)]) == Some(Path(s))
    ensures TicksSinceEntry(log + [Entered(s, at)]) == 0
  {
    Extend(log, Entered(s, at));
    if open != [] {
      assert open == Path(s)[..|Path(s)| - 1] == Path(s.parent.value);
    }
  }

  lemma TableEntered(log: seq<Entry>, s: State, at: int, open: seq<State>, entered: seq<int>)
    requires Path(s) == open + [s] && |open| < |entered|
    requires forall i :: 0 <= i < |open| ==> LastEntry(log, open[i]) == Some(entered[i])
    ensures forall i :: 0 <= i < |Path(s)| ==>
              LastEntry(log + [Entered(s, at)], Path(s)[i]) == Some(entered[|open| := at][i])
  {
    hide Path;
    Extend(log, Entered(s, at));
    forall i | 0 <= i < |open|
      ensures LastEntry(log + [Entered(s, at)], Path(s)[i]) == Some(entered[|open| := at][i])
    {
      PathOfPrefix(s, i);
      assert open[i] == Path(s)[i];
      assert |Path(open[i])| == i + 1 < |Path(s)|;
    }
  }

  lemma EnterIsConsistent(c: Chart, m: Machine, s: State, open: seq<State>)
    requires Consistent(c, m, open) && Path(s) == open + [s] && |open| < SM_MAX_DEPTH
    ensures Consistent(c, EnterState(m, s, |open|), Path(s))
    ensures TicksSinceEntry(EnterState(m, s, |open|).log) == 0
  {
    hide Play, LastEntry, TicksSinceEntry, Path, RequestsOk, Latest;
    var stamped := Record(m.(entered := m.entered[|open| := m.now]), Entered(s, m.now));
    PlayEntered(m.log, s, m.now, open);
    TableEntered(m.log, s, m.now, open, m.entered);
    NextIsOk(c, m);
    WindIsOk(c, m, stamped);
    RequestsStayOk(c, Wind(stamped), NextBehaviour(m).actions);
  }

  lemma WindIsOk(c: Chart, m: Machine, r: Machine)
    requires RequestsOk(c, m) && r.tape == m.tape && r.pending == m.pending
    ensures RequestsOk(c, Wind(r))
  {
  }

  lemma PlayExited(log: seq<Entry>, open: seq<State>)
    requires Play(log) == Some(open) && open != []
    ensures Play(log + [Exited(open[|open| - 1])]) == Some(open[..|open| - 1])
    ensures forall s :: LastEntry(log + [Exited(open[|open| - 1])], s) == LastEntry(log, s)
  {
    Extend(log, Exited(open[|open| - 1]));
  }

  lemma ExitIsConsistent(c: Chart, m: Machine, open: seq<State>)
    requires Consistent(c, m, open) && open != []
    ensures Consistent(c, ExitState(m, open[|open| - 1]), open[..|open| - 1])
  {
    hide Play, LastEntry, RequestsOk, Latest;
    var s := open[|open| - 1];
    PlayExited(m.log, open);
    NextIsOk(c, m);
    WindIsOk(c, m, Record(m, Exited(s)));
    RequestsStayOk(c, Wind(Record(m, Exited(s))), NextBehaviour(m).actions);
    if s.parent.Some? {
      assert open[..|open| - 1] == Path(s.parent.value);
    }
  }

  // ---------------------------------------------------------------- transitions

  lemma {:induction false} ExitsAreConsistent(c: Chart, m: Machine, path: seq<State>, keep: nat)
    requires Consistent(c, m, path) && keep <= |path|
    ensures Consistent(c, ExitDownTo(m, path, keep), path[..keep])
    decreases |path|
  {
    hide Consistent, ExitState;
    if keep < |path| {
      ExitIsConsistent(c, m, path);
      ExitsAreConsistent(c, ExitState(m, path[|path| - 1]), path[..|path| - 1], keep);
      assert path[..|path| - 1][..keep] == path[..keep];
    } else {
      assert path[..keep] == path;
    }
  }

  lemma {:induction false} EntriesAreConsistent(c: Chart, m: Machine, t: State, i: nat)
    requires |Path(t)| <= SM_MAX_DEPTH && i <= |Path(t)|
    requires Consistent(c, m, Path(t)[..i])
    ensures Consistent(c, EnterFrom(m, Path(t), i), Path(t))
    ensures i < |Path(t)| ==> TicksSinceEntry(EnterFrom(m, Path(t), i).log) == 0
    decreases |Path(t)| - i
  {
    TableSize(c, m, Path(t)[..i]);
    hide EnterState, Path, Consistent, TicksSinceEntry;
    var path := Path(t);
    if i < |path| {
      PathOfPrefix(t, i);
      assert path[..i + 1] == path[..i] + [path[i]];
      EnterIsConsistent(c, m, path[i], path[..i]);
      TableSize(c, EnterState(m, path[i], i), path[..i + 1]);
      EntriesAreConsistent(c, EnterState(m, path[i], i), t, i + 1);
    } else {
      assert path[..i] == path;
    }
  }

  /** One level of the descent. */
  lemma DescendIs(c: Chart, m: Machine, leaf: State, depth: nat)
    requires depth <= SM_MAX_DEPTH == |m.entered|
    ensures Descend(c, m, leaf, depth)
         == if leaf in c.initial && depth < SM_MAX_DEPTH
            then Descend(c, EnterState(m, c.initial[leaf], depth), c.initial[leaf], depth + 1)
            else (m, leaf)
    ensures IsLeaf(c, leaf) <==> leaf !in c.initial
  {
    hide EnterState;
  }

  lemma {:induction false} DescentIsConsistent(c: Chart, m: Machine, leaf: State, depth: nat)
    requires WellFormed(c) && leaf in c.states && depth == |Path(leaf)| <= SM_MAX_DEPTH
    requires Consistent(c, m, Path(leaf)) && TicksSinceEntry(m.log) == 0
    ensures var (r, l) := Descend(c, m, leaf, depth);
      l in c.states && IsLeaf(c, l) && Consistent(c, r, Path(l)) && TicksSinceEntry(r.log) == 0
    decreases SM_MAX_DEPTH - depth
  {
    hide *;
    TableSize(c, m, Path(leaf));
    DescendIs(c, m, leaf, depth);
    if leaf in c.initial {
      var child := c.initial[leaf];
      ChildInChart(c, leaf);
      PathOfChild(child, leaf);
      EnterIsConsistent(c, m, child, Path(leaf));
      TableSize(c, EnterState(m, child, depth), Path(child));
      DescentIsConsistent(c, EnterState(m, child, depth), child, depth + 1);
    }
  }

  lemma KeepIsCommon(src: seq<State>, dst: seq<State>)
    requires dst != []
    ensures Keep(src, dst) <= |src| && Keep(src, dst) < |dst|
    ensures src[..Keep(src, dst)] == dst[..Keep(src, dst)]
  {
    var k, keep := Common(src, dst), Keep(src, dst);
    assert src[..keep] == src[..k][..keep] && dst[..keep] == dst[..k][..keep];
  }

  /** A transition ends in a leaf, with the open states again the ancestors of the active one. */
  lemma TransitionKeepsInv(c: Chart, m: Machine, target: State)
    requires WellFormed(c) && target in c.states && m.current in c.states
    requires Consistent(c, m, Path(m.current))
    ensures Inv(c, DoTransition(c, m, target))
  {
    hide Consistent;
    var src, dst := Path(m.current), Path(target);
    var keep := Keep(src, dst);
    KeepIsCommon(src, dst);
    ExitsAreConsistent(c, m, src, keep);
    var outside := ExitDownTo(m, src, keep);
    assert |outside.entered| == SM_MAX_DEPTH by { assert |m.entered| == SM_MAX_DEPTH by { TableSize(c, m, src); } }
    EntriesAreConsistent(c, outside, target, keep);
    DescentIsConsistent(c, EnterFrom(outside, dst, keep), target, |dst|);
    SettledIsInv(c, Descend(c, EnterFrom(outside, dst, keep), target, |dst|).0,
                 Descend(c, EnterFrom(outside, dst, keep), target, |dst|).1, m.generation + 1);
  }

  lemma TableSize(c: Chart, m: Machine, open: seq<State>)
    requires Consistent(c, m, open)
    ensures |m.entered| == SM_MAX_DEPTH
  {
  }

  lemma SettledIsInv(c: Chart, m: Machine, leaf: State, generation: nat)
    requires leaf in c.states && IsLeaf(c, leaf) && Consistent(c, m, Path(leaf))
    requires TicksSinceEntry(m.log) == 0
    ensures Inv(c, m.(current := leaf, leafTicks := 0, generation := generation))
  {
  }

  /** One transition of a chain. */
  lemma ChainIs(c: Chart, m: Machine, n: nat)
    requires |m.entered| == SM_MAX_DEPTH
    ensures var taken := m.(pending := None, entryArg := m.pendingArg, pendingArg := 0);
      ApplyChain(c, m, n)
      == if m.pending.None? || n == 0 then m else ApplyChain(c, DoTransition(c, taken, m.pending.value), n - 1)
  {
    hide DoTransition;
  }

  lemma TakingKeepsConsistent(c: Chart, m: Machine)
    requires Inv(c, m) && m.pending.Some?
    ensures m.pending.value in c.states && m.current in c.states
    ensures Consistent(c, m.(pending := None, entryArg := m.pendingArg, pendingArg := 0), Path(m.current))
  {
  }

  lemma {:induction false} ChainKeepsInv(c: Chart, m: Machine, n: nat)
    requires WellFormed(c) && Inv(c, m)
    ensures Inv(c, ApplyChain(c, m, n))
    decreases n
  {
    hide *;
    TableOf(c, m);
    ChainIs(c, m, n);
    if m.pending.Some? && n > 0 {
      var taken := m.(pending := None, entryArg := m.pendingArg, pendingArg := 0);
      TakingKeepsConsistent(c, m);
      TransitionKeepsInv(c, taken, m.pending.value);
      ChainKeepsInv(c, DoTransition(c, taken, m.pending.value), n - 1);
    }
  }

  /** Applying pending transitions keeps the invariant; when nothing was pending it does nothing. */
  lemma ApplyKeepsInv(c: Chart, m: Machine)
    requires WellFormed(c) && Inv(c, m)
    ensures Inv(c, ApplyIfPending(c, m))
    ensures ApplyIfPending(c, m).generation == m.generation ==> ApplyIfPending(c, m) == m
  {
    ChainKeepsInv(c, m, CHAIN_LIMIT);
    if m.pending.Some? {
      var taken := m.(pending := None, entryArg := m.pendingArg, pendingArg := 0);
      assert ApplyChain(c, m, CHAIN_LIMIT)
          == ApplyChain(c, DoTransition(c, taken, m.pending.value), CHAIN_LIMIT - 1);
    }
  }

  // ---------------------------------------------------------------- dispatches

  /** Without a transition the active state does not change. */
  ghost predicate Steady(m: Machine, r: Machine) {
    r.generation == m.generation ==> r.current == m.current
  }

  lemma {:induction false} ActionsKeepInv(c: Chart, m: Machine, acts: seq<Action>)
    requires WellFormed(c) && Inv(c, m) && ActionsOk(c, acts)
    ensures Inv(c, RunActions(c, m, acts)) && Steady(m, RunActions(c, m, acts))
    decreases |m.tape|, 2, |acts|
  {
    hide Consistent;
    if acts != [] {
      match acts[0]
      case Request(target, arg) =>
        var next := RequestTransition(m, target, arg);
        RequestKeepsInv(c, m, target, arg);
        ActionsKeepInv(c, next, acts[1..]);
      case Send(at) =>
        TableOf(c, m);
        EventKeepsInv(c, m, at);
        ActionsKeepInv(c, SendEvent(c, m, at), acts[1..]);
    }
  }

  lemma TableOf(c: Chart, m: Machine)
    requires Inv(c, m)
    ensures |m.entered| == SM_MAX_DEPTH
  {
  }

  lemma RequestKeepsInv(c: Chart, m: Machine, target: State, arg: int)
    requires Inv(c, m) && target in c.states
    ensures Inv(c, RequestTransition(m, target, arg))
  {
  }

  lemma {:induction false} InvokeKeepsInv(c: Chart, m: Machine)
    requires WellFormed(c) && Inv(c, m)
    ensures Inv(c, Invoke(c, m)) && Steady(m, Invoke(c, m))
    decreases |m.tape|, 0
  {
    hide ApplyIfPending;
    if m.tape == [] {
      ApplyKeepsInv(c, m);
    } else {
      NextIsOk(c, m);
      assert Inv(c, Wind(m));
      ActionsKeepInv(c, Wind(m), m.tape[0].actions);
      ApplyKeepsInv(c, RunActions(c, Wind(m), m.tape[0].actions));
    }
  }

  lemma CallKeepsInv(c: Chart, m: Machine, s: State, callback: Callback)
    requires Inv(c, m) && s in Path(m.current)
    ensures Inv(c, Record(m, Called(s, callback)))
  {
    Extend(m.log, Called(s, callback));
  }

  lemma {:induction false} EventWalkKeepsInv(c: Chart, m: Machine, gen: nat, s: Option<State>)
    requires WellFormed(c) && Inv(c, m) && m.generation == gen
    requires s.Some? ==> s.value in Path(m.current)
    ensures Inv(c, EventWalk(c, m, gen, s)) && Steady(m, EventWalk(c, m, gen, s))
    ensures m.pending.None? ==> EventWalk(c, m, gen, s).pending.None?
    decreases |m.tape|, 1, s
  {
    hide Inv, Invoke;
    if s.Some? {
      if s.value.parent.Some? {
        ParentInPath(m.current, s.value);
      }
      if OnEvent !in s.value.handlers {
        EventWalkKeepsInv(c, m, gen, s.value.parent);
      } else {
        var called := Record(m, Called(s.value, OnEvent));
        CallKeepsInv(c, m, s.value, OnEvent);
        TableOf(c, called);
        InvokeKeepsInv(c, called);
        var done := Invoke(c, called);
        if done.generation == gen && !NextBehaviour(m).handled {
          EventWalkKeepsInv(c, done, gen, s.value.parent);
        }
      }
    }
  }

  lemma {:induction false} EventKeepsInv(c: Chart, m: Machine, at: int)
    requires WellFormed(c) && Inv(c, m)
    ensures Inv(c, SendEvent(c, m, at)) && Steady(m, SendEvent(c, m, at))
    ensures m.pending.None? ==> SendEvent(c, m, at).pending.None?
    decreases |m.tape|, 1
  {
    assert Inv(c, m.(now := at));
    EventWalkKeepsInv(c, m.(now := at), m.generation, Some(m.current));
  }

  lemma {:induction false} TickWalkKeepsInv(c: Chart, m: Machine, gen: nat, path: seq<State>)
    requires WellFormed(c) && Inv(c, m) && m.generation == gen && m.pending.None?
    requires forall s :: s in path ==> s in Path(m.current)
    ensures Inv(c, TickWalk(c, m, gen, path)) && TickWalk(c, m, gen, path).pending.None?
    decreases |path|
  {
    hide Invoke;
    if path == [] {
      Extend(m.log, Ticked);
    } else if OnTick !in path[0].handlers {
      TickWalkKeepsInv(c, m, gen, path[1..]);
    } else {
      var called := Record(m, Called(path[0], OnTick));
      CallKeepsInv(c, m, path[0], OnTick);
      InvokeKeepsInv(c, called);
      if Invoke(c, called).generation == gen {
        TickWalkKeepsInv(c, Invoke(c, called), gen, path[1..]);
      }
    }
  }

  lemma {:induction false} RxWalkKeepsInv(c: Chart, m: Machine, gen: nat, s: Option<State>)
    requires WellFormed(c) && Inv(c, m) && m.generation == gen && m.pending.None?
    requires s.Some? ==> s.value in Path(m.current)
    ensures Inv(c, RxWalk(c, m, gen, s)) && RxWalk(c, m, gen, s).pending.None?
    decreases s
  {
    hide Inv, Invoke;
    if s.Some? {
      if s.value.parent.Some? {
        ParentInPath(m.current, s.value);
      }
      if OnRx !in s.value.handlers {
        RxWalkKeepsInv(c, m, gen, s.value.parent);
      } else {
        var called := Record(m, Called(s.value, OnRx));
        CallKeepsInv(c, m, s.value, OnRx);
        TableOf(c, called);
        InvokeKeepsInv(c, called);
        if Invoke(c, called).generation == gen {
          RxWalkKeepsInv(c, Invoke(c, called), gen, s.value.parent);
        }
      }
    }
  }

  lemma FilterKeepsInv(c: Chart, m: Machine)
    requires Inv(c, m)
    ensures Inv(c, Filter(m).0) && Filter(m).0.current == m.current
  {
    NextIsOk(c, m);
    RequestsStayOk(c, Wind(m), NextBehaviour(m).actions);
  }

  lemma {:induction false} FwdWalkKeepsInv(c: Chart, m: Machine, s: Option<State>, decided: bool)
    requires Inv(c, m) && (s.Some? ==> s.value in Path(m.current))
    ensures Inv(c, FwdWalk(m, s, decided).0)
    decreases s
  {
    hide Inv, Filter;
    if !decided && s.Some? {
      if s.value.parent.Some? {
        ParentInPath(m.current, s.value);
      }
      if OnFwd !in s.value.handlers {
        FwdWalkKeepsInv(c, m, s.value.parent, false);
      } else {
        var called := Record(m, Called(s.value, OnFwd));
        CallKeepsInv(c, m, s.value, OnFwd);
        FilterKeepsInv(c, called);
        FwdWalkKeepsInv(c, Filter(called).0, s.value.parent, Filter(called).1);
      }
    }
  }

  lemma FwdKeepsInv(c: Chart, m: Machine, at: int, hook: bool)
    requires WellFormed(c) && Inv(c, m)
    ensures Inv(c, ApplyIfPending(c, FwdAsked(m, at, hook).0))
  {
    hide Inv, Filter, ApplyIfPending;
    var ready := m.(now := at);
    StampKeepsInv(c, m, at);
    FilterKeepsInv(c, ready);
    var first := if hook then Filter(ready).0 else ready;
    FwdWalkKeepsInv(c, first, Some(first.current), hook && Filter(ready).1);
    TableOf(c, FwdAsked(m, at, hook).0);
    ApplyKeepsInv(c, FwdAsked(m, at, hook).0);
  }

  ghost predicate PureFilters(tape: seq<Behaviour>) {
    forall b :: b in tape ==> Latest(b.actions).None?
  }

  /** Everything but the clock and the histories. */
  ghost predicate SameState(m: Machine, r: Machine) {
    r == m.(now := r.now, tape := r.tape, log := r.log)
  }

  lemma PureFilterIsSilent(m: Machine)
    requires PureFilters(m.tape)
    ensures SameState(m, Filter(m).0) && PureFilters(Filter(m).0.tape)
  {
    assert [] == Behaviour([], false).actions;
  }

  lemma {:induction false} PureWalkIsSilent(m: Machine, s: Option<State>, decided: bool)
    requires PureFilters(m.tape)
    ensures SameState(m, FwdWalk(m, s, decided).0)
    decreases s
  {
    hide Filter, PureFilters;
    if !decided && s.Some? {
      if OnFwd !in s.value.handlers {
        PureWalkIsSilent(m, s.value.parent, false);
      } else {
        var called := Record(m, Called(s.value, OnFwd));
        PureFilterIsSilent(called);
        PureWalkIsSilent(Filter(called).0, s.value.parent, Filter(called).1);
      }
    }
  }

  /** Filters that keep to the contract, requesting nothing, leave the machine as it was: asking
      them moves no state, whatever they decide. */
  lemma PureFiltersChangeNothing(c: Chart, m: Machine, at: int, hook: bool)
    requires |m.entered| == SM_MAX_DEPTH && m.pending.None? && PureFilters(m.tape)
    ensures SameState(m, Perform(c, m, Dispatch.Fwd(at, hook)))
  {
    hide Filter, PureFilters;
    var ready := m.(now := at);
    PureFilterIsSilent(ready);
    var first := if hook then Filter(ready).0 else ready;
    PureWalkIsSilent(first, Some(first.current), hook && Filter(ready).1);
  }

  lemma DispatchKeepsInv(c: Chart, m: Machine, d: Dispatch)
    requires WellFormed(c) && Inv(c, m) && m.pending.None?
    ensures Inv(c, Perform(c, m, d)) && Perform(c, m, d).pending.None?
  {
    hide Invoke, Consistent;
    if d.Event? {
      EventKeepsInv(c, m, d.at);
    } else if d.Fwd? {
      FwdKeepsInv(c, m, d.at, d.hook);
    } else {
      var stamped := m.(now := d.at);
      StampKeepsInv(c, m, d.at);
      TableOf(c, stamped);
      if d.hook {
        InvokeKeepsInv(c, stamped);
      }
      var ready := RunHook(c, stamped, d.hook);
      if d.Tick? {
        TickWalkKeepsInv(c, ready, ready.generation, BoundedPath(ready.current));
      } else {
        RxWalkKeepsInv(c, ready, ready.generation, Some(ready.current));
      }
    }
  }

  lemma StampKeepsInv(c: Chart, m: Machine, at: int)
    requires Inv(c, m)
    ensures Inv(c, m.(now := at))
  {
  }

  lemma InitEstablishesInv(c: Chart, initial: State, at: int, tape: seq<Behaviour>)
    requires WellFormed(c) && initial in c.states
    requires forall b :: b in tape ==> ActionsOk(c, b.actions)
    ensures Inv(c, Init(c, initial, at, tape)) && Init(c, initial, at, tape).pending.None?
  {
    var blank := Machine(initial, None, 0, 0, at, [0, 0, 0, 0], 0, 0, tape, []);
    assert Path(initial)[..0] == [];
    assert Consistent(c, blank, []);
    EntriesAreConsistent(c, blank, initial, 0);
    var inside := EnterFrom(blank, Path(initial), 0);
    DescentIsConsistent(c, inside, initial, |Path(initial)|);
    var (settled, leaf) := Descend(c, inside, initial, |Path(initial)|);
    TicksUntouched(c, blank, initial);
    ApplyKeepsInv(c, settled.(current := leaf));
  }

  lemma {:induction false} EnterKeepsTicks(m: Machine, path: seq<State>, i: nat)
    requires i <= |path| <= |m.entered|
    ensures EnterFrom(m, path, i).leafTicks == m.leafTicks
    decreases |path| - i
  {
    if i < |path| {
      EnterKeepsTicks(EnterState(m, path[i], i), path, i + 1);
    }
  }

  lemma {:induction false} DescendKeepsTicks(c: Chart, m: Machine, leaf: State, depth: nat)
    requires depth <= SM_MAX_DEPTH == |m.entered|
    ensures Descend(c, m, leaf, depth).0.leafTicks == m.leafTicks
    decreases SM_MAX_DEPTH - depth
  {
    if leaf in c.initial && depth < SM_MAX_DEPTH {
      DescendKeepsTicks(c, EnterState(m, c.initial[leaf], depth), c.initial[leaf], depth + 1);
    }
  }

  lemma TicksUntouched(c: Chart, m: Machine, initial: State)
    requires |m.entered| == SM_MAX_DEPTH && |Path(initial)| <= SM_MAX_DEPTH
    ensures Descend(c, EnterFrom(m, Path(initial), 0), initial, |Path(initial)|).0.leafTicks == m.leafTicks
  {
    EnterKeepsTicks(m, Path(initial), 0);
    DescendKeepsTicks(c, EnterFrom(m, Path(initial), 0), initial, |Path(initial)|);
  }

  // ---------------------------------------------------------------- main results

  lemma {:induction false} RunKeepsInv(c: Chart, m: Machine, ds: seq<Dispatch>)
    requires WellFormed(c) && Inv(c, m) && m.pending.None?
    ensures Inv(c, Run(c, m, ds)) && Run(c, m, ds).pending.None?
    decreases |ds|
  {
    hide Inv, Perform;
    if ds != [] {
      TableOf(c, m);
      DispatchKeepsInv(c, m, ds[0]);
      RunKeepsInv(c, Perform(c, m, ds[0]), ds[1..]);
    }
  }

  /** Safety over whole runs. For every chart, every client and every sequence of dispatches, the
      whole history of entries, exits and callbacks is well nested and what it leaves open is
      exactly the active state with its ancestors; the active state is a leaf; no transition is
      left pending; each active state's recorded entry time is that of its last entry; and the
      tick counter is the number of ticks completed since the leaf was entered. */
  lemma EveryRunIsWellNested(c: Chart, initial: State, at: int, tape: seq<Behaviour>, ds: seq<Dispatch>)
    requires WellFormed(c) && initial in c.states
    requires forall b :: b in tape ==> ActionsOk(c, b.actions)
    ensures var m := Run(c, Init(c, initial, at, tape), ds);
      && Play(m.log) == Some(Path(m.current))
      && m.current in c.states && IsLeaf(c, m.current) && m.pending.None?
      && (forall i :: 0 <= i < |Path(m.current)| ==>
            LastEntry(m.log, Path(m.current)[i]) == Some(m.entered[i]))
      && m.leafTicks == TicksSinceEntry(m.log) % 0x1_0000_0000
  {
    InitEstablishesInv(c, initial, at, tape);
    RunKeepsInv(c, Init(c, initial, at, tape), ds);
  }

  // ---------------------------------------------------------------- what one transition does

  function Exits(path: seq<State>, keep: nat): seq<Entry>
    decreases |path|
  {
    if |path| <= keep then [] else [Exited(path[|path| - 1])] + Exits(path[..|path| - 1], keep)
  }

  function Entries(path: seq<State>, from: nat, at: int): seq<Entry>
    requires from <= |path|
    decreases |path| - from
  {
    if from == |path| then [] else [Entered(path[from], at)] + Entries(path, from + 1, at)
  }

  /** The leaf reached by following default children. */
  function DefaultLeaf(c: Chart, s: State, depth: nat): State
    requires depth <= SM_MAX_DEPTH
    decreases SM_MAX_DEPTH - depth
  {
    if s in c.initial && depth < SM_MAX_DEPTH then DefaultLeaf(c, c.initial[s], depth + 1) else s
  }

  lemma {:induction false} ExitLog(m: Machine, path: seq<State>, keep: nat)
    ensures ExitDownTo(m, path, keep).log == m.log + Exits(path, keep)
    decreases |path|
  {
    if keep < |path| {
      ExitLog(ExitState(m, path[|path| - 1]), path[..|path| - 1], keep);
    }
  }

  lemma {:induction false} EntryLog(m: Machine, path: seq<State>, i: nat)
    requires i <= |path| <= |m.entered|
    ensures EnterFrom(m, path, i).log == m.log + Entries(path, i, m.now)
    decreases |path| - i
  {
    if i < |path| {
      EntryLog(EnterState(m, path[i], i), path, i + 1);
    }
  }

  lemma PrefixOfPrefix(a: seq<State>, b: seq<State>, x: State)
    requires |b| < |a| && a[..|b| + 1] == b + [x]
    ensures a[..|b|] == b && a[|b|] == x
  {
    assert a[..|b|] == a[..|b| + 1][..|b|];
    assert a[|b|] == a[..|b| + 1][|b|];
  }

  lemma {:induction false} LeafExtends(c: Chart, s: State, depth: nat)
    requires WellFormed(c) && s in c.states && depth == |Path(s)| <= SM_MAX_DEPTH
    ensures depth <= |Path(DefaultLeaf(c, s, depth))| <= SM_MAX_DEPTH
    ensures Path(DefaultLeaf(c, s, depth))[..depth] == Path(s)
    decreases SM_MAX_DEPTH - depth
  {
    if s in c.initial {
      var child := c.initial[s];
      assert Path(child) == Path(s) + [child];
      LeafExtends(c, child, depth + 1);
      PrefixOfPrefix(Path(DefaultLeaf(c, child, depth + 1)), Path(s), child);
    }
  }

  lemma {:induction false} DescentLog(c: Chart, m: Machine, s: State, depth: nat)
    requires WellFormed(c) && s in c.states && depth == |Path(s)| <= SM_MAX_DEPTH == |m.entered|
    ensures var (r, l) := Descend(c, m, s, depth);
      && l == DefaultLeaf(c, s, depth)
      && depth <= |Path(l)|
      && r.log == m.log + Entries(Path(l), depth, m.now)
    decreases SM_MAX_DEPTH - depth
  {
    hide Path, EnterState, Entries, WellFormed;
    LeafExtends(c, s, depth);
    if s in c.initial {
      var child := c.initial[s];
      assert child in c.states && child.parent == Some(s) && |Path(child)| <= SM_MAX_DEPTH by { ChildInChart(c, s); }
      PathOfChild(child, s);
      var next := EnterState(m, child, depth);
      EnteredLog(m, child, depth);
      DescentLog(c, next, child, depth + 1);
      LeafExtends(c, child, depth + 1);
      var l := DefaultLeaf(c, child, depth + 1);
      PrefixOfPrefix(Path(l), Path(s), child);
      FirstEntry(Path(l), depth, m.now);
    } else {
      NoEntries(Path(s), m.now);
    }
  }

  lemma ChildInChart(c: Chart, s: State)
    requires WellFormed(c) && s in c.initial
    ensures c.initial[s] in c.states && c.initial[s].parent == Some(s) && |Path(c.initial[s])| <= SM_MAX_DEPTH
  {
  }

  lemma EnteredLog(m: Machine, s: State, depth: nat)
    requires depth < |m.entered|
    ensures var r := EnterState(m, s, depth);
      r.log == m.log + [Entered(s, m.now)] && r.now == m.now && |r.entered| == |m.entered|
  {
  }

  lemma FirstEntry(path: seq<State>, from: nat, at: int)
    requires from < |path|
    ensures Entries(path, from, at) == [Entered(path[from], at)] + Entries(path, from + 1, at)
  {
  }

  lemma NoEntries(path: seq<State>, at: int)
    ensures Entries(path, |path|, at) == []
  {
  }

  lemma PathOfChild(child: State, s: State)
    requires child.parent == Some(s)
    ensures Path(child) == Path(s) + [child]
  {
  }

  lemma {:induction false} EntriesSplit(path: seq<State>, prefix: seq<State>, from: nat, at: int)
    requires from <= |prefix| <= |path| && path[..|prefix|] == prefix
    ensures Entries(path, from, at) == Entries(prefix, from, at) + Entries(path, |prefix|, at)
    decreases |prefix| - from
  {
    if from < |prefix| {
      EntriesSplit(path, prefix, from + 1, at);
      assert path[from] == path[..|prefix|][from];
    }
  }

  /** A transition leaves the source innermost first up to the deepest shared proper ancestor,
      then enters outermost first down to the default leaf of the target, all stamped with the
      dispatch's clock reading, and does nothing else to the history. */
  lemma TransitionOrder(c: Chart, m: Machine, target: State)
    requires WellFormed(c) && target in c.states && m.current in c.states && |m.entered| == SM_MAX_DEPTH
    ensures var r := DoTransition(c, m, target);
      var keep := Keep(Path(m.current), Path(target));
      && r.current == DefaultLeaf(c, target, |Path(target)|)
      && keep < |Path(target)| <= |Path(r.current)|
      && Path(r.current)[..|Path(target)|] == Path(target)
      && r.log == m.log + Exits(Path(m.current), keep) + Entries(Path(r.current), keep, m.now)
  {
    hide EnterState, ExitState, Keep;
    var src, dst := Path(m.current), Path(target);
    var keep := Keep(src, dst);
    KeepIsCommon(src, dst);
    var outside := ExitDownTo(m, src, keep);
    ExitLog(m, src, keep);
    EntryLog(outside, dst, keep);
    DescentLog(c, EnterFrom(outside, dst, keep), target, |dst|);
    LeafExtends(c, target, |dst|);
    EntriesSplit(Path(DefaultLeaf(c, target, |dst|)), dst, keep, m.now);
  }

  lemma {:induction false} DropsOnlyAtTheEnd(c: Chart, m: Machine, n: nat)
    requires |m.entered| == SM_MAX_DEPTH
    ensures ApplyChain(c, m, n).pending.Some? ==> ApplyChain(c, m, n).generation == m.generation + n
    decreases n
  {
    hide DoTransition;
    if m.pending.Some? && n > 0 {
      var taken := m.(pending := None, entryArg := m.pendingArg, pendingArg := 0);
      DropsOnlyAtTheEnd(c, DoTransition(c, taken, m.pending.value), n - 1);
    }
  }

  /** Transitions are applied as long as handlers request more, up to eight; a request is dropped
      only after exactly eight. */
  lemma DropsOnlyAfterEight(c: Chart, m: Machine)
    requires |m.entered| == SM_MAX_DEPTH
    ensures ApplyIfPending(c, m) == ApplyChain(c, m, 8).(pending := None)
    ensures ApplyIfPending(c, m) != ApplyChain(c, m, 8) ==> ApplyIfPending(c, m).generation == m.generation + 8
  {
    DropsOnlyAtTheEnd(c, m, 8);
  }

  // ---------------------------------------------------------------- queries

  function TimeIn(m: Machine, s: State): int
    requires |m.entered| == SM_MAX_DEPTH
  {
    TimeOnPath(m, BoundedPath(m.current), s, 0)
  }

  /** The scan of `sm_time_in_us` from depth `i` inwards. */
  function TimeOnPath(m: Machine, path: seq<State>, s: State, i: nat): int
    requires i <= |path| <= |m.entered|
    decreases |path| - i
  {
    if i == |path| then 0 else if path[i] == s then m.now - m.entered[i] else TimeOnPath(m, path, s, i + 1)
  }

  /** The time spent in an active state counts from its last entry; an inactive one counts zero. */
  lemma TimeInIsSinceLastEntry(c: Chart, m: Machine, s: State)
    requires WellFormed(c) && Inv(c, m)
    ensures s in Path(m.current) ==> LastEntry(m.log, s) == Some(m.now - TimeIn(m, s))
    ensures s !in Path(m.current) ==> TimeIn(m, s) == 0
  {
    hide Path, Play, LastEntry, TicksSinceEntry;
    assert Path(m.current)[0..] == Path(m.current);
    TimeOnPathFinds(c, m, s, 0);
  }

  lemma {:induction false} TimeOnPathFinds(c: Chart, m: Machine, s: State, i: nat)
    requires WellFormed(c) && Inv(c, m) && i <= |Path(m.current)|
    ensures s in Path(m.current)[i..] ==>
              LastEntry(m.log, s) == Some(m.now - TimeOnPath(m, Path(m.current), s, i))
    ensures s !in Path(m.current)[i..] ==> TimeOnPath(m, Path(m.current), s, i) == 0
    decreases |Path(m.current)| - i
  {
    hide Path, Play, LastEntry, TicksSinceEntry;
    var path := Path(m.current);
    if i < |path| {
      assert path[i..] == [path[i]] + path[i + 1..];
      TimeOnPathFinds(c, m, s, i + 1);
    }
  }
}
