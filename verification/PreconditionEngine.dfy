/** The preconditioning machine run by the engine: for every input, one dispatch of the engine on the
    machine's state table, with the requests its handlers make as the tape, is one step of module
    Precondition. */
module PreconditionEngine {
  import opened Wrappers
  import opened Precondition
  import opened PreconditionLaws
  import opened PreconditionChart
  import Hsm
  import HsmLaws

  // ---------------------------------------------------------------- what the two have in common

  function Lift(o: Option<St>): Option<Hsm.State> {
    match o
    case None => None
    case Some(s) => Some(Node(s))
  }

  /** The engine's record, apart from the active state and its ticks. */
  predicate Tied(p: P, m: Hsm.Machine) {
    && |m.entered| == Hsm.SM_MAX_DEPTH
    && m.pending == Lift(p.pending) && m.pendingArg == p.pendingArg && m.entryArg == p.entryArg
    && m.now == p.now && m.entered[0] == p.outerSince && m.entered[1] == p.innerSince
  }

  predicate Agree(p: P, m: Hsm.Machine) {
    Tied(p, m) && m.current == Node(p.leaf) && m.leafTicks == p.leafTicks % Hsm.WORD
  }

  /** What a handler that turned `p` into `q` asked of the engine. */
  function AskedFor(p: P, q: P): seq<Hsm.Action> {
    if q.pending.Some? && (q.pending != p.pending || q.pendingArg != p.pendingArg)
    then [Hsm.Request(Node(q.pending.value), q.pendingArg)] else []
  }

  const QUIET: Hsm.Behaviour := Hsm.Behaviour([], false)

  lemma RequestRuns(p: P, q: P, m: Hsm.Machine)
    requires m.pending == Lift(p.pending) && m.pendingArg == p.pendingArg
    requires q.pending.Some? || (q.pending == p.pending && q.pendingArg == p.pendingArg)
    ensures var r := Hsm.RunRequests(m, AskedFor(p, q));
      r == m.(pending := Lift(q.pending), pendingArg := q.pendingArg)
  {
    hide Node;
    if AskedFor(p, q) != [] {
      assert Hsm.Latest(AskedFor(p, q)) == Some(AskedFor(p, q)[0]);
    }
  }

  // ---------------------------------------------------------------- entering and leaving

  lemma EntersAsk(p: P, s: St)
    ensures var q := Enter(p, s);
      && (q.pending.Some? || (q.pending == p.pending && q.pendingArg == p.pendingArg))
      && q.entryArg == p.entryArg && q.now == p.now && q.leaf == p.leaf && q.leafTicks == p.leafTicks
      && q.outerSince == (if Parent(s).None? then p.now else p.outerSince)
      && q.innerSince == (if Parent(s).None? then p.innerSince else p.now)
  {
  }

  function Depth(s: St): nat {
    if Parent(s).None? then 0 else 1
  }

  function EnterBehaviour(p: P, s: St): Hsm.Behaviour {
    Hsm.Behaviour(AskedFor(p, Enter(p, s)), false)
  }

  lemma EnterRuns(p: P, m: Hsm.Machine, s: St, rest: seq<Hsm.Behaviour>)
    requires Tied(p, m) && m.tape == [EnterBehaviour(p, s)] + rest
    ensures var r := Hsm.EnterState(m, Node(s), Depth(s));
      Tied(Enter(p, s), r) && r.tape == rest && r.current == m.current && r.generation == m.generation
  {
    hide Node, Enter;
    EntersAsk(p, s);
    assert m.tape[1..] == rest;
    var stamped := Hsm.Wind(Hsm.Record(m.(entered := m.entered[Depth(s) := m.now]), Hsm.Entered(Node(s), m.now)));
    RequestRuns(p, Enter(p, s), stamped);
  }

  /** An exit handler asks for nothing. */
  lemma ExitRuns(m: Hsm.Machine, s: Hsm.State, rest: seq<Hsm.Behaviour>)
    requires m.tape == [QUIET] + rest
    ensures Hsm.ExitState(m, s) == m.(tape := rest, log := m.log + [Hsm.Exited(s)])
  {
    assert m.tape[1..] == rest;
  }

  function EnterTape(p: P, ss: seq<St>): seq<Hsm.Behaviour>
    decreases |ss|
  {
    if ss == [] then [] else [EnterBehaviour(p, ss[0])] + EnterTape(Enter(p, ss[0]), ss[1..])
  }

  function ExitTape(n: nat): seq<Hsm.Behaviour> {
    if n == 0 then [] else [QUIET] + ExitTape(n - 1)
  }

  lemma {:induction false} ExitsRun(m: Hsm.Machine, path: seq<Hsm.State>, keep: nat, rest: seq<Hsm.Behaviour>)
    requires keep <= |path| && m.tape == ExitTape(|path| - keep) + rest
    ensures var r := Hsm.ExitDownTo(m, path, keep); r == m.(tape := rest, log := r.log)
    decreases |path|
  {
    if keep < |path| {
      var more := ExitTape(|path| - keep - 1) + rest;
      assert m.tape == [QUIET] + more;
      ExitRuns(m, path[|path| - 1], more);
      ExitsRun(Hsm.ExitState(m, path[|path| - 1]), path[..|path| - 1], keep, rest);
    } else {
      assert m.tape == rest;
    }
  }

  // ---------------------------------------------------------------- one transition

  function TransitionTape(p: P, t: St): seq<Hsm.Behaviour> {
    ExitTape(|ExitList(p.leaf, t)|) + EnterTape(ExitAll(p, ExitList(p.leaf, t)), EnterList(p.leaf, t))
  }

  lemma {:induction false} ExitsKeepTies(p: P, ss: seq<St>)
    ensures ExitAll(p, ss) == p.(latch := ExitAll(p, ss).latch)
    decreases |ss|
  {
    if ss != [] {
      ExitsKeepTies(Exit(p, ss[0]), ss[1..]);
    }
  }

  lemma TableKept(m: Hsm.Machine, s: Hsm.State, depth: nat)
    requires depth < |m.entered|
    ensures |Hsm.EnterState(m, s, depth).entered| == |m.entered|
    ensures Hsm.EnterState(m, s, depth).leafTicks == m.leafTicks
  {
  }

  /** The tape for one state entered, and for two. */
  lemma EnterTapes(p: P, s: St, d: St)
    ensures EnterAll(p, [s]) == Enter(p, s) && EnterTape(p, [s]) == [EnterBehaviour(p, s)]
    ensures EnterAll(p, [s, d]) == Enter(Enter(p, s), d)
    ensures EnterTape(p, [s, d]) == [EnterBehaviour(p, s), EnterBehaviour(Enter(p, s), d)]
  {
    hide Enter, EnterBehaviour;
    EnterPair(p, s, d);
    EnterPair(p, s, s);
    assert [s][1..] == [] && [s, d][1..] == [d] && [d][1..] == [];
    assert EnterTape(Enter(p, s), [d]) == [EnterBehaviour(Enter(p, s), d)];
  }

  /** Entering a state without children, its parent being active already or absent. */
  lemma EnterOneRuns(p: P, m: Hsm.Machine, s: St, rest: seq<Hsm.Behaviour>)
    requires Tied(p, m) && m.tape == EnterTape(p, [s]) + rest && DefaultChild(s).None?
    ensures |Hsm.Path(Node(s))| == Depth(s) + 1 <= |m.entered|
    ensures var path := Hsm.Path(Node(s));
      var (r, leaf) := Hsm.Descend(TABLE, Hsm.EnterFrom(m, path, Depth(s)), Node(s), |path|);
      && leaf == Node(s) && r.tape == rest && r.generation == m.generation && r.leafTicks == m.leafTicks
      && Tied(EnterAll(p, [s]), r)
  {
    hide Node, Enter, Hsm.EnterState, EnterBehaviour, EnterTape, EnterAll;
    var path := Hsm.Path(Node(s));
    PathOfNode(s);
    NodeInTable(s);
    EnterTapes(p, s, s);
    EnterRuns(p, m, s, rest);
    TableKept(m, Node(s), Depth(s));
    var r := Hsm.EnterState(m, Node(s), Depth(s));
    assert Hsm.EnterFrom(r, path, |path|) == r;
  }

  /** Entering a composite and one of its children, the default one or the target itself. */
  lemma EnterTwoRuns(p: P, m: Hsm.Machine, s: St, d: St, rest: seq<Hsm.Behaviour>)
    requires Tied(p, m) && m.tape == EnterTape(p, [s, d]) + rest && Parent(d) == Some(s)
    ensures |Hsm.EnterState(m, Node(s), 0).entered| == |m.entered|
    ensures var inner := Hsm.EnterState(Hsm.EnterState(m, Node(s), 0), Node(d), 1);
      && inner.tape == rest && inner.generation == m.generation && Tied(EnterAll(p, [s, d]), inner)
      && |inner.entered| == |m.entered|
  {
    hide Node, Enter, Hsm.EnterState, EnterBehaviour, EnterTape, EnterAll;
    EnterTapes(p, s, d);
    var more := [EnterBehaviour(Enter(p, s), d)] + rest;
    assert m.tape == [EnterBehaviour(p, s)] + more;
    TableKept(m, Node(s), 0);
    assert Parent(s).None? && Depth(s) == 0 && Depth(d) == 1;
    hide Tied;
    EnterRuns(p, m, s, more);
    TableKept(Hsm.EnterState(m, Node(s), 0), Node(d), 1);
    EnterRuns(Enter(p, s), Hsm.EnterState(m, Node(s), 0), d, rest);
  }

  /** The target is a child of a composite that is entered first. */
  lemma ChildInside(p: P, m: Hsm.Machine, t: St, rest: seq<Hsm.Behaviour>)
    requires Tied(p, m) && Parent(t).Some? && m.tape == EnterTape(p, [Parent(t).value, t]) + rest
    ensures |Hsm.Path(Node(t))| == 2 <= |m.entered|
    ensures var dst := Hsm.Path(Node(t));
      var (r, l) := Hsm.Descend(TABLE, Hsm.EnterFrom(m, dst, 0), Node(t), |dst|);
      && l == Node(t) && r.tape == rest && r.generation == m.generation
      && Tied(EnterAll(p, [Parent(t).value, t]), r)
  {
    hide Node, Enter, Hsm.EnterState, EnterTape, EnterAll;
    var up, dst := Parent(t).value, Hsm.Path(Node(t));
    PathOfNode(t);
    NodeInTable(t);
    EnterTwoRuns(p, m, up, t, rest);
    hide Tied;
    var outer := Hsm.EnterState(m, Node(up), 0);
    var inner := Hsm.EnterState(outer, Node(t), 1);
    assert Hsm.EnterFrom(inner, dst, 2) == inner;
    assert Hsm.EnterFrom(outer, dst, 1) == inner;
    assert Hsm.EnterFrom(m, dst, 0) == inner;
  }

  /** The target is a composite, whose default child is entered after it. */
  lemma CompositeInside(p: P, m: Hsm.Machine, t: St, rest: seq<Hsm.Behaviour>)
    requires Tied(p, m) && DefaultChild(t).Some? && m.tape == EnterTape(p, [t, DefaultChild(t).value]) + rest
    ensures |Hsm.Path(Node(t))| == 1 <= |m.entered|
    ensures var dst := Hsm.Path(Node(t));
      var (r, l) := Hsm.Descend(TABLE, Hsm.EnterFrom(m, dst, 0), Node(t), |dst|);
      && l == Node(DefaultChild(t).value) && r.tape == rest && r.generation == m.generation
      && Tied(EnterAll(p, [t, DefaultChild(t).value]), r)
  {
    hide Node, Enter, Hsm.EnterState, EnterTape, EnterAll;
    var d, dst := DefaultChild(t).value, Hsm.Path(Node(t));
    PathOfNode(t);
    NodeInTable(t);
    NodeInTable(d);
    EnterTwoRuns(p, m, t, d, rest);
    hide Tied;
    var outer := Hsm.EnterState(m, Node(t), 0);
    var inner := Hsm.EnterState(outer, Node(d), 1);
    assert Hsm.EnterFrom(outer, dst, 1) == outer;
    assert Hsm.EnterFrom(m, dst, 0) == outer;
    assert Hsm.Descend(TABLE, inner, Node(d), 2) == (inner, Node(d));
  }

  lemma InsideRuns(p: P, m: Hsm.Machine, leaf: St, t: St, rest: seq<Hsm.Behaviour>)
    requires Tied(p, m) && DefaultChild(leaf).None?
    requires m.tape == EnterTape(p, EnterList(leaf, t)) + rest
    ensures var dst := Hsm.Path(Node(t));
      |dst| <= |m.entered| == Hsm.SM_MAX_DEPTH && KeptOf(leaf, t) <= |dst|
    ensures var dst := Hsm.Path(Node(t));
      var (r, l) := Hsm.Descend(TABLE, Hsm.EnterFrom(m, dst, KeptOf(leaf, t)), Node(t), |dst|);
      && l == Node(Landing(t)) && r.tape == rest && r.generation == m.generation
      && Tied(EnterAll(p, EnterList(leaf, t)), r)
  {
    hide Node, Enter, EnterTape, EnterAll, Hsm.Path, Hsm.EnterFrom, Hsm.Descend;
    if DefaultChild(t).Some? {
      assert EnterList(leaf, t) == [t, DefaultChild(t).value];
      CompositeInside(p, m, t, rest);
    } else if Parent(t).Some? && !Sibling(leaf, t) {
      assert EnterList(leaf, t) == [Parent(t).value, t];
      ChildInside(p, m, t, rest);
    } else {
      assert EnterList(leaf, t) == [t];
      EnterOneRuns(p, m, t, rest);
    }
  }

  function KeptOf(leaf: St, t: St): nat {
    if Sibling(leaf, t) then 1 else 0
  }

  /** What a transition of the engine comes to between two states of the table. */
  lemma TransitionIs(m: Hsm.Machine, leaf: St, t: St)
    requires m.current == Node(leaf) && DefaultChild(leaf).None? && |m.entered| == Hsm.SM_MAX_DEPTH
    ensures |Hsm.Path(Node(t))| <= Hsm.SM_MAX_DEPTH && KeptOf(leaf, t) <= |Hsm.Path(Node(t))|
    ensures var dst := Hsm.Path(Node(t));
      var out := Hsm.ExitDownTo(m, Hsm.Path(Node(leaf)), KeptOf(leaf, t));
      var (settled, l) := Hsm.Descend(TABLE, Hsm.EnterFrom(out, dst, KeptOf(leaf, t)), Node(t), |dst|);
      Hsm.DoTransition(TABLE, m, Node(t))
      == settled.(current := l, leafTicks := 0, generation := settled.generation + 1)
  {
    hide Node, Hsm.Keep, Hsm.Descend, Hsm.EnterFrom, Hsm.ExitDownTo, Hsm.Path;
    PathOfNode(leaf);
    PathOfNode(t);
    KeepOfNodes(leaf, t);
  }

  lemma LeavingRuns(p: P, m: Hsm.Machine, t: St, rest: seq<Hsm.Behaviour>)
    requires Tied(p, m) && m.tape == TransitionTape(p, t) + rest
    ensures var outside := ExitAll(p, ExitList(p.leaf, t));
      var out := Hsm.ExitDownTo(m, Hsm.Path(Node(p.leaf)), KeptOf(p.leaf, t));
      Tied(outside, out) && out.tape == EnterTape(outside, EnterList(p.leaf, t)) + rest
  {
    hide Node, EnterTape, EnterList, Hsm.ExitState, Hsm.ExitDownTo, Hsm.Path;
    ExitsKeepTies(p, ExitList(p.leaf, t));
    PathOfNode(p.leaf);
    var src, keep := Hsm.Path(Node(p.leaf)), KeptOf(p.leaf, t);
    var entering := EnterTape(ExitAll(p, ExitList(p.leaf, t)), EnterList(p.leaf, t)) + rest;
    assert m.tape == ExitTape(|src| - keep) + entering;
    ExitsRun(m, src, keep, entering);
  }

  /** The engine's transition on the state table is the transition of the model: same handlers in
      the same order, same requests left, same entry times. */
  lemma TransitionRuns(p: P, m: Hsm.Machine, t: St, rest: seq<Hsm.Behaviour>)
    requires Tied(p, m) && m.current == Node(p.leaf) && DefaultChild(p.leaf).None?
    requires m.tape == TransitionTape(p, t) + rest
    ensures var r := Hsm.DoTransition(TABLE, m, Node(t));
      Agree(Transition(p, t), r) && r.tape == rest && r.generation == m.generation + 1
  {
    hide Node, Enter, EnterAll, EnterTape, EnterList, Hsm.Descend, Hsm.EnterFrom, Hsm.ExitDownTo, Hsm.Path;
    hide ExitAll, ExitList, TransitionTape, Hsm.DoTransition;
    var outside, src, dst := ExitAll(p, ExitList(p.leaf, t)), Hsm.Path(Node(p.leaf)), Hsm.Path(Node(t));
    TransitionIs(m, p.leaf, t);
    LeavingRuns(p, m, t, rest);
    hide Tied;
    var out := Hsm.ExitDownTo(m, src, KeptOf(p.leaf, t));
    InsideRuns(outside, out, p.leaf, t, rest);
    TiedAtLeaf(EnterAll(outside, EnterList(p.leaf, t)), Transition(p, t),
               Hsm.Descend(TABLE, Hsm.EnterFrom(out, dst, KeptOf(p.leaf, t)), Node(t), |dst|).0,
               Hsm.DoTransition(TABLE, m, Node(t)));
  }

  lemma TiedAtLeaf(p: P, q: P, m: Hsm.Machine, n: Hsm.Machine)
    requires Tied(p, m)
    requires q == p.(leaf := q.leaf, leafTicks := 0)
    requires n == m.(current := n.current, leafTicks := 0, generation := n.generation)
    ensures Tied(q, n) && n.leafTicks == q.leafTicks % Hsm.WORD
  {
  }

  // ---------------------------------------------------------------- chains

  function ChainTape(p: P, n: nat): seq<Hsm.Behaviour>
    decreases n
  {
    if p.pending.None? || n == 0 then []
    else TransitionTape(Taken(p), p.pending.value) + ChainTape(TakePending(p), n - 1)
  }

  /** The engine's chain takes the same transitions, as many of them, and leaves the same request. */
  lemma {:induction false} ChainRuns(p: P, m: Hsm.Machine, n: nat, rest: seq<Hsm.Behaviour>)
    requires Agree(p, m) && DefaultChild(p.leaf).None? && m.tape == ChainTape(p, n) + rest
    ensures var r := Hsm.ApplyChain(TABLE, m, n);
      && Agree(Chain(p, n).0, r) && r.tape == rest && r.generation == m.generation + Chain(p, n).1
      && DefaultChild(Chain(p, n).0.leaf).None?
    decreases n
  {
    hide Node, TransitionTape, Transition, Hsm.DoTransition;
    if p.pending.Some? && n != 0 {
      var t := p.pending.value;
      var taken := m.(pending := None, entryArg := m.pendingArg, pendingArg := 0);
      var more := ChainTape(TakePending(p), n - 1) + rest;
      assert m.tape == TransitionTape(Taken(p), t) + more;
      TransitionRuns(Taken(p), taken, t, more);
      LandsOnLeaf(Taken(p), t);
      ChainRuns(TakePending(p), Hsm.DoTransition(TABLE, taken, Node(t)), n - 1, rest);
    } else {
      assert m.tape == rest;
    }
  }

  lemma LandsOnLeaf(p: P, t: St)
    ensures DefaultChild(Transition(p, t).leaf).None?
  {
    hide EnterAll, ExitAll, EnterList, ExitList;
  }

  function SettleTape(p: P): seq<Hsm.Behaviour> {
    ChainTape(p, 8)
  }

  lemma SettleRuns(p: P, m: Hsm.Machine, rest: seq<Hsm.Behaviour>)
    requires Agree(p, m) && DefaultChild(p.leaf).None? && m.tape == SettleTape(p) + rest
    ensures var r := Hsm.ApplyIfPending(TABLE, m);
      && Agree(Settle(p), r) && r.tape == rest && r.generation == m.generation + Chain(p, 8).1
      && DefaultChild(Settle(p).leaf).None?
  {
    hide Node, Chain, ChainTape, Hsm.ApplyChain;
    ChainRuns(p, m, 8, rest);
  }

  /** A handler runs and what it asked for is applied. `q` is what the handler makes of `p`. */
  lemma InvokeRuns(p: P, q: P, handled: bool, m: Hsm.Machine, rest: seq<Hsm.Behaviour>)
    requires Agree(p, m) && DefaultChild(p.leaf).None? && p.pending.None?
    requires q.leaf == p.leaf && q.now == p.now && q.entryArg == p.entryArg && q.leafTicks == p.leafTicks
    requires q.outerSince == p.outerSince && q.innerSince == p.innerSince
    requires q.pending.Some? || q.pendingArg == p.pendingArg
    requires m.tape == [Hsm.Behaviour(AskedFor(p, q), handled)] + SettleTape(q) + rest
    ensures var r := Hsm.Invoke(TABLE, m);
      && Agree(Settle(q), r) && r.tape == rest && DefaultChild(Settle(q).leaf).None?
      && r.generation == m.generation + Chain(q, 8).1
      && (r.generation == m.generation <==> q.pending.None?)
  {
    hide Node, SettleTape, Chain, Hsm.ApplyIfPending, Settle;
    var wound := Hsm.Wind(m);
    assert m.tape[0] == Hsm.Behaviour(AskedFor(p, q), handled) && m.tape[1..] == SettleTape(q) + rest;
    var asked := Hsm.RunActions(TABLE, wound, AskedFor(p, q));
    if AskedFor(p, q) != [] {
      assert AskedFor(p, q)[1..] == [];
      RunsOneRequest(wound, AskedFor(p, q));
    }
    assert Agree(q, asked);
    SettleRuns(q, asked, rest);
    ChainIsPositive(q);
  }

  lemma RunsOneRequest(m: Hsm.Machine, acts: seq<Hsm.Action>)
    requires |m.entered| == Hsm.SM_MAX_DEPTH && |acts| == 1 && acts[0].Request?
    ensures Hsm.RunActions(TABLE, m, acts) == Hsm.RequestTransition(m, acts[0].target, acts[0].arg)
  {
    assert acts[1..] == [];
  }

  lemma ChainIsPositive(p: P)
    ensures Chain(p, 8).1 == 0 <==> p.pending.None?
  {
    hide TakePending;
  }

  // ---------------------------------------------------------------- events

  /** What dispatch handlers leave alone. */
  predicate Handled(p: P, q: P) {
    && q.leaf == p.leaf && q.now == p.now && q.entryArg == p.entryArg && q.leafTicks == p.leafTicks
    && q.outerSince == p.outerSince && q.innerSince == p.innerSince
    && (q.pending.Some? || q.pendingArg == p.pendingArg)
  }

  lemma EventHandlers(p: P, ev: Ev)
    requires p.pending.None?
    ensures Handled(p, LeafEvent(p, ev).0) && Handled(p, OuterEvent(p, ev))
    ensures Hsm.OnEvent !in Handlers(p.leaf) ==> LeafEvent(p, ev) == (p, false)
  {
    hide IdleEvent, ActiveEvent, ManagedEvent, RequestedEvent, StoppingEvent;
    OuterHandlers(p, ev);
    BusyHandlers(p, ev);
  }

  lemma BusyHandlers(p: P, ev: Ev)
    requires p.pending.None?
    ensures Handled(p, IdleEvent(p, ev).0) && Handled(p, ActiveEvent(p, ev).0) && Handled(p, ManagedEvent(p, ev).0)
  {
  }

  lemma OuterHandlers(p: P, ev: Ev)
    requires p.pending.None?
    ensures Handled(p, RequestedEvent(p, ev)) && Handled(p, StoppingEvent(p, ev))
  {
  }

  lemma BurstHandlers(p: P)
    requires p.pending.None?
    ensures Handled(p, StartBurstTick(p)) && Handled(p, StopBurstTick(p))
  {
    hide StartMsg, StopMsg;
  }

  lemma WaitHandlers(p: P)
    requires p.pending.None?
    ensures Handled(p, WaitStartingTick(p)) && Handled(p, WaitStartedTick(p)) && Handled(p, WaitStoppedTick(p))
  {
  }

  lemma TickHandlers(p: P)
    requires p.pending.None?
    ensures Handled(p, LeafTick(p))
    ensures Hsm.OnTick !in Handlers(p.leaf) && DefaultChild(p.leaf).None? ==> LeafTick(p) == p
  {
    hide StartBurstTick, StopBurstTick, WaitStartingTick, WaitStartedTick, WaitStoppedTick;
    BurstHandlers(p);
    WaitHandlers(p);
  }

  function OuterTape(p: P, ev: Ev): seq<Hsm.Behaviour> {
    if Parent(p.leaf).None? then []
    else [Hsm.Behaviour(AskedFor(p, OuterEvent(p, ev)), false)] + SettleTape(OuterEvent(p, ev))
  }

  function EventTape(p: P, ev: Ev): seq<Hsm.Behaviour> {
    var (q, handled) := LeafEvent(p, ev);
    if Hsm.OnEvent !in Handlers(p.leaf) then OuterTape(p, ev)
    else [Hsm.Behaviour(AskedFor(p, q), handled)] + SettleTape(q)
         + (if q.pending.Some? || handled then [] else OuterTape(q, ev))
  }

  lemma NodeIs(s: St)
    ensures Node(s).handlers == Handlers(s) && Node(s).parent == Lift(Parent(s))
  {
  }

  lemma SettleNothing(p: P)
    requires p.pending.None?
    ensures Settle(p) == p.(history := Settle(p).history) && SettleTape(p) == [] && Chain(p, 8).1 == 0
  {
  }

  lemma AgreeIgnoresHistory(p: P, q: P, m: Hsm.Machine)
    requires Agree(p, m) && Handled(p, q) && q.pending == p.pending && q.pendingArg == p.pendingArg
    ensures Agree(q, m)
  {
    hide Node;
  }

  /** The composite around the leaf is offered the event. */
  lemma OuterRuns(p: P, m: Hsm.Machine, ev: Ev, gen: nat, rest: seq<Hsm.Behaviour>)
    requires Agree(p, m) && DefaultChild(p.leaf).None? && p.pending.None?
    requires m.tape == OuterTape(p, ev) + rest
    ensures var q := OuterEvent(p, ev);
      var r := Hsm.EventWalk(TABLE, m, gen, Lift(Parent(p.leaf)));
      && Agree(Settle(q), r) && r.tape == rest && DefaultChild(Settle(q).leaf).None?
      && r.generation == m.generation + Chain(q, 8).1
  {
    hide Node, OuterEvent, Settle, SettleTape, Chain, Hsm.Invoke;
    var q := OuterEvent(p, ev);
    EventHandlers(p, ev);
    if Parent(p.leaf).Some? {
      var up := Parent(p.leaf).value;
      NodeIs(up);
      var called := Hsm.Record(m, Hsm.Called(Node(up), Hsm.OnEvent));
      assert called.tape == [Hsm.Behaviour(AskedFor(p, q), false)] + SettleTape(q) + rest;
      InvokeRuns(p, q, false, called, rest);
      assert !Hsm.NextBehaviour(m).handled;
      assert Hsm.EventWalk(TABLE, m, gen, Some(Node(up))) == Hsm.Invoke(TABLE, called);
    } else {
      assert q == p by { NobodyOutside(p, ev); }
      SettleNothing(p);
      AgreeIgnoresHistory(p, Settle(p), m);
      assert m.tape == rest;
    }
  }

  lemma NobodyOutside(p: P, ev: Ev)
    requires Parent(p.leaf).None?
    ensures OuterEvent(p, ev) == p
  {
  }

  /** Sending an event to the engine is dispatching it in the model. */
  lemma EventRuns(p: P, m: Hsm.Machine, at: int, ev: Ev, rest: seq<Hsm.Behaviour>)
    requires Agree(p, m) && DefaultChild(p.leaf).None? && p.pending.None?
    requires m.tape == EventTape(p.(now := at), ev) + rest
    ensures var r := Hsm.SendEvent(TABLE, m, at);
      && Agree(Dispatch(p, at, ev), r) && r.tape == rest
      && r.generation == m.generation + Chain(Offer(p.(now := at), ev), 8).1
      && DefaultChild(Dispatch(p, at, ev).leaf).None?
  {
    hide Node, LeafEvent, OuterEvent, Settle, SettleTape, Chain, OuterTape, Hsm.EventWalk;
    var now, stamped := p.(now := at), m.(now := at);
    assert Agree(now, stamped);
    EventHandlers(now, ev);
    NodeIs(p.leaf);
    if Hsm.OnEvent in Handlers(p.leaf) {
      LeafRuns(now, stamped, ev, rest);
    } else {
      OuterRuns(now, stamped, ev, m.generation, rest);
      EventWalkSkips(stamped, m.generation, p.leaf);
    }
  }

  lemma EventWalkSkips(m: Hsm.Machine, gen: nat, s: St)
    requires |m.entered| == Hsm.SM_MAX_DEPTH && Hsm.OnEvent !in Handlers(s)
    ensures Hsm.EventWalk(TABLE, m, gen, Some(Node(s))) == Hsm.EventWalk(TABLE, m, gen, Lift(Parent(s)))
  {
    hide Node;
    NodeIs(s);
  }

  lemma LeafRuns(p: P, m: Hsm.Machine, ev: Ev, rest: seq<Hsm.Behaviour>)
    requires Agree(p, m) && DefaultChild(p.leaf).None? && p.pending.None? && Hsm.OnEvent in Handlers(p.leaf)
    requires m.tape == EventTape(p, ev) + rest
    ensures var r := Hsm.EventWalk(TABLE, m, m.generation, Some(Node(p.leaf)));
      && Agree(Settle(Offer(p, ev)), r) && r.tape == rest
      && r.generation == m.generation + Chain(Offer(p, ev), 8).1
      && DefaultChild(Settle(Offer(p, ev)).leaf).None?
  {
    hide Node, LeafEvent, OuterEvent, Settle, SettleTape, Chain, OuterTape, Hsm.Invoke;
    EventHandlers(p, ev);
    NodeIs(p.leaf);
    var (q, handled) := LeafEvent(p, ev);
    var more := (if q.pending.Some? || handled then [] else OuterTape(q, ev)) + rest;
    var called := Hsm.Record(m, Hsm.Called(Node(p.leaf), Hsm.OnEvent));
    assert called.tape == [Hsm.Behaviour(AskedFor(p, q), handled)] + SettleTape(q) + more;
    InvokeRuns(p, q, handled, called, more);
    var done := Hsm.Invoke(TABLE, called);
    if q.pending.None? && !handled {
      SettleNothing(q);
      AgreeIgnoresHistory(Settle(q), q, done);
      OuterRuns(q, done, ev, m.generation, rest);
    }
  }

  // ---------------------------------------------------------------- ticks, frames and hooks

  function WalkTape(p: P): seq<Hsm.Behaviour> {
    if Hsm.OnTick !in Handlers(p.leaf) then []
    else [Hsm.Behaviour(AskedFor(p, LeafTick(p)), false)] + SettleTape(LeafTick(p))
  }

  lemma SkipsTheOuter(m: Hsm.Machine, gen: nat, s: St)
    requires |m.entered| == Hsm.SM_MAX_DEPTH
    ensures Hsm.TickWalk(TABLE, m, gen, Hsm.BoundedPath(Node(s))) == Hsm.TickWalk(TABLE, m, gen, [Node(s)])
  {
    hide Node;
    PathOfNode(s);
    if Parent(s).Some? {
      NodeIs(Parent(s).value);
      assert [Node(Parent(s).value), Node(s)][1..] == [Node(s)];
    }
  }

  lemma CountsTheTick(p: P, m: Hsm.Machine, gen: nat)
    requires Agree(p, m)
    ensures var r := Hsm.TickWalk(TABLE, m, gen, []);
      Agree(p.(leafTicks := p.leafTicks + 1), r) && r.tape == m.tape && r.generation == m.generation
  {
    hide Node;
  }

  /** The per-state part of a tick: only leaves have tick handlers, and a tick after which the leaf
      stays is counted. */
  lemma WalkRuns(p: P, m: Hsm.Machine, rest: seq<Hsm.Behaviour>)
    requires Agree(p, m) && DefaultChild(p.leaf).None? && p.pending.None? && m.tape == WalkTape(p) + rest
    ensures var r := Hsm.TickWalk(TABLE, m, m.generation, Hsm.BoundedPath(m.current));
      && Agree(Walk(p), r) && r.tape == rest && DefaultChild(Walk(p).leaf).None? && Walk(p).pending.None?
      && r.generation == m.generation + Chain(LeafTick(p), 8).1
  {
    hide Node, LeafTick, Settle, SettleTape, Chain, Hsm.Invoke, Hsm.BoundedPath;
    var q, gen, leaf := LeafTick(p), m.generation, Node(p.leaf);
    TickHandlers(p);
    NodeIs(p.leaf);
    SkipsTheOuter(m, gen, p.leaf);
    assert [leaf][1..] == [];
    if Hsm.OnTick in Handlers(p.leaf) {
      var called := Hsm.Record(m, Hsm.Called(leaf, Hsm.OnTick));
      InvokeRuns(p, q, false, called, rest);
      var done := Hsm.Invoke(TABLE, called);
      SettlesEmpty(q);
      if q.pending.None? {
        SettleNothing(q);
        AgreeIgnoresHistory(Settle(q), q, done);
        CountsTheTick(q, done, gen);
      }
    } else {
      assert m.tape == rest;
      SettleNothing(q);
      CountsTheTick(p, m, gen);
    }
  }

  lemma SettlesEmpty(p: P)
    ensures Settle(p).pending.None?
  {
    hide Chain;
  }

  /** What a global hook does: nothing, or sending the machine an event. */
  function HookTape(p: P, sent: Option<(int, Ev)>): seq<Hsm.Behaviour> {
    match sent
    case None => [QUIET]
    case Some((at, ev)) => [Hsm.Behaviour([Hsm.Send(at)], false)] + EventTape(p.(now := at), ev)
  }

  function Hooked(p: P, sent: Option<(int, Ev)>): P {
    match sent
    case None => p
    case Some((at, ev)) => Dispatch(p, at, ev)
  }

  function HookMoves(p: P, sent: Option<(int, Ev)>): nat {
    match sent
    case None => 0
    case Some((at, ev)) => Chain(Offer(p.(now := at), ev), 8).1
  }

  lemma NothingPending(m: Hsm.Machine)
    requires |m.entered| == Hsm.SM_MAX_DEPTH && m.pending.None?
    ensures Hsm.ApplyIfPending(TABLE, m) == m
  {
  }

  lemma HookRuns(p: P, m: Hsm.Machine, sent: Option<(int, Ev)>, rest: seq<Hsm.Behaviour>)
    requires Agree(p, m) && DefaultChild(p.leaf).None? && p.pending.None?
    requires m.tape == HookTape(p, sent) + rest
    ensures var r, q := Hsm.RunHook(TABLE, m, true), Hooked(p, sent);
      && Agree(q, r) && r.tape == rest && DefaultChild(q.leaf).None? && q.pending.None?
      && r.generation == m.generation + HookMoves(p, sent)
  {
    hide Node, EventTape, Offer, Settle, Chain, Hsm.SendEvent, Hsm.ApplyIfPending;
    var wound := Hsm.Wind(m);
    match sent
    case None =>
      assert m.tape[0] == QUIET && m.tape[1..] == rest;
      assert Hsm.RunActions(TABLE, wound, []) == wound;
      NothingPending(wound);
    case Some((at, ev)) =>
      assert m.tape[1..] == EventTape(p.(now := at), ev) + rest;
      EventRuns(p, wound, at, ev, rest);
      RunsOneSend(wound, at);
      SettlesEmpty(Offer(p.(now := at), ev));
      NothingPending(Hsm.SendEvent(TABLE, wound, at));
  }

  lemma RunsOneSend(m: Hsm.Machine, at: int)
    requires |m.entered| == Hsm.SM_MAX_DEPTH
    ensures Hsm.RunActions(TABLE, m, [Hsm.Send(at)]) == Hsm.SendEvent(TABLE, m, at)
  {
    hide Hsm.SendEvent;
    assert [Hsm.Send(at)][1..] == [];
  }

  // ---------------------------------------------------------------- inputs

  /** The event a hook sends for an input, if any. */
  function Sent(p: P, i: Input): Option<(int, Ev)>
    requires InputOk(i)
  {
    match i
    case Tick(_, toggledAt) => (match toggledAt case None => None case Some(at2) => Some((at2, Toggle)))
    case Rx(at, at2, f) => (match Heard(p, at, f).1 case None => None case Some(ev) => Some((at2, ev)))
    case Button(_) => None
  }

  function StepTape(p: P, i: Input): seq<Hsm.Behaviour>
    requires InputOk(i)
  {
    match i
    case Tick(at, _) =>
      HookTape(p.(now := at), Sent(p, i)) + WalkTape(Hooked(p.(now := at), Sent(p, i)))
    case Rx(at, _, f) => HookTape(Heard(p, at, f).0, Sent(p, i))
    case Button(at) => EventTape(p.(now := at), Toggle)
  }

  function DispatchOf(i: Input): Hsm.Dispatch {
    match i
    case Tick(at, _) => Hsm.Tick(at, true)
    case Rx(at, _, _) => Hsm.Rx(at, true)
    case Button(at) => Hsm.Event(at)
  }

  /** The transitions one input leads to. */
  function Moves(p: P, i: Input): nat
    requires InputOk(i)
  {
    match i
    case Tick(at, _) =>
      var now := p.(now := at);
      HookMoves(now, Sent(p, i)) + Chain(LeafTick(Hooked(now, Sent(p, i))), 8).1
    case Rx(at, _, f) => HookMoves(Heard(p, at, f).0, Sent(p, i))
    case Button(at) => Chain(Offer(p.(now := at), Toggle), 8).1
  }

  lemma NobodyListens(m: Hsm.Machine, gen: nat, s: St)
    requires |m.entered| == Hsm.SM_MAX_DEPTH
    ensures Hsm.RxWalk(TABLE, m, gen, Some(Node(s))) == m
  {
    hide Node;
    NodeIs(s);
    if Parent(s).Some? {
      NodeIs(Parent(s).value);
    }
  }

  ghost predicate InStep(p: P, m: Hsm.Machine) {
    Agree(p, m) && DefaultChild(p.leaf).None? && p.pending.None?
  }

  lemma TickRuns(p: P, m: Hsm.Machine, i: Input, rest: seq<Hsm.Behaviour>)
    requires i.Tick? && InStep(p, m) && m.tape == StepTape(p, i) + rest
    ensures var r := Hsm.Perform(TABLE, m, DispatchOf(i));
      InStep(Step(p, i), r) && r.tape == rest && r.generation == m.generation + Moves(p, i)
  {
    hide Node, LeafTick, HookTape, WalkTape, HookMoves, Hsm.RunHook, Hsm.TickWalk, Hsm.BoundedPath;
    hide Walk, Dispatch, Chain;
    var now, stamped, sent := p.(now := i.at), m.(now := i.at), Sent(p, i);
    assert Agree(now, stamped);
    var more := WalkTape(Hooked(now, sent)) + rest;
    assert stamped.tape == HookTape(now, sent) + more;
    HookRuns(now, stamped, sent, more);
    WalkRuns(Hooked(now, sent), Hsm.RunHook(TABLE, stamped, true), rest);
  }

  lemma RxRuns(p: P, m: Hsm.Machine, i: Input, rest: seq<Hsm.Behaviour>)
    requires i.Rx? && InputOk(i) && InStep(p, m) && m.tape == StepTape(p, i) + rest
    ensures var r := Hsm.Perform(TABLE, m, DispatchOf(i));
      InStep(Step(p, i), r) && r.tape == rest && r.generation == m.generation + Moves(p, i)
  {
    hide Node, HookTape, HookMoves, Hsm.RunHook, Hsm.RxWalk, Heard, Receive, Dispatch;
    var stamped, sent := m.(now := i.at), Sent(p, i);
    var q, _ := ReceiveIsOneDispatch(p, i.at, i.at2, i.f);
    assert Agree(q, stamped);
    HookRuns(q, stamped, sent, rest);
    var ready := Hsm.RunHook(TABLE, stamped, true);
    NobodyListens(ready, ready.generation, Hooked(q, sent).leaf);
  }

  /** One dispatch of the engine, its handlers making the requests of the model's handlers, is one
      step of the model: bubbling, chains, entry times, tick counts and hooks included. */
  lemma StepAgrees(p: P, m: Hsm.Machine, i: Input, rest: seq<Hsm.Behaviour>)
    requires InputOk(i) && InStep(p, m) && m.tape == StepTape(p, i) + rest
    ensures var r := Hsm.Perform(TABLE, m, DispatchOf(i));
      InStep(Step(p, i), r) && r.tape == rest && r.generation == m.generation + Moves(p, i)
  {
    hide Agree, Hsm.Perform, Dispatch, StepTape, Moves;
    match i
    case Tick(_, _) => TickRuns(p, m, i, rest);
    case Rx(_, _, _) => RxRuns(p, m, i, rest);
    case Button(at) => ButtonRuns(p, m, at, rest);
  }

  lemma ButtonRuns(p: P, m: Hsm.Machine, at: int, rest: seq<Hsm.Behaviour>)
    requires InStep(p, m) && m.tape == StepTape(p, Button(at)) + rest
    ensures var r := Hsm.Perform(TABLE, m, Hsm.Event(at));
      InStep(Step(p, Button(at)), r) && r.tape == rest && r.generation == m.generation + Moves(p, Button(at))
  {
    hide Node, EventTape, Chain, Offer, Settle, Hsm.SendEvent;
    EventRuns(p, m, at, Toggle, rest);
    SettlesEmpty(Offer(p.(now := at), Toggle));
  }

  // ---------------------------------------------------------------- whole runs

  function RunTape(p: P, ins: seq<Input>): seq<Hsm.Behaviour>
    requires forall i :: i in ins ==> InputOk(i)
    decreases |ins|
  {
    if ins == [] then [] else StepTape(p, ins[0]) + RunTape(Step(p, ins[0]), ins[1..])
  }

  function Dispatches(ins: seq<Input>): seq<Hsm.Dispatch> {
    if ins == [] then [] else [DispatchOf(ins[0])] + Dispatches(ins[1..])
  }

  lemma {:induction false} RunAgrees(p: P, m: Hsm.Machine, ins: seq<Input>)
    requires (forall i :: i in ins ==> InputOk(i)) && InStep(p, m) && m.tape == RunTape(p, ins)
    ensures var r := Hsm.Run(TABLE, m, Dispatches(ins));
      InStep(Run(p, ins), r) && r.tape == []
    decreases |ins|
  {
    assert |m.entered| == Hsm.SM_MAX_DEPTH;
    hide Agree, Step, StepTape, Hsm.Perform;
    if ins != [] {
      var ds := Dispatches(ins);
      assert ds[0] == DispatchOf(ins[0]) && ds[1..] == Dispatches(ins[1..]);
      StepAgrees(p, m, ins[0], RunTape(Step(p, ins[0]), ins[1..]));
      RunAgrees(Step(p, ins[0]), Hsm.Perform(TABLE, m, ds[0]), ins[1..]);
    }
  }

  /** What the handlers do while the machine is initialised. */
  function InitTape(mode: Mode, restored: bool, at: int): seq<Hsm.Behaviour> {
    EnterTape(Blank(mode, restored, at), [Idle]) + SettleTape(Enter(Blank(mode, restored, at), Idle))
  }

  lemma InitAgrees(mode: Mode, restored: bool, at: int, rest: seq<Hsm.Behaviour>)
    ensures var m := Hsm.Init(TABLE, Node(Idle), at, InitTape(mode, restored, at) + rest);
      InStep(Init(mode, restored, at), m) && m.tape == rest
  {
    hide Node, EnterTape, EnterAll, Enter, Settle, SettleTape, Chain;
    hide Hsm.EnterFrom, Hsm.Descend, Hsm.Path, Hsm.ApplyIfPending;
    var p, tape := Blank(mode, restored, at), InitTape(mode, restored, at) + rest;
    var blank := Hsm.Machine(Node(Idle), None, 0, 0, at, [0, 0, 0, 0], 0, 0, tape, []);
    var more := SettleTape(Enter(p, Idle)) + rest;
    assert tape == EnterTape(p, [Idle]) + more;
    EnterOneRuns(p, blank, Idle, more);
    EnterTapes(p, Idle, Idle);
    EntersAsk(p, Idle);
    var (settled, leaf) := Hsm.Descend(TABLE, Hsm.EnterFrom(blank, Hsm.Path(Node(Idle)), 0), Node(Idle), 1);
    SettleRuns(Enter(p, Idle), settled.(current := leaf), rest);
    SettlesEmpty(Enter(p, Idle));
  }

  // ---------------------------------------------------------------- what the engine's laws then say

  ghost predicate TapeOk(tape: seq<Hsm.Behaviour>) {
    forall b :: b in tape ==> Hsm.ActionsOk(TABLE, b.actions)
  }

  lemma AskedOk(p: P, q: P, handled: bool)
    ensures TapeOk([Hsm.Behaviour(AskedFor(p, q), handled)])
  {
    hide Node;
    if q.pending.Some? {
      NodeInTable(q.pending.value);
    }
  }

  lemma {:induction false} EnterTapeOk(p: P, ss: seq<St>)
    ensures TapeOk(EnterTape(p, ss))
    decreases |ss|
  {
    hide Enter;
    if ss != [] {
      AskedOk(p, Enter(p, ss[0]), false);
      EnterTapeOk(Enter(p, ss[0]), ss[1..]);
    }
  }

  lemma {:induction false} ExitTapeOk(n: nat)
    ensures TapeOk(ExitTape(n))
  {
    if n > 0 {
      ExitTapeOk(n - 1);
    }
  }

  lemma {:induction false} ChainTapeOk(p: P, n: nat)
    ensures TapeOk(ChainTape(p, n))
    decreases n
  {
    hide EnterTape, ExitTape, Transition;
    if p.pending.Some? && n > 0 {
      var q, t := Taken(p), p.pending.value;
      ExitTapeOk(|ExitList(q.leaf, t)|);
      EnterTapeOk(ExitAll(q, ExitList(q.leaf, t)), EnterList(q.leaf, t));
      ChainTapeOk(TakePending(p), n - 1);
    }
  }

  lemma InvokeTapeOk(p: P, q: P, handled: bool)
    ensures TapeOk([Hsm.Behaviour(AskedFor(p, q), handled)] + SettleTape(q))
  {
    AskedOk(p, q, handled);
    ChainTapeOk(q, 8);
  }

  lemma EventTapeOk(p: P, ev: Ev)
    ensures TapeOk(EventTape(p, ev))
  {
    hide LeafEvent, OuterEvent, SettleTape, Asked;
    var (q, handled) := LeafEvent(p, ev);
    InvokeTapeOk(p, q, handled);
    InvokeTapeOk(p, OuterEvent(p, ev), false);
    InvokeTapeOk(q, OuterEvent(q, ev), false);
  }

  lemma StepTapeOk(p: P, i: Input)
    requires InputOk(i)
    ensures TapeOk(StepTape(p, i))
  {
    hide EventTape, LeafTick, SettleTape, Asked, Heard, Dispatch;
    match i
    case Tick(at, toggledAt) =>
      var now := p.(now := at);
      var q := Hooked(now, Sent(p, i));
      InvokeTapeOk(q, LeafTick(q), false);
      if toggledAt.Some? {
        EventTapeOk(now.(now := toggledAt.value), Toggle);
      }
    case Rx(at, at2, f) =>
      var (q, ev) := Heard(p, at, f);
      if ev.Some? {
        EventTapeOk(q.(now := at2), ev.value);
      }
    case Button(at) => EventTapeOk(p.(now := at), Toggle);
  }

  lemma {:induction false} RunTapeOk(p: P, ins: seq<Input>)
    requires forall i :: i in ins ==> InputOk(i)
    ensures TapeOk(RunTape(p, ins))
    decreases |ins|
  {
    hide Step, StepTape;
    if ins != [] {
      StepTapeOk(p, ins[0]);
      RunTapeOk(Step(p, ins[0]), ins[1..]);
    }
  }

  /** The machine after the inputs, run by the engine from power-up. */
  function OnTheEngine(mode: Mode, restored: bool, at: int, ins: seq<Input>): Hsm.Machine
    requires forall i :: i in ins ==> InputOk(i)
  {
    var tape := InitTape(mode, restored, at) + RunTape(Init(mode, restored, at), ins);
    Hsm.Run(TABLE, Hsm.Init(TABLE, Node(Idle), at, tape), Dispatches(ins))
  }

  /** Over every run the engine and the model agree. So what the engine's own laws say of its
      history holds of the model: the history is well nested around the model's leaf, the two entry
      times are those of the last entries of the leaf and of its composite, and the tick counter is
      the number of ticks completed since. */
  lemma EveryRunAgrees(mode: Mode, restored: bool, at: int, ins: seq<Input>)
    requires forall i :: i in ins ==> InputOk(i)
    ensures var p, m := Run(Init(mode, restored, at), ins), OnTheEngine(mode, restored, at, ins);
      && Agree(p, m) && m.tape == []
      && Hsm.Play(m.log) == Some(Hsm.Path(Node(p.leaf)))
      && Hsm.LastEntry(m.log, Hsm.Path(Node(p.leaf))[0]) == Some(p.outerSince)
      && (Parent(p.leaf).Some? ==> Hsm.LastEntry(m.log, Node(p.leaf)) == Some(p.innerSince))
      && p.leafTicks % Hsm.WORD == Hsm.TicksSinceEntry(m.log) % Hsm.WORD
  {
    hide Node, Init, Run, RunTape, InitTape, Hsm.Init, Hsm.Run, Hsm.Path, Hsm.Play, Hsm.LastEntry, Hsm.TicksSinceEntry;
    hide Hsm.IsLeaf, Dispatches;
    var start := Init(mode, restored, at);
    var init, rest := InitTape(mode, restored, at), RunTape(start, ins);
    InitAgrees(mode, restored, at, rest);
    RunAgrees(start, Hsm.Init(TABLE, Node(Idle), at, init + rest), ins);
    var p := Run(start, ins);
    PathOfNode(p.leaf);
    TableIsWellFormed();
    NodeInTable(Idle);
    InitTapeOk(mode, restored, at);
    RunTapeOk(start, ins);
    HsmLaws.EveryRunIsWellNested(TABLE, Node(Idle), at, init + rest, Dispatches(ins));
    assert Hsm.Path(Node(p.leaf))[|Hsm.Path(Node(p.leaf))| - 1] == Node(p.leaf);
  }

  lemma InitTapeOk(mode: Mode, restored: bool, at: int)
    ensures TapeOk(InitTape(mode, restored, at))
  {
    hide Enter, EnterTape, SettleTape;
    EnterTapeOk(Blank(mode, restored, at), [Idle]);
    InvokeTapeOk(Enter(Blank(mode, restored, at), Idle), Enter(Blank(mode, restored, at), Idle), false);
  }

  /** No request of this machine is ever dropped by the engine: whatever its handlers may legally
      ask for is applied within two transitions, of eight. */
  lemma EngineDropsNothing(p: P, m: Hsm.Machine, rest: seq<Hsm.Behaviour>)
    requires Core(p) && Legal(p) && (p.pending.None? ==> Silent(p))
    requires Agree(p, m) && m.tape == SettleTape(p) + rest
    ensures var r := Hsm.ApplyChain(TABLE, m, Hsm.CHAIN_LIMIT);
      r.pending.None? && r.generation <= m.generation + 2
  {
    hide Node, Chain, ChainTape, Hsm.ApplyChain, HistoryOk, Legal;
    SettleIsGood(p);
    ChainRuns(p, m, 8, rest);
  }

  /** From a state a run can be in, one dispatch moves the engine at most four times: twice for the
      event its hook sends and twice for the leaf's tick. */
  lemma DispatchesAreShort(p: P, m: Hsm.Machine, i: Input, rest: seq<Hsm.Behaviour>)
    requires Good(p) && InputOk(i) && Agree(p, m) && m.tape == StepTape(p, i) + rest
    ensures Hsm.Perform(TABLE, m, DispatchOf(i)).generation <= m.generation + 4
  {
    hide Agree, Hsm.Perform, Chain, LeafTick, Offer, StepTape, Heard, Dispatch, HistoryOk, Silent;
    assert InStep(p, m);
    StepAgrees(p, m, i, rest);
    match i
    case Tick(at, toggledAt) =>
      StampIsGood(p, at);
      HookIsShort(p.(now := at), Sent(p, i));
      TickIsShort(Hooked(p.(now := at), Sent(p, i)));
    case Rx(at, at2, f) =>
      HearingIsGood(p, at, f);
      HookIsShort(Heard(p, at, f).0, Sent(p, i));
    case Button(at) => HookIsShort(p, Some((at, Toggle)));
  }

  lemma HearingIsGood(p: P, at: int, f: Frame)
    requires Good(p) && |f.data| == 8
    ensures Good(Heard(p, at, f).0)
  {
    hide HistoryOk, Heard, Receive;
    var q, _ := ReceiveIsOneDispatch(p, at, at, f);
  }

  lemma HookIsShort(p: P, sent: Option<(int, Ev)>)
    requires Good(p)
    ensures HookMoves(p, sent) <= 2 && Good(Hooked(p, sent))
  {
    hide Good, Chain, Offer, Dispatch;
    match sent
    case None =>
    case Some((at, ev)) =>
      StampIsGood(p, at);
      OfferIsLegal(p.(now := at), ev);
      SettleIsGood(Offer(p.(now := at), ev));
      DispatchIsGood(p, at, ev);
  }

  lemma TickIsShort(p: P)
    requires Good(p)
    ensures Chain(LeafTick(p), 8).1 <= 2
  {
    hide Chain, LeafTick, Core;
    LeafTickIsLegal(p);
    if LeafTick(p).pending.Some? {
      SettleIsGood(LeafTick(p));
    } else {
      ChainIsPositive(LeafTick(p));
    }
  }
}
