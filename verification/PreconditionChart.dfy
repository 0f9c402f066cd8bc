/** The preconditioning machine as a client of the engine: its state table, and the proof that the
    transitions of module Precondition are those the engine makes on that table. */
module PreconditionChart {
  import opened Wrappers
  import opened Precondition
  import Hsm
  import HsmLaws

  function Name(s: St): string {
    match s
    case Idle => "idle"
    case Requested => "requested"
    case CarStartDelay => "car-start-delay"
    case StartBurst => "start-burst"
    case WaitStarting => "wait-starting"
    case WaitStarted => "wait-started"
    case Active => "active"
    case Managed => "managed"
    case Stopping => "stopping"
    case StopBurst => "stop-burst"
    case WaitStopped => "wait-stopped"
  }

  function Handlers(s: St): set<Hsm.Callback> {
    match s
    case Requested => {Hsm.OnEvent, Hsm.OnFwd}
    case Active => {Hsm.OnEvent}
    case Stopping => {Hsm.OnEvent}
    case CarStartDelay => {Hsm.OnTick}
    case StartBurst => {Hsm.OnTick, Hsm.OnFwd}
    case Idle => {Hsm.OnTick, Hsm.OnEvent}
    case Managed => {Hsm.OnTick, Hsm.OnEvent}
    case _ => {Hsm.OnTick, Hsm.OnEvent, Hsm.OnFwd}
  }

  function Node(s: St): Hsm.State
    decreases Parent(s).Some?
  {
    Hsm.State(Name(s), match Parent(s) case None => None case Some(q) => Some(Node(q)), Handlers(s))
  }

  const ALL: set<St> :=
    {Idle, Requested, CarStartDelay, StartBurst, WaitStarting, WaitStarted, Active, Managed,
     Stopping, StopBurst, WaitStopped}

  const TABLE: Hsm.Chart := Hsm.Chart(
    set s | s in ALL :: Node(s),
    map[Node(Requested) := Node(StartBurst), Node(Stopping) := Node(StopBurst)])

  lemma NodesDiffer(s: St, t: St)
    requires s != t
    ensures Node(s) != Node(t)
  {
    assert Node(s).name == Name(s) && Node(t).name == Name(t);
    if |Name(s)| == |Name(t)| {
      assert Name(s)[7] != Name(t)[7];
    }
  }

  lemma NodeInTable(s: St)
    ensures Node(s) in TABLE.states
    ensures Node(s) in TABLE.initial <==> DefaultChild(s).Some?
    ensures DefaultChild(s).Some? ==> TABLE.initial[Node(s)] == Node(DefaultChild(s).value)
  {
    assert s in ALL;
    if s != Requested {
      NodesDiffer(s, Requested);
    }
    if s != Stopping {
      NodesDiffer(s, Stopping);
    }
  }

  lemma PathOfNode(s: St)
    ensures Hsm.Path(Node(s)) == if Parent(s).None? then [Node(s)] else [Node(Parent(s).value), Node(s)]
  {
  }

  /** The state table meets the engine's contract. */
  lemma TableIsWellFormed()
    ensures Hsm.WellFormed(TABLE)
  {
    forall n | n in TABLE.states
      ensures |Hsm.Path(n)| <= Hsm.SM_MAX_DEPTH && (n.parent.Some? ==> n.parent.value in TABLE.states)
    {
      var s :| s in ALL && n == Node(s);
      PathOfNode(s);
      if Parent(s).Some? {
        NodeInTable(Parent(s).value);
      }
    }
    NodeInTable(StartBurst);
    NodeInTable(StopBurst);
  }

  lemma KeepOfNodes(leaf: St, target: St)
    requires DefaultChild(leaf).None?
    ensures Hsm.Keep(Hsm.Path(Node(leaf)), Hsm.Path(Node(target))) == if Sibling(leaf, target) then 1 else 0
  {
    hide Node;
    var a, b := Hsm.Path(Node(leaf)), Hsm.Path(Node(target));
    PathOfNode(leaf);
    PathOfNode(target);
    if leaf != target {
      NodesDiffer(leaf, target);
    }
    if Parent(leaf).Some? && Parent(target).Some? && Parent(leaf) != Parent(target) {
      NodesDiffer(Parent(leaf).value, Parent(target).value);
    }
    if Parent(leaf).Some? && Parent(leaf).value != target {
      NodesDiffer(Parent(leaf).value, target);
    }
    if Parent(target).Some? && Parent(target).value != leaf {
      NodesDiffer(Parent(target).value, leaf);
    }
  }

  function ExitMarks(ss: seq<St>): seq<Hsm.Entry> {
    seq(|ss|, i requires 0 <= i < |ss| => Hsm.Exited(Node(ss[i])))
  }

  function EnterMarks(ss: seq<St>, at: int): seq<Hsm.Entry> {
    seq(|ss|, i requires 0 <= i < |ss| => Hsm.Entered(Node(ss[i]), at))
  }

  /** From a leaf, the engine exits and enters exactly the listed states in that order and comes to
      rest where this model says. */
  lemma TransitionsAgree(m: Hsm.Machine, leaf: St, target: St)
    requires DefaultChild(leaf).None? && m.current == Node(leaf) && |m.entered| == Hsm.SM_MAX_DEPTH
    ensures var r := Hsm.DoTransition(TABLE, m, Node(target));
      && r.current == Node(Landing(target))
      && r.log == m.log + ExitMarks(ExitList(leaf, target)) + EnterMarks(EnterList(leaf, target), m.now)
  {
    hide Hsm.DoTransition, Hsm.Keep, Node;
    var keep := if Sibling(leaf, target) then 1 else 0;
    TableIsWellFormed();
    NodeInTable(leaf);
    NodeInTable(target);
    NodeInTable(Landing(target));
    HsmLaws.TransitionOrder(TABLE, m, Node(target));
    KeepOfNodes(leaf, target);
    PathOfNode(target);
    LandingAgrees(target);
    ExitsAgree(leaf, target);
    EntriesAgree(leaf, target, m.now);
  }

  lemma LandingAgrees(target: St)
    ensures HsmLaws.DefaultLeaf(TABLE, Node(target), |Hsm.Path(Node(target))|) == Node(Landing(target))
  {
    hide Node;
    NodeInTable(target);
    NodeInTable(Landing(target));
    PathOfNode(target);
  }

  lemma ExitsAgree(leaf: St, target: St)
    ensures HsmLaws.Exits(Hsm.Path(Node(leaf)), if Sibling(leaf, target) then 1 else 0)
         == ExitMarks(ExitList(leaf, target))
  {
    hide Node;
    PathOfNode(leaf);
    var p := Hsm.Path(Node(leaf));
    assert p[..|p| - 1] == if Parent(leaf).None? then [] else [Node(Parent(leaf).value)];
    if Parent(leaf).Some? {
      var outer := [Node(Parent(leaf).value)];
      assert outer[..0] == [] && HsmLaws.Exits([], 0) == [];
      assert HsmLaws.Exits(outer, 0) == [Hsm.Exited(outer[0])] + HsmLaws.Exits(outer[..0], 0);
    }
  }

  lemma EntriesAgree(leaf: St, target: St, at: int)
    requires DefaultChild(leaf).None?
    ensures var path := Hsm.Path(Node(Landing(target)));
      HsmLaws.Entries(path, if Sibling(leaf, target) then 1 else 0, at) == EnterMarks(EnterList(leaf, target), at)
  {
    hide Node;
    PathOfNode(Landing(target));
    var path := Hsm.Path(Node(Landing(target)));
    assert HsmLaws.Entries(path, |path|, at) == [];
    assert HsmLaws.Entries(path, |path| - 1, at) == [Hsm.Entered(path[|path| - 1], at)];
  }
}
