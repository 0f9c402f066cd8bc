/** The filters of the preconditioning machine as the engine asks them, and what they do to the frames
    of the cluster, read from the bytes. */
module PreconditionFilters {
  import opened Wrappers
  import opened Precondition
  import opened PreconditionLaws
  import opened PreconditionChart
  import opened PreconditionEngine
  import Hsm
  import HsmLaws
  import HsmOrder

  // ---------------------------------------------------------------- who is asked

  /** The active states that have a filter, innermost first. */
  function Filters(leaf: St): seq<St> {
    match leaf
    case StartBurst => [StartBurst, Requested]
    case WaitStarting => [WaitStarting, Requested]
    case WaitStarted => [WaitStarted, Requested]
    case StopBurst => [StopBurst]
    case WaitStopped => [WaitStopped]
    case CarStartDelay => [Requested]
    case Active => [Requested]
    case Managed => [Requested]
    case _ => []
  }

  function Nodes(ss: seq<St>): seq<Hsm.State> {
    seq(|ss|, i requires 0 <= i < |ss| => Node(ss[i]))
  }

  lemma FiltersAre(leaf: St)
    requires DefaultChild(leaf).None?
    ensures HsmOrder.LeafToRoot(Node(leaf), Hsm.OnFwd) == Nodes(Filters(leaf))
  {
    hide HsmOrder.LeafToRoot;
    HsmOrder.LeafToRootIs(Node(leaf), Hsm.OnFwd);
    if Parent(leaf).Some? {
      HsmOrder.LeafToRootIs(Node(Parent(leaf).value), Hsm.OnFwd);
    }
  }

  /** What the filters answer, in the order of some states. */
  function Verdicts(p: P, ss: seq<St>, id: nat, data: seq<nat>, toCar: bool): seq<Hsm.Behaviour>
    requires |data| == 8
  {
    seq(|ss|, i requires 0 <= i < |ss| => Hsm.Behaviour([], FilterOf(p, ss[i], id, data, toCar) != Passthrough))
  }

  /** The global filter, which may show a popup, answers before them. */
  function FilterTape(p: P, popup: bool, id: nat, data: seq<nat>, toCar: bool): seq<Hsm.Behaviour>
    requires |data| == 8
  {
    [Hsm.Behaviour([], popup)] + Verdicts(p, Filters(p.leaf), id, data, toCar)
  }

  lemma TapeIsPure(p: P, popup: bool, id: nat, data: seq<nat>, toCar: bool)
    requires |data| == 8
    ensures HsmLaws.PureFilters(FilterTape(p, popup, id, data, toCar))
  {
    hide FilterOf;
    assert Hsm.Latest([]) == None;
  }

  /** The filter on values gives the verdict of the first filter that decides. */
  lemma FirstDecides(p: P, id: nat, data: seq<nat>, toCar: bool, k: nat)
    requires |data| == 8 && DefaultChild(p.leaf).None? && k <= |Filters(p.leaf)|
    requires forall i :: 0 <= i < k - 1 ==> FilterOf(p, Filters(p.leaf)[i], id, data, toCar) == Passthrough
    ensures 0 < k && FilterOf(p, Filters(p.leaf)[k - 1], id, data, toCar) != Passthrough ==>
              Forward(p, id, data, toCar) == FilterOf(p, Filters(p.leaf)[k - 1], id, data, toCar)
    ensures k == |Filters(p.leaf)|
            && (0 == k || FilterOf(p, Filters(p.leaf)[k - 1], id, data, toCar) == Passthrough) ==>
              Forward(p, id, data, toCar) == Passthrough
  {
    hide FilterOf;
    if 2 <= k {
      assert FilterOf(p, Filters(p.leaf)[0], id, data, toCar) == Passthrough;
    }
    Unfiltered(p, id, data, toCar);
  }

  lemma Unfiltered(p: P, id: nat, data: seq<nat>, toCar: bool)
    requires |data| == 8
    ensures p.leaf in {Idle, CarStartDelay, Active, Managed} ==> FilterOf(p, p.leaf, id, data, toCar) == Passthrough
  {
  }

  /** The answers the engine finds on the tape are the verdicts of the filters. */
  lemma AnswersAre(p: P, m: Hsm.Machine, popup: bool, id: nat, data: seq<nat>, toCar: bool)
    requires |data| == 8 && m.tape == FilterTape(p, popup, id, data, toCar)
    ensures HsmOrder.Answers(m, 0) == popup
    ensures forall i :: 0 <= i < |Filters(p.leaf)| ==>
              HsmOrder.Answers(m, 1 + i) == (FilterOf(p, Filters(p.leaf)[i], id, data, toCar) != Passthrough)
  {
    hide FilterOf, Filters;
  }

  // ---------------------------------------------------------------- asked by the engine

  /** A frame about to be forwarded, on the engine: it decides exactly when the popup or the filter on
      values decides; it asks the filters of the active states, innermost first, up to the one whose
      verdict that is; and nothing else about the machine changes. */
  lemma ForwardRuns(p: P, m: Hsm.Machine, at: int, popup: bool, id: nat, data: seq<nat>, toCar: bool)
    returns (k: nat)
    requires Agree(p, m) && p.pending.None? && DefaultChild(p.leaf).None? && |data| == 8
    requires m.tape == FilterTape(p.(now := at), popup, id, data, toCar)
    ensures |m.entered| == Hsm.SM_MAX_DEPTH && k <= |Filters(p.leaf)|
    ensures HsmLaws.SameState(m, Hsm.Perform(TABLE, m, Hsm.Dispatch.Fwd(at, true)))
    ensures var (r, decided) := Hsm.FwdAsked(m, at, true);
      var verdict := Forward(p.(now := at), id, data, toCar);
      && (decided <==> popup || verdict != Passthrough)
      && HsmOrder.Calls(r.log, Hsm.OnFwd) == HsmOrder.Calls(m.log, Hsm.OnFwd) + Nodes(Filters(p.leaf)[..k])
      && (popup ==> k == 0)
      && (!popup && verdict != Passthrough ==>
            0 < k && verdict == FilterOf(p.(now := at), Filters(p.leaf)[k - 1], id, data, toCar))
      && (!popup && verdict == Passthrough ==> k == |Filters(p.leaf)|)
  {
    hide *;
    var q := p.(now := at);
    TapeIsPure(q, popup, id, data, toCar);
    AgreeIs(p, m);
    HsmLaws.PureFiltersChangeNothing(TABLE, m, at, true);
    FiltersAre(p.leaf);
    NodesOf(Filters(p.leaf));
    k := HsmOrder.FwdOrder(m, at, true);
    NodesUpTo(Filters(p.leaf), k);
    AnswersAre(q, m, popup, id, data, toCar);
    if !popup {
      PassedOver(q, m, id, data, toCar, k);
      FirstDecides(q, id, data, toCar, k);
    }
  }

  lemma PassedOver(p: P, m: Hsm.Machine, id: nat, data: seq<nat>, toCar: bool, k: nat)
    requires |data| == 8 && k <= |Filters(p.leaf)| && HsmOrder.Passes(m, 0, if k == 0 then 1 else k)
    requires forall i :: 0 <= i < |Filters(p.leaf)| ==>
               HsmOrder.Answers(m, 1 + i) == (FilterOf(p, Filters(p.leaf)[i], id, data, toCar) != Passthrough)
    ensures forall i :: 0 <= i < k - 1 ==> FilterOf(p, Filters(p.leaf)[i], id, data, toCar) == Passthrough
  {
    hide FilterOf, Filters, HsmOrder.Answers;
    forall i | 0 <= i < k - 1
      ensures FilterOf(p, Filters(p.leaf)[i], id, data, toCar) == Passthrough
    {
      assert !HsmOrder.Answers(m, 1 + i);
    }
  }

  lemma AgreeIs(p: P, m: Hsm.Machine)
    requires Agree(p, m)
    ensures |m.entered| == Hsm.SM_MAX_DEPTH && m.current == Node(p.leaf) && m.pending == Lift(p.pending)
    ensures p.pending.None? ==> m.pending.None?
  {
  }

  lemma NodesOf(ss: seq<St>)
    ensures |Nodes(ss)| == |ss|
  {
  }

  lemma NodesUpTo(ss: seq<St>, k: nat)
    requires k <= |ss|
    ensures |Nodes(ss)| == |ss| && Nodes(ss)[..k] == Nodes(ss[..k])
  {
  }

  /** After every run, the engine lets the head unit's command through to the car exactly when no
      session is requested: it is blocked while the request state is active, which in the repeating
      modes is while the latch is on, unless a popup takes the frame over first. */
  lemma CommandIsBlockedWhileRequested(
      mode: Mode, restored: bool, at: int, ins: seq<Input>, at2: int, popup: bool, data: seq<nat>, toCar: bool)
    requires (forall i :: i in ins ==> InputOk(i)) && |data| == 8
    ensures var p, m := Run(Init(mode, restored, at), ins), OnTheEngine(mode, restored, at, ins);
      var asked := m.(tape := FilterTape(p.(now := at2), popup, 0x0C7, data, toCar));
      var blocked := toCar && Node(Requested) in Hsm.Path(m.current);
      && (Hsm.FwdAsked(asked, at2, true).1 <==> popup || blocked)
      && Forward(p.(now := at2), 0x0C7, data, toCar) == (if blocked then Block else Passthrough)
      && (mode != Once ==> (Node(Requested) in Hsm.Path(m.current) <==> p.latch))
  {
    hide *;
    EveryRunAgrees(mode, restored, at, ins);
    EveryRunIsGood(mode, restored, at, ins);
    var p, m := Run(Init(mode, restored, at), ins), OnTheEngine(mode, restored, at, ins);
    var asked := m.(tape := FilterTape(p.(now := at2), popup, 0x0C7, data, toCar));
    OnlyTheTape(p, m, asked);
    var k := ForwardRuns(p, asked, at2, popup, 0x0C7, data, toCar);
    CommandVerdict(p, m, at2, data, toCar);
  }

  lemma OnlyTheTape(p: P, m: Hsm.Machine, r: Hsm.Machine)
    requires Agree(p, m) && r == m.(tape := r.tape) && Good(p)
    ensures Agree(p, r) && p.pending.None? && DefaultChild(p.leaf).None?
  {
  }

  lemma CommandVerdict(p: P, m: Hsm.Machine, at: int, data: seq<nat>, toCar: bool)
    requires Good(p) && Agree(p, m) && |data| == 8
    ensures var active := Node(Requested) in Hsm.Path(m.current);
      && Forward(p.(now := at), 0x0C7, data, toCar) == (if toCar && active then Block else Passthrough)
      && (p.mode != Once ==> (active <==> p.latch))
  {
    hide Node, HistoryOk;
    PathOfNode(p.leaf);
    if p.leaf != Requested {
      NodesDiffer(p.leaf, Requested);
    }
    if Parent(p.leaf).Some? && Parent(p.leaf).value != Requested {
      NodesDiffer(Parent(p.leaf).value, Requested);
    }
  }

  // ---------------------------------------------------------------- the bytes

  /** What the cluster reads in its distance frame: number, tenths, unit and flag; the other bits are
      the head unit's. */
  predicate Shows(was: seq<nat>, d: seq<nat>, number: nat, tenths: nat, unit: nat, flag: nat)
    requires |was| == 8
  {
    && |d| == 8 && d[1..4] == was[1..4] && d[7] == was[7]
    && d[0] / 16 == tenths && d[0] % 16 == unit
    && d[4] < 256 && d[5] < 256 && d[4] + 256 * d[5] == number
    && d[6] / 16 == was[6] / 16 && d[6] % 16 == flag
  }

  /** Whole seconds left of a limit, none when it is over. */
  function Left(limit: nat, elapsed: int): nat {
    if elapsed >= limit then 0 else (limit - elapsed) / 1_000_000 % 65536
  }

  predicate CountsDownToStart(p: P) {
    && p.leaf in {StartBurst, WaitStarting, WaitStarted}
    && p.request.kind in {Manual, CarStart} && p.status != Started
  }

  predicate CountsDownToStop(p: P) {
    p.leaf in {StopBurst, WaitStopped} && p.status != Unknown && p.stop.retries < 4
  }

  lemma DisplayShows(was: seq<nat>, seconds: nat, tenths: nat, unit: nat, flag: nat)
    requires |was| == 8 && was[6] < 256 && tenths < 16 && unit < 16 && flag < 16
    ensures Shows(was, Display(was, seconds, tenths, unit, flag), seconds % 65536, tenths, unit, flag)
  {
  }

  /** Every frame the machine filters, in bytes: seventy seconds to start and ten to stop, the
      attempt in the tenths, and which unit and flag stand for what. All other frames pass. */
  lemma ForwardInBytes(p: P, id: nat, data: seq<nat>, toCar: bool)
    requires |data| == 8 && (forall b :: b in data ==> b < 256) && DefaultChild(p.leaf).None?
    ensures var verdict := Forward(p, id, data, toCar);
      var session := p.leaf in {CarStartDelay, StartBurst, WaitStarting, WaitStarted, Active, Managed};
      if !toCar then verdict == Passthrough
      else if id == 0x0C7 && session then verdict == Block
      else if id == 0x4ED && session then verdict == Modified(data[..5] + [0x10, 0xA0, 0x00])
      else if id == 0x4CC && (CountsDownToStart(p) || CountsDownToStop(p)) then
        verdict == Modified([0x02] + data[1..])
      else if id == 0x4E8 && CountsDownToStart(p) then
        && verdict.Modified?
        && (if p.status == Unknown
            then Shows(data, verdict.data, Left(70_000_000, p.now - p.request.lastAttempt), 0, 0, 4)
            else Shows(data, verdict.data, Left(70_000_000, p.now - p.request.lastAttempt),
                       p.request.retries % 10, if p.request.retries == 0 then 4 else 1,
                       if p.status == Starting then 0 else 1))
      else if id == 0x4E8 && CountsDownToStop(p) then
        && verdict.Modified?
        && Shows(data, verdict.data, Left(10_000_000, p.now - p.stop.lastAttempt),
                 p.stop.retries % 10, if p.stop.retries == 0 then 3 else 2, 15)
      else verdict == Passthrough
  {
    hide Shows, Display;
    assert data[6] in data;
    if CountsDownToStart(p) {
      var known := p.status != Unknown;
      DisplayShows(data, SecondsLeft(STARTED_TIMEOUT_US, p.now - p.request.lastAttempt),
                   if known then p.request.retries % 10 else 0,
                   if known then (if p.request.retries == 0 then 4 else 1) else 0,
                   if known then (if p.status == Starting then 0 else 1) else 4);
    } else if CountsDownToStop(p) {
      DisplayShows(data, SecondsLeft(RETRY_US, p.now - p.stop.lastAttempt), p.stop.retries % 10,
                   if p.stop.retries == 0 then 3 else 2, 15);
    }
    assert data[5 := 0x10][6 := 0xA0][7 := 0x00] == data[..5] + [0x10, 0xA0, 0x00];
    assert data[0 := 0x02] == [0x02] + data[1..];
  }
}
