/** Safety of the preconditioning machine over whole runs, in each of its modes. */
module PreconditionLaws {
  import opened Wrappers
  import opened Precondition

  // ---------------------------------------------------------------- invariants

  /** What each leaf means, whether or not a further transition is pending. */
  ghost predicate Core(p: P) {
    && DefaultChild(p.leaf).None?
    // the latch of the repeating modes
    && (Repeating(p) ==> (p.latch <==> UnderRequested(p.leaf)))
    // once mode
    && (p.mode == Once ==> !p.latch && p.leaf != Managed && p.leaf != CarStartDelay)
    && (p.mode == Once && UnderRequested(p.leaf) ==> p.request.kind == Manual)
    // persistent mode
    && (p.leaf == CarStartDelay ==> p.mode == Persistent)
    // retry budgets
    && (UnderRequested(p.leaf) ==> p.request.retries <= MAX_RETRIES && p.request.bursts <= p.request.retries + 1)
    && (UnderStopping(p.leaf) ==> p.stop.retries <= MAX_RETRIES && p.stop.bursts <= p.stop.retries + 1)
    // bursts
    && (p.leaf == StartBurst && p.pending.None? ==>
          p.leafTicks < START_TICKS && p.history.sent == START_SEQUENCE[..p.leafTicks])
    && (p.leaf == StopBurst && p.pending.None? ==>
          p.leafTicks < STOP_TICKS && p.history.sent == STOP_SEQUENCE[..p.leafTicks])
    && HistoryOk(p.history)
  }

  ghost predicate HistoryOk(h: History) {
    && (forall b :: b in h.completed ==> b == START_SEQUENCE || b == STOP_SEQUENCE)
    && BmuRestart !in h.startKinds
    && h.longest <= 2
  }

  /** An attempt observed rather than launched never rests where start messages are sent. */
  predicate Silent(p: P) {
    UnderRequested(p.leaf) && p.request.kind == BmuRestart ==> p.leaf != StartBurst && p.leaf != WaitStarting
  }

  /** What holds between dispatches. */
  ghost predicate Good(p: P) {
    Core(p) && p.pending.None? && Silent(p)
  }

  /** The requests that handlers make from a leaf. */
  predicate Legal(p: P) {
    p.pending.Some? ==>
      var t, a := p.pending.value, p.pendingArg;
      if UnderRequested(p.leaf) then
        match t
        case Requested => Repeating(p) && 1 <= a <= 3
        case Managed => Repeating(p)
        case CarStartDelay => p.mode == Persistent
        case StartBurst => p.request.kind != BmuRestart && p.request.bursts <= p.request.retries <= MAX_RETRIES
        case WaitStarting => p.request.kind != BmuRestart
        case WaitStarted => true
        case Active => true
        case Stopping => a <= MAX_RETRIES
        case Idle => true
        case _ => false
      else if UnderStopping(p.leaf) then
        match t
        case Requested => a == 0
        case Idle => true
        case StopBurst => p.stop.bursts <= p.stop.retries <= MAX_RETRIES
        case WaitStopped => true
        case _ => false
      else t == Requested && a == 0
  }

  /** The follow-up requests that enter handlers make. */
  predicate FollowUp(p: P) {
    && p.leaf == StartBurst && p.pending.Some?
    && (p.pending.value == Managed || p.pending.value == Active || p.pending.value == WaitStarted
        || p.pending.value == Stopping)
  }

  // ---------------------------------------------------------------- one transition in closed form

  lemma ExitPair(p: P, a: St, b: St)
    ensures ExitAll(p, [a]) == Exit(p, a)
    ensures ExitAll(p, [a, b]) == Exit(Exit(p, a), b)
  {
    assert [a][1..] == [] && [a, b][1..] == [b];
    assert ExitAll(Exit(p, a), [b]) == Exit(Exit(p, a), b) by { assert [b][1..] == []; }
  }

  lemma EnterPair(p: P, a: St, b: St)
    ensures EnterAll(p, [a]) == Enter(p, a)
    ensures EnterAll(p, [a, b]) == Enter(Enter(p, a), b)
  {
    hide Enter;
    assert [a][1..] == [] && [a, b][1..] == [b];
    assert EnterAll(Enter(p, a), [b]) == Enter(Enter(p, a), b) by { assert [b][1..] == []; }
  }

  /** Between children of one composite: only the target is entered. */
  lemma SiblingHop(p: P, t: St)
    requires Sibling(p.leaf, t)
    ensures Transition(p, t) == Enter(p, t).(leaf := t, leafTicks := 0)
  {
    hide Enter;
    ExitPair(p, p.leaf, p.leaf);
    EnterPair(p, t, t);
    assert [] + [t] + [] == [t];
  }

  /** Leaving a composite, or idle, for a root state. */
  function Leave(p: P): P {
    if Parent(p.leaf).Some? then Exit(p, Parent(p.leaf).value) else p
  }

  lemma LeavingOnlyUnlatches(p: P)
    ensures Leave(p) == p.(latch := Leave(p).latch)
  {
  }

  lemma CompositeHop(p: P, t: St)
    requires DefaultChild(p.leaf).None? && DefaultChild(t).Some?
    ensures Transition(p, t)
         == Enter(Enter(Leave(p), t), DefaultChild(t).value).(leaf := DefaultChild(t).value, leafTicks := 0)
  {
    hide Enter;
    var d := DefaultChild(t).value;
    if Parent(p.leaf).Some? {
      ExitPair(p, p.leaf, Parent(p.leaf).value);
    } else {
      ExitPair(p, p.leaf, p.leaf);
    }
    EnterPair(Leave(p), t, d);
    assert [] + [t] + [d] == [t, d];
  }

  lemma IdleHop(p: P)
    requires DefaultChild(p.leaf).None?
    ensures Transition(p, Idle) == Enter(Leave(p), Idle).(leaf := Idle, leafTicks := 0)
  {
    hide Enter;
    if Parent(p.leaf).Some? {
      ExitPair(p, p.leaf, Parent(p.leaf).value);
    } else {
      ExitPair(p, p.leaf, p.leaf);
    }
    EnterPair(Leave(p), Idle, Idle);
    assert [] + [Idle] + [] == [Idle];
  }

  function Taken(p: P): P
    requires p.pending.Some?
  {
    p.(pending := None, entryArg := p.pendingArg, pendingArg := 0)
  }

  /** What a transition must establish. */
  ghost predicate Hopped(p: P, q: P) {
    && Core(q) && Legal(q) && q.history.restores == p.history.restores
    && q.mode == p.mode && q.now == p.now
    && (if q.pending.None? then Silent(q) else FollowUp(q))
  }

  lemma HopToSibling(p: P)
    requires Core(p) && Legal(p) && p.pending.Some? && Sibling(p.leaf, p.pending.value)
    ensures Hopped(p, TakePending(p))
    ensures p.pending.value != StartBurst ==> TakePending(p).pending.None?
  {
    hide Transition, ExitAll, EnterAll, ExitList, EnterList, EnterIdle, EnterRequested;
    SiblingHop(Taken(p), p.pending.value);
  }

  /** The effect of entering the request state and its burst. */
  lemma RequestEntered(p: P)
    ensures var q := Enter(Enter(p, Requested), StartBurst);
      && q.request.kind == KindOf(p.entryArg) && q.request.retries == 0 && q.request.bursts == 1
      && q.latch == (Repeating(p) || p.latch)
      && SameRecord(p.history, q.history) && q.history.sent == []
      && q.mode == p.mode && q.now == p.now && q.stop == p.stop
      && (q.pending, q.pendingArg) ==
           if p.batteryWarm then (if p.mode == Once then (Some(Stopping), MAX_RETRIES) else (Some(Managed), 0))
           else if q.request.kind == BmuRestart then (Some(if p.status == Started then Active else WaitStarted), 0)
           else (p.pending, p.pendingArg)
  {
  }

  /** What the invariants look at in a history. */
  predicate SameRecord(h: History, k: History) {
    k.completed == h.completed && k.startKinds == h.startKinds && k.longest == h.longest && k.restores == h.restores
  }

  lemma RecordKeepsHistoryOk(h: History, k: History)
    requires HistoryOk(h) && SameRecord(h, k)
    ensures HistoryOk(k)
  {
  }

  lemma HopToRequested(p: P)
    requires Core(p) && Legal(p) && p.pending == Some(Requested)
    ensures Hopped(p, TakePending(p))
  {
    hide Transition, Enter, HistoryOk;
    var outside := Leave(Taken(p));
    CompositeHop(Taken(p), Requested);
    RequestEntered(outside);
    RecordKeepsHistoryOk(p.history, Enter(Enter(outside, Requested), StartBurst).history);
  }

  lemma HopToStopping(p: P)
    requires Core(p) && Legal(p) && p.pending == Some(Stopping)
    ensures Hopped(p, TakePending(p)) && TakePending(p).pending.None?
  {
    hide Transition, ExitAll, EnterAll, ExitList, EnterList, EnterIdle, EnterStartBurst, EnterRequested;
    CompositeHop(Taken(p), Stopping);
  }

  lemma HopToIdle(p: P)
    requires Core(p) && Legal(p) && p.pending == Some(Idle)
    ensures Hopped(p, TakePending(p)) && TakePending(p).pending.None?
  {
    hide Transition, ExitAll, EnterAll, ExitList, EnterList, EnterRequested, EnterStartBurst, EnterStopBurst;
    IdleHop(Taken(p));
  }

  lemma FirstHop(p: P)
    requires Core(p) && Legal(p) && p.pending.Some?
    ensures Hopped(p, TakePending(p))
    ensures FollowUp(p) ==> TakePending(p).pending.None?
  {
    hide Core, TakePending, Hopped;
    if p.pending == Some(Requested) {
      HopToRequested(p);
    } else if p.pending == Some(Stopping) {
      HopToStopping(p);
    } else if p.pending == Some(Idle) {
      HopToIdle(p);
    } else {
      HopToSibling(p);
    }
  }

  /** Every chain of transitions has at most two steps, so the limit of eight is never met. */
  lemma SettleIsGood(p: P)
    requires Core(p) && Legal(p) && (p.pending.None? ==> Silent(p))
    ensures Good(Settle(p)) && Settle(p).history.restores == p.history.restores
    ensures Settle(p).mode == p.mode && Settle(p).now == p.now
    ensures Chain(p, 8).0.pending.None? && Chain(p, 8).1 <= 2
  {
    hide TakePending, Legal;
    if p.pending.Some? {
      FirstHop(p);
      var q := TakePending(p);
      assert Chain(p, 8) == (Chain(q, 7).0, Chain(q, 7).1 + 1);
      if q.pending.Some? {
        FirstHop(q);
        var r := TakePending(q);
        assert Chain(q, 7) == (Chain(r, 6).0, Chain(r, 6).1 + 1);
        assert Chain(r, 6) == (r, 0);
      } else {
        assert Chain(q, 7) == (q, 0);
      }
    } else {
      assert Chain(p, 8) == (p, 0);
    }
  }

  // ---------------------------------------------------------------- handlers

  /** What a dispatch handler leaves to the engine: a legal request, or a state that may rest. */
  ghost predicate Asked(p: P, q: P) {
    && Core(q) && Legal(q) && (q.pending.None? ==> Silent(q))
    && q.mode == p.mode && q.now == p.now && q.history.restores == p.history.restores
  }

  lemma LeafEventIsLegal(p: P, ev: Ev)
    requires Good(p)
    ensures Asked(p, LeafEvent(p, ev).0)
  {
    hide HistoryOk, IdleEvent, ActiveEvent, ManagedEvent;
    match p.leaf {
      case Idle => IdleEventIsLegal(p, ev);
      case Active => ActiveEventIsLegal(p, ev);
      case Managed => ManagedEventIsLegal(p, ev);
      case _ =>
    }
  }

  lemma IdleEventIsLegal(p: P, ev: Ev)
    requires Good(p) && p.leaf == Idle
    ensures Asked(p, IdleEvent(p, ev).0)
  {
    hide HistoryOk;
  }

  lemma ActiveEventIsLegal(p: P, ev: Ev)
    requires Good(p) && p.leaf == Active
    ensures Asked(p, ActiveEvent(p, ev).0)
  {
    hide HistoryOk;
  }

  lemma ManagedEventIsLegal(p: P, ev: Ev)
    requires Good(p) && p.leaf == Managed
    ensures Asked(p, ManagedEvent(p, ev).0)
  {
    hide HistoryOk;
  }

  lemma OuterEventIsLegal(p: P, ev: Ev)
    requires Good(p)
    ensures Asked(p, OuterEvent(p, ev))
  {
    hide HistoryOk;
  }

  lemma OfferIsLegal(p: P, ev: Ev)
    requires Good(p)
    ensures Asked(p, Offer(p, ev))
  {
    hide LeafEvent, OuterEvent, Legal;
    LeafEventIsLegal(p, ev);
    var (q, handled) := LeafEvent(p, ev);
    if q.pending.None? && !handled {
      OuterEventIsLegal(q, ev);
    }
  }

  lemma DispatchIsGood(p: P, at: int, ev: Ev)
    requires Good(p)
    ensures Good(Dispatch(p, at, ev)) && Dispatch(p, at, ev).history.restores == p.history.restores
    ensures Dispatch(p, at, ev).mode == p.mode && Dispatch(p, at, ev).now == at
  {
    hide Offer, Legal, Settle;
    StampIsGood(p, at);
    OfferIsLegal(p.(now := at), ev);
    SettleIsGood(Offer(p.(now := at), ev));
  }

  /** After a tick handler that requests nothing, one more message of the burst is out. */
  lemma LeafTickIsLegal(p: P)
    requires Good(p)
    ensures LeafTick(p).pending.Some? ==> Asked(p, LeafTick(p))
    ensures LeafTick(p).pending.None? ==>
      var q := LeafTick(p); Good(q.(leafTicks := q.leafTicks + 1)) && Asked(p, q.(leafTicks := q.leafTicks + 1))
  {
    hide StartBurstTick, StopBurstTick, HistoryOk;
    if p.leaf == StartBurst {
      StartTickIsLegal(p);
    } else if p.leaf == StopBurst {
      StopTickIsLegal(p);
    } else {
      QuietTickIsLegal(p);
    }
  }

  lemma QuietTickIsLegal(p: P)
    requires Good(p) && p.leaf != StartBurst && p.leaf != StopBurst
    ensures Asked(p, LeafTick(p))
    ensures LeafTick(p).leaf == p.leaf
  {
    hide StartBurstTick, StopBurstTick, HistoryOk, WaitStartingTick, WaitStartedTick;
    match p.leaf {
      case WaitStarting => WaitTickIsLegal(p);
      case WaitStarted => WaitTickIsLegal(p);
      case _ =>
    }
  }

  lemma WaitTickIsLegal(p: P)
    requires Good(p) && (p.leaf == WaitStarting || p.leaf == WaitStarted)
    ensures Asked(p, LeafTick(p)) && LeafTick(p).leaf == p.leaf
  {
    hide StartBurstTick, StopBurstTick, HistoryOk, WaitStoppedTick;
  }

  lemma StartTickIsLegal(p: P)
    requires Good(p) && p.leaf == StartBurst
    ensures LeafTick(p).pending.Some? ==> Asked(p, LeafTick(p))
    ensures LeafTick(p).pending.None? ==> Good(LeafTick(p).(leafTicks := p.leafTicks + 1))
    ensures LeafTick(p).leafTicks == p.leafTicks && LeafTick(p).mode == p.mode && LeafTick(p).now == p.now
    ensures LeafTick(p).history.restores == p.history.restores && LeafTick(p).leaf == p.leaf
  {
    var t := p.leafTicks;
    assert START_SEQUENCE[..t] + [StartMsg(t)] == START_SEQUENCE[..t + 1];
    assert START_SEQUENCE[..6] == START_SEQUENCE;
  }

  lemma StopTickIsLegal(p: P)
    requires Good(p) && p.leaf == StopBurst
    ensures LeafTick(p).pending.Some? ==> Asked(p, LeafTick(p))
    ensures LeafTick(p).pending.None? ==> Good(LeafTick(p).(leafTicks := p.leafTicks + 1))
    ensures LeafTick(p).leafTicks == p.leafTicks && LeafTick(p).mode == p.mode && LeafTick(p).now == p.now
    ensures LeafTick(p).history.restores == p.history.restores && LeafTick(p).leaf == p.leaf
  {
    var t := p.leafTicks;
    assert STOP_SEQUENCE[..t] + [StopMsg(t)] == STOP_SEQUENCE[..t + 1];
    assert STOP_SEQUENCE[..6] == STOP_SEQUENCE;
  }

  lemma WalkIsGood(p: P)
    requires Good(p)
    ensures Good(Walk(p)) && Walk(p).history.restores == p.history.restores && Walk(p).mode == p.mode
  {
    hide LeafTick, Legal, Settle, Core;
    LeafTickIsLegal(p);
    if LeafTick(p).pending.Some? {
      SettleIsGood(LeafTick(p));
    }
  }

  /** A frame updates what is known of the car and is turned into at most one event. */
  lemma ReceiveIsOneDispatch(p: P, at: int, at2: int, f: Frame) returns (q: P, ev: Option<Ev>)
    requires |f.data| == 8
    ensures (q, ev) == Heard(p, at, f)
    ensures q == p.(now := at, carReady := q.carReady, status := q.status, batteryWarm := q.batteryWarm)
    ensures Receive(p, at, at2, f) == (match ev case None => q case Some(e) => Dispatch(q, at2, e))
    ensures ev != Some(Toggle)
  {
    hide Dispatch;
    q, ev := Heard(p, at, f).0, Heard(p, at, f).1;
  }

  lemma ReceiveIsGood(p: P, at: int, at2: int, f: Frame)
    requires Good(p) && |f.data| == 8
    ensures Good(Receive(p, at, at2, f))
    ensures Receive(p, at, at2, f).history.restores == p.history.restores
    ensures Receive(p, at, at2, f).mode == p.mode
  {
    hide Dispatch, Receive, HistoryOk;
    var q, ev := ReceiveIsOneDispatch(p, at, at2, f);
    if ev.Some? {
      DispatchIsGood(q, at2, ev.value);
    }
  }

  lemma StepIsGood(p: P, i: Input)
    requires Good(p) && InputOk(i)
    ensures Good(Step(p, i)) && Step(p, i).history.restores == p.history.restores && Step(p, i).mode == p.mode
  {
    hide Dispatch, Walk, Receive, Core;
    match i
    case Tick(at, toggledAt) =>
      var q := p.(now := at);
      assert Good(q) by { StampIsGood(p, at); }
      match toggledAt {
        case None => WalkIsGood(q);
        case Some(at2) =>
          DispatchIsGood(q, at2, Toggle);
          WalkIsGood(Dispatch(q, at2, Toggle));
      }
    case Rx(at, at2, f) => ReceiveIsGood(p, at, at2, f);
    case Button(at) => DispatchIsGood(p, at, Toggle);
  }

  lemma StampIsGood(p: P, at: int)
    requires Good(p)
    ensures Good(p.(now := at))
  {
  }

  /** A restored session goes straight on to managed; nothing else leaves idle by itself. */
  lemma InitIsGood(mode: Mode, restored: bool, at: int)
    ensures var p := Init(mode, restored, at);
      && Good(p) && p.mode == mode
      && p.leaf == (if mode == Persistent && restored then Managed else Idle)
      && p.history.restores == (if mode == Persistent && restored then 1 else 0)
  {
    var p := Enter(Blank(mode, restored, at), Idle);
    if mode == Persistent && restored {
      var q := TakePending(p);
      ResumeHop(Taken(p));
      assert Chain(p, 8) == (Chain(q, 7).0, Chain(q, 7).1 + 1);
      assert Chain(q, 7) == (q, 0);
    } else {
      assert Chain(p, 8) == (p, 0);
    }
  }

  lemma ResumeHop(p: P)
    requires p.leaf == Idle
    ensures Transition(p, Managed) == Enter(Enter(p, Requested), Managed).(leaf := Managed, leafTicks := 0)
  {
    hide Enter;
    ExitPair(p, Idle, Idle);
    EnterPair(p, Requested, Managed);
    assert [Requested] + [Managed] + [] == [Requested, Managed];
  }

  lemma {:induction false} RunIsGood(p: P, ins: seq<Input>)
    requires Good(p) && forall i :: i in ins ==> InputOk(i)
    ensures Good(Run(p, ins)) && Run(p, ins).mode == p.mode
    ensures Run(p, ins).history.restores == p.history.restores
    decreases |ins|
  {
    hide Core, Step;
    if ins != [] {
      StepIsGood(p, ins[0]);
      RunIsGood(Step(p, ins[0]), ins[1..]);
    }
  }

  // ---------------------------------------------------------------- whole runs

  lemma EveryRunIsGood(mode: Mode, restored: bool, at: int, ins: seq<Input>)
    requires forall i :: i in ins ==> InputOk(i)
    ensures var p := Run(Init(mode, restored, at), ins);
      && Good(p) && p.mode == mode
      && p.history.restores == (if mode == Persistent && restored then 1 else 0)
  {
    hide Good;
    InitIsGood(mode, restored, at);
    RunIsGood(Init(mode, restored, at), ins);
  }

  /** In the repeating modes the latch is on exactly while a session is requested, so idle can
      resume a session only while the machine is being initialised. */
  lemma LatchFollowsSession(mode: Mode, restored: bool, at: int, ins: seq<Input>)
    requires mode != Once && forall i :: i in ins ==> InputOk(i)
    ensures var p := Run(Init(mode, restored, at), ins);
      && (p.latch <==> UnderRequested(p.leaf))
      && p.history.restores == (if mode == Persistent && restored then 1 else 0)
  {
    EveryRunIsGood(mode, restored, at, ins);
  }

  /** Once mode never waits for another session; only persistent mode delays after the car starts. */
  lemma OnceNeverManages(mode: Mode, restored: bool, at: int, ins: seq<Input>)
    requires forall i :: i in ins ==> InputOk(i)
    ensures var p := Run(Init(mode, restored, at), ins);
      && (mode == Once ==> p.leaf != Managed && !p.latch && (UnderRequested(p.leaf) ==> p.request.kind == Manual))
      && (p.leaf == CarStartDelay ==> mode == Persistent)
  {
    EveryRunIsGood(mode, restored, at, ins);
  }

  /** An attempt that only observes a restart of the battery unit never sends a start message. */
  lemma ObservedRestartsAreSilent(mode: Mode, restored: bool, at: int, ins: seq<Input>)
    requires forall i :: i in ins ==> InputOk(i)
    ensures var p := Run(Init(mode, restored, at), ins);
      && BmuRestart !in p.history.startKinds
      && (p.leaf == StartBurst || p.leaf == WaitStarting ==> p.request.kind != BmuRestart)
  {
    EveryRunIsGood(mode, restored, at, ins);
  }

  /** A burst sends its six messages in order, and all of them when it ends by itself. */
  lemma BurstsFollowTheirSequence(mode: Mode, restored: bool, at: int, ins: seq<Input>)
    requires forall i :: i in ins ==> InputOk(i)
    ensures var p := Run(Init(mode, restored, at), ins);
      && (p.leaf == StartBurst ==> p.leafTicks < 6 && p.history.sent == START_SEQUENCE[..p.leafTicks])
      && (p.leaf == StopBurst ==> p.leafTicks < 6 && p.history.sent == STOP_SEQUENCE[..p.leafTicks])
      && forall b :: b in p.history.completed ==> b == START_SEQUENCE || b == STOP_SEQUENCE
  {
    EveryRunIsGood(mode, restored, at, ins);
  }

  /** One request launches at most five start bursts and one stop at most five stop bursts. */
  lemma RetriesAreBounded(mode: Mode, restored: bool, at: int, ins: seq<Input>)
    requires forall i :: i in ins ==> InputOk(i)
    ensures var p := Run(Init(mode, restored, at), ins);
      && (UnderRequested(p.leaf) ==> p.request.retries <= 4 && p.request.bursts <= 5)
      && (UnderStopping(p.leaf) ==> p.stop.retries <= 4 && p.stop.bursts <= 5)
  {
    EveryRunIsGood(mode, restored, at, ins);
  }

  /** No dispatch of a run takes more than two transitions in a row, and none is left pending:
      the engine never drops a transition of this machine. */
  lemma ChainsAreShort(mode: Mode, restored: bool, at: int, ins: seq<Input>)
    requires forall i :: i in ins ==> InputOk(i)
    ensures var p := Run(Init(mode, restored, at), ins);
      p.history.longest <= 2 && p.pending.None? && DefaultChild(p.leaf).None?
  {
    EveryRunIsGood(mode, restored, at, ins);
  }
}
