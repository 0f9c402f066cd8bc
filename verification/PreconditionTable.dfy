/** What the preconditioning machine is meant to do, as a table: for every state it can rest in, where
    each event, each frame and each tick takes it, with the bytes and times written out. */
module PreconditionTable {
  import opened Wrappers
  import opened Precondition
  import opened PreconditionLaws

  // ---------------------------------------------------------------- outcomes

  /** Where a step ends, the attempt it launches, how many retries are then used up, and whether idle
      has a notice to show that the car ended the session. */
  datatype Outcome = Outcome(leaf: St, launch: Option<Attempt>, tries: nat, notice: bool)

  function Tries(p: P): nat {
    if UnderRequested(p.leaf) then p.request.retries else if UnderStopping(p.leaf) then p.stop.retries else 0
  }

  predicate Notice(p: P) {
    p.leaf == Idle && p.idle.disabledByCarOff
  }

  /** What is known of the car stays as it is. */
  predicate SameCar(p: P, q: P) {
    q.status == p.status && q.carReady == p.carReady && q.batteryWarm == p.batteryWarm
  }

  /** The step from `p` to `q` at the reading `at` has the outcome. */
  ghost predicate Has(p: P, q: P, at: int, o: Outcome) {
    && q.leaf == o.leaf && Tries(q) == o.tries && Notice(q) == o.notice && SameCar(p, q)
    && q.history.launches == p.history.launches + (match o.launch case None => [] case Some(k) => [Launch(k, at)])
    && q.request.kind == (match o.launch case None => p.request.kind case Some(k) => k)
  }

  function Stay(p: P): Outcome {
    Outcome(p.leaf, None, Tries(p), Notice(p))
  }

  /** On to another state of the same composite. */
  function Move(p: P, leaf: St): Outcome {
    Outcome(leaf, None, Tries(p), false)
  }

  function Stop(tries: nat): Outcome {
    Outcome(StopBurst, None, tries, false)
  }

  function Quit(notice: bool): Outcome {
    Outcome(Idle, None, 0, notice)
  }

  /** A new attempt: with a warm battery nothing is sent, and once mode stops without a word; a restart
      that is only observed is waited for; anything else begins with a burst. */
  function Start(p: P, kind: Attempt): Outcome {
    if p.batteryWarm then
      (if p.mode == Once then Outcome(StopBurst, Some(kind), 4, false) else Outcome(Managed, Some(kind), 0, false))
    else if kind == BmuRestart then
      Outcome(if p.status == Started then Active else WaitStarted, Some(kind), 0, false)
    else Outcome(StartBurst, Some(kind), 0, false)
  }

  /** What every state of a session does with the toggle and with the car going off. */
  function SessionLeads(p: P, at: int, ev: Ev): Outcome {
    match ev
    case Toggle => if at - p.outerSince > 1_000_000 then Stop(0) else Stay(p)
    case CarNotReady => if p.mode == Persistent then Move(p, Managed) else Quit(p.mode == Continuous)
    case _ => Stay(p)
  }

  function StopLeads(p: P, ev: Ev): Outcome {
    match ev
    case Toggle => Start(p, Manual)
    case CarNotReady => Quit(false)
    case _ => Stay(p)
  }

  function EventLeads(p: P, at: int, ev: Ev): Outcome {
    match p.leaf
    case Idle => if ev == Toggle then Start(p, Manual) else Stay(p)
    case WaitStarting =>
      if ev == StatusStarting then Move(p, WaitStarted)
      else if ev == StatusStarted then Move(p, Active)
      else SessionLeads(p, at, ev)
    case WaitStarted => if ev == StatusStarted then Move(p, Active) else SessionLeads(p, at, ev)
    case Active =>
      if ev == StatusStarting then (if p.mode == Once then Move(p, WaitStarted) else Start(p, BmuRestart))
      else if ev == StatusOff then (if p.mode == Once then Stop(0) else Move(p, Managed))
      else SessionLeads(p, at, ev)
    case Managed =>
      if ev == StatusStarting || ev == StatusStarted then Start(p, BmuRestart)
      else if ev == CarReady && p.mode == Persistent then Move(p, CarStartDelay)
      else SessionLeads(p, at, ev)
    case StopBurst => StopLeads(p, ev)
    case WaitStopped => if ev == StatusOff then Quit(false) else StopLeads(p, ev)
    case _ => SessionLeads(p, at, ev)
  }

  /** A warm battery ends an attempt under way. */
  function Aborted(p: P): Outcome {
    if p.mode == Once then Stop(4) else Move(p, Managed)
  }

  /** An attempt that nothing came of: four retries, unless it was a silent one. */
  function TimedOut(p: P): Outcome {
    if p.request.kind == Periodic || p.request.kind == BmuRestart then Move(p, Managed)
    else if p.request.retries < 4 then Outcome(StartBurst, None, p.request.retries + 1, false)
    else Aborted(p)
  }

  /** A tick at the reading the machine has. */
  function TickLeads(p: P): Outcome {
    match p.leaf
    case Idle =>
      Outcome(Idle, None, 0, Notice(p) && !(p.carReady && p.now - p.idle.readyAt >= 8_000_000))
    case CarStartDelay => if p.now - p.innerSince >= 8_000_000 then Start(p, CarStart) else Stay(p)
    case StartBurst =>
      if p.batteryWarm then Aborted(p)
      else if p.leafTicks < 5 then Stay(p)
      else Move(p, if p.status == Started then Active else if p.status == Starting then WaitStarted else WaitStarting)
    case WaitStarting =>
      if p.batteryWarm then Aborted(p)
      else if p.status == Unknown then
        (if p.now - p.request.lastAttempt > 70_000_000 then Move(p, Active) else Stay(p))
      else if p.now - p.request.lastAttempt > 10_000_000 then TimedOut(p)
      else Stay(p)
    case WaitStarted =>
      if p.batteryWarm then Aborted(p)
      else if p.now - p.request.lastAttempt > 70_000_000 then TimedOut(p)
      else Stay(p)
    case Managed => if p.carReady && p.now - p.nudgeBase > 300_000_000 then Start(p, Periodic) else Stay(p)
    case StopBurst =>
      if p.leafTicks < 5 then Stay(p) else if p.status == Unknown then Quit(false) else Move(p, WaitStopped)
    case WaitStopped =>
      if p.now - p.stop.lastAttempt > 10_000_000 then
        (if p.stop.retries < 4 then Outcome(StopBurst, None, p.stop.retries + 1, false) else Quit(false))
      else Stay(p)
    case _ => Stay(p)
  }

  // ---------------------------------------------------------------- where a request ends

  /** The outcome of a request that a handler leaves to the engine. */
  function Requests(p: P): Outcome
    requires p.pending.Some?
  {
    match p.pending.value
    case Requested => Start(p, KindOf(p.pendingArg))
    case Stopping => Stop(p.pendingArg)
    case Idle => Quit(p.pendingArg != 0 && p.mode == Continuous)
    case t => Move(p, t)
  }

  /** Applying a request that leads to no further one. */
  lemma OneHop(p: P)
    requires p.pending.Some? && TakePending(p).pending.None?
    ensures Settle(p) == TakePending(p).(history := Settle(p).history)
    ensures Settle(p).history.launches == TakePending(p).history.launches
  {
    hide TakePending;
    var q := TakePending(p);
    assert Chain(q, 7) == (q, 0);
    assert Chain(p, 8) == (q, 1);
  }

  lemma TwoHops(p: P)
    requires p.pending.Some? && TakePending(p).pending.Some?
    requires TakePending(TakePending(p)).pending.None?
    ensures var r := TakePending(TakePending(p));
      Settle(p) == r.(history := Settle(p).history) && Settle(p).history.launches == r.history.launches
  {
    hide TakePending;
    var q := TakePending(p);
    var r := TakePending(q);
    assert Chain(r, 6) == (r, 0);
    assert Chain(q, 7) == (r, 1);
    assert Chain(p, 8) == (r, 2);
  }

  lemma HasAlike(p: P, q: P, r: P, at: int, o: Outcome)
    requires Has(p, q, at, o) && r == q.(history := r.history) && r.history.launches == q.history.launches
    ensures Has(p, r, at, o)
  {
  }

  /** To a sibling that starts nothing. */
  lemma SiblingSettles(p: P)
    requires Core(p) && p.pending.Some? && Sibling(p.leaf, p.pending.value)
    requires p.pending.value == StartBurst ==> !p.batteryWarm
    ensures TakePending(p).pending.None? && Has(p, TakePending(p), p.now, Requests(p))
  {
    hide Transition, HistoryOk;
    SiblingHop(Taken(p), p.pending.value);
  }

  lemma StoppingSettles(p: P)
    requires DefaultChild(p.leaf).None? && p.pending == Some(Stopping) && p.pendingArg <= 4
    ensures TakePending(p).pending.None? && Has(p, TakePending(p), p.now, Requests(p))
  {
    hide Transition;
    CompositeHop(Taken(p), Stopping);
  }

  lemma IdleSettles(p: P)
    requires Core(p) && p.pending == Some(Idle)
    ensures TakePending(p).pending.None? && Has(p, TakePending(p), p.now, Requests(p))
  {
    hide Transition, HistoryOk;
    IdleHop(Taken(p));
  }

  lemma LaunchEntered(p: P)
    ensures var q := Enter(Enter(p, Requested), StartBurst);
      && q.history.launches == p.history.launches + [Launch(KindOf(p.entryArg), p.now)]
      && SameCar(p, q) && q.mode == p.mode && q.request.retries == 0 && q.request.kind == KindOf(p.entryArg)
  {
  }

  /** What entering the burst state asked of the engine. */
  predicate AskedOnLaunch(p: P, q: P)
    requires p.pending.Some?
  {
    (q.pending, q.pendingArg) ==
      if p.batteryWarm then (if p.mode == Once then (Some(Stopping), 4) else (Some(Managed), 0))
      else if KindOf(p.pendingArg) == BmuRestart then (Some(if p.status == Started then Active else WaitStarted), 0)
      else (None, 0)
  }

  /** The burst state is entered first, with what is asked of the engine there. */
  lemma LaunchHops(p: P)
    requires DefaultChild(p.leaf).None? && p.pending == Some(Requested)
    ensures var q := TakePending(p);
      && Has(p, q, p.now, Outcome(StartBurst, Some(KindOf(p.pendingArg)), 0, false))
      && q.mode == p.mode && q.now == p.now && AskedOnLaunch(p, q)
  {
    hide Transition, Enter, KindOf;
    var outside := Leave(Taken(p));
    LeavingOnlyUnlatches(Taken(p));
    CompositeHop(Taken(p), Requested);
    RequestEntered(outside);
    LaunchEntered(outside);
  }

  lemma LaunchSettles(p: P)
    requires Core(p) && Legal(p) && p.pending == Some(Requested)
    ensures Has(p, Settle(p), p.now, Requests(p))
  {
    hide *;
    var q := TakePending(p);
    CoreIs(p);
    LaunchHops(p);
    FirstHop(p);
    HoppedIs(p, q);
    if q.pending.None? {
      OneHop(p);
      LaunchLeads(p, q);
      HasAlike(p, q, Settle(p), p.now, Requests(p));
    } else {
      FollowUpIs(q);
      LegalIs(q);
      FirstHop(q);
      if q.pending == Some(Stopping) {
        StoppingSettles(q);
      } else {
        SiblingSettles(q);
      }
      var r := TakePending(q);
      TwoHops(p);
      FollowUpLeads(p, q, r);
      HasAlike(p, r, Settle(p), p.now, Requests(p));
    }
  }

  lemma CoreIs(p: P)
    requires Core(p)
    ensures DefaultChild(p.leaf).None?
  {
    hide HistoryOk;
  }

  lemma HoppedIs(p: P, q: P)
    requires Hopped(p, q)
    ensures Core(q) && Legal(q) && q.now == p.now && q.mode == p.mode && (q.pending.Some? ==> FollowUp(q))
  {
    hide Core, Legal, Silent, FollowUp;
  }

  lemma FollowUpIs(q: P)
    requires FollowUp(q)
    ensures q.pending.Some? && DefaultChild(q.leaf).None?
    ensures q.pending == Some(Stopping) || (Sibling(q.leaf, q.pending.value) && q.pending.value != StartBurst)
  {
  }

  lemma LaunchLeads(p: P, q: P)
    requires p.pending == Some(Requested) && AskedOnLaunch(p, q) && q.pending.None?
    requires Has(p, q, p.now, Outcome(StartBurst, Some(KindOf(p.pendingArg)), 0, false))
    ensures Has(p, q, p.now, Requests(p))
  {
    hide KindOf;
  }

  lemma FollowUpLeads(p: P, q: P, r: P)
    requires p.pending == Some(Requested) && AskedOnLaunch(p, q) && q.pending.Some? && q.mode == p.mode
    requires Has(p, q, p.now, Outcome(StartBurst, Some(KindOf(p.pendingArg)), 0, false))
    requires Has(q, r, p.now, Requests(q))
    ensures Has(p, r, p.now, Requests(p))
  {
    hide KindOf;
  }

  /** Every legal request ends where the table says. */
  lemma RequestsSettle(p: P)
    requires Core(p) && Legal(p) && p.pending.Some?
    requires p.pending.value == StartBurst ==> !p.batteryWarm
    ensures Has(p, Settle(p), p.now, Requests(p))
  {
    hide *;
    CoreIs(p);
    LegalIs(p);
    if p.pending == Some(Requested) {
      LaunchSettles(p);
    } else {
      if p.pending == Some(Stopping) {
        StoppingSettles(p);
      } else if p.pending == Some(Idle) {
        IdleSettles(p);
      } else {
        SiblingSettles(p);
      }
      OneHop(p);
      HasAlike(p, TakePending(p), Settle(p), p.now, Requests(p));
    }
  }

  lemma LegalIs(p: P)
    requires Core(p) && Legal(p) && p.pending.Some?
    ensures p.pending == Some(Stopping) ==> p.pendingArg <= 4
    ensures p.pending.value !in {Requested, Stopping, Idle} ==> Sibling(p.leaf, p.pending.value)
  {
    hide HistoryOk;
  }

  // ---------------------------------------------------------------- events

  /** Every event takes every resting state where the table says. */
  lemma EventsFollowTheTable(p: P, at: int, ev: Ev)
    requires Good(p)
    ensures Good(Dispatch(p, at, ev)) && Has(p, Dispatch(p, at, ev), at, EventLeads(p, at, ev))
  {
    hide *;
    var stamped := p.(now := at);
    var asked := Offer(stamped, ev);
    DispatchIsGood(p, at, ev);
    StampIsGood(p, at);
    OfferIsLegal(stamped, ev);
    AskedIs(stamped, asked);
    OfferLeads(p, at, ev);
    LeavesIs(p, asked, at, EventLeads(p, at, ev));
    DispatchIs(p, at, ev);
    if asked.pending.Some? {
      RequestsSettle(asked);
      SameBefore(p, asked, Settle(asked), at, Requests(asked));
    } else {
      HasAlike(p, asked, Settle(asked), at, EventLeads(p, at, ev));
    }
  }

  lemma AskedIs(p: P, q: P)
    requires Asked(p, q)
    ensures Core(q) && Legal(q) && q.now == p.now
  {
    hide Core, Legal, Silent;
  }

  lemma DispatchIs(p: P, at: int, ev: Ev)
    ensures Dispatch(p, at, ev) == Settle(Offer(p.(now := at), ev))
    ensures var q := Offer(p.(now := at), ev);
      q.pending.None? ==>
        Settle(q) == q.(history := Settle(q).history) && Settle(q).history.launches == q.history.launches
  {
    hide Offer;
    var q := Offer(p.(now := at), ev);
    if q.pending.None? {
      assert Chain(q, 8) == (q, 0);
    }
  }

  /** A handler changes neither the leaf nor the attempts launched. */
  lemma SameBefore(p: P, q: P, r: P, at: int, o: Outcome)
    requires Has(q, r, at, o) && SameCar(p, q)
    requires q.history.launches == p.history.launches && q.request.kind == p.request.kind
    ensures Has(p, r, at, o)
  {
  }

  /** What a handler leaves in hand, or the state it leaves alone, is the outcome. */
  ghost predicate Leaves(p: P, q: P, at: int, o: Outcome) {
    && q.history.launches == p.history.launches && q.request.kind == p.request.kind && SameCar(p, q)
    && (q.pending.Some? ==> q.pending.value != StartBurst && Requests(q) == o)
    && (q.pending.None? ==> Has(p, q, at, o))
  }

  lemma OfferLeads(p: P, at: int, ev: Ev)
    requires Good(p)
    ensures Leaves(p, Offer(p.(now := at), ev), at, EventLeads(p, at, ev))
  {
    hide Leaves, Good, Offer, EventLeads;
    if p.leaf == Idle || p.leaf == StopBurst || p.leaf == WaitStopped {
      QuietLeads(p, at, ev);
    } else if p.leaf == Active {
      ActiveLeads(p, at, ev);
    } else if p.leaf == Managed {
      ManagedLeads(p, at, ev);
    } else if p.leaf == WaitStarting || p.leaf == WaitStarted {
      WaitingLeads(p, at, ev);
    } else {
      LaunchingLeads(p, at, ev);
    }
  }

  lemma LeavesIs(p: P, q: P, at: int, o: Outcome)
    requires Leaves(p, q, at, o)
    ensures q.history.launches == p.history.launches && q.request.kind == p.request.kind && SameCar(p, q)
    ensures q.pending.Some? ==> q.pending.value != StartBurst && Requests(q) == o
    ensures q.pending.None? ==> Has(p, q, at, o)
  {
    hide Has, Requests;
  }

  lemma QuietLeads(p: P, at: int, ev: Ev)
    requires Good(p) && p.leaf in {Idle, StopBurst, WaitStopped}
    ensures Leaves(p, Offer(p.(now := at), ev), at, EventLeads(p, at, ev))
  {
    hide HistoryOk, KindOf;
    KindsOf();
  }

  lemma ActiveLeads(p: P, at: int, ev: Ev)
    requires Good(p) && p.leaf == Active
    ensures Leaves(p, Offer(p.(now := at), ev), at, EventLeads(p, at, ev))
  {
    hide HistoryOk, KindOf;
    KindsOf();
  }

  lemma ManagedLeads(p: P, at: int, ev: Ev)
    requires Good(p) && p.leaf == Managed
    ensures Leaves(p, Offer(p.(now := at), ev), at, EventLeads(p, at, ev))
  {
    hide HistoryOk, KindOf;
    KindsOf();
  }

  lemma WaitingLeads(p: P, at: int, ev: Ev)
    requires Good(p) && p.leaf in {WaitStarting, WaitStarted}
    ensures Leaves(p, Offer(p.(now := at), ev), at, EventLeads(p, at, ev))
  {
    hide HistoryOk, KindOf;
    KindsOf();
  }

  lemma LaunchingLeads(p: P, at: int, ev: Ev)
    requires Good(p) && p.leaf !in {Idle, StopBurst, WaitStopped, Active, Managed, WaitStarting, WaitStarted}
    ensures Leaves(p, Offer(p.(now := at), ev), at, EventLeads(p, at, ev))
  {
    hide HistoryOk, KindOf;
    KindsOf();
  }

  lemma KindsOf()
    ensures KindOf(0) == Manual && KindOf(1) == CarStart && KindOf(2) == Periodic && KindOf(3) == BmuRestart
  {
  }

  /** A notice is shown eight seconds after the car is ready again: the reading is kept. */
  lemma ReadyIsNoted(p: P, at: int)
    requires Good(p) && Notice(p)
    ensures Dispatch(p, at, CarReady).idle == IdleCtx(true, at)
  {
    hide HistoryOk, Settle;
    DispatchIs(p, at, CarReady);
  }

  // ---------------------------------------------------------------- ticks

  /** The messages a burst sends at its ticks. */
  function TickSends(p: P): seq<Msg> {
    if p.leaf == StartBurst && !p.batteryWarm then
      [if p.leafTicks < 3 then Msg(0x40, 0x03) else Msg(0xE0, 0x07)]
    else if p.leaf == StopBurst then
      [if p.leafTicks < 3 then Msg(0x00, 0x00) else Msg(0xE0, 0x07)]
    else []
  }

  /** Every tick takes every resting state where the table says, sending what the table says first. */
  lemma TicksFollowTheTable(p: P)
    requires Good(p)
    ensures Good(Walk(p)) && Has(p, Walk(p), p.now, TickLeads(p))
    ensures LeafTick(p).history.sent == p.history.sent + TickSends(p)
    ensures LeafTick(p).pending.None? ==> Walk(p).history.sent == LeafTick(p).history.sent
    ensures LeafTick(p).pending.Some? && p.leaf in {StartBurst, StopBurst} && TickSends(p) != [] ==>
              LeafTick(p).history.completed == p.history.completed + [LeafTick(p).history.sent]
  {
    hide *;
    WalkIsGood(p);
    LeafTickIsLegal(p);
    TickLeaves(p);
    TickIsSent(p);
    WalkIs(p);
    var asked := LeafTick(p);
    LeavesTick(p, asked);
    if asked.pending.Some? {
      AskedIs(p, asked);
      RequestsSettle(asked);
      SameBefore(p, asked, Settle(asked), p.now, Requests(asked));
    }
  }

  lemma WalkIs(p: P)
    ensures var q := LeafTick(p);
      Walk(p) == if q.pending.Some? then Settle(q) else q.(leafTicks := q.leafTicks + 1)
  {
    hide LeafTick;
  }

  lemma TickIsSent(p: P)
    requires Good(p)
    ensures var q := LeafTick(p);
      && q.history.sent == p.history.sent + TickSends(p)
      && (q.pending.Some? && p.leaf in {StartBurst, StopBurst} && TickSends(p) != [] ==>
            q.history.completed == p.history.completed + [q.history.sent])
  {
    hide HistoryOk;
  }

  /** What a tick's handler leaves in hand, or the state it leaves alone, is the outcome. */
  ghost predicate LeavesAtTick(p: P, q: P) {
    && q.history.launches == p.history.launches && q.request.kind == p.request.kind && SameCar(p, q)
    && (q.pending.Some? ==> (q.pending.value == StartBurst ==> !q.batteryWarm) && Requests(q) == TickLeads(p))
    && (q.pending.None? ==> Has(p, q.(leafTicks := q.leafTicks + 1), p.now, TickLeads(p)))
  }

  lemma LeavesTick(p: P, q: P)
    requires LeavesAtTick(p, q)
    ensures q.history.launches == p.history.launches && q.request.kind == p.request.kind && SameCar(p, q)
    ensures q.pending.Some? ==> (q.pending.value == StartBurst ==> !q.batteryWarm) && Requests(q) == TickLeads(p)
    ensures q.pending.None? ==> Has(p, q.(leafTicks := q.leafTicks + 1), p.now, TickLeads(p))
  {
    hide Has, Requests, TickLeads;
  }

  lemma TickLeaves(p: P)
    requires Good(p)
    ensures LeavesAtTick(p, LeafTick(p))
  {
    hide LeavesAtTick, Good, LeafTick;
    if p.leaf in {WaitStarting, WaitStarted} {
      WaitTickLeaves(p);
    } else if p.leaf == StartBurst {
      BurstTickLeaves(p);
    } else if p.leaf in {StopBurst, WaitStopped} {
      StopTickLeaves(p);
    } else {
      OtherTickLeaves(p);
    }
  }

  lemma WaitTickLeaves(p: P)
    requires Good(p) && p.leaf in {WaitStarting, WaitStarted}
    ensures LeavesAtTick(p, LeafTick(p))
  {
    hide HistoryOk, KindOf;
    KindsOf();
  }

  lemma BurstTickLeaves(p: P)
    requires Good(p) && p.leaf == StartBurst
    ensures LeavesAtTick(p, LeafTick(p))
  {
    hide HistoryOk, KindOf;
    KindsOf();
  }

  lemma StopTickLeaves(p: P)
    requires Good(p) && p.leaf in {StopBurst, WaitStopped}
    ensures LeavesAtTick(p, LeafTick(p))
  {
    hide HistoryOk, KindOf;
    KindsOf();
  }

  lemma OtherTickLeaves(p: P)
    requires Good(p) && p.leaf !in {StartBurst, StopBurst, WaitStopped, WaitStarting, WaitStarted}
    ensures LeavesAtTick(p, LeafTick(p))
  {
    hide HistoryOk, KindOf;
    KindsOf();
  }

  // ---------------------------------------------------------------- frames

  /** A frame for which the machine has no use. */
  predicate IsIgnored(f: Frame) {
    || !f.carBus
    || f.id !in {0x038, 0x2AD, 0x0A82AA03, 0x152}
    || (f.id == 0x038 && f.dlc < 1)
    || (f.id == 0x152 && f.dlc < 2)
  }

  /** What the head unit says, and any other frame, changes nothing. */
  lemma OtherFramesAreIgnored(p: P, at: int, at2: int, f: Frame)
    requires |f.data| == 8 && IsIgnored(f)
    ensures Receive(p, at, at2, f) == p.(now := at)
  {
  }

  /** A status report is noted and then dispatched as an event. */
  lemma ReportLeads(p: P, at: int, at2: int, f: Frame, s: Status, ev: Ev)
    requires Good(p) && f.carBus && (f.id == 0x2AD || f.id == 0x0A82AA03) && |f.data| == 8
    requires DecodeStatus(f.data[1]) == Some(s) && s != Unknown && StatusEvent(s) == ev
    ensures var q := Receive(p, at, at2, f);
      Good(q) && q.status == s && Has(p.(status := s), q, at2, EventLeads(p.(status := s), at2, ev))
  {
    hide Dispatch, HistoryOk, EventLeads;
    EventsFollowTheTable(p.(now := at, status := s), at2, ev);
    TableIgnoresNow(p.(status := s), at, at2, ev);
  }

  lemma TableIgnoresNow(p: P, at: int, at2: int, ev: Ev)
    ensures EventLeads(p.(now := at), at2, ev) == EventLeads(p, at2, ev)
  {
  }

  /** The car's status report, of which the low five bits of the second byte count: 0x15 says that
      preconditioning runs, 0x05 that it is starting, 0x01 that it is off, and any other says nothing. */
  lemma StatusReports(p: P, at: int, at2: int, f: Frame)
    requires Good(p) && f.carBus && (f.id == 0x2AD || f.id == 0x0A82AA03) && |f.data| == 8
    ensures var q, b := Receive(p, at, at2, f), f.data[1] % 32;
      && Good(q)
      && (b == 0x15 ==>
            && q.status == Started
            && (p.leaf in {WaitStarting, WaitStarted} ==> q.leaf == Active)
            && (p.leaf == Managed ==> q.leaf == if p.batteryWarm then Managed else Active)
            && (p.leaf !in {WaitStarting, WaitStarted, Managed} ==> q.leaf == p.leaf))
      && (b == 0x05 ==>
            && q.status == Starting
            && (p.leaf == WaitStarting || (p.leaf == Active && p.mode == Once) ==> q.leaf == WaitStarted)
            && (p.leaf == Managed || (p.leaf == Active && p.mode != Once) ==>
                  q.leaf == if p.batteryWarm then Managed else WaitStarted)
            && (p.leaf !in {WaitStarting, Managed, Active} ==> q.leaf == p.leaf))
      && (b == 0x01 ==>
            && q.status == Off
            && (p.leaf == WaitStopped ==> q.leaf == Idle)
            && (p.leaf == Active ==> q.leaf == if p.mode == Once then StopBurst else Managed)
            && (p.leaf !in {WaitStopped, Active} ==> q.leaf == p.leaf))
      && (b !in {0x15, 0x05, 0x01} ==> q == p.(now := at))
  {
    hide Receive, HistoryOk;
    var b := f.data[1] % 32;
    if b == 0x15 {
      ReportLeads(p, at, at2, f, Started, StatusStarted);
    } else if b == 0x05 {
      ReportLeads(p, at, at2, f, Starting, StatusStarting);
    } else if b == 0x01 {
      ReportLeads(p, at, at2, f, Off, StatusOff);
    } else {
      OtherReport(p, at, at2, f);
    }
  }

  lemma OtherReport(p: P, at: int, at2: int, f: Frame)
    requires f.carBus && (f.id == 0x2AD || f.id == 0x0A82AA03) && |f.data| == 8
    requires f.data[1] % 32 !in {0x15, 0x05, 0x01}
    ensures Receive(p, at, at2, f) == p.(now := at)
  {
  }

  /** The car's power frame: it is ready while the low four bits of the first byte are 4. Only a change
      counts. A car going off ends every session but a persistent one, which waits, and every stop;
      a car coming up lets a waiting persistent session start again after a delay. */
  lemma PowerReports(p: P, at: int, at2: int, f: Frame)
    requires Good(p) && f.carBus && f.id == 0x038 && f.dlc >= 1 && |f.data| == 8
    ensures var q, ready := Receive(p, at, at2, f), f.data[0] % 16 == 4;
      && Good(q) && q.carReady == ready
      && (ready == p.carReady ==> q == p.(now := at))
      && (ready && !p.carReady ==>
            q.leaf == if p.leaf == Managed && p.mode == Persistent then CarStartDelay else p.leaf)
      && (!ready && p.carReady ==>
            q.leaf == if UnderRequested(p.leaf) && p.mode == Persistent then Managed else Idle)
      && (!ready && p.carReady && p.leaf != Idle ==>
            (Notice(q) <==> UnderRequested(p.leaf) && p.mode == Continuous))
  {
    hide Dispatch, HistoryOk;
    var ready := f.data[0] % 16 == 4;
    if ready != p.carReady {
      EventsFollowTheTable(p.(now := at, carReady := ready), at2, if ready then CarReady else CarNotReady);
    }
  }

  /** The battery's temperature: a coldest cell at 21 degrees or more, the byte being signed, is warm. */
  lemma TemperatureReports(p: P, at: int, at2: int, f: Frame)
    requires f.carBus && f.id == 0x152 && f.dlc >= 2 && |f.data| == 8 && f.data[0] < 256
    ensures Receive(p, at, at2, f) == p.(now := at, batteryWarm := 21 <= f.data[0] <= 127)
  {
  }

  /** Every step of every run follows the table; a toggle that the web leaves for a tick comes first. */
  lemma RunsFollowTheTable(mode: Mode, restored: bool, at: int, ins: seq<Input>, i: Input)
    requires (forall j :: j in ins ==> InputOk(j)) && InputOk(i)
    ensures var p := Run(Init(mode, restored, at), ins);
      var q := Step(p, i);
      match i
      case Button(at) => Has(p, q, at, EventLeads(p, at, Toggle))
      case Tick(at, None) => Has(p, q, at, TickLeads(p.(now := at)))
      case Tick(at, Some(at2)) =>
        var r := Dispatch(p, at2, Toggle);
        Has(p, r, at2, EventLeads(p, at2, Toggle)) && Has(r, q, at2, TickLeads(r))
      case Rx(at, _, f) => IsIgnored(f) ==> q == p.(now := at)
  {
    hide Walk, Dispatch, Receive, Has, Good, EventLeads, TickLeads;
    EveryRunIsGood(mode, restored, at, ins);
    var p := Run(Init(mode, restored, at), ins);
    match i {
      case Button(at) => EventsFollowTheTable(p, at, Toggle);
      case Tick(at, None) =>
        StampIsGood(p, at);
        TicksFollowTheTable(p.(now := at));
        StampHas(p, Walk(p.(now := at)), at);
      case Tick(at, Some(at2)) =>
        EventsFollowTheTable(p, at2, Toggle);
        DispatchIgnoresNow(p, at, at2);
        TicksFollowTheTable(Dispatch(p, at2, Toggle));
        DispatchIsGood(p, at2, Toggle);
      case Rx(at, at2, f) =>
        if IsIgnored(f) {
          OtherFramesAreIgnored(p, at, at2, f);
        }
    }
  }

  lemma StampHas(p: P, q: P, at: int)
    requires Has(p.(now := at), q, at, TickLeads(p.(now := at)))
    ensures Has(p, q, at, TickLeads(p.(now := at)))
  {
    hide TickLeads;
  }

  lemma DispatchIgnoresNow(p: P, at: int, at2: int)
    ensures Dispatch(p.(now := at), at2, Toggle) == Dispatch(p, at2, Toggle)
  {
    hide Settle, Offer;
  }
}
