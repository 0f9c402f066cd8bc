/** The preconditioning machine under a clock that never runs backwards: attempts are stamped with
    times that have passed, and those made on the machine's own account keep their distance. */
module PreconditionClock {
  import opened Wrappers
  import opened Precondition
  import opened PreconditionLaws

  // ---------------------------------------------------------------- the clock

  /** The clock never runs backwards and every tick finds it later than before. */
  predicate Advances(p: P, i: Input) {
    match i
    case Tick(at, toggledAt) => p.now < at && (toggledAt.Some? ==> at <= toggledAt.value)
    case Rx(at, at2, _) => p.now <= at <= at2
    case Button(at) => p.now <= at
  }

  predicate Advancing(p: P, ins: seq<Input>)
    requires forall i :: i in ins ==> InputOk(i)
    decreases |ins|
  {
    ins != [] ==> Advances(p, ins[0]) && Advancing(Step(p, ins[0]), ins[1..])
  }

  function LastLaunch(launches: seq<Launch>): int {
    if launches == [] then 0 else launches[|launches| - 1].at
  }

  /** Attempts in order of time, those made on the machine's own account at a distance from the one
      before: periodic ones more than five minutes, those after a car start at least eight seconds. */
  predicate Spaced(launches: seq<Launch>)
    decreases |launches|
  {
    launches == [] ||
    (var before, last := launches[..|launches| - 1], launches[|launches| - 1];
      && Spaced(before)
      && 0 <= LastLaunch(before) <= last.at
      && (last.kind == Periodic ==> last.at - LastLaunch(before) > NUDGE_INTERVAL_US)
      && (last.kind == CarStart ==> last.at - LastLaunch(before) >= CAR_START_DELAY_US))
  }

  /** A session is as old as its last attempt; the timers of the waiting states started later. */
  predicate Paced(p: P) {
    && Spaced(p.history.launches)
    && 0 <= LastLaunch(p.history.launches) <= p.now
    && (UnderRequested(p.leaf) ==> p.outerSince == LastLaunch(p.history.launches))
    && (p.leaf == Managed ==> LastLaunch(p.history.launches) <= p.nudgeBase)
    && (p.leaf == CarStartDelay ==> LastLaunch(p.history.launches) <= p.innerSince)
  }

  /** A request for such an attempt is made when its timer has run out. */
  predicate Timely(p: P) {
    p.pending == Some(Requested) ==>
      && (KindOf(p.pendingArg) == Periodic ==> p.leaf == Managed && p.now - p.nudgeBase > NUDGE_INTERVAL_US)
      && (KindOf(p.pendingArg) == CarStart ==>
            p.leaf == CarStartDelay && p.now - p.innerSince >= CAR_START_DELAY_US)
  }

  /** Attempts are stamped with times that have passed. */
  predicate Clocked(p: P) {
    && 0 <= p.now && Paced(p)
    && (UnderRequested(p.leaf) ==> p.request.lastAttempt <= p.now)
    && (UnderStopping(p.leaf) ==> p.stop.lastAttempt <= p.now)
  }

  lemma LaunchKeepsSpaced(launches: seq<Launch>, l: Launch)
    requires Spaced(launches) && 0 <= LastLaunch(launches) <= l.at
    requires l.kind == Periodic ==> l.at - LastLaunch(launches) > NUDGE_INTERVAL_US
    requires l.kind == CarStart ==> l.at - LastLaunch(launches) >= CAR_START_DELAY_US
    ensures Spaced(launches + [l]) && LastLaunch(launches + [l]) == l.at
  {
    assert (launches + [l])[..|launches|] == launches;
  }

  lemma SiblingKeepsClocked(p: P, t: St)
    requires Clocked(p) && Sibling(p.leaf, t) && p.pending == Some(t)
    ensures Clocked(TakePending(p))
  {
    hide Transition, Enter, Spaced;
    SiblingHop(Taken(p), t);
    EntryIsClocked(Taken(p), t);
  }

  lemma IdleKeepsClocked(p: P)
    requires Clocked(p) && DefaultChild(p.leaf).None? && p.pending == Some(Idle)
    ensures Clocked(TakePending(p))
  {
    hide Transition, Enter, Spaced;
    IdleHop(Taken(p));
    EntryIsClocked(Leave(Taken(p)), Idle);
  }

  lemma CompositeKeepsClocked(p: P, t: St)
    requires Clocked(p) && Timely(p) && DefaultChild(p.leaf).None? && DefaultChild(t).Some? && p.pending == Some(t)
    ensures Clocked(TakePending(p))
  {
    hide Transition, Enter, Spaced, Leave;
    var outside := Leave(Taken(p));
    LeavingOnlyUnlatches(Taken(p));
    CompositeHop(Taken(p), t);
    EntryIsClocked(outside, t);
    EntryIsClocked(Enter(outside, t), DefaultChild(t).value);
    if t == Requested {
      LaunchKeepsSpaced(p.history.launches, Launch(KindOf(p.pendingArg), p.now));
    }
  }

  lemma HopKeepsClocked(p: P)
    requires Core(p) && Legal(p) && p.pending.Some? && Clocked(p) && Timely(p)
    ensures Clocked(TakePending(p))
  {
    hide TakePending, HistoryOk, Clocked, Timely, Legal;
    LegalTargets(p);
    var t := p.pending.value;
    if Sibling(p.leaf, t) {
      SiblingKeepsClocked(p, t);
    } else if t == Idle {
      IdleKeepsClocked(p);
    } else {
      CompositeKeepsClocked(p, t);
    }
  }

  lemma LegalTargets(p: P)
    requires Core(p) && Legal(p) && p.pending.Some?
    ensures var t := p.pending.value; Sibling(p.leaf, t) || t == Idle || DefaultChild(t).Some?
  {
  }

  /** Entering a state leaves the clock alone, stamps no attempt later than now, and launches an
      attempt exactly when the request state is entered. */
  lemma EntryIsClocked(p: P, s: St)
    ensures var q := Enter(p, s);
      && q.now == p.now
      && (0 <= p.now && (s == Requested || p.request.lastAttempt <= p.now) ==> q.request.lastAttempt <= q.now)
      && (0 <= p.now && (s == Stopping || p.stop.lastAttempt <= p.now) ==> q.stop.lastAttempt <= q.now)
      && q.history.launches == (if s == Requested then p.history.launches + [Launch(KindOf(p.entryArg), p.now)]
                                else p.history.launches)
      && (s == Managed ==> q.nudgeBase == p.now)
      && q.outerSince == (if Parent(s).None? then p.now else p.outerSince)
      && (Parent(s).Some? ==> q.innerSince == p.now)
      && q.entryArg == p.entryArg
  {
  }

  lemma SettleKeepsClocked(p: P)
    requires Core(p) && Legal(p) && (p.pending.None? ==> Silent(p)) && Clocked(p) && Timely(p)
    ensures Clocked(Settle(p))
  {
    hide TakePending, Legal, Core, Hopped, Spaced;
    if p.pending.Some? {
      ClockedChain(p, 8);
    } else {
      assert Chain(p, 8) == (p, 0);
    }
  }

  lemma {:induction false} ClockedChain(p: P, n: nat)
    requires Core(p) && Legal(p) && Clocked(p) && Timely(p)
    ensures Clocked(Chain(p, n).0)
    decreases n
  {
    hide TakePending, Legal, Core, Clocked, Silent;
    if p.pending.Some? && n != 0 {
      HopKeepsClocked(p);
      FirstHop(p);
      assert Timely(TakePending(p)) by { assert Hopped(p, TakePending(p)); }
      ClockedChain(TakePending(p), n - 1);
    }
  }

  lemma DispatchKeepsClocked(p: P, at: int, ev: Ev)
    requires Good(p) && Clocked(p) && p.now <= at
    ensures Clocked(Dispatch(p, at, ev)) && Dispatch(p, at, ev).now == at
  {
    hide Legal, Settle, HistoryOk, LeafEvent, Good;
    var now := p.(now := at);
    LeafEventIsClocked(now, ev);
    StampIsGood(p, at);
    OfferIsLegal(now, ev);
    SettleKeepsClocked(Offer(now, ev));
    SettleIsGood(Offer(now, ev));
  }

  lemma LeafEventIsClocked(p: P, ev: Ev)
    requires Clocked(p)
    ensures Clocked(LeafEvent(p, ev).0) && (p.pending.None? ==> Timely(LeafEvent(p, ev).0))
  {
    hide Spaced;
  }

  lemma WalkKeepsClocked(p: P)
    requires Good(p) && Clocked(p)
    ensures Clocked(Walk(p)) && Walk(p).now == p.now
  {
    assert p.pending.None?;
    hide Legal, Settle, HistoryOk, Good, LeafTick;
    assert Clocked(LeafTick(p)) && LeafTick(p).now == p.now by { LeafTickIsClocked(p); }
    LeafTickIsTimely(p);
    LeafTickIsLegal(p);
    if LeafTick(p).pending.Some? {
      SettleKeepsClocked(LeafTick(p));
      SettleIsGood(LeafTick(p));
    }
  }

  /** Everything `Clocked` looks at. */
  predicate SameTimes(p: P, q: P) {
    && q.leaf == p.leaf && q.now == p.now && q.history.launches == p.history.launches
    && q.outerSince == p.outerSince && q.innerSince == p.innerSince && q.nudgeBase == p.nudgeBase
    && q.request.lastAttempt == p.request.lastAttempt && q.stop.lastAttempt == p.stop.lastAttempt
  }

  lemma BurstsMoveNoTimes(p: P)
    ensures SameTimes(p, StartBurstTick(p)) && SameTimes(p, StopBurstTick(p))
  {
  }

  lemma WaitsMoveNoTimes(p: P)
    ensures SameTimes(p, WaitStartingTick(p)) && SameTimes(p, WaitStartedTick(p)) && SameTimes(p, WaitStoppedTick(p))
  {
    hide SameTimes;
    assert SameTimes(p, StartTimeout(p)) by { TimeoutMovesNoTimes(p); }
    assert SameTimes(p, AbortStart(p)) && SameTimes(p, Go(p, Active)) && SameTimes(p, p) by { RequestsMoveNoTimes(p); }
    assert SameTimes(p, WaitStoppedTick(p)) by { TimeoutMovesNoTimes(p); }
  }

  lemma TimeoutMovesNoTimes(p: P)
    ensures SameTimes(p, StartTimeout(p)) && SameTimes(p, WaitStoppedTick(p))
  {
  }

  lemma RequestsMoveNoTimes(p: P)
    ensures SameTimes(p, AbortStart(p)) && SameTimes(p, Go(p, Active)) && SameTimes(p, p)
  {
  }

  lemma LeafTickMovesNoTimes(p: P)
    ensures SameTimes(p, LeafTick(p))
  {
    hide StartBurstTick, StopBurstTick, WaitStartingTick, WaitStartedTick, WaitStoppedTick;
    BurstsMoveNoTimes(p);
    WaitsMoveNoTimes(p);
  }

  lemma LeafTickIsClocked(p: P)
    requires Clocked(p)
    ensures Clocked(LeafTick(p)) && LeafTick(p).now == p.now
  {
    hide LeafTick, Spaced;
    LeafTickMovesNoTimes(p);
  }

  lemma BurstsAreTimely(p: P)
    requires p.pending.None?
    ensures Timely(StartBurstTick(p)) && Timely(StopBurstTick(p))
  {
    hide StartMsg, StopMsg;
  }

  lemma WaitsAreTimely(p: P)
    requires p.pending.None?
    ensures Timely(WaitStartingTick(p)) && Timely(WaitStartedTick(p)) && Timely(WaitStoppedTick(p))
  {
  }

  lemma LeafTickIsTimely(p: P)
    requires p.pending.None?
    ensures Timely(LeafTick(p))
  {
    hide StartBurstTick, StopBurstTick, WaitStartingTick, WaitStartedTick, WaitStoppedTick;
    BurstsAreTimely(p);
    WaitsAreTimely(p);
  }

  lemma StepKeepsClocked(p: P, i: Input)
    requires Good(p) && Clocked(p) && InputOk(i) && Advances(p, i)
    ensures Clocked(Step(p, i)) && p.now <= Step(p, i).now
  {
    hide Dispatch, Walk, Core;
    match i
    case Tick(at, toggledAt) =>
      var q := p.(now := at);
      StampIsGood(p, at);
      match toggledAt {
        case None => WalkKeepsClocked(q);
        case Some(at2) =>
          DispatchIsGood(q, at2, Toggle);
          DispatchKeepsClocked(q, at2, Toggle);
          WalkKeepsClocked(Dispatch(q, at2, Toggle));
      }
    case Rx(at, at2, f) => ReceiveKeepsClocked(p, at, at2, f);
    case Button(at) => DispatchKeepsClocked(p, at, Toggle);
  }

  lemma ReceiveKeepsClocked(p: P, at: int, at2: int, f: Frame)
    requires Good(p) && Clocked(p) && p.now <= at <= at2 && |f.data| == 8
    ensures Clocked(Receive(p, at, at2, f)) && p.now <= Receive(p, at, at2, f).now
  {
    hide Dispatch, HistoryOk, Receive;
    var q, ev := ReceiveIsOneDispatch(p, at, at2, f);
    if ev.Some? {
      DispatchKeepsClocked(q, at2, ev.value);
    }
  }

  lemma {:induction false} RunKeepsClocked(p: P, ins: seq<Input>)
    requires Good(p) && Clocked(p) && (forall i :: i in ins ==> InputOk(i)) && Advancing(p, ins)
    ensures Clocked(Run(p, ins)) && Good(Run(p, ins))
    decreases |ins|
  {
    hide Good, Clocked, Step;
    if ins != [] {
      StepKeepsClocked(p, ins[0]);
      StepIsGood(p, ins[0]);
      RunKeepsClocked(Step(p, ins[0]), ins[1..]);
    }
  }

  lemma InitIsClocked(mode: Mode, restored: bool, at: int)
    requires 0 <= at
    ensures Clocked(Init(mode, restored, at)) && Good(Init(mode, restored, at))
  {
    hide Good, Enter, TakePending;
    InitIsGood(mode, restored, at);
    var p := Enter(Blank(mode, restored, at), Idle);
    assert Clocked(p) && (mode == Persistent && restored <==> p.pending.Some?)
        && p.leaf == Idle && (p.pending.Some? ==> p.pending == Some(Managed) && p.pendingArg == 0)
        && p.history.launches == [] by { IdleIsClocked(mode, restored, at); }
    if mode == Persistent && restored {
      assert Clocked(TakePending(p)) && TakePending(p).pending.None? by { ResumeIsClocked(p); }
      assert Chain(p, 8) == (Chain(TakePending(p), 7).0, Chain(TakePending(p), 7).1 + 1);
      assert Chain(TakePending(p), 7) == (TakePending(p), 0);
    } else {
      assert Chain(p, 8) == (p, 0);
    }
  }

  lemma IdleIsClocked(mode: Mode, restored: bool, at: int)
    requires 0 <= at
    ensures var p := Enter(Blank(mode, restored, at), Idle);
      && Clocked(p) && (mode == Persistent && restored <==> p.pending.Some?)
      && p.leaf == Idle && (p.pending.Some? ==> p.pending == Some(Managed) && p.pendingArg == 0)
      && p.history.launches == []
  {
  }

  lemma ResumeIsClocked(p: P)
    requires Clocked(p) && p.leaf == Idle && p.pending == Some(Managed) && p.pendingArg == 0
    requires p.history.launches == []
    ensures Clocked(TakePending(p)) && TakePending(p).pending.None?
  {
    hide Transition, Spaced;
    ResumeHop(Taken(p));
    LaunchKeepsSpaced([], Launch(Manual, p.now));
    assert Spaced([]) by { NothingIsSpaced(); }
    EntryIsClocked(Taken(p), Requested);
    EntryIsClocked(Enter(Taken(p), Requested), Managed);
    assert [] + [Launch(Manual, p.now)] == [Launch(Manual, p.now)];
  }

  lemma NothingIsSpaced()
    ensures Spaced([])
  {
  }

  // ---------------------------------------------------------------- attempts keep their distance

  lemma {:induction false} LaunchesInOrder(launches: seq<Launch>, i: nat)
    requires Spaced(launches) && i < |launches|
    ensures launches[i].at <= LastLaunch(launches)
    decreases |launches|
  {
    if i < |launches| - 1 {
      LaunchesInOrder(launches[..|launches| - 1], i);
    }
  }

  lemma {:induction false} SpacedPrefix(launches: seq<Launch>, n: nat)
    requires Spaced(launches) && n <= |launches|
    ensures Spaced(launches[..n])
    decreases |launches|
  {
    if n < |launches| {
      SpacedPrefix(launches[..|launches| - 1], n);
      assert launches[..|launches| - 1][..n] == launches[..n];
    } else {
      assert launches[..n] == launches;
    }
  }

  /** Over every run on such a clock, a periodic attempt comes more than five minutes after every
      attempt before it, and one after a car start at least eight seconds. */
  lemma OwnAttemptsKeepDistance(mode: Mode, restored: bool, at: int, ins: seq<Input>, i: nat, j: nat)
    requires 0 <= at && (forall n :: n in ins ==> InputOk(n)) && Advancing(Init(mode, restored, at), ins)
    requires i < j < |Run(Init(mode, restored, at), ins).history.launches|
    ensures var l := Run(Init(mode, restored, at), ins).history.launches;
      && l[i].at <= l[j].at
      && (l[j].kind == Periodic ==> l[j].at - l[i].at > 300_000_000)
      && (l[j].kind == CarStart ==> l[j].at - l[i].at >= 8_000_000)
  {
    hide Run, Advancing, Init;
    InitIsClocked(mode, restored, at);
    RunKeepsClocked(Init(mode, restored, at), ins);
    var l := Run(Init(mode, restored, at), ins).history.launches;
    SpacedPrefix(l, j + 1);
    assert l[..j + 1][..j] == l[..j];
    LaunchesInOrder(l[..j], i);
  }
}
