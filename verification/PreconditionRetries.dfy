/** How long the preconditioning machine waits before it sends a burst again. */
module PreconditionRetries {
  import opened Wrappers
  import opened Precondition
  import opened PreconditionLaws
  import opened PreconditionClock

  function LastBurst(begun: seq<Burst>): int {
    if begun == [] then 0 else begun[|begun| - 1].at
  }

  /** How long the state that gave up has waited at the least. */
  function Patience(s: St): nat {
    if s == WaitStarted then 70_000_000 else 10_000_000
  }

  /** Retries come from the three waiting states only, and after their patience. */
  predicate BackedOff(begun: seq<Burst>)
    decreases |begun|
  {
    begun == [] ||
    (var before, last := begun[..|begun| - 1], begun[|begun| - 1];
      && BackedOff(before)
      && (last.retryFrom.Some? ==>
            && before != [] && last.at - LastBurst(before) > Patience(last.retryFrom.value)
            && last.retryFrom.value in {WaitStarting, WaitStarted, WaitStopped}))
  }

  /** An attempt is stamped no earlier than its last burst. */
  predicate Waited(p: P) {
    && BackedOff(p.history.begun)
    && (UnderRequested(p.leaf) && p.request.bursts > 0 ==>
          p.history.begun != [] && LastBurst(p.history.begun) <= p.request.lastAttempt)
    && (UnderStopping(p.leaf) && p.stop.bursts > 0 ==>
          p.history.begun != [] && LastBurst(p.history.begun) <= p.stop.lastAttempt)
  }

  /** A burst is asked for again when the state asking has waited long enough. */
  predicate Patient(p: P) {
    && (p.pending == Some(StartBurst) ==>
          && (p.leaf == WaitStarting || p.leaf == WaitStarted)
          && p.now - p.request.lastAttempt > Patience(p.leaf))
    && (p.pending == Some(StopBurst) ==>
          p.leaf == WaitStopped && p.now - p.stop.lastAttempt > Patience(p.leaf))
  }

  // ---------------------------------------------------------------- transitions

  lemma BurstKeepsBackedOff(begun: seq<Burst>, b: Burst)
    requires BackedOff(begun)
    requires b.retryFrom.Some? ==>
      && begun != [] && b.at - LastBurst(begun) > Patience(b.retryFrom.value)
      && b.retryFrom.value in {WaitStarting, WaitStarted, WaitStopped}
    ensures BackedOff(begun + [b]) && LastBurst(begun + [b]) == b.at
  {
    assert (begun + [b])[..|begun|] == begun;
  }

  /** What entering a state does to bursts and attempts. */
  lemma EntryBegins(p: P, s: St)
    ensures var q := Enter(p, s);
      && q.leaf == p.leaf && q.now == p.now
      && q.history.begun == (if s == StartBurst then Begin(p, p.request.bursts).history.begun
                             else if s == StopBurst then Begin(p, p.stop.bursts).history.begun
                             else p.history.begun)
      && q.request.bursts == (if s == Requested then 0 else p.request.bursts + (if s == StartBurst then 1 else 0))
      && q.stop.bursts == (if s == Stopping then 0 else p.stop.bursts + (if s == StopBurst then 1 else 0))
      && (s == StartBurst ==> q.request.lastAttempt == p.now)
      && (s == StopBurst ==> q.stop.lastAttempt == p.now)
      && (s != StartBurst && s != Requested ==> q.request.lastAttempt == p.request.lastAttempt)
      && (s != StopBurst && s != Stopping ==> q.stop.lastAttempt == p.stop.lastAttempt)
  {
  }

  lemma SiblingKeepsWaited(p: P, t: St)
    requires Waited(p) && Patient(p) && Sibling(p.leaf, t) && p.pending == Some(t)
    ensures Waited(TakePending(p))
  {
    hide Transition, Enter, BackedOff;
    SiblingHop(Taken(p), t);
    EntryBegins(Taken(p), t);
    if t == StartBurst || t == StopBurst {
      var bursts := if t == StartBurst then p.request.bursts else p.stop.bursts;
      BurstKeepsBackedOff(p.history.begun, Burst(if bursts > 0 then Some(p.leaf) else None, p.now));
    }
  }

  lemma IdleKeepsWaited(p: P)
    requires Waited(p) && DefaultChild(p.leaf).None? && p.pending == Some(Idle)
    ensures Waited(TakePending(p))
  {
    hide Transition, Enter, BackedOff;
    IdleHop(Taken(p));
    EntryBegins(Leave(Taken(p)), Idle);
  }

  lemma CompositeKeepsWaited(p: P, t: St)
    requires Waited(p) && DefaultChild(p.leaf).None? && DefaultChild(t).Some? && p.pending == Some(t)
    ensures Waited(TakePending(p))
  {
    hide Transition, Enter, BackedOff, Leave;
    var outside := Leave(Taken(p));
    LeavingOnlyUnlatches(Taken(p));
    CompositeHop(Taken(p), t);
    EntryBegins(outside, t);
    EntryBegins(Enter(outside, t), DefaultChild(t).value);
    BurstKeepsBackedOff(p.history.begun, Burst(None, p.now));
  }

  lemma HopKeepsWaited(p: P)
    requires Core(p) && Legal(p) && p.pending.Some? && Waited(p) && Patient(p)
    ensures Waited(TakePending(p))
  {
    hide TakePending, HistoryOk, Waited, Patient, Legal;
    LegalTargets(p);
    var t := p.pending.value;
    if Sibling(p.leaf, t) {
      SiblingKeepsWaited(p, t);
    } else if t == Idle {
      IdleKeepsWaited(p);
    } else {
      CompositeKeepsWaited(p, t);
    }
  }

  lemma {:induction false} WaitedChain(p: P, n: nat)
    requires Core(p) && Legal(p) && Waited(p) && Patient(p)
    ensures Waited(Chain(p, n).0)
    decreases n
  {
    hide TakePending, Legal, Core, Waited, Silent;
    if p.pending.Some? && n != 0 {
      HopKeepsWaited(p);
      FirstHop(p);
      assert Patient(TakePending(p)) by { assert Hopped(p, TakePending(p)); }
      WaitedChain(TakePending(p), n - 1);
    }
  }

  lemma SettleKeepsWaited(p: P)
    requires Core(p) && Legal(p) && Waited(p) && Patient(p)
    ensures Waited(Settle(p))
  {
    hide Chain, Legal, Core, BackedOff;
    WaitedChain(p, 8);
  }

  // ---------------------------------------------------------------- handlers

  lemma OfferIsPatient(p: P, ev: Ev)
    requires Waited(p) && Clocked(p) && p.pending.None?
    ensures Waited(Offer(p, ev)) && Patient(Offer(p, ev))
  {
    hide BackedOff, LeafEvent, OuterEvent, Paced, Waited;
    var (q, handled) := LeafEvent(p, ev);
    assert Waited(q) && Patient(q) by { LeafEventIsPatient(p, ev); }
    if q.pending.None? && !handled {
      OuterAsksNoBurst(q, ev);
      WaitedIgnoresRequests(q, OuterEvent(q, ev));
    }
  }

  lemma LeafEventIsPatient(p: P, ev: Ev)
    requires Waited(p) && Clocked(p) && p.pending.None?
    ensures Waited(LeafEvent(p, ev).0) && Patient(LeafEvent(p, ev).0)
  {
    hide BackedOff, Paced;
  }

  lemma WaitedIgnoresRequests(p: P, q: P)
    requires Waited(p) && q == p.(pending := q.pending, pendingArg := q.pendingArg)
    ensures Waited(q)
  {
    hide BackedOff;
  }

  lemma OuterAsksNoBurst(p: P, ev: Ev)
    requires p.pending.None?
    ensures var q := OuterEvent(p, ev);
      && q == p.(pending := q.pending, pendingArg := q.pendingArg)
      && q.pending != Some(StartBurst) && q.pending != Some(StopBurst)
  {
  }

  lemma DispatchKeepsWaited(p: P, at: int, ev: Ev)
    requires Good(p) && Waited(p) && Clocked(p) && p.now <= at
    ensures Waited(Dispatch(p, at, ev))
  {
    hide Offer, Settle, BackedOff, Good, Legal;
    var now := p.(now := at);
    StampIsGood(p, at);
    OfferIsLegal(now, ev);
    assert now.pending.None? by { assert Good(now); }
    OfferIsPatient(now, ev);
    SettleKeepsWaited(Offer(now, ev));
  }

  lemma LeafTickIsPatient(p: P)
    requires Waited(p) && p.pending.None?
    ensures Waited(LeafTick(p)) && Patient(LeafTick(p))
  {
    hide LeafTick, BackedOff;
    LeafTickBeginsNothing(p);
  }

  predicate BeginsNothing(p: P, q: P) {
    && q.history.begun == p.history.begun && q.request.bursts == p.request.bursts && q.stop.bursts == p.stop.bursts
    && Patient(q)
  }

  lemma LeafTickBeginsNothing(p: P)
    requires p.pending.None?
    ensures SameTimes(p, LeafTick(p)) && BeginsNothing(p, LeafTick(p))
  {
    hide LeafTick, BeginsNothing;
    LeafTickMovesNoTimes(p);
    match p.leaf {
      case StartBurst => BurstBeginsNothing(p);
      case StopBurst => BurstBeginsNothing(p);
      case WaitStarting => StartWaitBeginsNothing(p);
      case WaitStarted => StartWaitBeginsNothing(p);
      case _ => OtherBeginsNothing(p);
    }
  }

  lemma BurstBeginsNothing(p: P)
    requires p.pending.None? && (p.leaf == StartBurst || p.leaf == StopBurst)
    ensures BeginsNothing(p, LeafTick(p))
  {
    hide StartMsg, StopMsg, WaitStartingTick, WaitStartedTick, WaitStoppedTick;
  }

  lemma StartWaitBeginsNothing(p: P)
    requires p.pending.None? && (p.leaf == WaitStarting || p.leaf == WaitStarted)
    ensures BeginsNothing(p, LeafTick(p))
  {
    hide StartBurstTick, StopBurstTick, WaitStoppedTick;
  }

  lemma OtherBeginsNothing(p: P)
    requires p.pending.None? && p.leaf != StartBurst && p.leaf != StopBurst
    requires p.leaf != WaitStarting && p.leaf != WaitStarted
    ensures BeginsNothing(p, LeafTick(p))
  {
    hide StartBurstTick, StopBurstTick, WaitStartingTick, WaitStartedTick;
  }

  lemma WalkKeepsWaited(p: P)
    requires Good(p) && Waited(p)
    ensures Waited(Walk(p))
  {
    assert p.pending.None?;
    hide Legal, Settle, BackedOff, Good, LeafTick;
    LeafTickIsPatient(p);
    LeafTickIsLegal(p);
    if LeafTick(p).pending.Some? {
      SettleKeepsWaited(LeafTick(p));
    }
  }

  // ---------------------------------------------------------------- whole runs

  lemma StampKeepsWaited(p: P, at: int)
    requires Waited(p)
    ensures Waited(p.(now := at))
  {
    hide BackedOff;
  }

  lemma ReceiveKeepsWaited(p: P, at: int, at2: int, f: Frame)
    requires Good(p) && Clocked(p) && Waited(p) && p.now <= at <= at2 && |f.data| == 8
    ensures Waited(Receive(p, at, at2, f))
  {
    hide Dispatch, HistoryOk, Receive, BackedOff, Spaced;
    var q, ev := ReceiveIsOneDispatch(p, at, at2, f);
    if ev.Some? {
      DispatchKeepsWaited(q, at2, ev.value);
    }
  }

  lemma StepKeepsWaited(p: P, i: Input)
    requires Good(p) && Clocked(p) && Waited(p) && InputOk(i) && Advances(p, i)
    ensures Waited(Step(p, i))
  {
    hide Dispatch, Walk, Core, Waited, Receive, Paced;
    match i
    case Tick(at, toggledAt) =>
      var q := p.(now := at);
      StampIsGood(p, at);
      StampKeepsWaited(p, at);
      match toggledAt {
        case None => WalkKeepsWaited(q);
        case Some(at2) =>
          assert Clocked(q) by { StampKeepsClocked(p, at); }
          DispatchIsGood(q, at2, Toggle);
          DispatchKeepsWaited(q, at2, Toggle);
          WalkKeepsWaited(Dispatch(q, at2, Toggle));
      }
    case Rx(at, at2, f) => ReceiveKeepsWaited(p, at, at2, f);
    case Button(at) => DispatchKeepsWaited(p, at, Toggle);
  }

  lemma StampKeepsClocked(p: P, at: int)
    requires Clocked(p) && p.now <= at
    ensures Clocked(p.(now := at))
  {
    hide Spaced;
  }

  lemma {:induction false} RunKeepsWaited(p: P, ins: seq<Input>)
    requires Good(p) && Clocked(p) && Waited(p) && (forall i :: i in ins ==> InputOk(i)) && Advancing(p, ins)
    ensures Waited(Run(p, ins))
    decreases |ins|
  {
    hide Good, Clocked, Waited, Step;
    if ins != [] {
      StepKeepsClocked(p, ins[0]);
      StepKeepsWaited(p, ins[0]);
      StepIsGood(p, ins[0]);
      RunKeepsWaited(Step(p, ins[0]), ins[1..]);
    }
  }

  /** No burst has begun when the machine is initialised. */
  lemma InitIsWaited(mode: Mode, restored: bool, at: int)
    requires 0 <= at
    ensures Waited(Init(mode, restored, at))
  {
    InitBeginsNothing(mode, restored, at);
    assert BackedOff([]);
  }

  lemma InitBeginsNothing(mode: Mode, restored: bool, at: int)
    ensures var p := Init(mode, restored, at);
      p.history.begun == [] && p.request.bursts == 0 && p.stop.bursts == 0
  {
    var p := Enter(Blank(mode, restored, at), Idle);
    if p.pending.Some? {
      ResumeHop(Taken(p));
      EntryBegins(Taken(p), Requested);
      EntryBegins(Enter(Taken(p), Requested), Managed);
      assert Chain(p, 8) == (Chain(TakePending(p), 7).0, Chain(TakePending(p), 7).1 + 1);
      assert Chain(TakePending(p), 7) == (TakePending(p), 0);
    } else {
      assert Chain(p, 8) == (p, 0);
    }
  }

  lemma {:induction false} BackedOffAt(begun: seq<Burst>, j: nat)
    requires BackedOff(begun) && j < |begun| && begun[j].retryFrom.Some?
    ensures 0 < j && begun[j].at - begun[j - 1].at > Patience(begun[j].retryFrom.value)
    ensures begun[j].retryFrom.value in {WaitStarting, WaitStarted, WaitStopped}
    decreases |begun|
  {
    if j < |begun| - 1 {
      BackedOffAt(begun[..|begun| - 1], j);
    }
  }

  /** Over every run on a clock that never runs backwards: a start or stop burst is repeated only
      by a state that waited for the car in vain, more than seventy seconds after the burst before
      it when the car had reported that it was starting, and more than ten seconds otherwise. */
  lemma RetriesBackOff(mode: Mode, restored: bool, at: int, ins: seq<Input>, j: nat)
    requires 0 <= at && (forall n :: n in ins ==> InputOk(n)) && Advancing(Init(mode, restored, at), ins)
    requires j < |Run(Init(mode, restored, at), ins).history.begun|
    requires Run(Init(mode, restored, at), ins).history.begun[j].retryFrom.Some?
    ensures var b := Run(Init(mode, restored, at), ins).history.begun;
      && 0 < j && b[j].retryFrom.value in {WaitStarting, WaitStarted, WaitStopped}
      && b[j].at - b[j - 1].at > (if b[j].retryFrom.value == WaitStarted then 70_000_000 else 10_000_000)
  {
    hide Run, Advancing, Init;
    InitIsClocked(mode, restored, at);
    InitIsWaited(mode, restored, at);
    RunKeepsWaited(Init(mode, restored, at), ins);
    BackedOffAt(Run(Init(mode, restored, at), ins).history.begun, j);
  }
}
