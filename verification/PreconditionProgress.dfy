/** Progress of the preconditioning machine: a stop always ends and a start always comes to a
    decision. */
module PreconditionProgress {
  import opened Wrappers
  import opened Precondition
  import opened PreconditionLaws
  import opened PreconditionClock

  // ---------------------------------------------------------------- inputs without toggles

  predicate Untouched(i: Input) {
    match i
    case Tick(_, toggledAt) => toggledAt.None?
    case Rx(_, _, _) => true
    case Button(_) => false
  }

  function Ticks(ins: seq<Input>): nat
    decreases |ins|
  {
    if ins == [] then 0 else (if ins[0].Tick? then 1 else 0) + Ticks(ins[1..])
  }

  function TimeLeft(since: int, limit: nat, now: int): nat {
    if now > since + limit then 0 else since + limit + 1 - now
  }

  function RoundsLeft(retries: nat): nat {
    if retries < MAX_RETRIES then MAX_RETRIES - retries else 0
  }

  function MessagesLeft(sent: nat): nat {
    if sent < 6 then 6 - sent else 0
  }

  /** A single transition settles at once. */
  lemma SettleOnce(p: P)
    requires p.pending.Some? && TakePending(p).pending.None?
    ensures Settle(p) == TakePending(p).(history := Settle(p).history)
  {
    hide TakePending;
    var q := TakePending(p);
    assert Chain(p, 8) == (Chain(q, 7).0, Chain(q, 7).1 + 1);
    assert Chain(q, 7) == (q, 0);
  }

  // ---------------------------------------------------------------- stopping ends

  const STOP_ROUND: nat := STOP_TICKS + RETRY_US + 3

  /** Ticks that a stop can still take. */
  function StopRank(p: P): nat {
    RoundsLeft(p.stop.retries) * STOP_ROUND
    + (if p.leaf == StopBurst then MessagesLeft(p.leafTicks) + RETRY_US + 2
       else TimeLeft(p.stop.lastAttempt, RETRY_US, p.now))
  }

  /** Every tick of a stop brings its end closer; a frame may end it and never delays it. */
  lemma StopAdvances(p: P, i: Input)
    requires Good(p) && Clocked(p) && UnderStopping(p.leaf)
    requires InputOk(i) && Advances(p, i) && Untouched(i)
    ensures var q := Step(p, i);
      || q.leaf == Idle
      || (UnderStopping(q.leaf) && StopRank(q) <= StopRank(p) && (i.Tick? ==> StopRank(q) < StopRank(p)))
  {
    hide Dispatch, Walk, Receive, Good, Clocked, StopRank;
    match i
    case Tick(at, _) => StopTick(p, at);
    case Rx(at, at2, f) => StopRx(p, at, at2, f);
  }

  lemma StopTick(p: P, at: int)
    requires Good(p) && Clocked(p) && UnderStopping(p.leaf) && p.now < at
    ensures var q := Walk(p.(now := at));
      q.leaf == Idle || (UnderStopping(q.leaf) && StopRank(q) < StopRank(p))
  {
    hide Settle, HistoryOk, TakePending, Legal;
    var now := p.(now := at);
    var q := LeafTick(now);
    if q.pending.Some? {
      if q.pending == Some(Idle) {
        assert Core(q) && Legal(q) by { LeafTickIsLegal(now); }
        ToIdle(q);
      } else {
        ToSibling(q);
      }
    }
  }

  lemma ToIdle(p: P)
    requires Core(p) && Legal(p) && p.pending == Some(Idle)
    ensures Settle(p).leaf == Idle
  {
    hide Settle, Enter, HistoryOk;
    HopToIdle(p);
    IdleHop(Taken(p));
    SettleOnce(p);
  }

  /** Where the stop goes on in a sibling state. */
  lemma ToSibling(p: P)
    requires UnderStopping(p.leaf) && p.pending.Some? && UnderStopping(p.pending.value)
    ensures var q := Settle(p);
      && q.leaf == p.pending.value && q.leafTicks == 0 && q.now == p.now && q.stop.retries == p.stop.retries
      && (q.leaf == WaitStopped ==> q.stop.lastAttempt == p.stop.lastAttempt)
  {
    hide Settle;
    SiblingHop(Taken(p), p.pending.value);
    SettleOnce(p);
  }

  lemma StopRx(p: P, at: int, at2: int, f: Frame)
    requires Good(p) && Clocked(p) && UnderStopping(p.leaf) && p.now <= at <= at2 && |f.data| == 8
    ensures var q := Receive(p, at, at2, f);
      q.leaf == Idle || (UnderStopping(q.leaf) && StopRank(q) <= StopRank(p))
  {
    hide Dispatch, HistoryOk, Receive;
    var q, ev := ReceiveIsOneDispatch(p, at, at2, f);
    if ev.Some? {
      StopEvent(q, at2, ev.value);
    }
  }

  lemma StopEvent(p: P, at: int, ev: Ev)
    requires Good(p) && UnderStopping(p.leaf) && p.now <= at && ev != Toggle
    ensures var q := Dispatch(p, at, ev);
      q.leaf == Idle || (UnderStopping(q.leaf) && StopRank(q) <= StopRank(p))
  {
    hide Settle, HistoryOk, TakePending, Legal;
    var now := p.(now := at);
    assert Asked(now, Offer(now, ev)) by { OfferIsLegal(now, ev); }
    if Offer(now, ev).pending.Some? {
      ToIdle(Offer(now, ev));
    } else {
      SettleNothing(Offer(now, ev));
    }
  }

  lemma SettleNothing(p: P)
    requires p.pending.None?
    ensures Settle(p) == p.(history := Settle(p).history)
  {
    assert Chain(p, 8) == (p, 0);
  }

  /** With no toggles and a clock that advances, a stop reaches idle before its rank in ticks. */
  lemma {:induction false} StopReachesIdle(p: P, ins: seq<Input>) returns (k: nat)
    requires Good(p) && Clocked(p) && UnderStopping(p.leaf)
    requires (forall i :: i in ins ==> InputOk(i) && Untouched(i)) && Advancing(p, ins)
    requires StopRank(p) < Ticks(ins)
    ensures k <= |ins| && Run(p, ins[..k]).leaf == Idle
    decreases |ins|
  {
    hide Good, Clocked, StopRank, Step;
    var q := Step(p, ins[0]);
    StepIsGood(p, ins[0]);
    StepKeepsClocked(p, ins[0]);
    StopAdvances(p, ins[0]);
    if q.leaf == Idle {
      k := 1;
      assert ins[..1][1..] == [];
    } else {
      var rest := StopReachesIdle(q, ins[1..]);
      k := rest + 1;
      assert ins[..k][1..] == ins[1..][..rest];
    }
  }

  // ---------------------------------------------------------------- a start is decided

  predicate StartingLeaf(s: St) {
    s == StartBurst || s == WaitStarting || s == WaitStarted
  }

  /** How a start comes to an end: it succeeded, waits for better conditions, or is given up. */
  predicate Decided(s: St) {
    s == Active || s == Managed || UnderStopping(s) || s == Idle
  }

  const START_ROUND: nat := START_TICKS + 2 * STARTED_TIMEOUT_US + 5

  /** Ticks that a start can still take. */
  function StartRank(p: P): nat {
    var wait := TimeLeft(p.request.lastAttempt, STARTED_TIMEOUT_US, p.now);
    RoundsLeft(p.request.retries) * START_ROUND
    + (match p.leaf
       case StartBurst => MessagesLeft(p.leafTicks) + 2 * STARTED_TIMEOUT_US + 4
       case WaitStarting => wait + STARTED_TIMEOUT_US + 2
       case _ => wait)
  }

  ghost predicate Starting(p: P) {
    Good(p) && Clocked(p) && StartingLeaf(p.leaf)
  }

  /** The chain that follows a request for a state that comes to rest at once. */
  lemma ToDecided(p: P)
    requires Core(p) && Legal(p) && UnderRequested(p.leaf)
    requires p.pending.Some? && (p.pending.value == Stopping || Decided(p.pending.value))
    ensures Decided(Settle(p).leaf)
  {
    hide Settle, Enter, HistoryOk;
    var t := p.pending.value;
    if t == Idle {
      HopToIdle(p);
      IdleHop(Taken(p));
    } else if t == Stopping {
      HopToStopping(p);
      CompositeHop(Taken(p), Stopping);
    } else {
      HopToSibling(p);
      SiblingHop(Taken(p), t);
    }
    SettleOnce(p);
  }

  lemma ToWait(p: P)
    requires UnderRequested(p.leaf) && (p.pending == Some(WaitStarting) || p.pending == Some(WaitStarted))
    ensures var q := Settle(p);
      && q.leaf == p.pending.value && q.leafTicks == 0 && q.now == p.now && q.request == p.request
  {
    hide Settle;
    SiblingHop(Taken(p), p.pending.value);
    SettleOnce(p);
  }

  /** A retry: another burst, or the end of the start when the battery has become warm. */
  lemma ToBurst(p: P)
    requires Core(p) && Legal(p) && UnderRequested(p.leaf) && p.pending == Some(StartBurst)
    ensures var q := Settle(p);
      || Decided(q.leaf)
      || (q.leaf == StartBurst && q.leafTicks == 0 && q.now == p.now && q.request.retries == p.request.retries)
  {
    hide Settle, HistoryOk;
    var r := TakePending(p);
    SiblingHop(Taken(p), StartBurst);
    if r.pending.None? {
      SettleOnce(p);
    } else {
      HopToSibling(p);
      assert r.pending.value == Stopping || r.pending.value == Managed;
      AbortLands(r);
      SettleTwice(p);
    }
  }

  lemma AbortLands(p: P)
    requires Core(p) && Legal(p) && p.leaf == StartBurst && (p.pending == Some(Stopping) || p.pending == Some(Managed))
    ensures TakePending(p).pending.None? && Decided(TakePending(p).leaf)
  {
    hide Enter, HistoryOk;
    if p.pending == Some(Stopping) {
      HopToStopping(p);
      CompositeHop(Taken(p), Stopping);
    } else {
      HopToSibling(p);
      SiblingHop(Taken(p), Managed);
    }
  }

  lemma SettleTwice(p: P)
    requires p.pending.Some? && TakePending(p).pending.Some? && TakePending(TakePending(p)).pending.None?
    ensures Settle(p) == TakePending(TakePending(p)).(history := Settle(p).history)
  {
    hide TakePending;
    var q := TakePending(p);
    var r := TakePending(q);
    assert Chain(p, 8) == (Chain(q, 7).0, Chain(q, 7).1 + 1);
    assert Chain(q, 7) == (Chain(r, 6).0, Chain(r, 6).1 + 1);
    assert Chain(r, 6) == (r, 0);
  }

  lemma BurstTick(p: P, at: int)
    requires Starting(p) && p.now < at && p.leaf == StartBurst
    ensures var q := Walk(p.(now := at));
      Decided(q.leaf) || (StartingLeaf(q.leaf) && StartRank(q) < StartRank(p))
  {
    hide Settle, HistoryOk, TakePending, Legal;
    var now := p.(now := at);
    LeafTickIsLegal(now);
    var q := LeafTick(now);
    if q.pending.Some? {
      if q.pending == Some(WaitStarting) || q.pending == Some(WaitStarted) {
        ToWait(q);
      } else {
        ToDecided(q);
      }
    }
  }

  lemma WaitTick(p: P, at: int)
    requires Starting(p) && p.now < at && p.leaf != StartBurst
    ensures var q := Walk(p.(now := at));
      Decided(q.leaf) || (StartingLeaf(q.leaf) && StartRank(q) < StartRank(p))
  {
    hide Settle, HistoryOk, TakePending, Legal, LeafTick, Core, Clocked, StartRank;
    var now := p.(now := at);
    StampIsGood(p, at);
    assert Core(now) && Silent(now) && now.pending.None?;
    LeafTickIsLegal(now);
    var q := LeafTick(now);
    WaitTickRequests(p, at);
    if q.pending.Some? {
      if q.pending == Some(StartBurst) {
        ToBurst(q);
        if !Decided(Settle(q).leaf) {
          RetryLowersRank(p, q, Settle(q));
        }
      } else {
        ToDecided(q);
      }
    }
  }

  /** A wait either asks for something new or gets shorter; a retry costs one of the rounds left. */
  lemma WaitTickRequests(p: P, at: int)
    requires Starting(p) && p.now < at && p.leaf != StartBurst
    ensures var q := LeafTick(p.(now := at));
      && q.leaf == p.leaf && q.now == at
      && (q.pending.Some? ==> q.pending.value == Stopping || q.pending.value == StartBurst || Decided(q.pending.value))
      && (q.pending.None? ==> StartRank(q.(leafTicks := q.leafTicks + 1)) < StartRank(p))
      && (q.pending == Some(StartBurst) ==> RoundsLeft(p.request.retries) == RoundsLeft(q.request.retries) + 1)
  {
    hide HistoryOk;
  }

  lemma RetryLowersRank(p: P, q: P, r: P)
    requires RoundsLeft(p.request.retries) == RoundsLeft(q.request.retries) + 1
    requires r.leaf == StartBurst && r.leafTicks == 0 && r.request.retries == q.request.retries
    ensures StartRank(r) < StartRank(p)
  {
  }

  lemma StartRx(p: P, at: int, at2: int, f: Frame)
    requires Starting(p) && p.now <= at <= at2 && |f.data| == 8
    ensures var q := Receive(p, at, at2, f);
      Decided(q.leaf) || (StartingLeaf(q.leaf) && StartRank(q) <= StartRank(p))
  {
    hide Dispatch, HistoryOk, Receive;
    var q, ev := ReceiveIsOneDispatch(p, at, at2, f);
    if ev.Some? {
      StartEvent(q, at2, ev.value);
    }
  }

  lemma StartEvent(p: P, at: int, ev: Ev)
    requires Starting(p) && p.now <= at && ev != Toggle
    ensures var q := Dispatch(p, at, ev);
      Decided(q.leaf) || (StartingLeaf(q.leaf) && StartRank(q) <= StartRank(p))
  {
    hide Settle, HistoryOk, TakePending, Legal, Core, StartRank, Clocked, Offer;
    var now := p.(now := at);
    var q := Offer(now, ev);
    assert Asked(now, q) by { StampIsGood(p, at); OfferIsLegal(now, ev); }
    StartOffers(now, ev);
    if q.pending.None? {
      SettleNothing(q);
      LaterIsNoWorse(p, Settle(q));
    } else if q.pending == Some(WaitStarted) {
      ToWait(q);
      LaterIsNoWorse(p, Settle(q));
    } else {
      ToDecided(q);
    }
  }

  lemma StartOffers(p: P, ev: Ev)
    requires StartingLeaf(p.leaf) && p.pending.None? && ev != Toggle
    ensures var q := Offer(p, ev);
      && q.(pending := None, pendingArg := 0) == p.(pendingArg := 0)
      && (q.pending.Some? ==>
            q.pending.value == Idle || q.pending.value == Managed || q.pending.value == Active
            || (q.pending.value == WaitStarted && p.leaf == WaitStarting))
  {
  }

  /** Time passing, or the car reporting that it is starting, lengthens no start. */
  lemma LaterIsNoWorse(p: P, q: P)
    requires Starting(p) && p.now <= q.now && q.request == p.request
    requires (q.leaf == p.leaf && q.leafTicks == p.leafTicks) || (p.leaf == WaitStarting && q.leaf == WaitStarted)
    ensures StartRank(q) <= StartRank(p)
  {
    hide HistoryOk;
  }

  /** Every tick of a start brings the decision closer; a frame never delays it. */
  lemma StartAdvances(p: P, i: Input)
    requires Starting(p) && InputOk(i) && Advances(p, i) && Untouched(i)
    ensures var q := Step(p, i);
      || Decided(q.leaf)
      || (StartingLeaf(q.leaf) && StartRank(q) <= StartRank(p) && (i.Tick? ==> StartRank(q) < StartRank(p)))
  {
    hide Dispatch, Walk, Receive, Good, Clocked, StartRank;
    match i
    case Tick(at, _) =>
      if p.leaf == StartBurst {
        BurstTick(p, at);
      } else {
        WaitTick(p, at);
      }
    case Rx(at, at2, f) => StartRx(p, at, at2, f);
  }

  /** With no toggles and a clock that advances, a start is decided before its rank in ticks. */
  lemma {:induction false} StartIsDecided(p: P, ins: seq<Input>) returns (k: nat)
    requires Starting(p)
    requires (forall i :: i in ins ==> InputOk(i) && Untouched(i)) && Advancing(p, ins)
    requires StartRank(p) < Ticks(ins)
    ensures k <= |ins| && Decided(Run(p, ins[..k]).leaf)
    decreases |ins|
  {
    hide Good, Clocked, StartRank, Step;
    var q := Step(p, ins[0]);
    StepIsGood(p, ins[0]);
    StepKeepsClocked(p, ins[0]);
    StartAdvances(p, ins[0]);
    if Decided(q.leaf) {
      k := 1;
      assert ins[..1][1..] == [];
    } else {
      var rest := StartIsDecided(q, ins[1..]);
      k := rest + 1;
      assert ins[..k][1..] == ins[1..][..rest];
    }
  }

  // ---------------------------------------------------------------- from any reachable state

  /** However the machine came to stop, it is idle again within five rounds of ticks, whatever
      frames arrive, unless somebody toggles. */
  lemma StoppingAlwaysEnds(mode: Mode, restored: bool, at: int, past: seq<Input>, ins: seq<Input>) returns (k: nat)
    requires 0 <= at && (forall i :: i in past ==> InputOk(i)) && Advancing(Init(mode, restored, at), past)
    requires UnderStopping(Run(Init(mode, restored, at), past).leaf)
    requires forall i :: i in ins ==> InputOk(i) && Untouched(i)
    requires Advancing(Run(Init(mode, restored, at), past), ins)
    requires 5 * STOP_ROUND <= Ticks(ins)
    ensures k <= |ins| && Run(Run(Init(mode, restored, at), past), ins[..k]).leaf == Idle
  {
    hide Run, Advancing, Ticks, Init;
    InitIsClocked(mode, restored, at);
    RunKeepsClocked(Init(mode, restored, at), past);
    k := StopReachesIdle(Run(Init(mode, restored, at), past), ins);
  }

  /** Within five rounds every start is active, waiting in managed, being stopped or abandoned; in
      once mode it is not left waiting. */
  lemma StartIsAlwaysDecided(mode: Mode, restored: bool, at: int, past: seq<Input>, ins: seq<Input>) returns (k: nat)
    requires 0 <= at && (forall i :: i in past ==> InputOk(i)) && Advancing(Init(mode, restored, at), past)
    requires StartingLeaf(Run(Init(mode, restored, at), past).leaf)
    requires forall i :: i in ins ==> InputOk(i) && Untouched(i)
    requires Advancing(Run(Init(mode, restored, at), past), ins)
    requires 5 * START_ROUND <= Ticks(ins)
    ensures k <= |ins| && Decided(Run(Run(Init(mode, restored, at), past), ins[..k]).leaf)
    ensures mode == Once ==> Run(Run(Init(mode, restored, at), past), ins[..k]).leaf != Managed
  {
    hide Run, Advancing, Ticks, Init;
    InitIsClocked(mode, restored, at);
    RunKeepsClocked(Init(mode, restored, at), past);
    EveryRunIsGood(mode, restored, at, past);
    k := StartIsDecided(Run(Init(mode, restored, at), past), ins);
    RunIsGood(Run(Init(mode, restored, at), past), ins[..k]);
  }

  // ---------------------------------------------------------------- toggles

  /** In every reachable session a toggle starts a stop with a fresh retry budget exactly when the
      last attempt was launched more than a second ago, and otherwise changes nothing. */
  lemma ToggleIsDebounced(mode: Mode, restored: bool, at: int, ins: seq<Input>, t: int)
    requires 0 <= at && (forall i :: i in ins ==> InputOk(i)) && Advancing(Init(mode, restored, at), ins)
    requires UnderRequested(Run(Init(mode, restored, at), ins).leaf)
    ensures var p := Run(Init(mode, restored, at), ins);
      var q := Dispatch(p, t, Toggle);
      if t - LastLaunch(p.history.launches) > 1_000_000 then q.leaf == StopBurst && q.stop.retries == 0
      else q == p.(now := t, history := q.history)
  {
    hide Run, Advancing, Init;
    InitIsClocked(mode, restored, at);
    RunKeepsClocked(Init(mode, restored, at), ins);
    ToggleInSession(Run(Init(mode, restored, at), ins), t);
  }

  lemma ToggleInSession(p: P, t: int)
    requires Good(p) && Clocked(p) && UnderRequested(p.leaf)
    ensures var q := Dispatch(p, t, Toggle);
      if t - LastLaunch(p.history.launches) > 1_000_000 then q.leaf == StopBurst && q.stop.retries == 0
      else q == p.(now := t, history := q.history)
  {
    hide Settle, HistoryOk, Spaced, Legal;
    var r := Offer(p.(now := t), Toggle);
    assert r == if t - p.outerSince > DEBOUNCE_US then Go(p.(now := t), Stopping) else p.(now := t);
    if r.pending.Some? {
      StampIsGood(p, t);
      OfferIsLegal(p.(now := t), Toggle);
      StopIsFresh(r);
    } else {
      SettleNothing(r);
    }
  }

  lemma StopIsFresh(p: P)
    requires Core(p) && Legal(p) && p.pending == Some(Stopping) && p.pendingArg == 0
    ensures Settle(p).leaf == StopBurst && Settle(p).stop.retries == 0
  {
    hide Settle, HistoryOk;
    HopToStopping(p);
    CompositeHop(Taken(p), Stopping);
    SettleOnce(p);
  }
}
