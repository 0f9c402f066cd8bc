/** The transmit slots and node lifecycle of one bus in main/can.c. Senders, driver completions
    and the enable/disable sequences interleave at the granularity of the semaphore, the node lock
    and the slot spinlock. Tasks in the same position are counted rather than named. */
module CanTx {
  import opened Wrappers
  import Schedules

  const SLOT_COUNT := 32

  type Slot = i: int | 0 <= i < SLOT_COUNT

  predicate AllUsed(used: set<Slot>) {
    forall i: Slot :: i in used
  }

  /** Who holds the node lock, and how far it has come. */
  datatype Holder =
    | Nobody
    | Sender                // holds a permit, has not claimed a slot
    | Claimed(slot: Slot)   // the slot's bit now stands for the permit
    | Created               // enabling: the node exists, slots not yet reset
    | EnableRefill          // enabling: bits cleared, refilling the semaphore
    | Starting              // enabling: slots reset, node not yet started
    | Deleting              // disabling: the enable bit is cleared, node still there
    | Deleted               // disabling: node gone, slots not yet reset
    | DisableRefill         // disabling: bits cleared, refilling the semaphore

  /** `waiting` senders hold a permit and wait for the node lock; `returning` tasks and
      completions are about to give a permit back; `rollbacks` are slots whose transmit failed,
      their bits not yet cleared; `inFlight` counts, for each slot, the frames of it that the live
      node's queue holds. */
  datatype Bus = Bus(
    count: nat, used: set<Slot>, waiting: nat, returning: nat, rollbacks: seq<Slot>,
    holder: Holder, on: bool, enabled: bool, node: bool, inFlight: multiset<Slot>)

  const INITIAL := Bus(SLOT_COUNT, {}, 0, 0, [], Nobody, false, false, false, multiset{})

  datatype Action =
    | TakePermit | LockNode | Reject | Claim(slot: Slot) | NoSlot
    | TransmitOk | TransmitFail | Rollback(k: nat) | GivePermit
    | TxDone(slot: Slot)
    | EnableLock(created: bool) | RegisterFail | EnableReset | EnableGive | EnableFull | Start(ok: bool)
    | DisableLock | DeleteNode | DisableReset | DisableGive | DisableFull

  /** The first slot whose bit is clear. */
  predicate IsFirstFree(used: set<Slot>, i: Slot) {
    i !in used && forall j: Slot :: j < i ==> j in used
  }

  function Without(r: seq<Slot>, k: nat): seq<Slot>
    requires k < |r|
  {
    r[..k] + r[k + 1..]
  }

  /** One step; none when it is not possible. */
  function Do(s: Bus, a: Action): Option<Bus> {
    match a
    case TakePermit => if s.count > 0 then Some(s.(count := s.count - 1, waiting := s.waiting + 1)) else None
    case LockNode =>
      if s.holder.Nobody? && s.waiting > 0 then Some(s.(holder := Sender, waiting := s.waiting - 1)) else None
    case Reject =>
      if s.holder.Sender? && !(s.on && s.node)
      then Some(s.(holder := Nobody, returning := s.returning + 1)) else None
    case Claim(i) =>
      if s.holder.Sender? && s.on && s.node && IsFirstFree(s.used, i)
      then Some(s.(holder := Claimed(i), used := s.used + {i})) else None
    case NoSlot =>
      if s.holder.Sender? && s.on && s.node && AllUsed(s.used)
      then Some(s.(holder := Nobody, returning := s.returning + 1)) else None
    case TransmitOk =>
      if s.holder.Claimed? then Some(s.(holder := Nobody, inFlight := s.inFlight + multiset{s.holder.slot})) else None
    case TransmitFail =>
      if s.holder.Claimed? then Some(s.(holder := Nobody, rollbacks := s.rollbacks + [s.holder.slot])) else None
    case Rollback(k) =>
      if k < |s.rollbacks|
      then Some(s.(used := s.used - {s.rollbacks[k]}, returning := s.returning + 1,
                   rollbacks := Without(s.rollbacks, k))) else None
    case GivePermit => if s.returning > 0 then Some(Give(s.(returning := s.returning - 1))) else None
    case TxDone(i) =>
      if s.node && i in s.inFlight
      then Some(s.(inFlight := s.inFlight - multiset{i}, used := s.used - {i}, returning := s.returning + 1)) else None
    case EnableLock(created) =>
      if !s.holder.Nobody? then None
      else if s.on then Some(s)
      else if !created then Some(s.(node := false, inFlight := multiset{}))
      else Some(s.(holder := Created, node := true))
    case RegisterFail =>
      if s.holder.Created? then Some(s.(holder := Nobody, node := false, inFlight := multiset{})) else None
    case EnableReset => if s.holder.Created? then Some(s.(holder := EnableRefill, used := {})) else None
    case EnableGive => if s.holder.EnableRefill? && s.count < SLOT_COUNT then Some(Give(s)) else None
    case EnableFull => if s.holder.EnableRefill? && s.count >= SLOT_COUNT then Some(s.(holder := Starting)) else None
    case Start(ok) =>
      if !s.holder.Starting? then None
      else if ok then Some(s.(holder := Nobody, on := true, enabled := true))
      else Some(s.(holder := Nobody, node := false, inFlight := multiset{}))
    case DisableLock =>
      if !s.holder.Nobody? then None else Some(if s.on then s.(holder := Deleting, enabled := false) else s)
    case DeleteNode =>
      if s.holder.Deleting? then Some(s.(holder := Deleted, node := false, inFlight := multiset{})) else None
    case DisableReset => if s.holder.Deleted? then Some(s.(holder := DisableRefill, used := {})) else None
    case DisableGive => if s.holder.DisableRefill? && s.count < SLOT_COUNT then Some(Give(s)) else None
    case DisableFull =>
      if s.holder.DisableRefill? && s.count >= SLOT_COUNT then Some(s.(holder := Nobody, on := false)) else None
  }

  /** Giving a full semaphore does nothing. */
  function Give(s: Bus): Bus {
    if s.count < SLOT_COUNT then s.(count := s.count + 1) else s
  }

  // ---------------------------------------------------------------- conservation of permits

  predicate Refilling(s: Bus) {
    s.holder.EnableRefill? || s.holder.DisableRefill?
  }

  /** Permits in the semaphore, bits set, and permits in the hands of tasks. */
  function Total(s: Bus): nat {
    s.count + |s.used| + s.waiting + s.returning + (if s.holder.Sender? then 1 else 0)
  }

  /** The node lock is held by a sequence during which no frame can be in flight. */
  predicate NothingInFlight(h: Holder) {
    h.Created? || h.EnableRefill? || h.Starting? || h.Deleted? || h.DisableRefill?
  }

  /** A set bit belongs to a frame in flight, a claim, or a rollback still to come. */
  ghost predicate Accounted(used: set<Slot>, inFlight: multiset<Slot>, rollbacks: seq<Slot>, holder: Holder) {
    forall i :: i in used ==> i in inFlight || i in rollbacks || holder == Claimed(i)
  }

  ghost predicate Inv(s: Bus) {
    && s.count <= SLOT_COUNT
    && (!Refilling(s) ==> SLOT_COUNT <= Total(s))
    && (!s.holder.Deleted? ==> Accounted(s.used, s.inFlight, s.rollbacks, s.holder))
    // the node's lifecycle
    && (!s.node || NothingInFlight(s.holder) ==> s.inFlight == multiset{})
    && (s.holder.Nobody? || s.holder.Sender? ==> s.node == s.on)
    && (s.holder.Claimed? || s.holder.Deleting? ==> s.on && s.node)
    && (s.holder.Created? || s.holder.EnableRefill? || s.holder.Starting? ==> !s.on && s.node)
    && (s.holder.Deleted? || s.holder.DisableRefill? ==> !s.node)
  }

  lemma SizeMinus(t: set<Slot>, i: Slot)
    ensures |t - {i}| == if i in t then |t| - 1 else |t|
  {
    if i !in t {
      assert t - {i} == t;
    }
  }

  lemma PermitKeepsInv(s: Bus, a: Action)
    requires Inv(s) && Do(s, a).Some?
    requires a.TakePermit? || a.LockNode? || a.Reject? || a.NoSlot? || a.GivePermit?
    ensures Inv(Do(s, a).value)
  {
  }

  lemma ClaimKeepsInv(s: Bus, a: Action)
    requires Inv(s) && Do(s, a).Some? && (a.Claim? || a.TransmitOk?)
    ensures Inv(Do(s, a).value)
  {
  }

  lemma FailKeepsInv(s: Bus)
    requires Inv(s) && s.holder.Claimed?
    ensures Inv(Do(s, TransmitFail).value)
  {
    assert (s.rollbacks + [s.holder.slot])[|s.rollbacks|] == s.holder.slot;
  }

  lemma WithoutKeeps(r: seq<Slot>, k: nat, j: Slot)
    requires k < |r|
    ensures j in r && j != r[k] ==> j in Without(r, k)
    ensures j in Without(r, k) ==> j in r
  {
    if j in r && j != r[k] {
      var n :| 0 <= n < |r| && r[n] == j;
      assert Without(r, k)[if n < k then n else n - 1] == j;
    }
  }

  lemma RollbackIsAccounted(s: Bus, k: nat)
    requires k < |s.rollbacks| && Accounted(s.used, s.inFlight, s.rollbacks, s.holder)
    ensures Accounted(s.used - {s.rollbacks[k]}, s.inFlight, Without(s.rollbacks, k), s.holder)
  {
    hide Without;
    forall j ensures j in s.rollbacks && j != s.rollbacks[k] ==> j in Without(s.rollbacks, k) {
      WithoutKeeps(s.rollbacks, k, j);
    }
  }

  lemma RollbackKeepsInv(s: Bus, k: nat)
    requires Inv(s) && k < |s.rollbacks|
    ensures Inv(Do(s, Rollback(k)).value)
  {
    hide Without, Accounted, NothingInFlight;
    SizeMinus(s.used, s.rollbacks[k]);
    if !s.holder.Deleted? {
      RollbackIsAccounted(s, k);
    }
  }

  lemma DoneKeepsInv(s: Bus, i: Slot)
    requires Inv(s) && Do(s, TxDone(i)).Some?
    ensures Inv(Do(s, TxDone(i)).value)
  {
    SizeMinus(s.used, i);
  }

  lemma EnableKeepsInv(s: Bus, a: Action)
    requires Inv(s) && Do(s, a).Some?
    requires a.EnableLock? || a.RegisterFail? || a.EnableReset? || a.EnableGive? || a.EnableFull? || a.Start?
    ensures Inv(Do(s, a).value)
  {
  }

  lemma DisableKeepsInv(s: Bus, a: Action)
    requires Inv(s) && Do(s, a).Some?
    requires a.DisableLock? || a.DeleteNode? || a.DisableReset? || a.DisableGive? || a.DisableFull?
    ensures Inv(Do(s, a).value)
  {
  }

  lemma StepKeepsInv(s: Bus, a: Action)
    requires Inv(s) && Do(s, a).Some?
    ensures Inv(Do(s, a).value)
  {
    hide Inv;
    match a
    case TakePermit => PermitKeepsInv(s, a);
    case LockNode => PermitKeepsInv(s, a);
    case Reject => PermitKeepsInv(s, a);
    case Claim(_) => ClaimKeepsInv(s, a);
    case NoSlot => PermitKeepsInv(s, a);
    case TransmitOk => ClaimKeepsInv(s, a);
    case TransmitFail => FailKeepsInv(s);
    case GivePermit => PermitKeepsInv(s, a);
    case Rollback(k) => RollbackKeepsInv(s, k);
    case TxDone(i) => DoneKeepsInv(s, i);
    case EnableLock(_) => EnableKeepsInv(s, a);
    case RegisterFail => EnableKeepsInv(s, a);
    case EnableReset => EnableKeepsInv(s, a);
    case EnableGive => EnableKeepsInv(s, a);
    case EnableFull => EnableKeepsInv(s, a);
    case Start(_) => EnableKeepsInv(s, a);
    case _ => DisableKeepsInv(s, a);
  }

  // ---------------------------------------------------------------- whole runs

  function Run(s: Bus, schedule: seq<Action>): Bus {
    Schedules.Run(Do, s, schedule)
  }

  lemma RunKeepsInv(s: Bus, schedule: seq<Action>)
    requires Inv(s)
    ensures Inv(Run(s, schedule))
  {
    hide Inv, Do;
    forall t, a | Inv(t) && Do(t, a).Some?
      ensures Inv(Do(t, a).value)
    {
      StepKeepsInv(t, a);
    }
    Schedules.RunKeeps(Do, t => Inv(t), s, schedule);
  }

  predicate Quiescent(s: Bus) {
    s.waiting == 0 && s.returning == 0 && s.rollbacks == [] && s.holder.Nobody? && s.inFlight == multiset{}
  }

  /** No permit is ever lost: under every interleaving, recreating the node included, the permits
      in the semaphore, the bits set and the permits in hand are at least the pool size outside
      the refill loop, and the semaphore never exceeds it; so a quiet bus has every slot free. */
  lemma PermitsAreConserved(schedule: seq<Action>)
    ensures var s := Run(INITIAL, schedule);
      && s.count <= 32
      && (!Refilling(s) ==> 32 <= Total(s))
      && (Quiescent(s) ==> s.count == 32 && s.used == {})
  {
    hide Do;
    assert Inv(INITIAL);
    RunKeepsInv(INITIAL, schedule);
    var s := Run(INITIAL, schedule);
    if Quiescent(s) {
      assert forall i :: i in s.used ==> false;
      assert s.used == {};
    }
  }

  // ---------------------------------------------------------------- exclusive slots

  /** Every frame in flight has the bit of its slot set, and no slot backs two frames. */
  ghost predicate Backed(used: set<Slot>, inFlight: multiset<Slot>) {
    forall i :: i in inFlight ==> i in used && inFlight[i] == 1
  }

  /** A slot the driver holds, or a sender has claimed, has its bit set, so nobody else can claim
      it. */
  ghost predicate Exclusive(s: Bus) {
    && Backed(s.used, s.inFlight)
    && (s.holder.Claimed? ==> s.holder.slot in s.used && s.holder.slot !in s.inFlight)
  }

  /** Slots to be rolled back are distinct, still have their bit set, and are not in flight. */
  ghost predicate OwnSlots(rollbacks: seq<Slot>, used: set<Slot>, inFlight: multiset<Slot>) {
    && (forall k :: 0 <= k < |rollbacks| ==> rollbacks[k] in used && rollbacks[k] !in inFlight)
    && (forall k, n :: 0 <= k < n < |rollbacks| ==> rollbacks[k] != rollbacks[n])
  }

  ghost predicate RollbacksOwn(s: Bus) {
    && OwnSlots(s.rollbacks, s.used, s.inFlight)
    && (s.holder.Claimed? ==> s.holder.slot !in s.rollbacks)
  }

  /** The premise: the slots are not reset while a failed transmit is still to be rolled back. */
  predicate Premise(s: Bus, a: Action) {
    a.EnableReset? || a.DisableReset? ==> s.rollbacks == []
  }

  lemma RollbackKeepsOwn(s: Bus, k: nat)
    requires Exclusive(s) && RollbacksOwn(s) && Do(s, Rollback(k)).Some?
    ensures Exclusive(Do(s, Rollback(k)).value) && RollbacksOwn(Do(s, Rollback(k)).value)
  {
    var r := Do(s, Rollback(k)).value;
    forall n | 0 <= n < |r.rollbacks|
      ensures r.rollbacks[n] == s.rollbacks[if n < k then n else n + 1]
    {
    }
    if s.holder.Claimed? && s.holder.slot in r.rollbacks {
      WithoutKeeps(s.rollbacks, k, s.holder.slot);
    }
    assert forall i :: i in s.inFlight ==> i != s.rollbacks[k];
  }

  lemma FailKeepsOwn(s: Bus)
    requires Exclusive(s) && RollbacksOwn(s) && Do(s, TransmitFail).Some?
    ensures Exclusive(Do(s, TransmitFail).value) && RollbacksOwn(Do(s, TransmitFail).value)
  {
  }

  lemma ClaimKeepsOwn(s: Bus, i: Slot)
    requires Exclusive(s) && RollbacksOwn(s) && Do(s, Claim(i)).Some?
    ensures Exclusive(Do(s, Claim(i)).value) && RollbacksOwn(Do(s, Claim(i)).value)
  {
  }

  lemma TransmitKeepsOwn(s: Bus)
    requires Exclusive(s) && RollbacksOwn(s) && Do(s, TransmitOk).Some?
    ensures Exclusive(Do(s, TransmitOk).value) && RollbacksOwn(Do(s, TransmitOk).value)
  {
  }

  lemma DoneKeepsOwn(s: Bus, i: Slot)
    requires Exclusive(s) && RollbacksOwn(s) && Do(s, TxDone(i)).Some?
    ensures Exclusive(Do(s, TxDone(i)).value) && RollbacksOwn(Do(s, TxDone(i)).value)
  {
    var r := Do(s, TxDone(i)).value;
    assert forall j :: r.inFlight[j] == if j == i then 0 else s.inFlight[j];
  }

  lemma NothingIsOwn(used: set<Slot>)
    ensures Backed(used, multiset{}) && OwnSlots([], used, multiset{})
  {
  }

  /** With nothing in flight any bits back it. */
  lemma NothingInFlightIsBacked(rollbacks: seq<Slot>, used: set<Slot>, inFlight: multiset<Slot>)
    requires OwnSlots(rollbacks, used, inFlight)
    ensures OwnSlots(rollbacks, used, multiset{})
  {
  }

  /** Creating and deleting the node touch no bit that stands for a frame. */
  lemma LifecycleKeepsOwn(s: Bus, a: Action)
    requires Inv(s) && Exclusive(s) && RollbacksOwn(s) && Premise(s, a) && Do(s, a).Some?
    requires !a.Rollback? && !a.TransmitFail? && !a.Claim? && !a.TransmitOk? && !a.TxDone?
    ensures Exclusive(Do(s, a).value) && RollbacksOwn(Do(s, a).value)
  {
    hide Total, Backed, OwnSlots;
    NothingIsOwn({});
    NothingIsOwn(s.used);
    NothingInFlightIsBacked(s.rollbacks, s.used, s.inFlight);
  }

  lemma StepKeepsExclusive(s: Bus, a: Action)
    requires Inv(s) && Exclusive(s) && RollbacksOwn(s) && Premise(s, a) && Do(s, a).Some?
    ensures Exclusive(Do(s, a).value) && RollbacksOwn(Do(s, a).value)
  {
    hide Inv, Exclusive, RollbacksOwn, Premise, Do;
    match a
    case Rollback(k) => RollbackKeepsOwn(s, k);
    case TransmitFail => FailKeepsOwn(s);
    case TxDone(i) => DoneKeepsOwn(s, i);
    case Claim(i) => ClaimKeepsOwn(s, i);
    case TransmitOk => TransmitKeepsOwn(s);
    case _ => LifecycleKeepsOwn(s, a);
  }

  /** A schedule all of whose steps meet the premise. */
  predicate Orderly(s: Bus, schedule: seq<Action>)
    decreases |schedule|
  {
    schedule == [] ||
    (var next := Do(s, schedule[0]);
      if next.Some? then Premise(s, schedule[0]) && Orderly(next.value, schedule[1..])
      else Orderly(s, schedule[1..]))
  }

  lemma {:induction false} RunKeepsExclusive(s: Bus, schedule: seq<Action>)
    requires Inv(s) && Exclusive(s) && RollbacksOwn(s) && Orderly(s, schedule)
    ensures Exclusive(Run(s, schedule)) && RollbacksOwn(Run(s, schedule))
    decreases |schedule|
  {
    hide Inv, Do, Exclusive, RollbacksOwn, Premise;
    if schedule != [] {
      var next := Do(s, schedule[0]);
      if next.Some? {
        StepKeepsInv(s, schedule[0]);
        StepKeepsExclusive(s, schedule[0]);
        RunKeepsExclusive(next.value, schedule[1..]);
      } else {
        RunKeepsExclusive(s, schedule[1..]);
      }
    }
  }

  /** Distinct slots are at most as many as there are. */
  lemma {:induction false} AtMost(t: multiset<Slot>, n: nat)
    requires n <= SLOT_COUNT && forall i :: i in t ==> i < n && t[i] == 1
    ensures |t| <= n
    decreases n
  {
    if n == 0 {
      assert t == multiset{};
    } else {
      var last: Slot := n - 1;
      AtMost(t - multiset{last}, n - 1);
      if last !in t {
        assert t - multiset{last} == t;
      }
    }
  }

  /** Under the premise, a slot that the live node holds is never handed out again, so no two frames
      in flight share one and the driver's queue of 32 always has room. */
  lemma SlotsAreExclusive(schedule: seq<Action>, i: Slot)
    requires Orderly(INITIAL, schedule)
    ensures var s := Run(INITIAL, schedule);
      && (Do(s, Claim(i)).Some? ==> i !in s.inFlight && i !in s.rollbacks)
      && s.inFlight[i] <= 1
      && |s.inFlight| <= 32
      && (Do(s, TransmitOk).Some? ==> |s.inFlight| < 32)
  {
    var s := Run(INITIAL, schedule);
    RunKeepsExclusive(INITIAL, schedule);
    AtMost(s.inFlight, SLOT_COUNT);
    if s.holder.Claimed? {
      var more := s.inFlight + multiset{s.holder.slot};
      AtMost(more, SLOT_COUNT);
    }
  }

  /** Over any run at all, exactly one kind of step strips a frame in flight, or a claim, of its
      bit: the rollback of somebody else's slot. */
  lemma OnlyLateRollbackStrips(schedule: seq<Action>, a: Action)
    ensures var s := Run(INITIAL, schedule);
      Exclusive(s) && Do(s, a).Some? ==>
        (!Exclusive(Do(s, a).value) <==>
          a.Rollback? && (s.rollbacks[a.k] in s.inFlight || s.holder == Claimed(s.rollbacks[a.k])))
  {
    assert Inv(INITIAL);
    RunKeepsInv(INITIAL, schedule);
    var s := Run(INITIAL, schedule);
    if Exclusive(s) && Do(s, a).Some? {
      StripsIff(s, a);
    }
  }

  /** A rollback strips exactly the slots held by somebody else. */
  lemma RollbackStripsIff(s: Bus, k: nat)
    requires Exclusive(s) && Do(s, Rollback(k)).Some?
    ensures !Exclusive(Do(s, Rollback(k)).value) <==>
              s.rollbacks[k] in s.inFlight || s.holder == Claimed(s.rollbacks[k])
  {
  }

  lemma StripsIff(s: Bus, a: Action)
    requires Inv(s) && Exclusive(s) && Do(s, a).Some?
    ensures !Exclusive(Do(s, a).value) <==>
              a.Rollback? && (s.rollbacks[a.k] in s.inFlight || s.holder == Claimed(s.rollbacks[a.k]))
  {
    hide Inv, Exclusive;
    match a
    case Rollback(k) => RollbackStripsIff(s, k);
    case TxDone(i) => DoneStripsNothing(s, i);
    case Claim(_) => SenderStripsNothing(s, a);
    case TransmitOk => SenderStripsNothing(s, a);
    case _ => OthersStripNothing(s, a);
  }

  lemma DoneStripsNothing(s: Bus, i: Slot)
    requires Exclusive(s) && Do(s, TxDone(i)).Some?
    ensures Exclusive(Do(s, TxDone(i)).value)
  {
    var r := Do(s, TxDone(i)).value;
    assert forall j :: r.inFlight[j] == if j == i then 0 else s.inFlight[j];
  }

  lemma SenderStripsNothing(s: Bus, a: Action)
    requires Exclusive(s) && Do(s, a).Some? && (a.Claim? || a.TransmitOk?)
    ensures Exclusive(Do(s, a).value)
  {
  }

  lemma OthersStripNothing(s: Bus, a: Action)
    requires Inv(s) && Exclusive(s) && Do(s, a).Some?
    requires !a.Rollback? && !a.Claim? && !a.TransmitOk? && !a.TxDone?
    ensures Exclusive(Do(s, a).value)
  {
    hide Total, Backed;
    NothingIsOwn({});
    NothingIsOwn(s.used);
  }

  /** The premise is what it takes: whenever slots are reset with a rollback still to come, there is
      a continuation in which that rollback strips a slot handed out since. */
  lemma ResetWithRollbackStrips(s: Bus, a: Action) returns (rest: seq<Action>)
    requires Inv(s) && Do(s, a).Some? && !Premise(s, a)
    ensures !Exclusive(Run(Do(s, a).value, rest))
  {
    hide Run, Total;
    var base := Do(s, a).value;
    rest := Schedules.Start(Do, base);
    assert Run(base, rest) == base by { RunIs(base, rest); }
    var t: Bus;
    rest, t := Reopen(base, rest, base);
    var slot := s.rollbacks[0];
    rest, t := Occupy(base, rest, t, slot);
    rest, t := ClaimNext(base, rest, t, slot);
    rest := Then(base, rest, t, Rollback(0));
  }

  lemma Then(base: Bus, schedule: seq<Action>, s: Bus, a: Action) returns (longer: seq<Action>)
    requires Run(base, schedule) == s && Do(s, a).Some?
    ensures Run(base, longer) == Do(s, a).value
  {
    longer := Schedules.Then(Do, base, schedule, s, a);
  }

  lemma RunIs(s: Bus, schedule: seq<Action>)
    ensures Run(s, schedule) == Schedules.Run(Do, s, schedule)
  {
  }

  /** An open bus whose slots below `n` are in flight, with a permit for each of the others. */
  predicate Open(t: Bus, n: nat) {
    && t.holder.Nobody? && t.on && t.node && n <= SLOT_COUNT && t.count == SLOT_COUNT - n
    && forall i: Slot :: i in t.used <==> i < n
  }

  /** From a refill on, the enable sequence opens the bus, after a disable sequence ran to its end. */
  lemma Reopen(base: Bus, before: seq<Action>, s: Bus) returns (schedule: seq<Action>, t: Bus)
    requires Run(base, before) == s && Refilling(s) && s.used == {} && s.count <= SLOT_COUNT
    requires s.holder.EnableRefill? ==> s.node
    ensures Run(base, schedule) == t && Open(t, 0) && t.rollbacks == s.rollbacks && t.inFlight == s.inFlight
  {
    hide Run;
    schedule, t := Refill(base, before, s);
    if t.holder.DisableRefill? {
      schedule, t := EnableAgain(base, schedule, t);
    }
    schedule := Then(base, schedule, t, EnableFull);
    t := Do(t, EnableFull).value;
    schedule := Then(base, schedule, t, Start(true));
    t := Do(t, Start(true)).value;
  }

  lemma EnableAgain(base: Bus, before: seq<Action>, s: Bus) returns (schedule: seq<Action>, t: Bus)
    requires Run(base, before) == s && s.holder.DisableRefill? && s.count == SLOT_COUNT
    ensures Run(base, schedule) == t && t.holder.EnableRefill? && t.node && t.used == {} && t.count == SLOT_COUNT
    ensures t.rollbacks == s.rollbacks && t.inFlight == s.inFlight
  {
    hide Run;
    schedule := Then(base, before, s, DisableFull);
    t := Do(s, DisableFull).value;
    schedule := Then(base, schedule, t, EnableLock(true));
    t := Do(t, EnableLock(true)).value;
    schedule := Then(base, schedule, t, EnableReset);
    t := Do(t, EnableReset).value;
  }

  lemma {:induction false} Refill(base: Bus, before: seq<Action>, s: Bus) returns (schedule: seq<Action>, t: Bus)
    requires Run(base, before) == s && Refilling(s) && s.count <= SLOT_COUNT
    ensures Run(base, schedule) == t == s.(count := SLOT_COUNT)
    decreases SLOT_COUNT - s.count
  {
    hide Run;
    schedule, t := before, s;
    if s.count < SLOT_COUNT {
      var give := if s.holder.EnableRefill? then EnableGive else DisableGive;
      schedule := Then(base, schedule, s, give);
      schedule, t := Refill(base, schedule, Do(s, give).value);
    }
  }

  /** A sender takes a permit, locks, and claims the first free slot. */
  lemma ClaimNext(base: Bus, before: seq<Action>, s: Bus, n: Slot) returns (schedule: seq<Action>, t: Bus)
    requires Run(base, before) == s && Open(s, n)
    ensures Run(base, schedule) == t == s.(count := s.count - 1, holder := Claimed(n), used := s.used + {n})
  {
    hide Run;
    schedule := Then(base, before, s, TakePermit);
    t := Do(s, TakePermit).value;
    schedule := Then(base, schedule, t, LockNode);
    t := Do(t, LockNode).value;
    assert IsFirstFree(t.used, n);
    schedule := Then(base, schedule, t, Claim(n));
    t := Do(t, Claim(n)).value;
  }

  lemma {:induction false} Occupy(base: Bus, before: seq<Action>, s: Bus, n: nat)
      returns (schedule: seq<Action>, t: Bus)
    requires Run(base, before) == s && Open(s, 0) && n <= SLOT_COUNT
    ensures Run(base, schedule) == t && Open(t, n) && t.rollbacks == s.rollbacks
    decreases n
  {
    hide Run;
    schedule, t := before, s;
    if n > 0 {
      schedule, t := Occupy(base, before, s, n - 1);
      schedule, t := ClaimNext(base, schedule, t, n - 1);
      schedule := Then(base, schedule, t, TransmitOk);
      t := Do(t, TransmitOk).value;
    }
  }

  /** So without the premise two frames can share a slot: a transmit fails, the node is recreated
      before the rollback, and the rollback then frees the slot under a new frame. */
  lemma LateRollbackSharesASlot() returns (schedule: seq<Action>)
    ensures Run(INITIAL, schedule).inFlight[0] == 2
  {
    hide Run;
    var s: Bus;
    schedule, s := RecreatedBeforeRollback();
    schedule, s := ClaimNext(INITIAL, schedule, s, 0);
    schedule := Then(INITIAL, schedule, s, TransmitOk);
    s := Do(s, TransmitOk).value;
    schedule := Then(INITIAL, schedule, s, Rollback(0));
    s := Do(s, Rollback(0)).value;
    schedule := Then(INITIAL, schedule, s, GivePermit);
    s := Do(s, GivePermit).value;
    schedule, s := ClaimNext(INITIAL, schedule, s, 0);
    schedule := Then(INITIAL, schedule, s, TransmitOk);
  }

  lemma FirstOpen() returns (schedule: seq<Action>, s: Bus)
    ensures Run(INITIAL, schedule) == s && Open(s, 0) && s.rollbacks == []
  {
    hide Run;
    s := INITIAL;
    schedule := Schedules.Start(Do, s);
    RunIs(INITIAL, schedule);
    schedule := Then(INITIAL, schedule, s, EnableLock(true));
    s := Do(s, EnableLock(true)).value;
    schedule := Then(INITIAL, schedule, s, EnableReset);
    s := Do(s, EnableReset).value;
    schedule, s := Reopen(INITIAL, schedule, s);
  }

  lemma RecreatedBeforeRollback() returns (schedule: seq<Action>, s: Bus)
    ensures Run(INITIAL, schedule) == s && Open(s, 0) && s.rollbacks == [0] && s.inFlight == multiset{}
  {
    hide Run;
    schedule, s := FirstOpen();
    schedule, s := ClaimNext(INITIAL, schedule, s, 0);
    schedule := Then(INITIAL, schedule, s, TransmitFail);
    s := Do(s, TransmitFail).value;
    schedule := Then(INITIAL, schedule, s, DisableLock);
    s := Do(s, DisableLock).value;
    schedule := Then(INITIAL, schedule, s, DeleteNode);
    s := Do(s, DeleteNode).value;
    schedule := Then(INITIAL, schedule, s, DisableReset);
    s := Do(s, DisableReset).value;
    schedule, s := Reopen(INITIAL, schedule, s);
  }
}
