/** The slot pool of one bus in the form of main/can.c: a bit per slot, a permit count, and
    `can_send` as one call without interference. Its steps are those of the interleaved model. */
module CanTxPool {
  import opened Wrappers
  import opened CanTx
  import Schedules

  /** A CAN message as callers pass it, and a frame as the driver keeps it. */
  datatype Message = Message(identifier: nat, extd: bool, rtr: bool, dlc: nat, data: seq<int>)
  datatype Frame = Frame(id: nat, ide: bool, rtr: bool, dlc: nat, buffer: seq<int>)

  datatype Outcome = Sent(slot: Slot) | InvalidState | Timeout | TransmitFailed

  const MAX_DLC := 8

  function ClampedDlc(m: Message): nat {
    if m.dlc > MAX_DLC then MAX_DLC else m.dlc
  }

  /** What the driver is handed: at most eight bytes, none for a remote frame. */
  function ToFrame(m: Message): Frame
    requires |m.data| >= MAX_DLC
  {
    Frame(m.identifier, m.extd, m.rtr, ClampedDlc(m), if m.rtr then [] else m.data[..ClampedDlc(m)])
  }

  // ---------------------------------------------------------------- the bitmask

  /** The mask of one slot. */
  function Bit(i: nat): bv32 {
    if i == 0 then 1 else Twice(Bit(i - 1))
  }

  function Twice(b: bv32): bv32 {
    b << 1
  }

  function And(a: bv32, b: bv32): bv32 {
    a & b
  }

  function Or(a: bv32, b: bv32): bv32 {
    a | b
  }

  function Not(x: bv32): bv32 {
    !x
  }

  function AndNot(a: bv32, b: bv32): bv32 {
    And(a, Not(b))
  }

  predicate IsSet(bits: bv32, i: nat) {
    And(bits, Bit(i)) != 0
  }

  function Set(bits: bv32, i: nat): bv32 {
    Or(bits, Bit(i))
  }

  function Clear(bits: bv32, i: nat): bv32 {
    AndNot(bits, Bit(i))
  }

  ghost function SlotsBelow(n: nat): (u: set<Slot>)
    requires n <= SLOT_COUNT
    ensures forall i: Slot :: i in u <==> i < n
  {
    if n == 0 then {} else
      var last: Slot := n - 1;
      SlotsBelow(n - 1) + {last}
  }

  /** The slots whose bit is set. */
  ghost function SetOf(bits: bv32): (u: set<Slot>)
    ensures forall i: Slot :: i in u <==> IsSet(bits, i)
  {
    set i | i in SlotsBelow(SLOT_COUNT) && IsSet(bits, i)
  }

  predicate FirstClear(bits: bv32, i: nat) {
    i < SLOT_COUNT && !IsSet(bits, i) && forall j :: 0 <= j < i ==> IsSet(bits, j)
  }

  predicate AllSet(bits: bv32) {
    forall j :: 0 <= j < SLOT_COUNT ==> IsSet(bits, j)
  }

  lemma OneAndTwice(x: bv32)
    ensures And(1, Twice(x)) == 0
  {
  }

  lemma TwiceDisjoint(x: bv32, y: bv32)
    requires And(x, y) == 0
    ensures And(Twice(x), Twice(y)) == 0
  {
  }

  /** The masks of two slots share no bit. */
  lemma {:induction false} BitsDisjoint(i: nat, j: nat)
    requires i < j
    ensures And(Bit(i), Bit(j)) == 0
    decreases i
  {
    hide And, Twice;
    if i == 0 {
      OneAndTwice(Bit(j - 1));
    } else {
      BitsDisjoint(i - 1, j - 1);
      TwiceDisjoint(Bit(i - 1), Bit(j - 1));
    }
  }

  lemma TwiceZero()
    ensures Twice(0) == 0
  {
  }

  lemma {:induction false} ZeroStaysZero(i: nat, j: nat)
    requires i <= j && Bit(i) == 0
    ensures Bit(j) == 0
    decreases j
  {
    hide Twice;
    TwiceZero();
    if i < j {
      ZeroStaysZero(i, j - 1);
    }
  }

  lemma TopBit()
    ensures Bit(31) == 0x8000_0000
  {
    assert Bit(4) == 16;
    assert Bit(8) == 0x100;
    assert Bit(12) == 0x1000;
    assert Bit(16) == 0x1_0000;
    assert Bit(20) == 0x10_0000;
    assert Bit(24) == 0x100_0000;
    assert Bit(28) == 0x1000_0000;
  }

  lemma BitIsNotZero(i: Slot)
    ensures Bit(i) != 0
  {
    hide Bit;
    TopBit();
    if Bit(i) == 0 {
      ZeroStaysZero(i, 31);
    }
  }

  lemma OrMasked(b: bv32, x: bv32, y: bv32, o: bv32)
    requires x & y == 0 && o == b | x
    ensures o & y == b & y
  {
  }

  lemma OrOwn(b: bv32, x: bv32, o: bv32)
    requires o == b | x
    ensures o & x == x
  {
  }

  lemma AndNotOwn(b: bv32, x: bv32, n: bv32, o: bv32)
    requires n == !x && o == b & n
    ensures o & x == 0
  {
  }

  lemma OrUndone(b: bv32, x: bv32, n: bv32, o: bv32)
    requires b & x == 0 && n == !x && o == b | x
    ensures o & n == b
  {
  }

  lemma AndSwaps(x: bv32, y: bv32)
    ensures And(x, y) == And(y, x)
  {
  }

  lemma AndIs(a: bv32, b: bv32)
    ensures And(a, b) == a & b
  {
  }

  lemma OrIs(a: bv32, b: bv32)
    ensures Or(a, b) == a | b
  {
  }

  lemma NotIs(x: bv32, n: bv32)
    requires n == !x
    ensures Not(x) == n
  {
  }

  lemma AndNotIs(a: bv32, b: bv32, n: bv32)
    requires n == !b
    ensures AndNot(a, b) == a & n
  {
    hide And, Not;
    NotIs(b, n);
    AndIs(a, n);
  }

  lemma OrKeepsOther(b: bv32, x: bv32, y: bv32)
    requires And(x, y) == 0
    ensures And(Or(b, x), y) == And(b, y)
  {
    hide And, Or;
    AndIs(x, y);
    OrIs(b, x);
    AndIs(Or(b, x), y);
    AndIs(b, y);
    OrMasked(b, x, y, Or(b, x));
  }

  lemma AndAssociative(a: bv32, b: bv32, c: bv32)
    ensures And(And(a, b), c) == And(a, And(b, c))
  {
  }

  lemma NotAbsorbs(x: bv32, y: bv32)
    requires And(x, y) == 0
    ensures And(Not(x), y) == y
  {
  }

  lemma AndNotKeepsOther(b: bv32, x: bv32, y: bv32)
    requires And(x, y) == 0
    ensures And(AndNot(b, x), y) == And(b, y)
  {
    hide And, Not;
    AndAssociative(b, Not(x), y);
    NotAbsorbs(x, y);
  }

  lemma OrSets(b: bv32, x: bv32)
    ensures And(Or(b, x), x) == x
  {
    hide And, Or;
    OrIs(b, x);
    AndIs(Or(b, x), x);
    OrOwn(b, x, Or(b, x));
  }

  lemma AndNotClears(b: bv32, x: bv32)
    ensures And(AndNot(b, x), x) == 0
  {
    hide And, AndNot;
    AndNotIs(b, x, !x);
    AndIs(AndNot(b, x), x);
    AndNotOwn(b, x, !x, AndNot(b, x));
  }

  lemma AndNotUndoesOr(b: bv32, x: bv32)
    requires And(b, x) == 0
    ensures AndNot(Or(b, x), x) == b
  {
    hide And, Or, AndNot;
    AndIs(b, x);
    OrIs(b, x);
    AndNotIs(Or(b, x), x, !x);
    OrUndone(b, x, !x, Or(b, x));
  }

  /** Setting or clearing the bit of one slot leaves the others alone. */
  lemma OneBitChanges(b: bv32, i: Slot, j: Slot)
    ensures IsSet(Set(b, i), j) <==> i == j || IsSet(b, j)
    ensures IsSet(Clear(b, i), j) <==> i != j && IsSet(b, j)
    ensures !IsSet(b, i) ==> Clear(Set(b, i), i) == b
  {
    hide Bit, And, Or, AndNot;
    OrSets(b, Bit(i));
    AndNotClears(b, Bit(i));
    if And(b, Bit(i)) == 0 {
      AndNotUndoesOr(b, Bit(i));
    }
    BitIsNotZero(i);
    if i < j {
      BitsDisjoint(i, j);
      OrKeepsOther(b, Bit(i), Bit(j));
      AndNotKeepsOther(b, Bit(i), Bit(j));
    } else if j < i {
      BitsDisjoint(j, i);
      AndSwaps(Bit(i), Bit(j));
      OrKeepsOther(b, Bit(i), Bit(j));
      AndNotKeepsOther(b, Bit(i), Bit(j));
    }
  }

  /** The operations on the mask are the set operations of the interleaved model. */
  lemma BitsAreSets(bits: bv32, i: Slot)
    ensures SetOf(Set(bits, i)) == SetOf(bits) + {i}
    ensures SetOf(Clear(bits, i)) == SetOf(bits) - {i}
    ensures SetOf(0) == {}
    ensures FirstClear(bits, i) <==> IsFirstFree(SetOf(bits), i)
    ensures AllSet(bits) <==> AllUsed(SetOf(bits))
  {
    hide Bit, Set, Clear, IsSet;
    forall j: Slot
      ensures j in SetOf(Set(bits, i)) <==> i == j || j in SetOf(bits)
      ensures j in SetOf(Clear(bits, i)) <==> i != j && j in SetOf(bits)
    {
      OneBitChanges(bits, i, j);
    }
    hide SetOf;
    assert SetOf(Set(bits, i)) == SetOf(bits) + {i};
    assert SetOf(Clear(bits, i)) == SetOf(bits) - {i};
    assert SetOf(0) == {} by { ZeroIsEmpty(); }
    if AllUsed(SetOf(bits)) {
      forall j | 0 <= j < SLOT_COUNT ensures IsSet(bits, j) {
        var k: Slot := j;
        assert k in SetOf(bits);
      }
    }
    if IsFirstFree(SetOf(bits), i) {
      forall j | 0 <= j < i ensures IsSet(bits, j) {
        var k: Slot := j;
        assert k in SetOf(bits);
      }
    }
  }

  lemma ZeroIsEmpty()
    ensures SetOf(0) == {}
  {
    hide Bit, And;
    forall j: Slot ensures j !in SetOf(0) {
      NothingIn(Bit(j));
    }
  }

  lemma NothingIn(x: bv32)
    ensures And(0, x) == 0
  {
  }

  // ---------------------------------------------------------------- the pool

  class Pool {
    var used: bv32
    const frames: array<Option<Frame>>
    var count: nat
    var on: bool

    ghost predicate Valid()
      reads this
    {
      frames.Length == SLOT_COUNT && count <= SLOT_COUNT
    }

    constructor ()
      ensures Valid() && fresh(frames)
      ensures count == 32 && !on && used == 0
    {
      used := 0;
      frames := new Option<Frame>[SLOT_COUNT](_ => None);
      count, on := SLOT_COUNT, false;
    }

    method TryTake() returns (ok: bool)
      requires Valid()
      modifies this`count
      ensures Valid() && (ok <==> old(count) > 0)
      ensures count == if ok then old(count) - 1 else 0
    {
      ok := count > 0;
      if ok {
        count := count - 1;
      }
    }

    method Give() returns (ok: bool)
      requires Valid()
      modifies this`count
      ensures Valid() && (ok <==> old(count) < 32)
      ensures count == if ok then old(count) + 1 else 32
    {
      ok := count < SLOT_COUNT;
      if ok {
        count := count + 1;
      }
    }

    /** Set the first clear bit, if there is one. */
    method ClaimFirst() returns (slot: Option<Slot>)
      requires Valid()
      modifies this`used
      ensures Valid()
      ensures slot.Some? ==> FirstClear(old(used), slot.value) && used == Set(old(used), slot.value)
      ensures slot.None? ==> AllSet(used) && used == old(used)
    {
      hide IsSet, Set;
      for i := 0 to SLOT_COUNT
        invariant forall j :: 0 <= j < i ==> IsSet(used, j)
        invariant used == old(used)
      {
        if !IsSet(used, i) {
          used := Set(used, i);
          return Some(i);
        }
      }
      return None;
    }

    /** `can_tx_slots_reset`: all bits clear, the semaphore full. */
    method Reset()
      requires Valid()
      modifies this`count, this`used
      ensures Valid() && count == 32 && used == 0
    {
      used := 0;
      var given := true;
      while given
        invariant Valid() && (given || count == SLOT_COUNT) && used == 0
        decreases SLOT_COUNT - count, given
      {
        given := Give();
      }
    }

    /** `can_on_tx_done`. */
    method OnTxDone(slot: Slot)
      requires Valid()
      modifies this`count, this`used
      ensures Valid() && SetOf(used) == SetOf(old(used)) - {slot}
      ensures count == if old(count) < 32 then old(count) + 1 else 32
    {
      hide SetOf, Clear;
      BitsAreSets(used, slot);
      used := Clear(used, slot);
      var _ := Give();
    }

    /** `can_send`, undisturbed: on success exactly one slot, the first free one, holds the frame
        and one permit is gone; on every failure permits and bits are as before. */
    method Send(m: Message, driverOk: bool) returns (r: Outcome)
      requires Valid() && |m.data| >= MAX_DLC
      modifies this`count, this`used, frames
      ensures Valid()
      ensures r.InvalidState? <==> !on
      ensures r.Timeout? <==> on && (old(count) == 0 || AllUsed(SetOf(old(used))))
      ensures r.TransmitFailed? ==> !driverOk
      ensures r.Sent? ==>
        && driverOk && IsFirstFree(SetOf(old(used)), r.slot)
        && SetOf(used) == SetOf(old(used)) + {r.slot} && count == old(count) - 1
        && frames[..] == old(frames[..])[r.slot := Some(ToFrame(m))]
      ensures !r.Sent? ==> used == old(used) && count == old(count)
    {
      hide SetOf, AllSet, FirstClear, Set, Clear, IsSet;
      BitsAreSets(used, 0);
      if !on {
        return InvalidState;
      }
      var ok := TryTake();
      if !ok {
        return Timeout;
      }
      var slot := ClaimFirst();
      if slot.None? {
        var _ := Give();
        return Timeout;
      }
      BitsAreSets(old(used), slot.value);
      assert !AllUsed(SetOf(old(used)));
      frames[slot.value] := Some(Frame(m.identifier, m.extd, m.rtr, ClampedDlc(m),
                                       if m.rtr then [] else m.data[..ClampedDlc(m)]));
      if !driverOk {
        ReleasedAgain(old(used), slot.value);
        used := Clear(used, slot.value);
        var _ := Give();
        return TransmitFailed;
      }
      return Sent(slot.value);
    }
  }

  lemma ReleasedAgain(bits: bv32, i: Slot)
    requires IsFirstFree(SetOf(bits), i)
    ensures Clear(Set(bits, i), i) == bits
  {
    hide Set, Clear, IsSet;
    OneBitChanges(bits, i, i);
  }

  /** A successful send, step by step in the interleaved model, does to counters and bits what
      `Send` does. */
  lemma SendIsItsSteps(s: Bus, i: Slot)
    requires s.count > 0 && s.waiting == 0 && s.holder.Nobody? && s.on && s.node && IsFirstFree(s.used, i)
    ensures var r := Run(s, [TakePermit, LockNode, Claim(i), TransmitOk]);
      r == s.(count := s.count - 1, used := s.used + {i}, inFlight := s.inFlight + multiset{i})
  {
    var a := Do(s, TakePermit).value;
    var b := Do(a, LockNode).value;
    var c := Do(b, Claim(i)).value;
    assert [TakePermit, LockNode, Claim(i), TransmitOk][1..] == [LockNode, Claim(i), TransmitOk];
    assert [LockNode, Claim(i), TransmitOk][1..] == [Claim(i), TransmitOk];
    assert [Claim(i), TransmitOk][1..] == [TransmitOk];
    assert [TransmitOk][1..] == [];
    var d := Do(c, TransmitOk).value;
    assert Schedules.Run(Do, d, []) == d;
    assert Schedules.Run(Do, c, [TransmitOk]) == Schedules.Run(Do, d, []);
    assert Schedules.Run(Do, b, [Claim(i), TransmitOk]) == Schedules.Run(Do, c, [TransmitOk]);
    assert Schedules.Run(Do, a, [LockNode, Claim(i), TransmitOk]) == Schedules.Run(Do, b, [Claim(i), TransmitOk]);
  }
}
