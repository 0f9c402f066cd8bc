/** CRC-32 as RealDash frames carry it: the 256-entry table form of main/realdash.c
    against the definition that consumes one message bit at a time. */
module Crc32 {
  // The generator polynomial of CRC-32, bit-reversed (RFC 1952, section 8).
  const POLY: bv32 := 0xEDB8_8320
  const ALL_ONES: bv32 := 0xFFFF_FFFF

  // ---------------------------------------------------------------- the bit-serial definition

  /** Subtraction of the division: carry-less, bit by bit. */
  function Xor(a: bv32, b: bv32): bv32 {
    a ^ b
  }

  function Half(c: bv32): bv32 {
    c >> 1
  }

  function Twice(w: bv32): bv32 {
    w << 1
  }

  predicate Odd(c: bv32) {
    c & 1 == 1
  }

  /** What one step subtracts: the generator when the low bit is set. */
  function Subtrahend(c: bv32): bv32 {
    if Odd(c) then POLY else 0
  }

  /** One step of the division: drop the low bit, subtracting the generator when it was set. */
  function Shift(c: bv32): bv32 {
    Xor(Half(c), Subtrahend(c))
  }

  /** The left inverse of `Shift`: the top bit tells whether the generator was subtracted. */
  function Unshift(c: bv32): bv32 {
    if c & 0x8000_0000 != 0 then ((c ^ POLY) << 1) | 1 else c << 1
  }

  function ShiftN(c: bv32, n: nat): bv32
    decreases n
  {
    if n == 0 then c else ShiftN(Shift(c), n - 1)
  }

  function UnshiftN(c: bv32, n: nat): bv32
    decreases n
  {
    if n == 0 then c else Unshift(UnshiftN(c, n - 1))
  }

  function Bit(b: bool): bv32 {
    if b then 1 else 0
  }

  function FeedBits(c: bv32, bits: seq<bool>): bv32
    decreases |bits|
  {
    if bits == [] then c else FeedBits(Shift(Xor(c, Bit(bits[0]))), bits[1..])
  }

  /** The low `n` bits of `x`, least significant first: the order a CRC-32 message is read in. */
  function LowBits(x: bv32, n: nat): seq<bool>
    decreases n
  {
    if n == 0 then [] else [Odd(x)] + LowBits(Half(x), n - 1)
  }

  function MessageBits(data: seq<bv8>): seq<bool> {
    if data == [] then [] else LowBits(data[0] as bv32, 8) + MessageBits(data[1..])
  }

  /** CRC-32 of a byte string, by definition: feed every bit, complement before and after. */
  function SerialCrc(data: seq<bv8>): bv32 {
    Xor(FeedBits(ALL_ONES, MessageBits(data)), ALL_ONES)
  }

  lemma OneStep(c: bv32, b: bool, bits: seq<bool>, next: bv32)
    requires bits != [] && bits[0] == b && next == Shift(Xor(c, Bit(b)))
    ensures FeedBits(c, bits) == FeedBits(next, bits[1..])
  {
    hide Shift, Xor, Bit;
  }

  /** A published value: the CRC-32 of the letter a. */
  lemma KnownAnswer()
    ensures SerialCrc([0x61]) == 0xE8B7_BE43
  {
    hide FeedBits, LowBits;
    LowBitsOfA();
    var bits := [true, false, false, false, false, true, true, false];
    assert MessageBits([0x61]) == bits by { assert [0x61][1..] == []; }
    StepsOfA(bits);
  }

  lemma LowBitsOfA()
    ensures LowBits(0x61, 8) == [true, false, false, false, false, true, true, false]
  {
    assert LowBits(0x00, 1) == [false];
    assert LowBits(0x01, 2) == [true, false];
    assert LowBits(0x03, 3) == [true, true, false];
    assert LowBits(0x06, 4) == [false, true, true, false];
    assert LowBits(0x0C, 5) == [false, false, true, true, false];
    assert LowBits(0x18, 6) == [false, false, false, true, true, false];
    assert LowBits(0x30, 7) == [false, false, false, false, true, true, false];
  }

  lemma StepsOfA(bits: seq<bool>)
    requires bits == [true, false, false, false, false, true, true, false]
    ensures FeedBits(ALL_ONES, bits) == 0x1748_41BC
  {
    OneStep(0xFFFF_FFFF, true, bits, 0x7FFF_FFFF);
    OneStep(0x7FFF_FFFF, false, bits[1..], 0xD247_7CDF);
    OneStep(0xD247_7CDF, false, bits[1..][1..], 0x849B_3D4F);
    OneStep(0x849B_3D4F, false, bits[1..][1..][1..], 0xAFF5_1D87);
    OneStep(0xAFF5_1D87, false, bits[1..][1..][1..][1..], 0xBA42_0DE3);
    OneStep(0xBA42_0DE3, true, bits[1..][1..][1..][1..][1..], 0x5D21_06F1);
    OneStep(0x5D21_06F1, true, bits[1..][1..][1..][1..][1..][1..], 0x2E90_8378);
    OneStep(0x2E90_8378, false, bits[1..][1..][1..][1..][1..][1..][1..], 0x1748_41BC);
  }

  // ---------------------------------------------------------------- linearity and inverses

  lemma UnshiftShift(c: bv32)
    ensures Unshift(Shift(c)) == c
  {
  }

  lemma XorParity(a: bv32, b: bv32)
    ensures (a ^ b) & 1 == (a & 1) ^ (b & 1)
  {
  }

  lemma XorIs(a: bv32, b: bv32)
    ensures Xor(a, b) == a ^ b
  {
  }

  // The facts below are first stated on plain variables, where the solver settles them at
  // once, and then about `Xor`.

  lemma HalfOfSum(a: bv32, b: bv32, x: bv32, y: bv32, half: bv32)
    requires x == a ^ b && y == (a >> 1) ^ (b >> 1) && half == x >> 1
    ensures half == y
  {
  }

  lemma HalfIs(c: bv32)
    ensures Half(c) == c >> 1
  {
  }

  lemma TwiceIs(c: bv32)
    ensures Twice(c) == c << 1
  {
  }

  lemma XorHalf(a: bv32, b: bv32)
    ensures Half(Xor(a, b)) == Xor(Half(a), Half(b))
  {
    hide Xor, Half;
    XorIs(a, b);
    XorIs(Half(a), Half(b));
    HalfIs(a);
    HalfIs(b);
    HalfIs(Xor(a, b));
    HalfOfSum(a, b, Xor(a, b), Xor(Half(a), Half(b)), Half(Xor(a, b)));
  }

  lemma SumsSwap(a: bv32, b: bv32, c: bv32, d: bv32,
                 ab: bv32, cd: bv32, ac: bv32, bd: bv32, l: bv32, r: bv32)
    requires ab == a ^ b && cd == c ^ d && ac == a ^ c && bd == b ^ d
    requires l == ab ^ cd && r == ac ^ bd
    ensures l == r
  {
  }

  lemma XorSwap(a: bv32, b: bv32, c: bv32, d: bv32)
    ensures Xor(Xor(a, b), Xor(c, d)) == Xor(Xor(a, c), Xor(b, d))
  {
    hide Xor;
    XorIs(a, b);
    XorIs(c, d);
    XorIs(a, c);
    XorIs(b, d);
    XorIs(Xor(a, b), Xor(c, d));
    XorIs(Xor(a, c), Xor(b, d));
    SumsSwap(a, b, c, d, Xor(a, b), Xor(c, d), Xor(a, c), Xor(b, d),
             Xor(Xor(a, b), Xor(c, d)), Xor(Xor(a, c), Xor(b, d)));
  }

  lemma SumsSwapLast(a: bv32, b: bv32, c: bv32, ab: bv32, ac: bv32, l: bv32, r: bv32)
    requires ab == a ^ b && ac == a ^ c && l == ab ^ c && r == ac ^ b
    ensures l == r
  {
  }

  lemma XorSwapLast(a: bv32, b: bv32, c: bv32)
    ensures Xor(Xor(a, b), c) == Xor(Xor(a, c), b)
  {
    hide Xor;
    XorIs(a, b);
    XorIs(a, c);
    XorIs(Xor(a, b), c);
    XorIs(Xor(a, c), b);
    SumsSwapLast(a, b, c, Xor(a, b), Xor(a, c), Xor(Xor(a, b), c), Xor(Xor(a, c), b));
  }

  lemma XorCancel(a: bv32, b: bv32)
    ensures Xor(a, Xor(a, b)) == b && Xor(Xor(b, a), a) == b
  {
  }

  lemma OneBit(a: bv32)
    ensures a & 1 == 0 || a & 1 == 1
  {
  }

  lemma SubtrahendLinear(a: bv32, b: bv32)
    ensures Subtrahend(Xor(a, b)) == Xor(Subtrahend(a), Subtrahend(b))
  {
    XorParity(a, b);
    OneBit(a);
    OneBit(b);
  }

  lemma ShiftLinear(a: bv32, b: bv32)
    ensures Shift(Xor(a, b)) == Xor(Shift(a), Shift(b))
  {
    hide Xor, Half, Subtrahend;
    SubtrahendLinear(a, b);
    XorHalf(a, b);
    XorSwap(Half(a), Half(b), Subtrahend(a), Subtrahend(b));
  }

  lemma {:induction false} ShiftNLinear(a: bv32, b: bv32, n: nat)
    ensures ShiftN(Xor(a, b), n) == Xor(ShiftN(a, n), ShiftN(b, n))
    decreases n
  {
    hide Xor, Shift;
    if n > 0 {
      ShiftLinear(a, b);
      ShiftNLinear(Shift(a), Shift(b), n - 1);
    }
  }

  /** Every number of steps can be undone, so no two registers ever merge. */
  lemma {:induction false} UnshiftNShiftN(c: bv32, n: nat)
    ensures UnshiftN(ShiftN(c, n), n) == c
    decreases n
  {
    hide Shift, Unshift;
    if n > 0 {
      UnshiftNShiftN(Shift(c), n - 1);
      UnshiftShift(c);
    }
  }

  lemma {:induction false} FeedBitsAppend(c: bv32, a: seq<bool>, b: seq<bool>)
    ensures FeedBits(c, a + b) == FeedBits(FeedBits(c, a), b)
    decreases |a|
  {
    hide Shift, Xor;
    if a == [] {
      assert a + b == b;
    } else {
      assert (a + b)[1..] == a[1..] + b;
      FeedBitsAppend(Shift(Xor(c, Bit(a[0]))), a[1..], b);
    }
  }

  lemma {:induction false} MessageBitsAppend(a: seq<bv8>, b: seq<bv8>)
    ensures MessageBits(a + b) == MessageBits(a) + MessageBits(b)
    decreases |a|
  {
    hide LowBits;
    if a == [] {
      assert a + b == b;
    } else {
      assert (a + b)[1..] == a[1..] + b;
      MessageBitsAppend(a[1..], b);
    }
  }

  // ---------------------------------------------------------------- a window of at most 32 bits

  /** A bit string of at most 32 bits as a number, first bit least significant. */
  function Word(bits: seq<bool>): bv32 {
    if bits == [] then 0 else Cons(bits[0], Word(bits[1..]))
  }

  /** The word `w` moved up by one position, with `b` below it. */
  function Cons(b: bool, w: bv32): bv32 {
    Bit(b) | Twice(w)
  }

  /** `x` fits in `n` bits. */
  ghost predicate Fits(x: bv32, n: nat)
    decreases n
  {
    if n == 0 then x == 0 else Fits(Half(x), n - 1)
  }

  /** The single-bit mask of position `n`. */
  ghost function OneAt(n: nat): bv32 {
    if n == 0 then 1 else OneAt(n - 1) << 1
  }

  lemma {:induction false} FitsMore(x: bv32, n: nat, m: nat)
    requires n <= m && Fits(x, n)
    ensures Fits(x, m)
    decreases m
  {
    if n > 0 {
      FitsMore(Half(x), n - 1, m - 1);
    } else if m > 0 {
      HalfIs(0);
      FitsMore(0, 0, m - 1);
    }
  }

  lemma MaskedShift(x: bv32, m: bv32)
    requires (x >> 1) & m == 0
    ensures x & (m << 1) == 0
  {
  }

  lemma {:induction false} FitsClearsBit(x: bv32, n: nat)
    requires Fits(x, n)
    ensures x & OneAt(n) == 0
    decreases n
  {
    if n > 0 {
      FitsClearsBit(Half(x), n - 1);
      HalfIs(x);
      MaskedShift(x, OneAt(n - 1));
    }
  }

  lemma TopBit()
    ensures OneAt(31) == 0x8000_0000
  {
    assert OneAt(8) == 0x100;
    assert OneAt(16) == 0x1_0000;
    assert OneAt(24) == 0x100_0000;
  }

  lemma FitsClearsTop(x: bv32, n: nat)
    requires Fits(x, n) && n <= 31
    ensures x & 0x8000_0000 == 0
  {
    FitsMore(x, n, 31);
    FitsClearsBit(x, 31);
    TopBit();
  }

  lemma BitBelowWord(b: bv32, w: bv32, e: bv32, c: bv32, h: bv32)
    requires b <= 1 && w & 0x8000_0000 == 0 && e == w << 1 && c == b | e && h == c >> 1
    ensures h == w
  {
  }

  lemma OddOfCons(b: bool, w: bv32)
    ensures Odd(Cons(b, w)) == b
  {
  }

  lemma HalfOfCons(b: bool, w: bv32)
    requires w & 0x8000_0000 == 0
    ensures Half(Cons(b, w)) == w
  {
    hide Cons, Half, Bit, Twice;
    ConsIs(b, w);
    TwiceIs(w);
    BitIsSmall(b);
    HalfIs(Cons(b, w));
    BitBelowWord(Bit(b), w, Twice(w), Cons(b, w), Half(Cons(b, w)));
  }

  /** A bit below a word whose top bit is clear: both can be read back. */
  lemma ConsReadBack(b: bool, w: bv32)
    requires w & 0x8000_0000 == 0
    ensures Odd(Cons(b, w)) == b
    ensures Half(Cons(b, w)) == w
  {
    hide Cons, Odd, Half;
    OddOfCons(b, w);
    HalfOfCons(b, w);
  }

  lemma {:induction false} WordFits(bits: seq<bool>)
    requires |bits| <= 32
    ensures Fits(Word(bits), |bits|)
    decreases |bits|
  {
    hide Cons, Half, Odd;
    if bits != [] {
      WordFits(bits[1..]);
      FitsClearsTop(Word(bits[1..]), |bits| - 1);
      ConsReadBack(bits[0], Word(bits[1..]));
    }
  }

  lemma ConsInjective(a: bool, b: bool, v: bv32, w: bv32)
    requires v & 0x8000_0000 == 0 && w & 0x8000_0000 == 0 && Cons(a, v) == Cons(b, w)
    ensures a == b && v == w
  {
    hide Cons, Odd, Half;
    ConsReadBack(a, v);
    ConsReadBack(b, w);
  }

  lemma {:induction false} WordInjective(a: seq<bool>, b: seq<bool>)
    requires |a| == |b| <= 32 && Word(a) == Word(b)
    ensures a == b
    decreases |a|
  {
    hide Cons;
    if a != [] {
      var v, w := Word(a[1..]), Word(b[1..]);
      WordFits(a[1..]);
      WordFits(b[1..]);
      FitsClearsTop(v, |a| - 1);
      FitsClearsTop(w, |a| - 1);
      ConsInjective(a[0], b[0], v, w);
      WordInjective(a[1..], b[1..]);
      assert a == [a[0]] + a[1..] && b == [b[0]] + b[1..];
    }
  }

  lemma ConsLowBit(x: bv32)
    ensures Cons(Odd(x), Half(x)) == x
  {
    OneBit(x);
  }

  lemma {:induction false} WordOfLowBits(x: bv32, n: nat)
    requires n <= 32 && Fits(x, n)
    ensures |LowBits(x, n)| == n && Word(LowBits(x, n)) == x
    decreases n
  {
    hide Cons, Half, Odd;
    if n > 0 {
      WordOfLowBits(Half(x), n - 1);
      assert LowBits(x, n)[1..] == LowBits(Half(x), n - 1);
      ConsLowBit(x);
    }
  }

  lemma SumWithCons(c: bv32, b: bv32, w: bv32, e: bv32, cons: bv32, d: bv32, l: bv32, r: bv32)
    requires e == w << 1 && b <= 1 && cons == b | e && d == c ^ b && l == c ^ cons && r == d ^ e
    ensures l == r
  {
  }

  lemma ConsIs(b: bool, w: bv32)
    ensures Cons(b, w) == Bit(b) | Twice(w)
  {
    hide Bit, Twice;
  }

  lemma BitIsSmall(b: bool)
    ensures Bit(b) <= 1
  {
  }

  lemma XorOfCons(c: bv32, b: bool, w: bv32)
    ensures Xor(c, Cons(b, w)) == Xor(Xor(c, Bit(b)), Twice(w))
  {
    hide Xor, Cons, Bit, Twice;
    BitIsSmall(b);
    TwiceIs(w);
    ConsIs(b, w);
    XorIs(c, Bit(b));
    XorIs(c, Cons(b, w));
    XorIs(Xor(c, Bit(b)), Twice(w));
    SumWithCons(c, Bit(b), w, Twice(w), Cons(b, w), Xor(c, Bit(b)),
                Xor(c, Cons(b, w)), Xor(Xor(c, Bit(b)), Twice(w)));
  }

  lemma LowBitOfSum(d: bv32, w: bv32, e: bv32, x: bv32)
    requires e == w << 1 && x == d ^ e
    ensures Odd(x) == Odd(d)
  {
  }

  lemma HalfOfSumWithEven(d: bv32, w: bv32, e: bv32, x: bv32, hd: bv32, y: bv32, hx: bv32)
    requires w & 0x8000_0000 == 0 && e == w << 1 && x == d ^ e
    requires hd == d >> 1 && y == hd ^ w && hx == x >> 1
    ensures hx == y
  {
  }

  lemma SubtrahendIgnoresEven(d: bv32, w: bv32)
    ensures Subtrahend(Xor(d, Twice(w))) == Subtrahend(d)
  {
    hide Xor, Twice, Odd;
    TwiceIs(w);
    XorIs(d, Twice(w));
    LowBitOfSum(d, w, Twice(w), Xor(d, Twice(w)));
  }

  lemma XorEven(d: bv32, w: bv32)
    requires w & 0x8000_0000 == 0
    ensures Half(Xor(d, Twice(w))) == Xor(Half(d), w)
  {
    hide Xor, Half, Twice;
    TwiceIs(w);
    HalfIs(d);
    HalfIs(Xor(d, Twice(w)));
    XorIs(d, Twice(w));
    XorIs(Half(d), w);
    HalfOfSumWithEven(d, w, Twice(w), Xor(d, Twice(w)), Half(d), Xor(Half(d), w), Half(Xor(d, Twice(w))));
  }

  lemma ShiftUnderWord(c: bv32, b: bool, w: bv32)
    requires w & 0x8000_0000 == 0
    ensures Shift(Xor(c, Cons(b, w))) == Xor(Shift(Xor(c, Bit(b))), w)
  {
    hide Xor, Half, Twice, Cons, Subtrahend, Bit;
    var d := Xor(c, Bit(b));
    XorOfCons(c, b, w);
    SubtrahendIgnoresEven(d, w);
    XorEven(d, w);
    XorSwapLast(Half(d), w, Subtrahend(d));
  }

  /** Feeding at most 32 bits is adding their word to the register and shifting. */
  lemma {:induction false} FeedWord(c: bv32, bits: seq<bool>)
    requires |bits| <= 32
    ensures FeedBits(c, bits) == ShiftN(Xor(c, Word(bits)), |bits|)
    decreases |bits|
  {
    hide Shift, Xor, Cons, Bit;
    if bits == [] {
      XorZero(c);
    } else {
      var next, rest := Shift(Xor(c, Bit(bits[0]))), bits[1..];
      FeedWord(next, rest);
      WordFits(rest);
      FitsClearsTop(Word(rest), |rest|);
      ShiftUnderWord(c, bits[0], Word(rest));
    }
  }

  lemma XorZero(c: bv32)
    ensures Xor(c, 0) == c
  {
  }

  /** From one register, two different windows of equal length up to 32 bits never lead to
      the same register. */
  lemma WindowsDiverge(c: bv32, a: seq<bool>, b: seq<bool>)
    requires |a| == |b| <= 32 && FeedBits(c, a) == FeedBits(c, b)
    ensures a == b
  {
    hide Shift, Unshift, Xor, Cons;
    FeedWord(c, a);
    FeedWord(c, b);
    UnshiftNShiftN(Xor(c, Word(a)), |a|);
    UnshiftNShiftN(Xor(c, Word(b)), |a|);
    XorCancel(c, Word(a));
    XorCancel(c, Word(b));
    WordInjective(a, b);
  }

  /** Reading the same bits never merges two registers. */
  lemma {:induction false} FeedBitsInjective(c: bv32, d: bv32, bits: seq<bool>)
    requires FeedBits(c, bits) == FeedBits(d, bits)
    ensures c == d
    decreases |bits|
  {
    hide Shift, Unshift, Xor, Bit;
    if bits != [] {
      var b := Bit(bits[0]);
      FeedBitsInjective(Shift(Xor(c, b)), Shift(Xor(d, b)), bits[1..]);
      UnshiftShift(Xor(c, b));
      UnshiftShift(Xor(d, b));
      XorCancel(b, c);
      XorCancel(b, d);
    }
  }

  /** The burst-error law: messages that differ only inside a window of 32 bits, anywhere and
      not necessarily on byte boundaries, have different CRCs. */
  lemma BurstChangesCrc(pre: seq<bool>, a: seq<bool>, b: seq<bool>, post: seq<bool>)
    requires |a| == |b| <= 32 && a != b
    ensures FeedBits(ALL_ONES, pre + a + post) != FeedBits(ALL_ONES, pre + b + post)
  {
    hide Shift, Xor;
    var c := FeedBits(ALL_ONES, pre);
    FeedBitsAppend(ALL_ONES, pre + a, post);
    FeedBitsAppend(ALL_ONES, pre, a);
    FeedBitsAppend(ALL_ONES, pre + b, post);
    FeedBitsAppend(ALL_ONES, pre, b);
    if FeedBits(FeedBits(c, a), post) == FeedBits(FeedBits(c, b), post) {
      FeedBitsInjective(FeedBits(c, a), FeedBits(c, b), post);
      WindowsDiverge(c, a, b);
    }
  }

  // ---------------------------------------------------------------- the table form

  const ROW_0: seq<bv32> :=
    [0x00000000, 0x77073096, 0xEE0E612C, 0x990951BA,
     0x076DC419, 0x706AF48F, 0xE963A535, 0x9E6495A3,
     0x0EDB8832, 0x79DCB8A4, 0xE0D5E91E, 0x97D2D988,
     0x09B64C2B, 0x7EB17CBD, 0xE7B82D07, 0x90BF1D91]

  const ROW_1: seq<bv32> :=
    [0x1DB71064, 0x6AB020F2, 0xF3B97148, 0x84BE41DE,
     0x1ADAD47D, 0x6DDDE4EB, 0xF4D4B551, 0x83D385C7,
     0x136C9856, 0x646BA8C0, 0xFD62F97A, 0x8A65C9EC,
     0x14015C4F, 0x63066CD9, 0xFA0F3D63, 0x8D080DF5]

  const ROW_2: seq<bv32> :=
    [0x3B6E20C8, 0x4C69105E, 0xD56041E4, 0xA2677172,
     0x3C03E4D1, 0x4B04D447, 0xD20D85FD, 0xA50AB56B,
     0x35B5A8FA, 0x42B2986C, 0xDBBBC9D6, 0xACBCF940,
     0x32D86CE3, 0x45DF5C75, 0xDCD60DCF, 0xABD13D59]

  const ROW_3: seq<bv32> :=
    [0x26D930AC, 0x51DE003A, 0xC8D75180, 0xBFD06116,
     0x21B4F4B5, 0x56B3C423, 0xCFBA9599, 0xB8BDA50F,
     0x2802B89E, 0x5F058808, 0xC60CD9B2, 0xB10BE924,
     0x2F6F7C87, 0x58684C11, 0xC1611DAB, 0xB6662D3D]

  const ROW_4: seq<bv32> :=
    [0x76DC4190, 0x01DB7106, 0x98D220BC, 0xEFD5102A,
     0x71B18589, 0x06B6B51F, 0x9FBFE4A5, 0xE8B8D433,
     0x7807C9A2, 0x0F00F934, 0x9609A88E, 0xE10E9818,
     0x7F6A0DBB, 0x086D3D2D, 0x91646C97, 0xE6635C01]

  const ROW_5: seq<bv32> :=
    [0x6B6B51F4, 0x1C6C6162, 0x856530D8, 0xF262004E,
     0x6C0695ED, 0x1B01A57B, 0x8208F4C1, 0xF50FC457,
     0x65B0D9C6, 0x12B7E950, 0x8BBEB8EA, 0xFCB9887C,
     0x62DD1DDF, 0x15DA2D49, 0x8CD37CF3, 0xFBD44C65]

  const ROW_6: seq<bv32> :=
    [0x4DB26158, 0x3AB551CE, 0xA3BC0074, 0xD4BB30E2,
     0x4ADFA541, 0x3DD895D7, 0xA4D1C46D, 0xD3D6F4FB,
     0x4369E96A, 0x346ED9FC, 0xAD678846, 0xDA60B8D0,
     0x44042D73, 0x33031DE5, 0xAA0A4C5F, 0xDD0D7CC9]

  const ROW_7: seq<bv32> :=
    [0x5005713C, 0x270241AA, 0xBE0B1010, 0xC90C2086,
     0x5768B525, 0x206F85B3, 0xB966D409, 0xCE61E49F,
     0x5EDEF90E, 0x29D9C998, 0xB0D09822, 0xC7D7A8B4,
     0x59B33D17, 0x2EB40D81, 0xB7BD5C3B, 0xC0BA6CAD]

  const ROW_8: seq<bv32> :=
    [0xEDB88320, 0x9ABFB3B6, 0x03B6E20C, 0x74B1D29A,
     0xEAD54739, 0x9DD277AF, 0x04DB2615, 0x73DC1683,
     0xE3630B12, 0x94643B84, 0x0D6D6A3E, 0x7A6A5AA8,
     0xE40ECF0B, 0x9309FF9D, 0x0A00AE27, 0x7D079EB1]

  const ROW_9: seq<bv32> :=
    [0xF00F9344, 0x8708A3D2, 0x1E01F268, 0x6906C2FE,
     0xF762575D, 0x806567CB, 0x196C3671, 0x6E6B06E7,
     0xFED41B76, 0x89D32BE0, 0x10DA7A5A, 0x67DD4ACC,
     0xF9B9DF6F, 0x8EBEEFF9, 0x17B7BE43, 0x60B08ED5]

  const ROW_A: seq<bv32> :=
    [0xD6D6A3E8, 0xA1D1937E, 0x38D8C2C4, 0x4FDFF252,
     0xD1BB67F1, 0xA6BC5767, 0x3FB506DD, 0x48B2364B,
     0xD80D2BDA, 0xAF0A1B4C, 0x36034AF6, 0x41047A60,
     0xDF60EFC3, 0xA867DF55, 0x316E8EEF, 0x4669BE79]

  const ROW_B: seq<bv32> :=
    [0xCB61B38C, 0xBC66831A, 0x256FD2A0, 0x5268E236,
     0xCC0C7795, 0xBB0B4703, 0x220216B9, 0x5505262F,
     0xC5BA3BBE, 0xB2BD0B28, 0x2BB45A92, 0x5CB36A04,
     0xC2D7FFA7, 0xB5D0CF31, 0x2CD99E8B, 0x5BDEAE1D]

  const ROW_C: seq<bv32> :=
    [0x9B64C2B0, 0xEC63F226, 0x756AA39C, 0x026D930A,
     0x9C0906A9, 0xEB0E363F, 0x72076785, 0x05005713,
     0x95BF4A82, 0xE2B87A14, 0x7BB12BAE, 0x0CB61B38,
     0x92D28E9B, 0xE5D5BE0D, 0x7CDCEFB7, 0x0BDBDF21]

  const ROW_D: seq<bv32> :=
    [0x86D3D2D4, 0xF1D4E242, 0x68DDB3F8, 0x1FDA836E,
     0x81BE16CD, 0xF6B9265B, 0x6FB077E1, 0x18B74777,
     0x88085AE6, 0xFF0F6A70, 0x66063BCA, 0x11010B5C,
     0x8F659EFF, 0xF862AE69, 0x616BFFD3, 0x166CCF45]

  const ROW_E: seq<bv32> :=
    [0xA00AE278, 0xD70DD2EE, 0x4E048354, 0x3903B3C2,
     0xA7672661, 0xD06016F7, 0x4969474D, 0x3E6E77DB,
     0xAED16A4A, 0xD9D65ADC, 0x40DF0B66, 0x37D83BF0,
     0xA9BCAE53, 0xDEBB9EC5, 0x47B2CF7F, 0x30B5FFE9]

  const ROW_F: seq<bv32> :=
    [0xBDBDF21C, 0xCABAC28A, 0x53B39330, 0x24B4A3A6,
     0xBAD03605, 0xCDD70693, 0x54DE5729, 0x23D967BF,
     0xB3667A2E, 0xC4614AB8, 0x5D681B02, 0x2A6F2B94,
     0xB40BBE37, 0xC30C8EA1, 0x5A05DF1B, 0x2D02EF8D]

  // The 256-entry table, laid out as sixteen rows of sixteen.
  const TABLE: seq<seq<bv32>> :=
    [ROW_0, ROW_1, ROW_2, ROW_3, ROW_4, ROW_5, ROW_6, ROW_7,
     ROW_8, ROW_9, ROW_A, ROW_B, ROW_C, ROW_D, ROW_E, ROW_F]

  function Entry(i: bv32): bv32
    requires i <= 0xFF
  {
    TABLE[(i >> 4) as int][(i & 0xF) as int]
  }

  /** The update the loop performs on each byte. */
  function TableStep(c: bv32, b: bv8): bv32 {
    Xor(c >> 8, Entry(Xor(c, b as bv32) & 0xFF))
  }

  function Shift8(c: bv32): bv32 {
    Shift(Shift(Shift(Shift(Shift(Shift(Shift(Shift(c))))))))
  }

  predicate IsNibble(j: bv32) {
    || j == 0 || j == 1 || j == 2 || j == 3 || j == 4 || j == 5 || j == 6 || j == 7
    || j == 8 || j == 9 || j == 10 || j == 11 || j == 12 || j == 13 || j == 14 || j == 15
  }

  lemma Row0(j: bv32)
    requires j <= 0xF
    ensures ROW_0[j as int] == Shift8(0x00 | j)
  {
    assert IsNibble(j);
  }

  lemma Row1(j: bv32)
    requires j <= 0xF
    ensures ROW_1[j as int] == Shift8(0x10 | j)
  {
    assert IsNibble(j);
  }

  lemma Row2(j: bv32)
    requires j <= 0xF
    ensures ROW_2[j as int] == Shift8(0x20 | j)
  {
    assert IsNibble(j);
  }

  lemma Row3(j: bv32)
    requires j <= 0xF
    ensures ROW_3[j as int] == Shift8(0x30 | j)
  {
    assert IsNibble(j);
  }

  lemma Row4(j: bv32)
    requires j <= 0xF
    ensures ROW_4[j as int] == Shift8(0x40 | j)
  {
    assert IsNibble(j);
  }

  lemma Row5(j: bv32)
    requires j <= 0xF
    ensures ROW_5[j as int] == Shift8(0x50 | j)
  {
    assert IsNibble(j);
  }

  lemma Row6(j: bv32)
    requires j <= 0xF
    ensures ROW_6[j as int] == Shift8(0x60 | j)
  {
    assert IsNibble(j);
  }

  lemma Row7(j: bv32)
    requires j <= 0xF
    ensures ROW_7[j as int] == Shift8(0x70 | j)
  {
    assert IsNibble(j);
  }

  lemma Row8(j: bv32)
    requires j <= 0xF
    ensures ROW_8[j as int] == Shift8(0x80 | j)
  {
    assert IsNibble(j);
  }

  lemma Row9(j: bv32)
    requires j <= 0xF
    ensures ROW_9[j as int] == Shift8(0x90 | j)
  {
    assert IsNibble(j);
  }

  lemma RowA(j: bv32)
    requires j <= 0xF
    ensures ROW_A[j as int] == Shift8(0xA0 | j)
  {
    assert IsNibble(j);
  }

  lemma RowB(j: bv32)
    requires j <= 0xF
    ensures ROW_B[j as int] == Shift8(0xB0 | j)
  {
    assert IsNibble(j);
  }

  lemma RowC(j: bv32)
    requires j <= 0xF
    ensures ROW_C[j as int] == Shift8(0xC0 | j)
  {
    assert IsNibble(j);
  }

  lemma RowD(j: bv32)
    requires j <= 0xF
    ensures ROW_D[j as int] == Shift8(0xD0 | j)
  {
    assert IsNibble(j);
  }

  lemma RowE(j: bv32)
    requires j <= 0xF
    ensures ROW_E[j as int] == Shift8(0xE0 | j)
  {
    assert IsNibble(j);
  }

  lemma RowF(j: bv32)
    requires j <= 0xF
    ensures ROW_F[j as int] == Shift8(0xF0 | j)
  {
    assert IsNibble(j);
  }

  /** Every one of the 256 entries is the register that its index becomes in eight steps. */
  lemma EntryIsEightShifts(i: bv32)
    requires i <= 0xFF
    ensures Entry(i) == Shift8(i)
  {
    hide Shift8;
    var h, j := i >> 4, i & 0xF;
    assert i == (h << 4) | j;
    if h == 0 { Row0(j); } else if h == 1 { Row1(j); } else if h == 2 { Row2(j); }
    else if h == 3 { Row3(j); } else if h == 4 { Row4(j); } else if h == 5 { Row5(j); }
    else if h == 6 { Row6(j); } else if h == 7 { Row7(j); } else if h == 8 { Row8(j); }
    else if h == 9 { Row9(j); } else if h == 10 { RowA(j); } else if h == 11 { RowB(j); }
    else if h == 12 { RowC(j); } else if h == 13 { RowD(j); } else if h == 14 { RowE(j); }
    else { RowF(j); }
  }

  lemma Shift8IsShiftN(c: bv32)
    ensures ShiftN(c, 8) == Shift8(c)
  {
    hide Shift;
    assert ShiftN(c, 8) == ShiftN(Shift(Shift(c)), 6);
    assert ShiftN(Shift(Shift(c)), 6) == ShiftN(Shift(Shift(Shift(Shift(c)))), 4);
  }

  lemma HighPartShifts(c: bv32)
    ensures Shift8(c & 0xFFFF_FF00) == c >> 8
  {
  }

  lemma SplitByte(x: bv32)
    ensures x == Xor(x & 0xFFFF_FF00, x & 0xFF)
  {
  }

  lemma ByteBelowRegister(c: bv32, b: bv8)
    ensures Xor(c, b as bv32) >> 8 == c >> 8
  {
  }

  /** The byte-wise table update is exactly eight steps of the bit-serial division. */
  lemma TableStepIsEightBits(c: bv32, b: bv8)
    ensures TableStep(c, b) == FeedBits(c, LowBits(b as bv32, 8))
  {
    hide Shift, Shift8, Xor, Cons, Entry, LowBits;
    var x := Xor(c, b as bv32);
    var hi, lo := x & 0xFFFF_FF00, x & 0xFF;
    ByteFits(b);
    WordOfLowBits(b as bv32, 8);
    FeedWord(c, LowBits(b as bv32, 8));
    assert FeedBits(c, LowBits(b as bv32, 8)) == ShiftN(x, 8);
    SplitByte(x);
    ShiftNLinear(hi, lo, 8);
    Shift8IsShiftN(hi);
    HighPartShifts(x);
    Shift8IsShiftN(lo);
    EntryIsEightShifts(lo);
    ByteBelowRegister(c, b);
  }

  lemma EightHalves(x: bv32)
    requires x <= 0xFF
    ensures Half(Half(Half(Half(Half(Half(Half(Half(x)))))))) == 0
  {
  }

  lemma ByteFits(b: bv8)
    ensures Fits(b as bv32, 8)
  {
    EightHalves(b as bv32);
    hide Half;
    var x := Half(Half(Half(Half(b as bv32))));
    assert Fits(Half(Half(x)), 2);
    assert Fits(x, 4);
    assert Fits(Half(Half(b as bv32)), 6);
  }

  lemma FeedByte(done: seq<bv8>, b: bv8)
    ensures FeedBits(ALL_ONES, MessageBits(done + [b]))
         == FeedBits(FeedBits(ALL_ONES, MessageBits(done)), LowBits(b as bv32, 8))
  {
    hide Shift, Xor, LowBits;
    MessageBitsAppend(done, [b]);
    assert [b][1..] == [];
    assert MessageBits([b]) == LowBits(b as bv32, 8);
    FeedBitsAppend(ALL_ONES, MessageBits(done), LowBits(b as bv32, 8));
  }

  /** The table loop over the first `numBytes` bytes of a buffer. */
  method TableCrc(data: array<bv8>, numBytes: nat) returns (crc: bv32)
    requires numBytes <= data.Length
    ensures crc == SerialCrc(data[..numBytes])
  {
    hide Shift, Xor, TableStep, LowBits;
    var crc32 := ALL_ONES;
    var i := 0;
    while i < numBytes
      invariant 0 <= i <= numBytes
      invariant crc32 == FeedBits(ALL_ONES, MessageBits(data[..i]))
    {
      assert data[..i + 1] == data[..i] + [data[i]];
      TableStepIsEightBits(crc32, data[i]);
      FeedByte(data[..i], data[i]);
      crc32 := TableStep(crc32, data[i]);
      i := i + 1;
    }
    crc := Xor(crc32, ALL_ONES);
  }
}
