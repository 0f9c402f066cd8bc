/** The RealDash "66" frame of main/realdash.c: four header bytes, the CAN identifier and eight
    data bytes, closed by their CRC-32. All multi-byte numbers are little-endian. */
module RealDash {
  import opened Crc32

  const FRAME_LENGTH := 20
  const COVERED_LENGTH := 16

  class CanMessage {
    var identifier: bv32
    var extd: bool
    var dlc: nat
    const data: array<bv8>

    constructor ()
      ensures Valid() && fresh(data)
    {
      data := new bv8[8](_ => 0);
      identifier, extd, dlc := 0, false, 0;
    }

    ghost predicate Valid()
      reads this
    {
      data.Length == 8 && dlc <= 8
    }
  }

  // ---------------------------------------------------------------- the frame as a byte string

  function Header(): seq<bv8> {
    [0x66, 0x33, 0x22, 0x11]
  }

  function Octet0(x: bv32): bv8 { (x & 0xFF) as bv8 }
  function Octet1(x: bv32): bv8 { ((x & 0x0000_FF00) >> 8) as bv8 }
  function Octet2(x: bv32): bv8 { ((x & 0x00FF_0000) >> 16) as bv8 }
  function Octet3(x: bv32): bv8 { ((x & 0xFF00_0000) >> 24) as bv8 }

  function Split(x: bv32): seq<bv8> {
    [Octet0(x), Octet1(x), Octet2(x), Octet3(x)]
  }

  function JoinOctets(b0: bv8, b1: bv8, b2: bv8, b3: bv8): bv32 {
    (b0 as bv32) | ((b1 as bv32) << 8) | ((b2 as bv32) << 16) | ((b3 as bv32) << 24)
  }

  function Join(b: seq<bv8>): bv32
    requires |b| == 4
  {
    JoinOctets(b[0], b[1], b[2], b[3])
  }

  function Zeros(n: nat): seq<bv8> {
    seq(n, _ => 0)
  }

  /** The sixteen bytes the CRC covers. */
  function Covered(id: bv32, data: seq<bv8>): (r: seq<bv8>)
    requires |data| <= 8
    ensures |r| == COVERED_LENGTH
  {
    Header() + Split(id) + data + Zeros(8 - |data|)
  }

  function Encode(id: bv32, data: seq<bv8>): (r: seq<bv8>)
    requires |data| <= 8
    ensures |r| == FRAME_LENGTH
  {
    Covered(id, data) + Split(SerialCrc(Covered(id, data)))
  }

  predicate Accepted(frame: seq<bv8>)
    requires |frame| == FRAME_LENGTH
  {
    && frame[..4] == Header()
    && frame[16..] == Split(SerialCrc(frame[..16]))
  }

  predicate IsExtended(id: bv32) {
    id & 0x1FFF_F800 != 0
  }

  // ---------------------------------------------------------------- splitting and joining words

  lemma JoinOfOctets(x: bv32)
    ensures JoinOctets(Octet0(x), Octet1(x), Octet2(x), Octet3(x)) == x
  {
  }

  lemma OctetsOfJoin(b0: bv8, b1: bv8, b2: bv8, b3: bv8)
    ensures Octet0(JoinOctets(b0, b1, b2, b3)) == b0
    ensures Octet1(JoinOctets(b0, b1, b2, b3)) == b1
    ensures Octet2(JoinOctets(b0, b1, b2, b3)) == b2
    ensures Octet3(JoinOctets(b0, b1, b2, b3)) == b3
  {
  }

  lemma JoinSplit(x: bv32)
    ensures Join(Split(x)) == x
  {
    hide JoinOctets, Octet0, Octet1, Octet2, Octet3;
    JoinOfOctets(x);
  }

  lemma SplitJoin(b: seq<bv8>)
    requires |b| == 4
    ensures Split(Join(b)) == b
  {
    hide JoinOctets, Octet0, Octet1, Octet2, Octet3;
    OctetsOfJoin(b[0], b[1], b[2], b[3]);
  }

  // ---------------------------------------------------------------- the bytes

  /** Four bytes that hold a word, the lowest first. */
  predicate Holds(b0: bv8, b1: bv8, b2: bv8, b3: bv8, x: bv32) {
    && b0 as bv32 == x & 0xFF && b1 as bv32 == (x >> 8) & 0xFF
    && b2 as bv32 == (x >> 16) & 0xFF && b3 as bv32 == x >> 24
  }

  lemma OctetsHold(x: bv32)
    ensures Holds(Octet0(x), Octet1(x), Octet2(x), Octet3(x), x)
  {
  }

  lemma HeldOnce(b0: bv8, b1: bv8, b2: bv8, b3: bv8, x: bv32)
    requires Holds(b0, b1, b2, b3, x)
    ensures b0 == Octet0(x) && b1 == Octet1(x) && b2 == Octet2(x) && b3 == Octet3(x)
  {
  }

  lemma SplitHolds(b: seq<bv8>, x: bv32)
    requires |b| == 4
    ensures b == Split(x) <==> Holds(b[0], b[1], b[2], b[3], x)
  {
    hide Octet0, Octet1, Octet2, Octet3, Holds;
    OctetsHold(x);
    if Holds(b[0], b[1], b[2], b[3], x) {
      HeldOnce(b[0], b[1], b[2], b[3], x);
    }
  }

  /** The twenty bytes of a frame, one by one. */
  lemma FrameBytes(id: bv32, data: seq<bv8>)
    requires |data| <= 8
    ensures var f := Encode(id, data);
      && |f| == 20 && f[..4] == [0x66, 0x33, 0x22, 0x11] && Holds(f[4], f[5], f[6], f[7], id)
      && (forall i :: 0 <= i < 8 ==> f[8 + i] == if i < |data| then data[i] else 0)
      && Holds(f[16], f[17], f[18], f[19], SerialCrc(f[..16]))
  {
    hide Split, SerialCrc, Holds;
    var f := Encode(id, data);
    assert f[..16] == Covered(id, data);
    assert f[4..8] == Split(id);
    SplitHolds(f[4..8], id);
    assert f[16..] == Split(SerialCrc(f[..16]));
    SplitHolds(f[16..], SerialCrc(f[..16]));
  }

  /** Which frames are accepted, byte by byte. */
  lemma AcceptedBytes(f: seq<bv8>)
    requires |f| == 20
    ensures Accepted(f)
       <==> && f[0] == 0x66 && f[1] == 0x33 && f[2] == 0x22 && f[3] == 0x11
            && Holds(f[16], f[17], f[18], f[19], SerialCrc(f[..16]))
  {
    hide Split, SerialCrc, Holds;
    SplitHolds(f[16..], SerialCrc(f[..16]));
    assert f[..4] == [f[0], f[1], f[2], f[3]];
  }

  // ---------------------------------------------------------------- round trip

  /** Every frame written is accepted, and identifier and zero-padded data can be read back. */
  lemma EncodeIsAccepted(id: bv32, data: seq<bv8>)
    requires |data| <= 8
    ensures Accepted(Encode(id, data))
    ensures Join(Encode(id, data)[4..8]) == id
    ensures Encode(id, data)[8..16] == data + Zeros(8 - |data|)
  {
    hide Split, Join, SerialCrc;
    var c := Covered(id, data);
    assert Encode(id, data)[..16] == c;
    assert Encode(id, data)[4..8] == Split(id);
    JoinSplit(id);
  }

  // ---------------------------------------------------------------- error detection

  /** The register every intact frame ends in. */
  ghost function Residue(): bv32 {
    ShiftN(ALL_ONES, 32)
  }

  ghost function TwiceN(w: bv32, n: nat): bv32
    decreases n
  {
    if n == 0 then w else Twice(TwiceN(w, n - 1))
  }

  ghost function Or(a: bv32, b: bv32): bv32 {
    a | b
  }

  lemma OrIs(a: bv32, b: bv32)
    ensures Or(a, b) == a | b
  {
  }

  lemma TwiceOfOr(h: bv32, t: bv32, ht: bv32, e: bv32, f: bv32, g: bv32)
    requires ht == h | t && e == ht << 1 && f == h << 1 && g == t << 1
    ensures e == f | g
  {
  }

  lemma OrAssociative(b: bv32, e: bv32, f: bv32, g: bv32, x: bv32, l: bv32, r: bv32)
    requires e == f | g && x == b | f && l == b | e && r == x | g
    ensures l == r
  {
  }

  lemma TwiceOr(h: bv32, t: bv32)
    ensures Twice(Or(h, t)) == Or(Twice(h), Twice(t))
  {
    hide Or, Twice;
    OrIs(h, t);
    TwiceIs(Or(h, t));
    TwiceIs(h);
    TwiceIs(t);
    OrIs(Twice(h), Twice(t));
    TwiceOfOr(h, t, Or(h, t), Twice(Or(h, t)), Twice(h), Twice(t));
  }

  lemma OrAssoc(b: bv32, f: bv32, g: bv32)
    ensures Or(b, Or(f, g)) == Or(Or(b, f), g)
  {
    hide Or;
    OrIs(b, Or(f, g));
    OrIs(f, g);
    OrIs(b, f);
    OrIs(Or(b, f), g);
    OrAssociative(b, Or(f, g), f, g, Or(b, f), Or(b, Or(f, g)), Or(Or(b, f), g));
  }

  lemma ConsIsOr(b: bool, w: bv32)
    ensures Cons(b, w) == Or(Bit(b), Twice(w))
  {
    hide Bit, Twice;
  }

  lemma ConsOr(x: bv32, t: bv32)
    ensures Cons(Odd(x), Or(Half(x), t)) == Or(x, Twice(t))
  {
    hide Or, Bit, Odd, Half, Twice, Cons;
    ConsIsOr(Odd(x), Or(Half(x), t));
    TwiceOr(Half(x), t);
    OrAssoc(Bit(Odd(x)), Twice(Half(x)), Twice(t));
    ConsIsOr(Odd(x), Half(x));
    ConsLowBit(x);
  }

  lemma OrZero(t: bv32)
    ensures Or(0, t) == t && Or(t, 0) == t
  {
  }

  lemma {:induction false} WordBehindLowBits(x: bv32, n: nat, rest: seq<bool>)
    requires Fits(x, n)
    ensures Word(LowBits(x, n) + rest) == Or(x, TwiceN(Word(rest), n))
    decreases n
  {
    hide Cons, Twice, Or, Half, Odd;
    if n == 0 {
      assert LowBits(x, 0) + rest == rest;
      OrZero(Word(rest));
    } else {
      WordBehindLowBits(Half(x), n - 1, rest);
      assert (LowBits(x, n) + rest)[1..] == LowBits(Half(x), n - 1) + rest;
      ConsOr(x, TwiceN(Word(rest), n - 1));
    }
  }

  ghost function UpByte(w: bv32): bv32 {
    w << 8
  }

  lemma EightTwice(w: bv32)
    ensures Twice(Twice(Twice(Twice(Twice(Twice(Twice(Twice(w)))))))) == UpByte(w)
  {
  }

  lemma TwiceEight(w: bv32)
    ensures TwiceN(w, 8) == UpByte(w)
  {
    hide Twice, UpByte;
    assert TwiceN(w, 8) == Twice(Twice(Twice(Twice(TwiceN(w, 4)))));
    assert TwiceN(w, 4) == Twice(Twice(Twice(Twice(w))));
    EightTwice(w);
  }

  lemma WordBehindByte(b: bv8, rest: seq<bv8>)
    ensures Word(MessageBits([b] + rest)) == Or(b as bv32, UpByte(Word(MessageBits(rest))))
  {
    hide LowBits, Word, TwiceN, Or, UpByte;
    assert ([b] + rest)[1..] == rest;
    assert MessageBits([b] + rest) == LowBits(b as bv32, 8) + MessageBits(rest);
    ByteFits(b);
    WordBehindLowBits(b as bv32, 8, MessageBits(rest));
    TwiceEight(Word(MessageBits(rest)));
  }

  lemma NestedOr(b0: bv8, b1: bv8, b2: bv8, b3: bv8)
    ensures Or(b0 as bv32, UpByte(Or(b1 as bv32, UpByte(Or(b2 as bv32, UpByte(Or(b3 as bv32, UpByte(0))))))))
         == JoinOctets(b0, b1, b2, b3)
  {
  }

  /** Four bytes as the CRC reads them are the word they join to. */
  lemma WordOfFourBytes(b: seq<bv8>)
    requires |b| == 4
    ensures |MessageBits(b)| == 32 && Word(MessageBits(b)) == Join(b)
  {
    hide LowBits, Or, UpByte, JoinOctets, Cons;
    BitCount(b);
    var none: seq<bv8> := [];
    var b3 := [b[3]] + none;
    var b2 := [b[2]] + b3;
    var b1 := [b[1]] + b2;
    assert b == [b[0]] + b1;
    WordBehindByte(b[3], none);
    WordBehindByte(b[2], b3);
    WordBehindByte(b[1], b2);
    WordBehindByte(b[0], b1);
    NestedOr(b[0], b[1], b[2], b[3]);
  }

  lemma {:induction false} BitCount(data: seq<bv8>)
    ensures |MessageBits(data)| == 8 * |data|
    decreases |data|
  {
    hide LowBits;
    if data != [] {
      ByteFits(data[0]);
      WordOfLowBits(data[0] as bv32, 8);
      BitCount(data[1..]);
    }
  }

  /** The first eight bits are those of the first byte, and determine it. */
  lemma FirstByteOfBits(a: seq<bv8>)
    requires a != []
    ensures 8 <= |MessageBits(a)| && MessageBits(a)[8..] == MessageBits(a[1..])
    ensures Word(MessageBits(a)[..8]) == a[0] as bv32
  {
    hide LowBits, Word;
    ByteFits(a[0]);
    WordOfLowBits(a[0] as bv32, 8);
    assert MessageBits(a)[..8] == LowBits(a[0] as bv32, 8);
    assert MessageBits(a)[8..] == MessageBits(a[1..]);
  }

  lemma {:induction false} MessageBitsInjective(a: seq<bv8>, b: seq<bv8>)
    requires |a| == |b| && MessageBits(a) == MessageBits(b)
    ensures a == b
    decreases |a|
  {
    hide *;
    if a != [] {
      FirstByteOfBits(a);
      FirstByteOfBits(b);
      ByteValue(a[0], b[0]);
      MessageBitsInjective(a[1..], b[1..]);
      assert a == [a[0]] + a[1..] && b == [b[0]] + b[1..];
    }
  }

  lemma ByteValue(a: bv8, b: bv8)
    requires a as bv32 == b as bv32
    ensures a == b
  {
  }

  /** The CRC of the first sixteen bytes matches exactly when reading all twenty bytes, CRC
      included, ends in the residue. */
  lemma CrcMatchesIffResidue(frame: seq<bv8>)
    requires |frame| == FRAME_LENGTH
    ensures frame[16..] == Split(SerialCrc(frame[..16]))
       <==> FeedBits(ALL_ONES, MessageBits(frame)) == Residue()
  {
    hide Split, Join, Xor, ShiftN, UnshiftN, FeedBits;
    var body, tail := frame[..16], frame[16..];
    var r := FeedBits(ALL_ONES, MessageBits(body));
    assert frame == body + tail;
    MessageBitsAppend(body, tail);
    FeedBitsAppend(ALL_ONES, MessageBits(body), MessageBits(tail));
    WordOfFourBytes(tail);
    FeedWord(r, MessageBits(tail));
    assert FeedBits(ALL_ONES, MessageBits(frame)) == ShiftN(Xor(r, Join(tail)), 32);
    UnshiftNShiftN(Xor(r, Join(tail)), 32);
    UnshiftNShiftN(ALL_ONES, 32);
    assert SerialCrc(body) == Xor(r, ALL_ONES);
    XorCancel(r, Join(tail));
    XorCancel(r, ALL_ONES);
    JoinSplit(Xor(r, ALL_ONES));
    SplitJoin(tail);
  }

  /** Error detection over the whole frame, the CRC included: of two frames that differ only
      inside some window of 32 bits, at most one is accepted. */
  lemma BurstIsRejected(good: seq<bv8>, bad: seq<bv8>,
                        pre: seq<bool>, a: seq<bool>, b: seq<bool>, post: seq<bool>)
    requires |good| == |bad| == FRAME_LENGTH && good != bad
    requires MessageBits(good) == pre + a + post && MessageBits(bad) == pre + b + post
    requires |a| <= 32
    requires Accepted(good)
    ensures !Accepted(bad)
  {
    BitCount(good);
    BitCount(bad);
    if a == b {
      MessageBitsInjective(good, bad);
    }
    BurstChangesCrc(pre, a, b, post);
    CrcMatchesIffResidue(good);
    CrcMatchesIffResidue(bad);
  }

  /** In particular a change confined to four consecutive bytes is always noticed. */
  lemma FourByteChangeIsRejected(good: seq<bv8>, bad: seq<bv8>, k: nat)
    requires |good| == |bad| == FRAME_LENGTH && good != bad && k + 4 <= FRAME_LENGTH
    requires good[..k] == bad[..k] && good[k + 4..] == bad[k + 4..]
    requires Accepted(good)
    ensures !Accepted(bad)
  {
    var pre, post := good[..k], good[k + 4..];
    var a, b := good[k..k + 4], bad[k..k + 4];
    assert good == (pre + a) + post && bad == (pre + b) + post;
    MessageBitsAppend(pre + a, post);
    MessageBitsAppend(pre, a);
    MessageBitsAppend(pre + b, post);
    MessageBitsAppend(pre, b);
    BitCount(a);
    BurstIsRejected(good, bad, MessageBits(pre), MessageBits(a), MessageBits(b), MessageBits(post));
  }

  // ---------------------------------------------------------------- the buffer operations

  /** The data bytes behind header and identifier. */
  method PutData(buf: array<bv8>, data: array<bv8>, n: nat)
    requires n <= 8 && n <= data.Length && FRAME_LENGTH <= buf.Length && buf != data
    modifies buf
    ensures buf[..] == old(buf[..8]) + data[..n] + old(buf[8 + n..])
  {
    var i := 0;
    while i < n
      invariant 0 <= i <= n
      invariant forall j :: 0 <= j < i ==> buf[8 + j] == data[j]
      invariant forall j :: 0 <= j < buf.Length && !(8 <= j < 8 + i) ==> buf[j] == old(buf[j])
    {
      buf[8 + i] := data[i];
      i := i + 1;
    }
  }

  /** Zeros up to the end of what the CRC covers. */
  method PutZeros(buf: array<bv8>, from: nat)
    requires from <= COVERED_LENGTH && FRAME_LENGTH <= buf.Length
    modifies buf
    ensures buf[..] == old(buf[..from]) + Zeros(COVERED_LENGTH - from) + old(buf[COVERED_LENGTH..])
  {
    var i := from;
    while i < COVERED_LENGTH
      invariant from <= i <= COVERED_LENGTH
      invariant buf[..] == old(buf[..from]) + Zeros(i - from) + old(buf[i..])
    {
      buf[i] := 0;
      i := i + 1;
    }
  }

  /** `real_dash_set_66`. */
  method Set66(msg: CanMessage, buf: array<bv8>) returns (frameLen: nat)
    requires msg.Valid() && FRAME_LENGTH <= buf.Length && buf != msg.data
    modifies buf
    ensures frameLen == FRAME_LENGTH
    ensures buf[..FRAME_LENGTH] == Encode(msg.identifier, msg.data[..msg.dlc])
    ensures buf[FRAME_LENGTH..] == old(buf[FRAME_LENGTH..])
  {
    hide SerialCrc, Split;
    ghost var start, behind := Header() + Split(msg.identifier), buf[FRAME_LENGTH..];
    buf[0], buf[1], buf[2], buf[3] := 0x66, 0x33, 0x22, 0x11;
    PutWord(buf, 4, msg.identifier);
    assert buf[..8] == start && buf[FRAME_LENGTH..] == behind;
    PutData(buf, msg.data, msg.dlc);
    frameLen := 8 + msg.dlc;
    assert buf[..frameLen] == start + msg.data[..msg.dlc] && buf[FRAME_LENGTH..] == behind;
    if msg.dlc < 8 {
      PutZeros(buf, frameLen);
      frameLen := COVERED_LENGTH;
    }
    ghost var covered := buf[..COVERED_LENGTH];
    assert covered == Covered(msg.identifier, msg.data[..msg.dlc]) && buf[FRAME_LENGTH..] == behind;
    var crc := TableCrc(buf, frameLen);
    PutWord(buf, frameLen, crc);
    frameLen := frameLen + 4;
    assert buf[..FRAME_LENGTH] == covered + Split(crc) && buf[FRAME_LENGTH..] == behind;
  }

  method PutWord(buf: array<bv8>, at: nat, x: bv32)
    requires at + 4 <= buf.Length
    modifies buf
    ensures buf[..] == old(buf[..at]) + Split(x) + old(buf[at + 4..])
  {
    hide Octet0, Octet1, Octet2, Octet3;
    buf[at], buf[at + 1], buf[at + 2], buf[at + 3] := Octet0(x), Octet1(x), Octet2(x), Octet3(x);
  }

  /** `real_dash_parse_66`: on acceptance the message takes identifier and data from the frame,
      and the extended flag is raised for identifiers beyond eleven bits but never lowered. */
  method Parse66(msg: CanMessage, buf: array<bv8>) returns (ok: bool)
    requires msg.Valid() && FRAME_LENGTH <= buf.Length && buf != msg.data
    modifies msg, msg.data
    ensures msg.Valid()
    ensures ok == Accepted(buf[..FRAME_LENGTH])
    ensures ok ==> msg.identifier == Join(buf[4..8]) && msg.data[..] == buf[8..16] && msg.dlc == 8
    ensures ok ==> msg.extd == (old(msg.extd) || IsExtended(Join(buf[4..8])))
    ensures !ok ==> unchanged(msg) && unchanged(msg.data)
  {
    hide SerialCrc, Split;
    ok := false;
    assert buf[..FRAME_LENGTH][..4] == [buf[0], buf[1], buf[2], buf[3]];
    if buf[0] == 0x66 && buf[1] == 0x33 && buf[2] == 0x22 && buf[3] == 0x11 {
      assert buf[..FRAME_LENGTH][..4] == Header();
      var crc := TableCrc(buf, COVERED_LENGTH);
      assert buf[..FRAME_LENGTH][..16] == buf[..16] && buf[..FRAME_LENGTH][16..] == buf[16..20];
      if buf[16..20] == Split(crc) {
        msg.identifier := Join(buf[4..8]);
        if IsExtended(msg.identifier) {
          msg.extd := true;
        }
        var i := 0;
        while i < 8
          invariant 0 <= i <= 8
          invariant forall j :: 0 <= j < i ==> msg.data[j] == buf[8 + j]
          invariant msg.identifier == Join(buf[4..8])
          invariant msg.extd == (old(msg.extd) || IsExtended(Join(buf[4..8])))
          invariant buf[..] == old(buf[..])
        {
          msg.data[i] := buf[i + 8];
          i := i + 1;
        }
        msg.dlc := 8;
        ok := true;
      }
    }
  }

  // ---------------------------------------------------------------- the extended flag

  lemma BeyondElevenBits(id: bv32)
    requires id <= 0x1FFF_FFFF
    ensures IsExtended(id) <==> 0x800 <= id
  {
  }

  /** Writing a message and reading it into another returns identifier and zero-padded data. The
      frame does not carry the extended flag: for an identifier of at most 29 bits it comes back
      exactly when it says whether the identifier needs more than eleven bits, or the receiving
      message had it raised already and it was raised. */
  method SendAndReceive(sent: CanMessage, buf: array<bv8>, received: CanMessage) returns (ok: bool)
    requires sent.Valid() && received.Valid() && FRAME_LENGTH <= buf.Length
    requires buf != sent.data && buf != received.data && sent != received && sent.data != received.data
    modifies buf, received, received.data
    ensures ok && received.Valid() && received.identifier == sent.identifier
    ensures received.data[..] == sent.data[..sent.dlc] + Zeros(8 - sent.dlc) && received.dlc == 8
    ensures sent.identifier <= 0x1FFF_FFFF ==>
              (received.extd == sent.extd <==> (sent.extd <==> 0x800 <= sent.identifier || old(received.extd)))
  {
    hide Join, Split, IsExtended, Accepted;
    ghost var id, data := sent.identifier, sent.data[..sent.dlc];
    var _ := Set66(sent, buf);
    EncodeIsAccepted(id, data);
    ghost var frame := Encode(id, data);
    assert buf[4..8] == frame[4..8] && buf[8..16] == frame[8..16] by { assert buf[..FRAME_LENGTH] == frame; }
    ok := Parse66(received, buf);
    if id <= 0x1FFF_FFFF {
      BeyondElevenBits(id);
    }
  }
}
