/** What the patterns of the trigger engine mean, bit by bit, and that nothing else of a frame counts:
    a byte filter looks at the bits of its mask and at no others, in one frame and over whole runs. */
module CanDoBits {
  import opened Wrappers
  import opened CanDo

  // ---------------------------------------------------------------- bits

  type Place = j: nat | j < 8

  function Weight(j: Place): bv8 {
    match j
    case 0 => 0x01
    case 1 => 0x02
    case 2 => 0x04
    case 3 => 0x08
    case 4 => 0x10
    case 5 => 0x20
    case 6 => 0x40
    case _ => 0x80
  }

  predicate Has(b: bv8, weight: bv8) {
    b & weight != 0
  }

  predicate Bit(b: bv8, j: Place) {
    Has(b, Weight(j))
  }

  /** The eight bits of one byte against another, where a mask is set. */
  ghost predicate BitsAgree(b: bv8, value: bv8, mask: bv8) {
    forall j: Place :: Bit(mask, j) ==> Bit(b, j) == Bit(value, j)
  }

  /** One by one, the bits at the eight weights. */
  predicate WeightsAgree(b: bv8, value: bv8, mask: bv8) {
    && (Has(mask, 0x01) ==> Has(b, 0x01) == Has(value, 0x01)) && (Has(mask, 0x02) ==> Has(b, 0x02) == Has(value, 0x02))
    && (Has(mask, 0x04) ==> Has(b, 0x04) == Has(value, 0x04)) && (Has(mask, 0x08) ==> Has(b, 0x08) == Has(value, 0x08))
    && (Has(mask, 0x10) ==> Has(b, 0x10) == Has(value, 0x10)) && (Has(mask, 0x20) ==> Has(b, 0x20) == Has(value, 0x20))
    && (Has(mask, 0x40) ==> Has(b, 0x40) == Has(value, 0x40)) && (Has(mask, 0x80) ==> Has(b, 0x80) == Has(value, 0x80))
  }

  lemma PlacesAreWeights(b: bv8, value: bv8, mask: bv8)
    ensures BitsAgree(b, value, mask) <==> WeightsAgree(b, value, mask)
  {
    hide Has;
    if BitsAgree(b, value, mask) {
      BitsAt(b, value, mask, 0);
      BitsAt(b, value, mask, 1);
      BitsAt(b, value, mask, 2);
      BitsAt(b, value, mask, 3);
      BitsAt(b, value, mask, 4);
      BitsAt(b, value, mask, 5);
      BitsAt(b, value, mask, 6);
      BitsAt(b, value, mask, 7);
    }
    if WeightsAgree(b, value, mask) {
      forall j: Place | Bit(mask, j)
        ensures Bit(b, j) == Bit(value, j)
      {
      }
    }
  }

  lemma BitsAt(b: bv8, value: bv8, mask: bv8, j: Place)
    requires BitsAgree(b, value, mask)
    ensures Has(mask, Weight(j)) ==> Has(b, Weight(j)) == Has(value, Weight(j))
  {
    hide Has, Weight;
    assert Bit(mask, j) == Has(mask, Weight(j));
  }

  function Masked(b: bv8, mask: bv8): bv8 {
    b & mask
  }

  lemma EightBits(b: bv8, value: bv8, mask: bv8)
    ensures Masked(b, mask) == Masked(value, mask) <==> WeightsAgree(b, value, mask)
  {
  }

  lemma AgreeIsMasked(c: Cell, b: bv8)
    ensures Agree(c, b) <==> Masked(b, c.mask) == Masked(c.value, c.mask)
  {
  }

  lemma AgreeIsBitwise(c: Cell, b: bv8)
    ensures Agree(c, b) <==> BitsAgree(b, c.value, c.mask)
  {
    hide *;
    AgreeIsMasked(c, b);
    EightBits(b, c.value, c.mask);
    PlacesAreWeights(b, c.value, c.mask);
  }

  lemma MaskHasABit(mask: bv8) returns (j: Place)
    requires mask != 0
    ensures Bit(mask, j)
  {
    j := if mask & 0x01 != 0 then 0 else if mask & 0x02 != 0 then 1 else if mask & 0x04 != 0 then 2
         else if mask & 0x08 != 0 then 3 else if mask & 0x10 != 0 then 4 else if mask & 0x20 != 0 then 5
         else if mask & 0x40 != 0 then 6 else 7;
  }

  lemma NoBitInZero(mask: bv8, j: Place)
    requires Bit(mask, j)
    ensures mask != 0
  {
  }

  // ---------------------------------------------------------------- one frame

  /** Every bit a pattern asks for is there and as the pattern has it. */
  ghost predicate BitwiseMatch(pattern: seq<Cell>, data: seq<bv8>, limit: nat)
    requires limit <= |data|
  {
    forall i, j: Place :: 0 <= i < |pattern| && Bit(pattern[i].mask, j) ==>
      i < limit && Bit(data[i], j) == Bit(pattern[i].value, j)
  }

  /** A pattern matches exactly when every bit set in its masks lies within the length and is that of
      the pattern. */
  lemma MatchesIsBitwise(pattern: seq<Cell>, data: seq<bv8>, limit: nat)
    requires limit <= |data|
    ensures Matches(pattern, data, limit) <==> BitwiseMatch(pattern, data, limit)
  {
    hide Agree, Bit;
    if Matches(pattern, data, limit) {
      forall i, j: Place | 0 <= i < |pattern| && Bit(pattern[i].mask, j)
        ensures i < limit && Bit(data[i], j) == Bit(pattern[i].value, j)
      {
        NoBitInZero(pattern[i].mask, j);
        AgreeIsBitwise(pattern[i], data[i]);
      }
    }
    if BitwiseMatch(pattern, data, limit) {
      forall i | 0 <= i < |pattern| && pattern[i].mask != 0
        ensures i < limit && Agree(pattern[i], data[i])
      {
        var j := MaskHasABit(pattern[i].mask);
        AgreeIsBitwise(pattern[i], data[i]);
      }
    }
  }

  /** One masked bit flipped undoes a match. */
  lemma FlippedBitUndoesMatch(pattern: seq<Cell>, a: seq<bv8>, b: seq<bv8>, limit: nat, i: nat, j: Place)
    requires limit <= |a| == |b| && Matches(pattern, a, limit)
    requires i < |pattern| && Bit(pattern[i].mask, j) && i < |a| && Bit(a[i], j) != Bit(b[i], j)
    ensures !Matches(pattern, b, limit)
  {
    hide Matches, Bit;
    MatchesIsBitwise(pattern, a, limit);
    MatchesIsBitwise(pattern, b, limit);
  }

  /** Two byte strings that a pattern cannot tell apart. */
  ghost predicate SameUnder(pattern: seq<Cell>, a: Payload, b: Payload) {
    forall i, j: Place :: 0 <= i < |pattern| && i < 8 && Bit(pattern[i].mask, j) ==> Bit(a[i], j) == Bit(b[i], j)
  }

  lemma UnmaskedBitsAreFree(pattern: seq<Cell>, a: Payload, b: Payload, limit: Length)
    requires SameUnder(pattern, a, b)
    ensures Matches(pattern, a, limit) <==> Matches(pattern, b, limit)
  {
    hide Matches, Bit;
    MatchesIsBitwise(pattern, a, limit);
    MatchesIsBitwise(pattern, b, limit);
  }

  /** When a trigger's condition holds on a frame, in full: the frame is its own; the bits it starts
      from were there, if a frame was there before; the bits it waits for are there; some byte of the
      frame changed, if that is asked for or nothing else is; and its expression holds. */
  ghost predicate ConditionHolds(t: Trigger, f: Frame) {
    && t.cfg.isCan && f.bus == t.cfg.bus && f.id == t.cfg.canId && f.ext == t.cfg.ext
    && (t.cfg.from.Some? && t.last.Some? ==> BitwiseMatch(t.cfg.from.value, t.last.value, 8))
    && (t.cfg.to.Some? ==> BitwiseMatch(t.cfg.to.value, f.data, f.dlc))
    && (t.cfg.anyChange || (t.cfg.from.None? && t.cfg.to.None? && !t.cfg.isExpression) ==>
          t.last.None? || exists i :: 0 <= i < f.dlc && t.last.value[i] != f.data[i])
    && (t.cfg.isExpression ==> t.cfg.expression in f.holding)
  }

  lemma EvaluateMeans(t: Trigger, f: Frame)
    ensures Evaluate(t, f) <==> ConditionHolds(t, f)
  {
    hide Matches, BitwiseMatch;
    if t.cfg.from.Some? && t.last.Some? {
      MatchesIsBitwise(t.cfg.from.value, t.last.value, 8);
    }
    if t.cfg.to.Some? {
      MatchesIsBitwise(t.cfg.to.value, f.data, f.dlc);
    }
    if t.last.Some? {
      PrefixesDiffer(t.last.value, f.data, f.dlc);
    }
  }

  lemma PrefixesDiffer(a: Payload, b: Payload, n: Length)
    ensures a[..n] != b[..n] <==> exists i :: 0 <= i < n && a[i] != b[i]
  {
    if a[..n] == b[..n] {
      forall i | 0 <= i < n
        ensures a[i] == b[i]
      {
        assert a[i] == a[..n][i];
      }
    } else {
      var i :| 0 <= i < n && a[..n][i] != b[..n][i];
      assert a[i] != b[i];
    }
  }

  /** When a frame is a release: it shows the bits the trigger starts from, or, without those, not
      all of the bits it waits for. */
  ghost predicate ReleaseShows(c: Config, f: Frame) {
    if c.from.Some? then BitwiseMatch(c.from.value, f.data, f.dlc)
    else c.to.Some? && !BitwiseMatch(c.to.value, f.data, f.dlc)
  }

  lemma ReleaseMeans(c: Config, f: Frame)
    ensures IsRelease(c, f) <==> ReleaseShows(c, f)
  {
    hide Matches, BitwiseMatch;
    if c.from.Some? {
      MatchesIsBitwise(c.from.value, f.data, f.dlc);
    } else if c.to.Some? {
      MatchesIsBitwise(c.to.value, f.data, f.dlc);
    }
  }

  /** What the first pass notes: a trigger counts as held from a frame that meets its condition until one
      of its own that shows the release. */
  lemma FirstPassMeans(t: Trigger, f: Frame)
    ensures var u := Observe(t, f);
      var own := t.cfg.isCan && f.bus == t.cfg.bus && f.id == t.cfg.canId && f.ext == t.cfg.ext;
      && (u.isHeld <==> ConditionHolds(t, f) || (t.isHeld && !(own && ReleaseShows(t.cfg, f))))
      && (u.wasPressed <==> ConditionHolds(t, f) || t.wasPressed)
      && u == t.(isHeld := u.isHeld, wasPressed := u.wasPressed)
  {
    EvaluateMeans(t, f);
    ReleaseMeans(t.cfg, f);
    hide Matches, BitwiseMatch, ReleaseShows;
  }

  // ---------------------------------------------------------------- what a trigger remembers

  /** Byte by byte, what is left of the earlier frames after one of a given length. */
  function Overwritten(last: Option<Payload>, f: Frame): (r: Payload)
    ensures forall i :: 0 <= i < 8 ==>
              r[i] == if i < f.dlc then f.data[i] else if last.Some? then last.value[i] else 0
  {
    seq(8, i requires 0 <= i < 8 => if i < f.dlc then f.data[i] else if last.Some? then last.value[i] else 0)
  }

  lemma StoreOverwrites(t: Trigger, f: Frame)
    ensures Store(t, f) == t.(last := Some(Overwritten(t.last, f)))
  {
    var tail := if t.last.Some? then t.last.value[f.dlc..] else seq(8 - f.dlc, _ => 0);
    assert f.data[..f.dlc] + tail == Overwritten(t.last, f);
  }

  /** A trigger of its own frame remembers it, byte by byte, whatever else comes of it; only a reset
      frame is forgotten, and, in a combination, the release that completes the clicks too early. */
  lemma OfferRemembers(r: Rule, k: nat, f: Frame, now: int)
    requires k < |r.triggers|
    ensures var t, u := r.triggers[k], Offer(r, k, f, now).0.triggers[k];
      var own := t.cfg.isCan && t.cfg.bus == f.bus && t.cfg.canId == f.id && t.cfg.ext == f.ext;
      var reset := t.cfg.resetId > 0 && f.id == t.cfg.resetId;
      && (!own || reset ==> u.last == t.last)
      && (own && !reset ==> u.last == Some(Overwritten(t.last, f)) || (Combo(r) && u.last == t.last))
  {
    hide *;
    OfferIs(r, k, f, now);
    AddressedIs(r.triggers[k].cfg, f);
    var t := r.triggers[k];
    var v := Confirm(t, f, now);
    ConfirmKeepsLast(t, f, now);
    PutIs(r, k, v);
    PutIs(r, k, Store(v, f));
    PutIs(r, k, Rearm(t, now));
    StoreOverwrites(v, f);
    PressKeepsLast(Put(r, k, Store(v, f)), k, Changed(v, f), now);
    ReleaseRemembers(Put(r, k, v), k, f, now);
    RearmKeepsLast(t, now);
    PutKeepsCombo(r, k, v);
  }

  lemma AddressedIs(c: Config, f: Frame)
    ensures Addressed(c, f) == (c.isCan && c.bus == f.bus && c.canId == f.id && c.ext == f.ext)
    ensures IsReset(c, f) == (c.resetId > 0 && f.id == c.resetId)
  {
  }

  lemma ConfirmKeepsLast(t: Trigger, f: Frame, now: int)
    ensures Confirm(t, f, now).last == t.last && Confirm(t, f, now).cfg == t.cfg
  {
    hide Matches;
  }

  lemma RearmKeepsLast(t: Trigger, now: int)
    ensures Rearm(t, now).last == t.last
  {
  }

  lemma PressKeepsLast(r: Rule, k: nat, changed: bool, now: int)
    requires k < |r.triggers|
    ensures Press(r, k, changed, now).0.triggers[k].last == r.triggers[k].last
  {
    hide *;
    PressIs(r, k, changed, now);
    var t := Note(r.triggers[k].(isHeld := true, wasPressed := true), Seen(now));
    var h := Hold(t, now).0;
    var g := ModeGate(h, changed).0;
    SeenKeepsLast(r.triggers[k], now);
    GatesKeepLast(t, h, changed, now);
    PutIs(r, k, t);
    PutIs(r, k, h);
    PutIs(r, k, g);
    FireKeepsLast(Put(r, k, g), k, now);
  }

  lemma SeenKeepsLast(t: Trigger, now: int)
    ensures Note(t.(isHeld := true, wasPressed := true), Seen(now)).last == t.last
  {
  }

  lemma GatesKeepLast(t: Trigger, h: Trigger, changed: bool, now: int)
    ensures Hold(t, now).0.last == t.last && ModeGate(h, changed).0.last == h.last
  {
  }

  lemma FireKeepsLast(r: Rule, k: nat, now: int)
    requires k < |r.triggers|
    ensures var s := Fire(r, k, now);
      && |s.triggers| == |r.triggers| == |ShareAll(s, now).triggers|
      && s.triggers[k].last == ShareAll(s, now).triggers[k].last == r.triggers[k].last
  {
  }

  lemma ReleaseRemembers(r: Rule, k: nat, f: Frame, now: int)
    requires k < |r.triggers|
    ensures var u := Release(r, k, f, now).triggers[k];
      u.last == Some(Overwritten(r.triggers[k].last, f)) || (Combo(r) && u.last == r.triggers[k].last)
  {
    hide OthersHeld, Combo, CooldownUs, Store, Overwritten, LetGo, Click, Charge;
    var t := LetGo(r.triggers[k], now);
    var c := Click(t, now);
    var done := c.(clicks := 0);
    ReleaseKeepsLast(r.triggers[k], now);
    ReleaseKeepsLast(t, now);
    ReleaseKeepsLast(done, now);
    StoreOverwrites(t, f);
    StoreOverwrites(c, f);
    StoreOverwrites(done, f);
    StoreOverwrites(Charge(done, now), f);
  }

  lemma ReleaseKeepsLast(t: Trigger, now: int)
    ensures LetGo(t, now).last == Click(t, now).last == Charge(t, now).last == t.last
  {
  }

  lemma PutKeepsCombo(r: Rule, k: nat, t: Trigger)
    requires k < |r.triggers|
    ensures Combo(Put(r, k, t)) == Combo(r)
  {
  }

  // ---------------------------------------------------------------- bits nobody watches

  ghost predicate SameUnderAny(patterns: Option<seq<Cell>>, a: Payload, b: Payload) {
    patterns.Some? ==> SameUnder(patterns.value, a, b)
  }

  /** Two payloads that none of a trigger's patterns tells apart. */
  ghost predicate SameTo(c: Config, a: Payload, b: Payload) {
    SameUnderAny(c.from, a, b) && SameUnderAny(c.to, a, b) && SameUnderAny(c.verify, a, b)
  }

  /** Triggers that look at bits only, not at change. */
  predicate LooksAtBits(c: Config) {
    !c.anyChange && c.mode != OnChange && (c.from.Some? || c.to.Some? || c.isExpression)
  }

  /** Two frames that differ at most in bits the trigger does not watch. */
  ghost predicate FramesAlike(c: Config, f: Frame, g: Frame) {
    f == g.(data := f.data) && SameTo(c, f.data, g.data)
  }

  /** Two triggers that differ at most in unwatched bits of what they remember. */
  ghost predicate Alike(c: Config, t: Trigger, u: Trigger) {
    && t.cfg == c && u == t.(last := u.last) && (t.last.Some? <==> u.last.Some?) && LooksAtBits(t.cfg)
    && (t.last.Some? ==> SameTo(t.cfg, t.last.value, u.last.value))
  }

  lemma EvaluateAlike(c: Config, t: Trigger, u: Trigger, f: Frame, g: Frame)
    requires Alike(c, t, u) && FramesAlike(c, f, g)
    ensures Evaluate(t, f) <==> Evaluate(u, g)
  {
    hide Matches, SameUnder;
    if t.cfg.from.Some? && t.last.Some? {
      UnmaskedBitsAreFree(t.cfg.from.value, t.last.value, u.last.value, 8);
    }
    if t.cfg.to.Some? {
      UnmaskedBitsAreFree(t.cfg.to.value, f.data, g.data, f.dlc);
    }
  }

  lemma ReleaseAlike(c: Config, f: Frame, g: Frame)
    requires FramesAlike(c, f, g)
    ensures IsRelease(c, f) <==> IsRelease(c, g)
  {
    hide Matches, SameUnder;
    if c.from.Some? {
      UnmaskedBitsAreFree(c.from.value, f.data, g.data, f.dlc);
    }
    if c.to.Some? {
      UnmaskedBitsAreFree(c.to.value, f.data, g.data, f.dlc);
    }
  }

  lemma ConfirmAlike(c: Config, t: Trigger, u: Trigger, f: Frame, g: Frame, now: int)
    requires Alike(c, t, u) && FramesAlike(c, f, g)
    ensures Alike(c, Confirm(t, f, now), Confirm(u, g, now))
  {
    hide Matches, SameUnder;
    if t.cfg.verify.Some? {
      UnmaskedBitsAreFree(t.cfg.verify.value, f.data, g.data, f.dlc);
    }
  }

  lemma OverwrittenAlike(pattern: seq<Cell>, t: Option<Payload>, u: Option<Payload>, f: Frame, g: Frame)
    requires f.dlc == g.dlc && SameUnder(pattern, f.data, g.data) && (t.Some? <==> u.Some?)
    requires t.Some? ==> SameUnder(pattern, t.value, u.value)
    ensures SameUnder(pattern, Overwritten(t, f), Overwritten(u, g))
  {
    hide Bit;
  }

  lemma StoreAlike(c: Config, t: Trigger, u: Trigger, f: Frame, g: Frame)
    requires Alike(c, t, u) && FramesAlike(c, f, g)
    ensures Alike(c, Store(t, f), Store(u, g))
  {
    hide SameUnder, Store, Overwritten;
    StoreOverwrites(t, f);
    StoreOverwrites(u, g);
    if t.cfg.from.Some? {
      OverwrittenAlike(t.cfg.from.value, t.last, u.last, f, g);
    }
    if t.cfg.to.Some? {
      OverwrittenAlike(t.cfg.to.value, t.last, u.last, f, g);
    }
    if t.cfg.verify.Some? {
      OverwrittenAlike(t.cfg.verify.value, t.last, u.last, f, g);
    }
  }

  lemma ObserveAlike(c: Config, t: Trigger, u: Trigger, f: Frame, g: Frame)
    requires Alike(c, t, u) && FramesAlike(c, f, g)
    ensures Alike(c, Observe(t, f), Observe(u, g))
  {
    EvaluateAlike(c, t, u, f, g);
    ReleaseAlike(c, f, g);
    hide Evaluate, IsRelease, SameTo;
  }

  // ---------------------------------------------------------------- rules

  ghost predicate RulesAlike(cs: seq<Config>, r: Rule, s: Rule) {
    && s == r.(triggers := s.triggers) && |cs| == |r.triggers| == |s.triggers|
    && forall k :: 0 <= k < |r.triggers| ==> Alike(cs[k], r.triggers[k], s.triggers[k])
  }

  ghost predicate FramesAlikeTo(cs: seq<Config>, f: Frame, g: Frame) {
    forall k :: 0 <= k < |cs| ==> FramesAlike(cs[k], f, g)
  }

  lemma PutAlike(cs: seq<Config>, r: Rule, s: Rule, k: nat, t: Trigger, u: Trigger)
    requires RulesAlike(cs, r, s) && k < |r.triggers| == |cs| && Alike(cs[k], t, u)
    ensures RulesAlike(cs, Put(r, k, t), Put(s, k, u))
    ensures |Put(r, k, t).triggers| == |Put(s, k, u).triggers| == |r.triggers|
  {
    hide Alike;
  }

  // Nothing else depends on what two alike triggers differ in.

  lemma LetGoAlike(c: Config, t: Trigger, u: Trigger, now: int)
    requires Alike(c, t, u)
    ensures Alike(c, LetGo(t, now), LetGo(u, now))
  {
    hide SameTo;
  }

  lemma ClickAlike(c: Config, t: Trigger, u: Trigger, now: int)
    requires Alike(c, t, u)
    ensures Alike(c, Click(t, now), Click(u, now))
  {
    hide SameTo;
  }

  lemma ChargeAlike(c: Config, t: Trigger, u: Trigger, now: int)
    requires Alike(c, t, u)
    ensures Alike(c, Charge(t, now), Charge(u, now))
  {
    hide SameTo;
  }

  lemma ShareAlike(c: Config, t: Trigger, u: Trigger, now: int)
    requires Alike(c, t, u)
    ensures Alike(c, Share(t, now), Share(u, now))
  {
    hide SameTo;
  }

  lemma RearmAlike(c: Config, t: Trigger, u: Trigger, now: int)
    requires Alike(c, t, u)
    ensures Alike(c, Rearm(t, now), Rearm(u, now))
  {
    hide SameTo;
  }

  lemma HoldAlike(c: Config, t: Trigger, u: Trigger, now: int)
    requires Alike(c, t, u)
    ensures Alike(c, Hold(t, now).0, Hold(u, now).0) && Hold(t, now).1 == Hold(u, now).1
  {
    hide SameTo;
  }

  lemma ExpireClicksAlike(c: Config, t: Trigger, u: Trigger, now: int)
    requires Alike(c, t, u)
    ensures Alike(c, ExpireClicks(t, now), ExpireClicks(u, now))
  {
    hide SameTo;
  }

  lemma ExpireLatchAlike(c: Config, t: Trigger, u: Trigger, now: int)
    requires Alike(c, t, u)
    ensures Alike(c, ExpireLatch(t, now), ExpireLatch(u, now))
  {
    hide SameTo;
  }

  lemma ExpireVerifyAlike(c: Config, t: Trigger, u: Trigger, now: int)
    requires Alike(c, t, u)
    ensures Alike(c, ExpireVerify(t, now), ExpireVerify(u, now))
  {
    hide SameTo;
  }

  lemma ExpireAlike(c: Config, t: Trigger, u: Trigger, now: int)
    requires Alike(c, t, u)
    ensures Alike(c, Expire(t, now), Expire(u, now))
  {
    hide Alike, ExpireClicks, ExpireLatch, ExpireVerify;
    ExpireClicksAlike(c, t, u, now);
    ExpireLatchAlike(c, ExpireClicks(t, now), ExpireClicks(u, now), now);
    ExpireVerifyAlike(c, ExpireLatch(ExpireClicks(t, now), now), ExpireLatch(ExpireClicks(u, now), now), now);
  }

  lemma GateAlike(c: Config, t: Trigger, u: Trigger, x: bool, y: bool)
    requires Alike(c, t, u)
    ensures Alike(c, ModeGate(t, x).0, ModeGate(u, y).0) && ModeGate(t, x).1 == ModeGate(u, y).1
  {
    hide SameTo;
  }

  lemma SeenAlike(c: Config, t: Trigger, u: Trigger, now: int)
    requires Alike(c, t, u)
    ensures Alike(c, Note(t.(isHeld := true, wasPressed := true), Seen(now)),
                  Note(u.(isHeld := true, wasPressed := true), Seen(now)))
  {
    hide SameTo;
  }

  lemma AllHeldAlike(cs: seq<Config>, r: Rule, s: Rule, k: nat)
    requires RulesAlike(cs, r, s)
    ensures AllHeld(r) == AllHeld(s) && OthersHeld(r, k) == OthersHeld(s, k) && Combo(r) == Combo(s)
  {
    hide SameTo;
    assert forall i :: 0 <= i < |r.triggers| ==> Alike(cs[i], r.triggers[i], s.triggers[i]);
    assert forall i :: 0 <= i < |r.triggers| ==> r.triggers[i].isHeld == s.triggers[i].isHeld;
  }

  lemma AlikeIs(c: Config, t: Trigger, u: Trigger)
    requires Alike(c, t, u)
    ensures t.cfg == c && u == t.(last := u.last)
  {
    hide SameTo;
  }

  lemma ShareAllAlike(cs: seq<Config>, r: Rule, s: Rule, now: int)
    requires RulesAlike(cs, r, s)
    ensures RulesAlike(cs, ShareAll(r, now), ShareAll(s, now))
  {
    hide Alike, Share;
    forall k | 0 <= k < |r.triggers|
      ensures Alike(cs[k], ShareAll(r, now).triggers[k], ShareAll(s, now).triggers[k])
    {
      ShareAlike(cs[k], r.triggers[k], s.triggers[k], now);
    }
  }

  lemma FireAlike(cs: seq<Config>, r: Rule, s: Rule, k: nat, now: int)
    requires RulesAlike(cs, r, s) && k < |r.triggers| == |cs|
    ensures RulesAlike(cs, Fire(r, k, now), Fire(s, k, now))
  {
    hide Alike, Charge;
    ChargeAlike(cs[k], r.triggers[k], s.triggers[k], now);
    PutAlike(cs, r, s, k, Charge(r.triggers[k], now), Charge(s.triggers[k], now));
  }

  lemma PressAlike(cs: seq<Config>, r: Rule, s: Rule, k: nat, x: bool, y: bool, now: int)
    requires RulesAlike(cs, r, s) && k < |r.triggers| == |cs|
    ensures |s.triggers| == |r.triggers|
    ensures RulesAlike(cs, Press(r, k, x, now).0, Press(s, k, y, now).0)
    ensures Press(r, k, x, now).1 == Press(s, k, y, now).1
  {
    hide *;
    RuleParts(cs, r, s, k);
    PressIs(r, k, x, now);
    PressIs(s, k, y, now);
    SeenAlike(cs[k], r.triggers[k], s.triggers[k], now);
    var t := Note(r.triggers[k].(isHeld := true, wasPressed := true), Seen(now));
    var u := Note(s.triggers[k].(isHeld := true, wasPressed := true), Seen(now));
    AlikeIs(cs[k], t, u);
    PutAlike(cs, r, s, k, t, u);
    HoldAlike(cs[k], t, u, now);
    var h, i := Hold(t, now).0, Hold(u, now).0;
    AlikeIs(cs[k], h, i);
    PutAlike(cs, r, s, k, h, i);
    AllHeldAlike(cs, Put(r, k, h), Put(s, k, i), k);
    AllHeldAlike(cs, r, s, k);
    GateAlike(cs[k], h, i, x, y);
    var g, j := ModeGate(h, x).0, ModeGate(i, y).0;
    PutAlike(cs, r, s, k, g, j);
    FireAlike(cs, Put(r, k, g), Put(s, k, j), k, now);
    ShareAllAlike(cs, Fire(Put(r, k, g), k, now), Fire(Put(s, k, j), k, now), now);
  }

  /** The gates of a press. */
  lemma PressIs(r: Rule, k: nat, changed: bool, now: int)
    requires k < |r.triggers|
    ensures var t := Note(r.triggers[k].(isHeld := true, wasPressed := true), Seen(now));
      var (h, ripe) := Hold(t, now);
      var (g, open) := ModeGate(h, changed);
      && |Put(r, k, g).triggers| == |r.triggers|
      && Press(r, k, changed, now)
         == if t.cfg.clickTarget > 1 then (Put(r, k, t), false)
            else if !ripe || (Combo(r) && !AllHeld(Put(r, k, h))) then (Put(r, k, h), false)
            else if h.lastTriggered > 0 && now - h.lastTriggered < CooldownUs(h.cfg) then (Put(r, k, h), false)
            else if !open then (Put(r, k, h), false)
            else if Combo(r) then (ShareAll(Fire(Put(r, k, g), k, now), now), true)
            else (Fire(Put(r, k, g), k, now), false)
  {
    hide Hold, ModeGate, Fire, ShareAll, AllHeld, Combo, CooldownUs;
  }

  lemma RuleParts(cs: seq<Config>, r: Rule, s: Rule, k: nat)
    requires RulesAlike(cs, r, s) && k < |r.triggers| == |cs|
    ensures |r.triggers| == |s.triggers| && Alike(cs[k], r.triggers[k], s.triggers[k])
    ensures s == r.(triggers := s.triggers)
  {
    hide Alike;
  }

  /** The way through a release that ends with the frame remembered. */
  lemma LeaveAlike(cs: seq<Config>, r: Rule, s: Rule, k: nat, t: Trigger, u: Trigger, f: Frame, g: Frame)
    requires RulesAlike(cs, r, s) && k < |r.triggers| == |cs| && Alike(cs[k], t, u) && FramesAlike(cs[k], f, g)
    ensures |s.triggers| == |r.triggers| && RulesAlike(cs, Put(r, k, Store(t, f)), Put(s, k, Store(u, g)))
  {
    hide Alike, FramesAlike, Store;
    StoreAlike(cs[k], t, u, f, g);
    PutAlike(cs, r, s, k, Store(t, f), Store(u, g));
  }

  lemma ReleaseRuleAlike(cs: seq<Config>, r: Rule, s: Rule, k: nat, f: Frame, g: Frame, now: int)
    requires RulesAlike(cs, r, s) && k < |r.triggers| == |cs| && FramesAlike(cs[k], f, g)
    ensures |s.triggers| == |r.triggers| && RulesAlike(cs, Release(r, k, f, now), Release(s, k, g, now))
  {
    hide Alike, RulesAlike, FramesAlike, LetGo, Click, Charge, Store, Put, OthersHeld, Combo, CooldownUs;
    RuleParts(cs, r, s, k);
    LetGoAlike(cs[k], r.triggers[k], s.triggers[k], now);
    var t, u := LetGo(r.triggers[k], now), LetGo(s.triggers[k], now);
    AlikeIs(cs[k], t, u);
    LeaveAlike(cs, r, s, k, t, u, f, g);
    ClickAlike(cs[k], t, u, now);
    var c, d := Click(t, now), Click(u, now);
    AlikeIs(cs[k], c, d);
    LeaveAlike(cs, r, s, k, c, d, f, g);
    AllHeldAlike(cs, r, s, k);
    UsedUp(cs[k], c, d);
    var x, y := c.(clicks := 0), d.(clicks := 0);
    AlikeIs(cs[k], x, y);
    PutAlike(cs, r, s, k, x, y);
    LeaveAlike(cs, r, s, k, x, y, f, g);
    ChargeAlike(cs[k], x, y, now);
    LeaveAlike(cs, r, s, k, Charge(x, now), Charge(y, now), f, g);
    CountedAlike(cs, Put(r, k, Store(Charge(x, now), f)), Put(s, k, Store(Charge(y, now), g)));
    PutIs(r, k, Store(Charge(x, now), f));
    PutIs(s, k, Store(Charge(y, now), g));
  }

  lemma UsedUp(c: Config, t: Trigger, u: Trigger)
    requires Alike(c, t, u)
    ensures Alike(c, t.(clicks := 0), u.(clicks := 0))
  {
    hide SameTo;
  }

  lemma CountedAlike(cs: seq<Config>, r: Rule, s: Rule)
    requires RulesAlike(cs, r, s)
    ensures RulesAlike(cs, r.(execCount := r.execCount + 1), s.(execCount := s.execCount + 1))
  {
    hide Alike;
  }

  lemma OfferAlike(cs: seq<Config>, r: Rule, s: Rule, k: nat, f: Frame, g: Frame, now: int)
    requires RulesAlike(cs, r, s) && k < |r.triggers| == |cs| && FramesAlike(cs[k], f, g)
    ensures |s.triggers| == |r.triggers|
    ensures RulesAlike(cs, Offer(r, k, f, now).0, Offer(s, k, g, now).0)
    ensures Offer(r, k, f, now).1 == Offer(s, k, g, now).1
  {
    hide *;
    RuleParts(cs, r, s, k);
    var t, u := r.triggers[k], s.triggers[k];
    AlikeIs(cs[k], t, u);
    FrameParts(cs[k], f, g);
    OfferIs(r, k, f, now);
    OfferIs(s, k, g, now);
    ConfirmAlike(cs[k], t, u, f, g, now);
    var v, w := Confirm(t, f, now), Confirm(u, g, now);
    AlikeIs(cs[k], v, w);
    EvaluateAlike(cs[k], v, w, f, g);
    ReleaseAlike(cs[k], f, g);
    if !Addressed(t.cfg, f) {
    } else if IsReset(t.cfg, f) {
      RearmAlike(cs[k], t, u, now);
      PutAlike(cs, r, s, k, Rearm(t, now), Rearm(u, now));
    } else if Evaluate(v, f) {
      StoreAlike(cs[k], v, w, f, g);
      PutAlike(cs, r, s, k, Store(v, f), Store(w, g));
      PressAlike(cs, Put(r, k, Store(v, f)), Put(s, k, Store(w, g)), k, Changed(v, f), Changed(w, g), now);
    } else if IsRelease(v.cfg, f) {
      PutAlike(cs, r, s, k, v, w);
      ReleaseRuleAlike(cs, Put(r, k, v), Put(s, k, w), k, f, g, now);
    } else {
      LeaveAlike(cs, r, s, k, v, w, f, g);
    }
  }

  lemma FrameParts(c: Config, f: Frame, g: Frame)
    requires FramesAlike(c, f, g)
    ensures Addressed(c, f) == Addressed(c, g) && IsReset(c, f) == IsReset(c, g)
  {
    hide SameTo;
  }

  /** What becomes of one frame offered to one trigger. */
  lemma OfferIs(r: Rule, k: nat, f: Frame, now: int)
    requires k < |r.triggers|
    ensures var t := r.triggers[k];
      var v := Confirm(t, f, now);
      && |Put(r, k, Store(v, f)).triggers| == |Put(r, k, v).triggers| == |r.triggers|
      && Offer(r, k, f, now) == if !Addressed(t.cfg, f) then (r, false)
                                else if IsReset(t.cfg, f) then (Put(r, k, Rearm(t, now)), false)
                                else if Evaluate(v, f) then Press(Put(r, k, Store(v, f)), k, Changed(v, f), now)
                                else if IsRelease(v.cfg, f) then (Release(Put(r, k, v), k, f, now), false)
                                else (Put(r, k, Store(v, f)), false)
  {
    hide Press, Release, Evaluate, IsRelease, Changed, Confirm, Store, Rearm;
  }

  lemma PutIs(r: Rule, k: nat, t: Trigger)
    requires k < |r.triggers|
    ensures |Put(r, k, t).triggers| == |r.triggers| && Put(r, k, t).triggers[k] == t
    ensures Put(r, k, t).execCount == r.execCount
  {
  }

  // ---------------------------------------------------------------- whole runs

  lemma {:induction false} OffersAlike(cs: seq<Config>, r: Rule, s: Rule, k: nat, f: Frame, g: Frame, now: int)
    requires RulesAlike(cs, r, s) && FramesAlikeTo(cs, f, g) && k <= |r.triggers|
    ensures |s.triggers| == |r.triggers|
    ensures RulesAlike(cs, OfferFrom(r, k, f, now), OfferFrom(s, k, g, now))
    decreases |r.triggers| - k
  {
    hide RulesAlike, FramesAlike, Offer;
    RulesSize(cs, r, s);
    if k < |r.triggers| {
      assert FramesAlike(cs[k], f, g);
      OfferAlike(cs, r, s, k, f, g, now);
      var (t, done) := Offer(r, k, f, now);
      if !done {
        OffersAlike(cs, t, Offer(s, k, g, now).0, k + 1, f, g, now);
      }
    }
  }

  lemma RulesSize(cs: seq<Config>, r: Rule, s: Rule)
    requires RulesAlike(cs, r, s)
    ensures |cs| == |r.triggers| == |s.triggers| && r.enabled == s.enabled
  {
    hide Alike;
  }

  lemma RxAlike(cs: seq<Config>, r: Rule, s: Rule, f: Frame, g: Frame, now: int)
    requires RulesAlike(cs, r, s) && FramesAlikeTo(cs, f, g)
    ensures RulesAlike(cs, RxRule(r, f, now), RxRule(s, g, now))
  {
    hide Alike, FramesAlike, Observe, OfferFrom;
    if r.enabled {
      forall k | 0 <= k < |r.triggers|
        ensures Alike(cs[k], ObserveAll(r, f).triggers[k], ObserveAll(s, g).triggers[k])
      {
        assert FramesAlike(cs[k], f, g);
        ObserveAlike(cs[k], r.triggers[k], s.triggers[k], f, g);
      }
      OffersAlike(cs, ObserveAll(r, f), ObserveAll(s, g), 0, f, g, now);
    }
  }

  lemma TickAlike(cs: seq<Config>, r: Rule, s: Rule, now: int)
    requires RulesAlike(cs, r, s)
    ensures RulesAlike(cs, TickRule(r, now), TickRule(s, now))
  {
    hide Alike, Expire;
    forall k | 0 <= k < |r.triggers| && r.enabled
      ensures Alike(cs[k], TickRule(r, now).triggers[k], TickRule(s, now).triggers[k])
    {
      ExpireAlike(cs[k], r.triggers[k], s.triggers[k], now);
    }
  }

  /** Two inputs that differ at most in bits of a frame that no trigger of a rule watches. */
  ghost predicate InputsAlike(cs: seq<Config>, i: Input, j: Input) {
    if i.Rx? then j.Rx? && j == i.(f := j.f) && FramesAlikeTo(cs, i.f, j.f) else i == j
  }

  lemma StepAlike(cs: seq<Config>, r: Rule, s: Rule, i: Input, j: Input)
    requires RulesAlike(cs, r, s) && InputsAlike(cs, i, j)
    ensures RulesAlike(cs, StepRule(r, i), StepRule(s, j))
  {
    hide RulesAlike, FramesAlikeTo, RxRule, TickRule;
    if !i.off {
      if i.Rx? {
        RxAlike(cs, r, s, i.f, j.f, i.at);
      } else {
        TickAlike(cs, r, s, i.at);
      }
    }
  }

  function Configs(r: Rule): seq<Config> {
    seq(|r.triggers|, k requires 0 <= k < |r.triggers| => r.triggers[k].cfg)
  }

  /** Two histories that differ at most in bits no trigger watches. */
  ghost predicate HistoriesAlike(rs: seq<Rule>, ins: seq<Input>, jns: seq<Input>) {
    && |ins| == |jns|
    && forall n, j :: 0 <= n < |ins| && 0 <= j < |rs| ==> InputsAlike(Configs(rs[j]), ins[n], jns[n])
  }

  ghost predicate AllAlike(css: seq<seq<Config>>, rs: seq<Rule>, ss: seq<Rule>) {
    |css| == |rs| == |ss| && forall j :: 0 <= j < |rs| ==> RulesAlike(css[j], rs[j], ss[j])
  }

  ghost predicate AllInputsAlike(css: seq<seq<Config>>, ins: seq<Input>, jns: seq<Input>) {
    && |ins| == |jns|
    && forall n, j :: 0 <= n < |ins| && 0 <= j < |css| ==> InputsAlike(css[j], ins[n], jns[n])
  }

  lemma {:induction false} RunAlike(css: seq<seq<Config>>, rs: seq<Rule>, ss: seq<Rule>,
                                    ins: seq<Input>, jns: seq<Input>)
    requires AllAlike(css, rs, ss) && AllInputsAlike(css, ins, jns)
    ensures AllAlike(css, Run(rs, ins), Run(ss, jns))
    decreases |ins|
  {
    hide RulesAlike, InputsAlike, StepRule;
    if ins != [] {
      forall j | 0 <= j < |rs|
        ensures RulesAlike(css[j], Step(rs, ins[0])[j], Step(ss, jns[0])[j])
      {
        assert InputsAlike(css[j], ins[0], jns[0]);
        StepAlike(css[j], rs[j], ss[j], ins[0], jns[0]);
      }
      assert forall n :: 0 <= n < |ins[1..]| ==> ins[1..][n] == ins[n + 1] && jns[1..][n] == jns[n + 1];
      RunAlike(css, Step(rs, ins[0]), Step(ss, jns[0]), ins[1..], jns[1..]);
    }
  }

  lemma AlikeAtFirst(r: Rule)
    requires forall t :: t in r.triggers ==> LooksAtBits(t.cfg)
    ensures RulesAlike(Configs(r), r, r)
  {
    hide SameUnder;
    forall k | 0 <= k < |r.triggers|
      ensures Alike(r.triggers[k].cfg, r.triggers[k], r.triggers[k])
    {
      assert r.triggers[k] in r.triggers;
      if r.triggers[k].last.Some? {
        SameToItself(r.triggers[k].cfg, r.triggers[k].last.value);
      }
    }
  }

  lemma SameToItself(c: Config, a: Payload)
    ensures SameTo(c, a, a)
  {
  }

  lemma AlikeInTheEnd(css: seq<seq<Config>>, rs: seq<Rule>, ss: seq<Rule>, j: nat)
    requires AllAlike(css, rs, ss) && j < |rs|
    ensures ss[j].execCount == rs[j].execCount && |ss[j].triggers| == |rs[j].triggers|
    ensures forall k :: 0 <= k < |rs[j].triggers| ==>
              ss[j].triggers[k] == rs[j].triggers[k].(last := ss[j].triggers[k].last)
  {
    hide Alike;
    forall k | 0 <= k < |rs[j].triggers|
      ensures ss[j].triggers[k] == rs[j].triggers[k].(last := ss[j].triggers[k].last)
    {
      AlikeIs(css[j][k], rs[j].triggers[k], ss[j].triggers[k]);
    }
  }

  /** Over every run of rules whose triggers look at bits, the bits outside their masks make no
      difference: not to what is executed, nor to any click, hold, latch or timer. */
  lemma UnwatchedBitsNeverMatter(rs: seq<Rule>, ins: seq<Input>, jns: seq<Input>, j: nat)
    requires forall r :: r in rs ==> forall t :: t in r.triggers ==> LooksAtBits(t.cfg)
    requires HistoriesAlike(rs, ins, jns) && j < |rs|
    ensures var r, s := Run(rs, ins)[j], Run(rs, jns)[j];
      && s.execCount == r.execCount && |s.triggers| == |r.triggers|
      && forall k :: 0 <= k < |r.triggers| ==> s.triggers[k] == r.triggers[k].(last := s.triggers[k].last)
  {
    hide RulesAlike, InputsAlike, Run, LooksAtBits, Configs;
    var css := seq(|rs|, i requires 0 <= i < |rs| => Configs(rs[i]));
    forall i | 0 <= i < |rs|
      ensures RulesAlike(css[i], rs[i], rs[i])
    {
      assert rs[i] in rs;
      AlikeAtFirst(rs[i]);
    }
    RunAlike(css, rs, rs, ins, jns);
    AlikeInTheEnd(css, Run(rs, ins), Run(rs, jns), j);
  }
}
