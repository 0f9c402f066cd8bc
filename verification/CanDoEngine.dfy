/** The trigger engine in the form of main/autopid.c: an array of trigger records that nested loops
    update in place. */
module CanDoEngine {
  import opened Wrappers
  import opened CanDo
  import opened CanDoBits

  method MatchByte(c: Cell, b: bv8) returns (same: bool)
    ensures same == Agree(c, b)
  {
    same := b & c.mask == c.value & c.mask;
  }

  /** A masked comparison byte by byte, left at the first difference. */
  method MatchCells(pattern: seq<Cell>, data: Payload, limit: Length) returns (ok: bool)
    ensures ok == Matches(pattern, data, limit) && (ok <==> BitwiseMatch(pattern, data, limit))
  {
    MatchesIsBitwise(pattern, data, limit);
    hide BitwiseMatch, Agree;
    for i := 0 to |pattern|
      invariant forall n :: 0 <= n < i && pattern[n].mask != 0 ==> n < limit && Agree(pattern[n], data[n])
    {
      if pattern[i].mask != 0 {
        if i >= limit {
          return false;
        }
        var same := MatchByte(pattern[i], data[i]);
        if !same {
          return false;
        }
      }
    }
    ok := true;
  }

  /** `cando_evaluate_trigger`. */
  method EvaluateTrigger(t: Trigger, f: Frame) returns (passed: bool)
    ensures passed == Evaluate(t, f) && (passed <==> ConditionHolds(t, f))
  {
    EvaluateMeans(t, f);
    hide Matches, ConditionHolds;
    var c := t.cfg;
    if !c.isCan || c.bus != f.bus || c.canId != f.id || c.ext != f.ext {
      return false;
    }
    if c.from.Some? && t.last.Some? {
      var same := MatchCells(c.from.value, t.last.value, 8);
      if !same {
        return false;
      }
    }
    if c.to.Some? {
      var same := MatchCells(c.to.value, f.data, f.dlc);
      if !same {
        return false;
      }
    }
    if c.anyChange || (c.from.None? && c.to.None? && !c.isExpression) {
      if t.last.Some? && t.last.value[..f.dlc] == f.data[..f.dlc] {
        return false;
      }
    }
    passed := c.isExpression ==> c.expression in f.holding;
  }

  method ShowsRelease(c: Config, f: Frame) returns (release: bool)
    ensures release == IsRelease(c, f) && (release <==> ReleaseShows(c, f))
  {
    ReleaseMeans(c, f);
    hide Matches, ReleaseShows;
    release := false;
    if c.from.Some? {
      release := MatchCells(c.from.value, f.data, f.dlc);
    } else if c.to.Some? {
      var still := MatchCells(c.to.value, f.data, f.dlc);
      release := !still;
    }
  }

  method ConfirmTrigger(t: Trigger, f: Frame, now: int) returns (v: Trigger)
    ensures v == Confirm(t, f, now)
  {
    hide Matches;
    v := t;
    if t.cfg.mode == PollVerify && t.pendingVerify && t.cfg.verifyId > 0 && f.id == t.cfg.verifyId {
      var confirmed := true;
      if t.cfg.verify.Some? {
        confirmed := MatchCells(t.cfg.verify.value, f.data, f.dlc);
      }
      if confirmed {
        v := Note(t.(pendingVerify := false, latched := true, lastTriggered := now), Confirmed(now));
      }
    }
  }

  class RuleEngine {
    const enabled: bool
    const combineAll: bool
    const triggers: array<Trigger>
    var execCount: nat

    ghost function Value(): Rule
      reads this, triggers
    {
      Rule(enabled, combineAll, triggers[..], execCount)
    }

    constructor (enabled: bool, combineAll: bool, configs: seq<Config>)
      requires configs != []
      ensures fresh(triggers) && triggers.Length == |configs|
      ensures Value() == Rule(enabled, combineAll,
                              seq(|configs|, i requires 0 <= i < |configs| => Fresh(configs[i])), 0)
    {
      this.enabled, this.combineAll, execCount := enabled, combineAll, 0;
      triggers := new Trigger[|configs|](i requires 0 <= i < |configs| => Fresh(configs[i]));
    }

    /** The first pass: which triggers are held. */
    method ObservePass(f: Frame)
      modifies triggers
      ensures Value() == ObserveAll(old(Value()), f)
    {
      hide Evaluate, IsRelease;
      for k := 0 to triggers.Length
        invariant forall i :: 0 <= i < k ==> triggers[i] == Observe(old(triggers[i]), f)
        invariant forall i :: k <= i < triggers.Length ==> triggers[i] == old(triggers[i])
        invariant execCount == old(execCount)
      {
        var t := triggers[k];
        if Addressed(t.cfg, f) {
          var passed := EvaluateTrigger(t, f);
          if passed {
            triggers[k] := t.(isHeld := true, wasPressed := true);
          } else {
            var release := ShowsRelease(t.cfg, f);
            if release {
              triggers[k] := t.(isHeld := false);
            }
          }
        }
      }
    }

    /** Whether every trigger but one of an index, if any, is held. */
    method HeldBut(skip: int) returns (held: bool)
      ensures held <==> forall i :: 0 <= i < triggers.Length && i != skip ==> triggers[i].isHeld
    {
      for k := 0 to triggers.Length
        invariant forall i :: 0 <= i < k && i != skip ==> triggers[i].isHeld
      {
        if k != skip && !triggers[k].isHeld {
          return false;
        }
      }
      held := true;
    }

    /** Execute the rule for trigger `k`. */
    method Execute(k: nat, now: int)
      requires k < triggers.Length
      modifies this`execCount, triggers
      ensures Value() == Fire(old(Value()), k, now)
    {
      triggers[k] := Note(triggers[k].(lastTriggered := now), Fired(now));
      execCount := execCount + 1;
    }

    method ShareWithAll(now: int)
      modifies triggers
      ensures Value() == ShareAll(old(Value()), now)
    {
      for k := 0 to triggers.Length
        invariant forall i :: 0 <= i < k ==> triggers[i] == Share(old(triggers[i]), now)
        invariant forall i :: k <= i < triggers.Length ==> triggers[i] == old(triggers[i])
        invariant execCount == old(execCount)
      {
        var t := triggers[k];
        triggers[k] := Note(t.(lastTriggered := now), Shared(now));
        if t.cfg.mode == OneShot {
          triggers[k] := triggers[k].(latched := true);
        }
      }
    }

    /** The hold timer of trigger `k`. */
    method HoldTimer(k: nat, now: int) returns (ripe: bool)
      requires k < triggers.Length
      modifies triggers
      ensures triggers[..] == old(triggers[..])[k := Hold(old(triggers[k]), now).0]
      ensures ripe == Hold(old(triggers[k]), now).1
    {
      var t := triggers[k];
      if t.cfg.forMs == 0 {
        return true;
      }
      if t.assertedSince == 0 {
        triggers[k] := Note(t.(assertedSince := now), Asserted(now));
        return false;
      }
      if now - t.assertedSince < 1000 * t.cfg.forMs || t.holdFired {
        return false;
      }
      triggers[k] := t.(holdFired := true);
      ripe := true;
    }

    /** The frame matches trigger `k`. */
    method Pressed(k: nat, changed: bool, now: int) returns (done: bool)
      requires k < triggers.Length
      modifies this`execCount, triggers
      ensures (Value(), done) == Press(old(Value()), k, changed, now)
    {
      hide Hold, Charge, Share, CooldownUs;
      ghost var start := Value();
      triggers[k] := Note(triggers[k].(isHeld := true, wasPressed := true), Seen(now));
      assert Value() == Put(start, k, Note(start.triggers[k].(isHeld := true, wasPressed := true), Seen(now)));
      if triggers[k].cfg.clickTarget > 1 {
        return false;
      }
      var ripe := HoldTimer(k, now);
      ghost var held := Value();
      assert held == Put(start, k, triggers[k]);
      if !ripe {
        return false;
      }
      var combo := combineAll && triggers.Length > 1;
      if combo {
        var all := HeldBut(-1);
        assert all == AllHeld(held);
        if !all {
          return false;
        }
      }
      var h := triggers[k];
      if h.lastTriggered > 0 && now - h.lastTriggered < CooldownUs(h.cfg) {
        return false;
      }
      match h.cfg.mode {
        case OneShot =>
          if h.latched {
            return false;
          }
          triggers[k] := h.(latched := true);
        case PollVerify =>
          if h.latched || h.pendingVerify {
            return false;
          }
          triggers[k] := h.(pendingVerify := true);
        case OnChange =>
          if !changed {
            return false;
          }
        case Always =>
      }
      assert Value() == Put(start, k, ModeGate(h, changed).0);
      Execute(k, now);
      if combo {
        ShareWithAll(now);
      }
      done := combo;
    }

    /** The frame shows that trigger `k` is released. */
    method Let(k: nat, f: Frame, now: int)
      requires k < triggers.Length
      modifies this`execCount, triggers
      ensures Value() == Release(old(Value()), k, f, now)
    {
      hide Store, Charge;
      ghost var start := Value();
      var t := LetGo(triggers[k], now);
      if t.cfg.clickTarget <= 1 || !t.wasPressed {
        triggers[k] := Store(t, f);
        return;
      }
      var c := Click(t, now);
      if c.clicks < c.cfg.clickTarget {
        triggers[k] := Store(c, f);
        return;
      }
      var all := true;
      if combineAll && triggers.Length > 1 {
        all := HeldBut(k);
        assert all == OthersHeld(start, k);
      }
      triggers[k] := c.(clicks := 0);
      if !all {
        return;
      }
      if c.lastTriggered == 0 || now - c.lastTriggered >= CooldownUs(c.cfg) {
        execCount := execCount + 1;
        triggers[k] := Charge(triggers[k], now);
      }
      triggers[k] := Store(triggers[k], f);
    }

    /** One trigger meets the frame. */
    method OfferTo(k: nat, f: Frame, now: int) returns (done: bool)
      requires k < triggers.Length
      modifies this`execCount, triggers
      ensures (Value(), done) == Offer(old(Value()), k, f, now)
    {
      hide Press, Release, Evaluate, IsRelease, Store, Confirm, Rearm;
      ghost var start := Value();
      done := false;
      var t := triggers[k];
      if !Addressed(t.cfg, f) {
        return;
      }
      if t.cfg.resetId > 0 && f.id == t.cfg.resetId {
        triggers[k] := Rearm(t, now);
        return;
      }
      var v := ConfirmTrigger(t, f, now);
      var changed := v.last.None? || v.last.value[..f.dlc] != f.data[..f.dlc];
      var passed := EvaluateTrigger(v, f);
      if passed {
        triggers[k] := Store(v, f);
        assert Value() == Put(start, k, Store(v, f));
        done := Pressed(k, changed, now);
      } else {
        var release := ShowsRelease(v.cfg, f);
        if release {
          triggers[k] := v;
          assert Value() == Put(start, k, v);
          Let(k, f, now);
        } else {
          triggers[k] := Store(v, f);
        }
      }
    }

    /** `cando_process_rx_frame` for this rule. */
    method ProcessRx(f: Frame, now: int)
      modifies this`execCount, triggers
      ensures Value() == RxRule(old(Value()), f, now)
    {
      hide Offer, Observe;
      if !enabled {
        return;
      }
      ObservePass(f);
      ghost var start := Value();
      var k, done := 0, false;
      while k < triggers.Length && !done
        invariant 0 <= k <= triggers.Length
        invariant done ==> Value() == OfferFrom(start, 0, f, now)
        invariant !done ==> OfferFrom(Value(), k, f, now) == OfferFrom(start, 0, f, now)
        decreases triggers.Length - k, !done
      {
        done := OfferTo(k, f, now);
        k := k + 1;
      }
    }

    /** `cando_process_timer_tick` for this rule. */
    method ProcessTimer(now: int)
      modifies triggers
      ensures Value() == TickRule(old(Value()), now)
    {
      if !enabled {
        return;
      }
      for k := 0 to triggers.Length
        invariant forall i :: 0 <= i < k ==> triggers[i] == Expire(old(triggers[i]), now)
        invariant forall i :: k <= i < triggers.Length ==> triggers[i] == old(triggers[i])
        invariant execCount == old(execCount)
      {
        if triggers[k].clicks > 0 && now - triggers[k].lastClick > WindowUs(triggers[k].cfg) {
          triggers[k] := triggers[k].(clicks := 0);
        }
        triggers[k] := ExpireLatch(triggers[k], now);
        if triggers[k].cfg.mode == PollVerify && triggers[k].pendingVerify
           && now - triggers[k].lastTriggered > VerifyTimeoutUs(triggers[k].cfg) {
          triggers[k] := triggers[k].(pendingVerify := false);
        }
      }
    }
  }
}
