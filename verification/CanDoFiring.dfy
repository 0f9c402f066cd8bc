/** Exactly when a frame executes a rule: what the history of a trigger has earned it, and the
    cooldown, the mode and the combination that may still keep it from it. */
module CanDoFiring {
  import opened Wrappers
  import opened CanDo
  import opened CanDoLaws
  import opened CanDoExactness

  // ---------------------------------------------------------------- reading a history

  /** A hold has one chance: the first frame offered after it has lasted long enough. */
  predicate Tried(c: Config, marks: seq<Mark>)
    decreases |marks|
  {
    if marks == [] || Last(marks).Released? then false
    else
      || Tried(c, Before(marks))
      || (Last(marks).Seen? && HeldSince(Before(marks)).Some?
          && Last(marks).at - HeldSince(Before(marks)).value >= 1000 * c.forMs)
  }

  /** The hold in progress has lasted long enough at `at`, for the first time. */
  predicate HoldEarned(c: Config, marks: seq<Mark>, at: int) {
    c.forMs > 0 ==>
      HeldSince(marks).Some? && at - HeldSince(marks).value >= 1000 * c.forMs && !Tried(c, marks)
  }

  /** The click that a release at `at` counts as: the next one within the window, or the first. */
  function NextClick(c: Config, marks: seq<Mark>, at: int): nat
    decreases |marks|, 1
  {
    if Accumulated(c, marks) > 0 && LastClick(marks).Some?
       && at - LastClick(marks).value <= 1_000 * (if c.clickWindowMs > 0 then c.clickWindowMs else 450)
    then Accumulated(c, marks) + 1 else 1
  }

  /** The clicks counted and not used up: reaching the target uses them, executed or not. */
  function Accumulated(c: Config, marks: seq<Mark>): nat
    decreases |marks|, 0
  {
    if marks == [] then 0
    else if Last(marks).Clicked? then
      var n := NextClick(c, Before(marks), Last(marks).at);
      if n >= c.clickTarget then 0 else n
    else Accumulated(c, Before(marks))
  }

  predicate HoldExact(t: Trigger) {
    t.cfg.clickTarget <= 1 && t.cfg.forMs > 0 ==>
      && HeldSince(t.marks) == (if t.assertedSince == 0 then None else Some(t.assertedSince))
      && (t.holdFired <==> Tried(t.cfg, t.marks))
  }

  predicate ClicksExact(t: Trigger, now: int) {
    t.cfg.clickTarget > 1 ==>
      && (t.clicks == Accumulated(t.cfg, t.marks)
          || (t.clicks == 0 && LastClick(t.marks).Some? && now - LastClick(t.marks).value > WindowUs(t.cfg)))
      && (t.clicks > 0 ==> LastClick(t.marks) == Some(t.lastClick))
  }

  /** The hold timer and the click counter are what the history says. */
  predicate Exact(t: Trigger, now: int) {
    HoldExact(t) && ClicksExact(t, now)
  }

  lemma FreshIsExact(c: Config, now: int)
    ensures Exact(Fresh(c), now)
  {
  }

  lemma LaterIsExact(t: Trigger, a: int, b: int)
    requires Exact(t, a) && a <= b
    ensures Exact(t, b)
  {
    hide Accumulated, LastClick, HeldSince, Tried;
  }

  // ---------------------------------------------------------------- what each step keeps

  /** Fields other than the hold timer and the counter may change freely. */
  lemma LooseIsExact(t: Trigger, u: Trigger, now: int)
    requires Exact(t, now)
    requires u == t.(last := u.last, isHeld := u.isHeld, wasPressed := u.wasPressed, pendingVerify := u.pendingVerify,
                     latched := u.latched, lastTriggered := u.lastTriggered)
    ensures Exact(u, now)
  {
    hide Accumulated, LastClick, HeldSince, Tried;
  }

  /** So may marks that neither begin nor end a hold, nor are offers or clicks. */
  lemma NotedIsExact(t: Trigger, m: Mark, now: int)
    requires Exact(t, now) && (m.Fired? || m.Shared? || m.Confirmed? || m.Reset? || m.Expired?)
    ensures Exact(Note(t, m), now) && FiredIn(Note(t, m).marks) == FiredIn(t.marks) + (if m.Fired? then 1 else 0)
  {
    Snoc(t.marks, m);
  }

  lemma LetGoIsExact(t: Trigger, now: int)
    requires Exact(t, now)
    ensures var u := LetGo(t, now);
      && Exact(u, now) && FiredIn(u.marks) == FiredIn(t.marks)
      && u == t.(latched := false, assertedSince := 0, holdFired := false, isHeld := false, marks := u.marks)
      && NextClick(t.cfg, u.marks, now) == NextClick(t.cfg, t.marks, now)
      && LastCharged(u.marks) == LastCharged(t.marks)
  {
    Snoc(t.marks, Released(now));
  }

  /** The counter after the next click is what the history counts. */
  lemma ClickIsNext(t: Trigger, now: int)
    requires ClicksExact(t, now) && t.cfg.clickTarget > 1
    ensures Click(t, now).clicks == NextClick(t.cfg, t.marks, now)
  {
  }

  /** A click, and the counter cleared when it reaches the target. */
  lemma ClickIsExact(t: Trigger, now: int)
    requires Exact(t, now) && t.cfg.clickTarget > 1
    ensures var u := Click(t, now);
      && FiredIn(u.marks) == FiredIn(t.marks) && LastCharged(u.marks) == LastCharged(t.marks)
      && u.clicks == NextClick(t.cfg, t.marks, now)
      && u == t.(wasPressed := false, clicks := u.clicks, lastClick := now, marks := u.marks)
      && Exact(if u.clicks >= t.cfg.clickTarget then u.(clicks := 0) else u, now)
  {
    ClickIsNext(t, now);
    Snoc(t.marks, Clicked(now));
    hide HeldSince, Tried;
  }

  lemma SeenInHistory(c: Config, marks: seq<Mark>, now: int)
    ensures var l := marks + [Seen(now)];
      && HeldSince(l) == HeldSince(marks) && FiredIn(l) == FiredIn(marks) && LastCharged(l) == LastCharged(marks)
      && (Tried(c, l) <==>
            Tried(c, marks) || (HeldSince(marks).Some? && now - HeldSince(marks).value >= 1000 * c.forMs))
  {
    Snoc(marks, Seen(now));
  }

  lemma AssertedInHistory(c: Config, marks: seq<Mark>, now: int)
    ensures var l := marks + [Asserted(now)];
      && HeldSince(l) == Some(now) && FiredIn(l) == FiredIn(marks) && LastCharged(l) == LastCharged(marks)
      && (Tried(c, l) <==> Tried(c, marks))
  {
    Snoc(marks, Asserted(now));
  }

  /** An offered frame that meets the condition, through the hold timer. */
  lemma HoldIsExact(t: Trigger, now: int)
    requires Exact(t, now) && t.cfg.clickTarget <= 1 && 0 < now
    ensures var (h, ripe) := Hold(Note(t, Seen(now)), now);
      && Exact(h, now) && FiredIn(h.marks) == FiredIn(t.marks) && LastCharged(h.marks) == LastCharged(t.marks)
      && (ripe <==> HoldEarned(t.cfg, t.marks, now))
      && h == t.(assertedSince := h.assertedSince, holdFired := h.holdFired, marks := h.marks)
  {
    hide Accumulated, LastClick, HeldSince, Tried, FiredIn, LastCharged;
    SeenInHistory(t.cfg, t.marks, now);
    AssertedInHistory(t.cfg, t.marks + [Seen(now)], now);
  }

  lemma SeenIsExact(t: Trigger, now: int)
    requires Exact(t, now) && t.cfg.clickTarget > 1
    ensures Exact(Note(t, Seen(now)), now) && FiredIn(Note(t, Seen(now)).marks) == FiredIn(t.marks)
  {
    Snoc(t.marks, Seen(now));
    hide HeldSince, Tried;
  }

  lemma ExpireIsExact(t: Trigger, now: int)
    requires Exact(t, now)
    ensures Exact(Expire(t, now), now) && FiredIn(Expire(t, now).marks) == FiredIn(t.marks)
  {
    var u := ExpireClicks(t, now);
    assert Exact(u, now) by { ClicksExpireExactly(t, now); }
    var v := ExpireLatch(u, now);
    LooseIsExact(u, u.(latched := false), now);
    NotedIsExact(u.(latched := false), Expired(now), now);
    hide Exact;
    LooseIsExact(v, Expire(t, now), now);
  }

  lemma ClicksExpireExactly(t: Trigger, now: int)
    requires Exact(t, now)
    ensures Exact(ExpireClicks(t, now), now)
  {
    hide Accumulated, HeldSince, Tried;
  }

  // ---------------------------------------------------------------- one offer

  /** What the execution mode lets through. */
  predicate ModeOpen(t: Trigger, f: Frame) {
    match t.cfg.mode
    case Always => true
    case OneShot => !t.latched
    case PollVerify => !t.latched && !t.pendingVerify
    case OnChange => Changed(t, f)
  }

  predicate Cool(t: Trigger, at: int) {
    t.lastTriggered > 0 ==> at - t.lastTriggered >= CooldownUs(t.cfg)
  }

  predicate OthersAreHeld(r: Rule, k: nat) {
    Combo(r) ==> OthersHeld(r, k)
  }

  /** What a press at `now` needs. */
  predicate PressFires(r: Rule, k: nat, changed: bool, now: int)
    requires k < |r.triggers|
  {
    var t := r.triggers[k];
    && t.cfg.clickTarget <= 1 && HoldEarned(t.cfg, t.marks, now) && OthersAreHeld(r, k) && Cool(t, now)
    && ModeGate(t, changed).1
  }

  lemma ShareIsExact(t: Trigger, now: int)
    requires Exact(t, now)
    ensures Exact(Share(t, now), now) && FiredIn(Share(t, now).marks) == FiredIn(t.marks)
  {
    var u := t.(lastTriggered := now, latched := t.latched || t.cfg.mode == OneShot);
    LooseIsExact(t, u, now);
    NotedIsExact(u, Shared(now), now);
  }

  lemma ChargeIsExact(t: Trigger, changed: bool, now: int)
    requires Exact(t, now)
    ensures var g := ModeGate(t, changed).0;
      && Exact(Charge(g, now), now) && FiredIn(Charge(g, now).marks) == FiredIn(t.marks) + 1
  {
    var g := ModeGate(t, changed).0;
    LooseIsExact(t, g.(lastTriggered := now), now);
    NotedIsExact(g.(lastTriggered := now), Fired(now), now);
  }

  lemma PressIsExact(r: Rule, k: nat, changed: bool, now: int)
    requires k < |r.triggers| && Exact(r.triggers[k], now) && 0 < now
    ensures var t, u := r.triggers[k], Press(r, k, changed, now).0.triggers[k];
      Exact(u, now) && FiredIn(u.marks) == FiredIn(t.marks) + (if PressFires(r, k, changed, now) then 1 else 0)
  {
    hide Exact, FiredIn, Hold, HoldEarned, Charge, Share, ModeGate, CooldownUs, AllHeld, OthersHeld, LastCharged;
    var t := r.triggers[k];
    var pressed := t.(isHeld := true, wasPressed := true);
    LooseIsExact(t, pressed, now);
    if t.cfg.clickTarget > 1 {
      SeenIsExact(pressed, now);
    } else {
      HoldIsExact(pressed, now);
      var h := Hold(Note(pressed, Seen(now)), now).0;
      SameGate(pressed, h, changed);
      assert h.isHeld;
      OthersMakeAll(r, k, h);
      ChargeIsExact(h, changed, now);
      ShareIsExact(Charge(ModeGate(h, changed).0, now), now);
      SameGate(t, pressed, changed);
    }
  }

  lemma SameGate(t: Trigger, h: Trigger, changed: bool)
    requires h == t.(assertedSince := h.assertedSince, holdFired := h.holdFired, marks := h.marks,
                     isHeld := h.isHeld, wasPressed := h.wasPressed)
    ensures ModeGate(h, changed).1 == ModeGate(t, changed).1
  {
  }

  lemma OthersMakeAll(r: Rule, k: nat, h: Trigger)
    requires k < |r.triggers| && h.isHeld
    ensures AllHeld(Put(r, k, h)) <==> OthersHeld(r, k)
  {
    var s := Put(r, k, h);
    assert forall i :: 0 <= i < |r.triggers| && i != k ==> s.triggers[i] == r.triggers[i];
  }

  /** What a release at `now` needs. */
  predicate ReleaseFires(r: Rule, k: nat, now: int)
    requires k < |r.triggers|
  {
    var t := r.triggers[k];
    && t.cfg.clickTarget > 1 && t.wasPressed && NextClick(t.cfg, t.marks, now) >= t.cfg.clickTarget
    && OthersAreHeld(r, k) && (t.lastTriggered == 0 || now - t.lastTriggered >= CooldownUs(t.cfg))
  }

  lemma StoreIsExact(t: Trigger, f: Frame, now: int)
    requires Exact(t, now)
    ensures Exact(Store(t, f), now) && Store(t, f).marks == t.marks
  {
    StoreIsSilent(t, f);
    LooseIsExact(t, Store(t, f), now);
  }

  lemma ReleaseIsExact(r: Rule, k: nat, f: Frame, now: int)
    requires k < |r.triggers| && Exact(r.triggers[k], now) && 0 < now
    ensures var t, u := r.triggers[k], Release(r, k, f, now).triggers[k];
      Exact(u, now) && FiredIn(u.marks) == FiredIn(t.marks) + (if ReleaseFires(r, k, now) then 1 else 0)
  {
    hide Exact, FiredIn, LetGo, Click, Charge, Store, NextClick, CooldownUs, OthersHeld, LastCharged;
    var t := r.triggers[k];
    var g := LetGo(t, now);
    LetGoIsExact(t, now);
    StoreIsExact(g, f, now);
    if t.cfg.clickTarget > 1 && t.wasPressed {
      var c := Click(g, now);
      ClickIsExact(g, now);
      if c.clicks < c.cfg.clickTarget {
        StoreIsExact(c, f, now);
      } else {
        var done := c.(clicks := 0);
        StoreIsExact(done, f, now);
        PlainChargeIsExact(done, now);
        StoreIsExact(Charge(done, now), f, now);
      }
    }
  }

  lemma PlainChargeIsExact(t: Trigger, now: int)
    requires Exact(t, now)
    ensures Exact(Charge(t, now), now) && FiredIn(Charge(t, now).marks) == FiredIn(t.marks) + 1
  {
    LooseIsExact(t, t.(lastTriggered := now), now);
    NotedIsExact(t.(lastTriggered := now), Fired(now), now);
  }

  lemma ConfirmIsExact(t: Trigger, f: Frame, now: int)
    requires Exact(t, now)
    ensures var v := Confirm(t, f, now);
      && Exact(v, now) && FiredIn(v.marks) == FiredIn(t.marks) && v.wasPressed == t.wasPressed && v.cfg == t.cfg
      && (v == t || v.lastTriggered == now)
  {
    hide Matches;
    var u := t.(pendingVerify := false, latched := true, lastTriggered := now);
    LooseIsExact(t, u, now);
    NotedIsExact(u, Confirmed(now), now);
  }

  lemma RearmIsExact(t: Trigger, now: int)
    requires Exact(t, now)
    ensures Exact(Rearm(t, now), now) && FiredIn(Rearm(t, now).marks) == FiredIn(t.marks)
  {
    LooseIsExact(t, t.(latched := false, pendingVerify := false), now);
    NotedIsExact(t.(latched := false, pendingVerify := false), Reset(now), now);
  }

  /** What an offered frame needs to execute the rule for trigger `k`, when its turn has come. */
  predicate OfferFires(r: Rule, k: nat, f: Frame, now: int)
    requires k < |r.triggers|
  {
    var t := r.triggers[k];
    && Addressed(t.cfg, f) && !IsReset(t.cfg, f) && !Confirms(t, f) && Cool(t, now) && OthersAreHeld(r, k)
    && if t.cfg.clickTarget <= 1 then
         Evaluate(t, f) && HoldEarned(t.cfg, t.marks, now) && ModeOpen(t, f)
       else
         !Evaluate(t, f) && IsRelease(t.cfg, f) && t.wasPressed
         && NextClick(t.cfg, t.marks, now) >= t.cfg.clickTarget
  }

  lemma HotAfterConfirmation(r: Rule, k: nat, v: Trigger, changed: bool, now: int)
    requires k < |r.triggers| && v.lastTriggered == now && 0 < now
    ensures !PressFires(Put(r, k, v), k, changed, now) && !ReleaseFires(Put(r, k, v), k, now)
  {
    hide HoldEarned, NextClick, OthersHeld, ModeGate;
  }

  lemma PressOfOffer(r: Rule, k: nat, f: Frame, now: int)
    requires k < |r.triggers|
    ensures var t := r.triggers[k];
      PressFires(Put(r, k, Store(t, f)), k, Changed(t, f), now)
      <==> && t.cfg.clickTarget <= 1 && HoldEarned(t.cfg, t.marks, now) && OthersAreHeld(r, k) && Cool(t, now)
           && ModeOpen(t, f)
  {
    hide HoldEarned, Changed, CooldownUs;
    var t := r.triggers[k];
    StoreIsSilent(t, f);
    OthersOfPut(r, k, Store(t, f));
    hide Store, OthersHeld;
  }

  lemma OthersOfPut(r: Rule, k: nat, t: Trigger)
    requires k < |r.triggers|
    ensures OthersAreHeld(Put(r, k, t), k) <==> OthersAreHeld(r, k)
  {
    var s := Put(r, k, t);
    assert forall i :: 0 <= i < |r.triggers| && i != k ==> s.triggers[i] == r.triggers[i];
  }

  lemma ReleaseOfOffer(r: Rule, k: nat, now: int)
    requires k < |r.triggers| && 0 <= r.triggers[k].lastTriggered
    ensures var t := r.triggers[k];
      ReleaseFires(r, k, now)
      <==> && t.cfg.clickTarget > 1 && t.wasPressed && NextClick(t.cfg, t.marks, now) >= t.cfg.clickTarget
           && OthersAreHeld(r, k) && Cool(t, now)
  {
    hide NextClick, OthersHeld, CooldownUs;
  }

  lemma OfferIsExact(r: Rule, k: nat, f: Frame, now: int)
    requires k < |r.triggers| && Exact(r.triggers[k], now) && 0 < now && 0 <= r.triggers[k].lastTriggered
    ensures var t, u := r.triggers[k], Offer(r, k, f, now).0.triggers[k];
      Exact(u, now) && FiredIn(u.marks) == FiredIn(t.marks) + (if OfferFires(r, k, f, now) then 1 else 0)
  {
    hide Exact, FiredIn, Press, Release, Evaluate, IsRelease, Changed, Store, Rearm, Confirm, Confirms, Addressed;
    hide IsReset, PressFires, ReleaseFires, HoldEarned, NextClick, OthersAreHeld, Cool, ModeOpen;
    var t := r.triggers[k];
    RearmIsExact(t, now);
    if Addressed(t.cfg, f) && !IsReset(t.cfg, f) {
      var v := Confirm(t, f, now);
      ConfirmIs(t, f, now);
      ConfirmIsExact(t, f, now);
      ConfirmKeepsCondition(t, f, now);
      StoreIsExact(v, f, now);
      PressIsExact(Put(r, k, Store(v, f)), k, Changed(v, f), now);
      ReleaseIsExact(Put(r, k, v), k, f, now);
      if v == t {
        PressOfOffer(r, k, f, now);
        assert Put(r, k, t) == r;
        ReleaseOfOffer(r, k, now);
      } else {
        HotAfterConfirmation(r, k, v, Changed(v, f), now);
        StoreKeepsCharge(v, f);
        HotAfterConfirmation(r, k, Store(v, f), Changed(v, f), now);
      }
    }
  }

  lemma StoreKeepsCharge(t: Trigger, f: Frame)
    ensures Store(t, f).lastTriggered == t.lastTriggered
  {
  }

  // ---------------------------------------------------------------- the loop over a rule

  /** The first pass has settled whether the trigger is held. */
  predicate Settled(t: Trigger, f: Frame) {
    Addressed(t.cfg, f) ==> if Evaluate(t, f) then t.isHeld else IsRelease(t.cfg, f) ==> !t.isHeld
  }

  lemma ObservedIsSettled(t: Trigger, f: Frame)
    ensures Settled(Observe(t, f), f)
  {
    hide Matches;
  }

  lemma PressLeavesHeld(r: Rule, k: nat, changed: bool, now: int)
    requires k < |r.triggers|
    ensures Press(r, k, changed, now).0.triggers[k].isHeld
  {
    hide CooldownUs, AllHeld, Hold, ModeGate, Charge, Share;
    var t := Note(r.triggers[k].(isHeld := true, wasPressed := true), Seen(now));
    var h := Hold(t, now).0;
    NothingLetsGo(t, changed, now);
    NothingLetsGo(h, changed, now);
    var g := ModeGate(h, changed).0;
    NothingLetsGo(g, changed, now);
    NothingLetsGo(Charge(g, now), changed, now);
  }

  lemma NothingLetsGo(t: Trigger, changed: bool, now: int)
    ensures Hold(t, now).0.isHeld == t.isHeld && ModeGate(t, changed).0.isHeld == t.isHeld
    ensures Charge(t, now).isHeld == t.isHeld && Share(t, now).isHeld == t.isHeld
  {
  }

  lemma ReleaseLeavesFree(r: Rule, k: nat, f: Frame, now: int)
    requires k < |r.triggers|
    ensures !Release(r, k, f, now).triggers[k].isHeld
  {
    hide CooldownUs, OthersHeld;
  }

  lemma OfferKeepsHeld(r: Rule, k: nat, f: Frame, now: int)
    requires k < |r.triggers| && Settled(r.triggers[k], f)
    ensures Offer(r, k, f, now).0.triggers[k].isHeld == r.triggers[k].isHeld
  {
    hide Press, Release, Evaluate, IsRelease, Changed, Store, Rearm, Confirm, Matches, Addressed, IsReset;
    var t := r.triggers[k];
    var v := Confirm(t, f, now);
    ConfirmKeepsCondition(t, f, now);
    ConfirmKeepsHeld(t, f, now);
    StoreIsSilent(v, f);
    PressLeavesHeld(Put(r, k, Store(v, f)), k, Changed(v, f), now);
    ReleaseLeavesFree(Put(r, k, v), k, f, now);
  }

  lemma ConfirmKeepsHeld(t: Trigger, f: Frame, now: int)
    ensures Confirm(t, f, now).isHeld == t.isHeld && Rearm(t, now).isHeld == t.isHeld
  {
  }

  lemma {:induction false} HeldUntilTurn(r: Rule, i: nat, k: nat, f: Frame, now: int)
    requires i <= k < |r.triggers| && forall j :: i <= j < |r.triggers| ==> Settled(r.triggers[j], f)
    ensures var q := UpTo(r, i, k, f, now);
      q.Some? ==>
        && |q.value.triggers| == |r.triggers| && Combo(q.value) == Combo(r)
        && forall j :: 0 <= j < |r.triggers| ==> q.value.triggers[j].isHeld == r.triggers[j].isHeld
    decreases k - i
  {
    hide Offer, Settled;
    if i < k {
      var (s, done) := Offer(r, i, f, now);
      OfferTouches(r, i, f, now, k);
      if !done {
        forall j | 0 <= j < |r.triggers|
          ensures s.triggers[j].isHeld == r.triggers[j].isHeld
          ensures j != i ==> s.triggers[j] == r.triggers[j]
        {
          if j == i {
            OfferKeepsHeld(r, i, f, now);
          } else {
            OfferTouches(r, i, f, now, j);
          }
        }
        HeldUntilTurn(s, i + 1, k, f, now);
      }
    }
  }

  /** Trigger `k` has earned an execution with this frame, and cooldown, mode and combination let it
      through. */
  predicate Executes(r: Rule, k: nat, f: Frame, at: int)
    requires k < |r.triggers|
  {
    var t := r.triggers[k];
    && Addressed(t.cfg, f) && !IsReset(t.cfg, f)
    // earned: a hold that has lasted, or enough clicks
    && (if t.cfg.clickTarget <= 1 then Evaluate(t, f) && HoldEarned(t.cfg, t.marks, at)
        else !Evaluate(t, f) && IsRelease(t.cfg, f) && t.wasPressed
             && NextClick(t.cfg, t.marks, at) >= t.cfg.clickTarget)
    // the exceptions: cooldown, which a confirmation starts anew, combination and mode
    && !Confirms(t, f)
    && (LastCharged(t.marks) > 0 ==>
          at - LastCharged(t.marks) >= 1_000 * (if t.cfg.cooldownMs > 0 then t.cfg.cooldownMs else 50))
    && (r.combineAll && 2 <= |r.triggers| ==>
          forall j :: 0 <= j < |r.triggers| && j != k ==> ObserveAll(r, f).triggers[j].isHeld)
    && (t.cfg.clickTarget <= 1 ==> ModeOpen(t, f))
  }

  lemma ObserveIsExact(t: Trigger, f: Frame, now: int)
    requires Exact(t, now)
    ensures Exact(Observe(t, f), now) && Observe(t, f).marks == t.marks
  {
    hide Evaluate, IsRelease, Addressed;
    LooseIsExact(t, Observe(t, f), now);
  }

  /** At its turn the trigger is as the first pass left it, and so are the others' holds. */
  lemma TurnFires(r: Rule, q: Rule, k: nat, f: Frame, at: int)
    requires k < |r.triggers| == |q.triggers| && q.triggers[k] == Observe(r.triggers[k], f) && Combo(q) == Combo(r)
    requires forall j :: 0 <= j < |r.triggers| ==> q.triggers[j].isHeld == ObserveAll(r, f).triggers[j].isHeld
    requires r.triggers[k].lastTriggered == LastCharged(r.triggers[k].marks)
    ensures OfferFires(q, k, f, at) <==> Executes(r, k, f, at)
  {
    var t := r.triggers[k];
    ObservedIsSame(t, f);
    assert OthersHeld(q, k) <==>
      forall j :: 0 <= j < |r.triggers| && j != k ==> ObserveAll(r, f).triggers[j].isHeld;
    ObservedMode(t, f);
    hide ObserveAll, OthersHeld, Confirms, IsReset, IsRelease, NextClick, HoldEarned, LastCharged, ModeOpen;
  }

  lemma ObservedMode(t: Trigger, f: Frame)
    ensures var o := Observe(t, f);
      && (ModeOpen(o, f) <==> ModeOpen(t, f)) && o.lastTriggered == t.lastTriggered
      && (Addressed(t.cfg, f) && !Evaluate(t, f) ==> o.wasPressed == t.wasPressed)
  {
    hide Evaluate, IsRelease, Addressed;
  }

  lemma RxIsExact(r: Rule, k: nat, f: Frame, at: int)
    requires k < |r.triggers| && r.enabled && 0 < at
    requires Exact(r.triggers[k], at) && 0 <= r.triggers[k].lastTriggered == LastCharged(r.triggers[k].marks)
    ensures var t, u := r.triggers[k], RxRule(r, f, at).triggers[k];
      && Exact(u, at)
      && FiredIn(u.marks) == FiredIn(t.marks) + (if Offered(r, k, f, at) && Executes(r, k, f, at) then 1 else 0)
  {
    var t, all := r.triggers[k], ObserveAll(r, f);
    var o := Observe(t, f);
    assert all.triggers[k] == o && Combo(all) == Combo(r) && |all.triggers| == |r.triggers|;
    forall j | 0 <= j < |all.triggers|
      ensures Settled(all.triggers[j], f)
    {
      ObservedIsSettled(r.triggers[j], f);
    }
    hide Exact, FiredIn, Observe, ObserveAll, UpTo, OfferFrom, Offer, Share, Settled, Executes, OfferFires, LastCharged;
    ObserveIsExact(t, f, at);
    ObservedCharge(t, f);
    BeforeItsTurn(all, 0, k, f, at);
    HeldUntilTurn(all, 0, k, f, at);
    match UpTo(all, 0, k, f, at)
    case None => ShareIsExact(o, at);
    case Some(q) =>
      TurnFires(r, q, k, f, at);
      OfferIsExact(q, k, f, at);
      TurnEnds(q, k, f, at);
  }

  lemma ObservedCharge(t: Trigger, f: Frame)
    ensures Observe(t, f).lastTriggered == t.lastTriggered
  {
    hide Evaluate, IsRelease, Addressed;
  }

  /** What other triggers do after its turn executes nothing for it. */
  lemma TurnEnds(r: Rule, k: nat, f: Frame, now: int)
    requires k < |r.triggers| && Exact(Offer(r, k, f, now).0.triggers[k], now)
    ensures var v, u := Offer(r, k, f, now).0.triggers[k], OfferFrom(r, k, f, now).triggers[k];
      Exact(u, now) && FiredIn(u.marks) == FiredIn(v.marks)
  {
    hide Exact, FiredIn, Offer, Share;
    var (s, done) := Offer(r, k, f, now);
    ShareIsExact(s.triggers[k], now);
    if !done {
      AfterItsTurn(s, k + 1, k, f, now);
    }
  }

  // ---------------------------------------------------------------- whole runs

  ghost predicate RuleExact(r: Rule, now: int) {
    forall k :: 0 <= k < |r.triggers| ==> Exact(r.triggers[k], now)
  }

  lemma StepIsExact(r: Rule, since: int, i: Input)
    requires RuleExact(r, since) && RuleInv(r, since) && since <= i.at && 0 < i.at
    ensures RuleExact(StepRule(r, i), i.at)
  {
    hide Exact, Inv, RxRule, TickRule, Expire, Executes, Offered, FiredIn;
    var s := StepRule(r, i);
    forall k | 0 <= k < |r.triggers|
      ensures Exact(s.triggers[k], i.at)
    {
      LaterIsExact(r.triggers[k], since, i.at);
      ChargedIsKnown(r.triggers[k], since);
      if !i.off && r.enabled {
        match i
        case Rx(f, at, _) => RxIsExact(r, k, f, at);
        case Timer(at, _) =>
          ExpireIsExact(r.triggers[k], at);
          TickIs(r, k, at);
      } else {
        StepOff(r, i);
      }
    }
  }

  lemma ChargedIsKnown(t: Trigger, now: int)
    requires Inv(t, now)
    ensures 0 <= t.lastTriggered == LastCharged(t.marks)
  {
    hide Proper;
  }

  lemma TickIs(r: Rule, k: nat, at: int)
    requires r.enabled && k < |r.triggers|
    ensures TickRule(r, at).triggers[k] == Expire(r.triggers[k], at)
  {
    hide Expire;
  }

  lemma StepOff(r: Rule, i: Input)
    requires i.off || !r.enabled
    ensures StepRule(r, i) == r
  {
  }

  lemma {:induction false} RunIsExact(rs: seq<Rule>, since: int, ins: seq<Input>) returns (end: int)
    requires RulesInv(rs, since) && Clocked(since, ins) && forall j :: 0 <= j < |rs| ==> RuleExact(rs[j], since)
    ensures end == if ins == [] then since else ins[|ins| - 1].at
    ensures RulesInv(Run(rs, ins), end) && forall j :: 0 <= j < |rs| ==> RuleExact(Run(rs, ins)[j], end)
    decreases |ins|
  {
    hide RuleInv, RuleExact, StepRule;
    end := since;
    if ins != [] {
      var next := Step(rs, ins[0]);
      forall j | 0 <= j < |rs|
        ensures RuleInv(next[j], ins[0].at) && RuleExact(next[j], ins[0].at)
      {
        StepKeepsInv(rs[j], since, ins[0]);
        StepIsExact(rs[j], since, ins[0]);
      }
      end := RunIsExact(next, ins[0].at, ins[1..]);
    }
  }

  lemma LoadedIsExact(rs: seq<Rule>, j: nat)
    requires Loaded(rs) && j < |rs|
    ensures RuleExact(rs[j], 0)
  {
    forall k | 0 <= k < |rs[j].triggers|
      ensures Exact(rs[j].triggers[k], 0)
    {
      assert rs[j].triggers[k] in rs[j].triggers;
      FreshIsExact(rs[j].triggers[k].cfg, 0);
    }
  }

  /** After every run, the next frame executes a rule for a trigger if and only if it is offered to
      the trigger and the trigger has earned it: by a hold that has lasted long enough, for the first
      time, or by enough clicks within their windows; the only exceptions being the cooldown, the
      mode and the combination. */
  lemma ExecutionsAreExact(rs: seq<Rule>, ins: seq<Input>, j: nat, k: nat, f: Frame, at: int)
    requires Loaded(rs) && Clocked(0, ins) && j < |rs| && k < |Run(rs, ins)[j].triggers| && 0 < at
    requires ins == [] || ins[|ins| - 1].at <= at
    ensures |Run(rs, ins + [Rx(f, at, false)])[j].triggers| == |Run(rs, ins)[j].triggers|
    ensures var r := Run(rs, ins)[j];
      var t, u := r.triggers[k], Run(rs, ins + [Rx(f, at, false)])[j].triggers[k];
      FiredIn(u.marks) == FiredIn(t.marks) + (if Offered(r, k, f, at) && Executes(r, k, f, at) then 1 else 0)
  {
    hide Run, RuleInv, RuleExact, StepRule, Offered, Executes, FiredIn;
    LoadedIsInv(rs);
    forall i | 0 <= i < |rs|
      ensures RuleExact(rs[i], 0)
    {
      LoadedIsExact(rs, i);
    }
    var end := RunIsExact(rs, 0, ins);
    RunLast(rs, ins, Rx(f, at, false));
    NextFrameIsExact(Run(rs, ins)[j], end, k, f, at);
  }

  lemma NextFrameIsExact(r: Rule, since: int, k: nat, f: Frame, at: int)
    requires RuleExact(r, since) && RuleInv(r, since) && since <= at && 0 < at && k < |r.triggers|
    ensures var t, u := r.triggers[k], StepRule(r, Rx(f, at, false)).triggers[k];
      FiredIn(u.marks) == FiredIn(t.marks) + (if Offered(r, k, f, at) && Executes(r, k, f, at) then 1 else 0)
  {
    hide Exact, Inv, RxRule, Executes, FiredIn;
    LaterIsExact(r.triggers[k], since, at);
    ChargedIsKnown(r.triggers[k], since);
    if r.enabled {
      hide Offered;
      RxIsExact(r, k, f, at);
    } else {
      StepOff(r, Rx(f, at, false));
    }
  }
}
