/** What the history of every trigger looks like after any sequence of frames and timer ticks. */
module CanDoLaws {
  import opened Wrappers
  import opened CanDo

  // ---------------------------------------------------------------- reading a history

  function Before(marks: seq<Mark>): seq<Mark>
    requires marks != []
  {
    marks[..|marks| - 1]
  }

  function Last(marks: seq<Mark>): Mark
    requires marks != []
  {
    marks[|marks| - 1]
  }

  /** When the rule was last executed for the trigger; zero when never. */
  function LastFired(marks: seq<Mark>): int
    decreases |marks|
  {
    if marks == [] then 0 else if Last(marks).Fired? then Last(marks).at else LastFired(Before(marks))
  }

  /** What the cooldown and the timeouts run from: an execution, shared or not, or a confirmation. */
  predicate IsCharge(m: Mark) {
    m.Fired? || m.Shared? || m.Confirmed?
  }

  function LastCharged(marks: seq<Mark>): int
    decreases |marks|
  {
    if marks == [] then 0 else if IsCharge(Last(marks)) then Last(marks).at else LastCharged(Before(marks))
  }

  function LastAt(marks: seq<Mark>): int {
    if marks == [] then 0 else Last(marks).at
  }

  predicate IsRearm(m: Mark) {
    m.Released? || m.Reset? || m.Expired?
  }

  function FiredSinceArming(marks: seq<Mark>): nat
    decreases |marks|
  {
    if marks == [] || IsRearm(Last(marks)) then 0
    else FiredSinceArming(Before(marks)) + (if Last(marks).Fired? then 1 else 0)
  }

  function FiredSinceRelease(marks: seq<Mark>): nat
    decreases |marks|
  {
    if marks == [] || Last(marks).Released? then 0
    else FiredSinceRelease(Before(marks)) + (if Last(marks).Fired? then 1 else 0)
  }

  /** When the hold in progress began: the last assertion that no release has followed. */
  function HeldSince(marks: seq<Mark>): Option<int>
    decreases |marks|
  {
    if marks == [] || Last(marks).Released? then None
    else if Last(marks).Asserted? then Some(Last(marks).at)
    else HeldSince(Before(marks))
  }

  function LastClick(marks: seq<Mark>): Option<int>
    decreases |marks|
  {
    if marks == [] then None
    else if Last(marks).Clicked? then Some(Last(marks).at)
    else LastClick(Before(marks))
  }

  /** How many clicks up to now, since the last execution, follow each other within the window. */
  function ClickRun(marks: seq<Mark>, window: nat): nat
    decreases |marks|
  {
    if marks == [] || Last(marks).Fired? then 0
    else if Last(marks).Clicked? then
      var prev := LastClick(Before(marks));
      1 + (if prev.Some? && Last(marks).at - prev.value <= window then ClickRun(Before(marks), window) else 0)
    else ClickRun(Before(marks), window)
  }

  function FiredIn(marks: seq<Mark>): nat
    decreases |marks|
  {
    if marks == [] then 0 else FiredIn(Before(marks)) + (if Last(marks).Fired? then 1 else 0)
  }

  /** What an execution at `at` needs of the history before it. */
  ghost predicate Earned(c: Config, marks: seq<Mark>, at: int) {
    && 0 < at
    && (LastFired(marks) > 0 ==> at - LastFired(marks) >= CooldownUs(c))
    && (c.mode == OneShot || c.clickTarget > 1 ==> FiredSinceArming(marks) == 0)
    && (c.clickTarget > 1 ==> ClickRun(marks, WindowUs(c)) >= c.clickTarget)
    && (c.clickTarget <= 1 && c.forMs > 0 ==>
          && FiredSinceRelease(marks) == 0
          && HeldSince(marks).Some? && at - HeldSince(marks).value >= 1000 * c.forMs)
  }

  /** A latch expires when the timeout has passed since what it runs from. */
  ghost predicate TimedOut(c: Config, marks: seq<Mark>, at: int) {
    c.timeoutResetMs > 0 && at - LastCharged(marks) > 1000 * c.timeoutResetMs
  }

  ghost predicate Proper(c: Config, marks: seq<Mark>)
    decreases |marks|
  {
    marks != [] ==>
      && Proper(c, Before(marks))
      && LastAt(Before(marks)) <= Last(marks).at
      && (Last(marks).Fired? ==> Earned(c, Before(marks), Last(marks).at))
      && (Last(marks).Expired? ==> TimedOut(c, Before(marks), Last(marks).at))
  }

  // ---------------------------------------------------------------- invariants

  /** The fields of a trigger summarise its history. */
  ghost predicate Linked(t: Trigger) {
    var c := t.cfg;
    && 0 <= LastFired(t.marks) <= t.lastTriggered == LastCharged(t.marks)
    && (c.mode == OneShot && c.clickTarget <= 1 && !t.latched ==> FiredSinceArming(t.marks) == 0)
    && (c.clickTarget <= 1 && c.forMs > 0 && !t.holdFired ==> FiredSinceRelease(t.marks) == 0)
    && (t.assertedSince != 0 ==> HeldSince(t.marks) == Some(t.assertedSince))
    && t.clicks <= ClickRun(t.marks, WindowUs(c))
    && (t.clicks > 0 ==> LastClick(t.marks) == Some(t.lastClick) && c.clickTarget > 1)
  }

  ghost predicate Inv(t: Trigger, now: int) {
    t.lastTriggered <= now && LastAt(t.marks) <= now && Proper(t.cfg, t.marks) && Linked(t)
  }

  lemma Snoc(marks: seq<Mark>, m: Mark)
    ensures marks + [m] != [] && Before(marks + [m]) == marks && Last(marks + [m]) == m
  {
  }

  lemma FreshIsInv(c: Config, now: int)
    requires 0 <= now
    ensures Inv(Fresh(c), now)
  {
  }

  // ---------------------------------------------------------------- what each step keeps

  /** Fields that the history says nothing about may change freely. */
  lemma LooseFields(t: Trigger, u: Trigger, now: int)
    requires Inv(t, now)
    requires u == t.(last := u.last, isHeld := u.isHeld, wasPressed := u.wasPressed, pendingVerify := u.pendingVerify)
    ensures Inv(u, now)
  {
    hide Proper, FiredSinceArming, FiredSinceRelease, HeldSince, ClickRun, LastClick, LastFired;
  }

  lemma ForgetClicks(t: Trigger, now: int)
    requires Inv(t, now)
    ensures Inv(t.(clicks := 0), now)
  {
    hide Proper, FiredSinceArming, FiredSinceRelease, HeldSince, ClickRun, LastClick, LastFired;
  }

  lemma ObserveKeepsInv(t: Trigger, f: Frame, now: int)
    requires Inv(t, now)
    ensures Inv(Observe(t, f), now) && Observe(t, f).marks == t.marks && Observe(t, f).cfg == t.cfg
  {
    hide Inv, Evaluate, IsRelease, Addressed;
    LooseFields(t, Observe(t, f), now);
  }

  lemma RearmKeepsInv(t: Trigger, now: int)
    requires Inv(t, now)
    ensures Inv(Rearm(t, now), now) && FiredIn(Rearm(t, now).marks) == FiredIn(t.marks)
  {
    Snoc(t.marks, Reset(now));
  }

  lemma ConfirmKeepsInv(t: Trigger, f: Frame, now: int)
    requires Inv(t, now)
    ensures Inv(Confirm(t, f, now), now)
    ensures FiredIn(Confirm(t, f, now).marks) == FiredIn(t.marks) && Confirm(t, f, now).cfg == t.cfg
  {
    hide Matches;
    Snoc(t.marks, Confirmed(now));
  }

  lemma StoreKeepsInv(t: Trigger, f: Frame, now: int)
    requires Inv(t, now)
    ensures Inv(Store(t, f), now) && Store(t, f).marks == t.marks && Store(t, f).cfg == t.cfg
  {
    hide Inv;
    LooseFields(t, Store(t, f), now);
  }

  lemma LetGoKeepsInv(t: Trigger, now: int)
    requires Inv(t, now)
    ensures Inv(LetGo(t, now), now) && FiredIn(LetGo(t, now).marks) == FiredIn(t.marks)
    ensures FiredSinceArming(LetGo(t, now).marks) == 0
  {
    Snoc(t.marks, Released(now));
  }

  lemma ClickKeepsInv(t: Trigger, now: int)
    requires Inv(t, now) && t.cfg.clickTarget > 1
    ensures Inv(Click(t, now), now) && FiredIn(Click(t, now).marks) == FiredIn(t.marks)
    ensures FiredSinceArming(Click(t, now).marks) == FiredSinceArming(t.marks)
  {
    Snoc(t.marks, Clicked(now));
  }

  lemma AssertKeepsInv(t: Trigger, now: int)
    requires Inv(t, now) && 0 < now
    ensures var h := Note(t.(assertedSince := now), Asserted(now));
      && Inv(h, now) && FiredIn(h.marks) == FiredIn(t.marks)
  {
    Snoc(t.marks, Asserted(now));
  }

  /** The hold timer lets a trigger through once per hold, when the hold has lasted long enough. */
  lemma HoldKeepsInv(t: Trigger, now: int)
    requires Inv(t, now) && 0 < now && t.cfg.clickTarget <= 1
    ensures var (h, ripe) := Hold(t, now);
      && Inv(h, now) && FiredIn(h.marks) == FiredIn(t.marks) && h.cfg == t.cfg
      && (ripe ==> h == t.(holdFired := h.holdFired))
      && (ripe && t.cfg.forMs > 0 ==>
            && FiredSinceRelease(h.marks) == 0 && h.holdFired
            && HeldSince(h.marks).Some? && now - HeldSince(h.marks).value >= 1000 * t.cfg.forMs)
  {
    hide Proper, FiredIn, FiredSinceArming, FiredSinceRelease, HeldSince, ClickRun, LastClick, LastFired;
    if t.cfg.forMs > 0 && t.assertedSince == 0 {
      AssertKeepsInv(t, now);
    }
  }

  lemma ChargeKeepsInv(t: Trigger, now: int)
    requires Inv(t, now) && Earned(t.cfg, t.marks, now) && t.clicks == 0
    requires t.cfg.mode == OneShot && t.cfg.clickTarget <= 1 ==> t.latched
    requires t.cfg.forMs > 0 && t.cfg.clickTarget <= 1 ==> t.holdFired
    ensures Inv(Charge(t, now), now) && FiredIn(Charge(t, now).marks) == FiredIn(t.marks) + 1
  {
    Snoc(t.marks, Fired(now));
  }

  lemma ShareKeepsInv(t: Trigger, now: int)
    requires Inv(t, now)
    ensures Inv(Share(t, now), now) && FiredIn(Share(t, now).marks) == FiredIn(t.marks) && Share(t, now).cfg == t.cfg
  {
    Snoc(t.marks, Shared(now));
  }

  lemma SeenKeepsInv(t: Trigger, now: int)
    requires Inv(t, now)
    ensures var u := Note(t.(isHeld := true, wasPressed := true), Seen(now));
      Inv(u, now) && FiredIn(u.marks) == FiredIn(t.marks)
  {
    Snoc(t.marks, Seen(now));
  }

  lemma ExpireLatchKeepsInv(t: Trigger, now: int)
    requires Inv(t, now)
    ensures Inv(ExpireLatch(t, now), now) && FiredIn(ExpireLatch(t, now).marks) == FiredIn(t.marks)
  {
    Snoc(t.marks, Expired(now));
  }

  lemma ExpireKeepsInv(t: Trigger, now: int)
    requires Inv(t, now)
    ensures Inv(Expire(t, now), now) && FiredIn(Expire(t, now).marks) == FiredIn(t.marks)
    ensures Expire(t, now).cfg == t.cfg
  {
    hide Inv, FiredIn, ExpireLatch;
    ForgetClicks(t, now);
    var u := ExpireClicks(t, now);
    ExpireLatchKeepsInv(u, now);
    LooseFields(ExpireLatch(u, now), Expire(t, now), now);
    assert ExpireLatch(u, now).cfg == u.cfg by { LatchConfig(u, now); }
  }

  lemma LatchConfig(t: Trigger, now: int)
    ensures ExpireLatch(t, now).cfg == t.cfg
  {
  }

  // ---------------------------------------------------------------- rules

  function TotalFired(ts: seq<Trigger>): nat
    decreases |ts|
  {
    if ts == [] then 0 else FiredIn(ts[0].marks) + TotalFired(ts[1..])
  }

  lemma {:induction false} TotalOfUpdate(ts: seq<Trigger>, k: nat, t: Trigger)
    requires k < |ts|
    ensures TotalFired(ts[k := t]) == TotalFired(ts) - FiredIn(ts[k].marks) + FiredIn(t.marks)
    decreases |ts|
  {
    if k == 0 {
      assert ts[k := t][1..] == ts[1..];
    } else {
      assert ts[k := t][1..] == ts[1..][k - 1 := t];
      TotalOfUpdate(ts[1..], k - 1, t);
    }
  }

  lemma {:induction false} TotalOfSame(ts: seq<Trigger>, us: seq<Trigger>)
    requires |ts| == |us| && forall i :: 0 <= i < |ts| ==> FiredIn(us[i].marks) == FiredIn(ts[i].marks)
    ensures TotalFired(us) == TotalFired(ts)
    decreases |ts|
  {
    if ts != [] {
      TotalOfSame(ts[1..], us[1..]);
    }
  }

  ghost predicate RuleInv(r: Rule, now: int) {
    && (forall i :: 0 <= i < |r.triggers| ==> Inv(r.triggers[i], now))
    && r.execCount == TotalFired(r.triggers)
  }

  /** Same triggers, by configuration. */
  ghost predicate SameConfigs(r: Rule, s: Rule) {
    && |s.triggers| == |r.triggers|
    && forall i :: 0 <= i < |r.triggers| ==> s.triggers[i].cfg == r.triggers[i].cfg
  }

  lemma PutKeepsInv(r: Rule, k: nat, t: Trigger, now: int)
    requires RuleInv(r, now) && k < |r.triggers| && Inv(t, now) && t.cfg == r.triggers[k].cfg
    requires FiredIn(t.marks) == FiredIn(r.triggers[k].marks)
    ensures RuleInv(Put(r, k, t), now) && SameConfigs(r, Put(r, k, t))
  {
    hide Inv, FiredIn;
    TotalOfUpdate(r.triggers, k, t);
  }

  /** Replacing a trigger by itself with one more execution counts one more. */
  lemma PutFiredKeepsInv(r: Rule, k: nat, t: Trigger, now: int)
    requires RuleInv(r, now) && k < |r.triggers| && Inv(t, now) && t.cfg == r.triggers[k].cfg
    requires FiredIn(t.marks) == FiredIn(r.triggers[k].marks) + 1
    ensures var s := Put(r, k, t).(execCount := r.execCount + 1); RuleInv(s, now) && SameConfigs(r, s)
  {
    hide Inv, FiredIn;
    TotalOfUpdate(r.triggers, k, t);
  }

  lemma ShareAllKeepsInv(r: Rule, now: int)
    requires RuleInv(r, now)
    ensures RuleInv(ShareAll(r, now), now) && SameConfigs(r, ShareAll(r, now))
  {
    hide Inv, FiredIn, Share;
    var s := ShareAll(r, now);
    forall i | 0 <= i < |r.triggers|
      ensures Inv(s.triggers[i], now)
      ensures FiredIn(s.triggers[i].marks) == FiredIn(r.triggers[i].marks) && s.triggers[i].cfg == r.triggers[i].cfg
    {
      ShareKeepsInv(r.triggers[i], now);
    }
    TotalOfSame(r.triggers, s.triggers);
  }

  /** A trigger that passed the hold timer, the cooldown and its mode has earned its execution. */
  lemma GateEarns(h: Trigger, changed: bool, now: int)
    requires Inv(h, now) && 0 < now && h.cfg.clickTarget <= 1
    requires h.cfg.forMs > 0 ==>
      && FiredSinceRelease(h.marks) == 0 && h.holdFired
      && HeldSince(h.marks).Some? && now - HeldSince(h.marks).value >= 1000 * h.cfg.forMs
    requires h.lastTriggered <= 0 || now - h.lastTriggered >= CooldownUs(h.cfg)
    requires ModeGate(h, changed).1
    ensures var g := ModeGate(h, changed).0;
      && Inv(Charge(g, now), now) && FiredIn(Charge(g, now).marks) == FiredIn(h.marks) + 1 && g.cfg == h.cfg
  {
    hide Proper, FiredIn, FiredSinceArming, FiredSinceRelease, HeldSince, ClickRun, LastClick, LastFired;
    var g := ModeGate(h, changed).0;
    assert g.marks == h.marks && Inv(g, now);
    ChargeKeepsInv(g, now);
  }

  lemma PressKeepsInv(r: Rule, k: nat, changed: bool, now: int)
    requires RuleInv(r, now) && k < |r.triggers| && 0 < now
    ensures RuleInv(Press(r, k, changed, now).0, now) && SameConfigs(r, Press(r, k, changed, now).0)
  {
    hide Inv, FiredIn, Hold, ModeGate, Charge, ShareAll, FiredSinceRelease, HeldSince, TotalFired, AllHeld;
    var t := Note(r.triggers[k].(isHeld := true, wasPressed := true), Seen(now));
    SeenKeepsInv(r.triggers[k], now);
    PutKeepsInv(r, k, t, now);
    if t.cfg.clickTarget <= 1 {
      var (h, ripe) := Hold(t, now);
      HoldKeepsInv(t, now);
      PutKeepsInv(r, k, h, now);
      if ripe && (h.lastTriggered <= 0 || now - h.lastTriggered >= CooldownUs(h.cfg)) && ModeGate(h, changed).1 {
        var g := ModeGate(h, changed).0;
        GateEarns(h, changed, now);
        ChargedConfig(g, now);
        PutFiredKeepsInv(r, k, Charge(g, now), now);
        var fired := Fire(Put(r, k, g), k, now);
        assert fired.triggers == r.triggers[k := Charge(g, now)];
        ShareAllKeepsInv(fired, now);
      }
    }
  }

  lemma ChargedConfig(t: Trigger, now: int)
    ensures Charge(t, now).cfg == t.cfg
  {
  }

  lemma ReleaseKeepsInv(r: Rule, k: nat, f: Frame, now: int)
    requires RuleInv(r, now) && k < |r.triggers| && 0 < now
    ensures RuleInv(Release(r, k, f, now), now) && SameConfigs(r, Release(r, k, f, now))
  {
    hide Inv, FiredIn, LetGo, Click, Charge, Store, TotalFired, OthersHeld, FiredSinceArming;
    var t := LetGo(r.triggers[k], now);
    LetGoKeepsInv(r.triggers[k], now);
    assert t.cfg == r.triggers[k].cfg by { LetGoConfig(r.triggers[k], now); }
    StoreKeepsInv(t, f, now);
    PutKeepsInv(r, k, Store(t, f), now);
    if t.cfg.clickTarget > 1 && t.wasPressed {
      var c := Click(t, now);
      ClickKeepsInv(t, now);
      assert c.cfg == t.cfg by { ClickConfig(t, now); }
      StoreKeepsInv(c, f, now);
      PutKeepsInv(r, k, Store(c, f), now);
      var done := c.(clicks := 0);
      ForgetClicks(c, now);
      StoreKeepsInv(done, f, now);
      PutKeepsInv(r, k, done, now);
      PutKeepsInv(r, k, Store(done, f), now);
      var cooled := done.lastTriggered == 0 || now - done.lastTriggered >= CooldownUs(done.cfg);
      if c.clicks >= c.cfg.clickTarget && cooled {
        assert Earned(done.cfg, done.marks, now) by { ClicksEarn(c, now); }
        ChargeKeepsInv(done, now);
        ChargedConfig(done, now);
        StoreKeepsInv(Charge(done, now), f, now);
        PutFiredKeepsInv(r, k, Store(Charge(done, now), f), now);
      }
    }
  }

  lemma LetGoConfig(t: Trigger, now: int)
    ensures LetGo(t, now).cfg == t.cfg
  {
  }

  lemma ClickConfig(t: Trigger, now: int)
    ensures Click(t, now).cfg == t.cfg
  {
  }

  /** The release has just re-armed the trigger, and its clicks are all in the history. */
  lemma ClicksEarn(c: Trigger, now: int)
    requires Inv(c, now) && 0 < now && c.cfg.clickTarget > 1 && c.clicks >= c.cfg.clickTarget
    requires c.lastTriggered == 0 || now - c.lastTriggered >= CooldownUs(c.cfg)
    requires FiredSinceArming(c.marks) == 0
    ensures Earned(c.cfg, c.marks, now)
  {
    hide Proper;
  }

  lemma OfferKeepsInv(r: Rule, k: nat, f: Frame, now: int)
    requires RuleInv(r, now) && k < |r.triggers| && 0 < now
    ensures RuleInv(Offer(r, k, f, now).0, now) && SameConfigs(r, Offer(r, k, f, now).0)
  {
    hide Inv, FiredIn, Rearm, Confirm, Store, TotalFired, Press, Release;
    hide Evaluate, IsRelease, Changed, Addressed, IsReset;
    var t := r.triggers[k];
    RearmKeepsInv(t, now);
    assert Rearm(t, now).cfg == t.cfg by { RearmConfig(t, now); }
    PutKeepsInv(r, k, Rearm(t, now), now);
    var v := Confirm(t, f, now);
    ConfirmKeepsInv(t, f, now);
    StoreKeepsInv(v, f, now);
    PutKeepsInv(r, k, v, now);
    PutKeepsInv(r, k, Store(v, f), now);
    PressKeepsInv(Put(r, k, Store(v, f)), k, Changed(v, f), now);
    ReleaseKeepsInv(Put(r, k, v), k, f, now);
  }

  lemma RearmConfig(t: Trigger, now: int)
    ensures Rearm(t, now).cfg == t.cfg
  {
  }

  lemma {:induction false} OfferFromKeepsInv(r: Rule, k: nat, f: Frame, now: int)
    requires RuleInv(r, now) && k <= |r.triggers| && 0 < now
    ensures RuleInv(OfferFrom(r, k, f, now), now) && SameConfigs(r, OfferFrom(r, k, f, now))
    decreases |r.triggers| - k
  {
    hide RuleInv, Offer;
    if k < |r.triggers| {
      OfferKeepsInv(r, k, f, now);
      var (s, done) := Offer(r, k, f, now);
      if !done {
        OfferFromKeepsInv(s, k + 1, f, now);
      }
    }
  }

  lemma ObserveAllKeepsInv(r: Rule, f: Frame, now: int)
    requires RuleInv(r, now)
    ensures RuleInv(ObserveAll(r, f), now) && SameConfigs(r, ObserveAll(r, f))
  {
    hide Inv, FiredIn, Observe;
    var s := ObserveAll(r, f);
    forall i | 0 <= i < |r.triggers|
      ensures Inv(s.triggers[i], now)
      ensures s.triggers[i].marks == r.triggers[i].marks && s.triggers[i].cfg == r.triggers[i].cfg
    {
      ObserveKeepsInv(r.triggers[i], f, now);
    }
    TotalOfSame(r.triggers, s.triggers);
  }

  lemma TickKeepsInv(r: Rule, now: int)
    requires RuleInv(r, now)
    ensures RuleInv(TickRule(r, now), now) && SameConfigs(r, TickRule(r, now))
  {
    hide Inv, FiredIn, Expire;
    var s := TickRule(r, now);
    forall i | 0 <= i < |r.triggers|
      ensures Inv(s.triggers[i], now) && FiredIn(s.triggers[i].marks) == FiredIn(r.triggers[i].marks)
      ensures s.triggers[i].cfg == r.triggers[i].cfg
    {
      ExpireKeepsInv(r.triggers[i], now);
    }
    TotalOfSame(r.triggers, s.triggers);
  }

  lemma LaterKeepsInv(r: Rule, a: int, b: int)
    requires RuleInv(r, a) && a <= b
    ensures RuleInv(r, b)
  {
    hide Proper, Linked;
  }

  lemma StepKeepsInv(r: Rule, since: int, i: Input)
    requires RuleInv(r, since) && since <= i.at && 0 < i.at
    ensures RuleInv(StepRule(r, i), i.at) && SameConfigs(r, StepRule(r, i))
  {
    hide RuleInv, OfferFrom, ObserveAll, TickRule;
    LaterKeepsInv(r, since, i.at);
    if !i.off {
      match i
      case Rx(f, at, _) =>
        ObserveAllKeepsInv(r, f, at);
        OfferFromKeepsInv(ObserveAll(r, f), 0, f, at);
      case Timer(at, _) => TickKeepsInv(r, at);
    }
  }

  // ---------------------------------------------------------------- whole runs

  ghost predicate RulesInv(rs: seq<Rule>, now: int) {
    forall j :: 0 <= j < |rs| ==> RuleInv(rs[j], now)
  }

  lemma {:induction false} RunKeepsInv(rs: seq<Rule>, since: int, ins: seq<Input>) returns (end: int)
    requires RulesInv(rs, since) && Clocked(since, ins)
    ensures RulesInv(Run(rs, ins), end) && end == if ins == [] then since else ins[|ins| - 1].at
    ensures forall j :: 0 <= j < |rs| ==> SameConfigs(rs[j], Run(rs, ins)[j])
    decreases |ins|
  {
    hide RuleInv, StepRule;
    end := since;
    if ins != [] {
      var next := Step(rs, ins[0]);
      forall j | 0 <= j < |rs|
        ensures RuleInv(next[j], ins[0].at) && SameConfigs(rs[j], next[j])
      {
        StepKeepsInv(rs[j], since, ins[0]);
      }
      end := RunKeepsInv(next, ins[0].at, ins[1..]);
    }
  }

  lemma {:induction false} LoadedTotal(ts: seq<Trigger>)
    requires forall t :: t in ts ==> t == Fresh(t.cfg)
    ensures TotalFired(ts) == 0
    decreases |ts|
  {
    if ts != [] {
      assert ts[0] == Fresh(ts[0].cfg);
      LoadedTotal(ts[1..]);
    }
  }

  lemma LoadedIsInv(rs: seq<Rule>)
    requires Loaded(rs)
    ensures RulesInv(rs, 0)
  {
    forall j | 0 <= j < |rs|
      ensures RuleInv(rs[j], 0)
    {
      LoadedTotal(rs[j].triggers);
      forall i | 0 <= i < |rs[j].triggers|
        ensures Inv(rs[j].triggers[i], 0)
      {
        var t := rs[j].triggers[i];
        assert t in rs[j].triggers && t == Fresh(t.cfg);
        FreshIsInv(t.cfg, 0);
      }
    }
  }
}
