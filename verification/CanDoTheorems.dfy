/** What the histories of module CanDoLaws mean for a user of the trigger engine. */
module CanDoTheorems {
  import opened CanDo
  import opened CanDoLaws

  // ---------------------------------------------------------------- reading proper histories

  lemma {:induction false} FiredIsEarned(c: Config, marks: seq<Mark>, b: nat)
    requires Proper(c, marks) && b < |marks| && marks[b].Fired?
    ensures Proper(c, marks[..b]) && Earned(c, marks[..b], marks[b].at)
    decreases |marks|
  {
    hide Earned;
    if b == |marks| - 1 {
      assert marks[..b] == Before(marks);
    } else {
      FiredIsEarned(c, Before(marks), b);
      assert Before(marks)[..b] == marks[..b];
    }
  }

  /** Executions only get later. */
  lemma {:induction false} LastFiredIsLatest(c: Config, marks: seq<Mark>, a: nat)
    requires Proper(c, marks) && a < |marks| && marks[a].Fired?
    ensures 0 < marks[a].at <= LastFired(marks)
    decreases |marks|
  {
    FiredIsEarned(c, marks, a);
    if a < |marks| - 1 {
      LastFiredIsLatest(c, Before(marks), a);
    }
  }

  lemma {:induction false} RearmedBetween(marks: seq<Mark>, a: nat) returns (m: nat)
    requires a < |marks| && marks[a].Fired? && FiredSinceArming(marks) == 0
    ensures a < m < |marks| && IsRearm(marks[m])
    decreases |marks|
  {
    m := |marks| - 1;
    if !IsRearm(marks[m]) {
      m := RearmedBetween(Before(marks), a);
    }
  }

  lemma {:induction false} ReleasedBetween(marks: seq<Mark>, a: nat) returns (m: nat)
    requires a < |marks| && marks[a].Fired? && FiredSinceRelease(marks) == 0
    ensures a < m < |marks| && marks[m].Released?
    decreases |marks|
  {
    m := |marks| - 1;
    if !marks[m].Released? {
      m := ReleasedBetween(Before(marks), a);
    }
  }

  lemma {:induction false} HeldFrom(marks: seq<Mark>) returns (a: nat)
    requires HeldSince(marks).Some?
    ensures a < |marks| && marks[a] == Asserted(HeldSince(marks).value)
    ensures forall i :: a < i < |marks| ==> !marks[i].Released?
    decreases |marks|
  {
    a := |marks| - 1;
    if !marks[a].Asserted? {
      a := HeldFrom(Before(marks));
    }
  }

  lemma RunIsProper(rs: seq<Rule>, ins: seq<Input>, j: nat, k: nat)
    requires Loaded(rs) && Clocked(0, ins) && j < |rs| && k < |rs[j].triggers|
    ensures |Run(rs, ins)[j].triggers| == |rs[j].triggers|
    ensures Run(rs, ins)[j].triggers[k].cfg == rs[j].triggers[k].cfg
    ensures Proper(rs[j].triggers[k].cfg, Run(rs, ins)[j].triggers[k].marks)
  {
    hide Run, Proper, Linked;
    LoadedIsInv(rs);
    var end := RunKeepsInv(rs, 0, ins);
    assert RuleInv(Run(rs, ins)[j], end) && SameConfigs(rs[j], Run(rs, ins)[j]);
  }

  // ---------------------------------------------------------------- theorems

  /** Two executions for the same trigger are at least its cooldown apart. */
  lemma CooldownHolds(rs: seq<Rule>, ins: seq<Input>, j: nat, k: nat, a: nat, b: nat)
    requires Loaded(rs) && Clocked(0, ins) && j < |rs| && k < |rs[j].triggers|
    requires |Run(rs, ins)[j].triggers| == |rs[j].triggers|
    requires a < b < |Run(rs, ins)[j].triggers[k].marks|
    requires Run(rs, ins)[j].triggers[k].marks[a].Fired? && Run(rs, ins)[j].triggers[k].marks[b].Fired?
    ensures var c, marks := rs[j].triggers[k].cfg, Run(rs, ins)[j].triggers[k].marks;
      marks[b].at - marks[a].at >= 1_000 * (if c.cooldownMs > 0 then c.cooldownMs else 50)
  {
    hide Run;
    RunIsProper(rs, ins, j, k);
    var c, marks := rs[j].triggers[k].cfg, Run(rs, ins)[j].triggers[k].marks;
    FiredIsEarned(c, marks, b);
    LastFiredIsLatest(c, marks[..b], a);
  }

  /** A one-shot trigger, and one that counts clicks, executes at most once between re-arms. */
  lemma FiresOncePerArming(rs: seq<Rule>, ins: seq<Input>, j: nat, k: nat, a: nat, b: nat) returns (m: nat)
    requires Loaded(rs) && Clocked(0, ins) && j < |rs| && k < |rs[j].triggers|
    requires rs[j].triggers[k].cfg.mode == OneShot || rs[j].triggers[k].cfg.clickTarget > 1
    requires |Run(rs, ins)[j].triggers| == |rs[j].triggers|
    requires a < b < |Run(rs, ins)[j].triggers[k].marks|
    requires Run(rs, ins)[j].triggers[k].marks[a].Fired? && Run(rs, ins)[j].triggers[k].marks[b].Fired?
    ensures a < m < b && IsRearm(Run(rs, ins)[j].triggers[k].marks[m])
  {
    hide Run;
    RunIsProper(rs, ins, j, k);
    var marks := Run(rs, ins)[j].triggers[k].marks;
    FiredIsEarned(rs[j].triggers[k].cfg, marks, b);
    m := RearmedBetween(marks[..b], a);
  }

  /** A trigger with a hold time executes only when the condition was asserted that long before and
      not released since, and only once before it is released. */
  lemma HoldsAreHonoured(rs: seq<Rule>, ins: seq<Input>, j: nat, k: nat, b: nat) returns (since: nat)
    requires Loaded(rs) && Clocked(0, ins) && j < |rs| && k < |rs[j].triggers|
    requires rs[j].triggers[k].cfg.forMs > 0 && rs[j].triggers[k].cfg.clickTarget <= 1
    requires |Run(rs, ins)[j].triggers| == |rs[j].triggers|
    requires b < |Run(rs, ins)[j].triggers[k].marks| && Run(rs, ins)[j].triggers[k].marks[b].Fired?
    ensures var marks := Run(rs, ins)[j].triggers[k].marks;
      && since < b && marks[since].Asserted?
      && marks[b].at - marks[since].at >= 1000 * rs[j].triggers[k].cfg.forMs
      && (forall i :: since < i < b ==> !marks[i].Released?)
      && (forall a :: 0 <= a < b && marks[a].Fired? ==> exists m :: a < m < b && marks[m].Released?)
  {
    hide *;
    RunIsProper(rs, ins, j, k);
    since := EarnedByHold(rs[j].triggers[k].cfg, Run(rs, ins)[j].triggers[k].marks, b);
  }

  /** The same of one proper history. */
  lemma EarnedByHold(c: Config, marks: seq<Mark>, b: nat) returns (since: nat)
    requires Proper(c, marks) && c.forMs > 0 && c.clickTarget <= 1 && b < |marks| && marks[b].Fired?
    ensures since < b && marks[since].Asserted? && marks[b].at - marks[since].at >= 1000 * c.forMs
    ensures forall i :: since < i < b ==> !marks[i].Released?
    ensures forall a :: 0 <= a < b && marks[a].Fired? ==> exists m :: a < m < b && marks[m].Released?
  {
    FiredIsEarned(c, marks, b);
    hide Proper, FiredSinceRelease, HeldSince;
    since := HeldFrom(marks[..b]);
    forall a | 0 <= a < b && marks[a].Fired?
      ensures exists m :: a < m < b && marks[m].Released?
    {
      var m := ReleasedBetween(marks[..b], a);
      assert marks[m].Released?;
    }
  }

  /** A trigger for several clicks executes only after that many, each within the window of the
      one before, none of which an earlier execution has used. */
  lemma ClicksAreCounted(rs: seq<Rule>, ins: seq<Input>, j: nat, k: nat, b: nat)
    requires Loaded(rs) && Clocked(0, ins) && j < |rs| && k < |rs[j].triggers|
    requires rs[j].triggers[k].cfg.clickTarget > 1
    requires |Run(rs, ins)[j].triggers| == |rs[j].triggers|
    requires b < |Run(rs, ins)[j].triggers[k].marks| && Run(rs, ins)[j].triggers[k].marks[b].Fired?
    ensures var c := rs[j].triggers[k].cfg;
      ClickRun(Run(rs, ins)[j].triggers[k].marks[..b], 1_000 * (if c.clickWindowMs > 0 then c.clickWindowMs else 450))
      >= c.clickTarget
  {
    hide Run;
    RunIsProper(rs, ins, j, k);
    FiredIsEarned(rs[j].triggers[k].cfg, Run(rs, ins)[j].triggers[k].marks, b);
  }

  /** Every execution of a rule is charged to exactly one of its triggers. */
  lemma ExecutionsAreAttributed(rs: seq<Rule>, ins: seq<Input>, j: nat)
    requires Loaded(rs) && Clocked(0, ins) && j < |rs|
    ensures Run(rs, ins)[j].execCount == TotalFired(Run(rs, ins)[j].triggers)
  {
    hide Run, Inv;
    LoadedIsInv(rs);
    var end := RunKeepsInv(rs, 0, ins);
    assert RuleInv(Run(rs, ins)[j], end);
  }

  // ---------------------------------------------------------------- identifiers that cannot work

  predicate OwnReset(c: Config) {
    c.resetId > 0 && c.resetId == c.canId
  }

  predicate OwnVerify(c: Config) {
    c.verifyId > 0 && c.verifyId == c.canId
  }

  /** A reset identifier that is the trigger's own swallows every frame meant for it; any other
      never re-arms anything. A confirmation can only come under the trigger's own identifier. */
  ghost predicate IdInv(t: Trigger) {
    && (OwnReset(t.cfg) ==> forall m :: m in t.marks ==> !m.Fired?)
    && (!OwnReset(t.cfg) ==> forall m :: m in t.marks ==> !m.Reset?)
    && (!OwnVerify(t.cfg) ==> forall m :: m in t.marks ==> !m.Confirmed?)
    && (t.cfg.mode == PollVerify && !OwnVerify(t.cfg) ==> !t.latched)
  }

  ghost predicate IdsInv(r: Rule) {
    forall i :: 0 <= i < |r.triggers| ==> IdInv(r.triggers[i])
  }

  lemma NoteIsHarmless(t: Trigger, m: Mark)
    requires IdInv(t) && !m.Reset? && (m.Fired? ==> !OwnReset(t.cfg)) && (m.Confirmed? ==> OwnVerify(t.cfg))
    ensures IdInv(Note(t, m))
  {
  }

  lemma PutKeepsIds(r: Rule, k: nat, t: Trigger)
    requires IdsInv(r) && k < |r.triggers| && IdInv(t) && t.cfg == r.triggers[k].cfg
    ensures IdsInv(Put(r, k, t)) && SameConfigs(r, Put(r, k, t))
  {
    hide IdInv;
  }

  lemma ShareKeepsIds(t: Trigger, now: int)
    requires IdInv(t)
    ensures IdInv(Share(t, now)) && Share(t, now).cfg == t.cfg
  {
    NoteIsHarmless(t.(lastTriggered := now, latched := t.latched || t.cfg.mode == OneShot), Shared(now));
  }

  lemma ShareAllKeepsIds(r: Rule, now: int)
    requires IdsInv(r)
    ensures IdsInv(ShareAll(r, now)) && SameConfigs(r, ShareAll(r, now))
  {
    hide IdInv, Share;
    forall i | 0 <= i < |r.triggers|
      ensures IdInv(ShareAll(r, now).triggers[i]) && ShareAll(r, now).triggers[i].cfg == r.triggers[i].cfg
    {
      ShareKeepsIds(r.triggers[i], now);
    }
  }

  lemma HoldKeepsIds(t: Trigger, now: int)
    requires IdInv(t)
    ensures IdInv(Hold(t, now).0) && Hold(t, now).0.cfg == t.cfg
  {
    NoteIsHarmless(t.(assertedSince := now), Asserted(now));
  }

  lemma GateKeepsIds(t: Trigger, changed: bool, now: int)
    requires IdInv(t) && !OwnReset(t.cfg)
    ensures var g := ModeGate(t, changed).0; IdInv(Charge(g, now)) && Charge(g, now).cfg == t.cfg
  {
    NoteIsHarmless(ModeGate(t, changed).0.(lastTriggered := now), Fired(now));
  }

  lemma PressKeepsIds(r: Rule, k: nat, changed: bool, now: int)
    requires IdsInv(r) && k < |r.triggers| && !OwnReset(r.triggers[k].cfg)
    ensures IdsInv(Press(r, k, changed, now).0) && SameConfigs(r, Press(r, k, changed, now).0)
  {
    hide AllHeld, OwnReset, IdInv, Hold, ModeGate, Charge, ShareAll;
    var t := Note(r.triggers[k].(isHeld := true, wasPressed := true), Seen(now));
    assert IdInv(t) by {
      Unmarked(r.triggers[k], r.triggers[k].(isHeld := true, wasPressed := true));
      NoteIsHarmless(r.triggers[k].(isHeld := true, wasPressed := true), Seen(now));
    }
    PutKeepsIds(r, k, t);
    var h := Hold(t, now).0;
    HoldKeepsIds(t, now);
    PutKeepsIds(r, k, h);
    var g := ModeGate(h, changed).0;
    GateKeepsIds(h, changed, now);
    PutKeepsIds(r, k, Charge(g, now));
    var fired := Put(r, k, Charge(g, now)).(execCount := r.execCount + 1);
    assert fired.triggers == Fire(Put(r, k, g), k, now).triggers;
    ShareAllKeepsIds(fired, now);
    assert fired == Fire(Put(r, k, g), k, now);
  }

  lemma Unmarked(t: Trigger, u: Trigger)
    requires IdInv(t) && u.cfg == t.cfg && u.marks == t.marks && (u.latched ==> t.latched)
    ensures IdInv(u)
  {
  }

  lemma ReleaseKeepsIds(r: Rule, k: nat, f: Frame, now: int)
    requires IdsInv(r) && k < |r.triggers| && !OwnReset(r.triggers[k].cfg)
    ensures IdsInv(Release(r, k, f, now)) && SameConfigs(r, Release(r, k, f, now))
  {
    hide OthersHeld, OwnReset, IdInv;
    var t0 := r.triggers[k];
    var t1 := t0.(latched := false, assertedSince := 0, holdFired := false, isHeld := false);
    Unmarked(t0, t1);
    NoteIsHarmless(t1, Released(now));
    var t := LetGo(t0, now);
    Unmarked(t, Store(t, f));
    var c := Click(t, now);
    var c0 := t.(wasPressed := c.wasPressed, clicks := c.clicks, lastClick := c.lastClick);
    Unmarked(t, c0);
    NoteIsHarmless(c0, Clicked(now));
    var done := c.(clicks := 0);
    Unmarked(c, done);
    Unmarked(c, Store(c, f));
    Unmarked(done, Store(done, f));
    NoteIsHarmless(done.(lastTriggered := now), Fired(now)) by { Unmarked(done, done.(lastTriggered := now)); }
    Unmarked(Charge(done, now), Store(Charge(done, now), f));
  }

  /** Only the trigger's own identifier gets a frame this far: a reset comes under that identifier
      or not at all, and so does a confirmation. */
  lemma OfferKeepsIds(r: Rule, k: nat, f: Frame, now: int)
    requires IdsInv(r) && k < |r.triggers|
    ensures IdsInv(Offer(r, k, f, now).0) && SameConfigs(r, Offer(r, k, f, now).0)
  {
    hide IdInv, Press, Release, Evaluate, IsRelease, Changed;
    var t := r.triggers[k];
    if Addressed(t.cfg, f) {
      if IsReset(t.cfg, f) {
        assert IdInv(Rearm(t, now)) by { RearmKeepsIds(t, f, now); }
      } else {
        var v := Confirm(t, f, now);
        assert IdInv(v) by { ConfirmKeepsIds(t, f, now); }
        Unmarked(v, Store(v, f));
        PutKeepsIds(r, k, v);
        PutKeepsIds(r, k, Store(v, f));
        PressKeepsIds(Put(r, k, Store(v, f)), k, Changed(v, f), now);
        ReleaseKeepsIds(Put(r, k, v), k, f, now);
      }
    }
  }

  lemma RearmKeepsIds(t: Trigger, f: Frame, now: int)
    requires IdInv(t) && Addressed(t.cfg, f) && IsReset(t.cfg, f)
    ensures IdInv(Rearm(t, now))
  {
  }

  lemma ConfirmKeepsIds(t: Trigger, f: Frame, now: int)
    requires IdInv(t) && Addressed(t.cfg, f)
    ensures IdInv(Confirm(t, f, now)) && Confirm(t, f, now).cfg == t.cfg
  {
    hide Matches, IdInv;
    if Confirm(t, f, now) != t {
      ConfirmedIsHarmless(t, now);
    }
  }

  lemma ConfirmedIsHarmless(t: Trigger, now: int)
    requires IdInv(t) && OwnVerify(t.cfg)
    ensures IdInv(Note(t.(pendingVerify := false, latched := true, lastTriggered := now), Confirmed(now)))
  {
  }

  lemma {:induction false} OfferFromKeepsIds(r: Rule, k: nat, f: Frame, now: int)
    requires IdsInv(r) && k <= |r.triggers|
    ensures IdsInv(OfferFrom(r, k, f, now)) && SameConfigs(r, OfferFrom(r, k, f, now))
    decreases |r.triggers| - k
  {
    hide IdsInv, Offer;
    if k < |r.triggers| {
      OfferKeepsIds(r, k, f, now);
      var (s, done) := Offer(r, k, f, now);
      if !done {
        OfferFromKeepsIds(s, k + 1, f, now);
      }
    }
  }

  lemma ExpireKeepsIds(t: Trigger, now: int)
    requires IdInv(t)
    ensures IdInv(Expire(t, now)) && Expire(t, now).cfg == t.cfg
  {
    hide IdInv;
    var u := ExpireClicks(t, now);
    Unmarked(t, u);
    Unmarked(u, u.(latched := false));
    NoteIsHarmless(u.(latched := false), Expired(now));
    var v := ExpireLatch(u, now);
    Unmarked(v, ExpireVerify(v, now));
  }

  lemma StepKeepsIds(r: Rule, i: Input)
    requires IdsInv(r)
    ensures IdsInv(StepRule(r, i)) && SameConfigs(r, StepRule(r, i))
  {
    hide OfferFrom, IdInv, Observe, Expire;
    match i
    case Rx(f, at, _) =>
      var o := ObserveAll(r, f);
      forall n | 0 <= n < |r.triggers|
        ensures IdInv(o.triggers[n]) && o.triggers[n].cfg == r.triggers[n].cfg
      {
        ObservedIds(r.triggers[n], f);
      }
      OfferFromKeepsIds(o, 0, f, at);
    case Timer(at, _) =>
      forall n | 0 <= n < |r.triggers|
        ensures IdInv(Expire(r.triggers[n], at)) && Expire(r.triggers[n], at).cfg == r.triggers[n].cfg
      {
        ExpireKeepsIds(r.triggers[n], at);
      }
  }

  lemma ObservedIds(t: Trigger, f: Frame)
    requires IdInv(t)
    ensures IdInv(Observe(t, f)) && Observe(t, f).cfg == t.cfg
  {
    hide IdInv, Evaluate, IsRelease, Addressed;
    Unmarked(t, Observe(t, f));
  }

  lemma {:induction false} RunKeepsIds(rs: seq<Rule>, ins: seq<Input>)
    requires forall j :: 0 <= j < |rs| ==> IdsInv(rs[j])
    ensures forall j :: 0 <= j < |rs| ==> IdsInv(Run(rs, ins)[j]) && SameConfigs(rs[j], Run(rs, ins)[j])
    decreases |ins|
  {
    hide IdsInv, StepRule;
    if ins != [] {
      forall j | 0 <= j < |rs|
        ensures IdsInv(StepRule(rs[j], ins[0])) && SameConfigs(rs[j], StepRule(rs[j], ins[0]))
      {
        StepKeepsIds(rs[j], ins[0]);
      }
      RunKeepsIds(Step(rs, ins[0]), ins[1..]);
    }
  }

  /** A reset identifier never does what it is for: under the trigger's own identifier it keeps the
      rule from ever executing for that trigger, under any other it never re-arms the latch. A
      confirmation under another identifier than the trigger's own never arrives, so the trigger
      never latches. */
  lemma ResetAndVerifyNeedOwnIdentifier(rs: seq<Rule>, ins: seq<Input>, j: nat, k: nat)
    requires Loaded(rs) && j < |rs| && k < |rs[j].triggers|
    ensures |Run(rs, ins)[j].triggers| == |rs[j].triggers|
    ensures var c, t := rs[j].triggers[k].cfg, Run(rs, ins)[j].triggers[k];
      && (OwnReset(c) ==> forall m :: m in t.marks ==> !m.Fired?)
      && (!OwnReset(c) ==> forall m :: m in t.marks ==> !m.Reset?)
      && (!OwnVerify(c) ==> forall m :: m in t.marks ==> !m.Confirmed?)
      && (c.mode == PollVerify && !OwnVerify(c) ==> !t.latched)
  {
    hide Run;
    forall n | 0 <= n < |rs|
      ensures IdsInv(rs[n])
    {
      forall i | 0 <= i < |rs[n].triggers|
        ensures IdInv(rs[n].triggers[i])
      {
        assert rs[n].triggers[i] in rs[n].triggers;
      }
    }
    RunKeepsIds(rs, ins);
    assert IdsInv(Run(rs, ins)[j]) && SameConfigs(rs[j], Run(rs, ins)[j]);
  }
}
