/** Where the trigger engine does, and where it does not, what its configuration fields are
    documented to do: confirmations, the re-arm timeout and the default cooldown. */
module CanDoExactness {
  import opened Wrappers
  import opened CanDo
  import opened CanDoLaws
  import opened CanDoTheorems

  // ---------------------------------------------------------------- rules without combination

  function Alone(t: Trigger): Rule {
    Rule(true, false, [t], 0)
  }

  /** What one frame does to a trigger that is no part of a combination. */
  function OfferOne(t: Trigger, f: Frame, now: int): Trigger {
    Offer(Alone(t), 0, f, now).0.triggers[0]
  }

  lemma PressIsLocal(r: Rule, k: nat, changed: bool, now: int)
    requires k < |r.triggers| && !Combo(r)
    ensures var (s, done) := Press(r, k, changed, now);
      && !done && s.enabled == r.enabled && s.combineAll == r.combineAll
      && s.triggers == r.triggers[k := Press(Alone(r.triggers[k]), 0, changed, now).0.triggers[0]]
  {
    hide Hold, ModeGate, Charge, CooldownUs;
  }

  lemma ReleaseIsLocal(r: Rule, k: nat, f: Frame, now: int)
    requires k < |r.triggers| && !Combo(r)
    ensures var s := Release(r, k, f, now);
      && s.enabled == r.enabled && s.combineAll == r.combineAll
      && s.triggers == r.triggers[k := Release(Alone(r.triggers[k]), 0, f, now).triggers[0]]
  {
    hide LetGo, Click, Charge, Store, CooldownUs;
  }

  lemma OfferIsLocal(r: Rule, k: nat, f: Frame, now: int)
    requires k < |r.triggers| && !Combo(r)
    ensures var (s, done) := Offer(r, k, f, now);
      && !done && s.enabled == r.enabled && s.combineAll == r.combineAll
      && s.triggers == r.triggers[k := OfferOne(r.triggers[k], f, now)]
  {
    hide Press, Release, Evaluate, IsRelease, Changed, Addressed, IsReset, Confirm, Store, Rearm;
    var t := r.triggers[k];
    var v := Confirm(t, f, now);
    PressIsLocal(Put(r, k, Store(v, f)), k, Changed(v, f), now);
    ReleaseIsLocal(Put(r, k, v), k, f, now);
    assert Put(Alone(t), 0, Store(v, f)) == Alone(Store(v, f));
    assert Put(Alone(t), 0, v) == Alone(v);
  }

  lemma {:induction false} OfferFromIsLocal(r: Rule, i: nat, f: Frame, now: int, k: nat)
    requires i <= |r.triggers| && k < |r.triggers| && !Combo(r)
    ensures OfferFrom(r, i, f, now).triggers[k] == if k < i then r.triggers[k] else OfferOne(r.triggers[k], f, now)
    decreases |r.triggers| - i
  {
    hide Offer, OfferOne;
    if i < |r.triggers| {
      OfferIsLocal(r, i, f, now);
      OfferFromIsLocal(Offer(r, i, f, now).0, i + 1, f, now, k);
    }
  }

  /** Without combination a frame acts on every trigger by itself. */
  lemma RxIsLocal(r: Rule, f: Frame, now: int, k: nat)
    requires r.enabled && !Combo(r) && k < |r.triggers|
    ensures RxRule(r, f, now).triggers[k] == OfferOne(Observe(r.triggers[k], f), f, now)
  {
    hide OfferFrom, Observe, OfferOne;
    OfferFromIsLocal(ObserveAll(r, f), 0, f, now, k);
  }

  // ---------------------------------------------------------------- confirmations

  /** What time alone does to a trigger: clicks are forgotten once their window is over, a latch opens
      after the configured timeout if there is one, and an unanswered poll is waited for no longer than
      that, or three seconds. */
  lemma TimeoutsAreExact(t: Trigger, now: int)
    ensures var u := Expire(t, now);
      var window := 1_000 * (if t.cfg.clickWindowMs > 0 then t.cfg.clickWindowMs else 450);
      var patience := 1_000 * (if t.cfg.timeoutResetMs > 0 then t.cfg.timeoutResetMs else 3_000);
      && u.clicks == (if now - t.lastClick > window then 0 else t.clicks)
      && (u.latched <==>
            t.latched && !(t.cfg.timeoutResetMs > 0 && now - t.lastTriggered > 1_000 * t.cfg.timeoutResetMs))
      && (u.pendingVerify <==>
            t.pendingVerify && !(t.cfg.mode == PollVerify && now - t.lastTriggered > patience))
      && u == t.(clicks := u.clicks, latched := u.latched, pendingVerify := u.pendingVerify, marks := u.marks)
  {
    var a := ExpireClicks(t, now);
    var b := ExpireLatch(a, now);
    assert b == t.(clicks := a.clicks, latched := b.latched, marks := b.marks);
  }

  /** A frame that confirms: it reaches the trigger, which waits for it, and the identifier the
      confirmation is configured under is the trigger's own. */
  predicate Confirms(t: Trigger, f: Frame) {
    && Addressed(t.cfg, f) && !IsReset(t.cfg, f)
    && t.cfg.mode == PollVerify && t.pendingVerify && OwnVerify(t.cfg)
    && (t.cfg.verify.Some? ==> Matches(t.cfg.verify.value, f.data, f.dlc))
  }

  /** The confirmation that this very step brought. */
  predicate NewlyConfirmed(t: Trigger, u: Trigger, at: int) {
    |t.marks| < |u.marks| && u.marks[|t.marks|] == Confirmed(at)
  }

  lemma NoteGrows(t: Trigger, m: Mark)
    ensures t.marks <= Note(t, m).marks == t.marks + [m] && Note(t, m) == t.(marks := t.marks + [m])
  {
  }

  lemma FirstOfGrown(a: seq<Mark>, m: Mark, b: seq<Mark>)
    requires a + [m] <= b
    ensures |a| < |b| && b[|a|] == m
  {
    assert b[|a|] == (a + [m])[|a|];
  }

  lemma StoreIsSilent(t: Trigger, f: Frame)
    ensures Store(t, f) == t.(last := Store(t, f).last)
  {
  }

  /** A release comes first among the marks it adds, and concerns no other trigger. */
  lemma ReleaseAppends(r: Rule, k: nat, f: Frame, now: int)
    requires k < |r.triggers|
    ensures var t, s := r.triggers[k], Release(r, k, f, now);
      var u := s.triggers[k];
      && t.marks + [Released(now)] <= u.marks && !u.latched && u.pendingVerify == t.pendingVerify
      && s.triggers == r.triggers[k := u]
  {
    hide Store, CooldownUs, LetGo, Click, Charge, OthersHeld;
    var g := LetGo(r.triggers[k], now);
    LetGoIs(r.triggers[k], now);
    StoreIsSilent(g, f);
    var c := Click(g, now);
    ClickGrows(g, now);
    StoreIsSilent(c, f);
    var done := c.(clicks := 0);
    StoreIsSilent(done, f);
    ChargeGrows(done, now);
    StoreIsSilent(Charge(done, now), f);
  }

  lemma LetGoIs(t: Trigger, now: int)
    ensures var u := LetGo(t, now);
      && u.marks == t.marks + [Released(now)] && !u.latched && u.pendingVerify == t.pendingVerify && u.cfg == t.cfg
  {
  }

  lemma ClickGrows(t: Trigger, now: int)
    ensures var u := Click(t, now);
      && t.marks <= u.marks && u.latched == t.latched && u.pendingVerify == t.pendingVerify && u.cfg == t.cfg
  {
  }

  lemma HoldAppends(t: Trigger, now: int)
    ensures var h := Hold(t, now).0;
      && t.marks <= h.marks && h.latched == t.latched && h.pendingVerify == t.pendingVerify && h.cfg == t.cfg
  {
  }

  lemma ShareGrows(t: Trigger, now: int)
    ensures var u := Share(t, now);
      && u.marks == t.marks + [Shared(now)] && u.pendingVerify == t.pendingVerify && u.cfg == t.cfg
      && (t.cfg.mode == PollVerify ==> u.latched == t.latched) && (t.latched ==> u.latched)
  {
  }

  /** A press comes first among the marks it adds, and a latch that is set keeps it from executing.
      Other triggers take part only when it executes for a combination. */
  lemma PressAppends(r: Rule, k: nat, changed: bool, now: int)
    requires k < |r.triggers|
    ensures var t, (s, done) := r.triggers[k], Press(r, k, changed, now);
      && t.marks + [Seen(now)] <= s.triggers[k].marks
      && (t.cfg.mode == PollVerify && t.latched ==>
            !done && s.triggers[k].latched && s.triggers[k].pendingVerify == t.pendingVerify)
      && (forall i :: 0 <= i < |r.triggers| && i != k ==>
            s.triggers[i] == if done then Share(r.triggers[i], now) else r.triggers[i])
  {
    hide CooldownUs, Hold, Note, Charge, AllHeld, Share;
    var t := r.triggers[k];
    var pressed := t.(isHeld := true, wasPressed := true);
    NoteGrows(pressed, Seen(now));
    var seen := Note(pressed, Seen(now));
    var h := Hold(seen, now).0;
    HoldAppends(seen, now);
    var g := ModeGate(h, changed).0;
    assert g.marks == h.marks;
    ChargeGrows(g, now);
    ShareGrows(Charge(g, now), now);
  }

  lemma ChargeGrows(t: Trigger, now: int)
    ensures t.marks <= Charge(t, now).marks
    ensures Charge(t, now).latched == t.latched && Charge(t, now).pendingVerify == t.pendingVerify
    ensures Charge(t, now).cfg == t.cfg
  {
  }

  /** After a possible confirmation the frame adds a press, a release, or nothing. */
  lemma OfferAppends(r: Rule, k: nat, f: Frame, now: int)
    requires k < |r.triggers| && Addressed(r.triggers[k].cfg, f) && !IsReset(r.triggers[k].cfg, f)
    ensures var t, u := r.triggers[k], Offer(r, k, f, now).0.triggers[k];
      var v := Confirm(t, f, now);
      && v.marks <= u.marks
      && (|v.marks| < |u.marks| ==> !u.marks[|v.marks|].Confirmed?)
      && (t.cfg.mode == PollVerify && v.latched ==>
            u.pendingVerify == v.pendingVerify && (u.latched <==> Evaluate(t, f) || !IsRelease(t.cfg, f)))
  {
    hide Press, Release, Evaluate, IsRelease, Changed, Confirm, Store, Addressed, IsReset;
    var t, u := r.triggers[k], Offer(r, k, f, now).0.triggers[k];
    var v := Confirm(t, f, now);
    StoreIsSilent(v, f);
    ConfirmKeepsCondition(t, f, now);
    if Evaluate(t, f) {
      PressAppends(Put(r, k, Store(v, f)), k, Changed(v, f), now);
      FirstOfGrown(v.marks, Seen(now), u.marks);
    } else if IsRelease(t.cfg, f) {
      ReleaseAppends(Put(r, k, v), k, f, now);
      FirstOfGrown(v.marks, Released(now), u.marks);
    }
  }

  lemma OneConfirmationExactly(r: Rule, k: nat, f: Frame, now: int)
    requires k < |r.triggers|
    ensures var t, u := r.triggers[k], Offer(r, k, f, now).0.triggers[k];
      && t.marks <= u.marks
      && (NewlyConfirmed(t, u, now) <==> Confirms(t, f))
      && (Confirms(t, f) ==> !u.pendingVerify && (u.latched <==> Evaluate(t, f) || !IsRelease(t.cfg, f)))
  {
    hide Press, Release, Evaluate, IsRelease, Changed, Matches, Store, Rearm, Addressed, IsReset;
    var t, u := r.triggers[k], Offer(r, k, f, now).0.triggers[k];
    if !Addressed(t.cfg, f) {
      assert u == t;
    } else if IsReset(t.cfg, f) {
      RearmAppends(t, now);
      assert u == Rearm(t, now);
    } else {
      hide Offer, Confirms;
      var v := Confirm(t, f, now);
      ConfirmIs(t, f, now);
      OfferAppends(r, k, f, now);
      if v != t {
        FirstOfGrown(t.marks, Confirmed(now), u.marks);
      }
    }
  }

  /** An offer concerns other triggers only when it executes for a combination. */
  lemma OfferTouches(r: Rule, k: nat, f: Frame, now: int, i: nat)
    requires k < |r.triggers| && i < |r.triggers| && i != k
    ensures var (s, done) := Offer(r, k, f, now);
      && s.triggers[i] == (if done then Share(r.triggers[i], now) else r.triggers[i])
      && s.enabled == r.enabled && Combo(s) == Combo(r) && (done ==> Combo(r))
  {
    hide Press, Release, Evaluate, IsRelease, Changed, Matches, Store, Rearm, Addressed, IsReset, Confirm, Share;
    var v := Confirm(r.triggers[k], f, now);
    PressAppends(Put(r, k, Store(v, f)), k, Changed(v, f), now);
    PressIsOfCombination(Put(r, k, Store(v, f)), k, Changed(v, f), now);
    ReleaseAppends(Put(r, k, v), k, f, now);
    ReleaseKeepsCombination(Put(r, k, v), k, f, now);
  }

  lemma PressIsOfCombination(r: Rule, k: nat, changed: bool, now: int)
    requires k < |r.triggers|
    ensures var (s, done) := Press(r, k, changed, now);
      s.enabled == r.enabled && s.combineAll == r.combineAll && (done ==> Combo(r))
  {
    hide CooldownUs, Hold, Note, Charge, AllHeld, Share, ModeGate;
  }

  lemma ReleaseKeepsCombination(r: Rule, k: nat, f: Frame, now: int)
    requires k < |r.triggers|
    ensures var s := Release(r, k, f, now); s.enabled == r.enabled && s.combineAll == r.combineAll
  {
    hide Store, CooldownUs, LetGo, Click, Charge, OthersHeld;
  }

  lemma ConfirmIs(t: Trigger, f: Frame, now: int)
    requires Addressed(t.cfg, f) && !IsReset(t.cfg, f)
    ensures Confirms(t, f) <==> Confirm(t, f, now) != t
    ensures Confirms(t, f) ==>
      var v := Confirm(t, f, now);
      && v.latched && !v.pendingVerify && v.marks == t.marks + [Confirmed(now)] && t.cfg.mode == PollVerify
  {
    hide Matches, IsReset;
  }

  lemma RearmAppends(t: Trigger, now: int)
    ensures Rearm(t, now).marks == t.marks + [Reset(now)] && Rearm(t, now).marks[|t.marks|] == Reset(now)
    ensures Rearm(t, now).cfg == t.cfg
  {
  }

  lemma ConfirmKeepsCondition(t: Trigger, f: Frame, now: int)
    ensures Evaluate(Confirm(t, f, now), f) == Evaluate(t, f) && Confirm(t, f, now).cfg == t.cfg
  {
    hide Matches;
  }

  /** The rule when the loop comes to trigger `k`, unless a combination has executed before and ended
      the loop. */
  function UpTo(r: Rule, i: nat, k: nat, f: Frame, now: int): Option<Rule>
    requires i <= k < |r.triggers|
    decreases k - i
  {
    if i == k then Some(r) else
      var (s, done) := Offer(r, i, f, now);
      if done then None else UpTo(s, i + 1, k, f, now)
  }

  lemma {:induction false} BeforeItsTurn(r: Rule, i: nat, k: nat, f: Frame, now: int)
    requires i <= k < |r.triggers|
    ensures var q, s := UpTo(r, i, k, f, now), OfferFrom(r, i, f, now);
      match q
      case None => Combo(r) && s.triggers[k] == Share(r.triggers[k], now)
      case Some(t) =>
        |t.triggers| == |r.triggers| && t.triggers[k] == r.triggers[k] && s == OfferFrom(t, k, f, now)
    decreases k - i
  {
    hide Offer, Share;
    if i < k {
      var (s, done) := Offer(r, i, f, now);
      OfferTouches(r, i, f, now, k);
      if !done {
        BeforeItsTurn(s, i + 1, k, f, now);
      }
    }
  }

  lemma {:induction false} AfterItsTurn(r: Rule, i: nat, k: nat, f: Frame, now: int)
    requires k < i <= |r.triggers|
    ensures var u := OfferFrom(r, i, f, now).triggers[k]; u == r.triggers[k] || u == Share(r.triggers[k], now)
    decreases |r.triggers| - i
  {
    hide Offer, Share;
    if i < |r.triggers| {
      OfferTouches(r, i, f, now, k);
      AfterItsTurn(Offer(r, i, f, now).0, i + 1, k, f, now);
    }
  }

  /** The frame is offered to trigger `k` of the rule at all. */
  predicate Offered(r: Rule, k: nat, f: Frame, now: int)
    requires k < |r.triggers|
  {
    r.enabled && UpTo(ObserveAll(r, f), 0, k, f, now).Some?
  }

  lemma FirstStays(t: Trigger, u: Trigger, now: int)
    requires t.marks <= u.marks
    ensures NewlyConfirmed(t, Share(u, now), now) <==> NewlyConfirmed(t, u, now)
  {
    ShareGrows(u, now);
  }

  lemma ObservedIsSame(t: Trigger, f: Frame)
    ensures var o := Observe(t, f);
      && o.marks == t.marks && o.cfg == t.cfg && Evaluate(o, f) == Evaluate(t, f) && Confirms(o, f) == Confirms(t, f)
  {
    hide Matches;
  }

  lemma ItsTurn(r: Rule, k: nat, f: Frame, now: int)
    requires k < |r.triggers|
    ensures var t, u := r.triggers[k], OfferFrom(r, k, f, now).triggers[k];
      && (NewlyConfirmed(t, u, now) <==> Confirms(t, f))
      && (Confirms(t, f) ==> !u.pendingVerify && (u.latched <==> Evaluate(t, f) || !IsRelease(t.cfg, f)))
  {
    hide Offer, Share, Evaluate, IsRelease, Matches, NewlyConfirmed;
    var (s, done) := Offer(r, k, f, now);
    var t, v := r.triggers[k], s.triggers[k];
    OneConfirmationExactly(r, k, f, now);
    OfferKeepsConfig(r, k, f, now);
    FirstStays(t, v, now);
    ShareGrows(v, now);
    if !done {
      AfterItsTurn(s, k + 1, k, f, now);
    }
  }

  lemma OfferKeepsConfig(r: Rule, k: nat, f: Frame, now: int)
    requires k < |r.triggers|
    ensures Offer(r, k, f, now).0.triggers[k].cfg == r.triggers[k].cfg
  {
    hide Press, Release, Evaluate, IsRelease, Changed, Matches, Store, Rearm, Addressed, IsReset, Confirm;
    var t := r.triggers[k];
    var v := Confirm(t, f, now);
    ConfirmKeepsCondition(t, f, now);
    StoreIsSilent(v, f);
    RearmAppends(t, now);
    PressKeepsConfig(Put(r, k, Store(v, f)), k, Changed(v, f), now);
    ReleaseKeepsConfig(Put(r, k, v), k, f, now);
  }

  lemma PressKeepsConfig(r: Rule, k: nat, changed: bool, now: int)
    requires k < |r.triggers|
    ensures Press(r, k, changed, now).0.triggers[k].cfg == r.triggers[k].cfg
  {
    hide CooldownUs, AllHeld, Hold, Charge, Share;
    var t := r.triggers[k];
    var seen := Note(t.(isHeld := true, wasPressed := true), Seen(now));
    var h := Hold(seen, now).0;
    HoldAppends(seen, now);
    ChargeGrows(ModeGate(h, changed).0, now);
    ShareGrows(Charge(ModeGate(h, changed).0, now), now);
  }

  lemma ReleaseKeepsConfig(r: Rule, k: nat, f: Frame, now: int)
    requires k < |r.triggers|
    ensures Release(r, k, f, now).triggers[k].cfg == r.triggers[k].cfg
  {
    hide CooldownUs, OthersHeld;
  }

  /** A trigger takes a confirmation from exactly the frames that are offered to it and confirm; the
      latch they set stays unless the very same frame shows the trigger released. Only another
      trigger of a combination, executing for it, can keep the frame away. */
  lemma ConfirmationsAreExact(r: Rule, k: nat, f: Frame, at: int)
    requires k < |r.triggers|
    ensures var t, u := r.triggers[k], StepRule(r, Rx(f, at, false)).triggers[k];
      && (NewlyConfirmed(t, u, at) <==> Offered(r, k, f, at) && Confirms(t, f))
      && (Offered(r, k, f, at) && Confirms(t, f) ==>
            !u.pendingVerify && (u.latched <==> Evaluate(t, f) || !IsRelease(t.cfg, f)))
      && (Offered(r, k, f, at) <==> r.enabled && (Combo(r) ==> UpTo(ObserveAll(r, f), 0, k, f, at).Some?))
  {
    hide OfferFrom, UpTo, Observe, Share, Confirms, Evaluate, IsRelease, NewlyConfirmed;
    if r.enabled {
      var all := ObserveAll(r, f);
      var t := r.triggers[k];
      assert all.triggers[k] == Observe(t, f) && Combo(all) == Combo(r);
      ObservedIsSame(t, f);
      BeforeItsTurn(all, 0, k, f, at);
      SameMarks(t, Observe(t, f), OfferFrom(all, 0, f, at).triggers[k], at);
      match UpTo(all, 0, k, f, at)
      case None => SharedIsNoConfirmation(Observe(t, f), at);
      case Some(q) => ItsTurn(q, k, f, at);
    } else {
      assert !NewlyConfirmed(r.triggers[k], r.triggers[k], at) by { NothingNew(r.triggers[k], at); }
    }
  }

  lemma SharedIsNoConfirmation(t: Trigger, at: int)
    ensures !NewlyConfirmed(t, Share(t, at), at)
  {
  }

  lemma NothingNew(t: Trigger, at: int)
    ensures !NewlyConfirmed(t, t, at)
  {
  }

  lemma SameMarks(t: Trigger, o: Trigger, u: Trigger, at: int)
    requires o.marks == t.marks
    ensures NewlyConfirmed(o, u, at) == NewlyConfirmed(t, u, at)
  {
  }

  /** So it is with the next frame after every run. */
  lemma ConfirmationsOverRuns(rs: seq<Rule>, ins: seq<Input>, j: nat, k: nat, f: Frame, at: int)
    requires j < |rs| && k < |Run(rs, ins)[j].triggers|
    ensures |Run(rs, ins + [Rx(f, at, false)])[j].triggers| == |Run(rs, ins)[j].triggers|
    ensures var r := Run(rs, ins)[j];
      var t, u := r.triggers[k], Run(rs, ins + [Rx(f, at, false)])[j].triggers[k];
      && (NewlyConfirmed(t, u, at) <==> Offered(r, k, f, at) && Confirms(t, f))
      && (Offered(r, k, f, at) && Confirms(t, f) ==>
            !u.pendingVerify && (u.latched <==> Evaluate(t, f) || !IsRelease(t.cfg, f)))
  {
    hide StepRule, Offered, Confirms, NewlyConfirmed, Evaluate, IsRelease;
    RunLast(rs, ins, Rx(f, at, false));
    ConfirmationsAreExact(Run(rs, ins)[j], k, f, at);
  }

  lemma {:induction false} RunLast(rs: seq<Rule>, ins: seq<Input>, i: Input)
    ensures Run(rs, ins + [i]) == Step(Run(rs, ins), i)
    decreases |ins|
  {
    hide Step;
    if ins == [] {
      assert ins + [i] == [i] && [i][1..] == [];
    } else {
      assert (ins + [i])[0] == ins[0] && (ins + [i])[1..] == ins[1..] + [i];
      RunLast(Step(rs, ins[0]), ins[1..], i);
    }
  }

  // ---------------------------------------------------------------- the re-arm timeout

  /** When a frame last met the trigger's condition; zero when none has. */
  function LastSeen(marks: seq<Mark>): int
    decreases |marks|
  {
    if marks == [] then 0 else if Last(marks).Seen? then Last(marks).at else LastSeen(Before(marks))
  }

  /** The documented meaning of an expiry: no frame has met the condition for `ms`. */
  predicate Absent(marks: seq<Mark>, at: int, ms: nat) {
    forall i :: 0 <= i < |marks| && marks[i].Seen? ==> at - marks[i].at > 1000 * ms
  }

  lemma {:induction false} LastSeenIsLatest(c: Config, marks: seq<Mark>)
    requires Proper(c, marks)
    ensures 0 <= LastSeen(marks) <= LastAt(marks)
    ensures forall i :: 0 <= i < |marks| && marks[i].Seen? ==> marks[i].at <= LastSeen(marks)
    ensures LastSeen(marks) == 0 || exists i :: 0 <= i < |marks| && marks[i] == Seen(LastSeen(marks))
    decreases |marks|
  {
    if marks != [] {
      if Last(marks).Seen? {
        assert marks[|marks| - 1] == Seen(LastSeen(marks));
        MarksInOrder(c, marks);
      } else {
        LastSeenIsLatest(c, Before(marks));
        if i :| 0 <= i < |Before(marks)| && Before(marks)[i] == Seen(LastSeen(marks)) {
          assert marks[i] == Seen(LastSeen(marks));
        }
      }
    }
  }

  lemma {:induction false} MarksInOrder(c: Config, marks: seq<Mark>)
    requires Proper(c, marks)
    ensures 0 <= LastAt(marks) && forall i :: 0 <= i < |marks| ==> marks[i].at <= LastAt(marks)
    decreases |marks|
  {
    if marks != [] {
      MarksInOrder(c, Before(marks));
    }
  }

  lemma {:induction false} ExpiryIsTimedOut(c: Config, marks: seq<Mark>, e: nat)
    requires Proper(c, marks) && e < |marks| && marks[e].Expired?
    ensures Proper(c, marks[..e]) && TimedOut(c, marks[..e], marks[e].at)
    decreases |marks|
  {
    hide TimedOut;
    if e == |marks| - 1 {
      assert marks[..e] == Before(marks);
    } else {
      ExpiryIsTimedOut(c, Before(marks), e);
      assert Before(marks)[..e] == marks[..e];
    }
  }

  /** Over every run: an expiry finds the trigger absent for its timeout exactly when the frames
      that met the condition after the execution it runs from have; earlier ones always have. */
  lemma ExpiryHonoursAbsenceIff(rs: seq<Rule>, ins: seq<Input>, j: nat, k: nat, e: nat)
    requires Loaded(rs) && Clocked(0, ins) && j < |rs| && k < |rs[j].triggers|
    requires |Run(rs, ins)[j].triggers| == |rs[j].triggers|
    requires e < |Run(rs, ins)[j].triggers[k].marks| && Run(rs, ins)[j].triggers[k].marks[e].Expired?
    ensures var ms, marks := rs[j].triggers[k].cfg.timeoutResetMs, Run(rs, ins)[j].triggers[k].marks;
      && marks[e].at - LastCharged(marks[..e]) > 1000 * ms
      && (Absent(marks[..e], marks[e].at, ms) <==>
           forall i :: 0 <= i < e && marks[i].Seen? && LastCharged(marks[..e]) < marks[i].at ==>
             marks[e].at - marks[i].at > 1000 * ms)
  {
    hide Run;
    RunIsProper(rs, ins, j, k);
    var marks := Run(rs, ins)[j].triggers[k].marks;
    ExpiryIsTimedOut(rs[j].triggers[k].cfg, marks, e);
    assert forall i :: 0 <= i < e ==> marks[..e][i] == marks[i];
  }

  lemma TimerHonoursAbsenceIff(t: Trigger, now: int)
    requires Inv(t, now) && t.latched && t.cfg.timeoutResetMs > 0
    ensures (forall later: int :: now <= later && !ExpireLatch(t, later).latched ==>
               Absent(t.marks, later, t.cfg.timeoutResetMs))
       <==> LastSeen(t.marks) <= LastCharged(t.marks) || now - LastSeen(t.marks) > 1000 * t.cfg.timeoutResetMs
  {
    LastSeenIsLatest(t.cfg, t.marks);
    var soonest := t.lastTriggered + 1000 * t.cfg.timeoutResetMs + 1;
    var due := if soonest < now then now else soonest;
    assert !ExpireLatch(t, due).latched;
    if LastCharged(t.marks) < LastSeen(t.marks) && now - LastSeen(t.marks) <= 1000 * t.cfg.timeoutResetMs {
      var i :| 0 <= i < |t.marks| && t.marks[i] == Seen(LastSeen(t.marks));
      assert !Absent(t.marks, due, t.cfg.timeoutResetMs);
    }
  }

  lemma LaterInv(t: Trigger, a: int, b: int)
    requires Inv(t, a) && a <= b
    ensures Inv(t, b)
  {
    hide Proper, Linked;
  }

  /** In every reachable state, at a time `now` not before its last input: the timer of a latched
      trigger will re-arm it only in its absence exactly when no frame has met the condition since
      the execution, or the last one that did is longer ago than the timeout already. */
  lemma TimerHonoursAbsence(rs: seq<Rule>, ins: seq<Input>, j: nat, k: nat, now: nat)
    requires Loaded(rs) && Clocked(0, ins) && j < |rs| && k < |rs[j].triggers|
    requires ins == [] || ins[|ins| - 1].at <= now
    requires |Run(rs, ins)[j].triggers| == |rs[j].triggers|
    requires Run(rs, ins)[j].triggers[k].latched && rs[j].triggers[k].cfg.timeoutResetMs > 0
    ensures var ms, t := rs[j].triggers[k].cfg.timeoutResetMs, Run(rs, ins)[j].triggers[k];
      (forall later: int :: now <= later && !ExpireLatch(t, later).latched ==> Absent(t.marks, later, ms))
      <==> LastSeen(t.marks) <= LastCharged(t.marks) || now - LastSeen(t.marks) > 1000 * ms
  {
    hide Run, Inv, Absent, ExpireLatch;
    LoadedIsInv(rs);
    var end := RunKeepsInv(rs, 0, ins);
    assert RuleInv(Run(rs, ins)[j], end) && SameConfigs(rs[j], Run(rs, ins)[j]);
    var t := Run(rs, ins)[j].triggers[k];
    LaterInv(t, end, now);
    TimerHonoursAbsenceIff(t, now);
  }

  // ---------------------------------------------------------------- two runs

  /** The three ways of a frame that reaches the trigger and is no reset. */
  lemma OfferOneIs(t: Trigger, f: Frame, now: int)
    requires Addressed(t.cfg, f) && !IsReset(t.cfg, f)
    ensures var v := Confirm(t, f, now);
      OfferOne(t, f, now) ==
        if Evaluate(t, f) then Press(Alone(Store(v, f)), 0, Changed(v, f), now).0.triggers[0]
        else if IsRelease(t.cfg, f) then Release(Alone(v), 0, f, now).triggers[0]
        else Store(v, f)
  {
    hide Press, Release, Evaluate, IsRelease, Changed, Store, Confirm;
    var v := Confirm(t, f, now);
    assert Put(Alone(t), 0, Store(v, f)) == Alone(Store(v, f));
    assert Put(Alone(t), 0, v) == Alone(v);
    assert v.cfg == t.cfg && Evaluate(v, f) == Evaluate(t, f) by { ConfirmKeepsCondition(t, f, now); }
  }

  /** A button: the low bit of the first byte. */
  function Button(mode: Mode, cooldownMs: nat, timeoutResetMs: nat): Config {
    Config(true, 0, 0x448, false, mode, None, Some([Cell(1, 1)]), false, false, "",
           0, 1, 0, cooldownMs, 0, timeoutResetMs, 0, None)
  }

  const HELD: Frame := Frame(0, 0x448, false, 8, [1, 0, 0, 0, 0, 0, 0, 0], {})

  lemma HeldPasses(t: Trigger)
    requires t.cfg == Button(t.cfg.mode, t.cfg.cooldownMs, t.cfg.timeoutResetMs)
    ensures Addressed(t.cfg, HELD) && !IsReset(t.cfg, HELD) && Evaluate(t, HELD) && Confirm(t, HELD, 0) == t
    ensures forall now :: Confirm(t, HELD, now) == t
  {
  }

  /** A frame that shows the button held, to a trigger that may fire or is latched. */
  lemma HeldFrame(t: Trigger, now: int)
    requires t.cfg == Button(t.cfg.mode, t.cfg.cooldownMs, t.cfg.timeoutResetMs)
    requires t.cfg.mode == OneShot || t.cfg.mode == Always
    requires t.lastTriggered <= 0 || now - t.lastTriggered >= CooldownUs(t.cfg)
    ensures var u := OfferOne(Observe(t, HELD), HELD, now);
      && u.cfg == t.cfg
      && (if t.cfg.mode == OneShot && t.latched
          then u.marks == t.marks + [Seen(now)] && u.latched && u.lastTriggered == t.lastTriggered
          else u.marks == t.marks + [Seen(now), Fired(now)] && u.lastTriggered == now
               && u.latched == (t.latched || t.cfg.mode == OneShot))
  {
    hide Evaluate, Addressed, Confirm, Press, Store, Changed, CooldownUs;
    var o := Observe(t, HELD);
    HeldPasses(t);
    assert o == t.(isHeld := true, wasPressed := true);
    HeldPasses(o);
    OfferOneIs(o, HELD, now);
    var v := Store(o, HELD);
    StoreIsSilent(o, HELD);
    PressHeld(v, Changed(o, HELD), now);
  }

  lemma PressHeld(t: Trigger, changed: bool, now: int)
    requires t.cfg == Button(t.cfg.mode, t.cfg.cooldownMs, t.cfg.timeoutResetMs)
    requires t.cfg.mode == OneShot || t.cfg.mode == Always
    requires t.lastTriggered <= 0 || now - t.lastTriggered >= CooldownUs(t.cfg)
    ensures var u := Press(Alone(t), 0, changed, now).0.triggers[0];
      && u.cfg == t.cfg
      && (if t.cfg.mode == OneShot && t.latched
          then u.marks == t.marks + [Seen(now)] && u.latched && u.lastTriggered == t.lastTriggered
          else u.marks == t.marks + [Seen(now), Fired(now)] && u.lastTriggered == now
               && u.latched == (t.latched || t.cfg.mode == OneShot))
  {
    hide CooldownUs;
    assert t.marks + [Seen(now)] + [Fired(now)] == t.marks + [Seen(now), Fired(now)];
  }

  function OneRule(c: Config): seq<Rule> {
    [Rule(true, false, [Fresh(c)], 0)]
  }

  /** A rule set that is one enabled rule with one trigger in this state. */
  predicate Holds(rs: seq<Rule>, t: Trigger) {
    |rs| == 1 && rs[0].enabled && !rs[0].combineAll && rs[0].triggers == [t]
  }

  lemma RunOne(rs: seq<Rule>, i: Input, rest: seq<Input>)
    ensures Run(rs, [i] + rest) == Run(Step(rs, i), rest)
  {
    assert ([i] + rest)[1..] == rest;
  }

  lemma RxStep(rs: seq<Rule>, t: Trigger, now: int)
    requires Holds(rs, t)
    ensures Holds(Step(rs, Rx(HELD, now, false)), OfferOne(Observe(t, HELD), HELD, now))
  {
    hide OfferOne, Observe, Offer;
    RxIsLocal(rs[0], HELD, now, 0);
    var o := ObserveAll(rs[0], HELD);
    OfferIsLocal(o, 0, HELD, now);
    var s := Offer(o, 0, HELD, now).0;
    assert OfferFrom(o, 0, HELD, now) == OfferFrom(s, 1, HELD, now) == s;
  }

  lemma TimerStep(rs: seq<Rule>, t: Trigger, now: int)
    requires Holds(rs, t)
    ensures Holds(Step(rs, Timer(now, false)), Expire(t, now))
  {
    hide Expire;
  }

  /** A button held all the time: a one-shot trigger with a timeout of half a second is re-armed
      under it a moment after a frame met its condition, and executes twice in one press. */
  lemma TimeoutRearmsWhileHeld() returns (ins: seq<Input>, end: Trigger)
    ensures Clocked(0, ins) && Holds(Run(OneRule(Button(OneShot, 0, 500)), ins), end)
    ensures end.marks ==
              [Seen(1_000_000), Fired(1_000_000), Seen(1_400_000), Expired(1_500_001),
               Seen(1_500_100), Fired(1_500_100)]
  {
    hide OfferOne, Observe, Expire, Step;
    var c := Button(OneShot, 0, 500);
    var rs, t := OneRule(c), Fresh(c);
    var a, b := Rx(HELD, 1_000_000, false), Rx(HELD, 1_400_000, false);
    var d, e := Timer(1_500_001, false), Rx(HELD, 1_500_100, false);
    ins := [a] + ([b] + ([d] + ([e] + [])));
    assert ins == [a, b, d, e] && Clocked(0, ins) by { ButtonClock(a, b, d, e); }
    RunOne(rs, a, [b] + ([d] + ([e] + [])));
    RxStep(rs, t, a.at);
    HeldFrame(t, a.at);
    var r1, t1 := Step(rs, a), OfferOne(Observe(t, HELD), HELD, a.at);
    assert t1.marks == [Seen(1_000_000), Fired(1_000_000)] && t1.latched && t1.lastTriggered == 1_000_000;
    RunOne(r1, b, [d] + ([e] + []));
    RxStep(r1, t1, b.at);
    HeldFrame(t1, b.at);
    var r2, t2 := Step(r1, b), OfferOne(Observe(t1, HELD), HELD, b.at);
    assert t2.marks == [Seen(1_000_000), Fired(1_000_000), Seen(1_400_000)] && t2.latched;
    RunOne(r2, d, [e] + []);
    TimerStep(r2, t2, d.at);
    var r3, t3 := Step(r2, d), Expire(t2, d.at);
    assert t3.marks == t2.marks + [Expired(1_500_001)] && !t3.latched && t3.cfg == c
        && t3.lastTriggered == 1_000_000 by { ExpiryOf(t2, d.at); }
    RunOne(r3, e, []);
    RxStep(r3, t3, e.at);
    HeldFrame(t3, e.at);
    end := OfferOne(Observe(t3, HELD), HELD, e.at);
  }

  lemma ButtonClock(a: Input, b: Input, d: Input, e: Input)
    requires 0 < a.at <= b.at <= d.at <= e.at
    ensures Clocked(0, [a, b, d, e])
  {
    assert [a, b, d, e][1..] == [b, d, e] && [b, d, e][1..] == [d, e] && [d, e][1..] == [e] && [e][1..] == [];
    assert Clocked(d.at, [e]);
    assert Clocked(b.at, [d, e]);
    assert Clocked(a.at, [b, d, e]);
  }

  lemma ExpiryOf(t: Trigger, now: int)
    requires t.latched && t.cfg.timeoutResetMs > 0 && now - t.lastTriggered > 1000 * t.cfg.timeoutResetMs
    ensures var u := Expire(t, now);
      u.marks == t.marks + [Expired(now)] && !u.latched && u.cfg == t.cfg && u.lastTriggered == t.lastTriggered
  {
    hide ExpireVerify, ExpireClicks;
    var a := ExpireClicks(t, now);
    assert a == t.(clicks := a.clicks) by { ClicksOnly(t, now); }
    var b := ExpireLatch(a, now);
    assert ExpireVerify(b, now) == b.(pendingVerify := ExpireVerify(b, now).pendingVerify) by { VerifyOnly(b, now); }
  }

  lemma ClicksOnly(t: Trigger, now: int)
    ensures ExpireClicks(t, now) == t.(clicks := ExpireClicks(t, now).clicks)
  {
  }

  lemma VerifyOnly(t: Trigger, now: int)
    ensures ExpireVerify(t, now) == t.(pendingVerify := ExpireVerify(t, now).pendingVerify)
  {
  }

  /** The bound of `CooldownHolds` is reached: a held button with any cooldown executes again after
      exactly that time, so after 50 milliseconds when none is configured. */
  lemma CooldownIsExact(cooldownMs: nat) returns (ins: seq<Input>, end: Trigger)
    ensures Clocked(0, ins) && Holds(Run(OneRule(Button(Always, cooldownMs, 0)), ins), end)
    ensures var at := 1_000_000 + CooldownUs(Button(Always, cooldownMs, 0));
      end.marks == [Seen(1_000_000), Fired(1_000_000), Seen(at), Fired(at)]
    ensures cooldownMs == 0 ==> CooldownUs(Button(Always, cooldownMs, 0)) == 50_000
  {
    hide OfferOne, Observe, Step;
    var c := Button(Always, cooldownMs, 0);
    var rs, t := OneRule(c), Fresh(c);
    var a, b := Rx(HELD, 1_000_000, false), Rx(HELD, 1_000_000 + CooldownUs(c), false);
    ins := [a] + ([b] + []);
    assert ins[1..] == [b] && [b][1..] == [] && Clocked(a.at, [b]);
    RunOne(rs, a, [b] + []);
    RxStep(rs, t, a.at);
    HeldFrame(t, a.at);
    var r1, t1 := Step(rs, a), OfferOne(Observe(t, HELD), HELD, a.at);
    assert t1.marks == [Seen(1_000_000), Fired(1_000_000)];
    RunOne(r1, b, []);
    RxStep(r1, t1, b.at);
    HeldFrame(t1, b.at);
    end := OfferOne(Observe(t1, HELD), HELD, b.at);
  }
}
