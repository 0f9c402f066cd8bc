/** The trigger engine of main/autopid.c on values: rules whose triggers watch CAN frames, count
    clicks, time holds, latch, wait for confirmation and keep a cooldown. What a rule does when it
    fires is not modelled; that it fires, when and for which trigger is recorded. */
module CanDo {
  import opened Wrappers

  const DEFAULT_COOLDOWN_MS: nat := 50
  const DEFAULT_CLICK_WINDOW_MS: nat := 450
  const DEFAULT_VERIFY_TIMEOUT_MS: nat := 3000

  // ---------------------------------------------------------------- frames and patterns

  /** A received frame. `holding` tells which trigger expressions evaluate to something other than
      zero on it. */
  datatype Frame = Frame(bus: nat, id: nat, ext: bool, dlc: Length, data: Payload, holding: set<string>)

  type Payload = s: seq<bv8> | |s| == 8 witness [0, 0, 0, 0, 0, 0, 0, 0]
  type Length = n: nat | n <= 8

  datatype Cell = Cell(value: bv8, mask: bv8)

  predicate Agree(c: Cell, b: bv8) {
    b & c.mask == c.value & c.mask
  }

  /** Every cell with a mask finds its byte among the first `limit` and agrees with it. */
  predicate Matches(pattern: seq<Cell>, data: seq<bv8>, limit: nat)
    requires limit <= |data|
  {
    forall i :: 0 <= i < |pattern| && pattern[i].mask != 0 ==> i < limit && Agree(pattern[i], data[i])
  }

  // ---------------------------------------------------------------- triggers

  datatype Mode = Always | OneShot | OnChange | PollVerify

  /** The configuration of a trigger; absent filters are None and zero means unset. */
  datatype Config = Config(
    isCan: bool, bus: nat, canId: nat, ext: bool, mode: Mode,
    from: Option<seq<Cell>>, to: Option<seq<Cell>>, anyChange: bool, isExpression: bool, expression: string,
    forMs: nat, clickTarget: nat, clickWindowMs: nat, cooldownMs: nat,
    resetId: nat, timeoutResetMs: nat, verifyId: nat, verify: Option<seq<Cell>>)

  /** What a trigger went through: a frame offered to it met its condition, a hold began, the
      condition was released, a click was counted, the rule fired for it or in combination with it, a
      confirmation arrived, or its latch was re-armed by a reset frame or by time. A frame that the
      loop does not offer it, because a combination has executed before, and a reset frame are not
      held against its condition. */
  datatype Mark =
    | Seen(at: int) | Asserted(at: int) | Released(at: int) | Clicked(at: int)
    | Fired(at: int) | Shared(at: int) | Confirmed(at: int) | Reset(at: int) | Expired(at: int)

  datatype Trigger = Trigger(
    cfg: Config, last: Option<Payload>, assertedSince: int, holdFired: bool, isHeld: bool, wasPressed: bool,
    clicks: nat, lastClick: int, pendingVerify: bool, latched: bool, lastTriggered: int, marks: seq<Mark>)

  function Fresh(cfg: Config): Trigger {
    Trigger(cfg, None, 0, false, false, false, 0, 0, false, false, 0, [])
  }

  function CooldownUs(c: Config): nat {
    1000 * (if c.cooldownMs > 0 then c.cooldownMs else DEFAULT_COOLDOWN_MS)
  }

  function WindowUs(c: Config): nat {
    1000 * (if c.clickWindowMs > 0 then c.clickWindowMs else DEFAULT_CLICK_WINDOW_MS)
  }

  function VerifyTimeoutUs(c: Config): nat {
    1000 * (if c.timeoutResetMs > 0 then c.timeoutResetMs else DEFAULT_VERIFY_TIMEOUT_MS)
  }

  predicate Addressed(c: Config, f: Frame) {
    c.isCan && c.bus == f.bus && c.canId == f.id && c.ext == f.ext
  }

  predicate Changed(t: Trigger, f: Frame)
  {
    t.last.None? || t.last.value[..f.dlc] != f.data[..f.dlc]
  }

  /** `cando_evaluate_trigger`. */
  predicate Evaluate(t: Trigger, f: Frame)
  {
    var c := t.cfg;
    && Addressed(c, f)
    && (c.from.Some? && t.last.Some? ==> Matches(c.from.value, t.last.value, 8))
    && (c.to.Some? ==> Matches(c.to.value, f.data, f.dlc))
    && (c.anyChange || (c.from.None? && c.to.None? && !c.isExpression) ==> Changed(t, f))
    && (c.isExpression ==> c.expression in f.holding)
  }

  /** The frame shows the state the trigger starts from, or no longer the one it waits for. */
  predicate IsRelease(c: Config, f: Frame)
  {
    if c.from.Some? then Matches(c.from.value, f.data, f.dlc)
    else c.to.Some? && !Matches(c.to.value, f.data, f.dlc)
  }

  function Note(t: Trigger, m: Mark): Trigger {
    t.(marks := t.marks + [m])
  }

  /** The first pass over the triggers of a rule. */
  function Observe(t: Trigger, f: Frame): Trigger
  {
    if !Addressed(t.cfg, f) then t
    else if Evaluate(t, f) then t.(isHeld := true, wasPressed := true)
    else if IsRelease(t.cfg, f) then t.(isHeld := false)
    else t
  }

  predicate IsReset(c: Config, f: Frame) {
    c.resetId > 0 && f.id == c.resetId
  }

  function Rearm(t: Trigger, now: int): Trigger {
    Note(t.(latched := false, pendingVerify := false), Reset(now))
  }

  function Confirm(t: Trigger, f: Frame, now: int): Trigger
  {
    if && t.cfg.mode == PollVerify && t.pendingVerify
       && t.cfg.verifyId > 0 && f.id == t.cfg.verifyId
       && (t.cfg.verify.Some? ==> Matches(t.cfg.verify.value, f.data, f.dlc))
    then Note(t.(pendingVerify := false, latched := true, lastTriggered := now), Confirmed(now))
    else t
  }

  function Store(t: Trigger, f: Frame): Trigger
  {
    // bytes past the length of the frame keep what they held, zero at first
    var tail := if t.last.Some? then t.last.value[f.dlc..] else seq(8 - f.dlc, _ => 0);
    t.(last := Some(f.data[..f.dlc] + tail))
  }

  function LetGo(t: Trigger, now: int): Trigger {
    Note(t.(latched := false, assertedSince := 0, holdFired := false, isHeld := false), Released(now))
  }

  function Click(t: Trigger, now: int): Trigger {
    var n := if t.clicks > 0 && now - t.lastClick <= WindowUs(t.cfg) then t.clicks + 1 else 1;
    Note(t.(wasPressed := false, clicks := n, lastClick := now), Clicked(now))
  }

  /** The hold timer: whether the trigger may go on to fire. */
  function Hold(t: Trigger, now: int): (Trigger, bool) {
    if t.cfg.forMs == 0 then (t, true)
    else if t.assertedSince == 0 then (Note(t.(assertedSince := now), Asserted(now)), false)
    else if now - t.assertedSince < 1000 * t.cfg.forMs then (t, false)
    else if t.holdFired then (t, false)
    else (t.(holdFired := true), true)
  }

  /** What the execution mode lets through, latching as it does. */
  function ModeGate(t: Trigger, changed: bool): (Trigger, bool) {
    match t.cfg.mode
    case Always => (t, true)
    case OneShot => if t.latched then (t, false) else (t.(latched := true), true)
    case PollVerify => if t.latched || t.pendingVerify then (t, false) else (t.(pendingVerify := true), true)
    case OnChange => (t, changed)
  }

  /** The trigger is charged with an execution. */
  function Charge(t: Trigger, now: int): Trigger {
    Note(t.(lastTriggered := now), Fired(now))
  }

  /** Another trigger of a combination fired for all of them. */
  function Share(t: Trigger, now: int): Trigger {
    Note(t.(lastTriggered := now, latched := t.latched || t.cfg.mode == OneShot), Shared(now))
  }

  // ---------------------------------------------------------------- rules

  datatype Rule = Rule(enabled: bool, combineAll: bool, triggers: seq<Trigger>, execCount: nat)

  predicate Combo(r: Rule) {
    r.combineAll && |r.triggers| > 1
  }

  predicate OthersHeld(r: Rule, k: nat) {
    forall i :: 0 <= i < |r.triggers| && i != k ==> r.triggers[i].isHeld
  }

  predicate AllHeld(r: Rule) {
    forall i :: 0 <= i < |r.triggers| ==> r.triggers[i].isHeld
  }

  function Put(r: Rule, k: nat, t: Trigger): Rule
    requires k < |r.triggers|
  {
    r.(triggers := r.triggers[k := t])
  }

  function ShareAll(r: Rule, now: int): Rule {
    r.(triggers := seq(|r.triggers|, i requires 0 <= i < |r.triggers| => Share(r.triggers[i], now)))
  }

  /** Execute the rule for trigger `k`. */
  function Fire(r: Rule, k: nat, now: int): Rule
    requires k < |r.triggers|
  {
    Put(r, k, Charge(r.triggers[k], now)).(execCount := r.execCount + 1)
  }

  /** The frame matches: hold, combination, cooldown and mode decide. Whether the combination is
      done with this frame is returned too. */
  function Press(r: Rule, k: nat, changed: bool, now: int): (s: (Rule, bool))
    requires k < |r.triggers|
    ensures |s.0.triggers| == |r.triggers|
  {
    var t := Note(r.triggers[k].(isHeld := true, wasPressed := true), Seen(now));
    if t.cfg.clickTarget > 1 then (Put(r, k, t), false) else
    var (h, ripe) := Hold(t, now);
    var s := Put(r, k, h);
    if !ripe || (Combo(r) && !AllHeld(s)) then (s, false)
    else if h.lastTriggered > 0 && now - h.lastTriggered < CooldownUs(h.cfg) then (s, false)
    else
      var (g, open) := ModeGate(h, changed);
      if !open then (s, false)
      else
        var fired := Fire(Put(r, k, g), k, now);
        if Combo(r) then (ShareAll(fired, now), true) else (fired, false)
  }

  /** The frame is a release: re-arm, and count a click when the trigger waits for several. */
  function Release(r: Rule, k: nat, f: Frame, now: int): Rule
    requires k < |r.triggers|
  {
    var t := LetGo(r.triggers[k], now);
    if t.cfg.clickTarget <= 1 || !t.wasPressed then Put(r, k, Store(t, f)) else
    var c := Click(t, now);
    if c.clicks < c.cfg.clickTarget then Put(r, k, Store(c, f)) else
    var done := c.(clicks := 0);
    if Combo(r) && !OthersHeld(r, k) then Put(r, k, done)
    else if done.lastTriggered == 0 || now - done.lastTriggered >= CooldownUs(done.cfg)
    then Put(r, k, Store(Charge(done, now), f)).(execCount := r.execCount + 1)
    else Put(r, k, Store(done, f))
  }

  /** One trigger meets one frame. */
  function Offer(r: Rule, k: nat, f: Frame, now: int): (s: (Rule, bool))
    requires k < |r.triggers|
    ensures |s.0.triggers| == |r.triggers|
  {
    var t := r.triggers[k];
    if !Addressed(t.cfg, f) then (r, false)
    else if IsReset(t.cfg, f) then (Put(r, k, Rearm(t, now)), false)
    else
      var v := Confirm(t, f, now);
      if Evaluate(v, f) then Press(Put(r, k, Store(v, f)), k, Changed(v, f), now)
      else if IsRelease(v.cfg, f) then (Release(Put(r, k, v), k, f, now), false)
      else (Put(r, k, Store(v, f)), false)
  }

  function ObserveAll(r: Rule, f: Frame): Rule
  {
    r.(triggers := seq(|r.triggers|, i requires 0 <= i < |r.triggers| => Observe(r.triggers[i], f)))
  }

  /** Offer a frame to the triggers from the `k`-th on. */
  function OfferFrom(r: Rule, k: nat, f: Frame, now: int): (s: Rule)
    requires k <= |r.triggers|
    ensures |s.triggers| == |r.triggers|
    decreases |r.triggers| - k
  {
    if k == |r.triggers| then r else
      var (s, done) := Offer(r, k, f, now);
      if done then s else OfferFrom(s, k + 1, f, now)
  }

  /** `cando_process_rx_frame` for one rule. */
  function RxRule(r: Rule, f: Frame, now: int): (s: Rule)
    ensures |s.triggers| == |r.triggers|
  {
    if r.enabled then OfferFrom(ObserveAll(r, f), 0, f, now) else r
  }

  // ---------------------------------------------------------------- time

  function ExpireClicks(t: Trigger, now: int): Trigger {
    if t.clicks > 0 && now - t.lastClick > WindowUs(t.cfg) then t.(clicks := 0) else t
  }

  function ExpireLatch(t: Trigger, now: int): Trigger {
    if t.latched && t.cfg.timeoutResetMs > 0 && now - t.lastTriggered > 1000 * t.cfg.timeoutResetMs
    then Note(t.(latched := false), Expired(now)) else t
  }

  function ExpireVerify(t: Trigger, now: int): Trigger {
    if t.cfg.mode == PollVerify && t.pendingVerify && now - t.lastTriggered > VerifyTimeoutUs(t.cfg)
    then t.(pendingVerify := false) else t
  }

  function Expire(t: Trigger, now: int): Trigger {
    ExpireVerify(ExpireLatch(ExpireClicks(t, now), now), now)
  }

  /** `cando_process_timer_tick` for one rule, apart from toggled rules that revert. */
  function TickRule(r: Rule, now: int): (s: Rule)
    ensures |s.triggers| == |r.triggers|
  {
    if r.enabled
    then r.(triggers := seq(|r.triggers|, i requires 0 <= i < |r.triggers| => Expire(r.triggers[i], now)))
    else r
  }

  // ---------------------------------------------------------------- whole runs

  /** `off` stands for a capture in progress, or for reverse-engineering mode at a timer tick. */
  datatype Input = Rx(f: Frame, at: int, off: bool) | Timer(at: int, off: bool)

  function StepRule(r: Rule, i: Input): (s: Rule)
    ensures |s.triggers| == |r.triggers|
  {
    if i.off then r else
      match i
      case Rx(f, at, _) => RxRule(r, f, at)
      case Timer(at, _) => TickRule(r, at)
  }

  function Step(rs: seq<Rule>, i: Input): (ss: seq<Rule>)
    ensures |ss| == |rs|
  {
    seq(|rs|, j requires 0 <= j < |rs| => StepRule(rs[j], i))
  }

  function Run(rs: seq<Rule>, ins: seq<Input>): (ss: seq<Rule>)
    ensures |ss| == |rs|
    decreases |ins|
  {
    if ins == [] then rs else Run(Step(rs, ins[0]), ins[1..])
  }

  /** The clock is positive and never runs backwards. */
  predicate Clocked(since: int, ins: seq<Input>)
    decreases |ins|
  {
    ins != [] ==> 0 < ins[0].at && since <= ins[0].at && Clocked(ins[0].at, ins[1..])
  }

  /** Rules as loaded: every trigger at rest, nothing executed. */
  predicate Loaded(rs: seq<Rule>) {
    forall j :: 0 <= j < |rs| ==> rs[j].execCount == 0 && forall t :: t in rs[j].triggers ==> t == Fresh(t.cfg)
  }
}
