/** The flash mirror of main/persistent_settings.c: setters change a desired value in memory and
    wake a worker, which copies it to flash. Setters and worker interleave at the granularity of
    their atomic accesses; the value in flash is written by the worker alone. */
module Settings {
  import opened Wrappers
  import Schedules

  const RETRY_US := 5_000_000
  const MAX_RETRIES := 3
  const WORD := 0x1_0000_0000

  type Byte = b: int | 0 <= b < 256

  // ---------------------------------------------------------------- one flush

  /** The worker's own record of a setting. */
  datatype Setting = Setting(mirror: Byte, failures: nat, observed: nat, retryAt: int)

  /** A new generation of the setting gets a fresh retry budget. */
  function Observe(st: Setting, generation: nat): Setting {
    if generation == st.observed then st
    else st.(observed := generation, failures := 0, retryAt := 0)
  }

  /** Nothing to save, or nothing left to try. */
  predicate Resting(st: Setting, desired: Byte) {
    desired == st.mirror || st.failures > MAX_RETRIES
  }

  predicate Due(st: Setting, desired: Byte, now: int) {
    !Resting(st, desired) && st.retryAt <= now
  }

  /** The record after an attempt to save `desired` at `now`. */
  function Attempted(st: Setting, desired: Byte, now: int, saved: bool): Setting {
    if saved then st.(mirror := desired, failures := 0)
    else
      var failed := st.(failures := st.failures + 1);
      if failed.failures > MAX_RETRIES then failed else failed.(retryAt := now + RETRY_US)
  }

  /** When to come back; zero when there is nothing to come back for. */
  function AfterAttempt(st: Setting, saved: bool): int {
    if saved || st.failures > MAX_RETRIES then 0 else st.retryAt
  }

  /** `flush_setting` without interference. */
  function Flush(st: Setting, generation: nat, desired: Byte, now: int, saved: bool): (Setting, int) {
    var seen := Observe(st, generation);
    if Resting(seen, desired) then (seen, 0)
    else if now < seen.retryAt then (seen, seen.retryAt)
    else
      var done := Attempted(seen, desired, now, saved);
      (done, AfterAttempt(done, saved))
  }

  // ---------------------------------------------------------------- the interleaved system

  datatype Worker =
    | Parked(until: int)                 // zero: until notified
    | Awake                              // the notification has been taken
    | SawGeneration                      // the budget is that of the generation just read
    | Decided(desired: Byte, now: int)   // an attempt to save is under way
    | Saved(desired: Byte)               // flash has been written, the mirror has not

  /** An attempt to save, with the budget it is made from, the generation observed, counted without
      wrapping, and the saves that had succeeded before. */
  datatype Attempt = Attempt(epoch: nat, generation: nat, saves: nat, at: int)

  /** `changed` and `bumped` count setters that have replaced the value but not yet raised the
      generation, and raised it but not yet notified. `epoch` counts fresh budgets, `raised` the
      rises of the generation, of which the worker has observed `seen`. */
  datatype System = System(
    desired: Byte, generation: nat, changed: nat, bumped: nat, notified: bool,
    worker: Worker, setting: Setting, flash: Byte, clock: int,
    epoch: nat, raised: nat, seen: nat, saves: nat, attempts: seq<Attempt>)

  function Initial(stored: Byte, clock: int): System {
    System(stored, 0, 0, 0, false, Parked(0), Setting(stored, 0, 0, 0), stored, clock, 0, 0, 0, 0, [])
  }

  datatype Action =
    | Exchange(value: Byte) | Bump | Notify            // a setter
    | Wake | ReadGeneration | ReadDesired | Save(ok: bool) | Mirror   // the worker
    | Advance(us: nat)                                 // time

  function Do(s: System, a: Action): Option<System> {
    match a
    case Exchange(value) =>
      Some(if value == s.desired then s else s.(desired := value, changed := s.changed + 1))
    case Bump =>
      if s.changed == 0 then None
      else Some(s.(changed := s.changed - 1, bumped := s.bumped + 1, generation := (s.generation + 1) % WORD,
                   raised := s.raised + 1))
    case Notify => if s.bumped == 0 then None else Some(s.(bumped := s.bumped - 1, notified := true))
    case Wake =>
      if s.worker.Parked? && (s.notified || s.worker.until != 0)
      then Some(s.(worker := Awake, notified := false)) else None
    case ReadGeneration =>
      if s.worker.Awake? then
        Some(s.(worker := SawGeneration, setting := Observe(s.setting, s.generation), seen := s.raised,
                epoch := if s.generation == s.setting.observed then s.epoch else s.epoch + 1))
      else None
    case ReadDesired =>
      if !s.worker.SawGeneration? then None
      else if Resting(s.setting, s.desired) then Some(s.(worker := Parked(0)))
      else if s.clock < s.setting.retryAt then Some(s.(worker := Parked(s.setting.retryAt)))
      else Some(s.(worker := Decided(s.desired, s.clock),
                   attempts := s.attempts + [Attempt(s.epoch, s.seen, s.saves, s.clock)]))
    case Save(ok) =>
      if !s.worker.Decided? then None
      else if ok then Some(s.(worker := Saved(s.worker.desired), flash := s.worker.desired))
      else
        var failed := Attempted(s.setting, s.worker.desired, s.worker.now, false);
        Some(s.(setting := failed, worker := Parked(AfterAttempt(failed, false))))
    case Mirror =>
      if !s.worker.Saved? then None
      else Some(s.(setting := Attempted(s.setting, s.worker.desired, s.clock, true), worker := Parked(0),
                   epoch := s.epoch + 1, saves := s.saves + 1))
    case Advance(us) => Some(s.(clock := s.clock + us))
  }

  // ---------------------------------------------------------------- the invariant

  /** Some setter's wake-up is pending or still to come. */
  predicate WakeComing(s: System) {
    s.notified || s.changed > 0 || s.bumped > 0
  }

  /** The attempts made with the budget of the current epoch. */
  function Spent(attempts: seq<Attempt>, epoch: nat): nat
    decreases |attempts|
  {
    if attempts == [] || attempts[|attempts| - 1].epoch != epoch then 0
    else Spent(attempts[..|attempts| - 1], epoch) + 1
  }

  /** Attempts are in order, those of one epoch at least the retry interval apart and at most
      four of them. */
  predicate Spaced(attempts: seq<Attempt>)
    decreases |attempts|
  {
    if attempts == [] then true else
      var before, last := attempts[..|attempts| - 1], attempts[|attempts| - 1];
      && Spaced(before)
      && (before != [] ==>
            var prev := before[|before| - 1];
            && prev.epoch <= last.epoch
            && (prev.epoch == last.epoch ==> prev.at + RETRY_US <= last.at))
      && Spent(attempts, last.epoch) <= MAX_RETRIES + 1
  }

  ghost predicate Inv(s: System) {
    && 0 <= s.clock
    // flash and its mirror differ only between the write and the assignment
    && s.flash == (if s.worker.Saved? then s.worker.desired else s.setting.mirror)
    // no update is lost
    && (s.worker.Parked? && s.worker.until == 0 ==>
          s.desired == s.setting.mirror || WakeComing(s) || s.setting.failures == MAX_RETRIES + 1)
    && ((s.worker.Decided? || s.worker.Saved?) ==> s.desired == s.worker.desired || WakeComing(s))
    // the retry budget
    && s.setting.failures <= MAX_RETRIES + 1
    && (s.worker.Decided? || s.worker.Saved? ==> s.setting.failures <= MAX_RETRIES)
    && Spaced(s.attempts)
    && (s.attempts != [] ==> s.attempts[|s.attempts| - 1].epoch <= s.epoch)
    && Spent(s.attempts, s.epoch) == s.setting.failures + (if s.worker.Decided? || s.worker.Saved? then 1 else 0)
    && (s.worker.Decided? ==>
          s.attempts != [] && s.attempts[|s.attempts| - 1] == Attempt(s.epoch, s.seen, s.saves, s.worker.now))
    && (1 <= s.setting.failures <= MAX_RETRIES && !s.worker.Decided? && !s.worker.Saved? ==>
          s.attempts[|s.attempts| - 1].at + RETRY_US == s.setting.retryAt)
    && (s.attempts != [] ==> 0 <= s.attempts[|s.attempts| - 1].at)
    // coming back by itself
    && (s.setting.failures == 0 || s.worker.Decided? || s.worker.Saved? ==> s.setting.retryAt <= s.clock)
    && (s.worker.Parked? && s.worker.until != 0 ==>
          1 <= s.setting.failures <= MAX_RETRIES && s.worker.until == s.setting.retryAt)
  }

  lemma Append(attempts: seq<Attempt>, a: Attempt)
    ensures (attempts + [a])[..|attempts + [a]| - 1] == attempts
  {
  }

  lemma {:induction false} LaterEpoch(attempts: seq<Attempt>, epoch: nat)
    requires attempts != [] ==> attempts[|attempts| - 1].epoch < epoch
    ensures Spent(attempts, epoch) == 0
  {
  }

  lemma SetterKeepsInv(s: System, a: Action)
    requires Inv(s) && Do(s, a).Some? && (a.Exchange? || a.Bump? || a.Notify? || a.Wake? || a.Advance?)
    ensures Inv(Do(s, a).value)
  {
    hide Spaced, Spent;
  }

  lemma ReadGenerationKeepsInv(s: System)
    requires Inv(s) && s.worker.Awake?
    ensures Inv(Do(s, ReadGeneration).value)
  {
    hide Spaced;
    if s.generation != s.setting.observed {
      LaterEpoch(s.attempts, s.epoch + 1);
    }
  }

  lemma AttemptIsSpaced(attempts: seq<Attempt>, a: Attempt)
    requires Spaced(attempts) && Spent(attempts, a.epoch) <= MAX_RETRIES
    requires attempts != [] ==>
      var prev := attempts[|attempts| - 1];
      prev.epoch <= a.epoch && (prev.epoch == a.epoch ==> prev.at + RETRY_US <= a.at)
    ensures Spaced(attempts + [a]) && Spent(attempts + [a], a.epoch) == Spent(attempts, a.epoch) + 1
  {
    Append(attempts, a);
  }

  lemma NothingSpent(attempts: seq<Attempt>, epoch: nat)
    ensures Spent(attempts, epoch) == 0 <==> attempts == [] || attempts[|attempts| - 1].epoch != epoch
  {
  }

  lemma ReadDesiredKeepsInv(s: System)
    requires Inv(s) && s.worker.SawGeneration?
    ensures Inv(Do(s, ReadDesired).value)
  {
    hide Spaced, Spent;
    NothingSpent(s.attempts, s.epoch);
    if Due(s.setting, s.desired, s.clock) {
      var a := Attempt(s.epoch, s.seen, s.saves, s.clock);
      assert s.attempts != [] ==>
        var prev := s.attempts[|s.attempts| - 1];
        prev.epoch <= a.epoch && (prev.epoch == a.epoch ==> prev.at + RETRY_US <= a.at);
      AttemptIsSpaced(s.attempts, a);
      assert (s.attempts + [a])[|s.attempts + [a]| - 1] == a;
    }
  }

  lemma SaveKeepsInv(s: System, a: Action)
    requires Inv(s) && Do(s, a).Some? && (a.Save? || a.Mirror?)
    ensures Inv(Do(s, a).value)
  {
    hide Spaced;
    LaterEpoch(s.attempts, s.epoch + 1);
  }

  lemma StepKeepsInv(s: System, a: Action)
    requires Inv(s) && Do(s, a).Some?
    ensures Inv(Do(s, a).value)
  {
    hide Inv;
    match a
    case ReadGeneration => ReadGenerationKeepsInv(s);
    case ReadDesired => ReadDesiredKeepsInv(s);
    case Save(_) => SaveKeepsInv(s, a);
    case Mirror => SaveKeepsInv(s, a);
    case _ => SetterKeepsInv(s, a);
  }

  // ---------------------------------------------------------------- whole runs

  function Run(s: System, schedule: seq<Action>): System {
    Schedules.Run(Do, s, schedule)
  }

  lemma RunKeepsInv(s: System, schedule: seq<Action>)
    requires Inv(s)
    ensures Inv(Run(s, schedule))
  {
    hide Inv, Do;
    forall t, a | Inv(t) && Do(t, a).Some?
      ensures Inv(Do(t, a).value)
    {
      StepKeepsInv(t, a);
    }
    Schedules.RunKeeps(Do, t => Inv(t), s, schedule);
  }

  /** No lost update: under every schedule of setters, worker, failing saves and time, a worker
      parked with no retry scheduled has mirrored the desired value, or is about to be woken, or
      has spent all four attempts; one that waits for a retry comes back exactly five seconds after
      the last attempt; flash holds what the mirror says; and attempts of one budget are at least five
      seconds apart. */
  lemma NoLostUpdate(stored: Byte, clock: nat, schedule: seq<Action>)
    ensures var s := Run(Initial(stored, clock), schedule);
      && (s.worker == Parked(0) ==>
            s.desired == s.setting.mirror || WakeComing(s) || s.setting.failures == 4)
      && (s.worker.Parked? && s.worker.until != 0 ==>
            s.attempts != [] && s.worker.until == s.attempts[|s.attempts| - 1].at + 5_000_000)
      && (!s.worker.Saved? ==> s.flash == s.setting.mirror)
      && Spaced(s.attempts)
  {
    assert Inv(Initial(stored, clock));
    RunKeepsInv(Initial(stored, clock), schedule);
  }

  /** Once the setters are quiet and the worker has parked for good, flash holds the desired
      value unless the budget of the current generation ran out. */
  lemma QuietMeansSaved(stored: Byte, clock: nat, schedule: seq<Action>)
    ensures var s := Run(Initial(stored, clock), schedule);
      s.worker == Parked(0) && !WakeComing(s) && s.setting.failures <= 3 ==> s.flash == s.desired
  {
    NoLostUpdate(stored, clock, schedule);
    assert Inv(Initial(stored, clock));
    RunKeepsInv(Initial(stored, clock), schedule);
  }

  /** In an ordered list, two attempts of one budget are a retry interval apart per step between
      them. */
  lemma {:induction false} SpacedApart(attempts: seq<Attempt>, i: nat, j: nat)
    requires Spaced(attempts) && i <= j < |attempts| && attempts[i].epoch == attempts[j].epoch
    ensures attempts[i].at + (j - i) * 5_000_000 <= attempts[j].at
    ensures j - i <= 3
    decreases |attempts|
  {
    var before := attempts[..|attempts| - 1];
    if j < |before| {
      SpacedApart(before, i, j);
    } else {
      SpentCovers(attempts, i);
      if i < j {
        OrderedEpochs(before, i);
        SpacedApart(before, i, j - 1);
      }
    }
  }

  lemma {:induction false} OrderedEpochs(attempts: seq<Attempt>, i: nat)
    requires Spaced(attempts) && i < |attempts|
    ensures attempts[i].epoch <= attempts[|attempts| - 1].epoch
    decreases |attempts|
  {
    if i < |attempts| - 1 {
      OrderedEpochs(attempts[..|attempts| - 1], i);
    }
  }

  lemma {:induction false} SpentCovers(attempts: seq<Attempt>, i: nat)
    requires Spaced(attempts) && i < |attempts|
    requires attempts[i].epoch == attempts[|attempts| - 1].epoch
    ensures Spent(attempts, attempts[i].epoch) >= |attempts| - i
    decreases |attempts|
  {
    if i < |attempts| - 1 {
      var before := attempts[..|attempts| - 1];
      OrderedEpochs(before, i);
      SpentCovers(before, i);
    }
  }

  /** Without interference the worker's steps are `flush_setting`. */
  lemma StepsAreFlush(s: System, saved: bool)
    requires s.worker.Awake?
    ensures var end := Run(s, [ReadGeneration, ReadDesired, Save(saved), Mirror]);
      (end.setting, if end.worker.Parked? then end.worker.until else -1)
      == Flush(s.setting, s.generation, s.desired, s.clock, saved)
  {
    var s1 := Do(s, ReadGeneration).value;
    var s2 := Do(s1, ReadDesired).value;
    var r3 := Do(s2, Save(saved));
    var s3 := if r3.Some? then r3.value else s2;
    var r4 := Do(s3, Mirror);
    var s4 := if r4.Some? then r4.value else s3;
    assert [ReadGeneration, ReadDesired, Save(saved), Mirror][1..] == [ReadDesired, Save(saved), Mirror];
    assert [ReadDesired, Save(saved), Mirror][1..] == [Save(saved), Mirror];
    assert [Save(saved), Mirror][1..] == [Mirror];
    assert [Mirror][1..] == [];
    assert Schedules.Run(Do, s4, []) == s4;
    assert Schedules.Run(Do, s3, [Mirror]) == s4;
    assert Schedules.Run(Do, s2, [Save(saved), Mirror]) == s4;
    assert Schedules.Run(Do, s1, [ReadDesired, Save(saved), Mirror]) == s4;
  }

  // ---------------------------------------------------------------- one generation, several budgets

  /** Generations and saves only grow, and together they tell the budgets apart. */
  predicate Traced(attempts: seq<Attempt>)
    decreases |attempts|
  {
    if attempts == [] then true else
      var before, last := attempts[..|attempts| - 1], attempts[|attempts| - 1];
      && Traced(before)
      && (before != [] ==> Follows(before[|before| - 1], last))
  }

  predicate Follows(a: Attempt, b: Attempt) {
    && a.generation <= b.generation && a.saves <= b.saves && a.epoch <= b.epoch
    && (a.generation == b.generation ==> (a.epoch == b.epoch <==> a.saves == b.saves))
  }

  /** The attempt that the worker would make now. */
  function NextAttempt(s: System): Attempt {
    Attempt(s.epoch, s.seen, s.saves, s.clock)
  }

  ghost predicate TraceInv(s: System) {
    && Traced(s.attempts)
    && (s.attempts != [] ==> Follows(s.attempts[|s.attempts| - 1], NextAttempt(s)))
    && s.seen <= s.raised
    && s.generation == s.raised % WORD && s.setting.observed == s.seen % WORD
  }

  lemma AttemptKeepsTrace(s: System)
    requires TraceInv(s) && Do(s, ReadDesired).Some?
    ensures TraceInv(Do(s, ReadDesired).value)
  {
    Append(s.attempts, NextAttempt(s));
  }

  lemma BumpKeepsTrace(s: System)
    requires TraceInv(s) && Do(s, Bump).Some?
    ensures TraceInv(Do(s, Bump).value)
  {
    hide Traced;
  }

  lemma ObserveKeepsTrace(s: System)
    requires TraceInv(s) && Do(s, ReadGeneration).Some?
    ensures TraceInv(Do(s, ReadGeneration).value)
  {
    hide Traced;
  }

  lemma OtherKeepsTrace(s: System, a: Action)
    requires TraceInv(s) && Do(s, a).Some? && !a.ReadDesired? && !a.Bump? && !a.ReadGeneration?
    ensures TraceInv(Do(s, a).value)
  {
    hide Traced;
    var r := Do(s, a).value;
    assert r.attempts == s.attempts && r.generation == s.generation && r.raised == s.raised && r.seen == s.seen;
    assert r.setting.observed == s.setting.observed;
    assert (r.epoch, r.saves) == (s.epoch, s.saves) || (r.epoch, r.saves) == (s.epoch + 1, s.saves + 1);
  }

  lemma StepKeepsTrace(s: System, a: Action)
    requires TraceInv(s) && Do(s, a).Some?
    ensures TraceInv(Do(s, a).value)
  {
    hide TraceInv;
    match a
    case ReadDesired => AttemptKeepsTrace(s);
    case Bump => BumpKeepsTrace(s);
    case ReadGeneration => ObserveKeepsTrace(s);
    case _ => OtherKeepsTrace(s, a);
  }

  lemma {:induction false} TraceFollows(attempts: seq<Attempt>, i: nat, j: nat)
    requires Traced(attempts) && i <= j < |attempts|
    ensures Follows(attempts[i], attempts[j])
    decreases |attempts|
  {
    if j < |attempts| - 1 {
      TraceFollows(attempts[..|attempts| - 1], i, j);
    } else if i < j {
      TraceFollows(attempts[..|attempts| - 1], i, j - 1);
    }
  }

  /** Two attempts made for one generation draw on one budget exactly when no save has succeeded in
      between; then they are a retry interval apart per step between them, and at most four. */
  lemma OneGenerationOneBudget(stored: Byte, clock: nat, schedule: seq<Action>, i: nat, j: nat)
    requires i <= j < |Run(Initial(stored, clock), schedule).attempts|
    requires var l := Run(Initial(stored, clock), schedule).attempts; l[i].generation == l[j].generation
    ensures var l := Run(Initial(stored, clock), schedule).attempts;
      && (l[i].epoch == l[j].epoch <==> l[i].saves == l[j].saves)
      && (l[i].saves == l[j].saves ==> l[i].at + (j - i) * 5_000_000 <= l[j].at && j - i <= 3)
  {
    hide Run, Do;
    var s0 := Initial(stored, clock);
    forall t, a | TraceInv(t) && Do(t, a).Some?
      ensures TraceInv(Do(t, a).value)
    {
      StepKeepsTrace(t, a);
    }
    Schedules.RunKeeps(Do, t => TraceInv(t), s0, schedule);
    assert Run(s0, schedule) == Schedules.Run(Do, s0, schedule) by { RunIs(s0, schedule); }
    NoLostUpdate(stored, clock, schedule);
    var l := Run(s0, schedule).attempts;
    TraceFollows(l, i, j);
    if l[i].saves == l[j].saves {
      SpacedApart(l, i, j);
    }
  }

  lemma RunIs(s: System, schedule: seq<Action>)
    ensures Run(s, schedule) == Schedules.Run(Do, s, schedule)
  {
  }

  /** Two setters replace the value one after the other; the first one's notification wakes the
      worker and the second one's is still to come. */
  lemma TwoSetters() returns (schedule: seq<Action>, s: System)
    ensures Run(Initial(0, 0), schedule) == s
    ensures s == Initial(0, 0).(desired := 2, generation := 2, raised := 2, bumped := 1, worker := Awake)
  {
    hide Run;
    s := Initial(0, 0);
    schedule := Schedules.Start(Do, s);
    RunIs(s, schedule);
    schedule, s := Then(schedule, s, Exchange(1));
    schedule, s := Then(schedule, s, Bump);
    schedule, s := Then(schedule, s, Exchange(2));
    schedule, s := Then(schedule, s, Bump);
    schedule, s := Then(schedule, s, Notify);
    schedule, s := Then(schedule, s, Wake);
  }

  /** The worker observes both generations and saves; the second notification is left over. */
  lemma SavedWithWakeLeft() returns (schedule: seq<Action>, s: System)
    ensures Run(Initial(0, 0), schedule) == s
    ensures s.worker == Parked(0) && s.notified && s.desired == 2 && s.setting == Setting(2, 0, 2, 0)
    ensures s.generation == 2 && s.seen == 2 && s.raised == 2 && s.clock == 0
    ensures s.attempts == [Attempt(1, 2, 0, 0)]
  {
    hide Run;
    schedule, s := TwoSetters();
    schedule, s := Then(schedule, s, ReadGeneration);
    schedule, s := Then(schedule, s, ReadDesired);
    assert s.worker == Decided(2, 0) && s.setting == Setting(0, 0, 2, 0) && s.bumped == 1;
    schedule, s := Then(schedule, s, Notify);
    schedule, s := Then(schedule, s, Save(true));
    schedule, s := Then(schedule, s, Mirror);
  }

  /** The condition matters: a value replaced just after a save, before the generation has risen,
      is attempted under the generation already seen, with no interval at all. */
  lemma SaveStartsANewBudget() returns (schedule: seq<Action>)
    ensures var l := Run(Initial(0, 0), schedule).attempts;
      |l| == 2 && l[0].generation == l[1].generation && l[0].at == l[1].at
  {
    hide Run;
    var s: System;
    schedule, s := SavedWithWakeLeft();
    schedule, s := Then(schedule, s, Exchange(3));
    schedule, s := Then(schedule, s, Wake);
    schedule, s := Then(schedule, s, ReadGeneration);
    schedule, s := Then(schedule, s, ReadDesired);
  }

  lemma Then(schedule: seq<Action>, s: System, a: Action) returns (longer: seq<Action>, t: System)
    requires Run(Initial(0, 0), schedule) == s && Do(s, a).Some?
    ensures Run(Initial(0, 0), longer) == t == Do(s, a).value
  {
    longer := Schedules.Then(Do, Initial(0, 0), schedule, s, a);
    t := Do(s, a).value;
  }

  // ---------------------------------------------------------------- the worker's code

  /** One mirrored setting; `nextSave` tells how the next write to flash will go. */
  class MirroredSetting {
    var flashMirror: Byte
    var saveFailures: nat
    var observedGeneration: nat
    var retryAt: int

    ghost function Value(): Setting
      reads this
    {
      Setting(flashMirror, saveFailures, observedGeneration, retryAt)
    }

    /** `flush_setting`: what it reads of the shared state, and how a save goes, are inputs. */
    method FlushSetting(generation: nat, desired: Byte, now: int, saveOk: bool) returns (next: int)
      modifies this
      ensures (Value(), next) == Flush(old(Value()), generation, desired, now, saveOk)
    {
      if generation != observedGeneration {
        observedGeneration := generation;
        saveFailures := 0;
        retryAt := 0;
      }
      if desired == flashMirror || saveFailures > MAX_RETRIES {
        return 0;
      }
      if now < retryAt {
        return retryAt;
      }
      if saveOk {
        flashMirror := desired;
        saveFailures := 0;
        return 0;
      }
      saveFailures := saveFailures + 1;
      if saveFailures > MAX_RETRIES {
        return 0;
      }
      retryAt := now + RETRY_US;
      return retryAt;
    }

    constructor (stored: Byte)
      ensures Value() == Setting(stored, 0, 0, 0)
    {
      flashMirror, saveFailures, observedGeneration, retryAt := stored, 0, 0, 0;
    }
  }

  /** What one flush reads: generation, desired value, clock, and the outcome of a save. */
  datatype Reading = Reading(generation: nat, desired: Byte, now: int, saveOk: bool)

  /** `flush_pending_settings`: flush every setting and return the earliest retry, zero if none. */
  method FlushPending(settings: seq<MirroredSetting>, readings: seq<Reading>) returns (next: int)
    requires |readings| == |settings|
    requires forall i, j :: 0 <= i < j < |settings| ==> settings[i] != settings[j]
    requires forall i :: 0 <= i < |settings| ==> 0 <= readings[i].now && 0 <= settings[i].retryAt
    modifies set s | s in settings
    ensures forall i :: 0 <= i < |settings| ==>
              settings[i].Value() == FlushOf(old(settings[i].Value()), readings[i]).0
    ensures next == 0 <==>
              forall i :: 0 <= i < |settings| ==> FlushOf(old(settings[i].Value()), readings[i]).1 == 0
    ensures next != 0 ==>
      && (exists i :: 0 <= i < |settings| && next == FlushOf(old(settings[i].Value()), readings[i]).1)
      && (forall i :: 0 <= i < |settings| ==>
            var r := FlushOf(old(settings[i].Value()), readings[i]).1; r == 0 || next <= r)
  {
    next := 0;
    var id := 0;
    while id < |settings|
      invariant 0 <= id <= |settings|
      invariant forall i :: id <= i < |settings| ==> settings[i].Value() == old(settings[i].Value())
      invariant forall i :: 0 <= i < id ==>
                  settings[i].Value() == FlushOf(old(settings[i].Value()), readings[i]).0
      invariant next == 0 <==>
                  forall i :: 0 <= i < id ==> FlushOf(old(settings[i].Value()), readings[i]).1 == 0
      invariant next != 0 ==>
        && (exists i :: 0 <= i < id && next == FlushOf(old(settings[i].Value()), readings[i]).1)
        && (forall i :: 0 <= i < id ==>
              var r := FlushOf(old(settings[i].Value()), readings[i]).1; r == 0 || next <= r)
    {
      var r := readings[id];
      var retryAt := settings[id].FlushSetting(r.generation, r.desired, r.now, r.saveOk);
      if retryAt != 0 && (next == 0 || retryAt < next) {
        next := retryAt;
      }
      id := id + 1;
    }
  }

  function FlushOf(st: Setting, r: Reading): (Setting, int) {
    Flush(st, r.generation, r.desired, r.now, r.saveOk)
  }
}
