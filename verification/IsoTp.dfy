/** The ISO-TP transmitter of main/isotp_tx.c on values: the three leaf states of its machine and
    what each dispatch does to the transfer, with a history of the frames sent and received. Sending
    on the bus may fail at any time; that is an input. So is the moment at which a requester, having
    published a start, writes its deadline: the worker may run before. */
module IsoTp {
  import opened Wrappers

  const MAX_PAYLOAD := 4095
  const NO_DEADLINE := 0x7FFF_FFFF_FFFF_FFFF
  const SINGLE_DATA := 7
  const FIRST_DATA := 6
  const CONSECUTIVE_DATA := 7

  type Byte = b: int | 0 <= b < 256

  datatype Leaf = Idle | WaitFlowControl | SendConsecutive
  datatype Result = NoResult | InProgress | Success | Timeout | Overflow | ProtocolError | SendError

  datatype Config = Config(timeoutUs: nat, maxWaitFrames: Byte, padding: Byte)

  /** A received CAN frame: whether bus and identifier are those of the flow-control channel. */
  datatype RxFrame = RxFrame(onChannel: bool, dlc: nat, data: seq<Byte>)

  /** What has happened in the current transfer: frames sent, frames of the channel received while
      waiting for one, a frame that the bus did not take, and the waiting given up. */
  datatype Event =
    | Sent(at: int, frame: seq<Byte>)
    | Received(at: int, f: RxFrame)
    | Refused(at: int)
    | Expired(at: int)

  /** `owed`: a requester has published its start and has yet to write its deadline. */
  datatype Tx = Tx(
    leaf: Leaf, busy: bool, startPending: bool, owed: bool, result: Result, deadline: int,
    payload: seq<Byte>, offset: nat, separationUs: nat,
    blockSize: Byte, blockSent: Byte, sequence: nat, waitFrames: Byte,
    log: seq<Event>)

  // ---------------------------------------------------------------- frames

  function Padded(cfg: Config, s: seq<Byte>): seq<Byte> {
    if |s| < 8 then s + seq(8 - |s|, _ => cfg.padding) else s
  }

  function SingleFrame(cfg: Config, payload: seq<Byte>): seq<Byte>
    requires |payload| <= SINGLE_DATA
  {
    Padded(cfg, [|payload|] + payload)
  }

  function FirstFrame(payload: seq<Byte>): seq<Byte>
    requires FIRST_DATA <= |payload| <= MAX_PAYLOAD
  {
    [0x10 + |payload| / 256, |payload| % 256] + payload[..FIRST_DATA]
  }

  function ConsecutiveFrame(cfg: Config, sequence: nat, chunk: seq<Byte>): seq<Byte>
    requires sequence < 16 && |chunk| <= CONSECUTIVE_DATA
  {
    Padded(cfg, [0x20 + sequence] + chunk)
  }

  /** The separation time a flow-control byte asks for; reserved values ask for the longest. */
  function DecodeSeparationUs(encoded: Byte): nat {
    if encoded <= 0x7F then encoded * 1000
    else if 0xF1 <= encoded <= 0xF9 then (encoded - 0xF0) * 100
    else 127000
  }

  // ---------------------------------------------------------------- the handlers

  function Finish(tx: Tx, result: Result): Tx {
    tx.(result := result, busy := false, deadline := NO_DEADLINE)
  }

  /** `finish` followed by the transition to idle. */
  function Abort(tx: Tx, result: Result): Tx {
    Finish(tx, result).(leaf := Idle)
  }

  function Logged(tx: Tx, e: Event): Tx {
    tx.(log := tx.log + [e])
  }

  function Transmit(tx: Tx, at: int, frame: seq<Byte>): Tx {
    Logged(tx, Sent(at, frame))
  }

  ghost predicate SizeOk(tx: Tx) {
    1 <= |tx.payload| <= MAX_PAYLOAD
  }

  /** The start event in the idle state. */
  function IdleStart(cfg: Config, tx: Tx, now: int, sendOk: bool): Tx
    requires SizeOk(tx)
  {
    if |tx.payload| <= SINGLE_DATA then
      if sendOk then Finish(Transmit(tx, now, SingleFrame(cfg, tx.payload)), Success)
      else Finish(Logged(tx, Refused(now)), SendError)
    else if !sendOk then Finish(Logged(tx, Refused(now)), SendError)
    else
      Transmit(tx, now, FirstFrame(tx.payload)).(
        offset := FIRST_DATA, sequence := 1, waitFrames := 0,
        deadline := now + cfg.timeoutUs, leaf := WaitFlowControl)
  }

  function WaitTick(tx: Tx, now: int): Tx {
    if tx.deadline <= now then Abort(Logged(tx, Expired(now)), Timeout) else tx
  }

  /** Continue to send: a new block with a new separation time. */
  function Continue(tx: Tx, now: int, blockSize: Byte, separationUs: nat): Tx {
    tx.(blockSize := blockSize, blockSent := 0, waitFrames := 0, separationUs := separationUs,
        deadline := now, leaf := SendConsecutive)
  }

  /** Wait: the eight-bit counter wraps before it is compared. */
  function CountWait(cfg: Config, tx: Tx, now: int): Tx {
    var waited := tx.(waitFrames := (tx.waitFrames + 1) % 256);
    if waited.waitFrames > cfg.maxWaitFrames then Abort(waited, Timeout)
    else waited.(deadline := now + cfg.timeoutUs)
  }

  function WaitRx(cfg: Config, tx: Tx, now: int, f: RxFrame): Tx
    requires f.dlc >= 3 ==> |f.data| >= 3
  {
    if !f.onChannel then tx else
      var heard := Logged(tx, Received(now, f));
      if f.dlc < 3 || f.data[0] / 16 != 3 then Abort(heard, ProtocolError)
      else match f.data[0] % 16
        case 0 => Continue(heard, now, f.data[1], DecodeSeparationUs(f.data[2]))
        case 1 => CountWait(cfg, heard, now)
        case 2 => Abort(heard, Overflow)
        case _ => Abort(heard, ProtocolError)
  }

  function ChunkSize(tx: Tx): nat
    requires tx.offset <= |tx.payload|
  {
    var remaining := |tx.payload| - tx.offset;
    if remaining < CONSECUTIVE_DATA then remaining else CONSECUTIVE_DATA
  }

  /** Account for a consecutive frame of `n` bytes; the counters wrap. */
  function Counted(tx: Tx, n: nat): Tx {
    tx.(offset := tx.offset + n, sequence := (tx.sequence + 1) % 16, blockSent := (tx.blockSent + 1) % 256)
  }

  /** After a consecutive frame: done, block full, or on to the next. */
  function Advance(cfg: Config, tx: Tx, now: int): Tx {
    if |tx.payload| <= tx.offset then Abort(tx, Success)
    else if tx.blockSize != 0 && tx.blockSize <= tx.blockSent then
      tx.(waitFrames := 0, deadline := now + cfg.timeoutUs, leaf := WaitFlowControl)
    else tx.(deadline := now + tx.separationUs)
  }

  function SendTick(cfg: Config, tx: Tx, now: int, sendOk: bool): Tx
    requires tx.offset <= |tx.payload| && tx.sequence < 16
  {
    if now < tx.deadline then tx
    else if !sendOk then Abort(Logged(tx, Refused(now)), SendError)
    else
      var n := ChunkSize(tx);
      var frame := ConsecutiveFrame(cfg, tx.sequence, tx.payload[tx.offset..tx.offset + n]);
      Advance(cfg, Counted(Transmit(tx, now, frame), n), now)
  }

  // ---------------------------------------------------------------- the public operations

  ghost predicate WellTyped(tx: Tx) {
    && tx.offset <= |tx.payload| && tx.sequence < 16
    && (tx.startPending ==> SizeOk(tx))
  }

  /** `isotp_tx_start` up to the published start. Nobody gets here while a deadline is owed: its
      requester still holds the request lock. */
  function Request(tx: Tx, payload: seq<Byte>): Tx {
    if payload == [] || MAX_PAYLOAD < |payload| || tx.busy || tx.owed then tx
    else tx.(payload := payload, offset := 0, result := InProgress, busy := true, startPending := true,
             owed := true, log := [])
  }

  /** The rest of it: the clock reading `at` becomes the deadline, whatever the worker has done
      since. */
  function WriteDeadline(tx: Tx, at: int): Tx {
    if tx.owed then tx.(deadline := at, owed := false) else tx
  }

  /** A write that came while a handler had read the deadline and not yet written its own. */
  function LoseDeadline(tx: Tx): Tx {
    tx.(owed := false)
  }

  /** `isotp_tx_tick`: a pending start is dispatched as an event, otherwise the leaf ticks. */
  function Work(cfg: Config, tx: Tx, now: int, sendOk: bool): Tx
    requires WellTyped(tx)
  {
    if tx.startPending then
      var taken := tx.(startPending := false);
      if tx.leaf.Idle? then IdleStart(cfg, taken, now, sendOk) else taken
    else match tx.leaf
      case Idle => tx
      case WaitFlowControl => WaitTick(tx, now)
      case SendConsecutive => SendTick(cfg, tx, now, sendOk)
  }

  function Receive(cfg: Config, tx: Tx, now: int, f: RxFrame): Tx
    requires f.dlc >= 3 ==> |f.data| >= 3
  {
    if tx.busy && tx.leaf.WaitFlowControl? then WaitRx(cfg, tx, now, f) else tx
  }

  datatype Input =
    | StartRequest(payload: seq<Byte>)
    | DeadlineWritten(at: int)
    | DeadlineLost
    | Tick(now: int, sendOk: bool)
    | Frame(now: int, f: RxFrame)

  predicate InputOk(i: Input) {
    i.Frame? && i.f.dlc >= 3 ==> |i.f.data| >= 3
  }

  function Step(cfg: Config, tx: Tx, i: Input): Tx
    requires WellTyped(tx) && InputOk(i)
  {
    match i
    case StartRequest(payload) => Request(tx, payload)
    case DeadlineWritten(at) => WriteDeadline(tx, at)
    case DeadlineLost => LoseDeadline(tx)
    case Tick(now, sendOk) => Work(cfg, tx, now, sendOk)
    case Frame(now, f) => Receive(cfg, tx, now, f)
  }

  const INITIAL := Tx(Idle, false, false, false, NoResult, NO_DEADLINE, [], 0, 0, 0, 0, 0, 0, [])

  // ---------------------------------------------------------------- the reference receiver

  /** A receiver of ISO 15765-2 segmented messages (section 9.6), reading frames only. */
  datatype Receiver =
    | Listening
    | Receiving(length: nat, data: seq<Byte>, expected: nat)
    | Delivered(data: seq<Byte>)
    | Broken

  function Hear(r: Receiver, f: seq<Byte>): Receiver {
    if |f| != 8 then Broken else
      var kind: nat, low: nat := f[0] / 16, f[0] % 16;
      match r
      case Listening =>
        if kind == 0 && 1 <= low <= 7 then Delivered(f[1..1 + low])
        else if kind == 1 && 8 <= low * 256 + f[1] then Receiving(low * 256 + f[1], f[2..], 1)
        else Broken
      case Receiving(length, data, expected) =>
        if kind != 2 || low != expected || length <= |data| then Broken
        else if length <= |data| + 7 then Delivered(data + f[1..1 + length - |data|])
        else Receiving(length, data + f[1..], (expected + 1) % 16)
      case _ => Broken
  }

  /** The receiver after all frames of a history. */
  function Heard(log: seq<Event>): Receiver
    decreases |log|
  {
    if log == [] then Listening else
      var before := Heard(log[..|log| - 1]);
      match log[|log| - 1]
      case Sent(_, frame) => Hear(before, frame)
      case _ => before
  }

  function DataOf(r: Receiver): seq<Byte> {
    match r
    case Receiving(_, data, _) => data
    case Delivered(data) => data
    case _ => []
  }

  // ---------------------------------------------------------------- obeying flow control

  /** What a flow-control frame says (ISO 15765-2, section 9.6.5): go on with this many frames and
      this much time between them, hold, or no room. Anything else is not flow control. */
  datatype Flow = Go(blockSize: Byte, separationUs: nat) | Hold | NoRoom | NotFlow

  /** The separation times one after another: in milliseconds up to 0x7F, in tenths of one from 0xF1 to
      0xF9. All other values are reserved and stand for the longest. */
  function SeparationOf(b: Byte): nat {
    if b == 0 then 0
    else if b <= 0x7F then SeparationOf(b - 1) + 1_000
    else if b == 0xF1 then 100
    else if 0xF2 <= b <= 0xF9 then SeparationOf(b - 1) + 100
    else 127_000
  }

  function ReadFlow(f: RxFrame): Flow {
    if f.dlc < 3 || |f.data| < 3 then NotFlow
    else if f.data[0] == 0x30 then Go(f.data[1], SeparationOf(f.data[2]))
    else if f.data[0] == 0x31 then Hold
    else if f.data[0] == 0x32 then NoRoom
    else NotFlow
  }

  predicate IsConsecutive(e: Event) {
    e.Sent? && e.frame != [] && e.frame[0] / 16 == 2
  }

  predicate IsClearance(e: Event) {
    e.Received? && ReadFlow(e.f).Go?
  }

  /** A permission as its receiver gave it. */
  datatype Clearance = Clearance(at: int, blockSize: Byte, separationUs: nat)

  function ClearanceOf(e: Event): Clearance
    requires IsClearance(e)
  {
    Clearance(e.at, ReadFlow(e.f).blockSize, ReadFlow(e.f).separationUs)
  }

  /** The permission in force. */
  function Governing(log: seq<Event>): Option<Clearance>
    decreases |log|
  {
    if log == [] then None
    else if IsClearance(log[|log| - 1]) then Some(ClearanceOf(log[|log| - 1]))
    else Governing(log[..|log| - 1])
  }

  /** How many consecutive frames have been sent since it was given. */
  function InBlock(log: seq<Event>): nat
    decreases |log|
  {
    if log == [] || IsClearance(log[|log| - 1]) then 0
    else InBlock(log[..|log| - 1]) + (if IsConsecutive(log[|log| - 1]) then 1 else 0)
  }

  /** How many consecutive frames the transfer has sent at all. */
  function ConsecutiveCount(log: seq<Event>): nat
    decreases |log|
  {
    if log == [] then 0
    else ConsecutiveCount(log[..|log| - 1]) + (if IsConsecutive(log[|log| - 1]) then 1 else 0)
  }

  function LastAt(log: seq<Event>): int {
    if log == [] then 0 else log[|log| - 1].at
  }

  /** Every consecutive frame was permitted: some flow control cleared it, its block was not yet
      full, and its sequence number is its position modulo sixteen. */
  predicate Permitted(log: seq<Event>)
    decreases |log|
  {
    if log == [] then true else
      var before, e := log[..|log| - 1], log[|log| - 1];
      && Permitted(before)
      && (IsConsecutive(e) ==>
            && Governing(before).Some?
            && (var g := Governing(before).value; g.blockSize == 0 || InBlock(before) < g.blockSize)
            && e.frame[0] % 16 == (ConsecutiveCount(before) + 1) % 16)
  }

  /** When the flow control in force allows the next consecutive frame. */
  function AllowedAt(log: seq<Event>): int
    requires Governing(log).Some?
  {
    var g := Governing(log).value;
    if InBlock(log) == 0 then g.at else LastAt(log) + g.separationUs
  }

  /** Every consecutive frame kept the separation time to its predecessor in the block, and the
      waiting was given up only after the whole time since the last frame or wait request. */
  predicate OnTime(cfg: Config, log: seq<Event>)
    decreases |log|
  {
    if log == [] then true else
      var before, e := log[..|log| - 1], log[|log| - 1];
      && OnTime(cfg, before)
      && (IsConsecutive(e) && Governing(before).Some? ==> AllowedAt(before) <= e.at)
      && (e.Expired? ==> LastAt(before) + cfg.timeoutUs <= e.at)
  }
}
