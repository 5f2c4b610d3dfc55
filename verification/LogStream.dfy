/** What the gameplay event log promises, stated without a ring: the whole append history, a cursor
    into it, and the lines that reached a file. `EventLog` refines this machine, call by call, and
    `LogLaws` proves its promises over all runs; the configuration says which files can be created and
    how long a formatted line is. */
module LogStream {
  import opened FixedWidth
  import opened Lanes

  /** One 24-byte record of the producer path. */
  datatype Record = Record(tick: U32, frame: U32, zone: U16, entity: U16, kind: nat,
                           a: I16, b: I16, c: I16, d: I16)

  /** One line of the JSONL stream. Only the fields that locate or count records are kept. */
  datatype Line =
    | Begin(seqNo: nat, rot: nat, tick: nat, frame: nat)
    | Rotate(seqNo: nat, rot: nat, tick: nat, frame: nat, incoming: nat)
    | Dropped(seqNo: nat, rot: nat, tick: nat, frame: nat,
              count: nat, firstSeq: nat, lastSeq: nat, totalDropped: nat)
    | Body(seqNo: nat, rot: nat, record: Record)
    | End(seqNo: nat, rot: nat, tick: nat, frame: nat, reason: nat, events: nat)
  {
    function Tick(): nat { if Body? then record.tick else tick }
    function Frame(): nat { if Body? then record.frame else frame }
  }

  datatype Mode = Off | Synchronous | Asynchronous

  /** The limits of one log, and its environment: `opens(r)` says whether the file of
      generation `r` can be created (each generation is tried once), `lineBytes` is the length
      of a formatted line. */
  datatype Config = Config(mode: Mode, level: nat, capacity: nat, batch: nat, maxFileBytes: int,
                           heartbeatSteps: nat, opens: nat -> bool, lineBytes: Line -> nat)

  /** The drain side: what was numbered and what reached a file. */
  datatype Output = Output(nextSeq: nat, fileIsOpen: bool, openFailed: bool, handleOpen: bool,
                           rotation: nat, bytes: nat, stream: seq<Line>)

  datatype LogState = LogState(
    history: seq<Record>, head: nat, droppedTotal: nat, droppedSinceDrain: nat,
    tick: U32, frame: U32, zone: U16, flow: U16, isShutDown: bool, out: Output)
  {
    /** Records held in the ring. */
    function Pending(): int { |history| - head }
  }

  function Fresh(): LogState {
    LogState([], 0, 0, 0, 0, 0, 0, 0, false, Output(0, false, false, false, 0, 0, []))
  }

  // Producer side

  /** A log at capacity gives up its oldest pending record for the new one, as a counted drop. */
  function Store(cfg: Config, s: LogState, r: Record): LogState {
    var s1 := if s.Pending() >= cfg.capacity
              then s.(head := s.head + 1, droppedTotal := s.droppedTotal + 1,
                      droppedSinceDrain := s.droppedSinceDrain + 1)
              else s;
    s1.(history := s1.history + [r])
  }

  function Stamped(s: LogState, kind: nat, entity: U16, a: I16, b: I16, c: I16, d: I16): Record {
    Record(s.tick, s.frame, s.zone, entity, kind, a, b, c, d)
  }

  function Append(cfg: Config, s: LogState, r: Record): LogState {
    var s1 := Store(cfg, s, r);
    if cfg.mode.Synchronous? && s1.Pending() >= cfg.batch then Drain(cfg, s1) else s1
  }

  const HEARTBEAT_KIND := 47

  function HeartbeatRecord(s: LogState): Record {
    var events, drops := SplitTruncating(|s.history|), SplitTruncating(s.droppedTotal);
    Stamped(s, HEARTBEAT_KIND, s.flow, events.0, events.1, drops.0, drops.1)
  }

  function BeginFrame(s: LogState): LogState {
    s.(frame := WrappingSuccessor(s.frame))
  }

  function BeginTick(cfg: Config, s: LogState, zone: int): LogState {
    var s1 := s.(zone := ClampU16(zone), tick := WrappingSuccessor(s.tick));
    if cfg.heartbeatSteps > 0 && s1.tick % cfg.heartbeatSteps == 0
    then Store(cfg, s1, HeartbeatRecord(s1))
    else s1
  }

  // Writer side

  function TextBytes(cfg: Config, lines: seq<Line>): nat {
    if lines == [] then 0
    else TextBytes(cfg, lines[..|lines| - 1]) + cfg.lineBytes(lines[|lines| - 1])
  }

  lemma {:induction false} BytesOfConcatenation(cfg: Config, x: seq<Line>, y: seq<Line>)
    ensures TextBytes(cfg, x + y) == TextBytes(cfg, x) + TextBytes(cfg, y)
  {
    if y == [] {
      assert x + y == x;
    } else {
      var n := |y| - 1;
      BytesOfConcatenation(cfg, x, y[..n]);
      assert (x + y)[..|x + y| - 1] == x + y[..n];
    }
  }

  /** Number lines and hand them to the writer; a closed writer drops the text. */
  function Write(cfg: Config, o: Output, lines: seq<Line>): Output {
    var o1 := o.(nextSeq := o.nextSeq + |lines|);
    if o.handleOpen
    then o1.(stream := o.stream + lines, bytes := o.bytes + TextBytes(cfg, lines))
    else o1
  }

  /** A writer that has just opened (or failed to open) the file of generation `rotation`. */
  function OpenGeneration(cfg: Config, o: Output, rotation: nat): Output {
    o.(rotation := rotation, bytes := 0, handleOpen := cfg.opens(rotation),
       openFailed := !cfg.opens(rotation))
  }

  function WriteBegin(cfg: Config, o: Output, tick: nat, frame: nat): Output {
    Write(cfg, o, [Begin(o.nextSeq, o.rotation, tick, frame)])
  }

  function EnsureFileOpen(cfg: Config, o: Output, tick: nat, frame: nat): Output {
    if o.openFailed || o.fileIsOpen then o
    else
      var o1 := OpenGeneration(cfg, o, 0);
      if o1.openFailed then o1 else WriteBegin(cfg, o1.(fileIsOpen := true), tick, frame)
  }

  function RotateFile(cfg: Config, o: Output, tick: nat, frame: nat): Output {
    var o1 := Write(cfg, o, [Rotate(o.nextSeq, o.rotation, tick, frame, o.rotation + 1)]);
    var o2 := OpenGeneration(cfg, o1, o1.rotation + 1);
    if o2.openFailed then o2 else WriteBegin(cfg, o2, tick, frame)
  }

  function BodyLines(records: seq<Record>, first: nat, rot: nat): (lines: seq<Line>)
    ensures |lines| == |records|
  {
    if records == [] then []
    else
      var n := |records| - 1;
      BodyLines(records[..n], first, rot) + [Body(first + n, rot, records[n])]
  }

  /** The loss bracket written before a batch: its neighbours by number. */
  function DropLines(o: Output, drops: nat, droppedTotal: nat, tick: nat, frame: nat): seq<Line> {
    if drops == 0 then []
    else [Dropped(o.nextSeq, o.rotation, tick, frame, drops, o.nextSeq + 1,
                  if o.nextSeq == 0 then 0 else o.nextSeq - 1, droppedTotal)]
  }

  function BatchLines(o: Output, drops: nat, droppedTotal: nat, records: seq<Record>): seq<Line>
    requires |records| > 0
  {
    var loss := DropLines(o, drops, droppedTotal, records[0].tick, records[0].frame);
    loss + BodyLines(records, o.nextSeq + |loss|, o.rotation)
  }

  /** Hand claimed records to the file, rotating it first when it is full. A file that cannot
      be opened takes nothing. */
  function Deliver(cfg: Config, o: Output, drops: nat, droppedTotal: nat, records: seq<Record>): Output
    requires |records| > 0
  {
    var tick, frame := records[0].tick, records[0].frame;
    var open := EnsureFileOpen(cfg, o, tick, frame);
    if open.openFailed then open
    else
      var ready := if open.bytes >= cfg.maxFileBytes then RotateFile(cfg, open, tick, frame) else open;
      Write(cfg, ready, BatchLines(ready, drops, droppedTotal, records))
  }

  function BatchSize(cfg: Config, s: LogState): nat {
    if s.Pending() <= 0 then 0 else if s.Pending() < cfg.batch then s.Pending() else cfg.batch
  }

  function Drain(cfg: Config, s: LogState): LogState {
    var batch := BatchSize(cfg, s);
    if cfg.mode.Off? || s.isShutDown || batch == 0 then s
    else
      var records := s.history[s.head..s.head + batch];
      var open := EnsureFileOpen(cfg, s.out, records[0].tick, records[0].frame);
      s.(head := s.head + batch,
         droppedSinceDrain := 0,
         droppedTotal := if open.openFailed then s.droppedTotal + batch else s.droppedTotal,
         out := Deliver(cfg, s.out, s.droppedSinceDrain, s.droppedTotal, records))
  }

  predicate HasPendingWork(s: LogState) {
    s.Pending() > 0 || s.droppedSinceDrain > 0
  }

  predicate CanDrain(cfg: Config, s: LogState) {
    !cfg.mode.Off? && !s.isShutDown && cfg.batch >= 1
  }

  /** The barrier: drain until nothing is pending. A loss is only ever undeclared while records
      are still pending, so a state with pending work has a batch to take. */
  function DrainAll(cfg: Config, s: LogState): LogState
    requires CanDrain(cfg, s)
    decreases s.Pending()
  {
    if s.Pending() <= 0 then s
    else
      var s1 := Drain(cfg, s);
      assert s1.Pending() < s.Pending() && CanDrain(cfg, s1) by { DrainTakesABatch(cfg, s); }
      DrainAll(cfg, s1)
  }

  lemma DrainTakesABatch(cfg: Config, s: LogState)
    ensures var s1 := Drain(cfg, s);
            && s1.history == s.history
            && s1.isShutDown == s.isShutDown
            && s1.head == s.head + (if cfg.mode.Off? || s.isShutDown then 0 else BatchSize(cfg, s))
  {
  }

  function CloseStream(cfg: Config, o: Output, tick: nat, frame: nat, reason: nat, events: nat): Output {
    var open := EnsureFileOpen(cfg, o, tick, frame);
    if open.openFailed then open
    else Write(cfg, open, [End(open.nextSeq, open.rotation, tick, frame, reason, events)]).(handleOpen := false)
  }

  /** Whether the barrier loop ends: it never does on a closed log with pending records. */
  predicate FlushReturns(cfg: Config, s: LogState) {
    cfg.mode.Off? || !HasPendingWork(s) || CanDrain(cfg, s)
  }

  function Flush(cfg: Config, s: LogState): LogState
    requires FlushReturns(cfg, s)
  {
    if cfg.mode.Off? || !HasPendingWork(s) then s else DrainAll(cfg, s)
  }

  predicate ShutdownReturns(cfg: Config, s: LogState) {
    s.isShutDown || FlushReturns(cfg, s)
  }

  function Shutdown(cfg: Config, s: LogState, reason: nat): LogState
    requires ShutdownReturns(cfg, s)
  {
    if s.isShutDown || cfg.mode.Off? then s
    else
      var s1 := Flush(cfg, s);
      s1.(isShutDown := true, out := CloseStream(cfg, s1.out, s.tick, s.frame, reason, |s.history|))
  }

  // Runs

  /** One call on the log, as one atomic step. */
  datatype Op =
    | Emit(minimumLevel: nat, kind: nat, entity: U16, a: I16, b: I16, c: I16, d: I16)
    | FrameStart
    | TickStart(zone: int)
    | FlowChange(code: U16)
    | TimerDrain
    | FlushAll
    | Close(reason: nat)

  /** The frames and the ticks a list of calls starts. */
  function Frames(ops: seq<Op>): nat {
    if ops == [] then 0
    else Frames(ops[..|ops| - 1]) + if ops[|ops| - 1].FrameStart? then 1 else 0
  }

  function Ticks(ops: seq<Op>): nat {
    if ops == [] then 0
    else Ticks(ops[..|ops| - 1]) + if ops[|ops| - 1].TickStart? then 1 else 0
  }

  predicate Returns(cfg: Config, s: LogState, op: Op) {
    match op
    case FlushAll => FlushReturns(cfg, s)
    case Close(_) => ShutdownReturns(cfg, s)
    case _ => true
  }

  function Step(cfg: Config, s: LogState, op: Op): LogState
    requires Returns(cfg, s, op)
  {
    match op
    case Emit(level, kind, entity, a, b, c, d) =>
      if cfg.level < level then s else Append(cfg, s, Stamped(s, kind, entity, a, b, c, d))
    case FrameStart => BeginFrame(s)
    case TickStart(zone) => BeginTick(cfg, s, zone)
    case FlowChange(code) => s.(flow := code)
    case TimerDrain => Drain(cfg, s)
    case FlushAll => Flush(cfg, s)
    case Close(reason) => Shutdown(cfg, s, reason)
  }

  /** `states[i]` is the log after the first `i` calls. */
  ghost predicate IsRun(cfg: Config, ops: seq<Op>, states: seq<LogState>) {
    && cfg.capacity >= 1
    && |states| == |ops| + 1 && states[0] == Fresh()
    && forall i {:trigger ops[i]} :: 0 <= i < |ops| ==>
         Returns(cfg, states[i], ops[i]) && states[i + 1] == Step(cfg, states[i], ops[i])
  }

  lemma RunStep(cfg: Config, ops: seq<Op>, states: seq<LogState>, i: nat)
    requires IsRun(cfg, ops, states) && i < |ops|
    ensures Returns(cfg, states[i], ops[i]) && states[i + 1] == Step(cfg, states[i], ops[i])
  {
  }

  function DrainTimes(cfg: Config, s: LogState, n: nat): LogState
    decreases n
  {
    if n == 0 then s else DrainTimes(cfg, Drain(cfg, s), n - 1)
  }
}
