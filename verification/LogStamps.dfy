/** Along the stream `tick`, `frame` and the microsecond stamp never decrease, as long as neither 32-bit
    counter wraps. The counters only grow while they do not wrap, so the append history is ordered; a
    record on file is one of the history, a bracketing line has the counters of its moment, and the
    stream therefore follows the order of the history. */
module LogStamps {
  import opened FixedWidth
  import opened LogStream
  import L = LogLaws

  ghost predicate NotAfter(x: (nat, nat), y: (nat, nat)) {
    x.0 <= y.0 && x.1 <= y.1
  }

  function Stamp(r: Record): (nat, nat) {
    (r.tick, r.frame)
  }

  function LineStamp(line: Line): (nat, nat) {
    (line.Tick(), line.Frame())
  }

  ghost predicate Ordered(history: seq<Record>) {
    forall i, j :: 0 <= i <= j < |history| ==> NotAfter(Stamp(history[i]), Stamp(history[j]))
  }

  ghost predicate StreamOrdered(stream: seq<Line>) {
    forall i, j :: 0 <= i <= j < |stream| ==> NotAfter(LineStamp(stream[i]), LineStamp(stream[j]))
  }

  /** The stamp of the oldest record not yet taken out of the ring. */
  function Horizon(s: LogState): (nat, nat) {
    if s.head < |s.history| then Stamp(s.history[s.head]) else (s.tick, s.frame)
  }

  ghost predicate StampsOk(s: LogState) {
    && s.head <= |s.history|
    && Ordered(s.history)
    && (forall i :: 0 <= i < |s.history| ==> NotAfter(Stamp(s.history[i]), (s.tick, s.frame)))
    && StreamOrdered(s.out.stream)
    && (s.out.stream != [] ==> NotAfter(LineStamp(L.Last(s.out.stream)), Horizon(s)))
  }

  lemma ExtendOrdered(stream: seq<Line>, line: Line)
    requires StreamOrdered(stream)
    requires stream != [] ==> NotAfter(LineStamp(L.Last(stream)), LineStamp(line))
    ensures StreamOrdered(stream + [line])
  {
    forall i, j | 0 <= i <= j < |stream| + 1
      ensures NotAfter(LineStamp((stream + [line])[i]), LineStamp((stream + [line])[j]))
    {
      if i < |stream| == j {
        assert NotAfter(LineStamp(stream[i]), LineStamp(L.Last(stream)));
      }
    }
  }

  lemma {:induction false} ExtendByBodies(stream: seq<Line>, records: seq<Record>, first: nat, rot: nat)
    requires StreamOrdered(stream) && records != [] && Ordered(records)
    requires stream != [] ==> NotAfter(LineStamp(L.Last(stream)), Stamp(records[0]))
    ensures var longer := stream + BodyLines(records, first, rot);
            && StreamOrdered(longer) && longer != []
            && LineStamp(L.Last(longer)) == Stamp(records[|records| - 1])
    decreases |records|
  {
    var n := |records| - 1;
    var shorter := BodyLines(records[..n], first, rot);
    if n > 0 {
      ExtendByBodies(stream, records[..n], first, rot);
      assert NotAfter(Stamp(records[n - 1]), Stamp(records[n]));
    } else {
      assert stream + shorter == stream;
    }
    ExtendOrdered(stream + shorter, Body(first + n, rot, records[n]));
    assert stream + BodyLines(records, first, rot)
        == (stream + shorter) + [Body(first + n, rot, records[n])];
  }

  /** `o` may still write a line stamped `stamp`. */
  ghost predicate Open(o: Output, stamp: (nat, nat)) {
    StreamOrdered(o.stream) && (o.stream != [] ==> NotAfter(LineStamp(L.Last(o.stream)), stamp))
  }

  lemma LineKeepsOpen(cfg: Config, o: Output, line: Line)
    requires Open(o, LineStamp(line))
    ensures Open(Write(cfg, o, [line]), LineStamp(line))
  {
    ExtendOrdered(o.stream, line);
  }

  lemma BeginKeepsOpen(cfg: Config, o: Output, tick: nat, frame: nat)
    requires Open(o, (tick, frame))
    ensures Open(WriteBegin(cfg, o, tick, frame), (tick, frame))
  {
    LineKeepsOpen(cfg, o, Begin(o.nextSeq, o.rotation, tick, frame));
  }

  lemma EnsureKeepsOpen(cfg: Config, o: Output, tick: nat, frame: nat)
    requires Open(o, (tick, frame))
    ensures Open(EnsureFileOpen(cfg, o, tick, frame), (tick, frame))
  {
    BeginKeepsOpen(cfg, OpenGeneration(cfg, o, 0).(fileIsOpen := true), tick, frame);
  }

  lemma RotateKeepsOpen(cfg: Config, o: Output, tick: nat, frame: nat)
    requires Open(o, (tick, frame))
    ensures Open(RotateFile(cfg, o, tick, frame), (tick, frame))
  {
    var line := Rotate(o.nextSeq, o.rotation, tick, frame, o.rotation + 1);
    LineKeepsOpen(cfg, o, line);
    hide Write, WriteBegin, StreamOrdered;
    BeginKeepsOpen(cfg, OpenGeneration(cfg, Write(cfg, o, [line]), o.rotation + 1), tick, frame);
  }

  lemma BatchKeepsOpen(cfg: Config, o: Output, drops: nat, total: nat, records: seq<Record>)
    requires records != [] && Ordered(records) && Open(o, Stamp(records[0]))
    ensures Open(Write(cfg, o, BatchLines(o, drops, total, records)), Stamp(records[|records| - 1]))
  {
    var loss := DropLines(o, drops, total, records[0].tick, records[0].frame);
    if drops > 0 {
      ExtendOrdered(o.stream, loss[0]);
    } else {
      assert o.stream + loss == o.stream;
    }
    var first := o.nextSeq + |loss|;
    ExtendByBodies(o.stream + loss, records, first, o.rotation);
    assert o.stream + (loss + BodyLines(records, first, o.rotation))
        == (o.stream + loss) + BodyLines(records, first, o.rotation);
    assert NotAfter(Stamp(records[0]), Stamp(records[|records| - 1]));
  }

  lemma DeliverKeepsOpen(cfg: Config, o: Output, drops: nat, total: nat, records: seq<Record>)
    requires records != [] && Ordered(records) && Open(o, Stamp(records[0]))
    ensures Open(Deliver(cfg, o, drops, total, records), Stamp(records[|records| - 1]))
  {
    var tick, frame := records[0].tick, records[0].frame;
    assert NotAfter(Stamp(records[0]), Stamp(records[|records| - 1]));
    EnsureKeepsOpen(cfg, o, tick, frame);
    var open := EnsureFileOpen(cfg, o, tick, frame);
    if !open.openFailed {
      RotateKeepsOpen(cfg, open, tick, frame);
      BatchKeepsOpen(cfg, if open.bytes >= cfg.maxFileBytes then RotateFile(cfg, open, tick, frame) else open,
                     drops, total, records);
    }
  }

  lemma CloseKeepsOpen(cfg: Config, o: Output, tick: nat, frame: nat, reason: nat, events: nat)
    requires Open(o, (tick, frame))
    ensures Open(CloseStream(cfg, o, tick, frame, reason, events), (tick, frame))
  {
    EnsureKeepsOpen(cfg, o, tick, frame);
    var open := EnsureFileOpen(cfg, o, tick, frame);
    LineKeepsOpen(cfg, open, End(open.nextSeq, open.rotation, tick, frame, reason, events));
  }

  lemma StoreKeepsStamps(cfg: Config, s: LogState, r: Record)
    requires StampsOk(s) && Stamp(r) == (s.tick, s.frame) && cfg.capacity >= 1
    ensures StampsOk(Store(cfg, s, r))
  {
    var s1 := Store(cfg, s, r);
    assert s1.head < |s1.history| ==> NotAfter(Horizon(s), Stamp(s1.history[s1.head]));
  }

  lemma DrainKeepsStamps(cfg: Config, s: LogState)
    requires StampsOk(s)
    ensures StampsOk(Drain(cfg, s))
  {
    hide Deliver;
    var batch := BatchSize(cfg, s);
    if cfg.mode.Off? || s.isShutDown || batch == 0 { return; }
    var records := s.history[s.head..s.head + batch];
    DeliverKeepsOpen(cfg, s.out, s.droppedSinceDrain, s.droppedTotal, records);
    var s1 := Drain(cfg, s);
    assert NotAfter(Stamp(records[batch - 1]), Horizon(s1));
  }

  lemma {:induction false} DrainAllKeepsStamps(cfg: Config, s: LogState)
    requires StampsOk(s) && CanDrain(cfg, s)
    ensures StampsOk(DrainAll(cfg, s))
    ensures DrainAll(cfg, s).Pending() <= 0
    ensures DrainAll(cfg, s).tick == s.tick && DrainAll(cfg, s).frame == s.frame
    ensures DrainAll(cfg, s).history == s.history
    decreases s.Pending()
  {
    if s.Pending() > 0 {
      DrainKeepsStamps(cfg, s);
      DrainTakesABatch(cfg, s);
      DrainAllKeepsStamps(cfg, Drain(cfg, s));
    }
  }

  lemma ShutdownKeepsStamps(cfg: Config, s: LogState, reason: nat)
    requires StampsOk(s) && ShutdownReturns(cfg, s)
    ensures StampsOk(Shutdown(cfg, s, reason))
  {
    if s.isShutDown || cfg.mode.Off? { return; }
    if HasPendingWork(s) { DrainAllKeepsStamps(cfg, s); }
    CloseKeepsOpen(cfg, Flush(cfg, s).out, s.tick, s.frame, reason, |s.history|);
  }

  ghost predicate NoWrap(s: LogState, op: Op) {
    && (op.FrameStart? ==> s.frame + 1 < TWO_TO_32)
    && (op.TickStart? ==> s.tick + 1 < TWO_TO_32)
  }

  lemma TickKeepsStamps(cfg: Config, s: LogState, zone: int)
    requires StampsOk(s) && cfg.capacity >= 1 && s.tick + 1 < TWO_TO_32
    ensures StampsOk(BeginTick(cfg, s, zone))
  {
    hide Store;
    var s1 := s.(zone := Lanes.ClampU16(zone), tick := s.tick + 1);
    assert NotAfter((s.tick, s.frame), (s1.tick, s1.frame));
    assert StampsOk(s1);
    StoreKeepsStamps(cfg, s1, HeartbeatRecord(s1));
  }

  lemma StepKeepsStamps(cfg: Config, s: LogState, op: Op)
    requires StampsOk(s) && cfg.capacity >= 1 && Returns(cfg, s, op) && NoWrap(s, op)
    ensures StampsOk(Step(cfg, s, op))
  {
    match op
    case Emit(level, kind, entity, a, b, c, d) =>
      var r := Stamped(s, kind, entity, a, b, c, d);
      StoreKeepsStamps(cfg, s, r);
      DrainKeepsStamps(cfg, Store(cfg, s, r));
    case FrameStart =>
      assert NotAfter((s.tick, s.frame), (s.tick, s.frame + 1));
    case TickStart(zone) => TickKeepsStamps(cfg, s, zone);
    case FlowChange(_) =>
    case TimerDrain => DrainKeepsStamps(cfg, s);
    case FlushAll =>
      if CanDrain(cfg, s) { DrainAllKeepsStamps(cfg, s); }
    case Close(reason) => ShutdownKeepsStamps(cfg, s, reason);
  }

  lemma {:induction false} PrefixCounts(ops: seq<Op>, n: nat)
    requires n <= |ops|
    ensures Frames(ops[..n]) <= Frames(ops) && Ticks(ops[..n]) <= Ticks(ops)
  {
    if n == |ops| {
      assert ops[..n] == ops;
    } else {
      var shorter := ops[..|ops| - 1];
      PrefixCounts(shorter, n);
      assert shorter[..n] == ops[..n];
    }
  }

  /** The only two calls that move the counters. */
  lemma StepMovesCounters(cfg: Config, s: LogState, op: Op)
    requires Returns(cfg, s, op) && L.Inv(cfg, s)
    ensures var s1 := Step(cfg, s, op);
            && s1.tick == (if op.TickStart? then WrappingSuccessor(s.tick) else s.tick)
            && s1.frame == (if op.FrameStart? then WrappingSuccessor(s.frame) else s.frame)
  {
    if op.FlushAll? || op.Close? {
      if CanDrain(cfg, s) { L.DrainAllKeeps(cfg, s); }
    }
  }

  lemma {:induction false} RunKeepsStamps(cfg: Config, ops: seq<Op>, states: seq<LogState>, n: nat)
    requires IsRun(cfg, ops, states) && n <= |ops|
    requires Ticks(ops) < TWO_TO_32 && Frames(ops) < TWO_TO_32
    ensures StampsOk(states[n])
    ensures states[n].tick == Ticks(ops[..n]) && states[n].frame == Frames(ops[..n])
  {
    if n > 0 {
      var before, op := states[n - 1], ops[n - 1];
      RunKeepsStamps(cfg, ops, states, n - 1);
      L.RunKeeps(cfg, ops, states, n - 1);
      PrefixCounts(ops, n);
      assert ops[..n][..n - 1] == ops[..n - 1];
      RunStep(cfg, ops, states, n - 1);
      StepMovesCounters(cfg, before, op);
      StepKeepsStamps(cfg, before, op);
    }
  }

  /** In a run of fewer than 2^32 ticks and frames, no line is stamped earlier than a line before it,
      in ticks, frames or microseconds. */
  lemma StampsNeverGoBack(cfg: Config, ops: seq<Op>, states: seq<LogState>, n: nat, i: nat, j: nat)
    requires IsRun(cfg, ops, states) && n <= |ops|
    requires Ticks(ops) < TWO_TO_32 && Frames(ops) < TWO_TO_32
    requires i <= j < |states[n].out.stream|
    ensures states[n].out.stream[i].Tick() <= states[n].out.stream[j].Tick()
    ensures states[n].out.stream[i].Frame() <= states[n].out.stream[j].Frame()
    ensures Lanes.Microseconds(states[n].out.stream[i].Tick()) <= Lanes.Microseconds(states[n].out.stream[j].Tick())
  {
    RunKeepsStamps(cfg, ops, states, n);
    Lanes.MicrosecondsAreNearest(states[n].out.stream[i].Tick(), states[n].out.stream[j].Tick());
    assert NotAfter(LineStamp(states[n].out.stream[i]), LineStamp(states[n].out.stream[j]));
  }
}
