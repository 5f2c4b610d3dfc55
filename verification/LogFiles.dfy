/** What the bracketing lines of the stream say, and when a file is retired: stamps taken from the batch that
    follows, losses summed up, and a rotation exactly when the file has reached its size. */
module LogFiles {
  import opened FixedWidth
  import opened LogStream
  import L = LogLaws
  import opened LogRecords

  /** The bytes of the lines of one generation. */
  function FileBytes(cfg: Config, stream: seq<Line>, rot: nat): nat {
    if stream == [] then 0
    else
      var last := stream[|stream| - 1];
      FileBytes(cfg, stream[..|stream| - 1], rot) + if last.rot == rot then cfg.lineBytes(last) else 0
  }

  ghost predicate SameStamp(x: Line, y: Line) {
    x.Tick() == y.Tick() && x.Frame() == y.Frame()
  }

  /** A line that is no record has the stamp of the line after it, and a loss line the losses so far. */
  ghost predicate Bracketed(stream: seq<Line>) {
    && (forall i :: 0 <= i < |stream| - 1 && !stream[i].Body? ==> SameStamp(stream[i], stream[i + 1]))
    && (forall i :: 0 <= i < |stream| && stream[i].Dropped? ==>
          stream[i].totalDropped == L.DeclaredDrops(stream[..i + 1]))
  }

  ghost predicate Sized(cfg: Config, o: Output) {
    && (forall i :: 0 <= i < |o.stream| ==> o.stream[i].rot <= o.rotation)
    && (o.handleOpen ==> o.bytes == FileBytes(cfg, o.stream, o.rotation))
    && (!o.fileIsOpen && !o.openFailed ==> o.stream == [] && o.rotation == 0)
  }

  ghost predicate FilesOk(cfg: Config, o: Output) {
    Bracketed(o.stream) && Sized(cfg, o)
  }

  /** A line with this stamp may be written next. */
  ghost predicate Awaits(o: Output, tick: nat, frame: nat) {
    o.stream != [] && !L.Last(o.stream).Body? ==> L.Last(o.stream).Tick() == tick && L.Last(o.stream).Frame() == frame
  }

  lemma LineExtends(cfg: Config, o: Output, line: Line)
    requires FilesOk(cfg, o) && o.handleOpen && line.rot == o.rotation && Awaits(o, line.Tick(), line.Frame())
    requires line.Dropped? ==> line.totalDropped == L.DeclaredDrops(o.stream) + line.count
    requires o.fileIsOpen || o.openFailed
    ensures var longer := o.(stream := o.stream + [line], bytes := o.bytes + cfg.lineBytes(line));
            && FilesOk(cfg, longer) && L.Last(longer.stream) == line
            && L.DeclaredDrops(longer.stream) == L.DeclaredDrops(o.stream) + if line.Dropped? then line.count else 0
  {
    var n, longer := |o.stream|, o.stream + [line];
    assert longer[..|longer| - 1] == o.stream;
    forall i | 0 <= i < |longer| && longer[i].Dropped?
      ensures longer[i].totalDropped == L.DeclaredDrops(longer[..i + 1])
    {
      if i < n { assert longer[..i + 1] == o.stream[..i + 1]; } else { assert longer[..i + 1] == longer; }
    }
  }

  lemma LineWrites(cfg: Config, o: Output, line: Line)
    requires FilesOk(cfg, o) && o.handleOpen && line.rot == o.rotation && Awaits(o, line.Tick(), line.Frame())
    requires !line.Dropped? && (o.fileIsOpen || o.openFailed)
    ensures var o1 := Write(cfg, o, [line]);
            && FilesOk(cfg, o1) && L.Last(o1.stream) == line && o1.handleOpen && o1.rotation == o.rotation
            && o1.fileIsOpen == o.fileIsOpen && o1.openFailed == o.openFailed
            && L.DeclaredDrops(o1.stream) == L.DeclaredDrops(o.stream)
  {
    hide FilesOk;
    LineExtends(cfg, o, line);
    OneLine(cfg, line);
    assert Write(cfg, o, [line])
        == o.(stream := o.stream + [line], bytes := o.bytes + cfg.lineBytes(line), nextSeq := o.nextSeq + 1);
    SeqNoIsFree(cfg, o.(stream := o.stream + [line], bytes := o.bytes + cfg.lineBytes(line)), o.nextSeq + 1);
  }

  lemma SeqNoIsFree(cfg: Config, o: Output, nextSeq: nat)
    ensures FilesOk(cfg, o) == FilesOk(cfg, o.(nextSeq := nextSeq))
  {
  }

  lemma OneLine(cfg: Config, line: Line)
    ensures TextBytes(cfg, [line]) == cfg.lineBytes(line)
  {
    assert [line][..0] == [];
  }

  lemma {:induction false} NoBytesAhead(cfg: Config, stream: seq<Line>, rot: nat)
    requires forall i :: 0 <= i < |stream| ==> stream[i].rot < rot
    ensures FileBytes(cfg, stream, rot) == 0
  {
    if stream != [] { NoBytesAhead(cfg, stream[..|stream| - 1], rot); }
  }

  /** A new generation starts empty. */
  lemma GenerationOpens(cfg: Config, o: Output, rot: nat)
    requires FilesOk(cfg, o) && forall i :: 0 <= i < |o.stream| ==> o.stream[i].rot < rot
    requires o.fileIsOpen || (o.stream == [] && rot == 0)
    ensures FilesOk(cfg, OpenGeneration(cfg, o, rot))
  {
    NoBytesAhead(cfg, o.stream, rot);
  }

  lemma EnsureKeeps(cfg: Config, o: Output, tick: nat, frame: nat)
    requires FilesOk(cfg, o) && (o.fileIsOpen && !o.openFailed ==> o.handleOpen)
    requires o.handleOpen ==> Awaits(o, tick, frame)
    ensures var o1 := EnsureFileOpen(cfg, o, tick, frame);
            && FilesOk(cfg, o1)
            && (!o1.openFailed ==> o1.handleOpen && o1.fileIsOpen && Awaits(o1, tick, frame))
            && L.DeclaredDrops(o1.stream) == L.DeclaredDrops(o.stream)
  {
    hide Write, Bracketed;
    if !o.openFailed && !o.fileIsOpen {
      GenerationOpens(cfg, o, 0);
      var o1 := OpenGeneration(cfg, o, 0);
      if !o1.openFailed { LineWrites(cfg, o1.(fileIsOpen := true), Begin(o1.nextSeq, o1.rotation, tick, frame)); }
    }
  }

  lemma RotateKeeps(cfg: Config, o: Output, tick: nat, frame: nat)
    requires FilesOk(cfg, o) && o.handleOpen && o.fileIsOpen && !o.openFailed && Awaits(o, tick, frame)
    ensures var o1 := RotateFile(cfg, o, tick, frame);
            && FilesOk(cfg, o1) && Awaits(o1, tick, frame) && o1.fileIsOpen
            && (!o1.openFailed <==> o1.handleOpen)
            && L.DeclaredDrops(o1.stream) == L.DeclaredDrops(o.stream)
            && |o1.stream| > |o.stream| && o1.stream[|o.stream|].Rotate?
  {
    hide Write, Bracketed, FileBytes;
    var line := Rotate(o.nextSeq, o.rotation, tick, frame, o.rotation + 1);
    LineWrites(cfg, o, line);
    var o1 := Write(cfg, o, [line]);
    assert o1.stream == o.stream + [line] by { WriteAppends(cfg, o, line); }
    GenerationOpens(cfg, o1, o1.rotation + 1);
    var o2 := OpenGeneration(cfg, o1, o1.rotation + 1);
    if !o2.openFailed {
      LineWrites(cfg, o2, Begin(o2.nextSeq, o2.rotation, tick, frame));
      WriteAppends(cfg, o2, Begin(o2.nextSeq, o2.rotation, tick, frame));
    }
  }

  lemma WriteAppends(cfg: Config, o: Output, line: Line)
    requires o.handleOpen
    ensures Write(cfg, o, [line]).stream == o.stream + [line]
  {
  }

  /** The output after these lines, numbering aside. */
  function With(cfg: Config, o: Output, lines: seq<Line>): Output {
    o.(stream := o.stream + lines, bytes := o.bytes + TextBytes(cfg, lines))
  }

  lemma WithOneMore(cfg: Config, o: Output, lines: seq<Line>, line: Line)
    ensures var o1 := With(cfg, o, lines);
            With(cfg, o, lines + [line]) == o1.(stream := o1.stream + [line], bytes := o1.bytes + cfg.lineBytes(line))
  {
    assert (lines + [line])[..|lines + [line]| - 1] == lines;
    assert o.stream + (lines + [line]) == (o.stream + lines) + [line];
  }

  lemma {:induction false} BodiesExtend(cfg: Config, o: Output, records: seq<Record>, first: nat)
    requires FilesOk(cfg, o) && o.handleOpen && o.fileIsOpen && records != []
    requires Awaits(o, records[0].tick, records[0].frame)
    ensures var o1 := With(cfg, o, BodyLines(records, first, o.rotation));
            && FilesOk(cfg, o1) && o1.stream != [] && L.Last(o1.stream).Body?
            && L.DeclaredDrops(o1.stream) == L.DeclaredDrops(o.stream)
    decreases |records|
  {
    hide FilesOk, With, L.DeclaredDrops;
    var n := |records| - 1;
    var line, shorter := Body(first + n, o.rotation, records[n]), BodyLines(records[..n], first, o.rotation);
    if n > 0 {
      BodiesExtend(cfg, o, records[..n], first);
    } else {
      assert With(cfg, o, shorter) == o by { WithNothing(cfg, o); }
    }
    var o1 := With(cfg, o, shorter);
    assert o1.handleOpen && o1.fileIsOpen && o1.rotation == o.rotation by { WithKeeps(cfg, o, shorter); }
    LineExtends(cfg, o1, line);
    assert BodyLines(records, first, o.rotation) == shorter + [line];
    WithOneMore(cfg, o, shorter, line);
  }

  lemma WithNothing(cfg: Config, o: Output)
    ensures With(cfg, o, []) == o
  {
    assert o.stream + [] == o.stream;
  }

  lemma WithKeeps(cfg: Config, o: Output, lines: seq<Line>)
    ensures var o1 := With(cfg, o, lines);
            && o1 == o.(stream := o1.stream, bytes := o1.bytes)
            && o1.stream == o.stream + lines && o1.bytes == o.bytes + TextBytes(cfg, lines)
  {
  }

  lemma LossExtends(cfg: Config, o: Output, drops: nat, total: nat, tick: nat, frame: nat)
    requires FilesOk(cfg, o) && o.handleOpen && o.fileIsOpen && Awaits(o, tick, frame)
    requires total == L.DeclaredDrops(o.stream) + drops
    ensures var loss := DropLines(o, drops, total, tick, frame);
            var o1 := With(cfg, o, loss);
            FilesOk(cfg, o1) && Awaits(o1, tick, frame) && L.DeclaredDrops(o1.stream) == total
  {
    var loss := DropLines(o, drops, total, tick, frame);
    if drops > 0 {
      LineExtends(cfg, o, loss[0]);
      OneLine(cfg, loss[0]);
      assert loss == [loss[0]];
    } else {
      assert o.stream + loss == o.stream;
    }
  }

  lemma BatchKeeps(cfg: Config, o: Output, drops: nat, total: nat, records: seq<Record>)
    requires FilesOk(cfg, o) && o.handleOpen && o.fileIsOpen && records != []
    requires Awaits(o, records[0].tick, records[0].frame) && total == L.DeclaredDrops(o.stream) + drops
    ensures var o1 := Write(cfg, o, BatchLines(o, drops, total, records));
            && FilesOk(cfg, o1) && L.Last(o1.stream).Body? && L.DeclaredDrops(o1.stream) == total
            && o1.handleOpen && o1.stream == o.stream + BatchLines(o, drops, total, records)
  {
    hide FilesOk, Awaits, DropLines, BodyLines, TextBytes, With, L.DeclaredDrops;
    var loss := DropLines(o, drops, total, records[0].tick, records[0].frame);
    LossExtends(cfg, o, drops, total, records[0].tick, records[0].frame);
    var o1 := With(cfg, o, loss);
    WithKeeps(cfg, o, loss);
    var bodies := BodyLines(records, o.nextSeq + |loss|, o.rotation);
    BodiesExtend(cfg, o1, records, o.nextSeq + |loss|);
    WithKeeps(cfg, o1, bodies);
    BytesOfConcatenation(cfg, loss, bodies);
    assert o.stream + (loss + bodies) == (o.stream + loss) + bodies;
    SeqNoIsFree(cfg, With(cfg, o1, bodies), o.nextSeq + |loss + bodies|);
  }

  /** The books between two drains: an open file ends with a record. */
  ghost predicate Books(cfg: Config, o: Output) {
    && FilesOk(cfg, o) && (o.handleOpen ==> o.fileIsOpen && !o.openFailed)
    && (o.handleOpen && o.stream != [] ==> L.Last(o.stream).Body?)
  }

  /** A delivery into an open file rotates first exactly when the file has reached its size. */
  ghost predicate RotatesWhenFull(cfg: Config, o: Output, o1: Output) {
    && |o1.stream| > |o.stream| && o.stream <= o1.stream
    && (o1.stream[|o.stream|].Rotate? <==> FileBytes(cfg, o.stream, o.rotation) >= cfg.maxFileBytes)
  }

  lemma DeliverKeeps(cfg: Config, o: Output, drops: nat, total: nat, records: seq<Record>)
    requires Books(cfg, o) && records != [] && (o.fileIsOpen && !o.openFailed ==> o.handleOpen)
    requires !o.openFailed ==> total == L.DeclaredDrops(o.stream) + drops
    ensures var o1 := Deliver(cfg, o, drops, total, records);
            Books(cfg, o1) && (o.handleOpen ==> RotatesWhenFull(cfg, o, o1))
  {
    hide Bracketed, Write, RotateFile, EnsureFileOpen, BatchLines, FileBytes, L.DeclaredDrops;
    var tick, frame := records[0].tick, records[0].frame;
    EnsureKeeps(cfg, o, tick, frame);
    var open := EnsureFileOpen(cfg, o, tick, frame);
    if o.openFailed || o.fileIsOpen { OpenStays(cfg, o, tick, frame); }
    if open.openFailed {
      assert !open.handleOpen by { FailedIsClosed(cfg, o, tick, frame); }
    } else if open.bytes >= cfg.maxFileBytes {
      RotateKeeps(cfg, open, tick, frame);
      var ready := RotateFile(cfg, open, tick, frame);
      assert open.stream <= ready.stream by { RotationAppends(cfg, open, tick, frame); }
      DeliverInto(cfg, ready, drops, total, records);
    } else {
      DeliverInto(cfg, open, drops, total, records);
      assert !BatchLines(open, drops, total, records)[0].Rotate? by { FirstOfBatch(open, drops, total, records); }
    }
  }

  lemma OpenStays(cfg: Config, o: Output, tick: nat, frame: nat)
    requires o.openFailed || o.fileIsOpen
    ensures EnsureFileOpen(cfg, o, tick, frame) == o
  {
  }

  lemma FailedIsClosed(cfg: Config, o: Output, tick: nat, frame: nat)
    requires EnsureFileOpen(cfg, o, tick, frame).openFailed && (o.handleOpen ==> !o.openFailed && o.fileIsOpen)
    ensures !EnsureFileOpen(cfg, o, tick, frame).handleOpen
  {
  }

  lemma RotationAppends(cfg: Config, o: Output, tick: nat, frame: nat)
    ensures o.stream <= RotateFile(cfg, o, tick, frame).stream
  {
  }

  lemma FirstOfBatch(o: Output, drops: nat, total: nat, records: seq<Record>)
    requires records != []
    ensures var lines := BatchLines(o, drops, total, records); lines != [] && (lines[0].Dropped? || lines[0].Body?)
  {
    if drops == 0 { FirstBody(records, o.nextSeq, o.rotation); }
  }

  lemma {:induction false} FirstBody(records: seq<Record>, first: nat, rot: nat)
    requires records != []
    ensures BodyLines(records, first, rot)[0].Body?
  {
    if |records| > 1 { FirstBody(records[..|records| - 1], first, rot); }
  }

  /** Writing the batch into the file that is ready for it, or losing it with a failed rotation. */
  lemma DeliverInto(cfg: Config, ready: Output, drops: nat, total: nat, records: seq<Record>)
    requires FilesOk(cfg, ready) && records != [] && Awaits(ready, records[0].tick, records[0].frame)
    requires ready.fileIsOpen && (ready.handleOpen <==> !ready.openFailed)
    requires total == L.DeclaredDrops(ready.stream) + drops
    ensures var o1 := Write(cfg, ready, BatchLines(ready, drops, total, records));
            Books(cfg, o1) && ready.stream <= o1.stream
            && (ready.handleOpen ==> o1.stream == ready.stream + BatchLines(ready, drops, total, records))
            && BatchLines(ready, drops, total, records) != []
  {
    hide FilesOk, BatchLines;
    FirstOfBatch(ready, drops, total, records);
    if ready.handleOpen {
      BatchKeeps(cfg, ready, drops, total, records);
    } else {
      SeqNoIsFree(cfg, ready, ready.nextSeq + |BatchLines(ready, drops, total, records)|);
    }
  }

  // Runs

  lemma DrainKeeps(cfg: Config, s: LogState)
    requires L.Inv(cfg, s) && Books(cfg, s.out)
    ensures Books(cfg, Drain(cfg, s).out)
    ensures s.out.handleOpen && CanDrain(cfg, s) && s.Pending() > 0 ==> RotatesWhenFull(cfg, s.out, Drain(cfg, s).out)
  {
    hide FilesOk, Deliver, EnsureFileOpen, L.StreamOk, FileBytes;
    if !cfg.mode.Off? && !s.isShutDown && BatchSize(cfg, s) > 0 {
      var records := s.history[s.head..s.head + BatchSize(cfg, s)];
      DeliverKeeps(cfg, s.out, s.droppedSinceDrain, s.droppedTotal, records);
    }
  }

  lemma {:induction false} DrainAllKeeps(cfg: Config, s: LogState)
    requires L.Inv(cfg, s) && Books(cfg, s.out) && CanDrain(cfg, s)
    ensures Books(cfg, DrainAll(cfg, s).out)
    decreases s.Pending()
  {
    hide Books, Drain, L.Inv;
    if s.Pending() > 0 {
      DrainKeeps(cfg, s);
      L.DrainKeeps(cfg, s);
      DrainTakesABatch(cfg, s);
      DrainAllKeeps(cfg, Drain(cfg, s));
    }
  }

  lemma FlushKeeps(cfg: Config, s: LogState)
    requires L.Inv(cfg, s) && Books(cfg, s.out) && FlushReturns(cfg, s)
    ensures Books(cfg, Flush(cfg, s).out) && L.Inv(cfg, Flush(cfg, s))
    ensures Flush(cfg, s).isShutDown == s.isShutDown
  {
    hide Books, L.Inv, DrainAll;
    if CanDrain(cfg, s) {
      DrainAllKeeps(cfg, s);
      L.DrainAllKeeps(cfg, s);
    }
  }

  lemma CloseKeeps(cfg: Config, o: Output, tick: nat, frame: nat, reason: nat, events: nat)
    requires Books(cfg, o) && (o.fileIsOpen && !o.openFailed ==> o.handleOpen)
    ensures var o1 := CloseStream(cfg, o, tick, frame, reason, events);
            && Books(cfg, o1)
            && (!o1.openFailed ==> o1.stream != [] && L.Last(o1.stream).End? && L.Last(o1.stream).reason == reason
                                   && L.Last(o1.stream).tick == tick && L.Last(o1.stream).frame == frame)
  {
    hide Bracketed, Write, EnsureFileOpen, FileBytes, L.DeclaredDrops;
    EnsureKeeps(cfg, o, tick, frame);
    var open := EnsureFileOpen(cfg, o, tick, frame);
    if open.openFailed {
      FailedIsClosed(cfg, o, tick, frame);
    } else {
      var line := End(open.nextSeq, open.rotation, tick, frame, reason, events);
      LineWrites(cfg, open, line);
      WriteAppends(cfg, open, line);
    }
  }

  lemma StepKeeps(cfg: Config, s: LogState, op: Op)
    requires L.Inv(cfg, s) && Books(cfg, s.out) && Returns(cfg, s, op)
    ensures Books(cfg, Step(cfg, s, op).out)
    ensures op.Close? && !s.isShutDown && !cfg.mode.Off? && !Step(cfg, s, op).out.openFailed ==>
              var stream := Step(cfg, s, op).out.stream;
              && stream != [] && L.Last(stream).End? && L.Last(stream).reason == op.reason
              && L.Last(stream).tick == s.tick && L.Last(stream).frame == s.frame
  {
    hide Drain, CloseStream, L.Inv, FilesOk, Flush, L.StreamOk;
    match op
    case Emit(level, kind, entity, a, b, c, d) =>
      var r := Stamped(s, kind, entity, a, b, c, d);
      L.StoreKeeps(cfg, s, r);
      DrainKeeps(cfg, Store(cfg, s, r));
    case TimerDrain => DrainKeeps(cfg, s);
    case FlushAll => FlushKeeps(cfg, s);
    case Close(reason) =>
      if !s.isShutDown && !cfg.mode.Off? {
        FlushKeeps(cfg, s);
        assert HandleFits(Flush(cfg, s)) by { HandleFollows(cfg, Flush(cfg, s)); }
        CloseKeeps(cfg, Flush(cfg, s).out, s.tick, s.frame, reason, |s.history|);
      }
    case _ =>
  }

  ghost predicate HandleFits(s: LogState) {
    !s.isShutDown && s.out.fileIsOpen && !s.out.openFailed ==> s.out.handleOpen
  }

  lemma HandleFollows(cfg: Config, s: LogState)
    requires L.Inv(cfg, s)
    ensures HandleFits(s)
  {
  }

  lemma {:induction false} RunKeepsBooks(cfg: Config, ops: seq<Op>, states: seq<LogState>, n: nat)
    requires IsRun(cfg, ops, states) && n <= |ops|
    ensures Books(cfg, states[n].out)
  {
    hide Books, Step, L.Inv;
    if n == 0 {
      assert Books(cfg, Fresh().out) by { FreshBooks(cfg); }
    } else {
      RunKeepsBooks(cfg, ops, states, n - 1);
      L.RunKeeps(cfg, ops, states, n - 1);
      RunStep(cfg, ops, states, n - 1);
      StepKeeps(cfg, states[n - 1], ops[n - 1]);
    }
  }

  lemma FreshBooks(cfg: Config)
    ensures Books(cfg, Fresh().out)
  {
  }

  /** In every run a header, a retiring line and a loss line carry the stamp of the line after them, so of the
      batch they stand before, and a loss line the sum of all losses up to it. */
  lemma BracketsTellTheirBatch(cfg: Config, ops: seq<Op>, states: seq<LogState>, n: nat, i: nat)
    requires IsRun(cfg, ops, states) && n <= |ops| && i < |states[n].out.stream|
    ensures var stream := states[n].out.stream;
            && (i + 1 < |stream| && !stream[i].Body? ==>
                  stream[i].Tick() == stream[i + 1].Tick() && stream[i].Frame() == stream[i + 1].Frame())
            && (stream[i].Dropped? ==> stream[i].totalDropped == L.DeclaredDrops(stream[..i + 1]))
  {
    RunKeepsBooks(cfg, ops, states, n);
  }

  /** The terminal line carries the reason of the close and the counters of its moment. */
  lemma LogEndSaysWhy(cfg: Config, ops: seq<Op>, states: seq<LogState>, n: nat)
    requires IsRun(cfg, ops, states) && n < |ops| && ops[n].Close?
    requires !cfg.mode.Off? && !states[n].isShutDown && !states[n + 1].out.openFailed
    ensures var stream := states[n + 1].out.stream;
            && stream != [] && L.Last(stream).End? && L.Last(stream).reason == ops[n].reason
            && L.Last(stream).tick == Ticks(ops[..n]) % TWO_TO_32
            && L.Last(stream).frame == Frames(ops[..n]) % TWO_TO_32
  {
    hide Books, Step, L.Inv;
    RunKeepsBooks(cfg, ops, states, n);
    L.RunKeeps(cfg, ops, states, n);
    RunStep(cfg, ops, states, n);
    StepKeeps(cfg, states[n], ops[n]);
    CountersAreTheCalls(cfg, ops, states, n);
  }

  /** A call that drains one batch into an open file retires that file first exactly when its lines have
      reached the limit. */
  lemma RotatesExactlyWhenFull(cfg: Config, ops: seq<Op>, states: seq<LogState>, n: nat)
    requires IsRun(cfg, ops, states) && n < |ops| && (ops[n].TimerDrain? || ops[n].Emit?)
    requires states[n].out.handleOpen
    requires Taken(cfg, ops[n], states[n].isShutDown, Waiting(cfg, ops, n, states[n].Pending())) > 0
    ensures var before, after := states[n].out.stream, states[n + 1].out.stream;
            && before != [] && |after| > |before| && before <= after
            && (after[|before|].Rotate? <==> FileBytes(cfg, before, L.Last(before).rot) >= cfg.maxFileBytes)
  {
    hide Books, L.Inv, Drain, FileBytes, L.StreamOk;
    RunKeepsBooks(cfg, ops, states, n);
    L.RunKeeps(cfg, ops, states, n);
    RunStep(cfg, ops, states, n);
    var s, op := states[n], ops[n];
    assert s.Pending() >= 0 && s.out.stream != [] && L.Last(s.out.stream).rot == s.out.rotation by { OpenFile(cfg, s); }
    if op.Emit? {
      var r := Stamped(s, op.kind, op.entity, op.a, op.b, op.c, op.d);
      L.StoreKeeps(cfg, s, r);
      DrainKeeps(cfg, Store(cfg, s, r));
    } else {
      DrainKeeps(cfg, s);
    }
  }

  lemma OpenFile(cfg: Config, s: LogState)
    requires L.Inv(cfg, s) && s.out.handleOpen
    ensures s.Pending() >= 0 && s.out.stream != [] && L.Last(s.out.stream).rot == s.out.rotation
  {
    hide L.StreamOk;
  }
}
