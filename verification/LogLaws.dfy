/** The laws of the event log over every run. */
module LogLaws {
  import opened FixedWidth
  import opened LogStream

  // What was appended is written, pending or counted as lost; the stream is dense and its loss brackets name
  // their neighbours; stamps never go back; `log.end` closes the books.

  // What a stream accounts for

  function Weight(line: Line): nat {
    match line
    case Body(_, _, _) => 1
    case Dropped(_, _, _, _, count, _, _, _) => count
    case _ => 0
  }

  /** Append positions a stream answers for: its body records and the losses it declares. */
  function Accounted(stream: seq<Line>): nat {
    if stream == [] then 0 else Accounted(stream[..|stream| - 1]) + Weight(stream[|stream| - 1])
  }

  function Bodies(stream: seq<Line>): nat {
    if stream == [] then 0
    else Bodies(stream[..|stream| - 1]) + if stream[|stream| - 1].Body? then 1 else 0
  }

  function DeclaredDrops(stream: seq<Line>): nat {
    if stream == [] then 0
    else DeclaredDrops(stream[..|stream| - 1])
         + if stream[|stream| - 1].Dropped? then stream[|stream| - 1].count else 0
  }

  lemma AccountedIsBodiesAndDrops(stream: seq<Line>)
    ensures Accounted(stream) == Bodies(stream) + DeclaredDrops(stream)
  {
  }

  // The shape of a stream

  /** What two neighbouring lines owe each other. */
  ghost predicate Link(x: Line, y: Line) {
    && !x.End?
    && (if x.Rotate? then y.Begin? && y.rot == x.rot + 1 else !y.Begin? && y.rot == x.rot)
    && (x.Dropped? ==> y.Body? && y.seqNo == x.firstSeq)
    && (y.Dropped? ==> y.lastSeq == x.seqNo)
    && (y.Rotate? ==> y.incoming == y.rot + 1)
  }

  function Last(stream: seq<Line>): Line
    requires stream != []
  {
    stream[|stream| - 1]
  }

  /** `line` may be the next line of `stream`: numbered by its index, linked to its neighbour,
      and, for a body line, carrying the record whose append position the stream implies. */
  ghost predicate MayFollow(history: seq<Record>, stream: seq<Line>, line: Line) {
    && line.seqNo == |stream|
    && (if stream == [] then line.Begin? && line.rot == 0 else Link(Last(stream), line))
    && (line.Body? ==> Accounted(stream) < |history| && history[Accounted(stream)] == line.record)
  }

  ghost predicate StreamOk(history: seq<Record>, stream: seq<Line>) {
    stream == []
    || (var shorter := stream[..|stream| - 1];
        StreamOk(history, shorter) && MayFollow(history, shorter, Last(stream)))
  }

  lemma ExtendStream(history: seq<Record>, stream: seq<Line>, line: Line)
    requires StreamOk(history, stream) && MayFollow(history, stream, line)
    ensures StreamOk(history, stream + [line])
    ensures Accounted(stream + [line]) == Accounted(stream) + Weight(line)
    ensures Bodies(stream + [line]) == Bodies(stream) + if line.Body? then 1 else 0
    ensures DeclaredDrops(stream + [line]) == DeclaredDrops(stream) + if line.Dropped? then line.count else 0
  {
    var longer := stream + [line];
    assert longer[..|longer| - 1] == stream;
  }

  lemma {:induction false} GrowHistory(history: seq<Record>, r: Record, stream: seq<Line>)
    requires StreamOk(history, stream)
    ensures StreamOk(history + [r], stream)
  {
    if stream != [] {
      GrowHistory(history, r, stream[..|stream| - 1]);
    }
  }

  lemma {:induction false} ExtendByBodies(history: seq<Record>, stream: seq<Line>, records: seq<Record>, rot: nat)
    requires StreamOk(history, stream) && stream != [] && records != []
    requires !Last(stream).End? && !Last(stream).Rotate? && Last(stream).rot == rot
    requires Last(stream).Dropped? ==> Last(stream).firstSeq == |stream|
    requires Accounted(stream) + |records| <= |history|
    requires records == history[Accounted(stream)..Accounted(stream) + |records|]
    ensures var longer := stream + BodyLines(records, |stream|, rot);
            && StreamOk(history, longer)
            && Accounted(longer) == Accounted(stream) + |records|
            && Bodies(longer) == Bodies(stream) + |records|
            && DeclaredDrops(longer) == DeclaredDrops(stream)
            && Last(longer).Body? && Last(longer).rot == rot
            && Last(longer).record == records[|records| - 1]
    decreases |records|
  {
    hide StreamOk, Accounted, Bodies, DeclaredDrops;
    var n := |records| - 1;
    var line := Body(|stream| + n, rot, records[n]);
    var shorter := BodyLines(records[..n], |stream|, rot);
    if n > 0 {
      ExtendByBodies(history, stream, records[..n], rot);
    } else {
      assert stream + shorter == stream;
    }
    ExtendStream(history, stream + shorter, line);
    assert stream + BodyLines(records, |stream|, rot) == (stream + shorter) + [line];
  }

  // The drain side

  /** The writer's state between drains of a log that is not shut down. */
  ghost predicate Live(history: seq<Record>, o: Output) {
    && StreamOk(history, o.stream)
    && (o.handleOpen <==> o.fileIsOpen && !o.openFailed)
    && (o.fileIsOpen <==> o.stream != [])
    && (o.nextSeq == |o.stream| || (o.openFailed && o.nextSeq > |o.stream|))
    && (o.stream != [] ==>
          && (Last(o.stream).Rotate? <==> o.openFailed)
          && !Last(o.stream).End? && !Last(o.stream).Dropped?
          && (!o.openFailed ==> Last(o.stream).rot == o.rotation))
  }

  lemma LineKeeps(cfg: Config, history: seq<Record>, o: Output, line: Line)
    requires StreamOk(history, o.stream) && o.handleOpen && MayFollow(history, o.stream, line)
    requires !line.Body? && !line.Dropped?
    ensures var o1 := Write(cfg, o, [line]);
            && o1 == o.(nextSeq := o1.nextSeq, bytes := o1.bytes, stream := o.stream + [line])
            && o1.nextSeq == o.nextSeq + 1
            && StreamOk(history, o1.stream) && Last(o1.stream) == line
            && Accounted(o1.stream) == Accounted(o.stream)
            && DeclaredDrops(o1.stream) == DeclaredDrops(o.stream)
  {
    ExtendStream(history, o.stream, line);
  }

  lemma OpenKeeps(cfg: Config, history: seq<Record>, o: Output, tick: nat, frame: nat)
    requires Live(history, o) && !o.openFailed
    ensures var o1 := EnsureFileOpen(cfg, o, tick, frame);
            && Live(history, o1)
            && Accounted(o1.stream) == Accounted(o.stream)
            && DeclaredDrops(o1.stream) == DeclaredDrops(o.stream)
            && (o1.openFailed ==> o1.stream == [])
            && (!o1.openFailed ==> o1.handleOpen)
  {
    if !o.fileIsOpen && cfg.opens(0) {
      ExtendStream(history, [], Begin(0, 0, tick, frame));
    }
  }

  lemma RotateKeeps(cfg: Config, history: seq<Record>, o: Output, tick: nat, frame: nat)
    requires Live(history, o) && o.handleOpen
    ensures var o1 := RotateFile(cfg, o, tick, frame);
            && Live(history, o1)
            && Accounted(o1.stream) == Accounted(o.stream)
            && DeclaredDrops(o1.stream) == DeclaredDrops(o.stream)
            && o1.fileIsOpen && (!o1.openFailed ==> o1.handleOpen)
  {
    var line := Rotate(o.nextSeq, o.rotation, tick, frame, o.rotation + 1);
    LineKeeps(cfg, history, o, line);
    var o2 := OpenGeneration(cfg, Write(cfg, o, [line]), o.rotation + 1);
    if !o2.openFailed {
      LineKeeps(cfg, history, o2, Begin(o2.nextSeq, o2.rotation, tick, frame));
    }
  }

  lemma BatchKeeps(cfg: Config, history: seq<Record>, o: Output, drops: nat, total: nat, records: seq<Record>)
    requires Live(history, o) && o.handleOpen && records != []
    requires var from := Accounted(o.stream) + drops;
             from + |records| <= |history| && records == history[from..from + |records|]
    ensures var o1 := Write(cfg, o, BatchLines(o, drops, total, records));
            && Live(history, o1)
            && Accounted(o1.stream) == Accounted(o.stream) + drops + |records|
            && DeclaredDrops(o1.stream) == DeclaredDrops(o.stream) + drops
            && Last(o1.stream).Body? && Last(o1.stream).record == records[|records| - 1]
  {
    hide StreamOk, DropLines, Accounted, DeclaredDrops, Bodies, TextBytes, BodyLines, Link;
    var loss := DropLines(o, drops, total, records[0].tick, records[0].frame);
    LossKeeps(history, o, drops, total, records[0].tick, records[0].frame);
    var longer := o.stream + loss;
    ExtendByBodies(history, longer, records, o.rotation);
    var bodies := BodyLines(records, |longer|, o.rotation);
    assert BatchLines(o, drops, total, records) == loss + bodies;
    assert o.stream + (loss + bodies) == longer + bodies;
  }

  lemma LossKeeps(history: seq<Record>, o: Output, drops: nat, total: nat, tick: nat, frame: nat)
    requires Live(history, o) && o.handleOpen
    ensures var loss := DropLines(o, drops, total, tick, frame);
            var longer := o.stream + loss;
            && StreamOk(history, longer) && longer != [] && |longer| == o.nextSeq + |loss|
            && !Last(longer).End? && !Last(longer).Rotate? && Last(longer).rot == o.rotation
            && (Last(longer).Dropped? ==> Last(longer).firstSeq == |longer|)
            && Accounted(longer) == Accounted(o.stream) + drops
            && Bodies(longer) == Bodies(o.stream)
            && DeclaredDrops(longer) == DeclaredDrops(o.stream) + drops
  {
    var loss := DropLines(o, drops, total, tick, frame);
    if drops > 0 {
      ExtendStream(history, o.stream, loss[0]);
      assert loss == [loss[0]];
    } else {
      assert o.stream + loss == o.stream;
    }
  }

  /** A delivery either accounts for every claimed record and loss, or the writer has failed. */
  lemma DeliverKeeps(cfg: Config, history: seq<Record>, o: Output, drops: nat, total: nat, records: seq<Record>)
    requires Live(history, o) && !o.openFailed && records != []
    requires var from := Accounted(o.stream) + drops;
             from + |records| <= |history| && records == history[from..from + |records|]
    ensures var o1 := Deliver(cfg, o, drops, total, records);
            && Live(history, o1)
            && (if o1.openFailed
                then Accounted(o1.stream) == Accounted(o.stream)
                     && DeclaredDrops(o1.stream) == DeclaredDrops(o.stream)
                else Accounted(o1.stream) == Accounted(o.stream) + drops + |records|
                     && DeclaredDrops(o1.stream) == DeclaredDrops(o.stream) + drops)
            && (o1.openFailed && !o1.fileIsOpen <==>
                  EnsureFileOpen(cfg, o, records[0].tick, records[0].frame).openFailed)
  {
    var tick, frame := records[0].tick, records[0].frame;
    OpenKeeps(cfg, history, o, tick, frame);
    var open := EnsureFileOpen(cfg, o, tick, frame);
    if open.openFailed { return; }
    var ready := open;
    if open.bytes >= cfg.maxFileBytes {
      RotateKeeps(cfg, history, open, tick, frame);
      ready := RotateFile(cfg, open, tick, frame);
    }
    if !ready.openFailed {
      BatchKeeps(cfg, history, ready, drops, total, records);
    }
  }

  lemma CloseKeeps(cfg: Config, history: seq<Record>, o: Output, tick: nat, frame: nat, reason: nat, events: nat)
    requires Live(history, o) && !o.openFailed
    ensures var o1 := CloseStream(cfg, o, tick, frame, reason, events);
            && StreamOk(history, o1.stream)
            && Accounted(o1.stream) == Accounted(o.stream)
            && DeclaredDrops(o1.stream) == DeclaredDrops(o.stream)
            && (o1.openFailed ==> Live(history, o1) && o1.stream == [])
            && (!o1.openFailed ==>
                  && !o1.handleOpen && o1.fileIsOpen
                  && o1.nextSeq == |o1.stream| && o1.stream != []
                  && Last(o1.stream).End? && Last(o1.stream).events == events)
  {
    OpenKeeps(cfg, history, o, tick, frame);
    var open := EnsureFileOpen(cfg, o, tick, frame);
    if !open.openFailed {
      ExtendStream(history, open.stream, End(open.nextSeq, open.rotation, tick, frame, reason, events));
    }
  }

  // The invariant

  function Written(s: LogState): int {
    Accounted(s.out.stream) - DeclaredDrops(s.out.stream)
  }

  predicate RotationFailed(s: LogState) {
    s.out.fileIsOpen && s.out.openFailed
  }

  /** Records that reached neither a file nor a loss counter. */
  function Uncounted(s: LogState): int {
    s.head - Written(s) - s.droppedTotal
  }

  ghost predicate OutputOk(s: LogState) {
    if s.isShutDown && !s.out.openFailed then
      && StreamOk(s.history, s.out.stream)
      && !s.out.handleOpen && s.out.fileIsOpen
      && s.out.nextSeq == |s.out.stream| && s.out.stream != []
      && Last(s.out.stream).End? && Last(s.out.stream).events == Accounted(s.out.stream)
    else
      Live(s.history, s.out)
  }

  ghost predicate Inv(cfg: Config, s: LogState) {
    && 0 <= s.Pending() <= cfg.capacity && cfg.capacity >= 1
    && (s.droppedSinceDrain > 0 ==> s.Pending() == cfg.capacity)
    && s.droppedSinceDrain <= s.droppedTotal
    && OutputOk(s)
    && (!s.out.openFailed ==>
          && s.head == Accounted(s.out.stream) + s.droppedSinceDrain
          && s.droppedTotal == DeclaredDrops(s.out.stream) + s.droppedSinceDrain)
    && (if RotationFailed(s) then 1 <= Uncounted(s) <= cfg.batch else Uncounted(s) == 0)
  }

  lemma StoreKeeps(cfg: Config, s: LogState, r: Record)
    requires Inv(cfg, s)
    ensures Inv(cfg, Store(cfg, s, r))
  {
    GrowHistory(s.history, r, s.out.stream);
  }

  /** A failed writer takes nothing: the batch goes to the loss counter. */
  lemma FailedDrainKeeps(cfg: Config, s: LogState)
    requires Inv(cfg, s) && s.out.openFailed
    ensures Inv(cfg, Drain(cfg, s))
  {
  }

  lemma LiveDrainKeeps(cfg: Config, s: LogState, records: seq<Record>)
    requires Inv(cfg, s) && !s.out.openFailed && !cfg.mode.Off? && !s.isShutDown && BatchSize(cfg, s) > 0
    requires records == s.history[s.head..s.head + BatchSize(cfg, s)]
    ensures Inv(cfg, Drain(cfg, s))
  {
    hide Deliver, StreamOk, Accounted, DeclaredDrops;
    var s1 := Drain(cfg, s);
    var o1 := Deliver(cfg, s.out, s.droppedSinceDrain, s.droppedTotal, records);
    var opens := !EnsureFileOpen(cfg, s.out, records[0].tick, records[0].frame).openFailed;
    assert s1 == s.(head := s.head + |records|, droppedSinceDrain := 0, out := o1,
                    droppedTotal := if opens then s.droppedTotal else s.droppedTotal + |records|);
    DeliverKeeps(cfg, s.history, s.out, s.droppedSinceDrain, s.droppedTotal, records);
    assert OutputOk(s1);
    DrainCounts(cfg, s, s1, |records|);
  }

  /** The arithmetic of one delivery, whichever way the writer answered. */
  lemma DrainCounts(cfg: Config, s: LogState, s1: LogState, batch: nat)
    requires Inv(cfg, s) && OutputOk(s1) && !s.out.openFailed && 0 < batch <= cfg.batch
    requires s1.history == s.history && s1.head == s.head + batch <= |s.history| && s1.droppedSinceDrain == 0
    requires s1.droppedTotal
          == if s1.out.openFailed && !s1.out.fileIsOpen then s.droppedTotal + batch else s.droppedTotal
    requires var more := if s1.out.openFailed then 0 else s.droppedSinceDrain;
             && DeclaredDrops(s1.out.stream) == DeclaredDrops(s.out.stream) + more
             && Accounted(s1.out.stream) == Accounted(s.out.stream) + more + if s1.out.openFailed then 0 else batch
    ensures Inv(cfg, s1)
  {
  }

  lemma DrainKeeps(cfg: Config, s: LogState)
    requires Inv(cfg, s)
    ensures Inv(cfg, Drain(cfg, s))
  {
    if cfg.mode.Off? || s.isShutDown || BatchSize(cfg, s) == 0 {
    } else if s.out.openFailed {
      FailedDrainKeeps(cfg, s);
    } else {
      LiveDrainKeeps(cfg, s, s.history[s.head..s.head + BatchSize(cfg, s)]);
    }
  }

  lemma {:induction false} DrainAllKeeps(cfg: Config, s: LogState)
    requires Inv(cfg, s) && CanDrain(cfg, s)
    ensures var s1 := DrainAll(cfg, s);
            && Inv(cfg, s1) && s1.Pending() == 0 && !HasPendingWork(s1)
            && s1.history == s.history && !s1.isShutDown && s1.tick == s.tick && s1.frame == s.frame
    decreases s.Pending()
  {
    if s.Pending() > 0 {
      DrainKeeps(cfg, s);
      DrainTakesABatch(cfg, s);
      DrainAllKeeps(cfg, Drain(cfg, s));
    }
  }

  lemma ShutdownKeeps(cfg: Config, s: LogState, reason: nat)
    requires Inv(cfg, s) && ShutdownReturns(cfg, s)
    ensures Inv(cfg, Shutdown(cfg, s, reason))
  {
    if s.isShutDown || cfg.mode.Off? { return; }
    if HasPendingWork(s) {
      DrainAllKeeps(cfg, s);
    }
    var drained := Flush(cfg, s);
    if !drained.out.openFailed {
      CloseKeeps(cfg, s.history, drained.out, s.tick, s.frame, reason, |s.history|);
    }
  }

  lemma StepKeeps(cfg: Config, s: LogState, op: Op)
    requires Inv(cfg, s) && Returns(cfg, s, op)
    ensures Inv(cfg, Step(cfg, s, op))
  {
    match op
    case Emit(level, kind, entity, a, b, c, d) =>
      var r := Stamped(s, kind, entity, a, b, c, d);
      StoreKeeps(cfg, s, r);
      DrainKeeps(cfg, Store(cfg, s, r));
    case FrameStart =>
    case TickStart(zone) =>
      var s1 := s.(zone := Lanes.ClampU16(zone), tick := WrappingSuccessor(s.tick));
      StoreKeeps(cfg, s1, HeartbeatRecord(s1));
    case FlowChange(_) =>
    case TimerDrain => DrainKeeps(cfg, s);
    case FlushAll =>
      if CanDrain(cfg, s) { DrainAllKeeps(cfg, s); }
    case Close(reason) => ShutdownKeeps(cfg, s, reason);
  }

  lemma RunStarts(cfg: Config, ops: seq<Op>, states: seq<LogState>)
    requires IsRun(cfg, ops, states)
    ensures |states| == |ops| + 1 && Inv(cfg, states[0])
  {}

  lemma {:induction false} RunKeeps(cfg: Config, ops: seq<Op>, states: seq<LogState>, i: nat)
    requires IsRun(cfg, ops, states) && i <= |ops|
    ensures Inv(cfg, states[i])
  {
    hide Inv, IsRun, Step, Returns, Fresh;
    RunStarts(cfg, ops, states);
    if i > 0 {
      RunKeeps(cfg, ops, states, i - 1);
      RunStep(cfg, ops, states, i - 1);
      StepKeeps(cfg, states[i - 1], ops[i - 1]);
    }
  }

  // The theorems

  lemma {:induction false} LineAt(history: seq<Record>, stream: seq<Line>, i: nat)
    requires StreamOk(history, stream) && i < |stream|
    ensures MayFollow(history, stream[..i], stream[i])
  {
    var shorter := stream[..|stream| - 1];
    if i == |stream| - 1 {
    } else {
      LineAt(history, shorter, i);
      assert shorter[..i] == stream[..i];
    }
  }

  /** In every run the append position of a written record is the number of body lines before it
      plus the losses declared before it. */
  lemma WrittenRecordsKeepTheirPosition(cfg: Config, ops: seq<Op>, states: seq<LogState>, n: nat, i: nat)
    requires IsRun(cfg, ops, states) && n <= |ops|
    requires i < |states[n].out.stream| && states[n].out.stream[i].Body?
    ensures var before := states[n].out.stream[..i];
            var position := Bodies(before) + DeclaredDrops(before);
            position < |states[n].history| && states[n].history[position] == states[n].out.stream[i].record
  {
    RunKeeps(cfg, ops, states, n);
    LineAt(states[n].history, states[n].out.stream, i);
    AccountedIsBodiesAndDrops(states[n].out.stream[..i]);
  }

  /** Every appended record is written, pending or counted as lost, exactly while no rotation has
      failed; a failed rotation loses the one batch it was made for. */
  lemma AppendsAreConserved(cfg: Config, ops: seq<Op>, states: seq<LogState>, n: nat)
    requires IsRun(cfg, ops, states) && n <= |ops|
    ensures var s := states[n];
            var missing := |s.history| - (Bodies(s.out.stream) + s.Pending() + s.droppedTotal);
            && (missing == 0 <==> !RotationFailed(s))
            && 0 <= missing <= cfg.batch
            && 0 <= s.Pending() <= cfg.capacity
  {
    RunKeeps(cfg, ops, states, n);
    AccountedIsBodiesAndDrops(states[n].out.stream);
  }

  /** Lines are numbered 0, 1, 2, ... across all files; a loss bracket names the lines around it;
      a file begins with `log.begin` and, unless it is the last, ends with `log.rotate`;
      nothing follows `log.end`. */
  lemma StreamIsDense(cfg: Config, ops: seq<Op>, states: seq<LogState>, n: nat, i: nat)
    requires IsRun(cfg, ops, states) && n <= |ops| && i < |states[n].out.stream|
    ensures var stream := states[n].out.stream;
            && stream[i].seqNo == i
            && (stream[i].Dropped? ==>
                  && 0 < i < |stream| - 1
                  && stream[i].lastSeq == stream[i - 1].seqNo
                  && stream[i].firstSeq == stream[i + 1].seqNo && stream[i + 1].Body?)
            && (stream[i].Begin? <==> i == 0 || stream[i - 1].rot != stream[i].rot)
            && (i + 1 < |stream| ==>
                  && !stream[i].End?
                  && (stream[i].Rotate? <==> stream[i + 1].rot != stream[i].rot)
                  && (stream[i].Rotate? ==> stream[i].incoming == stream[i + 1].rot == stream[i].rot + 1))
  {
    RunKeeps(cfg, ops, states, n);
    var stream := states[n].out.stream;
    LineAt(states[n].history, stream, i);
    if i > 0 {
      LineAt(states[n].history, stream, i - 1);
      assert Last(stream[..i]) == stream[i - 1];
    }
    if i + 1 < |stream| {
      LineAt(states[n].history, stream, i + 1);
      assert Last(stream[..i + 1]) == stream[i];
    }
  }

  /** Closing a log whose files work ends the stream with `log.end`, and its `events` is the number
      of appended records: every one of them is a body line or inside a declared loss. */
  lemma LogEndClosesTheBooks(cfg: Config, ops: seq<Op>, states: seq<LogState>, n: nat)
    requires IsRun(cfg, ops, states) && n < |ops| && ops[n].Close?
    requires !cfg.mode.Off? && !states[n].isShutDown
    ensures var closed := states[n + 1];
            && closed.isShutDown && !closed.out.handleOpen
            && (closed.out.openFailed
                || (var stream := closed.out.stream;
                    && stream != [] && Last(stream).End?
                    && Last(stream).events == |closed.history|
                    && |closed.history| == Bodies(stream) + DeclaredDrops(stream)
                    && closed.droppedTotal == DeclaredDrops(stream)))
  {
    RunKeeps(cfg, ops, states, n);
    RunKeeps(cfg, ops, states, n + 1);
    RunStep(cfg, ops, states, n);
    var s, op := states[n], ops[n];
    if HasPendingWork(s) { DrainAllKeeps(cfg, s); }
    var drained := Flush(cfg, s);
    if !drained.out.openFailed {
      CloseKeeps(cfg, s.history, drained.out, s.tick, s.frame, op.reason, |s.history|);
    }
    AccountedIsBodiesAndDrops(states[n + 1].out.stream);
  }

  /** A log whose files can all be created never stops writing. */
  lemma {:induction false} WorkingFilesNeverFail(cfg: Config, ops: seq<Op>, states: seq<LogState>, n: nat)
    requires IsRun(cfg, ops, states) && n <= |ops|
    requires forall r :: cfg.opens(r)
    ensures !states[n].out.openFailed
  {
    if n > 0 {
      WorkingFilesNeverFail(cfg, ops, states, n - 1);
      RunStep(cfg, ops, states, n - 1);
      WorkingStep(cfg, states[n - 1], ops[n - 1]);
    }
  }

  lemma WorkingDrain(cfg: Config, s: LogState)
    requires !s.out.openFailed && forall r :: cfg.opens(r)
    ensures !Drain(cfg, s).out.openFailed
  {
    hide BatchLines, TextBytes;
  }

  lemma {:induction false} WorkingDrainAll(cfg: Config, s: LogState)
    requires !s.out.openFailed && forall r :: cfg.opens(r)
    ensures CanDrain(cfg, s) ==> !DrainAll(cfg, s).out.openFailed
    decreases s.Pending()
  {
    if CanDrain(cfg, s) && s.Pending() > 0 {
      WorkingDrain(cfg, s);
      DrainTakesABatch(cfg, s);
      WorkingDrainAll(cfg, Drain(cfg, s));
    }
  }

  lemma WorkingStep(cfg: Config, s: LogState, op: Op)
    requires !s.out.openFailed && Returns(cfg, s, op) && forall r :: cfg.opens(r)
    ensures !Step(cfg, s, op).out.openFailed
  {
    hide Drain, DrainAll, TextBytes;
    match op
    case Emit(level, kind, entity, a, b, c, d) =>
      WorkingDrain(cfg, Store(cfg, s, Stamped(s, kind, entity, a, b, c, d)));
    case TimerDrain => WorkingDrain(cfg, s);
    case FlushAll => WorkingDrainAll(cfg, s);
    case Close(_) => WorkingDrainAll(cfg, s);
    case _ =>
  }

  lemma {:induction false} DrainingEndsAt(cfg: Config, s: LogState) returns (n: nat)
    requires Inv(cfg, s) && CanDrain(cfg, s)
    ensures !HasPendingWork(DrainTimes(cfg, s, n))
    decreases s.Pending()
  {
    if s.Pending() == 0 {
      n := 0;
    } else {
      DrainKeeps(cfg, s);
      DrainTakesABatch(cfg, s);
      var m := DrainingEndsAt(cfg, Drain(cfg, s));
      n := m + 1;
    }
  }

  lemma {:induction false} DrainingNeverEnds(cfg: Config, s: LogState, n: nat)
    requires !CanDrain(cfg, s)
    ensures DrainTimes(cfg, s, n) == s
  {
    if n > 0 { DrainingNeverEnds(cfg, s, n - 1); }
  }

  /** The barrier loop of a recording log ends exactly when nothing is pending, or the log is still
      open and its batch size is positive. */
  lemma BarrierEndsExactlyWhen(cfg: Config, ops: seq<Op>, states: seq<LogState>, n: nat)
    requires IsRun(cfg, ops, states) && n <= |ops| && !cfg.mode.Off?
    ensures (exists k: nat :: !HasPendingWork(DrainTimes(cfg, states[n], k)))
       <==> !HasPendingWork(states[n]) || (!states[n].isShutDown && cfg.batch >= 1)
  {
    RunKeeps(cfg, ops, states, n);
    var s := states[n];
    if !HasPendingWork(s) {
      assert DrainTimes(cfg, s, 0) == s;
    } else if CanDrain(cfg, s) {
      var k := DrainingEndsAt(cfg, s);
    } else {
      forall k: nat ensures HasPendingWork(DrainTimes(cfg, s, k)) {
        DrainingNeverEnds(cfg, s, k);
      }
    }
  }
}
