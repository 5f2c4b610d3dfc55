/** The production event log: a preallocated ring under one lock, drained batch by batch into the
    writer. Every operation is proved equal to the corresponding step of `LogStream`, in which
    there is no ring at all. */
module EventLog {
  import opened FixedWidth
  import opened Lanes
  import opened LogStream
  import opened Basics
  import opened EventWriter

  const ZERO_RECORD := Record(0, 0, 0, 0, 0, 0, 0, 0, 0)

  /** The smallest power of two that is at least `wanted` and at least 16. */
  method RoundedPowerOfTwo(wanted: int) returns (candidate: nat, ghost bits: nat)
    ensures candidate == Pow2(bits) && candidate >= wanted && candidate >= 16
    ensures candidate > 16 ==> candidate / 2 < wanted
  {
    candidate, bits := 16, 4;
    assert Pow2(4) == 16;
    var bound := if wanted > 16 then wanted else 16;
    while candidate < bound
      invariant candidate == Pow2(bits) && candidate >= 16
      invariant candidate > 16 ==> candidate / 2 < wanted
      decreases bound - candidate
    {
      candidate, bits := 2 * candidate, bits + 1;
    }
  }

  class GameplayEventLog {
    const cfg: Config
    const viewEvents: int
    const writer: FileWriter
    const ring: array<Record>
    const mask: nat
    ghost const bits: nat

    var head: nat
    var tail: nat
    var pending: nat
    var droppedTotal: nat
    var droppedSinceDrain: nat
    var appendedTotal: nat

    var tickValue: U32
    var frameValue: U32
    var zoneValue: U16
    var flowValue: U16

    var nextSeq: nat
    var fileIsOpen: bool
    var openFailed: bool
    var isShutDown: bool
    var wantsInlineDrain: bool
    var scratch: seq<Record>

    /** Everything ever appended; the ring forgets it, the specification does not. */
    ghost var history: seq<Record>

    ghost function OutputView(): Output
      reads this, writer
    {
      Output(nextSeq, fileIsOpen, openFailed, writer.handleOpen, writer.rotation,
             writer.BytesInCurrentFile(), writer.stream)
    }

    ghost function View(): LogState
      reads this, writer
    {
      LogState(history, head, droppedTotal, droppedSinceDrain,
               tickValue, frameValue, zoneValue, flowValue, isShutDown, OutputView())
    }

    /** The ring holds exactly the newest `pending` records of the history, in order. */
    ghost predicate RingFits()
      reads `head, `tail, `pending, `history, ring
    {
      && ring.Length == cfg.capacity == Pow2(bits) && mask == cfg.capacity - 1
      && tail == |history| && head + pending == tail && pending <= ring.Length
      && forall i {:trigger history[i]} :: head <= i < tail ==> ring[i % ring.Length] == history[i]
    }

    /** A loss waits for its declaration only while records wait with it. */
    ghost predicate RingHolds()
      reads `head, `tail, `pending, `history, `droppedSinceDrain, ring
    {
      RingFits() && (droppedSinceDrain > 0 ==> pending > 0)
    }

    ghost predicate WriterFits()
      reads this, writer
    {
      && writer.cfg == cfg && writer.Valid()
      && (fileIsOpen ==> writer.generations != [])
      && (!fileIsOpen && !openFailed ==> writer.generations == [])
    }

    ghost predicate Valid()
      reads this, writer, ring
    {
      RingHolds() && WriterFits() && appendedTotal == |history| && !wantsInlineDrain
    }

    constructor (limits: Config, viewEvents: int, wantedCapacity: int, keptFiles: nat, bufferBytes: nat,
                 found: map<string, Option<int>>)
      ensures Valid() && fresh(ring) && fresh(writer)
      ensures View() == Fresh()
      ensures cfg == limits.(capacity := cfg.capacity) && IsPowerOfTwo(cfg.capacity)
      ensures cfg.capacity >= 16 && cfg.capacity >= wantedCapacity
      ensures cfg.capacity > 16 ==> cfg.capacity / 2 < wantedCapacity
    {
      var capacity, k := RoundedPowerOfTwo(wantedCapacity);
      var config := limits.(capacity := capacity);
      cfg, this.viewEvents := config, viewEvents;
      ring := new Record[capacity](_ => ZERO_RECORD);
      mask, bits := capacity - 1, k;
      writer := new FileWriter(config, keptFiles, bufferBytes, found);
      head, tail, pending, droppedTotal, droppedSinceDrain, appendedTotal := 0, 0, 0, 0, 0, 0;
      tickValue, frameValue, zoneValue, flowValue := 0, 0, 0, 0;
      nextSeq, fileIsOpen, openFailed, isShutDown, wantsInlineDrain := 0, false, false, false, false;
      scratch, history := [], [];
    }

    // Producer side

    method Emit(minimumLevel: nat, kind: nat, entity: U16, a: I16, b: I16, c: I16, d: I16)
      requires Valid()
      modifies this, ring, writer
      ensures Valid() && View() == Step(cfg, old(View()), Op.Emit(minimumLevel, kind, entity, a, b, c, d))
    {
      if cfg.level < minimumLevel { return; }
      AppendRecord(kind, entity, a, b, c, d);
    }

    method AppendRecord(kind: nat, entity: U16, a: I16, b: I16, c: I16, d: I16)
      requires Valid()
      modifies this, ring, writer
      ensures Valid()
      ensures View() == Append(cfg, old(View()), Stamped(old(View()), kind, entity, a, b, c, d))
    {
      hide Drain, Pow2, Concat;
      appendedTotal := appendedTotal + 1;
      var record := Record(tickValue, frameValue, zoneValue, entity, kind, a, b, c, d);
      StoreLocked(record);
      if cfg.mode.Synchronous? && pending >= cfg.batch { wantsInlineDrain := true; }
      var drainInline := wantsInlineDrain;
      wantsInlineDrain := false;
      if drainInline { DrainNow(); }
    }

    /** Into a full ring the record goes at the price of the oldest one, which counts as dropped. */
    method StoreLocked(record: Record)
      requires RingHolds()
      modifies `head, `tail, `pending, `droppedTotal, `droppedSinceDrain, `history, ring
      ensures RingHolds()
      ensures View() == Store(cfg, old(View()), record)
    {
      if pending >= ring.Length {
        head := head + 1;
        pending := pending - 1;
        droppedTotal := droppedTotal + 1;
        droppedSinceDrain := droppedSinceDrain + 1;
      }
      Place(record);
    }

    method Place(record: Record)
      requires RingFits() && pending < ring.Length
      modifies `tail, `pending, `history, ring
      ensures RingFits() && history == old(history) + [record] && pending == old(pending) + 1
    {
      MaskIsModulo(tail, bits);
      forall i | head <= i < tail
        ensures i % ring.Length != tail % ring.Length
      {
        DistinctSlots(i, tail, ring.Length);
      }
      ring[BitAnd(tail, mask)] := record;
      tail := tail + 1;
      pending := pending + 1;
      history := history + [record];
    }

    method BeginFrame()
      requires Valid()
      modifies `frameValue
      ensures Valid() && View() == LogStream.BeginFrame(old(View()))
    {
      frameValue := WrappingSuccessor(frameValue);
    }

    method BeginTick(zone: int)
      requires Valid()
      modifies this, ring
      ensures Valid() && View() == LogStream.BeginTick(cfg, old(View()), zone)
    {
      zoneValue := ClampU16(zone);
      tickValue := WrappingSuccessor(tickValue);
      if cfg.heartbeatSteps > 0 && tickValue % cfg.heartbeatSteps == 0 {
        AppendHeartbeatLocked();
      }
    }

    method AppendHeartbeatLocked()
      requires Valid()
      modifies this, ring
      ensures Valid() && View() == Store(cfg, old(View()), HeartbeatRecord(old(View())))
    {
      var events, drops := SplitTruncating(appendedTotal), SplitTruncating(droppedTotal);
      appendedTotal := appendedTotal + 1;
      StoreLocked(Record(tickValue, frameValue, zoneValue, flowValue, HEARTBEAT_KIND,
                         events.0, events.1, drops.0, drops.1));
    }

    method SetFlowState(code: U16)
      requires Valid()
      modifies `flowValue
      ensures Valid() && View() == old(View()).(flow := code)
    {
      flowValue := code;
    }

    /** The newest records for the in-game window, oldest first. */
    method ViewNewest(wantedEvents: int) returns (result: seq<Record>)
      requires Valid()
      ensures var most := if wantedEvents < viewEvents then wantedEvents else viewEvents;
              var wanted := if most < 1 then 1 else most;
              |result| == (if pending < wanted then pending else wanted)
      ensures result == history[|history| - |result|..]
    {
      var most := if wantedEvents < viewEvents then wantedEvents else viewEvents;
      var wanted := if most < 1 then 1 else most;
      var available := if pending < wanted then pending else wanted;
      result := CopyOut(tail - available, available);
      assert tail == |history|;
    }

    /** `count` records of the ring from append position `from`. */
    method CopyOut(from: nat, count: nat) returns (records: seq<Record>)
      requires RingHolds() && head <= from && from + count <= tail
      ensures records == history[from..from + count]
    {
      records := [];
      var index := from;
      for n := 0 to count
        invariant index == from + n
        invariant records == history[from..from + n]
      {
        MaskIsModulo(index, bits);
        records := records + [ring[BitAnd(index, mask)]];
        assert history[from..from + n + 1] == history[from..from + n] + [history[from + n]];
        index := index + 1;
      }
    }

    // Drain side

    method DrainNow()
      requires Valid()
      modifies this, writer
      ensures Valid() && View() == Drain(cfg, old(View()))
    {
      hide LogStream.EnsureFileOpen, LogStream.Deliver, Concat, TextBytes, Pow2, RingFits;
      if cfg.mode.Off? || isShutDown { return; }
      var batch, drops := ClaimBatch();
      if batch == 0 { return; }
      var open := DeliverScratch(drops);
      if !open {
        droppedTotal := droppedTotal + batch;
      }
    }

    /** Copies the oldest batch out of the ring. The undeclared loss is only taken along when there
        is a batch to declare it before. */
    method ClaimBatch() returns (batch: nat, drops: nat)
      requires RingHolds()
      modifies `scratch, `droppedSinceDrain, `head, `pending
      ensures RingHolds() && batch == BatchSize(cfg, old(View())) == |scratch|
      ensures scratch == history[old(head)..old(head) + batch]
      ensures drops == if batch > 0 then old(droppedSinceDrain) else 0
      ensures View() == old(View()).(head := old(head) + batch,
                                     droppedSinceDrain := old(droppedSinceDrain) - drops)
    {
      batch := if pending < cfg.batch then pending else cfg.batch;
      drops := if batch > 0 then droppedSinceDrain else 0;
      scratch := CopyOut(head, batch);
      droppedSinceDrain := droppedSinceDrain - drops;
      head := head + batch;
      pending := pending - batch;
    }

    /** Hands the copied batch to the file, rotating it first when it is full. */
    method DeliverScratch(drops: nat) returns (open: bool)
      requires WriterFits() && !cfg.mode.Off? && scratch != []
      modifies `nextSeq, `fileIsOpen, `openFailed, writer
      ensures WriterFits()
      ensures OutputView() == Deliver(cfg, old(OutputView()), drops, droppedTotal, scratch)
      ensures open == !LogStream.EnsureFileOpen(cfg, old(OutputView()), scratch[0].tick, scratch[0].frame).openFailed
    {
      hide LogStream.EnsureFileOpen, LogStream.RotateFile, LogStream.Write, BatchLines;
      var stampTick, stampFrame := scratch[0].tick, scratch[0].frame;
      open := EnsureFileOpen(stampTick, stampFrame);
      if !open { return; }
      if writer.BytesInCurrentFile() >= cfg.maxFileBytes {
        RotateFile(stampTick, stampFrame);
      }
      WriteBatch(drops);
    }

    method WriteBatch(drops: nat)
      requires WriterFits() && scratch != []
      modifies `nextSeq, writer
      ensures WriterFits()
      ensures OutputView() == LogStream.Write(cfg, old(OutputView()),
                                              BatchLines(old(OutputView()), drops, droppedTotal, scratch))
    {
      hide BatchLines, Concat, TextBytes;
      var output := FormatBatch(drops);
      writer.Write(output);
    }

    /** Numbers and formats the loss bracket and the records of the copied batch. */
    method FormatBatch(drops: nat) returns (output: seq<Line>)
      requires scratch != []
      modifies `nextSeq
      ensures output == BatchLines(old(OutputView()), drops, droppedTotal, scratch)
      ensures nextSeq == old(nextSeq) + |output|
    {
      hide Concat, TextBytes;
      output := [];
      if drops > 0 {
        output := output + [Dropped(nextSeq, writer.rotation, scratch[0].tick, scratch[0].frame, drops,
                                    nextSeq + 1, if nextSeq == 0 then 0 else nextSeq - 1, droppedTotal)];
        nextSeq := nextSeq + 1;
      }
      ghost var loss, first, rot := output, nextSeq, writer.rotation;
      for i := 0 to |scratch|
        invariant nextSeq == first + i
        invariant output == loss + BodyLines(scratch[..i], first, rot)
      {
        assert scratch[..i + 1][..i] == scratch[..i];
        assert BodyLines(scratch[..i + 1], first, rot)
            == BodyLines(scratch[..i], first, rot) + [Body(first + i, rot, scratch[i])];
        output := output + [Body(nextSeq, writer.rotation, scratch[i])];
        nextSeq := nextSeq + 1;
      }
      assert scratch[..|scratch|] == scratch;
    }

    method EnsureFileOpen(stampTick: nat, stampFrame: nat) returns (open: bool)
      requires WriterFits() && !cfg.mode.Off?
      modifies `nextSeq, `fileIsOpen, `openFailed, writer
      ensures WriterFits() && OutputView() == LogStream.EnsureFileOpen(cfg, old(OutputView()), stampTick, stampFrame)
      ensures open == !openFailed && (open ==> fileIsOpen)
    {
      if openFailed { return false; }
      if fileIsOpen { return true; }
      var ok := writer.OpenFirstFile();
      if !ok {
        openFailed := true;
        return false;
      }
      fileIsOpen := true;
      WriteBegin(stampTick, stampFrame);
      return true;
    }

    method WriteBegin(tick: nat, frame: nat)
      requires WriterFits()
      modifies `nextSeq, writer
      ensures WriterFits() && OutputView() == LogStream.WriteBegin(cfg, old(OutputView()), tick, frame)
    {
      hide FileWriter.Complete;
      var line := Begin(nextSeq, writer.rotation, tick, frame);
      nextSeq := nextSeq + 1;
      writer.Write([line]);
      writer.Synchronize();
    }

    method RotateFile(tick: nat, frame: nat)
      requires WriterFits() && fileIsOpen && !openFailed
      modifies `nextSeq, `openFailed, writer
      ensures WriterFits() && OutputView() == LogStream.RotateFile(cfg, old(OutputView()), tick, frame)
    {
      hide FileWriter.Complete, Concat, TextBytes, LogStream.WriteBegin;
      var line := Rotate(nextSeq, writer.rotation, tick, frame, writer.rotation + 1);
      nextSeq := nextSeq + 1;
      writer.Write([line]);
      writer.Synchronize();
      var ok := writer.RotateToNextFile();
      if !ok {
        openFailed := true;
        return;
      }
      WriteBegin(tick, frame);
    }

    /** The barrier: it returns with nothing pending and no loss undeclared. */
    method DrainEverything()
      requires Valid() && FlushReturns(cfg, View()) && !cfg.mode.Off?
      modifies this, writer
      ensures Valid() && View() == LogStream.Flush(cfg, old(View()))
      ensures pending == 0 && droppedSinceDrain == 0
    {
      ghost var start := View();
      while pending > 0 || droppedSinceDrain > 0
        invariant Valid()
        invariant HasPendingWork(start) ==> CanDrain(cfg, View()) && DrainAll(cfg, View()) == DrainAll(cfg, start)
        invariant !HasPendingWork(start) ==> View() == start
        decreases pending
      {
        DrainTakesABatch(cfg, View());
        DrainNow();
      }
    }

    method Flush()
      requires Valid() && FlushReturns(cfg, View())
      modifies this, writer
      ensures Valid() && View() == LogStream.Flush(cfg, old(View()))
    {
      if cfg.mode.Off? { return; }
      DrainEverything();
      writer.Synchronize();
    }

    /** Drains, writes `log.end` and closes the file. A second call does nothing. */
    method Shutdown(reason: nat)
      requires Valid() && ShutdownReturns(cfg, View())
      modifies this, writer
      ensures Valid() && View() == LogStream.Shutdown(cfg, old(View()), reason)
    {
      hide Concat, TextBytes, LogStream.EnsureFileOpen, LogStream.Flush, DrainAll;
      var events, lastTick, lastFrame := appendedTotal, tickValue, frameValue;
      if isShutDown || cfg.mode.Off? { return; }
      Flush();
      isShutDown := true;
      WriteEnd(lastTick, lastFrame, reason, events);
    }

    /** The terminal line and the end of the file, if there is one. */
    method WriteEnd(tick: nat, frame: nat, reason: nat, events: nat)
      requires WriterFits() && !cfg.mode.Off?
      modifies `nextSeq, `fileIsOpen, `openFailed, writer
      ensures WriterFits() && OutputView() == CloseStream(cfg, old(OutputView()), tick, frame, reason, events)
    {
      hide Concat, TextBytes, LogStream.EnsureFileOpen;
      var open := EnsureFileOpen(tick, frame);
      if !open { return; }
      var line := End(nextSeq, writer.rotation, tick, frame, reason, events);
      nextSeq := nextSeq + 1;
      writer.Write([line]);
      writer.Synchronize();
      writer.CloseFile();
    }
  }
}
