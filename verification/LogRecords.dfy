/** What the records of the log hold, over every run. */
module LogRecords {
  import opened FixedWidth
  import opened Lanes
  import opened LogStream
  import L = LogLaws

  // The history of every run is exactly the admitted calls, each with its own payload and the counters of its
  // moment, and the heartbeats on their interval.

  // What a list of calls says

  /** The zone of the last tick start, kept within sixteen bits. */
  function LastZone(ops: seq<Op>): int {
    if ops == [] then 0
    else match ops[|ops| - 1]
      case TickStart(zone) => if zone < 0 then 0 else if zone > 65_535 then 65_535 else zone
      case _ => LastZone(ops[..|ops| - 1])
  }

  function LastFlow(ops: seq<Op>): int {
    if ops == [] then 0
    else match ops[|ops| - 1]
      case FlowChange(code) => code
      case _ => LastFlow(ops[..|ops| - 1])
  }

  /** The call emits a record that the level lets through. */
  predicate Admitted(cfg: Config, op: Op) {
    op.Emit? && op.minimumLevel <= cfg.level
  }

  /** The `i`-th call starts a tick on the heartbeat's interval. */
  predicate Beats(cfg: Config, ops: seq<Op>, i: nat)
    requires i < |ops|
  {
    ops[i].TickStart? && cfg.heartbeatSteps > 0
    && Ticks(ops[..i + 1]) % TWO_TO_32 % cfg.heartbeatSteps == 0
  }

  /** How many of the first `n` calls left a record. */
  function Records(cfg: Config, ops: seq<Op>, n: nat): nat
    requires n <= |ops|
  {
    if n == 0 then 0
    else Records(cfg, ops, n - 1) + if Admitted(cfg, ops[n - 1]) || Beats(cfg, ops, n - 1) then 1 else 0
  }

  /** The record was left by the `i`-th call. */
  ghost predicate IsRecordOf(cfg: Config, ops: seq<Op>, i: nat, dropped: int, r: Record)
    requires i < |ops|
  {
    && r.tick == Ticks(ops[..i + 1]) % TWO_TO_32 && r.frame == Frames(ops[..i + 1]) % TWO_TO_32
    && r.zone == LastZone(ops[..i + 1])
    && if ops[i].Emit?
       then r.kind == ops[i].kind && r.entity == ops[i].entity
            && r.a == ops[i].a && r.b == ops[i].b && r.c == ops[i].c && r.d == ops[i].d
       else r.kind == 47 && r.entity == LastFlow(ops[..i])
            && (Records(cfg, ops, i) < 0x8000_0000 ==> Join(r.a, r.b) == Records(cfg, ops, i))
            && (0 <= dropped < 0x8000_0000 ==> Join(r.c, r.d) == dropped)
  }

  // One call

  lemma {:induction false} DrainAllKeepsRecords(cfg: Config, s: LogState)
    requires CanDrain(cfg, s)
    ensures var t := DrainAll(cfg, s);
            t.history == s.history && t.tick == s.tick && t.frame == s.frame && t.zone == s.zone && t.flow == s.flow
    decreases s.Pending()
  {
    if s.Pending() > 0 {
      DrainTakesABatch(cfg, s);
      DrainAllKeepsRecords(cfg, Drain(cfg, s));
    }
  }

  ghost predicate SameRecords(s: LogState, t: LogState) {
    t.history == s.history && t.tick == s.tick && t.frame == s.frame && t.zone == s.zone && t.flow == s.flow
  }

  lemma DrainKeepsRecords(cfg: Config, s: LogState)
    ensures SameRecords(s, Drain(cfg, s))
  {
    hide Deliver;
  }

  lemma FlushKeepsRecords(cfg: Config, s: LogState)
    requires FlushReturns(cfg, s)
    ensures SameRecords(s, Flush(cfg, s))
  {
    if CanDrain(cfg, s) { DrainAllKeepsRecords(cfg, s); }
  }

  lemma HeartbeatHolds(s: LogState)
    ensures var r := HeartbeatRecord(s);
            && r.kind == 47 && r.entity == s.flow && r.tick == s.tick && r.frame == s.frame && r.zone == s.zone
            && (|s.history| < 0x8000_0000 ==> Join(r.a, r.b) == |s.history|)
            && (s.droppedTotal < 0x8000_0000 ==> Join(r.c, r.d) == s.droppedTotal)
  {
    hide Join;
    SplitThenJoin(TruncateToI32(|s.history|));
    SplitThenJoin(TruncateToI32(s.droppedTotal));
  }

  lemma StepRecords(cfg: Config, s: LogState, op: Op)
    requires Returns(cfg, s, op)
    ensures var t := Step(cfg, s, op);
            && t.tick == (if op.TickStart? then (s.tick + 1) % TWO_TO_32 else s.tick)
            && t.frame == (if op.FrameStart? then (s.frame + 1) % TWO_TO_32 else s.frame)
            && t.zone == (if op.TickStart? then LastZone([op]) else s.zone)
            && t.flow == (if op.FlowChange? then op.code else s.flow)
    ensures var t := Step(cfg, s, op);
            if Admitted(cfg, op) then
              t.history == s.history + [Record(s.tick, s.frame, s.zone, op.entity, op.kind, op.a, op.b, op.c, op.d)]
            else if op.TickStart? && cfg.heartbeatSteps > 0 && t.tick % cfg.heartbeatSteps == 0 then
              && |t.history| == |s.history| + 1 && t.history[..|s.history|] == s.history
              && var r := t.history[|s.history|];
                 && r.kind == 47 && r.entity == s.flow && r.tick == t.tick && r.frame == t.frame && r.zone == t.zone
                 && (|s.history| < 0x8000_0000 ==> Join(r.a, r.b) == |s.history|)
                 && (s.droppedTotal < 0x8000_0000 ==> Join(r.c, r.d) == s.droppedTotal)
            else t.history == s.history
  {
    hide Drain, DrainAll, HeartbeatRecord, CloseStream, Join;
    match op
    case Emit(level, kind, entity, a, b, c, d) =>
      DrainKeepsRecords(cfg, Store(cfg, s, Stamped(s, kind, entity, a, b, c, d)));
    case TickStart(zone) =>
      HeartbeatHolds(s.(zone := ClampU16(zone), tick := WrappingSuccessor(s.tick)));
    case TimerDrain => DrainKeepsRecords(cfg, s);
    case FlushAll => FlushKeepsRecords(cfg, s);
    case Close(_) => if FlushReturns(cfg, s) { FlushKeepsRecords(cfg, s); }
    case _ =>
  }

  // Runs

  /** The counters of a run are what its calls say. */
  ghost predicate CountersFit(ops: seq<Op>, s: LogState) {
    && s.tick == Ticks(ops) % TWO_TO_32 && s.frame == Frames(ops) % TWO_TO_32
    && s.zone == LastZone(ops) && s.flow == LastFlow(ops)
  }

  lemma CountersStep(cfg: Config, ops: seq<Op>, s: LogState)
    requires ops != [] && CountersFit(ops[..|ops| - 1], s) && Returns(cfg, s, ops[|ops| - 1])
    ensures CountersFit(ops, Step(cfg, s, ops[|ops| - 1]))
  {
    hide Step;
    StepRecords(cfg, s, ops[|ops| - 1]);
    var ticks, frames := Ticks(ops[..|ops| - 1]), Frames(ops[..|ops| - 1]);
    assert (ticks % TWO_TO_32 + 1) % TWO_TO_32 == (ticks + 1) % TWO_TO_32;
    assert (frames % TWO_TO_32 + 1) % TWO_TO_32 == (frames + 1) % TWO_TO_32;
  }

  lemma {:induction false} CountersAreTheCalls(cfg: Config, ops: seq<Op>, states: seq<LogState>, n: nat)
    requires IsRun(cfg, ops, states) && n <= |ops|
    ensures CountersFit(ops[..n], states[n])
  {
    hide Step, CountersFit;
    if n == 0 {
      assert CountersFit([], Fresh()) by { FreshFits(); }
    } else {
      CountersAreTheCalls(cfg, ops, states, n - 1);
      RunStep(cfg, ops, states, n - 1);
      assert ops[..n][..n - 1] == ops[..n - 1];
      CountersStep(cfg, ops[..n], states[n - 1]);
    }
  }

  lemma FreshFits()
    ensures CountersFit([], Fresh())
  {
  }

  /** One record is added, by this call, or none is. */
  lemma CallRecords(cfg: Config, ops: seq<Op>, states: seq<LogState>, i: nat)
    requires IsRun(cfg, ops, states) && i < |ops| && |states[i].history| == Records(cfg, ops, i)
    ensures var s, t := states[i], states[i + 1];
            if Admitted(cfg, ops[i]) || Beats(cfg, ops, i)
            then |t.history| == |s.history| + 1 && t.history[..|s.history|] == s.history
                 && IsRecordOf(cfg, ops, i, s.droppedTotal, t.history[|s.history|])
            else t.history == s.history
  {
    hide Step, Ticks, Frames;
    CountersAreTheCalls(cfg, ops, states, i);
    CountersAreTheCalls(cfg, ops, states, i + 1);
    RunStep(cfg, ops, states, i);
    StepRecords(cfg, states[i], ops[i]);
    assert ops[..i + 1][..i] == ops[..i];
  }

  /** In every run the history is the admitted calls and the heartbeats, in order and nothing else, each
      record with its own payload and the counters and zone of its moment. */
  lemma {:induction false} HistoryIsTheCalls(cfg: Config, ops: seq<Op>, states: seq<LogState>, n: nat)
    requires IsRun(cfg, ops, states) && n <= |ops|
    ensures |states[n].history| == Records(cfg, ops, n)
    ensures forall i :: 0 <= i < n && (Admitted(cfg, ops[i]) || Beats(cfg, ops, i)) ==>
              && Records(cfg, ops, i) < |states[n].history|
              && IsRecordOf(cfg, ops, i, states[i].droppedTotal, states[n].history[Records(cfg, ops, i)])
  {
    hide Step, IsRecordOf, Beats, Admitted, IsRun;
    Starts(cfg, ops, states);
    if n > 0 {
      HistoryIsTheCalls(cfg, ops, states, n - 1);
      CallRecords(cfg, ops, states, n - 1);
      var before := states[n - 1].history;
      forall i | 0 <= i < n && (Admitted(cfg, ops[i]) || Beats(cfg, ops, i))
        ensures Records(cfg, ops, i) < |states[n].history|
        ensures IsRecordOf(cfg, ops, i, states[i].droppedTotal, states[n].history[Records(cfg, ops, i)])
      {
        if i < n - 1 {
          assert states[n].history[..|before|][Records(cfg, ops, i)] == before[Records(cfg, ops, i)];
        }
      }
    }
  }

  lemma Starts(cfg: Config, ops: seq<Op>, states: seq<LogState>)
    requires IsRun(cfg, ops, states)
    ensures |states| == |ops| + 1 && states[0].history == []
  {
  }

  // What waits in the ring

  /** What a call adds to the ring, before anything is drained: a record, in place of another when it is
      full. */
  function Waiting(cfg: Config, ops: seq<Op>, i: nat, pending: int): int
    requires i < |ops|
  {
    if (Admitted(cfg, ops[i]) || Beats(cfg, ops, i)) && pending < cfg.capacity then pending + 1 else pending
  }

  /** How many of the waiting records the call takes out. Only an open log drains: one batch on a request or,
      in the synchronous mode, after an emission that completes one, and everything for a barrier. */
  function Taken(cfg: Config, op: Op, isShutDown: bool, waiting: int): int {
    var batch := if waiting < cfg.batch then waiting else cfg.batch;
    if cfg.mode.Off? || isShutDown then 0
    else match op
      case Emit(_, _, _, _, _, _, _) =>
        if Admitted(cfg, op) && cfg.mode.Synchronous? && waiting >= cfg.batch then batch else 0
      case TimerDrain => batch
      case FlushAll => waiting
      case Close(_) => waiting
      case _ => 0
  }

  lemma {:induction false} DrainAllEmpties(cfg: Config, s: LogState)
    requires CanDrain(cfg, s) && s.Pending() >= 0
    ensures DrainAll(cfg, s).Pending() == 0 && DrainAll(cfg, s).isShutDown == s.isShutDown
    decreases s.Pending()
  {
    if s.Pending() > 0 {
      DrainTakesABatch(cfg, s);
      DrainAllEmpties(cfg, Drain(cfg, s));
    }
  }

  lemma StepWaits(cfg: Config, s: LogState, op: Op, waiting: int)
    requires Returns(cfg, s, op) && cfg.capacity >= 1 && 0 <= s.Pending() <= cfg.capacity
    requires s.droppedSinceDrain > 0 ==> s.Pending() > 0
    requires var t := s.(tick := (s.tick + 1) % TWO_TO_32);
             var adds := Admitted(cfg, op)
                         || (op.TickStart? && cfg.heartbeatSteps > 0 && t.tick % cfg.heartbeatSteps == 0);
             waiting == if adds && s.Pending() < cfg.capacity then s.Pending() + 1 else s.Pending()
    ensures var t := Step(cfg, s, op);
            && t.Pending() == waiting - Taken(cfg, op, s.isShutDown, waiting)
            && (t.isShutDown <==> s.isShutDown || (op.Close? && !cfg.mode.Off?))
  {
    hide Deliver, EnsureFileOpen, CloseStream, DrainAll;
    match op
    case Emit(level, kind, entity, a, b, c, d) =>
      DrainTakesABatch(cfg, Store(cfg, s, Stamped(s, kind, entity, a, b, c, d)));
    case TimerDrain => DrainTakesABatch(cfg, s);
    case FlushAll => if CanDrain(cfg, s) { DrainAllEmpties(cfg, s); }
    case Close(_) => if CanDrain(cfg, s) { DrainAllEmpties(cfg, s); }
    case _ =>
  }

  /** After every call of a run exactly what the call left waiting and did not take is pending, and the log
      is closed exactly from the first close of a recording log on. */
  lemma PendingIsCounted(cfg: Config, ops: seq<Op>, states: seq<LogState>, n: nat)
    requires IsRun(cfg, ops, states) && n < |ops|
    ensures var waiting := Waiting(cfg, ops, n, states[n].Pending());
            states[n + 1].Pending() == waiting - Taken(cfg, ops[n], states[n].isShutDown, waiting)
    ensures states[n + 1].isShutDown <==> states[n].isShutDown || (ops[n].Close? && !cfg.mode.Off?)
  {
    hide Step, L.OutputOk;
    L.RunKeeps(cfg, ops, states, n);
    RunStep(cfg, ops, states, n);
    CountersAreTheCalls(cfg, ops, states, n);
    CountersAreTheCalls(cfg, ops, states, n + 1);
    StepRecords(cfg, states[n], ops[n]);
    StepWaits(cfg, states[n], ops[n], Waiting(cfg, ops, n, states[n].Pending()));
  }
}
