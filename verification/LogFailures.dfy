/** The two failures the laws of the log allow for, and exactly which configurations can run into them. */
module LogFailures {
  import opened FixedWidth
  import opened LogStream
  import opened LogLaws

  // Runs, one call at a time

  /** Some run of the log ends in `s`. */
  ghost predicate Reaches(cfg: Config, s: LogState) {
    exists ops, states :: IsRun(cfg, ops, states) && states[|ops|] == s
  }

  lemma ReachesFresh(cfg: Config)
    requires cfg.capacity >= 1
    ensures Reaches(cfg, Fresh())
  {
    assert IsRun(cfg, [], [Fresh()]);
  }

  lemma ReachesNext(cfg: Config, s: LogState, op: Op)
    requires Reaches(cfg, s) && Returns(cfg, s, op)
    ensures Reaches(cfg, Step(cfg, s, op))
  {
    hide Step, Returns, Fresh;
    var ops, states :| IsRun(cfg, ops, states) && states[|ops|] == s;
    var longer := states + [Step(cfg, s, op)];
    assert IsRun(cfg, ops + [op], longer) && longer[|ops + [op]|] == Step(cfg, s, op);
  }

  const ONE_RECORD := Emit(0, 1, 0, 0, 0, 0, 0)

  /** One record is appended and drained. */
  function Pulse(cfg: Config, s: LogState): LogState {
    Step(cfg, Step(cfg, s, ONE_RECORD), TimerDrain)
  }

  // A rotation that fails

  /** An open log with nothing pending writes a generation before `last`. */
  ghost predicate Writing(cfg: Config, s: LogState, last: nat) {
    && !cfg.mode.Off? && cfg.batch >= 1 && cfg.capacity >= 1
    && !s.isShutDown && s.Pending() == 0 && s.out.fileIsOpen && !s.out.openFailed && s.out.handleOpen
    && s.out.rotation < last
  }

  ghost predicate BreaksAt(cfg: Config, last: nat) {
    && (forall g :: 0 <= g < last ==> cfg.opens(g)) && !cfg.opens(last)
    && forall l :: cfg.lineBytes(l) >= 1
  }

  lemma {:induction false} TextHasBytes(cfg: Config, lines: seq<Line>)
    requires forall l :: cfg.lineBytes(l) >= 1
    ensures TextBytes(cfg, lines) >= |lines|
  {
    if lines != [] { TextHasBytes(cfg, lines[..|lines| - 1]); }
  }

  /** Every record fills the file; a full file is rotated, and the rotation to `last` fails. */
  lemma PulseFills(cfg: Config, s: LogState, last: nat)
    requires Writing(cfg, s, last) && BreaksAt(cfg, last)
    ensures var t := Pulse(cfg, s);
            || RotationFailed(t)
            || (Writing(cfg, t, last)
                && (t.out.rotation > s.out.rotation
                    || (t.out.rotation == s.out.rotation
                        && t.out.bytes > s.out.bytes && s.out.bytes < cfg.maxFileBytes)))
  {
    hide BatchLines, TextBytes, Deliver;
    var r := Stamped(s, 1, 0, 0, 0, 0, 0);
    var stored := s.(history := s.history + [r]);
    assert stored.history[s.head..s.head + 1] == [r];
    assert Pulse(cfg, s) == Drain(cfg, stored) by { PulseIsOneDrain(cfg, s, stored); }
    DeliverFills(cfg, s.out, last, stored.droppedSinceDrain, stored.droppedTotal, [r]);
  }

  lemma PulseIsOneDrain(cfg: Config, s: LogState, stored: LogState)
    requires !cfg.mode.Off? && cfg.batch >= 1 && cfg.capacity >= 1 && !s.isShutDown && s.Pending() == 0
    requires stored == s.(history := s.history + [Stamped(s, 1, 0, 0, 0, 0, 0)])
    ensures Pulse(cfg, s) == Drain(cfg, stored)
  {
    hide Deliver;
    DrainTakesABatch(cfg, stored);
  }

  lemma DeliverFills(cfg: Config, o: Output, last: nat, drops: nat, total: nat, records: seq<Record>)
    requires o.fileIsOpen && !o.openFailed && o.handleOpen && o.rotation < last && BreaksAt(cfg, last)
    requires |records| == 1
    ensures var o1 := Deliver(cfg, o, drops, total, records);
            && o1.fileIsOpen
            && (o1.openFailed
                || (o1.handleOpen && o1.rotation < last
                    && (o1.rotation > o.rotation
                        || (o1.rotation == o.rotation && o1.bytes > o.bytes && o.bytes < cfg.maxFileBytes))))
  {
    hide TextBytes, BatchLines;
    var ready := if o.bytes >= cfg.maxFileBytes then RotateFile(cfg, o, records[0].tick, records[0].frame) else o;
    var lines := BatchLines(ready, drops, total, records);
    assert |lines| >= 1 by { BatchIsNotEmpty(ready, drops, total, records); }
    TextHasBytes(cfg, lines);
  }

  lemma BatchIsNotEmpty(o: Output, drops: nat, total: nat, records: seq<Record>)
    requires |records| > 0
    ensures |BatchLines(o, drops, total, records)| >= 1
  {
  }

  lemma {:induction false} Filling(cfg: Config, s: LogState, last: nat) returns (t: LogState)
    requires Reaches(cfg, s) && Writing(cfg, s, last) && BreaksAt(cfg, last)
    ensures Reaches(cfg, t) && RotationFailed(t)
    decreases last - s.out.rotation, cfg.maxFileBytes - s.out.bytes
  {
    hide Reaches, Step, RotationFailed, BreaksAt;
    PulseFills(cfg, s, last);
    ReachesPulse(cfg, s);
    t := Pulse(cfg, s);
    if !RotationFailed(t) { t := Filling(cfg, t, last); }
  }

  lemma ReachesPulse(cfg: Config, s: LogState)
    requires Reaches(cfg, s)
    ensures Reaches(cfg, Pulse(cfg, s))
  {
    hide Reaches, Step;
    ReachesNext(cfg, s, ONE_RECORD);
    ReachesNext(cfg, Step(cfg, s, ONE_RECORD), TimerDrain);
  }

  /** The first record opens the first file. */
  lemma FirstPulse(cfg: Config, last: nat)
    requires !cfg.mode.Off? && cfg.batch >= 1 && cfg.capacity >= 1 && last >= 1 && BreaksAt(cfg, last)
    ensures RotationFailed(Pulse(cfg, Fresh())) || Writing(cfg, Pulse(cfg, Fresh()), last)
  {
    hide BatchLines, TextBytes;
    var s := Fresh();
    var r := Stamped(s, 1, 0, 0, 0, 0, 0);
    var stored := s.(history := s.history + [r]);
    PulseIsOneDrain(cfg, s, stored);
    assert stored.history[0..1] == [r];
  }

  lemma FirstBreak(cfg: Config, r: nat) returns (last: nat)
    requires cfg.opens(0) && !cfg.opens(r)
    ensures last >= 1 && !cfg.opens(last) && forall g :: 0 <= g < last ==> cfg.opens(g)
  {
    last := 1;
    while cfg.opens(last)
      invariant 1 <= last <= r && forall g :: 0 <= g < last ==> cfg.opens(g)
      decreases r - last
    {
      last := last + 1;
    }
  }

  lemma FailingRun(cfg: Config, r: nat) returns (s: LogState)
    requires !cfg.mode.Off? && cfg.batch >= 1 && cfg.capacity >= 1 && cfg.opens(0) && !cfg.opens(r)
    requires forall l :: cfg.lineBytes(l) >= 1
    ensures Reaches(cfg, s) && RotationFailed(s)
  {
    hide Reaches, Pulse, RotationFailed, Writing, Fresh;
    var last := FirstBreak(cfg, r);
    FirstPulse(cfg, last);
    ReachesFresh(cfg);
    ReachesPulse(cfg, Fresh());
    s := Pulse(cfg, Fresh());
    if !RotationFailed(s) { s := Filling(cfg, s, last); }
  }

  /** What a failed rotation says about the configuration. */
  ghost predicate Blamed(cfg: Config, o: Output) {
    && (o.fileIsOpen ==> !cfg.mode.Off? && cfg.opens(0))
    && (o.fileIsOpen && o.openFailed ==> exists r: nat :: !cfg.opens(r))
  }

  lemma DrainBlames(cfg: Config, s: LogState)
    requires Blamed(cfg, s.out)
    ensures Blamed(cfg, Drain(cfg, s).out)
  {
    hide TextBytes, BatchLines;
  }

  lemma {:induction false} DrainAllBlames(cfg: Config, s: LogState)
    requires Blamed(cfg, s.out)
    ensures CanDrain(cfg, s) ==> Blamed(cfg, DrainAll(cfg, s).out)
    decreases s.Pending()
  {
    hide Drain, Blamed;
    if CanDrain(cfg, s) && s.Pending() > 0 {
      DrainBlames(cfg, s);
      DrainTakesABatch(cfg, s);
      DrainAllBlames(cfg, Drain(cfg, s));
    }
  }

  lemma StepBlames(cfg: Config, s: LogState, op: Op)
    requires Blamed(cfg, s.out) && Returns(cfg, s, op)
    ensures Blamed(cfg, Step(cfg, s, op).out)
  {
    hide Drain, DrainAll, TextBytes;
    match op
    case Emit(level, kind, entity, a, b, c, d) =>
      DrainBlames(cfg, Store(cfg, s, Stamped(s, kind, entity, a, b, c, d)));
    case TimerDrain => DrainBlames(cfg, s);
    case FlushAll => DrainAllBlames(cfg, s);
    case Close(_) => DrainAllBlames(cfg, s);
    case _ =>
  }

  lemma {:induction false} RunBlames(cfg: Config, ops: seq<Op>, states: seq<LogState>, n: nat)
    requires IsRun(cfg, ops, states) && n <= |ops|
    ensures Blamed(cfg, states[n].out)
  {
    hide Step, Returns, Blamed;
    if n == 0 {
      assert Blamed(cfg, Fresh().out) by { FreshIsFree(cfg); }
    } else {
      RunBlames(cfg, ops, states, n - 1);
      RunStep(cfg, ops, states, n - 1);
      StepBlames(cfg, states[n - 1], ops[n - 1]);
    }
  }

  lemma FreshIsFree(cfg: Config)
    ensures Blamed(cfg, Fresh().out)
  {
  }

  /** A rotation can fail in some run exactly when the log records, takes batches, and its first file
      can be created but not every later one. A formatted line is never empty. */
  lemma RotationCanFailExactlyWhen(cfg: Config)
    requires cfg.capacity >= 1 && forall l :: cfg.lineBytes(l) >= 1
    ensures (exists s :: Reaches(cfg, s) && RotationFailed(s))
       <==> !cfg.mode.Off? && cfg.batch >= 1 && cfg.opens(0) && exists r: nat :: !cfg.opens(r)
  {
    hide Step, Fresh, Drain;
    if !cfg.mode.Off? && cfg.batch >= 1 && cfg.opens(0) && exists r: nat :: !cfg.opens(r) {
      var r: nat :| !cfg.opens(r);
      var s := FailingRun(cfg, r);
    }
    forall s | Reaches(cfg, s) && RotationFailed(s)
      ensures !cfg.mode.Off? && cfg.batch >= 1 && cfg.opens(0) && exists r: nat :: !cfg.opens(r)
    {
      var ops, states :| IsRun(cfg, ops, states) && states[|ops|] == s;
      RunBlames(cfg, ops, states, |ops|);
      AppendsAreConserved(cfg, ops, states, |ops|);
    }
  }

  // A barrier that never ends

  /** Draining forever leaves something to drain. */
  ghost predicate Spins(cfg: Config, s: LogState) {
    forall k: nat :: HasPendingWork(DrainTimes(cfg, s, k))
  }

  /** Every recording log has a run after which the barrier never ends: a record after the close. */
  lemma ClosedLogSpins(cfg: Config)
    requires cfg.capacity >= 1 && !cfg.mode.Off?
    ensures exists s :: Reaches(cfg, s) && s.isShutDown && Spins(cfg, s)
  {
    hide Reaches;
    ReachesFresh(cfg);
    ReachesNext(cfg, Fresh(), Close(0));
    var closed := Step(cfg, Fresh(), Close(0));
    ReachesNext(cfg, closed, ONE_RECORD);
    var s := Step(cfg, closed, ONE_RECORD);
    forall k: nat ensures HasPendingWork(DrainTimes(cfg, s, k)) {
      DrainingNeverEnds(cfg, s, k);
    }
    assert Reaches(cfg, s) && s.isShutDown && Spins(cfg, s);
  }
}
