/** What a run of the clock charges, frame by frame, and what it reports, in terms of the times alone. */
module TickReports {
  import opened TickDriver

  // The budget and the unit of the reports

  /** The most whole steps the longest frame pays for, and one where it pays for none. */
  lemma BudgetExactlyWhen(c: Clock, n: nat)
    requires c.Valid()
    ensures c.Budget() == n <==>
            && n >= 1 && c.frameLimit < (n + 1) as real * c.stepLength
            && (n > 1 ==> n as real * c.stepLength <= c.frameLimit)
  {
    var m := FloorBounds(c.frameLimit, c.stepLength);
    FloorIs(c.frameLimit, c.stepLength, m);
    if n >= 1 && c.frameLimit < (n + 1) as real * c.stepLength && (n > 1 ==> n as real * c.stepLength <= c.frameLimit) {
      FewerSteps(m, n + 1, c.frameLimit, c.stepLength);
      if n > 1 { FewerSteps(n, m + 1, c.frameLimit, c.stepLength); }
    }
    OneMore(1, c.stepLength);
  }

  /** The nearest whole microsecond, away from zero on a tie. */
  lemma MicrosAreNearest(seconds: real)
    ensures -0.5 <= Micros(seconds) as real - 1_000_000.0 * seconds <= 0.5
    ensures seconds >= 0.0 ==> Micros(seconds) as real - 1_000_000.0 * seconds > -0.5
    ensures seconds < 0.0 ==> Micros(seconds) as real - 1_000_000.0 * seconds < 0.5
    ensures Micros(-seconds) == -Micros(seconds)
  {
  }

  // What a run charges

  /** The last finite time of a run. */
  function LastFinite(times: seq<Time>): Time {
    if times == [] then NotFinite
    else if times[|times| - 1].Finite? then times[|times| - 1]
    else LastFinite(times[..|times| - 1])
  }

  /** What a call with this time charges after the times before it: the gap to the last finite one, up to the
      limit; nothing for the first, for one that runs backwards, or one that is not finite. */
  function Charge(c: Clock, before: seq<Time>, time: Time): real {
    var last := LastFinite(before);
    if time.NotFinite? || last.NotFinite? || time.seconds < last.seconds then 0.0
    else if time.seconds - last.seconds < c.frameLimit then time.seconds - last.seconds
    else c.frameLimit
  }

  function Charged(c: Clock, times: seq<Time>): real {
    if times == [] then 0.0
    else Charged(c, times[..|times| - 1]) + Charge(c, times[..|times| - 1], times[|times| - 1])
  }

  /** In every run the charge is the sum of the gaps; and a call that has none to charge runs nothing. */
  lemma {:induction false} RunChargesTheGaps(c: Clock, times: seq<Time>, resetAt: nat -> bool)
    requires c.Valid()
    ensures var t := Run(c, times, resetAt);
            && t.charged == Charged(c, times)
            && (t.hasReference <==> LastFinite(times).Finite?)
            && (t.hasReference ==> t.previous == LastFinite(times).seconds)
    ensures times != [] ==>
              var before, time := times[..|times| - 1], times[|times| - 1];
              time.NotFinite? || LastFinite(before).NotFinite? || time.seconds < LastFinite(before).seconds ==>
                Run(c, times, resetAt).stepCount == Run(c, before, resetAt).stepCount
  {
    hide CatchUp;
    if times != [] {
      var n := |times| - 1;
      RunChargesTheGaps(c, times[..n], resetAt);
      var (next, runs) := OpenFrame(c, Run(c, times[..n], resetAt), times[n]);
      if runs { CatchUpKeepsTheReference(c, next, resetAt); }
    }
  }

  // Steps of a frame

  lemma {:induction false} CatchUpCounts(c: Clock, t: Tick, resetAt: nat -> bool, why: nat -> ResetReason)
    requires c.Valid()
    ensures var end := CatchUp(c, t, resetAt);
            && end.stepCount >= t.stepCount
            && (if c.resets && end.stepCount > t.stepCount && resetAt(end.stepCount)
                then end.stepsThisFrame == 0
                     && CatchUpReports(c, t, resetAt, why)
                        == [AccumulatorReset(why(end.stepCount), Micros(end.discarded - t.discarded),
                                             ((end.discarded - t.discarded) / c.stepLength).Floor)]
                else end.stepsThisFrame == t.stepsThisFrame + (end.stepCount - t.stepCount)
                     && end.discarded == t.discarded && CatchUpReports(c, t, resetAt, why) == [])
    decreases if CanStep(c, t) && !(c.resets && resetAt(t.stepCount + 1)) then c.Budget() - t.stepsThisFrame else 0,
              if CanStep(c, t) then 1 else 0
  {
    if CanStep(c, t) {
      var next := TakeStep(c, t);
      if c.resets && resetAt(next.stepCount) {
        var end := Discard(c, next);
        assert !CanStep(c, end) && CatchUpReports(c, end, resetAt, why) == [];
        assert CatchUpReports(c, t, resetAt, why) == ResetReports(c, next, why(next.stepCount)) + [];
      } else {
        CatchUpCounts(c, next, resetAt, why);
        assert CatchUpReports(c, t, resetAt, why) == CatchUpReports(c, next, resetAt, why);
      }
    }
  }

  /** A frame of a run counts its own steps, from none; after a reset it counts none. */
  lemma FrameCountsItsSteps(c: Clock, times: seq<Time>, time: Time, resetAt: nat -> bool)
    requires c.Valid()
    ensures var before, after := Run(c, times, resetAt), Run(c, times + [time], resetAt);
            var steps := after.stepCount - before.stepCount;
            after.stepsThisFrame == if time.NotFinite? then before.stepsThisFrame
                                    else if c.resets && steps > 0 && resetAt(after.stepCount) then 0
                                    else steps
  {
    hide CatchUp, Run;
    RunOne(c, times, time, resetAt);
    var (next, runs) := OpenFrame(c, Run(c, times, resetAt), time);
    if runs { CatchUpCounts(c, next, resetAt, n => NewGame); }
  }

  /** A frame that ran several steps is reported with their time and number. */
  function SlowOf(c: Clock, steps: nat): seq<Report> {
    if steps >= 2 then [SlowStep(Micros(steps as real * c.stepLength), steps)] else []
  }

  /** A gap above the limit is reported in full. */
  function GapOf(c: Clock, before: seq<Time>, time: Time): seq<Report> {
    var last := LastFinite(before);
    if time.NotFinite? || last.NotFinite? || time.seconds - last.seconds <= c.frameLimit then []
    else [FrameGapClamped(Micros(time.seconds - last.seconds))]
  }

  /** A reset is reported with its reason, the time thrown away and the whole steps in it. */
  function ResetOf(c: Clock, reason: ResetReason, gone: real): seq<Report>
    requires c.Valid()
  {
    [AccumulatorReset(reason, Micros(gone), (gone / c.stepLength).Floor)]
  }

  lemma OpenReportsAre(c: Clock, times: seq<Time>, time: Time, resetAt: nat -> bool)
    requires c.Valid()
    ensures OpenReports(c, Run(c, times, resetAt), time)
         == SlowOf(c, Run(c, times, resetAt).stepsThisFrame) + GapOf(c, times, time)
  {
    hide Run;
    RunChargesTheGaps(c, times, resetAt);
    var before := Run(c, times, resetAt);
    assert SlowReport(c, before) == SlowOf(c, before.stepsThisFrame);
    if before.hasReference { assert before.previous == LastFinite(times).seconds; }
  }

  /** A frame reports, in this order: the steps of the frame before it; the gap, if it was cut; and the reset,
      if its last step ended in one. */
  lemma FrameReportsExactly(c: Clock, times: seq<Time>, time: Time, resetAt: nat -> bool, why: nat -> ResetReason)
    requires c.Valid()
    ensures var before, after := Run(c, times, resetAt), Run(c, times + [time], resetAt);
            FrameReports(c, before, time, resetAt, why)
            == SlowOf(c, before.stepsThisFrame) + GapOf(c, times, time)
               + if c.resets && after.stepCount > before.stepCount && resetAt(after.stepCount)
                 then ResetOf(c, why(after.stepCount), after.discarded - before.discarded) else []
  {
    hide CatchUp, CatchUpReports, Run, OpenReports, Micros, SlowOf, GapOf;
    RunOne(c, times, time, resetAt);
    var before := Run(c, times, resetAt);
    var (next, runs) := OpenFrame(c, before, time);
    assert next.stepCount == before.stepCount && next.discarded == before.discarded;
    OpenReportsAre(c, times, time, resetAt);
    var told := OpenReports(c, before, time);
    assert told + [] == told;
    if runs { CatchUpCounts(c, next, resetAt, why); }
  }
}
