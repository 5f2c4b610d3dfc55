/** The fixed-step accumulator: rendered frames of any length are paid out as steps of one length. */
module TickDriver {
  // The state machine carries two book-keeping fields, the time charged and the time thrown away; the class
  // `FixedTickDriver` is proved equal to it, step by step.

  /** `stepLength` and `frameLimit` are the two constants the driver is built with. */
  datatype Clock = Clock(stepLength: real, frameLimit: real, resets: bool) {
    predicate Valid() { stepLength > 0.0 && frameLimit >= 0.0 }

    /** The most steps of a frame: as many as its longest time pays for, and at least one. */
    function Budget(): (budget: nat)
      requires Valid()
      ensures budget >= 1
    {
      var whole := (frameLimit / stepLength).Floor;
      if whole < 1 then 1 else whole
    }
  }

  const PRODUCT_CLOCK := Clock(1.0 / 60.0, 0.25, true)

  datatype Time = Finite(seconds: real) | NotFinite

  datatype Tick = Tick(
    accumulator: real, previous: real, stepsThisFrame: nat, hasReference: bool, stepCount: nat,
    charged: real, discarded: real)

  const START := Tick(0.0, 0.0, 0, false, 0, 0.0, 0.0)

  function Clamp(x: real, limit: real): real { if x <= limit then x else limit }

  /** Opens a rendered frame; `false` when nothing may run in it. */
  function OpenFrame(c: Clock, t: Tick, time: Time): (Tick, bool) {
    if time.NotFinite? then (t, false)
    else if !t.hasReference then
      (t.(previous := time.seconds, hasReference := true, stepsThisFrame := 0), false)
    else
      var raw := time.seconds - t.previous;
      var next := t.(previous := time.seconds, stepsThisFrame := 0);
      if raw < 0.0 then (next, false)
      else
        var paid := Clamp(raw, c.frameLimit);
        (next.(accumulator := t.accumulator + paid, charged := t.charged + paid), true)
  }

  predicate CanStep(c: Clock, t: Tick)
    requires c.Valid()
  {
    t.accumulator >= c.stepLength && t.stepsThisFrame < c.Budget()
  }

  function TakeStep(c: Clock, t: Tick): Tick {
    t.(accumulator := t.accumulator - c.stepLength, stepsThisFrame := t.stepsThisFrame + 1,
       stepCount := t.stepCount + 1)
  }

  function Discard(c: Clock, t: Tick): Tick {
    if !c.resets then t
    else t.(accumulator := 0.0, stepsThisFrame := 0, discarded := t.discarded + t.accumulator)
  }

  /** The steps the charged time would still buy. */
  function StepsOwed(c: Clock, t: Tick): int
    requires c.Valid()
  {
    if t.accumulator < c.stepLength then 0
    else
      var whole := (t.accumulator / c.stepLength).Floor;
      if whole < c.Budget() then whole else c.Budget()
  }

  /** The catch-up loop of a frame. `resetAt(n)` says whether the n-th step ends in a zone transition
      or a new game, which discards what is left. */
  function CatchUp(c: Clock, t: Tick, resetAt: nat -> bool): Tick
    requires c.Valid()
    decreases if CanStep(c, t) && !(c.resets && resetAt(t.stepCount + 1)) then c.Budget() - t.stepsThisFrame else 0,
              if CanStep(c, t) then 1 else 0
  {
    if !CanStep(c, t) then t
    else
      var next := TakeStep(c, t);
      CatchUp(c, if resetAt(next.stepCount) then Discard(c, next) else next, resetAt)
  }

  // Records

  /** What the driver reports: a frame that ran several steps, a frame cut to its limit, and a reset
      with the steps it threw away. */
  datatype Report = SlowStep(microseconds: int, steps: int) | FrameGapClamped(microseconds: int)
                  | AccumulatorReset(reason: ResetReason, microseconds: int, steps: int)

  datatype ResetReason = ZoneTransition | NewGame

  /** The nearest whole microsecond. */
  function Micros(seconds: real): int {
    if seconds < 0.0 then -(0.5 - seconds * 1_000_000.0).Floor else (seconds * 1_000_000.0 + 0.5).Floor
  }

  function SlowReport(c: Clock, t: Tick): seq<Report> {
    if t.stepsThisFrame > 1 then [SlowStep(Micros(t.stepsThisFrame as real * c.stepLength), t.stepsThisFrame)] else []
  }

  function OpenReports(c: Clock, t: Tick, time: Time): seq<Report> {
    SlowReport(c, t) +
    if time.Finite? && t.hasReference && time.seconds - t.previous > c.frameLimit
    then [FrameGapClamped(Micros(time.seconds - t.previous))] else []
  }

  function ResetReports(c: Clock, t: Tick, reason: ResetReason): seq<Report>
    requires c.Valid()
  {
    if c.resets then [AccumulatorReset(reason, Micros(t.accumulator), (t.accumulator / c.stepLength).Floor)] else []
  }

  /** `why(n)` is the reason for which the n-th step resets, if it does. */
  function CatchUpReports(c: Clock, t: Tick, resetAt: nat -> bool, why: nat -> ResetReason): seq<Report>
    requires c.Valid()
    decreases if CanStep(c, t) && !(c.resets && resetAt(t.stepCount + 1)) then c.Budget() - t.stepsThisFrame else 0,
              if CanStep(c, t) then 1 else 0
  {
    if !CanStep(c, t) then []
    else
      var next := TakeStep(c, t);
      if resetAt(next.stepCount)
      then ResetReports(c, next, why(next.stepCount)) + CatchUpReports(c, Discard(c, next), resetAt, why)
      else CatchUpReports(c, next, resetAt, why)
  }

  function FrameReports(c: Clock, t: Tick, time: Time, resetAt: nat -> bool, why: nat -> ResetReason): seq<Report>
    requires c.Valid()
  {
    var (next, runs) := OpenFrame(c, t, time);
    OpenReports(c, t, time) + if runs then CatchUpReports(c, next, resetAt, why) else []
  }

  /** One call of the scene's render callback. */
  function Frame(c: Clock, t: Tick, time: Time, resetAt: nat -> bool): Tick
    requires c.Valid()
  {
    var (next, runs) := OpenFrame(c, t, time);
    if runs then CatchUp(c, next, resetAt) else next
  }

  function Run(c: Clock, times: seq<Time>, resetAt: nat -> bool): Tick
    requires c.Valid()
  {
    if times == [] then START
    else Frame(c, Run(c, times[..|times| - 1], resetAt), times[|times| - 1], resetAt)
  }

  function Never(n: nat): bool { false }

  // Accounting

  ghost predicate Balanced(c: Clock, t: Tick) {
    t.charged == t.stepCount as real * c.stepLength + t.accumulator + t.discarded && t.accumulator >= 0.0
  }

  lemma OneMore(n: nat, x: real)
    ensures (n + 1) as real * x == n as real * x + x
  {
    assert (n + 1) as real == n as real + 1.0;
  }

  lemma {:induction false} CatchUpBalances(c: Clock, t: Tick, resetAt: nat -> bool)
    requires c.Valid() && Balanced(c, t)
    ensures Balanced(c, CatchUp(c, t, resetAt))
    decreases if CanStep(c, t) && !(c.resets && resetAt(t.stepCount + 1)) then c.Budget() - t.stepsThisFrame else 0,
              if CanStep(c, t) then 1 else 0
  {
    if CanStep(c, t) {
      var next := TakeStep(c, t);
      OneMore(t.stepCount, c.stepLength);
      CatchUpBalances(c, if resetAt(next.stepCount) then Discard(c, next) else next, resetAt);
    }
  }

  /** Every second charged is a second simulated, still owed, or thrown away by a reset. */
  lemma {:induction false} EverySecondAccountedFor(c: Clock, times: seq<Time>, resetAt: nat -> bool)
    requires c.Valid()
    ensures Balanced(c, Run(c, times, resetAt))
  {
    if times != [] {
      EverySecondAccountedFor(c, times[..|times| - 1], resetAt);
      var (next, runs) := OpenFrame(c, Run(c, times[..|times| - 1], resetAt), times[|times| - 1]);
      if runs { CatchUpBalances(c, next, resetAt); }
    }
  }

  // The budget

  lemma {:induction false} CatchUpWithinBudget(c: Clock, t: Tick, resetAt: nat -> bool)
    requires c.Valid() && t.stepsThisFrame <= c.Budget()
    ensures t.stepCount <= CatchUp(c, t, resetAt).stepCount <= t.stepCount + c.Budget() - t.stepsThisFrame
    decreases if CanStep(c, t) && !(c.resets && resetAt(t.stepCount + 1)) then c.Budget() - t.stepsThisFrame else 0,
              if CanStep(c, t) then 1 else 0
  {
    if CanStep(c, t) {
      var next := TakeStep(c, t);
      if c.resets && resetAt(next.stepCount) {
        assert !CanStep(c, Discard(c, next));
      } else {
        CatchUpWithinBudget(c, next, resetAt);
      }
    }
  }

  /** No frame simulates more than its budget, a reset in the middle of it included. */
  lemma FrameWithinBudget(c: Clock, t: Tick, time: Time, resetAt: nat -> bool)
    requires c.Valid()
    ensures t.stepCount <= Frame(c, t, time, resetAt).stepCount <= t.stepCount + c.Budget()
  {
    var (next, runs) := OpenFrame(c, t, time);
    if runs { CatchUpWithinBudget(c, next, resetAt); }
  }

  /** What the rest of the frame can still pay for. */
  ghost predicate Payable(c: Clock, t: Tick)
    requires c.Valid()
  {
    && 0.0 <= t.accumulator < (c.Budget() - t.stepsThisFrame + 1) as real * c.stepLength
    && t.stepsThisFrame <= c.Budget()
  }

  /** The budget buys the longest frame there can be. */
  predicate BudgetCovers(c: Clock)
    requires c.Valid()
  {
    c.frameLimit <= c.Budget() as real * c.stepLength
  }

  lemma StepStaysPayable(c: Clock, t: Tick)
    requires c.Valid() && Payable(c, t) && CanStep(c, t)
    ensures Payable(c, TakeStep(c, t)) && Payable(c, Discard(c, TakeStep(c, t)))
  {
    OneMore(c.Budget() - t.stepsThisFrame, c.stepLength);
    if c.resets { OneMore(c.Budget(), c.stepLength); Positive(c.Budget() + 1, c.stepLength); }
  }

  lemma Positive(n: nat, x: real)
    requires x > 0.0
    ensures n as real * x >= 0.0 && (n > 0 ==> n as real * x > 0.0)
  {}

  lemma FrameOpensPayable(c: Clock, t: Tick, time: Time)
    requires c.Valid() && BudgetCovers(c) && 0.0 <= t.accumulator < c.stepLength && OpenFrame(c, t, time).1
    ensures Payable(c, OpenFrame(c, t, time).0)
  {
    OneMore(c.Budget(), c.stepLength);
  }

  lemma {:induction false} CatchUpEndsBelowStep(c: Clock, t: Tick, resetAt: nat -> bool)
    requires c.Valid() && Payable(c, t)
    ensures 0.0 <= CatchUp(c, t, resetAt).accumulator < c.stepLength
    decreases if CanStep(c, t) && !(c.resets && resetAt(t.stepCount + 1)) then c.Budget() - t.stepsThisFrame else 0,
              if CanStep(c, t) then 1 else 0
  {
    if CanStep(c, t) {
      var next := TakeStep(c, t);
      StepStaysPayable(c, t);
      CatchUpEndsBelowStep(c, if resetAt(next.stepCount) then Discard(c, next) else next, resetAt);
    }
  }

  lemma {:induction false} FramesEndBelowStep(c: Clock, times: seq<Time>, resetAt: nat -> bool)
    requires c.Valid() && BudgetCovers(c)
    ensures 0.0 <= Run(c, times, resetAt).accumulator < c.stepLength
  {
    if times != [] {
      FramesEndBelowStep(c, times[..|times| - 1], resetAt);
      var t := Run(c, times[..|times| - 1], resetAt);
      var (next, runs) := OpenFrame(c, t, times[|times| - 1]);
      if runs {
        FrameOpensPayable(c, t, times[|times| - 1]);
        CatchUpEndsBelowStep(c, next, resetAt);
      }
    }
  }

  lemma {:induction false} CatchUpSpendsTheBudget(c: Clock, t: Tick)
    requires c.Valid() && t.stepsThisFrame <= c.Budget()
    requires t.accumulator >= (c.Budget() - t.stepsThisFrame + 1) as real * c.stepLength
    ensures CatchUp(c, t, Never).accumulator == t.accumulator - (c.Budget() - t.stepsThisFrame) as real * c.stepLength
    decreases c.Budget() - t.stepsThisFrame
  {
    var left := c.Budget() - t.stepsThisFrame;
    OneMore(left, c.stepLength);
    Positive(left, c.stepLength);
    if left > 0 {
      OneMore(left - 1, c.stepLength);
      CatchUpSpendsTheBudget(c, TakeStep(c, t));
    }
  }

  lemma RunOne(c: Clock, times: seq<Time>, time: Time, resetAt: nat -> bool)
    requires c.Valid()
    ensures Run(c, times + [time], resetAt) == Frame(c, Run(c, times, resetAt), time, resetAt)
  {
    assert (times + [time])[..|times|] == times;
  }

  /** A frame that brings less than a step runs nothing. */
  lemma IdleFrame(c: Clock, t: Tick, seconds: real)
    requires c.Valid() && t.hasReference && t.previous <= seconds
    requires seconds - t.previous <= c.frameLimit && t.accumulator + seconds - t.previous < c.stepLength
    ensures var end := Frame(c, t, Finite(seconds), Never);
            end.hasReference && end.previous == seconds && end.accumulator == t.accumulator + seconds - t.previous
  {}

  /** A clock whose budget does not buy the longest frame leaves a whole step unpaid in its second
      frame: one just short of a step, then one at the limit. */
  lemma ShortBudgetLeavesAStep(c: Clock) returns (times: seq<Time>)
    requires c.Valid() && !BudgetCovers(c)
    ensures Run(c, times, Never).accumulator >= c.stepLength
  {
    hide CatchUp, Run, Frame;
    var b := c.Budget();
    var excess := c.frameLimit - b as real * c.stepLength;
    ExcessBelowStep(c);
    OneMore(b, c.stepLength);
    OneMore(b - 1, c.stepLength);
    Positive(b - 1, c.stepLength);
    var d := c.stepLength - excess / 2.0;
    times := [Finite(0.0), Finite(d), Finite(d + c.frameLimit)];
    FirstFrame(c);
    RunOne(c, [Finite(0.0)], Finite(d), Never);
    IdleFrame(c, START.(hasReference := true), d);
    var t := Run(c, [Finite(0.0), Finite(d)], Never);
    assert [Finite(0.0)] + [Finite(d)] == [Finite(0.0), Finite(d)];
    RunOne(c, [Finite(0.0), Finite(d)], Finite(d + c.frameLimit), Never);
    assert [Finite(0.0), Finite(d)] + [Finite(d + c.frameLimit)] == times;
    FullFrame(c, t, d + c.frameLimit);
  }

  lemma FirstFrame(c: Clock)
    requires c.Valid()
    ensures Run(c, [Finite(0.0)], Never) == START.(hasReference := true)
  {
    assert [Finite(0.0)][..0] == [];
  }

  lemma FullFrame(c: Clock, t: Tick, seconds: real)
    requires c.Valid() && t.hasReference && seconds - t.previous == c.frameLimit
    requires t.accumulator + c.frameLimit >= (c.Budget() + 1) as real * c.stepLength
    ensures Frame(c, t, Finite(seconds), Never).accumulator ==
            t.accumulator + c.frameLimit - c.Budget() as real * c.stepLength
  {
    CatchUpSpendsTheBudget(c, OpenFrame(c, t, Finite(seconds)).0);
  }

  lemma ExcessBelowStep(c: Clock)
    requires c.Valid()
    ensures c.frameLimit < (c.Budget() + 1) as real * c.stepLength
  {
    var q := c.frameLimit / c.stepLength;
    assert q < (q.Floor + 1) as real <= (c.Budget() + 1) as real;
    assert c.frameLimit == q * c.stepLength;
    Scaled(q, (c.Budget() + 1) as real, c.stepLength);
  }

  lemma Scaled(p: real, q: real, x: real)
    requires p < q && x > 0.0
    ensures p * x < q * x
  {}

  /** Every frame of every run ends with less than one step owed exactly when the budget covers the
      longest frame. */
  lemma FramesEndBelowStepExactlyWhen(c: Clock)
    requires c.Valid()
    ensures BudgetCovers(c) <==>
            forall times: seq<Time>, resetAt: nat -> bool :: Run(c, times, resetAt).accumulator < c.stepLength
  {
    if BudgetCovers(c) {
      forall times: seq<Time>, resetAt: nat -> bool ensures Run(c, times, resetAt).accumulator < c.stepLength {
        FramesEndBelowStep(c, times, resetAt);
      }
    } else {
      var times := ShortBudgetLeavesAStep(c);
    }
  }

  /** The shipped constants: fifteen steps a frame, and they cover it exactly. */
  lemma ProductBudget()
    ensures PRODUCT_CLOCK.Valid() && PRODUCT_CLOCK.Budget() == 15 && BudgetCovers(PRODUCT_CLOCK)
  {
    assert PRODUCT_CLOCK.frameLimit / PRODUCT_CLOCK.stepLength == 15.0;
  }

  // Pending steps and resets

  lemma FloorIs(a: real, x: real, n: nat)
    requires x > 0.0 && n as real * x <= a < (n + 1) as real * x
    ensures (a / x).Floor == n
  {
    var q := a / x;
    assert q * x == a;
    if q < n as real { Scaled(q, n as real, x); }
    if (n + 1) as real <= q { NotScaled((n + 1) as real, q, x); }
  }

  lemma FloorBounds(a: real, x: real) returns (n: nat)
    requires x > 0.0 && a >= 0.0
    ensures n as real * x <= a < (n + 1) as real * x
  {
    var q := a / x;
    assert q * x == a && q >= 0.0;
    n := q.Floor;
    NotScaled(n as real, q, x);
    var m := (n + 1) as real;
    Scaled(q, m, x);
    assert a < m * x;
  }

  lemma FewerSteps(n: nat, m: nat, a: real, x: real)
    requires x > 0.0 && n as real * x <= a < m as real * x
    ensures n < m
  {
    if m <= n { NotScaled(m as real, n as real, x); }
  }

  lemma StepsOwedIs(c: Clock, t: Tick, n: nat)
    requires c.Valid() && n <= c.Budget()
    requires n as real * c.stepLength <= t.accumulator < (n + 1) as real * c.stepLength
    ensures StepsOwed(c, t) == n
  {
    FloorIs(t.accumulator, c.stepLength, n);
    if t.accumulator < c.stepLength { FewerSteps(n, 1, t.accumulator, c.stepLength); }
  }

  lemma {:induction false} CatchUpRuns(c: Clock, t: Tick, n: nat)
    requires c.Valid() && t.stepsThisFrame + n <= c.Budget()
    requires n as real * c.stepLength <= t.accumulator < (n + 1) as real * c.stepLength
    ensures CatchUp(c, t, Never).stepCount == t.stepCount + n
    decreases n
  {
    OneMore(n, c.stepLength);
    if n > 0 {
      OneMore(n - 1, c.stepLength);
      Positive(n - 1, c.stepLength);
      CatchUpRuns(c, TakeStep(c, t), n - 1);
    }
  }

  lemma PendingStepsAreExact(c: Clock, t: Tick)
    requires c.Valid() && Payable(c, t)
    ensures CatchUp(c, t, Never).stepCount == t.stepCount + StepsOwed(c, t)
  {
    hide CatchUp, StepsOwed;
    var n := FloorBounds(t.accumulator, c.stepLength);
    FewerSteps(n, c.Budget() - t.stepsThisFrame + 1, t.accumulator, c.stepLength);
    StepsOwedIs(c, t, n);
    CatchUpRuns(c, t, n);
  }

  lemma NotScaled(p: real, q: real, x: real)
    requires p <= q && x > 0.0
    ensures p * x <= q * x
  {}

  /** The `k`-th state of a frame's catch-up loop. */
  function Within(c: Clock, t: Tick, resetAt: nat -> bool, k: nat): Tick
    requires c.Valid()
    decreases k
  {
    if k == 0 || !CanStep(c, t) then t
    else
      var next := TakeStep(c, t);
      Within(c, if resetAt(next.stepCount) then Discard(c, next) else next, resetAt, k - 1)
  }

  lemma {:induction false} WithinStaysPayable(c: Clock, t: Tick, resetAt: nat -> bool, k: nat)
    requires c.Valid() && Payable(c, t)
    ensures Payable(c, Within(c, t, resetAt, k))
    decreases k
  {
    if k > 0 && CanStep(c, t) {
      var next := TakeStep(c, t);
      StepStaysPayable(c, t);
      WithinStaysPayable(c, if resetAt(next.stepCount) then Discard(c, next) else next, resetAt, k - 1);
    }
  }

  /** Asked at any point of any frame of any run, `pendingSteps` is the number of steps the frame still
      runs unless a reset intervenes. */
  lemma PendingStepsAreExactInEveryFrame(c: Clock, times: seq<Time>, resetAt: nat -> bool, time: Time, k: nat)
    requires c.Valid() && BudgetCovers(c)
    requires OpenFrame(c, Run(c, times, resetAt), time).1
    ensures var t := Within(c, OpenFrame(c, Run(c, times, resetAt), time).0, resetAt, k);
            CatchUp(c, t, Never).stepCount == t.stepCount + StepsOwed(c, t)
  {
    FramesEndBelowStep(c, times, resetAt);
    FrameOpensPayable(c, Run(c, times, resetAt), time);
    WithinStaysPayable(c, OpenFrame(c, Run(c, times, resetAt), time).0, resetAt, k);
    PendingStepsAreExact(c, Within(c, OpenFrame(c, Run(c, times, resetAt), time).0, resetAt, k));
  }

  /** A reset, wherever it comes in a frame, reports exactly the steps it keeps from running: those
      `pendingSteps` showed just before. */
  lemma ResetReportsWhatItPrevents(c: Clock, times: seq<Time>, resetAt: nat -> bool, time: Time, k: nat,
                                   reason: ResetReason)
    requires c.Valid() && BudgetCovers(c) && c.resets
    requires OpenFrame(c, Run(c, times, resetAt), time).1
    ensures var t := Within(c, OpenFrame(c, Run(c, times, resetAt), time).0, resetAt, k);
            && ResetReports(c, t, reason) == [AccumulatorReset(reason, Micros(t.accumulator), StepsOwed(c, t))]
            && CatchUp(c, t, Never).stepCount - t.stepCount == StepsOwed(c, t)
            && CatchUp(c, Discard(c, t), Never).stepCount == t.stepCount
  {
    hide CatchUp, StepsOwed, Run, OpenFrame, Within;
    FramesEndBelowStep(c, times, resetAt);
    FrameOpensPayable(c, Run(c, times, resetAt), time);
    var begun := OpenFrame(c, Run(c, times, resetAt), time).0;
    WithinStaysPayable(c, begun, resetAt, k);
    var t := Within(c, begun, resetAt, k);
    PendingStepsAreExact(c, t);
    var n := FloorBounds(t.accumulator, c.stepLength);
    FewerSteps(n, c.Budget() - t.stepsThisFrame + 1, t.accumulator, c.stepLength);
    StepsOwedIs(c, t, n);
    FloorIs(t.accumulator, c.stepLength, n);
    NothingRuns(c, Discard(c, t));
  }

  lemma NothingRuns(c: Clock, t: Tick)
    requires c.Valid() && t.accumulator == 0.0
    ensures CatchUp(c, t, Never) == t
  {
  }

  /** The slow frame before a call is reported again by the next one exactly when the time of the call
      is not finite. */
  lemma SlowFrameIsReportedAgainExactlyWhen(c: Clock, t: Tick, time: Time)
    requires c.Valid() && t.stepsThisFrame > 1
    ensures SlowReport(c, t) != []
    ensures SlowReport(c, OpenFrame(c, t, time).0) == SlowReport(c, t) <==> time.NotFinite?
  {
  }

  /** After a reset no step runs in the new zone before the next frame, and what was thrown away is the
      whole remainder. With the switch off, the frame runs on as if there had been no transition. */
  lemma {:induction false} ResetEndsTheFrame(c: Clock, t: Tick, resetAt: nat -> bool)
    requires c.Valid()
    ensures c.resets && CanStep(c, t) && resetAt(t.stepCount + 1) ==>
              var end := CatchUp(c, t, resetAt);
              && end.stepCount == t.stepCount + 1 && end.accumulator == 0.0
              && end.discarded == t.discarded + t.accumulator - c.stepLength
    ensures !c.resets ==> CatchUp(c, t, resetAt) == CatchUp(c, t, Never)
    decreases c.Budget() - t.stepsThisFrame
  {
    if CanStep(c, t) {
      var next := TakeStep(c, t);
      if c.resets {
        assert !CanStep(c, Discard(c, next));
      } else {
        ResetEndsTheFrame(c, next, resetAt);
      }
    }
  }

  // The clock

  ghost predicate Forwards(times: seq<Time>) {
    && (forall i :: 0 <= i < |times| ==> times[i].Finite?)
    && (forall i, j :: 0 <= i <= j < |times| ==> times[i].seconds <= times[j].seconds)
  }

  ghost predicate NoGap(c: Clock, times: seq<Time>)
    requires Forwards(times)
  {
    forall i :: 0 < i < |times| ==> times[i].seconds - times[i - 1].seconds <= c.frameLimit
  }

  lemma {:induction false} CatchUpKeepsTheReference(c: Clock, t: Tick, resetAt: nat -> bool)
    requires c.Valid()
    ensures var end := CatchUp(c, t, resetAt);
            && end.previous == t.previous && end.hasReference == t.hasReference && end.charged == t.charged
            && ((forall n :: !resetAt(n)) ==> end.discarded == t.discarded)
            && (t.accumulator >= 0.0 ==> end.discarded >= t.discarded)
    decreases if CanStep(c, t) && !(c.resets && resetAt(t.stepCount + 1)) then c.Budget() - t.stepsThisFrame else 0,
              if CanStep(c, t) then 1 else 0
  {
    if CanStep(c, t) {
      var next := TakeStep(c, t);
      CatchUpKeepsTheReference(c, if resetAt(next.stepCount) then Discard(c, next) else next, resetAt);
    }
  }

  lemma {:induction false} ChargedIsElapsed(c: Clock, times: seq<Time>, resetAt: nat -> bool)
    requires c.Valid() && times != [] && Forwards(times)
    ensures var t := Run(c, times, resetAt);
            var elapsed := times[|times| - 1].seconds - times[0].seconds;
            && t.hasReference && t.previous == times[|times| - 1].seconds && t.charged <= elapsed
            && (NoGap(c, times) ==> t.charged == elapsed)
            && t.discarded >= 0.0 && ((forall n :: !resetAt(n)) ==> t.discarded == 0.0)
  {
    var n := |times| - 1;
    if n > 0 {
      ChargedIsElapsed(c, times[..n], resetAt);
      EverySecondAccountedFor(c, times[..n], resetAt);
      var (next, runs) := OpenFrame(c, Run(c, times[..n], resetAt), times[n]);
      CatchUpKeepsTheReference(c, next, resetAt);
    } else {
      assert times[..n] == [];
    }
  }

  /** The simulation never runs ahead of the display's clock. */
  lemma NeverAheadOfTheClock(c: Clock, times: seq<Time>, resetAt: nat -> bool)
    requires c.Valid() && times != [] && Forwards(times)
    ensures Run(c, times, resetAt).stepCount as real * c.stepLength <= times[|times| - 1].seconds - times[0].seconds
  {
    hide Run;
    ChargedIsElapsed(c, times, resetAt);
    EverySecondAccountedFor(c, times, resetAt);
  }

  /** And while no frame is over-long and nothing is reset it does not fall behind by a whole step. */
  lemma KeepsUpWithTheClock(c: Clock, times: seq<Time>)
    requires c.Valid() && BudgetCovers(c) && times != [] && Forwards(times) && NoGap(c, times)
    ensures Run(c, times, Never).stepCount ==
            ((times[|times| - 1].seconds - times[0].seconds) / c.stepLength).Floor
  {
    hide Run;
    ChargedIsElapsed(c, times, Never);
    EverySecondAccountedFor(c, times, Never);
    FramesEndBelowStep(c, times, Never);
    var t := Run(c, times, Never);
    WholeSteps(times[|times| - 1].seconds - times[0].seconds, t.stepCount, t.accumulator, c.stepLength);
  }

  lemma WholeSteps(a: real, n: nat, rest: real, x: real)
    requires x > 0.0 && 0.0 <= rest < x && a == n as real * x + rest
    ensures (a / x).Floor == n
  {
    OneMore(n, x);
    FloorIs(a, x, n);
  }

  // The driver

  class FixedTickDriver {
    const fixedTimeStep: real
    const maximumFrameTime: real
    const stepBudget: int
    const resetAccumulatorOnZoneTransition: bool

    var accumulator: real
    var previousUpdateTime: real
    var stepsThisFrame: int
    var hasReferenceTime: bool
    var stepCount: int

    /** What the event sink received. */
    var reports: seq<Report>

    ghost var charged: real
    ghost var discarded: real

    ghost function Settings(): Clock {
      Clock(fixedTimeStep, maximumFrameTime, resetAccumulatorOnZoneTransition)
    }

    ghost predicate Valid()
      reads this
    {
      && Settings().Valid() && stepBudget == Settings().Budget()
      && stepsThisFrame >= 0 && stepCount >= 0
    }

    ghost function View(): Tick
      reads this
      requires Valid()
    {
      Tick(accumulator, previousUpdateTime, stepsThisFrame, hasReferenceTime, stepCount, charged, discarded)
    }

    constructor (fixedTimeStep: real, maximumFrameTime: real, resetAccumulatorOnZoneTransition: bool)
      requires fixedTimeStep > 0.0 && maximumFrameTime >= 0.0
      ensures Settings() == Clock(fixedTimeStep, maximumFrameTime, resetAccumulatorOnZoneTransition)
      ensures Valid() && View() == START && reports == []
    {
      this.fixedTimeStep, this.maximumFrameTime := fixedTimeStep, maximumFrameTime;
      this.resetAccumulatorOnZoneTransition := resetAccumulatorOnZoneTransition;
      var whole := (maximumFrameTime / fixedTimeStep).Floor;
      stepBudget := if 1 < whole then whole else 1;
      accumulator, previousUpdateTime, stepsThisFrame, hasReferenceTime, stepCount := 0.0, 0.0, 0, false, 0;
      charged, discarded, reports := 0.0, 0.0, [];
    }

    method ReportSlowFrame()
      requires Valid()
      modifies `reports
      ensures reports == old(reports) + SlowReport(Settings(), View())
    {
      if stepsThisFrame <= 1 { return; }
      reports := reports + [SlowStep(Micros(stepsThisFrame as real * fixedTimeStep), stepsThisFrame)];
    }

    method BeginFrame(currentTime: Time) returns (runs: bool)
      requires Valid()
      modifies this
      ensures Valid() && (View(), runs) == OpenFrame(Settings(), old(View()), currentTime)
      ensures reports == old(reports) + OpenReports(Settings(), old(View()), currentTime)
    {
      ReportSlowFrame();
      if !hasReferenceTime || currentTime.NotFinite? {
        if currentTime.NotFinite? { return false; }
        previousUpdateTime := currentTime.seconds;
        hasReferenceTime := true;
        stepsThisFrame := 0;
        return false;
      }
      var rawDelta := currentTime.seconds - previousUpdateTime;
      previousUpdateTime := currentTime.seconds;
      stepsThisFrame := 0;
      if rawDelta < 0.0 { return false; }
      if rawDelta > maximumFrameTime { reports := reports + [FrameGapClamped(Micros(rawDelta))]; }
      var clamped := if rawDelta < maximumFrameTime then rawDelta else maximumFrameTime;
      accumulator := accumulator + clamped;
      charged := charged + clamped;
      return true;
    }

    method BeginStep() returns (runs: bool)
      requires Valid()
      modifies this
      ensures Valid() && runs == CanStep(Settings(), old(View()))
      ensures View() == if runs then TakeStep(Settings(), old(View())) else old(View())
      ensures reports == old(reports)
    {
      if accumulator < fixedTimeStep || stepsThisFrame >= stepBudget { return false; }
      accumulator := accumulator - fixedTimeStep;
      stepsThisFrame := stepsThisFrame + 1;
      stepCount := stepCount + 1;
      return true;
    }

    method Reset(reason: ResetReason)
      requires Valid()
      modifies this
      ensures Valid() && View() == Discard(Settings(), old(View()))
      ensures reports == old(reports) + ResetReports(Settings(), old(View()), reason)
    {
      if !resetAccumulatorOnZoneTransition { return; }
      reports := reports + [AccumulatorReset(reason, Micros(accumulator), (accumulator / fixedTimeStep).Floor)];
      discarded := discarded + accumulator;
      accumulator := 0.0;
      stepsThisFrame := 0;
    }

    method PendingSteps() returns (steps: int)
      requires Valid()
      ensures steps == StepsOwed(Settings(), View())
    {
      if accumulator < fixedTimeStep { return 0; }
      var whole := (accumulator / fixedTimeStep).Floor;
      return if whole < stepBudget then whole else stepBudget;
    }
  }

  function AfterStep(c: Clock, t: Tick, resetAt: nat -> bool): Tick {
    if resetAt(t.stepCount) then Discard(c, t) else t
  }

  function StepReports(c: Clock, t: Tick, resetAt: nat -> bool, why: nat -> ResetReason): seq<Report>
    requires c.Valid()
  {
    if resetAt(t.stepCount) then ResetReports(c, t, why(t.stepCount)) else []
  }

  lemma CatchUpOnce(c: Clock, t: Tick, resetAt: nat -> bool, why: nat -> ResetReason)
    requires c.Valid()
    ensures !CanStep(c, t) ==> CatchUp(c, t, resetAt) == t && CatchUpReports(c, t, resetAt, why) == []
    ensures CanStep(c, t) ==>
              var next := TakeStep(c, t);
              && CatchUp(c, t, resetAt) == CatchUp(c, AfterStep(c, next, resetAt), resetAt)
              && CatchUpReports(c, t, resetAt, why) ==
                 StepReports(c, next, resetAt, why) + CatchUpReports(c, AfterStep(c, next, resetAt), resetAt, why)
  {
  }

  /** One fixed update, as far as the driver sees it. */
  method FixedUpdate(driver: FixedTickDriver, resetAt: nat -> bool, why: nat -> ResetReason)
    requires driver.Valid()
    modifies driver
    ensures driver.Valid() && driver.View() == AfterStep(driver.Settings(), old(driver.View()), resetAt)
    ensures driver.reports == old(driver.reports) + StepReports(driver.Settings(), old(driver.View()), resetAt, why)
  {
    if resetAt(driver.stepCount) { driver.Reset(why(driver.stepCount)); }
  }

  /** The scene's render callback: `resetAt(n)` stands for what the n-th fixed update does. */
  method Update(driver: FixedTickDriver, currentTime: Time, resetAt: nat -> bool, why: nat -> ResetReason)
    requires driver.Valid()
    modifies driver
    ensures driver.Valid() && driver.View() == Frame(driver.Settings(), old(driver.View()), currentTime, resetAt)
    ensures driver.reports == old(driver.reports) +
                              FrameReports(driver.Settings(), old(driver.View()), currentTime, resetAt, why)
  {
    hide CatchUp, CatchUpReports, StepReports, OpenFrame, OpenReports;
    var runs := driver.BeginFrame(currentTime);
    if !runs { return; }
    ghost var c, begun, told := driver.Settings(), driver.View(), driver.reports;
    ghost var added: seq<Report> := [];
    CatchUpOnce(c, begun, resetAt, why);
    runs := driver.BeginStep();
    while runs
      invariant driver.Valid() && driver.reports == told + added
      invariant CatchUp(c, begun, resetAt) ==
                if runs then CatchUp(c, AfterStep(c, driver.View(), resetAt), resetAt) else driver.View()
      invariant CatchUpReports(c, begun, resetAt, why) ==
                if runs then added + AfterReports(c, driver.View(), resetAt, why) else added
      decreases runs, if resetAt(driver.stepCount) && driver.resetAccumulatorOnZoneTransition then 0
                      else driver.stepBudget - driver.stepsThisFrame + 1
    {
      ghost var more := StepReports(c, driver.View(), resetAt, why);
      FixedUpdate(driver, resetAt, why);
      assert told + added + more == told + (added + more);
      ghost var rest := CatchUpReports(c, driver.View(), resetAt, why);
      assert added + (more + rest) == (added + more) + rest;
      added := added + more;
      CatchUpOnce(c, driver.View(), resetAt, why);
      runs := driver.BeginStep();
    }
  }

  function AfterReports(c: Clock, t: Tick, resetAt: nat -> bool, why: nat -> ResetReason): seq<Report>
    requires c.Valid()
  {
    StepReports(c, t, resetAt, why) + CatchUpReports(c, AfterStep(c, t, resetAt), resetAt, why)
  }
}
