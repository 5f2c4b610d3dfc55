/** The stage-boundary ledger: which stage ends have paid in this playthrough, what a boundary is
    worth, and the latch that remembers a suit switched on inside the stage. */
module Ledger {
  import opened Basics

  const MAX_LIVES := 9
  const BRAVERY_BONUS := 10_000
  const PHASE_TICKS := 1_800
  const TIMED_BONUS_LADDER := [7_000, 5_000, 3_000, 1_000, 0]
  const STAGE_END_ZONES := [24, 49, 74, 99, 124]
  const STAGE_START_ZONES := [0, 25, 50, 75, 100]

  datatype Component = LivesTimes1000 | BraveryNoExoskeleton | TimedPhaseLadder

  const WAVE_D := [LivesTimes1000, BraveryNoExoskeleton, TimedPhaseLadder]

  datatype Context = Context(stageElapsedSteps: Option<int>, tookExoskeletonInStage: bool)

  datatype AwardComponent = AwardComponent(id: Component, points: int)

  datatype Award = Award(completedZone: int, components: seq<AwardComponent>,
                         livesBefore: int, livesAfter: int,
                         startingAmmo: int, startingGrenades: int, timedPhase: Option<nat>)

  datatype Suppression = AlreadyAwarded | NotStageEnd

  datatype Outcome = Awarded(award: Award) | Suppressed(zone: int, reason: Suppression) | NotApplicable

  /** The ladder slot of a context; an unobserved clock has none. */
  function Phase(ctx: Context): Option<nat> {
    match ctx.stageElapsedSteps
    case None => None
    case Some(elapsed) =>
      var slot := (if elapsed < 0 then 0 else elapsed) / PHASE_TICKS;
      Some(if slot < 4 then slot else 4)
  }

  function Points(component: Component, lives: int, ctx: Context): int {
    match component
    case LivesTimes1000 => lives * 1_000
    case BraveryNoExoskeleton => if ctx.tookExoskeletonInStage then 0 else BRAVERY_BONUS
    case TimedPhaseLadder =>
      match Phase(ctx)
      case None => 0
      case Some(phase) => if phase < |TIMED_BONUS_LADDER| then TIMED_BONUS_LADDER[phase] else 0
  }

  /** Once-keys: how often each component of each zone has paid. */
  type Counts = map<(int, Component), nat>

  function CountOf(counts: Counts, zone: int, component: Component): nat {
    if (zone, component) in counts then counts[(zone, component)] else 0
  }

  datatype LedgerState = LedgerState(playthroughIndex: nat, counts: Counts, took: bool,
                                     stageStartStep: nat, activatedAt: Option<nat>)

  function NewLedger(): LedgerState {
    LedgerState(1, map[], false, 0, None)
  }

  function PlaythroughBegun(l: LedgerState): LedgerState {
    l.(counts := map[], took := false, playthroughIndex := l.playthroughIndex + 1)
  }

  function PlaythroughEnded(l: LedgerState): LedgerState {
    l.(counts := map[], took := false)
  }

  function SuitActivated(l: LedgerState, step: nat): LedgerState {
    l.(activatedAt := if l.activatedAt.None? then Some(step) else l.activatedAt, took := true)
  }

  function StageStarted(l: LedgerState, step: nat): LedgerState {
    l.(stageStartStep := step, took := false, activatedAt := None)
  }

  function ContextAt(l: LedgerState, step: nat): Context {
    Context(Some(if step < l.stageStartStep then 0 else step - l.stageStartStep), l.took)
  }

  // The boundary decision

  /** The first component of `sequence` that has used up its allowance, if any, blocks them all. */
  predicate Blocked(counts: Counts, zone: int, allowance: nat, sequence: seq<Component>) {
    allowance > 0 && exists c :: c in sequence && CountOf(counts, zone, c) >= allowance
  }

  function Priced(sequence: seq<Component>, lives: int, ctx: Context): (r: seq<AwardComponent>)
    ensures |r| == |sequence|
  {
    seq(|sequence|, i requires 0 <= i < |sequence| => AwardComponent(sequence[i], Points(sequence[i], lives, ctx)))
  }

  function Charge(counts: Counts, zone: int, sequence: seq<Component>): Counts {
    if sequence == [] then counts
    else
      var n := |sequence| - 1;
      var charged := Charge(counts, zone, sequence[..n]);
      charged[(zone, sequence[n]) := CountOf(charged, zone, sequence[n]) + 1]
  }

  function Decide(l: LedgerState, ends: seq<int>, allowance: nat, zone: int, lives: int, maxLives: int,
                  startingAmmo: int, startingGrenades: int, ctx: Context, sequence: seq<Component>)
    : (LedgerState, Outcome)
  {
    if zone !in ends then (l, NotApplicable)
    else if Blocked(l.counts, zone, allowance, sequence) then (l, Suppressed(zone, AlreadyAwarded))
    else if sequence == [] then (l, Suppressed(zone, NotStageEnd))
    else (l.(counts := Charge(l.counts, zone, sequence)),
          Awarded(Award(zone, Priced(sequence, lives, ctx), lives,
                        if lives + 1 < maxLives then lives + 1 else maxLives,
                        startingAmmo, startingGrenades, Phase(ctx))))
  }

  function Total(components: seq<AwardComponent>): int {
    if components == [] then 0
    else Total(components[..|components| - 1]) + components[|components| - 1].points
  }

  class StageBoundaryLedger {
    const stageEndZones: seq<int>
    const awardSequence: seq<Component>
    const awardsPerComponentPerZone: nat

    var playthroughIndex: nat
    var awardedCounts: Counts
    var tookExoskeletonInStage: bool
    var stageStartStep: nat
    var exoskeletonActivatedAtStep: Option<nat>

    function View(): LedgerState
      reads this
    {
      LedgerState(playthroughIndex, awardedCounts, tookExoskeletonInStage, stageStartStep,
                  exoskeletonActivatedAtStep)
    }

    constructor (stageEndZones: seq<int>, awardSequence: seq<Component>, allowance: int)
      ensures View() == NewLedger()
      ensures this.stageEndZones == stageEndZones && this.awardSequence == awardSequence
      ensures awardsPerComponentPerZone == if allowance < 0 then 0 else allowance
    {
      this.stageEndZones, this.awardSequence := stageEndZones, awardSequence;
      awardsPerComponentPerZone := if allowance < 0 then 0 else allowance;
      playthroughIndex, awardedCounts, tookExoskeletonInStage := 1, map[], false;
      stageStartStep, exoskeletonActivatedAtStep := 0, None;
    }

    method BeginPlaythrough()
      modifies this
      ensures View() == PlaythroughBegun(old(View()))
    {
      awardedCounts := map[];
      tookExoskeletonInStage := false;
      playthroughIndex := playthroughIndex + 1;
    }

    method EndPlaythrough()
      modifies this
      ensures View() == PlaythroughEnded(old(View()))
    {
      awardedCounts := map[];
      tookExoskeletonInStage := false;
    }

    method NoteExoskeletonActivated(step: nat)
      modifies this
      ensures View() == SuitActivated(old(View()), step)
    {
      if exoskeletonActivatedAtStep == None {
        exoskeletonActivatedAtStep := Some(step);
      }
      tookExoskeletonInStage := true;
    }

    method NoteStageStarted(step: nat)
      modifies this
      ensures View() == StageStarted(old(View()), step)
    {
      stageStartStep := step;
      tookExoskeletonInStage := false;
      exoskeletonActivatedAtStep := None;
    }

    /** Evaluates one boundary trigger. Nothing is charged before every component is accepted. */
    method DecideOutcome(zone: int, lives: int, maxLives: int, startingAmmo: int, startingGrenades: int,
                         ctx: Context, sequence: seq<Component>) returns (outcome: Outcome)
      modifies `awardedCounts
      ensures (View(), outcome) == Decide(old(View()), stageEndZones, awardsPerComponentPerZone, zone, lives,
                                          maxLives, startingAmmo, startingGrenades, ctx, sequence)
    {
      if zone !in stageEndZones { return NotApplicable; }
      var accepted: seq<AwardComponent> := [];
      for i := 0 to |sequence|
        modifies {}
        invariant accepted == Priced(sequence, lives, ctx)[..i]
        invariant awardsPerComponentPerZone > 0 ==>
                    forall j :: 0 <= j < i ==> CountOf(awardedCounts, zone, sequence[j]) < awardsPerComponentPerZone
      {
        var already := CountOf(awardedCounts, zone, sequence[i]);
        if awardsPerComponentPerZone > 0 && already >= awardsPerComponentPerZone {
          assert sequence[i] in sequence;
          return Suppressed(zone, AlreadyAwarded);
        }
        accepted := accepted + [AwardComponent(sequence[i], Points(sequence[i], lives, ctx))];
      }
      assert accepted == Priced(sequence, lives, ctx);
      assert !Blocked(awardedCounts, zone, awardsPerComponentPerZone, sequence);
      ghost var before := awardedCounts;
      for i := 0 to |accepted|
        invariant awardedCounts == Charge(before, zone, sequence[..i])
      {
        assert sequence[..i + 1][..i] == sequence[..i];
        awardedCounts := awardedCounts[(zone, accepted[i].id) := CountOf(awardedCounts, zone, accepted[i].id) + 1];
      }
      assert sequence[..|sequence|] == sequence;
      if accepted == [] { return Suppressed(zone, NotStageEnd); }
      return Awarded(Award(zone, accepted, lives, if lives + 1 < maxLives then lives + 1 else maxLives,
                           startingAmmo, startingGrenades, Phase(ctx)));
    }
  }

  // What the decision promises

  lemma {:induction false} ChargeCounts(counts: Counts, zone: int, sequence: seq<Component>, z: int, c: Component)
    ensures CountOf(Charge(counts, zone, sequence), z, c)
         == CountOf(counts, z, c) + if z == zone then multiset(sequence)[c] else 0
  {
    if sequence != [] {
      var n := |sequence| - 1;
      ChargeCounts(counts, zone, sequence[..n], z, c);
      ChargeCounts(counts, zone, sequence[..n], zone, sequence[n]);
      assert sequence == sequence[..n] + [sequence[n]];
    }
  }

  /** Under an allowance of one, a zone that paid is suppressed for the rest of the playthrough,
      whatever the lives and the clock, and no other zone is affected. */
  lemma PaidZoneStaysSuppressed(l: LedgerState, ends: seq<int>, zone: int, lives: int, ctx: Context,
                                sequence: seq<Component>, again: int, lives': int, ctx': Context)
    requires Decide(l, ends, 1, zone, lives, MAX_LIVES, 99, 10, ctx, sequence).1.Awarded?
    ensures var l1 := Decide(l, ends, 1, zone, lives, MAX_LIVES, 99, 10, ctx, sequence).0;
            var first := Decide(l, ends, 1, again, lives', MAX_LIVES, 99, 10, ctx', sequence);
            var next := Decide(l1, ends, 1, again, lives', MAX_LIVES, 99, 10, ctx', sequence);
            && (again == zone ==> next == (l1, Suppressed(zone, AlreadyAwarded)))
            && (again != zone ==> next.1 == first.1)
  {
    var l1 := Decide(l, ends, 1, zone, lives, MAX_LIVES, 99, 10, ctx, sequence).0;
    forall c ensures CountOf(l1.counts, again, c)
                  == CountOf(l.counts, again, c) + if again == zone then multiset(sequence)[c] else 0
    {
      ChargeCounts(l.counts, zone, sequence, again, c);
    }
    if again == zone {
      assert sequence[0] in sequence;
      assert CountOf(l1.counts, zone, sequence[0]) >= 1;
    }
  }

  /** A full award is the sum of its three clauses, and never more than 26 000 points. */
  lemma FullAwardTotal(lives: int, ctx: Context)
    requires 0 <= lives <= MAX_LIVES
    ensures Total(Priced(WAVE_D, lives, ctx))
         == lives * 1_000 + (if ctx.tookExoskeletonInStage then 0 else 10_000) + Points(TimedPhaseLadder, lives, ctx)
    ensures lives * 1_000 <= Total(Priced(WAVE_D, lives, ctx)) <= 26_000
  {
    var p := Priced(WAVE_D, lives, ctx);
    assert p[..2][..1] == p[..1] && p[..2][1] == p[1] && p[..1][..0] == [] && p[..1][0] == p[0];
    assert Total(p) == Total(p[..2]) + p[2].points;
    assert Total(p[..2]) == Total(p[..1]) + p[1].points;
    assert Total(p[..1]) == Total(p[..1][..0]) + p[0].points;
  }

  /** The ladder never pays more for more time, and pays nothing to an unobserved clock. */
  lemma LadderIsMonotone(early: int, late: int, lives: int, took: bool)
    requires early <= late
    ensures Points(TimedPhaseLadder, lives, Context(Some(late), took))
         <= Points(TimedPhaseLadder, lives, Context(Some(early), took)) <= 7_000
    ensures Points(TimedPhaseLadder, lives, Context(None, took)) == 0
    ensures Points(TimedPhaseLadder, lives, Context(Some(late), took)) == 0 <==> late >= 4 * PHASE_TICKS
  {
  }
}
