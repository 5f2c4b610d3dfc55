/** What the ledger answers over a whole playthrough, whatever it allows and whatever it is asked to pay. */
module LedgerRuns {
  import opened Basics
  import opened Ledger

  /** What a ledger is built with and asked for. */
  datatype Terms = Terms(ends: seq<int>, allowance: nat, maxLives: int, ammo: int, grenades: int,
                         sequence: seq<Component>)

  /** A stage boundary is reached. */
  datatype Trigger = Trigger(zone: int, lives: int, ctx: Context)

  function Asked(t: Terms, l: LedgerState, x: Trigger): (LedgerState, Outcome) {
    Decide(l, t.ends, t.allowance, x.zone, x.lives, t.maxLives, t.ammo, t.grenades, x.ctx, t.sequence)
  }

  function After(t: Terms, l: LedgerState, triggers: seq<Trigger>): LedgerState {
    if triggers == [] then l else Asked(t, After(t, l, triggers[..|triggers| - 1]), triggers[|triggers| - 1]).0
  }

  /** How many of the triggers paid at this zone. */
  function Paid(t: Terms, l: LedgerState, triggers: seq<Trigger>, zone: int): nat {
    if triggers == [] then 0
    else
      var n := |triggers| - 1;
      Paid(t, l, triggers[..n], zone)
      + if triggers[n].zone == zone && Asked(t, After(t, l, triggers[..n]), triggers[n]).1.Awarded? then 1 else 0
  }

  function Reached(triggers: seq<Trigger>, zone: int): nat {
    if triggers == [] then 0
    else Reached(triggers[..|triggers| - 1], zone) + if triggers[|triggers| - 1].zone == zone then 1 else 0
  }

  /** The slot of thirty seconds the stage took, the last one open; none if nobody looked at the clock. */
  ghost predicate IsPhase(ctx: Context, phase: Option<nat>) {
    match ctx.stageElapsedSteps
    case None => phase == None
    case Some(elapsed) =>
      phase.Some? && phase.value <= 4 && (phase.value > 0 ==> phase.value * 1_800 <= elapsed)
      && (phase.value < 4 ==> elapsed < (phase.value + 1) * 1_800)
  }

  /** The points of a component: lives by the thousand, ten thousand without the suit, and the less for the
      clock the longer it took. */
  function Worth(component: Component, lives: int, ctx: Context): int {
    match component
    case LivesTimes1000 => lives * 1_000
    case BraveryNoExoskeleton => if ctx.tookExoskeletonInStage then 0 else 10_000
    case TimedPhaseLadder =>
      if ctx.stageElapsedSteps.None? || ctx.stageElapsedSteps.value >= 7_200 then 0
      else if ctx.stageElapsedSteps.value >= 5_400 then 1_000
      else if ctx.stageElapsedSteps.value >= 3_600 then 3_000
      else if ctx.stageElapsedSteps.value >= 1_800 then 5_000
      else 7_000
  }

  ghost predicate IsAward(t: Terms, x: Trigger, a: Award) {
    && a.completedZone == x.zone && a.livesBefore == x.lives
    && a.livesAfter == (if x.lives >= t.maxLives then t.maxLives else x.lives + 1)
    && a.startingAmmo == t.ammo && a.startingGrenades == t.grenades && IsPhase(x.ctx, a.timedPhase)
    && |a.components| == |t.sequence|
    && forall i :: 0 <= i < |t.sequence| ==>
         a.components[i].id == t.sequence[i] && a.components[i].points == Worth(t.sequence[i], x.lives, x.ctx)
  }

  /** One more award of this zone would pay some component more often than it may be paid. */
  ghost predicate UsedUp(t: Terms, paid: nat) {
    t.allowance > 0 && exists c :: c in t.sequence && paid * multiset(t.sequence)[c] >= t.allowance
  }

  lemma WorthIsPoints(component: Component, lives: int, ctx: Context)
    ensures Points(component, lives, ctx) == Worth(component, lives, ctx) && IsPhase(ctx, Phase(ctx))
  {
  }

  /** A component of a zone has been paid once for each time the list names it in each award of the zone. */
  lemma {:induction false} CountsAreAwards(t: Terms, l: LedgerState, triggers: seq<Trigger>, zone: int, c: Component)
    requires l.counts == map[]
    ensures CountOf(After(t, l, triggers).counts, zone, c) == Paid(t, l, triggers, zone) * multiset(t.sequence)[c]
    ensures After(t, l, triggers) == l.(counts := After(t, l, triggers).counts)
  {
    if triggers != [] {
      var n := |triggers| - 1;
      CountsAreAwards(t, l, triggers[..n], zone, c);
      var l1 := After(t, l, triggers[..n]);
      ChargeCounts(l1.counts, triggers[n].zone, t.sequence, zone, c);
      var times := multiset(t.sequence)[c];
      assert (Paid(t, l, triggers[..n], zone) + 1) * times == Paid(t, l, triggers[..n], zone) * times + times;
    }
  }

  /** Over every playthrough, a stage end is awarded, in full and with exactly these contents, unless that
      would pay one of its components more often than allowed; no other zone is. */
  lemma AnswersExactly(t: Terms, l: LedgerState, triggers: seq<Trigger>, x: Trigger)
    requires l.counts == map[]
    ensures var outcome := Asked(t, After(t, l, triggers), x).1;
            if x.zone !in t.ends then outcome == NotApplicable
            else if UsedUp(t, Paid(t, l, triggers, x.zone)) then outcome == Suppressed(x.zone, AlreadyAwarded)
            else if t.sequence == [] then outcome == Suppressed(x.zone, NotStageEnd)
            else outcome.Awarded? && IsAward(t, x, outcome.award)
  {
    var l1, paid := After(t, l, triggers), Paid(t, l, triggers, x.zone);
    forall c ensures CountOf(l1.counts, x.zone, c) == paid * multiset(t.sequence)[c] {
      CountsAreAwards(t, l, triggers, x.zone, c);
    }
    BlockedExactlyWhen(t, l1, x.zone, paid);
    forall c ensures Points(c, x.lives, x.ctx) == Worth(c, x.lives, x.ctx) && IsPhase(x.ctx, Phase(x.ctx)) {
      WorthIsPoints(c, x.lives, x.ctx);
    }
  }

  lemma BlockedExactlyWhen(t: Terms, l: LedgerState, zone: int, paid: nat)
    requires forall c :: CountOf(l.counts, zone, c) == paid * multiset(t.sequence)[c]
    ensures Blocked(l.counts, zone, t.allowance, t.sequence) <==> UsedUp(t, paid)
  {
    hide CountOf;
  }

  /** With a list that names no component twice, a stage end pays the first times it is reached, as often as
      it may: every time if there is no limit. */
  lemma {:induction false} PaysTheFirstTimes(t: Terms, l: LedgerState, triggers: seq<Trigger>, zone: int)
    requires l.counts == map[] && t.sequence != [] && forall c :: multiset(t.sequence)[c] <= 1
    ensures var reached := Reached(triggers, zone);
            && Paid(t, l, triggers, zone)
               == if zone !in t.ends then 0
                  else if t.allowance > 0 && t.allowance < reached then t.allowance else reached
  {
    if triggers != [] {
      var n := |triggers| - 1;
      PaysTheFirstTimes(t, l, triggers[..n], zone);
      AnswersExactly(t, l, triggers[..n], triggers[n]);
      OnceEach(t, Paid(t, l, triggers[..n], zone));
    }
  }

  lemma OnceEach(t: Terms, paid: nat)
    requires t.sequence != [] && forall c :: multiset(t.sequence)[c] <= 1
    ensures UsedUp(t, paid) <==> t.allowance > 0 && paid >= t.allowance
  {
    var c := t.sequence[0];
    assert c in t.sequence && multiset(t.sequence)[c] == 1;
  }
}
