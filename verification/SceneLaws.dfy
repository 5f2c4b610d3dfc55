/** What every session of the game keeps: bounds of the game's numbers, the bravery latch, one
    boundary award per stage end with its records in order, and a score, lives and a high score that
    the events of the session tell. First the story an event stream tells and what each event owes
    it, then the invariant that ties a scene to its story, then one lemma per function of the step. */
module SceneLaws {
  import opened Basics
  import opened Ledger
  import opened SceneModel

  // What the events alone tell

  /** A story read from events only: the zone, the suit and whether a changing room put it on since
      the last stage start was entered or the run restarted, the lives, which stage ends paid and how
      many boundary points since the score was last reset, what a boundary still has to record,
      whether the game was saved since its last award and is kept at all, the score, and the high
      score with the first one shown. */
  datatype Story = Story(
    zone: int, wearing: bool, suited: bool, lives: int, paid: seq<int>, paidPoints: int,
    owed: Option<int>, due: seq<AwardComponent>, saved: bool, kept: bool, score: int,
    stored: Option<int>, high: int)

  const OPENING := Story(0, false, false, STARTING_LIVES, [], 0, None, [], true, false, 0, None, 0)

  function Bravery(suited: bool): int {
    if suited then 0 else BRAVERY_BONUS
  }

  /** The three clauses of a boundary worth `points` in all. */
  function Clauses(story: Story, points: int): seq<AwardComponent> {
    [AwardComponent(LivesTimes1000, story.lives * 1_000),
     AwardComponent(BraveryNoExoskeleton, Bravery(story.suited)),
     AwardComponent(TimedPhaseLadder, points - story.lives * 1_000 - Bravery(story.suited))]
  }

  function Capped(points: int): int {
    if points < SCORE_CEILING then points else SCORE_CEILING
  }

  function Note(story: Story, e: Event): Story {
    match e
    case TitleEntered(high, _) =>
      story.(stored := if story.stored.None? then Some(high) else story.stored, high := high)
    case HighScoreSaved(value) => story.(high := value)
    case ScoreAwarded(points, _, reason) =>
      var scored := story.(score := Capped(story.score + points));
      if reason.Boundary? then scored.(paidPoints := story.paidPoints + points, owed := Some(points)) else scored
    case RunRestarted(_, _) =>
      story.(zone := 0, suited := false, lives := STARTING_LIVES, paid := [], paidPoints := 0, score := 0)
    case ZoneEntered(zone) => story.(zone := zone, suited := story.suited && zone !in STAGE_START_ZONES)
    case SuitChanged(enabled, cause) =>
      story.(wearing := enabled, suited := story.suited || (enabled && cause.ChangingRoom?))
    case StagePoints(zone, points, _, livesAfter) =>
      story.(lives := livesAfter, paid := story.paid + [zone], owed := None,
             due := Clauses(story, points), saved := false)
    case StageComponent(_, _, _) => story.(due := if story.due == [] then [] else story.due[1..])
    case CheckpointSaved(_, _, _, _, lives) => story.(lives := lives, saved := true, kept := true)
    case CheckpointCleared => story.(kept := false)
    case _ => story
  }

  function Tell(trace: seq<Event>): Story {
    if trace == [] then OPENING else Note(Tell(trace[..|trace| - 1]), trace[|trace| - 1])
  }

  /** What a score record pays for its reason: a boundary pays lives, bravery and a ladder slot. */
  ghost predicate Fee(before: Story, points: int, reason: ScoreReason) {
    match reason
    case Shotdown => points == 50
    case Bubble => points == 150
    case Egg => points == 50
    case ForceField => points == 1_000
    case GrenadeKill => points == 150
    case Guidance => points == 150 || points == 1_000
    case Launcher => points == 1_000
    case Boundary =>
      1 <= before.lives <= 9 && points - before.lives * 1_000 - Bravery(before.suited) in TIMED_BONUS_LADDER
  }

  /** The record of a boundary follows its score, and its three clauses follow the record. */
  ghost predicate InTurn(before: Story, e: Event) {
    match before.owed
    case Some(points) =>
      e.HighScoreSaved? || e == SuitChanged(false, StageBoundary) || (e.StagePoints? && e.points == points)
    case None =>
      if before.due != [] then
        && before.paid != []
        && e == StageComponent(before.paid[|before.paid| - 1], before.due[0].id, before.due[0].points)
      else !e.StagePoints? && !e.StageComponent?
  }

  /** What its kind asks of an event. */
  ghost predicate Fits(before: Story, e: Event) {
    match e
    case TitleEntered(high, saved) =>
      high >= 0 && saved == before.kept && (before.stored.None? || high == before.high)
    case ScoreAwarded(points, previous, reason) => previous == before.score && Fee(before, points, reason)
    case RunRestarted(zone, discarded) => discarded == before.score && zone == before.zone
    case StagePoints(zone, points, livesBefore, livesAfter) =>
      && zone == before.zone && zone in STAGE_END_ZONES && zone !in before.paid && Fee(before, points, Boundary)
      && livesBefore == before.lives && livesAfter == (if livesBefore < 9 then livesBefore + 1 else 9)
    case StageComponent(zone, id, points) => zone in STAGE_END_ZONES && 0 <= points <= 10_000
    case HighScoreSaved(value) => before.high < value <= SCORE_CEILING && value == before.score
    case CheckpointSaved(zone, ammo, grenades, points, lives) =>
      zone == before.zone && 0 <= ammo <= 99 && 0 <= grenades <= 10 && points == before.score && 1 <= lives <= 9
    case BlasterShot(x, y) => 1 <= x <= 99 && y == x - 1
    case GrenadeThrown(x, y, blocked) => 1 <= x <= 10 && y == if blocked then x else x - 1
    case PickupCollected(isAmmo, x, y) =>
      if isAmmo then 0 <= x <= 99 && y == 99 else 0 <= x <= 10 && y == 10
    case DeathBegan(lives, ammo, grenades) => 1 <= lives <= 9 && 0 <= ammo <= 99 && 0 <= grenades <= 10
    case DeathSettled(x, y, saved) => 2 <= x <= 9 && y == x - 1 && saved
    case GameEnded(points, high) => points == before.score <= high == before.high
    case BoundarySuppressed(zone, why) =>
      zone == before.zone == LAST_ZONE && zone in before.paid && before.saved && why.AlreadyAwarded?
    case ZoneEntered(zone) => 0 < zone == before.zone + 1 <= LAST_ZONE
    case SuitChanged(enabled, _) => enabled != before.wearing
    case _ => true
  }

  /** What an event owes the events before it. */
  ghost predicate Sound(before: Story, e: Event) {
    InTurn(before, e) && Fits(before, e)
  }

  ghost predicate AllSound(trace: seq<Event>) {
    trace == []
    || (AllSound(trace[..|trace| - 1]) && Sound(Tell(trace[..|trace| - 1]), trace[|trace| - 1]))
  }

  lemma TellMore(trace: seq<Event>, e: Event)
    ensures Tell(trace + [e]) == Note(Tell(trace), e)
    ensures AllSound(trace) && Sound(Tell(trace), e) ==> AllSound(trace + [e])
  {
    assert (trace + [e])[..|trace|] == trace;
  }

  // The invariant

  ghost predicate Numbers(s: Scene) {
    && 0 <= s.points <= SCORE_CEILING && s.points <= s.highScore == s.savedHighScore
    && (if s.flow.GameOver? then s.lives == 0 else 1 <= s.lives <= MAX_LIVES)
    && 0 <= s.ammo <= STARTING_AMMO && 0 <= s.grenades <= STARTING_GRENADES
    && 0 <= s.zone <= LAST_ZONE
  }

  ghost predicate FlowFits(s: Scene) {
    && (s.dying <==> s.flow.PlayerDead? || s.flow.GameOver?)
    && (s.flow.Paused? ==> s.beforePause.Playing? || s.beforePause.Respawning?)
    && (s.flow.GameOver? ==> s.checkpoint.None?)
    && (s.checkpoint.None? ==> s.flow.GameOver? || (s.flow.Title? && s.zone == 0 && !s.suit))
  }

  ghost predicate RisingEnds(paid: seq<int>) {
    && (forall i :: 0 <= i < |paid| ==> paid[i] in STAGE_END_ZONES)
    && (forall i, j :: 0 <= i < j < |paid| ==> paid[i] < paid[j])
  }

  /** The ledger and the suit against the story of the events. */
  ghost predicate StoryFits(s: Scene, lives: int, owed: Option<int>, due: seq<AwardComponent>) {
    var story := Tell(s.trace);
    && story.score == s.points && story.high == s.highScore && story.stored.Some?
    && story.zone == s.zone && story.wearing == s.suit && story.kept == s.checkpoint.Some?
    && story.owed == owed && story.due == due
    && story.paidPoints <= 26_000 * (|story.paid| + if owed.Some? then 1 else 0)
    && RisingEnds(story.paid)
    && (!s.flow.GameOver? ==>
          story.lives == lives && s.ledger.took == story.suited && (s.suit ==> story.suited))
    && (s.flow.Title? && s.checkpoint.None? ==> story.paid == [] && !story.suited)
  }

  /** The invariant inside a step, while the events still say `lives` and owe part of an award. */
  ghost predicate CoreOwing(s: Scene, lives: int, owed: Option<int>, due: seq<AwardComponent>) {
    Numbers(s) && FlowFits(s) && StoryFits(s, lives, owed, due) && AllSound(s.trace)
  }

  ghost predicate Core(s: Scene) {
    CoreOwing(s, s.lives, None, [])
  }

  /** The once-keys are exactly the stage ends that paid. */
  ghost predicate CountsFit(s: Scene) {
    !s.flow.GameOver? ==>
      forall z, c :: CountOf(s.ledger.counts, z, c) == if z in Tell(s.trace).paid then 1 else 0
  }

  /** A stage end that paid lies behind the player, or is the last one. */
  ghost predicate EndsBehind(s: Scene) {
    forall i :: 0 <= i < |Tell(s.trace).paid| ==>
      Tell(s.trace).paid[i] < s.zone || Tell(s.trace).paid[i] == s.zone == LAST_ZONE
  }

  /** Between two steps the game was saved after its last award. */
  ghost predicate Behind(s: Scene) {
    EndsBehind(s) && Tell(s.trace).saved
  }

  ghost predicate Inv(s: Scene) {
    Core(s) && CountsFit(s) && Behind(s)
  }

  /** No boundary pays from `s` to `s1`, which are of one step. */
  ghost predicate SamePaid(s: Scene, s1: Scene) {
    && Tell(s1.trace).paid == Tell(s.trace).paid && Tell(s1.trace).paidPoints == Tell(s.trace).paidPoints
    && Tell(s1.trace).stored == Tell(s.trace).stored && s1.step == s.step
  }

  /** Nor does a stage begin, nor a changing room put the suit on. */
  ghost predicate SameStage(s: Scene, s1: Scene) {
    && SamePaid(s, s1) && Tell(s1.trace).suited == Tell(s.trace).suited
    && s1.ledger.stageStartStep == s.ledger.stageStartStep
  }

  /** A step part that leaves the award side alone. */
  ghost predicate SameAwards(s: Scene, s1: Scene) {
    && SameStage(s, s1) && s1.ledger == s.ledger && s1.zone == s.zone
    && (Tell(s.trace).saved ==> Tell(s1.trace).saved)
  }

  // One lemma per function of the step

  /** What a score award does to the score and its records. */
  lemma Scored(s: Scene, value: int, reason: ScoreReason)
    requires Core(s) && Fee(Tell(s.trace), value, reason) && value > 0
    ensures var s1 := AwardPoints(s, value, reason);
            && AllSound(s1.trace)
            && Tell(s1.trace) == Note(Tell(s.trace), ScoreAwarded(value, s.points, reason)).(high := s1.highScore)
            && s1.points == Capped(s.points + value) && s1.points <= s1.highScore == s1.savedHighScore
            && s1 == s.(points := s1.points, highScore := s1.highScore, savedHighScore := s1.savedHighScore,
                        trace := s1.trace)
  {
    hide Tell, AllSound, RisingEnds, FlowFits, Fee;
    var e := ScoreAwarded(value, s.points, reason);
    TellMore(s.trace, e);
    TellMore(s.trace + [e], HighScoreSaved(Capped(s.points + value)));
  }

  lemma AwardKeeps(s: Scene, value: int, reason: ScoreReason)
    requires Core(s) && !reason.Boundary? && Fee(Tell(s.trace), value, reason)
    ensures var s1 := AwardPoints(s, value, reason);
            && Core(s1) && SameAwards(s, s1)
            && s1.(points := s.points, highScore := s.highScore, savedHighScore := s.savedHighScore,
                   trace := s.trace) == s
  {
    hide Tell, AllSound, RisingEnds, AwardPoints;
    Scored(s, value, reason);
  }

  lemma BoothKeeps(s: Scene)
    requires Inv(s) && (s.flow.Playing? || s.flow.Respawning?)
    ensures Inv(UseBooth(s)) && UseBooth(s).flow == s.flow && SamePaid(s, UseBooth(s))
    ensures UseBooth(s).ledger.stageStartStep == s.ledger.stageStartStep
    ensures Tell(UseBooth(s).trace).suited == (Tell(s.trace).suited || !s.suit)
  {
    hide Tell, AllSound, RisingEnds;
    TellMore(s.trace, SuitChanged(!s.suit, ChangingRoom));
  }

  lemma SaveKeeps(s: Scene, lives: int)
    requires CoreOwing(s, lives, None, []) && !s.flow.GameOver?
    ensures Core(SaveCheckpoint(s)) && SameAwards(s, SaveCheckpoint(s)) && Tell(SaveCheckpoint(s).trace).saved
  {
    hide Tell, AllSound, RisingEnds;
    TellMore(s.trace, CheckpointSaved(s.zone, s.ammo, s.grenades, s.points, s.lives));
  }

  lemma HitKeeps(s: Scene)
    requires Core(s) && InPlay(s)
    ensures Core(HitPlayer(s)) && SameAwards(s, HitPlayer(s)) && InPlay(HitPlayer(s))
    ensures HitPlayer(s).flow.GameOver? <==> s.flow.GameOver?
  {
    hide Tell, AllSound, RisingEnds;
    TellMore(s.trace, DeathBegan(s.lives, s.ammo, s.grenades));
  }

  /** The flow states a playing step starts in. */
  predicate Afoot(s: Scene) {
    s.flow.Playing? || s.flow.Respawning? || s.flow.PlayerDead?
  }

  /** The flow states a playing step passes through, game over included. */
  ghost predicate InPlay(s: Scene) {
    s.flow.Playing? || s.flow.Respawning? || s.flow.PlayerDead? || s.flow.GameOver?
  }

  lemma {:induction false} KillsKeep(s: Scene, kills: seq<Kill>)
    requires Core(s)
    ensures Core(AwardKills(s, kills)) && SameAwards(s, AwardKills(s, kills))
    ensures AwardKills(s, kills).flow == s.flow
  {
    hide Tell, AllSound, RisingEnds;
    if kills != [] {
      KillsKeep(s, kills[..|kills| - 1]);
      AwardKeeps(AwardKills(s, kills[..|kills| - 1]), KillPoints(kills[|kills| - 1]), KillReason(kills[|kills| - 1]));
    }
  }

  lemma CollectKeeps(s: Scene, isAmmo: bool)
    requires Core(s)
    ensures Core(Collect(s, isAmmo)) && SameAwards(s, Collect(s, isAmmo))
    ensures Collect(s, isAmmo).flow == s.flow
  {
    hide Tell, AllSound, RisingEnds;
    TellMore(s.trace, if isAmmo then PickupCollected(true, s.ammo, STARTING_AMMO)
                      else PickupCollected(false, s.grenades, STARTING_GRENADES));
  }

  lemma {:induction false} CollectAllKeeps(s: Scene, pickups: seq<bool>)
    requires Core(s)
    ensures Core(CollectAll(s, pickups)) && SameAwards(s, CollectAll(s, pickups))
    ensures CollectAll(s, pickups).flow == s.flow
  {
    hide Tell, AllSound, RisingEnds;
    if pickups != [] {
      CollectAllKeeps(s, pickups[..|pickups| - 1]);
      CollectKeeps(CollectAll(s, pickups[..|pickups| - 1]), pickups[|pickups| - 1]);
    }
  }

  lemma LethalKeeps(s: Scene, w: World)
    requires Core(s) && InPlay(s)
    ensures var s1 := FaceLethalEntities(s, w);
            && Core(s1) && SameAwards(s, s1) && InPlay(s1)
            && (s1.flow.GameOver? <==> s.flow.GameOver?)
  {
    hide Tell, AllSound, RisingEnds, Core, HitPlayer, AwardPoints;
    HitKeeps(s);
    var s1 := if w.missileContact then HitPlayer(s) else s;
    HitKeeps(s1);
    AwardKeeps(s1, 150, Bubble);
    HitKeeps(AwardPoints(s1, 150, Bubble));
    AwardKeeps(s1, 50, Egg);
    HitKeeps(AwardPoints(s1, 50, Egg));
  }

  lemma WorldKeeps(s: Scene, w: World)
    requires Core(s) && InPlay(s)
    ensures var s1 := MeetWorld(s, w);
            && Core(s1) && SameAwards(s, s1) && InPlay(s1)
            && (s1.flow.GameOver? <==> s.flow.GameOver?)
  {
    hide Tell, AllSound, RisingEnds, Core, HitPlayer, AwardPoints, FaceLethalEntities, AwardKills, CollectAll;
    KillsKeep(s, w.kills);
    var s1 := AwardKills(s, w.kills);
    HitKeeps(s1);
    var s2 := if w.bulletContact && Exposed(s1) then HitPlayer(s1) else s1;
    CollectAllKeeps(s2, w.pickups);
    var s3 := CollectAll(s2, w.pickups);
    AwardKeeps(s3, 1_000, Launcher);
    LethalKeeps(if w.launcherBonus then AwardPoints(s3, 1_000, Launcher) else s3, w);
  }

  lemma SameAwardsKeepInv(s: Scene, s1: Scene)
    requires CountsFit(s) && Behind(s) && Core(s1) && SameAwards(s, s1)
    requires s.flow.GameOver? ==> s1.flow.GameOver?
    ensures Inv(s1)
  {
    hide Tell, AllSound, RisingEnds;
  }

  lemma BlasterKeeps(s: Scene, input: Input)
    requires Inv(s) && (s.flow.Playing? || s.flow.Respawning?)
    ensures Inv(FireBlaster(s, input)) && FireBlaster(s, input).flow == s.flow
    ensures SameStage(s, FireBlaster(s, input))
  {
    hide Tell, AllSound, RisingEnds;
    TellMore(s.trace, BlasterShot(s.ammo, s.ammo - 1));
  }

  lemma GrenadeKeeps(s: Scene, input: Input, inFlight: bool)
    requires Inv(s) && (s.flow.Playing? || s.flow.Respawning?)
    ensures Inv(ThrowGrenade(s, input, inFlight)) && ThrowGrenade(s, input, inFlight).flow == s.flow
    ensures SameStage(s, ThrowGrenade(s, input, inFlight))
  {
    hide Tell, AllSound, RisingEnds;
    TellMore(s.trace, GrenadeThrown(s.grenades, if inFlight then s.grenades else s.grenades - 1, inFlight));
  }

  lemma EndGameKeeps(s: Scene, input: Input)
    requires Core(s.(lives := 1)) && s.flow.PlayerDead? && s.lives == 0 && Behind(s)
    ensures Inv(EndGame(s, input)) && EndGame(s, input).flow.GameOver? && SameStage(s, EndGame(s, input))
  {
    hide Tell, AllSound, RisingEnds;
    TellMore(s.trace, CheckpointCleared);
    var told := s.trace + [CheckpointCleared];
    TellMore(told, GameEnded(s.points, s.highScore));
  }

  lemma SettleKeeps(s: Scene)
    requires Inv(s) && s.flow.PlayerDead? && s.lives >= 2
    ensures var s1 := s.(groundTimer := 0, lives := s.lives - 1, ammo := STARTING_AMMO,
                         grenades := STARTING_GRENADES, dying := false,
                         protection := PROTECTION_STEPS, flow := Respawning);
            var s2 := Emit(SaveCheckpoint(s1), DeathSettled(s.lives, s.lives - 1, true));
            Inv(s2) && SameStage(s, s2)
  {
    hide Tell, AllSound, RisingEnds;
    var s1 := s.(groundTimer := 0, lives := s.lives - 1, ammo := STARTING_AMMO,
                 grenades := STARTING_GRENADES, dying := false, protection := PROTECTION_STEPS, flow := Respawning);
    SaveKeeps(s1, s.lives);
    TellMore(SaveCheckpoint(s1).trace, DeathSettled(s.lives, s.lives - 1, true));
  }

  lemma DeathKeeps(s: Scene, grounded: bool, input: Input)
    requires Inv(s) && s.dying && InPlay(s) && !s.flow.GameOver?
    ensures Inv(UpdateDeath(s, grounded, input)) && InPlay(UpdateDeath(s, grounded, input))
    ensures SameStage(s, UpdateDeath(s, grounded, input))
  {
    hide Tell, AllSound, RisingEnds, EndGame;
    if grounded && s.groundTimer + 1 >= SETTLE_STEPS {
      if s.lives == 1 {
        EndGameKeeps(s.(groundTimer := 0, lives := 0), input);
      } else {
        SettleKeeps(s);
      }
    }
  }

  lemma PlayerKeeps(s: Scene, input: Input, w: World)
    requires Inv(s) && Afoot(s)
    ensures Inv(UpdatePlayer(s, input, w)) && InPlay(UpdatePlayer(s, input, w))
    ensures SameStage(s, UpdatePlayer(s, input, w))
  {
    hide Tell, AllSound, RisingEnds, UpdateDeath, FireBlaster, ThrowGrenade;
    if s.dying {
      DeathKeeps(LatchWeapons(s, input), w.grounded, input);
    } else {
      var s1 := s.(groundTimer := 0);
      BlasterKeeps(s1, input);
      GrenadeKeeps(FireBlaster(s1, input), input, w.grenadeInFlight);
    }
  }

  // The boundary

  /** Between the award and the next screen the zone itself may have paid. */
  ghost predicate BehindOrHere(s: Scene) {
    forall i :: 0 <= i < |Tell(s.trace).paid| ==> Tell(s.trace).paid[i] <= s.zone
  }

  /** One clause record after the other, until nothing is due. */
  lemma {:induction false} ComponentsKeep(s: Scene, components: seq<AwardComponent>, n: nat)
    requires CoreOwing(s, s.lives, None, components) && n <= |components|
    requires Tell(s.trace).paid != [] && Tell(s.trace).paid[|Tell(s.trace).paid| - 1] == s.zone
    requires s.zone in STAGE_END_ZONES
    requires forall i :: 0 <= i < |components| ==> 0 <= components[i].points <= 10_000
    ensures var s1 := EmitComponents(s, s.zone, components[..n]);
            && CoreOwing(s1, s.lives, None, components[n..]) && s1.(trace := s.trace) == s
            && SamePaid(s, s1) && Tell(s1.trace).suited == Tell(s.trace).suited
  {
    hide Tell, AllSound, RisingEnds;
    if n > 0 {
      ComponentsKeep(s, components, n - 1);
      assert components[..n][..n - 1] == components[..n - 1];
      var s1 := EmitComponents(s, s.zone, components[..n - 1]);
      TellMore(s1.trace, StageComponent(s.zone, components[n - 1].id, components[n - 1].points));
    }
  }

  /** `s1` is `s` after a boundary worth `value`, but for the high score, the ledger and the records. */
  ghost predicate Paid(s: Scene, s1: Scene, value: int, lives: int) {
    && s1 == s.(points := Capped(s.points + value), lives := lives, ammo := STARTING_AMMO,
                grenades := STARTING_GRENADES, suit := false, highScore := s1.highScore,
                savedHighScore := s1.savedHighScore, ledger := s1.ledger, trace := s1.trace)
    && Tell(s1.trace).paidPoints == Tell(s.trace).paidPoints + value
    && Tell(s1.trace).suited == Tell(s.trace).suited && Tell(s1.trace).stored == Tell(s.trace).stored
    && s1.ledger.stageStartStep == s.ledger.stageStartStep
  }

  /** The score is paid and the suit comes off; the latch stays for the bravery clause. */
  lemma PayKeeps(s: Scene, value: int, lives: int)
    requires Core(s) && !s.flow.GameOver? && Fee(Tell(s.trace), value, Boundary) && 1 <= lives <= 9
    ensures var s1 := AwardPoints(s, value, Boundary);
            var s2 := s1.(lives := lives, ammo := STARTING_AMMO, grenades := STARTING_GRENADES);
            var s3 := SetSuit(s2, false, StageBoundary);
            && CoreOwing(s3, s.lives, Some(value), []) && Paid(s, s3, value, lives)
            && s3.ledger == s.ledger && Tell(s3.trace).paid == Tell(s.trace).paid
  {
    hide Tell, AllSound, RisingEnds, AwardPoints;
    Scored(s, value, Boundary);
    var s2 := AwardPoints(s, value, Boundary).(lives := lives, ammo := STARTING_AMMO, grenades := STARTING_GRENADES);
    TellMore(s2.trace, SuitChanged(false, StageBoundary));
  }

  lemma PointsRecorded(s: Scene, total: int, livesBefore: int, livesAfter: int)
    requires CoreOwing(s, livesBefore, Some(total), []) && !s.flow.GameOver? && !s.flow.Title?
    requires s.lives == livesAfter
    requires Sound(Tell(s.trace), StagePoints(s.zone, total, livesBefore, livesAfter))
    requires RisingEnds(Tell(s.trace).paid + [s.zone])
    ensures var s1 := Emit(s, StagePoints(s.zone, total, livesBefore, livesAfter));
            && CoreOwing(s1, s.lives, None, Clauses(Tell(s.trace), total))
            && Tell(s1.trace).paid == Tell(s.trace).paid + [s.zone]
            && Tell(s1.trace).paidPoints == Tell(s.trace).paidPoints
            && Tell(s1.trace).suited == Tell(s.trace).suited && Tell(s1.trace).stored == Tell(s.trace).stored
  {
    hide Tell, AllSound, RisingEnds;
    TellMore(s.trace, StagePoints(s.zone, total, livesBefore, livesAfter));
  }

  /** What the ledger prices is what the events say a boundary pays. */
  lemma PricedIsDue(s: Scene)
    requires Core(s) && !s.flow.GameOver?
    ensures var components := Priced(WAVE_D, s.lives, ContextAt(s.ledger, s.step));
            && Fee(Tell(s.trace), Total(components), Boundary)
            && components == Clauses(Tell(s.trace), Total(components))
            && forall i :: 0 <= i < |components| ==> 0 <= components[i].points <= 10_000
  {
    hide Tell, AllSound, RisingEnds, Total;
    FullAwardTotal(s.lives, ContextAt(s.ledger, s.step));
  }

  lemma AwardApplied(s: Scene, award: Award)
    requires Core(s) && Behind(s) && (s.flow.Playing? || s.flow.Respawning?)
    requires s.zone in STAGE_END_ZONES && s.zone !in Tell(s.trace).paid
    requires award.components == Priced(WAVE_D, s.lives, ContextAt(s.ledger, s.step))
    requires award.livesBefore == s.lives && award.livesAfter == if s.lives + 1 < 9 then s.lives + 1 else 9
    requires award.startingAmmo == STARTING_AMMO && award.startingGrenades == STARTING_GRENADES
    ensures var s1 := ApplyAward(s, award);
            && Core(s1) && Paid(s, s1, Total(award.components), award.livesAfter)
            && s1.ledger == s.ledger && Tell(s1.trace).paid == Tell(s.trace).paid + [s.zone]
  {
    hide Tell, AllSound, EmitComponents, Total, AwardPoints, SetSuit, CoreOwing, Clauses, Fee, Priced;
    var total := Total(award.components);
    RisingOf(s);
    PricedIsDue(s);
    PayKeeps(s, total, award.livesAfter);
    var s3 := SetSuit(AwardPoints(s, total, Boundary).(lives := award.livesAfter, ammo := award.startingAmmo,
                                                       grenades := award.startingGrenades), false, StageBoundary);
    RisingMore(Tell(s.trace).paid, s.zone);
    SameClauses(s, s3, total);
    PointsRecorded(s3, total, award.livesBefore, award.livesAfter);
    var s4 := Emit(s3, StagePoints(s.zone, total, award.livesBefore, award.livesAfter));
    ComponentsKeep(s4, award.components, |award.components|);
    assert award.components[..|award.components|] == award.components;
    assert award.components[|award.components|..] == [];
  }

  lemma RisingOf(s: Scene)
    requires Core(s)
    ensures RisingEnds(Tell(s.trace).paid)
    ensures !s.flow.GameOver? ==> 1 <= s.lives <= 9 && s.ledger.took == Tell(s.trace).suited
  {
    hide Tell, AllSound, RisingEnds;
  }

  /** Between the score and its record the story changes only in what it owes. */
  lemma SameClauses(s: Scene, s3: Scene, total: int)
    requires Core(s) && !s.flow.GameOver? && CoreOwing(s3, s.lives, Some(total), []) && s3.flow == s.flow
    requires Tell(s3.trace).suited == Tell(s.trace).suited && Fee(Tell(s.trace), total, Boundary)
    ensures Clauses(Tell(s3.trace), total) == Clauses(Tell(s.trace), total)
    ensures Fee(Tell(s3.trace), total, Boundary)
    ensures Tell(s3.trace).owed == Some(total) && Tell(s3.trace).lives == s.lives && Tell(s3.trace).zone == s3.zone
  {
    hide Tell, AllSound, RisingEnds;
  }

  lemma RisingMore(paid: seq<int>, zone: int)
    requires RisingEnds(paid) && zone in STAGE_END_ZONES
    requires forall i :: 0 <= i < |paid| ==> paid[i] < zone
    ensures RisingEnds(paid + [zone])
  {
  }

  /** A boundary pays exactly at a stage end that has not paid. */
  ghost predicate Pays(s: Scene) {
    s.zone in STAGE_END_ZONES && s.zone !in Tell(s.trace).paid
  }

  /** What a stage end pays: lives, bravery and the ladder slot of the stage clock. */
  function StagePay(s: Scene): int {
    s.lives * 1_000 + Bravery(s.ledger.took) + Points(TimedPhaseLadder, s.lives, ContextAt(s.ledger, s.step))
  }

  /** All that the boundary does at a reachable exit. */
  ghost predicate Settled(s: Scene, s1: Scene) {
    if Pays(s) then
      && Paid(s, s1, StagePay(s), if s.lives < 9 then s.lives + 1 else 9)
      && Tell(s1.trace).paid == Tell(s.trace).paid + [s.zone]
    else if s.zone in STAGE_END_ZONES then
      s.zone == LAST_ZONE && s1 == Emit(s, BoundarySuppressed(s.zone, AlreadyAwarded)) && SamePaid(s, s1)
    else s1 == s
  }

  lemma BoundaryKeeps(s: Scene)
    requires Inv(s) && (s.flow.Playing? || s.flow.Respawning?)
    ensures var s1 := ApplyBoundary(s);
            Core(s1) && CountsFit(s1) && BehindOrHere(s1) && Settled(s, s1)
  {
    hide Tell, AllSound, RisingEnds, ApplyAward, Charge, Priced;
    var (ledger, outcome) := BoundaryDecision(s);
    match outcome
    case NotApplicable =>
    case Suppressed(zone, why) =>
      TellMore(s.trace, BoundarySuppressed(zone, why));
    case Awarded(award) =>
      assert LivesTimes1000 in WAVE_D;
      assert WAVE_D[0] in WAVE_D && CountOf(s.ledger.counts, s.zone, WAVE_D[0]) == 0;
      var s1 := s.(ledger := ledger);
      assert ContextAt(s1.ledger, s1.step) == ContextAt(s.ledger, s.step);
      AwardApplied(s1, award);
      FullAwardTotal(s.lives, ContextAt(s.ledger, s.step));
      WaveDCharge(s.ledger.counts, s.zone, Tell(s.trace).paid);
  }

  lemma WaveDCharge(counts: Counts, zone: int, paid: seq<int>)
    requires forall z, c :: CountOf(counts, z, c) == if z in paid then 1 else 0
    requires zone !in paid
    ensures forall z, c :: CountOf(Charge(counts, zone, WAVE_D), z, c) == if z in paid + [zone] then 1 else 0
  {
    hide Charge;
    forall z, c ensures CountOf(Charge(counts, zone, WAVE_D), z, c) == if z in paid + [zone] then 1 else 0 {
      ChargeCounts(counts, zone, WAVE_D, z, c);
      WaveDHasEach(c);
      assert z in paid + [zone] <==> z in paid || z == zone;
      assert CountOf(counts, z, c) == if z in paid then 1 else 0;
    }
  }

  lemma WaveDHasEach(c: Component)
    ensures multiset(WAVE_D)[c] == 1
  {
    match c
    case LivesTimes1000 =>
    case BraveryNoExoskeleton =>
    case TimedPhaseLadder =>
  }

  /** Moving on changes none of the numbers a boundary sets. */
  ghost predicate SameNumbers(s: Scene, s1: Scene) {
    && s1.points == s.points && s1.lives == s.lives && s1.ammo == s.ammo && s1.grenades == s.grenades
    && s1.suit == s.suit && SamePaid(s, s1)
  }

  /** The stage begins on entering a stage-start zone, and on entering no other. */
  ghost predicate Entered(s: Scene, s1: Scene, zone: int) {
    && Tell(s1.trace).suited == (Tell(s.trace).suited && zone !in STAGE_START_ZONES)
    && s1.ledger.stageStartStep == if zone in STAGE_START_ZONES then s.step else s.ledger.stageStartStep
  }

  lemma EnterKeeps(s: Scene)
    requires Core(s) && CountsFit(s) && BehindOrHere(s) && s.zone < LAST_ZONE
    requires s.flow.Playing? || s.flow.Respawning?
    requires s.zone in STAGE_END_ZONES ==> !s.suit
    ensures var s1 := EnterZone(s, s.zone + 1);
            && Core(s1) && CountsFit(s1) && EndsBehind(s1) && SameNumbers(s, s1) && Entered(s, s1, s.zone + 1)
            && s1 == s.(zone := s.zone + 1, ledger := s1.ledger, trace := s1.trace)
  {
    hide Tell, AllSound, RisingEnds;
    TellMore(s.trace, ZoneEntered(s.zone + 1));
  }

  lemma TransitionKeeps(s: Scene, input: Input)
    requires Core(s) && CountsFit(s) && BehindOrHere(s) && s.zone < LAST_ZONE
    requires s.flow.Playing? || s.flow.Respawning?
    requires s.zone in STAGE_END_ZONES ==> !s.suit
    ensures var s1 := Transition(s, s.zone + 1, input);
            Inv(s1) && SameNumbers(s, s1) && Entered(s, s1, s.zone + 1) && s1.zone == s.zone + 1
  {
    hide Tell, AllSound, RisingEnds, SaveCheckpoint, EnterZone;
    EnterKeeps(s);
    var s1 := EnterZone(s, s.zone + 1);
    var s2 := Arrive(s1, input);
    assert Core(s2) && CountsFit(s2) && EndsBehind(s2);
    SaveKeeps(s2, s2.lives);
    SaveIsSmall(s2);
  }

  lemma SaveIsSmall(s: Scene)
    ensures var s1 := SaveCheckpoint(s);
            s1 == s.(checkpoint := s1.checkpoint, trace := s1.trace)
  {
  }

  lemma CompleteKeeps(s: Scene, input: Input)
    requires Core(s) && CountsFit(s) && BehindOrHere(s) && s.zone == LAST_ZONE
    requires s.flow.Playing? || s.flow.Respawning?
    ensures var s1 := CompleteContent(s, input);
            Inv(s1) && SameNumbers(s, s1) && SameStage(s, s1) && s1.zone == s.zone
  {
    hide Tell, AllSound, RisingEnds, SaveCheckpoint;
    var s1 := s.(flow := ContentComplete);
    SaveKeeps(s1, s1.lives);
    SaveIsSmall(s1);
  }

  lemma LeaveKeeps(s: Scene, input: Input)
    requires Inv(s) && (s.flow.Playing? || s.flow.Respawning?)
    ensures var s1, s2 := ApplyBoundary(s), LeaveScreen(s, input);
            && Inv(s2) && Settled(s, s1) && SameNumbers(s1, s2)
            && (if s.zone < LAST_ZONE then Entered(s1, s2, s.zone + 1) else SameStage(s1, s2))
            && s2.zone == if s.zone < LAST_ZONE then s.zone + 1 else LAST_ZONE
  {
    hide Tell, AllSound, RisingEnds, Core, ApplyBoundary, Transition, CompleteContent;
    BoundaryKeeps(s);
    assert 0 <= s.zone <= LAST_ZONE by { ZoneOf(s); }
    if s.zone < LAST_ZONE {
      TransitionKeeps(ApplyBoundary(s), input);
    } else {
      CompleteKeeps(ApplyBoundary(s), input);
    }
  }

  lemma ZoneOf(s: Scene)
    requires Core(s)
    ensures 0 <= s.zone <= LAST_ZONE
  {
    hide Tell, AllSound, RisingEnds;
  }

  lemma FadeKeeps(s: Scene)
    requires Inv(s) && Afoot(s)
    ensures Inv(FadeProtection(s)) && Afoot(FadeProtection(s)) && SameStage(s, FadeProtection(s))
    ensures FadeProtection(s) == s.(protection := FadeProtection(s).protection, flow := FadeProtection(s).flow)
  {
    hide Tell, AllSound, RisingEnds;
  }

  /** In a changing room a fresh press of UP puts on a suit that is off. */
  predicate SuitsUp(s: Scene, input: Input, w: World) {
    input.jump && !s.latches.jump && !s.dying && w.inBooth && !s.suit
  }

  /** From `s` to `s1` no stage begins and nothing is paid, and the suit is taken as the keys say. */
  ghost predicate Dressed(s: Scene, s1: Scene, input: Input, w: World) {
    && SamePaid(s, s1) && s1.ledger.stageStartStep == s.ledger.stageStartStep
    && Tell(s1.trace).suited == (Tell(s.trace).suited || SuitsUp(s, input, w))
  }

  lemma ContextKeeps(s: Scene, input: Input, w: World)
    requires Inv(s) && Afoot(s)
    ensures var s1 := UseContext(s, input, w);
            Inv(s1) && Afoot(s1) && Dressed(s, s1, input, w)
  {
    hide Tell, AllSound, RisingEnds, UseBooth;
    var s1 := s.(latches := s.latches.(jump := input.jump));
    assert Inv(s1);
    if !s1.dying { BoothKeeps(s1); }
  }

  lemma ApproachKeeps(s: Scene, input: Input, w: World)
    requires Inv(s) && Afoot(s)
    ensures var s1 := Approach(s, input, w);
            Inv(s1) && Dressed(s, s1, input, w) && (!s1.dying ==> s1.flow.Playing? || s1.flow.Respawning?)
  {
    hide Tell, AllSound, RisingEnds, MeetWorld, UpdatePlayer, UseContext, FadeProtection;
    FadeKeeps(s);
    ContextKeeps(FadeProtection(s), input, w);
    var s2 := UseContext(FadeProtection(s), input, w);
    PlayerKeeps(s2, input, w);
    var s3 := UpdatePlayer(s2, input, w);
    WorldKeeps(s3, w);
    SameAwardsKeepInv(s3, MeetWorld(s3, w));
  }

  lemma PlayKeeps(s: Scene, input: Input, w: World)
    requires Inv(s) && Afoot(s)
    ensures Inv(PlayStep(s, input, w))
  {
    hide Inv, Approach, LeaveScreen;
    ApproachKeeps(s, input, w);
    var s1 := Approach(s, input, w);
    if !s1.dying && w.pastExit { LeaveKeeps(s1, input); }
  }

  // Menus

  lemma PauseKeeps(s: Scene, input: Input)
    requires Inv(s)
    ensures Inv(PressPause(s, input))
  {
    hide Tell, AllSound, RisingEnds;
  }

  lemma TitleKeeps(s: Scene, input: Input)
    requires Inv(s) && s.flow.Title?
    ensures var s1 := BeginFromTitle(s, input);
            && Inv(s1) && SamePaid(s, s1) && Tell(s1.trace).suited == Tell(s.trace).suited
            && (s.checkpoint.None? ==> !Tell(s1.trace).suited)
            && s1.ledger.stageStartStep == if s.checkpoint.None? then s.step else s.ledger.stageStartStep
  {
    hide Tell, AllSound, RisingEnds, SaveCheckpoint;
    if s.checkpoint.None? {
      var s1 := BeginStage(s.(ledger := PlaythroughBegun(s.ledger)));
      var s2 := s1.(flow := Playing, latches := s1.latches.(menuFire := input.fire, fire := input.fire,
                                                            grenade := input.grenade, jump := input.jump));
      StartSaved(s2);
      SaveIsSmall(s2);
    }
  }

  /** The checkpoint that makes a new playthrough a legal state. */
  lemma StartSaved(s: Scene)
    requires Numbers(s) && AllSound(s.trace) && s.flow.Playing? && !s.dying && !s.suit && s.zone == 0
    requires Tell(s.trace) == OPENING.(lives := s.lives, paidPoints := Tell(s.trace).paidPoints, score := s.points,
                                       stored := Tell(s.trace).stored, high := s.highScore)
    requires Tell(s.trace).stored.Some? && Tell(s.trace).paidPoints <= 0 && !s.ledger.took && s.ledger.counts == map[]
    ensures Inv(SaveCheckpoint(s)) && SameStage(s, SaveCheckpoint(s))
  {
    hide Tell, AllSound;
    TellMore(s.trace, CheckpointSaved(s.zone, s.ammo, s.grenades, s.points, s.lives));
  }

  /** The records of a restart, up to its checkpoint. */
  lemma RestartTold(s: Scene) returns (told: seq<Event>)
    requires Inv(s)
    ensures AllSound(told)
    ensures Tell(told) == OPENING.(stored := Tell(s.trace).stored, high := s.highScore)
    ensures var t2 := s.trace + [RunRestarted(s.zone, s.points)] + [CheckpointCleared];
            told == if s.suit then t2 + [SuitChanged(false, Reset)] else t2
  {
    hide Tell, AllSound, RisingEnds;
    TellMore(s.trace, RunRestarted(s.zone, s.points));
    var t1 := s.trace + [RunRestarted(s.zone, s.points)];
    TellMore(t1, CheckpointCleared);
    var t2 := t1 + [CheckpointCleared];
    TellMore(t2, SuitChanged(false, Reset));
    told := if s.suit then t2 + [SuitChanged(false, Reset)] else t2;
  }

  lemma RestartKeeps(s: Scene, input: Input)
    requires Inv(s)
    ensures Inv(Restart(s, input))
    ensures Tell(Restart(s, input).trace).paid == [] && Tell(Restart(s, input).trace).paidPoints == 0
    ensures Tell(Restart(s, input).trace).stored == Tell(s.trace).stored
    ensures !Tell(Restart(s, input).trace).suited
    ensures Restart(s, input).step == s.step == Restart(s, input).ledger.stageStartStep
  {
    hide Tell, AllSound, RisingEnds, SaveCheckpoint;
    var t4 := RestartTold(s);
    var ledger := StageStarted(PlaythroughBegun(s.ledger), s.step);
    var s5 := s.(checkpoint := None, ledger := ledger, zone := 0, ammo := STARTING_AMMO,
                 grenades := STARTING_GRENADES, points := 0, lives := STARTING_LIVES,
                 highScore := s.savedHighScore, suit := false, trace := t4, dying := false, protection := 0,
                 groundTimer := 0, flow := Playing, beforePause := Playing,
                 latches := Latches(input.fire, input.fire, input.menuUp, input.menuDown,
                                    input.jump, input.fire, input.grenade));
    assert Restart(s, input) == SaveCheckpoint(s5);
    StartSaved(s5);
    SaveIsSmall(s5);
  }

  lemma Latched(s: Scene, s1: Scene)
    requires Inv(s) && s1 == s.(menuIndex := s1.menuIndex, latches := s1.latches, invulnerable := s1.invulnerable)
    ensures Inv(s1)
  {
    hide Tell, AllSound, RisingEnds;
  }

  lemma Counted(s: Scene)
    requires Inv(s)
    ensures Inv(s.(step := s.step + 1))
  {
    hide Tell, AllSound, RisingEnds;
  }

  lemma PausedKeeps(s: Scene, input: Input)
    requires Inv(s) && s.flow.Paused?
    ensures Inv(PauseMenu(s, input))
  {
    hide Inv, Restart;
    var moves := (input.menuUp && !s.latches.menuUp) || (input.menuDown && !s.latches.menuDown);
    var chosen := s.(menuIndex := if !moves then s.menuIndex else if s.menuIndex == 0 then 1 else 0,
                     latches := s.latches.(menuUp := input.menuUp, menuDown := input.menuDown,
                                           confirm := input.fire));
    Latched(s, chosen);
    Latched(chosen, chosen.(invulnerable := !chosen.invulnerable));
    RestartKeeps(chosen, input);
  }

  lemma StepKeeps(s0: Scene, input: Input, w: World)
    requires Inv(s0)
    ensures Inv(FixedStep(s0, input, w))
  {
    hide Tell, AllSound, RisingEnds, PlayStep, Restart, BeginFromTitle, PressPause, PauseMenu, Inv;
    Counted(s0);
    var s := s0.(step := s0.step + 1);
    var menu := s.(latches := s.latches.(menuFire := input.fire));
    Latched(s, menu);
    if input.pausePress {
      PauseKeeps(s, input);
    } else {
      match s.flow
      case Title => TitleKeeps(menu, input);
      case Paused => PausedKeeps(s, input);
      case GameOver => RestartKeeps(menu, input);
      case ContentComplete => TitleAgain(menu);
      case _ => PlayKeeps(s, input, w);
    }
  }

  lemma TitleAgain(s: Scene)
    requires Inv(s) && s.flow.ContentComplete?
    ensures Inv(ShowTitle(s)) && SameStage(s, ShowTitle(s))
  {
    hide Tell, AllSound, RisingEnds;
    TellMore(s.trace, TitleEntered(s.highScore, s.checkpoint.Some?));
  }

  lemma LaunchKeeps(stored: nat)
    ensures Inv(Launch(stored)) && Tell(Launch(stored).trace).stored == Some(stored)
  {
    TellMore([], CheckpointCleared);
    TellMore([] + [CheckpointCleared], TitleEntered(stored, false));
    assert Launch(stored).trace == [] + [CheckpointCleared] + [TitleEntered(stored, false)];
  }

  lemma {:induction false} SessionKeeps(stored: nat, inputs: seq<(Input, World)>, states: seq<Scene>, n: nat)
    requires IsSession(stored, inputs, states) && n <= |inputs|
    ensures Inv(states[n])
  {
    if n == 0 {
      LaunchKeeps(stored);
    } else {
      SessionKeeps(stored, inputs, states, n - 1);
      StepKeeps(states[n - 1], inputs[n - 1].0, inputs[n - 1].1);
      assert states[(n - 1) + 1] == FixedStep(states[n - 1], inputs[n - 1].0, inputs[n - 1].1);
    }
  }
}
