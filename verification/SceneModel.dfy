/** One game as a step machine: flow states, score, lives, suit, checkpoint and stage ledger, with
    the events the scene emits. Durations are whole fixed steps. */
module SceneModel {
  import opened Basics
  import opened Ledger

  const STARTING_AMMO := 99
  const STARTING_GRENADES := 10
  const STARTING_LIVES := 9
  const SCORE_CEILING := 999_999
  const LAST_ZONE := 124
  /** 0.4 s and 70/60 s at sixty steps a second. */
  const PROTECTION_STEPS := 24
  const SETTLE_STEPS := 70

  datatype Flow = Title | Playing | Paused | PlayerDead | Respawning | GameOver | ContentComplete

  datatype SuitCause = ChangingRoom | Cheat | Reset | StageBoundary

  datatype ScoreReason = Shotdown | Bubble | Egg | ForceField | GrenadeKill | Guidance | Launcher | Boundary

  datatype Event =
    | TitleEntered(highScore: int, saved: bool)
    | ScoreAwarded(points: int, before: int, reason: ScoreReason)
    | HighScoreSaved(value: int)
    | RunRestarted(zone: int, discarded: int)
    | CheckpointSaved(zone: int, ammo: int, grenades: int, points: int, lives: int)
    | CheckpointCleared
    | StagePoints(zone: int, points: int, livesBefore: int, livesAfter: int)
    | StageComponent(zone: int, id: Component, points: int)
    | BoundarySuppressed(zone: int, why: Suppression)
    | SuitChanged(enabled: bool, cause: SuitCause)
    | ZoneEntered(zone: int)
    | BlasterShot(ammoBefore: int, ammoAfter: int)
    | GrenadeThrown(grenadesBefore: int, grenadesAfter: int, blocked: bool)
    | PickupCollected(isAmmo: bool, before: int, after: int)
    | DeathBegan(lives: int, ammo: int, grenades: int)
    | DeathSettled(livesBefore: int, livesAfter: int, saved: bool)
    | GameEnded(points: int, highScore: int)

  datatype Checkpoint = Checkpoint(zone: int, ammo: int, grenades: int, points: int, lives: int)

  /** What the previous step saw of the keys the scene edge-detects. */
  datatype Latches = Latches(menuFire: bool, confirm: bool, menuUp: bool, menuDown: bool,
                             jump: bool, fire: bool, grenade: bool)

  datatype Scene = Scene(
    flow: Flow, beforePause: Flow, points: int, lives: int, ammo: int, grenades: int, zone: int,
    highScore: int, savedHighScore: int, suit: bool, dying: bool, protection: nat, groundTimer: nat,
    checkpoint: Option<Checkpoint>, step: nat, ledger: LedgerState, invulnerable: bool,
    menuIndex: nat, latches: Latches, trace: seq<Event>)

  datatype Input = Input(pausePress: bool, fire: bool, grenade: bool, jump: bool, menuUp: bool, menuDown: bool)

  datatype Kill = ShotDown | BubbleShot | EggShot | FieldDestroyed | BlownUp | GuidanceDestroyed(missileInFlight: bool)

  /** What the level reports for one step: contacts, kills and the exit. */
  datatype World = World(
    inBooth: bool, grounded: bool, grenadeInFlight: bool, kills: seq<Kill>, bulletContact: bool,
    pickups: seq<bool>, launcherBonus: bool, missileContact: bool, mineContact: bool,
    pistonContact: bool, fieldContact: bool, hazardContact: bool, bubbleContact: bool,
    eggContact: bool, pastExit: bool)

  function KillPoints(kill: Kill): int {
    match kill
    case ShotDown => 50
    case BubbleShot => 150
    case EggShot => 50
    case FieldDestroyed => 1_000
    case BlownUp => 150
    case GuidanceDestroyed(missile) => 150 + if missile then 850 else 0
  }

  function KillReason(kill: Kill): ScoreReason {
    match kill
    case ShotDown => Shotdown
    case BubbleShot => Bubble
    case EggShot => Egg
    case FieldDestroyed => ForceField
    case BlownUp => GrenadeKill
    case GuidanceDestroyed(_) => Guidance
  }

  function Launch(storedHighScore: nat): Scene {
    Scene(Title, Playing, 0, STARTING_LIVES, STARTING_AMMO, STARTING_GRENADES, 0,
          storedHighScore, storedHighScore, false, false, 0, 0, None, 0, NewLedger(), false, 0,
          Latches(false, false, false, false, false, false, false),
          [CheckpointCleared, TitleEntered(storedHighScore, false)])
  }

  function Emit(s: Scene, e: Event): Scene {
    s.(trace := s.trace + [e])
  }

  // Score, suit, checkpoint

  function RaiseHighScore(s: Scene): Scene {
    if s.points > s.highScore
    then Emit(s.(highScore := s.points, savedHighScore := s.points), HighScoreSaved(s.points))
    else s
  }

  function AwardPoints(s: Scene, value: int, reason: ScoreReason): Scene {
    if value <= 0 then s
    else
      var total := if s.points + value < SCORE_CEILING then s.points + value else SCORE_CEILING;
      RaiseHighScore(Emit(s.(points := total), ScoreAwarded(value, s.points, reason)))
  }

  function SetSuit(s: Scene, enabled: bool, cause: SuitCause): Scene {
    if s.suit == enabled then s else Emit(s.(suit := enabled), SuitChanged(enabled, cause))
  }

  /** UP inside a changing room: the suit toggles, and putting it on arms the stage latch. */
  function UseBooth(s: Scene): Scene {
    var s1 := Emit(s.(suit := !s.suit), SuitChanged(!s.suit, ChangingRoom));
    if s1.suit then s1.(ledger := SuitActivated(s1.ledger, s1.step)) else s1
  }

  function SaveCheckpoint(s: Scene): Scene {
    Emit(s.(checkpoint := Some(Checkpoint(s.zone, s.ammo, s.grenades, s.points, s.lives))),
         CheckpointSaved(s.zone, s.ammo, s.grenades, s.points, s.lives))
  }

  function BeginStage(s: Scene): Scene {
    s.(ledger := StageStarted(s.ledger, s.step))
  }

  // The stage boundary

  function BoundaryDecision(s: Scene): (LedgerState, Outcome) {
    Decide(s.ledger, STAGE_END_ZONES, 1, s.zone, s.lives, MAX_LIVES, STARTING_AMMO, STARTING_GRENADES,
           ContextAt(s.ledger, s.step), WAVE_D)
  }

  function EmitComponents(s: Scene, zone: int, components: seq<AwardComponent>): Scene {
    if components == [] then s
    else
      var n := |components| - 1;
      Emit(EmitComponents(s, zone, components[..n]), StageComponent(zone, components[n].id, components[n].points))
  }

  function ApplyAward(s: Scene, award: Award): Scene {
    var s1 := AwardPoints(s, Total(award.components), Boundary);
    var s2 := s1.(lives := award.livesAfter, ammo := award.startingAmmo, grenades := award.startingGrenades);
    var s3 := SetSuit(s2, false, StageBoundary);
    var s4 := Emit(s3, StagePoints(s.zone, Total(award.components), award.livesBefore, award.livesAfter));
    EmitComponents(s4, s.zone, award.components)
  }

  function ApplyBoundary(s: Scene): Scene {
    var (ledger, outcome) := BoundaryDecision(s);
    match outcome
    case NotApplicable => s
    case Suppressed(zone, reason) => Emit(s, BoundarySuppressed(zone, reason))
    case Awarded(award) => ApplyAward(s.(ledger := ledger), award)
  }

  function EnterZone(s: Scene, zone: int): Scene {
    var s1 := Emit(s.(zone := zone), ZoneEntered(zone));
    if zone in STAGE_START_ZONES then BeginStage(s1) else s1
  }

  /** Normal screen entry: alive, unprotected, playing. */
  function Arrive(s: Scene, input: Input): Scene {
    Revived(s).(flow := Playing,
                latches := s.latches.(jump := false, fire := input.fire, grenade := input.grenade))
  }

  function Transition(s: Scene, zone: int, input: Input): Scene {
    SaveCheckpoint(Arrive(EnterZone(s, zone), input))
  }

  function CompleteContent(s: Scene, input: Input): Scene {
    SaveCheckpoint(s.(flow := ContentComplete)).(latches := s.latches.(menuFire := input.fire))
  }

  /** Leaving a screen: the boundary is settled first; the last zone has no successor. */
  function LeaveScreen(s: Scene, input: Input): Scene {
    var s1 := ApplyBoundary(s);
    if s.zone < LAST_ZONE then Transition(s1, s.zone + 1, input) else CompleteContent(s1, input)
  }

  // Damage and death

  function HitPlayer(s: Scene): Scene {
    if s.invulnerable || s.dying || s.protection > 0 then s
    else Emit(s.(dying := true, flow := PlayerDead, groundTimer := 0), DeathBegan(s.lives, s.ammo, s.grenades))
  }

  predicate Exposed(s: Scene) {
    s.protection == 0 && !s.dying
  }

  function CloseRun(s: Scene): Scene {
    Emit(s.(flow := GameOver, protection := 0, checkpoint := None, ledger := PlaythroughEnded(s.ledger)),
         CheckpointCleared)
  }

  function EndGame(s: Scene, input: Input): Scene {
    var s1 := RaiseHighScore(CloseRun(s));
    Emit(s1, GameEnded(s1.points, s1.highScore)).(latches := s1.latches.(menuFire := input.fire))
  }

  function Refilled(s: Scene): Scene {
    s.(ammo := STARTING_AMMO, grenades := STARTING_GRENADES)
  }

  function Respawn(s: Scene): Scene {
    Refilled(s).(dying := false, protection := PROTECTION_STEPS, flow := Respawning)
  }

  /** A death slide settles after seventy steps on the ground, and then costs a life. */
  function UpdateDeath(s: Scene, grounded: bool, input: Input): Scene {
    if !grounded then s.(groundTimer := 0)
    else if s.groundTimer + 1 < SETTLE_STEPS then s.(groundTimer := s.groundTimer + 1)
    else SettleDeath(s.(groundTimer := 0), input)
  }

  /** The slide is over: a life is paid, and it is the end or a respawn. */
  function SettleDeath(s: Scene, input: Input): Scene {
    var left := if s.lives >= 1 then s.lives - 1 else 0;
    var s1 := s.(lives := left);
    if left == 0 then EndGame(s1, input) else LiveOn(s1)
  }

  /** With a life left the player is back, and the game is saved. */
  function LiveOn(s: Scene): Scene {
    var s1 := SaveCheckpoint(Respawn(s));
    Emit(s1, DeathSettled(s.lives + 1, s.lives, s1.checkpoint.Some?))
  }

  function FireBlaster(s: Scene, input: Input): Scene {
    if input.fire && !s.latches.fire && s.ammo > 0
    then Emit(s.(ammo := s.ammo - 1), BlasterShot(s.ammo, s.ammo - 1))
    else s
  }

  function ThrowGrenade(s: Scene, input: Input, inFlight: bool): Scene {
    if input.grenade && !s.latches.grenade && s.grenades > 0
    then if inFlight
         then Emit(s, GrenadeThrown(s.grenades, s.grenades, true))
         else Emit(s.(grenades := s.grenades - 1), GrenadeThrown(s.grenades, s.grenades - 1, false))
    else s
  }

  function LatchWeapons(s: Scene, input: Input): Scene {
    s.(latches := s.latches.(fire := input.fire, grenade := input.grenade))
  }

  function AwardKills(s: Scene, kills: seq<Kill>): Scene {
    if kills == [] then s
    else
      var n := |kills| - 1;
      AwardPoints(AwardKills(s, kills[..n]), KillPoints(kills[n]), KillReason(kills[n]))
  }

  function Collect(s: Scene, isAmmo: bool): Scene {
    if isAmmo then Emit(s.(ammo := STARTING_AMMO), PickupCollected(true, s.ammo, STARTING_AMMO))
    else Emit(s.(grenades := STARTING_GRENADES), PickupCollected(false, s.grenades, STARTING_GRENADES))
  }

  function CollectAll(s: Scene, pickups: seq<bool>): Scene {
    if pickups == [] then s
    else Collect(CollectAll(s, pickups[..|pickups| - 1]), pickups[|pickups| - 1])
  }

  /** Lethal entities in the order the scene asks them; most of them end the questioning. */
  function FaceLethalEntities(s: Scene, w: World): Scene {
    var s1 := if w.missileContact then HitPlayer(s) else s;
    if w.missileContact && s1.dying then s1
    else if Exposed(s1) && !s1.suit && (w.mineContact || w.pistonContact) then HitPlayer(s1)
    else if Exposed(s1) && (w.fieldContact || w.hazardContact) then HitPlayer(s1)
    else if w.bubbleContact then HitPlayer(AwardPoints(s1, 150, Bubble))
    else if w.eggContact then HitPlayer(AwardPoints(s1, 50, Egg))
    else s1
  }

  // The step

  function FadeProtection(s: Scene): Scene {
    if s.protection == 0 then s
    else if s.protection > 1 then s.(protection := s.protection - 1)
    else s.(protection := 0, flow := if s.flow.Respawning? then Playing else s.flow)
  }

  function UseContext(s: Scene, input: Input, w: World): Scene {
    var s1 := s.(latches := s.latches.(jump := input.jump));
    if input.jump && !s.latches.jump && !s.dying && w.inBooth then UseBooth(s1) else s1
  }

  function UpdatePlayer(s: Scene, input: Input, w: World): Scene {
    if s.dying then UpdateDeath(LatchWeapons(s, input), w.grounded, input)
    else LatchWeapons(ThrowGrenade(FireBlaster(s.(groundTimer := 0), input), input, w.grenadeInFlight), input)
  }

  function MeetWorld(s: Scene, w: World): Scene {
    var s1 := AwardKills(s, w.kills);
    var s2 := if w.bulletContact && Exposed(s1) then HitPlayer(s1) else s1;
    var s3 := CollectAll(s2, w.pickups);
    var s4 := if w.launcherBonus then AwardPoints(s3, 1_000, Launcher) else s3;
    FaceLethalEntities(s4, w)
  }

  /** A playing step up to the question whether the screen is left. */
  function Approach(s: Scene, input: Input, w: World): Scene {
    MeetWorld(UpdatePlayer(UseContext(FadeProtection(s), input, w), input, w), w)
  }

  function PlayStep(s: Scene, input: Input, w: World): Scene {
    var s1 := Approach(s, input, w);
    if !s1.dying && w.pastExit then LeaveScreen(s1, input) else s1
  }

  function PressPause(s: Scene, input: Input): Scene {
    if s.flow.Playing? || s.flow.Respawning? then EnterPause(s, input)
    else if s.flow.Paused? then LeavePause(s, input)
    else s
  }

  function EnterPause(s: Scene, input: Input): Scene {
    s.(beforePause := s.flow, flow := Paused, menuIndex := 0,
       latches := s.latches.(confirm := input.fire, menuUp := input.menuUp, menuDown := input.menuDown))
  }

  function LeavePause(s: Scene, input: Input): Scene {
    s.(flow := s.beforePause,
       latches := Latches(s.latches.menuFire, input.fire, input.menuUp, input.menuDown,
                          input.jump, input.fire, input.grenade))
  }

  function BeginFromTitle(s: Scene, input: Input): Scene {
    var s1 := if s.checkpoint.None? then BeginStage(s.(ledger := PlaythroughBegun(s.ledger))) else s;
    var s2 := s1.(flow := Playing,
                  latches := s1.latches.(menuFire := input.fire, fire := input.fire,
                                         grenade := input.grenade, jump := input.jump));
    if s2.checkpoint.None? then SaveCheckpoint(s2) else s2
  }

  /** Back at the title with the game kept. */
  function ShowTitle(s: Scene): Scene {
    Emit(s.(flow := Title), TitleEntered(s.highScore, s.checkpoint.Some?))
  }

  function ForgetRun(s: Scene): Scene {
    var s1 := Emit(Emit(s, RunRestarted(s.zone, s.points)).(checkpoint := None), CheckpointCleared);
    BeginStage(s1.(ledger := PlaythroughBegun(s1.ledger), zone := 0))
  }

  function ResetNumbers(s: Scene): Scene {
    Refilled(s).(points := 0, lives := STARTING_LIVES, highScore := s.savedHighScore)
  }

  function Revived(s: Scene): Scene {
    s.(dying := false, protection := 0, groundTimer := 0)
  }

  function ResetFlow(s: Scene, input: Input): Scene {
    Revived(s).(flow := Playing, beforePause := Playing,
                latches := Latches(input.fire, input.fire, input.menuUp, input.menuDown,
                                   input.jump, input.fire, input.grenade))
  }

  function Restart(s: Scene, input: Input): Scene {
    SaveCheckpoint(ResetFlow(SetSuit(ResetNumbers(ForgetRun(s)), false, Reset), input))
  }

  function PauseMenu(s: Scene, input: Input): Scene {
    var moves := (input.menuUp && !s.latches.menuUp) || (input.menuDown && !s.latches.menuDown);
    var s1 := s.(menuIndex := if !moves then s.menuIndex else if s.menuIndex == 0 then 1 else 0,
                 latches := s.latches.(menuUp := input.menuUp, menuDown := input.menuDown, confirm := input.fire));
    if input.fire && !s.latches.confirm
    then if s1.menuIndex == 0 then Restart(s1, input) else s1.(invulnerable := !s1.invulnerable)
    else s1
  }

  /** One fixed step, counted before it runs. */
  function FixedStep(s0: Scene, input: Input, w: World): Scene {
    var s := s0.(step := s0.step + 1);
    var pressed := input.fire && !s.latches.menuFire;
    var menu := s.(latches := s.latches.(menuFire := input.fire));
    if input.pausePress then PressPause(s, input)
    else match s.flow
      case Title => if pressed then BeginFromTitle(menu, input) else menu
      case Paused => PauseMenu(s, input)
      case GameOver => if pressed then Restart(menu, input) else menu
      case ContentComplete => if pressed then ShowTitle(menu) else menu
      case _ => PlayStep(s, input, w)
  }

  /** `states[i]` is the scene after the first `i` steps of a session. */
  ghost predicate IsSession(stored: nat, inputs: seq<(Input, World)>, states: seq<Scene>) {
    && |states| == |inputs| + 1 && states[0] == Launch(stored)
    && forall i {:trigger inputs[i]} :: 0 <= i < |inputs| ==>
         states[i + 1] == FixedStep(states[i], inputs[i].0, inputs[i].1)
  }
}
