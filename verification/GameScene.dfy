/** The scene object: its fields, the step methods that change them, and the ledger it drives. Every
    method is proved equal to the corresponding function of `SceneModel`, so that whatever is proved
    of the model's sessions holds of the object; the lemmas at the end say what a boundary leaves
    alone. */
module GameScene {
  import opened Basics
  import opened Ledger
  import opened SceneModel

  class Game {
    const stageBoundaries: StageBoundaryLedger

    var flow: Flow
    var beforePause: Flow
    var points: int
    var lives: int
    var ammo: int
    var grenades: int
    var zone: int
    var highScore: int
    var savedHighScore: int
    var hasExoskeleton: bool
    var isDying: bool
    var protection: nat
    var deathGroundTimer: nat
    var checkpoint: Option<Checkpoint>
    var stepCount: nat
    var testInvulnerability: bool
    var pauseSelectedIndex: nat
    var latches: Latches
    /** What the event sink received. */
    var events: seq<Event>

    ghost function View(): Scene
      reads this, stageBoundaries
    {
      Scene(flow, beforePause, points, lives, ammo, grenades, zone, highScore, savedHighScore,
            hasExoskeleton, isDying, protection, deathGroundTimer, checkpoint, stepCount,
            stageBoundaries.View(), testInvulnerability, pauseSelectedIndex, latches, events)
    }

    ghost predicate Valid() {
      stageBoundaries.stageEndZones == STAGE_END_ZONES && stageBoundaries.awardsPerComponentPerZone == 1
    }

    constructor (storedHighScore: nat)
      ensures Valid() && fresh(stageBoundaries) && View() == Launch(storedHighScore)
    {
      stageBoundaries := new StageBoundaryLedger(STAGE_END_ZONES, WAVE_D, 1);
      flow, beforePause := Title, Playing;
      points, lives, ammo, grenades, zone := 0, STARTING_LIVES, STARTING_AMMO, STARTING_GRENADES, 0;
      highScore, savedHighScore := storedHighScore, storedHighScore;
      hasExoskeleton, isDying, protection, deathGroundTimer := false, false, 0, 0;
      checkpoint, stepCount, testInvulnerability, pauseSelectedIndex := None, 0, false, 0;
      latches := Latches(false, false, false, false, false, false, false);
      events := [CheckpointCleared, TitleEntered(storedHighScore, false)];
    }

    method Send(e: Event)
      modifies `events
      ensures View() == Emit(old(View()), e)
    {
      events := events + [e];
    }

    method RaiseHighScore()
      modifies `highScore, `savedHighScore, `events
      ensures View() == SceneModel.RaiseHighScore(old(View()))
    {
      if points > highScore {
        highScore := points;
        savedHighScore := highScore;
        Send(HighScoreSaved(highScore));
      }
    }

    /** Points enter the score here and nowhere else. */
    method AwardPoints(value: int, reason: ScoreReason)
      modifies `points, `highScore, `savedHighScore, `events
      ensures View() == SceneModel.AwardPoints(old(View()), value, reason)
    {
      hide SceneModel.RaiseHighScore;
      if value <= 0 { return; }
      var before := points;
      points := if points + value < SCORE_CEILING then points + value else SCORE_CEILING;
      Send(ScoreAwarded(value, before, reason));
      RaiseHighScore();
    }

    method SetExoskeleton(enabled: bool, cause: SuitCause)
      modifies `hasExoskeleton, `events
      ensures View() == SetSuit(old(View()), enabled, cause)
    {
      if hasExoskeleton == enabled { return; }
      hasExoskeleton := enabled;
      Send(SuitChanged(enabled, cause));
    }

    method UseChangingRoom()
      modifies `hasExoskeleton, `events, stageBoundaries
      ensures View() == UseBooth(old(View()))
    {
      hasExoskeleton := !hasExoskeleton;
      Send(SuitChanged(hasExoskeleton, ChangingRoom));
      if hasExoskeleton {
        stageBoundaries.NoteExoskeletonActivated(stepCount);
      }
    }

    method SaveCheckpoint()
      modifies `checkpoint, `events
      ensures View() == SceneModel.SaveCheckpoint(old(View()))
    {
      checkpoint := Some(Checkpoint(zone, ammo, grenades, points, lives));
      Send(CheckpointSaved(zone, ammo, grenades, points, lives));
    }

    method StartStage()
      modifies stageBoundaries
      ensures View() == BeginStage(old(View()))
    {
      stageBoundaries.NoteStageStarted(stepCount);
    }

    // Leaving a screen

    method ApplyStageBoundary()
      requires Valid()
      modifies this, stageBoundaries
      ensures View() == ApplyBoundary(old(View()))
    {
      var context := ContextAt(stageBoundaries.View(), stepCount);
      var outcome := stageBoundaries.DecideOutcome(zone, lives, MAX_LIVES, STARTING_AMMO, STARTING_GRENADES,
                                                   context, WAVE_D);
      match outcome {
        case NotApplicable =>
        case Suppressed(completed, reason) => Send(BoundarySuppressed(completed, reason));
        case Awarded(award) => PayAward(award);
      }
    }

    method PayAward(award: Award)
      modifies this
      ensures View() == ApplyAward(old(View()), award)
    {
      hide SceneModel.AwardPoints, SetSuit, EmitComponents;
      var total := Total(award.components);
      AwardPoints(total, Boundary);
      lives, ammo, grenades := award.livesAfter, award.startingAmmo, award.startingGrenades;
      SetExoskeleton(false, StageBoundary);
      Send(StagePoints(zone, total, award.livesBefore, award.livesAfter));
      SendComponents(award.components);
      AwardStays(old(View()), award);
    }

    method SendComponents(components: seq<AwardComponent>)
      modifies `events
      ensures View() == EmitComponents(old(View()), zone, components)
    {
      for i := 0 to |components|
        invariant View() == EmitComponents(old(View()), zone, components[..i])
      {
        assert components[..i + 1][..i] == components[..i];
        Send(StageComponent(zone, components[i].id, components[i].points));
      }
      assert components[..|components|] == components;
    }

    method EnterZone(to: int)
      modifies `zone, `events, stageBoundaries
      ensures View() == SceneModel.EnterZone(old(View()), to)
    {
      zone := to;
      Send(ZoneEntered(to));
      if zone in STAGE_START_ZONES { StartStage(); }
    }

    method Arrive(input: Input)
      modifies `isDying, `protection, `flow, `deathGroundTimer, `latches
      ensures View() == SceneModel.Arrive(old(View()), input)
    {
      hide Revived;
      Revive();
      flow := Playing;
      latches := latches.(jump := false, fire := input.fire, grenade := input.grenade);
    }

    method Transition(to: int, input: Input)
      modifies this, stageBoundaries
      ensures View() == SceneModel.Transition(old(View()), to, input)
    {
      hide SceneModel.EnterZone, SceneModel.Arrive, SceneModel.SaveCheckpoint;
      EnterZone(to);
      Arrive(input);
      SaveCheckpoint();
    }

    method EnterContentComplete(input: Input)
      modifies this
      ensures View() == CompleteContent(old(View()), input)
    {
      flow := ContentComplete;
      SaveCheckpoint();
      latches := latches.(menuFire := input.fire);
    }

    method CheckScreenExit(pastExit: bool, input: Input)
      requires Valid()
      modifies this, stageBoundaries
      ensures View() == if pastExit then LeaveScreen(old(View()), input) else old(View())
    {
      if !pastExit { return; }
      var here := zone;
      assert ApplyBoundary(View()).zone == zone by { BoundaryStays(View()); }
      ApplyStageBoundary();
      if here < LAST_ZONE {
        Transition(here + 1, input);
      } else {
        EnterContentComplete(input);
      }
    }

    // Damage and death

    method HitPlayer()
      modifies this
      ensures View() == SceneModel.HitPlayer(old(View()))
    {
      if testInvulnerability || isDying || protection > 0 { return; }
      isDying, flow, deathGroundTimer := true, PlayerDead, 0;
      Send(DeathBegan(lives, ammo, grenades));
    }

    method CloseRun()
      modifies `flow, `protection, `checkpoint, `events, stageBoundaries
      ensures View() == SceneModel.CloseRun(old(View()))
    {
      flow, protection, checkpoint := GameOver, 0, None;
      stageBoundaries.EndPlaythrough();
      Send(CheckpointCleared);
    }

    method EnterGameOver(input: Input)
      modifies this, stageBoundaries
      ensures View() == EndGame(old(View()), input)
    {
      hide SceneModel.CloseRun, SceneModel.RaiseHighScore;
      CloseRun();
      RaiseHighScore();
      Send(GameEnded(points, highScore));
      latches := latches.(menuFire := input.fire);
    }

    method Refill()
      modifies `ammo, `grenades
      ensures View() == Refilled(old(View()))
    {
      ammo := STARTING_AMMO;
      grenades := STARTING_GRENADES;
    }

    method FinishDeathAndRespawn()
      modifies `ammo, `grenades, `isDying, `protection, `flow
      ensures View() == Respawn(old(View()))
    {
      hide Refilled;
      Refill();
      isDying := false;
      protection := PROTECTION_STEPS;
      flow := Respawning;
    }

    method UpdateDeathSequence(grounded: bool, input: Input)
      modifies this, stageBoundaries
      ensures View() == UpdateDeath(old(View()), grounded, input)
    {
      hide SceneModel.SettleDeath;
      if !grounded {
        deathGroundTimer := 0;
        return;
      }
      deathGroundTimer := deathGroundTimer + 1;
      if deathGroundTimer < SETTLE_STEPS { return; }
      deathGroundTimer := 0;
      SettleDeath(input);
    }

    method SettleDeath(input: Input)
      modifies this, stageBoundaries
      ensures View() == SceneModel.SettleDeath(old(View()), input)
    {
      hide EndGame, SceneModel.LiveOn;
      lives := if lives >= 1 then lives - 1 else 0;
      if lives == 0 {
        EnterGameOver(input);
      } else {
        LiveOn();
      }
    }

    method LiveOn()
      modifies this
      ensures View() == SceneModel.LiveOn(old(View()))
    {
      hide Respawn, SceneModel.SaveCheckpoint, Emit;
      var left := lives;
      FinishDeathAndRespawn();
      SaveCheckpoint();
      Send(DeathSettled(left + 1, left, checkpoint.Some?));
    }

    method FirePressed(input: Input)
      modifies this
      ensures View() == FireBlaster(old(View()), input)
    {
      if input.fire && !latches.fire && ammo > 0 {
        var before := ammo;
        ammo := ammo - 1;
        Send(BlasterShot(before, ammo));
      }
    }

    method GrenadePressed(input: Input, grenadeInFlight: bool)
      modifies this
      ensures View() == ThrowGrenade(old(View()), input, grenadeInFlight)
    {
      if input.grenade && !latches.grenade && grenades > 0 {
        var before := grenades;
        if !grenadeInFlight { grenades := grenades - 1; }
        Send(GrenadeThrown(before, grenades, grenadeInFlight));
      }
    }

    method UpdateWeapons(input: Input, grenadeInFlight: bool)
      modifies this
      ensures View() == LatchWeapons(ThrowGrenade(FireBlaster(old(View()), input), input, grenadeInFlight), input)
    {
      hide FireBlaster, ThrowGrenade;
      FirePressed(input);
      GrenadePressed(input, grenadeInFlight);
      latches := latches.(fire := input.fire, grenade := input.grenade);
    }

    method UpdateKills(kills: seq<Kill>)
      modifies this
      ensures View() == AwardKills(old(View()), kills)
    {
      ghost var before := View();
      for i := 0 to |kills|
        invariant View() == AwardKills(before, kills[..i])
      {
        assert kills[..i + 1][..i] == kills[..i];
        AwardPoints(KillPoints(kills[i]), KillReason(kills[i]));
      }
      assert kills[..|kills|] == kills;
    }

    method UpdatePickups(pickups: seq<bool>)
      modifies this
      ensures View() == CollectAll(old(View()), pickups)
    {
      ghost var start := View();
      for i := 0 to |pickups|
        invariant View() == CollectAll(start, pickups[..i])
      {
        assert pickups[..i + 1][..i] == pickups[..i];
        if pickups[i] {
          var before := ammo;
          ammo := STARTING_AMMO;
          Send(PickupCollected(true, before, ammo));
        } else {
          var before := grenades;
          grenades := STARTING_GRENADES;
          Send(PickupCollected(false, before, grenades));
        }
      }
      assert pickups[..|pickups|] == pickups;
    }

    method UpdateLethalEntities(w: World)
      modifies this
      ensures View() == FaceLethalEntities(old(View()), w)
    {
      hide SceneModel.HitPlayer, SceneModel.AwardPoints;
      if w.missileContact {
        HitPlayer();
        if isDying { return; }
      }
      var exposed := protection == 0 && !isDying;
      if exposed && !hasExoskeleton && w.mineContact { HitPlayer(); return; }
      if exposed && !hasExoskeleton && w.pistonContact { HitPlayer(); return; }
      if exposed && w.fieldContact { HitPlayer(); return; }
      if exposed && w.hazardContact { HitPlayer(); return; }
      if w.bubbleContact { AwardPoints(150, Bubble); HitPlayer(); return; }
      if w.eggContact { AwardPoints(50, Egg); HitPlayer(); return; }
    }

    method UpdateWorld(w: World)
      modifies this
      ensures View() == MeetWorld(old(View()), w)
    {
      hide SceneModel.HitPlayer, SceneModel.AwardPoints, AwardKills, CollectAll, FaceLethalEntities;
      UpdateKills(w.kills);
      if w.bulletContact && protection == 0 && !isDying { HitPlayer(); }
      UpdatePickups(w.pickups);
      if w.launcherBonus { AwardPoints(1_000, Launcher); }
      UpdateLethalEntities(w);
    }

    // The fixed step

    method FadeInvulnerability()
      modifies `protection, `flow
      ensures View() == FadeProtection(old(View()))
    {
      if protection > 0 {
        protection := protection - 1;
        if protection == 0 && flow.Respawning? { flow := Playing; }
      }
    }

    method UseContextKey(input: Input, w: World)
      modifies `latches, `hasExoskeleton, `events, stageBoundaries
      ensures View() == UseContext(old(View()), input, w)
    {
      var jumpJustPressed := input.jump && !latches.jump;
      latches := latches.(jump := input.jump);
      if jumpJustPressed && !isDying && w.inBooth { UseChangingRoom(); }
    }

    method UpdatePlayerState(input: Input, w: World)
      modifies this, stageBoundaries
      ensures View() == UpdatePlayer(old(View()), input, w)
    {
      hide UpdateDeath, FireBlaster, ThrowGrenade;
      if isDying {
        latches := latches.(fire := input.fire, grenade := input.grenade);
        UpdateDeathSequence(w.grounded, input);
      } else {
        deathGroundTimer := 0;
        UpdateWeapons(input, w.grenadeInFlight);
      }
    }

    method PlayingStep(input: Input, w: World)
      requires Valid()
      modifies this, stageBoundaries
      ensures View() == PlayStep(old(View()), input, w)
    {
      hide FadeProtection, UseContext, UpdatePlayer, MeetWorld, LeaveScreen;
      FadeInvulnerability();
      UseContextKey(input, w);
      UpdatePlayerState(input, w);
      UpdateWorld(w);
      if !isDying { CheckScreenExit(w.pastExit, input); }
    }

    method EnterPause(input: Input)
      modifies `beforePause, `flow, `pauseSelectedIndex, `latches
      ensures View() == SceneModel.EnterPause(old(View()), input)
    {
      beforePause := flow;
      flow := Paused;
      pauseSelectedIndex := 0;
      latches := latches.(confirm := input.fire, menuUp := input.menuUp, menuDown := input.menuDown);
    }

    method LeavePause(input: Input)
      modifies `flow, `latches
      ensures View() == SceneModel.LeavePause(old(View()), input)
    {
      flow := beforePause;
      latches := Latches(latches.menuFire, input.fire, input.menuUp, input.menuDown,
                         input.jump, input.fire, input.grenade);
    }

    method PausePressed(input: Input)
      modifies this
      ensures View() == PressPause(old(View()), input)
    {
      hide SceneModel.EnterPause, SceneModel.LeavePause;
      if flow.Playing? || flow.Respawning? {
        EnterPause(input);
      } else if flow.Paused? {
        LeavePause(input);
      }
    }

    method StartFromTitle(input: Input)
      modifies this, stageBoundaries
      ensures View() == BeginFromTitle(old(View()), input)
    {
      if checkpoint.None? {
        stageBoundaries.BeginPlaythrough();
        StartStage();
      }
      flow := Playing;
      latches := latches.(menuFire := input.fire, fire := input.fire, grenade := input.grenade, jump := input.jump);
      if checkpoint.None? { SaveCheckpoint(); }
    }

    method ShowTitleAfterContentComplete()
      modifies `flow, `events
      ensures View() == ShowTitle(old(View()))
    {
      flow := Title;
      Send(TitleEntered(highScore, checkpoint.Some?));
    }

    method ForgetRun()
      modifies `events, `checkpoint, `zone, stageBoundaries
      ensures View() == SceneModel.ForgetRun(old(View()))
    {
      Send(RunRestarted(zone, points));
      checkpoint := None;
      Send(CheckpointCleared);
      stageBoundaries.BeginPlaythrough();
      zone := 0;
      StartStage();
    }

    method ResetForNewGame()
      modifies `ammo, `grenades, `points, `lives, `highScore
      ensures View() == ResetNumbers(old(View()))
    {
      hide Refilled;
      Refill();
      points := 0;
      lives := STARTING_LIVES;
      highScore := savedHighScore;
    }

    method Revive()
      modifies `isDying, `protection, `deathGroundTimer
      ensures View() == Revived(old(View()))
    {
      isDying := false;
      protection := 0;
      deathGroundTimer := 0;
    }

    method ResetFlow(input: Input)
      modifies this
      ensures View() == SceneModel.ResetFlow(old(View()), input)
    {
      hide Revived;
      Revive();
      flow := Playing;
      beforePause := Playing;
      latches := Latches(input.fire, input.fire, input.menuUp, input.menuDown, input.jump, input.fire, input.grenade);
    }

    method RestartFromBeginning(input: Input)
      modifies this, stageBoundaries
      ensures View() == Restart(old(View()), input)
    {
      hide SceneModel.ForgetRun, ResetNumbers, SetSuit, SceneModel.ResetFlow, SceneModel.SaveCheckpoint;
      ForgetRun();
      ResetForNewGame();
      SetExoskeleton(false, Reset);
      ResetFlow(input);
      SaveCheckpoint();
    }

    method PauseMenuStep(input: Input)
      modifies this, stageBoundaries
      ensures View() == PauseMenu(old(View()), input)
    {
      hide Restart;
      var moves := (input.menuUp && !latches.menuUp) || (input.menuDown && !latches.menuDown);
      if moves { pauseSelectedIndex := if pauseSelectedIndex == 0 then 1 else 0; }
      var confirmed := input.fire && !latches.confirm;
      latches := latches.(menuUp := input.menuUp, menuDown := input.menuDown, confirm := input.fire);
      if confirmed {
        if pauseSelectedIndex == 0 {
          RestartFromBeginning(input);
        } else {
          testInvulnerability := !testInvulnerability;
        }
      }
    }

    method FixedUpdate(input: Input, w: World)
      requires Valid()
      modifies this, stageBoundaries
      ensures View() == FixedStep(old(View()), input, w)
    {
      hide PlayStep, Restart, PauseMenu, PressPause, BeginFromTitle;
      stepCount := stepCount + 1;
      if input.pausePress {
        PausePressed(input);
        return;
      }
      var fireJustPressed := input.fire && !latches.menuFire;
      match flow {
        case Title =>
          latches := latches.(menuFire := input.fire);
          if fireJustPressed { StartFromTitle(input); }
        case Paused => PauseMenuStep(input);
        case GameOver =>
          latches := latches.(menuFire := input.fire);
          if fireJustPressed { RestartFromBeginning(input); }
        case ContentComplete =>
          latches := latches.(menuFire := input.fire);
          if fireJustPressed { ShowTitleAfterContentComplete(); }
        case _ => PlayingStep(input, w);
      }
    }
  }

  /** The boundary never moves the player to another screen. */
  lemma BoundaryStays(s: Scene)
    ensures ApplyBoundary(s).zone == s.zone
  {
    var (ledger, outcome) := BoundaryDecision(s);
    if outcome.Awarded? { AwardStays(s.(ledger := ledger), outcome.award); }
  }

  lemma AwardStays(s: Scene, award: Award)
    ensures ApplyAward(s, award).zone == s.zone
  {
    var total := Total(award.components);
    var s3 := SetSuit(SceneModel.AwardPoints(s, total, Boundary).(lives := award.livesAfter, ammo := award.startingAmmo,
                                                        grenades := award.startingGrenades), false, StageBoundary);
    ComponentsStay(Emit(s3, StagePoints(s.zone, total, award.livesBefore, award.livesAfter)), s.zone, award.components);
  }

  lemma {:induction false} ComponentsStay(s: Scene, zone: int, components: seq<AwardComponent>)
    ensures EmitComponents(s, zone, components).zone == s.zone
  {
    if components != [] { ComponentsStay(s, zone, components[..|components| - 1]); }
  }
}
