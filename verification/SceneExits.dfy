/** The other steps in closed form. Leaving a screen is its boundary, then the arrival; the title, a pause, the
    game over and the end of the content are a menu step each; and a pause, however long, changes nothing of
    the game. Every number of the scene and every record is given at once. */
module SceneExits {
  import opened Basics
  import opened Ledger
  import opened SceneModel
  import opened SceneLaws
  import opened SceneTheorems
  import opened SceneSteps

  // Leaving a screen

  function OneLifeMore(lives: int): int {
    if lives < 9 then lives + 1 else 9
  }

  /** The stage end's worth: lives, bravery and the timed bonus of the steps since the stage began. */
  function EndWorth(s: Scene): int {
    s.lives * 1_000 + (if s.ledger.took then 0 else 10_000) + TimedBonus(s.step - s.ledger.stageStartStep)
  }

  function EndTold(s: Scene): seq<Event> {
    Awards(s.points, s.highScore, [(EndWorth(s), Boundary)])
    + (if s.suit then [SuitChanged(false, StageBoundary)] else [])
    + [StagePoints(s.zone, EndWorth(s), s.lives, OneLifeMore(s.lives)),
       StageComponent(s.zone, LivesTimes1000, s.lives * 1_000),
       StageComponent(s.zone, BraveryNoExoskeleton, if s.ledger.took then 0 else 10_000),
       StageComponent(s.zone, TimedPhaseLadder, TimedBonus(s.step - s.ledger.stageStartStep))]
  }

  /** The boundary of a stage end that has not paid: but for the once-keys of the ledger. */
  function Rewarded(s: Scene): Scene {
    var total := Reach(s.points, EndWorth(s));
    s.(points := total, highScore := Higher(s.highScore, total), savedHighScore := Higher(s.highScore, total),
       lives := OneLifeMore(s.lives), ammo := 99, grenades := 10, suit := false, trace := s.trace + EndTold(s))
  }

  function PaidOut(s: Scene): Scene {
    Rewarded(s).(ledger := s.ledger.(counts := Charge(s.ledger.counts, s.zone, WAVE_D)))
  }

  /** The boundary of any screen. */
  function Bounded(s: Scene, pays: bool): Scene {
    if s.zone !in [24, 49, 74, 99, 124] then s
    else if pays then PaidOut(s)
    else s.(trace := s.trace + [BoundarySuppressed(s.zone, AlreadyAwarded)])
  }

  function Kept(s: Scene): Checkpoint {
    Checkpoint(s.zone, s.ammo, s.grenades, s.points, s.lives)
  }

  /** The next screen, entered alive, unprotected and playing, with the game saved. */
  function Arrived(s: Scene, input: Input): Scene {
    var zone := s.zone + 1;
    s.(zone := zone, flow := Playing, dying := false, protection := 0, groundTimer := 0,
       ledger := if zone in [0, 25, 50, 75, 100]
                 then s.ledger.(stageStartStep := s.step, took := false, activatedAt := None) else s.ledger,
       checkpoint := Some(Kept(s.(zone := zone))),
       latches := s.latches.(jump := false, fire := input.fire, grenade := input.grenade),
       trace := s.trace + [ZoneEntered(zone), CheckpointSaved(zone, s.ammo, s.grenades, s.points, s.lives)])
  }

  /** Past the last screen there is none. */
  function Completed(s: Scene, input: Input): Scene {
    s.(flow := ContentComplete, checkpoint := Some(Kept(s)), latches := s.latches.(menuFire := input.fire),
       trace := s.trace + [CheckpointSaved(s.zone, s.ammo, s.grenades, s.points, s.lives)])
  }

  function Left(s: Scene, input: Input, pays: bool): Scene {
    var b := Bounded(s, pays);
    if s.zone < 124 then Arrived(b, input) else Completed(b, input)
  }

  lemma LadderIsTimed(lives: int, ctx: Context, steps: nat)
    requires ctx.stageElapsedSteps == Some(steps)
    ensures Points(TimedPhaseLadder, lives, ctx) == TimedBonus(steps)
  {
  }

  lemma PaysExactly(s: Scene)
    requires Inv(s) && !s.flow.GameOver? && s.step >= s.ledger.stageStartStep && s.zone in STAGE_END_ZONES
    ensures var (ledger, outcome) := BoundaryDecision(s);
            var components := Priced(WAVE_D, s.lives, ContextAt(s.ledger, s.step));
            && (Pays(s) ==>
                  && ledger == s.ledger.(counts := Charge(s.ledger.counts, s.zone, WAVE_D))
                  && outcome.Awarded? && outcome.award.components == components
                  && outcome.award.livesBefore == s.lives && outcome.award.livesAfter == OneLifeMore(s.lives)
                  && outcome.award.startingAmmo == 99 && outcome.award.startingGrenades == 10)
            && (!Pays(s) ==> outcome == Suppressed(s.zone, AlreadyAwarded))
            && components == [AwardComponent(LivesTimes1000, s.lives * 1_000),
                              AwardComponent(BraveryNoExoskeleton, if s.ledger.took then 0 else 10_000),
                              AwardComponent(TimedPhaseLadder, TimedBonus(s.step - s.ledger.stageStartStep))]
            && Total(components) == EndWorth(s) && 1_000 <= EndWorth(s)
  {
    hide Tell, AllSound, RisingEnds, Charge, Total;
    assert LivesTimes1000 in WAVE_D;
    assert WAVE_D[0] in WAVE_D;
    FullAwardTotal(s.lives, ContextAt(s.ledger, s.step));
    LadderIsTimed(s.lives, ContextAt(s.ledger, s.step), s.step - s.ledger.stageStartStep);
  }

  lemma ComponentsTold(s: Scene, zone: int, components: seq<AwardComponent>)
    requires |components| == 3
    ensures EmitComponents(s, zone, components)
         == s.(trace := s.trace + [StageComponent(zone, components[0].id, components[0].points),
                                   StageComponent(zone, components[1].id, components[1].points),
                                   StageComponent(zone, components[2].id, components[2].points)])
  {
    var c0, c1, c2 := components[0], components[1], components[2];
    assert components[..2][..1] == components[..1] && components[..1][..0] == [];
    assert EmitComponents(s, zone, components[..0]) == s;
    assert EmitComponents(s, zone, components[..1]) == Emit(s, StageComponent(zone, c0.id, c0.points));
    assert EmitComponents(s, zone, components[..2])
        == Emit(Emit(s, StageComponent(zone, c0.id, c0.points)), StageComponent(zone, c1.id, c1.points));
    assert s.trace + [StageComponent(zone, c0.id, c0.points)] + [StageComponent(zone, c1.id, c1.points)]
             + [StageComponent(zone, c2.id, c2.points)]
        == s.trace + [StageComponent(zone, c0.id, c0.points), StageComponent(zone, c1.id, c1.points),
                      StageComponent(zone, c2.id, c2.points)];
  }

  lemma AppliesInOne(s: Scene, award: Award)
    requires ScoreFits(s) && award.components == [AwardComponent(LivesTimes1000, s.lives * 1_000),
                              AwardComponent(BraveryNoExoskeleton, if s.ledger.took then 0 else 10_000),
                              AwardComponent(TimedPhaseLadder, TimedBonus(s.step - s.ledger.stageStartStep))]
    requires award.livesBefore == s.lives && award.livesAfter == OneLifeMore(s.lives)
    requires award.startingAmmo == 99 && award.startingGrenades == 10
    requires Total(award.components) == EndWorth(s) > 0
    ensures ApplyAward(s, award) == Rewarded(s)
  {
    hide Total, SceneModel.AwardPoints, EmitComponents, Awards;
    var worth := EndWorth(s);
    var reports := [(worth, Boundary)];
    OneScored(s, worth, Boundary);
    assert reports[1..] == [] && Worth(reports) == worth;
    var s1 := SceneSteps.Scored(s, reports);
    var s2 := s1.(lives := OneLifeMore(s.lives), ammo := 99, grenades := 10);
    var off := if s.suit then [SuitChanged(false, StageBoundary)] else [];
    assert SetSuit(s2, false, StageBoundary) == s2.(suit := false, trace := s1.trace + off) by {
      assert s1.trace + [] == s1.trace;
    }
    var s4 := Emit(SetSuit(s2, false, StageBoundary), StagePoints(s.zone, worth, s.lives, OneLifeMore(s.lives)));
    ComponentsTold(s4, s.zone, award.components);
    var parts := [StageComponent(s.zone, LivesTimes1000, s.lives * 1_000),
                  StageComponent(s.zone, BraveryNoExoskeleton, if s.ledger.took then 0 else 10_000),
                  StageComponent(s.zone, TimedPhaseLadder, TimedBonus(s.step - s.ledger.stageStartStep))];
    var record := [StagePoints(s.zone, worth, s.lives, OneLifeMore(s.lives))];
    assert s.trace + Awards(s.points, s.highScore, reports) + off + record + parts == s.trace + EndTold(s) by {
      assert record + parts
          == [StagePoints(s.zone, worth, s.lives, OneLifeMore(s.lives)), parts[0], parts[1], parts[2]];
    }
  }

  lemma BoundsInOne(s: Scene)
    requires Inv(s) && (s.flow.Playing? || s.flow.Respawning?) && s.step >= s.ledger.stageStartStep
    ensures ApplyBoundary(s) == Bounded(s, Pays(s))
  {
    hide Tell, AllSound, RisingEnds, ApplyAward, Charge, Priced, Rewarded, EndTold, EndWorth, Total;
    if s.zone in STAGE_END_ZONES {
      PaysExactly(s);
      var (ledger, outcome) := BoundaryDecision(s);
      if Pays(s) {
        assert ScoreFits(s.(ledger := ledger)) by { InvFits(s); }
        assert EndWorth(s.(ledger := ledger)) == EndWorth(s) by { CountsDoNotPay(s, ledger.counts); }
        AppliesInOne(s.(ledger := ledger), outcome.award);
        CountsDoNotPay(s, ledger.counts);
      }
    }
  }

  lemma CountsDoNotPay(s: Scene, counts: Counts)
    ensures var s1 := s.(ledger := s.ledger.(counts := counts));
            EndWorth(s1) == EndWorth(s) && Rewarded(s1) == Rewarded(s).(ledger := s1.ledger)
  {
  }

  lemma ArrivesInOne(s: Scene, input: Input)
    ensures Transition(s, s.zone + 1, input) == Arrived(s, input)
  {
    var zone := s.zone + 1;
    var saved := CheckpointSaved(zone, s.ammo, s.grenades, s.points, s.lives);
    assert (s.trace + [ZoneEntered(zone)]) + [saved] == s.trace + [ZoneEntered(zone), saved];
  }

  lemma LeavesInOne(s: Scene, input: Input)
    requires Inv(s) && (s.flow.Playing? || s.flow.Respawning?) && s.step >= s.ledger.stageStartStep
    ensures LeaveScreen(s, input) == Left(s, input, Pays(s))
  {
    hide Inv, ApplyBoundary, Bounded, Transition, Arrived, Pays;
    BoundsInOne(s);
    var b := Bounded(s, Pays(s));
    assert b.zone == s.zone by { BoundaryIsHere(s, Pays(s)); }
    ArrivesInOne(b, input);
  }

  lemma BoundaryIsHere(s: Scene, pays: bool)
    ensures Bounded(s, pays).zone == s.zone
  {
  }

  /** In every session a step that leaves a screen is the boundary, then the arrival, each given at once; the
      boundary pays exactly at a stage end that has not paid since the score was last reset. */
  lemma ExitInClosedForm(stored: nat, inputs: seq<(Input, World)>, states: seq<Scene>, n: nat)
    requires IsSession(stored, inputs, states) && n < |inputs|
    requires Leaves(states[n], inputs[n].0, inputs[n].1)
    ensures var met := Met(states[n].(step := states[n].step + 1), inputs[n].0, inputs[n].1);
            states[n + 1] == Left(met, inputs[n].0, !PaidBefore(met.trace, met.zone))
  {
    hide Inv, Fit, Met, Approach, LeaveScreen, Left, PaidBefore, Leaves, Tell;
    LeavesAfoot(states[n], inputs[n].0, inputs[n].1);
    var input, w := inputs[n].0, inputs[n].1;
    StepInClosedForm(stored, inputs, states, n);
    var s := Asked(states[n], input, w);
    AskedIsReady(stored, inputs, states, n);
    LeavesInOne(s, input);
    PaidMeans(s.trace, s.zone);
    PaysElsewhere(s, input);
  }

  /** The scene that asks whether the screen is left, when it is. */
  lemma AskedIsReady(stored: nat, inputs: seq<(Input, World)>, states: seq<Scene>, n: nat)
    requires IsSession(stored, inputs, states) && n < |inputs|
    requires Leaves(states[n], inputs[n].0, inputs[n].1)
    ensures var s := Asked(states[n], inputs[n].0, inputs[n].1);
            && Inv(s) && (s.flow.Playing? || s.flow.Respawning?) && s.step >= s.ledger.stageStartStep
            && states[n + 1] == LeaveScreen(s, inputs[n].0)
  {
    hide Inv, Approach, LeaveScreen, StageStart, TookSuit;
    var s0, input, w := states[n].(step := states[n].step + 1), inputs[n].0, inputs[n].1;
    SessionKeeps(stored, inputs, states, n);
    Counted(states[n]);
    ApproachKeeps(s0, input, w);
    StageIsTheRuns(stored, inputs, states, n);
    StartIsBehind(inputs, states, n);
    assert states[n + 1] == FixedStep(states[n], input, w);
  }

  lemma {:induction false} StartIsBehind(inputs: seq<(Input, World)>, states: seq<Scene>, n: nat)
    requires n <= |inputs| && n <= |states|
    ensures StageStart(inputs, states, n) <= n
  {
    hide BeginsStage;
    if n > 0 { StartIsBehind(inputs, states, n - 1); }
  }

  lemma PaysElsewhere(s: Scene, input: Input)
    requires s.zone in Tell(s.trace).paid <==> PaidBefore(s.trace, s.zone)
    ensures Left(s, input, Pays(s)) == Left(s, input, !PaidBefore(s.trace, s.zone))
  {
    hide Tell, PaidBefore, PaidOut, Arrived, Completed;
  }

  // The menus

  /** A new game, whatever was before: what is left is the high score on storage, the playthroughs counted, the
      test switch, and the records. */
  function Anew(s: Scene, input: Input): Scene {
    s.(flow := Playing, beforePause := Playing, points := 0, lives := 9, ammo := 99, grenades := 10, zone := 0,
       highScore := s.savedHighScore, suit := false, dying := false, protection := 0, groundTimer := 0,
       checkpoint := Some(Checkpoint(0, 99, 10, 0, 9)),
       ledger := LedgerState(s.ledger.playthroughIndex + 1, map[], false, s.step, None),
       latches := Latches(input.fire, input.fire, input.menuUp, input.menuDown, input.jump, input.fire, input.grenade),
       trace := s.trace + ([RunRestarted(s.zone, s.points), CheckpointCleared]
                           + (if s.suit then [SuitChanged(false, Reset)] else [])
                           + [CheckpointSaved(0, 99, 10, 0, 9)]))
  }

  lemma RestartsInOne(s: Scene, input: Input)
    ensures Restart(s, input) == Anew(s, input)
  {
    var opening := [RunRestarted(s.zone, s.points), CheckpointCleared];
    var off := if s.suit then [SuitChanged(false, Reset)] else [];
    var saved := [CheckpointSaved(0, 99, 10, 0, 9)];
    assert (s.trace + [RunRestarted(s.zone, s.points)]) + [CheckpointCleared] == s.trace + opening;
    assert (s.trace + opening) + off + saved == s.trace + (opening + off + saved);
    assert (s.trace + opening) + [] == s.trace + opening;
  }

  /** The game at the title goes on, or a first one begins, with its checkpoint. */
  function Begun(s: Scene, input: Input): Scene {
    var going := s.(flow := Playing, latches := s.latches.(menuFire := input.fire, fire := input.fire,
                                                           grenade := input.grenade, jump := input.jump));
    if s.checkpoint.Some? then going
    else going.(checkpoint := Some(Kept(s)),
                ledger := LedgerState(s.ledger.playthroughIndex + 1, map[], false, s.step, None),
                trace := s.trace + [CheckpointSaved(s.zone, s.ammo, s.grenades, s.points, s.lives)])
  }

  /** The pause menu: a fresh press of up or down moves between its two lines, FIRE takes the one selected. */
  function Paused(s: Scene, input: Input): Scene {
    var moves := (input.menuUp && !s.latches.menuUp) || (input.menuDown && !s.latches.menuDown);
    var line := if !moves then s.menuIndex else if s.menuIndex == 0 then 1 else 0;
    var seen := s.(menuIndex := line, latches := s.latches.(menuUp := input.menuUp, menuDown := input.menuDown,
                                                            confirm := input.fire));
    if !input.fire || s.latches.confirm then seen
    else if line == 0 then Anew(seen, input)
    else seen.(invulnerable := !s.invulnerable)
  }

  /** Every step but a playing one. */
  function Menu(s: Scene, input: Input): Scene {
    var pressed := input.fire && !s.latches.menuFire;
    var seen := s.(latches := s.latches.(menuFire := input.fire));
    if input.pausePress then
      match s.flow
      case Paused =>
        s.(flow := s.beforePause,
           latches := Latches(s.latches.menuFire, input.fire, input.menuUp, input.menuDown, input.jump, input.fire,
                              input.grenade))
      case Playing | Respawning =>
        s.(beforePause := s.flow, flow := Flow.Paused, menuIndex := 0,
           latches := s.latches.(confirm := input.fire, menuUp := input.menuUp, menuDown := input.menuDown))
      case _ => s
    else
      match s.flow
      case Paused => Paused(s, input)
      case Title => if pressed then Begun(seen, input) else seen
      case GameOver => if pressed then Anew(seen, input) else seen
      case ContentComplete =>
        if pressed
        then seen.(flow := Title, trace := s.trace + [TitleEntered(s.highScore, s.checkpoint.Some?)])
        else seen
      case _ => s
  }

  lemma PressesInOne(s: Scene, input: Input)
    requires input.pausePress
    ensures PressPause(s, input) == Menu(s, input)
  {
  }

  lemma ChoosesInOne(s: Scene, input: Input)
    ensures PauseMenu(s, input) == Paused(s, input)
  {
    hide Restart, Anew;
    var moves := (input.menuUp && !s.latches.menuUp) || (input.menuDown && !s.latches.menuDown);
    var line := if !moves then s.menuIndex else if s.menuIndex == 0 then 1 else 0;
    RestartsInOne(s.(menuIndex := line, latches := s.latches.(menuUp := input.menuUp, menuDown := input.menuDown,
                                                              confirm := input.fire)), input);
  }

  lemma BeginsInOne(s: Scene, input: Input)
    ensures BeginFromTitle(s, input) == Begun(s, input)
  {
  }

  lemma MenusInOne(s: Scene, input: Input, w: World)
    requires input.pausePress || !Afoot(s)
    ensures FixedStep(s, input, w) == Menu(s.(step := s.step + 1), input)
  {
    hide Restart, Anew, BeginFromTitle, Begun, PauseMenu, Paused, PressPause;
    var s1 := s.(step := s.step + 1);
    var seen := s1.(latches := s1.latches.(menuFire := input.fire));
    if input.pausePress {
      PressesInOne(s1, input);
    } else {
      ChoosesInOne(s1, input);
      BeginsInOne(seen, input);
      RestartsInOne(seen, input);
    }
  }

  /** In every session a step that is not played is given at once too. */
  lemma MenuInClosedForm(stored: nat, inputs: seq<(Input, World)>, states: seq<Scene>, n: nat)
    requires IsSession(stored, inputs, states) && n < |inputs|
    requires inputs[n].0.pausePress || !Afoot(states[n])
    ensures states[n + 1] == Menu(states[n].(step := states[n].step + 1), inputs[n].0)
  {
    hide FixedStep, Menu;
    MenusInOne(states[n], inputs[n].0, inputs[n].1);
    assert states[n + 1] == FixedStep(states[n], inputs[n].0, inputs[n].1);
  }

  // A pause

  /** `t` is `s` but for the step counter, what the pause saw of the keys and the menu, and the test switch. */
  predicate SameGame(s: Scene, t: Scene) {
    t == s.(flow := t.flow, beforePause := t.beforePause, step := t.step, latches := t.latches,
            menuIndex := t.menuIndex, invulnerable := t.invulnerable)
  }

  lemma PauseOpens(s: Scene, input: Input)
    requires input.pausePress && (s.flow.Playing? || s.flow.Respawning?)
    ensures var t := Menu(s, input); t.flow.Paused? && t.beforePause == s.flow && SameGame(s, t)
  {
  }

  lemma PauseGoesOn(s: Scene, input: Input)
    requires s.flow.Paused? && !input.pausePress && !Restarts(s, input)
    ensures var t := Menu(s, input); t.flow.Paused? && t.beforePause == s.beforePause && SameGame(s, t)
  {
    hide Anew;
  }

  lemma PauseCloses(s: Scene, input: Input)
    requires s.flow.Paused? && input.pausePress
    ensures var t := Menu(s, input); t.flow == s.beforePause && SameGame(s, t)
  {
  }

  lemma SameGameStill(s: Scene, t: Scene, u: Scene)
    requires SameGame(s, t) && (SameGame(t, u) || SameGame(t.(step := t.step + 1), u))
    ensures SameGame(s, u)
  {
  }

  /** A pause changes nothing of the game, however long it lasts: after any steps without a restart, the press
      that ends it finds the scene the press that began it left, playing or respawning as before. */
  lemma {:induction false} PauseChangesNothing(stored: nat, inputs: seq<(Input, World)>, states: seq<Scene>, i: nat,
                                               j: nat)
    requires IsSession(stored, inputs, states) && i < j <= |inputs|
    requires inputs[i].0.pausePress && (states[i].flow.Playing? || states[i].flow.Respawning?)
    requires forall m :: i < m < j ==> !inputs[m].0.pausePress && !Restarts(states[m], inputs[m].0)
    ensures states[j].flow.Paused? && states[j].beforePause == states[i].flow && SameGame(states[i], states[j])
    ensures j < |inputs| && inputs[j].0.pausePress ==>
              states[j + 1].flow == states[i].flow && SameGame(states[i], states[j + 1])
  {
    hide Menu, SameGame, FixedStep, Restarts;
    if i == j - 1 {
      MenuInClosedForm(stored, inputs, states, i);
      PauseOpens(states[i].(step := states[i].step + 1), inputs[i].0);
      assert SameGame(states[i], states[i].(step := states[i].step + 1)) by { StepIsNoGame(states[i]); }
      SameGameStill(states[i], states[i].(step := states[i].step + 1), states[j]);
    } else {
      PauseChangesNothing(stored, inputs, states, i, j - 1);
      MenuInClosedForm(stored, inputs, states, j - 1);
      var s := states[j - 1].(step := states[j - 1].step + 1);
      assert !Restarts(s, inputs[j - 1].0) by { StepIsNoRestart(states[j - 1], inputs[j - 1].0); }
      PauseGoesOn(s, inputs[j - 1].0);
      SameGameStill(states[i], states[j - 1], states[j]);
    }
    if j < |inputs| && inputs[j].0.pausePress {
      MenuInClosedForm(stored, inputs, states, j);
      PauseCloses(states[j].(step := states[j].step + 1), inputs[j].0);
      SameGameStill(states[i], states[j], states[j + 1]);
    }
  }

  lemma StepIsNoGame(s: Scene)
    ensures SameGame(s, s.(step := s.step + 1))
  {
  }

  lemma StepIsNoRestart(s: Scene, input: Input)
    ensures Restarts(s.(step := s.step + 1), input) == Restarts(s, input)
  {
  }

  // The first game

  lemma PlayShowsNoTitle(s: Scene, input: Input, w: World)
    requires Afoot(s)
    ensures !Met(s, input, w).flow.Title?
  {
    hide Reports, WorldTold, Worth;
  }

  lemma MenuTitle(s: Scene, input: Input)
    requires Inv(s) && (input.pausePress || !Afoot(s)) && Menu(s, input).flow.Title? && Menu(s, input).checkpoint.None?
    ensures s.flow.Title? && s.checkpoint.None? && Menu(s, input) == s.(latches := Menu(s, input).latches)
  {
    hide Tell, AllSound, RisingEnds, Anew;
    assert Anew(s, input).flow.Playing? by { NewGamesPlay(s, input); }
    NewGamesPlay(s.(latches := s.latches.(menuFire := input.fire)), input);
    var moves := (input.menuUp && !s.latches.menuUp) || (input.menuDown && !s.latches.menuDown);
    var line := if !moves then s.menuIndex else if s.menuIndex == 0 then 1 else 0;
    NewGamesPlay(s.(menuIndex := line, latches := s.latches.(menuUp := input.menuUp, menuDown := input.menuDown,
                                                             confirm := input.fire)), input);
  }

  lemma NewGamesPlay(s: Scene, input: Input)
    ensures Anew(s, input).flow.Playing?
  {
  }

  /** As long as no game was started the title shows a fresh one: no points, nine lives, full weapons, the first
      zone, no suit, and the stored high score. */
  lemma {:induction false} TitleIsFresh(stored: nat, inputs: seq<(Input, World)>, states: seq<Scene>, n: nat)
    requires IsSession(stored, inputs, states) && n <= |inputs|
    requires states[n].flow.Title? && states[n].checkpoint.None?
    ensures var s := states[n];
            && s.points == 0 && s.lives == 9 && s.ammo == 99 && s.grenades == 10 && s.zone == 0 && !s.suit && !s.dying
            && s.highScore == s.savedHighScore == stored && !s.invulnerable && s.protection == 0 == s.groundTimer
            && s.trace == [CheckpointCleared, TitleEntered(stored, false)]
  {
    hide Inv, Met, Left, Menu, Fit, FixedStep;
    if n > 0 {
      var s, input, w := states[n - 1], inputs[n - 1].0, inputs[n - 1].1;
      var s1 := s.(step := s.step + 1);
      SessionKeeps(stored, inputs, states, n - 1);
      Counted(s);
      if Afoot(s) && !input.pausePress {
        StepInClosedForm(stored, inputs, states, n - 1);
        PlayShowsNoTitle(s1, input, w);
        if Leaves(s, input, w) {
          ExitInClosedForm(stored, inputs, states, n - 1);
          LeftShowsNoTitle(Met(s1, input, w), input);
        }
      } else {
        MenuInClosedForm(stored, inputs, states, n - 1);
        MenuTitle(s1, input);
        TitleIsFresh(stored, inputs, states, n - 1);
      }
    } else {
      assert states[0] == Launch(stored);
    }
  }

  lemma LeftShowsNoTitle(s: Scene, input: Input)
    ensures !Left(s, input, true).flow.Title? && !Left(s, input, false).flow.Title?
  {
    hide EndTold, Awards, Charge;
  }
}
