/** The promises of the scene over whole sessions, read off the events it emits. */
module SceneTheorems {
  import opened Basics
  import opened Ledger
  import opened SceneModel
  import opened SceneLaws

  /** A stage begins when one of its start zones is entered and when the run is restarted. */
  predicate OpensStage(e: Event) {
    (e.ZoneEntered? && e.zone in STAGE_START_ZONES) || e.RunRestarted?
  }

  /** A changing room put the suit on, and no stage has begun since. */
  ghost predicate SuitedInThisStage(trace: seq<Event>) {
    exists i :: 0 <= i < |trace| && trace[i] == SuitChanged(true, ChangingRoom)
      && forall j :: i < j < |trace| ==> !OpensStage(trace[j])
  }

  lemma SuitedOneMore(trace: seq<Event>, e: Event)
    ensures SuitedInThisStage(trace + [e])
       <==> e == SuitChanged(true, ChangingRoom) || (SuitedInThisStage(trace) && !OpensStage(e))
  {
    var n, longer := |trace|, trace + [e];
    assert longer[n] == e && forall k :: 0 <= k < n ==> longer[k] == trace[k];
    if SuitedInThisStage(longer) && e != SuitChanged(true, ChangingRoom) {
      var i :| 0 <= i < |longer| && longer[i] == SuitChanged(true, ChangingRoom)
        && forall j :: i < j < |longer| ==> !OpensStage(longer[j]);
      assert i < n && trace[i] == longer[i] && !OpensStage(longer[n]);
      assert forall j :: i < j < n ==> trace[j] == longer[j];
    }
    if SuitedInThisStage(trace) && !OpensStage(e) {
      var i :| 0 <= i < n && trace[i] == SuitChanged(true, ChangingRoom)
        && forall j :: i < j < n ==> !OpensStage(trace[j]);
      assert longer[i] == trace[i];
    }
  }

  lemma {:induction false} SuitedMeans(trace: seq<Event>)
    ensures Tell(trace).suited <==> SuitedInThisStage(trace)
  {
    hide SuitedInThisStage, Clauses;
    if trace == [] {
      assert !SuitedInThisStage([]) by { NoSuitYet(); }
    } else {
      var n := |trace| - 1;
      SuitedMeans(trace[..n]);
      SuitedOneMore(trace[..n], trace[n]);
      assert trace == trace[..n] + [trace[n]];
    }
  }

  lemma NoSuitYet()
    ensures !SuitedInThisStage([])
  {
  }

  lemma {:induction false} EventIsSound(trace: seq<Event>, i: nat)
    requires AllSound(trace) && i < |trace|
    ensures Sound(Tell(trace[..i]), trace[i])
  {
    var n := |trace| - 1;
    if i < n {
      EventIsSound(trace[..n], i);
      assert trace[..n][..i] == trace[..i];
    }
  }

  /** Every event of a session owes the events before it what its kind says. */
  lemma SessionIsSound(stored: nat, inputs: seq<(Input, World)>, states: seq<Scene>, n: nat, i: nat)
    requires IsSession(stored, inputs, states) && n <= |inputs| && i < |states[n].trace|
    ensures Sound(Tell(states[n].trace[..i]), states[n].trace[i])
  {
    hide Tell, Sound;
    SessionKeeps(stored, inputs, states, n);
    EventIsSound(states[n].trace, i);
  }

  // When a stage begins

  /** The scene of a step in which the player is asked whether the screen is left. */
  function Asked(s: Scene, input: Input, w: World): Scene {
    Approach(s.(step := s.step + 1), input, w)
  }

  predicate Leaves(s: Scene, input: Input, w: World) {
    !input.pausePress && Afoot(s) && w.pastExit && !Asked(s, input, w).dying
  }

  /** FIRE at the end of a game, or on the first line of the pause menu. */
  predicate Restarts(s: Scene, input: Input) {
    var moves := (input.menuUp && !s.latches.menuUp) || (input.menuDown && !s.latches.menuDown);
    !input.pausePress && input.fire
    && ((s.flow.GameOver? && !s.latches.menuFire)
        || (s.flow.Paused? && !s.latches.confirm && (s.menuIndex == 0 <==> !moves)))
  }

  /** FIRE at a title without a checkpoint. */
  predicate StartsAnew(s: Scene, input: Input) {
    !input.pausePress && input.fire && !s.latches.menuFire && s.flow.Title? && s.checkpoint.None?
  }

  /** The steps that begin a stage: leaving for a stage-start zone, a restart, a new game. */
  predicate BeginsStage(s: Scene, input: Input, w: World) {
    || (Leaves(s, input, w) && Asked(s, input, w).zone < LAST_ZONE && Asked(s, input, w).zone + 1 in STAGE_START_ZONES)
    || Restarts(s, input) || StartsAnew(s, input)
  }

  /** The steps in which a changing room puts the suit on. */
  predicate TakesSuit(s: Scene, input: Input, w: World) {
    !input.pausePress && Afoot(s) && SuitsUp(s, input, w)
  }

  /** The clock restarts and the latch is cleared in exactly the steps that begin a stage; in the
      others the clock stands and the latch is only set, by a changing room. */
  lemma StepStage(s0: Scene, input: Input, w: World)
    requires Inv(s0)
    ensures var t := FixedStep(s0, input, w);
            && t.step == s0.step + 1
            && t.ledger.stageStartStep == (if BeginsStage(s0, input, w) then s0.step + 1 else s0.ledger.stageStartStep)
            && (Tell(t.trace).suited <==>
                  !BeginsStage(s0, input, w) && (Tell(s0.trace).suited || TakesSuit(s0, input, w)))
  {
    hide Tell, Inv, PlayStep, Leaves, Restarts, StartsAnew, TakesSuit, BeginFromTitle, Restart, PauseMenu, ShowTitle;
    LeavesAfoot(s0, input, w);
    MenusOnly(s0, input, w);
    if !input.pausePress {
      if Afoot(s0) { PlayStage(s0, input, w); } else { MenuStage(s0, input, w); }
    }
  }

  lemma MenusOnly(s: Scene, input: Input, w: World)
    ensures Afoot(s) || input.pausePress ==> !Restarts(s, input) && !StartsAnew(s, input)
    ensures TakesSuit(s, input, w) ==> Afoot(s) && !input.pausePress
  {
  }

  lemma MenuStage(s0: Scene, input: Input, w: World)
    requires Inv(s0) && !Afoot(s0) && !input.pausePress
    ensures var t := FixedStep(s0, input, w);
            var begins := Restarts(s0, input) || StartsAnew(s0, input);
            && t.step == s0.step + 1
            && t.ledger.stageStartStep == (if begins then s0.step + 1 else s0.ledger.stageStartStep)
            && (Tell(t.trace).suited <==> !begins && Tell(s0.trace).suited)
  {
    hide Tell, Inv, Restart, BeginFromTitle, PauseMenu, PlayStep;
    Counted(s0);
    var s := s0.(step := s0.step + 1);
    var menu := s.(latches := s.latches.(menuFire := input.fire));
    Latched(s, menu);
    match s.flow
    case Title => TitleKeeps(menu, input);
    case Paused => PausedStage(s, input);
    case GameOver => RestartKeeps(menu, input);
    case ContentComplete => TitleAgain(menu);
  }

  lemma LeavesAfoot(s: Scene, input: Input, w: World)
    ensures Leaves(s, input, w) ==> Afoot(s) && !input.pausePress
  {
  }

  lemma PlayStage(s0: Scene, input: Input, w: World)
    requires Inv(s0) && Afoot(s0) && !input.pausePress
    ensures var t := PlayStep(s0.(step := s0.step + 1), input, w);
            var begins := Leaves(s0, input, w) && Asked(s0, input, w).zone < LAST_ZONE
                          && Asked(s0, input, w).zone + 1 in STAGE_START_ZONES;
            && t.step == s0.step + 1
            && t.ledger.stageStartStep == (if begins then s0.step + 1 else s0.ledger.stageStartStep)
            && (Tell(t.trace).suited <==> !begins && (Tell(s0.trace).suited || TakesSuit(s0, input, w)))
  {
    hide Tell, Inv, Approach, LeaveScreen;
    Counted(s0);
    ApproachKeeps(s0.(step := s0.step + 1), input, w);
    if Leaves(s0, input, w) { ExitStage(Asked(s0, input, w), input); }
  }

  lemma ExitStage(s: Scene, input: Input)
    requires Inv(s) && (s.flow.Playing? || s.flow.Respawning?)
    ensures var t := LeaveScreen(s, input);
            var begins := s.zone < LAST_ZONE && s.zone + 1 in STAGE_START_ZONES;
            && (Tell(t.trace).suited <==> Tell(s.trace).suited && !begins)
            && t.ledger.stageStartStep == (if begins then s.step else s.ledger.stageStartStep) && t.step == s.step
  {
    hide Tell, Inv, LeaveScreen, ApplyBoundary, StagePay;
    LeaveKeeps(s, input);
    SettledStage(s, ApplyBoundary(s));
  }

  lemma SettledStage(s: Scene, s1: Scene)
    requires Settled(s, s1)
    ensures Tell(s1.trace).suited == Tell(s.trace).suited
    ensures s1.ledger.stageStartStep == s.ledger.stageStartStep && s1.step == s.step
  {
    hide Tell, StagePay;
    if !Pays(s) && s.zone in STAGE_END_ZONES { TellMore(s.trace, BoundarySuppressed(s.zone, AlreadyAwarded)); }
  }

  lemma PausedStage(s: Scene, input: Input)
    requires Inv(s) && s.flow.Paused? && !input.pausePress
    ensures var t := PauseMenu(s, input);
            && t.ledger.stageStartStep == (if Restarts(s, input) then s.step else s.ledger.stageStartStep)
            && t.step == s.step
            && (Tell(t.trace).suited <==> Tell(s.trace).suited && !Restarts(s, input))
  {
    hide Tell, Inv, Restart;
    var moves := (input.menuUp && !s.latches.menuUp) || (input.menuDown && !s.latches.menuDown);
    var chosen := s.(menuIndex := if !moves then s.menuIndex else if s.menuIndex == 0 then 1 else 0,
                     latches := s.latches.(menuUp := input.menuUp, menuDown := input.menuDown,
                                           confirm := input.fire));
    assert Inv(chosen) by { Latched(s, chosen); }
    RestartKeeps(chosen, input);
  }

  /** The step number, counted from one, of the last of the first `n` steps that began a stage. */
  function StageStart(inputs: seq<(Input, World)>, states: seq<Scene>, n: nat): nat
    requires n <= |inputs| && n <= |states|
  {
    if n == 0 then 0
    else if BeginsStage(states[n - 1], inputs[n - 1].0, inputs[n - 1].1) then n
    else StageStart(inputs, states, n - 1)
  }

  /** Since that step a changing room put the suit on. */
  predicate TookSuit(inputs: seq<(Input, World)>, states: seq<Scene>, n: nat)
    requires n <= |inputs| && n <= |states|
  {
    n > 0 && !BeginsStage(states[n - 1], inputs[n - 1].0, inputs[n - 1].1)
    && (TakesSuit(states[n - 1], inputs[n - 1].0, inputs[n - 1].1) || TookSuit(inputs, states, n - 1))
  }

  /** In every session the stage clock counts from the last step that began a stage, and the suit was
      taken in this stage, by the events, exactly when a step since then took it. */
  lemma {:induction false} StageIsTheRuns(stored: nat, inputs: seq<(Input, World)>, states: seq<Scene>, n: nat)
    requires IsSession(stored, inputs, states) && n <= |inputs|
    ensures states[n].step == n && states[n].ledger.stageStartStep == StageStart(inputs, states, n)
    ensures SuitedInThisStage(states[n].trace) <==> TookSuit(inputs, states, n)
  {
    hide Inv, Tell, BeginsStage, TakesSuit, FixedStep, SuitedInThisStage;
    SuitedMeans(states[n].trace);
    if n == 0 {
      assert !Tell(Launch(stored).trace).suited by { LaunchIsBare(stored); }
    } else {
      StageIsTheRuns(stored, inputs, states, n - 1);
      SuitedMeans(states[n - 1].trace);
      SessionKeeps(stored, inputs, states, n - 1);
      StepStage(states[n - 1], inputs[n - 1].0, inputs[n - 1].1);
      assert states[(n - 1) + 1] == FixedStep(states[n - 1], inputs[n - 1].0, inputs[n - 1].1);
    }
  }

  lemma LaunchIsBare(stored: nat)
    ensures !Tell(Launch(stored).trace).suited
  {
    LaunchKeeps(stored);
  }

  /** While a game is on, the suit being on implies the latch, and the latch says exactly that a
      changing room switched the suit on in this stage, by the events and by the run. */
  lemma LatchRemembersTheSuit(stored: nat, inputs: seq<(Input, World)>, states: seq<Scene>, n: nat)
    requires IsSession(stored, inputs, states) && n <= |inputs| && !states[n].flow.GameOver?
    ensures states[n].suit ==> states[n].ledger.took
    ensures states[n].ledger.took <==> SuitedInThisStage(states[n].trace)
    ensures states[n].ledger.took <==> TookSuit(inputs, states, n)
  {
    hide SuitedInThisStage, TookSuit;
    SessionKeeps(stored, inputs, states, n);
    SuitedMeans(states[n].trace);
    StageIsTheRuns(stored, inputs, states, n);
  }

  // What a boundary pays

  /** A stage end has paid since the score was last reset. */
  ghost predicate PaidBefore(trace: seq<Event>, zone: int) {
    exists i :: 0 <= i < |trace| && trace[i].StagePoints? && trace[i].zone == zone
      && forall j :: i < j < |trace| ==> !trace[j].RunRestarted?
  }

  lemma PaidOneMore(trace: seq<Event>, e: Event, zone: int)
    ensures PaidBefore(trace + [e], zone)
       <==> (e.StagePoints? && e.zone == zone) || (PaidBefore(trace, zone) && !e.RunRestarted?)
  {
    var n, longer := |trace|, trace + [e];
    assert longer[n] == e && forall k :: 0 <= k < n ==> longer[k] == trace[k];
    if PaidBefore(longer, zone) && !(e.StagePoints? && e.zone == zone) {
      var i :| 0 <= i < |longer| && longer[i].StagePoints? && longer[i].zone == zone
        && forall j :: i < j < |longer| ==> !longer[j].RunRestarted?;
      assert i < n && trace[i] == longer[i] && !longer[n].RunRestarted?;
      assert forall j :: i < j < n ==> trace[j] == longer[j];
    }
    if PaidBefore(trace, zone) && !e.RunRestarted? {
      var i :| 0 <= i < n && trace[i].StagePoints? && trace[i].zone == zone
        && forall j :: i < j < n ==> !trace[j].RunRestarted?;
      assert longer[i] == trace[i];
    }
  }

  lemma {:induction false} PaidMeans(trace: seq<Event>, zone: int)
    ensures zone in Tell(trace).paid <==> PaidBefore(trace, zone)
  {
    hide PaidBefore, Clauses;
    if trace == [] {
      assert !PaidBefore([], zone) by { NothingPaid(zone); }
    } else {
      var n := |trace| - 1;
      PaidMeans(trace[..n], zone);
      PaidOneMore(trace[..n], trace[n], zone);
      assert trace == trace[..n] + [trace[n]];
    }
  }

  lemma NothingPaid(zone: int)
    ensures !PaidBefore([], zone)
  {
  }

  /** Points of the score records with the boundary's reason since the score was last reset. */
  function BoundaryPoints(trace: seq<Event>): int {
    if trace == [] then 0
    else
      var e := trace[|trace| - 1];
      if e.RunRestarted? then 0
      else BoundaryPoints(trace[..|trace| - 1]) + if e.ScoreAwarded? && e.reason.Boundary? then e.points else 0
  }

  lemma NotedPoints(before: Story, e: Event)
    ensures Note(before, e).paidPoints
         == if e.RunRestarted? then 0
            else before.paidPoints + if e.ScoreAwarded? && e.reason.Boundary? then e.points else 0
  {
  }

  lemma {:induction false} BoundaryPointsAreTold(trace: seq<Event>)
    ensures Tell(trace).paidPoints == BoundaryPoints(trace)
  {
    hide Note;
    if trace != [] {
      BoundaryPointsAreTold(trace[..|trace| - 1]);
      NotedPoints(Tell(trace[..|trace| - 1]), trace[|trace| - 1]);
    }
  }

  /** The timed bonus for whole steps since the stage began: 30 s a slot. */
  function TimedBonus(steps: int): int {
    if steps < 1_800 then 7_000 else if steps < 3_600 then 5_000 else if steps < 5_400 then 3_000
    else if steps < 7_200 then 1_000 else 0
  }

  /** What leaving the screen is worth, from the player's numbers, the events so far and the steps
      since the stage began. */
  ghost function BoundaryWorth(s: Scene, steps: int): int {
    if s.zone in STAGE_END_ZONES && !PaidBefore(s.trace, s.zone)
    then s.lives * 1_000 + (if SuitedInThisStage(s.trace) then 0 else 10_000) + TimedBonus(steps)
    else 0
  }

  lemma WorthIsPay(s: Scene)
    requires Inv(s) && !s.flow.GameOver?
    ensures BoundaryWorth(s, s.step - s.ledger.stageStartStep) == if Pays(s) then StagePay(s) else 0
    ensures Pays(s) ==> 1_000 <= StagePay(s)
  {
    hide Tell, AllSound, RisingEnds, SuitedInThisStage, PaidBefore;
    PaidMeans(s.trace, s.zone);
    SuitedMeans(s.trace);
  }

  /** A step that leaves a screen adds to the score what the boundary is worth, no more and no less,
      and when that is something also a life, full ammunition and no suit. */
  lemma ExitPaysExactly(stored: nat, inputs: seq<(Input, World)>, states: seq<Scene>, n: nat)
    requires IsSession(stored, inputs, states) && n < |inputs|
    requires Leaves(states[n], inputs[n].0, inputs[n].1)
    ensures var s := Asked(states[n], inputs[n].0, inputs[n].1);
            var worth, t := BoundaryWorth(s, n + 1 - StageStart(inputs, states, n)), states[n + 1];
            && t.points == (if s.points + worth < 999_999 then s.points + worth else 999_999)
            && BoundaryPoints(t.trace) == BoundaryPoints(states[n].trace) + worth
            && t.lives == (if worth > 0 && s.lives < 9 then s.lives + 1 else s.lives)
            && t.ammo == (if worth > 0 then 99 else s.ammo)
            && t.grenades == (if worth > 0 then 10 else s.grenades)
            && t.suit == (worth == 0 && s.suit)
            && t.zone == if s.zone < 124 then s.zone + 1 else 124
  {
    hide Inv, Tell, LeaveScreen, BoundaryWorth, StagePay, Pays, Settled, BoundaryPoints, ApplyBoundary,
      StageStart, Approach;
    var s0, input, w := states[n].(step := states[n].step + 1), inputs[n].0, inputs[n].1;
    SessionKeeps(stored, inputs, states, n);
    assert Inv(s0) by { Counted(states[n]); }
    ApproachKeeps(s0, input, w);
    var s := Asked(states[n], input, w);
    StageIsTheRuns(stored, inputs, states, n);
    assert s.step == n + 1 && s.ledger.stageStartStep == states[n].ledger.stageStartStep;
    LeaveKeeps(s, input);
    assert states[n + 1] == LeaveScreen(s, input);
    WorthIsPay(s);
    BoundaryPointsAreTold(states[n].trace);
    BoundaryPointsAreTold(states[n + 1].trace);
    SettledNumbers(s, ApplyBoundary(s), BoundaryWorth(s, s.step - s.ledger.stageStartStep));
  }

  /** What the boundary does to the numbers, by what it is worth. */
  lemma SettledNumbers(s: Scene, s1: Scene, worth: int)
    requires Inv(s) && !s.flow.GameOver? && Settled(s, s1) && worth == if Pays(s) then StagePay(s) else 0
    requires Pays(s) ==> worth > 0
    ensures s1.points == Capped(s.points + worth)
    ensures Tell(s1.trace).paidPoints == Tell(s.trace).paidPoints + worth
    ensures s1.lives == if worth > 0 && s.lives < 9 then s.lives + 1 else s.lives
    ensures s1.ammo == (if worth > 0 then 99 else s.ammo) && s1.grenades == if worth > 0 then 10 else s.grenades
    ensures s1.suit == (worth == 0 && s.suit) && 0 <= s.zone <= 124
  {
    hide Tell, AllSound, RisingEnds, StagePay;
  }

  /** No other step pays for a boundary: it keeps the boundary points, or resets them with the score. */
  lemma OnlyExitsPay(stored: nat, inputs: seq<(Input, World)>, states: seq<Scene>, n: nat)
    requires IsSession(stored, inputs, states) && n < |inputs|
    requires !Leaves(states[n], inputs[n].0, inputs[n].1)
    ensures BoundaryPoints(states[n + 1].trace) == BoundaryPoints(states[n].trace)
         || (BoundaryPoints(states[n + 1].trace) == 0 == states[n + 1].points == states[n + 1].zone)
  {
    SessionKeeps(stored, inputs, states, n);
    StepPays(states[n], inputs[n].0, inputs[n].1);
    BoundaryPointsAreTold(states[n].trace);
    BoundaryPointsAreTold(states[n + 1].trace);
  }

  ghost predicate ResetTold(s: Scene, t: Scene) {
    Tell(t.trace).paidPoints == 0 == t.points == t.zone && Tell(t.trace).stored == Tell(s.trace).stored
  }

  lemma StepPays(s0: Scene, input: Input, w: World)
    requires Inv(s0) && !Leaves(s0, input, w)
    ensures var t := FixedStep(s0, input, w);
            SamePaid(s0.(step := s0.step + 1), t) || ResetTold(s0, t)
  {
    hide Tell, Inv, Approach, Restart, BeginFromTitle, PauseMenu;
    Counted(s0);
    var s := s0.(step := s0.step + 1);
    if !input.pausePress {
      var menu := s.(latches := s.latches.(menuFire := input.fire));
      match s.flow
      case Title =>
        assert Inv(menu) by { Latched(s, menu); }
        TitleKeeps(menu, input);
      case Paused => PausedPays(s, input);
      case GameOver =>
        assert Inv(menu) by { Latched(s, menu); }
        RestartKeeps(menu, input);
        Reset(menu, input);
      case ContentComplete =>
        assert Inv(menu) by { Latched(s, menu); }
        TitleAgain(menu);
      case _ => ApproachKeeps(s, input, w);
    }
  }

  lemma PausedPays(s: Scene, input: Input)
    requires Inv(s)
    ensures var t := PauseMenu(s, input);
            SamePaid(s, t) || ResetTold(s, t)
  {
    hide Tell, Inv, Restart;
    var moves := (input.menuUp && !s.latches.menuUp) || (input.menuDown && !s.latches.menuDown);
    var chosen := s.(menuIndex := if !moves then s.menuIndex else if s.menuIndex == 0 then 1 else 0,
                     latches := s.latches.(menuUp := input.menuUp, menuDown := input.menuDown,
                                           confirm := input.fire));
    assert Inv(chosen) by { Latched(s, chosen); }
    RestartKeeps(chosen, input);
    Reset(chosen, input);
  }

  lemma Reset(s: Scene, input: Input)
    ensures Restart(s, input).points == 0 == Restart(s, input).zone
  {
  }

  // What the records of a boundary say

  lemma TellAt(trace: seq<Event>, k: nat)
    requires AllSound(trace) && k < |trace|
    ensures Tell(trace[..k + 1]) == Note(Tell(trace[..k]), trace[k]) && Sound(Tell(trace[..k]), trace[k])
  {
    hide Note, Sound;
    EventIsSound(trace, k);
    assert trace[..k + 1][..k] == trace[..k];
  }

  /** The records the boundary may put between its score and its own record. */
  predicate Aside(e: Event) {
    e.HighScoreSaved? || e == SuitChanged(false, StageBoundary)
  }

  /** The score record at `i` and the boundary record at `j` with its three clauses are one award. */
  ghost predicate OneAward(trace: seq<Event>, i: nat, j: nat) {
    && i < j && j + 3 < |trace|
    && trace[i].ScoreAwarded? && trace[i].reason.Boundary? && trace[j].StagePoints?
    && (forall k :: i < k < j ==> Aside(trace[k]))
    && trace[i].points == trace[j].points
    && var lives := trace[j].livesBefore * 1_000;
       var bravery := if SuitedInThisStage(trace[..i]) then 0 else 10_000;
       var timed := trace[j].points - lives - bravery;
       && timed in TIMED_BONUS_LADDER
       && trace[j + 1] == StageComponent(trace[j].zone, LivesTimes1000, lives)
       && trace[j + 2] == StageComponent(trace[j].zone, BraveryNoExoskeleton, bravery)
       && trace[j + 3] == StageComponent(trace[j].zone, TimedPhaseLadder, timed)
  }

  /** Since the score record at `i` only asides have been written. */
  ghost predicate Awaiting(trace: seq<Event>, i: nat, m: nat) {
    && i < m <= |trace| && trace[i].ScoreAwarded? && trace[i].reason.Boundary?
    && (forall k :: i < k < m ==> Aside(trace[k]))
    && Tell(trace[..m]).owed == Some(trace[i].points)
    && Tell(trace[..m]).lives == Tell(trace[..i]).lives && Tell(trace[..m]).suited == Tell(trace[..i]).suited
  }

  lemma {:induction false} AwaitsRecord(trace: seq<Event>, i: nat, m: nat) returns (j: nat)
    requires AllSound(trace) && i < m <= |trace| && trace[i].ScoreAwarded? && trace[i].reason.Boundary?
    ensures j <= m && Awaiting(trace, i, j) && (j < m ==> trace[j].StagePoints?)
    decreases m
  {
    hide Tell, AllSound, Sound;
    if m == i + 1 {
      TellAt(trace, i);
      j := m;
    } else {
      j := AwaitsRecord(trace, i, m - 1);
      if j == m - 1 && !trace[j].StagePoints? {
        TellAt(trace, j);
        assert InTurn(Tell(trace[..j]), trace[j]) by { Turn(Tell(trace[..j]), trace[j]); }
        j := m;
      }
    }
  }

  lemma Turn(before: Story, e: Event)
    requires Sound(before, e)
    ensures InTurn(before, e)
  {
  }

  /** While a clause is due, it is the only event there can be. */
  lemma NextClause(trace: seq<Event>, k: nat)
    requires AllSound(trace) && k < |trace|
    requires Tell(trace[..k]).owed.None? && Tell(trace[..k]).due != []
    ensures var before, after := Tell(trace[..k]), Tell(trace[..k + 1]);
            && before.paid != [] && after.owed.None? && after.paid == before.paid && after.due == before.due[1..]
            && trace[k] == StageComponent(before.paid[|before.paid| - 1], before.due[0].id, before.due[0].points)
  {
    hide Tell, AllSound, Sound;
    TellAt(trace, k);
    Turn(Tell(trace[..k]), trace[k]);
  }

  lemma RecordOpens(before: Story, e: Event)
    requires e.StagePoints?
    ensures var after := Note(before, e);
            after.owed.None? && after.due == Clauses(before, e.points) && after.paid == before.paid + [e.zone]
  {
  }

  /** After a boundary record its three clauses are all that follows. */
  lemma ClausesFollow(trace: seq<Event>, j: nat)
    requires AllSound(trace) && j < |trace| && trace[j].StagePoints? && Tell(trace).due == []
    ensures j + 3 < |trace|
    ensures var due := Clauses(Tell(trace[..j]), trace[j].points);
            && trace[j + 1] == StageComponent(trace[j].zone, due[0].id, due[0].points)
            && trace[j + 2] == StageComponent(trace[j].zone, due[1].id, due[1].points)
            && trace[j + 3] == StageComponent(trace[j].zone, due[2].id, due[2].points)
  {
    hide Tell, AllSound, Sound, Note;
    assert trace[..|trace|] == trace;
    TellAt(trace, j);
    RecordOpens(Tell(trace[..j]), trace[j]);
    assert j + 1 < |trace|;
    NextClause(trace, j + 1);
    assert j + 2 < |trace|;
    NextClause(trace, j + 2);
    assert j + 3 < |trace|;
    NextClause(trace, j + 3);
  }

  /** Every score a boundary awards is recorded, clause by clause, in the events that follow. */
  lemma BoundaryScoreIsRecorded(stored: nat, inputs: seq<(Input, World)>, states: seq<Scene>, n: nat, i: nat)
    requires IsSession(stored, inputs, states) && n <= |inputs|
    requires i < |states[n].trace| && states[n].trace[i].ScoreAwarded? && states[n].trace[i].reason.Boundary?
    ensures exists j :: OneAward(states[n].trace, i, j)
  {
    hide Tell, AllSound, RisingEnds, SuitedInThisStage;
    var trace := states[n].trace;
    SessionKeeps(stored, inputs, states, n);
    var j := AwaitsRecord(trace, i, |trace|);
    assert trace[..|trace|] == trace;
    RecordedAt(trace, i, j);
  }

  lemma RecordedAt(trace: seq<Event>, i: nat, j: nat)
    requires AllSound(trace) && Awaiting(trace, i, j) && j < |trace| && trace[j].StagePoints?
    requires Tell(trace).due == []
    ensures OneAward(trace, i, j)
  {
    hide Tell, AllSound, SuitedInThisStage;
    TellAt(trace, j);
    ClausesFollow(trace, j);
    SuitedMeans(trace[..i]);
  }

  /** What a boundary owes, its score record has been written. */
  lemma {:induction false} OwedSince(trace: seq<Event>) returns (i: nat)
    requires AllSound(trace) && Tell(trace).owed.Some?
    ensures Awaiting(trace, i, |trace|)
  {
    hide Sound;
    var n := |trace| - 1;
    assert trace[..|trace|] == trace;
    if trace[n].ScoreAwarded? && trace[n].reason.Boundary? {
      i := n;
      assert trace[..n] == trace[..i];
    } else {
      Turn(Tell(trace[..n]), trace[n]);
      i := OwedSince(trace[..n]);
      assert trace[..n][..n] == trace[..n] && trace[..n][..i] == trace[..i];
      assert forall k :: i < k < n ==> trace[k] == trace[..n][k];
    }
  }

  /** Every boundary record stands for a score that was awarded just before it. */
  lemma RecordIsScored(stored: nat, inputs: seq<(Input, World)>, states: seq<Scene>, n: nat, j: nat)
    requires IsSession(stored, inputs, states) && n <= |inputs|
    requires j < |states[n].trace| && states[n].trace[j].StagePoints?
    ensures exists i :: OneAward(states[n].trace, i, j)
  {
    hide Tell, AllSound, RisingEnds, SuitedInThisStage;
    var trace := states[n].trace;
    SessionKeeps(stored, inputs, states, n);
    TellAt(trace, j);
    PrefixSound(trace, j);
    var i := OwedSince(trace[..j]);
    assert trace[..j][..j] == trace[..j] && trace[..j][..i] == trace[..i];
    assert forall k :: i < k < j ==> trace[k] == trace[..j][k];
    RecordedAt(trace, i, j);
  }

  lemma {:induction false} PrefixSound(trace: seq<Event>, i: nat)
    requires AllSound(trace) && i <= |trace|
    ensures AllSound(trace[..i])
  {
    if i == |trace| {
      assert trace[..i] == trace;
    } else {
      PrefixSound(trace[..|trace| - 1], i);
      assert trace[..|trace| - 1][..i] == trace[..i];
    }
  }

  /** The lives as the events tell them. */
  function LivesTold(trace: seq<Event>): int {
    if trace == [] then 9
    else
      match trace[|trace| - 1]
      case RunRestarted(_, _) => 9
      case StagePoints(_, _, _, livesAfter) => livesAfter
      case CheckpointSaved(_, _, _, _, lives) => lives
      case _ => LivesTold(trace[..|trace| - 1])
  }

  lemma {:induction false} LivesAreTold(trace: seq<Event>)
    ensures Tell(trace).lives == LivesTold(trace)
  {
    if trace != [] { LivesAreTold(trace[..|trace| - 1]); }
  }

  /** Beside lives and the timed bonus a boundary awards 10 000 points exactly when no changing room
      switched the suit on since the stage began, through deaths, pauses, toggles and zone changes. */
  lemma BraveryPaysExactlyWhen(stored: nat, inputs: seq<(Input, World)>, states: seq<Scene>, n: nat, i: nat)
    requires IsSession(stored, inputs, states) && n <= |inputs|
    requires i < |states[n].trace| && states[n].trace[i].ScoreAwarded? && states[n].trace[i].reason.Boundary?
    ensures var bravery := if SuitedInThisStage(states[n].trace[..i]) then 0 else 10_000;
            states[n].trace[i].points - 1_000 * LivesTold(states[n].trace[..i]) - bravery in TIMED_BONUS_LADDER
  {
    hide AllSound, RisingEnds, SuitedInThisStage;
    SessionKeeps(stored, inputs, states, n);
    EventIsSound(states[n].trace, i);
    SuitedMeans(states[n].trace[..i]);
    LivesAreTold(states[n].trace[..i]);
  }

  /** Two awards of one stage end always have a score reset between them. */
  lemma EachStageEndPaysOncePerReset(stored: nat, inputs: seq<(Input, World)>, states: seq<Scene>,
                                     n: nat, i: nat, j: nat)
    requires IsSession(stored, inputs, states) && n <= |inputs|
    requires i < j < |states[n].trace|
    requires states[n].trace[i].StagePoints? && states[n].trace[j].StagePoints?
    requires states[n].trace[i].zone == states[n].trace[j].zone
    ensures exists k :: i < k < j && states[n].trace[k].RunRestarted?
  {
    var trace := states[n].trace;
    SessionKeeps(stored, inputs, states, n);
    EventIsSound(trace, j);
    if forall k :: i < k < j ==> !trace[k].RunRestarted? {
      assert trace[..j][i] == trace[i];
      PaidMeans(trace[..j], trace[i].zone);
    }
  }

  /** Stage ends are twenty-five zones apart. */
  lemma {:induction false} RisingFloor(paid: seq<int>, i: nat)
    requires RisingEnds(paid) && i < |paid|
    ensures paid[i] >= 24 + 25 * i
  {
    assert paid[i] in STAGE_END_ZONES;
    if i > 0 {
      RisingFloor(paid, i - 1);
      assert paid[i - 1] < paid[i];
    }
  }

  lemma AtMostFiveEnds(paid: seq<int>)
    requires RisingEnds(paid)
    ensures |paid| <= 5
  {
    if |paid| > 0 {
      RisingFloor(paid, |paid| - 1);
      assert paid[|paid| - 1] in STAGE_END_ZONES;
    }
  }

  /** Between two resets of the score the boundaries award at most 5 x 26 000 points. */
  lemma BoundaryPointsAreBounded(stored: nat, inputs: seq<(Input, World)>, states: seq<Scene>, n: nat)
    requires IsSession(stored, inputs, states) && n <= |inputs|
    ensures BoundaryPoints(states[n].trace) <= 130_000
  {
    SessionKeeps(stored, inputs, states, n);
    BoundaryPointsAreTold(states[n].trace);
    AtMostFiveEnds(Tell(states[n].trace).paid);
  }

  /** A step that leaves a stage end is suppressed exactly when that end has paid, which only happens
      on the last screen, and then the boundary does nothing but say so. */
  lemma SuppressionChangesNothing(stored: nat, inputs: seq<(Input, World)>, states: seq<Scene>, n: nat)
    requires IsSession(stored, inputs, states) && n < |inputs|
    requires Leaves(states[n], inputs[n].0, inputs[n].1)
    requires Asked(states[n], inputs[n].0, inputs[n].1).zone in STAGE_END_ZONES
    ensures var s := Asked(states[n], inputs[n].0, inputs[n].1);
            && (BoundaryDecision(s).1.Suppressed? <==> PaidBefore(s.trace, s.zone))
            && (PaidBefore(s.trace, s.zone) ==>
                  && s.zone == LAST_ZONE
                  && states[n + 1] == CompleteContent(Emit(s, BoundarySuppressed(LAST_ZONE, AlreadyAwarded)),
                                                      inputs[n].0))
  {
    hide Inv, Tell, Approach, PaidBefore, LeaveScreen, BoundaryDecision, CompleteContent;
    var s0, input, w := states[n].(step := states[n].step + 1), inputs[n].0, inputs[n].1;
    SessionKeeps(stored, inputs, states, n);
    assert Inv(s0) by { Counted(states[n]); }
    ApproachKeeps(s0, input, w);
    var s := Asked(states[n], input, w);
    assert states[n + 1] == LeaveScreen(s, input);
    SuppressedExit(s, input);
  }

  lemma SuppressedExit(s: Scene, input: Input)
    requires Inv(s) && (s.flow.Playing? || s.flow.Respawning?) && s.zone in STAGE_END_ZONES
    ensures BoundaryDecision(s).1.Suppressed? <==> PaidBefore(s.trace, s.zone)
    ensures PaidBefore(s.trace, s.zone) ==>
              && s.zone == LAST_ZONE
              && LeaveScreen(s, input) == CompleteContent(Emit(s, BoundarySuppressed(LAST_ZONE, AlreadyAwarded)), input)
  {
    hide Tell, PaidBefore, AllSound, RisingEnds, CompleteContent, Transition;
    PaidMeans(s.trace, s.zone);
    assert forall c :: CountOf(s.ledger.counts, s.zone, c) == if s.zone in Tell(s.trace).paid then 1 else 0;
    assert WAVE_D[0] in WAVE_D;
  }

  /** After its last award the game was saved. */
  predicate SavedSinceAward(trace: seq<Event>) {
    trace == [] || trace[|trace| - 1].CheckpointSaved?
    || (!trace[|trace| - 1].StagePoints? && SavedSinceAward(trace[..|trace| - 1]))
  }

  lemma NotedSaved(before: Story, e: Event)
    ensures Note(before, e).saved == (e.CheckpointSaved? || (!e.StagePoints? && before.saved))
  {
  }

  lemma {:induction false} SavedMeans(trace: seq<Event>)
    ensures Tell(trace).saved <==> SavedSinceAward(trace)
  {
    hide Note;
    if trace != [] {
      SavedMeans(trace[..|trace| - 1]);
      NotedSaved(Tell(trace[..|trace| - 1]), trace[|trace| - 1]);
    }
  }

  /** Every suppressed trigger of a session is a repeat on the last screen: its award is recorded
      earlier, the game was saved since, and the score was not reset in between. */
  lemma SuppressedOnlyOnRepeat(stored: nat, inputs: seq<(Input, World)>, states: seq<Scene>, n: nat, i: nat)
    requires IsSession(stored, inputs, states) && n <= |inputs|
    requires i < |states[n].trace| && states[n].trace[i].BoundarySuppressed?
    ensures states[n].trace[i] == BoundarySuppressed(124, AlreadyAwarded)
    ensures PaidBefore(states[n].trace[..i], 124) && SavedSinceAward(states[n].trace[..i])
  {
    hide Tell, AllSound, RisingEnds, PaidBefore;
    SessionKeeps(stored, inputs, states, n);
    EventIsSound(states[n].trace, i);
    PaidMeans(states[n].trace[..i], 124);
    SavedMeans(states[n].trace[..i]);
  }

  /** The numbers and flow of every reachable state. */
  lemma SessionBounds(stored: nat, inputs: seq<(Input, World)>, states: seq<Scene>, n: nat)
    requires IsSession(stored, inputs, states) && n <= |inputs|
    ensures var s := states[n];
            && (s.dying <==> s.flow.PlayerDead? || s.flow.GameOver?)
            && (if s.flow.GameOver? then s.lives == 0 else 1 <= s.lives <= 9)
            && 0 <= s.points <= 999_999 && s.points <= s.highScore
            && 0 <= s.ammo <= 99 && 0 <= s.grenades <= 10 && 0 <= s.zone <= 124
            && (!s.flow.GameOver? && !s.flow.Title? ==> s.checkpoint.Some?)
  {
    SessionKeeps(stored, inputs, states, n);
  }
}
