/** The one field of a session that its records may lose: the high score, shown at the title and when a
    game ends. It is lost in some session exactly when the stored high score does not fit two lanes. */
module SceneHighScore {
  import opened FixedWidth
  import opened Lanes
  import opened Basics
  import opened SceneModel
  import opened SceneLaws
  import opened SceneTheorems
  import opened SceneWire

  const LANE_MAX := 0x7FFF_FFFF

  // The high score never passes the stored one and the ceiling of the score

  lemma StepStored(s0: Scene, input: Input, w: World)
    requires Inv(s0)
    ensures Tell(FixedStep(s0, input, w).trace).stored == Tell(s0.trace).stored
  {
    hide Inv, Tell, Approach, LeaveScreen, ApplyBoundary, StagePay, Pays, Emit;
    if Leaves(s0, input, w) {
      Counted(s0);
      ApproachKeeps(s0.(step := s0.step + 1), input, w);
      LeaveKeeps(Asked(s0, input, w), input);
    } else {
      StepPays(s0, input, w);
    }
  }

  lemma {:induction false} SessionStored(stored: nat, inputs: seq<(Input, World)>, states: seq<Scene>, n: nat)
    requires IsSession(stored, inputs, states) && n <= |inputs|
    ensures Tell(states[n].trace).stored == Some(stored)
  {
    hide Inv, Tell, FixedStep, Launch;
    if n == 0 {
      LaunchKeeps(stored);
    } else {
      SessionKeeps(stored, inputs, states, n - 1);
      SessionStored(stored, inputs, states, n - 1);
      StepStored(states[n - 1], inputs[n - 1].0, inputs[n - 1].1);
      assert states[(n - 1) + 1] == FixedStep(states[n - 1], inputs[n - 1].0, inputs[n - 1].1);
    }
  }

  ghost predicate Limited(story: Story) {
    story.high <= SCORE_CEILING || (story.stored.Some? && story.high <= story.stored.value)
  }

  lemma NotedHigh(before: Story, e: Event)
    requires Sound(before, e) && Limited(before)
    ensures Limited(Note(before, e))
  {
    hide InTurn, Fee, Clauses;
  }

  lemma {:induction false} HighIsCapped(trace: seq<Event>)
    requires AllSound(trace)
    ensures Limited(Tell(trace))
  {
    hide Sound, Note, Limited;
    if trace == [] {
      assert Limited(OPENING) by { Opens(); }
    } else {
      HighIsCapped(trace[..|trace| - 1]);
      NotedHigh(Tell(trace[..|trace| - 1]), trace[|trace| - 1]);
    }
  }

  lemma Opens()
    ensures Limited(OPENING)
  {
  }

  lemma NotedStored(before: Story, e: Event)
    requires before.stored.Some?
    ensures Note(before, e).stored == before.stored
  {
  }

  lemma {:induction false} StoredStays(trace: seq<Event>, i: nat)
    requires AllSound(trace) && i <= |trace| && Tell(trace[..i]).stored.Some?
    ensures Tell(trace).stored == Tell(trace[..i]).stored
    decreases |trace|
  {
    hide Sound, Note;
    var n := |trace| - 1;
    if i == |trace| {
      assert trace[..i] == trace;
    } else {
      assert trace[..n][..i] == trace[..i];
      StoredStays(trace[..n], i);
      NotedStored(Tell(trace[..n]), trace[n]);
    }
  }

  /** No event of a session carries a high score above both the stored one and the ceiling. */
  lemma HighScoresAreBounded(stored: nat, inputs: seq<(Input, World)>, states: seq<Scene>, n: nat, i: nat)
    requires IsSession(stored, inputs, states) && n <= |inputs|
    requires i < |states[n].trace| && (states[n].trace[i].GameEnded? || states[n].trace[i].TitleEntered?)
    ensures states[n].trace[i].highScore <= SCORE_CEILING || states[n].trace[i].highScore <= stored
  {
    hide Tell, RisingEnds;
    var trace := states[n].trace;
    SessionKeeps(stored, inputs, states, n);
    SessionStored(stored, inputs, states, n);
    TellAt(trace, i);
    PrefixSound(trace, i + 1);
    HighIsCapped(trace[..i + 1]);
    if Tell(trace[..i + 1]).stored.Some? { StoredStays(trace, i + 1); }
  }

  // Sessions that lose a larger one

  /** Nobody touches the keys, and a bullet meets a player who stands. */
  const IDLE := Input(false, false, false, false, false, false)
  const FIRE := Input(false, true, false, false, false, false)
  const UNDER_FIRE :=
    World(false, true, false, [], true, [], false, false, false, false, false, false, false, false, false)

  /** Steps before the next change of the player's state. */
  function Delay(s: Scene): nat {
    if !s.dying then s.protection else if s.groundTimer < SETTLE_STEPS then SETTLE_STEPS - s.groundTimer else 0
  }

  ghost predicate Doomed(s: Scene, stored: nat) {
    && Inv(s) && Afoot(s) && !s.invulnerable && s.points == 0 && s.highScore == stored > LANE_MAX
  }

  ghost predicate Over(s: Scene, stored: nat) {
    s.trace != [] && s.trace[|s.trace| - 1] == GameEnded(0, stored)
  }

  lemma BulletOnly(s: Scene)
    ensures MeetWorld(s, UNDER_FIRE) == if Exposed(s) then HitPlayer(s) else s
  {
    hide HitPlayer;
  }

  lemma IdleKeys(s: Scene)
    ensures var s1 := UpdatePlayer(UseContext(s, IDLE, UNDER_FIRE), IDLE, UNDER_FIRE);
            var latched := s.(latches := s.latches.(jump := false, fire := false, grenade := false));
            s1 == if s.dying then UpdateDeath(latched, true, IDLE) else latched.(groundTimer := 0)
  {
    hide UpdateDeath;
  }

  /** Alive, the player is unprotected in time, and then hit. */
  lemma AliveStep(s: Scene)
    requires Afoot(s) && !s.dying && !s.invulnerable
    ensures var t := FixedStep(s, IDLE, UNDER_FIRE);
            && Afoot(t) && !t.invulnerable && t.points == s.points && t.highScore == s.highScore && t.lives == s.lives
            && (t.dying || Delay(t) < Delay(s))
  {
    hide UseContext, UpdatePlayer, MeetWorld, UpdateDeath;
    var s1 := FadeProtection(s.(step := s.step + 1));
    IdleKeys(s1);
    BulletOnly(UpdatePlayer(UseContext(s1, IDLE, UNDER_FIRE), IDLE, UNDER_FIRE));
  }

  /** A dying player comes closer to the end of the game. */
  ghost predicate Nearer(s: Scene, t: Scene, stored: nat) {
    || Over(t, stored)
    || (Afoot(t) && !t.invulnerable && t.points == 0 && t.highScore == stored
        && (t.lives < s.lives || (t.lives == s.lives && t.dying && Delay(t) < Delay(s))))
  }

  lemma SlideStep(s: Scene, stored: nat)
    requires s.flow.PlayerDead? && s.dying && !s.invulnerable && s.lives >= 1
    requires s.points == 0 && s.highScore == stored
    ensures Nearer(s, UpdateDeath(s, true, IDLE), stored) && !Exposed(UpdateDeath(s, true, IDLE))
  {
  }

  /** Dying, the slide settles in time and costs a life, or the game. */
  lemma DyingStep(s: Scene, stored: nat)
    requires s.flow.PlayerDead? && s.dying && !s.invulnerable && s.lives >= 1
    requires s.points == 0 && s.highScore == stored
    ensures Nearer(s, FixedStep(s, IDLE, UNDER_FIRE), stored)
  {
    hide UseContext, UpdatePlayer, MeetWorld, UpdateDeath;
    var s1 := FadeProtection(s.(step := s.step + 1));
    IdleKeys(s1);
    var latched := s1.(latches := s1.latches.(jump := false, fire := false, grenade := false));
    SlideStep(latched, stored);
    BulletOnly(UpdateDeath(latched, true, IDLE));
  }

  /** Under fire a player loses one life after the other. */
  lemma OneStepCloser(s: Scene, stored: nat)
    requires Doomed(s, stored)
    ensures var t := FixedStep(s, IDLE, UNDER_FIRE);
            || Over(t, stored)
            || (Doomed(t, stored)
                && (t.lives < s.lives || (t.lives == s.lives
                    && ((t.dying && !s.dying) || (t.dying == s.dying && Delay(t) < Delay(s))))))
  {
    hide Inv, FixedStep, Delay;
    StepKeeps(s, IDLE, UNDER_FIRE);
    Standing(s);
    if s.dying { DyingStep(s, stored); } else { AliveStep(s); }
  }

  lemma Standing(s: Scene)
    requires Inv(s) && Afoot(s)
    ensures s.lives >= 1 && (s.dying <==> s.flow.PlayerDead?)
  {
    hide Tell, AllSound, RisingEnds;
  }

  /** Some session of the game ends in `s`. */
  ghost predicate Reaches(stored: nat, s: Scene) {
    exists inputs, states :: IsSession(stored, inputs, states) && states[|inputs|] == s
  }

  lemma ReachesLaunch(stored: nat)
    ensures Reaches(stored, Launch(stored))
  {
    hide Launch;
    assert IsSession(stored, [], [Launch(stored)]);
  }

  lemma ReachesNext(stored: nat, s: Scene, input: Input, w: World)
    requires Reaches(stored, s)
    ensures Reaches(stored, FixedStep(s, input, w))
  {
    hide FixedStep, Launch;
    var inputs, states :| IsSession(stored, inputs, states) && states[|inputs|] == s;
    var more, longer := inputs + [(input, w)], states + [FixedStep(s, input, w)];
    assert IsSession(stored, more, longer) && longer[|more|] == FixedStep(s, input, w);
  }

  /** The session goes on under fire until its last life is lost. */
  lemma {:induction false} LastGame(stored: nat, s: Scene) returns (t: Scene)
    requires Reaches(stored, s) && Doomed(s, stored)
    ensures Reaches(stored, t) && Over(t, stored)
    decreases s.lives, !s.dying, Delay(s)
  {
    hide Reaches, FixedStep, Doomed, Over, Delay;
    OneStepCloser(s, stored);
    ReachesNext(stored, s, IDLE, UNDER_FIRE);
    t := FixedStep(s, IDLE, UNDER_FIRE);
    if !Over(t, stored) {
      assert 0 <= t.lives && 0 <= s.lives by { Living(s, stored); Living(t, stored); }
      t := LastGame(stored, t);
    }
  }

  lemma Living(s: Scene, stored: nat)
    requires Doomed(s, stored)
    ensures 0 <= s.lives
  {
    hide Tell, AllSound, RisingEnds;
  }

  lemma LosingSession(stored: nat) returns (s: Scene)
    requires stored > LANE_MAX
    ensures Reaches(stored, s) && Over(s, stored)
  {
    hide Inv, Reaches;
    ReachesLaunch(stored);
    ReachesNext(stored, Launch(stored), FIRE, UNDER_FIRE);
    LaunchKeeps(stored);
    StepKeeps(Launch(stored), FIRE, UNDER_FIRE);
    s := LastGame(stored, FixedStep(Launch(stored), FIRE, UNDER_FIRE));
  }

  // The condition

  /** Every record of the trace is read back as it was emitted, whatever the zone lane. */
  ghost predicate ReadsBack(trace: seq<Event>) {
    forall i, zone: U16 {:trigger Encode(trace[i], zone)} :: 0 <= i < |trace| ==>
      Decode(Encode(trace[i], zone)) == Some(WithZone(trace[i], zone))
  }

  /** All sessions are read back in full exactly when the stored high score fits two lanes. */
  lemma SessionsReadBackExactlyWhen(stored: nat)
    ensures (forall s :: Reaches(stored, s) ==> ReadsBack(s.trace)) <==> stored <= LANE_MAX
  {
    hide Encode, Decode, WithZone, FixedStep, Launch;
    if stored <= LANE_MAX {
      forall s | Reaches(stored, s) ensures ReadsBack(s.trace) {
        var inputs, states :| IsSession(stored, inputs, states) && states[|inputs|] == s;
        forall i, zone: U16 | 0 <= i < |s.trace|
          ensures Decode(Encode(s.trace[i], zone)) == Some(WithZone(s.trace[i], zone))
        {
          SessionEventsSurvive(stored, inputs, states, |inputs|, i, zone);
          if s.trace[i].GameEnded? || s.trace[i].TitleEntered? {
            HighScoresAreBounded(stored, inputs, states, |inputs|, i);
          }
        }
      }
    } else {
      var s := Launch(stored);
      ReachesLaunch(stored);
      assert IsSession(stored, [], [s]);
      TitleIsShown(stored);
      SessionEventsSurvive(stored, [], [s], 0, 1, 0);
      assert !ReadsBack(s.trace);
    }
  }

  lemma TitleIsShown(stored: nat)
    ensures |Launch(stored).trace| == 2 && Launch(stored).trace[1] == TitleEntered(stored, false)
  {
  }

  /** Whatever the zone lane, the record of this event is not read back as it was. */
  ghost predicate Lost(e: Event) {
    forall zone: U16 :: Decode(Encode(e, zone)) != Some(e)
  }

  /** And in some session the record of a game that ended loses it too. */
  lemma GameOverLosesIt(stored: nat)
    requires stored > LANE_MAX
    ensures exists s :: Reaches(stored, s) && Over(s, stored) && Lost(s.trace[|s.trace| - 1])
  {
    hide Encode, Decode, FixedStep, Launch, Reaches;
    var s := LosingSession(stored);
    var last := s.trace[|s.trace| - 1];
    forall zone: U16 ensures Decode(Encode(last, zone)) != Some(last) {
      GameOverSaturates(stored, zone);
    }
  }

  lemma GameOverSaturates(stored: nat, zone: U16)
    requires stored > LANE_MAX
    ensures Decode(Encode(GameEnded(0, stored), zone)) != Some(GameEnded(0, stored))
  {
    hide Split, Join;
    SplitIsLossless(stored);
  }
}
