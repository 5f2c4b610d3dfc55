/** One fixed step in closed form. `SceneModel` is a chain of small functions; here every number of the scene
    and every record after a step is given at once, from the scene before it, the keys and the world. */
module SceneSteps {
  import opened Basics
  import opened Ledger
  import opened SceneModel
  import opened SceneLaws
  import opened SceneTheorems

  // The score

  /** What a kill is worth, and the reason its record gives. */
  function Price(kill: Kill): (int, ScoreReason) {
    match kill
    case ShotDown => (50, Shotdown)
    case BubbleShot => (150, Bubble)
    case EggShot => (50, Egg)
    case FieldDestroyed => (1_000, ForceField)
    case BlownUp => (150, GrenadeKill)
    case GuidanceDestroyed(missileInFlight) => (if missileInFlight then 1_000 else 150, Guidance)
  }

  function Prices(kills: seq<Kill>): seq<(int, ScoreReason)> {
    if kills == [] then [] else [Price(kills[0])] + Prices(kills[1..])
  }

  function Worth(reports: seq<(int, ScoreReason)>): int {
    if reports == [] then 0 else reports[0].0 + Worth(reports[1..])
  }

  /** A score never passes 999 999. */
  function Reach(points: int, more: int): int {
    if points + more < 999_999 then points + more else 999_999
  }

  function Higher(high: int, points: int): int {
    if points > high then points else high
  }

  /** The score records of these reports, each from the score the one before it left, and the high scores they
      set. */
  function Awards(points: int, high: int, reports: seq<(int, ScoreReason)>): seq<Event>
    decreases |reports|
  {
    if reports == [] then []
    else
      var total := Reach(points, reports[0].0);
      [ScoreAwarded(reports[0].0, points, reports[0].1)]
      + (if total > high then [HighScoreSaved(total)] else [])
      + Awards(total, Higher(high, total), reports[1..])
  }

  // The player before the world is met

  /** UP was pressed in a changing room. */
  predicate Toggles(s: Scene, input: Input, w: World) {
    input.jump && !s.latches.jump && !s.dying && w.inBooth
  }

  predicate Worn(s: Scene, input: Input, w: World) {
    s.suit != Toggles(s, input, w)
  }

  /** The seventieth step of the death slide on the ground. */
  predicate SlideEnds(s: Scene, w: World) {
    s.dying && w.grounded && s.groundTimer >= 69
  }

  predicate Revives(s: Scene, w: World) { SlideEnds(s, w) && s.lives >= 2 }

  predicate Perishes(s: Scene, w: World) { SlideEnds(s, w) && s.lives <= 1 }

  /** Steps of protection left when the world is met. */
  function Shield(s: Scene, w: World): nat {
    if Revives(s, w) then 24 else if Perishes(s, w) || s.protection == 0 then 0 else s.protection - 1
  }

  predicate Shoots(s: Scene, input: Input) { !s.dying && input.fire && !s.latches.fire && s.ammo > 0 }

  predicate Throws(s: Scene, input: Input) { !s.dying && input.grenade && !s.latches.grenade && s.grenades > 0 }

  /** Ammunition and grenades before anything is picked up. */
  function AmmoLeft(s: Scene, input: Input, w: World): int {
    if Revives(s, w) then 99 else if Shoots(s, input) then s.ammo - 1 else s.ammo
  }

  function GrenadesLeft(s: Scene, input: Input, w: World): int {
    if Revives(s, w) then 10 else if Throws(s, input) && !w.grenadeInFlight then s.grenades - 1 else s.grenades
  }

  // The world

  predicate Vulnerable(s: Scene, w: World) {
    !s.dying && !s.invulnerable && Shield(s, w) == 0
  }

  predicate IsHit(s: Scene, input: Input, w: World) {
    && Vulnerable(s, w)
    && (w.bulletContact || w.missileContact || (!Worn(s, input, w) && (w.mineContact || w.pistonContact))
        || w.fieldContact || w.hazardContact || w.bubbleContact || w.eggContact)
  }

  /** Bubbles and eggs are asked unless a missile meets a dying player or the player just hit by it, or an
      unprotected living player has met one of the others first. */
  predicate AsksBubbles(s: Scene, input: Input, w: World) {
    var dead := (s.dying && !Revives(s, w)) || (Vulnerable(s, w) && (w.bulletContact || w.missileContact));
    if dead then !w.missileContact
    else Shield(s, w) > 0
         || !((!Worn(s, input, w) && (w.mineContact || w.pistonContact)) || w.fieldContact || w.hazardContact)
  }

  function Contact(s: Scene, input: Input, w: World): seq<(int, ScoreReason)> {
    if !AsksBubbles(s, input, w) then []
    else if w.bubbleContact then [(150, Bubble)]
    else if w.eggContact then [(50, Egg)]
    else []
  }

  function LauncherBonus(w: World): seq<(int, ScoreReason)> {
    if w.launcherBonus then [(1_000, Launcher)] else []
  }

  /** Everything a playing step pays for, in order. */
  function Reports(s: Scene, input: Input, w: World): seq<(int, ScoreReason)> {
    Prices(w.kills) + LauncherBonus(w) + Contact(s, input, w)
  }

  function Picked(ammo: int, grenades: int, pickups: seq<bool>): seq<Event>
    decreases |pickups|
  {
    if pickups == [] then []
    else if pickups[0] then [PickupCollected(true, ammo, 99)] + Picked(99, grenades, pickups[1..])
    else [PickupCollected(false, grenades, 10)] + Picked(ammo, 10, pickups[1..])
  }

  // The records of the player's part

  function SuitTold(s: Scene, input: Input, w: World): seq<Event> {
    if Toggles(s, input, w) then [SuitChanged(!s.suit, ChangingRoom)] else []
  }

  function ArmsTold(s: Scene, input: Input, w: World): seq<Event> {
    (if Shoots(s, input) then [BlasterShot(s.ammo, s.ammo - 1)] else [])
    + (if !Throws(s, input) then []
       else [GrenadeThrown(s.grenades, if w.grenadeInFlight then s.grenades else s.grenades - 1, w.grenadeInFlight)])
  }

  function SlideTold(s: Scene, w: World): seq<Event> {
    if Revives(s, w)
    then [CheckpointSaved(s.zone, 99, 10, s.points, s.lives - 1), DeathSettled(s.lives, s.lives - 1, true)]
    else if Perishes(s, w) then [CheckpointCleared, GameEnded(s.points, s.highScore)]
    else []
  }

  /** Putting the suit on sets the latch, and keeps the step of the first time. */
  function Taken(l: LedgerState, step: nat): LedgerState {
    l.(took := true, activatedAt := if l.activatedAt.None? then Some(step) else l.activatedAt)
  }

  /** A dying player slides, and at the end of the slide is back with a life less, or the game is over. */
  function Slid(s: Scene, input: Input, w: World): Scene {
    s.(flow := if Perishes(s, w) then GameOver else if Revives(s, w) then Respawning else s.flow,
       lives := if SlideEnds(s, w) then s.lives - 1 else s.lives,
       ammo := AmmoLeft(s, input, w), grenades := GrenadesLeft(s, input, w),
       dying := !Revives(s, w), protection := Shield(s, w),
       groundTimer := if w.grounded && s.groundTimer < 69 then s.groundTimer + 1 else 0,
       checkpoint := if Perishes(s, w) then None
                     else if Revives(s, w) then Some(Checkpoint(s.zone, 99, 10, s.points, s.lives - 1))
                     else s.checkpoint,
       ledger := if Perishes(s, w) then s.ledger.(counts := map[], took := false) else s.ledger,
       latches := s.latches.(jump := input.jump, fire := input.fire, grenade := input.grenade,
                             menuFire := if Perishes(s, w) then input.fire else s.latches.menuFire),
       trace := s.trace + SlideTold(s, w))
  }

  /** A living player uses the changing room and the weapons. */
  function Acted(s: Scene, input: Input, w: World): Scene {
    s.(flow := if s.flow.Respawning? && s.protection == 1 then Playing else s.flow,
       ammo := AmmoLeft(s, input, w), grenades := GrenadesLeft(s, input, w),
       suit := Worn(s, input, w), protection := Shield(s, w), groundTimer := 0,
       ledger := if Toggles(s, input, w) && !s.suit then Taken(s.ledger, s.step) else s.ledger,
       latches := s.latches.(jump := input.jump, fire := input.fire, grenade := input.grenade),
       trace := s.trace + (SuitTold(s, input, w) + ArmsTold(s, input, w)))
  }

  /** The player's part of a playing step: the scene as the world meets it. */
  function Readied(s: Scene, input: Input, w: World): Scene {
    if s.dying then Slid(s, input, w) else Acted(s, input, w)
  }

  /** What the invariant says of a scene in play, as far as a step needs it. */
  predicate Fit(s: Scene) {
    && 0 <= s.points <= s.highScore == s.savedHighScore && s.points <= 999_999
    && 1 <= s.lives <= 9 && (s.dying <==> s.flow.PlayerDead?) && Afoot(s)
  }

  lemma InvFits(s: Scene)
    requires Inv(s) && Afoot(s)
    ensures Fit(s)
  {
    hide Tell, AllSound, RisingEnds;
  }

  lemma Fades(s: Scene)
    ensures FadeProtection(s) == s.(protection := if s.protection == 0 then 0 else s.protection - 1,
                                    flow := if s.flow.Respawning? && s.protection == 1 then Playing else s.flow)
  {
  }

  lemma Dresses(s: Scene, input: Input, w: World)
    ensures UseContext(s, input, w)
         == s.(suit := Worn(s, input, w), latches := s.latches.(jump := input.jump),
               ledger := if Toggles(s, input, w) && !s.suit then Taken(s.ledger, s.step) else s.ledger,
               trace := s.trace + SuitTold(s, input, w))
  {
    assert s.trace + [] == s.trace;
  }

  lemma Arms(s: Scene, input: Input, w: World)
    requires !s.dying
    ensures LatchWeapons(ThrowGrenade(FireBlaster(s, input), input, w.grenadeInFlight), input)
         == s.(ammo := AmmoLeft(s, input, w), grenades := GrenadesLeft(s, input, w),
               latches := s.latches.(fire := input.fire, grenade := input.grenade),
               trace := s.trace + ArmsTold(s, input, w))
  {
    assert s.trace + [] == s.trace;
    if Shoots(s, input) && Throws(s, input) {
      var shot := BlasterShot(s.ammo, s.ammo - 1);
      var thrown :=
        GrenadeThrown(s.grenades, if w.grenadeInFlight then s.grenades else s.grenades - 1, w.grenadeInFlight);
      assert (s.trace + [shot]) + [thrown] == s.trace + ([shot] + [thrown]);
    }
  }

  lemma Slides(s: Scene, input: Input, w: World)
    requires s.dying && 1 <= s.lives && s.points <= s.highScore
    ensures UpdateDeath(s, w.grounded, input)
         == s.(flow := if Perishes(s, w) then GameOver else if Revives(s, w) then Respawning else s.flow,
               lives := if SlideEnds(s, w) then s.lives - 1 else s.lives,
               ammo := if Revives(s, w) then 99 else s.ammo, grenades := if Revives(s, w) then 10 else s.grenades,
               dying := !Revives(s, w),
               protection := if Revives(s, w) then 24 else if Perishes(s, w) then 0 else s.protection,
               groundTimer := if w.grounded && s.groundTimer < 69 then s.groundTimer + 1 else 0,
               checkpoint := if Perishes(s, w) then None
                             else if Revives(s, w) then Some(Checkpoint(s.zone, 99, 10, s.points, s.lives - 1))
                             else s.checkpoint,
               ledger := if Perishes(s, w) then s.ledger.(counts := map[], took := false) else s.ledger,
               latches := s.latches.(menuFire := if Perishes(s, w) then input.fire else s.latches.menuFire),
               trace := s.trace + SlideTold(s, w))
  {
    assert s.trace + [] == s.trace;
    if Perishes(s, w) {
      assert (s.trace + [CheckpointCleared]) + [GameEnded(s.points, s.highScore)] == s.trace + SlideTold(s, w);
    } else if Revives(s, w) {
      var saved := CheckpointSaved(s.zone, 99, 10, s.points, s.lives - 1);
      assert (s.trace + [saved]) + [DeathSettled(s.lives, s.lives - 1, true)] == s.trace + SlideTold(s, w);
    }
  }

  lemma DyingStands(s: Scene, input: Input, w: World)
    requires Fit(s) && s.dying
    ensures LatchWeapons(UseContext(FadeProtection(s), input, w), input)
         == s.(protection := if s.protection == 0 then 0 else s.protection - 1,
               latches := s.latches.(jump := input.jump, fire := input.fire, grenade := input.grenade))
  {
    hide FadeProtection;
    Fades(s);
    var s1 := FadeProtection(s);
    assert UseContext(s1, input, w) == s1.(latches := s1.latches.(jump := input.jump));
  }

  lemma DyingUpdates(s: Scene, input: Input, w: World)
    requires s.dying
    ensures UpdatePlayer(s, input, w) == UpdateDeath(LatchWeapons(s, input), w.grounded, input)
  {
    hide UpdateDeath;
  }

  lemma ReadiesDying(s: Scene, input: Input, w: World)
    requires Fit(s) && s.dying
    ensures UpdatePlayer(UseContext(FadeProtection(s), input, w), input, w) == Slid(s, input, w)
  {
    hide UpdatePlayer, FadeProtection, UseContext, UpdateDeath, LatchWeapons, Slid;
    DyingStands(s, input, w);
    StillDying(s, input, w);
    DyingUpdates(UseContext(FadeProtection(s), input, w), input, w);
    var s2 := LatchWeapons(UseContext(FadeProtection(s), input, w), input);
    if Revives(s, w) {
      SlidesBack(s, s2, input, w);
    } else if Perishes(s, w) {
      SlidesOut(s, s2, input, w);
    } else {
      SlidesOn(s, s2, input, w);
    }
  }

  /** The dying player's step before the slide is looked at. */
  predicate Stands(s: Scene, s2: Scene, input: Input) {
    && s.dying && 1 <= s.lives && s.points <= s.highScore
    && s2 == s.(protection := if s.protection == 0 then 0 else s.protection - 1,
                latches := s.latches.(jump := input.jump, fire := input.fire, grenade := input.grenade))
  }

  lemma SlidesBack(s: Scene, s2: Scene, input: Input, w: World)
    requires Stands(s, s2, input) && Revives(s, w)
    ensures UpdateDeath(s2, w.grounded, input) == Slid(s, input, w)
  {
    hide UpdateDeath, SlideTold, AmmoLeft, GrenadesLeft, Perishes, Revives, SlideEnds;
    Slides(s2, input, w);
    SameSlide(s, s2, w);
    SlidingNumbers(s, input, w);
  }

  lemma SlidesOut(s: Scene, s2: Scene, input: Input, w: World)
    requires Stands(s, s2, input) && Perishes(s, w)
    ensures UpdateDeath(s2, w.grounded, input) == Slid(s, input, w)
  {
    hide UpdateDeath, SlideTold, AmmoLeft, GrenadesLeft, Perishes, Revives, SlideEnds;
    Slides(s2, input, w);
    SameSlide(s, s2, w);
    SlidingNumbers(s, input, w);
  }

  lemma SlidesOn(s: Scene, s2: Scene, input: Input, w: World)
    requires Stands(s, s2, input) && !Revives(s, w) && !Perishes(s, w)
    ensures UpdateDeath(s2, w.grounded, input) == Slid(s, input, w)
  {
    hide UpdateDeath, SlideTold, AmmoLeft, GrenadesLeft, Perishes, Revives, SlideEnds;
    Slides(s2, input, w);
    SameSlide(s, s2, w);
    SlidingNumbers(s, input, w);
  }

  lemma SlidingNumbers(s: Scene, input: Input, w: World)
    requires s.dying
    ensures AmmoLeft(s, input, w) == if Revives(s, w) then 99 else s.ammo
    ensures GrenadesLeft(s, input, w) == if Revives(s, w) then 10 else s.grenades
    ensures !(Perishes(s, w) && Revives(s, w))
  {
  }

  lemma StillDying(s: Scene, input: Input, w: World)
    ensures UseContext(FadeProtection(s), input, w).dying == s.dying
  {
  }

  lemma SameSlide(s: Scene, s1: Scene, w: World)
    requires s1.dying == s.dying && s1.groundTimer == s.groundTimer && s1.lives == s.lives && s1.zone == s.zone
    requires s1.points == s.points && s1.highScore == s.highScore
    ensures SlideTold(s1, w) == SlideTold(s, w) && SlideEnds(s1, w) == SlideEnds(s, w)
    ensures Perishes(s1, w) == Perishes(s, w) && Revives(s1, w) == Revives(s, w)
  {
  }

  lemma ReadiesAlive(s: Scene, input: Input, w: World)
    requires Fit(s) && !s.dying
    ensures UpdatePlayer(UseContext(FadeProtection(s), input, w), input, w) == Acted(s, input, w)
  {
    hide FadeProtection, UseContext, FireBlaster, ThrowGrenade, LatchWeapons, Taken, SuitTold, ArmsTold, Shoots, Throws;
    Fades(s);
    var s1 := FadeProtection(s);
    Dresses(s1, input, w);
    var s2 := UseContext(s1, input, w).(groundTimer := 0);
    SameSuit(s, s1, input, w);
    Arms(s2, input, w);
    SameArms(s, s2, input, w);
    assert (s.trace + SuitTold(s, input, w)) + ArmsTold(s, input, w)
        == s.trace + (SuitTold(s, input, w) + ArmsTold(s, input, w));
  }

  lemma SameSuit(s: Scene, s1: Scene, input: Input, w: World)
    requires s1.dying == s.dying && s1.latches == s.latches && s1.suit == s.suit
    ensures SuitTold(s1, input, w) == SuitTold(s, input, w)
  {
  }

  lemma SameArms(s: Scene, s1: Scene, input: Input, w: World)
    requires s1.dying == s.dying && s1.latches.fire == s.latches.fire && s1.latches.grenade == s.latches.grenade
    requires s1.ammo == s.ammo && s1.grenades == s.grenades
    ensures ArmsTold(s1, input, w) == ArmsTold(s, input, w)
    ensures !s.dying ==> AmmoLeft(s1, input, w) == AmmoLeft(s, input, w)
    ensures !s.dying ==> GrenadesLeft(s1, input, w) == GrenadesLeft(s, input, w)
  {
  }

  /** The player's part of a step in one stroke. */
  lemma Readies(s: Scene, input: Input, w: World)
    requires Fit(s)
    ensures UpdatePlayer(UseContext(FadeProtection(s), input, w), input, w) == Readied(s, input, w)
  {
    hide UpdatePlayer, UseContext, FadeProtection, Slid, Acted;
    if s.dying { ReadiesDying(s, input, w); } else { ReadiesAlive(s, input, w); }
  }

  // The world's part

  /** The scene after these score reports. */
  function Scored(s: Scene, reports: seq<(int, ScoreReason)>): Scene {
    var total := Reach(s.points, Worth(reports));
    s.(points := total, highScore := Higher(s.highScore, total), savedHighScore := Higher(s.highScore, total),
       trace := s.trace + Awards(s.points, s.highScore, reports))
  }

  predicate AllPay(reports: seq<(int, ScoreReason)>) {
    forall i :: 0 <= i < |reports| ==> reports[i].0 > 0
  }

  predicate ScoreFits(s: Scene) {
    s.points <= s.highScore == s.savedHighScore && s.points <= 999_999
  }

  lemma NothingScored(s: Scene)
    requires ScoreFits(s)
    ensures Scored(s, []) == s
  {
    assert s.trace + [] == s.trace;
  }

  lemma OneScored(s: Scene, points: int, reason: ScoreReason)
    requires ScoreFits(s) && points > 0
    ensures SceneModel.AwardPoints(s, points, reason) == Scored(s, [(points, reason)])
  {
    var reports := [(points, reason)];
    assert reports[1..] == [];
    assert Worth(reports) == points;
    var total := Reach(s.points, points);
    var award := ScoreAwarded(points, s.points, reason);
    assert Awards(total, Higher(s.highScore, total), []) == [];
    assert (s.trace + [award]) + [HighScoreSaved(total)] == s.trace + ([award] + [HighScoreSaved(total)] + []);
    assert [award] + [] + [] == [award];
  }

  lemma {:induction false} WorthOfBoth(a: seq<(int, ScoreReason)>, b: seq<(int, ScoreReason)>)
    requires AllPay(a)
    ensures Worth(a + b) == Worth(a) + Worth(b) && Worth(a) >= 0
  {
    if a == [] {
      assert a + b == b;
    } else {
      WorthOfBoth(a[1..], b);
      assert (a + b)[1..] == a[1..] + b;
    }
  }

  /** The record of one report, and the high score it sets. */
  function Award(points: int, high: int, report: (int, ScoreReason)): seq<Event> {
    var total := Reach(points, report.0);
    [ScoreAwarded(report.0, points, report.1)] + (if total > high then [HighScoreSaved(total)] else [])
  }

  lemma FirstAward(points: int, high: int, report: (int, ScoreReason), rest: seq<(int, ScoreReason)>)
    ensures var total := Reach(points, report.0);
            && Awards(points, high, [report] + rest)
               == Award(points, high, report) + Awards(total, Higher(high, total), rest)
    ensures Worth([report] + rest) == report.0 + Worth(rest)
  {
    assert ([report] + rest)[1..] == rest;
  }

  /** Points added one after the other reach what they reach together. */
  lemma ReachesOn(points: int, more: int, further: int)
    requires more >= 0 && further >= 0 && points <= 999_999
    ensures Reach(Reach(points, more), further) == Reach(points, more + further)
    ensures points <= Reach(points, more) <= Reach(points, more + further) <= 999_999
    ensures forall high :: Higher(Higher(high, Reach(points, more)), Reach(points, more + further))
                        == Higher(high, Reach(points, more + further))
  {
  }

  lemma {:induction false} AwardsOfBoth(points: int, high: int, a: seq<(int, ScoreReason)>, b: seq<(int, ScoreReason)>)
    requires AllPay(a) && points <= high && points <= 999_999
    ensures Awards(points, high, a + b)
         == Awards(points, high, a) + Awards(Reach(points, Worth(a)), Higher(high, Reach(points, Worth(a))), b)
    decreases |a|
  {
    hide Awards, Worth, Award, Reach, Higher;
    if a == [] {
      NoAwards(points, high);
      assert a + b == b && [] + Awards(points, high, b) == Awards(points, high, b);
    } else {
      var r, rest := a[0], a[1..];
      var total := Reach(points, r.0);
      assert a == [r] + rest && a + b == [r] + (rest + b);
      FirstAward(points, high, r, rest);
      FirstAward(points, high, r, rest + b);
      assert AllPay(rest);
      WorthOfBoth(rest, []);
      ReachesOn(points, r.0, Worth(rest));
      StillHighest(points, high, r.0);
      AwardsOfBoth(total, Higher(high, total), rest, b);
    }
  }

  lemma NoAwards(points: int, high: int)
    requires points <= high && points <= 999_999
    ensures Awards(points, high, []) == [] && Worth([]) == 0
    ensures Reach(points, 0) == points && Higher(high, points) == high
  {
  }

  lemma StillHighest(points: int, high: int, more: int)
    requires points <= high
    ensures Reach(points, more) <= Higher(high, Reach(points, more))
  {
  }

  /** Reports one after the other are all of them at once. */
  lemma ScoredTwice(s: Scene, a: seq<(int, ScoreReason)>, b: seq<(int, ScoreReason)>)
    requires ScoreFits(s) && AllPay(a) && AllPay(b)
    ensures Scored(Scored(s, a), b) == Scored(s, a + b) && ScoreFits(Scored(s, a))
  {
    hide Worth, Awards;
    AwardsOfBoth(s.points, s.highScore, a, b);
    WorthOfBoth(a, b);
    WorthOfBoth(b, []);
    assert b + [] == b;
    var s1 := Scored(s, a);
    assert s1.trace + Awards(s1.points, s1.highScore, b)
        == s.trace + (Awards(s.points, s.highScore, a) + Awards(s1.points, s1.highScore, b));
  }

  lemma {:induction false} PricesMore(kills: seq<Kill>, kill: Kill)
    ensures Prices(kills + [kill]) == Prices(kills) + [Price(kill)]
    ensures AllPay(Prices(kills)) && |Prices(kills)| == |kills|
  {
    if kills == [] {
      assert (kills + [kill])[1..] == [];
    } else {
      PricesMore(kills[1..], kill);
      assert (kills + [kill])[1..] == kills[1..] + [kill] && (kills + [kill])[0] == kills[0];
    }
  }

  lemma {:induction false} KillsScore(s: Scene, kills: seq<Kill>)
    requires ScoreFits(s)
    ensures AwardKills(s, kills) == Scored(s, Prices(kills)) && AllPay(Prices(kills))
  {
    hide Scored, ScoreFits, AllPay;
    if kills == [] {
      NothingScored(s);
      assert AllPay([]) by { NonePay(); }
    } else {
      var n := |kills| - 1;
      KillsScore(s, kills[..n]);
      var s1 := AwardKills(s, kills[..n]);
      var (points, reason) := Price(kills[n]);
      assert points > 0 && points == KillPoints(kills[n]) && reason == KillReason(kills[n]);
      PricesMore(kills[..n], kills[n]);
      PricesMore(kills, kills[n]);
      assert kills == kills[..n] + [kills[n]];
      assert AllPay([(points, reason)]) by { OnePays(points, reason); }
      ScoredTwice(s, Prices(kills[..n]), [(points, reason)]);
      OneScored(s1, points, reason);
    }
  }

  lemma NonePay()
    ensures AllPay([])
  {
  }

  lemma OnePays(points: int, reason: ScoreReason)
    requires points > 0
    ensures AllPay([(points, reason)])
  {
  }

  lemma {:induction false} PickedMore(ammo: int, grenades: int, pickups: seq<bool>, last: bool)
    ensures Picked(ammo, grenades, pickups + [last])
         == Picked(ammo, grenades, pickups)
            + [if last then PickupCollected(true, if true in pickups then 99 else ammo, 99)
               else PickupCollected(false, if false in pickups then 10 else grenades, 10)]
    decreases |pickups|
  {
    if pickups == [] {
      assert (pickups + [last])[1..] == [];
    } else {
      PickedMore(if pickups[0] then 99 else ammo, if pickups[0] then grenades else 10, pickups[1..], last);
      assert (pickups + [last])[1..] == pickups[1..] + [last] && (pickups + [last])[0] == pickups[0];
      assert pickups == [pickups[0]] + pickups[1..];
    }
  }

  lemma CollectsOne(s: Scene, isAmmo: bool)
    ensures Collect(s, isAmmo)
         == s.(ammo := if isAmmo then 99 else s.ammo, grenades := if isAmmo then s.grenades else 10,
               trace := s.trace + [if isAmmo then PickupCollected(true, s.ammo, 99)
                                   else PickupCollected(false, s.grenades, 10)])
  {
  }

  /** Everything picked up at once. */
  function Collected(s: Scene, pickups: seq<bool>): Scene {
    s.(ammo := if true in pickups then 99 else s.ammo, grenades := if false in pickups then 10 else s.grenades,
       trace := s.trace + Picked(s.ammo, s.grenades, pickups))
  }

  lemma CollectsMore(s: Scene, pickups: seq<bool>, last: bool)
    ensures Collect(Collected(s, pickups), last) == Collected(s, pickups + [last])
  {
    hide Picked, Collect;
    CollectsOne(Collected(s, pickups), last);
    PickedMore(s.ammo, s.grenades, pickups, last);
    assert forall isAmmo :: isAmmo in pickups + [last] <==> isAmmo in pickups || isAmmo == last;
  }

  lemma {:induction false} Collects(s: Scene, pickups: seq<bool>)
    ensures CollectAll(s, pickups) == Collected(s, pickups)
  {
    hide Collect, Collected;
    if pickups == [] {
      NonePicked(s);
    } else {
      var n := |pickups| - 1;
      Collects(s, pickups[..n]);
      CollectsMore(s, pickups[..n], pickups[n]);
      assert pickups == pickups[..n] + [pickups[n]];
    }
  }

  lemma NonePicked(s: Scene)
    ensures Collected(s, []) == s
  {
    assert s.trace + [] == s.trace;
  }

  /** Nothing but a hit happens to a player the lethal entities touch, and bubbles and eggs pay. */
  lemma FacesLethals(u: Scene, w: World, dead: bool, hits: bool, asks: bool, contact: seq<(int, ScoreReason)>)
    requires ScoreFits(u) && dead == (u.dying || (w.missileContact && Exposed(u) && !u.invulnerable))
    requires asks == if dead then !w.missileContact
                     else !Exposed(u) || !((!u.suit && (w.mineContact || w.pistonContact)) || w.fieldContact
                                           || w.hazardContact)
    requires contact == if asks && w.bubbleContact then [(150, Bubble)]
                        else if asks && w.eggContact then [(50, Egg)] else []
    requires hits == (Exposed(u) && !u.invulnerable
                      && (w.missileContact || (!u.suit && (w.mineContact || w.pistonContact)) || w.fieldContact
                          || w.hazardContact || w.bubbleContact || w.eggContact))
    ensures FaceLethalEntities(u, w) == if hits then HitPlayer(Scored(u, contact)) else Scored(u, contact)
  {
    hide Scored, SceneModel.AwardPoints;
    NothingScored(u);
    OneScored(u, 150, Bubble);
    OneScored(u, 50, Egg);
    ScoredLives(u, contact);
  }

  lemma ScoredLives(u: Scene, reports: seq<(int, ScoreReason)>)
    ensures var s1 := Scored(u, reports);
            s1.dying == u.dying && s1.protection == u.protection && s1.invulnerable == u.invulnerable
  {
  }

  /** The records of the world's part: the kills, a death by a bullet, the pickups, what else is paid, and any
      other death. */
  function WorldTold(s: Scene, input: Input, w: World): seq<Event> {
    var kills := Prices(w.kills);
    var shot := w.bulletContact && Vulnerable(s, w);
    var ammo, grenades := AmmoLeft(s, input, w), GrenadesLeft(s, input, w);
    var points := Reach(s.points, Worth(kills));
    Awards(s.points, s.highScore, kills)
    + (if shot then [DeathBegan(s.lives, ammo, grenades)] else [])
    + Picked(ammo, grenades, w.pickups)
    + Awards(points, Higher(s.highScore, points), LauncherBonus(w) + Contact(s, input, w))
    + (if IsHit(s, input, w) && !shot
       then [DeathBegan(s.lives, if true in w.pickups then 99 else ammo, if false in w.pickups then 10 else grenades)]
       else [])
  }

  /** The scene of a playing step when the player is asked whether the screen is left. */
  function Met(s: Scene, input: Input, w: World): Scene {
    var u := Readied(s, input, w);
    var total := Reach(s.points, Worth(Reports(s, input, w)));
    u.(points := total, highScore := Higher(s.highScore, total), savedHighScore := Higher(s.highScore, total),
       ammo := if true in w.pickups then 99 else AmmoLeft(s, input, w),
       grenades := if false in w.pickups then 10 else GrenadesLeft(s, input, w),
       dying := u.dying || IsHit(s, input, w), flow := if IsHit(s, input, w) then PlayerDead else u.flow,
       trace := u.trace + WorldTold(s, input, w))
  }

  /** A hit as the world meets it, in a scene that is otherwise ready. */
  lemma ReadyFacts(s: Scene, input: Input, w: World)
    requires Fit(s)
    ensures var u := Readied(s, input, w);
            && ScoreFits(u) && u.points == s.points && u.highScore == s.highScore
            && (Exposed(u) && !u.invulnerable <==> Vulnerable(s, w))
            && (Exposed(u) <==> Shield(s, w) == 0 && !u.dying)
            && (u.dying <==> s.dying && !Revives(s, w))
            && (Vulnerable(s, w) ==> u.lives == s.lives && u.groundTimer == 0)
            && u.suit == Worn(s, input, w) && u.invulnerable == s.invulnerable
            && u.ammo == AmmoLeft(s, input, w) && u.grenades == GrenadesLeft(s, input, w)
  {
  }

  lemma LauncherScores(s: Scene, w: World)
    requires ScoreFits(s)
    ensures (if w.launcherBonus then SceneModel.AwardPoints(s, 1_000, Launcher) else s) == Scored(s, LauncherBonus(w))
    ensures AllPay(LauncherBonus(w)) && ScoreFits(Scored(s, LauncherBonus(w)))
  {
    hide Scored, SceneModel.AwardPoints, ScoreFits;
    NothingScored(s);
    OneScored(s, 1_000, Launcher);
    NonePay();
    OnePays(1_000, Launcher);
    ScoredTwice(s, LauncherBonus(w), []);
  }

  lemma ContactPays(s: Scene, input: Input, w: World)
    ensures AllPay(Contact(s, input, w))
  {
  }

  /** The end of the world's part, from the scene that has picked up what there is. */
  lemma FacesTheRest(u: Scene, s: Scene, input: Input, w: World)
    requires ScoreFits(u) && u.suit == Worn(s, input, w) && u.invulnerable == s.invulnerable
    requires Exposed(u) <==> Shield(s, w) == 0 && !u.dying
    requires u.dying <==> (s.dying && !Revives(s, w)) || (Vulnerable(s, w) && w.bulletContact)
    ensures var bonus := if w.launcherBonus then SceneModel.AwardPoints(u, 1_000, Launcher) else u;
            var paid := Scored(u, LauncherBonus(w) + Contact(s, input, w));
            FaceLethalEntities(bonus, w) == (if IsHit(s, input, w) && !w.bulletContact then HitPlayer(paid) else paid)
  {
    hide Scored, SceneModel.AwardPoints, FaceLethalEntities, HitPlayer, Worn;
    LauncherScores(u, w);
    var bonus := Scored(u, LauncherBonus(w));
    ScoredLives(u, LauncherBonus(w));
    ContactPays(s, input, w);
    ScoredTwice(u, LauncherBonus(w), Contact(s, input, w));
    assert bonus.suit == u.suit by { ScoredDress(u, LauncherBonus(w)); }
    FacesLethals(bonus, w, bonus.dying || (w.missileContact && Exposed(bonus) && !bonus.invulnerable),
                 IsHit(s, input, w) && !w.bulletContact, AsksBubbles(s, input, w), Contact(s, input, w));
  }

  lemma ScoredDress(u: Scene, reports: seq<(int, ScoreReason)>)
    ensures Scored(u, reports).suit == u.suit
  {
  }

  lemma WorthAdds(s: Scene, input: Input, w: World, points: int)
    requires points <= 999_999
    ensures var kills, rest := Prices(w.kills), LauncherBonus(w) + Contact(s, input, w);
            && Reach(Reach(points, Worth(kills)), Worth(rest)) == Reach(points, Worth(Reports(s, input, w)))
            && Reach(points, Worth(kills)) <= Reach(points, Worth(Reports(s, input, w)))
            && points <= Reach(points, Worth(kills)) <= 999_999
  {
    hide Prices, Worth, Contact, Reach;
    var kills, rest := Prices(w.kills), LauncherBonus(w) + Contact(s, input, w);
    PricesMore(w.kills, ShotDown);
    ContactPays(s, input, w);
    assert AllPay(rest);
    WorthOfBoth(kills, rest);
    WorthOfBoth(rest, []);
    assert rest + [] == rest && kills + LauncherBonus(w) + Contact(s, input, w) == kills + rest;
    ReachesOn(points, Worth(kills), Worth(rest));
  }

  /** The world's part, for a player it has not shot. */
  lemma MeetsUnshot(s: Scene, input: Input, w: World)
    requires Fit(s) && !(w.bulletContact && Vulnerable(s, w))
    ensures MeetWorld(Readied(s, input, w), w) == Met(s, input, w)
  {
    hide Readied, AwardKills, CollectAll, FaceLethalEntities, Prices, Awards, Worth, Picked, SceneModel.AwardPoints,
      Reports, LauncherBonus, Contact, AmmoLeft, GrenadesLeft, Shield, Worn, Revives, Reach;
    ReadyFacts(s, input, w);
    var u, rest := Readied(s, input, w), LauncherBonus(w) + Contact(s, input, w);
    KillsScore(u, w.kills);
    WorthAdds(s, input, w, s.points);
    var s1 := AwardKills(u, w.kills);
    Collects(s1, w.pickups);
    var s3 := CollectAll(s1, w.pickups);
    FacesTheRest(s3, s, input, w);
    var paid := Scored(s3, rest);
    var told := Awards(s.points, s.highScore, Prices(w.kills)) + [] + Picked(u.ammo, u.grenades, w.pickups)
                + Awards(s1.points, s1.highScore, rest);
    assert paid.trace == u.trace + told;
    var death := DeathBegan(s.lives, paid.ammo, paid.grenades);
    assert (u.trace + told) + [death] == u.trace + (told + [death]) && told + [] == told;
  }

  /** Shot, the player dies before anything is picked up. */
  lemma MeetsShot(s: Scene, input: Input, w: World)
    requires Fit(s) && w.bulletContact && Vulnerable(s, w)
    ensures MeetWorld(Readied(s, input, w), w) == Met(s, input, w)
  {
    hide Readied, AwardKills, CollectAll, FaceLethalEntities, Prices, Awards, Worth, Picked, SceneModel.AwardPoints,
      Reports, LauncherBonus, Contact, AmmoLeft, GrenadesLeft, Worn, Revives, Reach;
    ReadyFacts(s, input, w);
    var u, rest := Readied(s, input, w), LauncherBonus(w) + Contact(s, input, w);
    KillsScore(u, w.kills);
    WorthAdds(s, input, w, s.points);
    var s1 := AwardKills(u, w.kills);
    var death := DeathBegan(s.lives, u.ammo, u.grenades);
    var s2 := s1.(dying := true, flow := PlayerDead, groundTimer := 0, trace := s1.trace + [death]);
    assert Exposed(s1) && HitPlayer(s1) == s2;
    Collects(s2, w.pickups);
    var s3 := CollectAll(s2, w.pickups);
    FacesTheRest(s3, s, input, w);
    var paid := Scored(s3, rest);
    var told := Awards(s.points, s.highScore, Prices(w.kills)) + [death] + Picked(u.ammo, u.grenades, w.pickups)
                + Awards(s1.points, s1.highScore, rest);
    assert paid.trace == u.trace + told && told + [] == told;
  }

  /** Up to the question whether the screen is left, a playing step is its closed form. */
  lemma MeetsInOne(s: Scene, input: Input, w: World)
    requires Fit(s)
    ensures Approach(s, input, w) == Met(s, input, w)
  {
    hide MeetWorld, UpdatePlayer, UseContext, FadeProtection, Readied, Met, Fit;
    Readies(s, input, w);
    if w.bulletContact && Vulnerable(s, w) { MeetsShot(s, input, w); } else { MeetsUnshot(s, input, w); }
  }

  /** In every session, the scene in which a playing step asks whether the screen is left is given at once by
      the scene before, the keys and the world; and if it is not left, that is the step. */
  lemma StepInClosedForm(stored: nat, inputs: seq<(Input, World)>, states: seq<Scene>, n: nat)
    requires IsSession(stored, inputs, states) && n < |inputs|
    requires Afoot(states[n]) && !inputs[n].0.pausePress
    ensures var met := Met(states[n].(step := states[n].step + 1), inputs[n].0, inputs[n].1);
            && Asked(states[n], inputs[n].0, inputs[n].1) == met
            && (!Leaves(states[n], inputs[n].0, inputs[n].1) ==> states[n + 1] == met)
  {
    hide Inv, Fit, Met, Approach, LeaveScreen;
    SessionKeeps(stored, inputs, states, n);
    Counted(states[n]);
    InvFits(states[n].(step := states[n].step + 1));
    MeetsInOne(states[n].(step := states[n].step + 1), inputs[n].0, inputs[n].1);
    assert states[n + 1] == FixedStep(states[n], inputs[n].0, inputs[n].1);
  }

  /** The score records of a trace. */
  function ScoresOf(trace: seq<Event>): seq<Event> {
    if trace == [] then []
    else ScoresOf(trace[..|trace| - 1])
         + if trace[|trace| - 1].ScoreAwarded? then [trace[|trace| - 1]] else []
  }

  /** One record for each report, from the score the one before it left. */
  function Recorded(points: int, reports: seq<(int, ScoreReason)>): seq<Event>
    decreases |reports|
  {
    if reports == [] then []
    else [ScoreAwarded(reports[0].0, points, reports[0].1)] + Recorded(Reach(points, reports[0].0), reports[1..])
  }

  lemma {:induction false} ScoresOfBoth(a: seq<Event>, b: seq<Event>)
    ensures ScoresOf(a + b) == ScoresOf(a) + ScoresOf(b)
  {
    if b == [] {
      assert a + b == a && ScoresOf(a) + [] == ScoresOf(a);
    } else {
      var n := |b| - 1;
      ScoresOfBoth(a, b[..n]);
      assert (a + b)[..|a + b| - 1] == a + b[..n] && (a + b)[|a + b| - 1] == b[n];
    }
  }

  lemma {:induction false} NoScores(trace: seq<Event>)
    requires forall i :: 0 <= i < |trace| ==> !trace[i].ScoreAwarded?
    ensures ScoresOf(trace) == []
  {
    if trace != [] { NoScores(trace[..|trace| - 1]); }
  }

  lemma {:induction false} AwardsAreRecorded(points: int, high: int, reports: seq<(int, ScoreReason)>)
    ensures ScoresOf(Awards(points, high, reports)) == Recorded(points, reports)
    decreases |reports|
  {
    if reports != [] {
      var total := Reach(points, reports[0].0);
      var award, saved := [ScoreAwarded(reports[0].0, points, reports[0].1)],
                          if total > high then [HighScoreSaved(total)] else [];
      AwardsAreRecorded(total, Higher(high, total), reports[1..]);
      ScoresOfBoth(award + saved, Awards(total, Higher(high, total), reports[1..]));
      ScoresOfBoth(award, saved);
      NoScores(saved);
      assert award[..0] == [] && ScoresOf([]) == [] && ScoresOf(award) == award;
    }
  }

  lemma {:induction false} RecordedOfBoth(points: int, a: seq<(int, ScoreReason)>, b: seq<(int, ScoreReason)>)
    requires AllPay(a) && points <= 999_999
    ensures Recorded(points, a + b) == Recorded(points, a) + Recorded(Reach(points, Worth(a)), b)
    decreases |a|
  {
    if a == [] {
      assert a + b == b && [] + Recorded(points, b) == Recorded(points, b);
    } else {
      RecordedOfBoth(Reach(points, a[0].0), a[1..], b);
      WorthOfBoth(a[1..], []);
      assert (a + b)[1..] == a[1..] + b && (a + b)[0] == a[0];
    }
  }

  lemma {:induction false} PicksScoreNothing(ammo: int, grenades: int, pickups: seq<bool>)
    ensures forall i :: 0 <= i < |Picked(ammo, grenades, pickups)| ==>
              !Picked(ammo, grenades, pickups)[i].ScoreAwarded?
    decreases |pickups|
  {
    if pickups != [] {
      PicksScoreNothing(if pickups[0] then 99 else ammo, if pickups[0] then grenades else 10, pickups[1..]);
    }
  }

  lemma WorldScores(s: Scene, input: Input, w: World)
    requires s.points <= 999_999
    ensures ScoresOf(WorldTold(s, input, w)) == Recorded(s.points, Reports(s, input, w))
  {
    hide ScoresOf, Awards, Recorded, Prices, Worth, Picked, LauncherBonus, Contact, Vulnerable, IsHit, Reach;
    var kills, rest := Prices(w.kills), LauncherBonus(w) + Contact(s, input, w);
    var shot := w.bulletContact && Vulnerable(s, w);
    var ammo, grenades := AmmoLeft(s, input, w), GrenadesLeft(s, input, w);
    var points := Reach(s.points, Worth(kills));
    var first, last := if shot then [DeathBegan(s.lives, ammo, grenades)] else [],
      if IsHit(s, input, w) && !shot
      then [DeathBegan(s.lives, if true in w.pickups then 99 else ammo, if false in w.pickups then 10 else grenades)]
      else [];
    var a, p, b := Awards(s.points, s.highScore, kills), Picked(ammo, grenades, w.pickups),
                   Awards(points, Higher(s.highScore, points), rest);
    ScoresOfBoth(a, first);
    ScoresOfBoth(a + first, p);
    ScoresOfBoth(a + first + p, b);
    ScoresOfBoth(a + first + p + b, last);
    NoScores(first);
    NoScores(last);
    PicksScoreNothing(ammo, grenades, w.pickups);
    NoScores(p);
    AwardsAreRecorded(s.points, s.highScore, kills);
    AwardsAreRecorded(points, Higher(s.highScore, points), rest);
    PricesMore(w.kills, ShotDown);
    RecordedOfBoth(s.points, kills, rest);
    assert kills + LauncherBonus(w) + Contact(s, input, w) == kills + rest;
  }

  lemma ReadiedScores(s: Scene, input: Input, w: World)
    ensures ScoresOf(Readied(s, input, w).trace) == ScoresOf(s.trace)
  {
    hide ScoresOf;
    var told := if s.dying then SlideTold(s, w) else SuitTold(s, input, w) + ArmsTold(s, input, w);
    assert Readied(s, input, w).trace == s.trace + told;
    NoScores(told);
    ScoresOfBoth(s.trace, told);
    assert ScoresOf(s.trace) + [] == ScoresOf(s.trace);
  }

  /** Every playing step up to the exit pays exactly what the world reports, capped, with one score record
      for each report, in order: kills by kind, the launcher, and a bubble or an egg that is asked. */
  lemma StepPaysItsReports(stored: nat, inputs: seq<(Input, World)>, states: seq<Scene>, n: nat)
    requires IsSession(stored, inputs, states) && n < |inputs|
    requires Afoot(states[n]) && !inputs[n].0.pausePress
    ensures var s, (input, w), a := states[n], inputs[n], Asked(states[n], inputs[n].0, inputs[n].1);
            var reports := Reports(s, input, w);
            && a.points == (if s.points + Worth(reports) < 999_999 then s.points + Worth(reports) else 999_999)
            && ScoresOf(a.trace) == ScoresOf(s.trace) + Recorded(s.points, reports)
            && (!Leaves(s, input, w) ==> states[n + 1] == a)
  {
    hide Inv, Approach, LeaveScreen, ScoresOf, Recorded, Worth, Readied, WorldTold, Reports;
    var s, input, w := states[n].(step := states[n].step + 1), inputs[n].0, inputs[n].1;
    SessionKeeps(stored, inputs, states, n);
    Counted(states[n]);
    InvFits(s);
    StepInClosedForm(stored, inputs, states, n);
    ReadiedScores(s, input, w);
    WorldScores(s, input, w);
    ScoresOfBoth(Readied(s, input, w).trace, WorldTold(s, input, w));
    assert Reports(s, input, w) == Reports(states[n], input, w) by { StepsDoNotReport(states[n], input, w); }
  }

  lemma StepsDoNotReport(s: Scene, input: Input, w: World)
    ensures Reports(s.(step := s.step + 1), input, w) == Reports(s, input, w)
  {
  }
}
