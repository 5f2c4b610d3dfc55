/** How scene events travel as 16-bit lanes, and what a reader of those lanes recovers: every event
    of every session, and from the score records alone the game's score. */
module SceneWire {
  import opened FixedWidth
  import opened Lanes
  import opened Basics
  import opened Ledger
  import opened SceneModel
  import opened SceneLaws
  import SceneTheorems

  /** The payload part of one record: its kind, the log's zone lane and the packed lanes. */
  datatype Wire = Wire(kind: nat, zone: U16, entity: U16, a: I16, b: I16, c: I16, d: I16)

  /** A field masked out of an integer: its low bits. */
  function Field(n: int, size: nat): nat
    requires size > 0
  {
    n % size
  }

  /** Seven bits of ammunition, five of grenades and four of lives. No two overlap, so OR is a sum. */
  function PackCheckpoint(ammo: int, grenades: int, lives: int): U16 {
    Field(ammo, 128) + 128 * Field(grenades, 32) + 4_096 * Field(lives, 16)
  }

  /** Four bits of lives before, four of lives after, and the refill flag above them. */
  function PackStagePoints(livesBefore: int, livesAfter: int, ammoReset: bool): U16 {
    Field(livesBefore, 16) + 16 * Field(livesAfter, 16) + if ammoReset then 256 else 0
  }

  function ComponentCode(c: Component): U16 {
    match c
    case LivesTimes1000 => 0
    case BraveryNoExoskeleton => 1
    case TimedPhaseLadder => 2
  }

  function ReasonCode(reason: ScoreReason): U16 {
    match reason
    case Shotdown => 0
    case Bubble => 1
    case Egg => 2
    case ForceField => 3
    case GrenadeKill => 4
    case Guidance => 5
    case Launcher => 6
    case Boundary => 7
  }

  function ReasonOf(code: U16): ScoreReason
    requires code <= 7
  {
    [Shotdown, Bubble, Egg, ForceField, GrenadeKill, Guidance, Launcher, Boundary][code]
  }

  function CauseCode(cause: SuitCause): U16 {
    match cause
    case ChangingRoom => 0
    case Cheat => 1
    case Reset => 2
    case StageBoundary => 3
  }

  function Bit(b: bool): I16 {
    if b then 1 else 0
  }

  /** The producer helpers, lane by lane. Positions and labels are left at zero. */
  function Encode(e: Event, zone: U16): Wire {
    match e
    case ScoreAwarded(points, before, reason) =>
      var s := Split(before);
      Wire(29, zone, ReasonCode(reason), TruncateToI16(points), s.0, s.1, 0)
    case HighScoreSaved(value) =>
      var s := Split(value);
      Wire(30, zone, 0, s.0, s.1, 0, 0)
    case RunRestarted(_, discarded) =>
      var s := Split(discarded);
      Wire(42, zone, 0, s.0, s.1, 0, 0)
    case CheckpointSaved(_, ammo, grenades, points, lives) =>
      var s := Split(points);
      Wire(38, zone, PackCheckpoint(ammo, grenades, lives), 0, s.0, s.1, 0)
    case CheckpointCleared => Wire(39, zone, 0, 0, 0, 0, 0)
    case StagePoints(_, points, before, after) =>
      var s := Split(points);
      Wire(26, zone, PackStagePoints(before, after, true), s.0, s.1, 0, 0)
    case StageComponent(_, id, points) => Wire(27, zone, ComponentCode(id), TruncateToI16(points), 0, 0, 0)
    case BoundarySuppressed(_, why) => Wire(28, zone, if why.AlreadyAwarded? then 0 else 1, 0, 0, 0, 0)
    case SuitChanged(enabled, cause) => Wire(13, zone, CauseCode(cause), Bit(enabled), 0, 0, 0)
    case ZoneEntered(to) => Wire(35, zone, Field(to, TWO_TO_16), 0, 0, 0, 0)
    case TitleEntered(high, saved) =>
      var s := Split(high);
      Wire(37, zone, if saved then 1 else 0, s.0, s.1, 0, 0)
    case BlasterShot(before, after) => Wire(14, zone, 0, 0, 0, TruncateToI16(before), TruncateToI16(after))
    case GrenadeThrown(before, after, blocked) =>
      Wire(16, zone, if blocked then 2 else 0, 0, 0, TruncateToI16(before), TruncateToI16(after))
    case PickupCollected(isAmmo, before, after) =>
      Wire(24, zone, if isAmmo then 1 else 0, 0, 0, TruncateToI16(before), TruncateToI16(after))
    case DeathBegan(lives, ammo, grenades) =>
      Wire(18, zone, Field(grenades, TWO_TO_16), 0, 0, TruncateToI16(lives), TruncateToI16(ammo))
    case DeathSettled(before, after, saved) =>
      Wire(20, zone, if saved then 1 else 0, TruncateToI16(before), TruncateToI16(after),
           PROTECTION_STEPS, SETTLE_STEPS)
    case GameEnded(points, high) =>
      var s, t := Split(points), Split(high);
      Wire(21, zone, 1, s.0, s.1, t.0, t.1)
  }

  /** The formatter's reading of the lanes, kind by kind. */
  function Decode(w: Wire): Option<Event> {
    if w.kind == 29 && w.entity <= 7 then Some(ScoreAwarded(w.a, Join(w.b, w.c), ReasonOf(w.entity)))
    else if w.kind == 30 then Some(HighScoreSaved(Join(w.a, w.b)))
    else if w.kind == 42 then Some(RunRestarted(w.zone, Join(w.a, w.b)))
    else if w.kind == 38 then
      Some(CheckpointSaved(w.zone, w.entity % 128, w.entity / 128 % 32, Join(w.b, w.c), w.entity / 4_096 % 16))
    else if w.kind == 39 then Some(CheckpointCleared)
    else if w.kind == 37 then Some(TitleEntered(Join(w.a, w.b), w.entity % 2 != 0))
    else if w.kind == 26 then Some(StagePoints(w.zone, Join(w.a, w.b), w.entity % 16, w.entity / 16 % 16))
    else if w.kind == 27 && w.entity <= 2 then
      Some(StageComponent(w.zone, if w.entity == 0 then LivesTimes1000
                                  else if w.entity == 1 then BraveryNoExoskeleton else TimedPhaseLadder, w.a))
    else if w.kind == 28 && w.entity <= 1 then
      Some(BoundarySuppressed(w.zone, if w.entity == 0 then AlreadyAwarded else NotStageEnd))
    else if w.kind == 13 && w.entity <= 3 then
      Some(SuitChanged(w.a != 0, if w.entity == 0 then ChangingRoom else if w.entity == 1 then Cheat
                                 else if w.entity == 2 then Reset else StageBoundary))
    else if w.kind == 35 then Some(ZoneEntered(w.entity))
    else if w.kind == 14 then Some(BlasterShot(w.c, w.d))
    else if w.kind == 16 then Some(GrenadeThrown(w.c, w.d, w.entity / 2 % 2 != 0))
    else if w.kind == 24 && w.entity <= 1 then Some(PickupCollected(w.entity == 1, w.c, w.d))
    else if w.kind == 18 then Some(DeathBegan(w.c, w.d, w.entity))
    else if w.kind == 20 then Some(DeathSettled(w.a, w.b, w.entity % 2 != 0))
    else if w.kind == 21 then Some(GameEnded(Join(w.a, w.b), Join(w.c, w.d)))
    else None
  }

  /** The zone of a record is the log's zone lane, not the event's own. */
  function WithZone(e: Event, zone: int): Event {
    match e
    case RunRestarted(_, discarded) => RunRestarted(zone, discarded)
    case CheckpointSaved(_, ammo, grenades, points, lives) => CheckpointSaved(zone, ammo, grenades, points, lives)
    case StagePoints(_, points, before, after) => StagePoints(zone, points, before, after)
    case StageComponent(_, id, points) => StageComponent(zone, id, points)
    case BoundarySuppressed(_, why) => BoundarySuppressed(zone, why)
    case _ => e
  }

  lemma SplitIsLossless(n: int)
    ensures Join(Split(n).0, Split(n).1) == n <==> 0 <= n <= 0x7FFF_FFFF
  {
    SplitThenJoin(if n < 0 then 0 else if n > 0x7FFF_FFFF then 0x7FFF_FFFF else n);
  }

  lemma CheckpointFields(ammo: int, grenades: int, lives: int)
    ensures var entity := PackCheckpoint(ammo, grenades, lives);
            (entity % 128 == ammo && entity / 128 % 32 == grenades && entity / 4_096 % 16 == lives)
            <==> 0 <= ammo < 128 && 0 <= grenades < 32 && 0 <= lives < 16
  {
  }

  lemma StagePointsFields(before: int, after: int)
    requires 0 <= before < 16 && 0 <= after < 16
    ensures var entity := PackStagePoints(before, after, true);
            entity % 16 == before && entity / 16 % 16 == after && entity / 256 % 2 == 1
  {
  }

  /** The two events that carry the high score saturate it. */
  predicate LosesHighScore(e: Event) {
    (e.GameEnded? || e.TitleEntered?) && e.highScore > 0x7FFF_FFFF
  }

  /** The events that carry a value wider than a lane. */
  predicate Wide(e: Event) {
    e.ScoreAwarded? || e.HighScoreSaved? || e.RunRestarted? || e.CheckpointSaved? || e.StagePoints? || e.GameEnded?
    || e.TitleEntered?
  }

  lemma WideEventsSurvive(before: Story, e: Event, zone: U16)
    requires Sound(before, e) && 0 <= before.score <= SCORE_CEILING && Wide(e)
    ensures Decode(Encode(e, zone)) == Some(WithZone(e, zone))
       <==> !LosesHighScore(e)
  {
    hide Split, Join, PackCheckpoint, PackStagePoints;
    match e
    case ScoreAwarded(_, previous, _) => SplitIsLossless(previous);
    case HighScoreSaved(value) => SplitIsLossless(value);
    case RunRestarted(_, discarded) => SplitIsLossless(discarded);
    case CheckpointSaved(_, ammo, grenades, points, lives) =>
      SplitIsLossless(points);
      CheckpointFields(ammo, grenades, lives);
    case StagePoints(_, points, x, y) =>
      SplitIsLossless(points);
      StagePointsFields(x, y);
    case TitleEntered(high, _) => SplitIsLossless(high);
    case GameEnded(points, high) =>
      SplitIsLossless(points);
      SplitIsLossless(high);
  }

  /** The events with a code or a count in the entity lane, weapons and pickups aside. */
  predicate Coded(e: Event) {
    e.StageComponent? || e.BoundarySuppressed? || e.SuitChanged? || e.ZoneEntered? || e.CheckpointCleared?
    || e.DeathBegan? || e.DeathSettled?
  }

  lemma CodedEventsSurvive(before: Story, e: Event, zone: U16)
    requires Sound(before, e) && Coded(e)
    ensures Decode(Encode(e, zone)) == Some(WithZone(e, zone))
  {
    hide Split, Join, InTurn, Fee;
  }

  lemma CountedEventsSurvive(before: Story, e: Event, zone: U16)
    requires Sound(before, e) && !Coded(e) && !Wide(e)
    ensures Decode(Encode(e, zone)) == Some(WithZone(e, zone))
  {
    hide Split, Join, InTurn, Fee;
  }

  /** A sound event survives its lanes, except for a high score past 2^31 - 1. */
  lemma SoundEventsSurvive(before: Story, e: Event, zone: U16)
    requires Sound(before, e) && 0 <= before.score <= SCORE_CEILING
    ensures Decode(Encode(e, zone)) == Some(WithZone(e, zone))
       <==> !LosesHighScore(e)
  {
    hide Sound, Decode, Encode;
    if Wide(e) {
      WideEventsSurvive(before, e, zone);
    } else if Coded(e) {
      CodedEventsSurvive(before, e, zone);
    } else {
      CountedEventsSurvive(before, e, zone);
    }
  }

  /** Every event of a session is read back as it was emitted, unless it carries such a high score. */
  lemma SessionEventsSurvive(stored: nat, inputs: seq<(Input, World)>, states: seq<Scene>, n: nat, i: nat, zone: U16)
    requires IsSession(stored, inputs, states) && n <= |inputs|
    requires i < |states[n].trace|
    ensures var e := states[n].trace[i];
            Decode(Encode(e, zone)) == Some(WithZone(e, zone)) <==> !LosesHighScore(e)
  {
    SessionKeeps(stored, inputs, states, n);
    SceneTheorems.EventIsSound(states[n].trace, i);
    ScoreInRange(states[n].trace, i);
    SoundEventsSurvive(Tell(states[n].trace[..i]), states[n].trace[i], zone);
  }

  lemma NotedScore(before: Story, e: Event)
    requires Sound(before, e) && 0 <= before.score <= SCORE_CEILING
    ensures 0 <= Note(before, e).score <= SCORE_CEILING
  {
    hide InTurn, Clauses;
  }

  lemma {:induction false} ScoreInRange(trace: seq<Event>, i: nat)
    requires AllSound(trace) && i <= |trace|
    ensures 0 <= Tell(trace[..i]).score <= SCORE_CEILING
  {
    if i > 0 {
      hide Sound, Note;
      ScoreInRange(trace, i - 1);
      SceneTheorems.TellAt(trace, i - 1);
      NotedScore(Tell(trace[..i - 1]), trace[i - 1]);
    }
  }

  // Replaying the score

  /** How one record moves the score a reader keeps. */
  function Replayed(score: int, w: Wire): int {
    match Decode(w)
    case Some(ScoreAwarded(points, _, _)) => Capped(score + points)
    case Some(RunRestarted(_, _)) => 0
    case _ => score
  }

  /** The score of a reader who only sees records. */
  function ReplayScore(wires: seq<Wire>): int {
    if wires == [] then 0 else Replayed(ReplayScore(wires[..|wires| - 1]), wires[|wires| - 1])
  }

  lemma ReplayedLikeNoted(before: Story, e: Event, zone: U16)
    requires Sound(before, e) && 0 <= before.score <= SCORE_CEILING
    ensures Replayed(before.score, Encode(e, zone)) == Note(before, e).score
  {
    hide Encode, Decode;
    SoundEventsSurvive(before, e, zone);
    if LosesHighScore(e) { QuietOnTheWire(e, zone); }
  }

  lemma QuietOnTheWire(e: Event, zone: U16)
    requires LosesHighScore(e)
    ensures var d := Decode(Encode(e, zone));
            d.None? || d.value.GameEnded? || d.value.TitleEntered?
  {
  }

  /** The records of a trace; `zones[i]` is the log's zone lane when event `i` was emitted. */
  function Records(trace: seq<Event>, zones: seq<U16>): (wires: seq<Wire>)
    requires |zones| == |trace|
    ensures |wires| == |trace|
  {
    seq(|trace|, i requires 0 <= i < |trace| => Encode(trace[i], zones[i]))
  }

  lemma {:induction false} ReplayTells(trace: seq<Event>, zones: seq<U16>)
    requires |zones| == |trace| && AllSound(trace)
    ensures ReplayScore(Records(trace, zones)) == Tell(trace).score
  {
    if trace != [] {
      var n := |trace| - 1;
      ReplayTells(trace[..n], zones[..n]);
      assert Records(trace, zones)[..n] == Records(trace[..n], zones[..n]);
      assert Sound(Tell(trace[..n]), trace[n]);
      ScoreInRange(trace, n);
      hide Replayed, Encode, Sound;
      ReplayedLikeNoted(Tell(trace[..n]), trace[n], zones[n]);
    }
  }

  /** Replaying the records of any session reproduces the game's score after every step. */
  lemma ReplayReproducesTheScore(stored: nat, inputs: seq<(Input, World)>, states: seq<Scene>, n: nat, zones: seq<U16>)
    requires IsSession(stored, inputs, states) && n <= |inputs| && |zones| == |states[n].trace|
    ensures ReplayScore(Records(states[n].trace, zones)) == states[n].points
  {
    SessionKeeps(stored, inputs, states, n);
    ReplayTells(states[n].trace, zones);
  }

  /** `points_before` of every score record is the replay of the records before it. */
  lemma ScoreRecordsAgree(stored: nat, inputs: seq<(Input, World)>, states: seq<Scene>, n: nat, zones: seq<U16>, i: nat)
    requires IsSession(stored, inputs, states) && n <= |inputs| && |zones| == |states[n].trace|
    requires i < |zones| && states[n].trace[i].ScoreAwarded?
    ensures var wires := Records(states[n].trace, zones);
            Decode(wires[i]) == Some(ScoreAwarded(states[n].trace[i].points, ReplayScore(wires[..i]),
                                                  states[n].trace[i].reason))
  {
    var trace := states[n].trace;
    SessionKeeps(stored, inputs, states, n);
    SessionEventsSurvive(stored, inputs, states, n, i, zones[i]);
    SceneTheorems.EventIsSound(trace, i);
    SceneTheorems.PrefixSound(trace, i);
    ReplayTells(trace[..i], zones[..i]);
    assert Records(trace, zones)[..i] == Records(trace[..i], zones[..i]);
  }
}
