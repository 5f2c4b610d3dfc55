/** The player's body: movement, the jump latch and the collision with solids. Every operation is a
    function from a body to a body and its records; the class `Player` is proved equal to them. */
module Players {
  import opened GameConstants
  import opened Rects

  const MOVE_SPEED := 90.0
  const JUMP_VELOCITY := 165.0
  const GRAVITY := -360.0
  const MAXIMUM_FALL_SPEED := -300.0

  datatype Facing = Left | Right
  datatype Motion = Idle | Running | Jumping | Falling | Crouching | Dying

  datatype Input = Input(moveLeft: bool, moveRight: bool, jump: bool, crouch: bool)

  /** A record sent to the event sink. */
  datatype Event = Jumped(afterContextConsume: bool) | Landed(onSolid: bool, fallSpeed: real) | CrouchEdge(begins: bool)

  datatype Body = Body(
    x: real, y: real, dx: real, dy: real, grounded: bool, facing: Facing, motion: Motion, dying: bool,
    jumpWasPressed: bool, contextHolds: bool, spawnX: real, spawnY: real, groundY: real)
  {
    predicate JumpLatchHeld() { jumpWasPressed || contextHolds }

    function Height(): real {
      if motion == Crouching && grounded then CROUCHING_HEIGHT else STANDING_HEIGHT
    }

    /** The movement box with the sprite centred at the given point. */
    function BoxAt(cx: real, cy: real): Rect {
      Rect(cx - BODY_WIDTH / 2.0, cy - SPRITE_HEIGHT / 2.0, BODY_WIDTH, Height())
    }

    function Box(): Rect { BoxAt(x, y) }
  }

  const START :=
    Body(DEFAULT_SPAWN_X, DEFAULT_SPAWN_Y, 0.0, 0.0, true, Right, Idle, false, false, false,
         DEFAULT_SPAWN_X, DEFAULT_SPAWN_Y, DEFAULT_GROUND_Y)

  function Moved(b: Body, crouching: bool): Motion {
    if b.dying then Dying
    else if !b.grounded then (if b.dy >= 0.0 then Jumping else Falling)
    else if crouching then Crouching
    else if b.dx > 0.01 || b.dx < -0.01 then Running
    else Idle
  }

  /** A crouch is reported where it begins and where it ends. */
  function Edges(before: Motion, after: Motion): seq<Event> {
    if !before.Crouching? && after.Crouching? then [CrouchEdge(true)]
    else if before.Crouching? && !after.Crouching? then [CrouchEdge(false)]
    else []
  }

  function Settled(b: Body, crouching: bool): (Body, seq<Event>) {
    (b.(motion := Moved(b, crouching)), Edges(b.motion, Moved(b, crouching)))
  }

  function LandOnFallbackFloor(b: Body): (Body, seq<Event>) {
    var standing := b.groundY + SPRITE_HEIGHT / 2.0;
    if b.y <= standing then
      (b.(y := standing, dy := 0.0, grounded := true), if b.grounded then [] else [Landed(false, b.dy)])
    else (b, [])
  }

  function Fall(b: Body, dt: real): Body {
    if b.grounded then b else b.(dy := Max(b.dy + GRAVITY * dt, MAXIMUM_FALL_SPEED))
  }

  function Walk(b: Body, input: Input): Body {
    if input.crouch && b.grounded then b.(dx := 0.0)
    else if input.moveLeft && !input.moveRight then b.(dx := -MOVE_SPEED, facing := Left)
    else if input.moveRight && !input.moveLeft then b.(dx := MOVE_SPEED, facing := Right)
    else b.(dx := 0.0)
  }

  /** This update starts a jump. */
  predicate StartsJump(b: Body, input: Input) {
    !b.dying && input.jump && !b.jumpWasPressed && b.grounded && !input.crouch
  }

  function Sample(b: Body, input: Input): Body {
    if b.contextHolds && input.jump then b.(jumpWasPressed := true)
    else b.(jumpWasPressed := input.jump, contextHolds := false)
  }

  /** Where a living player is before the fallback floor is looked at. */
  function Advanced(b: Body, input: Input, dt: real): Body {
    var walked := Walk(b, input);
    var jumped := if StartsJump(b, input) then walked.(dy := JUMP_VELOCITY, grounded := false) else walked;
    var fallen := Fall(Sample(jumped, input), dt);
    fallen.(
      x := Min(Max(fallen.x + fallen.dx * dt, MINIMUM_CENTER_X), MAXIMUM_CENTER_X),
      y := fallen.y + fallen.dy * dt)
  }

  /** A dying player falls straight down. */
  function Tumbled(b: Body, dt: real): Body {
    var fallen := Fall(b.(dx := 0.0), dt);
    if b.grounded then fallen else fallen.(y := fallen.y + fallen.dy * dt)
  }

  function Updated(b: Body, input: Input, dt: real): (Body, seq<Event>) {
    if b.dying then
      var (landed, events) := LandOnFallbackFloor(Tumbled(b, dt));
      (landed.(motion := Dying), events)
    else
      var (landed, events) := LandOnFallbackFloor(Advanced(b, input, dt));
      var (settled, edges) := Settled(landed, input.crouch && landed.grounded);
      (settled, (if StartsJump(b, input) then [Jumped(b.contextHolds)] else []) + events + edges)
  }

  /** Which way a solid is resolved; `Deep` is the fallback for deep overlaps. */
  datatype Contact = Apart | Top | Underside | FromLeft | FromRight | Deep

  function ContactOf(b: Body, previousX: real, previousY: real, solid: Rect): Contact {
    var now, before := b.Box(), b.BoxAt(previousX, previousY);
    if !now.Overlaps(solid) then Apart
    else if b.dy <= 0.0 && before.MinY() >= solid.MaxY() - 1.0 && now.MinY() < solid.MaxY() then Top
    else if b.dy > 0.0 && before.MaxY() <= solid.MinY() + 1.0 && now.MaxY() > solid.MinY() then Underside
    else if before.MaxX() <= solid.MinX() + 1.0 && now.MaxX() > solid.MinX() then FromLeft
    else if before.MinX() >= solid.MaxX() - 1.0 && now.MinX() < solid.MaxX() then FromRight
    else Deep
  }

  function Resolved(b: Body, previousX: real, previousY: real, solid: Rect): (Body, seq<Event>) {
    match ContactOf(b, previousX, previousY, solid)
    case Apart => (b, [])
    case Top =>
      (b.(y := solid.MaxY() + SPRITE_HEIGHT / 2.0, dy := 0.0, grounded := true),
       if b.grounded then [] else [Landed(true, b.dy)])
    case Underside =>
      (b.(y := solid.MinY() - (STANDING_HEIGHT - SPRITE_HEIGHT / 2.0), dy := 0.0, grounded := false), [])
    case FromLeft => (b.(x := solid.MinX() - BODY_WIDTH / 2.0, dx := 0.0), [])
    case FromRight => (b.(x := solid.MaxX() + BODY_WIDTH / 2.0, dx := 0.0), [])
    case Deep => (if b.dying then b else b.(x := previousX, dx := 0.0), [])
  }

  predicate Supports(b: Body, solid: Rect) {
    var gap := solid.MaxY() - b.Box().MinY();
    && -1.5 <= gap <= 1.5
    && b.Box().MaxX() - FOOT_INSET > solid.MinX() && b.Box().MinX() + FOOT_INSET < solid.MaxX()
  }

  function Supported(b: Body, solids: seq<Rect>): Body {
    if !b.grounded then b
    else if (forall k :: 0 <= k < |solids| ==> !Supports(b, solids[k])) && b.Box().MinY() > b.groundY + 1.5 then
      b.(grounded := false)
    else b
  }

  function Teleported(b: Body, x: real, y: real): Body {
    if b.dying then b
    else b.(x := x, y := y, dx := 0.0, dy := 0.0, grounded := true, motion := Idle,
            jumpWasPressed := true, contextHolds := true)
  }

  function Held(b: Body): Body { b.(jumpWasPressed := true, contextHolds := true) }

  function Dead(b: Body): Body {
    if b.dying then b
    else b.(dying := true, motion := Dying, dx := 0.0, dy := JUMP_VELOCITY, grounded := false,
            jumpWasPressed := false, contextHolds := false)
  }

  function Respawned(b: Body): Body {
    b.(dying := false, x := b.spawnX, y := b.spawnY, dx := 0.0, dy := 0.0, grounded := true, facing := Right,
       motion := Idle, jumpWasPressed := false, contextHolds := false)
  }

  // Runs

  datatype Op =
    | Update(input: Input, dt: real)
    | Collide(previousX: real, previousY: real, solid: Rect)
    | RefreshSupport(solids: seq<Rect>)
    | FinalizeMotion(input: Input)
    | Teleport(x: real, y: real)
    | ConsumePress
    | BeginDeath
    | Respawn
    | Configure(x: real, y: real, groundY: real)

  function Apply(b: Body, op: Op): (Body, seq<Event>) {
    match op
    case Update(input, dt) => Updated(b, input, dt)
    case Collide(px, py, solid) => Resolved(b, px, py, solid)
    case RefreshSupport(solids) => (Supported(b, solids), [])
    case FinalizeMotion(input) => Settled(b, input.crouch && b.grounded)
    case Teleport(x, y) => (Teleported(b, x, y), [])
    case ConsumePress => (Held(b), [])
    case BeginDeath => (Dead(b), [])
    case Respawn => (Respawned(b), [])
    case Configure(x, y, groundY) => (Respawned(b.(spawnX := x, spawnY := y, groundY := groundY)), [])
  }

  function Play(ops: seq<Op>): Body {
    if ops == [] then START else Apply(Play(ops[..|ops| - 1]), ops[|ops| - 1]).0
  }

  /** The records of the `j`-th operation of a run. */
  function Emitted(ops: seq<Op>, j: nat): seq<Event>
    requires j < |ops|
  {
    Apply(Play(ops[..j]), ops[j]).1
  }

  predicate IsJump(ops: seq<Op>, j: nat)
    requires j < |ops|
  {
    ops[j].Update? && StartsJump(Play(ops[..j]), ops[j].input)
  }

  // The latch

  ghost predicate WellLatched(b: Body) { b.contextHolds ==> b.jumpWasPressed }

  /** The operation takes the latch: the key is sampled down, or a contextual press is consumed. */
  predicate Latches(b: Body, op: Op) {
    match op
    case Update(input, _) => !b.dying && input.jump
    case Teleport(_, _) => !b.dying
    case ConsumePress => true
    case _ => false
  }

  /** The operation frees it: the key is sampled up, or the body dies or respawns. */
  predicate Releases(b: Body, op: Op) {
    match op
    case Update(input, _) => !b.dying && !input.jump
    case BeginDeath => !b.dying
    case Respawn => true
    case Configure(_, _, _) => true
    case _ => false
  }

  lemma LatchStep(b: Body, op: Op)
    requires WellLatched(b)
    ensures WellLatched(Apply(b, op).0)
    ensures Apply(b, op).0.jumpWasPressed == (Latches(b, op) || (b.jumpWasPressed && !Releases(b, op)))
  {}

  lemma {:induction false} RunsAreWellLatched(ops: seq<Op>)
    ensures WellLatched(Play(ops))
  {
    hide Apply, Latches, Releases, WellLatched;
    if ops == [] {
      StartIsWellLatched();
    } else {
      RunsAreWellLatched(ops[..|ops| - 1]);
      LatchStep(Play(ops[..|ops| - 1]), ops[|ops| - 1]);
    }
  }

  lemma StartIsWellLatched()
    ensures WellLatched(START)
  {}

  /** Since `i` nothing freed the latch. */
  ghost predicate HeldSince(ops: seq<Op>, i: nat)
    requires i < |ops|
  {
    && Latches(Play(ops[..i]), ops[i])
    && forall k :: i < k < |ops| ==> !Releases(Play(ops[..k]), ops[k])
  }

  lemma HeldSinceStep(ops: seq<Op>, i: nat)
    requires i < |ops| - 1
    ensures HeldSince(ops, i) <==>
            HeldSince(ops[..|ops| - 1], i) && !Releases(Play(ops[..|ops| - 1]), ops[|ops| - 1])
  {
    hide Play, Latches, Releases;
    var before := ops[..|ops| - 1];
    forall k | 0 <= k < |before| ensures ops[..k] == before[..k] {}
    if HeldSince(before, i) && !Releases(Play(before), ops[|ops| - 1]) {
      forall k | i < k < |ops| ensures !Releases(Play(ops[..k]), ops[k]) {
        if k < |before| { assert !Releases(Play(before[..k]), before[k]); }
      }
    }
    if HeldSince(ops, i) {
      forall k | i < k < |before| ensures !Releases(Play(before[..k]), before[k]) {
        assert !Releases(Play(ops[..k]), ops[k]);
      }
    }
  }

  /** The latch is held exactly when something took it and nothing has freed it since. */
  lemma {:induction false} LatchIsHeldExactlyWhen(ops: seq<Op>)
    ensures Play(ops).jumpWasPressed <==> exists i :: 0 <= i < |ops| && HeldSince(ops, i)
  {
    hide Apply, Latches, Releases, WellLatched, HeldSince;
    if ops != [] {
      var n := |ops| - 1;
      LatchIsHeldExactlyWhen(ops[..n]);
      RunsAreWellLatched(ops[..n]);
      LatchStep(Play(ops[..n]), ops[n]);
      HeldSinceLast(ops);
      forall i | 0 <= i < n
        ensures HeldSince(ops, i) <==> HeldSince(ops[..n], i) && !Releases(Play(ops[..n]), ops[n])
      {
        HeldSinceStep(ops, i);
      }
    }
  }

  lemma HeldSinceLast(ops: seq<Op>)
    requires ops != []
    ensures HeldSince(ops, |ops| - 1) <==> Latches(Play(ops[..|ops| - 1]), ops[|ops| - 1])
  {}

  /** An update starts a jump exactly when a living, standing, upright player has the key down and the
      latch is free; and the witness of a jump through a contextual press is never true. */
  lemma JumpsExactlyWhen(ops: seq<Op>, j: nat)
    requires j < |ops| && ops[j].Update?
    ensures (exists e :: e in Emitted(ops, j) && e.Jumped?) <==>
            var b, input := Play(ops[..j]), ops[j].input;
            && !b.dying && b.grounded && !input.crouch && input.jump
            && !exists i :: 0 <= i < j && HeldSince(ops[..j], i)
    ensures forall e :: e in Emitted(ops, j) && e.Jumped? ==> !e.afterContextConsume
  {
    LatchIsHeldExactlyWhen(ops[..j]);
    RunsAreWellLatched(ops[..j]);
    if StartsJump(Play(ops[..j]), ops[j].input) { assert Emitted(ops, j)[0].Jumped?; }
  }

  lemma {:induction false} HeldUntilReleased(ops: seq<Op>, i: nat, j: nat)
    requires i < j <= |ops| && Latches(Play(ops[..i]), ops[i])
    requires forall k :: i < k < j ==> !Releases(Play(ops[..k]), ops[k])
    ensures Play(ops[..j]).jumpWasPressed
  {
    forall k | i < k < j ensures ops[..j][..k] == ops[..k] {}
    assert ops[..j][..i] == ops[..i];
    assert HeldSince(ops[..j], i);
    LatchIsHeldExactlyWhen(ops[..j]);
  }

  /** After a teleport, a consumed contextual press or a jump, the next jump of the run has a release in
      between: the key seen up by an update, or a death or a respawn. */
  lemma NoJumpWithoutRelease(ops: seq<Op>, i: nat, j: nat)
    requires i < j < |ops| && IsJump(ops, j)
    requires Latches(Play(ops[..i]), ops[i])
    ensures exists k :: i < k < j && Releases(Play(ops[..k]), ops[k])
  {
    if forall k :: i < k < j ==> !Releases(Play(ops[..k]), ops[k]) { HeldUntilReleased(ops, i, j); }
  }

  lemma TwoJumpsAreTwoPresses(ops: seq<Op>, i: nat, j: nat)
    requires i < j < |ops| && IsJump(ops, i) && IsJump(ops, j)
    ensures exists k :: i < k < j && Releases(Play(ops[..k]), ops[k])
  {
    NoJumpWithoutRelease(ops, i, j);
  }

  // The contextual flag

  function Plain(b: Body): Body { b.(contextHolds := false) }

  /** The same run by a player without the contextual flag. */
  function PlayPlain(ops: seq<Op>): Body {
    if ops == [] then START else Plain(Apply(PlayPlain(ops[..|ops| - 1]), ops[|ops| - 1]).0)
  }

  lemma PlainAdvance(b: Body, input: Input, dt: real)
    requires WellLatched(b)
    ensures Advanced(Plain(b), input, dt) == Plain(Advanced(b, input, dt))
    ensures StartsJump(Plain(b), input) == StartsJump(b, input) && (StartsJump(b, input) ==> !b.contextHolds)
  {}

  lemma WalkKeepsTheRest(b: Body, input: Input)
    ensures var w := Walk(b, input); w == b.(dx := w.dx, facing := w.facing)
  {}

  lemma PlainTumble(b: Body, dt: real)
    ensures Tumbled(Plain(b), dt) == Plain(Tumbled(b, dt))
  {}

  lemma PlainLanding(b: Body)
    ensures LandOnFallbackFloor(Plain(b)) == (Plain(LandOnFallbackFloor(b).0), LandOnFallbackFloor(b).1)
  {}

  lemma PlainUpdate(b: Body, input: Input, dt: real)
    requires WellLatched(b)
    ensures Updated(Plain(b), input, dt).0 == Plain(Updated(b, input, dt).0)
    ensures Updated(Plain(b), input, dt).1 == Updated(b, input, dt).1
  {
    hide Advanced, Tumbled, StartsJump, LandOnFallbackFloor;
    if b.dying {
      PlainTumble(b, dt);
      PlainLanding(Tumbled(b, dt));
    } else {
      PlainAdvance(b, input, dt);
      PlainLanding(Advanced(b, input, dt));
    }
  }

  lemma PlainCollision(b: Body, px: real, py: real, solid: Rect)
    ensures Plain(Resolved(Plain(b), px, py, solid).0) == Plain(Resolved(b, px, py, solid).0)
    ensures Resolved(Plain(b), px, py, solid).1 == Resolved(b, px, py, solid).1
  {
    hide ContactOf;
    PlainContact(b, px, py, solid);
  }

  lemma PlainContact(b: Body, px: real, py: real, solid: Rect)
    ensures ContactOf(Plain(b), px, py, solid) == ContactOf(b, px, py, solid)
  {
    assert Plain(b).Box() == b.Box() && Plain(b).BoxAt(px, py) == b.BoxAt(px, py);
  }

  lemma PlainSupport(b: Body, solids: seq<Rect>)
    ensures Supported(Plain(b), solids) == Plain(Supported(b, solids))
  {
    forall k | 0 <= k < |solids| ensures Supports(Plain(b), solids[k]) == Supports(b, solids[k]) {}
  }

  lemma PlainTeleport(b: Body, x: real, y: real)
    ensures Plain(Teleported(Plain(b), x, y)) == Plain(Teleported(b, x, y))
  {}

  lemma PlainOthers(b: Body)
    ensures Respawned(Plain(b)) == Respawned(b) && Plain(Dead(Plain(b))) == Plain(Dead(b))
  {}

  lemma PlainStep(b: Body, op: Op)
    requires WellLatched(b)
    ensures Plain(Apply(Plain(b), op).0) == Plain(Apply(b, op).0) && Apply(Plain(b), op).1 == Apply(b, op).1
  {
    hide Updated, Resolved, Supported, Respawned, Dead, Teleported;
    PlainOthers(b);
    match op
    case Update(input, dt) => PlainUpdate(b, input, dt);
    case Collide(px, py, solid) => PlainCollision(b, px, py, solid);
    case RefreshSupport(solids) => PlainSupport(b, solids);
    case Teleport(x, y) => PlainTeleport(b, x, y);
    case Configure(x, y, groundY) => PlainOthers(b.(spawnX := x, spawnY := y, groundY := groundY));
    case _ =>
  }

  /** Holding the edge latch is enough: with or without `contextHoldsJumpLatch` every run moves the same
      way and emits the same records, and `jumpLatchHeld` reads the edge latch alone. */
  lemma {:induction false} ContextFlagChangesNothing(ops: seq<Op>)
    ensures Plain(Play(ops)) == PlayPlain(ops)
    ensures ops != [] ==>
              Apply(PlayPlain(ops[..|ops| - 1]), ops[|ops| - 1]).1 == Emitted(ops, |ops| - 1)
    ensures Play(ops).JumpLatchHeld() == PlayPlain(ops).jumpWasPressed
  {
    RunsAreWellLatched(ops);
    if ops != [] {
      var n := |ops| - 1;
      ContextFlagChangesNothing(ops[..n]);
      RunsAreWellLatched(ops[..n]);
      PlainStep(Play(ops[..n]), ops[n]);
    }
  }

  // Crouching

  /** The last crouch record of a run is a beginning. */
  predicate CrouchOpen(ops: seq<Op>) {
    if ops == [] then false
    else
      var n := |ops| - 1;
      if CrouchEdge(true) in Emitted(ops, n) then true
      else if CrouchEdge(false) in Emitted(ops, n) then false
      else CrouchOpen(ops[..n])
  }

  /** The operation ends a crouch without a record: a teleport, a death or a respawn. */
  predicate EndsSilently(b: Body, op: Op) {
    b.motion.Crouching? && match op
                           case Teleport(_, _) => !b.dying
                           case BeginDeath => !b.dying
                           case Respawn => true
                           case Configure(_, _, _) => true
                           case Update(_, _) => b.dying
                           case _ => false
  }

  /** Since the last crouch record of a run a crouch ended silently. */
  predicate SilentlyEnded(ops: seq<Op>) {
    if ops == [] then false
    else
      var n := |ops| - 1;
      CrouchEdge(true) !in Emitted(ops, n) && CrouchEdge(false) !in Emitted(ops, n)
      && (EndsSilently(Play(ops[..n]), ops[n]) || SilentlyEnded(ops[..n]))
  }

  lemma CrouchStep(b: Body, op: Op)
    ensures var (after, events) := Apply(b, op);
            && (CrouchEdge(true) in events <==> !b.motion.Crouching? && after.motion.Crouching?)
            && (CrouchEdge(false) in events || EndsSilently(b, op) <==> b.motion.Crouching? && !after.motion.Crouching?)
            && !(CrouchEdge(false) in events && EndsSilently(b, op))
  {
    hide Advanced, Tumbled, LandOnFallbackFloor, Moved, StartsJump, Supports, ContactOf;
    if op.Update? {
      var (landed, landing) := LandOnFallbackFloor(if b.dying then Tumbled(b, op.dt) else Advanced(b, op.input, op.dt));
      MovingKeepsMotion(b, op.input, op.dt);
      if !b.dying {
        var jump: seq<Event> := if StartsJump(b, op.input) then [Jumped(b.contextHolds)] else [];
        var edges := Edges(b.motion, Moved(landed, op.input.crouch && landed.grounded));
        assert forall begins :: CrouchEdge(begins) in jump + landing + edges <==> CrouchEdge(begins) in edges;
      }
    }
  }

  lemma MovingKeepsMotion(b: Body, input: Input, dt: real)
    ensures LandOnFallbackFloor(Advanced(b, input, dt)).0.motion == b.motion
    ensures forall begins :: CrouchEdge(begins) !in LandOnFallbackFloor(Advanced(b, input, dt)).1
    ensures forall begins :: CrouchEdge(begins) !in LandOnFallbackFloor(Tumbled(b, dt)).1
  {
  }

  /** The records tell whether the player crouches, exactly until a crouch ends silently. */
  lemma {:induction false} CrouchIsToldExactlyWhen(ops: seq<Op>)
    ensures Play(ops).motion.Crouching? <==> CrouchOpen(ops) && !SilentlyEnded(ops)
  {
    hide Apply, EndsSilently;
    if ops != [] {
      var n := |ops| - 1;
      CrouchIsToldExactlyWhen(ops[..n]);
      CrouchStep(Play(ops[..n]), ops[n]);
    }
  }

  /** It happens: crouch, teleport, crouch again, and two beginnings stand in the log without an end. */
  lemma CrouchBeginsTwice()
    ensures var crouch := Update(Input(false, false, false, true), 1.0 / 60.0);
            var ops := [crouch, Teleport(100.0, 100.0), crouch];
            && Emitted(ops, 0) == [CrouchEdge(true)] && Emitted(ops, 1) == [] && Emitted(ops, 2) == [CrouchEdge(true)]
  {
    var crouch := Update(Input(false, false, false, true), 1.0 / 60.0);
    var ops := [crouch, Teleport(100.0, 100.0), crouch];
    assert ops[..0] == [] && ops[..1][..0] == [] && ops[..2][..1] == ops[..1];
    assert Play(ops[..1]).motion == Crouching && Play(ops[..2]) == Teleported(Play(ops[..1]), 100.0, 100.0);
  }

  // Collision

  /** A resolved solid no longer touches the player, unless the overlap was deep. */
  lemma ResolvedIsClearExactlyWhen(b: Body, px: real, py: real, solid: Rect)
    requires solid.Positive()
    ensures !Resolved(b, px, py, solid).0.Box().Overlaps(solid) <==> ContactOf(b, px, py, solid) != Deep
  {}

  /** The deep overlap happens: a player spawned inside a large solid is left inside it. */
  lemma DeepOverlapStays()
    ensures var b, solid := Play([Configure(100.0, 100.0, 0.0)]), Rect(50.0, 50.0, 100.0, 100.0);
            && ContactOf(b, b.x, b.y, solid) == Deep
            && Resolved(b, b.x, b.y, solid).0.Box().Overlaps(solid)
  {
    var ops := [Configure(100.0, 100.0, 0.0)];
    assert ops[..0] == [] && Play(ops) == Apply(Play([]), ops[0]).0;
  }

  /** Resolving a solid leaves the latch alone, and reports a landing exactly when an airborne player
      comes to stand on that solid. */
  lemma ResolvedKeepsTheLatch(b: Body, px: real, py: real, solid: Rect)
    ensures var (r, events) := Resolved(b, px, py, solid);
            && r.jumpWasPressed == b.jumpWasPressed && r.contextHolds == b.contextHolds && r.dying == b.dying
            && |events| <= 1
            && (events != [] <==> r.grounded && !b.grounded)
            && (r.grounded && !b.grounded ==> r.Box().MinY() == solid.MaxY() && r.dy == 0.0)
  {}

  // The player

  class Player {
    var x: real
    var y: real
    var dx: real
    var dy: real
    var isGrounded: bool
    var facing: Facing
    var motionState: Motion
    var isDying: bool
    var jumpWasPressed: bool
    var contextHoldsJumpLatch: bool
    var spawnX: real
    var spawnY: real
    var fallbackGroundY: real

    ghost function View(): Body
      reads this
    {
      Body(x, y, dx, dy, isGrounded, facing, motionState, isDying, jumpWasPressed, contextHoldsJumpLatch,
           spawnX, spawnY, fallbackGroundY)
    }

    constructor ()
      ensures View() == START
    {
      x, y, dx, dy := DEFAULT_SPAWN_X, DEFAULT_SPAWN_Y, 0.0, 0.0;
      isGrounded, facing, motionState, isDying := true, Right, Idle, false;
      jumpWasPressed, contextHoldsJumpLatch := false, false;
      spawnX, spawnY, fallbackGroundY := DEFAULT_SPAWN_X, DEFAULT_SPAWN_Y, DEFAULT_GROUND_Y;
    }

    method Configure(spawnX: real, spawnY: real, groundY: real)
      modifies this
      ensures View() == Respawned(old(View()).(spawnX := spawnX, spawnY := spawnY, groundY := groundY))
    {
      this.spawnX, this.spawnY := spawnX, spawnY;
      fallbackGroundY := groundY;
      Respawn();
    }

    method LandOnFallbackFloorIfNeeded() returns (emitted: seq<Event>)
      modifies this
      ensures (View(), emitted) == LandOnFallbackFloor(old(View()))
    {
      emitted := [];
      var standingCenterY := fallbackGroundY + SPRITE_HEIGHT / 2.0;
      if y <= standingCenterY {
        var wasAirborne, fallSpeed := !isGrounded, dy;
        y, dy, isGrounded := standingCenterY, 0.0, true;
        if wasAirborne { emitted := [Landed(false, fallSpeed)]; }
      }
    }

    method UpdateMotionState(isCrouching: bool) returns (emitted: seq<Event>)
      modifies this`motionState
      ensures (View(), emitted) == Settled(old(View()), isCrouching)
    {
      var previousState := motionState;
      if isDying {
        motionState := Dying;
      } else if !isGrounded {
        motionState := if dy >= 0.0 then Jumping else Falling;
      } else if isCrouching {
        motionState := Crouching;
      } else if dx > 0.01 || -dx > 0.01 {
        motionState := Running;
      } else {
        motionState := Idle;
      }
      emitted := if previousState != Crouching && motionState == Crouching then [CrouchEdge(true)]
                 else if previousState == Crouching && motionState != Crouching then [CrouchEdge(false)]
                 else [];
    }

    method SetWalkingSpeed(input: Input, isCrouching: bool)
      requires isCrouching == (input.crouch && isGrounded)
      modifies this
      ensures View() == Walk(old(View()), input)
    {
      var wantsLeft := input.moveLeft && !input.moveRight;
      var wantsRight := input.moveRight && !input.moveLeft;
      if isCrouching {
        dx := 0.0;
      } else if wantsLeft {
        dx, facing := -MOVE_SPEED, Left;
      } else if wantsRight {
        dx, facing := MOVE_SPEED, Right;
      } else {
        dx := 0.0;
      }
    }

    /** The part of an update before the fallback floor, for a living player. */
    method Advance(input: Input, dt: real) returns (emitted: seq<Event>)
      requires !isDying
      modifies this
      ensures View() == Advanced(old(View()), input, dt)
      ensures emitted == if StartsJump(old(View()), input) then [Jumped(old(contextHoldsJumpLatch))] else []
    {
      hide Walk;
      emitted := [];
      var isCrouching := input.crouch && isGrounded;
      SetWalkingSpeed(input, isCrouching);
      WalkKeepsTheRest(old(View()), input);
      var jumpJustPressed := input.jump && !jumpWasPressed;
      var jumpedThroughContextHold := jumpJustPressed && contextHoldsJumpLatch;
      if jumpJustPressed && isGrounded && !isCrouching {
        dy, isGrounded := JUMP_VELOCITY, false;
        emitted := [Jumped(jumpedThroughContextHold)];
      }
      if contextHoldsJumpLatch && input.jump {
        jumpWasPressed := true;
      } else {
        jumpWasPressed, contextHoldsJumpLatch := input.jump, false;
      }
      if !isGrounded { dy := Max(dy + GRAVITY * dt, MAXIMUM_FALL_SPEED); }
      x, y := x + dx * dt, y + dy * dt;
      x := Min(Max(x, MINIMUM_CENTER_X), MAXIMUM_CENTER_X);
    }

    method Tumble(dt: real)
      modifies this
      ensures View() == Tumbled(old(View()), dt)
    {
      dx := 0.0;
      if !isGrounded {
        dy := Max(dy + GRAVITY * dt, MAXIMUM_FALL_SPEED);
        y := y + dy * dt;
      }
    }

    method Update(input: Input, dt: real) returns (emitted: seq<Event>)
      modifies this
      ensures (View(), emitted) == Updated(old(View()), input, dt)
    {
      hide Advanced, Tumbled, LandOnFallbackFloor, Settled;
      if isDying {
        Tumble(dt);
        emitted := LandOnFallbackFloorIfNeeded();
        motionState := Dying;
        return;
      }
      emitted := Advance(input, dt);
      var landing := LandOnFallbackFloorIfNeeded();
      var edges := UpdateMotionState(input.crouch && isGrounded);
      emitted := emitted + landing + edges;
    }

    method ResolveSolidCollision(previousX: real, previousY: real, solid: Rect) returns (emitted: seq<Event>)
      modifies this
      ensures (View(), emitted) == Resolved(old(View()), previousX, previousY, solid)
    {
      emitted := [];
      var height := if motionState == Crouching && isGrounded then CROUCHING_HEIGHT else STANDING_HEIGHT;
      var currentBox := Rect(x - BODY_WIDTH / 2.0, y - SPRITE_HEIGHT / 2.0, BODY_WIDTH, height);
      var previousBox := Rect(previousX - BODY_WIDTH / 2.0, previousY - SPRITE_HEIGHT / 2.0, BODY_WIDTH, height);
      if !currentBox.Overlaps(solid) { return; }
      if dy <= 0.0 && previousBox.MinY() >= solid.MaxY() - 1.0 && currentBox.MinY() < solid.MaxY() {
        var wasAirborne, fallSpeed := !isGrounded, dy;
        y, dy, isGrounded := solid.MaxY() + SPRITE_HEIGHT / 2.0, 0.0, true;
        if wasAirborne { emitted := [Landed(true, fallSpeed)]; }
        return;
      }
      if dy > 0.0 && previousBox.MaxY() <= solid.MinY() + 1.0 && currentBox.MaxY() > solid.MinY() {
        var topOffset := STANDING_HEIGHT - SPRITE_HEIGHT / 2.0;
        y, dy, isGrounded := solid.MinY() - topOffset, 0.0, false;
        return;
      }
      var halfWidth := currentBox.width / 2.0;
      if previousBox.MaxX() <= solid.MinX() + 1.0 && currentBox.MaxX() > solid.MinX() {
        x, dx := solid.MinX() - halfWidth, 0.0;
      } else if previousBox.MinX() >= solid.MaxX() - 1.0 && currentBox.MinX() < solid.MaxX() {
        x, dx := solid.MaxX() + halfWidth, 0.0;
      } else if !isDying {
        x, dx := previousX, 0.0;
      }
    }

    method RefreshGroundSupport(solids: seq<Rect>)
      modifies this
      ensures View() == Supported(old(View()), solids)
    {
      if !isGrounded { return; }
      var footY := y - SPRITE_HEIGHT / 2.0;
      var left, right := x - BODY_WIDTH / 2.0 + FOOT_INSET, x + BODY_WIDTH / 2.0 - FOOT_INSET;
      var supported := false;
      for k := 0 to |solids|
        invariant !supported ==> forall m :: 0 <= m < k ==> !Supports(View(), solids[m])
        invariant supported ==> exists m :: 0 <= m < k && Supports(View(), solids[m])
      {
        var solid := solids[k];
        if -1.5 <= solid.MaxY() - footY <= 1.5 && right > solid.MinX() && left < solid.MaxX() {
          assert Supports(View(), solids[k]);
          supported := true;
        }
      }
      if !supported && footY > fallbackGroundY + 1.5 { isGrounded := false; }
    }

    method FinalizeMotionState(input: Input) returns (emitted: seq<Event>)
      modifies this
      ensures (View(), emitted) == Apply(old(View()), FinalizeMotion(input))
    {
      emitted := UpdateMotionState(input.crouch && isGrounded);
    }

    method Teleport(toX: real, toY: real)
      modifies this
      ensures View() == Teleported(old(View()), toX, toY)
    {
      if isDying { return; }
      x, y, dx, dy, isGrounded, motionState := toX, toY, 0.0, 0.0, true, Idle;
      jumpWasPressed, contextHoldsJumpLatch := true, true;
    }

    method BeginDeath()
      modifies this
      ensures View() == Dead(old(View()))
    {
      if isDying { return; }
      isDying, motionState := true, Dying;
      dx, dy, isGrounded := 0.0, JUMP_VELOCITY, false;
      jumpWasPressed, contextHoldsJumpLatch := false, false;
    }

    method FinishDeathAndRespawn()
      modifies this
      ensures View() == Respawned(old(View()))
    {
      isDying := false;
      Respawn();
    }

    method Respawn()
      modifies this
      ensures View() == Respawned(old(View()))
    {
      isDying := false;
      x, y, dx, dy, isGrounded := spawnX, spawnY, 0.0, 0.0, true;
      facing, motionState := Right, Idle;
      jumpWasPressed, contextHoldsJumpLatch := false, false;
    }

    method ConsumeContextualJumpPress()
      modifies this
      ensures View() == Held(old(View()))
    {
      jumpWasPressed, contextHoldsJumpLatch := true, true;
    }
  }
}
