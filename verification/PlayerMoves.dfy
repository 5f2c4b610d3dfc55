/** What a player's operations do to him, in plain coordinates: the keys, gravity and the floor, the six
    contacts, the support under his feet, and the operations that place him. Each is given at once, from the
    body before it, the keys and the solids. */
module PlayerMoves {
  import opened GameConstants
  import opened Rects
  import opened Players

  /** The lower edge of the sprite, where the feet are. */
  function Feet(b: Body): real { b.y - SPRITE_HEIGHT * 0.5 }

  /** A crouching player on the ground is low, any other is not. */
  function Tall(b: Body): real {
    if b.grounded && b.motion.Crouching? then CROUCHING_HEIGHT else STANDING_HEIGHT
  }

  lemma BoxIsTheBody(b: Body)
    ensures b.Box() == Rect(b.x - BODY_WIDTH * 0.5, Feet(b), BODY_WIDTH, Tall(b))
  {
  }

  // An update

  /** The speed the keys ask for: none while crouching on the ground or with both or no keys down. */
  function WalkingSpeed(b: Body, input: Input): real {
    if (input.crouch && b.grounded) || input.moveLeft == input.moveRight then 0.0
    else if input.moveRight then 90.0 else -90.0
  }

  function Turned(b: Body, input: Input): Facing {
    if (input.crouch && b.grounded) || input.moveLeft == input.moveRight then b.facing
    else if input.moveRight then Right else Left
  }

  /** The vertical speed of a body in the air after `dt`: gravity, and no faster than 300 down. */
  function FallingSpeed(dy: real, dt: real): real {
    if dy - 360.0 * dt > -300.0 then dy - 360.0 * dt else -300.0
  }

  predicate Leaps(b: Body, input: Input) {
    input.jump && !b.jumpWasPressed && b.grounded && !input.crouch
  }

  /** The motion that is shown. */
  function Shown(dying: bool, grounded: bool, crouching: bool, dx: real, dy: real): Motion {
    if dying then Dying
    else if !grounded && dy < 0.0 then Falling
    else if !grounded then Jumping
    else if crouching then Crouching
    else if -0.01 <= dx <= 0.01 then Idle else Running
  }

  /** A living player's update in one stroke. */
  ghost predicate Moves(b: Body, input: Input, dt: real, t: Body, events: seq<Event>) {
    var dx, airborne := WalkingSpeed(b, input), !b.grounded || Leaps(b, input);
    var dy := if airborne then FallingSpeed(if Leaps(b, input) then 165.0 else b.dy, dt) else b.dy;
    var lands := b.y + dy * dt <= b.groundY + SPRITE_HEIGHT * 0.5;
    var crouches := input.crouch && (lands || !airborne);
    && t.dx == dx && t.facing == Turned(b, input)
    && t.x == (if b.x + dx * dt < MINIMUM_CENTER_X then MINIMUM_CENTER_X
               else if b.x + dx * dt > MAXIMUM_CENTER_X then MAXIMUM_CENTER_X else b.x + dx * dt)
    && t.grounded == (lands || !airborne)
    && t.dy == (if lands then 0.0 else dy)
    && t.y == (if lands then b.groundY + SPRITE_HEIGHT * 0.5 else b.y + dy * dt)
    && t.motion == Shown(false, t.grounded, crouches, dx, t.dy)
    && t.jumpWasPressed == input.jump && t.contextHolds == (b.contextHolds && input.jump)
    && t.dying == b.dying && t.spawnX == b.spawnX && t.spawnY == b.spawnY && t.groundY == b.groundY
    && events == (if Leaps(b, input) then [Jumped(b.contextHolds)] else [])
                 + (if lands && airborne then [Landed(false, dy)] else [])
                 + (if t.motion.Crouching? && !b.motion.Crouching? then [CrouchEdge(true)]
                    else if b.motion.Crouching? && !t.motion.Crouching? then [CrouchEdge(false)] else [])
  }

  /** A dying player falls, lands, and does nothing else. */
  ghost predicate Tumbles(b: Body, dt: real, t: Body, events: seq<Event>) {
    var dy := if b.grounded then b.dy else FallingSpeed(b.dy, dt);
    var y := if b.grounded then b.y else b.y + dy * dt;
    var lands := y <= b.groundY + SPRITE_HEIGHT * 0.5;
    && t == b.(dx := 0.0, dy := if lands then 0.0 else dy, y := if lands then b.groundY + SPRITE_HEIGHT * 0.5 else y,
               grounded := b.grounded || lands, motion := Dying)
    && events == if lands && !b.grounded then [Landed(false, dy)] else []
  }

  /** The vertical speed and the place before the floor is looked at. */
  lemma Advances(b: Body, input: Input, dt: real)
    requires !b.dying
    ensures var a, airborne := Advanced(b, input, dt), !b.grounded || Leaps(b, input);
            var dy := if airborne then FallingSpeed(if Leaps(b, input) then 165.0 else b.dy, dt) else b.dy;
            && a == b.(x := a.x, y := b.y + dy * dt, dx := WalkingSpeed(b, input), dy := dy,
                       facing := Turned(b, input), grounded := !airborne, jumpWasPressed := input.jump,
                       contextHolds := b.contextHolds && input.jump)
            && a.x == Min(Max(b.x + WalkingSpeed(b, input) * dt, MINIMUM_CENTER_X), MAXIMUM_CENTER_X)
  {
  }

  lemma MovesAlive(b: Body, input: Input, dt: real)
    requires !b.dying
    ensures Moves(b, input, dt, Apply(b, Update(input, dt)).0, Apply(b, Update(input, dt)).1)
  {
    hide Advanced, WalkingSpeed, FallingSpeed, Turned;
    Advances(b, input, dt);
    assert StartsJump(b, input) == Leaps(b, input);
  }

  /** Every update is one of the two. */
  lemma UpdateInClosedForm(b: Body, input: Input, dt: real)
    ensures var (t, events) := Apply(b, Update(input, dt));
            if b.dying then Tumbles(b, dt, t, events) else Moves(b, input, dt, t, events)
  {
    hide Moves, Advanced;
    if !b.dying { MovesAlive(b, input, dt); }
  }

  /** With one key down a living player who does not crouch faces its way and moves that way or not at all. */
  lemma KeysSteer(b: Body, input: Input, dt: real)
    requires !b.dying && !input.crouch && dt >= 0.0 && MINIMUM_CENTER_X <= b.x <= MAXIMUM_CENTER_X
    ensures var t := Apply(b, Update(input, dt)).0;
            && (input.moveLeft && !input.moveRight ==> t.x <= b.x && t.facing == Left)
            && (input.moveRight && !input.moveLeft ==> t.x >= b.x && t.facing == Right)
            && (input.moveLeft == input.moveRight ==> t.x == b.x && t.facing == b.facing)
            && MINIMUM_CENTER_X <= t.x <= MAXIMUM_CENTER_X
  {
    hide LandOnFallbackFloor, Settled;
    UpdateInClosedForm(b, input, dt);
    var dx := WalkingSpeed(b, input);
    assert dx >= 0.0 ==> dx * dt >= 0.0;
    assert dx <= 0.0 ==> dx * dt <= 0.0;
  }

  // Solids

  /** The contact is read off where the player was: above the solid and not rising, below it and rising, to its
      left, to its right, each within one point; and none of these is a deep overlap. */
  lemma ContactExactlyWhen(b: Body, px: real, py: real, solid: Rect)
    ensures var now := Rect(b.x - BODY_WIDTH * 0.5, Feet(b), BODY_WIDTH, Tall(b));
            var feet := py - SPRITE_HEIGHT * 0.5;
            var left, right := px - BODY_WIDTH * 0.5, px + BODY_WIDTH * 0.5;
            var above := b.dy <= 0.0 && feet >= solid.y + solid.height - 1.0;
            var below := b.dy > 0.0 && feet + Tall(b) <= solid.y + 1.0;
            && ContactOf(b, px, py, solid)
               == (if !now.Overlaps(solid) then Apart else if above then Top else if below then Underside
                   else if right <= solid.x + 1.0 then FromLeft
                   else if left >= solid.x + solid.width - 1.0 then FromRight else Deep)
  {
  }

  /** Each contact puts the player back where he came from, flush with the solid, and stops him. */
  lemma ResolvedIsFlush(b: Body, px: real, py: real, solid: Rect)
    ensures var (t, events) := Apply(b, Collide(px, py, solid));
            match ContactOf(b, px, py, solid)
            case Apart => t == b && events == []
            case Top =>
              && t == b.(y := t.y, dy := 0.0, grounded := true) && Feet(t) == solid.y + solid.height
              && events == if b.grounded then [] else [Landed(true, b.dy)]
            case Underside =>
              t == b.(y := t.y, dy := 0.0, grounded := false) && Feet(t) + STANDING_HEIGHT == solid.y && events == []
            case FromLeft => t == b.(x := t.x, dx := 0.0) && t.x + BODY_WIDTH * 0.5 == solid.x && events == []
            case FromRight =>
              t == b.(x := t.x, dx := 0.0) && t.x - BODY_WIDTH * 0.5 == solid.x + solid.width && events == []
            case Deep => t == (if b.dying then b else b.(x := px, dx := 0.0)) && events == []
  {
  }

  /** A solid is under the player's feet: within one and a half points, and reaching in from an inset. */
  ghost predicate Under(b: Body, solid: Rect) {
    && solid.y + solid.height - 1.5 <= Feet(b) <= solid.y + solid.height + 1.5
    && solid.x < b.x + BODY_WIDTH * 0.5 - FOOT_INSET && b.x - BODY_WIDTH * 0.5 + FOOT_INSET < solid.x + solid.width
  }

  /** Support is lost exactly without a solid under the feet, more than one and a half points above the
      fallback floor; nothing else changes. */
  lemma SupportLostExactlyWhen(b: Body, solids: seq<Rect>)
    ensures var (t, events) := Apply(b, RefreshSupport(solids));
            && t == b.(grounded := t.grounded) && events == []
            && (t.grounded <==> b.grounded && (Feet(b) <= b.groundY + 1.5
                                               || exists k :: 0 <= k < |solids| && Under(b, solids[k])))
  {
    forall k | 0 <= k < |solids| ensures Supports(b, solids[k]) == Under(b, solids[k]) {}
  }

  // Being placed

  /** Standing still at the point, right after the operation. */
  predicate StandsStill(t: Body, x: real, y: real) {
    t.x == x && t.y == y && t.dx == 0.0 == t.dy && t.grounded && t.motion == Idle
  }

  /** The operations that place a player: a teleport keeps his facing and holds the latch, a respawn turns him
      right and frees it, both stand him still; a death throws him up where he is, once; a consumed press
      holds the latch alone. */
  lemma PlacedExactly(b: Body, x: real, y: real, groundY: real)
    ensures var t := Apply(b, Teleport(x, y)).0;
            if b.dying then t == b
            else StandsStill(t, x, y) && t.jumpWasPressed && t.contextHolds && t.facing == b.facing && !t.dying
                 && t.spawnX == b.spawnX && t.spawnY == b.spawnY && t.groundY == b.groundY
    ensures var t := Apply(b, Respawn).0;
            && StandsStill(t, b.spawnX, b.spawnY) && !t.dying && t.facing == Right
            && !t.jumpWasPressed && !t.contextHolds
            && t.spawnX == b.spawnX && t.spawnY == b.spawnY && t.groundY == b.groundY
    ensures Apply(b, Configure(x, y, groundY)).0
         == Apply(b.(spawnX := x, spawnY := y, groundY := groundY), Respawn).0
    ensures var t := Apply(b, BeginDeath).0;
            if b.dying then t == b
            else t == b.(dying := true, motion := Dying, dx := 0.0, dy := 165.0, grounded := false,
                         jumpWasPressed := false, contextHolds := false)
    ensures Apply(b, ConsumePress).0 == b.(jumpWasPressed := true, contextHolds := true)
    ensures Apply(b, Teleport(x, y)).1 == Apply(b, Respawn).1 == Apply(b, Configure(x, y, groundY)).1 == []
    ensures Apply(b, BeginDeath).1 == Apply(b, ConsumePress).1 == []
  {
  }

  /** The motion shown at the end of a step, and the crouch it begins or ends. */
  lemma FinalMotionExactly(b: Body, input: Input)
    ensures var (t, events) := Apply(b, FinalizeMotion(input));
            && t == b.(motion := Shown(b.dying, b.grounded, input.crouch, b.dx, b.dy))
            && events == (if t.motion.Crouching? && !b.motion.Crouching? then [CrouchEdge(true)]
                          else if b.motion.Crouching? && !t.motion.Crouching? then [CrouchEdge(false)] else [])
  {
  }
}
