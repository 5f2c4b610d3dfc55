/** Sizes and default positions shared by the player and the level, in points. */
module GameConstants {
  const SPRITE_WIDTH := 48.0
  const SPRITE_HEIGHT := 64.0
  const BODY_WIDTH := 46.0
  const STANDING_HEIGHT := 63.0
  const CROUCHING_HEIGHT := 52.0
  const FOOT_INSET := 3.0
  const MINIMUM_CENTER_X := 24.0
  const MAXIMUM_CENTER_X := 544.0
  const DEFAULT_GROUND_Y := 96.0
  const DEFAULT_SPAWN_X := 88.0
  const DEFAULT_SPAWN_Y := 128.0
}
