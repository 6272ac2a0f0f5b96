/** Identifiers shared by the game's systems. */
module Ecs {
  /** A Bevy `Entity`, identified by its index. */
  type Entity = nat
}
