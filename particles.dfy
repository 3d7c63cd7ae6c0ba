/**
 * The particle record shared by both physics controllers and the renderer:
 * the ball's transform position together with the four fields the legacy
 * Metaball component declares.
 */
module Particles {
  import opened Geometry

  datatype Ball = Ball(position: Vec3, lastPosition: Vec3, velocity: Vec3, radius: real, instantiated: bool)
}
