/** The vector types the systems exchange, with floats modelled as reals. */
module Geometry {

  datatype Vec2 = Vec2(x: real, y: real)
  datatype Vec3 = Vec3(x: real, y: real, z: real)
  datatype Vec4 = Vec4(x: real, y: real, z: real, w: real)

  const Vec4Zero: Vec4 := Vec4(0.0, 0.0, 0.0, 0.0)

  /** The primary window's logical size. */
  datatype Window = Window(width: real, height: real)

  /** Converts a point in the level mesh's local (texture) space into the pixel
      coordinates the shaders use: it is shifted by the window size and its y axis
      is turned upside down, since world y grows upwards and image rows grow downwards.
      The brush cursor and the collision positions both go through this one step. */
  function OffsetFlip(p: Vec3, window: Window): (r: Vec2)
    ensures r.x - window.width == p.x
    ensures window.height - r.y == p.y
  {
    Vec2(p.x + window.width, -p.y + window.height)
  }

  /** The inverse of `OffsetFlip` on the plane: from shader pixel coordinates back to texture space. */
  function Unflip(q: Vec2, window: Window): Vec2
  {
    Vec2(q.x - window.width, window.height - q.y)
  }

  /** `OffsetFlip` loses nothing but the z coordinate. */
  lemma UnflipOffsetFlip(p: Vec3, window: Window)
    ensures Unflip(OffsetFlip(p, window), window) == Vec2(p.x, p.y)
  {
  }

  /** A point higher up in the world lands on an earlier image row; x keeps its order. */
  lemma OffsetFlipReversesY(p: Vec3, q: Vec3, window: Window)
    ensures p.y < q.y <==> OffsetFlip(p, window).y > OffsetFlip(q, window).y
    ensures p.x < q.x <==> OffsetFlip(p, window).x < OffsetFlip(q, window).x
  {
  }
}
