/** Two-dimensional vectors, as far as the simulation step uses them.
    Components are reals: an idealisation of the source's 32-bit floats
    (no rounding, no NaN or infinity). */
module Vectors {

  datatype Vector2 = Vector2(x: real, y: real)

  /** The zero vector (Vector2Zero). */
  const Zero := Vector2(0.0, 0.0)

  /** Component-wise sum (Vector2Add). */
  function Add(v1: Vector2, v2: Vector2): (r: Vector2)
  {
    Vector2(v1.x + v2.x, v1.y + v2.y)
  }

  /** Both components multiplied by a scalar (Vector2Scale). */
  function Scale(v: Vector2, s: real): (r: Vector2)
  {
    Vector2(v.x * s, v.y * s)
  }
}
