/**
 * Three-component vectors over the reals, standing in for the `float[3]`
 * arrays and the `dot3`/`cross3`/`add3`/`mul3_scalar` macros of the renderer.
 * The model deliberately works over `real`: no claim is made about IEEE
 * rounding.
 */
module Geometry {

  datatype Vec3 = Vec3(x: real, y: real, z: real) {

    /** Component `i`, as the C code writes `v[i]`. */
    function At(i: nat): real
      requires i < 3
    {
      if i == 0 then x else if i == 1 then y else z
    }
  }

  const Zero: Vec3 := Vec3(0.0, 0.0, 0.0)

  function Dot(a: Vec3, b: Vec3): real
  {
    a.x * b.x + a.y * b.y + a.z * b.z
  }

  function Add(a: Vec3, b: Vec3): Vec3
  {
    Vec3(a.x + b.x, a.y + b.y, a.z + b.z)
  }

  function Sub(a: Vec3, b: Vec3): Vec3
  {
    Vec3(a.x - b.x, a.y - b.y, a.z - b.z)
  }

  function Scale(a: Vec3, s: real): Vec3
  {
    Vec3(a.x * s, a.y * s, a.z * s)
  }

  function Cross(a: Vec3, b: Vec3): Vec3
  {
    Vec3(a.y * b.z - a.z * b.y, a.z * b.x - a.x * b.z, a.x * b.y - a.y * b.x)
  }

  /** `(a + b) * 0.5` on every component: the centre between two corners. */
  function Midpoint(a: Vec3, b: Vec3): Vec3
  {
    Vec3((a.x + b.x) * 0.5, (a.y + b.y) * 0.5, (a.z + b.z) * 0.5)
  }

  /** `start + (end - start) * f`, the interpolation used for split points and end positions. */
  function Lerp(start: Vec3, end: Vec3, f: real): Vec3
  {
    Vec3(start.x + (end.x - start.x) * f,
         start.y + (end.y - start.y) * f,
         start.z + (end.z - start.z) * f)
  }

  function Max(a: real, b: real): real { if a > b then a else b }

  function Min(a: real, b: real): real { if a < b then a else b }

  /** Bit `i` of a small bit set, as `b & (1 << i)` in C. */
  predicate BitSet(b: bv8, i: nat)
    requires i < 8
  {
    b & (1 << i) != 0
  }
}
