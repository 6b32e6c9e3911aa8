/** Small linear-algebra values the particle pool stores: glam's `Vec3` and
    `Vec4` with `f32` components modelled as reals, and an `f32` result that
    may be NaN. */
module Vectors {

  datatype Vec3 = Vec3(x: real, y: real, z: real)

  /** A four-component vector. The pool packs a rotation (for positions) or
      an angular velocity (for velocities) into `w`. */
  datatype Vec4 = Vec4(x: real, y: real, z: real, w: real)

  /** `Vec4::from((v, w))`: extends a three-vector with a fourth component. */
  function Extend(v: Vec3, w: real): Vec4
  {
    Vec4(v.x, v.y, v.z, w)
  }

  /** Component-wise `a + b` (glam's `Add` and `AddAssign`). */
  function Add(a: Vec4, b: Vec4): Vec4
  {
    Vec4(a.x + b.x, a.y + b.y, a.z + b.z, a.w + b.w)
  }

  /** `v * s` for a scalar `s` (glam's `Mul<f32>`). */
  function Scale(v: Vec4, s: real): Vec4
  {
    Vec4(v.x * s, v.y * s, v.z * s, v.w * s)
  }

  /** An `f32` result: a number, or NaN (as produced by `0.0 / 0.0`). */
  datatype F32 = Num(value: real) | NaN
}
