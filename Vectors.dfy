/** Three-component vectors over the reals, standing in for glm::vec3.
    Floating point rounding is not modelled: every operation is exact. */
module Vectors {

  datatype Vec3 = Vec3(x: real, y: real, z: real)

  const Zero := Vec3(0.0, 0.0, 0.0)
  const One := Vec3(1.0, 1.0, 1.0)

  function Add(a: Vec3, b: Vec3): Vec3 {
    Vec3(a.x + b.x, a.y + b.y, a.z + b.z)
  }

  function Sub(a: Vec3, b: Vec3): Vec3 {
    Vec3(a.x - b.x, a.y - b.y, a.z - b.z)
  }

  function Neg(a: Vec3): Vec3 {
    Vec3(-a.x, -a.y, -a.z)
  }

  function Scale(k: real, a: Vec3): Vec3 {
    Vec3(k * a.x, k * a.y, k * a.z)
  }

  /** Component-wise product, glm's `v * w` on two vectors. */
  function Mul(a: Vec3, b: Vec3): Vec3 {
    Vec3(a.x * b.x, a.y * b.y, a.z * b.z)
  }

  function Dot(a: Vec3, b: Vec3): real {
    a.x * b.x + a.y * b.y + a.z * b.z
  }

  /** glm::mix: linear interpolation from a (t = 0) to b (t = 1). */
  function Mix(a: Vec3, b: Vec3, t: real): Vec3 {
    Add(a, Scale(t, Sub(b, a)))
  }

  /** A 3x3 matrix given by its columns, glm::mat3; glm's default matrix
      is the identity. */
  datatype Mat3 = Mat3(c0: Vec3, c1: Vec3, c2: Vec3)

  const Identity := Mat3(Vec3(1.0, 0.0, 0.0), Vec3(0.0, 1.0, 0.0), Vec3(0.0, 0.0, 1.0))

  /** m * v: the columns weighted by the components of v. */
  function Apply(m: Mat3, v: Vec3): Vec3 {
    Add(Add(Scale(v.x, m.c0), Scale(v.y, m.c1)), Scale(v.z, m.c2))
  }

  /** The matrix product a * b, column by column. */
  function MatMul(a: Mat3, b: Mat3): Mat3 {
    Mat3(Apply(a, b.c0), Apply(a, b.c1), Apply(a, b.c2))
  }
}
