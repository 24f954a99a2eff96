/** Keyframe values: positions, editor quaternions and the animation file's
    rotation tuples, with the exact operations the curve merge combines them
    with. Components are unbounded reals, so every identity below is exact. */
module Values {

  /** A position, in either axis convention. */
  datatype Vec3 = Vec3(x: real, y: real, z: real)

  /** An editor (mathutils) quaternion, stored in (w, x, y, z) order. */
  datatype Quat = Quat(w: real, x: real, y: real, z: real)

  /** A rotation as the animation file stores it, in (x, y, z, w) order. */
  datatype GmtQuat = GmtQuat(x: real, y: real, z: real, w: real)

  /** `Vector()`: the zero vector. */
  const Zero: Vec3 := Vec3(0.0, 0.0, 0.0)

  /** `Quaternion()`: the identity rotation. */
  const Identity: Quat := Quat(1.0, 0.0, 0.0, 0.0)

  /** Vector addition `v1 + v2`. */
  function Add(a: Vec3, b: Vec3): Vec3 {
    Vec3(a.x + b.x, a.y + b.y, a.z + b.z)
  }

  /** The Hamilton product `p @ q`. */
  function Mul(p: Quat, q: Quat): Quat {
    Quat(p.w * q.w - p.x * q.x - p.y * q.y - p.z * q.z,
         p.w * q.x + p.x * q.w + p.y * q.z - p.z * q.y,
         p.w * q.y - p.x * q.z + p.y * q.w + p.z * q.x,
         p.w * q.z + p.x * q.y - p.y * q.x + p.z * q.w)
  }

  function SqNorm3(v: Vec3): real {
    v.x * v.x + v.y * v.y + v.z * v.z
  }

  function SqNormQuat(q: Quat): real {
    q.w * q.w + q.x * q.x + q.y * q.y + q.z * q.z
  }

  function SqNormGmt(g: GmtQuat): real {
    g.x * g.x + g.y * g.y + g.z * g.z + g.w * g.w
  }

  /** The zero vector is a left identity of addition. */
  lemma AddZeroLeft(v: Vec3)
    ensures Add(Zero, v) == v
  {
  }

  /** The identity quaternion is a left identity of the product. */
  lemma MulIdentityLeft(q: Quat)
    ensures Mul(Identity, q) == q
  {
  }
}
