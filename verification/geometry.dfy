/**
 Vectors, quaternions and axis-aligned boxes over the reals: the value types the
 buoyancy controller computes with (Unity's Vector3, Quaternion and Bounds).
 Floating-point rounding is not modelled.
 */
module Geometry {

  datatype Vec3 = Vec3(x: real, y: real, z: real)

  const Zero := Vec3(0.0, 0.0, 0.0)

  function Add(a: Vec3, b: Vec3): Vec3 {
    Vec3(a.x + b.x, a.y + b.y, a.z + b.z)
  }

  function Neg(a: Vec3): Vec3 {
    Vec3(-a.x, -a.y, -a.z)
  }

  /** Vector times scalar. */
  function Scale(k: real, a: Vec3): Vec3 {
    Vec3(k * a.x, k * a.y, k * a.z)
  }

  /** Vector divided by scalar (Vector3 / float). */
  function DivBy(a: Vec3, d: real): Vec3
    requires d != 0.0
  {
    Vec3(a.x / d, a.y / d, a.z / d)
  }

  /** Splitting a vector into d equal parts and adding them back gives the vector. */
  lemma ScaleDivBy(d: real, a: Vec3)
    requires d != 0.0
    ensures Scale(d, DivBy(a, d)) == a
  {
  }

  datatype Quat = Quat(x: real, y: real, z: real, w: real)

  /** Quaternion.identity */
  const Identity := Quat(0.0, 0.0, 0.0, 1.0)

  /**
   Quaternion * Vector3: the vector rotated by the rotation matrix of q
   (the standard formula, exact for unit quaternions).
   */
  function Rotate(q: Quat, v: Vec3): (r: Vec3)
    ensures q == Identity ==> r == v
  {
    var x2, y2, z2 := q.x * 2.0, q.y * 2.0, q.z * 2.0;
    var xx, yy, zz := q.x * x2, q.y * y2, q.z * z2;
    var xy, xz, yz := q.x * y2, q.x * z2, q.y * z2;
    var wx, wy, wz := q.w * x2, q.w * y2, q.w * z2;
    Vec3((1.0 - (yy + zz)) * v.x + (xy - wz) * v.y + (xz + wy) * v.z,
         (xy + wz) * v.x + (1.0 - (xx + zz)) * v.y + (yz - wx) * v.z,
         (xz - wy) * v.x + (yz + wx) * v.y + (1.0 - (xx + yy)) * v.z)
  }

  /** Rotating the zero vector gives the zero vector. */
  lemma RotateZero(q: Quat)
    ensures Rotate(q, Zero) == Zero
  {
  }

  /** An axis-aligned box stored as centre and half-extents, as Unity's Bounds is. */
  datatype Bounds = Bounds(center: Vec3, extents: Vec3) {

    /** A box a collider reports: its extents are never negative. */
    predicate WellFormed() {
      extents.x >= 0.0 && extents.y >= 0.0 && extents.z >= 0.0
    }

    function Min(): Vec3 {
      Vec3(center.x - extents.x, center.y - extents.y, center.z - extents.z)
    }

    function Max(): Vec3 {
      Vec3(center.x + extents.x, center.y + extents.y, center.z + extents.z)
    }

    function Size(): (s: Vec3)
      ensures Add(Min(), s) == Max()
    {
      Scale(2.0, extents)
    }

    /** p lies in the closed box on every axis. */
    predicate Contains(p: Vec3) {
      Min().x <= p.x <= Max().x && Min().y <= p.y <= Max().y && Min().z <= p.z <= Max().z
    }
  }
}
