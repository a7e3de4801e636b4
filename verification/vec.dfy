/** Three-component vectors over the reals, for particle positions. */
module Vec {

  datatype Vec3 = Vec3(x: real, y: real, z: real)

  function Add(a: Vec3, b: Vec3): Vec3
  {
    Vec3(a.x + b.x, a.y + b.y, a.z + b.z)
  }

  function Sub(a: Vec3, b: Vec3): (d: Vec3)
    ensures Add(b, d) == a
  {
    Vec3(a.x - b.x, a.y - b.y, a.z - b.z)
  }

  /** The vector v scaled by k. */
  function Times(v: Vec3, k: real): Vec3
  {
    Vec3(v.x * k, v.y * k, v.z * k)
  }

  /** The squared length of v. */
  function Norm2(v: Vec3): (n: real)
    ensures n >= 0.0
  {
    SquareNonNegative(v.x);
    SquareNonNegative(v.y);
    SquareNonNegative(v.z);
    v.x * v.x + v.y * v.y + v.z * v.z
  }

  lemma SquareNonNegative(a: real)
    ensures a * a >= 0.0
  {
    if a < 0.0 {
      assert a * a == (-a) * (-a);
    }
  }

  lemma SquarePositive(a: real)
    requires a != 0.0
    ensures a * a > 0.0
  {
    if a < 0.0 {
      assert a * a == (-a) * (-a);
    }
  }

  /** Scaling twice is scaling once by the product. */
  lemma TimesTimes(v: Vec3, a: real, b: real)
    ensures Times(Times(v, a), b) == Times(v, a * b)
  {
    assert (v.x * a) * b == v.x * (a * b);
    assert (v.y * a) * b == v.y * (a * b);
    assert (v.z * a) * b == v.z * (a * b);
  }

  /** Scaling a vector by k scales its squared length by k * k. */
  lemma NormTimes(v: Vec3, k: real)
    ensures Norm2(Times(v, k)) == k * k * Norm2(v)
  {
    assert (v.x * k) * (v.x * k) == k * k * (v.x * v.x);
    assert (v.y * k) * (v.y * k) == k * k * (v.y * v.y);
    assert (v.z * k) * (v.z * k) == k * k * (v.z * v.z);
  }
}
