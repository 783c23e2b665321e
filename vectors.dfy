/**
 * Three-component vectors over the reals, standing in for THREE.Vector3.
 * Only the operations the steering kernel uses are modelled. A square root
 * cannot be defined in Dafny, so every length is taken through a function
 * `sqrt` supplied by the caller; `IsSqrt` states what that function must do.
 */
module Vectors {

  datatype Vec3 = Vec3(x: real, y: real, z: real)

  const Zero: Vec3 := Vec3(0.0, 0.0, 0.0)

  function Add(a: Vec3, b: Vec3): Vec3 {
    Vec3(a.x + b.x, a.y + b.y, a.z + b.z)
  }

  function Sub(a: Vec3, b: Vec3): Vec3 {
    Vec3(a.x - b.x, a.y - b.y, a.z - b.z)
  }

  function Scale(v: Vec3, s: real): Vec3 {
    Vec3(s * v.x, s * v.y, s * v.z)
  }

  function Dot(a: Vec3, b: Vec3): real {
    a.x * b.x + a.y * b.y + a.z * b.z
  }

  /** Squared Euclidean length: never negative, and zero only for the zero vector. */
  function LengthSq(v: Vec3): (r: real)
    ensures 0.0 <= r
    ensures r == 0.0 <==> v == Zero
  {
    var xx, yy, zz := v.x * v.x, v.y * v.y, v.z * v.z;
    Square(v.x, xx);
    Square(v.y, yy);
    Square(v.z, zz);
    xx + yy + zz
  }

  /** `sqrt` is a square root on the non-negative reals. */
  ghost predicate IsSqrt(sqrt: real -> real) {
    forall t: real :: 0.0 <= t ==> 0.0 <= sqrt(t) && sqrt(t) * sqrt(t) == t
  }

  /** Vector3.length. */
  function Length(sqrt: real -> real, v: Vec3): real {
    sqrt(LengthSq(v))
  }

  /** Vector3.distanceTo. */
  function DistanceTo(sqrt: real -> real, a: Vec3, b: Vec3): real {
    Length(sqrt, Sub(a, b))
  }

  /** Vector3.normalize: divides by the length, or by 1 when the length is 0. */
  function Normalize(sqrt: real -> real, v: Vec3): Vec3 {
    var len := Length(sqrt, v);
    Scale(v, 1.0 / (if len == 0.0 then 1.0 else len))
  }

  // ---- real arithmetic helpers (products are passed as their own variable) ----

  lemma MulPositive(a: real, b: real, c: real)
    requires 0.0 < a && 0.0 < b && c == a * b
    ensures 0.0 < c
  {
    assert a * b > 0.0 * b;
  }

  lemma Square(a: real, c: real)
    requires c == a * a
    ensures 0.0 <= c
    ensures c == 0.0 <==> a == 0.0
  {
    if a > 0.0 {
      MulPositive(a, a, c);
    } else if a < 0.0 {
      MulPositive(-a, -a, c);
    }
  }

  // ---- lengths ----

  /** The length is the non-negative root of the squared length. */
  lemma LengthOfSquare(sqrt: real -> real, v: Vec3)
    requires IsSqrt(sqrt)
    ensures 0.0 <= Length(sqrt, v)
    ensures Length(sqrt, v) * Length(sqrt, v) == LengthSq(v)
    ensures Length(sqrt, v) == 0.0 <==> v == Zero
  {
    var t := LengthSq(v);
    var s := sqrt(t);
    assert 0.0 <= s && s * s == t;
    Square(s, t);
  }

  /** Scaling twice is scaling once by the product. */
  lemma ScaleTwice(v: Vec3, a: real, b: real)
    ensures Scale(Scale(v, a), b) == Scale(v, a * b)
  {
  }

  lemma LengthSqScale(v: Vec3, k: real)
    ensures LengthSq(Scale(v, k)) == (k * k) * LengthSq(v)
  {
  }

  /** A normalised vector has length 1, except that the zero vector stays zero. */
  lemma NormalizeUnit(sqrt: real -> real, v: Vec3)
    requires IsSqrt(sqrt)
    ensures v == Zero ==> Normalize(sqrt, v) == Zero
    ensures v != Zero ==> LengthSq(Normalize(sqrt, v)) == 1.0
  {
    LengthOfSquare(sqrt, v);
    if v != Zero {
      var len := Length(sqrt, v);
      var k := 1.0 / len;
      LengthSqScale(v, k);
      assert k * len == 1.0;
      calc {
        LengthSq(Normalize(sqrt, v));
        (k * k) * LengthSq(v);
        (k * k) * (len * len);
        (k * len) * (k * len);
        1.0;
      }
    }
  }

  /** Expanding the squared length of a difference and of a sum. */
  lemma LengthSqSub(a: Vec3, b: Vec3)
    ensures LengthSq(Sub(a, b)) == LengthSq(a) + LengthSq(b) - 2.0 * Dot(a, b)
  {
  }

  lemma LengthSqAdd(a: Vec3, b: Vec3)
    ensures LengthSq(Add(a, b)) == LengthSq(a) + LengthSq(b) + 2.0 * Dot(a, b)
  {
  }

  /** The cosine between two vectors of length at most 1 lies in [-1, 1]. */
  lemma DotBounded(a: Vec3, b: Vec3)
    requires LengthSq(a) <= 1.0 && LengthSq(b) <= 1.0
    ensures -1.0 <= Dot(a, b) <= 1.0
  {
    LengthSqSub(a, b);
    LengthSqAdd(a, b);
  }
}
