/** Two-dimensional vectors standing in for glm::vec2, with the float
    components modelled as reals. Square roots are never computed: a length
    function is passed in where the game calls glm::length, and IsLength
    states what it must satisfy. */
module Vectors {

  datatype Vec = Vec(x: real, y: real)

  const Zero: Vec := Vec(0.0, 0.0)

  function Add(a: Vec, b: Vec): Vec {
    Vec(a.x + b.x, a.y + b.y)
  }

  function Sub(a: Vec, b: Vec): Vec {
    Vec(a.x - b.x, a.y - b.y)
  }

  function Neg(a: Vec): Vec {
    Vec(-a.x, -a.y)
  }

  function Scale(k: real, a: Vec): Vec {
    Vec(k * a.x, k * a.y)
  }

  /** Component-wise division by a non-zero scalar (glm's `v / s`). */
  function Div(a: Vec, k: real): Vec
    requires k != 0.0
  {
    Vec(a.x / k, a.y / k)
  }

  function Dot(a: Vec, b: Vec): real {
    a.x * b.x + a.y * b.y
  }

  /** Squared Euclidean length. */
  function Norm2(a: Vec): (r: real)
    ensures r >= 0.0
  {
    Dot(a, a)
  }

  /** A multiple of v is parallel to v, and its dot product with v is that
      multiple of v's squared length. */
  lemma ScaledParallel(k: real, v: Vec)
    ensures Scale(k, v).x * v.y == Scale(k, v).y * v.x
    ensures Dot(Scale(k, v), v) == k * Norm2(v)
  {
  }

  lemma NonNegativeProduct(a: real, b: real)
    requires a >= 0.0 && b >= 0.0
    ensures a * b >= 0.0
  {
  }

  lemma PositiveProduct(a: real, b: real)
    requires a > 0.0 && b > 0.0
    ensures a * b > 0.0
  {
  }

  /** glm::reflect(i, n) == i - 2 * dot(n, i) * n */
  function Reflect(i: Vec, n: Vec): Vec {
    Sub(i, Scale(2.0 * Dot(n, i), n))
  }

  /** What the game needs of glm::length: a non-negative square root of the
      squared length. */
  ghost predicate IsLength(len: Vec -> real) {
    forall v :: len(v) >= 0.0 && len(v) * len(v) == Norm2(v)
  }

  lemma LengthSquared(len: Vec -> real, v: Vec)
    requires IsLength(len)
    ensures len(v) >= 0.0 && len(v) * len(v) == Norm2(v)
  {
  }

  /** For non-negative reals, comparing squares is comparing the values. */
  lemma SquareMonotone(a: real, b: real)
    requires a >= 0.0 && b >= 0.0
    ensures a <= b <==> a * a <= b * b
    ensures a < b <==> a * a < b * b
  {
    if a < b {
      StrictSquare(a, b);
    } else if b < a {
      StrictSquare(b, a);
    }
  }

  lemma StrictSquare(a: real, b: real)
    requires 0.0 <= a < b
    ensures a * a < b * b
  {
    var d := b - a;
    assert b * b == a * a + 2.0 * a * d + d * d;
    assert a * d >= 0.0;
    assert d * d > 0.0;
  }

  /** A length compared against a non-negative bound is the squared length
      compared against the squared bound. */
  lemma LengthBound(len: Vec -> real, v: Vec, bound: real)
    requires IsLength(len)
    requires bound >= 0.0
    ensures len(v) <= bound <==> Norm2(v) <= bound * bound
    ensures len(v) < bound <==> Norm2(v) < bound * bound
  {
    SquareMonotone(len(v), bound);
  }

  lemma Norm2Sym(a: Vec, b: Vec)
    ensures Norm2(Sub(a, b)) == Norm2(Sub(b, a))
  {
    assert Sub(a, b) == Neg(Sub(b, a));
  }

  /** A non-negative square root is unique. */
  lemma SquareRootUnique(a: real, b: real)
    requires a >= 0.0 && b >= 0.0 && a * a == b * b
    ensures a == b
  {
    SquareMonotone(a, b);
  }

  /** The distance from a to b is the distance from b to a. */
  lemma LengthSymmetric(len: Vec -> real, a: Vec, b: Vec)
    requires IsLength(len)
    ensures len(Sub(a, b)) == len(Sub(b, a))
  {
    LengthSquared(len, Sub(a, b));
    LengthSquared(len, Sub(b, a));
    Norm2Sym(a, b);
    SquareRootUnique(len(Sub(a, b)), len(Sub(b, a)));
  }

  /** glm::reflect about a unit normal n negates the velocity's component
      along n, changes it only along n, and so keeps its squared length. */
  lemma ReflectUnitNormal(i: Vec, n: Vec)
    requires Norm2(n) == 1.0
    ensures Dot(Reflect(i, n), n) == -Dot(i, n)
    ensures var c := Sub(Reflect(i, n), i); c.x * n.y == c.y * n.x
    ensures Norm2(Reflect(i, n)) == Norm2(i)
  {
    var k := 2.0 * Dot(n, i);
    var r := Reflect(i, n);
    assert r == Sub(i, Scale(k, n));
    ScaledParallel(k, n);
    assert Dot(r, n) == Dot(i, n) - k * Norm2(n);
    assert Dot(r, r) == Dot(i, i) - 2.0 * k * Dot(i, n) + k * k * Norm2(n);
  }

  /** Reflecting about a unit axis normal negates that axis' component of the
      velocity and keeps the other. */
  lemma ReflectAxis(v: Vec)
    ensures Reflect(v, Vec(-1.0, 0.0)) == Vec(-v.x, v.y)
    ensures Reflect(v, Vec(1.0, 0.0)) == Vec(-v.x, v.y)
    ensures Reflect(v, Vec(0.0, -1.0)) == Vec(v.x, -v.y)
    ensures Reflect(v, Vec(0.0, 1.0)) == Vec(v.x, -v.y)
  {
  }
}
