/** Two-dimensional vectors over the reals (internal/common/vector.go). `math.Sqrt` is a
    parameter of `Len` and `Normalize`, constrained by `IsSqrt` where a proof needs it. */
module Vector {

  datatype Vec2 = Vec2(x: real, y: real)

  /** Go's zero value `Vec2{}`. */
  const Zero := Vec2(0.0, 0.0)

  function Add(v: Vec2, w: Vec2): Vec2 { Vec2(v.x + w.x, v.y + w.y) }

  function Sub(v: Vec2, w: Vec2): Vec2 { Vec2(v.x - w.x, v.y - w.y) }

  function Scale(v: Vec2, s: real): Vec2 { Vec2(v.x * s, v.y * s) }

  /** `v.X*w.X + v.Y*w.Y`, which the callers of this package write out inline. */
  function Dot(v: Vec2, w: Vec2): real { v.x * w.x + v.y * w.y }

  function Square(a: real): real { a * a }

  /** The argument `Len` hands to the square root. */
  function LenSq(v: Vec2): real { Square(v.x) + Square(v.y) }

  /** `sqrt` is the non-negative square root on the non-negative reals. */
  ghost predicate IsSqrt(sqrt: real -> real) {
    forall x :: 0.0 <= x ==> 0.0 <= sqrt(x) && Square(sqrt(x)) == x
  }

  function Len(v: Vec2, sqrt: real -> real): real { sqrt(LenSq(v)) }

  /** The unit vector along `v`, and the zero vector when the length is zero. */
  function Normalize(v: Vec2, sqrt: real -> real): Vec2 {
    var l := Len(v, sqrt);
    if l == 0.0 then Zero else Scale(v, 1.0 / l)
  }

  /** Subtracting a vector and adding it back, in either order, gives the vector back. */
  lemma SubThenAdd(v: Vec2, w: Vec2)
    ensures Add(Sub(v, w), w) == v
    ensures Sub(Add(v, w), w) == v
  {
  }

  lemma MulPositive(a: real, b: real)
    requires a > 0.0 && b > 0.0
    ensures a * b > 0.0
  {
  }

  /** A square is never negative, and it is zero exactly at zero. */
  lemma SquareSign(a: real)
    ensures Square(a) >= 0.0
    ensures Square(a) == 0.0 <==> a == 0.0
  {
    if a > 0.0 {
      calc { Square(a); a * a; > { MulPositive(a, a); } 0.0; }
    } else if a < 0.0 {
      calc { Square(a); (-a) * (-a); > { MulPositive(-a, -a); } 0.0; }
    }
  }

  /** Squaring is injective on the non-negative reals. */
  lemma SquareInjective(a: real, b: real)
    requires a >= 0.0 && b >= 0.0 && Square(a) == Square(b)
    ensures a == b
  {
    if a + b > 0.0 {
      calc {
        a - b;
        ((a - b) * (a + b)) / (a + b);
        (Square(a) - Square(b)) / (a + b);
        0.0;
      }
    }
  }

  lemma LenSqZero(v: Vec2)
    ensures LenSq(v) >= 0.0
    ensures LenSq(v) == 0.0 <==> v == Zero
  {
    SquareSign(v.x);
    SquareSign(v.y);
  }

  /** A vector whose squared length is not positive is the zero vector. */
  lemma LenSqNonPositive(d: Vec2)
    requires LenSq(d) <= 0.0
    ensures d == Zero
  {
    LenSqZero(d);
  }

  /** Two points at squared distance zero coincide. */
  lemma SamePoint(v: Vec2, w: Vec2)
    requires LenSq(Sub(v, w)) <= 0.0
    ensures v == w
  {
    LenSqNonPositive(Sub(v, w));
    SubZero(v, w);
  }

  lemma SubZero(v: Vec2, w: Vec2)
    requires Sub(v, w) == Zero
    ensures v == w
  {
  }

  lemma SqrtZeroIff(sqrt: real -> real, x: real)
    requires IsSqrt(sqrt) && 0.0 <= x
    ensures sqrt(x) >= 0.0
    ensures sqrt(x) == 0.0 <==> x == 0.0
  {
    SquareSign(sqrt(x));
  }

  lemma SqrtOne(sqrt: real -> real)
    requires IsSqrt(sqrt)
    ensures sqrt(1.0) == 1.0
  {
    SquareInjective(sqrt(1.0), 1.0);
  }

  /** A length is never negative, and it is zero exactly for the zero vector. */
  lemma LenZeroIff(v: Vec2, sqrt: real -> real)
    requires IsSqrt(sqrt)
    ensures Len(v, sqrt) >= 0.0
    ensures Len(v, sqrt) == 0.0 <==> v == Zero
  {
    LenSqZero(v);
    SqrtZeroIff(sqrt, LenSq(v));
  }

  /** Normalising the zero vector gives the zero vector. */
  lemma NormalizeZero(sqrt: real -> real)
    requires IsSqrt(sqrt)
    ensures Normalize(Zero, sqrt) == Zero
  {
    LenZeroIff(Zero, sqrt);
  }

  /** Scaling by `k` multiplies the squared length by `k * k`. */
  lemma ScaleLenSq(v: Vec2, k: real)
    ensures LenSq(Scale(v, k)) == Square(k) * LenSq(v)
  {
    calc {
      LenSq(Scale(v, k));
      (v.x * k) * (v.x * k) + (v.y * k) * (v.y * k);
      (k * k) * (v.x * v.x + v.y * v.y);
      Square(k) * LenSq(v);
    }
  }

  /** Normalising a non-zero vector gives a vector of length 1. */
  lemma NormalizeUnit(v: Vec2, sqrt: real -> real)
    requires IsSqrt(sqrt) && v != Zero
    ensures LenSq(Normalize(v, sqrt)) == 1.0
    ensures Len(Normalize(v, sqrt), sqrt) == 1.0
  {
    LenZeroIff(v, sqrt);
    var l := Len(v, sqrt);
    LenSqZero(v);
    assert Square(l) == LenSq(v);
    ScaleLenSq(v, 1.0 / l);
    calc {
      Square(1.0 / l) * Square(l);
      ((1.0 / l) * l) * ((1.0 / l) * l);
      1.0;
    }
    SqrtOne(sqrt);
  }
}
