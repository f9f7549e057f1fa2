/** Optional values, standing for JavaScript's `null` / `undefined` results. */
module Wrappers {

  datatype Option<+T> = None | Some(value: T)
}

/** Real-number helpers shared by the gesture classifier and the card gallery.
    JavaScript's `Math.sqrt` has no counterpart on Dafny's `real`, so every
    operation that takes a square root receives the root function as a
    parameter, constrained by `IsSqrt`. */
module RealMath {

  function Abs(x: real): (r: real)
    ensures r >= 0.0 && (r == x || r == -x)
  {
    if x < 0.0 then -x else x
  }

  /** `Math.pow(v, 2)`. */
  function Square(v: real): (r: real)
    ensures r >= 0.0
  {
    v * v
  }

  /** `sqrt` behaves like `Math.sqrt` on the non-negative reals. */
  ghost predicate IsSqrt(sqrt: real -> real)
  {
    forall v: real :: v >= 0.0 ==> sqrt(v) >= 0.0 && sqrt(v) * sqrt(v) == v
  }

  function Pow(b: real, n: nat): real
  {
    if n == 0 then 1.0 else b * Pow(b, n - 1)
  }

  lemma MulSignNonNeg(a: real, b: real)
    requires a >= 0.0 && b >= 0.0
    ensures a * b >= 0.0
  {}

  lemma MulSignNonPos(a: real, b: real)
    requires a >= 0.0 && b <= 0.0
    ensures a * b <= 0.0
  {}

  /** Squaring is strictly increasing on the non-negative reals. */
  lemma SquareLess(a: real, b: real)
    requires 0.0 <= a < b
    ensures a * a < b * b
  {
    var d := b - a;
    assert b * b == (a + d) * (a + d) == a * a + 2.0 * a * d + d * d;
    assert d * d > 0.0 && a * d >= 0.0;
  }

  /** Squaring is increasing on the non-negative reals. */
  lemma SquareAtMost(a: real, b: real)
    requires 0.0 <= a <= b
    ensures a * a <= b * b
  {
    var d := b - a;
    assert b * b == (a + d) * (a + d) == a * a + 2.0 * a * d + d * d;
    assert d * d >= 0.0 && a * d >= 0.0;
  }

  /** A square root is below a non-negative bound exactly when its argument is
      below the bound's square. */
  lemma SqrtBelow(sqrt: real -> real, v: real, bound: real)
    requires IsSqrt(sqrt) && v >= 0.0 && bound >= 0.0
    ensures sqrt(v) < bound <==> v < bound * bound
  {
    var s := sqrt(v);
    assert s >= 0.0 && s * s == v;
    if s < bound {
      SquareLess(s, bound);
    } else {
      SquareAtMost(bound, s);
    }
  }

  /** A square root is above a non-negative bound exactly when its argument is
      above the bound's square. */
  lemma SqrtAbove(sqrt: real -> real, v: real, bound: real)
    requires IsSqrt(sqrt) && v >= 0.0 && bound >= 0.0
    ensures sqrt(v) > bound <==> v > bound * bound
  {
    var s := sqrt(v);
    assert s >= 0.0 && s * s == v;
    if s > bound {
      SquareLess(bound, s);
    } else {
      SquareAtMost(s, bound);
    }
  }
}
