/**
 * Numeric vocabulary shared by the three simulations of the portfolio page.
 *
 * JavaScript numbers are modelled as exact reals. `Math.sqrt` is not
 * computed: a caller passes a square-root function and the contracts ask
 * only that it return the non-negative root (`IsSqrt`). `Math.random()`
 * is not computed either: each draw is passed in as a `Draw`, a real in
 * [0, 1).
 *
 * Products are written through `Mul` and squares through `Sq` wherever a
 * proof has to combine several facts about them: the solver then treats
 * each product as one term and reasons about it linearly.
 */
module Numeric {

  datatype Option<T> = None | Some(value: T)

  /** A point or a displacement in CSS pixels. */
  datatype Vec = Vec(x: real, y: real)

  /** One value of `Math.random()`. */
  type Draw = r: real | 0.0 <= r < 1.0

  function Abs(a: real): (r: real)
    ensures r >= 0.0
    ensures r == a || r == -a
    ensures r >= a && r >= -a
  {
    if a < 0.0 then -a else a
  }

  function Mul(a: real, b: real): real
  {
    a * b
  }

  /** `Math.pow(a, 2)`. */
  function Sq(a: real): real
  {
    a * a
  }

  /** Squared Euclidean distance between two points. */
  function DistSq(p: Vec, q: Vec): (r: real)
    ensures r >= 0.0
    ensures r == 0.0 <==> p == q
  {
    SqSumZero(p.x - q.x, p.y - q.y);
    Sq(p.x - q.x) + Sq(p.y - q.y)
  }

  lemma MulLess(a: real, b: real, k: real)
    requires a < b && k > 0.0
    ensures Mul(a, k) < Mul(b, k)
  {
  }

  lemma MulAtMost(a: real, b: real, k: real)
    requires a <= b && k >= 0.0
    ensures Mul(a, k) <= Mul(b, k)
  {
  }

  lemma SqPositive(a: real)
    requires a != 0.0
    ensures Sq(a) > 0.0
  {
    assert Mul(0.0, a) == 0.0;
    if a > 0.0 {
      MulLess(0.0, a, a);
    } else {
      MulLess(0.0, -a, -a);
      assert Mul(-a, -a) == Sq(a);
    }
  }

  lemma SqNonNegative(a: real)
    ensures Sq(a) >= 0.0
  {
    if a != 0.0 {
      SqPositive(a);
    }
  }

  lemma SqSumZero(a: real, b: real)
    ensures Sq(a) + Sq(b) >= 0.0
    ensures Sq(a) + Sq(b) == 0.0 <==> a == 0.0 && b == 0.0
  {
    SqNonNegative(a);
    SqNonNegative(b);
    if a != 0.0 {
      SqPositive(a);
    }
    if b != 0.0 {
      SqPositive(b);
    }
  }

  /**
   * For non-negative reals, comparing two values is comparing their
   * squares: this is what lets a distance test `d < c` be read as the
   * squared test `Sq(d) < Sq(c)`.
   */
  lemma LessIffSqLess(d: real, c: real)
    requires 0.0 <= d && 0.0 <= c
    ensures d < c <==> Sq(d) < Sq(c)
  {
    assert Mul(c, d) == Mul(d, c);
    if d < c {
      MulAtMost(d, c, d);
      MulLess(d, c, c);
    } else {
      MulAtMost(c, d, c);
      MulAtMost(c, d, d);
    }
  }

  /** A positive `q` with `w * q == q` forces `w == 1`. */
  lemma CancelToOne(w: real, q: real)
    requires q > 0.0 && Mul(w, q) == q
    ensures w == 1.0
  {
    assert Mul(1.0, q) == q;
    if w > 1.0 {
      MulLess(1.0, w, q);
    }
    if w < 1.0 {
      MulLess(w, 1.0, q);
    }
  }

  /** Dividing a vector by its length gives a unit vector. */
  lemma UnitAfterDivision(dx: real, dy: real, d: real)
    requires d > 0.0 && Sq(d) == Sq(dx) + Sq(dy)
    ensures Sq(dx / d) + Sq(dy / d) == 1.0
  {
    var u, v := dx / d, dy / d;
    assert u * d == dx && v * d == dy;
    assert Mul(Sq(u) + Sq(v), Sq(d)) == Sq(dx) + Sq(dy);
    SqPositive(d);
    CancelToOne(Sq(u) + Sq(v), Sq(d));
  }

  /** `sqrt` behaves as `Math.sqrt` on every non-negative argument. */
  ghost predicate IsSqrt(sqrt: real -> real)
  {
    forall a :: 0.0 <= a ==> 0.0 <= sqrt(a) && Sq(sqrt(a)) == a
  }

  /** A distance obtained from a squared distance tests like it. */
  lemma SqrtBelow(sqrt: real -> real, a: real, c: real)
    requires IsSqrt(sqrt)
    requires 0.0 <= a && 0.0 <= c
    ensures sqrt(a) < c <==> a < Sq(c)
  {
    LessIffSqLess(sqrt(a), c);
  }

  lemma SqrtZero(sqrt: real -> real, a: real)
    requires IsSqrt(sqrt)
    requires 0.0 <= a
    ensures sqrt(a) == 0.0 <==> a == 0.0
  {
    var s := sqrt(a);
    assert Sq(s) == a;
    if s != 0.0 {
      SqPositive(s);
    }
  }

  /** The least integer not below `a` (`Math.ceil`). */
  function Ceil(a: real): (n: int)
    ensures n as real >= a
    ensures (n - 1) as real < a
  {
    if a.Floor as real == a then a.Floor else a.Floor + 1
  }

  /**
   * The number of iterations of `for (let i = 0; i < a; i++)`: the least
   * natural number not below `a`.
   */
  function IterationCount(a: real): (n: nat)
    ensures n as real >= a
    ensures n == 0 || (n - 1) as real < a
    ensures a > 0.0 ==> n == Ceil(a)
  {
    if a <= 0.0 then 0 else Ceil(a)
  }
}
