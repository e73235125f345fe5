/** Shared vocabulary of the model: optional values, points in the plane, the
    exact distance comparisons that replace `MathUtils.getDistance`, powers
    that replace `Math.pow`, and the oracle that supplies everything the game
    takes from `Math.random`, `Math.cos`/`Math.sin` and `Math.sqrt`. */
module Common {

  datatype Option<T> = None | Some(value: T)

  datatype Point = Point(x: real, y: real)

  /** The square of a number. */
  function Sq(x: real): real
  {
    x * x
  }

  /** Product of two numbers, kept as one term so that the solver can chain
      comparisons between products. */
  function Mul(a: real, b: real): real
  {
    a * b
  }

  lemma SqNonNegative(x: real)
    ensures Sq(x) >= 0.0
  {
  }

  lemma MulNonNegative(a: real, b: real)
    requires a >= 0.0 && b >= 0.0
    ensures Mul(a, b) >= 0.0
  {
  }

  lemma MulPositive(a: real, b: real)
    requires a > 0.0 && b > 0.0
    ensures Mul(a, b) > 0.0
  {
  }

  lemma MulDistributes(a: real, b: real, c: real)
    ensures Mul(a, b - c) == Mul(a, b) - Mul(a, c)
  {
  }

  lemma MulCommutes(a: real, b: real)
    ensures Mul(a, b) == Mul(b, a)
  {
  }

  /** Squaring is strictly increasing on the non-negative numbers. */
  lemma SqStrictlyMonotone(x: real, y: real)
    requires 0.0 <= x < y
    ensures Sq(x) < Sq(y)
  {
    MulNonNegative(x, y - x);
    MulDistributes(x, y, x);
    MulPositive(y, y - x);
    MulDistributes(y, y, x);
    MulCommutes(x, y);
  }

  /** Squaring is increasing on the non-negative numbers. */
  lemma SqMonotone(x: real, y: real)
    requires 0.0 <= x <= y
    ensures Sq(x) <= Sq(y)
  {
    MulNonNegative(x, y - x);
    MulDistributes(x, y, x);
    MulNonNegative(y, y - x);
    MulDistributes(y, y, x);
    MulCommutes(x, y);
  }

  /** Squared Euclidean distance between two points. */
  function SqDist(a: Point, b: Point): (d: real)
    ensures d >= 0.0
  {
    SqNonNegative(a.x - b.x);
    SqNonNegative(a.y - b.y);
    Sq(a.x - b.x) + Sq(a.y - b.y)
  }

  lemma SqDistSymmetric(a: Point, b: Point)
    ensures SqDist(a, b) == SqDist(b, a)
  {
    assert Sq(a.x - b.x) == Sq(b.x - a.x);
    assert Sq(a.y - b.y) == Sq(b.y - a.y);
  }

  /** `getDistance(a, b) < bound`, decided on squared distances. */
  predicate Closer(a: Point, b: Point, bound: real)
  {
    bound > 0.0 && SqDist(a, b) < Sq(bound)
  }

  /** `getDistance(a, b) <= bound`, decided on squared distances. */
  predicate NoFarther(a: Point, b: Point, bound: real)
  {
    bound >= 0.0 && SqDist(a, b) <= Sq(bound)
  }

  /** For the true distance `r` (the non-negative root of the squared
      distance), the strict comparison with a bound is exactly `Closer`. */
  lemma CloserIsDistanceBelow(a: Point, b: Point, r: real, bound: real)
    requires r >= 0.0 && Sq(r) == SqDist(a, b)
    ensures r < bound <==> Closer(a, b, bound)
  {
    if r < bound {
      SqStrictlyMonotone(r, bound);
    } else if bound > 0.0 {
      SqMonotone(bound, r);
    }
  }

  /** The non-strict comparison with a bound is exactly `NoFarther`. */
  lemma NoFartherIsDistanceAtMost(a: Point, b: Point, r: real, bound: real)
    requires r >= 0.0 && Sq(r) == SqDist(a, b)
    ensures r <= bound <==> NoFarther(a, b, bound)
  {
    if r <= bound {
      SqMonotone(r, bound);
    } else if bound >= 0.0 {
      SqStrictlyMonotone(bound, r);
    }
  }

  /** Comparing two true distances is comparing their squares, so the
      nearest enemy by squared distance is the nearest by distance. */
  lemma NearerIsSquareNearer(r1: real, r2: real)
    requires r1 >= 0.0 && r2 >= 0.0
    ensures r1 < r2 <==> Sq(r1) < Sq(r2)
  {
    if r1 < r2 {
      SqStrictlyMonotone(r1, r2);
    } else {
      SqMonotone(r2, r1);
    }
  }

  /** `Math.ceil(x)`. */
  function Ceil(x: real): (c: int)
    ensures x <= c as real < x + 1.0
  {
    -((-x).Floor)
  }

  /** `Math.max(a, b)`. */
  function Max(a: real, b: real): (m: real)
    ensures m >= a && m >= b && (m == a || m == b)
  {
    if a >= b then a else b
  }

  /** `Math.pow(b, n)` for a natural exponent. */
  function Pow(b: real, n: nat): real
  {
    if n == 0 then 1.0 else b * Pow(b, n - 1)
  }

  lemma {:induction false} PowPositive(b: real, n: nat)
    requires b > 0.0
    ensures Pow(b, n) > 0.0
  {
    if n > 0 {
      PowPositive(b, n - 1);
    }
  }

  /** With a base of at least 1 the power never decreases with the exponent. */
  lemma {:induction false} PowMonotone(b: real, m: nat, n: nat)
    requires b >= 1.0 && m <= n
    ensures 1.0 <= Pow(b, m) <= Pow(b, n)
  {
    if m < n {
      PowMonotone(b, m, n - 1);
      assert Pow(b, n) == b * Pow(b, n - 1) >= Pow(b, n - 1);
    } else if m > 0 {
      PowMonotone(b, m - 1, m - 1);
    }
  }

  /** With a base above 1 the power strictly increases with the exponent. */
  lemma {:induction false} PowStrictlyMonotone(b: real, m: nat, n: nat)
    requires b > 1.0 && m < n
    ensures Pow(b, m) < Pow(b, n)
  {
    PowMonotone(b, m, n - 1);
    assert Pow(b, n) == b * Pow(b, n - 1);
    assert b * Pow(b, n - 1) > Pow(b, n - 1);
  }

  /** `Math.pow(b, e)` for an integer exponent of either sign. */
  function PowInt(b: real, e: int): (p: real)
    requires b > 0.0
    ensures p > 0.0
  {
    PowPositive(b, if e >= 0 then e else -e);
    if e >= 0 then Pow(b, e) else 1.0 / Pow(b, -e)
  }

  /** The value of `Math.PI` written as a decimal (the model's reals are exact). */
  const PI: real := 3.141592653589793

  /** What the game obtains from outside its own arithmetic: the successive
      results of `Math.random()`, the spawn point that `MathUtils.getSpawnPoint`
      computes from its random angle, the unit vector from one point toward
      another (the normalised movement of `Enemy.update`), and the cosine and
      sine of the middle angle of edge `i` of an `n`-gon (the fragment
      directions of `Enemy.startDeath`). */
  datatype Oracle = Oracle(
    random: nat -> real,
    spawnAt: real -> Point,
    toward: (Point, Point) -> Point,
    edgeDir: (nat, nat) -> Point)

  /** `Math.random()` returns a value in [0, 1). */
  ghost predicate RandomInRange(env: Oracle)
  {
    forall n: nat :: 0.0 <= env.random(n) < 1.0
  }
}
