/**
 * JavaScript numbers as the app uses them.  A finite double is modelled as an
 * exact real (rounding and overflow are not modelled); NaN and the two
 * infinities are kept apart because the app's guards treat them differently.
 */
module JsNumber {

  datatype Num = Finite(v: real) | NaN | Infinite(negative: bool)

  /** q is a whole number. */
  predicate IsIntegral(q: real) {
    q.Floor as real == q
  }

  /** a and b differ by a whole multiple of m. */
  predicate Congruent(a: real, b: real, m: real)
    requires m > 0.0
  {
    IsIntegral((a - b) / m)
  }

  lemma CongruentByMultiple(a: real, b: real, m: real, k: int)
    requires m > 0.0 && a - b == k as real * m
    ensures Congruent(a, b, m)
  {
    assert (a - b) / m == k as real;
  }

  lemma CongruentMultiple(a: real, b: real, m: real)
    requires m > 0.0 && Congruent(a, b, m)
    ensures a - b == ((a - b) / m).Floor as real * m
  {
  }

  lemma CongruentTrans(a: real, b: real, c: real, m: real)
    requires m > 0.0 && Congruent(a, b, m) && Congruent(b, c, m)
    ensures Congruent(a, c, m)
  {
    CongruentMultiple(a, b, m);
    CongruentMultiple(b, c, m);
    var k1, k2 := ((a - b) / m).Floor, ((b - c) / m).Floor;
    assert a - c == (k1 + k2) as real * m;
    CongruentByMultiple(a, c, m, k1 + k2);
  }

  lemma FractionTimes(a: real, m: real)
    requires 0.0 <= a < 1.0 && m > 0.0
    ensures 0.0 <= a * m < m
  {
    assert (1.0 - a) * m > 0.0;
    assert m - a * m == (1.0 - a) * m;
  }

  /** Euclid's remainder x - m * floor(x / m); it is what `%` computes for x >= 0. */
  function FloorMod(x: real, m: real): (r: real)
    requires m > 0.0
    ensures 0.0 <= r < m
    ensures Congruent(r, x, m)
  {
    var f := (x / m).Floor;
    FloorModBounds(x, m);
    CongruentByMultiple(x - f as real * m, x, m, -f);
    x - f as real * m
  }

  lemma FloorModBounds(x: real, m: real)
    requires m > 0.0
    ensures 0.0 <= x - ((x / m).Floor as real) * m < m
  {
    var q := x / m;
    var f: real := q.Floor as real;
    assert x == q * m;
    assert f <= q < f + 1.0;
    var a := q - f;
    FractionTimes(a, m);
    assert a * m < m;
    assert x - f * m == a * m;
    assert x - f * m < m;
    assert f == (x / m).Floor as real;
  }

  /**
   * JavaScript's `x % m` for a positive finite divisor: the quotient is
   * truncated toward zero, so the remainder takes the sign of x.
   */
  function Rem(x: real, m: real): (r: real)
    requires m > 0.0
    ensures x >= 0.0 ==> 0.0 <= r < m
    ensures x < 0.0 ==> -m < r <= 0.0
    ensures Congruent(r, x, m)
  {
    if x >= 0.0 then FloorMod(x, m)
    else
      var r := -FloorMod(-x, m);
      CongruentMultiple(FloorMod(-x, m), -x, m);
      CongruentByMultiple(r, x, m, -((FloorMod(-x, m) + x) / m).Floor);
      r
  }

  /** JavaScript's `%` on integers (array indices), truncating toward zero. */
  function RemInt(x: int, m: int): (r: int)
    requires m > 0
    ensures x >= 0 ==> 0 <= r < m && r == x % m
    ensures x < 0 ==> -m < r <= 0
    ensures x < 0 ==> -r == (-x) % m
  {
    if x >= 0 then x % m else -((-x) % m)
  }

  /** `a + b` on doubles. */
  function Add(a: Num, b: Num): Num {
    match (a, b)
    case (Finite(x), Finite(y)) => Finite(x + y)
    case (NaN, _) => NaN
    case (_, NaN) => NaN
    case (Infinite(p), Infinite(q)) => if p == q then a else NaN
    case (Infinite(_), Finite(_)) => a
    case (Finite(_), Infinite(_)) => b
  }

  /** `-a` on doubles. */
  function Neg(a: Num): Num {
    match a
    case Finite(x) => Finite(-x)
    case NaN => NaN
    case Infinite(p) => Infinite(!p)
  }

  /** `a - b` on doubles. */
  function Sub(a: Num, b: Num): Num {
    Add(a, Neg(b))
  }

  /** `a % m` for a positive finite divisor m: NaN unless a is finite. */
  function RemBy(a: Num, m: real): Num
    requires m > 0.0
  {
    if a.Finite? then Finite(Rem(a.v, m)) else NaN
  }
}
