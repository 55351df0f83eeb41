/** C arithmetic and the <cmath> routines the game relies on.

    Integer `/` in C++ truncates toward zero, a double assigned to an `int`
    field is truncated toward zero, and `ceil` rounds up; all three are written
    out here because Dafny's own operators on `int` are Euclidean.

    The transcendental functions (`sin`, `cos`, `atan`, `sqrt`) are not
    computed: a `Trig` value supplies them, and `Lawful` lists the few exact
    laws the proofs use. */
module CMath {

  /** The source's `#define PI 3.1415`. */
  const PI: real := 3.1415

  /** The math library as function values. `atanInf` is `atan(+inf)`: IEEE
      division of a non-zero double by zero yields an infinity, and the source
      passes it to `atan`. */
  datatype Trig = Trig(sin: real -> real, cos: real -> real, atan: real -> real,
                       sqrt: real -> real, atanInf: real)

  /** The laws of the real functions that the proofs rely on. */
  ghost predicate Lawful(T: Trig) {
    && (forall r :: 0.0 <= r ==> 0.0 <= T.sqrt(r) && T.sqrt(r) * T.sqrt(r) == r)
    && (forall r :: T.cos(r) * T.cos(r) + T.sin(r) * T.sin(r) == 1.0)
    && T.cos(0.0) == 1.0 && T.sin(0.0) == 0.0 && T.atan(0.0) == 0.0
  }

  /** C's `n / 2` on an `int`: truncation toward zero. */
  function Half(n: int): (h: int)
    ensures -1 <= n - 2 * h <= 1
    ensures 0 <= n ==> 0 <= h && n - 2 * h in {0, 1}
    ensures n <= 0 ==> h <= 0 && n - 2 * h in {0, -1}
  {
    if 0 <= n then n / 2 else -((-n) / 2)
  }

  /** C's `fabs`/`abs` on an integral value. */
  function Abs(n: int): (a: nat)
    ensures a == n || a == -n
  {
    if n < 0 then -n else n
  }

  /** Conversion of a double to `int`: truncation toward zero. */
  function Trunc(r: real): (i: int)
    ensures 0.0 <= r ==> i as real <= r < i as real + 1.0
    ensures r <= 0.0 ==> i as real - 1.0 < r <= i as real
  {
    if 0.0 <= r then r.Floor else -((-r).Floor)
  }

  /** C's `ceil`: the least integer not below `r`. */
  function Ceil(r: real): (c: int)
    ensures r <= c as real < r + 1.0
  {
    -((-r).Floor)
  }

  /** A double that holds an integer converts back to that integer. */
  lemma TruncIntegral(n: int)
    ensures Trunc(n as real) == n
  {
  }

  /** The source compares `sqrt(d2) < r`; for `r > 0` this is exactly
      `d2 < r * r`, and for `r <= 0` it is never true. This is what lets the
      collision and spacing tests be stated without `sqrt`. */
  lemma SqrtLess(T: Trig, d2: real, r: real)
    requires Lawful(T) && 0.0 <= d2
    ensures T.sqrt(d2) < r <==> 0.0 < r && d2 < r * r
  {
    var q := T.sqrt(d2);
    assert 0.0 <= q && q * q == d2;
    if q < r {
      MulStrict(q, r);
    } else if 0.0 < r {
      MulMono(r, q);
    }
  }

  /** Squaring is strictly monotone on non-negative reals. */
  lemma MulStrict(a: real, b: real)
    requires 0.0 <= a < b
    ensures a * a < b * b
  {
    var aa, ab, bb := a * a, a * b, b * b;
    assert aa <= ab && ab < bb;
  }

  lemma MulMono(a: real, b: real)
    requires 0.0 <= a <= b
    ensures a * a <= b * b
  {
    var aa, ab, bb := a * a, a * b, b * b;
    assert aa <= ab && ab <= bb;
  }
}
