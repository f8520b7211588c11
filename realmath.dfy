/** Real-number stand-ins for the numpy/Python primitives the integrators use:
    clipping at zero, Python's int() on a float, an abstract square root,
    elementwise array arithmetic, np.linspace, and the exceptions the
    integrators can raise. */
module RealMath {

  /** np.pi, as the decimal literal of its double value. */
  const PI: real := 3.141592653589793

  /** The exceptions the modelled code can raise. */
  datatype Error = IndexError | ZeroDivisionError

  datatype Result<T> = Ok(value: T) | Err(error: Error)

  /** The nonnegative reals. */
  type NonNegative = x: real | x >= 0.0

  /** A square root of which nothing is known except that it is never
      negative and maps zero to zero. */
  type Sqrt = f: real -> NonNegative | f(0.0) == 0.0 witness (x: real) => 0.0

  /** max(x, 0.0), equivalently np.clip(x, 0.0, None). */
  function Max0(x: real): (r: real)
    ensures r >= 0.0
    ensures x <= 0.0 ==> r == 0.0
    ensures x >= 0.0 ==> r == x
  {
    if 0.0 > x then 0.0 else x
  }

  /** Python's int() on a float: truncation toward zero. */
  function Trunc(x: real): (r: int)
    ensures 0.0 <= x ==> 0 <= r && r as real <= x < r as real + 1.0
    ensures x < 0.0 ==> r <= 0 && r as real - 1.0 < x <= r as real
  {
    if x >= 0.0 then x.Floor else -((-x).Floor)
  }

  /** The number of iterations of `for _ in range(n)`. */
  function RangeLength(n: int): (r: nat)
    ensures n >= 0 ==> r == n
    ensures n <= 0 ==> r == 0
  {
    if n < 0 then 0 else n
  }

  /** np.full(n, v). */
  function Fill(n: nat, v: real): (r: seq<real>)
    ensures |r| == n
    ensures forall i :: 0 <= i < n ==> r[i] == v
  {
    seq(n, i => v)
  }

  /** y + c * k, elementwise. */
  function Axpy(y: seq<real>, c: real, k: seq<real>): (r: seq<real>)
    requires |y| == |k|
    ensures |r| == |y|
    ensures forall i :: 0 <= i < |r| ==> r[i] == y[i] + c * k[i]
  {
    seq(|y|, i requires 0 <= i < |y| => y[i] + c * k[i])
  }

  /** The classical RK4 increment (dt / 6) * (k1 + 2 k2 + 2 k3 + k4), elementwise. */
  function Rk4Increment(dt: real, k1: seq<real>, k2: seq<real>, k3: seq<real>, k4: seq<real>): (r: seq<real>)
    requires |k1| == |k2| == |k3| == |k4|
    ensures |r| == |k1|
    ensures forall i :: 0 <= i < |r| ==> r[i] == (dt / 6.0) * (k1[i] + 2.0 * k2[i] + 2.0 * k3[i] + k4[i])
  {
    seq(|k1|, i requires 0 <= i < |k1| => (dt / 6.0) * (k1[i] + 2.0 * k2[i] + 2.0 * k3[i] + k4[i]))
  }

  /** Adding a zero vector changes nothing. */
  lemma AxpyOfZero(y: seq<real>, c: real)
    ensures Axpy(y, c, Fill(|y|, 0.0)) == y
  {
    assert forall i :: 0 <= i < |y| ==> Axpy(y, c, Fill(|y|, 0.0))[i] == y[i];
  }

  /** The RK4 increment of four zero slopes is zero. */
  lemma Rk4IncrementOfZero(dt: real, n: nat)
    ensures Rk4Increment(dt, Fill(n, 0.0), Fill(n, 0.0), Fill(n, 0.0), Fill(n, 0.0)) == Fill(n, 0.0)
  {
    var z := Fill(n, 0.0);
    assert forall i :: 0 <= i < n ==> Rk4Increment(dt, z, z, z, z)[i] == 0.0;
  }

  /** y + k, elementwise. */
  function Add(y: seq<real>, k: seq<real>): (r: seq<real>)
    requires |y| == |k|
    ensures |r| == |y|
    ensures forall i :: 0 <= i < |r| ==> r[i] == y[i] + k[i]
  {
    seq(|y|, i requires 0 <= i < |y| => y[i] + k[i])
  }

  /** c * k, elementwise. */
  function Scale(c: real, k: seq<real>): (r: seq<real>)
    ensures |r| == |k|
    ensures forall i :: 0 <= i < |r| ==> r[i] == c * k[i]
  {
    seq(|k|, i requires 0 <= i < |k| => c * k[i])
  }

  /** Adding a zero vector changes nothing. */
  lemma AddOfZero(y: seq<real>)
    ensures Add(y, Fill(|y|, 0.0)) == y
  {
    assert forall i :: 0 <= i < |y| ==> Add(y, Fill(|y|, 0.0))[i] == y[i];
  }

  /** `y += inc` on a numpy array: every entry gets its increment, in place. */
  method AddInPlace(y: array<real>, inc: seq<real>)
    requires y.Length == |inc|
    modifies y
    ensures y[..] == Add(old(y[..]), inc)
  {
    ghost var before := y[..];
    var i := 0;
    while i < y.Length
      invariant 0 <= i <= y.Length
      invariant forall j :: 0 <= j < i ==> y[j] == before[j] + inc[j]
      invariant forall j :: i <= j < y.Length ==> y[j] == before[j]
    {
      y[i] := y[i] + inc[i];
      i := i + 1;
    }
  }

  /** np.linspace(lo, hi, n): n evenly spaced points from lo to hi inclusive. */
  function Linspace(lo: real, hi: real, n: nat): (r: seq<real>)
    ensures |r| == n
    ensures n >= 1 ==> r[0] == lo
    ensures n >= 2 ==> r[n - 1] == hi
    ensures n >= 2 ==> forall i :: 0 <= i < n - 1 ==> r[i + 1] - r[i] == (hi - lo) / (n - 1) as real
  {
    if n == 0 then []
    else if n == 1 then [lo]
    else
      var step := (hi - lo) / (n - 1) as real;
      seq(n, i requires 0 <= i < n => lo + i as real * step)
  }

  /** Every point of a grid whose end points are positive is positive. */
  lemma LinspacePositive(lo: real, hi: real, n: nat)
    requires 0.0 < lo && 0.0 < hi
    ensures forall i :: 0 <= i < n ==> Linspace(lo, hi, n)[i] > 0.0
  {
    if n >= 2 {
      var r := Linspace(lo, hi, n);
      var m := (n - 1) as real;
      forall i | 0 <= i < n ensures r[i] > 0.0 {
        var s := i as real / m;
        assert 0.0 <= s <= 1.0;
        assert r[i] == lo + i as real * ((hi - lo) / m);
        assert i as real * ((hi - lo) / m) == s * (hi - lo);
        assert r[i] == (1.0 - s) * lo + s * hi;
        ConvexPositive(s, lo, hi);
      }
    }
  }

  lemma ConvexPositive(s: real, x: real, y: real)
    requires 0.0 <= s <= 1.0 && 0.0 < x && 0.0 < y
    ensures (1.0 - s) * x + s * y > 0.0
  {
    if s < 1.0 {
      assert (1.0 - s) * x > 0.0;
      assert s * y >= 0.0;
    } else {
      assert s * y > 0.0;
    }
  }

  /** x / dr**2, written as two divisions by dr (equal over the reals). */
  function OverSquare(x: real, dr: real): real
    requires dr != 0.0
  {
    x / dr / dr
  }

  lemma OverSquareLinear(a: real, x: real, b: real, y: real, dr: real)
    requires dr != 0.0
    ensures OverSquare(a * x + b * y, dr) == a * OverSquare(x, dr) + b * OverSquare(y, dr)
  {
    QuotientLinear(a, x, b, y, dr);
    QuotientLinear(a, x / dr, b, y / dr, dr);
  }

  lemma OverSquareAdd(x: real, y: real, dr: real)
    requires dr != 0.0
    ensures OverSquare(x, dr) + OverSquare(y, dr) == OverSquare(x + y, dr)
  {
    OverSquareLinear(1.0, x, 1.0, y, dr);
  }

  lemma OverSquareOfZero(dr: real)
    requires dr != 0.0
    ensures OverSquare(0.0, dr) == 0.0
  {
  }

  lemma QuotientLinear(a: real, x: real, b: real, y: real, c: real)
    requires c != 0.0
    ensures (a * x + b * y) / c == a * (x / c) + b * (y / c)
  {
  }

  lemma OverSquareTimesSquare(x: real, y: real)
    requires y != 0.0
    ensures OverSquare(x, y) * (y * y) == x
  {
    var q := x / y;
    assert q * y == x;
    assert (q / y) * y == q;
    assert (q / y) * (y * y) == ((q / y) * y) * y;
  }

  /** mb * x**2 / y**2 lies in [0, mb) when 0 <= x < y. */
  lemma EnclosedFraction(x: real, y: real, mb: real)
    requires 0.0 <= x < y && mb > 0.0
    ensures 0.0 <= OverSquare(mb * (x * x), y) < mb
  {
    SquareBelow(x, y);
    ScaledBelow(mb, x * x, y * y);
    assert mb * (y * y) == (mb * y) * y;
    QuotientBelow(mb * (x * x), mb * y, y);
    QuotientBelow(mb * (x * x) / y, mb, y);
  }

  lemma SquareBelow(x: real, y: real)
    requires 0.0 <= x < y
    ensures 0.0 <= x * x < y * y
  {
    calc {
      x * x;
    <= x * y;
    < y * y;
    }
  }

  lemma ScaledBelow(c: real, p: real, q: real)
    requires c > 0.0 && 0.0 <= p < q
    ensures 0.0 <= c * p < c * q
  {
  }

  /** 0 <= p < c * y with y > 0 gives 0 <= p / y < c. */
  lemma QuotientBelow(p: real, c: real, y: real)
    requires y > 0.0 && 0.0 <= p < c * y
    ensures 0.0 <= p / y < c
  {
    assert p / y * y == p;
  }

  lemma NonnegativeQuotient(x: real, r: real)
    requires x >= 0.0 && r > 0.0
    ensures x / r >= 0.0
  {
  }

  /** A quotient is zero exactly when its numerator is. */
  lemma ZeroQuotient(x: real, y: real)
    requires y != 0.0
    ensures x / y == 0.0 <==> x == 0.0
  {
    if x != 0.0 {
      NonzeroQuotient(x, y);
    }
  }

  lemma NonzeroQuotient(x: real, y: real)
    requires x != 0.0 && y != 0.0
    ensures x / y != 0.0
  {
    assert x / y * y == x;
  }
}
