/**
 * The few places where float64 behaviour is observable in the pipeline:
 * division by zero (an infinity or NaN rather than an exception), numpy's
 * round-half-to-even at two decimals, the NaN-last order of a sort, and the
 * truncating cast of a float column to int. Finite values are exact reals.
 */
module Floats {

  /** A float64 value: a finite number, an infinity, or not-a-number. */
  datatype Float = Finite(value: real) | PosInf | NegInf | NaN

  /** Float division `a / b`: by zero it gives the infinity of the numerator's sign, or NaN for 0/0. */
  function Divide(a: real, b: real): (q: Float)
    ensures q.Finite? <==> b != 0.0
    ensures q.Finite? ==> q.value * b == a
    ensures b == 0.0 ==> (q == PosInf <==> a > 0.0) && (q == NegInf <==> a < 0.0) && (q == NaN <==> a == 0.0)
  {
    if b != 0.0 then Finite(a / b)
    else if a > 0.0 then PosInf
    else if a < 0.0 then NegInf
    else NaN
  }

  /** Position class of a value in an ascending `sort_values`: -inf, finite, +inf, then NaN last. */
  function SortRank(f: Float): nat
  {
    match f
    case NegInf => 0
    case Finite(_) => 1
    case PosInf => 2
    case NaN => 3
  }

  /** `a` may stand before `b` in an ascending sort. */
  predicate SortsBefore(a: Float, b: Float)
  {
    SortRank(a) < SortRank(b) || (SortRank(a) == SortRank(b) && (a.Finite? ==> a.value <= b.value))
  }

  lemma SortsBeforeTotalPreorder(a: Float, b: Float, c: Float)
    ensures SortsBefore(a, a)
    ensures SortsBefore(a, b) || SortsBefore(b, a)
    ensures SortsBefore(a, b) && SortsBefore(b, c) ==> SortsBefore(a, c)
  {
  }

  /** The integer nearest to `y`, ties going to the even neighbour (numpy's `round`). */
  function RoundHalfEven(y: real): (n: int)
    ensures -0.5 <= n as real - y <= 0.5
    ensures (n as real - y == 0.5 || y - n as real == 0.5) ==> n % 2 == 0
  {
    var f := y.Floor;
    var frac := y - f as real;
    if frac < 0.5 then f
    else if frac > 0.5 then f + 1
    else if f % 2 == 0 then f
    else f + 1
  }

  lemma RoundHalfEvenOfInt(n: int)
    ensures RoundHalfEven(n as real) == n
  {
  }

  /** Rounding to the nearest integer never reverses an order. */
  lemma RoundHalfEvenMonotone(y1: real, y2: real)
    requires y1 <= y2
    ensures RoundHalfEven(y1) <= RoundHalfEven(y2)
  {
  }

  /** `v.round(2)`: the nearest multiple of 0.01, ties to an even count of hundredths. */
  function Round2(v: real): (r: real)
    ensures -0.005 <= r - v <= 0.005
    ensures (r * 100.0).Floor as real == r * 100.0
  {
    RoundHalfEven(v * 100.0) as real / 100.0
  }

  lemma Round2Monotone(v1: real, v2: real)
    requires v1 <= v2
    ensures Round2(v1) <= Round2(v2)
  {
    RoundHalfEvenMonotone(v1 * 100.0, v2 * 100.0);
  }

  /** The `.round(2)` of a float: infinities and NaN are left as they are. */
  function RoundFloat2(f: Float): (r: Float)
    ensures r.Finite? <==> f.Finite?
    ensures !f.Finite? ==> r == f
    ensures f.Finite? ==> -0.005 <= r.value - f.value <= 0.005
    ensures f.Finite? ==> (r.value * 100.0).Floor as real == r.value * 100.0
  {
    match f
    case Finite(v) => Finite(Round2(v))
    case _ => f
  }

  /** `astype(int)` of a float: truncation toward zero. */
  function TruncToInt(v: real): (n: int)
    ensures v >= 0.0 ==> n as real <= v < n as real + 1.0
    ensures v < 0.0 ==> n as real - 1.0 < v <= n as real
  {
    if v >= 0.0 then v.Floor else -((-v).Floor)
  }

  lemma TruncOfWhole(n: int)
    ensures TruncToInt(n as real) == n
  {
  }
}
