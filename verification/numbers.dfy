/** Numbers as the player sees them: JavaScript numbers reduced to a finite real
    or a value that is not finite, plus the min/max/clamp expressions the
    component writes everywhere. */
module Numbers {

  datatype Option<T> = None | Some(value: T)

  /** A JavaScript number: a finite real, or a value that is not finite (NaN,
      or an infinity produced by dividing by zero). Media durations are never
      infinite in this model, so a `NonFinite` duration is the NaN a media
      element reports before its metadata is known. */
  datatype Num = Fin(v: real) | NonFinite

  function Min(a: real, b: real): real { if a <= b then a else b }

  function Max(a: real, b: real): real { if a >= b then a else b }

  function Abs(a: real): real { if a < 0.0 then -a else a }

  /** `Math.max(lo, Math.min(x, hi))`. */
  function Clamp(x: real, lo: real, hi: real): (r: real)
    ensures lo <= r
    ensures lo <= hi ==> r <= hi
    ensures lo <= x <= hi ==> r == x
    ensures lo <= hi && x < lo ==> r == lo
    ensures lo <= hi && hi < x ==> r == hi
  {
    Max(lo, Min(x, hi))
  }

  /** `n || 0`: NaN (and 0) become 0. */
  function OrZero(n: Num): (r: real)
    ensures n.Fin? ==> r == n.v
    ensures n.NonFinite? ==> r == 0.0
  {
    if n.Fin? then n.v else 0.0
  }

  /** `a / b`: dividing by zero gives NaN or an infinity, both not finite. */
  function Div(a: real, b: real): (r: Num)
    ensures r.Fin? <==> b != 0.0
    ensures r.Fin? ==> r.v * b == a
  {
    if b == 0.0 then NonFinite else Fin(a / b)
  }

  /** `a * b`: finite exactly when both factors are. */
  function Mul(a: Num, b: Num): (r: Num)
    ensures r.Fin? <==> a.Fin? && b.Fin?
    ensures r.Fin? ==> r.v == a.v * b.v
  {
    if a.Fin? && b.Fin? then Fin(a.v * b.v) else NonFinite
  }

  /** `Math.trunc(x)`. */
  function Trunc(x: real): (r: int)
    ensures 0.0 <= x ==> r == x.Floor
    ensures x < 0.0 ==> r == -((-x).Floor)
  {
    if 0.0 <= x then x.Floor else -((-x).Floor)
  }

  /** JavaScript's `a % b` on numbers: the remainder of the quotient truncated
      toward zero, so it takes the sign of `a`. */
  function JsRem(a: real, b: real): real
    requires b != 0.0
  {
    a - b * (Trunc(a / b) as real)
  }

  /** Scaling by a non-negative factor keeps the order of two reals. */
  lemma ScaleMonotone(a: real, x: real, y: real)
    requires 0.0 <= a && x <= y
    ensures a * x <= a * y
  {
    ProductNonNegative(a, y - x);
    assert a * (y - x) == a * y - a * x;
  }

  lemma ProductNonNegative(a: real, b: real)
    requires 0.0 <= a && 0.0 <= b
    ensures 0.0 <= a * b
  {
  }

  /** Dividing by at least one keeps the sign and never grows the size. */
  lemma ShrinkingQuotient(a: real, d: real)
    requires 1.0 <= d
    ensures (a / d > 0.0 <==> a > 0.0) && (a / d < 0.0 <==> a < 0.0)
    ensures Abs(a / d) <= Abs(a)
  {
    var q := a / d;
    assert q * d == a;
    assert q * (d - 1.0) == a - q;
    if q >= 0.0 {
      ProductNonNegative(q, d - 1.0);
    } else {
      ProductNonNegative(-q, d - 1.0);
      assert -q * (d - 1.0) == q - a;
    }
  }

  /** A part of a positive whole, divided by the whole, lies in [0, 1]. */
  lemma FractionInUnit(x: real, whole: real)
    requires 0.0 < whole && 0.0 <= x <= whole
    ensures 0.0 <= x / whole <= 1.0
  {
    var f := x / whole;
    assert f * whole == x;
    if f < 0.0 {
      ScaleMonotone(whole, f, 0.0);
    }
    if f > 1.0 {
      ScaleMonotone(whole, 1.0, f);
    }
  }
}
