/** The player's clock label: `formatTime` renders seconds as "m:ss". */
module TimeFormat {
  import opened Numbers
  import opened Text

  /** `Math.floor(t / 60)`. */
  function Minutes(x: real): int { (x / 60.0).Floor }

  /** `Math.floor(t % 60)`, with JavaScript's truncating remainder. */
  function Seconds(x: real): int { JsRem(x, 60.0).Floor }

  /** The seconds field: a "0" in front of any value below 10. */
  function SecondsText(seconds: int): string {
    (if seconds < 10 then "0" else "") + IntToString(seconds)
  }

  /** `formatTime(t)`: minutes, a colon, then the zero-padded seconds. A NaN
      argument renders as "NaN:NaN" (NaN < 10 is false, so no padding). */
  function FormatTime(t: Num): string {
    match t
    case NonFinite => "NaN:NaN"
    case Fin(x) => IntToString(Minutes(x)) + ":" + SecondsText(Seconds(x))
  }

  /** For a non-negative time the two fields are the quotient and remainder
      of the whole seconds by 60: minutes = floor(t / 60), and
      seconds = floor(t mod 60) lies in [0, 59]. */
  lemma ClockFields(x: real)
    requires 0.0 <= x
    ensures Minutes(x) == x.Floor / 60
    ensures Seconds(x) == x.Floor % 60
    ensures 0 <= Seconds(x) < 60
    ensures Minutes(x) * 60 + Seconds(x) == x.Floor
  {
    var n := x.Floor;
    var m, r := n / 60, n % 60;
    assert n == 60 * m + r && 0 <= r < 60;
    assert (n as real) <= x < (n as real) + 1.0;
    assert (m as real) <= x / 60.0 < (m as real) + 1.0;
    assert Minutes(x) == m;
    assert Trunc(x / 60.0) == m;
    var rem := x - 60.0 * (m as real);
    assert JsRem(x, 60.0) == rem;
    assert (r as real) <= rem < (r as real) + 1.0;
    assert Seconds(x) == r;
  }

  /** The seconds field of a non-negative time is exactly two digits and
      reads back as the seconds. */
  lemma SecondsFieldIsTwoDigits(seconds: int)
    requires 0 <= seconds < 60
    ensures |SecondsText(seconds)| == 2
    ensures AllDigits(SecondsText(seconds))
    ensures DecimalValue(SecondsText(seconds)) == seconds
  {
    var s := SecondsText(seconds);
    if seconds < 10 {
      assert s == ['0', DigitChar(seconds)];
      assert s[..1] == ['0'];
      assert DecimalValue(s[..1]) == 0 by {
        assert s[..1][..0] == [];
      }
    } else {
      assert s == NatToString(seconds);
      DecimalRoundTrip(seconds);
    }
  }

  /** Position of the first ':' in a string. */
  function ColonAt(s: string): (k: Option<nat>)
    ensures k.Some? ==> k.value < |s| && s[k.value] == ':'
  {
    if |s| == 0 then None
    else if s[0] == ':' then Some(0)
    else match ColonAt(s[1..])
      case None => None
      case Some(k) => Some(k + 1)
  }

  /** Reads a label "m:ss" back into whole seconds, m * 60 + ss. This is the
      inverse the label is checked against; the player itself never parses. */
  function ParseClock(s: string): Option<nat> {
    match ColonAt(s)
    case None => None
    case Some(k) =>
      if AllDigits(s[..k]) && AllDigits(s[k + 1..])
      then Some(DecimalValue(s[..k]) * 60 + DecimalValue(s[k + 1..]))
      else None
  }

  lemma {:induction false} ColonAfterDigits(a: string, b: string)
    requires AllDigits(a)
    ensures ColonAt(a + ":" + b) == Some(|a|)
    decreases |a|
  {
    var s := a + ":" + b;
    if |a| > 0 {
      assert s[0] == a[0];
      assert s[1..] == a[1..] + ":" + b;
      ColonAfterDigits(a[1..], b);
    }
  }

  /** A label built from whole minutes and a seconds field in [0, 59]
      reads back as minutes * 60 + seconds. */
  lemma LabelRoundTrip(m: nat, sec: int)
    requires 0 <= sec < 60
    ensures ParseClock(NatToString(m) + ":" + SecondsText(sec)).Some?
    ensures ParseClock(NatToString(m) + ":" + SecondsText(sec)).value == m * 60 + sec
  {
    SecondsFieldIsTwoDigits(sec);
    ParseDigitsColonDigits(NatToString(m), SecondsText(sec));
    DecimalRoundTrip(m);
  }

  /** Two digit strings around a colon read back as their values. */
  lemma ParseDigitsColonDigits(a: string, b: string)
    requires AllDigits(a) && AllDigits(b)
    ensures ParseClock(a + ":" + b).Some?
    ensures ParseClock(a + ":" + b).value == DecimalValue(a) * 60 + DecimalValue(b)
  {
    ColonAfterDigits(a, b);
    var s := a + ":" + b;
    var k := |a|;
    assert s[..k] == a;
    assert s[k + 1..] == b;
    assert ColonAt(s) == Some(k) && AllDigits(s[..k]) && AllDigits(s[k + 1..]);
  }

  /** The label of a non-negative time t encodes floor(t) exactly:
      minutes * 60 + seconds == floor(t). */
  lemma ClockRoundTrip(x: real)
    requires 0.0 <= x
    ensures ParseClock(FormatTime(Fin(x))) == Some(x.Floor)
  {
    ClockFields(x);
    var m, sec := Minutes(x), Seconds(x);
    assert FormatTime(Fin(x)) == NatToString(m) + ":" + SecondsText(sec);
    LabelRoundTrip(m, sec);
  }

  /** Hovering just left of the track (inside the bar's padding) gives a
      negative preview time. Any time in (-60, 0) renders with minutes -1
      and the seconds floor(t), zero-"padded" in front of its minus sign, so
      the label carries two minus signs; in [-1, 0) it is "-1:0-1". */
  lemma NegativeTimeLabel(x: real)
    requires -60.0 < x < 0.0
    ensures Minutes(x) == -1 && Seconds(x) == x.Floor
    ensures FormatTime(Fin(x)) == "-1:0-" + NatToString(-x.Floor)
    ensures -1.0 <= x ==> FormatTime(Fin(x)) == "-1:0-1"
  {
    var q := x / 60.0;
    assert q * 60.0 == x;
    assert -1.0 < q < 0.0;
    assert Minutes(x) == -1;
    assert Trunc(q) == 0;
    assert JsRem(x, 60.0) == x;
    var f := x.Floor;
    assert f < 0;
    assert SecondsText(f) == "0" + ("-" + NatToString(-f));
    assert IntToString(-1) == "-" + NatToString(1);
    assert NatToString(1) == "1";
    assert FormatTime(Fin(x)) == "-1" + ":" + ("0" + ("-" + NatToString(-f)));
  }
}
