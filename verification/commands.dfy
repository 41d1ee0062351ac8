/** The keyboard shortcuts and the volume rules of the player: which command
    a key press means, and the seek and volume levels each command computes. */
module Commands {
  import opened Numbers
  import opened Text

  datatype Command =
    | Ignore
    | TogglePlay
    | ToggleFullScreen
    | ToggleMute
    | Rewind
    | FastForward
    | VolumeUp
    | VolumeDown
    | SeekToTenth(digit: nat)

  /** The handler returns at once while the focused element is an INPUT or a
      TEXTAREA, or while Ctrl, Alt or Meta is held. */
  predicate ShortcutsSuppressed(focusTag: Option<string>, ctrl: bool, alt: bool, meta: bool) {
    focusTag == Some("INPUT") || focusTag == Some("TEXTAREA") || ctrl || alt || meta
  }

  /** The `switch (e.key)` of `handleKeyDown`. Keys are case-sensitive: "K",
      "F" and "M" do nothing. */
  function DecodeKey(key: string, focusTag: Option<string>, ctrl: bool, alt: bool, meta: bool): (c: Command)
    ensures ShortcutsSuppressed(focusTag, ctrl, alt, meta) ==> c == Ignore
    ensures c.SeekToTenth? ==> c.digit < 10 && key == [DigitChar(c.digit)]
    ensures c != Ignore ==> key == KeyFor(c) || (c == TogglePlay && key == "k")
    ensures key == "K" || key == "F" || key == "M" ==> c == Ignore
  {
    if ShortcutsSuppressed(focusTag, ctrl, alt, meta) then Ignore
    else if key == " " || key == "k" then TogglePlay
    else if key == "f" then ToggleFullScreen
    else if key == "m" then ToggleMute
    else if key == "ArrowLeft" then Rewind
    else if key == "ArrowRight" then FastForward
    else if key == "ArrowUp" then VolumeUp
    else if key == "ArrowDown" then VolumeDown
    else if |key| == 1 && IsDigit(key[0]) then SeekToTenth(DigitValue(key[0]))
    else Ignore
  }

  /** The key bound to each command ("k" is a second key for TogglePlay). */
  function KeyFor(c: Command): string
    requires c != Ignore && (c.SeekToTenth? ==> c.digit < 10)
  {
    match c
    case TogglePlay => " "
    case ToggleFullScreen => "f"
    case ToggleMute => "m"
    case Rewind => "ArrowLeft"
    case FastForward => "ArrowRight"
    case VolumeUp => "ArrowUp"
    case VolumeDown => "ArrowDown"
    case SeekToTenth(d) => [DigitChar(d)]
  }

  /** Every command is reachable from its key when shortcuts are not
      suppressed, and the suppressing conditions silence every key. */
  lemma DecodeKeyFor(c: Command, focusTag: Option<string>, ctrl: bool, alt: bool, meta: bool)
    requires c != Ignore && (c.SeekToTenth? ==> c.digit < 10)
    ensures DecodeKey(KeyFor(c), focusTag, ctrl, alt, meta)
            == if ShortcutsSuppressed(focusTag, ctrl, alt, meta) then Ignore else c
  {
    if c.SeekToTenth? && !ShortcutsSuppressed(focusTag, ctrl, alt, meta) {
      var k := KeyFor(c);
      assert k[0] == DigitChar(c.digit);
      assert DigitValue(k[0]) == c.digit;
    }
  }

  /** ArrowLeft: `Math.max(0, t - 5)`. */
  function RewindTarget(t: real): (r: real)
    ensures 0.0 <= r
    ensures t >= 5.0 ==> r == t - 5.0
    ensures t < 5.0 ==> r == 0.0
  {
    Max(0.0, t - 5.0)
  }

  /** ArrowRight: `Math.min(duration || 0, t + 5)`. */
  function ForwardTarget(t: real, duration: Num): (r: real)
    ensures r <= OrZero(duration) && r <= t + 5.0
    ensures r == OrZero(duration) || r == t + 5.0
  {
    Min(OrZero(duration), t + 5.0)
  }

  /** A digit d: `duration * (d * 10 / 100)`; NaN while the duration is
      unknown. */
  function TenthTarget(d: nat, duration: Num): (r: Num)
    ensures r.Fin? <==> duration.Fin?
    ensures r.Fin? ==> r.v == duration.v * (d as real) / 10.0
  {
    Mul(duration, Fin(((d * 10) as real) / 100.0))
  }

  /** Keyboard seeks stay in the media's range: rewinding lands in [0, t],
      fast-forwarding in [t, duration], and digit d at d tenths of the
      duration, so '0' is the start and no digit passes nine tenths. */
  lemma KeyboardSeeksInRange(t: real, duration: real, d: nat)
    requires 0.0 <= t <= duration && d < 10
    ensures 0.0 <= RewindTarget(t) <= t
    ensures t <= ForwardTarget(t, Fin(duration)) <= duration
    ensures TenthTarget(d, Fin(duration)).Fin?
    ensures 0.0 <= TenthTarget(d, Fin(duration)).v <= 0.9 * duration
    ensures d == 0 ==> TenthTarget(d, Fin(duration)).v == 0.0
  {
    var k := d as real;
    var r := TenthTarget(d, Fin(duration));
    var scaled := duration * k;
    assert r.Fin? && r.v == scaled / 10.0;
    ProductNonNegative(duration, k);
    ScaleMonotone(duration, k, 9.0);
    assert 0.0 <= scaled <= 9.0 * duration;
    assert 0.0 <= r.v;
    assert r.v <= 0.9 * duration;
    assert d == 0 ==> scaled == 0.0;
  }

  /** Before the duration is known (`NaN || 0` is 0), ArrowRight never
      moves ahead: from any position already playing it jumps back to the
      start, and no digit key yields a finite target. */
  lemma FastForwardBeforeMetadata(t: real, d: nat)
    ensures ForwardTarget(t, NonFinite) == Min(0.0, t + 5.0)
    ensures -5.0 <= t ==> ForwardTarget(t, NonFinite) == 0.0
    ensures 0.0 < t ==> ForwardTarget(t, NonFinite) < t
    ensures TenthTarget(d, NonFinite).NonFinite?
  {
  }

  const VolumeStep: real := 0.05

  /** ArrowUp: `Math.min(1, volume + 0.05)`. */
  function VolumeUpLevel(v: real): (r: real)
    ensures 0.0 <= v <= 1.0 ==> v <= r <= 1.0
    ensures v <= 1.0 - VolumeStep ==> r == v + VolumeStep
  {
    Min(1.0, v + VolumeStep)
  }

  /** ArrowDown: `Math.max(0, volume - 0.05)`. */
  function VolumeDownLevel(v: real): (r: real)
    ensures 0.0 <= v <= 1.0 ==> 0.0 <= r <= v
    ensures v >= VolumeStep ==> r == v - VolumeStep
  {
    Max(0.0, v - VolumeStep)
  }

  /** Away from the ends of the range, one step down undoes one step up and
      one step up undoes one step down. */
  lemma VolumeStepsUndo(v: real)
    ensures 0.0 <= v <= 1.0 - VolumeStep ==> VolumeDownLevel(VolumeUpLevel(v)) == v
    ensures VolumeStep <= v <= 1.0 ==> VolumeUpLevel(VolumeDownLevel(v)) == v
  {
  }

  /** Vertical slider click at `y` pixels below the top of a `height`-pixel
      track: `Math.min(Math.max(1 - y / height, 0), 1)`. A zero height makes
      `y / height` an infinity (giving 0 or 1) or, for y = 0, NaN. */
  function SliderLevel(y: real, height: real): (r: Num)
    ensures r.Fin? ==> 0.0 <= r.v <= 1.0
    ensures r.NonFinite? <==> height == 0.0 && y == 0.0
    ensures height != 0.0 ==> r == Fin(Clamp(1.0 - y / height, 0.0, 1.0))
  {
    if height == 0.0 then
      (if y > 0.0 then Fin(0.0) else if y < 0.0 then Fin(1.0) else NonFinite)
    else Fin(Min(Max(1.0 - y / height, 0.0), 1.0))
  }

  /** On a real track the top is full volume, the bottom silence, and lower
      clicks never give a louder level. */
  lemma SliderIsMonotone(y1: real, y2: real, height: real)
    requires 0.0 < height && y1 <= y2
    ensures SliderLevel(0.0, height) == Fin(1.0)
    ensures SliderLevel(height, height) == Fin(0.0)
    ensures SliderLevel(y2, height).v <= SliderLevel(y1, height).v
  {
    var scale := 1.0 / height;
    assert scale * height == 1.0;
    ScaleMonotone(scale, y1, y2);
    assert y1 / height == scale * y1 && y2 / height == scale * y2;
    assert 1.0 - y2 / height <= 1.0 - y1 / height;
  }

  /** The muted flag after the slider or the range input sets level `v`:
      `if (v === 0) setIsMuted(true); else if (isMuted) setIsMuted(false)`. */
  function MutedAfterLevel(v: real, isMuted: bool): (m: bool)
    ensures m <==> v == 0.0
  {
    if v == 0.0 then true else if isMuted then false else isMuted
  }

  /** The muted flag after ArrowDown: it mutes on reaching 0, never unmutes. */
  function MutedAfterVolumeDown(v: real, isMuted: bool): (m: bool)
    ensures m <==> isMuted || v == 0.0
    ensures isMuted ==> m
  {
    if v == 0.0 then true else isMuted
  }
}
