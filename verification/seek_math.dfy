/** Pointer geometry of the progress bar: where a click, a mouse drag, a
    hover or a touch gesture puts the playback position. Times are seconds,
    pointer coordinates pixels, touch velocity pixels per millisecond. */
module SeekMath {
  import opened Numbers

  /** The progress track's bounding box along x (`getBoundingClientRect()`). */
  datatype Track = Track(left: real, width: real)

  /** The pointer lies over the track. */
  predicate Over(clientX: real, track: Track) {
    0.0 < track.width && track.left <= clientX <= track.left + track.width
  }

  /** A fraction of a non-negative duration lies between 0 and the duration. */
  lemma ShareOfDuration(f: real, duration: real)
    requires 0.0 <= f <= 1.0 && 0.0 <= duration
    ensures 0.0 <= f * duration <= duration
  {
    ProductNonNegative(f, duration);
    ScaleMonotone(duration, f, 1.0);
  }

  /** Click on the track: `(clientX - rect.left) / rect.width * duration`,
      NaN when the track has no width or the duration is unknown. */
  function ClickTarget(clientX: real, track: Track, duration: Num): (r: Num)
    ensures r.Fin? <==> track.width != 0.0 && duration.Fin?
    ensures r.Fin? ==> r.v * track.width == (clientX - track.left) * duration.v
  {
    var r := Mul(Div(clientX - track.left, track.width), duration);
    assert r.Fin? ==> r.v * track.width == (clientX - track.left) * duration.v by {
      if r.Fin? {
        var f := Div(clientX - track.left, track.width).v;
        assert f * track.width == clientX - track.left;
        assert r.v * track.width == (f * track.width) * duration.v;
      }
    }
    r
  }

  /** A click over the track of a media with known duration targets a
      position inside [0, duration]. */
  lemma ClickOverTrackInRange(clientX: real, track: Track, duration: real)
    requires Over(clientX, track) && 0.0 <= duration
    ensures ClickTarget(clientX, track, Fin(duration)).Fin?
    ensures 0.0 <= ClickTarget(clientX, track, Fin(duration)).v <= duration
  {
    var f := (clientX - track.left) / track.width;
    FractionInUnit(clientX - track.left, track.width);
    ShareOfDuration(f, duration);
  }

  /** Dragging with the mouse: the pointer's offset is first clamped into
      [0, width] (`Math.max(0, Math.min(x, width))`). */
  function DragOffset(clientX: real, track: Track): (x: real)
    ensures 0.0 <= x
    ensures 0.0 <= track.width ==> x <= track.width
    ensures Over(clientX, track) ==> x == clientX - track.left
  {
    Clamp(clientX - track.left, 0.0, track.width)
  }

  /** The position a mouse drag sets: the clamped share of the duration. */
  function DragTarget(clientX: real, track: Track, duration: Num): (r: Num)
    ensures r.Fin? <==> track.width != 0.0 && duration.Fin?
  {
    Mul(Div(DragOffset(clientX, track), track.width), duration)
  }

  /** Wherever the pointer goes during a drag, even far off the bar, the
      target stays inside [0, duration]; over the track it is exactly the
      position a click there targets. */
  lemma DragTargetInRange(clientX: real, track: Track, duration: real)
    requires 0.0 < track.width && 0.0 <= duration
    ensures DragTarget(clientX, track, Fin(duration)).Fin?
    ensures 0.0 <= DragTarget(clientX, track, Fin(duration)).v <= duration
    ensures Over(clientX, track) ==> DragTarget(clientX, track, Fin(duration)) == ClickTarget(clientX, track, Fin(duration))
  {
    var x := DragOffset(clientX, track);
    FractionInUnit(x, track.width);
    ShareOfDuration(x / track.width, duration);
  }

  /** The hover tooltip: a time (seconds) and a position (percent of the
      track). */
  datatype Preview = Preview(time: Num, position: Num)

  /** Hovering over the bar: nothing while the duration is NaN; otherwise
      the pointer's share of the duration and of 100 percent. */
  function HoverPreview(clientX: real, track: Track, duration: Num): (r: Option<Preview>)
    ensures r.Some? <==> duration.Fin?
    ensures r.Some? ==> (r.value.time.Fin? <==> track.width != 0.0)
    ensures r.Some? ==> (r.value.position.Fin? <==> track.width != 0.0)
  {
    if duration.NonFinite? then None
    else
      var pct := Div(clientX - track.left, track.width);
      Some(Preview(Mul(pct, duration), Mul(pct, Fin(100.0))))
  }

  /** The tooltip shows the time a click at the same spot seeks to, at the
      matching share of the bar: time * 100 == position * duration. */
  lemma HoverShowsClickTarget(clientX: real, track: Track, duration: real)
    requires track.width != 0.0
    ensures HoverPreview(clientX, track, Fin(duration)).Some?
    ensures HoverPreview(clientX, track, Fin(duration)).value.time == ClickTarget(clientX, track, Fin(duration))
    ensures var p := HoverPreview(clientX, track, Fin(duration)).value;
            p.time.v * 100.0 == p.position.v * duration
  {
  }

  /** Touch velocity: `deltaX / Math.max(1, now - lastTimestamp)`. The time
      step is at least one millisecond, so the velocity is finite, has the
      sign of the movement, and never exceeds the movement in size. */
  function Velocity(x: real, lastX: real, now: real, lastTimestamp: real): (v: real)
    ensures (v > 0.0 <==> x > lastX) && (v < 0.0 <==> x < lastX)
    ensures Abs(v) <= Abs(x - lastX)
  {
    var dt := Max(1.0, now - lastTimestamp);
    ShrinkingQuotient(x - lastX, dt);
    (x - lastX) / dt
  }

  /** The nudge a touch frame adds in the direction of movement:
      `Math.min(0.2, |v| * 0.1)`, signed like the velocity. */
  function MomentumOffset(v: real): (r: real)
    ensures Abs(r) <= 0.2 && Abs(r) <= Abs(v) * 0.1
    ensures (r > 0.0 <==> v > 0.0) && (r < 0.0 <==> v < 0.0)
    ensures Abs(v) >= 2.0 ==> Abs(r) == 0.2
  {
    var f := Min(0.2, Abs(v) * 0.1);
    if v > 0.0 then f else -f
  }

  /** The preview time a touch frame computes: the clamped share of
      `duration || 0`. It is NaN exactly when the track has no width
      (0 / 0). */
  function TouchPreview(clientX: real, track: Track, duration: Num): (r: Num)
    ensures r.Fin? <==> track.width != 0.0
  {
    Mul(Div(DragOffset(clientX, track), track.width), Fin(OrZero(duration)))
  }

  /** The position a touch frame applies: nothing when the preview is NaN;
      otherwise the preview nudged by the momentum offset and clamped into
      [0, duration || 0]. */
  function FrameTime(preview: Num, v: real, duration: Num): (r: Option<real>)
    ensures r.Some? <==> preview.Fin?
    ensures r.Some? && 0.0 <= OrZero(duration) ==> 0.0 <= r.value <= OrZero(duration)
  {
    if preview.Fin? then Some(Clamp(preview.v + MomentumOffset(v), 0.0, OrZero(duration)))
    else None
  }

  /** Away from the ends of the media, a frame lands within 0.2 s of the
      preview, ahead of it when moving right and behind it when moving
      left. */
  lemma FrameStaysNearPreview(p: real, v: real, duration: real)
    requires 0.2 <= p <= duration - 0.2
    ensures FrameTime(Fin(p), v, Fin(duration)).Some?
    ensures Abs(FrameTime(Fin(p), v, Fin(duration)).value - p) <= 0.2
    ensures v > 0.0 ==> FrameTime(Fin(p), v, Fin(duration)).value > p
    ensures v < 0.0 ==> FrameTime(Fin(p), v, Fin(duration)).value < p
  {
  }

  /** Where a touch gesture ends: the last preview (0 if NaN) plus half the
      last velocity, clamped into [0, duration || 0]. */
  function ReleaseTime(preview: Num, v: real, duration: Num): (r: real)
    ensures 0.0 <= OrZero(duration) ==> 0.0 <= r <= OrZero(duration)
  {
    var safePreview := if preview.Fin? then preview.v else 0.0;
    Clamp(safePreview + v * 0.5, 0.0, OrZero(duration))
  }

  /** Releasing never moves against the finger: a rightward release lands
      at or after the preview, a leftward one at or before it. The
      extrapolation is not capped: whenever preview + v / 2 is inside the
      media, that is exactly where playback lands, however fast the swipe. */
  lemma ReleaseFollowsVelocity(p: real, v: real, duration: real)
    requires 0.0 <= p <= duration
    ensures v >= 0.0 ==> p <= ReleaseTime(Fin(p), v, Fin(duration)) <= duration
    ensures v <= 0.0 ==> 0.0 <= ReleaseTime(Fin(p), v, Fin(duration)) <= p
    ensures 0.0 <= p + v * 0.5 <= duration ==> ReleaseTime(Fin(p), v, Fin(duration)) == p + v * 0.5
  {
  }
}
