/** A touch gesture on the progress bar: the closure state `onTouchStart`
    creates (dragging flag, last x, velocity, last timestamp, preview time,
    the pending animation frame), updated by each `touchmove`, each
    animation frame and the final `touchend`. Times are milliseconds from
    `performance.now()`; positions pixels. */
module Gesture {
  import opened Numbers
  import opened SeekMath
  import opened Media
  import opened Player

  /** A requested animation frame: the touch x and the time of the move
      that requested it. */
  datatype FrameRequest = FrameRequest(x: real, now: real)

  class TouchGesture {
    const player: VideoPlayer
    /** `isPlaying` as rendered when the gesture started. */
    const wasPlaying: bool
    var isDragging: bool
    var lastX: real
    var velocity: real
    var lastTimestamp: real
    var previewTime: Num
    var frame: Option<FrameRequest>

    /** The starting touch is handled as the first move, so a live gesture
        is always dragging. */
    ghost predicate Valid()
      reads this, player
    {
      player.Valid() && isDragging
    }

    /** `onTouchStart`: the closure starts from the current position and
        handles the starting touch as its first move. */
    constructor Start(player: VideoPlayer, x: real, now: real)
      requires player.Valid()
      modifies player
      ensures Valid()
      ensures this.player == player && wasPlaying == old(player.view.isPlaying)
      ensures isDragging && lastX == x && lastTimestamp == now && velocity == 0.0
      ensures previewTime == Fin(old(player.media.currentTime))
      ensures frame == Some(FrameRequest(x, now))
      ensures player.media == old(player.media).(paused := true)
      ensures !old(player.media.paused) ==> player.PlayingBecame(false)
      ensures old(player.media.paused) ==> player.view == old(player.view) && player.sched == old(player.sched)
                                           && player.hideGuard == old(player.hideGuard)
      ensures player.fullscreen == old(player.fullscreen) && player.sourceCleared == old(player.sourceCleared)
      ensures player.restore == old(player.restore) && player.history == old(player.history)
    {
      this.player := player;
      wasPlaying := player.view.isPlaying;
      isDragging := true;
      lastX := x;
      lastTimestamp := now;
      velocity := Velocity(x, x, now, now);
      previewTime := Fin(player.media.currentTime);
      frame := Some(FrameRequest(x, now));
      new;
      if !player.media.paused {
        player.OnPauseEvent();
      }
    }

    /** `handleTouchDrag` for a touch at `x` at time `now`: velocity over
        the time since the last applied frame (at least 1 ms), and a new
        animation frame replacing any pending one. */
    method Move(x: real, now: real)
      requires Valid()
      modifies this
      ensures Valid()
      ensures velocity == Velocity(x, old(lastX), now, old(lastTimestamp))
      ensures frame == Some(FrameRequest(x, now))
      ensures isDragging && lastX == old(lastX) && lastTimestamp == old(lastTimestamp)
      ensures previewTime == old(previewTime)
    {
      velocity := Velocity(x, lastX, now, lastTimestamp);
      frame := Some(FrameRequest(x, now));
    }

    /** The animation frame runs against the track's current geometry: the
        preview becomes the touch's share of `duration || 0`; when that is a
        number, playback moves to the preview nudged by the momentum offset
        and the frame's touch becomes the reference for the next velocity. */
    method Frame(track: Track)
      requires Valid()
      modifies this, player
      ensures Valid()
      ensures frame == None
      ensures isDragging == old(isDragging) && velocity == old(velocity)
      ensures old(frame).None? ==> previewTime == old(previewTime) && lastX == old(lastX)
                                   && lastTimestamp == old(lastTimestamp)
                                   && player.SeekedTo(NonFinite)
      ensures old(frame).Some? ==>
                var f := old(frame).value;
                previewTime == TouchPreview(f.x, track, old(player.media.duration))
                && match FrameTime(previewTime, velocity, old(player.media.duration))
                   case None => lastX == old(lastX) && lastTimestamp == old(lastTimestamp)
                                && player.SeekedTo(NonFinite)
                   case Some(t) => lastX == f.x && lastTimestamp == f.now && player.SeekedTo(Fin(t))
    {
      if frame.Some? {
        var f := frame.value;
        previewTime := TouchPreview(f.x, track, player.media.duration);
        var t := FrameTime(previewTime, velocity, player.media.duration);
        if t.Some? {
          player.SeekTo(Fin(t.value));
          lastX := f.x;
          lastTimestamp := f.now;
        }
      }
      frame := None;
    }

    /** `handleTouchEnd`: the pending frame is cancelled, playback lands at
        the release time, and resumes when it was playing at the start
        (`playOk` says whether that play request succeeds); the resulting
        `play` event then runs the isPlaying effect on the hide timer. */
    method End(playOk: bool)
      requires Valid()
      modifies this, player
      ensures Valid()
      ensures frame == None
      ensures var target := ReleaseTime(old(previewTime), old(velocity), old(player.media.duration));
              var landed := old(player.media).WithTime(Fin(target));
              if wasPlaying && playOk then
                player.media == landed.(paused := false) && player.PlayingBecame(true)
              else
                player.media == landed && player.view == old(player.view)
                && player.sched == old(player.sched) && player.hideGuard == old(player.hideGuard)
      ensures player.fullscreen == old(player.fullscreen) && player.sourceCleared == old(player.sourceCleared)
      ensures player.restore == old(player.restore) && player.history == old(player.history)
    {
      frame := None;
      if isDragging {
        var target := ReleaseTime(previewTime, velocity, player.media.duration);
        player.SeekTo(Fin(target));
        if wasPlaying && playOk {
          player.OnPlayEvent();
        }
      }
    }
  }

  /** For a media of known duration, wherever the gesture releases, the
      position it sets lies in the media, and follows the direction of the
      last movement. */
  lemma ReleaseLandsInMedia(m: MediaHandle, preview: real, v: real)
    requires m.Valid() && m.duration.Fin? && 0.0 <= preview <= m.duration.v
    ensures var landed := m.WithTime(Fin(ReleaseTime(Fin(preview), v, m.duration)));
            0.0 <= landed.currentTime <= m.duration.v
            && (v >= 0.0 ==> preview <= landed.currentTime)
            && (v <= 0.0 ==> landed.currentTime <= preview)
  {
    ReleaseFollowsVelocity(preview, v, m.duration.v);
  }
}
