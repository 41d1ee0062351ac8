/** The video player component: its React state, its timers and the media
    element it drives, with one method per event handler. Time `now` is in
    milliseconds; the environment (the browser, the user) calls the
    handlers and reports the outcome of asynchronous requests (`ok`). */
module Player {
  import opened Numbers
  import opened Text
  import opened Timers
  import opened Media
  import opened Commands
  import opened SeekMath
  import opened Fullscreen
  import opened Rendition
  import opened Catalog
  import opened WatchHistory

  /** Inactivity before the controls hide. */
  const HideDelay: int := 3000
  /** Lifetime of a transient error message. */
  const MessageLifetime: int := 3000
  /** The buffering indicator is dropped this long after `waiting`. */
  const BufferingGrace: int := 1000
  /** Debounce of clicks on the progress bar. */
  const SeekDebounce: int := 50

  const LoadFailedMessage: string :=
    "Failed to load video. The video might be unavailable or the format is not supported."
  const RotateMessage: string := "Please rotate your device to landscape mode for fullscreen view"
  const FullscreenFailedMessage: string := "Unable to enter fullscreen mode"

  /** The React state the player renders from. */
  datatype View = View(
    isPlaying: bool,
    isMuted: bool,
    isFullScreen: bool,
    isLoading: bool,
    showControls: bool,
    isHovering: bool,
    showSettingsMenu: bool,
    showQualitySubmenu: bool,
    error: Option<string>,
    isBuffering: bool,
    bufferProgress: real,
    selectedQuality: Quality,
    timePreview: Option<Preview>)

  const InitialView: View :=
    View(false, false, false, true, true, false, false, false, None, false, 0.0, Auto, None)

  /** The values the auto-hide callback reads: `isPlaying` as of the last
      run of its effect, and `showSettingsMenu` and `isHovering` as they
      were at that same render (its closure is not refreshed when only they
      change). */
  datatype HideGuard = HideGuard(playing: bool, settingsOpen: bool, hovering: bool)

  /** `isPlaying && !showSettingsMenu && (!isHovering || isMobile)`. */
  predicate HideAllowed(g: HideGuard, isMobile: bool) {
    g.playing && !g.settingsOpen && (!g.hovering || isMobile)
  }

  /** The player's pending callbacks: the auto-hide timer (with the guard
      its closure holds), the timer armed on entering fullscreen on mobile
      (with the `isHovering` it captured), the buffering grace timer, the
      debounced seek (with its target), and the deadlines of the
      `setError(null)` callbacks, which are never cancelled. */
  datatype Schedule = Schedule(
    hide: Pending<HideGuard>,
    fullscreenHide: Pending<bool>,
    buffering: Pending<()>,
    seek: Pending<Num>,
    errorClears: seq<int>)

  const NoTimers: Schedule := Schedule(Idle, Idle, Idle, Idle, [])

  /** What the `onloadeddata` handler installed by the quality effect
      restores: the position and playing state captured when it ran. */
  datatype Restore = Restore(time: real, wasPlaying: bool)

  /** The error-clear deadlines still in the future. */
  function NotYetDue(clears: seq<int>, now: int): (r: seq<int>)
    ensures forall d :: d in r <==> d in clears && d > now
    ensures |r| <= |clears|
    ensures |r| == |clears| <==> forall d :: d in clears ==> d > now
  {
    if clears == [] then []
    else
      var rest := NotYetDue(clears[1..], now);
      assert clears == [clears[0]] + clears[1..];
      assert forall d :: d in clears <==> d == clears[0] || d in clears[1..];
      assert clears[0] in clears;
      if clears[0] > now then [clears[0]] + rest else rest
  }

  /** The clock reaching `now`: every due callback runs once. The auto-hide
      callback hides the controls only when its guard allows; the mobile
      fullscreen one only when the pointer was not hovering; the buffering
      one drops the indicator; the seek applies its target; any due
      error-clear erases the message shown, whichever it is. */
  function Elapse(isMobile: bool, m: MediaHandle, v: View, s: Schedule, now: int): (r: (MediaHandle, View, Schedule))
  {
    var hideFire := Fire(s.hide, now);
    var fsHide := Fire(s.fullscreenHide, now);
    var buffering := Fire(s.buffering, now);
    var seek := Fire(s.seek, now);
    var hideRan := hideFire.1;
    var fsHideRan := fsHide.1;
    var bufferingRan := buffering.1;
    var seekRan := seek.1;
    var clears := NotYetDue(s.errorClears, now);
    var hides := (hideRan.Some? && HideAllowed(hideRan.value, isMobile))
                 || (fsHideRan.Some? && !fsHideRan.value);
    var nextMedia := if seekRan.Some? then m.WithTime(seekRan.value) else m;
    var nextView := v.(showControls := (if hides then false else v.showControls),
                       isBuffering := (if bufferingRan.Some? then false else v.isBuffering),
                       error := (if |clears| < |s.errorClears| then None else v.error));
    (nextMedia, nextView, Schedule(hideFire.0, fsHide.0, buffering.0, seek.0, clears))
  }

  /** No callback of the schedule is due at `now`. */
  predicate Quiet(s: Schedule, now: int) {
    !IsDue(s.hide, now) && !IsDue(s.fullscreenHide, now) && !IsDue(s.buffering, now)
    && !IsDue(s.seek, now) && forall d :: d in s.errorClears ==> d > now
  }

  /** Before any deadline nothing happens. */
  lemma QuietTickChangesNothing(isMobile: bool, m: MediaHandle, v: View, s: Schedule, now: int)
    requires Quiet(s, now)
    ensures Elapse(isMobile, m, v, s, now) == (m, v, s)
  {
    NotYetDueKeepsFuture(s.errorClears, now);
  }

  /** After the clock reaches `now` nothing is due any more, so a second
      tick at the same time changes nothing: every callback runs at most
      once. */
  lemma ElapseRunsEachCallbackOnce(isMobile: bool, m: MediaHandle, v: View, s: Schedule, now: int)
    ensures var r := Elapse(isMobile, m, v, s, now);
            Quiet(r.2, now) && Elapse(isMobile, r.0, r.1, r.2, now) == r
  {
    var r := Elapse(isMobile, m, v, s, now);
    assert Quiet(r.2, now);
    QuietTickChangesNothing(isMobile, r.0, r.1, r.2, now);
  }

  lemma {:induction false} NotYetDueKeepsFuture(clears: seq<int>, now: int)
    requires forall d :: d in clears ==> d > now
    ensures NotYetDue(clears, now) == clears
  {
    if clears != [] {
      assert clears == [clears[0]] + clears[1..];
      assert forall d :: d in clears[1..] ==> d in clears;
      NotYetDueKeepsFuture(clears[1..], now);
    }
  }

  /** The controls disappear on a tick only through one of the two hide
      timers: the auto-hide timer with a guard that allows hiding (so never
      when its captured state was paused or had the settings menu open), or
      the mobile fullscreen timer armed while not hovering. */
  lemma ControlsHideOnlyByTimers(isMobile: bool, m: MediaHandle, v: View, s: Schedule, now: int)
    requires v.showControls && !Elapse(isMobile, m, v, s, now).1.showControls
    ensures (IsDue(s.hide, now) && HideAllowed(s.hide.payload, isMobile))
            || (IsDue(s.fullscreenHide, now) && !s.fullscreenHide.payload)
  {
  }

  /** A due seek applies exactly the target captured at click time, and a
      tick never moves playback otherwise. */
  lemma TickSeeksOnlyCapturedTarget(isMobile: bool, m: MediaHandle, v: View, s: Schedule, now: int)
    ensures Elapse(isMobile, m, v, s, now).0 == (if IsDue(s.seek, now) then m.WithTime(s.seek.payload) else m)
  {
  }

  /** The timer armed on entering fullscreen on mobile ignores the playing
      state: a paused player in fullscreen loses its controls when that
      timer fires, unless the pointer was hovering when it was armed. */
  lemma FullscreenTimerHidesWhilePaused(m: MediaHandle, v: View, s: Schedule, now: int)
    requires !v.isPlaying && s.fullscreenHide == Armed(now, false)
    ensures !Elapse(true, m, v, s, now).1.showControls
    ensures Elapse(true, m, v, s, now).1.isPlaying == false
  {
  }

  /** The clear callbacks are not tied to the message that armed them: one
      still pending from an earlier transient message also erases a newer
      message, such as the load failure. */
  lemma StaleClearErasesNewerMessage(isMobile: bool, m: MediaHandle, v: View, s: Schedule, armedAt: int, failedAt: int)
    requires armedAt <= failedAt < armedAt + MessageLifetime
    requires s.errorClears == [armedAt + MessageLifetime] && v.error == Some(LoadFailedMessage)
    ensures Elapse(isMobile, m, v, s, armedAt + MessageLifetime).1.error == None
  {
    assert NotYetDue(s.errorClears, armedAt + MessageLifetime) == [];
  }

  class VideoPlayer {
    const isMobile: bool
    const anime: Anime
    const episode: Episode
    /** The media element. */
    var media: MediaHandle
    /** Whether the document is in fullscreen (`document.fullscreenElement`). */
    var fullscreen: bool
    /** Whether the error handler set the element's `src` attribute to "",
        which from then on overrides the rendered <source>. */
    var sourceCleared: bool
    var view: View
    var sched: Schedule
    /** The guard the current auto-hide closure was created with. */
    var hideGuard: HideGuard
    var restore: Option<Restore>
    /** The watch-history store. */
    var history: Store

    ghost predicate Valid()
      reads this
    {
      media.Valid()
      && hideGuard.playing == view.isPlaying
      && (sched.hide.Armed? ==> sched.hide.payload == hideGuard)
    }

    /** Mounting: the element starts on the 'auto' URL with nothing known
        about the media; the quality effect's first run installs a restore
        of position 0, paused. */
    constructor (isMobile: bool, anime: Anime, episode: Episode, history: Store)
      ensures Valid()
      ensures this.isMobile == isMobile && this.anime == anime && this.episode == episode
      ensures media == MediaHandle(0.0, NonFinite, true, 1.0, false, GetVideoUrl(episode.urls, Auto))
      ensures !fullscreen && !sourceCleared
      ensures view == InitialView && sched == NoTimers
      ensures hideGuard == HideGuard(false, false, false)
      ensures restore == Some(Restore(0.0, false))
      ensures this.history == history
    {
      this.isMobile := isMobile;
      this.anime := anime;
      this.episode := episode;
      media := MediaHandle(0.0, NonFinite, true, 1.0, false, GetVideoUrl(episode.urls, Auto));
      fullscreen := false;
      sourceCleared := false;
      view := InitialView;
      sched := NoTimers;
      hideGuard := HideGuard(false, false, false);
      restore := Some(Restore(0.0, false));
      this.history := history;
    }

    /** `isPlaying` takes value `b`. When it changes, the effect that owns
        the auto-hide timer is torn down (its timer cleared) and set up again
        with a fresh guard. */
    twostate predicate PlayingBecame(b: bool)
      reads this
    {
      view == old(view).(isPlaying := b)
      && (if b != old(view.isPlaying)
          then sched == old(sched).(hide := Idle)
               && hideGuard == HideGuard(b, old(view.showSettingsMenu), old(view.isHovering))
          else sched == old(sched) && hideGuard == old(hideGuard))
    }

    method SetPlaying(b: bool)
      modifies this
      requires Valid()
      ensures Valid()
      ensures PlayingBecame(b)
      ensures media == old(media) && fullscreen == old(fullscreen) && sourceCleared == old(sourceCleared)
      ensures restore == old(restore) && history == old(history)
    {
      if b != view.isPlaying {
        hideGuard := HideGuard(b, view.showSettingsMenu, view.isHovering);
        sched := sched.(hide := Idle);
      }
      view := view.(isPlaying := b);
    }

    /** The mount effect: with positive saved progress for this episode and
        a known duration, seek to `progress * duration / 100`. */
    method ResumeFromHistory()
      modifies this
      requires Valid()
      ensures Valid()
      ensures var saved := SavedProgress(history, NatToString(anime.id), NatToString(episode.id));
              match ResumeTime(saved, old(media).duration)
              case None => media == old(media)
              case Some(t) => media == old(media).WithTime(Fin(t))
      ensures fullscreen == old(fullscreen) && sourceCleared == old(sourceCleared)
      ensures view == old(view) && sched == old(sched) && hideGuard == old(hideGuard)
      ensures restore == old(restore) && history == old(history)
    {
      var saved := SavedProgress(history, NatToString(anime.id), NatToString(episode.id));
      var target := ResumeTime(saved, media.duration);
      if target.Some? {
        media := media.WithTime(Fin(target.value));
      }
    }

    /** `durationchange`: metadata reports duration `d`. */
    method OnDurationChange(d: real)
      modifies this
      requires Valid() && 0.0 <= d
      ensures Valid()
      ensures media == old(media).WithDuration(d)
      ensures fullscreen == old(fullscreen) && sourceCleared == old(sourceCleared)
      ensures view == old(view) && sched == old(sched) && hideGuard == old(hideGuard)
      ensures restore == old(restore) && history == old(history)
    {
      media := media.WithDuration(d);
    }

    /** Playback advanced to `t` on its own. */
    method Advance(t: real)
      modifies this
      requires Valid() && 0.0 <= t && (media.duration.Fin? ==> t <= media.duration.v)
      ensures Valid()
      ensures media == old(media).(currentTime := t)
      ensures fullscreen == old(fullscreen) && sourceCleared == old(sourceCleared)
      ensures view == old(view) && sched == old(sched) && hideGuard == old(hideGuard)
      ensures restore == old(restore) && history == old(history)
    {
      media := media.(currentTime := t);
    }

    /** The element's `play` event (autoplay, or a play request that
        succeeded). */
    method OnPlayEvent()
      modifies this
      requires Valid()
      ensures Valid()
      ensures media == old(media).(paused := false) && PlayingBecame(true)
      ensures fullscreen == old(fullscreen) && sourceCleared == old(sourceCleared)
      ensures restore == old(restore) && history == old(history)
    {
      media := media.(paused := false);
      SetPlaying(true);
    }

    /** The element's `pause` event (playback ended or was paused). */
    method OnPauseEvent()
      modifies this
      requires Valid()
      ensures Valid()
      ensures media == old(media).(paused := true) && PlayingBecame(false)
      ensures fullscreen == old(fullscreen) && sourceCleared == old(sourceCleared)
      ensures restore == old(restore) && history == old(history)
    {
      media := media.(paused := true);
      SetPlaying(false);
    }

    /** `volumechange`: the muted flag is re-read from the element. */
    method OnVolumeChangeEvent()
      modifies this
      requires Valid()
      ensures Valid()
      ensures view == old(view).(isMuted := media.muted)
      ensures media == old(media) && fullscreen == old(fullscreen) && sourceCleared == old(sourceCleared)
      ensures sched == old(sched) && hideGuard == old(hideGuard)
      ensures restore == old(restore) && history == old(history)
    {
      view := view.(isMuted := media.muted);
    }

    /** `timeupdate`: on a sampling second with known positive duration the
        progress percentage is written to the history. */
    method OnTimeUpdate(now: int)
      modifies this
      requires Valid()
      ensures Valid()
      ensures match ProgressSample(media.currentTime, media.duration, anime.id, episode.id)
              case None => history == old(history)
              case Some(p) => history == Put(old(history), PlayerEntry(anime, episode, p, now))
      ensures media == old(media) && fullscreen == old(fullscreen) && sourceCleared == old(sourceCleared)
      ensures view == old(view) && sched == old(sched) && hideGuard == old(hideGuard)
      ensures restore == old(restore)
    {
      var sample := ProgressSample(media.currentTime, media.duration, anime.id, episode.id);
      if sample.Some? {
        history := Put(history, PlayerEntry(anime, episode, sample.value, now));
      }
    }

    /** `loadeddata`: the loading overlay goes, and the installed restore
        (if any) seeks back and resumes playing when it was playing;
        `playOk` says whether that play request succeeds. */
    method OnLoadedData(playOk: bool)
      modifies this
      requires Valid()
      ensures Valid()
      ensures match old(restore)
              case None => media == old(media) && view == old(view).(isLoading := false)
                           && sched == old(sched) && hideGuard == old(hideGuard)
              case Some(r) =>
                if r.wasPlaying && playOk then
                  media == old(media).WithTime(Fin(r.time)).(paused := false)
                  && view == old(view).(isLoading := false, isPlaying := true)
                  && (old(view.isPlaying) ==> sched == old(sched) && hideGuard == old(hideGuard))
                  && (!old(view.isPlaying) ==>
                        sched == old(sched).(hide := Idle)
                        && hideGuard == HideGuard(true, old(view.showSettingsMenu), old(view.isHovering)))
                else
                  media == old(media).WithTime(Fin(r.time)) && view == old(view).(isLoading := false)
                  && sched == old(sched) && hideGuard == old(hideGuard)
      ensures fullscreen == old(fullscreen) && sourceCleared == old(sourceCleared)
      ensures restore == old(restore) && history == old(history)
    {
      view := view.(isLoading := false);
      if restore.Some? {
        media := media.WithTime(Fin(restore.value.time));
        if restore.value.wasPlaying && playOk {
          media := media.(paused := false);
          SetPlaying(true);
        }
      }
    }

    /** `canplaythrough`. */
    method OnCanPlayThrough()
      modifies this
      requires Valid()
      ensures Valid()
      ensures view == old(view).(isLoading := false)
      ensures media == old(media) && fullscreen == old(fullscreen) && sourceCleared == old(sourceCleared)
      ensures sched == old(sched) && hideGuard == old(hideGuard)
      ensures restore == old(restore) && history == old(history)
    {
      view := view.(isLoading := false);
    }

    /** `error` with the element's error code, if any: the message is shown
        and stays (nothing clears it), and codes 1 (aborted) and 2 (network)
        clear the source and reload the now empty element. */
    method OnError(code: Option<int>)
      modifies this
      requires Valid()
      ensures Valid()
      ensures view == old(view).(error := Some(LoadFailedMessage), isLoading := false)
      ensures code == Some(1) || code == Some(2) ==> media == old(media).Reloaded("") && sourceCleared
      ensures !(code == Some(1) || code == Some(2)) ==> media == old(media) && sourceCleared == old(sourceCleared)
      ensures fullscreen == old(fullscreen) && sched == old(sched) && hideGuard == old(hideGuard)
      ensures restore == old(restore) && history == old(history)
    {
      view := view.(error := Some(LoadFailedMessage), isLoading := false);
      if code == Some(1) || code == Some(2) {
        media := media.Reloaded("");
        sourceCleared := true;
      }
    }

    /** `progress`: the end of the last buffered range as a percentage of a
        known positive duration. */
    method OnProgress(bufferedEnd: Option<real>)
      modifies this
      requires Valid()
      ensures Valid()
      ensures bufferedEnd.Some? && media.duration.Fin? && media.duration.v > 0.0 ==>
                view == old(view).(bufferProgress := view.bufferProgress)
                && view.bufferProgress * media.duration.v == bufferedEnd.value * 100.0
      ensures !(bufferedEnd.Some? && media.duration.Fin? && media.duration.v > 0.0) ==> view == old(view)
      ensures media == old(media) && fullscreen == old(fullscreen) && sourceCleared == old(sourceCleared)
      ensures sched == old(sched) && hideGuard == old(hideGuard)
      ensures restore == old(restore) && history == old(history)
    {
      if bufferedEnd.Some? && media.duration.Fin? && media.duration.v > 0.0 {
        var p := (bufferedEnd.value / media.duration.v) * 100.0;
        assert p * media.duration.v == bufferedEnd.value * 100.0 by {
          assert (bufferedEnd.value / media.duration.v) * media.duration.v == bufferedEnd.value;
        }
        view := view.(bufferProgress := p);
      }
    }

    /** `waiting`: the indicator shows, and drops after the grace period
        whatever happens (the previous grace timer is replaced). */
    method OnWaiting(now: int)
      modifies this
      requires Valid()
      ensures Valid()
      ensures view == old(view).(isBuffering := true)
      ensures sched == old(sched).(buffering := Armed(now + BufferingGrace, ()))
      ensures media == old(media) && fullscreen == old(fullscreen) && sourceCleared == old(sourceCleared)
      ensures hideGuard == old(hideGuard) && restore == old(restore) && history == old(history)
    {
      view := view.(isBuffering := true);
      sched := sched.(buffering := Armed(now + BufferingGrace, ()));
    }

    /** `playing`: the indicator drops; the grace timer stays armed. */
    method OnPlaying()
      modifies this
      requires Valid()
      ensures Valid()
      ensures view == old(view).(isBuffering := false)
      ensures media == old(media) && fullscreen == old(fullscreen) && sourceCleared == old(sourceCleared)
      ensures sched == old(sched) && hideGuard == old(hideGuard)
      ensures restore == old(restore) && history == old(history)
    {
      view := view.(isBuffering := false);
    }

    /** The effect of `togglePlay()`: pausing always succeeds; a play
        request changes state only when it succeeds. */
    twostate predicate PlayToggled(ok: bool)
      reads this
    {
      fullscreen == old(fullscreen) && sourceCleared == old(sourceCleared)
      && restore == old(restore) && history == old(history)
      && if old(view.isPlaying) then media == old(media).(paused := true) && PlayingBecame(false)
         else if ok then media == old(media).(paused := false) && PlayingBecame(true)
         else media == old(media) && view == old(view) && sched == old(sched) && hideGuard == old(hideGuard)
    }

    /** `togglePlay()` (the video surface, the play button, Space and k). */
    method TogglePlay(ok: bool)
      modifies this
      requires Valid()
      ensures Valid()
      ensures PlayToggled(ok)
      ensures view.isPlaying == (if old(view.isPlaying) then false else ok)
    {
      if view.isPlaying {
        media := media.(paused := true);
        SetPlaying(false);
      } else if ok {
        media := media.(paused := false);
        SetPlaying(true);
      }
    }

    /** The effect of `toggleMute()`: element and state both take the
        negation of the React muted flag. */
    twostate predicate MuteToggled()
      reads this
    {
      media == old(media).(muted := !old(view.isMuted))
      && view == old(view).(isMuted := !old(view.isMuted))
      && fullscreen == old(fullscreen) && sourceCleared == old(sourceCleared)
      && sched == old(sched) && hideGuard == old(hideGuard)
      && restore == old(restore) && history == old(history)
    }

    /** `toggleMute()` (the volume button and m). */
    method ToggleMute()
      modifies this
      requires Valid()
      ensures Valid()
      ensures MuteToggled()
      ensures media.muted == view.isMuted
    {
      var m := !view.isMuted;
      media := media.(muted := m);
      view := view.(isMuted := m);
    }

    /** The effect of setting the volume to `level` from the range input or
        the vertical slider: nothing when the element refuses the value
        (the handler throws); otherwise the element volume changes and the
        React muted flag becomes exactly "level is 0" (the element's own
        muted flag is left alone). */
    twostate predicate LevelSet(level: Num)
      reads this
    {
      fullscreen == old(fullscreen) && sourceCleared == old(sourceCleared)
      && sched == old(sched) && hideGuard == old(hideGuard)
      && restore == old(restore) && history == old(history)
      && match old(media).WithVolume(level)
         case None => media == old(media) && view == old(view)
         case Some(m) => media == m && view == old(view).(isMuted := MutedAfterLevel(level.v, old(view.isMuted)))
    }

    method SetLevel(level: Num)
      modifies this
      requires Valid()
      ensures Valid()
      ensures LevelSet(level)
    {
      var m := media.WithVolume(level);
      if m.Some? {
        media := m.value;
        view := view.(isMuted := MutedAfterLevel(level.v, view.isMuted));
      }
    }

    /** `handleVolumeChange`: the range input reports `parseFloat(value)`. */
    method HandleVolumeInput(x: Num)
      modifies this
      requires Valid()
      ensures Valid()
      ensures LevelSet(x)
      ensures x.Fin? && 0.0 <= x.v <= 1.0 ==> media.volume == x.v && (view.isMuted <==> x.v == 0.0)
    {
      SetLevel(x);
    }

    /** A click `y` pixels below the top of the vertical slider of height
        `height`. */
    method VolumeSliderClick(y: real, height: real)
      modifies this
      requires Valid()
      ensures Valid()
      ensures LevelSet(SliderLevel(y, height))
      ensures !(height == 0.0 && y == 0.0) ==> media.volume == SliderLevel(y, height).v
    {
      SetLevel(SliderLevel(y, height));
    }

    /** The effect of a seek to `target` from a handler. */
    twostate predicate SeekedTo(target: Num)
      reads this
    {
      media == old(media).WithTime(target)
      && fullscreen == old(fullscreen) && sourceCleared == old(sourceCleared)
      && view == old(view) && sched == old(sched) && hideGuard == old(hideGuard)
      && restore == old(restore) && history == old(history)
    }

    method SeekTo(target: Num)
      modifies this
      requires Valid()
      ensures Valid()
      ensures SeekedTo(target)
    {
      media := media.WithTime(target);
    }

    /** The effect of ArrowUp (`up`) or ArrowDown: the React `volume` (equal
        to the element's after every handler) moves one step; ArrowUp clears
        the React muted flag, ArrowDown sets it on reaching 0. */
    twostate predicate VolumeStepped(up: bool)
      reads this
    {
      var level := if up then VolumeUpLevel(old(media.volume)) else VolumeDownLevel(old(media.volume));
      media == old(media).(volume := level)
      && view == old(view).(isMuted := if up then false else MutedAfterVolumeDown(level, old(view.isMuted)))
      && fullscreen == old(fullscreen) && sourceCleared == old(sourceCleared)
      && sched == old(sched) && hideGuard == old(hideGuard)
      && restore == old(restore) && history == old(history)
    }

    method StepVolume(up: bool)
      modifies this
      requires Valid()
      ensures Valid()
      ensures VolumeStepped(up)
    {
      var level := if up then VolumeUpLevel(media.volume) else VolumeDownLevel(media.volume);
      media := media.(volume := level);
      view := view.(isMuted := if up then false else MutedAfterVolumeDown(level, view.isMuted));
    }

    /** The state after a message is shown for `MessageLifetime`. */
    twostate predicate MessageShown(msg: string, now: int)
      reads this
    {
      view == old(view).(error := Some(msg))
      && sched == old(sched).(errorClears := old(sched.errorClears) + [now + MessageLifetime])
    }

    /** The effect of `toggleFullScreen()` given the device orientation and
        whether the fullscreen request succeeds. */
    twostate predicate FullscreenToggled(landscape: bool, ok: bool, now: int)
      reads this
    {
      media == old(media) && sourceCleared == old(sourceCleared)
      && hideGuard == old(hideGuard) && restore == old(restore) && history == old(history)
      && match ToggleRequest(isMobile, landscape, old(fullscreen))
         case PromptRotate => fullscreen == old(fullscreen) && MessageShown(RotateMessage, now)
         case Enter =>
           if ok then fullscreen && view == old(view).(isFullScreen := true) && sched == old(sched)
           else fullscreen == old(fullscreen) && MessageShown(FullscreenFailedMessage, now)
         case Exit =>
           if ok then !fullscreen && view == old(view).(isFullScreen := false) && sched == old(sched)
           else fullscreen == old(fullscreen) && MessageShown(FullscreenFailedMessage, now)
    }

    /** `toggleFullScreen()` (the fullscreen button and f). */
    method ToggleFullScreen(landscape: bool, ok: bool, now: int)
      modifies this
      requires Valid()
      ensures Valid()
      ensures FullscreenToggled(landscape, ok, now)
    {
      var request := ToggleRequest(isMobile, landscape, fullscreen);
      if request == PromptRotate || !ok {
        var msg := if request == PromptRotate then RotateMessage else FullscreenFailedMessage;
        view := view.(error := Some(msg));
        sched := sched.(errorClears := sched.errorClears + [now + MessageLifetime]);
      } else if request == Enter {
        fullscreen := true;
        view := view.(isFullScreen := true);
      } else {
        fullscreen := false;
        view := view.(isFullScreen := false);
      }
    }

    /** `handleKeyDown`: the decoded command's effect, and nothing at all
        for ignored keys. `landscape` and `ok` are the orientation and the
        outcome of a play or fullscreen request. */
    method HandleKey(key: string, focusTag: Option<string>, ctrl: bool, alt: bool, meta: bool,
                     landscape: bool, ok: bool, now: int)
      modifies this
      requires Valid()
      ensures Valid()
      ensures var c := DecodeKey(key, focusTag, ctrl, alt, meta);
              match c
              case Ignore => SeekedTo(NonFinite)
              case TogglePlay => PlayToggled(ok)
              case ToggleFullScreen => FullscreenToggled(landscape, ok, now)
              case ToggleMute => MuteToggled()
              case Rewind => SeekedTo(Fin(RewindTarget(old(media.currentTime))))
              case FastForward => SeekedTo(Fin(ForwardTarget(old(media.currentTime), old(media.duration))))
              case VolumeUp => VolumeStepped(true)
              case VolumeDown => VolumeStepped(false)
              case SeekToTenth(d) => SeekedTo(TenthTarget(d, old(media.duration)))
    {
      var c := DecodeKey(key, focusTag, ctrl, alt, meta);
      match c
      case Ignore =>
      case TogglePlay => TogglePlay(ok);
      case ToggleFullScreen => ToggleFullScreen(landscape, ok, now);
      case ToggleMute => ToggleMute();
      case Rewind => SeekTo(Fin(RewindTarget(media.currentTime)));
      case FastForward => SeekTo(Fin(ForwardTarget(media.currentTime, media.duration)));
      case VolumeUp => StepVolume(true);
      case VolumeDown => StepVolume(false);
      case SeekToTenth(d) => SeekTo(TenthTarget(d, media.duration));
    }

    /** `handleProgressBarClick`: the target is computed now, and the seek
        runs after the debounce unless another click replaces it. */
    method ClickProgressBar(now: int, clientX: real, track: Track)
      modifies this
      requires Valid()
      ensures Valid()
      ensures sched == old(sched).(seek := Armed(now + SeekDebounce, ClickTarget(clientX, track, media.duration)))
      ensures media == old(media) && fullscreen == old(fullscreen) && sourceCleared == old(sourceCleared)
      ensures view == old(view) && hideGuard == old(hideGuard)
      ensures restore == old(restore) && history == old(history)
    {
      sched := sched.(seek := Armed(now + SeekDebounce, ClickTarget(clientX, track, media.duration)));
    }

    /** A mouse-drag step on the bar (`handleDrag`), applied at once. */
    method DragTo(clientX: real, track: Track)
      modifies this
      requires Valid()
      ensures Valid()
      ensures SeekedTo(DragTarget(clientX, track, old(media.duration)))
    {
      SeekTo(DragTarget(clientX, track, media.duration));
    }

    /** Mouse over the progress bar: the tooltip follows the pointer while
        the duration is known; it never seeks. */
    method HoverBar(clientX: real, track: Track)
      modifies this
      requires Valid()
      ensures Valid()
      ensures match HoverPreview(clientX, track, media.duration)
              case None => view == old(view)
              case Some(p) => view == old(view).(timePreview := Some(p))
      ensures media == old(media) && fullscreen == old(fullscreen) && sourceCleared == old(sourceCleared)
      ensures sched == old(sched) && hideGuard == old(hideGuard)
      ensures restore == old(restore) && history == old(history)
    {
      var p := HoverPreview(clientX, track, media.duration);
      if p.Some? {
        view := view.(timePreview := p);
      }
    }

    /** The pointer leaves the bar: the tooltip goes. */
    method LeaveBar()
      modifies this
      requires Valid()
      ensures Valid()
      ensures view == old(view).(timePreview := None)
      ensures media == old(media) && fullscreen == old(fullscreen) && sourceCleared == old(sourceCleared)
      ensures sched == old(sched) && hideGuard == old(hideGuard)
      ensures restore == old(restore) && history == old(history)
    {
      view := view.(timePreview := None);
    }

    /** The device rotated: on mobile, fullscreen follows the orientation
        when the request succeeds; failures are swallowed. */
    method OnOrientationChange(landscape: bool, ok: bool)
      modifies this
      requires Valid()
      ensures Valid()
      ensures fullscreen == AfterReaction(OrientationReaction(isMobile, landscape, old(fullscreen)), old(fullscreen), ok)
      ensures !isMobile ==> fullscreen == old(fullscreen)
      ensures isMobile && ok ==> fullscreen == landscape
      ensures media == old(media) && sourceCleared == old(sourceCleared) && view == old(view)
      ensures sched == old(sched) && hideGuard == old(hideGuard)
      ensures restore == old(restore) && history == old(history)
    {
      RotationSyncsFullscreen(landscape, fullscreen);
      fullscreen := AfterReaction(OrientationReaction(isMobile, landscape, fullscreen), fullscreen, ok);
    }

    /** `fullscreenchange`, as its three listeners handle it in turn: the
        state follows the document; entering shows the controls and arms the
        auto-hide timer, and on mobile also the timer that hides unless the
        pointer was hovering. */
    method OnFullscreenChange(now: int)
      modifies this
      requires Valid()
      ensures Valid()
      ensures view == old(view).(isFullScreen := fullscreen, showControls := fullscreen || old(view.showControls))
      ensures fullscreen ==> sched == old(sched).(
                hide := Armed(now + HideDelay, hideGuard),
                fullscreenHide := if isMobile then Armed(now + HideDelay, old(view.isHovering)) else old(sched.fullscreenHide))
      ensures !fullscreen ==> sched == old(sched)
      ensures media == old(media) && fullscreen == old(fullscreen) && sourceCleared == old(sourceCleared)
      ensures hideGuard == old(hideGuard) && restore == old(restore) && history == old(history)
    {
      if fullscreen {
        var fullscreenHide := if isMobile then Armed(now + HideDelay, view.isHovering) else sched.fullscreenHide;
        sched := sched.(hide := Armed(now + HideDelay, hideGuard), fullscreenHide := fullscreenHide);
      }
      view := view.(isFullScreen := fullscreen, showControls := fullscreen || view.showControls);
    }

    /** `showControlsTemporarily`: controls visible, auto-hide re-armed. */
    method ShowTemporarily(now: int)
      modifies this
      requires Valid()
      ensures Valid()
      ensures view == old(view).(showControls := true)
      ensures sched == old(sched).(hide := Armed(now + HideDelay, hideGuard))
      ensures media == old(media) && fullscreen == old(fullscreen) && sourceCleared == old(sourceCleared)
      ensures hideGuard == old(hideGuard) && restore == old(restore) && history == old(history)
    {
      view := view.(showControls := true);
      sched := sched.(hide := Armed(now + HideDelay, hideGuard));
    }

    /** Mouse movement over the player (listened to on desktop only). */
    method MouseMove(now: int)
      modifies this
      requires Valid()
      ensures Valid()
      ensures !isMobile ==> view == old(view).(showControls := true)
                            && sched == old(sched).(hide := Armed(now + HideDelay, hideGuard))
      ensures isMobile ==> view == old(view) && sched == old(sched)
      ensures media == old(media) && fullscreen == old(fullscreen) && sourceCleared == old(sourceCleared)
      ensures hideGuard == old(hideGuard) && restore == old(restore) && history == old(history)
    {
      if !isMobile {
        ShowTemporarily(now);
      }
    }

    /** The pointer enters the player (desktop only): controls shown,
        hovering, auto-hide cancelled. */
    method MouseEnter()
      modifies this
      requires Valid()
      ensures Valid()
      ensures !isMobile ==> view == old(view).(showControls := true, isHovering := true)
                            && sched == old(sched).(hide := Idle)
      ensures isMobile ==> view == old(view) && sched == old(sched)
      ensures media == old(media) && fullscreen == old(fullscreen) && sourceCleared == old(sourceCleared)
      ensures hideGuard == old(hideGuard) && restore == old(restore) && history == old(history)
    {
      if !isMobile {
        view := view.(showControls := true, isHovering := true);
        sched := sched.(hide := Idle);
      }
    }

    /** The pointer leaves the player (desktop only): not hovering, and the
        auto-hide re-armed. */
    method MouseLeave(now: int)
      modifies this
      requires Valid()
      ensures Valid()
      ensures !isMobile ==> view == old(view).(isHovering := false)
                            && sched == old(sched).(hide := Armed(now + HideDelay, hideGuard))
      ensures isMobile ==> view == old(view) && sched == old(sched)
      ensures media == old(media) && fullscreen == old(fullscreen) && sourceCleared == old(sourceCleared)
      ensures hideGuard == old(hideGuard) && restore == old(restore) && history == old(history)
    {
      if !isMobile {
        view := view.(isHovering := false);
        sched := sched.(hide := Armed(now + HideDelay, hideGuard));
      }
    }

    /** A touch starts or moves on the player (both device kinds). */
    method TouchActivity(now: int)
      modifies this
      requires Valid()
      ensures Valid()
      ensures view == old(view).(showControls := true)
      ensures sched == old(sched).(hide := Armed(now + HideDelay, hideGuard))
      ensures media == old(media) && fullscreen == old(fullscreen) && sourceCleared == old(sourceCleared)
      ensures hideGuard == old(hideGuard) && restore == old(restore) && history == old(history)
    {
      ShowTemporarily(now);
    }

    /** The settings gear opens or closes the menu. */
    method ToggleSettingsMenu()
      modifies this
      requires Valid()
      ensures Valid()
      ensures view == old(view).(showSettingsMenu := !old(view.showSettingsMenu))
      ensures media == old(media) && fullscreen == old(fullscreen) && sourceCleared == old(sourceCleared)
      ensures sched == old(sched) && hideGuard == old(hideGuard)
      ensures restore == old(restore) && history == old(history)
    {
      view := view.(showSettingsMenu := !view.showSettingsMenu);
    }

    /** `handleQualityChange(q)` with the quality effect it triggers. The
        menus close and the element reloads from the rendition of `q` (or ""
        once the error handler cleared the source). `load()` has already
        rewound and paused the element when the effect captures position and
        playing state, so a new selection installs a restore of position 0,
        paused: switching quality restarts the episode. Re-selecting the same
        quality reloads too, but the effect does not run again. */
    method ChangeQuality(q: Quality)
      modifies this
      requires Valid()
      ensures Valid()
      ensures view == old(view).(selectedQuality := q, showQualitySubmenu := false, showSettingsMenu := false)
      ensures media == old(media).Reloaded(if sourceCleared then "" else GetVideoUrl(episode.urls, q))
      ensures q != old(view.selectedQuality) ==> restore == Some(Restore(0.0, false))
      ensures q == old(view.selectedQuality) ==> restore == old(restore)
      ensures fullscreen == old(fullscreen) && sourceCleared == old(sourceCleared)
      ensures sched == old(sched) && hideGuard == old(hideGuard) && history == old(history)
    {
      var url := if sourceCleared then "" else GetVideoUrl(episode.urls, q);
      var reloaded := media.Reloaded(url);
      if q != view.selectedQuality {
        restore := Some(Restore(reloaded.currentTime, !reloaded.paused));
      }
      view := view.(selectedQuality := q, showQualitySubmenu := false, showSettingsMenu := false);
      media := reloaded;
    }

    /** The clock reaches `now`: due callbacks run (see `Elapse`). */
    method Tick(now: int)
      modifies this
      requires Valid()
      ensures Valid()
      ensures (media, view, sched) == Elapse(isMobile, old(media), old(view), old(sched), now)
      ensures fullscreen == old(fullscreen) && sourceCleared == old(sourceCleared)
      ensures hideGuard == old(hideGuard) && restore == old(restore) && history == old(history)
    {
      var r := Elapse(isMobile, media, view, sched, now);
      media, view, sched := r.0, r.1, r.2;
    }

    /** Unmounting: the auto-hide timer is cleared, and a phone held upright
        leaves fullscreen when the exit request succeeds. */
    method Unmount(landscape: bool, ok: bool)
      modifies this
      requires Valid()
      ensures Valid()
      ensures fullscreen == (old(fullscreen) && !(ExitOnUnmount(isMobile, landscape, old(fullscreen)) && ok))
      ensures sched == old(sched).(hide := Idle)
      ensures media == old(media) && sourceCleared == old(sourceCleared) && view == old(view)
      ensures hideGuard == old(hideGuard) && restore == old(restore) && history == old(history)
    {
      if ExitOnUnmount(isMobile, landscape, fullscreen) && ok {
        fullscreen := false;
      }
      sched := sched.(hide := Idle);
    }
  }

  /** A volume set from the range input or the slider, followed by the
      element's `volumechange` event, which the browser queues only when the
      volume really changed. The handler writes only the React muted flag,
      never the element's, and the event copies the element's flag back: so
      end to end a level never mutes or unmutes the audio, and once the event
      has run the button shows the element's flag again. */
  method LevelThenVolumeChange(p: VideoPlayer, level: Num)
    requires p.Valid()
    modifies p
    ensures p.Valid()
    ensures p.media.muted == old(p.media.muted)
    ensures p.media.volume != old(p.media.volume) ==> p.view.isMuted == p.media.muted
    ensures p.media.volume == old(p.media.volume) ==> p.LevelSet(level)
  {
    var before := p.media.volume;
    p.SetLevel(level);
    if p.media.volume != before {
      p.OnVolumeChangeEvent();
    }
  }

  /** One physical click on the progress bar. The track's `mousedown`
      handler runs the drag step at once, which seeks; the `click` that
      follows arms the 50 ms debounced seek as well. So every click reaches
      the media twice, and over the track the debounced seek repeats the
      position the mousedown already set. */
  method ClickOnBar(p: VideoPlayer, now: int, clientX: real, track: Track)
    requires p.Valid()
    modifies p
    ensures p.Valid()
    ensures p.media == old(p.media).WithTime(DragTarget(clientX, track, old(p.media.duration)))
    ensures p.sched == old(p.sched).(seek := Armed(now + SeekDebounce, ClickTarget(clientX, track, old(p.media.duration))))
    ensures p.view == old(p.view)
    ensures Over(clientX, track) && old(p.media.duration).Fin? ==>
              p.sched.seek.payload == DragTarget(clientX, track, old(p.media.duration))
  {
    p.DragTo(clientX, track);
    p.ClickProgressBar(now, clientX, track);
    if Over(clientX, track) && old(p.media.duration).Fin? {
      DragTargetInRange(clientX, track, old(p.media.duration).v);
    }
  }

  /** Pressing mute twice restores the React state, but leaves the element
      muted exactly as the React flag said before: the element's own flag is
      restored only when the two agreed to begin with. */
  method ToggleMuteTwice(p: VideoPlayer)
    requires p.Valid()
    modifies p
    ensures p.Valid()
    ensures p.view == old(p.view)
    ensures p.media == old(p.media).(muted := old(p.view.isMuted))
    ensures old(p.media.muted) == old(p.view.isMuted) ==> p.media == old(p.media)
  {
    p.ToggleMute();
    p.ToggleMute();
  }

  /** The two flags can disagree: unmuted, press mute, then set a non-zero
      level before its `volumechange` event has run. The element stays muted
      while the button shows it unmuted, and a double toggle then unmutes
      the element. */
  method MutedFlagsCanDisagree(p: VideoPlayer)
    requires p.Valid() && !p.view.isMuted
    modifies p
    ensures p.Valid()
    ensures p.media.muted && !p.view.isMuted
  {
    p.ToggleMute();
    p.SetLevel(Fin(1.0));
  }
}
