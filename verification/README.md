# Video player core of the anime streaming client

This project models the playback core of the web client in Dafny and proves
properties of it:

- the `VideoPlayer` component. It holds the React state, the pending timers
  and the HTML media element it drives, with one method per event handler:
  - keyboard shortcuts, volume controls and the mute toggle;
  - clicking, dragging, hovering and touch gestures on the progress bar;
  - fullscreen and orientation handling;
  - the auto-hide of the controls, the buffering indicator and error messages;
  - choosing a rendition and switching quality;
  - recording and resuming watch progress;
- the watch page `VideoPlayerPage`. It sorts the series' episodes, locates
  the current one and navigates to its neighbours. It also records the visit;
- the site's `NavBar`. It has a mobile menu and a search overlay, a scroll
  shadow and active-link highlighting.

Modules:

| module | file | contents |
|---|---|---|
| `Numbers` | numbers.dfy | `Option`; `Num` (a real, or NaN/unknown); JavaScript `\|\| 0`, clamps, truncating remainder |
| `Text` | text.dfy | decimal rendering of ids (`String(id)`) and reading it back |
| `TimeFormat` | time_format.dfy | `formatTime` ("m:ss") and reading a label back |
| `Timers` | timers.dfy | a single-deadline timer handle; debounce |
| `Rendition` | rendition.dfy | `getVideoUrl` and `availableQualities` |
| `Commands` | commands.dfy | key decoding, keyboard seek targets, volume steps and the slider |
| `SeekMath` | seek_math.dfy | progress-bar geometry for click, drag, hover and touch |
| `Fullscreen` | fullscreen.dfy | orientation test, fullscreen button and rotation policy |
| `Catalog` | catalog.dfy | the series and episode records |
| `WatchHistory` | watch_history.dfy | the keyed history store, progress sampling, resume position |
| `Media` | media.dfy | the media element's setter rules |
| `Player` | player.dfy | class `VideoPlayer` and the timer schedule |
| `Gesture` | gesture.dfy | class `TouchGesture`: one touch drag on the progress bar |
| `Episodes` | episodes.dfy | sorting, locating and neighbouring episodes |
| `PlayerPage` | player_page.dfy | class `VideoPlayerPage` |
| `Navigation` | nav_bar.dfy | class `NavBar` and the active-link tests |

Numbers and the browser:

- Numbers are reals. NaN (for example the duration before metadata) is the
  `NonFinite` case of `Num`.
- Time is an integer count of milliseconds, passed in as `now`.
- The browser is the caller of the handlers. It says whether each asynchronous
  request succeeded (`ok`, `playOk`), what the device orientation is
  (`landscape`), and where the pointer and the progress track are.

## Model

| member | source | states |
|---|---|---|
| Text.NatToString | client/src/components/VideoPlayer.tsx:111-112 | an id's decimal form is a non-empty string of digits, one digit exactly for ids below 10 |
| Text.DecimalRoundTrip | client/src/pages/VideoPlayerPage.tsx:48 | reading an id's decimal form back gives the id |
| Text.NoLeadingZero | client/src/pages/VideoPlayerPage.tsx:48 | an id's decimal form of two or more digits never starts with '0' |
| Text.NatToStringInjective | client/src/pages/VideoPlayerPage.tsx:48 | distinct ids print differently |
| TimeFormat.ClockFields | client/src/components/VideoPlayer.tsx:544-548 | for t >= 0 the label's fields are floor(t) div 60 and floor(t) mod 60, with seconds in [0, 60) |
| TimeFormat.SecondsFieldIsTwoDigits | client/src/components/VideoPlayer.tsx:547 | the seconds field is exactly two digits and reads back as the seconds |
| TimeFormat.ColonAt | client/src/components/VideoPlayer.tsx:547 | a found colon position holds ':' |
| TimeFormat.ColonAfterDigits | client/src/components/VideoPlayer.tsx:547 | in a label, the first colon follows the minutes digits |
| TimeFormat.LabelRoundTrip | client/src/components/VideoPlayer.tsx:547 | whole minutes, a colon and a seconds field in [0, 59] read back as minutes × 60 + seconds |
| TimeFormat.ClockRoundTrip | client/src/components/VideoPlayer.tsx:544-548 | the label of any t >= 0 reads back as floor(t) seconds |
| TimeFormat.NegativeTimeLabel | client/src/components/VideoPlayer.tsx:544-548 | every time in (-60, 0), as a hover left of the track gives, is labelled "-1:0-" followed by the digits of -floor(t) (two minus signs); every time in [-1, 0) is labelled "-1:0-1" |
| Timers.FireAtMostOnce | client/src/components/VideoPlayer.tsx:697-707 | a pending callback runs at most once: letting the clock reach two times in turn fires the same callbacks and leaves the same handle as reaching the later time at once |
| Timers.DebounceFiresSurvivors | client/src/components/VideoPlayer.tsx:691-707 | re-arming on every click lets through exactly the clicks not followed within the delay |
| Timers.DebounceFiresSurvivorsAfterFire | client/src/components/VideoPlayer.tsx:691-707 | the same, when a callback from before the run was already due |
| Timers.BurstHasNoSurvivors | client/src/components/VideoPlayer.tsx:691-707 | clicks each closer than the delay to the next leave only the last pending |
| Timers.BurstFiresLastOnce | client/src/components/VideoPlayer.tsx:691-707 | after a burst of clicks, exactly one debounced seek runs, with the last click's target (each click's mousedown seeks at once as well, see `Player.ClickOnBar`) |
| Rendition.AutoIsFirstPresent | client/src/components/VideoPlayer.tsx:475-480 | 'auto' plays the first present URL among max quality, 1080p, 720p and 480p |
| Rendition.AutoEmptyIff | client/src/components/VideoPlayer.tsx:475-480 | 'auto' yields "" exactly when none of the four URLs is present |
| Rendition.NamedQualityExact | client/src/components/VideoPlayer.tsx:482-492 | 1080p, 720p or 480p with a present URL plays exactly that URL |
| Rendition.FallbackToMaxQuality | client/src/components/VideoPlayer.tsx:494-495 | every other selection falls back to the max-quality URL, or "" |
| Rendition.ResolvedUrlIsEpisodeUrl | client/src/components/VideoPlayer.tsx:474-496 | the URL played is always "" or one of the episode's URLs |
| Rendition.AvailableQualities | client/src/components/VideoPlayer.tsx:72-77 | the menu has at most four entries, all among auto, 1080p, 720p and 480p |
| Rendition.OfferedIff | client/src/components/VideoPlayer.tsx:72-77 | a quality is offered exactly when its URL is present, and with that URL |
| Rendition.OfferedChoicePlaysItsUrl | client/src/components/VideoPlayer.tsx:72-77 | choosing an offered entry plays the URL the menu showed for it |
| Commands.DecodeKey | client/src/components/VideoPlayer.tsx:321-401 | with focus in INPUT or TEXTAREA, or with Ctrl, Alt or Meta held, every key is ignored; a digit key seeks to its own tenth; any other command comes only from its own key (or "k" for play), so "K", "F" and "M" do nothing |
| Commands.DecodeKeyFor | client/src/components/VideoPlayer.tsx:331-400 | each command's key decodes back to that command when no modifier or text field is involved |
| Commands.RewindTarget | client/src/components/VideoPlayer.tsx:348-353 | ArrowLeft targets t - 5, or 0 within the first five seconds |
| Commands.ForwardTarget | client/src/components/VideoPlayer.tsx:355-363 | ArrowRight targets the smaller of t + 5 and `duration \|\| 0` |
| Commands.TenthTarget | client/src/components/VideoPlayer.tsx:394-399 | digit d targets d/10 of the duration, NaN when the duration is unknown |
| Commands.KeyboardSeeksInRange | client/src/components/VideoPlayer.tsx:348-400 | inside the media, keyboard seeks stay in [0, duration]: back never passes 0, forward never passes the end, '0' seeks to 0 and no digit passes 0.9 of the duration |
| Commands.FastForwardBeforeMetadata | client/src/components/VideoPlayer.tsx:354-361 | before metadata, ArrowRight targets min(0, t + 5): from any position already playing it jumps back to the start, never ahead; digit keys give no finite target |
| Commands.VolumeUpLevel | client/src/components/VideoPlayer.tsx:368 | ArrowUp raises the volume by 0.05 and never above 1 |
| Commands.VolumeDownLevel | client/src/components/VideoPlayer.tsx:378 | ArrowDown lowers the volume by 0.05 and never below 0 |
| Commands.VolumeStepsUndo | client/src/components/VideoPlayer.tsx:365-383 | away from the limits, one step down undoes one step up and vice versa |
| Commands.SliderLevel | client/src/components/VideoPlayer.tsx:1048-1056 | the slider's level is 1 - y/height clamped into [0, 1]; it is NaN only for a zero-height slider clicked at its top |
| Commands.SliderIsMonotone | client/src/components/VideoPlayer.tsx:1053-1055 | the top of the slider is full volume, the bottom silence, and lower clicks never give more volume |
| Commands.MutedAfterLevel | client/src/components/VideoPlayer.tsx:530-534 | after the range input or the slider, the muted flag is exactly "level is 0" |
| Commands.MutedAfterVolumeDown | client/src/components/VideoPlayer.tsx:381 | ArrowDown mutes on reaching 0 and never unmutes |
| SeekMath.ClickTarget | client/src/components/VideoPlayer.tsx:687-689 | a click's target is known exactly when the track has width and the duration is known, and is the click's share of the duration |
| SeekMath.ClickOverTrackInRange | client/src/components/VideoPlayer.tsx:687-689 | a click over the track lands in [0, duration] |
| SeekMath.DragOffset | client/src/components/VideoPlayer.tsx:862 | the drag offset is clamped into [0, width], and is the pointer's own offset over the track |
| SeekMath.DragTarget | client/src/components/VideoPlayer.tsx:861-864 | a drag step's target is known exactly when the track has width and the duration is known |
| SeekMath.DragTargetInRange | client/src/components/VideoPlayer.tsx:859-865 | wherever the pointer goes, a drag stays in [0, duration], and over the track it equals the click target |
| SeekMath.HoverPreview | client/src/components/VideoPlayer.tsx:825-839 | the tooltip exists exactly when the duration is known; its time and position are numbers exactly when the track has width |
| SeekMath.HoverShowsClickTarget | client/src/components/VideoPlayer.tsx:825-839 | the tooltip shows the time a click at that spot seeks to, at the matching percentage of the bar |
| SeekMath.Velocity | client/src/components/VideoPlayer.tsx:903-905 | the touch velocity has the sign of the movement and is never larger than the movement |
| SeekMath.MomentumOffset | client/src/components/VideoPlayer.tsx:920-921 | the frame's nudge is at most 0.2 s and at most a tenth of the speed, signed like the velocity |
| SeekMath.TouchPreview | client/src/components/VideoPlayer.tsx:912-916 | the touch preview is a number exactly when the track has width |
| SeekMath.FrameTime | client/src/components/VideoPlayer.tsx:918-924 | a frame applies a time only when the preview is a number, and then within [0, duration] |
| SeekMath.FrameStaysNearPreview | client/src/components/VideoPlayer.tsx:919-922 | away from the ends, a frame lands within 0.2 s of the preview, ahead of it when moving right and behind when moving left |
| SeekMath.ReleaseTime | client/src/components/VideoPlayer.tsx:935-941 | the release time lies in [0, `duration \|\| 0`] |
| SeekMath.ReleaseFollowsVelocity | client/src/components/VideoPlayer.tsx:935-945 | a release never moves against the finger, and inside the media it lands exactly at preview + v/2 |
| Fullscreen.IsLandscape | client/src/components/VideoPlayer.tsx:214-218 | landscape exactly when the orientation type contains "landscape" or the legacy angle is 90 or -90 |
| Fullscreen.StandardOrientations | client/src/components/VideoPlayer.tsx:214-218 | every type beginning "landscape" reads as landscape whatever the angle; a "portrait" type with no further 'l' and an absent or half-turn angle does not |
| Fullscreen.ToggleRequest | client/src/components/VideoPlayer.tsx:221-244 | out of fullscreen, a phone held upright is asked to rotate, otherwise the button enters; in fullscreen it exits |
| Fullscreen.OrientationReaction | client/src/components/VideoPlayer.tsx:248-271 | only phones react to rotation: they enter on landscape and exit on portrait |
| Fullscreen.RotationSyncsFullscreen | client/src/components/VideoPlayer.tsx:255-266 | on a phone, a successful rotation leaves fullscreen equal to "landscape", and repeating it changes nothing |
| WatchHistory.Put | client/src/components/VideoPlayer.tsx:110-119 | a write stores the entry under its (anime, episode) key and leaves every other key as it was |
| WatchHistory.PutOverwrites | client/src/components/VideoPlayer.tsx:110-119 | writing the same key twice equals writing it once with the last entry, with no duplicate |
| WatchHistory.SavedProgress | client/src/components/VideoPlayer.tsx:84-87 | the lookup finds saved progress exactly for stored keys |
| WatchHistory.ProgressSample | client/src/components/VideoPlayer.tsx:98-121 | progress is saved exactly on a 5-second boundary with non-zero ids and a known positive duration, as t/duration in percent, within [0, 100] inside the media |
| WatchHistory.SampleWindow | client/src/components/VideoPlayer.tsx:109 | during playback the save happens throughout the first second of each five, and never in the other four |
| WatchHistory.PlayerEntry | client/src/components/VideoPlayer.tsx:110-119 | the player's entry is keyed by the ids' decimal forms and carries the progress and the time |
| WatchHistory.PageEntry | client/src/pages/VideoPlayerPage.tsx:57-66 | the page's entry is keyed by the route strings, with progress 0 |
| WatchHistory.ResumeTime | client/src/components/VideoPlayer.tsx:89-96 | resume happens exactly with positive saved progress and a known duration, at progress × duration / 100 |
| WatchHistory.ResumeReturnsToSample | client/src/components/VideoPlayer.tsx:89-121 | resuming from a saved sample returns to the position it was taken at |
| WatchHistory.PlayerWriteIsFoundOnResume | client/src/components/VideoPlayer.tsx:84-87 | what the player writes is what its resume lookup reads |
| Media.MediaHandle.WithTime | client/src/components/VideoPlayer.tsx:351 | a seek changes only the position: a NaN target changes nothing, a known duration clamps, and an in-range target lands exactly |
| Media.MediaHandle.WithVolume | client/src/components/VideoPlayer.tsx:527 | a volume is accepted exactly when it is a number in [0, 1], and then only the volume changes |
| Media.MediaHandle.Reloaded | client/src/components/VideoPlayer.tsx:136-137 | a reload switches to the new source, paused, rewound, with the duration unknown and the volume kept |
| Media.MediaHandle.WithDuration | client/src/components/VideoPlayer.tsx:569-573 | metadata fixes the duration and keeps the position inside it |
| Media.SeekIdempotent | client/src/components/VideoPlayer.tsx:351 | seeking twice to the same place equals seeking once, and lands in the media |
| Media.LastSeekWins | client/src/components/VideoPlayer.tsx:864 | of consecutive drag seeks, only the last one counts |
| Player.NotYetDue | client/src/components/VideoPlayer.tsx:227 | the message clears still pending are exactly those due after now |
| Player.QuietTickChangesNothing | client/src/components/VideoPlayer.tsx:594-605 | before any deadline, the clock changes nothing |
| Player.ElapseRunsEachCallbackOnce | client/src/components/VideoPlayer.tsx:594-605 | every due callback runs once: a second tick at the same time changes nothing |
| Player.ControlsHideOnlyByTimers | client/src/components/VideoPlayer.tsx:596-600 | controls disappear only through the auto-hide timer with a guard that allows it, or the mobile fullscreen timer armed while not hovering |
| Player.TickSeeksOnlyCapturedTarget | client/src/components/VideoPlayer.tsx:697-707 | the clock moves playback only through a due debounced seek, to the target captured at click time |
| Player.FullscreenTimerHidesWhilePaused | client/src/components/VideoPlayer.tsx:283-287 | the mobile fullscreen timer hides the controls even while paused |
| Player.StaleClearErasesNewerMessage | client/src/components/VideoPlayer.tsx:227 | a pending clear from an earlier transient message also erases a later load-failure message |
| Player.VideoPlayer.constructor | client/src/components/VideoPlayer.tsx:48-66 | the player mounts on the 'auto' URL, loading, paused, with controls visible and no timers |
| Player.VideoPlayer.SetPlaying | client/src/components/VideoPlayer.tsx:575-576 | a change of `isPlaying` clears the auto-hide timer and rebuilds its guard; no change keeps both |
| Player.VideoPlayer.ResumeFromHistory | client/src/components/VideoPlayer.tsx:83-96 | the mount effect seeks to the resume position when there is one and otherwise changes nothing |
| Player.VideoPlayer.OnDurationChange | client/src/components/VideoPlayer.tsx:569-573 | `durationchange` records the duration and nothing else |
| Player.VideoPlayer.Advance | client/src/components/VideoPlayer.tsx:746-751 | the element's own playback moves only the position |
| Player.VideoPlayer.OnPlayEvent | client/src/components/VideoPlayer.tsx:575 | `play` marks the element and the state as playing |
| Player.VideoPlayer.OnPauseEvent | client/src/components/VideoPlayer.tsx:576 | `pause` marks the element and the state as paused |
| Player.VideoPlayer.OnVolumeChangeEvent | client/src/components/VideoPlayer.tsx:577-582 | `volumechange` copies the element's muted flag into the state |
| Player.VideoPlayer.OnTimeUpdate | client/src/components/VideoPlayer.tsx:98-121 | `timeupdate` writes the progress sample when there is one and otherwise leaves the history alone |
| Player.VideoPlayer.OnLoadedData | client/src/components/VideoPlayer.tsx:420-432 | `loadeddata` ends loading and applies the installed restore: back to its position, and playing again if it was playing and play succeeds |
| Player.VideoPlayer.OnCanPlayThrough | client/src/components/VideoPlayer.tsx:755 | `canplaythrough` ends loading |
| Player.VideoPlayer.OnError | client/src/components/VideoPlayer.tsx:128-139 | an error shows the load-failure message, and codes 1 and 2 reload the element with an empty source |
| Player.VideoPlayer.OnProgress | client/src/components/VideoPlayer.tsx:142-151 | with a known positive duration the buffer percentage becomes bufferedEnd/duration × 100; otherwise nothing changes |
| Player.VideoPlayer.OnWaiting | client/src/components/VideoPlayer.tsx:153-157 | `waiting` shows the indicator and replaces the grace timer with one 1000 ms out |
| Player.VideoPlayer.OnPlaying | client/src/components/VideoPlayer.tsx:159-161 | `playing` drops the indicator and leaves the grace timer armed |
| Player.VideoPlayer.TogglePlay | client/src/components/VideoPlayer.tsx:499-513 | playing pauses; paused plays only when the request succeeds, and a failed request changes nothing |
| Player.VideoPlayer.ToggleMute | client/src/components/VideoPlayer.tsx:515-521 | element and state both take the negation of the state's muted flag, and agree afterwards |
| Player.ToggleMuteTwice | client/src/components/VideoPlayer.tsx:515-521 | two presses restore the React state and leave the element muted as the React flag was; the element is restored only when the two flags agreed |
| Player.LevelThenVolumeChange | client/src/components/VideoPlayer.tsx:577-582 | a level set by the range input or the slider, then its `volumechange` event: the element's muted flag never changes, and the React flag ends equal to it |
| Player.MutedFlagsCanDisagree | client/src/components/VideoPlayer.tsx:515-534 | mute then a non-zero level, before the event runs, leaves the element muted while the button shows unmuted |
| Player.VideoPlayer.SetLevel | client/src/components/VideoPlayer.tsx:526-534 | a refused volume changes nothing; an accepted one sets the volume, and muted becomes "level is 0" |
| Player.VideoPlayer.HandleVolumeInput | client/src/components/VideoPlayer.tsx:523-535 | a volume in [0, 1] from the range input is applied exactly, muting exactly at 0 |
| Player.VideoPlayer.VolumeSliderClick | client/src/components/VideoPlayer.tsx:1048-1060 | a slider click applies the clamped slider level |
| Player.VideoPlayer.SeekTo | client/src/components/VideoPlayer.tsx:351 | a handler's seek changes the position by the element's rules and nothing else |
| Player.VideoPlayer.StepVolume | client/src/components/VideoPlayer.tsx:365-383 | ArrowUp or ArrowDown moves the volume one step; up clears muted, down mutes on reaching 0 |
| Player.VideoPlayer.ToggleFullScreen | client/src/components/VideoPlayer.tsx:221-244 | the button prompts rotation, enters or exits; a failed request shows a message that clears after 3000 ms |
| Player.VideoPlayer.HandleKey | client/src/components/VideoPlayer.tsx:321-402 | each decoded key has its command's effect, and an ignored key changes nothing |
| Player.VideoPlayer.ClickProgressBar | client/src/components/VideoPlayer.tsx:684-708 | a click arms the seek 50 ms out with the target computed at click time, replacing any pending one |
| Player.VideoPlayer.DragTo | client/src/components/VideoPlayer.tsx:859-865 | a drag step seeks at once to the clamped drag target |
| Player.ClickOnBar | client/src/components/VideoPlayer.tsx:857-875 | one click seeks at once through the mousedown drag step and also arms the debounced seek; over the track both carry the same position |
| Player.VideoPlayer.HoverBar | client/src/components/VideoPlayer.tsx:825-839 | hovering sets the tooltip while the duration is known and never seeks |
| Player.VideoPlayer.LeaveBar | client/src/components/VideoPlayer.tsx:840 | leaving the bar removes the tooltip |
| Player.VideoPlayer.OnOrientationChange | client/src/components/VideoPlayer.tsx:248-271 | on a phone a successful rotation makes fullscreen follow the orientation; desktops never change |
| Player.VideoPlayer.OnFullscreenChange | client/src/components/VideoPlayer.tsx:273-289 | the state follows the document; entering shows the controls and arms the auto-hide, and on a phone also the hover-checking timer |
| Player.VideoPlayer.ShowTemporarily | client/src/components/VideoPlayer.tsx:607-610 | controls are shown and the auto-hide is re-armed 3000 ms out with the current guard |
| Player.VideoPlayer.MouseMove | client/src/components/VideoPlayer.tsx:615-616 | mouse movement shows the controls temporarily on desktop and does nothing on mobile |
| Player.VideoPlayer.MouseEnter | client/src/components/VideoPlayer.tsx:617-621 | entering the player on desktop shows the controls, marks hovering and cancels the auto-hide |
| Player.VideoPlayer.MouseLeave | client/src/components/VideoPlayer.tsx:622-625 | leaving the player on desktop clears hovering and re-arms the auto-hide |
| Player.VideoPlayer.TouchActivity | client/src/components/VideoPlayer.tsx:629-630 | a touch on the player shows the controls temporarily on any device |
| Player.VideoPlayer.ToggleSettingsMenu | client/src/components/VideoPlayer.tsx:781 | the gear flips the settings menu |
| Player.VideoPlayer.ChangeQuality | client/src/components/VideoPlayer.tsx:452-461 | menus close and the element reloads the chosen rendition; a new choice restarts from 0, paused (autoplay may then start it again, as a separate play event) |
| Player.VideoPlayer.Tick | client/src/components/VideoPlayer.tsx:594-605 | the clock runs exactly the due callbacks |
| Player.VideoPlayer.Unmount | client/src/components/VideoPlayer.tsx:301-316 | unmounting clears the auto-hide, and a phone held upright leaves fullscreen when the exit succeeds |
| Gesture.TouchGesture.Start | client/src/components/VideoPlayer.tsx:876-901 | a touch starts from the current position, pauses a playing element and handles the first touch as a move |
| Gesture.TouchGesture.Move | client/src/components/VideoPlayer.tsx:903-908 | each move measures the velocity since the last applied frame and replaces the pending frame |
| Gesture.TouchGesture.Frame | client/src/components/VideoPlayer.tsx:908-928 | a frame recomputes the preview, seeks to the nudged preview when it is a number, and makes that touch the new reference |
| Gesture.TouchGesture.End | client/src/components/VideoPlayer.tsx:931-957 | release cancels the frame, lands at the release time, and resumes when it was playing and play succeeds, with the isPlaying effect on the hide timer; otherwise state and timers are unchanged |
| Gesture.ReleaseLandsInMedia | client/src/components/VideoPlayer.tsx:931-945 | with a known duration the release lands in the media, in the direction of the last movement |
| Episodes.InsertByNumber | client/src/pages/VideoPlayerPage.tsx:44 | inserting keeps the list ordered by episode number and adds exactly that episode |
| Episodes.SortByNumber | client/src/pages/VideoPlayerPage.tsx:44 | the sorted list is ordered by episode number and is a permutation of the input |
| Episodes.FindIndex | client/src/pages/VideoPlayerPage.tsx:48 | -1 exactly when no episode's id prints as the route id, otherwise the first match |
| Episodes.FindOwnRoute | client/src/pages/VideoPlayerPage.tsx:48 | with distinct ids, each episode's own id string locates it |
| Episodes.LeadingZeroRouteNotFound | client/src/pages/VideoPlayerPage.tsx:48 | a route id with a leading zero locates no episode |
| Episodes.NextEpisode | client/src/pages/VideoPlayerPage.tsx:79-84 | "next" acts exactly when not at the last episode, and then opens the following one |
| Episodes.PreviousEpisode | client/src/pages/VideoPlayerPage.tsx:86-91 | "previous" acts exactly after the first episode, and then opens the preceding one |
| Episodes.NeighboursFollowNumbering | client/src/pages/VideoPlayerPage.tsx:79-91 | neighbours follow the numbering; an unlocated episode sends "next" to the first one and disables "previous" |
| Episodes.NextThenLocate | client/src/pages/VideoPlayerPage.tsx:79-84 | the route "next" writes locates position i + 1 |
| Episodes.WatchPath | client/src/pages/VideoPlayerPage.tsx:82 | the path is "/watch/", the anime id, a "/" and the episode's id, each at its position |
| PlayerPage.ScreenFor | client/src/pages/VideoPlayerPage.tsx:94-124 | skeletons while anything loads, "not found" when either record is missing, the player otherwise |
| PlayerPage.AnimePath | client/src/pages/VideoPlayerPage.tsx:117 | the back link is "/anime/" followed by the route's series id |
| PlayerPage.VideoPlayerPage.constructor | client/src/pages/VideoPlayerPage.tsx:14-18 | the page opens on its route with no episode list and index -1 |
| PlayerPage.VideoPlayerPage.SyncEpisodes | client/src/pages/VideoPlayerPage.tsx:41-51 | afterwards the list is the data sorted by number (`SortByNumber`) and the index is the route's position in it, or -1 (`FindIndex`) |
| PlayerPage.VideoPlayerPage.OnEpisodesLoaded | client/src/pages/VideoPlayerPage.tsx:41-51 | arriving data is sorted and the route's episode located in it |
| PlayerPage.VideoPlayerPage.OnRouteChange | client/src/pages/VideoPlayerPage.tsx:11-15 | new route parameters re-locate the episode once data is present, and keep the old list while it loads |
| PlayerPage.VideoPlayerPage.HandleNextEpisode | client/src/pages/VideoPlayerPage.tsx:79-84 | "next" navigates to the following episode's route when there is one |
| PlayerPage.VideoPlayerPage.HandlePreviousEpisode | client/src/pages/VideoPlayerPage.tsx:86-91 | "previous" navigates to the preceding episode's route when there is one |
| PlayerPage.VideoPlayerPage.RecordVisit | client/src/pages/VideoPlayerPage.tsx:54-77 | the visit stores progress 0 under the route's ids and records the series as recently watched |
| PlayerPage.VideoPlayerPage.BackToAnime | client/src/pages/VideoPlayerPage.tsx:117 | "Back to Anime" navigates to the series page |
| PlayerPage.NextRouteLocatesNext | client/src/pages/VideoPlayerPage.tsx:79-84 | with distinct ids, following "next" and re-locating lands on the next position of the sorted list |
| PlayerPage.SortedIdsDistinct | client/src/pages/VideoPlayerPage.tsx:44 | sorting keeps ids distinct |
| PlayerPage.VisitResetsPlayerProgress | client/src/pages/VideoPlayerPage.tsx:54-66 | opening an episode resets the progress the player saved for it to 0, and a leading-zero route writes under a separate key |
| Navigation.AtMostOneActive | client/src/components/NavBar.tsx:71-83 | at most one link is highlighted, each link's own target highlights it, and Genres is highlighted on every path under "/genre" |
| Navigation.NavBar.constructor | client/src/components/NavBar.tsx:8-11 | the bar mounts with both overlays closed and no shadow |
| Navigation.NavBar.ToggleMobileMenu | client/src/components/NavBar.tsx:13-16 | the menu flips and the search overlay closes, so the two are never open together |
| Navigation.NavBar.ToggleSearchOverlay | client/src/components/NavBar.tsx:18-21 | the overlay flips and the menu closes, so the two are never open together |
| Navigation.NavBar.ChangeLocation | client/src/components/NavBar.tsx:23-26 | a change of location closes both the menu and the overlay; a link to the current location leaves both as they were |
| Navigation.NavBar.OnScroll | client/src/components/NavBar.tsx:28-31 | the shadow shows exactly when the page has scrolled more than 20 pixels |

## Where the code departs from the documented design

The design description of this player promises some behaviour that the code
does not have. The model follows the code in each case:

- Quality switch:
  - The design says a quality switch keeps the position and the playing state.
  - In the code, `load()` runs in the click handler. It rewinds and pauses the
    element before the quality effect captures position and playing state.
  - So the restore re-applies position 0, paused: switching quality restarts
    the episode. The element's `autoPlay` attribute may start playback again
    after the reload; that is a separate `OnPlayEvent`.
- Volume and mute:
  - The design says a non-zero volume never unmutes.
  - On screen, the range input and the vertical slider clear the React muted
    flag for any non-zero level, and ArrowUp always clears it.
  - The audio is not unmuted: only `toggleMute` writes the element's muted
    flag. When the volume really changed, the element's `volumechange`
    listener copies the element's flag back into React state
    (`LevelThenVolumeChange`).
  - Until that event runs, the two flags can disagree
    (`MutedFlagsCanDisagree`). Pressing mute twice then changes the element's
    flag (`ToggleMuteTwice`).
- Errors:
  - The design clears the source on "unsupported" and network errors.
  - The code clears it on error codes 1 (aborted) and 2 (network) only.
- Resume:
  - The design defers the resume seek until the duration is known.
  - The code drops it when the duration is NaN at mount.
- Controls:
  - The design keeps the controls visible while paused or errored, and keeps
    one auto-hide timer.
  - In the code, the mobile fullscreen timer hides the controls while paused.
    Nothing checks the error.
  - The auto-hide guard reads the menu and hover flags of the render that
    last changed `isPlaying`.
  - Exiting fullscreen does not show the controls.
- Progress-bar clicks:
  - The design promises one seek for a burst of clicks within 50 ms.
  - In the code, each click's `mousedown` runs the drag step, which seeks at
    once, before the `click` arms the debounced seek (`Player.ClickOnBar`).
  - So a burst of N clicks reaches the media N + 1 times. Only the debounced
    seek is single (`Timers.BurstFiresLastOnce`).
- Teardown:
  - The design cancels every timer when the player goes away.
  - The code's cleanup clears only the auto-hide `timeout`
    (`Player.VideoPlayer.Unmount`).
  - The seek debounce, the buffering delay, the mobile fullscreen hide and
    the error-clear timers stay armed.
- Touch release:
  - The design bounds the forward extrapolation of a release.
  - The code lands at preview + v/2 (clamped to the media) however fast the
    swipe.

## Left out

- Rendering, styling, the title overlay timer, `initializeSecurity`, the Retry
  button (a page reload) and the header/footer visibility: these are
  presentation or page-level DOM, not player logic.
- The settings menu components, `openQualitySubmenu`/`backToMainMenu` and the
  volume-slider hover flag: the components are not part of this model, and
  the rest only flip display flags.
- Playback speed (`handlePlaybackSpeedChange`, `ratechange`): the speed is
  passed straight to the element and affects no other state.
- The display-only states `currentTime` (a percentage) and `duration`, and the
  icons derived from state: these are display only.
- Event listener registration and removal: handlers are methods the
  environment calls, and events arrive one at a time in the order given.
- Player.VideoPlayer.MouseLeave: models one `mouseleave` listener. In the code,
  each earlier run of the auto-hide effect leaves its anonymous `mouseleave`
  listener attached. Each of those re-arms its own timer with the guard of its
  own run, so one leave can arm several hide timers with stale guards.
- Player.VideoPlayer.StepVolume: steps the element's volume. The code steps the
  React `volume`, which equals it after every handler that changes volume.
- Player.VideoPlayer.ChangeQuality: assumes React commits the new `<source>`
  before `load()` selects a resource, so the element reloads the new URL.
- Player.VideoPlayer.OnError: the error that loading the empty source raises
  next (code 4) is a separate call the environment makes.
- Play and pause requests are asynchronous and may be interrupted. Each outcome
  is a success/failure parameter, and the events they cause are applied at
  once.
- Floating point:
  - Numbers are reals, so the 0.05 volume steps are exact.
  - `NonFinite` stands for NaN and for plus or minus Infinity alike.
    For example, `Div` by zero gives `NonFinite`; JavaScript gives Infinity there.
    The setters treat them alike, since both throw.
  - Labels differ: `FormatTime` renders `NonFinite` as "NaN:NaN", while
    `formatTime(Infinity)` gives "Infinity:NaN". The labels of infinities are
    not modelled.
  - An infinite duration (a live stream) is not modelled.
- Storage:
  - The history in local storage and the cookie helpers are a keyed store with
    overwrite semantics.
  - Recently watched is a map keyed by the series id. Its `genre` field and the
    helpers' size limits and ordering are not part of this model.
- Network queries (series, episode, episode list) and their loading flags are
  inputs of the page.
- A change of the `anime` or `episode` props while the player stays mounted:
  the model creates one player per episode.
- Episodes.SortByNumber: the model does not state that the sort is stable.
  Episodes with equal numbers may come out in any order.
- The navigation bar's `SearchBar` and links are not part of this model.
