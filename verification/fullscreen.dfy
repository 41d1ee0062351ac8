/** Fullscreen policy of the player: orientation detection, what the
    fullscreen button asks for, and how mobile devices follow rotation. */
module Fullscreen {
  import opened Numbers
  import opened Text

  /** `isLandscapeMode()`: the Screen Orientation type mentions "landscape",
      or the legacy `window.orientation` angle is 90 or -90. Either source
      may be missing; with neither signal the device counts as upright. */
  function IsLandscape(orientationType: Option<string>, windowOrientation: Option<int>): (b: bool)
    ensures windowOrientation == Some(90) || windowOrientation == Some(-90) ==> b
    ensures orientationType.Some? && Contains(orientationType.value, "landscape") ==> b
    ensures b ==> (orientationType.Some? && Contains(orientationType.value, "landscape"))
                  || windowOrientation == Some(90) || windowOrientation == Some(-90)
  {
    (orientationType.Some? && Contains(orientationType.value, "landscape"))
    || (windowOrientation.Some? && Abs(windowOrientation.value as real) == 90.0)
  }

  /** The standard orientation types read as expected: every type beginning
      with "landscape" (landscape-primary, landscape-secondary) is landscape
      whatever the angle says, and a "portrait" type whose suffix has no 'l'
      (portrait-primary, portrait-secondary) is not, unless the legacy angle
      is a quarter turn. */
  lemma StandardOrientations(suffix: string, angle: Option<int>)
    ensures IsLandscape(Some("landscape" + suffix), angle)
    ensures
      var noL := forall i :: 0 <= i < |suffix| ==> suffix[i] != 'l';
      var upright := angle.None? || angle.value % 180 == 0;
      noL && upright ==> !IsLandscape(Some("portrait" + suffix), angle)
  {
    assert ("landscape" + suffix)[0..9] == "landscape";
    assert OccursAt("landscape" + suffix, "landscape", 0);
    if forall i :: 0 <= i < |suffix| ==> suffix[i] != 'l' {
      var s := "portrait" + suffix;
      forall i | 0 <= i < |s| ensures s[i] != 'l' {
        if i >= 8 {
          assert s[i] == suffix[i - 8];
        }
      }
      NoLandscapeWithoutL(s);
    }
  }

  /** A string without the letter 'l' does not contain "landscape". */
  lemma NoLandscapeWithoutL(s: string)
    requires forall i :: 0 <= i < |s| ==> s[i] != 'l'
    ensures !Contains(s, "landscape")
  {
    forall i | 0 <= i <= |s| - 9 ensures !OccursAt(s, "landscape", i) {
      assert s[i..i + 9][0] == s[i];
    }
  }

  /** What the fullscreen button does. */
  datatype Request = PromptRotate | Enter | Exit

  /** `toggleFullScreen()`: out of fullscreen, a phone held upright is asked
      to rotate instead; otherwise the button enters or exits. */
  function ToggleRequest(isMobile: bool, landscape: bool, fullscreen: bool): (r: Request)
    ensures r == PromptRotate <==> isMobile && !landscape && !fullscreen
    ensures r == Exit <==> fullscreen
    ensures r == Enter <==> !fullscreen && (!isMobile || landscape)
  {
    if !fullscreen then (if isMobile && !landscape then PromptRotate else Enter) else Exit
  }

  /** What a rotation does. */
  datatype Reaction = Stay | AutoEnter | AutoExit

  /** The orientation handler: only on mobile, enter fullscreen when turned
      to landscape and exit when turned to portrait. */
  function OrientationReaction(isMobile: bool, landscape: bool, fullscreen: bool): (r: Reaction)
    ensures !isMobile ==> r == Stay
    ensures r == AutoEnter <==> isMobile && landscape && !fullscreen
    ensures r == AutoExit <==> isMobile && !landscape && fullscreen
  {
    if !isMobile then Stay
    else if landscape then (if !fullscreen then AutoEnter else Stay)
    else if fullscreen then AutoExit else Stay
  }

  /** The fullscreen state after a reaction; a failed request changes
      nothing (its error is swallowed). */
  function AfterReaction(r: Reaction, fullscreen: bool, ok: bool): bool {
    match r
    case Stay => fullscreen
    case AutoEnter => if ok then true else fullscreen
    case AutoExit => if ok then false else fullscreen
  }

  /** On a phone, a successful rotation leaves fullscreen exactly when the
      device is in landscape; a second event for the same orientation does
      nothing. */
  lemma RotationSyncsFullscreen(landscape: bool, fullscreen: bool)
    ensures AfterReaction(OrientationReaction(true, landscape, fullscreen), fullscreen, true) == landscape
    ensures OrientationReaction(true, landscape, landscape) == Stay
  {
  }

  /** Unmounting exits fullscreen only on a phone held upright. */
  predicate ExitOnUnmount(isMobile: bool, landscape: bool, fullscreen: bool) {
    fullscreen && isMobile && !landscape
  }
}
