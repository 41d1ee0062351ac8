/** Rendition resolution: which URL the player's <source> element gets for
    the selected quality, and which qualities the settings menu offers. */
module Rendition {
  import opened Numbers

  datatype Quality = Auto | P1080 | P720 | P480 | P360 | P240 | P144

  /** The optional URL fields of an episode (`video_url_max_quality`,
      `video_url_1080p`, `video_url_720p`, `video_url_480p`). */
  datatype EpisodeUrls = EpisodeUrls(
    maxQuality: Option<string>,
    p1080: Option<string>,
    p720: Option<string>,
    p480: Option<string>)

  /** JavaScript truthiness of a `string | undefined`: defined and non-empty. */
  predicate Present(u: Option<string>) {
    u.Some? && u.value != ""
  }

  /** `u || fallback`. */
  function OrElse(u: Option<string>, fallback: string): (r: string)
    ensures Present(u) ==> r == u.value
    ensures !Present(u) ==> r == fallback
    ensures r == "" <==> !Present(u) && fallback == ""
  {
    if Present(u) then u.value else fallback
  }

  /** The four fields in the priority order 'auto' tries them. */
  function Priority(e: EpisodeUrls): seq<Option<string>> {
    [e.maxQuality, e.p1080, e.p720, e.p480]
  }

  /** Independent reference: the first present URL of a list, or "". */
  function FirstPresent(us: seq<Option<string>>): string
    decreases |us|
  {
    if us == [] then "" else if Present(us[0]) then us[0].value else FirstPresent(us[1..])
  }

  /** The URL field a named quality reads, if it has one. */
  function FieldOf(e: EpisodeUrls, q: Quality): Option<string> {
    match q
    case Auto => e.maxQuality
    case P1080 => e.p1080
    case P720 => e.p720
    case P480 => e.p480
    case _ => None
  }

  /** `getVideoUrl()`: 'auto' takes the first present URL by priority; 1080p,
      720p and 480p take their own URL when present; anything else falls back
      to the max-quality URL, or "" when that is absent too. */
  function GetVideoUrl(e: EpisodeUrls, q: Quality): string {
    if q == Auto then
      OrElse(e.maxQuality, OrElse(e.p1080, OrElse(e.p720, OrElse(e.p480, ""))))
    else if q == P1080 && Present(e.p1080) then e.p1080.value
    else if q == P720 && Present(e.p720) then e.p720.value
    else if q == P480 && Present(e.p480) then e.p480.value
    else OrElse(e.maxQuality, "")
  }

  /** 'auto' is the first present URL among max quality, 1080p, 720p, 480p. */
  lemma AutoIsFirstPresent(e: EpisodeUrls)
    ensures GetVideoUrl(e, Auto) == FirstPresent(Priority(e))
  {
    assert FirstPresent([]) == "";
    assert FirstPresent([e.p480]) == OrElse(e.p480, "") by {
      assert [e.p480][1..] == [];
    }
    assert FirstPresent([e.p720, e.p480]) == OrElse(e.p720, OrElse(e.p480, "")) by {
      assert [e.p720, e.p480][1..] == [e.p480];
    }
    assert FirstPresent([e.p1080, e.p720, e.p480])
        == OrElse(e.p1080, OrElse(e.p720, OrElse(e.p480, ""))) by {
      assert [e.p1080, e.p720, e.p480][1..] == [e.p720, e.p480];
    }
    assert Priority(e)[1..] == [e.p1080, e.p720, e.p480];
  }

  /** 'auto' resolves to "" exactly when none of the four URLs is present. */
  lemma AutoEmptyIff(e: EpisodeUrls)
    ensures GetVideoUrl(e, Auto) == ""
            <==> !Present(e.maxQuality) && !Present(e.p1080) && !Present(e.p720) && !Present(e.p480)
  {
  }

  /** A named quality whose URL is present plays exactly that URL. */
  lemma NamedQualityExact(e: EpisodeUrls, q: Quality)
    requires q in {P1080, P720, P480} && Present(FieldOf(e, q))
    ensures GetVideoUrl(e, q) == FieldOf(e, q).value
  {
  }

  /** Every other non-auto selection (360p, 240p, 144p, or a named quality
      whose URL is missing) falls back to the max-quality URL or "". */
  lemma FallbackToMaxQuality(e: EpisodeUrls, q: Quality)
    requires q != Auto && !(q in {P1080, P720, P480} && Present(FieldOf(e, q)))
    ensures GetVideoUrl(e, q) == OrElse(e.maxQuality, "")
  {
  }

  /** Whatever is selected, the resolved URL is "" or one of the episode's
      present URLs: resolution never invents a URL. */
  lemma ResolvedUrlIsEpisodeUrl(e: EpisodeUrls, q: Quality)
    ensures var r := GetVideoUrl(e, q);
            r == "" || exists u :: u in Priority(e) && Present(u) && u.value == r
  {
    var r := GetVideoUrl(e, q);
    if r != "" {
      var us := Priority(e);
      if Present(e.maxQuality) && r == e.maxQuality.value { assert us[0] == e.maxQuality; }
      else if Present(e.p1080) && r == e.p1080.value { assert us[1] == e.p1080; }
      else if Present(e.p720) && r == e.p720.value { assert us[2] == e.p720; }
      else { assert us[3] == e.p480; }
    }
  }

  /** One entry of the quality menu. */
  datatype Choice = Choice(quality: Quality, url: string)

  function KeepPresent(q: Quality, u: Option<string>): seq<Choice> {
    if Present(u) then [Choice(q, u.value)] else []
  }

  /** `availableQualities`: auto (max-quality URL), 1080p, 720p, 480p, in
      that order, keeping only those whose URL is present. */
  function AvailableQualities(e: EpisodeUrls): (cs: seq<Choice>)
    ensures |cs| <= 4
    ensures forall c :: c in cs ==> c.quality in {Auto, P1080, P720, P480}
  {
    KeepPresent(Auto, e.maxQuality) + KeepPresent(P1080, e.p1080)
    + KeepPresent(P720, e.p720) + KeepPresent(P480, e.p480)
  }

  /** A quality is offered exactly when its field is present, and then with
      that field's URL. In particular 'auto' is offered only when the
      max-quality URL is present. */
  lemma OfferedIff(e: EpisodeUrls, q: Quality)
    requires q in {Auto, P1080, P720, P480}
    ensures (exists c :: c in AvailableQualities(e) && c.quality == q) <==> Present(FieldOf(e, q))
    ensures forall c :: c in AvailableQualities(e) && c.quality == q ==> c.url == FieldOf(e, q).value
  {
    var cs := AvailableQualities(e);
    if Present(FieldOf(e, q)) {
      assert Choice(q, FieldOf(e, q).value) in cs;
    }
  }

  /** Choosing an offered entry plays that entry's URL: the menu and
      `getVideoUrl` agree. */
  lemma OfferedChoicePlaysItsUrl(e: EpisodeUrls, c: Choice)
    requires c in AvailableQualities(e)
    ensures GetVideoUrl(e, c.quality) == c.url
  {
    OfferedIff(e, c.quality);
  }
}
