/** The watch-history store and the two places that write it: the page
    when an episode opens (progress 0) and the player while it plays
    (progress sampled on timeupdate). The store is keyed by the pair
    (animeId, episodeId), one entry per episode. */
module WatchHistory {
  import opened Numbers
  import opened Text
  import opened Catalog

  datatype Entry = Entry(
    animeId: string,
    episodeId: string,
    title: Option<string>,
    episodeNumber: int,
    animeThumbnail: Option<string>,
    animeTitle: string,
    progress: real,
    timestamp: int)

  type Key = (string, string)

  type Store = map<Key, Entry>

  function KeyOf(e: Entry): Key {
    (e.animeId, e.episodeId)
  }

  /** Every entry is filed under its own key. */
  predicate WellKeyed(s: Store) {
    forall k :: k in s ==> KeyOf(s[k]) == k
  }

  /** `updateWatchHistory(entry)`: the entry replaces any earlier one for
      the same episode; every other episode's entry is kept. */
  function Put(s: Store, e: Entry): (r: Store)
    ensures KeyOf(e) in r && r[KeyOf(e)] == e
    ensures forall k :: k != KeyOf(e) ==> (k in r <==> k in s) && (k in s ==> r[k] == s[k])
    ensures WellKeyed(s) ==> WellKeyed(r)
  {
    s[KeyOf(e) := e]
  }

  /** Writing twice for the same episode leaves only the later write: no
      episode is ever listed twice. */
  lemma PutOverwrites(s: Store, e1: Entry, e2: Entry)
    requires KeyOf(e1) == KeyOf(e2)
    ensures Put(Put(s, e1), e2) == Put(s, e2)
    ensures |Put(Put(s, e1), e2).Keys| <= |s.Keys| + 1
  {
    var r := Put(s, e2);
    assert r.Keys == s.Keys + {KeyOf(e2)};
  }

  /** The saved progress (percent) of an episode, if any. */
  function SavedProgress(s: Store, animeId: string, episodeId: string): (p: Option<real>)
    ensures p.Some? <==> (animeId, episodeId) in s
    ensures p.Some? ==> p.value == s[(animeId, episodeId)].progress
  {
    if (animeId, episodeId) in s then Some(s[(animeId, episodeId)].progress) else None
  }

  /** `Math.floor(t) % 5 === 0`. JavaScript's remainder can be negative but
      is zero exactly when Dafny's is, so the test agrees for every time. */
  predicate OnSaveBoundary(t: real) {
    t.Floor % 5 == 0
  }

  /** The progress percentage the timeupdate handler records, if it records
      one: both ids must be truthy (non-zero), the duration known and
      positive, and the whole second a multiple of five. */
  function ProgressSample(t: real, duration: Num, animeId: nat, episodeId: nat): (r: Option<real>)
    ensures r.Some? <==> animeId != 0 && episodeId != 0 && duration.Fin? && duration.v > 0.0 && OnSaveBoundary(t)
    ensures r.Some? ==> r.value * duration.v == t * 100.0
    ensures r.Some? && 0.0 <= t <= duration.v ==> 0.0 <= r.value <= 100.0
  {
    if animeId == 0 || episodeId == 0 then None
    else if duration.NonFinite? || duration.v <= 0.0 then None
    else if !OnSaveBoundary(t) then None
    else
      var p := (t / duration.v) * 100.0;
      assert p * duration.v == t * 100.0 by {
        assert (t / duration.v) * duration.v == t;
      }
      assert 0.0 <= t <= duration.v ==> 0.0 <= p <= 100.0 by {
        if 0.0 <= t <= duration.v {
          FractionInUnit(t, duration.v);
        }
      }
      Some(p)
  }

  /** Sampling is not once per five seconds: every timeupdate during the
      whole second [5k, 5k + 1) writes, and none in the four seconds after. */
  lemma SampleWindow(k: int, t: real)
    ensures (5 * k) as real <= t < (5 * k + 1) as real ==> OnSaveBoundary(t)
    ensures (5 * k + 1) as real <= t < (5 * k + 5) as real ==> !OnSaveBoundary(t)
  {
    if (5 * k) as real <= t < (5 * k + 1) as real {
      assert t.Floor == 5 * k;
    }
    if (5 * k + 1) as real <= t < (5 * k + 5) as real {
      assert 5 * k + 1 <= t.Floor < 5 * k + 5;
    }
  }

  /** The entry the player writes: ids as decimal strings, title and
      thumbnail defaulted to "". */
  function PlayerEntry(anime: Anime, episode: Episode, progress: real, now: int): (e: Entry)
    ensures KeyOf(e) == (NatToString(anime.id), NatToString(episode.id))
    ensures e.progress == progress && e.timestamp == now
    ensures e.title.Some? && e.animeThumbnail.Some?
  {
    Entry(NatToString(anime.id), NatToString(episode.id),
          Some(if episode.title.Some? then episode.title.value else ""),
          episode.episodeNumber,
          Some(if anime.thumbnailUrl.Some? then anime.thumbnailUrl.value else ""),
          anime.title, progress, now)
  }

  /** The entry the page writes when an episode opens: ids as they appear in
      the route, progress 0, title and thumbnail passed through. */
  function PageEntry(animeId: string, episodeId: string, anime: Anime, episode: Episode, now: int): (e: Entry)
    ensures KeyOf(e) == (animeId, episodeId)
    ensures e.progress == 0.0 && e.timestamp == now
  {
    Entry(animeId, episodeId, episode.title, episode.episodeNumber, anime.thumbnailUrl, anime.title, 0.0, now)
  }

  /** Resuming on mount: with positive saved progress and a known duration,
      the position `progress * duration / 100`; otherwise no seek (a NaN
      duration drops the resume rather than deferring it). */
  function ResumeTime(saved: Option<real>, duration: Num): (r: Option<real>)
    ensures r.Some? <==> saved.Some? && saved.value > 0.0 && duration.Fin?
    ensures r.Some? ==> r.value * 100.0 == saved.value * duration.v
  {
    if saved.Some? && saved.value > 0.0 && duration.Fin? then Some(saved.value * duration.v / 100.0)
    else None
  }

  /** Resuming from a sample taken at a positive time t of the same media
      returns to t: sampling and resuming are inverse. */
  lemma ResumeReturnsToSample(t: real, duration: real, animeId: nat, episodeId: nat)
    requires 0.0 < t
    requires ProgressSample(t, Fin(duration), animeId, episodeId).Some?
    ensures ResumeTime(ProgressSample(t, Fin(duration), animeId, episodeId), Fin(duration)) == Some(t)
  {
    var p := ProgressSample(t, Fin(duration), animeId, episodeId).value;
    assert p * duration == t * 100.0;
    assert p > 0.0 by {
      if p <= 0.0 { ScaleMonotone(duration, p, 0.0); }
    }
    var r := ResumeTime(Some(p), Fin(duration)).value;
    assert r * 100.0 == p * duration;
  }

  /** A key written by the player is found by its resume lookup, which
      compares `anime.id.toString()` and `episode.id.toString()`. */
  lemma PlayerWriteIsFoundOnResume(s: Store, anime: Anime, episode: Episode, progress: real, now: int)
    ensures SavedProgress(Put(s, PlayerEntry(anime, episode, progress, now)),
                          NatToString(anime.id), NatToString(episode.id)) == Some(progress)
  {
  }
}
