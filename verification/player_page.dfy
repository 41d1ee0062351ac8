/** The watch page `/watch/:animeId/:episodeId`: it keeps the sorted
    episode list of the series and the current episode's position in it,
    records the visit in the watch history, and navigates to neighbouring
    episodes or back to the series page. */
module PlayerPage {
  import opened Numbers
  import opened Text
  import opened Catalog
  import opened Episodes
  import opened WatchHistory

  /** What the page shows. */
  datatype Screen = Loading | NotFound | Watch(anime: Anime, episode: Episode)

  /** The page's three renderings: skeletons while either the series or the
      episode is loading, "Video not found" when either is missing once
      loading is over, and the player otherwise. */
  function ScreenFor(loadingAnime: bool, loadingEpisode: bool, anime: Option<Anime>, episode: Option<Episode>): (r: Screen)
    ensures r == Loading <==> loadingAnime || loadingEpisode
    ensures r == NotFound <==> !loadingAnime && !loadingEpisode && (anime.None? || episode.None?)
    ensures r.Watch? ==> anime == Some(r.anime) && episode == Some(r.episode)
  {
    if loadingAnime || loadingEpisode then Loading
    else if anime.None? || episode.None? then NotFound
    else Watch(anime.value, episode.value)
  }

  /** `/anime/${animeId}`. */
  function AnimePath(animeId: string): (p: string)
    ensures StartsWith(p, "/anime/") && p[7..] == animeId
  {
    "/anime/" + animeId
  }

  /** A recently-watched series record, keyed by the series' id. */
  datatype RecentAnime = RecentAnime(id: string, title: string, thumbnailUrl: Option<string>, timestamp: int)

  /** The list and index the page derives from the episode data and the
      route: the data sorted by number, and the route's position in it. */
  ghost predicate InSync(all: seq<Episode>, episodeId: string, episodes: seq<Episode>, index: int) {
    episodes == SortByNumber(all) && index == FindIndex(episodes, episodeId)
  }

  class VideoPlayerPage {
    /** The route parameters, "" when absent. */
    var animeId: string
    var episodeId: string
    /** The all-episodes query's data for `animeId`, once it has arrived. */
    var allEpisodes: Option<seq<Episode>>
    var episodes: seq<Episode>
    var currentEpisodeIndex: int
    /** The location the router shows. */
    var location: string
    /** The stored watch history. */
    var history: Store
    /** The stored recently-watched series. */
    var recent: map<string, RecentAnime>

    /** The index is -1 or a position in the list; once the episode data is
        in, the list is that data sorted and the index locates the route's
        episode in it. */
    ghost predicate Valid()
      reads this
    {
      -1 <= currentEpisodeIndex < |episodes|
      && (allEpisodes.Some? ==>
            InSync(allEpisodes.value, episodeId, episodes, currentEpisodeIndex))
    }

    /** The page opens on a route: no episode list yet, index -1. */
    constructor(animeId: string, episodeId: string, history: Store, recent: map<string, RecentAnime>)
      ensures Valid()
      ensures this.animeId == animeId && this.episodeId == episodeId
      ensures this.history == history && this.recent == recent
      ensures allEpisodes == None && episodes == [] && currentEpisodeIndex == -1
      ensures location == "/watch/" + animeId + "/" + episodeId
    {
      this.animeId := animeId;
      this.episodeId := episodeId;
      this.history := history;
      this.recent := recent;
      allEpisodes := None;
      episodes := [];
      currentEpisodeIndex := -1;
      location := "/watch/" + animeId + "/" + episodeId;
    }

    /** The effect on `[allEpisodes, episodeId]`, run when the data is in:
        sort by episode number and locate the route's episode. */
    method SyncEpisodes()
      requires allEpisodes.Some?
      modifies this
      ensures Valid()
      ensures animeId == old(animeId) && episodeId == old(episodeId) && allEpisodes == old(allEpisodes)
      ensures location == old(location) && history == old(history) && recent == old(recent)
    {
      episodes := SortByNumber(allEpisodes.value);
      currentEpisodeIndex := FindIndex(episodes, episodeId);
    }

    /** The all-episodes query delivers `all`. */
    method OnEpisodesLoaded(all: seq<Episode>)
      requires Valid()
      modifies this
      ensures Valid()
      ensures allEpisodes == Some(all)
      ensures SortedByNumber(episodes) && multiset(episodes) == multiset(all)
      ensures currentEpisodeIndex == -1 <==> forall j :: 0 <= j < |episodes| ==> !Matches(episodes[j], episodeId)
      ensures 0 <= currentEpisodeIndex ==> Matches(episodes[currentEpisodeIndex], episodeId)
      ensures animeId == old(animeId) && episodeId == old(episodeId)
      ensures location == old(location) && history == old(history) && recent == old(recent)
    {
      allEpisodes := Some(all);
      SyncEpisodes();
    }

    /** The router re-renders the page for the current location with new
        parameters; `data` is what the all-episodes query holds for the new
        series (`None` while it loads). Until data arrives the previous
        list and index stay as they were. */
    method OnRouteChange(newAnimeId: string, newEpisodeId: string, data: Option<seq<Episode>>)
      requires Valid()
      modifies this
      ensures Valid()
      ensures animeId == newAnimeId && episodeId == newEpisodeId && allEpisodes == data
      ensures data.None? ==> episodes == old(episodes) && currentEpisodeIndex == old(currentEpisodeIndex)
      ensures data.Some? ==> episodes == SortByNumber(data.value)
                             && currentEpisodeIndex == FindIndex(episodes, newEpisodeId)
      ensures location == old(location) && history == old(history) && recent == old(recent)
    {
      animeId := newAnimeId;
      episodeId := newEpisodeId;
      allEpisodes := data;
      if data.Some? {
        SyncEpisodes();
      }
    }

    /** `handleNextEpisode`: go to the episode after the current one, if
        there is one; before the current episode is located (index -1)
        that is the first episode. */
    method HandleNextEpisode()
      requires Valid()
      modifies this
      ensures Valid()
      ensures match NextEpisode(old(episodes), old(currentEpisodeIndex))
              case Some(next) => location == WatchPath(animeId, next.id)
              case None => location == old(location)
      ensures animeId == old(animeId) && episodeId == old(episodeId) && allEpisodes == old(allEpisodes)
      ensures episodes == old(episodes) && currentEpisodeIndex == old(currentEpisodeIndex)
      ensures history == old(history) && recent == old(recent)
    {
      if currentEpisodeIndex < |episodes| - 1 {
        location := WatchPath(animeId, episodes[currentEpisodeIndex + 1].id);
      }
    }

    /** `handlePreviousEpisode`: go to the episode before the current one,
        if there is one. */
    method HandlePreviousEpisode()
      requires Valid()
      modifies this
      ensures Valid()
      ensures match PreviousEpisode(old(episodes), old(currentEpisodeIndex))
              case Some(prev) => location == WatchPath(animeId, prev.id)
              case None => location == old(location)
      ensures animeId == old(animeId) && episodeId == old(episodeId) && allEpisodes == old(allEpisodes)
      ensures episodes == old(episodes) && currentEpisodeIndex == old(currentEpisodeIndex)
      ensures history == old(history) && recent == old(recent)
    {
      if currentEpisodeIndex > 0 {
        location := WatchPath(animeId, episodes[currentEpisodeIndex - 1].id);
      }
    }

    /** The effect run once both the series and the episode are loaded: the
        visit is stored under the route's ids with progress 0, replacing any
        progress saved for that episode, and the series is recorded as
        recently watched under its own id. */
    method RecordVisit(anime: Anime, episode: Episode, now: int)
      requires Valid()
      modifies this
      ensures Valid()
      ensures history == Put(old(history), PageEntry(animeId, episodeId, anime, episode, now))
      ensures SavedProgress(history, animeId, episodeId) == Some(0.0)
      ensures forall k :: k != (animeId, episodeId) ==> (k in history <==> k in old(history))
      ensures recent == old(recent)[NatToString(anime.id) := RecentAnime(NatToString(anime.id), anime.title, anime.thumbnailUrl, now)]
      ensures animeId == old(animeId) && episodeId == old(episodeId) && allEpisodes == old(allEpisodes)
      ensures episodes == old(episodes) && currentEpisodeIndex == old(currentEpisodeIndex)
      ensures location == old(location)
    {
      history := Put(history, PageEntry(animeId, episodeId, anime, episode, now));
      var key := NatToString(anime.id);
      recent := recent[key := RecentAnime(key, anime.title, anime.thumbnailUrl, now)];
    }

    /** "Back to Anime" on the not-found screen. */
    method BackToAnime()
      requires Valid()
      modifies this
      ensures Valid()
      ensures location == AnimePath(animeId)
      ensures animeId == old(animeId) && episodeId == old(episodeId) && allEpisodes == old(allEpisodes)
      ensures episodes == old(episodes) && currentEpisodeIndex == old(currentEpisodeIndex)
      ensures history == old(history) && recent == old(recent)
    {
      location := AnimePath(animeId);
    }
  }

  /** Following "next" and letting the router show the new route finds the
      next position in the sorted list, when the series' episode ids are
      distinct: the route written by "next" names exactly that episode. */
  lemma NextRouteLocatesNext(animeId: string, all: seq<Episode>, i: int)
    requires forall a, b :: 0 <= a < b < |all| ==> all[a].id != all[b].id
    requires -1 <= i < |all| && HasNext(SortByNumber(all), i)
    ensures var next := NextEpisode(SortByNumber(all), i).value;
            WatchPath(animeId, next.id)[8 + |animeId|..] == NatToString(next.id)
            && FindIndex(SortByNumber(all), NatToString(next.id)) == i + 1
  {
    var s := SortByNumber(all);
    forall a, b | 0 <= a < b < |s| ensures s[a].id != s[b].id {
      SortedIdsDistinct(all, s, a, b);
    }
    NextThenLocate(s, i);
  }

  /** Two positions of a permutation of a list with distinct ids hold
      different ids. */
  lemma SortedIdsDistinct(all: seq<Episode>, s: seq<Episode>, a: int, b: int)
    requires forall x, y :: 0 <= x < y < |all| ==> all[x].id != all[y].id
    requires multiset(s) == multiset(all)
    requires 0 <= a < b < |s|
    ensures s[a].id != s[b].id
  {
    assert s[a] in multiset(all) && s[b] in multiset(all);
    var x :| 0 <= x < |all| && all[x] == s[a];
    var y :| 0 <= y < |all| && all[y] == s[b];
    CountAtMostOne(all, x);
    if s[a].id == s[b].id {
      assert x == y;
      // then s[a] == s[b] occurs twice in s, but only once in all
      CountTwo(s, a, b);
      assert false;
    }
  }

  /** Two equal entries at distinct positions count twice. */
  lemma {:induction false} CountTwo(s: seq<Episode>, a: int, b: int)
    requires 0 <= a < b < |s| && s[a] == s[b]
    ensures multiset(s)[s[a]] >= 2
  {
    var e := s[a];
    assert s == s[..a] + [e] + s[a + 1..b] + [e] + s[b + 1..];
    assert multiset(s) == multiset(s[..a]) + multiset{e} + multiset(s[a + 1..b]) + multiset{e} + multiset(s[b + 1..]);
  }

  /** In a list with distinct ids, the entry at x occurs once. */
  lemma CountAtMostOne(all: seq<Episode>, x: int)
    requires forall p, q :: 0 <= p < q < |all| ==> all[p].id != all[q].id
    requires 0 <= x < |all|
    ensures multiset(all)[all[x]] <= 1
  {
    var e := all[x];
    assert all == all[..x] + [e] + all[x + 1..];
    assert e !in multiset(all[..x]) && e !in multiset(all[x + 1..]);
    assert multiset(all) == multiset(all[..x]) + multiset{e} + multiset(all[x + 1..]);
  }

  /** Opening an episode whose route ids are the ids' decimal forms resets
      the progress the player saved for it: the page and the player write
      under the same key, and the page writes 0. A route id with a leading
      zero writes under a different key than the player. */
  lemma VisitResetsPlayerProgress(s: Store, anime: Anime, episode: Episode, p: real, t1: int, t2: int)
    ensures var afterPlayer := Put(s, PlayerEntry(anime, episode, p, t1));
            var afterPage := Put(afterPlayer, PageEntry(NatToString(anime.id), NatToString(episode.id), anime, episode, t2));
            SavedProgress(afterPage, NatToString(anime.id), NatToString(episode.id)) == Some(0.0)
    ensures forall r :: 1 < |r| && r[0] == '0' ==> KeyOf(PageEntry(NatToString(anime.id), r, anime, episode, t2)) != KeyOf(PlayerEntry(anime, episode, p, t1))
  {
    forall r | 1 < |r| && r[0] == '0'
      ensures KeyOf(PageEntry(NatToString(anime.id), r, anime, episode, t2)) != KeyOf(PlayerEntry(anime, episode, p, t1))
    {
      if NatToString(episode.id) == r {
        NoLeadingZero(episode.id);
      }
    }
  }
}
