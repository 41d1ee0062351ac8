/** The episode list of the watch page: sorted by episode number, the
    current episode located by the route's id, and the neighbours the
    next/previous buttons lead to. */
module Episodes {
  import opened Numbers
  import opened Text
  import opened Catalog

  predicate SortedByNumber(s: seq<Episode>) {
    forall i, j :: 0 <= i < j < |s| ==> s[i].episodeNumber <= s[j].episodeNumber
  }

  /** Places `e` in front of the first episode numbered at least as high. */
  function InsertByNumber(e: Episode, s: seq<Episode>): (r: seq<Episode>)
    requires SortedByNumber(s)
    ensures SortedByNumber(r)
    ensures multiset(r) == multiset(s) + multiset{e}
    ensures |r| == |s| + 1
    ensures r[0] == e || (s != [] && r[0] == s[0])
    decreases |s|
  {
    if s == [] || e.episodeNumber <= s[0].episodeNumber then
      SortedCons(e, s);
      [e] + s
    else
      var rest := InsertByNumber(e, s[1..]);
      assert s == [s[0]] + s[1..];
      SortedCons(s[0], rest);
      [s[0]] + rest
  }

  /** An episode numbered no higher than the head of a sorted list can go
      in front of it. */
  lemma SortedCons(e: Episode, s: seq<Episode>)
    requires SortedByNumber(s)
    requires s != [] ==> e.episodeNumber <= s[0].episodeNumber
    ensures SortedByNumber([e] + s)
  {
    var r := [e] + s;
    forall i, j | 0 <= i < j < |r| ensures r[i].episodeNumber <= r[j].episodeNumber {
      assert r[j] == s[j - 1];
      if i > 0 {
        assert r[i] == s[i - 1];
      }
    }
  }

  /** `[...allEpisodes].sort((a, b) => a.episode_number - b.episode_number)`:
      ordered by episode number, with exactly the episodes given. */
  function SortByNumber(s: seq<Episode>): (r: seq<Episode>)
    ensures SortedByNumber(r)
    ensures multiset(r) == multiset(s)
    ensures |r| == |s|
    decreases |s|
  {
    if s == [] then []
    else
      assert s == [s[0]] + s[1..];
      InsertByNumber(s[0], SortByNumber(s[1..]))
  }

  /** The route matches an episode when its id prints as the route string. */
  predicate Matches(e: Episode, episodeId: string) {
    NatToString(e.id) == episodeId
  }

  /** `findIndex(ep => ep.id.toString() === episodeId)`: the first matching
      position, or -1 when none matches. */
  function FindIndex(s: seq<Episode>, episodeId: string): (i: int)
    ensures -1 <= i < |s|
    ensures i == -1 <==> forall j :: 0 <= j < |s| ==> !Matches(s[j], episodeId)
    ensures 0 <= i ==> Matches(s[i], episodeId) && forall j :: 0 <= j < i ==> !Matches(s[j], episodeId)
    decreases |s|
  {
    if s == [] then -1
    else if Matches(s[0], episodeId) then 0
    else
      var k := FindIndex(s[1..], episodeId);
      assert forall j :: 1 <= j < |s| ==> s[j] == s[1..][j - 1];
      if k == -1 then -1 else k + 1
  }

  /** With distinct ids, the route of an episode finds that very episode. */
  lemma FindOwnRoute(s: seq<Episode>, k: int)
    requires 0 <= k < |s|
    requires forall i, j :: 0 <= i < j < |s| ==> s[i].id != s[j].id
    ensures FindIndex(s, NatToString(s[k].id)) == k
  {
    var i := FindIndex(s, NatToString(s[k].id));
    if i != k {
      assert 0 <= i < k;
      NatToStringInjective(s[i].id, s[k].id);
    }
  }

  /** A route id with a leading zero ("07") is never found: ids print
      without one. */
  lemma LeadingZeroRouteNotFound(s: seq<Episode>, episodeId: string)
    requires 1 < |episodeId| && episodeId[0] == '0'
    ensures FindIndex(s, episodeId) == -1
  {
    forall j | 0 <= j < |s| ensures !Matches(s[j], episodeId) {
      NoLeadingZero(s[j].id);
    }
  }

  /** `currentEpisodeIndex < episodes.length - 1`. */
  predicate HasNext(s: seq<Episode>, i: int) {
    i < |s| - 1
  }

  /** `currentEpisodeIndex > 0`. */
  predicate HasPrevious(i: int) {
    i > 0
  }

  /** The episode the next button opens, if the button acts. */
  function NextEpisode(s: seq<Episode>, i: int): (r: Option<Episode>)
    requires -1 <= i < |s|
    ensures r.Some? <==> HasNext(s, i)
    ensures r.Some? ==> r.value == s[i + 1]
  {
    if HasNext(s, i) then Some(s[i + 1]) else None
  }

  /** The episode the previous button opens, if the button acts. */
  function PreviousEpisode(s: seq<Episode>, i: int): (r: Option<Episode>)
    requires -1 <= i < |s|
    ensures r.Some? <==> HasPrevious(i)
    ensures r.Some? ==> r.value == s[i - 1]
  {
    if HasPrevious(i) then Some(s[i - 1]) else None
  }

  /** In a sorted list the next episode's number is not lower and the
      previous one's not higher; and when the current episode is not in the
      list, "next" opens the first episode while "previous" does nothing. */
  lemma NeighboursFollowNumbering(s: seq<Episode>, i: int)
    requires -1 <= i < |s| && SortedByNumber(s)
    ensures 0 <= i && NextEpisode(s, i).Some? ==> s[i].episodeNumber <= NextEpisode(s, i).value.episodeNumber
    ensures PreviousEpisode(s, i).Some? ==> PreviousEpisode(s, i).value.episodeNumber <= s[i].episodeNumber
    ensures i == -1 && s != [] ==> NextEpisode(s, i) == Some(s[0]) && PreviousEpisode(s, i) == None
  {
  }

  /** Moving next from episode i and then locating the new route finds
      position i + 1 (ids distinct), so repeated "next" walks the list in
      order. */
  lemma NextThenLocate(s: seq<Episode>, i: int)
    requires -1 <= i < |s| && HasNext(s, i)
    requires forall a, b :: 0 <= a < b < |s| ==> s[a].id != s[b].id
    ensures FindIndex(s, NatToString(NextEpisode(s, i).value.id)) == i + 1
  {
    FindOwnRoute(s, i + 1);
  }

  /** `/watch/${animeId}/${ep.id}`. */
  function WatchPath(animeId: string, episodeId: nat): (p: string)
    ensures StartsWith(p, "/watch/")
    ensures |p| == 8 + |animeId| + |NatToString(episodeId)|
    ensures p[7..7 + |animeId|] == animeId && p[7 + |animeId|] == '/'
    ensures p[8 + |animeId|..] == NatToString(episodeId)
  {
    "/watch/" + animeId + "/" + NatToString(episodeId)
  }
}
