/** The records the player receives from the API. */
module Catalog {
  import opened Numbers
  import Rendition

  /** A series, as far as the player uses it. */
  datatype Anime = Anime(id: nat, title: string, thumbnailUrl: Option<string>)

  /** One episode: its id, optional title, number within the series and
      rendition URLs. */
  datatype Episode = Episode(id: nat, title: Option<string>, episodeNumber: int, urls: Rendition.EpisodeUrls)
}
