/**
 * The shape of one entry of a user's anime list (src/data.ts), reduced to the
 * fields the wrapped views read.
 */
module Anime {
  import opened Wrappers

  /** A studio or a genre: an id and a display name. */
  datatype Named = Named(id: int, name: string)

  /**
   * The catalogue side of an entry. `rank`, `mean`, `numEpisodes` and
   * `averageEpisodeDuration` are `None` when the catalogue leaves them out;
   * `mean` is only ever tested for presence here.
   */
  datatype Node = Node(
    id: int,
    title: string,
    genres: seq<Named>,
    numListUsers: int,
    rank: Option<int>,
    studios: seq<Named>,
    mediaType: string,
    mean: Option<real>,
    numEpisodes: Option<int>,
    averageEpisodeDuration: Option<int>)

  /**
   * The user's side of an entry: the list status ("completed", "dropped", ...),
   * the score (0 when unscored) and the calendar year of `updated_at`.
   */
  datatype ListStatus = ListStatus(status: string, score: int, updatedYear: int)

  /** `AnimeListItem`. */
  datatype AnimeListItem = AnimeListItem(node: Node, listStatus: ListStatus)
}
