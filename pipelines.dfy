/**
 * The lists the wrapped view derives from the user's anime list (src/Wrapped.tsx,
 * the body of `Wrapped`): the entries of the evaluated year, the grouped and
 * sorted studio, genre and media-type entries, the watched time, and the lists
 * the score, popularity and rank slides show.
 */
module WrappedPipelines {
  import opened Wrappers
  import opened Anime
  import opened Sequences
  import opened Grouping
  import opened Wrapped

  // The pipelines

  /** `initialFiltered`: the entries updated in the evaluated year that are not music videos. */
  function InitialFiltered(data: seq<AnimeListItem>, year: int): (r: seq<AnimeListItem>)
    ensures forall x :: x in r <==> x in data && x.listStatus.updatedYear == year && x.node.mediaType != "music"
  {
    Filter(Filter(data, FilterUpdatedInYear(year)), FilterNoMusic)
  }

  /** `studioEntriesMostCompletedAnime`. */
  function StudioEntriesMostCompletedAnime(data: seq<AnimeListItem>, year: int): (r: seq<Entry>)
    ensures forall i, j :: 0 <= i < j < |r| ==> |r[i].1| >= |r[j].1| && r[i].0 != r[j].0
    ensures forall e :: e in r <==> e.1 == Members(Filter(InitialFiltered(data, year), FilterCompletedByUser), StudioNames, e.0) && e.1 != []
  {
    EntriesMostFirst(Filter(InitialFiltered(data, year), FilterCompletedByUser), StudioNames)
  }

  /** `studioEntriesMostDroppedAnime`. */
  function StudioEntriesMostDroppedAnime(data: seq<AnimeListItem>, year: int): (r: seq<Entry>)
    ensures forall i, j :: 0 <= i < j < |r| ==> |r[i].1| >= |r[j].1| && r[i].0 != r[j].0
    ensures forall e :: e in r <==> e.1 == Members(Filter(InitialFiltered(data, year), FilterDroppedByUser), StudioNames, e.0) && e.1 != []
  {
    EntriesMostFirst(Filter(InitialFiltered(data, year), FilterDroppedByUser), StudioNames)
  }

  /** `genreEntriesMostCompletedAnime`. */
  function GenreEntriesMostCompletedAnime(data: seq<AnimeListItem>, year: int): (r: seq<Entry>)
    ensures forall i, j :: 0 <= i < j < |r| ==> |r[i].1| >= |r[j].1| && r[i].0 != r[j].0
    ensures forall e :: e in r <==> e.1 == Members(Filter(InitialFiltered(data, year), FilterCompletedByUser), GenreNames, e.0) && e.1 != []
  {
    EntriesMostFirst(Filter(InitialFiltered(data, year), FilterCompletedByUser), GenreNames)
  }

  /** `genreEntriesMostDroppedAnime`. */
  function GenreEntriesMostDroppedAnime(data: seq<AnimeListItem>, year: int): (r: seq<Entry>)
    ensures forall i, j :: 0 <= i < j < |r| ==> |r[i].1| >= |r[j].1| && r[i].0 != r[j].0
    ensures forall e :: e in r <==> e.1 == Members(Filter(InitialFiltered(data, year), FilterDroppedByUser), GenreNames, e.0) && e.1 != []
  {
    EntriesMostFirst(Filter(InitialFiltered(data, year), FilterDroppedByUser), GenreNames)
  }

  /**
   * The group `e` holds only entries of `data` updated in `year`, not music, with
   * the list status `status`, that carry the group's name.
   */
  ghost predicate FiledFrom(e: Entry, data: seq<AnimeListItem>, year: int, status: string,
                            namesOf: AnimeListItem -> seq<string>)
  {
    forall x :: x in e.1 ==>
      x in data && x.listStatus.updatedYear == year && x.node.mediaType != "music" &&
      x.listStatus.status == status && e.0 in namesOf(x)
  }

  /** Every group of the studio and genre slides holds exactly entries of the slide's status. */
  lemma StatusGroupsHoldTheirEntries(data: seq<AnimeListItem>, year: int)
    ensures forall e :: e in StudioEntriesMostCompletedAnime(data, year) ==> FiledFrom(e, data, year, "completed", StudioNames)
    ensures forall e :: e in StudioEntriesMostDroppedAnime(data, year) ==> FiledFrom(e, data, year, "dropped", StudioNames)
    ensures forall e :: e in GenreEntriesMostCompletedAnime(data, year) ==> FiledFrom(e, data, year, "completed", GenreNames)
    ensures forall e :: e in GenreEntriesMostDroppedAnime(data, year) ==> FiledFrom(e, data, year, "dropped", GenreNames)
  {
    StatusGroupsFiled(data, year, FilterCompletedByUser, "completed", StudioNames);
    StatusGroupsFiled(data, year, FilterDroppedByUser, "dropped", StudioNames);
    StatusGroupsFiled(data, year, FilterCompletedByUser, "completed", GenreNames);
    StatusGroupsFiled(data, year, FilterDroppedByUser, "dropped", GenreNames);
  }

  /** Grouping the entries of the year that a status filter keeps files only entries of that status. */
  lemma StatusGroupsFiled(data: seq<AnimeListItem>, year: int, keep: AnimeListItem -> bool, status: string,
                          namesOf: AnimeListItem -> seq<string>)
    requires forall x :: keep(x) <==> x.listStatus.status == status
    ensures forall e :: e in EntriesMostFirst(Filter(InitialFiltered(data, year), keep), namesOf) ==>
      FiledFrom(e, data, year, status, namesOf)
  {
    var items := Filter(InitialFiltered(data, year), keep);
    forall e | e in EntriesMostFirst(items, namesOf)
      ensures FiledFrom(e, data, year, status, namesOf)
    {
      forall x | x in e.1
        ensures x in data && x.listStatus.updatedYear == year && x.node.mediaType != "music" &&
                x.listStatus.status == status && e.0 in namesOf(x)
      {
        MembersNameKey(items, namesOf, e.0, x);
        KeptInYear(data, year, keep, x);
      }
    }
  }

  /** What an entry kept by a filter after `initialFiltered` is known to satisfy. */
  lemma KeptInYear(data: seq<AnimeListItem>, year: int, keep: AnimeListItem -> bool, x: AnimeListItem)
    requires x in Filter(InitialFiltered(data, year), keep)
    ensures x in data && x.listStatus.updatedYear == year && x.node.mediaType != "music" && keep(x)
  {
  }

  /** The scored entries of the evaluated year. */
  function Scored(data: seq<AnimeListItem>, year: int): (r: seq<AnimeListItem>)
    ensures forall x :: x in r <==>
      x in data && x.listStatus.updatedYear == year && x.node.mediaType != "music" && x.listStatus.score != 0
  {
    Filter(InitialFiltered(data, year), FilterWithUserScore)
  }

  /**
   * The genres of the scored entries that hold more than one of them
   * (`genreScoredAnimeEntries.filter(filterAnimeEntriesWithMoreThanXAnime(1))`),
   * in the order the genres were first met.
   */
  function GenreScoredEntriesWithMoreThanOne(data: seq<AnimeListItem>, year: int): (r: seq<Entry>)
    ensures forall e :: e in r <==> e.1 == Members(Scored(data, year), GenreNames, e.0) && |e.1| > 1
  {
    Filter(GroupedEntries(Scored(data, year), GenreNames), FilterAnimeEntriesWithMoreThanXAnime(1))
  }

  /** `initialFiltered.filter(filterCompletedByUser).toSorted(sortByUserScoreHighFirst)`. */
  function CompletedByScore(data: seq<AnimeListItem>, year: int): (r: seq<AnimeListItem>)
    ensures forall x :: x in r <==>
      x in data && x.listStatus.updatedYear == year && x.node.mediaType != "music" && x.listStatus.status == "completed"
    ensures forall i, j :: 0 <= i < j < |r| ==> r[i].listStatus.score >= r[j].listStatus.score
  {
    ToSorted(Filter(InitialFiltered(data, year), FilterCompletedByUser), SortByUserScoreHighFirst, ScoreDescending)
  }

  /** `mediaTypeEntriesMostCompletedAnime`: media-type groups of the completed entries, largest first. */
  function MediaTypeEntriesMostCompletedAnime(data: seq<AnimeListItem>, year: int): (r: seq<Entry>)
    ensures forall i, j :: 0 <= i < j < |r| ==> |r[i].1| >= |r[j].1| && r[i].0 != r[j].0
    ensures forall e :: e in r <==> e.1 == Members(CompletedByScore(data, year), MediaTypeNames, e.0) && e.1 != []
  {
    EntriesMostFirst(CompletedByScore(data, year), MediaTypeNames)
  }

  /**
   * Each media-type group holds completed entries of exactly that media type, and
   * because the entries were sorted before grouping, each lists them from the
   * highest user score down.
   */
  lemma MediaTypeGroupsByScore(data: seq<AnimeListItem>, year: int)
    ensures forall e :: e in MediaTypeEntriesMostCompletedAnime(data, year) ==>
      (forall x :: x in e.1 ==> x.node.mediaType == e.0 && x.listStatus.status == "completed") &&
      (forall a, b :: 0 <= a < b < |e.1| ==> e.1[a].listStatus.score >= e.1[b].listStatus.score)
  {
    forall e | e in MediaTypeEntriesMostCompletedAnime(data, year)
      ensures forall x :: x in e.1 ==> x.node.mediaType == e.0 && x.listStatus.status == "completed"
      ensures forall a, b :: 0 <= a < b < |e.1| ==> e.1[a].listStatus.score >= e.1[b].listStatus.score
    {
      MediaTypeGroup(data, year, e);
    }
  }

  /** One group of `MediaTypeGroupsByScore`. */
  lemma MediaTypeGroup(data: seq<AnimeListItem>, year: int, e: Entry)
    requires e in MediaTypeEntriesMostCompletedAnime(data, year)
    ensures forall x :: x in e.1 ==> x.node.mediaType == e.0 && x.listStatus.status == "completed"
    ensures forall a, b :: 0 <= a < b < |e.1| ==> e.1[a].listStatus.score >= e.1[b].listStatus.score
  {
    var sorted := CompletedByScore(data, year);
    MembersSorted(sorted, MediaTypeNames, e.0, ScoreDescending);
    forall x | x in e.1
      ensures x.node.mediaType == e.0 && x.listStatus.status == "completed"
    {
      MembersNameKey(sorted, MediaTypeNames, e.0, x);
      assert x in multiset(sorted);
    }
  }

  /**
   * JavaScript `+` on the running total: `NaN` (here `None`) on either side gives
   * `NaN`, otherwise the sum.
   */
  function Plus(x: Option<int>, y: Option<int>): (r: Option<int>)
    ensures r.Some? <==> x.Some? && y.Some?
  {
    if x.Some? && y.Some? then Some(x.value + y.value) else None
  }

  /** `anime.node.num_episodes! * anime.node.average_episode_duration!`: `NaN` when either is missing. */
  function EpisodeSeconds(anime: AnimeListItem): (r: Option<int>)
    ensures r.Some? <==> anime.node.numEpisodes.Some? && anime.node.averageEpisodeDuration.Some?
  {
    if anime.node.numEpisodes.Some? && anime.node.averageEpisodeDuration.Some? then
      Some(anime.node.numEpisodes.value * anime.node.averageEpisodeDuration.value)
    else None
  }

  /**
   * `secondsWatched`: the total of episodes times episode length over the entries,
   * summed from 0 left to right; a missing count or length makes the sum `NaN`,
   * modelled as `None`.
   */
  function SecondsWatched(items: seq<AnimeListItem>): (r: Option<int>)
    ensures r.Some? <==> forall x :: x in items ==> x.node.numEpisodes.Some? && x.node.averageEpisodeDuration.Some?
    ensures r.Some? && (forall x :: x in items ==> x.node.numEpisodes.value >= 0 && x.node.averageEpisodeDuration.value >= 0) ==> r.value >= 0
  {
    if items == [] then Some(0)
    else
      var init := items[..|items| - 1];
      var last := items[|items| - 1];
      assert items == init + [last];
      Plus(SecondsWatched(init), EpisodeSeconds(last))
  }

  /** One entry contributes its episodes times its episode length. */
  lemma SecondsWatchedOne(anime: AnimeListItem)
    ensures SecondsWatched([anime]) == EpisodeSeconds(anime)
    ensures SecondsWatched([anime]).Some? ==>
      SecondsWatched([anime]).value == anime.node.numEpisodes.value * anime.node.averageEpisodeDuration.value
  {
    assert [anime][..0] == [];
  }

  /** The total over two lists put together is the sum of their totals. */
  lemma {:induction false} SecondsWatchedAppend(a: seq<AnimeListItem>, b: seq<AnimeListItem>)
    ensures SecondsWatched(a + b) == Plus(SecondsWatched(a), SecondsWatched(b))
  {
    if b == [] {
      assert a + b == a;
    } else {
      var init, last := b[..|b| - 1], b[|b| - 1];
      InitLast(b);
      ConcatAssoc(a, init, [last]);
      SecondsWatchedAppend(a, init);
      SecondsWatchedSnoc(a + init, last);
      SecondsWatchedSnoc(init, last);
      PlusAssoc(SecondsWatched(a), SecondsWatched(init), EpisodeSeconds(last));
    }
  }

  /** Appending one entry adds its episode time to the total. */
  lemma SecondsWatchedSnoc(s: seq<AnimeListItem>, last: AnimeListItem)
    ensures SecondsWatched(s + [last]) == Plus(SecondsWatched(s), EpisodeSeconds(last))
  {
    assert (s + [last])[..|s + [last]| - 1] == s;
  }

  /** `Plus` is associative. */
  lemma PlusAssoc(x: Option<int>, y: Option<int>, z: Option<int>)
    ensures Plus(Plus(x, y), z) == Plus(x, Plus(y, z))
  {
  }

  /** `secondsWatched`: the time spent on the completed entries of the evaluated year. */
  function SecondsWatchedInYear(data: seq<AnimeListItem>, year: int): (r: Option<int>)
    ensures r.Some? <==> forall x ::
      (x in data && x.listStatus.updatedYear == year && x.node.mediaType != "music" &&
       x.listStatus.status == "completed") ==>
        x.node.numEpisodes.Some? && x.node.averageEpisodeDuration.Some?
  {
    SecondsWatched(Filter(InitialFiltered(data, year), FilterCompletedByUser))
  }

  /** The watched time of two lists put together is the sum of their watched times. */
  lemma SecondsWatchedInYearAppend(a: seq<AnimeListItem>, b: seq<AnimeListItem>, year: int)
    ensures SecondsWatchedInYear(a + b, year) == Plus(SecondsWatchedInYear(a, year), SecondsWatchedInYear(b, year))
  {
    var inYear, noMusic := FilterUpdatedInYear(year), FilterNoMusic;
    FilterAppend(a, b, inYear);
    FilterAppend(Filter(a, inYear), Filter(b, inYear), noMusic);
    FilterAppend(InitialFiltered(a, year), InitialFiltered(b, year), FilterCompletedByUser);
    SecondsWatchedAppend(Filter(InitialFiltered(a, year), FilterCompletedByUser),
                         Filter(InitialFiltered(b, year), FilterCompletedByUser));
  }

  /**
   * One entry adds its episodes times its episode length when it was completed in
   * the year and is not music, and 0 otherwise.
   */
  lemma SecondsWatchedInYearOne(anime: AnimeListItem, year: int)
    ensures SecondsWatchedInYear([anime], year) ==
      if anime.listStatus.updatedYear == year && anime.node.mediaType != "music" &&
         anime.listStatus.status == "completed"
      then EpisodeSeconds(anime) else Some(0)
  {
    FilterOne(anime, FilterUpdatedInYear(year));
    FilterOne(anime, FilterNoMusic);
    FilterOne(anime, FilterCompletedByUser);
    assert Filter([], FilterNoMusic) == [];
    assert Filter([], FilterCompletedByUser) == [];
    SecondsWatchedOne(anime);
  }

  // The slides built from the helpers above

  /** An entry of `initialFiltered.filter(filterCompletedByUser)`. */
  predicate CompletedInYear(x: AnimeListItem, data: seq<AnimeListItem>, year: int)
  {
    x in data && x.listStatus.updatedYear == year && x.node.mediaType != "music" && x.listStatus.status == "completed"
  }

  /** The completed, scored entries of the year, which the two "liked" slides sort. */
  function CompletedScored(data: seq<AnimeListItem>, year: int): (r: seq<AnimeListItem>)
    ensures forall x :: x in r <==> CompletedInYear(x, data, year) && x.listStatus.score != 0
  {
    Filter(Filter(InitialFiltered(data, year), FilterCompletedByUser), FilterWithUserScore)
  }

  /** The completed entries of the year with a mean score, which the popularity and rank slides sort. */
  function CompletedWithMean(data: seq<AnimeListItem>, year: int): (r: seq<AnimeListItem>)
    ensures forall x :: x in r <==> CompletedInYear(x, data, year) && x.node.mean.Some?
  {
    Filter(Filter(InitialFiltered(data, year), FilterCompletedByUser), FilterWithMalScore)
  }

  /** The list the hidden-gem slide sorts: completed entries with a mean score, ranked worse than 500. */
  function HiddenGemCandidates(data: seq<AnimeListItem>, year: int): (r: seq<AnimeListItem>)
    ensures forall x :: x in r <==> CompletedInYear(x, data, year) && x.node.mean.Some? && RankOrZero(x) > 500
  {
    Filter(CompletedWithMean(data, year), FilterRankLowerThan(500))
  }

  /** The list the unpopular-opinion slide sorts: completed entries with a mean score, ranked better than 500 or unranked. */
  function UnpopularOpinionCandidates(data: seq<AnimeListItem>, year: int): (r: seq<AnimeListItem>)
    ensures forall x :: x in r <==> CompletedInYear(x, data, year) && x.node.mean.Some? && RankOrZero(x) < 500
  {
    Filter(CompletedWithMean(data, year), FilterRankHigherThan(500))
  }

  /** "Anime you liked most": five completed, scored entries, the best scored first. */
  function LikedMost(data: seq<AnimeListItem>, year: int): (r: seq<AnimeListItem>)
    ensures |r| == if 5 < |CompletedScored(data, year)| then 5 else |CompletedScored(data, year)|
    ensures forall x :: x in r ==> CompletedInYear(x, data, year) && x.listStatus.score != 0
    ensures forall i, j :: 0 <= i < j < |r| ==> r[i].listStatus.score >= r[j].listStatus.score
  {
    SortedSlide(CompletedScored(data, year), SortByUserScoreHighFirst, ScoreDescending, 5);
    MalWrappedSlide(ToSorted(CompletedScored(data, year), SortByUserScoreHighFirst, ScoreDescending), 5)
  }

  /** "Anime you liked least": five completed, scored entries, the worst scored first. */
  function LikedLeast(data: seq<AnimeListItem>, year: int): (r: seq<AnimeListItem>)
    ensures |r| == if 5 < |CompletedScored(data, year)| then 5 else |CompletedScored(data, year)|
    ensures forall x :: x in r ==> CompletedInYear(x, data, year) && x.listStatus.score != 0
    ensures forall i, j :: 0 <= i < j < |r| ==> r[i].listStatus.score <= r[j].listStatus.score
  {
    SortedSlide(CompletedScored(data, year), SortByUserScoreLowFirst, ScoreAscending, 5);
    MalWrappedSlide(ToSorted(CompletedScored(data, year), SortByUserScoreLowFirst, ScoreAscending), 5)
  }

  /** "The most popular Anime you watched": three completed entries with a mean score, most listed first. */
  function MostPopular(data: seq<AnimeListItem>, year: int): (r: seq<AnimeListItem>)
    ensures |r| == if 3 < |CompletedWithMean(data, year)| then 3 else |CompletedWithMean(data, year)|
    ensures forall x :: x in r ==> CompletedInYear(x, data, year) && x.node.mean.Some?
    ensures forall i, j :: 0 <= i < j < |r| ==> r[i].node.numListUsers >= r[j].node.numListUsers
  {
    SortedSlide(CompletedWithMean(data, year), SortByMostListUsers, ListUsersDescending, 3);
    MalWrappedSlide(ToSorted(CompletedWithMean(data, year), SortByMostListUsers, ListUsersDescending))
  }

  /** "The least popular Anime you watched": three completed entries with a mean score, least listed first. */
  function LeastPopular(data: seq<AnimeListItem>, year: int): (r: seq<AnimeListItem>)
    ensures |r| == if 3 < |CompletedWithMean(data, year)| then 3 else |CompletedWithMean(data, year)|
    ensures forall x :: x in r ==> CompletedInYear(x, data, year) && x.node.mean.Some?
    ensures forall i, j :: 0 <= i < j < |r| ==> r[i].node.numListUsers <= r[j].node.numListUsers
  {
    SortedSlide(CompletedWithMean(data, year), SortByLeastListUsers, ListUsersAscending, 3);
    MalWrappedSlide(ToSorted(CompletedWithMean(data, year), SortByLeastListUsers, ListUsersAscending))
  }

  /** "Hidden gem": completed entries ranked worse than 500, the best scored first. */
  function HiddenGem(data: seq<AnimeListItem>, year: int): (r: seq<AnimeListItem>)
    ensures |r| == if 3 < |HiddenGemCandidates(data, year)| then 3 else |HiddenGemCandidates(data, year)|
    ensures forall x :: x in r ==> CompletedInYear(x, data, year) && x.node.mean.Some? && RankOrZero(x) > 500
    ensures forall i, j :: 0 <= i < j < |r| ==> r[i].listStatus.score >= r[j].listStatus.score
  {
    SortedSlide(HiddenGemCandidates(data, year), SortByUserScoreHighFirst, ScoreDescending, 3);
    MalWrappedSlide(ToSorted(HiddenGemCandidates(data, year), SortByUserScoreHighFirst, ScoreDescending))
  }

  /** "Unpopular opinion": completed entries ranked better than 500 (or unranked), the worst scored first. */
  function UnpopularOpinion(data: seq<AnimeListItem>, year: int): (r: seq<AnimeListItem>)
    ensures |r| == if 3 < |UnpopularOpinionCandidates(data, year)| then 3 else |UnpopularOpinionCandidates(data, year)|
    ensures forall x :: x in r ==> CompletedInYear(x, data, year) && x.node.mean.Some? && RankOrZero(x) < 500
    ensures forall i, j :: 0 <= i < j < |r| ==> r[i].listStatus.score <= r[j].listStatus.score
  {
    SortedSlide(UnpopularOpinionCandidates(data, year), SortByUserScoreLowFirst, ScoreAscending, 3);
    MalWrappedSlide(ToSorted(UnpopularOpinionCandidates(data, year), SortByUserScoreLowFirst, ScoreAscending))
  }

  /**
   * The liked-most slide shows at most five completed, scored entries of the year,
   * and every such entry it leaves off scored no higher than each one it shows.
   */
  lemma LikedMostIsTop(data: seq<AnimeListItem>, year: int)
    ensures |LikedMost(data, year)| <= 5
    ensures forall x :: x in LikedMost(data, year) ==>
      (x in data && x.listStatus.updatedYear == year && x.node.mediaType != "music" &&
       x.listStatus.status == "completed" && x.listStatus.score != 0)
    ensures forall x, y ::
      (x in LikedMost(data, year) && y !in LikedMost(data, year) &&
       y in data && y.listStatus.updatedYear == year && y.node.mediaType != "music" &&
       y.listStatus.status == "completed" && y.listStatus.score != 0) ==>
        x.listStatus.score >= y.listStatus.score
  {
    SlideOfSorted(CompletedScored(data, year), SortByUserScoreHighFirst, ScoreDescending, 5);
  }

  /** Every completed, scored entry the liked-least slide leaves off scored no lower than each one it shows. */
  lemma LikedLeastIsBottom(data: seq<AnimeListItem>, year: int)
    ensures forall x, y ::
      (x in LikedLeast(data, year) && y !in LikedLeast(data, year) &&
       CompletedInYear(y, data, year) && y.listStatus.score != 0) ==>
        x.listStatus.score <= y.listStatus.score
  {
    SlideOfSorted(CompletedScored(data, year), SortByUserScoreLowFirst, ScoreAscending, 5);
  }

  /** Every completed entry with a mean score that the most-popular slide leaves off has no more list users than each one it shows. */
  lemma MostPopularIsTop(data: seq<AnimeListItem>, year: int)
    ensures forall x, y ::
      (x in MostPopular(data, year) && y !in MostPopular(data, year) &&
       CompletedInYear(y, data, year) && y.node.mean.Some?) ==>
        x.node.numListUsers >= y.node.numListUsers
  {
    SlideOfSorted(CompletedWithMean(data, year), SortByMostListUsers, ListUsersDescending, 3);
  }

  /** Every completed entry with a mean score that the least-popular slide leaves off has no fewer list users than each one it shows. */
  lemma LeastPopularIsBottom(data: seq<AnimeListItem>, year: int)
    ensures forall x, y ::
      (x in LeastPopular(data, year) && y !in LeastPopular(data, year) &&
       CompletedInYear(y, data, year) && y.node.mean.Some?) ==>
        x.node.numListUsers <= y.node.numListUsers
  {
    SlideOfSorted(CompletedWithMean(data, year), SortByLeastListUsers, ListUsersAscending, 3);
  }

  /**
   * The hidden-gem and unpopular-opinion slides show completed entries with a mean
   * score on opposite sides of rank 500, so no entry appears on both; an unranked
   * entry can only be an unpopular opinion.
   */
  lemma GemAndOpinionApart(data: seq<AnimeListItem>, year: int)
    ensures forall x :: x in HiddenGem(data, year) ==>
      x in data && x.listStatus.status == "completed" && x.node.mean.Some? && RankOrZero(x) > 500
    ensures forall x :: x in UnpopularOpinion(data, year) ==>
      x in data && x.listStatus.status == "completed" && x.node.mean.Some? && RankOrZero(x) < 500
    ensures forall x :: x in HiddenGem(data, year) ==> x !in UnpopularOpinion(data, year) && x.node.rank.Some?
  {
  }
}
