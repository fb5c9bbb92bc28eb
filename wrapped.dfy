/**
 * The list logic of the wrapped view (src/Wrapped.tsx): the entry filters, the
 * integer comparators, the rule that picks the year to evaluate, the grouped
 * pipelines built from them and the slice each slide shows.
 */
module Wrapped {
  import opened Anime
  import opened Sequences
  import opened Grouping

  // Filters

  /** `filterCompletedByUser`. */
  predicate FilterCompletedByUser(anime: AnimeListItem): (r: bool)
    ensures r <==> anime.listStatus.status == "completed"
    ensures r ==> !FilterDroppedByUser(anime)
  {
    anime.listStatus.status == "completed"
  }

  /** `filterDroppedByUser`. */
  predicate FilterDroppedByUser(anime: AnimeListItem): (r: bool)
    ensures r <==> anime.listStatus.status == "dropped"
  {
    anime.listStatus.status == "dropped"
  }

  /** `filterUpdatedInYear(year)`: the entries last updated in `year`. */
  function FilterUpdatedInYear(year: int): (keep: AnimeListItem -> bool)
    ensures forall anime :: keep(anime) <==> anime.listStatus.updatedYear == year
  {
    (anime: AnimeListItem) => anime.listStatus.updatedYear == year
  }

  /** `filterWithUserScore`: a score of 0 means the user gave none. */
  predicate FilterWithUserScore(anime: AnimeListItem): (r: bool)
    ensures r <==> anime.listStatus.score != 0
  {
    anime.listStatus.score != 0
  }

  /** `filterWithMalScore`: the catalogue has a mean score. */
  predicate FilterWithMalScore(anime: AnimeListItem): (r: bool)
    ensures r <==> anime.node.mean.Some?
  {
    anime.node.mean.Some?
  }

  /** `filterNoMusic`. */
  predicate FilterNoMusic(anime: AnimeListItem): (r: bool)
    ensures r <==> anime.node.mediaType != "music"
  {
    anime.node.mediaType != "music"
  }

  /** `anime.node.rank ?? 0`. */
  function RankOrZero(anime: AnimeListItem): (r: int)
    ensures anime.node.rank.Some? ==> r == anime.node.rank.value
    ensures anime.node.rank.None? ==> r == 0
  {
    if anime.node.rank.Some? then anime.node.rank.value else 0
  }

  /** `filterRankHigherThan(rank)`: a better (numerically smaller) rank than `rank`. */
  function FilterRankHigherThan(rank: int): (keep: AnimeListItem -> bool)
    ensures forall anime :: keep(anime) <==>
      if anime.node.rank.Some? then anime.node.rank.value < rank else 0 < rank
  {
    (anime: AnimeListItem) => RankOrZero(anime) < rank
  }

  /** `filterRankLowerThan(rank)`: a worse (numerically larger) rank than `rank`. */
  function FilterRankLowerThan(rank: int): (keep: AnimeListItem -> bool)
    ensures forall anime :: keep(anime) <==>
      if anime.node.rank.Some? then anime.node.rank.value > rank else 0 > rank
  {
    (anime: AnimeListItem) => RankOrZero(anime) > rank
  }

  /** `filterAnimeEntriesWithMoreThanXAnime(x)`: the groups of more than `x` entries. */
  function FilterAnimeEntriesWithMoreThanXAnime(x: int): (keep: Entry -> bool)
    ensures forall entry :: keep(entry) <==> |entry.1| > x
    ensures x >= 0 ==> forall entry :: keep(entry) ==> entry.1 != []
  {
    (entry: Entry) => |entry.1| > x
  }

  /** Filtering by status splits completed from dropped: no entry is kept by both. */
  lemma CompletedAndDroppedDisjoint(items: seq<AnimeListItem>)
    ensures forall x :: x in Filter(items, FilterCompletedByUser) ==> x !in Filter(items, FilterDroppedByUser)
    ensures forall x :: x in Filter(items, FilterCompletedByUser) <==> x in items && x.listStatus.status == "completed"
    ensures forall x :: x in Filter(items, FilterDroppedByUser) <==> x in items && x.listStatus.status == "dropped"
  {
    assert "completed" != "dropped";
  }

  /**
   * `filterNoMusic` drops exactly the music videos, `filterWithUserScore` exactly the
   * unscored entries, and `filterAnimeEntriesWithMoreThanXAnime(x)` exactly the groups
   * of at most `x` entries; each keeps what it keeps, in order, as often as it occurs.
   */
  lemma ContentFilters(items: seq<AnimeListItem>, entries: seq<Entry>, x: int)
    ensures forall a :: a in Filter(items, FilterNoMusic) <==> a in items && a.node.mediaType != "music"
    ensures forall a :: a in Filter(items, FilterWithUserScore) <==> a in items && a.listStatus.score != 0
    ensures forall e :: e in Filter(entries, FilterAnimeEntriesWithMoreThanXAnime(x)) <==> e in entries && |e.1| > x
  {
  }

  /**
   * The rank filters read a missing rank as 0, so for a positive bound an unranked
   * entry counts as better ranked; and no entry passes both filters of one bound.
   */
  lemma RankFilters(rank: int, anime: AnimeListItem)
    ensures !(FilterRankHigherThan(rank)(anime) && FilterRankLowerThan(rank)(anime))
    ensures FilterRankHigherThan(rank)(anime) || FilterRankLowerThan(rank)(anime) <==> RankOrZero(anime) != rank
    ensures anime.node.rank.None? && rank > 0 ==>
      FilterRankHigherThan(rank)(anime) && !FilterRankLowerThan(rank)(anime)
  {
  }

  // Comparators: each is the difference of an integer key, which is how toSorted is modelled.

  /** `sortByUserScoreHighFirst`: negative exactly when `a` scored higher. */
  function SortByUserScoreHighFirst(a: AnimeListItem, b: AnimeListItem): (r: int)
    ensures r < 0 <==> a.listStatus.score > b.listStatus.score
    ensures r == 0 <==> a.listStatus.score == b.listStatus.score
  {
    b.listStatus.score - a.listStatus.score
  }

  /** `sortByUserScoreLowFirst`: negative exactly when `a` scored lower. */
  function SortByUserScoreLowFirst(a: AnimeListItem, b: AnimeListItem): (r: int)
    ensures r < 0 <==> a.listStatus.score < b.listStatus.score
    ensures r == -SortByUserScoreHighFirst(a, b)
  {
    a.listStatus.score - b.listStatus.score
  }

  /** `sortByMostListUsers`: negative exactly when more users list `a`. */
  function SortByMostListUsers(a: AnimeListItem, b: AnimeListItem): (r: int)
    ensures r < 0 <==> a.node.numListUsers > b.node.numListUsers
  {
    b.node.numListUsers - a.node.numListUsers
  }

  /** `sortByLeastListUsers`: negative exactly when fewer users list `a`. */
  function SortByLeastListUsers(a: AnimeListItem, b: AnimeListItem): (r: int)
    ensures r < 0 <==> a.node.numListUsers < b.node.numListUsers
    ensures r == -SortByMostListUsers(a, b)
  {
    a.node.numListUsers - b.node.numListUsers
  }

  /** `sortAnimeEntriesMostFirst`: negative exactly when group `a` is larger. */
  function SortAnimeEntriesMostFirst(a: Entry, b: Entry): (r: int)
    ensures r < 0 <==> |a.1| > |b.1|
  {
    |b.1| - |a.1|
  }

  /** The keys the comparators are differences of. */
  function ScoreDescending(a: AnimeListItem): int { -a.listStatus.score }
  function ScoreAscending(a: AnimeListItem): int { a.listStatus.score }
  function ListUsersDescending(a: AnimeListItem): int { -a.node.numListUsers }
  function ListUsersAscending(a: AnimeListItem): int { a.node.numListUsers }
  function SizeDescending(e: Entry): int { -|e.1| }

  // The year and the slide

  /**
   * The year the view opens on, given the current year and the month index
   * (`getMonth()`, 0 for January): the current year in December, the previous one
   * in every other month.
   */
  function YearToEvaluate(currentYear: int, month: int): (year: int)
    ensures year == currentYear <==> month == 11
    ensures month != 11 ==> year == currentYear - 1
  {
    if month == 11 then currentYear else currentYear - 1
  }

  /** `MalWrappedSlide({ list, length = 3 })`: the entries the slide shows, `list.slice(0, length)`. */
  function MalWrappedSlide(list: seq<AnimeListItem>, length: int := 3): (shown: seq<AnimeListItem>)
    ensures 0 <= length ==> |shown| == if length < |list| then length else |list|
    ensures |shown| <= |list| && shown == list[..|shown|]
  {
    SliceTo(list, length)
  }

  /**
   * A slide of a list sorted by the key a comparator is the difference of shows
   * entries of the list only, and none of the entries it leaves off sorts before
   * one it shows.
   */
  lemma SlideOfSorted(items: seq<AnimeListItem>, cmp: (AnimeListItem, AnimeListItem) -> int,
                      key: AnimeListItem -> int, length: int)
    requires forall a, b :: cmp(a, b) == key(a) - key(b)
    ensures
      var shown := MalWrappedSlide(ToSorted(items, cmp, key), length);
      (forall x :: x in shown ==> x in items) &&
      (forall x, y :: x in shown && y in items && y !in shown ==> key(x) <= key(y))
  {
    var sorted := ToSorted(items, cmp, key);
    var shown := MalWrappedSlide(sorted, length);
    SortedSlide(items, cmp, key, length);
    forall x, y | x in shown && y in items && y !in shown
      ensures key(x) <= key(y)
    {
      var i :| 0 <= i < |shown| && shown[i] == x;
      assert y in multiset(sorted);
      var j :| 0 <= j < |sorted| && sorted[j] == y;
      assert cmp(sorted[i], sorted[j]) <= 0;
    }
  }

  /**
   * A slide of a list sorted by the key a comparator is the difference of shows
   * entries of the list only, `min(length, list.length)` of them for a
   * non-negative length, in key order.
   */
  lemma SortedSlide(items: seq<AnimeListItem>, cmp: (AnimeListItem, AnimeListItem) -> int,
                    key: AnimeListItem -> int, length: int)
    requires forall a, b :: cmp(a, b) == key(a) - key(b)
    ensures var shown := MalWrappedSlide(ToSorted(items, cmp, key), length);
      (forall x :: x in shown ==> x in items) &&
      (0 <= length ==> |shown| == if length < |items| then length else |items|) &&
      (forall i, j :: 0 <= i < j < |shown| ==> key(shown[i]) <= key(shown[j]))
  {
    var sorted := ToSorted(items, cmp, key);
    var shown := MalWrappedSlide(sorted, length);
    assert |sorted| == |multiset(sorted)| == |multiset(items)| == |items|;
    forall x | x in shown
      ensures x in items
    {
      assert x in multiset(sorted);
    }
    forall i, j | 0 <= i < j < |shown|
      ensures key(shown[i]) <= key(shown[j])
    {
      assert shown[i] == sorted[i] && shown[j] == sorted[j];
      assert cmp(sorted[i], sorted[j]) <= 0;
    }
  }

  // Grouped entries

  /**
   * `Object.entries(items.reduce(reducer, {})).toSorted(sortAnimeEntriesMostFirst)`
   * for the reducer that files an entry under `namesOf(entry)`: the grouped entries,
   * largest group first.
   */
  function EntriesMostFirst(items: seq<AnimeListItem>, namesOf: AnimeListItem -> seq<string>): (r: seq<Entry>)
    ensures forall i, j :: 0 <= i < j < |r| ==> |r[i].1| >= |r[j].1|
    ensures forall e :: e in r <==> e.1 == Members(items, namesOf, e.0) && e.1 != []
    ensures forall i, j :: 0 <= i < j < |r| ==> r[i].0 != r[j].0
  {
    var entries := GroupedEntries(items, namesOf);
    var r := ToSorted(entries, SortAnimeEntriesMostFirst, SizeDescending);
    SortedEntriesDistinct(entries, r);
    r
  }

  /** Reordering grouped entries keeps their names distinct and their contents. */
  lemma SortedEntriesDistinct(entries: seq<Entry>, r: seq<Entry>)
    requires multiset(r) == multiset(entries)
    requires forall i, j :: 0 <= i < j < |entries| ==> entries[i].0 != entries[j].0
    ensures forall e :: e in r <==> e in entries
    ensures forall i, j :: 0 <= i < j < |r| ==> r[i].0 != r[j].0
  {
    assert forall e :: e in r <==> e in entries by {
      forall e
        ensures e in r <==> e in entries
      {
        assert e in r <==> e in multiset(r);
      }
    }
    PermutationDistinct(r, entries);
    forall i, j | 0 <= i < j < |r|
      ensures r[i].0 != r[j].0
    {
      assert r[i] in entries && r[j] in entries;
      var a :| 0 <= a < |entries| && entries[a] == r[i];
      var b :| 0 <= b < |entries| && entries[b] == r[j];
    }
  }
}
