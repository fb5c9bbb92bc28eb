/**
 * The grouping reducers of src/Wrapped.tsx (`reduceToStudiosRecord`,
 * `reduceToGenresRecord`, `reduceToMediaTypeRecord`) and the `.reduce(..., {})`
 * folds that drive them. The accumulator is a record from a name to the list of
 * entries filed under it; the reducers update it in place, creating a name's
 * list the first time the name is met and pushing onto it.
 *
 * `Groups` is the record as a value: its names in creation order (the order
 * `Object.entries` lists them) and the list of each name.
 */
module Grouping {
  import opened Anime
  import opened Sequences

  datatype Groups = Groups(keys: seq<string>, lists: map<string, seq<AnimeListItem>>)

  /** The empty record `{}`. */
  const Empty: Groups := Groups([], map[])

  /** Every name is listed once, exactly the names with a list are listed, and no list is empty. */
  ghost predicate WellFormed(g: Groups)
  {
    (forall k :: k in g.lists <==> k in g.keys)
    && (forall i, j :: 0 <= i < j < |g.keys| ==> g.keys[i] != g.keys[j])
    && (forall k :: k in g.lists ==> g.lists[k] != [])
  }

  /** The list filed under `k`, empty when there is none. */
  function ListOf(g: Groups, k: string): seq<AnimeListItem>
  {
    if k in g.lists then g.lists[k] else []
  }

  /**
   * One reducer step, `if (!acc[k]) acc[k] = []; acc[k].push(x)`: `x` goes at the
   * end of the list of `k`, a name met for the first time goes at the end of the
   * names, and every other list is unchanged.
   */
  function Add(g: Groups, k: string, x: AnimeListItem): (r: Groups)
    ensures WellFormed(g) ==> WellFormed(r)
    ensures forall j :: ListOf(r, j) == ListOf(g, j) + (if j == k then [x] else [])
    ensures forall j :: j in r.lists <==> j in g.lists || j == k
    ensures r.keys == if k in g.lists then g.keys else g.keys + [k]
  {
    if k in g.lists then Groups(g.keys, g.lists[k := g.lists[k] + [x]])
    else Groups(g.keys + [k], g.lists[k := [x]])
  }

  /** `names.forEach(name => step(name, x))`: `x` is filed once per occurrence of a name. */
  function AddUnder(g: Groups, names: seq<string>, x: AnimeListItem): (r: Groups)
    ensures WellFormed(g) ==> WellFormed(r)
  {
    if names == [] then g
    else Add(AddUnder(g, names[..|names| - 1], x), names[|names| - 1], x)
  }

  /**
   * Filing `x` under `names` appends it to the list of each name as many times as
   * the name occurs, creates the lists of the new names and touches nothing else.
   */
  lemma {:induction false} AddUnderLists(g: Groups, names: seq<string>, x: AnimeListItem, j: string)
    ensures ListOf(AddUnder(g, names, x), j) == ListOf(g, j) + Repeat(x, multiset(names)[j])
    ensures j in AddUnder(g, names, x).lists <==> j in g.lists || j in names
  {
    if names != [] {
      var init := names[..|names| - 1];
      var last := names[|names| - 1];
      assert names == init + [last];
      AddUnderLists(g, init, x, j);
      assert multiset(names)[j] == multiset(init)[j] + (if j == last then 1 else 0);
    }
  }

  /** The names of a studio or genre list, in order. */
  function NamesOf(named: seq<Named>): (r: seq<string>)
    ensures |r| == |named| && forall i :: 0 <= i < |named| ==> r[i] == named[i].name
  {
    if named == [] then [] else NamesOf(named[..|named| - 1]) + [named[|named| - 1].name]
  }

  /** The names `reduceToStudiosRecord` files an entry under. */
  function StudioNames(x: AnimeListItem): seq<string>
  {
    NamesOf(x.node.studios)
  }

  /** The names `reduceToGenresRecord` files an entry under. */
  function GenreNames(x: AnimeListItem): seq<string>
  {
    NamesOf(x.node.genres)
  }

  /** The one name `reduceToMediaTypeRecord` files an entry under. */
  function MediaTypeNames(x: AnimeListItem): seq<string>
  {
    [x.node.mediaType]
  }

  /** `items.reduce(reducer, {})` for the reducer that files each entry under `namesOf(entry)`. */
  function GroupBy(items: seq<AnimeListItem>, namesOf: AnimeListItem -> seq<string>): (r: Groups)
    ensures WellFormed(r)
  {
    if items == [] then Empty
    else AddUnder(GroupBy(items[..|items| - 1], namesOf), namesOf(items[|items| - 1]), items[|items| - 1])
  }

  /** The entries filed under `k`, in input order, an entry as often as it names `k`. */
  function Members(items: seq<AnimeListItem>, namesOf: AnimeListItem -> seq<string>, k: string): seq<AnimeListItem>
  {
    if items == [] then []
    else
      var last := items[|items| - 1];
      Members(items[..|items| - 1], namesOf, k) + Repeat(last, multiset(namesOf(last))[k])
  }

  /**
   * After the fold, the list of each name is exactly its members in input order,
   * and a name has a list exactly when some entry names it.
   */
  lemma {:induction false} GroupByLists(items: seq<AnimeListItem>, namesOf: AnimeListItem -> seq<string>, k: string)
    ensures ListOf(GroupBy(items, namesOf), k) == Members(items, namesOf, k)
    ensures k in GroupBy(items, namesOf).lists <==> Members(items, namesOf, k) != []
  {
    if items != [] {
      var init := items[..|items| - 1];
      var last := items[|items| - 1];
      GroupByLists(init, namesOf, k);
      AddUnderLists(GroupBy(init, namesOf), namesOf(last), last, k);
    }
  }

  /** An entry is filed under `k` exactly when it is one of the inputs and names `k`. */
  lemma {:induction false} MembersNameKey(items: seq<AnimeListItem>, namesOf: AnimeListItem -> seq<string>, k: string, x: AnimeListItem)
    ensures x in Members(items, namesOf, k) <==> x in items && k in namesOf(x)
  {
    if items != [] {
      var init := items[..|items| - 1];
      var last := items[|items| - 1];
      assert items == init + [last];
      MembersNameKey(init, namesOf, k, x);
      assert x in Repeat(last, multiset(namesOf(last))[k]) <==> x == last && k in namesOf(last);
    }
  }

  /** Grouping keeps input order inside every group: a sorted input gives sorted groups. */
  lemma {:induction false} MembersSorted(items: seq<AnimeListItem>, namesOf: AnimeListItem -> seq<string>, k: string, key: AnimeListItem -> int)
    requires SortedBy(items, key)
    ensures SortedBy(Members(items, namesOf, k), key)
  {
    if items != [] {
      var init := items[..|items| - 1];
      var last := items[|items| - 1];
      assert SortedBy(init, key);
      MembersSorted(init, namesOf, k, key);
      var m := Members(init, namesOf, k);
      forall i | 0 <= i < |m|
        ensures key(m[i]) <= key(last)
      {
        MembersNameKey(init, namesOf, k, m[i]);
        var j :| 0 <= j < |init| && init[j] == m[i];
      }
    }
  }

  /** The sum of the list sizes of `keys`. */
  function SizeSum(keys: seq<string>, lists: map<string, seq<AnimeListItem>>): nat
    requires forall k :: k in keys ==> k in lists
  {
    if keys == [] then 0
    else SizeSum(keys[..|keys| - 1], lists) + |lists[keys[|keys| - 1]]|
  }

  /** The number of (entry, name) filings the fold makes. */
  function Memberships(items: seq<AnimeListItem>, namesOf: AnimeListItem -> seq<string>): nat
  {
    if items == [] then 0
    else Memberships(items[..|items| - 1], namesOf) + |namesOf(items[|items| - 1])|
  }

  /** Changing the list of a name that is not summed changes nothing. */
  lemma {:induction false} SizeSumFrame(keys: seq<string>, lists: map<string, seq<AnimeListItem>>, k: string, v: seq<AnimeListItem>)
    requires forall j :: j in keys ==> j in lists
    requires k !in keys
    ensures SizeSum(keys, lists[k := v]) == SizeSum(keys, lists)
  {
    if keys != [] {
      SizeSumFrame(keys[..|keys| - 1], lists, k, v);
    }
  }

  /** Changing the list of a name summed once changes the sum by the change in its size. */
  lemma {:induction false} SizeSumUpdate(keys: seq<string>, lists: map<string, seq<AnimeListItem>>, k: string, v: seq<AnimeListItem>)
    requires forall j :: j in keys ==> j in lists
    requires forall i, j :: 0 <= i < j < |keys| ==> keys[i] != keys[j]
    requires k in keys
    ensures SizeSum(keys, lists[k := v]) + |lists[k]| == SizeSum(keys, lists) + |v|
  {
    var init := keys[..|keys| - 1];
    if keys[|keys| - 1] == k {
      assert k !in init;
      SizeSumFrame(init, lists, k, v);
    } else {
      assert k in init;
      SizeSumUpdate(init, lists, k, v);
    }
  }

  /** One reducer step adds one to the total size of the lists. */
  lemma AddSize(g: Groups, k: string, x: AnimeListItem)
    requires WellFormed(g)
    ensures SizeSum(Add(g, k, x).keys, Add(g, k, x).lists) == SizeSum(g.keys, g.lists) + 1
  {
    if k in g.lists {
      SizeSumUpdate(g.keys, g.lists, k, g.lists[k] + [x]);
    } else {
      var r := Add(g, k, x);
      assert r.keys[..|r.keys| - 1] == g.keys;
      SizeSumFrame(g.keys, g.lists, k, [x]);
    }
  }

  /** Filing an entry under a list of names adds the number of names to the total size. */
  lemma {:induction false} AddUnderSize(g: Groups, names: seq<string>, x: AnimeListItem)
    requires WellFormed(g)
    ensures SizeSum(AddUnder(g, names, x).keys, AddUnder(g, names, x).lists) == SizeSum(g.keys, g.lists) + |names|
  {
    if names != [] {
      var init := names[..|names| - 1];
      AddUnderSize(g, init, x);
      AddSize(AddUnder(g, init, x), names[|names| - 1], x);
    }
  }

  /** After the fold the group sizes add up to the number of filings. */
  lemma {:induction false} GroupSizesSum(items: seq<AnimeListItem>, namesOf: AnimeListItem -> seq<string>)
    ensures SizeSum(GroupBy(items, namesOf).keys, GroupBy(items, namesOf).lists) == Memberships(items, namesOf)
  {
    if items != [] {
      var init := items[..|items| - 1];
      GroupSizesSum(init, namesOf);
      AddUnderSize(GroupBy(init, namesOf), namesOf(items[|items| - 1]), items[|items| - 1]);
    }
  }

  /** The accumulator record, updated in place by the reducers. */
  class GroupRecord {
    var keys: seq<string>
    var lists: map<string, seq<AnimeListItem>>

    /** The record's current contents. */
    function Value(): Groups
      reads this
    {
      Groups(keys, lists)
    }

    /** `{}`. */
    constructor ()
      ensures Value() == Empty
    {
      keys := [];
      lists := map[];
    }

    /** `if (!acc[k]) { acc[k] = []; } acc[k].push(anime);` */
    method Push(k: string, anime: AnimeListItem)
      modifies this
      ensures Value() == Add(old(Value()), k, anime)
    {
      if k in lists {
        lists := lists[k := lists[k] + [anime]];
      } else {
        keys := keys + [k];
        lists := lists[k := []];
        assert lists[k] + [anime] == [anime];
        lists := lists[k := lists[k] + [anime]];
        assert lists == old(lists)[k := [anime]];
      }
    }

    /** Files `anime` under each name of `named`, in order (the `forEach` of the two list reducers). */
    method PushUnderEach(named: seq<Named>, anime: AnimeListItem)
      modifies this
      ensures Value() == AddUnder(old(Value()), NamesOf(named), anime)
    {
      var i := 0;
      while i < |named|
        invariant 0 <= i <= |named|
        invariant Value() == AddUnder(old(Value()), NamesOf(named)[..i], anime)
      {
        assert NamesOf(named)[..i + 1][..i] == NamesOf(named)[..i];
        Push(named[i].name, anime);
        i := i + 1;
      }
      assert NamesOf(named)[..i] == NamesOf(named);
    }

    /** `reduceToStudiosRecord(acc, anime)`. */
    method ReduceToStudiosRecord(anime: AnimeListItem)
      modifies this
      ensures Value() == AddUnder(old(Value()), StudioNames(anime), anime)
    {
      PushUnderEach(anime.node.studios, anime);
    }

    /** `reduceToGenresRecord(acc, anime)`. */
    method ReduceToGenresRecord(anime: AnimeListItem)
      modifies this
      ensures Value() == AddUnder(old(Value()), GenreNames(anime), anime)
    {
      PushUnderEach(anime.node.genres, anime);
    }

    /** `reduceToMediaTypeRecord(acc, anime)`. */
    method ReduceToMediaTypeRecord(anime: AnimeListItem)
      modifies this
      ensures Value() == AddUnder(old(Value()), MediaTypeNames(anime), anime)
    {
      ghost var before := Value();
      Push(anime.node.mediaType, anime);
      assert MediaTypeNames(anime)[..0] == [];
      assert AddUnder(before, MediaTypeNames(anime), anime) == Add(AddUnder(before, [], anime), anime.node.mediaType, anime);
    }
  }

  /** `items.reduce(reduceToStudiosRecord, {})`. */
  method StudiosRecord(items: seq<AnimeListItem>) returns (acc: GroupRecord)
    ensures fresh(acc)
    ensures acc.Value() == GroupBy(items, StudioNames)
  {
    acc := new GroupRecord();
    var i := 0;
    while i < |items|
      invariant 0 <= i <= |items|
      invariant acc.Value() == GroupBy(items[..i], StudioNames)
    {
      assert items[..i + 1][..i] == items[..i];
      acc.ReduceToStudiosRecord(items[i]);
      i := i + 1;
    }
    assert items[..i] == items;
  }

  /** `items.reduce(reduceToGenresRecord, {})`. */
  method GenresRecord(items: seq<AnimeListItem>) returns (acc: GroupRecord)
    ensures fresh(acc)
    ensures acc.Value() == GroupBy(items, GenreNames)
  {
    acc := new GroupRecord();
    var i := 0;
    while i < |items|
      invariant 0 <= i <= |items|
      invariant acc.Value() == GroupBy(items[..i], GenreNames)
    {
      assert items[..i + 1][..i] == items[..i];
      acc.ReduceToGenresRecord(items[i]);
      i := i + 1;
    }
    assert items[..i] == items;
  }

  /** `items.reduce(reduceToMediaTypeRecord, {})`. */
  method MediaTypeRecord(items: seq<AnimeListItem>) returns (acc: GroupRecord)
    ensures fresh(acc)
    ensures acc.Value() == GroupBy(items, MediaTypeNames)
  {
    acc := new GroupRecord();
    var i := 0;
    while i < |items|
      invariant 0 <= i <= |items|
      invariant acc.Value() == GroupBy(items[..i], MediaTypeNames)
    {
      assert items[..i + 1][..i] == items[..i];
      acc.ReduceToMediaTypeRecord(items[i]);
      i := i + 1;
    }
    assert items[..i] == items;
  }

  /** A record entry: a name and its list. */
  type Entry = (string, seq<AnimeListItem>)

  /** `Object.entries(record)`: the names in creation order, each with its list. */
  function Entries(g: Groups): (r: seq<Entry>)
    requires WellFormed(g)
    ensures |r| == |g.keys|
    ensures forall i :: 0 <= i < |r| ==> r[i] == (g.keys[i], g.lists[g.keys[i]])
  {
    seq(|g.keys|, i requires 0 <= i < |g.keys| => (g.keys[i], g.lists[g.keys[i]]))
  }

  /** An entry of the grouped record is a name with exactly its members, and every name with members has one. */
  lemma EntriesOfGroupBy(items: seq<AnimeListItem>, namesOf: AnimeListItem -> seq<string>, e: Entry)
    ensures e in Entries(GroupBy(items, namesOf)) <==> e.1 == Members(items, namesOf, e.0) && e.1 != []
  {
    var g := GroupBy(items, namesOf);
    var r := Entries(g);
    GroupByLists(items, namesOf, e.0);
    if e in r {
      var i :| 0 <= i < |r| && r[i] == e;
    }
  }

  /**
   * `Object.entries(items.reduce(reducer, {}))`: one entry for each name some input
   * is filed under, never two for one name, each holding exactly the inputs filed
   * under that name in input order.
   */
  function GroupedEntries(items: seq<AnimeListItem>, namesOf: AnimeListItem -> seq<string>): (r: seq<Entry>)
    ensures forall e :: e in r <==> e.1 == Members(items, namesOf, e.0) && e.1 != []
    ensures forall i, j :: 0 <= i < j < |r| ==> r[i].0 != r[j].0
  {
    var r := Entries(GroupBy(items, namesOf));
    assert forall e :: e in r <==> e.1 == Members(items, namesOf, e.0) && e.1 != [] by {
      forall e
        ensures e in r <==> e.1 == Members(items, namesOf, e.0) && e.1 != []
      {
        EntriesOfGroupBy(items, namesOf, e);
      }
    }
    r
  }
}
