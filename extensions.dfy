/**
 * The list helpers of the `core.util` package: `getOrNull` and
 * `groupByDate`, the latter built on Kotlin's `groupBy`, which keeps its
 * groups in the order their keys first occur and the items of each group
 * in their input order.
 */
module Extensions {
  import opened Wrappers
  import opened Domain
  import opened Collections

  /** `List.getOrNull(index)`: the element when the index is in range, null otherwise. */
  function GetOrNull<T>(s: seq<T>, index: int): (r: Option<T>)
    ensures r.Some? <==> 0 <= index < |s|
    ensures r.Some? ==> r.value in s && r.value == s[index]
  {
    if 0 <= index < |s| then Some(s[index]) else None
  }

  /** One entry of the map `groupBy` builds: a key and the items that have it. */
  datatype Group<T> = Group(key: string, items: seq<T>)

  predicate DistinctKeys<T>(gs: seq<Group<T>>) {
    forall i, j :: 0 <= i < j < |gs| ==> gs[i].key != gs[j].key
  }

  /** Position of the group with key `k`, or -1 when there is none. */
  function IndexOfKey<T>(gs: seq<Group<T>>, k: string): (i: int)
    ensures -1 <= i < |gs|
    ensures i >= 0 ==> gs[i].key == k
    ensures i < 0 <==> forall j :: 0 <= j < |gs| ==> gs[j].key != k
  {
    if gs == [] then -1
    else if gs[0].key == k then 0
    else
      var j := IndexOfKey(gs[1..], k);
      if j < 0 then -1 else j + 1
  }

  /** The elements of `s` whose key is `k`, in their order in `s` (the reference for a group's items). */
  function ItemsWithKey<T>(s: seq<T>, key: T -> string, k: string): (r: seq<T>)
    ensures |r| <= |s|
  {
    if s == [] then []
    else ItemsWithKey(s[..|s| - 1], key, k) + (if key(s[|s| - 1]) == k then [s[|s| - 1]] else [])
  }

  lemma ItemsWithKeySnoc<T>(init: seq<T>, x: T, key: T -> string, k: string)
    ensures ItemsWithKey(init + [x], key, k) == ItemsWithKey(init, key, k) + (if key(x) == k then [x] else [])
  {
    assert (init + [x])[..|init|] == init;
  }

  /** Exactly the elements of `s` with key `k` are kept, none invented. */
  lemma {:induction false} ItemsWithKeyMembers<T>(s: seq<T>, key: T -> string, k: string)
    ensures forall y :: y in ItemsWithKey(s, key, k) ==> y in s && key(y) == k
    ensures forall y :: y in s && key(y) == k ==> y in ItemsWithKey(s, key, k)
    ensures multiset(ItemsWithKey(s, key, k)) <= multiset(s)
  {
    if s != [] {
      var init := s[..|s| - 1];
      assert s == init + [s[|s| - 1]];
      ItemsWithKeyMembers(init, key, k);
    }
  }

  lemma {:induction false} ItemsWithKeyNone<T>(s: seq<T>, key: T -> string, k: string)
    requires forall y :: y in s ==> key(y) != k
    ensures ItemsWithKey(s, key, k) == []
  {
    if s != [] {
      ItemsWithKeyNone(s[..|s| - 1], key, k);
    }
  }

  /** One step of `groupBy`: `getOrPut(key) { ArrayList() }.add(x)`. */
  function AddToGroup<T>(gs: seq<Group<T>>, k: string, x: T): seq<Group<T>> {
    var i := IndexOfKey(gs, k);
    if i < 0 then gs + [Group(k, [x])]
    else gs[i := gs[i].(items := gs[i].items + [x])]
  }

  /** What one step does: `x` joins the group of its key, created last if new; other groups stay as they were. */
  lemma AddToGroupFacts<T>(gs: seq<Group<T>>, k: string, x: T)
    requires DistinctKeys(gs)
    ensures var r := AddToGroup(gs, k, x);
      && DistinctKeys(r)
      && |gs| <= |r| <= |gs| + 1
      && (forall j :: 0 <= j < |gs| ==> r[j].key == gs[j].key)
      && (forall j :: 0 <= j < |gs| && gs[j].key != k ==> r[j] == gs[j])
      && (IndexOfKey(gs, k) < 0 ==> |r| == |gs| + 1 && r[|gs|] == Group(k, [x]))
      && (IndexOfKey(gs, k) >= 0 ==> |r| == |gs| && r[IndexOfKey(gs, k)].items == gs[IndexOfKey(gs, k)].items + [x])
  {
  }

  /** `groupBy(key)`: `x` after `x` of `s`, added to the group of its key. */
  function GroupBy<T>(s: seq<T>, key: T -> string): (r: seq<Group<T>>)
    ensures |r| <= |s| && DistinctKeys(r)
    ensures s != [] ==> r != []
  {
    if s == [] then []
    else
      var gs := GroupBy(s[..|s| - 1], key);
      AddToGroupFacts(gs, key(s[|s| - 1]), s[|s| - 1]);
      AddToGroup(gs, key(s[|s| - 1]), s[|s| - 1])
  }

  /**
   * What `groupBy` builds: one group per distinct key of `s`, none empty,
   * each holding exactly the elements of `s` with that key in their order.
   */
  lemma {:induction false} GroupBySpec<T>(s: seq<T>, key: T -> string)
    ensures var r := GroupBy(s, key);
      && |r| <= |s|
      && DistinctKeys(r)
      && (forall i :: 0 <= i < |r| ==> r[i].items != [])
      && (forall i :: 0 <= i < |r| ==> r[i].items == ItemsWithKey(s, key, r[i].key))
      && (forall x :: x in s ==> IndexOfKey(r, key(x)) >= 0)
  {
    if s != [] {
      var init := s[..|s| - 1];
      var x := s[|s| - 1];
      assert s == init + [x];
      GroupBySpec(init, key);
      var gs := GroupBy(init, key);
      AddToGroupFacts(gs, key(x), x);
      GroupByStep(s, key, init, x, gs);
    }
  }

  /**
   * The groups come in the order their keys first occur in `s`: the groups
   * of a prefix of `s` are the first groups of `s`, key for key, as the
   * insertion order of `groupBy`'s LinkedHashMap gives.
   */
  lemma {:induction false} GroupByKeysPrefix<T>(s: seq<T>, key: T -> string, n: nat)
    requires n <= |s|
    ensures var p, r := GroupBy(s[..n], key), GroupBy(s, key);
      |p| <= |r| && forall i :: 0 <= i < |p| ==> p[i].key == r[i].key
  {
    if n < |s| {
      var init := s[..|s| - 1];
      assert s[..n] == init[..n];
      GroupByKeysPrefix(init, key, n);
      AddToGroupFacts(GroupBy(init, key), key(s[|s| - 1]), s[|s| - 1]);
    } else {
      assert s[..n] == s;
    }
  }

  /** The first group is the one of the first element's key. */
  lemma GroupByFirstKey<T>(s: seq<T>, key: T -> string)
    requires s != []
    ensures GroupBy(s, key)[0].key == key(s[0])
  {
    GroupByKeysPrefix(s, key, 1);
    assert s[..1][..0] == [];
  }

  lemma GroupByStep<T>(s: seq<T>, key: T -> string, init: seq<T>, x: T, gs: seq<Group<T>>)
    requires s == init + [x]
    requires DistinctKeys(gs)
    requires forall i :: 0 <= i < |gs| ==> gs[i].items != []
    requires forall i :: 0 <= i < |gs| ==> gs[i].items == ItemsWithKey(init, key, gs[i].key)
    requires forall y :: y in init ==> IndexOfKey(gs, key(y)) >= 0
    ensures var r := AddToGroup(gs, key(x), x);
      && (forall i :: 0 <= i < |r| ==> r[i].items != [])
      && (forall i :: 0 <= i < |r| ==> r[i].items == ItemsWithKey(s, key, r[i].key))
      && (forall y :: y in s ==> IndexOfKey(r, key(y)) >= 0)
  {
    var k := key(x);
    var i := IndexOfKey(gs, k);
    var r := AddToGroup(gs, k, x);
    AddToGroupFacts(gs, k, x);
    forall j | 0 <= j < |r| ensures r[j].items == ItemsWithKey(s, key, r[j].key) {
      ItemsWithKeySnoc(init, x, key, r[j].key);
      if j == |gs| {
        assert i < 0;
        forall y | y in init ensures key(y) != k {
          assert IndexOfKey(gs, key(y)) >= 0;
        }
        ItemsWithKeyNone(init, key, k);
      }
    }
    GroupByCovers(s, key, init, x, gs);
  }

  lemma GroupByCovers<T>(s: seq<T>, key: T -> string, init: seq<T>, x: T, gs: seq<Group<T>>)
    requires s == init + [x]
    requires DistinctKeys(gs)
    requires forall y :: y in init ==> IndexOfKey(gs, key(y)) >= 0
    ensures forall y :: y in s ==> IndexOfKey(AddToGroup(gs, key(x), x), key(y)) >= 0
  {
    var k := key(x);
    var i := IndexOfKey(gs, k);
    var r := AddToGroup(gs, k, x);
    AddToGroupFacts(gs, k, x);
    forall y | y in s ensures IndexOfKey(r, key(y)) >= 0 {
      if y in init {
        var j := IndexOfKey(gs, key(y));
        assert r[j].key == key(y);
      } else if i < 0 {
        assert r[|gs|].key == key(y);
      } else {
        assert r[i].key == key(y);
      }
    }
  }

  /** All items of the groups, group after group. */
  function Flatten<T>(gs: seq<Group<T>>): seq<T> {
    if gs == [] then [] else gs[0].items + Flatten(gs[1..])
  }

  lemma {:induction false} FlattenAppend<T>(gs: seq<Group<T>>, g: Group<T>)
    ensures multiset(Flatten(gs + [g])) == multiset(Flatten(gs)) + multiset(g.items)
  {
    if gs != [] {
      assert (gs + [g])[1..] == gs[1..] + [g];
      FlattenAppend(gs[1..], g);
    }
  }

  lemma {:induction false} FlattenAddItem<T>(gs: seq<Group<T>>, i: int, x: T)
    requires 0 <= i < |gs|
    ensures multiset(Flatten(gs[i := gs[i].(items := gs[i].items + [x])])) == multiset(Flatten(gs)) + multiset{x}
  {
    var h := gs[i := gs[i].(items := gs[i].items + [x])];
    assert Flatten(gs) == gs[0].items + Flatten(gs[1..]);
    assert Flatten(h) == h[0].items + Flatten(h[1..]);
    if i > 0 {
      assert h[1..] == gs[1..][i - 1 := gs[1..][i - 1].(items := gs[1..][i - 1].items + [x])];
      FlattenAddItem(gs[1..], i - 1, x);
    } else {
      assert h[1..] == gs[1..];
      assert h[0].items == gs[0].items + [x];
    }
  }

  /** Grouping loses and invents nothing: the groups together hold exactly the input's elements. */
  lemma {:induction false} GroupByFlatten<T>(s: seq<T>, key: T -> string)
    ensures multiset(Flatten(GroupBy(s, key))) == multiset(s)
  {
    if s != [] {
      var init := s[..|s| - 1];
      var x := s[|s| - 1];
      assert s == init + [x];
      var gs := GroupBy(init, key);
      GroupByFlatten(init, key);
      var r := GroupBy(s, key);
      assert r == AddToGroup(gs, key(x), x);
      var i := IndexOfKey(gs, key(x));
      if i < 0 {
        assert r == gs + [Group(key(x), [x])];
        FlattenAppend(gs, Group(key(x), [x]));
      } else {
        assert r == gs[i := gs[i].(items := gs[i].items + [x])];
        FlattenAddItem(gs, i, x);
      }
      assert multiset(s) == multiset(init) + multiset{x};
    }
  }

  /** The items with one key of a sorted list are sorted too. */
  lemma {:induction false} ItemsWithKeySorted<T>(s: seq<T>, key: T -> string, k: string, rank: T -> real)
    requires SortedDesc(s, rank)
    ensures SortedDesc(ItemsWithKey(s, key, k), rank)
  {
    if s != [] {
      var init := s[..|s| - 1];
      var last := s[|s| - 1];
      assert s == init + [last];
      ItemsWithKeySorted(init, key, k, rank);
      var a := ItemsWithKey(init, key, k);
      ItemsWithKeySnoc(init, last, key, k);
      ItemsWithKeyMembers(init, key, k);
      if key(last) == k {
        var r := a + [last];
        forall i | 0 <= i < |a| ensures rank(r[i]) >= rank(last) {
          var y := a[i];
          assert y in ItemsWithKey(init, key, k);
          assert y in init;
          assert r[i] == y;
          var j :| 0 <= j < |init| && init[j] == a[i];
          assert s[j] == a[i];
        }
      }
    }
  }

  function DateRank(t: TransactionDom): real {
    t.date as real
  }

  /** The grouping key of `groupByDate`: the label of the transaction's date. */
  function DayKey(dayLabel: int -> string): TransactionDom -> string {
    (t: TransactionDom) => dayLabel(t.date)
  }

  /**
   * `groupByDate()`: sort by date, most recent first, then group by the
   * date's label. `dayLabel` stands for `DateFormatter.formatForGrouping`.
   */
  function GroupByDate(txs: seq<TransactionDom>, dayLabel: int -> string): (r: seq<Group<TransactionDom>>)
    ensures DistinctKeys(r)
    ensures forall i :: 0 <= i < |r| ==> r[i].items != []
    ensures forall i :: 0 <= i < |r| ==> SortedDesc(r[i].items, DateRank)
    ensures forall i, j :: 0 <= i < |r| && 0 <= j < |r[i].items| ==> dayLabel(r[i].items[j].date) == r[i].key
    ensures multiset(Flatten(r)) == multiset(txs)
  {
    GroupBySpec(SortDesc(txs, DateRank), DayKey(dayLabel));
    GroupByDateFacts(txs, dayLabel);
    GroupBy(SortDesc(txs, DateRank), DayKey(dayLabel))
  }

  lemma GroupByDateFacts(txs: seq<TransactionDom>, dayLabel: int -> string)
    ensures var r := GroupBy(SortDesc(txs, DateRank), DayKey(dayLabel));
      && (forall i :: 0 <= i < |r| ==> SortedDesc(r[i].items, DateRank))
      && (forall i, j :: 0 <= i < |r| && 0 <= j < |r[i].items| ==> dayLabel(r[i].items[j].date) == r[i].key)
      && multiset(Flatten(r)) == multiset(txs)
  {
    var key := DayKey(dayLabel);
    var sorted := SortDesc(txs, DateRank);
    GroupByFlatten(sorted, key);
    GroupsSorted(sorted, key);
    GroupsLabelled(sorted, dayLabel);
  }

  /** Grouping a list sorted by date keeps each group sorted by date. */
  lemma GroupsSorted(sorted: seq<TransactionDom>, key: TransactionDom -> string)
    requires SortedDesc(sorted, DateRank)
    ensures var r := GroupBy(sorted, key);
      forall i :: 0 <= i < |r| ==> SortedDesc(r[i].items, DateRank)
  {
    var r := GroupBy(sorted, key);
    GroupBySpec(sorted, key);
    forall i | 0 <= i < |r| ensures SortedDesc(r[i].items, DateRank) {
      ItemsWithKeySorted(sorted, key, r[i].key, DateRank);
    }
  }

  /** Every transaction sits in the group of its own day label. */
  lemma GroupsLabelled(sorted: seq<TransactionDom>, dayLabel: int -> string)
    ensures var r := GroupBy(sorted, DayKey(dayLabel));
      forall i, j :: 0 <= i < |r| && 0 <= j < |r[i].items| ==> dayLabel(r[i].items[j].date) == r[i].key
  {
    var key := DayKey(dayLabel);
    var r := GroupBy(sorted, key);
    GroupBySpec(sorted, key);
    forall i, j | 0 <= i < |r| && 0 <= j < |r[i].items| ensures dayLabel(r[i].items[j].date) == r[i].key {
      ItemsWithKeyMembers(sorted, key, r[i].key);
      assert r[i].items[j] in ItemsWithKey(sorted, key, r[i].key);
      assert key(r[i].items[j]) == r[i].key;
    }
  }
}
