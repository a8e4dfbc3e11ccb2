/**
 * The spending-by-category breakdown of `GetDashboardDataUseCase`: the
 * month's expense totals per category id, joined with the expense
 * categories, each with its share of the month's spending, largest first.
 *
 * The totals map is given as its entries in iteration order; the
 * categories as the list the category query returns.
 */
module DashboardUseCase {
  import opened Wrappers
  import opened Domain
  import opened Collections

  /** The map's keys are distinct. */
  predicate DistinctKeys(entries: seq<(int, real)>) {
    forall i, j :: 0 <= i < j < |entries| ==> entries[i].0 != entries[j].0
  }

  /** No category appears twice. */
  predicate DistinctCategories(items: seq<CategoryWithAmount>) {
    forall i, j :: 0 <= i < j < |items| ==> items[i].category.id != items[j].category.id
  }

  /** `spendingMap.values.sum()`. */
  function SumValues(entries: seq<(int, real)>): (total: real)
    ensures (forall i :: 0 <= i < |entries| ==> entries[i].1 >= 0.0) ==> total >= 0.0
  {
    if entries == [] then 0.0 else entries[0].1 + SumValues(entries[1..])
  }

  /** With no negative amounts, every amount lies between zero and the total. */
  lemma {:induction false} EntryWithinSum(entries: seq<(int, real)>, k: int)
    requires forall i :: 0 <= i < |entries| ==> entries[i].1 >= 0.0
    requires 0 <= k < |entries|
    ensures 0.0 <= entries[k].1 <= SumValues(entries)
  {
    if k > 0 {
      EntryWithinSum(entries[1..], k - 1);
    } else {
      assert forall i :: 0 <= i < |entries[1..]| ==> entries[1..][i].1 >= 0.0;
    }
  }

  /**
   * `categories.associateBy { it.id }[id]`: the category with that id;
   * when several share it, the last one, as later entries overwrite
   * earlier ones.
   */
  function AssociateBy(categories: seq<CategoryDom>, id: int): (r: Option<CategoryDom>)
    ensures r.Some? <==> exists i :: 0 <= i < |categories| && categories[i].id == id
    ensures r.Some? ==> r.value.id == id && r.value in categories
  {
    if categories == [] then None
    else if categories[|categories| - 1].id == id then Some(categories[|categories| - 1])
    else
      var r := AssociateBy(categories[..|categories| - 1], id);
      assert forall i :: 0 <= i < |categories| - 1 ==> categories[..|categories| - 1][i] == categories[i];
      r
  }

  /** The share of `amount` in `total`, in percent; zero when the total is not positive. */
  function Percentage(amount: real, total: real): (p: real)
    ensures total <= 0.0 ==> p == 0.0
    ensures total > 0.0 ==> p * total == amount * 100.0
  {
    if total > 0.0 then amount / total * 100.0 else 0.0
  }

  /** A share of a non-negative amount no larger than the total lies in [0, 100]. */
  lemma PercentageBounds(amount: real, total: real)
    requires 0.0 <= amount <= total
    ensures 0.0 <= Percentage(amount, total) <= 100.0
  {
    if total > 0.0 {
      var p := Percentage(amount, total);
      assert p * total <= 100.0 * total;
      assert p * total >= 0.0;
    }
  }

  /** The `mapNotNull` step: entries whose id names no category are dropped, the others paired with their category. */
  function Matched(entries: seq<(int, real)>, categories: seq<CategoryDom>, total: real): (r: seq<CategoryWithAmount>)
    ensures |r| <= |entries|
    ensures forall x :: x in r ==> exists k :: 0 <= k < |entries| && AssociateBy(categories, entries[k].0) == Some(x.category)
                                              && x.amount == entries[k].1 && x.percentage == Percentage(entries[k].1, total)
    ensures forall x :: x in r ==> exists k :: 0 <= k < |entries| && x.category.id == entries[k].0
  {
    if entries == [] then []
    else
      var rest := Matched(entries[1..], categories, total);
      assert forall x :: x in rest ==> exists k :: 1 <= k < |entries| && AssociateBy(categories, entries[k].0) == Some(x.category)
                                                  && x.amount == entries[k].1 && x.percentage == Percentage(entries[k].1, total)
      by {
        forall x | x in rest
          ensures exists k :: 1 <= k < |entries| && AssociateBy(categories, entries[k].0) == Some(x.category)
                              && x.amount == entries[k].1 && x.percentage == Percentage(entries[k].1, total)
        {
          var k :| 0 <= k < |entries[1..]| && AssociateBy(categories, entries[1..][k].0) == Some(x.category)
                   && x.amount == entries[1..][k].1 && x.percentage == Percentage(entries[1..][k].1, total);
          assert entries[1..][k] == entries[k + 1];
        }
      }
      match AssociateBy(categories, entries[0].0)
      case None => rest
      case Some(c) => [CategoryWithAmount(c, entries[0].1, Percentage(entries[0].1, total))] + rest
  }

  /** Every entry whose id names a category is kept, with its amount and share. */
  lemma {:induction false} MatchedKeeps(entries: seq<(int, real)>, categories: seq<CategoryDom>, total: real, k: int)
    requires 0 <= k < |entries| && AssociateBy(categories, entries[k].0).Some?
    ensures CategoryWithAmount(AssociateBy(categories, entries[k].0).value, entries[k].1, Percentage(entries[k].1, total))
            in Matched(entries, categories, total)
  {
    if k > 0 {
      MatchedKeeps(entries[1..], categories, total, k - 1);
      assert entries[1..][k - 1] == entries[k];
    }
  }

  /** Distinct keys give distinct categories. */
  lemma {:induction false} MatchedDistinct(entries: seq<(int, real)>, categories: seq<CategoryDom>, total: real)
    requires DistinctKeys(entries)
    ensures DistinctCategories(Matched(entries, categories, total))
  {
    if entries != [] {
      var rest := Matched(entries[1..], categories, total);
      assert DistinctKeys(entries[1..]) by {
        forall i, j | 0 <= i < j < |entries[1..]| ensures entries[1..][i].0 != entries[1..][j].0 {
          assert entries[1..][i] == entries[i + 1] && entries[1..][j] == entries[j + 1];
        }
      }
      MatchedDistinct(entries[1..], categories, total);
      forall x | x in rest ensures x.category.id != entries[0].0 {
        var k :| 0 <= k < |entries[1..]| && x.category.id == entries[1..][k].0;
        assert entries[1..][k] == entries[k + 1];
      }
    }
  }

  /** A sequence without repeated categories holds each item once. */
  lemma {:induction false} DistinctOnce(items: seq<CategoryWithAmount>, x: CategoryWithAmount)
    requires DistinctCategories(items)
    ensures multiset(items)[x] <= 1
  {
    if items != [] {
      assert items == [items[0]] + items[1..];
      assert DistinctCategories(items[1..]) by {
        forall i, j | 0 <= i < j < |items[1..]| ensures items[1..][i].category.id != items[1..][j].category.id {
          assert items[1..][i] == items[i + 1] && items[1..][j] == items[j + 1];
        }
      }
      DistinctOnce(items[1..], x);
      if items[0] == x {
        assert x !in items[1..] by {
          forall i | 0 <= i < |items[1..]| ensures items[1..][i] != x {
            assert items[1..][i] == items[i + 1];
          }
        }
      }
    }
  }

  /** An item at two positions occurs at least twice. */
  lemma TwiceAtTwoPositions(items: seq<CategoryWithAmount>, i: int, j: int)
    requires 0 <= i < j < |items| && items[i] == items[j]
    ensures multiset(items)[items[i]] >= 2
  {
    assert items == items[..j] + [items[j]] + items[j + 1..];
    assert items[i] in items[..j];
  }

  /** Having no repeated category depends only on which items there are, not on their order. */
  lemma DistinctPermutation(s: seq<CategoryWithAmount>, t: seq<CategoryWithAmount>)
    requires multiset(s) == multiset(t) && DistinctCategories(t)
    ensures DistinctCategories(s)
  {
    forall i, j | 0 <= i < j < |s| ensures s[i].category.id != s[j].category.id {
      if s[i] == s[j] {
        TwiceAtTwoPositions(s, i, j);
        DistinctOnce(t, s[i]);
      } else {
        assert s[i] in multiset(t) && s[j] in multiset(t);
        var p :| 0 <= p < |t| && t[p] == s[i];
        var q :| 0 <= q < |t| && t[q] == s[j];
        assert p != q;
      }
    }
  }

  function AmountRank(x: CategoryWithAmount): real {
    x.amount
  }

  /** The lambda's result: the matched entries, each with its share of the whole month's total, largest first. */
  function SpendingByCategory(spending: seq<(int, real)>, categories: seq<CategoryDom>): (r: seq<CategoryWithAmount>)
    ensures SortedDesc(r, AmountRank)
    ensures multiset(r) == multiset(Matched(spending, categories, SumValues(spending)))
  {
    SortDesc(Matched(spending, categories, SumValues(spending)), AmountRank)
  }

  /**
   * The breakdown holds exactly the entries whose id names an expense
   * category, each with that category, its amount and its share of the
   * total over all entries (dropped ones included); it is sorted by
   * amount, no longer than the map and without repeated categories; with
   * no negative amounts every share lies in [0, 100].
   */
  lemma SpendingByCategorySpec(spending: seq<(int, real)>, categories: seq<CategoryDom>)
    ensures |SpendingByCategory(spending, categories)| <= |spending|
    ensures forall x :: x in SpendingByCategory(spending, categories) ==>
              exists k :: 0 <= k < |spending| && AssociateBy(categories, spending[k].0) == Some(x.category)
                          && x.amount == spending[k].1 && x.percentage == Percentage(spending[k].1, SumValues(spending))
    ensures forall k :: 0 <= k < |spending| && AssociateBy(categories, spending[k].0).Some? ==>
              CategoryWithAmount(AssociateBy(categories, spending[k].0).value, spending[k].1,
                                 Percentage(spending[k].1, SumValues(spending))) in SpendingByCategory(spending, categories)
    ensures DistinctKeys(spending) ==> DistinctCategories(SpendingByCategory(spending, categories))
    ensures (forall i :: 0 <= i < |spending| ==> spending[i].1 >= 0.0) ==>
              forall x :: x in SpendingByCategory(spending, categories) ==> 0.0 <= x.percentage <= 100.0
  {
    var total := SumValues(spending);
    var matched := Matched(spending, categories, total);
    var r := SpendingByCategory(spending, categories);
    assert |r| == |matched| by {
      assert |multiset(r)| == |multiset(matched)|;
    }
    SpendingSound(spending, categories);
    SpendingComplete(spending, categories);
    if DistinctKeys(spending) {
      MatchedDistinct(spending, categories, total);
      DistinctPermutation(r, matched);
    }
    if forall i :: 0 <= i < |spending| ==> spending[i].1 >= 0.0 {
      SpendingShares(spending, categories);
    }
  }

  /** Every item of the breakdown comes from an entry whose id names its category, with that entry's amount and share. */
  lemma SpendingSound(spending: seq<(int, real)>, categories: seq<CategoryDom>)
    ensures forall x :: x in SpendingByCategory(spending, categories) ==>
              exists k :: 0 <= k < |spending| && AssociateBy(categories, spending[k].0) == Some(x.category)
                          && x.amount == spending[k].1 && x.percentage == Percentage(spending[k].1, SumValues(spending))
  {
    var matched := Matched(spending, categories, SumValues(spending));
    forall x | x in SpendingByCategory(spending, categories) ensures x in matched {
      assert x in multiset(matched);
    }
  }

  /** Every entry whose id names a category appears in the breakdown, with its amount and share. */
  lemma SpendingComplete(spending: seq<(int, real)>, categories: seq<CategoryDom>)
    ensures forall k :: 0 <= k < |spending| && AssociateBy(categories, spending[k].0).Some? ==>
              CategoryWithAmount(AssociateBy(categories, spending[k].0).value, spending[k].1,
                                 Percentage(spending[k].1, SumValues(spending))) in SpendingByCategory(spending, categories)
  {
    var total := SumValues(spending);
    var r := SpendingByCategory(spending, categories);
    forall k | 0 <= k < |spending| && AssociateBy(categories, spending[k].0).Some?
      ensures CategoryWithAmount(AssociateBy(categories, spending[k].0).value, spending[k].1,
                                 Percentage(spending[k].1, total)) in r
    {
      MatchedKeeps(spending, categories, total, k);
      assert CategoryWithAmount(AssociateBy(categories, spending[k].0).value, spending[k].1,
                                Percentage(spending[k].1, total)) in multiset(r);
    }
  }

  /** With no negative amounts, every share in the breakdown lies in [0, 100]. */
  lemma SpendingShares(spending: seq<(int, real)>, categories: seq<CategoryDom>)
    requires forall i :: 0 <= i < |spending| ==> spending[i].1 >= 0.0
    ensures forall x :: x in SpendingByCategory(spending, categories) ==> 0.0 <= x.percentage <= 100.0
  {
    var total := SumValues(spending);
    SpendingSound(spending, categories);
    forall x | x in SpendingByCategory(spending, categories) ensures 0.0 <= x.percentage <= 100.0 {
      var k :| 0 <= k < |spending| && AssociateBy(categories, spending[k].0) == Some(x.category)
               && x.amount == spending[k].1 && x.percentage == Percentage(spending[k].1, total);
      EntryWithinSum(spending, k);
      PercentageBounds(spending[k].1, total);
    }
  }

  /**
   * The total counts the entries that are dropped, so the kept shares need
   * not add up to 100: two equal entries, one of them without a category,
   * leave a single item at 50 percent.
   */
  lemma DroppedEntriesStillCount(food: CategoryDom)
    requires food.id == 1
    ensures SpendingByCategory([(1, 50.0), (2, 50.0)], [food]) == [CategoryWithAmount(food, 50.0, 50.0)]
  {
    var entries: seq<(int, real)> := [(1, 50.0), (2, 50.0)];
    assert SumValues(entries) == 100.0 by {
      assert entries[1..] == [(2, 50.0)];
      assert |entries[1..][1..]| == 0;
    }
    assert AssociateBy([food], 2) == None;
    assert |entries[1..][1..]| == 0;
    assert AssociateBy([food], 1) == Some(food);
    assert Matched(entries[1..][1..], [food], 100.0) == [];
    assert Matched(entries[1..], [food], 100.0) == [];
    assert Percentage(50.0, 100.0) == 50.0;
    var item := CategoryWithAmount(food, 50.0, 50.0);
    assert Matched(entries, [food], 100.0) == [item];
    var r := SpendingByCategory(entries, [food]);
    assert |r| == 1 && r[0] in multiset(r);
  }
}
