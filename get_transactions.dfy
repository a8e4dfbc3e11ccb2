/**
 * `GetTransactionsUseCase`: which of the repository's listings the
 * transactions screen gets, depending on which filters are set. Every
 * listing is taken from the full listing (`getAllTransactions`, newest
 * first), whose order the queries keep.
 */
module TransactionQueries {
  import opened Wrappers
  import opened Domain
  import opened Collections

  predicate OfKind(t: TransactionDom, kind: TransactionType) {
    t.kind == kind
  }

  /** The date range query's bounds are both inclusive. */
  predicate InRange(t: TransactionDom, startDate: int, endDate: int) {
    startDate <= t.date <= endDate
  }

  /** `getTransactionsByType`. */
  function ByType(all: seq<TransactionDom>, kind: TransactionType): (r: seq<TransactionDom>)
    ensures forall t :: t in r ==> t in all && OfKind(t, kind)
    ensures forall t :: t in all && OfKind(t, kind) ==> t in r
  {
    FilterComplete(all, t => OfKind(t, kind));
    Filter(all, t => OfKind(t, kind))
  }

  /** `getTransactionsByDateRange`. */
  function ByDateRange(all: seq<TransactionDom>, startDate: int, endDate: int): (r: seq<TransactionDom>)
    ensures forall t :: t in r ==> t in all && InRange(t, startDate, endDate)
    ensures forall t :: t in all && InRange(t, startDate, endDate) ==> t in r
  {
    FilterComplete(all, t => InRange(t, startDate, endDate));
    Filter(all, t => InRange(t, startDate, endDate))
  }

  /** What a transaction must satisfy to be listed under the given filters; a range needs both of its ends. */
  predicate Selected(t: TransactionDom, kind: Option<TransactionType>, startDate: Option<int>, endDate: Option<int>) {
    && (kind.Some? ==> OfKind(t, kind.value))
    && (startDate.Some? && endDate.Some? ==> InRange(t, startDate.value, endDate.value))
  }

  /** The filters as one predicate. */
  function SelectedBy(kind: Option<TransactionType>, startDate: Option<int>, endDate: Option<int>): TransactionDom -> bool {
    t => Selected(t, kind, startDate, endDate)
  }

  /** The use case's dispatch over the filters that are set. */
  function GetTransactions(all: seq<TransactionDom>, kind: Option<TransactionType>, startDate: Option<int>,
                           endDate: Option<int>): (r: seq<TransactionDom>)
    ensures |r| <= |all|
    ensures forall t :: t in r ==> t in all && Selected(t, kind, startDate, endDate)
    ensures forall t :: t in all && Selected(t, kind, startDate, endDate) ==> t in r
  {
    if kind.Some? && startDate.Some? && endDate.Some? then
      var inRange := ByDateRange(all, startDate.value, endDate.value);
      FilterComplete(inRange, t => OfKind(t, kind.value));
      Filter(ByDateRange(all, startDate.value, endDate.value), t => OfKind(t, kind.value))
    else if kind.Some? then ByType(all, kind.value)
    else if startDate.Some? && endDate.Some? then ByDateRange(all, startDate.value, endDate.value)
    else all
  }

  /** Whichever branch is taken, the result is the full listing filtered by the filters that are set. */
  lemma GetTransactionsIsFilter(all: seq<TransactionDom>, kind: Option<TransactionType>, startDate: Option<int>,
                                endDate: Option<int>)
    ensures GetTransactions(all, kind, startDate, endDate) == Filter(all, SelectedBy(kind, startDate, endDate))
  {
    var selected := SelectedBy(kind, startDate, endDate);
    if kind.Some? && startDate.Some? && endDate.Some? {
      FilterFilter(all, t => InRange(t, startDate.value, endDate.value), t => OfKind(t, kind.value), selected);
    } else if kind.Some? {
      FilterCongruent(all, t => OfKind(t, kind.value), selected);
    } else if startDate.Some? && endDate.Some? {
      FilterCongruent(all, t => InRange(t, startDate.value, endDate.value), selected);
    } else {
      FilterAll(all, selected);
    }
  }

  /**
   * The listing keeps the full listing's order and holds exactly the
   * transactions the filters select.
   */
  lemma GetTransactionsSpec(all: seq<TransactionDom>, kind: Option<TransactionType>, startDate: Option<int>,
                            endDate: Option<int>)
    ensures IsSubsequence(GetTransactions(all, kind, startDate, endDate), all)
    ensures forall t :: t in GetTransactions(all, kind, startDate, endDate) ==> t in all && Selected(t, kind, startDate, endDate)
    ensures forall t :: t in all && Selected(t, kind, startDate, endDate) ==> t in GetTransactions(all, kind, startDate, endDate)
  {
    var selected := SelectedBy(kind, startDate, endDate);
    GetTransactionsIsFilter(all, kind, startDate, endDate);
    FilterIsSubsequence(all, selected);
    forall t | t in all && Selected(t, kind, startDate, endDate)
      ensures t in GetTransactions(all, kind, startDate, endDate)
    {
      FilterKeeps(all, selected, t);
    }
  }
}
