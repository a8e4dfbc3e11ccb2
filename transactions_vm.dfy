/**
 * The transactions screen's view model: the chosen filter, the listing
 * the filter selects (also grouped by day), navigation events and the
 * delete confirmation. The listing arrives through `OnTransactionsLoaded`
 * with the full listing it is taken from.
 */
module TransactionsFeature {
  import opened Wrappers
  import opened Domain
  import opened Collections
  import opened Extensions
  import opened Ledger
  import opened TransactionQueries
  import opened TransactionUseCases

  /** `TransactionFilter`; the constructors are capitalised so as not to clash with `TransactionType`'s. */
  datatype TransactionFilter = All | Income | Expense {
    /** The chip label, one per filter and naming the type the filter asks for. */
    function Label(): (name: string)
      ensures name == "All" <==> FilterType(this).None?
      ensures name == "Income" <==> FilterType(this) == Some(INCOME)
      ensures name == "Expense" <==> FilterType(this) == Some(EXPENSE)
    {
      match this
      case All => "All"
      case Income => "Income"
      case Expense => "Expense"
    }
  }

  datatype TransactionsEvent =
    | NavigateToEditTransaction(transactionId: int)
    | NavigateToAddTransaction
    | ShowSnackbar(message: string, actionLabel: Option<string>)

  datatype TransactionsUiState = TransactionsUiState(
    isLoading: bool,
    error: Option<string>,
    transactions: seq<TransactionDom>,
    groupedTransactions: seq<Group<TransactionDom>>,
    selectedFilter: TransactionFilter,
    showDeleteConfirm: bool,
    transactionToDelete: Option<TransactionDom>)
  {
    /** Nothing to list once loading is over. */
    function IsEmpty(): (empty: bool)
      ensures empty ==> !isLoading && TransactionCount() == 0
      ensures !isLoading && TransactionCount() == 0 ==> empty
    {
      transactions == [] && !isLoading
    }

    function TransactionCount(): (n: nat)
      ensures n == 0 <==> transactions == []
      ensures forall t :: t in transactions ==> n > 0
    {
      |transactions|
    }

    /** The filter's name in lower case: the chip label's own letters, keyed by the type asked for. */
    function FilterLabel(): (name: string)
      ensures name == "all" <==> FilterType(selectedFilter).None?
      ensures name == "income" <==> FilterType(selectedFilter) == Some(INCOME)
      ensures name == "expense" <==> FilterType(selectedFilter) == Some(EXPENSE)
      ensures |name| == |selectedFilter.Label()|
    {
      match selectedFilter
      case All => "all"
      case Income => "income"
      case Expense => "expense"
    }
  }

  const InitialState := TransactionsUiState(true, None, [], [], All, false, None)

  /** The type the listing is asked for: none for `All`, otherwise the filter's own type. */
  function FilterType(filter: TransactionFilter): (kind: Option<TransactionType>)
    ensures kind.None? <==> filter == All
    ensures kind == Some(INCOME) <==> filter == Income
    ensures kind == Some(EXPENSE) <==> filter == Expense
  {
    match filter
    case All => None
    case Income => Some(INCOME)
    case Expense => Some(EXPENSE)
  }

  /** Whether the filter lets a transaction through. */
  predicate Admits(filter: TransactionFilter, t: TransactionDom) {
    match filter
    case All => true
    case Income => t.kind == INCOME
    case Expense => t.kind == EXPENSE
  }

  /** The listing a filter selects. */
  function Listing(all: seq<TransactionDom>, filter: TransactionFilter): seq<TransactionDom> {
    GetTransactions(all, FilterType(filter), None, None)
  }

  /**
   * The listing under a filter is the full listing with exactly the
   * transactions the filter admits, in their order; under `All` it is the
   * full listing itself.
   */
  lemma ListingSpec(all: seq<TransactionDom>, filter: TransactionFilter)
    ensures IsSubsequence(Listing(all, filter), all)
    ensures forall t :: t in Listing(all, filter) <==> t in all && Admits(filter, t)
    ensures filter == All ==> Listing(all, filter) == all
  {
    GetTransactionsSpec(all, FilterType(filter), None, None);
  }

  /** The snackbar shown after a deletion attempt. */
  function DeleteMessage(outcome: Result<()>): (message: string)
    ensures outcome.Success? ==> message == "Transaction deleted"
    ensures outcome.Failure? ==> message == outcome.message
  {
    match outcome
    case Success(_) => "Transaction deleted"
    case Failure(m) => m
  }

  class TransactionsViewModel {
    var uiState: TransactionsUiState
    /** The filter the listing follows; the state's copy catches up when the next listing arrives. */
    var selectedFilter: TransactionFilter
    var events: seq<TransactionsEvent>

    constructor()
      ensures uiState == InitialState && selectedFilter == All && events == []
      ensures uiState.FilterLabel() == "all" && !uiState.IsEmpty()
    {
      uiState := InitialState;
      selectedFilter := All;
      events := [];
    }

    /** The listing query has (re)started. */
    method OnLoadStarted()
      modifies this
      ensures uiState == old(uiState).(isLoading := true)
      ensures selectedFilter == old(selectedFilter) && events == old(events)
    {
      uiState := uiState.(isLoading := true);
    }

    /**
     * The listing for the current filter arrived, taken from the full
     * listing `all`: it is shown both as a list and grouped by the day
     * label `dayLabel` gives each date, and the state records the filter.
     */
    method OnTransactionsLoaded(all: seq<TransactionDom>, dayLabel: int -> string)
      modifies this
      ensures uiState == old(uiState).(isLoading := false, error := None,
                                       transactions := Listing(all, old(selectedFilter)),
                                       groupedTransactions := GroupByDate(Listing(all, old(selectedFilter)), dayLabel),
                                       selectedFilter := old(selectedFilter))
      ensures selectedFilter == old(selectedFilter) && events == old(events)
      ensures forall t :: t in uiState.transactions <==> t in all && Admits(selectedFilter, t)
      ensures multiset(Flatten(uiState.groupedTransactions)) == multiset(uiState.transactions)
      ensures uiState.TransactionCount() <= |all|
    {
      var listing := GetTransactions(all, FilterType(selectedFilter), None, None);
      ListingSpec(all, selectedFilter);
      uiState := uiState.(isLoading := false, error := None, transactions := listing,
                          groupedTransactions := GroupByDate(listing, dayLabel), selectedFilter := selectedFilter);
    }

    /** The listing query failed: its message is shown, or "Unknown error" when it has none. */
    method OnLoadFailed(message: Option<string>)
      modifies this
      ensures uiState == old(uiState).(isLoading := false, error := Some(message.GetOr("Unknown error")))
      ensures selectedFilter == old(selectedFilter) && events == old(events)
    {
      uiState := uiState.(isLoading := false, error := Some(message.GetOr("Unknown error")));
    }

    /** Only the filter changes; the state follows when the new listing arrives. */
    method OnFilterChange(filter: TransactionFilter)
      modifies this
      ensures selectedFilter == filter && uiState == old(uiState) && events == old(events)
    {
      selectedFilter := filter;
    }

    method OnTransactionClick(transactionId: int)
      modifies this
      ensures events == old(events) + [NavigateToEditTransaction(transactionId)]
      ensures uiState == old(uiState) && selectedFilter == old(selectedFilter)
    {
      events := events + [NavigateToEditTransaction(transactionId)];
    }

    method OnAddTransactionClick()
      modifies this
      ensures events == old(events) + [NavigateToAddTransaction]
      ensures uiState == old(uiState) && selectedFilter == old(selectedFilter)
    {
      events := events + [NavigateToAddTransaction];
    }

    method OnDeleteTransaction(transaction: TransactionDom)
      modifies this
      ensures uiState == old(uiState).(showDeleteConfirm := true, transactionToDelete := Some(transaction))
      ensures selectedFilter == old(selectedFilter) && events == old(events)
    {
      uiState := uiState.(showDeleteConfirm := true, transactionToDelete := Some(transaction));
    }

    /**
     * Deletes the transaction awaiting confirmation, if any: the
     * confirmation closes first, then "Transaction deleted" or the failure
     * message is shown, without an action label.
     */
    method OnConfirmDelete(store: Store, now: int)
      requires store.Valid()
      modifies this, store
      ensures store.Valid()
      ensures old(uiState.transactionToDelete).None? ==> unchanged(this) && unchanged(store)
      ensures old(uiState.transactionToDelete).Some? ==>
                var id := old(uiState.transactionToDelete).value.id;
                && uiState == old(uiState).(showDeleteConfirm := false, transactionToDelete := None)
                && selectedFilter == old(selectedFilter)
                && events == old(events) + [ShowSnackbar(
                     if id in old(store.transactions) then "Transaction deleted" else "Transaction not found", None)]
                && store.transactions == old(store.transactions) - {id}
                && store.categories == old(store.categories) && store.opening == old(store.opening)
                && (id !in old(store.transactions) ==> store.accounts == old(store.accounts))
                && (id in old(store.transactions) ==>
                      && store.accounts.Keys == old(store.accounts).Keys
                      && forall aid :: aid in store.accounts ==>
                           store.accounts[aid] == old(store.accounts)[aid].(balance := old(store.accounts)[aid].balance
                             - Effect(old(store.transactions)[id], aid)))
    {
      if uiState.transactionToDelete.None? {
        return;
      }
      var transaction := uiState.transactionToDelete.value;
      uiState := uiState.(showDeleteConfirm := false, transactionToDelete := None);
      var outcome := DeleteTransaction(store, transaction.id, now);
      events := events + [ShowSnackbar(DeleteMessage(outcome), None)];
    }

    method OnDismissDeleteConfirm()
      modifies this
      ensures uiState == old(uiState).(showDeleteConfirm := false, transactionToDelete := None)
      ensures selectedFilter == old(selectedFilter) && events == old(events)
    {
      uiState := uiState.(showDeleteConfirm := false, transactionToDelete := None);
    }
  }
}
