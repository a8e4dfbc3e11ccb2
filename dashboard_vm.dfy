/**
 * The dashboard's view model: it shows the latest `DashboardData` the
 * dashboard use case delivered, or the error that ended the stream, and
 * sends navigation events.
 */
module DashboardFeature {
  import opened Wrappers
  import opened Domain

  datatype DashboardEvent =
    | NavigateToAddTransaction
    | NavigateToAllTransactions
    | NavigateToTransactionDetail(transactionId: int)

  datatype DashboardUiState = DashboardUiState(
    isLoading: bool,
    error: Option<string>,
    totalBalance: real,
    monthlyIncome: real,
    monthlyExpense: real,
    recentTransactions: seq<TransactionDom>,
    spendingByCategory: seq<CategoryWithAmount>)
  {
    /** Whether the recent-transactions card has a row to show. */
    function HasTransactions(): (has: bool)
      ensures has <==> |recentTransactions| > 0
    {
      recentTransactions != []
    }

    /** Whether the spending chart has a slice to show. */
    function HasSpendingData(): (has: bool)
      ensures has <==> |spendingByCategory| > 0
    {
      spendingByCategory != []
    }

    /** The month's net: what the income exceeds the expense by, negative for a month in deficit. */
    function MonthlyNet(): (net: real)
      ensures net + monthlyExpense == monthlyIncome
      ensures net < 0.0 <==> monthlyIncome < monthlyExpense
    {
      monthlyIncome - monthlyExpense
    }

    /** The figures on display, as the use case delivers them. */
    function Data(): DashboardData {
      DashboardData(totalBalance, monthlyIncome, monthlyExpense, recentTransactions, spendingByCategory)
    }
  }

  const InitialState := DashboardUiState(true, None, 0.0, 0.0, 0.0, [], [])

  /** The state once `data` arrived: every figure is the delivered one, and nothing is loading or failed. */
  function Loaded(state: DashboardUiState, data: DashboardData): (s: DashboardUiState)
    ensures s.Data() == data && !s.isLoading && s.error.None?
    ensures s.HasTransactions() <==> data.recentTransactions != []
    ensures s.HasSpendingData() <==> data.spendingByCategory != []
    ensures s.MonthlyNet() + data.monthlyExpense == data.monthlyIncome
  {
    state.(isLoading := false, error := None, totalBalance := data.totalBalance, monthlyIncome := data.monthlyIncome,
           monthlyExpense := data.monthlyExpense, recentTransactions := data.recentTransactions,
           spendingByCategory := data.spendingByCategory)
  }

  /** Data arriving after an error or after other data replaces everything on display. */
  lemma LoadedForgetsPast(s1: DashboardUiState, s2: DashboardUiState, data: DashboardData)
    ensures Loaded(s1, data) == Loaded(s2, data)
  {
  }

  /** The state once the stream failed: the error is the exception's message, or "Unknown error". */
  function Failed(state: DashboardUiState, message: Option<string>): (s: DashboardUiState)
    ensures !s.isLoading && s.error.Some?
    ensures message.Some? ==> s.error == message
    ensures message.None? ==> s.error == Some("Unknown error")
    ensures s.Data() == state.Data()
  {
    state.(isLoading := false, error := Some(message.GetOr("Unknown error")))
  }

  class DashboardViewModel {
    var uiState: DashboardUiState
    var events: seq<DashboardEvent>

    constructor()
      ensures uiState == InitialState && events == []
      ensures uiState.isLoading && uiState.error.None?
      ensures !uiState.HasTransactions() && !uiState.HasSpendingData() && uiState.MonthlyNet() == 0.0
    {
      uiState := InitialState;
      events := [];
    }

    /** The dashboard stream has (re)started, as on creation and on retry. */
    method OnLoadStarted()
      modifies this
      ensures uiState == old(uiState).(isLoading := true) && events == old(events)
    {
      uiState := uiState.(isLoading := true);
    }

    method OnDataLoaded(data: DashboardData)
      modifies this
      ensures uiState == Loaded(old(uiState), data) && events == old(events)
    {
      uiState := Loaded(uiState, data);
    }

    method OnLoadFailed(message: Option<string>)
      modifies this
      ensures uiState == Failed(old(uiState), message) && events == old(events)
    {
      uiState := Failed(uiState, message);
    }

    method OnAddTransactionClick()
      modifies this
      ensures events == old(events) + [NavigateToAddTransaction] && uiState == old(uiState)
    {
      events := events + [NavigateToAddTransaction];
    }

    method OnSeeAllTransactionsClick()
      modifies this
      ensures events == old(events) + [NavigateToAllTransactions] && uiState == old(uiState)
    {
      events := events + [NavigateToAllTransactions];
    }

    method OnTransactionClick(transactionId: int)
      modifies this
      ensures events == old(events) + [NavigateToTransactionDetail(transactionId)] && uiState == old(uiState)
    {
      events := events + [NavigateToTransactionDetail(transactionId)];
    }
  }
}
