/**
 * The add/edit transaction form's view model: the form's fields and their
 * validation errors, the choices offered, and the save and delete actions.
 * Turning the amount text into a number is the parameter `parse`, standing
 * for `String.toDoubleOrNull`.
 */
module TransactionManagementFeature {
  import opened Wrappers
  import opened Domain
  import opened Entities
  import opened Text
  import opened Collections
  import opened Ledger
  import opened TransactionUseCases

  datatype TransactionManagementEvent =
    | NavigateBack
    | TransactionSaved
    | TransactionDeleted
    | ShowSnackbar(message: string)

  datatype TransactionManagementUiState = TransactionManagementUiState(
    isEditMode: bool,
    transactionId: Option<int>,
    isLoading: bool,
    isSaving: bool,
    amount: string,
    kind: TransactionType,
    selectedCategory: Option<CategoryDom>,
    selectedAccount: Option<AccountDom>,
    date: int,
    note: string,
    categories: seq<CategoryDom>,
    accounts: seq<AccountDom>,
    amountError: Option<string>,
    categoryError: Option<string>,
    accountError: Option<string>,
    showDatePicker: bool,
    showDeleteConfirm: bool)
  {
    /** The heading names the form's mode. */
    function ScreenTitle(): (title: string)
      ensures title == "Edit Transaction" <==> isEditMode
      ensures title == "Add Transaction" <==> !isEditMode
    {
      if isEditMode then "Edit Transaction" else "Add Transaction"
    }

    /** Save is offered once an amount has been typed, both pickers are set, and no save is running. */
    function CanSave(): (can: bool)
      ensures can ==> exists i :: 0 <= i < |amount| && !IsWhitespace(amount[i])
      ensures can ==> selectedCategory.Some? && selectedAccount.Some? && !isSaving
    {
      BlankMeansWhitespaceOnly(amount);
      !IsBlank(amount) && selectedCategory.Some? && selectedAccount.Some? && !isSaving
    }

    /** Some field carries a message exactly when not all three are clear. */
    function HasErrors(): (has: bool)
      ensures !has <==> amountError == None && categoryError == None && accountError == None
    {
      amountError.Some? || categoryError.Some? || accountError.Some?
    }
  }

  /** The form as it opens: an expense dated `now`, in edit mode exactly when a transaction id is given. */
  function InitialState(transactionId: Option<int>, now: int): (s: TransactionManagementUiState)
    ensures s.isEditMode <==> transactionId.Some?
    ensures s.ScreenTitle() == (if transactionId.Some? then "Edit Transaction" else "Add Transaction")
    ensures !s.CanSave() && !s.HasErrors()
  {
    TransactionManagementUiState(transactionId.Some?, transactionId, false, false, "", EXPENSE, None, None, now, "",
                                 [], [], None, None, None, false, false)
  }

  // ----- The amount field -----

  predicate IsAmountChar(c: char) {
    IsDigit(c) || c == '.'
  }

  /** Text the amount field can hold: digits and at most one decimal point. */
  predicate AmountText(s: string) {
    (forall i :: 0 <= i < |s| ==> IsAmountChar(s[i])) && Count(s, '.') <= 1
  }

  /**
   * What the amount field holds after `typed` is entered over `previous`:
   * the typed text without its other characters, unless that has more than
   * one decimal point, in which case the field keeps `previous`. Otherwise
   * the result is the part of `typed` that keeps every digit and point, in
   * order, and nothing else.
   */
  function AmountInput(previous: string, typed: string): (r: string)
    ensures Count(typed, '.') > 1 ==> r == previous
    ensures Count(typed, '.') <= 1 ==> IsSubsequence(r, typed) && AmountText(r)
    ensures Count(typed, '.') <= 1 ==> forall c :: IsAmountChar(c) ==> Count(r, c) == Count(typed, c)
    ensures AmountText(previous) ==> AmountText(r)
  {
    var filtered := Filter(typed, IsAmountChar);
    FilterIsSubsequence(typed, IsAmountChar);
    assert forall c :: Count(filtered, c) == if IsAmountChar(c) then Count(typed, c) else 0 by {
      forall c ensures Count(filtered, c) == if IsAmountChar(c) then Count(typed, c) else 0 {
        FilterCount(typed, IsAmountChar, c);
      }
    }
    if Count(filtered, '.') > 1 then previous else filtered
  }

  /** Text the field can already hold is taken exactly as typed. */
  lemma AmountInputAccepts(previous: string, typed: string)
    requires AmountText(typed)
    ensures AmountInput(previous, typed) == typed
  {
    assert forall c :: c in typed ==> IsAmountChar(c);
    FilterAll(typed, IsAmountChar);
  }

  /** Characters other than digits and '.' never reach the field. */
  lemma AmountInputDropsOthers(previous: string, typed: string, c: char)
    requires AmountText(previous) && !IsAmountChar(c)
    ensures c !in AmountInput(previous, typed)
  {
  }

  // ----- The account choice -----

  /** `accounts.find { it.isDefault }`. */
  function FirstDefault(accounts: seq<AccountDom>): (r: Option<AccountDom>)
    ensures r.None? <==> forall a :: a in accounts ==> !a.isDefault
    ensures r.Some? ==> exists i :: 0 <= i < |accounts| && accounts[i] == r.value && accounts[i].isDefault
                                    && forall j :: 0 <= j < i ==> !accounts[j].isDefault
  {
    if accounts == [] then None
    else if accounts[0].isDefault then Some(accounts[0])
    else
      var rest := FirstDefault(accounts[1..]);
      assert rest.Some? ==> exists i :: 1 <= i < |accounts| && accounts[i] == rest.value && accounts[i].isDefault
                                        && forall j :: 0 <= j < i ==> !accounts[j].isDefault by {
        if rest.Some? {
          var k :| 0 <= k < |accounts[1..]| && accounts[1..][k] == rest.value && accounts[1..][k].isDefault
                   && forall j :: 0 <= j < k ==> !accounts[1..][j].isDefault;
          assert accounts[k + 1] == rest.value;
          assert forall j :: 0 <= j < k + 1 ==> !accounts[j].isDefault by {
            forall j | 0 <= j < k + 1 ensures !accounts[j].isDefault {
              if j > 0 {
                assert accounts[j] == accounts[1..][j - 1];
              }
            }
          }
        }
      }
      rest
  }

  /**
   * The account selected once the accounts load: a selection already made
   * stays; otherwise the first default account, else the first account,
   * else none.
   */
  function AutoSelect(current: Option<AccountDom>, accounts: seq<AccountDom>): (r: Option<AccountDom>)
    ensures current.Some? ==> r == current
    ensures r.None? <==> current.None? && accounts == []
    ensures current.None? && r.Some? ==> r.value in accounts
    ensures current.None? && (exists a :: a in accounts && a.isDefault) ==> r == FirstDefault(accounts) && r.value.isDefault
    ensures current.None? && accounts != [] && (forall a :: a in accounts ==> !a.isDefault) ==> r == Some(accounts[0])
  {
    if current.Some? then current
    else if FirstDefault(accounts).Some? then FirstDefault(accounts)
    else if accounts != [] then Some(accounts[0])
    else None
  }

  // ----- Validation -----

  /** The amount is valid when it parses to a positive number; text that does not parse counts as zero. */
  predicate AmountValid(amount: string, parse: string -> Option<real>) {
    parse(amount).GetOr(0.0) > 0.0
  }

  predicate FormValid(s: TransactionManagementUiState, parse: string -> Option<real>) {
    AmountValid(s.amount, parse) && s.selectedCategory.Some? && s.selectedAccount.Some?
  }

  /** An error field after its check: the check's message when it fails, the field as it was otherwise. */
  function Checked(passes: bool, error: Option<string>, message: string): (e: Option<string>)
    ensures passes ==> e == error
    ensures !passes ==> e == Some(message)
  {
    if passes then error else Some(message)
  }

  /** The form after validation: each failing check sets its own error and leaves the others alone. */
  function Validated(s: TransactionManagementUiState, parse: string -> Option<real>): (v: TransactionManagementUiState)
    ensures !FormValid(s, parse) ==> v.HasErrors()
    ensures FormValid(s, parse) ==> v == s
    ensures v.(amountError := s.amountError, categoryError := s.categoryError, accountError := s.accountError) == s
  {
    s.(amountError := Checked(AmountValid(s.amount, parse), s.amountError, "Enter a valid amount"),
       categoryError := Checked(s.selectedCategory.Some?, s.categoryError, "Select a category"),
       accountError := Checked(s.selectedAccount.Some?, s.accountError, "Select an account"))
  }

  /** When blank text never parses, a form that passes validation can be saved unless a save is running. */
  lemma ValidFormCanSave(s: TransactionManagementUiState, parse: string -> Option<real>)
    requires forall t :: IsBlank(t) ==> parse(t).None?
    requires FormValid(s, parse) && !s.isSaving
    ensures s.CanSave()
  {
    assert parse(s.amount).Some?;
  }

  // ----- Save and delete outcomes -----

  /** The outcome of the use case a save runs: an update in edit mode, an addition otherwise. */
  ghost function SaveOutcome(s: TransactionManagementUiState, amount: real, accounts: map<int, Account>,
                             categories: map<int, Category>, transactions: map<int, Transaction>): Result<()>
    requires s.selectedCategory.Some? && s.selectedAccount.Some?
  {
    var accountId, categoryId := s.selectedAccount.value.id, s.selectedCategory.value.id;
    if s.isEditMode && s.transactionId.Some? then
      if amount <= 0.0 then Failure("Amount must be positive")
      else if s.transactionId.value !in transactions then Failure("Transaction not found")
      else if accountId !in accounts then Failure("Account not found")
      else if categoryId !in categories then Failure("Category not found")
      else Result.Success(())
    else
      if accountId !in accounts then Failure("Account not found")
      else if categoryId !in categories then Failure("Category not found")
      else Result.Success(())
  }

  /** The events a finished save sends: saved and back on success, the failure's message otherwise. */
  function SaveEvents(outcome: Result<()>): (es: seq<TransactionManagementEvent>)
    ensures outcome.Success? ==> es == [TransactionSaved, NavigateBack]
    ensures outcome.Failure? ==> es == [ShowSnackbar(outcome.message)]
  {
    match outcome
    case Success(_) => [TransactionSaved, NavigateBack]
    case Failure(m) => [ShowSnackbar(m)]
  }

  /** `note.ifBlank { null }`. */
  function NoteValue(note: string): (r: Option<string>)
    ensures r.None? <==> IsBlank(note)
    ensures r.Some? ==> r.value == note
  {
    if IsBlank(note) then None else Some(note)
  }

  /** The tables `AddTransactionUseCase` leaves for the form: one new row under `id`, and only the chosen account's balance moved by its signed amount. */
  ghost predicate FormAdded(form: TransactionManagementUiState, amount: real, now: int, id: int,
                            accounts0: map<int, Account>, txs0: map<int, Transaction>,
                            accounts1: map<int, Account>, txs1: map<int, Transaction>)
    requires form.selectedCategory.Some? && form.selectedAccount.Some?
  {
    var accountId, categoryId := form.selectedAccount.value.id, form.selectedCategory.value.id;
    && accountId in accounts0
    && txs1 == txs0[id := Transaction(id, Some(accountId), Some(categoryId), amount, form.kind,
                                      TrimOpt(NoteValue(form.note)), form.date, now)]
    && accounts1 == accounts0[accountId := accounts0[accountId].(balance := accounts0[accountId].balance
                                                                            + Signed(form.kind, amount))]
  }

  /**
   * The tables `UpdateTransactionUseCase` leaves for the form: row `tid` takes the form's fields, and every
   * balance moves by the new row's effect minus the old one's.
   */
  ghost predicate FormRewritten(form: TransactionManagementUiState, amount: real, tid: int,
                                accounts0: map<int, Account>, txs0: map<int, Transaction>,
                                accounts1: map<int, Account>, txs1: map<int, Transaction>)
    requires form.selectedCategory.Some? && form.selectedAccount.Some?
  {
    && tid in txs0
    && txs1 == txs0[tid := txs0[tid].(accountId := Some(form.selectedAccount.value.id),
                                      categoryId := Some(form.selectedCategory.value.id), amount := amount,
                                      kind := form.kind, note := TrimOpt(NoteValue(form.note)), date := form.date)]
    && accounts1.Keys == accounts0.Keys
    && forall aid :: aid in accounts1 ==>
         accounts1[aid] == accounts0[aid].(balance := accounts0[aid].balance - Effect(txs0[tid], aid) + Effect(txs1[tid], aid))
  }

  /**
   * The use case a valid form launches: `UpdateTransactionUseCase` in edit
   * mode, `AddTransactionUseCase` otherwise, with the parsed amount.
   */
  method SaveForm(store: Store, form: TransactionManagementUiState, amount: real, now: int) returns (result: Result<()>)
    requires store.Valid()
    requires form.selectedCategory.Some? && form.selectedAccount.Some? && amount > 0.0
    requires form.isEditMode == form.transactionId.Some?
    modifies store
    ensures store.Valid()
    ensures result == SaveOutcome(form, amount, old(store.accounts), old(store.categories), old(store.transactions))
    ensures result.Failure? ==> unchanged(store)
    ensures store.categories == old(store.categories) && store.opening == old(store.opening)
    ensures !form.isEditMode && result.Success? ==>
              FormAdded(form, amount, now, old(store.nextTransactionId), old(store.accounts), old(store.transactions),
                        store.accounts, store.transactions)
    ensures form.isEditMode && result.Success? ==>
              FormRewritten(form, amount, form.transactionId.value, old(store.accounts), old(store.transactions),
                            store.accounts, store.transactions)
  {
    var accountId, categoryId := form.selectedAccount.value.id, form.selectedCategory.value.id;
    if form.isEditMode {
      result := UpdateTransaction(store, form.transactionId.value, amount, form.kind, accountId, categoryId,
                                  NoteValue(form.note), form.date, now);
    } else {
      var added := AddTransaction(store, amount, form.kind, accountId, categoryId, NoteValue(form.note), form.date, now);
      result := if added.Success? then Result.Success(()) else Failure(added.message);
    }
  }

  class TransactionManagementViewModel {
    var uiState: TransactionManagementUiState
    var events: seq<TransactionManagementEvent>
    /** The navigation argument: the transaction being edited, or none when adding. */
    const transactionId: Option<int>

    /** The form keeps its mode and its id. */
    predicate Valid()
      reads this
    {
      && uiState.isEditMode == transactionId.Some?
      && uiState.transactionId == transactionId
    }

    constructor(transactionId: Option<int>, now: int)
      ensures this.transactionId == transactionId
      ensures uiState == InitialState(transactionId, now) && events == []
      ensures Valid()
    {
      this.transactionId := transactionId;
      uiState := InitialState(transactionId, now);
      events := [];
    }

    /** The accounts arrived: they are offered, and one is chosen if none was. */
    method OnAccountsLoaded(accounts: seq<AccountDom>)
      requires Valid()
      modifies this
      ensures Valid()
      ensures uiState == old(uiState).(accounts := accounts, selectedAccount := AutoSelect(old(uiState.selectedAccount), accounts))
      ensures events == old(events)
    {
      uiState := uiState.(accounts := accounts, selectedAccount := AutoSelect(uiState.selectedAccount, accounts));
    }

    /** The categories of the current type arrived. */
    method OnCategoriesLoaded(categories: seq<CategoryDom>)
      requires Valid()
      modifies this
      ensures Valid()
      ensures uiState == old(uiState).(categories := categories) && events == old(events)
    {
      uiState := uiState.(categories := categories);
    }

    method OnAmountChange(amount: string)
      requires Valid()
      modifies this
      ensures Valid()
      ensures uiState == old(uiState).(amount := AmountInput(old(uiState.amount), amount), amountError := None)
      ensures events == old(events)
    {
      var filtered := Filter(amount, IsAmountChar);
      var singleDecimal := if Count(filtered, '.') > 1 then uiState.amount else filtered;
      uiState := uiState.(amount := singleDecimal, amountError := None);
    }

    /** A different type clears the chosen category and its error; the same type changes nothing. */
    method OnTypeChange(kind: TransactionType)
      requires Valid()
      modifies this
      ensures Valid()
      ensures kind == old(uiState.kind) ==> uiState == old(uiState)
      ensures kind != old(uiState.kind) ==>
                uiState == old(uiState).(kind := kind, selectedCategory := None, categoryError := None)
      ensures events == old(events)
    {
      if kind != uiState.kind {
        uiState := uiState.(kind := kind, selectedCategory := None, categoryError := None);
      }
    }

    method OnCategorySelect(category: CategoryDom)
      requires Valid()
      modifies this
      ensures Valid()
      ensures uiState == old(uiState).(selectedCategory := Some(category), categoryError := None)
      ensures events == old(events)
    {
      uiState := uiState.(selectedCategory := Some(category), categoryError := None);
    }

    method OnAccountSelect(account: AccountDom)
      requires Valid()
      modifies this
      ensures Valid()
      ensures uiState == old(uiState).(selectedAccount := Some(account), accountError := None)
      ensures events == old(events)
    {
      uiState := uiState.(selectedAccount := Some(account), accountError := None);
    }

    method OnDateSelect(date: int)
      requires Valid()
      modifies this
      ensures Valid()
      ensures uiState == old(uiState).(date := date, showDatePicker := false) && events == old(events)
    {
      uiState := uiState.(date := date, showDatePicker := false);
    }

    method OnNoteChange(note: string)
      requires Valid()
      modifies this
      ensures Valid()
      ensures uiState == old(uiState).(note := note) && events == old(events)
    {
      uiState := uiState.(note := note);
    }

    method OnShowDatePicker()
      requires Valid()
      modifies this
      ensures Valid()
      ensures uiState == old(uiState).(showDatePicker := true) && events == old(events)
    {
      uiState := uiState.(showDatePicker := true);
    }

    method OnDismissDatePicker()
      requires Valid()
      modifies this
      ensures Valid()
      ensures uiState == old(uiState).(showDatePicker := false) && events == old(events)
    {
      uiState := uiState.(showDatePicker := false);
    }

    method OnDeleteClick()
      requires Valid()
      modifies this
      ensures Valid()
      ensures uiState == old(uiState).(showDeleteConfirm := true) && events == old(events)
    {
      uiState := uiState.(showDeleteConfirm := true);
    }

    method OnDismissDeleteConfirm()
      requires Valid()
      modifies this
      ensures Valid()
      ensures uiState == old(uiState).(showDeleteConfirm := false) && events == old(events)
    {
      uiState := uiState.(showDeleteConfirm := false);
    }

    /** `validateForm`: three independent checks, each setting its own error. */
    method ValidateForm(parse: string -> Option<real>) returns (isValid: bool)
      requires Valid()
      modifies this
      ensures Valid()
      ensures isValid == FormValid(old(uiState), parse)
      ensures uiState == Validated(old(uiState), parse) && events == old(events)
    {
      var form := uiState;
      isValid := true;
      var amount := parse(form.amount).GetOr(0.0);
      if amount <= 0.0 {
        form := form.(amountError := Some("Enter a valid amount"));
        isValid := false;
      }
      if form.selectedCategory.None? {
        form := form.(categoryError := Some("Select a category"));
        isValid := false;
      }
      if form.selectedAccount.None? {
        form := form.(accountError := Some("Select an account"));
        isValid := false;
      }
      uiState := form;
    }

    /**
     * `onSaveClick`: an invalid form only shows its errors. A valid one is
     * updated in edit mode and added otherwise; the amount passed on is the
     * parsed one, so an addition always gets the positive amount it needs.
     */
    method OnSaveClick(store: Store, parse: string -> Option<real>, now: int)
      requires Valid() && store.Valid()
      modifies this, store
      ensures Valid() && store.Valid()
      ensures !FormValid(old(uiState), parse) ==>
                uiState == Validated(old(uiState), parse) && events == old(events) && unchanged(store)
      ensures FormValid(old(uiState), parse) ==>
                var outcome := SaveOutcome(old(uiState), parse(old(uiState.amount)).value, old(store.accounts),
                                           old(store.categories), old(store.transactions));
                && uiState == old(uiState).(isSaving := false)
                && events == old(events) + SaveEvents(outcome)
                && (outcome.Failure? ==> unchanged(store))
      ensures FormValid(old(uiState), parse) && !old(uiState).isEditMode ==>
                var accountId, categoryId := old(uiState).selectedAccount.value.id, old(uiState).selectedCategory.value.id;
                accountId in old(store.accounts) && categoryId in old(store.categories) ==>
                  FormAdded(old(uiState), parse(old(uiState.amount)).value, now, old(store.nextTransactionId),
                            old(store.accounts), old(store.transactions), store.accounts, store.transactions)
      ensures FormValid(old(uiState), parse) && old(uiState).isEditMode ==>
                var tid := old(uiState).transactionId.value;
                var accountId, categoryId := old(uiState).selectedAccount.value.id, old(uiState).selectedCategory.value.id;
                tid in old(store.transactions) && accountId in old(store.accounts) && categoryId in old(store.categories) ==>
                  FormRewritten(old(uiState), parse(old(uiState.amount)).value, tid, old(store.accounts),
                                old(store.transactions), store.accounts, store.transactions)
      ensures store.categories == old(store.categories) && store.opening == old(store.opening)
    {
      var isValid := ValidateForm(parse);
      if !isValid {
        return;
      }
      var state0, events0 := uiState, events;
      assert state0 == old(uiState);
      uiState := uiState.(isSaving := true);
      var amount := parse(state0.amount).GetOr(0.0);
      assert amount == parse(old(uiState.amount)).value;
      var result := SaveForm(store, state0, amount, now);
      uiState := state0.(isSaving := false);
      events := events0 + SaveEvents(result);
    }

    /**
     * `onConfirmDelete`: only in edit mode. The confirmation closes and the
     * form shows it is busy; a deletion sends deleted and back, a failure
     * ends the busy state and shows the failure's message.
     */
    method OnConfirmDelete(store: Store, now: int)
      requires Valid() && store.Valid()
      modifies this, store
      ensures Valid() && store.Valid()
      ensures transactionId.None? ==> unchanged(this) && unchanged(store)
      ensures transactionId.Some? && transactionId.value in old(store.transactions) ==>
                && uiState == old(uiState).(showDeleteConfirm := false, isSaving := true)
                && events == old(events) + [TransactionDeleted, NavigateBack]
                && store.transactions == old(store.transactions) - {transactionId.value}
                && store.categories == old(store.categories) && store.opening == old(store.opening)
                && store.accounts.Keys == old(store.accounts).Keys
                && forall aid :: aid in store.accounts ==>
                     store.accounts[aid] == old(store.accounts)[aid].(balance := old(store.accounts)[aid].balance
                       - Effect(old(store.transactions)[transactionId.value], aid))
      ensures transactionId.Some? && transactionId.value !in old(store.transactions) ==>
                && uiState == old(uiState).(showDeleteConfirm := false, isSaving := false)
                && events == old(events) + [ShowSnackbar("Transaction not found")]
                && unchanged(store)
    {
      if transactionId.None? {
        return;
      }
      var id := transactionId.value;
      uiState := uiState.(showDeleteConfirm := false, isSaving := true);
      var result := DeleteTransaction(store, id, now);
      match result {
        case Success(_) =>
          events := events + [TransactionDeleted, NavigateBack];
        case Failure(message) =>
          uiState := uiState.(isSaving := false);
          events := events + [ShowSnackbar(message)];
      }
    }
  }
}
