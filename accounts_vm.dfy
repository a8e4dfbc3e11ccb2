/**
 * The accounts screen's view model. Its state is one immutable
 * `AccountsUiState` value that every handler replaces, and the snackbar
 * messages it sends are kept in `events`, oldest first. The use cases a
 * handler launches run to completion against the store before the handler
 * returns; the account list itself arrives through `OnAccountsLoaded`.
 */
module AccountsFeature {
  import opened Wrappers
  import opened Domain
  import opened Entities
  import opened Text
  import opened Ledger
  import opened AccountUseCases

  datatype AccountDialogState = Add | Edit(account: AccountDom)

  datatype AccountsEvent = ShowSnackbar(message: string)

  datatype AccountsUiState = AccountsUiState(
    isLoading: bool,
    isSaving: bool,
    error: Option<string>,
    accounts: seq<AccountDom>,
    totalBalance: real,
    dialogState: Option<AccountDialogState>,
    showDeleteConfirm: bool,
    accountToDelete: Option<AccountDom>)
  {
    /** Nothing to list once loading is over; an empty list holds no money. */
    function IsEmpty(): (empty: bool)
      ensures empty ==> !isLoading && |accounts| == 0 && TotalBalance(accounts) == 0.0
      ensures !isLoading && |accounts| == 0 ==> empty
    {
      accounts == [] && !isLoading
    }

    function ShowDialog(): (shown: bool)
      ensures shown <==> DialogTitle() != ""
    {
      dialogState.Some?
    }

    function IsEditMode(): (editing: bool)
      ensures editing ==> ShowDialog()
      ensures editing <==> DialogTitle() == "Edit Account"
    {
      dialogState.Some? && dialogState.value.Edit?
    }

    /** The dialog's heading: empty exactly when no dialog is open, otherwise naming its mode. */
    function DialogTitle(): (title: string)
      ensures title == "" <==> dialogState.None?
      ensures title == "Add Account" <==> dialogState == Some(Add)
      ensures title == "Edit Account" <==> dialogState.Some? && dialogState.value.Edit?
    {
      match dialogState
      case None => ""
      case Some(Add) => "Add Account"
      case Some(Edit(_)) => "Edit Account"
    }
  }

  const InitialState := AccountsUiState(true, false, None, [], 0.0, None, false, None)

  /** `accounts.sumOf { it.balance }`. */
  function TotalBalance(accounts: seq<AccountDom>): (total: real)
    ensures (forall i :: 0 <= i < |accounts| ==> accounts[i].balance >= 0.0) ==> total >= 0.0
  {
    if accounts == [] then 0.0 else accounts[0].balance + TotalBalance(accounts[1..])
  }

  /** The total of two lists shown one after the other is the sum of their totals. */
  lemma {:induction false} TotalBalanceAppend(a: seq<AccountDom>, b: seq<AccountDom>)
    ensures TotalBalance(a + b) == TotalBalance(a) + TotalBalance(b)
  {
    if a == [] {
      assert a + b == b;
    } else {
      assert (a + b)[1..] == a[1..] + b;
      TotalBalanceAppend(a[1..], b);
    }
  }

  /** A balance change on one listed account moves the total by exactly that change. */
  lemma {:induction false} TotalBalanceReplace(accounts: seq<AccountDom>, i: int, balance: real)
    requires 0 <= i < |accounts|
    ensures TotalBalance(accounts[i := accounts[i].(balance := balance)])
            == TotalBalance(accounts) - accounts[i].balance + balance
  {
    if i > 0 {
      assert accounts[i := accounts[i].(balance := balance)][1..] == accounts[1..][i - 1 := accounts[i].(balance := balance)];
      TotalBalanceReplace(accounts[1..], i - 1, balance);
    }
  }

  /** What saving from the dialog yields: the outcome of `AddAccountUseCase` or `UpdateAccountUseCase`. */
  ghost function SaveOutcome(dialog: AccountDialogState, name: string, accounts: map<int, Account>): Result<()> {
    if Trim(name) == [] then Failure("Account name cannot be empty")
    else if dialog.Edit? && dialog.account.id !in accounts then Failure("Account not found")
    else Result.Success(())
  }

  /** The snackbar shown after saving: the dialog's own confirmation, or the failure's message. */
  function SaveMessage(dialog: AccountDialogState, outcome: Result<()>): (message: string)
    ensures outcome.Failure? ==> message == outcome.message
    ensures outcome.Success? ==> (message == "Account updated" <==> dialog.Edit?)
    ensures outcome.Success? ==> (message == "Account added" <==> dialog.Add?)
  {
    match outcome
    case Success(_) => if dialog.Add? then "Account added" else "Account updated"
    case Failure(m) => m
  }

  /** The snackbar shown after a deletion attempt. */
  function DeleteMessage(r: AccountDeleteResult): (message: string)
    ensures message == "Account deleted" <==> r == AccountDeleteResult.Success
    ensures message == "Failed to delete" <==> r.Error?
    ensures message == "Account not found" <==> r == AccountNotFound
    ensures message == "Account is default account" <==> r == CannotDeleteDefault
  {
    match r
    case AccountNotFound => "Account not found"
    case CannotDeleteDefault => "Account is default account"
    case Error(_) => "Failed to delete"
    case Success => "Account deleted"
  }

  /** The use case a save launches: `AddAccountUseCase` from the add dialog, `UpdateAccountUseCase` from the edit dialog. */
  method SaveAccountDialog(store: Store, dialog: AccountDialogState, name: string, icon: string, kind: AccountType,
                           color: int, initialBalance: real, isDefault: bool, now: int) returns (result: Result<()>)
    requires store.Valid()
    modifies store
    ensures store.Valid()
    ensures result == SaveOutcome(dialog, name, old(store.accounts))
    ensures result.Failure? ==> unchanged(store)
    ensures store.categories == old(store.categories) && store.transactions == old(store.transactions)
    ensures AtMostOneDefault(old(store.accounts)) ==> AtMostOneDefault(store.accounts)
    ensures dialog.Add? && Trim(name) != [] ==>
              var id := old(store.nextAccountId);
              && id !in old(store.accounts) && id in store.accounts
              && store.accounts[id] == Account(id, Trim(name), kind, initialBalance, color, icon, isDefault, now)
              && store.opening == old(store.opening)[id := initialBalance]
              && Demoted(old(store.accounts), store.accounts - {id})
              && (!isDefault ==> store.accounts - {id} == old(store.accounts))
              && (isDefault && AtMostOneDefault(old(store.accounts)) ==>
                    forall k :: k in store.accounts ==> (store.accounts[k].isDefault <==> k == id))
    ensures dialog.Edit? ==> store.opening == old(store.opening)
    ensures dialog.Edit? && Trim(name) != [] && dialog.account.id in old(store.accounts) ==>
              var id := dialog.account.id;
              && id in store.accounts
              && store.accounts[id] == old(store.accounts)[id].(name := Trim(name), kind := kind, icon := icon,
                                                               color := color, isDefault := isDefault)
              && Demoted(old(store.accounts) - {id}, store.accounts - {id})
              && (!isDefault || old(store.accounts)[id].isDefault ==>
                    store.accounts - {id} == old(store.accounts) - {id})
              && (isDefault && AtMostOneDefault(old(store.accounts)) ==>
                    forall k :: k in store.accounts ==> (store.accounts[k].isDefault <==> k == id))
  {
    match dialog {
      case Add =>
        var added := AddAccount(store, name, kind, icon, color, initialBalance, isDefault, now);
        result := if added.Success? then Result.Success(()) else Failure(added.message);
      case Edit(account) =>
        result := UpdateAccount(store, account.id, name, kind, icon, color, isDefault);
    }
  }

  class AccountsViewModel {
    var uiState: AccountsUiState
    var events: seq<AccountsEvent>

    constructor()
      ensures uiState == InitialState && events == []
      ensures uiState.isLoading && !uiState.IsEmpty() && !uiState.ShowDialog()
    {
      uiState := InitialState;
      events := [];
    }

    /** The account query has started. */
    method OnLoadStarted()
      modifies this
      ensures uiState == old(uiState).(isLoading := true) && events == old(events)
    {
      uiState := uiState.(isLoading := true);
    }

    /** The account query delivered `accounts`: they are shown with their total. */
    method OnAccountsLoaded(accounts: seq<AccountDom>)
      modifies this
      ensures uiState == old(uiState).(isLoading := false, error := None, accounts := accounts,
                                       totalBalance := TotalBalance(accounts))
      ensures events == old(events)
      ensures uiState.IsEmpty() <==> accounts == []
    {
      uiState := uiState.(isLoading := false, error := None, accounts := accounts, totalBalance := TotalBalance(accounts));
    }

    /** The account query failed; its message, possibly absent, is kept. */
    method OnLoadFailed(message: Option<string>)
      modifies this
      ensures uiState == old(uiState).(isLoading := false, error := message) && events == old(events)
    {
      uiState := uiState.(isLoading := false, error := message);
    }

    method OnAddAccountClick()
      modifies this
      ensures uiState == old(uiState).(dialogState := Some(Add)) && events == old(events)
      ensures uiState.ShowDialog() && !uiState.IsEditMode() && uiState.DialogTitle() == "Add Account"
    {
      uiState := uiState.(dialogState := Some(Add));
    }

    method OnEditAccountClick(account: AccountDom)
      modifies this
      ensures uiState == old(uiState).(dialogState := Some(Edit(account))) && events == old(events)
      ensures uiState.ShowDialog() && uiState.IsEditMode() && uiState.DialogTitle() == "Edit Account"
    {
      uiState := uiState.(dialogState := Some(Edit(account)));
    }

    method OnDismissDialog()
      modifies this
      ensures uiState == old(uiState).(dialogState := None) && events == old(events)
      ensures !uiState.ShowDialog() && !uiState.IsEditMode() && uiState.DialogTitle() == ""
    {
      uiState := uiState.(dialogState := None);
    }

    /**
     * Saves the dialog's account: adds a new one, or updates the account the
     * dialog was opened for. Nothing happens when no dialog is open. The
     * dialog closes only when the save succeeds.
     */
    method OnSaveAccount(store: Store, name: string, icon: string, kind: AccountType, color: int,
                         initialBalance: real, isDefault: bool, now: int)
      requires store.Valid()
      modifies this, store
      ensures store.Valid()
      ensures old(uiState.dialogState).None? ==> unchanged(this) && unchanged(store)
      ensures old(uiState.dialogState).Some? ==>
                var dialog := old(uiState.dialogState).value;
                var outcome := SaveOutcome(dialog, name, old(store.accounts));
                && uiState == old(uiState).(isSaving := false,
                                            dialogState := if outcome.Success? then None else Some(dialog))
                && events == old(events) + [ShowSnackbar(SaveMessage(dialog, outcome))]
                && (outcome.Failure? ==> unchanged(store))
      ensures store.categories == old(store.categories) && store.transactions == old(store.transactions)
      ensures AtMostOneDefault(old(store.accounts)) ==> AtMostOneDefault(store.accounts)
      ensures old(uiState.dialogState) == Some(Add) && Trim(name) != [] ==>
                var id := old(store.nextAccountId);
                && id !in old(store.accounts) && id in store.accounts
                && store.accounts[id] == Account(id, Trim(name), kind, initialBalance, color, icon, isDefault, now)
                && store.opening == old(store.opening)[id := initialBalance]
                && Demoted(old(store.accounts), store.accounts - {id})
                && (!isDefault ==> store.accounts - {id} == old(store.accounts))
                && (isDefault && AtMostOneDefault(old(store.accounts)) ==>
                      forall k :: k in store.accounts ==> (store.accounts[k].isDefault <==> k == id))
      ensures old(uiState.dialogState) != Some(Add) ==> store.opening == old(store.opening)
      ensures old(uiState.dialogState).Some? && old(uiState.dialogState).value.Edit? && Trim(name) != [] ==>
                var id := old(uiState.dialogState).value.account.id;
                id in old(store.accounts) ==>
                  && id in store.accounts
                  && store.accounts[id] == old(store.accounts)[id].(name := Trim(name), kind := kind, icon := icon,
                                                                   color := color, isDefault := isDefault)
                  && Demoted(old(store.accounts) - {id}, store.accounts - {id})
                  && (!isDefault || old(store.accounts)[id].isDefault ==>
                        store.accounts - {id} == old(store.accounts) - {id})
                  && (isDefault && AtMostOneDefault(old(store.accounts)) ==>
                        forall k :: k in store.accounts ==> (store.accounts[k].isDefault <==> k == id))
    {
      if uiState.dialogState.None? {
        return;
      }
      var dialog := uiState.dialogState.value;
      var state0, events0 := uiState, events;
      uiState := uiState.(isSaving := true);
      var result := SaveAccountDialog(store, dialog, name, icon, kind, color, initialBalance, isDefault, now);
      uiState := state0.(isSaving := false, dialogState := if result.Success? then None else Some(dialog));
      events := events0 + [ShowSnackbar(SaveMessage(dialog, result))];
    }

    method OnDeleteAccountClick(account: AccountDom)
      modifies this
      ensures uiState == old(uiState).(showDeleteConfirm := true, accountToDelete := Some(account))
      ensures events == old(events)
    {
      uiState := uiState.(showDeleteConfirm := true, accountToDelete := Some(account));
    }

    /**
     * Deletes the account awaiting confirmation, if any: the confirmation
     * closes first, then the outcome is reported. "Account deleted" is shown
     * exactly when the account left the store.
     */
    method OnConfirmDelete(store: Store)
      requires store.Valid()
      modifies this, store
      ensures store.Valid()
      ensures old(uiState.accountToDelete).None? ==> unchanged(this) && unchanged(store)
      ensures old(uiState.accountToDelete).Some? ==>
                var id := old(uiState.accountToDelete).value.id;
                && uiState == old(uiState).(showDeleteConfirm := false, accountToDelete := None)
                && |events| == |old(events)| + 1 && events[..|old(events)|] == old(events)
                && events[|old(events)|] == ShowSnackbar(DeleteMessage(
                     if id !in old(store.accounts) then AccountNotFound
                     else if old(store.accounts)[id].isDefault then CannotDeleteDefault
                     else AccountDeleteResult.Success))
                && (events[|old(events)|] == ShowSnackbar("Account deleted")
                    <==> id in old(store.accounts) && id !in store.accounts)
                && (id !in old(store.accounts) || old(store.accounts)[id].isDefault ==> unchanged(store))
                && (id in old(store.accounts) && !old(store.accounts)[id].isDefault ==>
                      && store.accounts == old(store.accounts) - {id}
                      && store.transactions == DetachAccount(old(store.transactions), id)
                      && store.categories == old(store.categories) && store.opening == old(store.opening))
      ensures AtMostOneDefault(old(store.accounts)) ==> AtMostOneDefault(store.accounts)
    {
      if uiState.accountToDelete.None? {
        return;
      }
      var account := uiState.accountToDelete.value;
      uiState := uiState.(showDeleteConfirm := false, accountToDelete := None);
      var r := DeleteAccount(store, account.id, false);
      events := events + [ShowSnackbar(DeleteMessage(r))];
    }

    method OnDismissDeleteConfirm()
      modifies this
      ensures uiState == old(uiState).(showDeleteConfirm := false, accountToDelete := None)
      ensures events == old(events)
    {
      uiState := uiState.(showDeleteConfirm := false, accountToDelete := None);
    }
  }
}
