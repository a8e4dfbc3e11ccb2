/**
 * The account use cases: adding, editing and deleting an account. At most
 * one account is the default; making an account the default first clears
 * the flag of the current default. Editing never touches the balance.
 */
module AccountUseCases {
  import opened Wrappers
  import opened Domain
  import opened Entities
  import opened Text
  import opened Mappers
  import opened Ledger

  /** `DeleteAccountUseCase.DeleteResult`. */
  datatype AccountDeleteResult = Success | AccountNotFound | CannotDeleteDefault | Error(message: string)

  /** Rewriting account rows without moving their ids or balances keeps the tables sound. */
  lemma RewriteAccountsKeepsTables(accounts0: map<int, Account>, accounts1: map<int, Account>,
                                   categories: map<int, Category>, txs: map<int, Transaction>, opening: map<int, real>,
                                   nextAccountId: int, nextCategoryId: int, nextTransactionId: int)
    requires WellFormedTables(accounts0, categories, txs, nextAccountId, nextCategoryId, nextTransactionId)
    requires BalancedTables(accounts0, opening, txs)
    requires accounts1.Keys == accounts0.Keys
    requires forall id :: id in accounts1 ==> accounts1[id].id == accounts0[id].id && accounts1[id].balance == accounts0[id].balance
    ensures WellFormedTables(accounts1, categories, txs, nextAccountId, nextCategoryId, nextTransactionId)
    ensures BalancedTables(accounts1, opening, txs)
  {
  }

  /** A new account under the next id starts at its opening balance: no transaction can point at it yet. */
  lemma InsertAccountKeepsTables(accounts0: map<int, Account>, categories: map<int, Category>, txs: map<int, Transaction>,
                                 opening: map<int, real>, nextAccountId: int, nextCategoryId: int,
                                 nextTransactionId: int, row: Account)
    requires WellFormedTables(accounts0, categories, txs, nextAccountId, nextCategoryId, nextTransactionId)
    requires BalancedTables(accounts0, opening, txs)
    requires row.id == nextAccountId
    ensures WellFormedTables(accounts0[row.id := row], categories, txs, nextAccountId + 1, nextCategoryId, nextTransactionId)
    ensures BalancedTables(accounts0[row.id := row], opening[row.id := row.balance], txs)
  {
    NetZero(txs, row.id);
  }

  /** Deleting an account detaches its transactions and leaves every other account balanced. */
  lemma DeleteAccountKeepsTables(accounts0: map<int, Account>, categories: map<int, Category>, txs: map<int, Transaction>,
                                 opening: map<int, real>, nextAccountId: int, nextCategoryId: int,
                                 nextTransactionId: int, gone: int)
    requires WellFormedTables(accounts0, categories, txs, nextAccountId, nextCategoryId, nextTransactionId)
    requires BalancedTables(accounts0, opening, txs)
    ensures WellFormedTables(accounts0 - {gone}, categories, DetachAccount(txs, gone), nextAccountId, nextCategoryId, nextTransactionId)
    ensures BalancedTables(accounts0 - {gone}, opening, DetachAccount(txs, gone))
  {
    forall aid | aid in accounts0 - {gone}
      ensures Net(DetachAccount(txs, gone), aid) == Net(txs, aid)
    {
      DetachAccountNet(txs, gone, aid);
    }
  }

  /** No account is flagged as the default. */
  predicate NoDefault(accounts: map<int, Account>) {
    forall id :: id in accounts ==> !accounts[id].isDefault
  }

  /** `after` has the rows of `before`, except that default rows may have lost their flag. */
  predicate Demoted(before: map<int, Account>, after: map<int, Account>) {
    && after.Keys == before.Keys
    && forall id :: id in after ==>
         after[id] == before[id] || (before[id].isDefault && after[id] == before[id].(isDefault := false))
  }

  /** Adding a fresh key and removing it again gives the map back. */
  lemma RemoveFresh(m: map<int, Account>, k: int, v: Account)
    requires k !in m
    ensures m[k := v] - {k} == m
  {
  }

  /** Taking the flag away from a default account; when it was the only one, none is left. */
  lemma DemoteOne(before: map<int, Account>, current: int, after: map<int, Account>)
    requires current in before && before[current].isDefault
    requires after == before[current := before[current].(isDefault := false)]
    ensures Demoted(before, after)
    ensures AtMostOneDefault(before) ==> NoDefault(after)
  {
  }

  /** Flagging the row `id` in a table without defaults makes it the only default. */
  lemma SoleDefault(accounts: map<int, Account>, id: int)
    requires id in accounts && accounts[id].isDefault
    requires forall k :: k in accounts && k != id ==> !accounts[k].isDefault
    ensures AtMostOneDefault(accounts)
    ensures forall k :: k in accounts ==> (accounts[k].isDefault <==> k == id)
  {
  }

  /**
   * The step both use cases take before flagging an account as the
   * default: ask for the current default and clear its flag, unless it is
   * the account `keep` that is being edited.
   */
  method ClearCurrentDefault(store: Store, keep: Option<int>)
    requires store.Valid()
    modifies store
    ensures store.Valid()
    ensures store.transactions == old(store.transactions) && store.categories == old(store.categories)
    ensures store.opening == old(store.opening) && store.nextAccountId == old(store.nextAccountId)
    ensures store.nextCategoryId == old(store.nextCategoryId) && store.nextTransactionId == old(store.nextTransactionId)
    ensures Demoted(old(store.accounts), store.accounts)
    ensures keep.Some? && keep.value in store.accounts ==> store.accounts[keep.value] == old(store.accounts)[keep.value]
    ensures AtMostOneDefault(old(store.accounts)) ==>
              forall id :: id in store.accounts && Some(id) != keep ==> !store.accounts[id].isDefault
  {
    ghost var accounts0 := store.accounts;
    var current := store.GetDefaultAccount();
    if current.Some? && Some(current.value.id) != keep {
      store.UpdateAccount(current.value.(isDefault := false));
      DemoteOne(accounts0, current.value.id, store.accounts);
      RewriteAccountsKeepsTables(accounts0, store.accounts, store.categories, store.transactions, store.opening,
                                 store.nextAccountId, store.nextCategoryId, store.nextTransactionId);
    }
  }

  /**
   * The store work of `AddAccountUseCase`, once the name is validated: a
   * new default account first takes the flag away from the current
   * default one; the new row gets the next id and the initial balance.
   */
  method CreateAccount(store: Store, name: string, kind: AccountType, icon: string, color: int, initialBalance: real,
                       isDefault: bool, now: int) returns (id: int)
    requires store.Valid()
    modifies store
    ensures store.Valid()
    ensures store.transactions == old(store.transactions) && store.categories == old(store.categories)
    ensures id == old(store.nextAccountId) && id !in old(store.accounts) && id in store.accounts
    ensures store.accounts[id] == Account(id, name, kind, initialBalance, color, icon, isDefault, now)
    ensures store.opening == old(store.opening)[id := initialBalance]
    ensures Demoted(old(store.accounts), store.accounts - {id})
    ensures !isDefault ==> store.accounts - {id} == old(store.accounts)
    ensures isDefault && AtMostOneDefault(old(store.accounts)) ==>
              forall k :: k in store.accounts ==> (store.accounts[k].isDefault <==> k == id)
    ensures AtMostOneDefault(old(store.accounts)) ==> AtMostOneDefault(store.accounts)
  {
    if isDefault {
      ClearCurrentDefault(store, None);
    }
    ghost var cleared := store.accounts;
    assert store.nextAccountId !in cleared;
    var account := AccountDom(0, name, kind, initialBalance, color, icon, isDefault, now);
    id := store.InsertAccount(account);
    InsertAccountKeepsTables(cleared, store.categories, store.transactions, old(store.opening), id, store.nextCategoryId,
                             store.nextTransactionId, store.accounts[id]);
    RemoveFresh(cleared, id, store.accounts[id]);
    if isDefault && AtMostOneDefault(old(store.accounts)) {
      SoleDefault(store.accounts, id);
    }
  }

  /** `AddAccountUseCase`: the trimmed name must not be empty; the account is created under it. */
  method AddAccount(store: Store, name: string, kind: AccountType, icon: string, color: int, initialBalance: real,
                    isDefault: bool, now: int) returns (r: Result<int>)
    requires store.Valid()
    modifies store
    ensures store.Valid()
    ensures store.transactions == old(store.transactions) && store.categories == old(store.categories)
    ensures r == if Trim(name) == [] then Failure("Account name cannot be empty") else Result.Success(old(store.nextAccountId))
    ensures r.Failure? ==> unchanged(store)
    ensures r.Success? ==>
              && r.value !in old(store.accounts)
              && r.value in store.accounts
              && store.accounts[r.value] == Account(r.value, Trim(name), kind, initialBalance, color, icon, isDefault, now)
              && store.opening == old(store.opening)[r.value := initialBalance]
              && Demoted(old(store.accounts), store.accounts - {r.value})
              && (!isDefault ==> store.accounts - {r.value} == old(store.accounts))
    ensures r.Success? && isDefault && AtMostOneDefault(old(store.accounts)) ==>
              forall id :: id in store.accounts ==> (store.accounts[id].isDefault <==> id == r.value)
    ensures AtMostOneDefault(old(store.accounts)) ==> AtMostOneDefault(store.accounts)
  {
    var trimmedName := Trim(name);
    if trimmedName == [] {
      return Failure("Account name cannot be empty");
    }
    var id := CreateAccount(store, trimmedName, kind, icon, color, initialBalance, isDefault, now);
    r := Result.Success(id);
  }

  /**
   * The store work of `UpdateAccountUseCase`, once the name is validated
   * and the row `existing` read: making a non-default account the default
   * first clears the current default's flag; then name, type, icon, colour
   * and flag are replaced and the balance stays.
   */
  method EditAccount(store: Store, existing: AccountDom, name: string, kind: AccountType, icon: string, color: int,
                     isDefault: bool)
    requires store.Valid()
    requires existing.id in store.accounts && AccountToEntity(existing) == store.accounts[existing.id]
    modifies store
    ensures store.Valid()
    ensures store.transactions == old(store.transactions) && store.categories == old(store.categories)
    ensures store.opening == old(store.opening)
    ensures existing.id in store.accounts
    ensures store.accounts[existing.id] == old(store.accounts)[existing.id].(name := name, kind := kind, icon := icon,
                                                                           color := color, isDefault := isDefault)
    ensures Demoted(old(store.accounts) - {existing.id}, store.accounts - {existing.id})
    ensures !isDefault || existing.isDefault ==> store.accounts - {existing.id} == old(store.accounts) - {existing.id}
    ensures isDefault && AtMostOneDefault(old(store.accounts)) ==>
              forall id :: id in store.accounts ==> (store.accounts[id].isDefault <==> id == existing.id)
    ensures AtMostOneDefault(old(store.accounts)) ==> AtMostOneDefault(store.accounts)
  {
    if isDefault && !existing.isDefault {
      ClearCurrentDefault(store, Some(existing.id));
    }
    ghost var cleared := store.accounts;
    var updated := existing.(name := name, kind := kind, icon := icon, color := color, isDefault := isDefault);
    store.UpdateAccount(updated);
    RewriteAccountsKeepsTables(cleared, store.accounts, store.categories, store.transactions, store.opening,
                               store.nextAccountId, store.nextCategoryId, store.nextTransactionId);
    assert store.accounts - {existing.id} == cleared - {existing.id};
    if isDefault && AtMostOneDefault(old(store.accounts)) {
      SoleDefault(store.accounts, existing.id);
    }
  }

  /** `UpdateAccountUseCase`: the trimmed name must not be empty and the account must exist. */
  method UpdateAccount(store: Store, accountId: int, name: string, kind: AccountType, icon: string, color: int,
                       isDefault: bool) returns (r: Result<()>)
    requires store.Valid()
    modifies store
    ensures store.Valid()
    ensures store.transactions == old(store.transactions) && store.categories == old(store.categories)
    ensures store.opening == old(store.opening)
    ensures r == if Trim(name) == [] then Failure("Account name cannot be empty")
                 else if accountId !in old(store.accounts) then Failure("Account not found")
                 else Result.Success(())
    ensures r.Failure? ==> unchanged(store)
    ensures r.Success? ==>
              && accountId in store.accounts
              && store.accounts[accountId] == old(store.accounts)[accountId].(name := Trim(name), kind := kind, icon := icon,
                                                                             color := color, isDefault := isDefault)
              && Demoted(old(store.accounts) - {accountId}, store.accounts - {accountId})
              && (!isDefault || old(store.accounts)[accountId].isDefault ==>
                    store.accounts - {accountId} == old(store.accounts) - {accountId})
    ensures r.Success? && isDefault && AtMostOneDefault(old(store.accounts)) ==>
              forall id :: id in store.accounts ==> (store.accounts[id].isDefault <==> id == accountId)
    ensures AtMostOneDefault(old(store.accounts)) ==> AtMostOneDefault(store.accounts)
  {
    var trimmedName := Trim(name);
    if trimmedName == [] {
      return Failure("Account name cannot be empty");
    }
    var existing := store.GetAccountById(accountId);
    if existing.None? {
      return Failure("Account not found");
    }
    assert existing.value.id == accountId;
    EditAccount(store, existing.value, trimmedName, kind, icon, color, isDefault);
    r := Result.Success(());
  }

  /**
   * `DeleteAccountUseCase`: a missing account and the default account are
   * refused; otherwise the row goes and its transactions lose their
   * account. `forceDelete` is accepted and ignored, as in the use case.
   */
  method DeleteAccount(store: Store, accountId: int, forceDelete: bool) returns (r: AccountDeleteResult)
    requires store.Valid()
    modifies store
    ensures store.Valid()
    ensures r == if accountId !in old(store.accounts) then AccountNotFound
                 else if old(store.accounts)[accountId].isDefault then CannotDeleteDefault
                 else AccountDeleteResult.Success
    ensures r != AccountDeleteResult.Success ==> unchanged(store)
    ensures r == AccountDeleteResult.Success ==>
              && store.accounts == old(store.accounts) - {accountId}
              && store.transactions == DetachAccount(old(store.transactions), accountId)
              && store.categories == old(store.categories) && store.opening == old(store.opening)
              && store.nextAccountId == old(store.nextAccountId) && store.nextCategoryId == old(store.nextCategoryId)
              && store.nextTransactionId == old(store.nextTransactionId)
    ensures AtMostOneDefault(old(store.accounts)) ==> AtMostOneDefault(store.accounts)
  {
    var account := store.GetAccountById(accountId);
    if account.None? {
      return AccountNotFound;
    }
    if account.value.isDefault {
      return CannotDeleteDefault;
    }
    DeleteAccountKeepsTables(store.accounts, store.categories, store.transactions, store.opening, store.nextAccountId,
                             store.nextCategoryId, store.nextTransactionId, accountId);
    store.DeleteAccount(account.value);
    r := AccountDeleteResult.Success;
  }
}
