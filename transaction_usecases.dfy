/**
 * The transaction use cases: adding, editing and deleting a transaction
 * while keeping its account's balance in step. Each keeps the store's
 * bookkeeping invariant: for every account, the balance minus the signed
 * sum of its transactions stays what it was.
 */
module TransactionUseCases {
  import opened Wrappers
  import opened Domain
  import opened Entities
  import opened Text
  import opened Ledger
  import opened Mappers

  /** The balance after a transaction of this kind: income adds the amount, expense subtracts it. */
  function Applied(balance: real, kind: TransactionType, amount: real): (b: real)
    ensures b == balance + Signed(kind, amount)
  {
    match kind
    case INCOME => balance + amount
    case EXPENSE => balance - amount
  }

  /** The balance with a transaction of this kind taken back: income subtracts the amount, expense adds it. */
  function Reversed(balance: real, kind: TransactionType, amount: real): (b: real)
    ensures b == balance - Signed(kind, amount)
    ensures Applied(b, kind, amount) == balance
  {
    match kind
    case INCOME => balance - amount
    case EXPENSE => balance + amount
  }

  /** A new row pointing at an existing account and category, with its effect added to that account, keeps the tables sound. */
  lemma InsertKeepsTables(accounts0: map<int, Account>, categories: map<int, Category>, txs0: map<int, Transaction>,
                          opening: map<int, real>, nextAccountId: int, nextCategoryId: int, nextTransactionId: int,
                          t: Transaction, accounts1: map<int, Account>)
    requires WellFormedTables(accounts0, categories, txs0, nextAccountId, nextCategoryId, nextTransactionId)
    requires BalancedTables(accounts0, opening, txs0)
    requires t.id == nextTransactionId && t.accountId.Some? && t.accountId.value in accounts0
    requires t.categoryId.Some? && t.categoryId.value in categories
    requires accounts1 == accounts0[t.accountId.value := accounts0[t.accountId.value].(balance :=
               accounts0[t.accountId.value].balance + Signed(t.kind, t.amount))]
    ensures WellFormedTables(accounts1, categories, txs0[t.id := t], nextAccountId, nextCategoryId, nextTransactionId + 1)
    ensures BalancedTables(accounts1, opening, txs0[t.id := t])
  {
    forall aid | aid in accounts1
      ensures accounts1[aid].balance == accounts0[aid].balance - Net(txs0, aid) + Net(txs0[t.id := t], aid)
    {
      NetInsert(txs0, t.id, t, aid);
    }
    BalancedShift(accounts0, opening, txs0, accounts1, txs0[t.id := t]);
  }

  /** Rewriting a row, with every balance moved from its old effect to its new one, keeps the tables sound. */
  lemma ReplaceKeepsTables(accounts0: map<int, Account>, categories: map<int, Category>, txs0: map<int, Transaction>,
                           opening: map<int, real>, nextAccountId: int, nextCategoryId: int, nextTransactionId: int,
                           t: Transaction, accounts1: map<int, Account>)
    requires WellFormedTables(accounts0, categories, txs0, nextAccountId, nextCategoryId, nextTransactionId)
    requires BalancedTables(accounts0, opening, txs0)
    requires t.id in txs0
    requires t.accountId.Some? ==> t.accountId.value in accounts0
    requires t.categoryId.Some? ==> t.categoryId.value in categories
    requires accounts1.Keys == accounts0.Keys
    requires forall aid :: aid in accounts1 ==> accounts1[aid].id == accounts0[aid].id
    requires forall aid :: aid in accounts1 ==>
               accounts1[aid].balance == accounts0[aid].balance - Effect(txs0[t.id], aid) + Effect(t, aid)
    ensures WellFormedTables(accounts1, categories, txs0[t.id := t], nextAccountId, nextCategoryId, nextTransactionId)
    ensures BalancedTables(accounts1, opening, txs0[t.id := t])
  {
    forall aid | aid in accounts1
      ensures accounts1[aid].balance == accounts0[aid].balance - Net(txs0, aid) + Net(txs0[t.id := t], aid)
    {
      NetReplace(txs0, t.id, t, aid);
    }
    BalancedShift(accounts0, opening, txs0, accounts1, txs0[t.id := t]);
  }

  /** Taking one transaction's effect off its account, then adding another's to its account, moves each balance by the difference. */
  lemma ReverseThenApply(accounts0: map<int, Account>, reversed: map<int, Account>, accounts1: map<int, Account>,
                         before: Transaction, after: Transaction)
    requires before.accountId.Some? ==> before.accountId.value in accounts0 && reversed == accounts0[before.accountId.value :=
               accounts0[before.accountId.value].(balance := accounts0[before.accountId.value].balance - Signed(before.kind, before.amount))]
    requires before.accountId.None? ==> reversed == accounts0
    requires after.accountId.Some? && after.accountId.value in reversed
    requires accounts1 == reversed[after.accountId.value := reversed[after.accountId.value].(balance :=
               reversed[after.accountId.value].balance + Signed(after.kind, after.amount))]
    ensures accounts1.Keys == accounts0.Keys
    ensures forall aid :: aid in accounts1 ==>
              accounts1[aid] == accounts0[aid].(balance := accounts0[aid].balance - Effect(before, aid) + Effect(after, aid))
  {
  }

  /** Reversing a row's old effect, rewriting it, then applying its new effect keeps the tables sound. */
  lemma RewriteKeepsTables(accounts0: map<int, Account>, categories: map<int, Category>, txs0: map<int, Transaction>,
                           opening: map<int, real>, nextAccountId: int, nextCategoryId: int, nextTransactionId: int,
                           before: Transaction, after: Transaction, reversed: map<int, Account>, accounts1: map<int, Account>)
    requires WellFormedTables(accounts0, categories, txs0, nextAccountId, nextCategoryId, nextTransactionId)
    requires BalancedTables(accounts0, opening, txs0)
    requires after.id in txs0 && before == txs0[after.id]
    requires after.categoryId.Some? ==> after.categoryId.value in categories
    requires before.accountId.Some? ==> reversed == accounts0[before.accountId.value :=
               accounts0[before.accountId.value].(balance := accounts0[before.accountId.value].balance - Signed(before.kind, before.amount))]
    requires before.accountId.None? ==> reversed == accounts0
    requires after.accountId.Some? && after.accountId.value in reversed
    requires accounts1 == reversed[after.accountId.value := reversed[after.accountId.value].(balance :=
               reversed[after.accountId.value].balance + Signed(after.kind, after.amount))]
    ensures WellFormedTables(accounts1, categories, txs0[after.id := after], nextAccountId, nextCategoryId, nextTransactionId)
    ensures BalancedTables(accounts1, opening, txs0[after.id := after])
    ensures accounts1.Keys == accounts0.Keys
    ensures forall aid :: aid in accounts1 ==>
              accounts1[aid] == accounts0[aid].(balance := accounts0[aid].balance - Effect(before, aid) + Effect(after, aid))
  {
    ReverseThenApply(accounts0, reversed, accounts1, before, after);
    ReplaceKeepsTables(accounts0, categories, txs0, opening, nextAccountId, nextCategoryId, nextTransactionId, after, accounts1);
  }

  /** Removing a row, with its effect taken off its account, keeps the tables sound. */
  lemma RemoveKeepsTables(accounts0: map<int, Account>, categories: map<int, Category>, txs0: map<int, Transaction>,
                          opening: map<int, real>, nextAccountId: int, nextCategoryId: int, nextTransactionId: int,
                          id: int, accounts1: map<int, Account>)
    requires WellFormedTables(accounts0, categories, txs0, nextAccountId, nextCategoryId, nextTransactionId)
    requires BalancedTables(accounts0, opening, txs0)
    requires id in txs0
    requires accounts1.Keys == accounts0.Keys
    requires forall aid :: aid in accounts1 ==> accounts1[aid].id == accounts0[aid].id
    requires forall aid :: aid in accounts1 ==>
               accounts1[aid].balance == accounts0[aid].balance - Effect(txs0[id], aid)
    ensures WellFormedTables(accounts1, categories, txs0 - {id}, nextAccountId, nextCategoryId, nextTransactionId)
    ensures BalancedTables(accounts1, opening, txs0 - {id})
  {
    forall aid | aid in accounts1
      ensures accounts1[aid].balance == accounts0[aid].balance - Net(txs0, aid) + Net(txs0 - {id}, aid)
    {
      NetRemove(txs0, id, aid);
    }
    BalancedShift(accounts0, opening, txs0, accounts1, txs0 - {id});
  }

  /**
   * `AddTransactionUseCase`. The amount must be positive (the use case
   * throws otherwise); a missing account or category fails before anything
   * is written.
   */
  method AddTransaction(store: Store, amount: real, kind: TransactionType, accountId: int, categoryId: int,
                        note: Option<string>, date: int, now: int) returns (r: Result<int>)
    requires amount > 0.0
    requires store.Valid()
    modifies store
    ensures store.Valid()
    ensures store.opening == old(store.opening) && store.categories == old(store.categories)
    ensures accountId !in old(store.accounts) ==> r == Failure("Account not found") && unchanged(store)
    ensures accountId in old(store.accounts) && categoryId !in old(store.categories) ==>
              r == Failure("Category not found") && unchanged(store)
    ensures accountId in old(store.accounts) && categoryId in old(store.categories) ==>
              && r.Success? && r.value == old(store.nextTransactionId) && r.value !in old(store.transactions)
              && store.transactions == old(store.transactions)[r.value :=
                   Transaction(r.value, Some(accountId), Some(categoryId), amount, kind, TrimOpt(note), date, now)]
              && store.accounts == old(store.accounts)[accountId :=
                   old(store.accounts)[accountId].(balance := old(store.accounts)[accountId].balance + Signed(kind, amount))]
  {
    r := AddTrimmed(store, amount, kind, accountId, categoryId, TrimOpt(note), date, now);
  }

  /** The lookups and writes of `AddTransactionUseCase`, given the note already trimmed. */
  method AddTrimmed(store: Store, amount: real, kind: TransactionType, accountId: int, categoryId: int,
                    trimmedNote: Option<string>, date: int, now: int) returns (r: Result<int>)
    requires store.Valid()
    modifies store
    ensures store.Valid()
    ensures store.opening == old(store.opening) && store.categories == old(store.categories)
    ensures accountId !in old(store.accounts) ==> r == Failure("Account not found") && unchanged(store)
    ensures accountId in old(store.accounts) && categoryId !in old(store.categories) ==>
              r == Failure("Category not found") && unchanged(store)
    ensures accountId in old(store.accounts) && categoryId in old(store.categories) ==>
              && r.Success? && r.value == old(store.nextTransactionId) && r.value !in old(store.transactions)
              && store.transactions == old(store.transactions)[r.value :=
                   Transaction(r.value, Some(accountId), Some(categoryId), amount, kind, trimmedNote, date, now)]
              && store.accounts == old(store.accounts)[accountId :=
                   old(store.accounts)[accountId].(balance := old(store.accounts)[accountId].balance + Signed(kind, amount))]
  {
    var account := store.GetAccountById(accountId);
    if account.None? {
      return Failure("Account not found");
    }
    var category := store.GetCategoryById(categoryId);
    if category.None? {
      return Failure("Category not found");
    }
    var id := RecordTransaction(store, account.value, category.value, amount, kind, trimmedNote, date, now);
    r := Success(id);
  }

  /** The writes of `AddTransactionUseCase` once both lookups succeeded: insert the row, then apply its effect. */
  method RecordTransaction(store: Store, account: AccountDom, category: CategoryDom, amount: real, kind: TransactionType,
                           trimmedNote: Option<string>, date: int, now: int) returns (id: int)
    requires store.Valid()
    requires account.id in store.accounts && AccountToEntity(account) == store.accounts[account.id]
    requires category.id in store.categories
    modifies store
    ensures store.Valid()
    ensures store.opening == old(store.opening) && store.categories == old(store.categories)
    ensures id == old(store.nextTransactionId) && id !in old(store.transactions)
    ensures store.transactions == old(store.transactions)[id :=
              Transaction(id, Some(account.id), Some(category.id), amount, kind, trimmedNote, date, now)]
    ensures store.accounts == old(store.accounts)[account.id :=
              old(store.accounts)[account.id].(balance := old(store.accounts)[account.id].balance + Signed(kind, amount))]
  {
    ghost var accounts0, categories, txs0, opening := store.accounts, store.categories, store.transactions, store.opening;
    ghost var nextA, nextC, nextT := store.nextAccountId, store.nextCategoryId, store.nextTransactionId;
    id := WriteTransaction(store, account, category, amount, kind, trimmedNote, date, now);
    assert store.Valid() by {
      InsertKeepsTables(accounts0, categories, txs0, opening, nextA, nextC, nextT, store.transactions[id], store.accounts);
    }
  }

  /** Inserts the new row, then sets the account's balance to the one it was read with plus the row's effect. */
  method WriteTransaction(store: Store, account: AccountDom, category: CategoryDom, amount: real, kind: TransactionType,
                          trimmedNote: Option<string>, date: int, now: int) returns (id: int)
    requires account.id in store.accounts && account.balance == store.accounts[account.id].balance
    modifies store
    ensures store.opening == old(store.opening) && store.categories == old(store.categories)
    ensures store.nextAccountId == old(store.nextAccountId) && store.nextCategoryId == old(store.nextCategoryId)
    ensures id == old(store.nextTransactionId) && store.nextTransactionId == id + 1
    ensures store.transactions == old(store.transactions)[id :=
              Transaction(id, Some(account.id), Some(category.id), amount, kind, trimmedNote, date, now)]
    ensures store.accounts == old(store.accounts)[account.id :=
              old(store.accounts)[account.id].(balance := old(store.accounts)[account.id].balance + Signed(kind, amount))]
  {
    var transaction := TransactionDom(0, amount, kind, trimmedNote, date, Some(account), Some(category), now, now);
    ghost var row := Transaction(0, Some(account.id), Some(category.id), amount, kind, trimmedNote, date, now);
    assert TransactionToEntity(transaction) == row;
    id := store.InsertTransaction(transaction);
    var balance := Applied(account.balance, kind, amount);
    assert balance == account.balance + Signed(kind, amount);
    store.UpdateBalance(account.id, balance);
  }

  /**
   * `UpdateTransactionUseCase`: checks the amount, then looks up the
   * transaction, the account and the category, in that order; then takes
   * the old effect off the old account, rewrites the row (same id and
   * creation time) and applies the new effect to the freshly read new
   * account.
   */
  method UpdateTransaction(store: Store, transactionId: int, amount: real, kind: TransactionType, accountId: int,
                           categoryId: int, note: Option<string>, date: int, now: int) returns (r: Result<()>)
    requires store.Valid()
    modifies store
    ensures store.Valid()
    ensures store.opening == old(store.opening) && store.categories == old(store.categories)
    ensures r == if amount <= 0.0 then Failure("Amount must be positive")
                 else if transactionId !in old(store.transactions) then Failure("Transaction not found")
                 else if accountId !in old(store.accounts) then Failure("Account not found")
                 else if categoryId !in old(store.categories) then Failure("Category not found")
                 else Success(())
    ensures r.Failure? ==> unchanged(store)
    ensures r.Success? ==>
              && store.transactions == old(store.transactions)[transactionId :=
                   old(store.transactions)[transactionId].(accountId := Some(accountId), categoryId := Some(categoryId),
                     amount := amount, kind := kind, note := TrimOpt(note), date := date)]
              && store.accounts.Keys == old(store.accounts).Keys
              && forall aid :: aid in store.accounts ==>
                   store.accounts[aid] == old(store.accounts)[aid].(balance := old(store.accounts)[aid].balance
                     - Effect(old(store.transactions)[transactionId], aid) + Effect(store.transactions[transactionId], aid))
  {
    if amount <= 0.0 {
      return Failure("Amount must be positive");
    }
    var oldTransaction := store.GetTransactionById(transactionId, now);
    if oldTransaction.None? {
      return Failure("Transaction not found");
    }
    var newAccount := store.GetAccountById(accountId);
    if newAccount.None? {
      return Failure("Account not found");
    }
    var category := store.GetCategoryById(categoryId);
    if category.None? {
      return Failure("Category not found");
    }
    RewriteTransaction(store, oldTransaction.value, newAccount.value, category.value, amount, kind, TrimOpt(note), date, now);
    r := Success(());
  }

  /**
   * The writes of `UpdateTransactionUseCase` once every check passed:
   * reverse the old effect on the old account, if any, rewrite the row,
   * then apply the new effect to the new account's freshly read balance.
   */
  method RewriteTransaction(store: Store, ot: TransactionDom, newAccount: AccountDom, category: CategoryDom,
                            amount: real, kind: TransactionType, trimmedNote: Option<string>, date: int, now: int)
    requires store.Valid()
    requires ot.id in store.transactions && TransactionToEntity(ot) == store.transactions[ot.id]
    requires ot.account.Some? ==> ot.account.value.id in store.accounts
                                  && AccountToEntity(ot.account.value) == store.accounts[ot.account.value.id]
    requires newAccount.id in store.accounts && category.id in store.categories
    modifies store
    ensures store.Valid()
    ensures store.opening == old(store.opening) && store.categories == old(store.categories)
    ensures store.transactions == old(store.transactions)[ot.id :=
              old(store.transactions)[ot.id].(accountId := Some(newAccount.id), categoryId := Some(category.id),
                amount := amount, kind := kind, note := trimmedNote, date := date)]
    ensures store.accounts.Keys == old(store.accounts).Keys
    ensures forall aid :: aid in store.accounts ==>
              store.accounts[aid] == old(store.accounts)[aid].(balance := old(store.accounts)[aid].balance
                - Effect(old(store.transactions)[ot.id], aid) + Effect(store.transactions[ot.id], aid))
  {
    ghost var accounts0, categories, txs0, opening := store.accounts, store.categories, store.transactions, store.opening;
    ghost var nextA, nextC, nextT := store.nextAccountId, store.nextCategoryId, store.nextTransactionId;
    ghost var reversed := WriteRewrite(store, ot, newAccount, category, amount, kind, trimmedNote, date, now);
    RewriteKeepsTables(accounts0, categories, txs0, opening, nextA, nextC, nextT, txs0[ot.id], store.transactions[ot.id],
                       reversed, store.accounts);
  }

  /**
   * Takes the old effect off the account the transaction carries, giving
   * the balances `reversed`, rewrites the row with the already trimmed note,
   * then applies the new effect to the new account's current balance.
   */
  method WriteRewrite(store: Store, ot: TransactionDom, newAccount: AccountDom, category: CategoryDom,
                      amount: real, kind: TransactionType, trimmedNote: Option<string>, date: int, now: int)
    returns (ghost reversed: map<int, Account>)
    requires ot.id in store.transactions && TransactionToEntity(ot) == store.transactions[ot.id]
    requires ot.account.Some? ==> ot.account.value.id in store.accounts
                                  && ot.account.value.balance == store.accounts[ot.account.value.id].balance
    requires newAccount.id in store.accounts
    modifies store
    ensures store.opening == old(store.opening) && store.categories == old(store.categories)
    ensures store.nextAccountId == old(store.nextAccountId) && store.nextCategoryId == old(store.nextCategoryId)
    ensures store.nextTransactionId == old(store.nextTransactionId)
    ensures store.transactions == old(store.transactions)[ot.id :=
              old(store.transactions)[ot.id].(accountId := Some(newAccount.id), categoryId := Some(category.id),
                amount := amount, kind := kind, note := trimmedNote, date := date)]
    ensures ot.account.None? ==> reversed == old(store.accounts)
    ensures ot.account.Some? ==> reversed == old(store.accounts)[ot.account.value.id :=
              old(store.accounts)[ot.account.value.id].(balance := old(store.accounts)[ot.account.value.id].balance
                - Signed(ot.kind, ot.amount))]
    ensures newAccount.id in reversed
    ensures store.accounts == reversed[newAccount.id := reversed[newAccount.id].(balance :=
              reversed[newAccount.id].balance + Signed(kind, amount))]
  {
    ReverseOldEffect(store, ot);
    reversed := store.accounts;
    var updated := ot.(amount := amount, kind := kind, account := Some(newAccount), category := Some(category),
                       note := trimmedNote, date := date, updatedAt := now);
    store.UpdateTransaction(updated);
    ApplyNewEffect(store, newAccount.id, kind, amount);
  }

  /** Takes a transaction's recorded effect off the balance of the account it carries, if any. */
  method ReverseOldEffect(store: Store, ot: TransactionDom)
    requires ot.account.Some? ==> ot.account.value.id in store.accounts
                                  && ot.account.value.balance == store.accounts[ot.account.value.id].balance
    modifies store
    ensures ot.account.Some? ==> store.accounts == old(store.accounts)[ot.account.value.id :=
              old(store.accounts)[ot.account.value.id].(balance := old(store.accounts)[ot.account.value.id].balance
                - Signed(ot.kind, ot.amount))]
    ensures ot.account.None? ==> store.accounts == old(store.accounts)
    ensures store.transactions == old(store.transactions) && store.categories == old(store.categories)
    ensures store.opening == old(store.opening) && store.nextAccountId == old(store.nextAccountId)
    ensures store.nextCategoryId == old(store.nextCategoryId) && store.nextTransactionId == old(store.nextTransactionId)
  {
    if ot.account.Some? {
      var oldAccount := ot.account.value;
      store.UpdateBalance(oldAccount.id, Reversed(oldAccount.balance, ot.kind, ot.amount));
    }
  }

  /** Adds a transaction's effect to the balance the account holds now. */
  method ApplyNewEffect(store: Store, accountId: int, kind: TransactionType, amount: real)
    requires accountId in store.accounts
    modifies store
    ensures store.accounts == old(store.accounts)[accountId :=
              old(store.accounts)[accountId].(balance := old(store.accounts)[accountId].balance + Signed(kind, amount))]
    ensures store.transactions == old(store.transactions) && store.categories == old(store.categories)
    ensures store.opening == old(store.opening) && store.nextAccountId == old(store.nextAccountId)
    ensures store.nextCategoryId == old(store.nextCategoryId) && store.nextTransactionId == old(store.nextTransactionId)
  {
    var currentAccount := store.GetAccountById(accountId);
    store.UpdateBalance(accountId, Applied(currentAccount.value.balance, kind, amount));
  }

  /**
   * `DeleteTransactionUseCase`: takes the transaction's effect off its
   * account, when it still has one, then removes the row.
   */
  method DeleteTransaction(store: Store, transactionId: int, now: int) returns (r: Result<()>)
    requires store.Valid()
    modifies store
    ensures store.Valid()
    ensures store.opening == old(store.opening) && store.categories == old(store.categories)
    ensures transactionId !in old(store.transactions) ==> r == Failure("Transaction not found") && unchanged(store)
    ensures transactionId in old(store.transactions) ==>
              && r.Success?
              && store.transactions == old(store.transactions) - {transactionId}
              && store.accounts.Keys == old(store.accounts).Keys
              && forall aid :: aid in store.accounts ==>
                   store.accounts[aid] == old(store.accounts)[aid].(balance := old(store.accounts)[aid].balance
                     - Effect(old(store.transactions)[transactionId], aid))
  {
    var transaction := store.GetTransactionById(transactionId, now);
    if transaction.None? {
      return Failure("Transaction not found");
    }
    ghost var accounts0, txs0 := store.accounts, store.transactions;
    var t := transaction.value;
    if t.account.Some? {
      var account := t.account.value;
      assert account.id == txs0[transactionId].accountId.value && account.balance == accounts0[account.id].balance;
      store.UpdateBalance(account.id, Reversed(account.balance, t.kind, t.amount));
    }
    assert forall aid :: aid in store.accounts ==>
      store.accounts[aid] == accounts0[aid].(balance := accounts0[aid].balance - Effect(txs0[transactionId], aid));
    store.DeleteTransaction(t);
    RemoveKeepsTables(accounts0, store.categories, txs0, store.opening, store.nextAccountId, store.nextCategoryId,
                      store.nextTransactionId, transactionId, store.accounts);
    r := Success(());
  }

  /** Adding a transaction and deleting it again leaves every account and transaction as it was. */
  method AddThenDelete(store: Store, amount: real, kind: TransactionType, accountId: int, categoryId: int,
                       note: Option<string>, date: int, now: int) returns (added: Result<int>, deleted: Result<()>)
    requires amount > 0.0
    requires store.Valid()
    requires accountId in store.accounts && categoryId in store.categories
    modifies store
    ensures added.Success? && deleted.Success?
    ensures store.accounts == old(store.accounts) && store.transactions == old(store.transactions)
  {
    ghost var accounts0, txs0 := store.accounts, store.transactions;
    ghost var row;
    added, row := AddToDelete(store, amount, kind, accountId, categoryId, note, date, now);
    deleted := DeleteAdded(store, added.value, now, accounts0, txs0, row, accountId, kind, amount);
  }

  /** `AddTransaction` on an account and a category that exist, with the row it wrote returned as `t`. */
  method AddToDelete(store: Store, amount: real, kind: TransactionType, accountId: int, categoryId: int,
                     note: Option<string>, date: int, now: int) returns (added: Result<int>, ghost t: Transaction)
    requires amount > 0.0
    requires store.Valid()
    requires accountId in store.accounts && categoryId in store.categories
    modifies store
    ensures store.Valid()
    ensures added.Success? && added.value !in old(store.transactions)
    ensures store.transactions == old(store.transactions)[added.value := t]
    ensures t.accountId == Some(accountId) && t.kind == kind && t.amount == amount
    ensures store.accounts == old(store.accounts)[accountId :=
              old(store.accounts)[accountId].(balance := old(store.accounts)[accountId].balance + Signed(kind, amount))]
  {
    added := AddTransaction(store, amount, kind, accountId, categoryId, note, date, now);
    t := Transaction(added.value, Some(accountId), Some(categoryId), amount, kind, TrimOpt(note), date, now);
  }

  /**
   * Deletes the row `t`, with id `id`, that was just added to the rows
   * `txs0` and, as an amount of this kind on account `aid`, to the balances
   * `accounts0`.
   */
  method DeleteAdded(store: Store, id: int, now: int, ghost accounts0: map<int, Account>,
                     ghost txs0: map<int, Transaction>, ghost t: Transaction, ghost aid: int, ghost kind: TransactionType,
                     ghost amount: real) returns (deleted: Result<()>)
    requires store.Valid()
    requires id !in txs0 && store.transactions == txs0[id := t]
    requires t.accountId == Some(aid) && t.kind == kind && t.amount == amount && aid in accounts0
    requires store.accounts == accounts0[aid := accounts0[aid].(balance := accounts0[aid].balance + Signed(kind, amount))]
    modifies store
    ensures deleted.Success?
    ensures store.accounts == accounts0 && store.transactions == txs0
  {
    ghost var accounts1 := store.accounts;
    deleted := DeleteTransaction(store, id, now);
    ReapplyReverses(accounts0, accounts1, store.accounts, t);
  }

  /** Taking a row's effect back off the balances it was just added to restores them. */
  lemma ReapplyReverses(accounts0: map<int, Account>, accounts1: map<int, Account>, accounts2: map<int, Account>,
                        t: Transaction)
    requires t.accountId.Some? && t.accountId.value in accounts0
    requires accounts1 == accounts0[t.accountId.value := accounts0[t.accountId.value].(balance :=
               accounts0[t.accountId.value].balance + Signed(t.kind, t.amount))]
    requires accounts2.Keys == accounts1.Keys
    requires forall aid :: aid in accounts2 ==>
               accounts2[aid] == accounts1[aid].(balance := accounts1[aid].balance - Effect(t, aid))
    ensures accounts2 == accounts0
  {
    forall aid | aid in accounts0 ensures accounts2[aid] == accounts0[aid] {
      if aid == t.accountId.value {
        assert accounts1[aid].balance == accounts0[aid].balance + Signed(t.kind, t.amount);
      }
    }
  }
}
