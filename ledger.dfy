/**
 * The store the use cases work against: the three tables as maps from id
 * to row, with the repository operations the use cases call. Rows are read
 * back as domain records through the mappers, as the repositories do.
 *
 * The bookkeeping invariant lives here: every account's balance is its
 * opening balance plus the signed amounts of the transactions that point
 * at it (income adds, expense subtracts).
 */
module Ledger {
  import opened Wrappers
  import opened Domain
  import opened Entities
  import opened Mappers

  /** What transaction `t` contributes to the balance of account `aid`. */
  function Effect(t: Transaction, aid: int): (e: real)
    ensures t.accountId != Some(aid) ==> e == 0.0
    ensures t.accountId == Some(aid) ==> e == Signed(t.kind, t.amount)
  {
    if t.accountId == Some(aid) then Signed(t.kind, t.amount) else 0.0
  }

  ghost function Pick(txs: map<int, Transaction>): int
    requires exists k :: k in txs
  {
    var k :| k in txs; k
  }

  /** The signed sum of the transactions of `txs` that point at account `aid`. */
  ghost function Net(txs: map<int, Transaction>, aid: int): real
    decreases txs.Keys
  {
    if exists k :: k in txs then
      var k := Pick(txs);
      Effect(txs[k], aid) + Net(txs - {k}, aid)
    else 0.0
  }

  /** Any row can be taken out of the sum first. */
  lemma {:induction false} NetSplit(txs: map<int, Transaction>, k: int, aid: int)
    requires k in txs
    ensures Net(txs, aid) == Effect(txs[k], aid) + Net(txs - {k}, aid)
    decreases txs.Keys
  {
    var j := Pick(txs);
    if j != k {
      NetSplit(txs - {j}, k, aid);
      NetSplit(txs - {k}, j, aid);
      assert txs - {j} - {k} == txs - {k} - {j};
    }
  }

  /** Inserting a row adds its effect. */
  lemma NetInsert(txs: map<int, Transaction>, k: int, t: Transaction, aid: int)
    requires k !in txs
    ensures Net(txs[k := t], aid) == Net(txs, aid) + Effect(t, aid)
  {
    NetSplit(txs[k := t], k, aid);
    assert txs[k := t] - {k} == txs;
  }

  /** Removing a row takes its effect away. */
  lemma NetRemove(txs: map<int, Transaction>, k: int, aid: int)
    requires k in txs
    ensures Net(txs - {k}, aid) == Net(txs, aid) - Effect(txs[k], aid)
  {
    NetSplit(txs, k, aid);
  }

  /** Rewriting a row swaps its old effect for its new one. */
  lemma NetReplace(txs: map<int, Transaction>, k: int, t: Transaction, aid: int)
    requires k in txs
    ensures Net(txs[k := t], aid) == Net(txs, aid) - Effect(txs[k], aid) + Effect(t, aid)
  {
    NetSplit(txs, k, aid);
    NetSplit(txs[k := t], k, aid);
    assert txs[k := t] - {k} == txs - {k};
  }

  /** Two tables whose rows have the same effects, key by key, have the same sum. */
  lemma {:induction false} NetCongruent(a: map<int, Transaction>, b: map<int, Transaction>, aid: int)
    requires a.Keys == b.Keys
    requires forall k :: k in a ==> Effect(a[k], aid) == Effect(b[k], aid)
    ensures Net(a, aid) == Net(b, aid)
    decreases a.Keys
  {
    if exists k :: k in a {
      var k := Pick(a);
      NetSplit(b, k, aid);
      NetCongruent(a - {k}, b - {k}, aid);
    }
  }

  /** An account no row points at has a zero sum. */
  lemma {:induction false} NetZero(txs: map<int, Transaction>, aid: int)
    requires forall k :: k in txs ==> txs[k].accountId != Some(aid)
    ensures Net(txs, aid) == 0.0
    decreases txs.Keys
  {
    if exists k :: k in txs {
      NetZero(txs - {Pick(txs)}, aid);
    }
  }

  /** `ON DELETE SET NULL` on `account_id`: the rows that pointed at `aid` lose their account. */
  function DetachAccount(txs: map<int, Transaction>, aid: int): (r: map<int, Transaction>)
    ensures r.Keys == txs.Keys
    ensures forall k :: k in r ==> r[k].accountId != Some(aid)
    ensures forall k :: k in r ==> r[k] == (if txs[k].accountId == Some(aid) then txs[k].(accountId := None) else txs[k])
  {
    map k | k in txs :: if txs[k].accountId == Some(aid) then txs[k].(accountId := None) else txs[k]
  }

  /** `ON DELETE SET NULL` on `category_id`. */
  function DetachCategory(txs: map<int, Transaction>, cid: int): (r: map<int, Transaction>)
    ensures r.Keys == txs.Keys
    ensures forall k :: k in r ==> r[k].categoryId != Some(cid)
    ensures forall k :: k in r ==> r[k] == (if txs[k].categoryId == Some(cid) then txs[k].(categoryId := None) else txs[k])
  {
    map k | k in txs :: if txs[k].categoryId == Some(cid) then txs[k].(categoryId := None) else txs[k]
  }

  /** Detaching the rows of a deleted account leaves every other account's sum as it was. */
  lemma DetachAccountNet(txs: map<int, Transaction>, gone: int, aid: int)
    requires aid != gone
    ensures Net(DetachAccount(txs, gone), aid) == Net(txs, aid)
  {
    NetCongruent(DetachAccount(txs, gone), txs, aid);
  }

  /** Detaching the rows of a deleted category leaves every account's sum as it was. */
  lemma DetachCategoryNet(txs: map<int, Transaction>, cid: int, aid: int)
    ensures Net(DetachCategory(txs, cid), aid) == Net(txs, aid)
  {
    NetCongruent(DetachCategory(txs, cid), txs, aid);
  }

  /** The number of rows whose category is `cid`. */
  function CountUsing(txs: map<int, Transaction>, cid: int): nat {
    |set k | k in txs && txs[k].categoryId == Some(cid)|
  }

  /** The count is zero exactly when no row uses the category. */
  lemma CountUsingZero(txs: map<int, Transaction>, cid: int)
    ensures CountUsing(txs, cid) == 0 <==> forall k :: k in txs ==> txs[k].categoryId != Some(cid)
  {
    var users := set k | k in txs && txs[k].categoryId == Some(cid);
    if k :| k in txs && txs[k].categoryId == Some(cid) {
      assert k in users;
    } else {
      assert forall k :: k !in users;
      assert users == {};
    }
  }

  predicate AtMostOneDefault(accounts: map<int, Account>) {
    forall a, b :: a in accounts && b in accounts && accounts[a].isDefault && accounts[b].isDefault ==> a == b
  }

  /** Keys are the rows' positive ids, below the counters; foreign keys point at existing rows. */
  ghost predicate WellFormedTables(accounts: map<int, Account>, categories: map<int, Category>,
                                   txs: map<int, Transaction>, nextAccountId: int, nextCategoryId: int,
                                   nextTransactionId: int)
  {
    && 0 < nextAccountId && 0 < nextCategoryId && 0 < nextTransactionId
    && (forall id :: id in accounts ==> 0 < id < nextAccountId && accounts[id].id == id)
    && (forall id :: id in categories ==> 0 < id < nextCategoryId && categories[id].id == id)
    && (forall id :: id in txs ==> 0 < id < nextTransactionId && txs[id].id == id)
    && (forall id :: id in txs && txs[id].accountId.Some? ==> txs[id].accountId.value in accounts)
    && (forall id :: id in txs && txs[id].categoryId.Some? ==> txs[id].categoryId.value in categories)
  }

  /** Every balance is its opening balance plus the signed sum of the account's transactions. */
  ghost predicate BalancedTables(accounts: map<int, Account>, opening: map<int, real>, txs: map<int, Transaction>) {
    forall aid :: aid in accounts ==> aid in opening && accounts[aid].balance == opening[aid] + Net(txs, aid)
  }

  /** Moving every balance by exactly the change in its account's sum keeps the tables balanced. */
  lemma BalancedShift(accounts0: map<int, Account>, opening: map<int, real>, txs0: map<int, Transaction>,
                      accounts1: map<int, Account>, txs1: map<int, Transaction>)
    requires BalancedTables(accounts0, opening, txs0)
    requires accounts1.Keys <= accounts0.Keys
    requires forall aid :: aid in accounts1 ==>
               accounts1[aid].balance == accounts0[aid].balance - Net(txs0, aid) + Net(txs1, aid)
    ensures BalancedTables(accounts1, opening, txs1)
  {
  }

  /** The three tables, with the id counters their auto-generated keys come from. */
  class Store {
    var accounts: map<int, Account>
    var categories: map<int, Category>
    var transactions: map<int, Transaction>
    var nextAccountId: int
    var nextCategoryId: int
    var nextTransactionId: int
    /** The balance each account was created with. */
    ghost var opening: map<int, real>

    /** Keys are the rows' positive ids, below the counters; foreign keys point at existing rows. */
    ghost predicate WellFormed()
      reads this
    {
      WellFormedTables(accounts, categories, transactions, nextAccountId, nextCategoryId, nextTransactionId)
    }

    /** Every balance is its opening balance plus the signed sum of the account's transactions. */
    ghost predicate Balanced()
      reads this
    {
      BalancedTables(accounts, opening, transactions)
    }

    ghost predicate Valid()
      reads this
    {
      WellFormed() && Balanced()
    }

    /** What the balance of `aid` has moved away from the signed sum of its transactions. */
    ghost function Drift(aid: int): real
      reads this
      requires aid in accounts
    {
      accounts[aid].balance - Net(transactions, aid)
    }

    /**
     * In a valid store every account's drift is its opening balance, so an
     * operation that keeps the store valid and leaves the opening balances
     * alone leaves every drift as it was.
     */
    lemma DriftIsOpening(aid: int)
      requires Valid() && aid in accounts
      ensures aid in opening && Drift(aid) == opening[aid]
    {
    }

    constructor ()
      ensures accounts == map[] && categories == map[] && transactions == map[] && opening == map[]
      ensures nextAccountId == 1 && nextCategoryId == 1 && nextTransactionId == 1
      ensures Valid()
    {
      accounts, categories, transactions := map[], map[], map[];
      nextAccountId, nextCategoryId, nextTransactionId := 1, 1, 1;
      opening := map[];
    }

    /** `getAccountById`. */
    function GetAccountById(id: int): (r: Option<AccountDom>)
      reads this
      ensures r.Some? <==> id in accounts
      ensures r.Some? ==> AccountToEntity(r.value) == accounts[id]
    {
      if id in accounts then Some(AccountToDomain(accounts[id])) else None
    }

    /** `getCategoryById`. */
    function GetCategoryById(id: int): (r: Option<CategoryDom>)
      reads this
      ensures r.Some? <==> id in categories
      ensures r.Some? ==> CategoryToEntity(r.value) == categories[id]
    {
      if id in categories then Some(CategoryToDomain(categories[id])) else None
    }

    /** The row `id` with the account and category rows it points at, as the relation query loads it. */
    function Details(id: int): (w: TransactionWithDetails)
      reads this
      requires id in transactions
      ensures w.transaction == transactions[id]
      ensures WellFormed() ==> RelationsMatch(w)
      ensures transactions[id].accountId.Some? && transactions[id].accountId.value in accounts
              ==> w.account == Some(accounts[transactions[id].accountId.value])
    {
      var t := transactions[id];
      assert WellFormed() && t.accountId.Some? ==>
        t.accountId.value in accounts && accounts[t.accountId.value].id == t.accountId.value;
      assert WellFormed() && t.categoryId.Some? ==>
        t.categoryId.value in categories && categories[t.categoryId.value].id == t.categoryId.value;
      TransactionWithDetails(
        t,
        if t.accountId.Some? && t.accountId.value in accounts then Some(accounts[t.accountId.value]) else None,
        if t.categoryId.Some? && t.categoryId.value in categories then Some(categories[t.categoryId.value]) else None)
    }

    /**
     * `getTransactionById`: the joined row mapped to the domain; `now` is the
     * `updatedAt` the mapping fills in. Writing the result back gives the
     * stored row unchanged.
     */
    function GetTransactionById(id: int, now: int): (r: Option<TransactionDom>)
      reads this
      requires WellFormed()
      ensures r.Some? <==> id in transactions
      ensures r.Some? ==> TransactionToEntity(r.value) == transactions[id] && r.value.updatedAt == now
      ensures r.Some? ==> (r.value.account.Some? <==> transactions[id].accountId.Some?)
      ensures r.Some? && r.value.account.Some? ==> AccountToEntity(r.value.account.value) == accounts[transactions[id].accountId.value]
    {
      if id in transactions then
        TransactionEntityRoundTrip(Details(id), now);
        Some(TransactionToDomain(Details(id), now))
      else None
    }

    /** `getTransactionCountForCategory`. */
    function TransactionCountForCategory(categoryId: int): (n: nat)
      reads this
      ensures n == 0 <==> forall k :: k in transactions ==> transactions[k].categoryId != Some(categoryId)
    {
      CountUsingZero(transactions, categoryId);
      CountUsing(transactions, categoryId)
    }

    /** `getDefaultAccount` (`LIMIT 1`): some default account, which one being up to the database. */
    method GetDefaultAccount() returns (r: Option<AccountDom>)
      requires WellFormed()
      ensures r.None? <==> forall id :: id in accounts ==> !accounts[id].isDefault
      ensures r.Some? ==> r.value.id in accounts && accounts[r.value.id].isDefault
                          && AccountToEntity(r.value) == accounts[r.value.id]
      ensures r.Some? ==> r.value == AccountToDomain(accounts[r.value.id])
    {
      if id :| id in accounts && accounts[id].isDefault {
        r := Some(AccountToDomain(accounts[id]));
      } else {
        r := None;
      }
    }

    /** `insertAccount` of a record with id 0: the row gets the next id. */
    method InsertAccount(d: AccountDom) returns (id: int)
      requires d.id == 0
      modifies this
      ensures id == old(nextAccountId) && nextAccountId == id + 1
      ensures accounts == old(accounts)[id := AccountToEntity(d).(id := id)]
      ensures opening == old(opening)[id := d.balance]
      ensures categories == old(categories) && transactions == old(transactions)
      ensures nextCategoryId == old(nextCategoryId) && nextTransactionId == old(nextTransactionId)
    {
      id := nextAccountId;
      accounts := accounts[id := AccountToEntity(d).(id := id)];
      opening := opening[id := d.balance];
      nextAccountId := nextAccountId + 1;
    }

    /** `updateAccount`: rewrites the row with the record's id, if there is one. */
    method UpdateAccount(d: AccountDom)
      modifies this
      ensures accounts == if d.id in old(accounts) then old(accounts)[d.id := AccountToEntity(d)] else old(accounts)
      ensures categories == old(categories) && transactions == old(transactions) && opening == old(opening)
      ensures nextAccountId == old(nextAccountId) && nextCategoryId == old(nextCategoryId)
      ensures nextTransactionId == old(nextTransactionId)
    {
      if d.id in accounts {
        accounts := accounts[d.id := AccountToEntity(d)];
      }
    }

    /** `updateBalance`: sets one account's balance, if the account exists. */
    method UpdateBalance(id: int, balance: real)
      modifies this
      ensures accounts == if id in old(accounts) then old(accounts)[id := old(accounts)[id].(balance := balance)] else old(accounts)
      ensures categories == old(categories) && transactions == old(transactions) && opening == old(opening)
      ensures nextAccountId == old(nextAccountId) && nextCategoryId == old(nextCategoryId)
      ensures nextTransactionId == old(nextTransactionId)
    {
      if id in accounts {
        accounts := accounts[id := accounts[id].(balance := balance)];
      }
    }

    /** `deleteAccount`: removes the row; the database detaches its transactions. */
    method DeleteAccount(d: AccountDom)
      modifies this
      ensures accounts == old(accounts) - {d.id}
      ensures transactions == DetachAccount(old(transactions), d.id)
      ensures categories == old(categories) && opening == old(opening)
      ensures nextAccountId == old(nextAccountId) && nextCategoryId == old(nextCategoryId)
      ensures nextTransactionId == old(nextTransactionId)
    {
      accounts := accounts - {d.id};
      transactions := DetachAccount(transactions, d.id);
    }

    /** `insertCategory` of a record with id 0: the row gets the next id. */
    method InsertCategory(d: CategoryDom) returns (id: int)
      requires d.id == 0
      modifies this
      ensures id == old(nextCategoryId) && nextCategoryId == id + 1
      ensures categories == old(categories)[id := CategoryToEntity(d).(id := id)]
      ensures accounts == old(accounts) && transactions == old(transactions) && opening == old(opening)
      ensures nextAccountId == old(nextAccountId) && nextTransactionId == old(nextTransactionId)
    {
      id := nextCategoryId;
      categories := categories[id := CategoryToEntity(d).(id := id)];
      nextCategoryId := nextCategoryId + 1;
    }

    /** `updateCategory`: rewrites the row with the record's id, if there is one. */
    method UpdateCategory(d: CategoryDom)
      modifies this
      ensures categories == if d.id in old(categories) then old(categories)[d.id := CategoryToEntity(d)] else old(categories)
      ensures accounts == old(accounts) && transactions == old(transactions) && opening == old(opening)
      ensures nextAccountId == old(nextAccountId) && nextCategoryId == old(nextCategoryId)
      ensures nextTransactionId == old(nextTransactionId)
    {
      if d.id in categories {
        categories := categories[d.id := CategoryToEntity(d)];
      }
    }

    /** `deleteCategory`: removes the row; the database detaches its transactions. */
    method DeleteCategory(d: CategoryDom)
      modifies this
      ensures categories == old(categories) - {d.id}
      ensures transactions == DetachCategory(old(transactions), d.id)
      ensures accounts == old(accounts) && opening == old(opening)
      ensures nextAccountId == old(nextAccountId) && nextCategoryId == old(nextCategoryId)
      ensures nextTransactionId == old(nextTransactionId)
    {
      categories := categories - {d.id};
      transactions := DetachCategory(transactions, d.id);
    }

    /** `insertTransaction` of a record with id 0: the row gets the next id. */
    method InsertTransaction(d: TransactionDom) returns (id: int)
      requires d.id == 0
      modifies this
      ensures id == old(nextTransactionId) && nextTransactionId == id + 1
      ensures transactions == old(transactions)[id := TransactionToEntity(d).(id := id)]
      ensures accounts == old(accounts) && categories == old(categories) && opening == old(opening)
      ensures nextAccountId == old(nextAccountId) && nextCategoryId == old(nextCategoryId)
    {
      id := nextTransactionId;
      transactions := transactions[id := TransactionToEntity(d).(id := id)];
      nextTransactionId := nextTransactionId + 1;
    }

    /** `updateTransaction`: rewrites the row with the record's id, if there is one. */
    method UpdateTransaction(d: TransactionDom)
      modifies this
      ensures transactions == if d.id in old(transactions) then old(transactions)[d.id := TransactionToEntity(d)] else old(transactions)
      ensures accounts == old(accounts) && categories == old(categories) && opening == old(opening)
      ensures nextAccountId == old(nextAccountId) && nextCategoryId == old(nextCategoryId)
      ensures nextTransactionId == old(nextTransactionId)
    {
      if d.id in transactions {
        transactions := transactions[d.id := TransactionToEntity(d)];
      }
    }

    /** `deleteTransaction`: removes the row with the record's id. */
    method DeleteTransaction(d: TransactionDom)
      modifies this
      ensures transactions == old(transactions) - {d.id}
      ensures accounts == old(accounts) && categories == old(categories) && opening == old(opening)
      ensures nextAccountId == old(nextAccountId) && nextCategoryId == old(nextCategoryId)
      ensures nextTransactionId == old(nextTransactionId)
    {
      transactions := transactions - {d.id};
    }
  }
}
