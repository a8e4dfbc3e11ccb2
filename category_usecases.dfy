/**
 * The category use cases: adding, editing and deleting a category. A
 * category in use is only deleted when the caller forces it; its
 * transactions then lose their category and keep everything else.
 */
module CategoryUseCases {
  import opened Wrappers
  import opened Domain
  import opened Entities
  import opened Text
  import opened Mappers
  import opened Ledger

  /** `DeleteCategoryUseCase.DeleteResult`. */
  datatype CategoryDeleteResult =
    | Success
    | CategoryNotFound
    | CannotDeleteDefault
    | HasTransactions(count: nat)
    | Error(message: string)

  /** A new category under the next id keeps the tables sound. */
  lemma InsertCategoryKeepsTables(accounts: map<int, Account>, categories0: map<int, Category>, txs: map<int, Transaction>,
                                  nextAccountId: int, nextCategoryId: int, nextTransactionId: int, row: Category)
    requires WellFormedTables(accounts, categories0, txs, nextAccountId, nextCategoryId, nextTransactionId)
    requires row.id == nextCategoryId
    ensures nextCategoryId !in categories0
    ensures WellFormedTables(accounts, categories0[row.id := row], txs, nextAccountId, nextCategoryId + 1, nextTransactionId)
  {
  }

  /** Rewriting a category row under its own id keeps the tables sound. */
  lemma RewriteCategoryKeepsTables(accounts: map<int, Account>, categories0: map<int, Category>, txs: map<int, Transaction>,
                                   nextAccountId: int, nextCategoryId: int, nextTransactionId: int, row: Category)
    requires WellFormedTables(accounts, categories0, txs, nextAccountId, nextCategoryId, nextTransactionId)
    requires row.id in categories0
    ensures WellFormedTables(accounts, categories0[row.id := row], txs, nextAccountId, nextCategoryId, nextTransactionId)
  {
  }

  /** Deleting a category detaches its transactions and leaves every balance's sum as it was. */
  lemma DeleteCategoryKeepsTables(accounts: map<int, Account>, categories0: map<int, Category>, txs: map<int, Transaction>,
                                  opening: map<int, real>, nextAccountId: int, nextCategoryId: int,
                                  nextTransactionId: int, gone: int)
    requires WellFormedTables(accounts, categories0, txs, nextAccountId, nextCategoryId, nextTransactionId)
    requires BalancedTables(accounts, opening, txs)
    ensures WellFormedTables(accounts, categories0 - {gone}, DetachCategory(txs, gone), nextAccountId, nextCategoryId, nextTransactionId)
    ensures BalancedTables(accounts, opening, DetachCategory(txs, gone))
  {
    forall aid | aid in accounts
      ensures Net(DetachCategory(txs, gone), aid) == Net(txs, aid)
    {
      DetachCategoryNet(txs, gone, aid);
    }
  }

  /** Detaching a category no transaction uses changes nothing. */
  lemma DetachUnused(txs: map<int, Transaction>, cid: int)
    requires CountUsing(txs, cid) == 0
    ensures DetachCategory(txs, cid) == txs
  {
    CountUsingZero(txs, cid);
    var detached := DetachCategory(txs, cid);
    assert forall k :: k in detached ==> detached[k] == txs[k];
  }

  /** The store work of `AddCategoryUseCase`: the row gets the next id and is never a default category. */
  method CreateCategory(store: Store, name: string, icon: string, color: int, kind: TransactionType, now: int)
    returns (id: int)
    requires store.Valid()
    modifies store
    ensures store.Valid()
    ensures store.accounts == old(store.accounts) && store.transactions == old(store.transactions)
    ensures store.opening == old(store.opening)
    ensures id == old(store.nextCategoryId) && id !in old(store.categories)
    ensures store.categories == old(store.categories)[id := Category(id, name, kind, color, icon, false, now)]
  {
    var category := CategoryDom(0, name, icon, color, kind, false, now);
    InsertCategoryKeepsTables(store.accounts, store.categories, store.transactions, store.nextAccountId,
                              store.nextCategoryId, store.nextTransactionId,
                              CategoryToEntity(category).(id := store.nextCategoryId));
    id := store.InsertCategory(category);
  }

  /** `AddCategoryUseCase`: the trimmed name must not be empty, then the icon must not be empty. */
  method AddCategory(store: Store, name: string, icon: string, color: int, kind: TransactionType, now: int)
    returns (r: Result<int>)
    requires store.Valid()
    modifies store
    ensures store.Valid()
    ensures store.accounts == old(store.accounts) && store.transactions == old(store.transactions)
    ensures store.opening == old(store.opening)
    ensures r == if Trim(name) == [] then Failure("Category name cannot be empty")
                 else if icon == [] then Failure("Icon is required")
                 else Result.Success(old(store.nextCategoryId))
    ensures r.Failure? ==> unchanged(store)
    ensures r.Success? ==>
              && r.value !in old(store.categories)
              && store.categories == old(store.categories)[r.value := Category(r.value, Trim(name), kind, color, icon, false, now)]
  {
    var trimmedName := Trim(name);
    if trimmedName == [] {
      return Failure("Category name cannot be empty");
    }
    if icon == [] {
      return Failure("Icon is required");
    }
    var id := CreateCategory(store, trimmedName, icon, color, kind, now);
    r := Result.Success(id);
  }

  /** The store work of `UpdateCategoryUseCase`: name, icon and colour are replaced; type and flag stay. */
  method EditCategory(store: Store, existing: CategoryDom, name: string, icon: string, color: int)
    requires store.Valid()
    requires existing.id in store.categories && CategoryToEntity(existing) == store.categories[existing.id]
    modifies store
    ensures store.Valid()
    ensures store.accounts == old(store.accounts) && store.transactions == old(store.transactions)
    ensures store.opening == old(store.opening)
    ensures store.categories == old(store.categories)[existing.id :=
              old(store.categories)[existing.id].(name := name, icon := icon, color := color)]
  {
    var updated := existing.(name := name, icon := icon, color := color);
    RewriteCategoryKeepsTables(store.accounts, store.categories, store.transactions, store.nextAccountId,
                               store.nextCategoryId, store.nextTransactionId, CategoryToEntity(updated));
    store.UpdateCategory(updated);
  }

  /** `UpdateCategoryUseCase`: the trimmed name must not be empty and the category must exist. */
  method UpdateCategory(store: Store, categoryId: int, name: string, icon: string, color: int) returns (r: Result<()>)
    requires store.Valid()
    modifies store
    ensures store.Valid()
    ensures store.accounts == old(store.accounts) && store.transactions == old(store.transactions)
    ensures store.opening == old(store.opening)
    ensures r == if Trim(name) == [] then Failure("Category name cannot be empty")
                 else if categoryId !in old(store.categories) then Failure("Category not found")
                 else Result.Success(())
    ensures r.Failure? ==> unchanged(store)
    ensures r.Success? ==>
              store.categories == old(store.categories)[categoryId :=
                old(store.categories)[categoryId].(name := Trim(name), icon := icon, color := color)]
  {
    var trimmedName := Trim(name);
    if trimmedName == [] {
      return Failure("Category name cannot be empty");
    }
    var existing := store.GetCategoryById(categoryId);
    if existing.None? {
      return Failure("Category not found");
    }
    assert existing.value.id == categoryId;
    EditCategory(store, existing.value, trimmedName, icon, color);
    r := Result.Success(());
  }

  /**
   * `DeleteCategoryUseCase`: a missing category and a default category are
   * refused; a category still in use is refused with its transaction count
   * unless the deletion is forced. Deleting detaches its transactions.
   */
  method DeleteCategory(store: Store, categoryId: int, forceDelete: bool) returns (r: CategoryDeleteResult)
    requires store.Valid()
    modifies store
    ensures store.Valid()
    ensures r == if categoryId !in old(store.categories) then CategoryNotFound
                 else if old(store.categories)[categoryId].isDefault then CannotDeleteDefault
                 else if CountUsing(old(store.transactions), categoryId) > 0 && !forceDelete
                 then HasTransactions(CountUsing(old(store.transactions), categoryId))
                 else CategoryDeleteResult.Success
    ensures r != CategoryDeleteResult.Success ==> unchanged(store)
    ensures r.HasTransactions? ==>
              exists k :: k in store.transactions && store.transactions[k].categoryId == Some(categoryId)
    ensures r == CategoryDeleteResult.Success ==>
              && store.categories == old(store.categories) - {categoryId}
              && store.transactions == DetachCategory(old(store.transactions), categoryId)
              && store.accounts == old(store.accounts) && store.opening == old(store.opening)
    ensures r == CategoryDeleteResult.Success && !forceDelete ==> store.transactions == old(store.transactions)
  {
    var category := store.GetCategoryById(categoryId);
    if category.None? {
      return CategoryNotFound;
    }
    if category.value.isDefault {
      return CannotDeleteDefault;
    }
    var transactionCount := store.TransactionCountForCategory(categoryId);
    if transactionCount > 0 && !forceDelete {
      CountUsingZero(store.transactions, categoryId);
      return HasTransactions(transactionCount);
    }
    if !forceDelete {
      DetachUnused(store.transactions, categoryId);
    }
    DeleteCategoryKeepsTables(store.accounts, store.categories, store.transactions, store.opening, store.nextAccountId,
                              store.nextCategoryId, store.nextTransactionId, categoryId);
    store.DeleteCategory(category.value);
    r := CategoryDeleteResult.Success;
  }
}
