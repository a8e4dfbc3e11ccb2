# ExpenseFlow ledger core in Dafny

ExpenseFlow is an Android personal-finance app. It keeps accounts, income and expense categories, and transactions. Each transaction moves the balance of the account it is booked on. This project models the part of the app that holds logic, rather than rendering or plumbing:

- **The store** (`Ledger.Store`). It holds the three Room tables as maps keyed by id, with the auto-increment counters. Its methods are the DAO primitives the use cases call.
  - Deleting an account or a category keeps the transactions that used it, with the foreign key set to null. This is the `SET_NULL` rule of the transactions table.
  - Its invariant `Valid()` says two things. Keys and foreign keys are consistent. Every balance equals the account's opening balance plus the signed sum of its transactions.
- **The use cases** (`TransactionUseCases`, `AccountUseCases`, `CategoryUseCases`):
  - adding, updating and deleting transactions, with their balance bookkeeping;
  - account and category creation and edits, with name trimming, the single-default-account rule and delete protection;
  - the transaction query dispatch (`TransactionQueries`);
  - the spending-by-category aggregation of the dashboard (`DashboardUseCase`).
- **The data-layer conversions:** entity/domain mappers (`Mappers`), enum/name converters (`Converters`), the navigation routes (`Routes`), and the `groupByDate`/`getOrNull` extensions (`Extensions`).
- **The five view models** (`AccountsFeature`, `CategoriesFeature`, `TransactionsFeature`, `DashboardFeature`, `TransactionManagementFeature`).
  - Each is a class. It holds the screen's immutable UI-state value, which every handler replaces, and the sequence of one-off events it has sent.
  - Save and delete handlers run their use case against a `Store` before they return.

Amounts are exact `real`s, standing for the app's `Double`s, so the balance invariant is an exact-arithmetic idealisation. Ids, dates and colours are `int`s. The current time is a parameter `now`. Kotlin's `type` field is called `kind`. `Text` models Kotlin's `trim`, `isBlank` and decimal rendering. `Collections` provides the order-keeping filter and the descending sort the code relies on.

## Model

All source paths are under `app/src/main/java/com/uansari/expenseflow/`; the table writes them in full.

| member | source | states |
|---|---|---|
| Domain.Signed | app/src/main/java/com/uansari/expenseflow/domain/usecase/transaction/AddTransactionUseCase.kt:50-54 | a positive amount raises the balance exactly for INCOME; the effect is plus or minus the amount |
| Ledger.Effect | app/src/main/java/com/uansari/expenseflow/domain/usecase/transaction/DeleteTransactionUseCase.kt:22-35 | a transaction moves only the balance of the account it is booked on, by its signed amount; a detached one moves none |
| Ledger.NetReplace | app/src/main/java/com/uansari/expenseflow/domain/usecase/transaction/UpdateTransactionUseCase.kt:51-80 | rewriting one transaction changes an account's signed sum by the new effect minus the old |
| Ledger.DetachAccountNet | app/src/main/java/com/uansari/expenseflow/data/local/entity/Transaction.kt:11-15 | nulling the account of a deleted account's transactions leaves every other account's signed sum unchanged |
| Ledger.DetachCategoryNet | app/src/main/java/com/uansari/expenseflow/data/local/entity/Transaction.kt:16-20 | nulling the category of transactions leaves every account's signed sum unchanged |
| Ledger.CountUsingZero | app/src/main/java/com/uansari/expenseflow/data/local/dao/CategoryDao.kt:42-43 | the count of transactions using a category is zero iff no transaction uses it |
| Ledger.DetachAccount | app/src/main/java/com/uansari/expenseflow/data/local/entity/Transaction.kt:11-15 | deleting an account keeps every transaction key; no transaction references the account afterwards, and only those that did have their account nulled |
| Ledger.DetachCategory | app/src/main/java/com/uansari/expenseflow/data/local/entity/Transaction.kt:16-20 | deleting a category keeps every transaction key; no transaction references the category afterwards, and only those that did have their category nulled |
| Ledger.Store.TransactionCountForCategory | app/src/main/java/com/uansari/expenseflow/data/local/dao/CategoryDao.kt:42-43 | the count is zero iff no transaction in the store uses the category |
| Ledger.Store.DriftIsOpening | app/src/main/java/com/uansari/expenseflow/domain/usecase/account/AddAccountUseCase.kt:39-47 | in a valid store, balance minus the signed sum of an account's transactions is the balance the account was created with |
| Ledger.Store.constructor | app/src/main/java/com/uansari/expenseflow/data/local/database/AppDatabase.kt:13-25 | the empty database is valid, with every counter at 1 |
| Ledger.Store.GetAccountById | app/src/main/java/com/uansari/expenseflow/data/local/dao/AccountDao.kt:42-43 | found iff the id is a row, and then it is that row |
| Ledger.Store.GetCategoryById | app/src/main/java/com/uansari/expenseflow/data/local/dao/CategoryDao.kt:39-40 | found iff the id is a row, and then it is that row |
| Ledger.Store.Details | app/src/main/java/com/uansari/expenseflow/data/local/entity/TransactionWithDetails.kt:6-18 | the loaded relations are the rows the foreign keys name |
| Ledger.Store.GetTransactionById | app/src/main/java/com/uansari/expenseflow/domain/usecase/transaction/GetTransactionByIdUseCase.kt:11-13 | found iff the id is a row; the result maps back to that row, with its account present iff the row has one |
| Ledger.Store.GetDefaultAccount | app/src/main/java/com/uansari/expenseflow/data/local/dao/AccountDao.kt:45-46 | none iff no account is default; otherwise some default row |
| Ledger.Store.InsertAccount | app/src/main/java/com/uansari/expenseflow/data/local/dao/AccountDao.kt:16 | the row is stored under the next id, which is returned; nothing else changes |
| Ledger.Store.UpdateAccount | app/src/main/java/com/uansari/expenseflow/data/local/dao/AccountDao.kt:22 | the row with that id is replaced, if there is one; nothing else changes |
| Ledger.Store.UpdateBalance | app/src/main/java/com/uansari/expenseflow/data/local/dao/AccountDao.kt:24-25 | only that account's balance changes |
| Ledger.Store.DeleteAccount | app/src/main/java/com/uansari/expenseflow/data/local/dao/AccountDao.kt:34 | the row goes, and its transactions stay with their account set to null |
| Ledger.Store.InsertCategory | app/src/main/java/com/uansari/expenseflow/data/local/dao/CategoryDao.kt:16 | the row is stored under the next id, which is returned |
| Ledger.Store.UpdateCategory | app/src/main/java/com/uansari/expenseflow/data/local/dao/CategoryDao.kt:23 | the row with that id is replaced, if there is one |
| Ledger.Store.DeleteCategory | app/src/main/java/com/uansari/expenseflow/data/local/dao/CategoryDao.kt:27 | the row goes, and its transactions stay with their category set to null |
| Ledger.Store.InsertTransaction | app/src/main/java/com/uansari/expenseflow/data/local/dao/TransactionDao.kt:18 | the row is stored under the next id, which is returned; balances do not change |
| Ledger.Store.UpdateTransaction | app/src/main/java/com/uansari/expenseflow/data/local/dao/TransactionDao.kt:22 | the row with that id is replaced, if there is one |
| Ledger.Store.DeleteTransaction | app/src/main/java/com/uansari/expenseflow/data/local/dao/TransactionDao.kt:26 | only that row goes |
| TransactionUseCases.Reversed | app/src/main/java/com/uansari/expenseflow/domain/usecase/transaction/UpdateTransactionUseCase.kt:51-60 | reversing an effect undoes applying it |
| TransactionUseCases.Applied | app/src/main/java/com/uansari/expenseflow/domain/usecase/transaction/AddTransactionUseCase.kt:50-53 | the new balance is the old one plus the signed effect: income adds the amount, expense subtracts it; `Reversed` undoes it |
| TransactionUseCases.ReapplyReverses | app/src/main/java/com/uansari/expenseflow/domain/usecase/transaction/DeleteTransactionUseCase.kt:22-35 | taking a transaction's effect off balances it was just added to gives back the balances from before |
| TransactionUseCases.AddTransaction | app/src/main/java/com/uansari/expenseflow/domain/usecase/transaction/AddTransactionUseCase.kt:26-56 | requires a positive amount; "Account not found", then "Category not found", with the store unchanged; otherwise exactly one new row with the trimmed note, under the returned id, and only the chosen account's balance moves, by the signed amount; the store stays valid with opening balances kept |
| TransactionUseCases.UpdateTransaction | app/src/main/java/com/uansari/expenseflow/domain/usecase/transaction/UpdateTransactionUseCase.kt:25-80 | failures in the order amount, transaction, account, category, with the store unchanged; on success the row keeps id and createdAt and takes the new fields; every balance moves by the new effect minus the old, which covers a detached old row and an account change; the store stays valid |
| TransactionUseCases.DeleteTransaction | app/src/main/java/com/uansari/expenseflow/domain/usecase/transaction/DeleteTransactionUseCase.kt:15-37 | "Transaction not found" with the store unchanged; otherwise only that row goes and only its account's balance is reversed; the store stays valid |
| TransactionUseCases.AddThenDelete | app/src/main/java/com/uansari/expenseflow/domain/usecase/transaction/DeleteTransactionUseCase.kt:23-33 | adding a transaction and deleting it again restores every balance and the transaction table |
| TransactionQueries.ByType | app/src/main/java/com/uansari/expenseflow/data/local/dao/TransactionDao.kt:35-37 | exactly the transactions of the given type: none of the other type, none of this type left out |
| TransactionQueries.ByDateRange | app/src/main/java/com/uansari/expenseflow/data/local/dao/TransactionDao.kt:39-49 | exactly the transactions dated within both inclusive bounds: none outside them, none inside them left out |
| TransactionQueries.GetTransactions | app/src/main/java/com/uansari/expenseflow/domain/usecase/transaction/GetTransactionsUseCase.kt:18-41 | whichever filters are set, the result holds exactly the transactions that match them all, and is no longer than the full listing |
| TransactionQueries.GetTransactionsIsFilter | app/src/main/java/com/uansari/expenseflow/domain/usecase/transaction/GetTransactionsUseCase.kt:18-41 | each of the four branches is the order-keeping filter of all transactions by the filters that are set; a single date is ignored |
| TransactionQueries.GetTransactionsSpec | app/src/main/java/com/uansari/expenseflow/domain/usecase/transaction/GetTransactionsUseCase.kt:18-41 | the result is a subsequence of all transactions and holds exactly those matching the type and the date range |
| AccountUseCases.ClearCurrentDefault | app/src/main/java/com/uansari/expenseflow/domain/usecase/account/UpdateAccountUseCase.kt:36-45 | only the default flag of the current default, other than the kept id, is cleared; balances and every other field stay |
| AccountUseCases.AddAccount | app/src/main/java/com/uansari/expenseflow/domain/usecase/account/AddAccountUseCase.kt:21-50 | "Account name cannot be empty" with the store unchanged; otherwise a new row under the returned id with the trimmed name and the initial balance as its opening balance; with isDefault it is the only default, and otherwise no row changes; at most one default is preserved |
| AccountUseCases.UpdateAccount | app/src/main/java/com/uansari/expenseflow/domain/usecase/account/UpdateAccountUseCase.kt:21-57 | name checked before lookup, "Account not found", store unchanged on failure; on success balance, id and createdAt are kept and the other fields replaced; becoming default clears the previous one, un-defaulting promotes none; at most one default is preserved |
| AccountUseCases.DeleteAccount | app/src/main/java/com/uansari/expenseflow/domain/usecase/account/DeleteAccountUseCase.kt:17-35 | AccountNotFound, then CannotDeleteDefault, with the store unchanged; otherwise only that row goes, its transactions are detached and no id counter moves; forceDelete plays no part |
| CategoryUseCases.AddCategory | app/src/main/java/com/uansari/expenseflow/domain/usecase/category/AddCategoryUseCase.kt:16-39 | "Category name cannot be empty", then "Icon is required", with the store unchanged; otherwise one new non-default row with the trimmed name under the returned id and no other row touched |
| CategoryUseCases.UpdateCategory | app/src/main/java/com/uansari/expenseflow/domain/usecase/category/UpdateCategoryUseCase.kt:15-32 | name checked before lookup, "Category not found", store unchanged on failure; on success only name, icon and colour of that row change, and an empty icon is accepted |
| CategoryUseCases.DeleteCategory | app/src/main/java/com/uansari/expenseflow/domain/usecase/category/DeleteCategoryUseCase.kt:24-46 | CategoryNotFound, CannotDeleteDefault (even when forced), HasTransactions with the exact count unless forced, in that order, with the store unchanged; otherwise the row goes and an unforced delete touches no transaction |
| DashboardUseCase.AssociateBy | app/src/main/java/com/uansari/expenseflow/domain/usecase/dashboard/GetDashboardDataUseCase.kt:98 | a category is found iff one with that id is listed |
| DashboardUseCase.SumValues | app/src/main/java/com/uansari/expenseflow/domain/usecase/dashboard/GetDashboardDataUseCase.kt:95 | the total of non-negative amounts is non-negative |
| DashboardUseCase.Matched | app/src/main/java/com/uansari/expenseflow/domain/usecase/dashboard/GetDashboardDataUseCase.kt:101-112 | no more items than entries; each item comes from an entry whose id names its category, with that entry's amount and share |
| DashboardUseCase.Percentage | app/src/main/java/com/uansari/expenseflow/domain/usecase/dashboard/GetDashboardDataUseCase.kt:104-108 | amount / total * 100 when the total is positive, else 0 |
| DashboardUseCase.PercentageBounds | app/src/main/java/com/uansari/expenseflow/domain/usecase/dashboard/GetDashboardDataUseCase.kt:104-108 | an amount within the total gives a percentage within [0, 100] |
| DashboardUseCase.EntryWithinSum | app/src/main/java/com/uansari/expenseflow/domain/usecase/dashboard/GetDashboardDataUseCase.kt:95 | with no negative amounts, each amount lies between zero and the sum of all values |
| DashboardUseCase.MatchedDistinct | app/src/main/java/com/uansari/expenseflow/domain/usecase/dashboard/GetDashboardDataUseCase.kt:101-112 | distinct map keys give distinct output categories |
| DashboardUseCase.SpendingByCategory | app/src/main/java/com/uansari/expenseflow/domain/usecase/dashboard/GetDashboardDataUseCase.kt:95-113 | sorted by non-increasing amount, and a permutation of the matched entries |
| DashboardUseCase.SpendingByCategorySpec | app/src/main/java/com/uansari/expenseflow/domain/usecase/dashboard/GetDashboardDataUseCase.kt:95-113 | no more items than entries; every item pairs an entry's matching category with exactly its amount and its share of the whole total; every matched entry appears; no category twice; percentages within [0, 100] for non-negative amounts |
| DashboardUseCase.DroppedEntriesStillCount | app/src/main/java/com/uansari/expenseflow/domain/usecase/dashboard/GetDashboardDataUseCase.kt:95-102 | an unmatched entry still counts in the total, so the kept percentages sum to less than 100 |
| Mappers.AccountsToDomain | app/src/main/java/com/uansari/expenseflow/data/mapper/AccountMapper.kt:32-34 | length and order are kept, each element mapping back to its row |
| Mappers.AccountToDomain | app/src/main/java/com/uansari/expenseflow/data/mapper/AccountMapper.kt:6-17 | the domain record maps back to the very row it was read from |
| Mappers.AccountToEntity | app/src/main/java/com/uansari/expenseflow/data/mapper/AccountMapper.kt:19-30 | every field, balance and default flag included, is copied unchanged |
| Mappers.AccountRoundTrip | app/src/main/java/com/uansari/expenseflow/data/mapper/AccountMapper.kt:6-30 | toEntity(toDomain(a)) == a and toDomain(toEntity(d)) == d |
| Mappers.CategoriesToDomain | app/src/main/java/com/uansari/expenseflow/data/mapper/CategoryMapper.kt:32-34 | length and order are kept, each element mapping back to its row |
| Mappers.CategoryToDomain | app/src/main/java/com/uansari/expenseflow/data/mapper/CategoryMapper.kt:6-16 | the domain record maps back to the very row it was read from |
| Mappers.CategoryToEntity | app/src/main/java/com/uansari/expenseflow/data/mapper/CategoryMapper.kt:19-29 | every field is copied unchanged, whatever order the two records declare them in |
| Mappers.CategoryRoundTrip | app/src/main/java/com/uansari/expenseflow/data/mapper/CategoryMapper.kt:6-29 | toEntity(toDomain(c)) == c and toDomain(toEntity(d)) == d |
| Mappers.TransactionToEntity | app/src/main/java/com/uansari/expenseflow/data/mapper/TransactionMapper.kt:27-38 | the foreign keys are the nested records' ids, present iff the records are |
| Mappers.TransactionToDomain | app/src/main/java/com/uansari/expenseflow/data/mapper/TransactionMapper.kt:10-21 | the row's fields are carried over, an attached account or category is present iff loaded and maps back to it, `updatedAt` is the current time, and with matching relations the record maps back to the row |
| Mappers.TransactionsToDomain | app/src/main/java/com/uansari/expenseflow/data/mapper/TransactionMapper.kt:41-43 | length and order are kept, element by element |
| Mappers.TransactionEntityRoundTrip | app/src/main/java/com/uansari/expenseflow/data/mapper/TransactionMapper.kt:10-38 | a loaded row maps back to itself iff its relations' ids equal its foreign keys |
| Mappers.TransactionDomainRoundTrip | app/src/main/java/com/uansari/expenseflow/data/mapper/TransactionMapper.kt:10-38 | domain to entity and back is the identity except for updatedAt, which is not stored |
| Converters.FromTransactionType | app/src/main/java/com/uansari/expenseflow/data/local/database/Converters.kt:10-12 | the stored name is a valid enum name |
| Converters.FromAccountType | app/src/main/java/com/uansari/expenseflow/data/local/database/Converters.kt:20-22 | the stored name is a valid enum name |
| Converters.ToTransactionType | app/src/main/java/com/uansari/expenseflow/data/local/database/Converters.kt:14-17 | a stored transaction-type name reads back to the constant stored under it |
| Converters.ToAccountType | app/src/main/java/com/uansari/expenseflow/data/local/database/Converters.kt:24-27 | a stored account-type name reads back to the constant stored under it |
| Converters.TransactionTypeRoundTrip | app/src/main/java/com/uansari/expenseflow/data/local/database/Converters.kt:9-17 | name then parse is the identity on types, and parse then name on valid names |
| Converters.AccountTypeRoundTrip | app/src/main/java/com/uansari/expenseflow/data/local/database/Converters.kt:19-27 | name then parse is the identity on types, and parse then name on valid names |
| Converters.ConvertersInjective | app/src/main/java/com/uansari/expenseflow/data/local/database/Converters.kt:10-22 | distinct enum values give distinct names |
| Extensions.GetOrNull | app/src/main/java/com/uansari/expenseflow/core/util/Extensions.kt:24-26 | the element at the index iff the index is in range, otherwise null |
| Extensions.GroupBySpec | app/src/main/java/com/uansari/expenseflow/core/util/Extensions.kt:8-10 | group keys are distinct, groups are non-empty, each holds exactly the items with its key in their order, and every item's key has a group |
| Extensions.GroupBy | app/src/main/java/com/uansari/expenseflow/core/util/Extensions.kt:8-10 | no more groups than items, no key twice, and at least one group for a non-empty list |
| Extensions.GroupByKeysPrefix | app/src/main/java/com/uansari/expenseflow/core/util/Extensions.kt:8-10 | groups come in the order their keys first occur: the groups of any prefix of the list are the first groups of the whole list, key for key |
| Extensions.GroupByFirstKey | app/src/main/java/com/uansari/expenseflow/core/util/Extensions.kt:7-10 | the first group is the one of the first item's key; in `groupByDate`, whose list is sorted newest first, that is the newest day |
| Extensions.GroupByFlatten | app/src/main/java/com/uansari/expenseflow/core/util/Extensions.kt:8-10 | the groups together are a permutation of the input |
| Extensions.GroupByDate | app/src/main/java/com/uansari/expenseflow/core/util/Extensions.kt:6-11 | distinct, non-empty groups whose members all carry the group's day label, dates non-increasing within each group, and together a permutation of the input |
| Collections.SortDesc | app/src/main/java/com/uansari/expenseflow/core/util/Extensions.kt:7 | a permutation of the input with non-increasing rank |
| Collections.SortDescStable | app/src/main/java/com/uansari/expenseflow/core/util/Extensions.kt:7 | the sort is stable: for every rank, the elements of that rank come out in their input order |
| Routes.CreateEditTransactionRoute | app/src/main/java/com/uansari/expenseflow/core/navigation/Routes.kt:21-23 | the route starts with "transaction/edit/" and has an id after it |
| Routes.EditRouteFillsTemplate | app/src/main/java/com/uansari/expenseflow/core/navigation/Routes.kt:13-23 | the built route is the EditTransaction template with the placeholder replaced by the decimal id |
| Routes.EditRouteRoundTrip | app/src/main/java/com/uansari/expenseflow/core/navigation/Routes.kt:21-23 | the id read back from a built route is the id it was built from, so distinct ids give distinct routes |
| Routes.RoutesDistinct | app/src/main/java/com/uansari/expenseflow/core/navigation/Routes.kt:5-18 | the static routes are pairwise distinct, none carries an id, and no built edit route equals any of them |
| Text.Trim | app/src/main/java/com/uansari/expenseflow/domain/usecase/account/AddAccountUseCase.kt:22-23 | the result is a slice of the name with only whitespace cut off on either side; it is empty iff the name is blank, and otherwise starts and ends with a non-whitespace character |
| Text.TrimIdempotent | app/src/main/java/com/uansari/expenseflow/domain/usecase/category/UpdateCategoryUseCase.kt:15-16 | trimming a trimmed name changes nothing |
| Text.BlankMeansWhitespaceOnly | app/src/main/java/com/uansari/expenseflow/feature/transaction_management/TransactionManagementViewModel.kt:358 | a text is blank iff every character is whitespace, iff trimming it leaves nothing |
| Text.TrimOpt | app/src/main/java/com/uansari/expenseflow/domain/usecase/transaction/AddTransactionUseCase.kt:43 | a present note becomes `Trim` of it and an absent one stays absent; the trimmed note is empty iff it was blank |
| Text.DecimalRoundTrip | app/src/main/java/com/uansari/expenseflow/core/navigation/Routes.kt:22 | parsing the decimal rendering of an id gives the id back |
| Text.DecimalInjective | app/src/main/java/com/uansari/expenseflow/core/navigation/Routes.kt:22 | distinct ids render differently |
| AccountsFeature.TotalBalance | app/src/main/java/com/uansari/expenseflow/feature/accounts/AccountsViewModel.kt:74 | the total of non-negative balances is non-negative |
| AccountsFeature.TotalBalanceAppend | app/src/main/java/com/uansari/expenseflow/feature/accounts/AccountsViewModel.kt:74 | the total over two lists is the sum of their totals |
| AccountsFeature.TotalBalanceReplace | app/src/main/java/com/uansari/expenseflow/feature/accounts/AccountsViewModel.kt:74 | a balance change on one listed account moves the total by exactly that change |
| AccountsFeature.AccountsUiState.IsEmpty | app/src/main/java/com/uansari/expenseflow/feature/accounts/AccountsViewModel.kt:238-239 | empty once loading is over and no account is listed; the total balance is then zero |
| AccountsFeature.AccountsUiState.ShowDialog | app/src/main/java/com/uansari/expenseflow/feature/accounts/AccountsViewModel.kt:241-242 | the dialog shows iff it has a title |
| AccountsFeature.AccountsUiState.IsEditMode | app/src/main/java/com/uansari/expenseflow/feature/accounts/AccountsViewModel.kt:251-252 | edit mode iff the title is "Edit Account", and only while the dialog shows |
| AccountsFeature.AccountsUiState.DialogTitle | app/src/main/java/com/uansari/expenseflow/feature/accounts/AccountsViewModel.kt:244-249 | no title iff no dialog; "Add Account" iff the add dialog, "Edit Account" iff the edit dialog |
| AccountsFeature.SaveMessage | app/src/main/java/com/uansari/expenseflow/feature/accounts/AccountsViewModel.kt:141-156 | "Account updated" iff an edit succeeded, "Account added" iff an add succeeded, else the failure's message |
| AccountsFeature.DeleteMessage | app/src/main/java/com/uansari/expenseflow/feature/accounts/AccountsViewModel.kt:182-200 | one message per outcome, each iff that outcome: "Account not found", "Account is default account", "Failed to delete", "Account deleted" |
| AccountsFeature.AccountsViewModel.constructor | app/src/main/java/com/uansari/expenseflow/feature/accounts/AccountsViewModel.kt:228-236 | loading, not empty, no dialog |
| AccountsFeature.AccountsViewModel.OnLoadStarted | app/src/main/java/com/uansari/expenseflow/feature/accounts/AccountsViewModel.kt:60-61 | only isLoading is set |
| AccountsFeature.AccountsViewModel.OnAccountsLoaded | app/src/main/java/com/uansari/expenseflow/feature/accounts/AccountsViewModel.kt:68-75 | accounts and their total are shown, not loading, no error; empty iff no accounts |
| AccountsFeature.AccountsViewModel.OnLoadFailed | app/src/main/java/com/uansari/expenseflow/feature/accounts/AccountsViewModel.kt:62-67 | not loading, error set to the message, possibly null |
| AccountsFeature.AccountsViewModel.OnAddAccountClick | app/src/main/java/com/uansari/expenseflow/feature/accounts/AccountsViewModel.kt:84-88 | the Add dialog shows, not in edit mode, titled "Add Account" |
| AccountsFeature.AccountsViewModel.OnEditAccountClick | app/src/main/java/com/uansari/expenseflow/feature/accounts/AccountsViewModel.kt:90-94 | the Edit dialog shows, in edit mode, titled "Edit Account" |
| AccountsFeature.AccountsViewModel.OnDismissDialog | app/src/main/java/com/uansari/expenseflow/feature/accounts/AccountsViewModel.kt:96-98 | no dialog, empty title |
| AccountsFeature.AccountsViewModel.OnSaveAccount | app/src/main/java/com/uansari/expenseflow/feature/accounts/AccountsViewModel.kt:104-158 | no-op without a dialog; otherwise isSaving ends false, the dialog closes only on success, one snackbar with the outcome's message, and the store is unchanged on failure. On success the row is added or edited as the use case makes it. Categories and transactions stay. An add records the opening balance; an edit keeps the opening balances. Only the former default is demoted. With isDefault the saved row is the only default. At most one default is kept |
| AccountsFeature.AccountsViewModel.OnDeleteAccountClick | app/src/main/java/com/uansari/expenseflow/feature/accounts/AccountsViewModel.kt:164-170 | the confirmation shows for that account |
| AccountsFeature.AccountsViewModel.OnConfirmDelete | app/src/main/java/com/uansari/expenseflow/feature/accounts/AccountsViewModel.kt:172-204 | no-op without a target; otherwise the confirmation closes and one snackbar reports the delete decision, "Account deleted" exactly when the account left the store. A refusal leaves the store unchanged. A deletion removes only that row and detaches its transactions. Categories and opening balances stay, and at most one default is kept |
| AccountsFeature.AccountsViewModel.OnDismissDeleteConfirm | app/src/main/java/com/uansari/expenseflow/feature/accounts/AccountsViewModel.kt:206-212 | confirmation and target cleared |
| CategoriesFeature.CategoryPartition | app/src/main/java/com/uansari/expenseflow/feature/categories/CategoriesViewModel.kt:74-79 | the expense and income lists are order-keeping sublists of the loaded categories holding exactly the categories of their type, together each category once |
| CategoriesFeature.CategoriesUiState.IsEmpty | app/src/main/java/com/uansari/expenseflow/feature/categories/CategoriesViewModel.kt:255-256 | empty once loading is over and no category is listed; neither tab then has a category |
| CategoriesFeature.CategoriesUiState.ShowDialog | app/src/main/java/com/uansari/expenseflow/feature/categories/CategoriesViewModel.kt:258-259 | the dialog shows iff it has a title |
| CategoriesFeature.CategoriesUiState.DialogTitle | app/src/main/java/com/uansari/expenseflow/feature/categories/CategoriesViewModel.kt:261-266 | no title iff no dialog; "Add Category" iff the add dialog, "Edit Category" iff the edit dialog |
| CategoriesFeature.SaveMessage | app/src/main/java/com/uansari/expenseflow/feature/categories/CategoriesViewModel.kt:139-153 | "Category updated" iff an edit succeeded, "Category added" iff an add succeeded, else the failure's message |
| CategoriesFeature.DeleteMessage | app/src/main/java/com/uansari/expenseflow/feature/categories/CategoriesViewModel.kt:180-220 | "Category deleted" iff Success, "Cannot delete default Category" iff CannotDeleteDefault, "Failed to delete" iff not found, in use or an error |
| CategoriesFeature.CategoriesViewModel.constructor | app/src/main/java/com/uansari/expenseflow/feature/categories/CategoriesViewModel.kt:244-254 | loading, not empty, no dialog |
| CategoriesFeature.CategoriesViewModel.OnLoadStarted | app/src/main/java/com/uansari/expenseflow/feature/categories/CategoriesViewModel.kt:60-61 | only isLoading is set |
| CategoriesFeature.CategoriesViewModel.OnCategoriesLoaded | app/src/main/java/com/uansari/expenseflow/feature/categories/CategoriesViewModel.kt:68-80 | the categories and their expense and income lists are shown; empty iff none |
| CategoriesFeature.CategoriesViewModel.OnLoadFailed | app/src/main/java/com/uansari/expenseflow/feature/categories/CategoriesViewModel.kt:62-67 | not loading, error set to the message, possibly null |
| CategoriesFeature.CategoriesViewModel.OnAddCategoryClick | app/src/main/java/com/uansari/expenseflow/feature/categories/CategoriesViewModel.kt:89-95 | the Add dialog shows, titled "Add Category" |
| CategoriesFeature.CategoriesViewModel.OnEditCategoryClick | app/src/main/java/com/uansari/expenseflow/feature/categories/CategoriesViewModel.kt:97-103 | the Edit dialog shows, titled "Edit Category" |
| CategoriesFeature.CategoriesViewModel.OnDismissDialog | app/src/main/java/com/uansari/expenseflow/feature/categories/CategoriesViewModel.kt:105-109 | no dialog, empty title |
| CategoriesFeature.CategoriesViewModel.OnSaveCategory | app/src/main/java/com/uansari/expenseflow/feature/categories/CategoriesViewModel.kt:115-156 | no-op without a dialog; otherwise isSaving ends false, the dialog closes only on success, one snackbar with the outcome's message, and the store is unchanged on failure. An add inserts exactly the new non-default row. An edit replaces only that row's name (trimmed), icon and colour, keeping its type and default flag. Accounts, transactions and opening balances stay |
| CategoriesFeature.CategoriesViewModel.OnDeleteCategoryClick | app/src/main/java/com/uansari/expenseflow/feature/categories/CategoriesViewModel.kt:162-168 | the confirmation shows for that category |
| CategoriesFeature.CategoriesViewModel.OnConfirmDelete | app/src/main/java/com/uansari/expenseflow/feature/categories/CategoriesViewModel.kt:170-223 | no-op without a target; otherwise the confirmation closes first and one snackbar reports the unforced delete decision, "Category deleted" exactly when the category left the store. A refusal leaves the store unchanged. A deletion removes only that row. Transactions, accounts and opening balances stay |
| CategoriesFeature.CategoriesViewModel.OnDismissDeleteConfirm | app/src/main/java/com/uansari/expenseflow/feature/categories/CategoriesViewModel.kt:225-231 | confirmation and target cleared |
| TransactionsFeature.FilterType | app/src/main/java/com/uansari/expenseflow/feature/transactions/TransactionsViewModel.kt:66-72 | All asks for no type, Income for INCOME, Expense for EXPENSE, each both ways |
| TransactionsFeature.TransactionFilter.Label | app/src/main/java/com/uansari/expenseflow/feature/transactions/TransactionsViewModel.kt:165-167 | each chip label names the filter: "All" iff no type is asked for, "Income"/"Expense" iff that type is |
| TransactionsFeature.TransactionsUiState.IsEmpty | app/src/main/java/com/uansari/expenseflow/feature/transactions/TransactionsViewModel.kt:183-184 | empty iff loading is over and the count is zero |
| TransactionsFeature.TransactionsUiState.TransactionCount | app/src/main/java/com/uansari/expenseflow/feature/transactions/TransactionsViewModel.kt:186-187 | zero iff nothing is listed, positive once anything is |
| TransactionsFeature.TransactionsUiState.FilterLabel | app/src/main/java/com/uansari/expenseflow/feature/transactions/TransactionsViewModel.kt:189-194 | "all", "income" or "expense" iff the filter asks for no type, income or expense; as long as the chip label |
| TransactionsFeature.ListingSpec | app/src/main/java/com/uansari/expenseflow/feature/transactions/TransactionsViewModel.kt:64-73 | the listing is a subsequence of all transactions holding exactly those the filter admits; under All it is all of them |
| TransactionsFeature.DeleteMessage | app/src/main/java/com/uansari/expenseflow/feature/transactions/TransactionsViewModel.kt:138-151 | "Transaction deleted" on success, else the failure's message |
| TransactionsFeature.TransactionsViewModel.constructor | app/src/main/java/com/uansari/expenseflow/feature/transactions/TransactionsViewModel.kt:173-181 | loading, filter All |
| TransactionsFeature.TransactionsViewModel.OnLoadStarted | app/src/main/java/com/uansari/expenseflow/feature/transactions/TransactionsViewModel.kt:74-75 | only isLoading is set |
| TransactionsFeature.TransactionsViewModel.OnTransactionsLoaded | app/src/main/java/com/uansari/expenseflow/feature/transactions/TransactionsViewModel.kt:82-91 | the listing for the selected filter is shown, grouped from that same list; it holds exactly the admitted transactions, and the groups are a permutation of it |
| TransactionsFeature.TransactionsViewModel.OnLoadFailed | app/src/main/java/com/uansari/expenseflow/feature/transactions/TransactionsViewModel.kt:76-81 | not loading, error set to the message or "Unknown error" |
| TransactionsFeature.TransactionsViewModel.OnFilterChange | app/src/main/java/com/uansari/expenseflow/feature/transactions/TransactionsViewModel.kt:100-102 | only the selected filter changes |
| TransactionsFeature.TransactionsViewModel.OnTransactionClick | app/src/main/java/com/uansari/expenseflow/feature/transactions/TransactionsViewModel.kt:104-108 | one navigation event to edit that transaction |
| TransactionsFeature.TransactionsViewModel.OnAddTransactionClick | app/src/main/java/com/uansari/expenseflow/feature/transactions/TransactionsViewModel.kt:110-114 | one navigation event to the add screen |
| TransactionsFeature.TransactionsViewModel.OnDeleteTransaction | app/src/main/java/com/uansari/expenseflow/feature/transactions/TransactionsViewModel.kt:120-126 | the confirmation shows for that transaction |
| TransactionsFeature.TransactionsViewModel.OnConfirmDelete | app/src/main/java/com/uansari/expenseflow/feature/transactions/TransactionsViewModel.kt:128-153 | no-op without a target; otherwise the confirmation closes first, the row leaves the store, and one snackbar without action reports "Transaction deleted" or "Transaction not found". Every balance loses the deleted row's effect, so only its account moves. A missing row leaves the balances. Categories and opening balances stay |
| TransactionsFeature.TransactionsViewModel.OnDismissDeleteConfirm | app/src/main/java/com/uansari/expenseflow/feature/transactions/TransactionsViewModel.kt:155-161 | confirmation and target cleared |
| DashboardFeature.Loaded | app/src/main/java/com/uansari/expenseflow/feature/dashboard/DashboardViewModel.kt:61-72 | the five figures are the delivered ones, not loading, no error; hasTransactions and hasSpendingData iff the lists are non-empty; net plus expense is income |
| DashboardFeature.DashboardUiState.HasTransactions | app/src/main/java/com/uansari/expenseflow/feature/dashboard/DashboardViewModel.kt:115-116 | true iff there is a recent transaction to show |
| DashboardFeature.DashboardUiState.HasSpendingData | app/src/main/java/com/uansari/expenseflow/feature/dashboard/DashboardViewModel.kt:118-119 | true iff there is a spending entry to chart |
| DashboardFeature.DashboardUiState.MonthlyNet | app/src/main/java/com/uansari/expenseflow/feature/dashboard/DashboardViewModel.kt:121-122 | net plus expense is income; negative iff the month spent more than it earned |
| DashboardFeature.Failed | app/src/main/java/com/uansari/expenseflow/feature/dashboard/DashboardViewModel.kt:55-60 | not loading, error set to the message or "Unknown error", figures kept |
| DashboardFeature.DashboardViewModel.constructor | app/src/main/java/com/uansari/expenseflow/feature/dashboard/DashboardViewModel.kt:105-112 | loading, no error, no data, net zero |
| DashboardFeature.DashboardViewModel.OnLoadStarted | app/src/main/java/com/uansari/expenseflow/feature/dashboard/DashboardViewModel.kt:53-54 | only isLoading is set, as on start and on retry |
| DashboardFeature.DashboardViewModel.OnDataLoaded | app/src/main/java/com/uansari/expenseflow/feature/dashboard/DashboardViewModel.kt:61-72 | the state becomes Loaded |
| DashboardFeature.DashboardViewModel.OnLoadFailed | app/src/main/java/com/uansari/expenseflow/feature/dashboard/DashboardViewModel.kt:55-60 | the state becomes Failed |
| DashboardFeature.DashboardViewModel.OnAddTransactionClick | app/src/main/java/com/uansari/expenseflow/feature/dashboard/DashboardViewModel.kt:81-85 | one navigation event to the add screen |
| DashboardFeature.DashboardViewModel.OnSeeAllTransactionsClick | app/src/main/java/com/uansari/expenseflow/feature/dashboard/DashboardViewModel.kt:87-91 | one navigation event to the listing |
| DashboardFeature.DashboardViewModel.OnTransactionClick | app/src/main/java/com/uansari/expenseflow/feature/dashboard/DashboardViewModel.kt:93-97 | one navigation event to that transaction |
| TransactionManagementFeature.InitialState | app/src/main/java/com/uansari/expenseflow/feature/transaction_management/TransactionManagementViewModel.kt:45-49 | edit mode iff an id is given, the title follows it, cannot save yet and no errors |
| TransactionManagementFeature.TransactionManagementUiState.ScreenTitle | app/src/main/java/com/uansari/expenseflow/feature/transaction_management/TransactionManagementViewModel.kt:354-355 | "Edit Transaction" iff in edit mode, "Add Transaction" otherwise |
| TransactionManagementFeature.TransactionManagementUiState.CanSave | app/src/main/java/com/uansari/expenseflow/feature/transaction_management/TransactionManagementViewModel.kt:357-358 | saving is offered only with a non-whitespace character in the amount, both pickers set and no save running |
| TransactionManagementFeature.TransactionManagementUiState.HasErrors | app/src/main/java/com/uansari/expenseflow/feature/transaction_management/TransactionManagementViewModel.kt:360-361 | no errors iff all three field errors are clear |
| TransactionManagementFeature.AmountInput | app/src/main/java/com/uansari/expenseflow/feature/transaction_management/TransactionManagementViewModel.kt:146-155 | typed text with more than one point leaves the field as it was; otherwise the field becomes the typed text with every character other than a digit or a point removed, keeping each digit and the point as often as typed, in order; the field keeps holding digits with at most one point |
| TransactionManagementFeature.AmountInputAccepts | app/src/main/java/com/uansari/expenseflow/feature/transaction_management/TransactionManagementViewModel.kt:148-155 | well-formed amount text is taken as typed |
| TransactionManagementFeature.FirstDefault | app/src/main/java/com/uansari/expenseflow/feature/transaction_management/TransactionManagementViewModel.kt:82 | none iff no account is default; otherwise the first default account |
| TransactionManagementFeature.AutoSelect | app/src/main/java/com/uansari/expenseflow/feature/transaction_management/TransactionManagementViewModel.kt:82-83 | a selection is kept; otherwise the first default account if there is one, else the first account, else none |
| TransactionManagementFeature.Validated | app/src/main/java/com/uansari/expenseflow/feature/transaction_management/TransactionManagementViewModel.kt:296-320 | an invalid form gets errors; a valid one is unchanged; only the three error fields can change |
| TransactionManagementFeature.ValidFormCanSave | app/src/main/java/com/uansari/expenseflow/feature/transaction_management/TransactionManagementViewModel.kt:354-361 | a form that passes validation and is not saving can be saved |
| TransactionManagementFeature.SaveEvents | app/src/main/java/com/uansari/expenseflow/feature/transaction_management/TransactionManagementViewModel.kt:251-260 | saved then back on success, one snackbar with the message on failure |
| TransactionManagementFeature.NoteValue | app/src/main/java/com/uansari/expenseflow/feature/transaction_management/TransactionManagementViewModel.kt:234 | no note iff the note is blank, otherwise the note as typed |
| TransactionManagementFeature.TransactionManagementViewModel.constructor | app/src/main/java/com/uansari/expenseflow/feature/transaction_management/TransactionManagementViewModel.kt:45-49 | the initial form for the navigation argument |
| TransactionManagementFeature.TransactionManagementViewModel.OnAccountsLoaded | app/src/main/java/com/uansari/expenseflow/feature/transaction_management/TransactionManagementViewModel.kt:75-87 | accounts shown and the selection auto-chosen |
| TransactionManagementFeature.TransactionManagementViewModel.OnCategoriesLoaded | app/src/main/java/com/uansari/expenseflow/feature/transaction_management/TransactionManagementViewModel.kt:89-99 | only the offered categories change |
| TransactionManagementFeature.TransactionManagementViewModel.OnAmountChange | app/src/main/java/com/uansari/expenseflow/feature/transaction_management/TransactionManagementViewModel.kt:146-161 | the amount becomes the filtered input and its error clears |
| TransactionManagementFeature.TransactionManagementViewModel.OnTypeChange | app/src/main/java/com/uansari/expenseflow/feature/transaction_management/TransactionManagementViewModel.kt:163-174 | the same type changes nothing; a new type resets the category and its error |
| TransactionManagementFeature.TransactionManagementViewModel.OnCategorySelect | app/src/main/java/com/uansari/expenseflow/feature/transaction_management/TransactionManagementViewModel.kt:176-182 | the category is selected and its error clears |
| TransactionManagementFeature.TransactionManagementViewModel.OnAccountSelect | app/src/main/java/com/uansari/expenseflow/feature/transaction_management/TransactionManagementViewModel.kt:184-190 | the account is selected and its error clears |
| TransactionManagementFeature.TransactionManagementViewModel.OnDateSelect | app/src/main/java/com/uansari/expenseflow/feature/transaction_management/TransactionManagementViewModel.kt:192-198 | the date is set and the picker closes |
| TransactionManagementFeature.TransactionManagementViewModel.OnNoteChange | app/src/main/java/com/uansari/expenseflow/feature/transaction_management/TransactionManagementViewModel.kt:200-202 | only the note changes |
| TransactionManagementFeature.TransactionManagementViewModel.OnShowDatePicker | app/src/main/java/com/uansari/expenseflow/feature/transaction_management/TransactionManagementViewModel.kt:204-206 | the picker opens |
| TransactionManagementFeature.TransactionManagementViewModel.OnDismissDatePicker | app/src/main/java/com/uansari/expenseflow/feature/transaction_management/TransactionManagementViewModel.kt:208-210 | the picker closes |
| TransactionManagementFeature.TransactionManagementViewModel.OnDeleteClick | app/src/main/java/com/uansari/expenseflow/feature/transaction_management/TransactionManagementViewModel.kt:264-266 | the delete confirmation opens |
| TransactionManagementFeature.TransactionManagementViewModel.OnDismissDeleteConfirm | app/src/main/java/com/uansari/expenseflow/feature/transaction_management/TransactionManagementViewModel.kt:288-290 | the delete confirmation closes |
| TransactionManagementFeature.TransactionManagementViewModel.ValidateForm | app/src/main/java/com/uansari/expenseflow/feature/transaction_management/TransactionManagementViewModel.kt:296-320 | valid iff the amount parses above zero and a category and an account are selected; each failed check sets its own error |
| TransactionManagementFeature.TransactionManagementViewModel.OnSaveClick | app/src/main/java/com/uansari/expenseflow/feature/transaction_management/TransactionManagementViewModel.kt:216-262 | an invalid form only gets its errors; a valid one updates in edit mode and adds otherwise, with a positive amount. Then saving ends, the events follow the outcome, and the store is unchanged on failure. An add stores exactly the form's transaction and moves only its account's balance by the signed amount (`FormAdded`). An edit rewrites the row with the form's fields and moves every balance by the new effect minus the old (`FormRewritten`). Categories and opening balances stay |
| TransactionManagementFeature.SaveForm | app/src/main/java/com/uansari/expenseflow/feature/transaction_management/TransactionManagementViewModel.kt:224-245 | edit mode launches the update and add mode the addition, with the outcome `SaveOutcome` gives; the store is unchanged on failure and otherwise as `FormAdded` or `FormRewritten` describes; categories and opening balances stay |
| TransactionManagementFeature.TransactionManagementViewModel.OnConfirmDelete | app/src/main/java/com/uansari/expenseflow/feature/transaction_management/TransactionManagementViewModel.kt:268-286 | no-op without an id; a deleted row gives deleted then back, with saving still on. Every balance then loses the row's effect, and categories and opening balances stay. A missing row clears saving, shows "Transaction not found" and leaves the store unchanged |

## Left out

- Coroutines, flows and channels. Every handler is a synchronous transition. A collected flow becomes an `On…Loaded`/`On…Failed`/`OnLoadStarted` handler, and the event channel becomes a sequence that only grows.
- Room and SQL.
  - The queries' `ORDER BY` clauses are not modelled. Listings arrive in the order they are given.
  - The date-range bounds are taken as inclusive.
  - An insert always gets a fresh id. `REPLACE` on a conflicting id is not modelled, so the store's insert methods require id 0, as every caller passes.
- Atomicity. Each use case runs to completion with no failure in between.
- Exceptions from the database. `runCatching`/`try` never catch anything here, so `Error` delete results and the fallback messages for a failure without a message never arise.
- Floating point. Amounts, balances and percentages are exact reals. The `Float` rounding of percentages and `Double` rounding in sums are not modelled.
- `String.toDoubleOrNull` is the parameter `parse` of the form's handlers. `ValidFormCanSave` assumes that blank text never parses.
- `Char.isDigit` is taken as the ASCII digits. Kotlin accepts every Unicode decimal digit.
- `loadTransaction` and `loadCategoriesForType` in the transaction form are not part of this model. They are asynchronous loads that fill the form from the store. The categories for the current type arrive through `OnCategoriesLoaded`. Because `loadTransaction` writes the amount with `Double.toString` (which can give an exponent such as "1.2E7"), the form's invariant `Valid()` does not require the amount text to be digits with at most one point.
- Calendars, locales and formatting. The day label of `groupByDate` is an abstract function. `getCurrentMonthRange`, `DateFormatter`, `CurrencyFormatter` and `Color.toLong` are not part of this model.
- Clocks. `System.currentTimeMillis()` is the parameter `now`. The `updatedAt` of a loaded transaction is that time.
- Ledger.Store.GetDefaultAccount: the SQL `LIMIT 1` picks one default row. The model returns some default row without fixing which. The store keeps at most one anyway.
- The dashboard's totals, recent-transactions and balance streams are not part of this model. Only the spending aggregation is.
- AddTransaction, UpdateTransaction, DeleteTransaction: the preserved "balance minus signed sum" is stated through the store invariant `Valid()` and unchanged opening balances, with `Ledger.Store.DriftIsOpening`. A method's ensures does not spell it out.
- AccountUseCases.DeleteAccount: the account's own transactions are detached rather than deleted, and the balances of the remaining accounts are unaffected. This follows the `SET_NULL` foreign keys.
- Database seeding (`DatabaseCallback`) is not part of this model. The enum it uses, `CREDIT_CARD`, is absent from the four account types every `when` in the app covers.
- The settings screen, the Compose UI and the dialogs' own form checks are not part of this model. The form checks repeat the use cases' checks.
