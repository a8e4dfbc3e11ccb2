/**
 * The domain records of the ledger (the `domain.model` package). Kotlin's
 * `type` field is called `kind` here, `type` being a Dafny keyword; amounts
 * and balances are exact `real`s standing for the app's `Double`s.
 */
module Domain {
  import opened Wrappers

  datatype TransactionType = INCOME | EXPENSE

  datatype AccountType = CASH | BANK | SAVINGS | OTHER

  datatype AccountDom = AccountDom(
    id: int,
    name: string,
    kind: AccountType,
    balance: real,
    color: int,
    icon: string,
    isDefault: bool,
    createdAt: int)

  datatype CategoryDom = CategoryDom(
    id: int,
    name: string,
    icon: string,
    color: int,
    kind: TransactionType,
    isDefault: bool,
    createdAt: int)

  datatype TransactionDom = TransactionDom(
    id: int,
    amount: real,
    kind: TransactionType,
    note: Option<string>,
    date: int,
    account: Option<AccountDom>,
    category: Option<CategoryDom>,
    createdAt: int,
    updatedAt: int)

  datatype CategoryWithAmount = CategoryWithAmount(category: CategoryDom, amount: real, percentage: real)

  datatype DashboardData = DashboardData(
    totalBalance: real,
    monthlyIncome: real,
    monthlyExpense: real,
    recentTransactions: seq<TransactionDom>,
    spendingByCategory: seq<CategoryWithAmount>)

  /** What a transaction of this kind does to its account's balance: income adds, expense subtracts. */
  function Signed(kind: TransactionType, amount: real): (delta: real)
    ensures amount > 0.0 ==> (delta > 0.0 <==> kind == INCOME)
    ensures delta == amount || delta == -amount
  {
    match kind
    case INCOME => amount
    case EXPENSE => -amount
  }
}
