/**
 * The rows of the three tables (the `data.local.entity` package). A
 * transaction row refers to its account and category by nullable foreign
 * keys, which the database sets to null when the referenced row is deleted.
 */
module Entities {
  import opened Wrappers
  import opened Domain

  datatype Account = Account(
    id: int,
    name: string,
    kind: AccountType,
    balance: real,
    color: int,
    icon: string,
    isDefault: bool,
    createdAt: int)

  datatype Category = Category(
    id: int,
    name: string,
    kind: TransactionType,
    color: int,
    icon: string,
    isDefault: bool,
    createdAt: int)

  datatype Transaction = Transaction(
    id: int,
    accountId: Option<int>,
    categoryId: Option<int>,
    amount: real,
    kind: TransactionType,
    note: Option<string>,
    date: int,
    createdAt: int)

  /** A transaction row with its account and category rows as loaded by the relation query. */
  datatype TransactionWithDetails = TransactionWithDetails(
    transaction: Transaction,
    account: Option<Account>,
    category: Option<Category>)
}
