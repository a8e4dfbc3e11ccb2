/**
 * The database type converters: each enum is stored as its constant's name
 * and read back with `valueOf`, which throws on any other string.
 */
module Converters {
  import opened Domain

  predicate IsTransactionTypeName(name: string) {
    name == "INCOME" || name == "EXPENSE"
  }

  predicate IsAccountTypeName(name: string) {
    name == "CASH" || name == "BANK" || name == "SAVINGS" || name == "OTHER"
  }

  /** `TransactionType.name`. */
  function FromTransactionType(t: TransactionType): (name: string)
    ensures IsTransactionTypeName(name)
  {
    match t
    case INCOME => "INCOME"
    case EXPENSE => "EXPENSE"
  }

  /** `TransactionType.valueOf(name)`; defined on the constant names only. */
  function ToTransactionType(name: string): (t: TransactionType)
    requires IsTransactionTypeName(name)
    ensures FromTransactionType(t) == name
  {
    if name == "INCOME" then INCOME else EXPENSE
  }

  /** `AccountType.name`. */
  function FromAccountType(a: AccountType): (name: string)
    ensures IsAccountTypeName(name)
  {
    match a
    case CASH => "CASH"
    case BANK => "BANK"
    case SAVINGS => "SAVINGS"
    case OTHER => "OTHER"
  }

  /** `AccountType.valueOf(name)`; defined on the constant names only. */
  function ToAccountType(name: string): (a: AccountType)
    requires IsAccountTypeName(name)
    ensures FromAccountType(a) == name
  {
    if name == "CASH" then CASH
    else if name == "BANK" then BANK
    else if name == "SAVINGS" then SAVINGS
    else OTHER
  }

  /** Storing a transaction type and reading it back gives it back, and every stored name is read back to itself. */
  lemma TransactionTypeRoundTrip(t: TransactionType, name: string)
    ensures ToTransactionType(FromTransactionType(t)) == t
    ensures IsTransactionTypeName(name) ==> FromTransactionType(ToTransactionType(name)) == name
  {
  }

  /** Storing an account type and reading it back gives it back, and every stored name is read back to itself. */
  lemma AccountTypeRoundTrip(a: AccountType, name: string)
    ensures ToAccountType(FromAccountType(a)) == a
    ensures IsAccountTypeName(name) ==> FromAccountType(ToAccountType(name)) == name
  {
  }

  /** Distinct constants are stored under distinct names. */
  lemma ConvertersInjective(t1: TransactionType, t2: TransactionType, a1: AccountType, a2: AccountType)
    ensures FromTransactionType(t1) == FromTransactionType(t2) ==> t1 == t2
    ensures FromAccountType(a1) == FromAccountType(a2) ==> a1 == a2
  {
    TransactionTypeRoundTrip(t1, "");
    TransactionTypeRoundTrip(t2, "");
    AccountTypeRoundTrip(a1, "");
    AccountTypeRoundTrip(a2, "");
  }
}
