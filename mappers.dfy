/**
 * The entity <-> domain mappers (the `data.mapper` package).
 */
module Mappers {
  import opened Wrappers
  import opened Domain
  import opened Entities

  /** `Account.toDomain()`: undone by `AccountToEntity`. */
  function AccountToDomain(a: Account): (d: AccountDom)
    ensures AccountToEntity(d) == a
  {
    AccountDom(a.id, a.name, a.kind, a.balance, a.color, a.icon, a.isDefault, a.createdAt)
  }

  /** `AccountDom.toEntity()`: every field is copied, the balance and the default flag included. */
  function AccountToEntity(d: AccountDom): (a: Account)
    ensures a.id == d.id && a.name == d.name && a.kind == d.kind && a.balance == d.balance
    ensures a.color == d.color && a.icon == d.icon && a.isDefault == d.isDefault && a.createdAt == d.createdAt
  {
    Account(d.id, d.name, d.kind, d.balance, d.color, d.icon, d.isDefault, d.createdAt)
  }

  /** `List<Account>.toDomain()`. */
  function AccountsToDomain(xs: seq<Account>): (r: seq<AccountDom>)
    ensures |r| == |xs|
    ensures forall i :: 0 <= i < |xs| ==> AccountToEntity(r[i]) == xs[i]
  {
    seq(|xs|, i requires 0 <= i < |xs| => AccountToDomain(xs[i]))
  }

  /** The two account mappers are inverse bijections: every field is carried over unchanged. */
  lemma AccountRoundTrip(a: Account, d: AccountDom)
    ensures AccountToEntity(AccountToDomain(a)) == a
    ensures AccountToDomain(AccountToEntity(d)) == d
  {
  }

  /** `Category.toDomain()`: undone by `CategoryToEntity`. */
  function CategoryToDomain(c: Category): (d: CategoryDom)
    ensures CategoryToEntity(d) == c
  {
    CategoryDom(c.id, c.name, c.icon, c.color, c.kind, c.isDefault, c.createdAt)
  }

  /** `CategoryDom.toEntity()`: every field is copied, whatever order the two records declare them in. */
  function CategoryToEntity(d: CategoryDom): (c: Category)
    ensures c.id == d.id && c.name == d.name && c.kind == d.kind && c.color == d.color
    ensures c.icon == d.icon && c.isDefault == d.isDefault && c.createdAt == d.createdAt
  {
    Category(d.id, d.name, d.kind, d.color, d.icon, d.isDefault, d.createdAt)
  }

  /** `List<Category>.toDomain()`. */
  function CategoriesToDomain(xs: seq<Category>): (r: seq<CategoryDom>)
    ensures |r| == |xs|
    ensures forall i :: 0 <= i < |xs| ==> CategoryToEntity(r[i]) == xs[i]
  {
    seq(|xs|, i requires 0 <= i < |xs| => CategoryToDomain(xs[i]))
  }

  /** The two category mappers are inverse bijections. */
  lemma CategoryRoundTrip(c: Category, d: CategoryDom)
    ensures CategoryToEntity(CategoryToDomain(c)) == c
    ensures CategoryToDomain(CategoryToEntity(d)) == d
  {
  }

  /**
   * `TransactionWithDetails.toDomain()`. The entity has no `updatedAt`, so
   * the record takes its default, the current time `now`.
   */
  function TransactionToDomain(w: TransactionWithDetails, now: int): (d: TransactionDom)
    ensures RelationsMatch(w) ==> TransactionToEntity(d) == w.transaction
    ensures d.id == w.transaction.id && d.amount == w.transaction.amount && d.kind == w.transaction.kind
    ensures d.note == w.transaction.note && d.date == w.transaction.date && d.createdAt == w.transaction.createdAt
    ensures d.updatedAt == now
    ensures d.account.Some? <==> w.account.Some?
    ensures d.account.Some? ==> AccountToEntity(d.account.value) == w.account.value
    ensures d.category.Some? <==> w.category.Some?
    ensures d.category.Some? ==> CategoryToEntity(d.category.value) == w.category.value
  {
    TransactionDom(
      w.transaction.id, w.transaction.amount, w.transaction.kind, w.transaction.note, w.transaction.date,
      if w.account.Some? then Some(AccountToDomain(w.account.value)) else None,
      if w.category.Some? then Some(CategoryToDomain(w.category.value)) else None,
      w.transaction.createdAt, now)
  }

  /** `TransactionDom.toEntity()`: the nested records are reduced to their ids. */
  function TransactionToEntity(d: TransactionDom): (t: Transaction)
    ensures t.accountId.Some? <==> d.account.Some?
    ensures t.categoryId.Some? <==> d.category.Some?
    ensures d.account.Some? ==> t.accountId.value == d.account.value.id
    ensures d.category.Some? ==> t.categoryId.value == d.category.value.id
  {
    Transaction(
      d.id,
      if d.account.Some? then Some(d.account.value.id) else None,
      if d.category.Some? then Some(d.category.value.id) else None,
      d.amount, d.kind, d.note, d.date, d.createdAt)
  }

  /** `List<TransactionWithDetails>.toDomain()`. */
  function TransactionsToDomain(xs: seq<TransactionWithDetails>, now: int): (r: seq<TransactionDom>)
    ensures |r| == |xs|
    ensures forall i :: 0 <= i < |xs| ==> r[i].id == xs[i].transaction.id && r[i].date == xs[i].transaction.date
    ensures forall i :: 0 <= i < |xs| ==> TransactionToDomain(xs[i], now) == r[i]
  {
    seq(|xs|, i requires 0 <= i < |xs| => TransactionToDomain(xs[i], now))
  }

  /** The relation rows a joined load attaches agree with the row's foreign keys. */
  predicate RelationsMatch(w: TransactionWithDetails) {
    && w.transaction.accountId == (if w.account.Some? then Some(w.account.value.id) else None)
    && w.transaction.categoryId == (if w.category.Some? then Some(w.category.value.id) else None)
  }

  /** A loaded row is written back unchanged, as long as its relations agree with its keys. */
  lemma TransactionEntityRoundTrip(w: TransactionWithDetails, now: int)
    ensures RelationsMatch(w) <==> TransactionToEntity(TransactionToDomain(w, now)) == w.transaction
  {
  }

  /**
   * A domain transaction saved and loaded back with its own relations is
   * unchanged except for `updatedAt`, which the row does not keep.
   */
  lemma TransactionDomainRoundTrip(d: TransactionDom, now: int)
    ensures var w := TransactionWithDetails(
              TransactionToEntity(d),
              if d.account.Some? then Some(AccountToEntity(d.account.value)) else None,
              if d.category.Some? then Some(CategoryToEntity(d.category.value)) else None);
            && RelationsMatch(w)
            && TransactionToDomain(w, now) == d.(updatedAt := now)
            && (TransactionToDomain(w, now) == d <==> d.updatedAt == now)
  {
  }
}
