/**
 * The navigation routes. The edit screen's route is a template whose
 * `{transactionId}` placeholder the navigation library fills with the
 * transaction id, and reads back as a `Long` on the edit screen.
 */
module Routes {
  import opened Wrappers
  import opened Text

  const DASHBOARD: string := "dashboard"
  const TRANSACTIONS: string := "transactions"
  const SETTINGS: string := "settings"
  const ADD_TRANSACTION: string := "transaction/add"
  const EDIT_TRANSACTION: string := "transaction/edit/{transactionId}"
  const CATEGORIES: string := "categories"
  const ACCOUNTS: string := "accounts"

  /** The placeholder of the edit route and the literal text before it. */
  const TRANSACTION_ID_PLACEHOLDER: string := "{transactionId}"
  const EDIT_PREFIX: string := "transaction/edit/"

  /** The routes without an argument. */
  const STATIC_ROUTES: seq<string> := [DASHBOARD, TRANSACTIONS, SETTINGS, ADD_TRANSACTION, CATEGORIES, ACCOUNTS]

  /** `Routes.createEditTransactionRoute(transactionId)`. */
  function CreateEditTransactionRoute(transactionId: int): (route: string)
    ensures |route| > |EDIT_PREFIX| && route[..|EDIT_PREFIX|] == EDIT_PREFIX
  {
    EDIT_PREFIX + DecimalString(transactionId)
  }

  /** `s` with its first occurrence of `pattern` replaced by `value`; `s` itself when there is none. */
  function ReplaceFirst(s: string, pattern: string, value: string): string
    requires pattern != []
  {
    if |s| < |pattern| then s
    else if s[..|pattern|] == pattern then value + s[|pattern|..]
    else [s[0]] + ReplaceFirst(s[1..], pattern, value)
  }

  /** Filling a placeholder that begins with a character the text before it lacks replaces exactly that placeholder. */
  lemma {:induction false} ReplaceFirstAfter(before: string, pattern: string, after: string, value: string)
    requires pattern != [] && pattern[0] !in before
    ensures ReplaceFirst(before + pattern + after, pattern, value) == before + value + after
  {
    var s := before + pattern + after;
    if before == [] {
      assert s == pattern + after;
      assert s[..|pattern|] == pattern && s[|pattern|..] == after;
    } else {
      assert s[0] == before[0];
      assert s[..|pattern|][0] != pattern[0];
      assert s[1..] == before[1..] + pattern + after;
      ReplaceFirstAfter(before[1..], pattern, after, value);
      assert ReplaceFirst(s, pattern, value) == [s[0]] + ReplaceFirst(s[1..], pattern, value);
    }
  }

  /** The route built for an id is the edit template with the id in place of its placeholder. */
  lemma EditRouteFillsTemplate(transactionId: int)
    ensures ReplaceFirst(EDIT_TRANSACTION, TRANSACTION_ID_PLACEHOLDER, DecimalString(transactionId))
            == CreateEditTransactionRoute(transactionId)
  {
    assert EDIT_TRANSACTION == EDIT_PREFIX + TRANSACTION_ID_PLACEHOLDER + [];
    ReplaceFirstAfter(EDIT_PREFIX, TRANSACTION_ID_PLACEHOLDER, [], DecimalString(transactionId));
  }

  predicate IsDecimalText(s: string) {
    s != [] && forall i :: 0 <= i < |s| ==> IsDigit(s[i]) || (i == 0 && s[i] == '-')
  }

  /** The argument the edit screen reads from a route: the id after the edit prefix, when the route is an edit route. */
  function TransactionIdArgument(route: string): (id: Option<int>)
    ensures id.Some? ==> |route| > |EDIT_PREFIX| && route[..|EDIT_PREFIX|] == EDIT_PREFIX
  {
    if |route| > |EDIT_PREFIX| && route[..|EDIT_PREFIX|] == EDIT_PREFIX && IsDecimalText(route[|EDIT_PREFIX|..])
    then Some(ParseDecimal(route[|EDIT_PREFIX|..]))
    else None
  }

  /** The edit screen gets back exactly the id the route was built for, so distinct ids give distinct routes. */
  lemma EditRouteRoundTrip(transactionId: int, other: int)
    ensures TransactionIdArgument(CreateEditTransactionRoute(transactionId)) == Some(transactionId)
    ensures CreateEditTransactionRoute(transactionId) == CreateEditTransactionRoute(other) ==> transactionId == other
  {
    var route := CreateEditTransactionRoute(transactionId);
    assert route[|EDIT_PREFIX|..] == DecimalString(transactionId);
    DecimalRoundTrip(transactionId);
    var route2 := CreateEditTransactionRoute(other);
    assert route2[|EDIT_PREFIX|..] == DecimalString(other);
    DecimalRoundTrip(other);
  }

  /** The static routes are pairwise distinct and none of them is an edit route. */
  lemma RoutesDistinct(transactionId: int)
    ensures forall i, j :: 0 <= i < j < |STATIC_ROUTES| ==> STATIC_ROUTES[i] != STATIC_ROUTES[j]
    ensures forall i :: 0 <= i < |STATIC_ROUTES| ==> TransactionIdArgument(STATIC_ROUTES[i]).None?
    ensures CreateEditTransactionRoute(transactionId) !in STATIC_ROUTES
  {
    StaticRoutesShort();
    forall i, j | 0 <= i < j < |STATIC_ROUTES| ensures STATIC_ROUTES[i] != STATIC_ROUTES[j] {
      if |STATIC_ROUTES[i]| == |STATIC_ROUTES[j]| {
        assert i == 2 && j == 5;
        assert STATIC_ROUTES[i][0] != STATIC_ROUTES[j][0];
      }
    }
    var route := CreateEditTransactionRoute(transactionId);
    assert |route| > |EDIT_PREFIX|;
  }

  /** Every static route is shorter than the edit prefix; only "settings" and "accounts" share a length. */
  lemma StaticRoutesShort()
    ensures forall i :: 0 <= i < |STATIC_ROUTES| ==> |STATIC_ROUTES[i]| < |EDIT_PREFIX|
    ensures forall i, j :: 0 <= i < j < |STATIC_ROUTES| && |STATIC_ROUTES[i]| == |STATIC_ROUTES[j]| ==> i == 2 && j == 5
  {
    assert |EDIT_PREFIX| == 17;
    assert |STATIC_ROUTES[0]| == 9 && |STATIC_ROUTES[1]| == 12 && |STATIC_ROUTES[2]| == 8;
    assert |STATIC_ROUTES[3]| == 15 && |STATIC_ROUTES[4]| == 10 && |STATIC_ROUTES[5]| == 8;
  }
}
