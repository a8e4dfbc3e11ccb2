/**
 * The categories screen's view model: the loaded categories split into an
 * expense list and an income list, the add/edit dialog and the delete
 * confirmation. Handlers replace the `CategoriesUiState` value and append
 * snackbar messages to `events`.
 */
module CategoriesFeature {
  import opened Wrappers
  import opened Domain
  import opened Entities
  import opened Text
  import opened Collections
  import opened Ledger
  import opened CategoryUseCases

  datatype CategoryDialogState = Add | Edit(category: CategoryDom)

  datatype CategoriesEvent = ShowSnackbar(message: string)

  datatype CategoriesUiState = CategoriesUiState(
    isLoading: bool,
    isSaving: bool,
    error: Option<string>,
    categories: seq<CategoryDom>,
    expenseCategories: seq<CategoryDom>,
    incomeCategories: seq<CategoryDom>,
    dialogState: Option<CategoryDialogState>,
    showDeleteConfirm: bool,
    categoryToDelete: Option<CategoryDom>)
  {
    /** Nothing to list once loading is over; then neither tab has a category either. */
    function IsEmpty(): (empty: bool)
      ensures empty ==> !isLoading && Filter(categories, IsExpenseCategory) == [] && Filter(categories, IsIncomeCategory) == []
      ensures !isLoading && |categories| == 0 ==> empty
    {
      categories == [] && !isLoading
    }

    function ShowDialog(): (shown: bool)
      ensures shown <==> DialogTitle() != ""
    {
      dialogState.Some?
    }

    /** The dialog's heading: empty exactly when no dialog is open, otherwise naming its mode. */
    function DialogTitle(): (title: string)
      ensures title == "" <==> dialogState.None?
      ensures title == "Add Category" <==> dialogState == Some(Add)
      ensures title == "Edit Category" <==> dialogState.Some? && dialogState.value.Edit?
    {
      match dialogState
      case None => ""
      case Some(Add) => "Add Category"
      case Some(Edit(_)) => "Edit Category"
    }
  }

  const InitialState := CategoriesUiState(true, false, None, [], [], [], None, false, None)

  predicate IsExpenseCategory(c: CategoryDom) {
    c.kind == EXPENSE
  }

  predicate IsIncomeCategory(c: CategoryDom) {
    c.kind == INCOME
  }

  /**
   * The two lists shown are the loaded categories of each type, in load
   * order; together they hold every loaded category exactly once.
   */
  lemma CategoryPartition(categories: seq<CategoryDom>)
    ensures forall c :: c in Filter(categories, IsExpenseCategory) <==> c in categories && c.kind == EXPENSE
    ensures forall c :: c in Filter(categories, IsIncomeCategory) <==> c in categories && c.kind == INCOME
    ensures IsSubsequence(Filter(categories, IsExpenseCategory), categories)
    ensures IsSubsequence(Filter(categories, IsIncomeCategory), categories)
    ensures multiset(Filter(categories, IsExpenseCategory)) + multiset(Filter(categories, IsIncomeCategory))
            == multiset(categories)
  {
    forall c | c in categories
      ensures c in Filter(categories, IsExpenseCategory) <==> c.kind == EXPENSE
      ensures c in Filter(categories, IsIncomeCategory) <==> c.kind == INCOME
    {
      if c.kind == EXPENSE {
        FilterKeeps(categories, IsExpenseCategory, c);
      } else {
        FilterKeeps(categories, IsIncomeCategory, c);
      }
    }
    FilterIsSubsequence(categories, IsExpenseCategory);
    FilterIsSubsequence(categories, IsIncomeCategory);
    FilterPartition(categories, IsExpenseCategory, IsIncomeCategory);
  }

  /** What saving from the dialog yields: the outcome of `AddCategoryUseCase` or `UpdateCategoryUseCase`. */
  ghost function SaveOutcome(dialog: CategoryDialogState, name: string, icon: string,
                             categories: map<int, Category>): Result<()> {
    if Trim(name) == [] then Failure("Category name cannot be empty")
    else if dialog.Add? && icon == [] then Failure("Icon is required")
    else if dialog.Edit? && dialog.category.id !in categories then Failure("Category not found")
    else Result.Success(())
  }

  /** The snackbar shown after saving: the dialog's own confirmation, or the failure's message. */
  function SaveMessage(dialog: CategoryDialogState, outcome: Result<()>): (message: string)
    ensures outcome.Failure? ==> message == outcome.message
    ensures outcome.Success? ==> (message == "Category updated" <==> dialog.Edit?)
    ensures outcome.Success? ==> (message == "Category added" <==> dialog.Add?)
  {
    match outcome
    case Success(_) => if dialog.Add? then "Category added" else "Category updated"
    case Failure(m) => m
  }

  /** The snackbar shown after a deletion attempt: every refusal but the default one is "Failed to delete". */
  function DeleteMessage(r: CategoryDeleteResult): (message: string)
    ensures message == "Category deleted" <==> r == CategoryDeleteResult.Success
    ensures message == "Cannot delete default Category" <==> r == CannotDeleteDefault
    ensures message == "Failed to delete" <==> (r.CategoryNotFound? || r.HasTransactions? || r.Error?)
  {
    match r
    case CannotDeleteDefault => "Cannot delete default Category"
    case CategoryNotFound => "Failed to delete"
    case Error(_) => "Failed to delete"
    case HasTransactions(_) => "Failed to delete"
    case Success => "Category deleted"
  }

  /** The use case a save launches: `AddCategoryUseCase` from the add dialog, `UpdateCategoryUseCase` from the edit dialog. */
  method SaveCategoryDialog(store: Store, dialog: CategoryDialogState, name: string, kind: TransactionType, icon: string,
                            color: int, now: int) returns (result: Result<()>)
    requires store.Valid()
    modifies store
    ensures store.Valid()
    ensures result == SaveOutcome(dialog, name, icon, old(store.categories))
    ensures result.Failure? ==> unchanged(store)
    ensures store.accounts == old(store.accounts) && store.transactions == old(store.transactions)
    ensures store.opening == old(store.opening)
    ensures dialog.Add? && Trim(name) != [] && icon != [] ==>
              var id := old(store.nextCategoryId);
              && id !in old(store.categories) && id in store.categories
              && store.categories[id] == Category(id, Trim(name), kind, color, icon, false, now)
              && store.categories == old(store.categories)[id := Category(id, Trim(name), kind, color, icon, false, now)]
    ensures dialog.Edit? && dialog.category.id in old(store.categories) ==>
              var id := dialog.category.id;
              && id in store.categories
              && store.categories[id].kind == old(store.categories)[id].kind
              && store.categories[id].isDefault == old(store.categories)[id].isDefault
    ensures dialog.Edit? && Trim(name) != [] && dialog.category.id in old(store.categories) ==>
              var id := dialog.category.id;
              store.categories == old(store.categories)[id :=
                old(store.categories)[id].(name := Trim(name), icon := icon, color := color)]
  {
    match dialog {
      case Add =>
        var added := AddCategory(store, name, icon, color, kind, now);
        result := if added.Success? then Result.Success(()) else Failure(added.message);
      case Edit(category) =>
        result := UpdateCategory(store, category.id, name, icon, color);
    }
  }

  class CategoriesViewModel {
    var uiState: CategoriesUiState
    var events: seq<CategoriesEvent>

    constructor()
      ensures uiState == InitialState && events == []
      ensures uiState.isLoading && !uiState.IsEmpty() && !uiState.ShowDialog()
    {
      uiState := InitialState;
      events := [];
    }

    /** The category query has started. */
    method OnLoadStarted()
      modifies this
      ensures uiState == old(uiState).(isLoading := true) && events == old(events)
    {
      uiState := uiState.(isLoading := true);
    }

    /** All categories arrived: they are shown, and split by type. */
    method OnCategoriesLoaded(categories: seq<CategoryDom>)
      modifies this
      ensures uiState == old(uiState).(isLoading := false, error := None, categories := categories,
                                       expenseCategories := Filter(categories, IsExpenseCategory),
                                       incomeCategories := Filter(categories, IsIncomeCategory))
      ensures events == old(events)
      ensures uiState.IsEmpty() <==> categories == []
    {
      uiState := uiState.(isLoading := false, error := None, categories := categories,
                          expenseCategories := Filter(categories, IsExpenseCategory),
                          incomeCategories := Filter(categories, IsIncomeCategory));
    }

    /** The category query failed; its message, possibly absent, is kept. */
    method OnLoadFailed(message: Option<string>)
      modifies this
      ensures uiState == old(uiState).(isLoading := false, error := message) && events == old(events)
    {
      uiState := uiState.(isLoading := false, error := message);
    }

    method OnAddCategoryClick()
      modifies this
      ensures uiState == old(uiState).(dialogState := Some(Add)) && events == old(events)
      ensures uiState.ShowDialog() && uiState.DialogTitle() == "Add Category"
    {
      uiState := uiState.(dialogState := Some(Add));
    }

    method OnEditCategoryClick(category: CategoryDom)
      modifies this
      ensures uiState == old(uiState).(dialogState := Some(Edit(category))) && events == old(events)
      ensures uiState.ShowDialog() && uiState.DialogTitle() == "Edit Category"
    {
      uiState := uiState.(dialogState := Some(Edit(category)));
    }

    method OnDismissDialog()
      modifies this
      ensures uiState == old(uiState).(dialogState := None) && events == old(events)
      ensures !uiState.ShowDialog() && uiState.DialogTitle() == ""
    {
      uiState := uiState.(dialogState := None);
    }

    /**
     * Saves the dialog's category. Nothing happens when no dialog is open.
     * An edit passes name, icon and colour on but not the chosen type, so a
     * saved category keeps its type; the dialog closes only on success.
     */
    method OnSaveCategory(store: Store, name: string, kind: TransactionType, icon: string, color: int, now: int)
      requires store.Valid()
      modifies this, store
      ensures store.Valid()
      ensures old(uiState.dialogState).None? ==> unchanged(this) && unchanged(store)
      ensures old(uiState.dialogState).Some? ==>
                var dialog := old(uiState.dialogState).value;
                var outcome := SaveOutcome(dialog, name, icon, old(store.categories));
                && uiState == old(uiState).(isSaving := false,
                                            dialogState := if outcome.Success? then None else Some(dialog))
                && events == old(events) + [ShowSnackbar(SaveMessage(dialog, outcome))]
                && (outcome.Failure? ==> unchanged(store))
      ensures store.accounts == old(store.accounts) && store.transactions == old(store.transactions)
      ensures store.opening == old(store.opening)
      ensures old(uiState.dialogState) == Some(Add) && Trim(name) != [] && icon != [] ==>
                var id := old(store.nextCategoryId);
                && id !in old(store.categories) && id in store.categories
                && store.categories[id] == Category(id, Trim(name), kind, color, icon, false, now)
                && store.categories == old(store.categories)[id := Category(id, Trim(name), kind, color, icon, false, now)]
      ensures old(uiState.dialogState).Some? && old(uiState.dialogState).value.Edit? ==>
                var id := old(uiState.dialogState).value.category.id;
                id in old(store.categories) ==>
                  && id in store.categories
                  && store.categories[id].kind == old(store.categories)[id].kind
                  && store.categories[id].isDefault == old(store.categories)[id].isDefault
      ensures old(uiState.dialogState).Some? && old(uiState.dialogState).value.Edit? && Trim(name) != [] ==>
                var id := old(uiState.dialogState).value.category.id;
                id in old(store.categories) ==>
                  store.categories == old(store.categories)[id :=
                    old(store.categories)[id].(name := Trim(name), icon := icon, color := color)]
    {
      if uiState.dialogState.None? {
        return;
      }
      var dialog := uiState.dialogState.value;
      var state0, events0 := uiState, events;
      uiState := uiState.(isSaving := true);
      var result := SaveCategoryDialog(store, dialog, name, kind, icon, color, now);
      uiState := state0.(isSaving := false, dialogState := if result.Success? then None else Some(dialog));
      events := events0 + [ShowSnackbar(SaveMessage(dialog, result))];
    }

    method OnDeleteCategoryClick(category: CategoryDom)
      modifies this
      ensures uiState == old(uiState).(showDeleteConfirm := true, categoryToDelete := Some(category))
      ensures events == old(events)
    {
      uiState := uiState.(showDeleteConfirm := true, categoryToDelete := Some(category));
    }

    /**
     * Deletes the category awaiting confirmation, if any, without forcing:
     * a category still in use stays. The confirmation closes first;
     * "Category deleted" is shown exactly when the category left the store.
     */
    method OnConfirmDelete(store: Store)
      requires store.Valid()
      modifies this, store
      ensures store.Valid()
      ensures old(uiState.categoryToDelete).None? ==> unchanged(this) && unchanged(store)
      ensures old(uiState.categoryToDelete).Some? ==>
                var id := old(uiState.categoryToDelete).value.id;
                && uiState == old(uiState).(showDeleteConfirm := false, categoryToDelete := None)
                && |events| == |old(events)| + 1 && events[..|old(events)|] == old(events)
                && events[|old(events)|] == ShowSnackbar(DeleteMessage(
                     if id !in old(store.categories) then CategoryNotFound
                     else if old(store.categories)[id].isDefault then CannotDeleteDefault
                     else if CountUsing(old(store.transactions), id) > 0
                     then HasTransactions(CountUsing(old(store.transactions), id))
                     else CategoryDeleteResult.Success))
                && (events[|old(events)|] == ShowSnackbar("Category deleted")
                    <==> id in old(store.categories) && id !in store.categories)
                && store.transactions == old(store.transactions)
                && store.accounts == old(store.accounts) && store.opening == old(store.opening)
                && ((id !in old(store.categories) || old(store.categories)[id].isDefault
                     || CountUsing(old(store.transactions), id) > 0) ==> unchanged(store))
                && ((id in old(store.categories) && !old(store.categories)[id].isDefault
                     && CountUsing(old(store.transactions), id) == 0) ==>
                      store.categories == old(store.categories) - {id})
    {
      if uiState.categoryToDelete.None? {
        return;
      }
      var category := uiState.categoryToDelete.value;
      uiState := uiState.(showDeleteConfirm := false, categoryToDelete := None);
      var r := DeleteCategory(store, category.id, false);
      events := events + [ShowSnackbar(DeleteMessage(r))];
    }

    method OnDismissDeleteConfirm()
      modifies this
      ensures uiState == old(uiState).(showDeleteConfirm := false, categoryToDelete := None)
      ensures events == old(events)
    {
      uiState := uiState.(showDeleteConfirm := false, categoryToDelete := None);
    }
  }
}
