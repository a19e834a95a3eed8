/** The Budget aggregate: a user's month with its per-category amounts, and
    the guarded mutations that keep it from being overwritten after creation. */
module BudgetDomain {
  import opened Wrappers
  import opened Errors
  import opened Money
  import opened Time

  type UserId = int
  type CategoryId = int

  /** One category's monthly allowance inside a budget. */
  datatype CategoryBudget = CategoryBudget(categoryId: CategoryId, amount: Money)

  /** BudgetYearMonth: a calendar month, or the empty month it may be parsed to. */
  datatype YearMonth = EmptyMonth | YearMonth(year: int, month: int)

  /** The aggregate. `owner` and the audit timestamps are absent until set;
      the budget's id is its key in the store. */
  datatype Budget = Budget(
    yearMonth: YearMonth,
    owner: Option<UserId>,
    categoryBudgets: seq<CategoryBudget>,
    createdAt: Option<DateTime>,
    updatedAt: Option<DateTime>)

  predicate HasCategory(cats: seq<CategoryBudget>, id: CategoryId) {
    exists i :: 0 <= i < |cats| && cats[i].categoryId == id
  }

  /** `j` is the first position of `cats` whose category is `id`. */
  predicate FirstWith(cats: seq<CategoryBudget>, id: CategoryId, j: int) {
    && 0 <= j < |cats|
    && cats[j].categoryId == id
    && forall k :: 0 <= k < j ==> cats[k].categoryId != id
  }

  /** No two entries share a category id. */
  predicate DistinctCategories(cats: seq<CategoryBudget>) {
    forall i, j :: 0 <= i < j < |cats| ==> cats[i].categoryId != cats[j].categoryId
  }

  /** The constructor: a missing or empty month is refused; a given owner and
      a given category list are installed through their set-once setters. */
  function NewBudget(yearMonth: Option<YearMonth>, user: Option<UserId>,
                     categoryBudgets: Option<seq<CategoryBudget>>): (r: Result<Budget, Error>)
    ensures r.Success? <==> yearMonth.Some? && !yearMonth.value.EmptyMonth?
    ensures r.Failure? ==> r.error == InvalidBudget
    ensures r.Success? ==>
      && r.value.yearMonth == yearMonth.value
      && r.value.owner == user
      && r.value.categoryBudgets == categoryBudgets.GetOr([])
      && r.value.createdAt.None? && r.value.updatedAt.None?
  {
    if yearMonth.None? || yearMonth.value.EmptyMonth? then Failure(InvalidBudget)
    else
      var blank := Budget(yearMonth.value, None, [], None, None);
      // both setters act on a blank budget, so neither guard can fire
      match (if user.Some? then SetUser(blank, user) else Success(blank))
      case Failure(e) => Failure(e)
      case Success(owned) =>
        if categoryBudgets.Some? then SetCategoryBudgets(owned, categoryBudgets.value)
        else Success(owned)
  }

  /** Installs the initial category list; refused once the list is non-empty.
      No duplicate check is made here. */
  function SetCategoryBudgets(b: Budget, cats: seq<CategoryBudget>): (r: Result<Budget, Error>)
    ensures r.Failure? <==> |b.categoryBudgets| > 0
    ensures r.Failure? ==> r.error == InvalidBudget
    ensures r.Success? ==> r.value.categoryBudgets == cats
    ensures r.Success? ==> r.value == b.(categoryBudgets := r.value.categoryBudgets)
  {
    if |b.categoryBudgets| > 0 then Failure(InvalidBudget)
    else Success(b.(categoryBudgets := cats))
  }

  /** Sets the owner; refused once an owner is set. An absent user is a no-op. */
  function SetUser(b: Budget, user: Option<UserId>): (r: Result<Budget, Error>)
    ensures r.Failure? <==> b.owner.Some?
    ensures r.Failure? ==> r.error == InvalidBudget
    ensures r.Success? ==> r.value.owner == user
    ensures r.Success? ==> r.value == b.(owner := r.value.owner)
  {
    if b.owner.Some? then Failure(InvalidBudget)
    else if user.Some? then Success(b.(owner := user))
    else Success(b)
  }

  /** Ownership is user-id equality; `isOwner` dereferences the owner, so a
      budget without one cannot be asked. */
  predicate IsOwner(b: Budget, appUser: UserId)
    requires b.owner.Some?
  {
    b.owner.value == appUser
  }

  /** The position of the first entry for category `id`, if any. */
  function FindBudgetCategory(cats: seq<CategoryBudget>, id: CategoryId): (r: Option<nat>)
    ensures r.Some? ==> FirstWith(cats, id, r.value)
    ensures r.None? <==> !HasCategory(cats, id)
  {
    if |cats| == 0 then None
    else if cats[0].categoryId == id then Some(0)
    else
      match FindBudgetCategory(cats[1..], id)
      case None => None
      case Some(k) => Some(k + 1)
  }

  /** Appends a category entry unless its category id is already present. */
  function AddBudgetCategory(b: Budget, entry: CategoryBudget): (r: Result<Budget, Error>)
    ensures r.Failure? <==> HasCategory(b.categoryBudgets, entry.categoryId)
    ensures r.Failure? ==> r.error == BudgetCategoryDuplicated
    ensures r.Success? ==>
      && |r.value.categoryBudgets| == |b.categoryBudgets| + 1
      && r.value.categoryBudgets[..|b.categoryBudgets|] == b.categoryBudgets
      && r.value.categoryBudgets[|b.categoryBudgets|] == entry
      && r.value == b.(categoryBudgets := r.value.categoryBudgets)
  {
    if FindBudgetCategory(b.categoryBudgets, entry.categoryId).Some? then Failure(BudgetCategoryDuplicated)
    else Success(b.(categoryBudgets := b.categoryBudgets + [entry]))
  }

  /** Gives the first entry for `change.categoryId` the amount of `change`;
      refused when no entry has that category. */
  function ModifyBudgetCategory(b: Budget, change: CategoryBudget): (r: Result<Budget, Error>)
    ensures r.Failure? <==> !HasCategory(b.categoryBudgets, change.categoryId)
    ensures r.Failure? ==> r.error == BudgetCategoryNotFound
    ensures r.Success? ==>
      var cats, cats' := b.categoryBudgets, r.value.categoryBudgets;
      && |cats'| == |cats|
      && r.value == b.(categoryBudgets := cats')
      && (forall j :: 0 <= j < |cats| ==> cats'[j].categoryId == cats[j].categoryId)
      && (forall j :: 0 <= j < |cats| ==>
            if FirstWith(cats, change.categoryId, j) then cats'[j].amount == change.amount
            else cats'[j] == cats[j])
  {
    match FindBudgetCategory(b.categoryBudgets, change.categoryId)
    case None => Failure(BudgetCategoryNotFound)
    case Some(i) =>
      var cats := b.categoryBudgets;
      assert forall j :: 0 <= j < |cats| && j != i ==> !FirstWith(cats, change.categoryId, j);
      Success(b.(categoryBudgets := cats[i := cats[i].(amount := change.amount)]))
  }

  // ---- properties relating several calls ----

  /** Once an owner is installed, every later attempt fails and the owner stays. */
  lemma OwnerSetOnlyOnce(b: Budget, u: UserId, other: Option<UserId>)
    requires SetUser(b, Some(u)).Success?
    ensures SetUser(b, Some(u)).value.owner == Some(u)
    ensures SetUser(SetUser(b, Some(u)).value, other) == Failure(InvalidBudget)
  {
  }

  /** Once a non-empty initial list is installed it cannot be replaced. */
  lemma CategoriesSetOnlyOnce(b: Budget, cats: seq<CategoryBudget>, again: seq<CategoryBudget>)
    requires |cats| > 0 && SetCategoryBudgets(b, cats).Success?
    ensures SetCategoryBudgets(SetCategoryBudgets(b, cats).value, again) == Failure(InvalidBudget)
  {
  }

  /** Adding never introduces a duplicate category id. */
  lemma AddKeepsCategoriesDistinct(b: Budget, entry: CategoryBudget)
    requires DistinctCategories(b.categoryBudgets)
    requires AddBudgetCategory(b, entry).Success?
    ensures DistinctCategories(AddBudgetCategory(b, entry).value.categoryBudgets)
  {
    var cats, cats' := b.categoryBudgets, AddBudgetCategory(b, entry).value.categoryBudgets;
    forall i, j | 0 <= i < j < |cats'|
      ensures cats'[i].categoryId != cats'[j].categoryId
    {
      if j == |cats| {
        assert cats'[i] == cats[i];
        assert !HasCategory(cats, entry.categoryId);
      } else {
        assert cats'[i] == cats[i] && cats'[j] == cats[j];
      }
    }
  }

  /** Modifying never changes which category ids are present. */
  lemma ModifyKeepsCategoriesDistinct(b: Budget, change: CategoryBudget)
    requires DistinctCategories(b.categoryBudgets)
    requires ModifyBudgetCategory(b, change).Success?
    ensures DistinctCategories(ModifyBudgetCategory(b, change).value.categoryBudgets)
  {
  }
}
