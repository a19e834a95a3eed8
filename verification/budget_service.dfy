/** The budget service over a store of budgets keyed by id. Every operation on
    an existing budget loads it (BudgetNotFound), then checks its owner
    (NoPermission), then applies the Budget's own rules. */
module BudgetService {
  import opened Wrappers
  import opened Errors
  import opened Money
  import opened Time
  import opened BudgetDomain
  import opened BudgetDto

  type BudgetId = int
  type Store = map<BudgetId, Budget>

  /** The request body of a category change; its category comes from the path. */
  datatype ModifyBudgetCategoryRequest = ModifyBudgetCategoryRequest(money: int)

  /** `isOwner` dereferences the stored budget's owner, so the budget an
      operation targets must have one (every budget AddBudget saves does). */
  predicate OwnedIfPresent(store: Store, id: BudgetId) {
    id in store ==> store[id].owner.Some?
  }

  predicate AllOwned(store: Store) {
    forall id :: id in store ==> store[id].owner.Some?
  }

  function FindBudget(store: Store, id: BudgetId): (r: Result<Budget, Error>)
    ensures r.Success? <==> id in store
    ensures r.Success? ==> r.value == store[id]
    ensures r.Failure? ==> r.error == BudgetNotFound
  {
    if id in store then Success(store[id]) else Failure(BudgetNotFound)
  }

  function FindUser(users: set<UserId>, appUser: UserId): (r: Result<UserId, Error>)
    ensures r.Success? <==> appUser in users
    ensures r.Success? ==> r.value == appUser
    ensures r.Failure? ==> r.error == UserNotFound
  {
    if appUser in users then Success(appUser) else Failure(UserNotFound)
  }

  /** Existence is checked before ownership. */
  function FindBudgetOwnerOf(store: Store, appUser: UserId, id: BudgetId): (r: Result<Budget, Error>)
    requires OwnedIfPresent(store, id)
    ensures id !in store ==> r == Failure(BudgetNotFound)
    ensures id in store && store[id].owner != Some(appUser) ==> r == Failure(NoPermission)
    ensures r.Success? <==> id in store && store[id].owner == Some(appUser)
    ensures r.Success? ==> r.value == store[id]
  {
    match FindBudget(store, id)
    case Failure(e) => Failure(e)
    case Success(b) => if !IsOwner(b, appUser) then Failure(NoPermission) else Success(b)
  }

  /** Creates a budget for a known user from the request and saves it under
      `newId`, the key the store assigns. Returns the new store and that key. */
  function AddBudget(store: Store, users: set<UserId>, appUser: UserId, req: AddBudgetRequest,
                     newId: BudgetId, now: DateTime): (r: Result<(Store, BudgetId), Error>)
    requires newId !in store
    ensures appUser !in users ==> r == Failure(UserNotFound)
    ensures appUser in users && req.month.EmptyMonth? ==> r == Failure(InvalidBudget)
    ensures appUser in users && !req.month.EmptyMonth? && !AllMoneyValid(req.budgetByCategories) ==> r == Failure(InvalidAmount)
    ensures r.Success? <==>
      appUser in users && !req.month.EmptyMonth? && AllMoneyValid(req.budgetByCategories)
    ensures r.Success? ==>
      var (store', id) := r.value;
      && id == newId
      && store'.Keys == store.Keys + {newId}
      && (forall k :: k in store ==> store'[k] == store[k])
      && store'[newId].owner == Some(appUser)
      && store'[newId].yearMonth == req.month
      && |store'[newId].categoryBudgets| == |req.budgetByCategories|
      && (forall i :: 0 <= i < |req.budgetByCategories| ==>
            && store'[newId].categoryBudgets[i].categoryId == req.budgetByCategories[i].categoryId
            && store'[newId].categoryBudgets[i].amount == req.budgetByCategories[i].money)
  {
    var user :- FindUser(users, appUser);
    var budget :- ToBudget(req);
    var cats :- ToCategoryBudgets(req.budgetByCategories);
    // `budget` is bare, so neither set-once guard can fire
    match SetUser(budget, Some(user))
    case Failure(e) => Failure(e)
    case Success(owned) =>
      match SetCategoryBudgets(owned, cats)
      case Failure(e) => Failure(e)
      case Success(filled) =>
        var saved := filled.(createdAt := Some(now), updatedAt := Some(now));
        Success((store[newId := saved], newId))
  }

  /** Removes a budget its caller owns. */
  function DeleteBudget(store: Store, appUser: UserId, id: BudgetId): (r: Result<Store, Error>)
    requires OwnedIfPresent(store, id)
    ensures id !in store ==> r == Failure(BudgetNotFound)
    ensures id in store && store[id].owner != Some(appUser) ==> r == Failure(NoPermission)
    ensures r.Success? <==> id in store && store[id].owner == Some(appUser)
    ensures r.Success? ==>
      && r.value.Keys == store.Keys - {id}
      && forall k :: k in r.value ==> r.value[k] == store[k]
  {
    var _ :- FindBudgetOwnerOf(store, appUser, id);
    Success(store - {id})
  }

  /** The fetch result of a budget its caller owns. */
  function FindOneBudget(store: Store, appUser: UserId, id: BudgetId): (r: Result<BudgetResponse, Error>)
    requires OwnedIfPresent(store, id)
    ensures id !in store ==> r == Failure(BudgetNotFound)
    ensures id in store && store[id].owner != Some(appUser) ==> r == Failure(NoPermission)
    ensures r.Success? <==> id in store && store[id].owner == Some(appUser)
    ensures r.Success? ==> r.value == Of(store[id])
  {
    var b :- FindBudgetOwnerOf(store, appUser, id);
    Success(Of(b))
  }

  /** Adds a category to a budget its caller owns: not-found, then permission,
      then the amount, then the duplicate check. */
  function AddBudgetCategory(store: Store, appUser: UserId, id: BudgetId,
                             req: BudgetByCategoryRequest): (r: Result<Store, Error>)
    requires OwnedIfPresent(store, id)
    ensures id !in store ==> r == Failure(BudgetNotFound)
    ensures id in store && store[id].owner != Some(appUser) ==> r == Failure(NoPermission)
    ensures id in store && store[id].owner == Some(appUser) ==>
      if req.money < 0 then r == Failure(InvalidAmount)
      else if HasCategory(store[id].categoryBudgets, req.categoryId) then r == Failure(BudgetCategoryDuplicated)
      else r.Success?
    ensures r.Success? ==>
      && r.value.Keys == store.Keys
      && (forall k :: k in store && k != id ==> r.value[k] == store[k])
      && r.value[id].categoryBudgets == store[id].categoryBudgets + [CategoryBudget(req.categoryId, req.money)]
      && r.value[id] == store[id].(categoryBudgets := r.value[id].categoryBudgets)
  {
    var b :- FindBudgetOwnerOf(store, appUser, id);
    var amount :- MoneyOf(req.money);
    var b' :- BudgetDomain.AddBudgetCategory(b, CategoryBudget(req.categoryId, amount));
    Success(store[id := b'])
  }

  /** Changes the amount of category `categoryId` (taken from the path) in a
      budget its caller owns: not-found, permission, amount, then a missing
      category. */
  function ModifyBudgetCategory(store: Store, appUser: UserId, id: BudgetId, categoryId: CategoryId,
                                req: ModifyBudgetCategoryRequest): (r: Result<Store, Error>)
    requires OwnedIfPresent(store, id)
    ensures id !in store ==> r == Failure(BudgetNotFound)
    ensures id in store && store[id].owner != Some(appUser) ==> r == Failure(NoPermission)
    ensures id in store && store[id].owner == Some(appUser) ==>
      if req.money < 0 then r == Failure(InvalidAmount)
      else if !HasCategory(store[id].categoryBudgets, categoryId) then r == Failure(BudgetCategoryNotFound)
      else r.Success?
    ensures r.Success? ==>
      && r.value.Keys == store.Keys
      && (forall k :: k in store && k != id ==> r.value[k] == store[k])
      && r.value[id] == BudgetDomain.ModifyBudgetCategory(store[id], CategoryBudget(categoryId, req.money)).value
  {
    var b :- FindBudgetOwnerOf(store, appUser, id);
    var amount :- MoneyOf(req.money);
    var b' :- BudgetDomain.ModifyBudgetCategory(b, CategoryBudget(categoryId, amount));
    Success(store[id := b'])
  }

  // ---- properties across calls ----

  /** Every operation keeps every stored budget owned. */
  lemma OperationsKeepStoreOwned(store: Store, users: set<UserId>, appUser: UserId, id: BudgetId,
                                 req: AddBudgetRequest, newId: BudgetId, now: DateTime,
                                 entry: BudgetByCategoryRequest, categoryId: CategoryId,
                                 change: ModifyBudgetCategoryRequest)
    requires AllOwned(store) && newId !in store
    ensures AddBudget(store, users, appUser, req, newId, now).Success? ==>
      AllOwned(AddBudget(store, users, appUser, req, newId, now).value.0)
    ensures DeleteBudget(store, appUser, id).Success? ==> AllOwned(DeleteBudget(store, appUser, id).value)
    ensures AddBudgetCategory(store, appUser, id, entry).Success? ==>
      AllOwned(AddBudgetCategory(store, appUser, id, entry).value)
    ensures ModifyBudgetCategory(store, appUser, id, categoryId, change).Success? ==>
      AllOwned(ModifyBudgetCategory(store, appUser, id, categoryId, change).value)
  {
  }

  /** A budget created from a request and fetched back by its owner shows the
      requested (category, amount) pairs, in order. */
  lemma CreateThenFetch(store: Store, users: set<UserId>, appUser: UserId, req: AddBudgetRequest,
                        newId: BudgetId, now: DateTime)
    requires newId !in store
    requires AddBudget(store, users, appUser, req, newId, now).Success?
    ensures
      var store' := AddBudget(store, users, appUser, req, newId, now).value.0;
      var fetched := FindOneBudget(store', appUser, newId);
      && fetched.Success?
      && fetched.value.month == req.month
      && fetched.value.createdAt == Some(now)
      && |fetched.value.budgetByCategories| == |req.budgetByCategories|
      && forall i :: 0 <= i < |req.budgetByCategories| ==>
           && fetched.value.budgetByCategories[i].categoryId == req.budgetByCategories[i].categoryId
           && fetched.value.budgetByCategories[i].money == req.budgetByCategories[i].money
  {
  }

  /** Adding a category to a budget whose category ids are distinct keeps them
      distinct. */
  lemma AddCategoryKeepsDistinct(store: Store, appUser: UserId, id: BudgetId, req: BudgetByCategoryRequest)
    requires OwnedIfPresent(store, id)
    requires id in store && DistinctCategories(store[id].categoryBudgets)
    requires AddBudgetCategory(store, appUser, id, req).Success?
    ensures DistinctCategories(AddBudgetCategory(store, appUser, id, req).value[id].categoryBudgets)
  {
    var b := store[id];
    AddKeepsCategoriesDistinct(b, CategoryBudget(req.categoryId, req.money));
  }
}
