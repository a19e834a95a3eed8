/** The request that creates a budget and the response that shows one. */
module BudgetDto {
  import opened Wrappers
  import opened Errors
  import opened Money
  import opened Time
  import opened BudgetDomain

  /** One requested (category, amount) pair; `money` is the raw integer. */
  datatype BudgetByCategoryRequest = BudgetByCategoryRequest(categoryId: CategoryId, money: int)

  /** The month arrives already parsed: BudgetYearMonth's text parsing is not modelled. */
  datatype AddBudgetRequest = AddBudgetRequest(
    budgetByCategories: seq<BudgetByCategoryRequest>,
    month: YearMonth)

  datatype BudgetByCategoryResponse = BudgetByCategoryResponse(categoryId: CategoryId, money: Money)

  datatype BudgetResponse = BudgetResponse(
    budgetByCategories: seq<BudgetByCategoryResponse>,
    month: YearMonth,
    createdAt: Option<DateTime>,
    updatedAt: Option<DateTime>)

  /** The request's month as a bare budget: no owner, no categories yet. */
  function ToBudget(req: AddBudgetRequest): (r: Result<Budget, Error>)
    ensures r.Success? <==> !req.month.EmptyMonth?
    ensures r.Failure? ==> r.error == InvalidBudget
    ensures r.Success? ==>
      && r.value.yearMonth == req.month
      && r.value.owner.None?
      && r.value.categoryBudgets == []
  {
    NewBudget(Some(req.month), None, None)
  }

  predicate AllMoneyValid(entries: seq<BudgetByCategoryRequest>) {
    forall i :: 0 <= i < |entries| ==> entries[i].money >= 0
  }

  /** `categoryBudgets()`: maps the request's entries to category budgets one
      for one, in order. Each amount goes
      through `new Money`, so a negative amount fails; duplicates and an empty
      list pass (only the request validation annotation refuses those). */
  function ToCategoryBudgets(entries: seq<BudgetByCategoryRequest>): (r: Result<seq<CategoryBudget>, Error>)
    ensures r.Success? <==> AllMoneyValid(entries)
    ensures r.Failure? ==> r.error == InvalidAmount
    ensures r.Success? ==>
      && |r.value| == |entries|
      && forall i :: 0 <= i < |entries| ==>
           r.value[i].categoryId == entries[i].categoryId && r.value[i].amount == entries[i].money
  {
    if |entries| == 0 then Success([])
    else
      match MoneyOf(entries[0].money)
      case Failure(e) => Failure(e)
      case Success(amount) =>
        match ToCategoryBudgets(entries[1..])
        case Failure(e) => Failure(e)
        case Success(rest) => Success([CategoryBudget(entries[0].categoryId, amount)] + rest)
  }

  function EntryResponse(cb: CategoryBudget): BudgetByCategoryResponse {
    BudgetByCategoryResponse(cb.categoryId, cb.amount)
  }

  /** The fetch result: one entry per category budget in list order; month and
      audit timestamps copied. */
  function Of(b: Budget): (r: BudgetResponse)
    ensures |r.budgetByCategories| == |b.categoryBudgets|
    ensures forall i :: 0 <= i < |b.categoryBudgets| ==>
      && r.budgetByCategories[i].categoryId == b.categoryBudgets[i].categoryId
      && r.budgetByCategories[i].money == b.categoryBudgets[i].amount
    ensures r.month == b.yearMonth && r.createdAt == b.createdAt && r.updatedAt == b.updatedAt
  {
    BudgetResponse(seq(|b.categoryBudgets|, i requires 0 <= i < |b.categoryBudgets| => EntryResponse(b.categoryBudgets[i])),
                   b.yearMonth, b.createdAt, b.updatedAt)
  }

  /** A request without repeated category ids yields distinct category budgets. */
  lemma DistinctRequestGivesDistinctBudgets(entries: seq<BudgetByCategoryRequest>)
    requires ToCategoryBudgets(entries).Success?
    requires forall i, j :: 0 <= i < j < |entries| ==> entries[i].categoryId != entries[j].categoryId
    ensures DistinctCategories(ToCategoryBudgets(entries).value)
  {
  }
}
