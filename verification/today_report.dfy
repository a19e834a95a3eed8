/** Today's spending-risk report: today's per-category totals joined with
    this month's category budgets. A category's daily allowance is its
    monthly amount divided by 30; the danger percent is today's spend divided
    by that allowance, times 100, all in truncating int arithmetic. */
module TodayReport {
  import opened Wrappers
  import opened Errors
  import opened BudgetDomain
  import JavaInt

  const DaysPerMonth: int := 30

  /** One report row. `availableAmount` and `dangerPercent` are present only
      when the category has a budget this month. */
  datatype TodayExpensePerCategory = TodayExpensePerCategory(
    categoryId: CategoryId,
    paidAmount: int,
    availableAmount: Option<int>,
    dangerPercent: Option<int>,
    hasCategoryBudget: bool)

  /** `budgetAmount` is a primitive long in the builder, so an unset value
      reads as 0; `dangerPercent` may be absent. */
  datatype TodayExpenseResponse = TodayExpenseResponse(
    expensesPerCategory: seq<TodayExpensePerCategory>,
    totalExpenseAmount: int,
    hasBudget: bool,
    budgetAmount: int,
    dangerPercent: Option<int>)

  /** A row as the totals query produces it: no budget information. */
  function PlainRow(categoryId: CategoryId, paidAmount: int): TodayExpensePerCategory {
    TodayExpensePerCategory(categoryId, paidAmount, None, None, false)
  }

  function PaidTotal(rows: seq<TodayExpensePerCategory>): int {
    if |rows| == 0 then 0 else rows[0].paidAmount + PaidTotal(rows[1..])
  }

  function BudgetTotal(budgets: seq<CategoryBudget>): nat {
    if |budgets| == 0 then 0 else budgets[0].amount + BudgetTotal(budgets[1..])
  }

  /** `(spent / (monthly / 30)) * 100`; fails when the daily allowance is 0. */
  function DangerPercent(spent: int, monthly: nat): (r: Result<int, Error>)
    ensures r.Failure? <==> monthly < DaysPerMonth
    ensures r.Failure? ==> r.error == DivideByZero
    ensures r.Success? && spent >= 0 ==>
      var daily, q := monthly / DaysPerMonth, r.value / 100;
      && r.value >= 0 && r.value % 100 == 0
      && q * daily <= spent < (q + 1) * daily
  {
    var daily := monthly / DaysPerMonth;
    match JavaInt.Div(spent, daily)
    case Failure(e) => Failure(e)
    case Success(q) =>
      if spent >= 0 then
        JavaInt.DivNonNegativeWhenDefined(spent, daily);
        Success(q * 100)
      else
        Success(q * 100)
  }

  /** `TodayExpensePerCategory.from`: enriches a row with the first budget of
      its category, or returns it unchanged when there is none. */
  function From(row: TodayExpensePerCategory, budgets: seq<CategoryBudget>): (r: Result<TodayExpensePerCategory, Error>)
    ensures !HasCategory(budgets, row.categoryId) ==> r == Success(row)
    ensures HasCategory(budgets, row.categoryId) ==>
      var first := budgets[FindBudgetCategory(budgets, row.categoryId).value];
      && (r.Failure? <==> first.amount < DaysPerMonth)
      && (r.Success? ==>
            && r.value.categoryId == row.categoryId
            && r.value.paidAmount == row.paidAmount
            && r.value.availableAmount == Some(first.amount)
            && r.value.dangerPercent == Some(DangerPercent(row.paidAmount, first.amount).value)
            && r.value.hasCategoryBudget)
    ensures r.Failure? ==> r.error == DivideByZero
  {
    match FindBudgetCategory(budgets, row.categoryId)
    case None => Success(row)
    case Some(i) =>
      var amount := budgets[i].amount;
      match DangerPercent(row.paidAmount, amount)
      case Failure(e) => Failure(e)
      case Success(danger) =>
        Success(TodayExpensePerCategory(row.categoryId, row.paidAmount, Some(amount), Some(danger), true))
  }

  /** `toWithBudgetSum`: the same lookup guards the call to `From`. */
  function ToWithBudgetSum(row: TodayExpensePerCategory, budgets: seq<CategoryBudget>): (r: Result<TodayExpensePerCategory, Error>)
    ensures r == From(row, budgets)
    ensures r.Success? ==> r.value.categoryId == row.categoryId && r.value.paidAmount == row.paidAmount
    ensures r.Success? ==> (r.value.hasCategoryBudget <==> HasCategory(budgets, row.categoryId) || row.hasCategoryBudget)
    ensures r.Failure? ==> r.error == DivideByZero
  {
    if FindBudgetCategory(budgets, row.categoryId).None? then Success(row)
    else From(row, budgets)
  }

  /** Enriches every row in order; the first failing row's error wins. */
  function EnrichAll(rows: seq<TodayExpensePerCategory>, budgets: seq<CategoryBudget>): (r: Result<seq<TodayExpensePerCategory>, Error>)
    ensures r.Success? <==> forall i :: 0 <= i < |rows| ==> ToWithBudgetSum(rows[i], budgets).Success?
    ensures r.Success? ==>
      && |r.value| == |rows|
      && forall i :: 0 <= i < |rows| ==> r.value[i] == ToWithBudgetSum(rows[i], budgets).value
    ensures r.Failure? ==> r.error == DivideByZero
  {
    if |rows| == 0 then Success([])
    else
      match ToWithBudgetSum(rows[0], budgets)
      case Failure(e) => Failure(e)
      case Success(head) =>
        match EnrichAll(rows[1..], budgets)
        case Failure(e) => Failure(e)
        case Success(tail) =>
          assert forall i :: 1 <= i < |rows| ==> rows[i] == rows[1..][i - 1];
          Success([head] + tail)
  }

  /** `TodayExpenseResponse.from`: totals over the rows and over every budget
      of the month, matched or not, and the overall danger percent. */
  function ResponseFrom(rows: seq<TodayExpensePerCategory>, budgets: seq<CategoryBudget>): (r: Result<TodayExpenseResponse, Error>)
    ensures r.Failure? <==> BudgetTotal(budgets) < DaysPerMonth
    ensures r.Failure? ==> r.error == DivideByZero
    ensures r.Success? ==>
      && r.value.expensesPerCategory == rows
      && r.value.totalExpenseAmount == PaidTotal(rows)
      && r.value.budgetAmount == BudgetTotal(budgets)
      && r.value.hasBudget
      && r.value.dangerPercent == Some(DangerPercent(PaidTotal(rows), BudgetTotal(budgets)).value)
  {
    var danger :- DangerPercent(PaidTotal(rows), BudgetTotal(budgets));
    Success(TodayExpenseResponse(rows, PaidTotal(rows), true, BudgetTotal(budgets), Some(danger)))
  }

  /** The service's assembly: with no budget this month the rows pass through
      untouched; otherwise every row is enriched and the totals computed. */
  function Report(rows: seq<TodayExpensePerCategory>, budgets: seq<CategoryBudget>): (r: Result<TodayExpenseResponse, Error>)
    ensures |budgets| == 0 ==>
      r == Success(TodayExpenseResponse(rows, PaidTotal(rows), false, 0, None))
    ensures |budgets| > 0 ==>
      (r.Success? <==> BudgetTotal(budgets) >= DaysPerMonth && EnrichAll(rows, budgets).Success?)
    ensures |budgets| > 0 && r.Success? ==>
      && r.value.hasBudget
      && |r.value.expensesPerCategory| == |rows|
      && (forall i :: 0 <= i < |rows| ==> r.value.expensesPerCategory[i] == ToWithBudgetSum(rows[i], budgets).value)
      && r.value.totalExpenseAmount == PaidTotal(rows)
      && r.value.budgetAmount == BudgetTotal(budgets)
      && r.value.dangerPercent == Some(DangerPercent(PaidTotal(rows), BudgetTotal(budgets)).value)
    ensures r.Failure? ==> r.error == DivideByZero
  {
    if |budgets| == 0 then
      Success(TodayExpenseResponse(rows, PaidTotal(rows), false, 0, None))
    else
      match EnrichAll(rows, budgets)
      case Failure(e) => Failure(e)
      case Success(enriched) =>
        EnrichKeepsPaidTotal(rows, enriched);
        ResponseFrom(enriched, budgets)
  }

  /** Rows that agree on their paid amounts have the same paid total. */
  lemma {:induction false} EnrichKeepsPaidTotal(rows: seq<TodayExpensePerCategory>, enriched: seq<TodayExpensePerCategory>)
    requires |rows| == |enriched|
    requires forall i :: 0 <= i < |rows| ==> enriched[i].paidAmount == rows[i].paidAmount
    ensures PaidTotal(enriched) == PaidTotal(rows)
  {
    if |rows| > 0 {
      EnrichKeepsPaidTotal(rows[1..], enriched[1..]);
    }
  }

  /** A budget amount below 30 leaves a daily allowance of 0: the per-category
      computation divides by zero. */
  lemma SmallBudgetDividesByZero(row: TodayExpensePerCategory, amount: nat)
    requires amount < DaysPerMonth
    ensures From(row, [CategoryBudget(row.categoryId, amount)]) == Failure(DivideByZero)
  {
  }
}
