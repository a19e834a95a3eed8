/** The two read-only use cases: the paged expense search with its
    per-category sums, and today's spending-risk report. */
module ExpenseSearchService {
  import opened Wrappers
  import opened Errors
  import opened Money
  import opened Time
  import opened BudgetDomain
  import opened ExpenseDomain
  import opened SearchEnums
  import opened SearchCondition
  import opened ExpenseSort
  import opened TodayReport
  import opened ExpenseQuery
  import JavaInt

  /** One listed expense. */
  datatype ExpenseResponse = ExpenseResponse(
    expenseId: Option<int>,
    memo: Option<string>,
    expenseMount: int,
    expenseAt: DateTime,
    categoryId: CategoryId)

  datatype ExpenseSearchResponse = ExpenseSearchResponse(
    expenseResponses: seq<ExpenseResponse>,
    isEnd: bool,
    totalExpenditure: int,
    categoryExpenseSums: seq<CategoryExpenseSum>)

  function ResponseOf(e: Expense): ExpenseResponse {
    ExpenseResponse(e.id, e.memo, e.money, e.expenseAt, e.categoryId)
  }

  function ListOf(es: seq<Expense>): (r: seq<ExpenseResponse>)
    ensures |r| == |es|
    ensures forall i :: 0 <= i < |es| ==> r[i] == ResponseOf(es[i])
  {
    seq(|es|, i requires 0 <= i < |es| => ResponseOf(es[i]))
  }

  /** `ExpenseSearchResponse.from`: the listed page, the sums passed through,
      their total and the end flag. */
  function SearchResponseFrom(expenses: seq<Expense>, sums: seq<CategoryExpenseSum>, isEnd: bool): (r: ExpenseSearchResponse)
    ensures r.expenseResponses == ListOf(expenses)
    ensures r.categoryExpenseSums == sums && r.isEnd == isEnd
    ensures r.totalExpenditure == SumOfSums(sums)
  {
    ExpenseSearchResponse(ListOf(expenses), isEnd, SumOfSums(sums), sums)
  }

  /** `searchExpense`: the listed rows are one page of the admitted rows,
      while the sums and their total cover every admitted row. */
  function SearchExpense(es: seq<Expense>, userId: UserId, c: ExpenseSearchCondition, monthAgo: DateTime): (r: Result<ExpenseSearchResponse, Error>)
    ensures r.Failure? <==> c.page < 0 || c.size < 1
    ensures r.Failure? ==> r.error == IllegalArgument
    ensures r.Success? ==>
      var admitted := Filtered(es, userId, c, monthAgo);
      && |r.value.expenseResponses| <= c.size
      && ListedFrom(r.value.expenseResponses, admitted)
      && PageWindow(r.value.expenseResponses, SortBy(c.sort, admitted), Offset(Pageable(c.page, c.size)), c.size)
      && r.value.totalExpenditure == Total(admitted)
      && Keys(r.value.categoryExpenseSums) == Categories(admitted)
      && DistinctKeys(r.value.categoryExpenseSums)
      && (forall i :: 0 <= i < |r.value.categoryExpenseSums| ==>
            r.value.categoryExpenseSums[i].totalExpenseAmount == Total(OfCategory(admitted, r.value.categoryExpenseSums[i].categoryId)))
      && r.value.totalExpenditure == SumOfSums(r.value.categoryExpenseSums)
      && (r.value.isEnd <==> Offset(Pageable(c.page, c.size)) + |r.value.expenseResponses| >= |admitted|)
  {
    var page :- SearchByCondition(es, userId, c, monthAgo);
    PageListing(es, userId, c, monthAgo);
    var sums := TotalSumOfCategoriesExpense(es, userId, c, monthAgo);
    Success(SearchResponseFrom(page.content, sums, IsLast(page)))
  }

  /** The responses list, in order, the rows of `sorted` from `offset` on,
      at most `size` of them. */
  predicate PageWindow(responses: seq<ExpenseResponse>, sorted: seq<Expense>, offset: int, size: int) {
    && offset >= 0
    && |responses| == (if offset >= |sorted| then 0 else Min(size, |sorted| - offset))
    && forall i :: 0 <= i < |responses| ==> offset + i < |sorted| && responses[i] == ResponseOf(sorted[offset + i])
  }

  /** The listing and end flag of a successful page, as the response carries them. */
  lemma PageListing(es: seq<Expense>, userId: UserId, c: ExpenseSearchCondition, monthAgo: DateTime)
    requires SearchByCondition(es, userId, c, monthAgo).Success?
    ensures
      var page, admitted := SearchByCondition(es, userId, c, monthAgo).value, Filtered(es, userId, c, monthAgo);
      var listed, offset := ListOf(page.content), Offset(Pageable(c.page, c.size));
      && |listed| <= c.size
      && ListedFrom(listed, admitted)
      && PageWindow(listed, SortBy(c.sort, admitted), offset, c.size)
      && (IsLast(page) <==> offset + |listed| >= |admitted|)
  {
    PageRowsFrom(es, userId, c, monthAgo);
    PageIsWindow(es, userId, c, monthAgo);
    PageEnd(es, userId, c, monthAgo);
  }

  lemma PageRowsFrom(es: seq<Expense>, userId: UserId, c: ExpenseSearchCondition, monthAgo: DateTime)
    requires SearchByCondition(es, userId, c, monthAgo).Success?
    ensures
      var listed := ListOf(SearchByCondition(es, userId, c, monthAgo).value.content);
      |listed| <= c.size && ListedFrom(listed, Filtered(es, userId, c, monthAgo))
  {
    PageRowsAdmitted(es, userId, c, monthAgo);
    ListedRowsFrom(SearchByCondition(es, userId, c, monthAgo).value.content, Filtered(es, userId, c, monthAgo));
  }

  lemma PageIsWindow(es: seq<Expense>, userId: UserId, c: ExpenseSearchCondition, monthAgo: DateTime)
    requires SearchByCondition(es, userId, c, monthAgo).Success?
    ensures PageWindow(ListOf(SearchByCondition(es, userId, c, monthAgo).value.content),
                       SortBy(c.sort, Filtered(es, userId, c, monthAgo)), Offset(Pageable(c.page, c.size)), c.size)
  {
    var content := SearchByCondition(es, userId, c, monthAgo).value.content;
    var admitted := Filtered(es, userId, c, monthAgo);
    var sorted := SortBy(c.sort, admitted);
    WindowListed(content, sorted, Offset(Pageable(c.page, c.size)), c.size);
  }

  lemma PageEnd(es: seq<Expense>, userId: UserId, c: ExpenseSearchCondition, monthAgo: DateTime)
    requires SearchByCondition(es, userId, c, monthAgo).Success?
    ensures
      var page := SearchByCondition(es, userId, c, monthAgo).value;
      IsLast(page) <==> Offset(Pageable(c.page, c.size)) + |ListOf(page.content)| >= |Filtered(es, userId, c, monthAgo)|
  {
    LastPageMeansNothingFollows(es, userId, c, monthAgo);
  }

  lemma WindowListed(content: seq<Expense>, sorted: seq<Expense>, offset: nat, size: int)
    requires |content| == (if offset >= |sorted| then 0 else Min(size, |sorted| - offset))
    requires forall i :: 0 <= i < |content| ==> content[i] == sorted[offset + i]
    ensures PageWindow(ListOf(content), sorted, offset, size)
  {
  }

  /** Every listed response describes one of the given expenses. */
  predicate ListedFrom(responses: seq<ExpenseResponse>, expenses: seq<Expense>) {
    forall x :: x in responses ==> exists e :: e in expenses && x == ResponseOf(e)
  }

  lemma ListedRowsFrom(content: seq<Expense>, admitted: seq<Expense>)
    requires forall e :: e in content ==> e in admitted
    ensures ListedFrom(ListOf(content), admitted)
  {
    var listed := ListOf(content);
    forall x | x in listed
      ensures exists e :: e in admitted && x == ResponseOf(e)
    {
      var i :| 0 <= i < |listed| && listed[i] == x;
      assert content[i] in content;
    }
  }

  /** `searchTodayExpense`: today's per-category totals, joined with this
      month's category budgets when there are any. */
  function SearchTodayExpense(es: seq<Expense>, budgets: seq<Budget>, userId: UserId, today: Date): (r: Result<TodayExpenseResponse, Error>)
    ensures (forall b :: b in budgets && BudgetOfMonth(b, userId, today) ==> |b.categoryBudgets| == 0) ==>
      && r.Success?
      && !r.value.hasBudget && r.value.budgetAmount == 0 && r.value.dangerPercent.None?
      && r.value.expensesPerCategory == TodayTotalExpense(es, userId, today)
    ensures r.Success? ==> r.value.totalExpenseAmount == Total(TodayExpenses(es, userId, today))
    ensures
      var rows, mb := TodayTotalExpense(es, userId, today), GetBudgetsPerCategory(budgets, userId, today);
      && (|mb| > 0 ==> (r.Success? <==> BudgetTotal(mb) >= DaysPerMonth && EnrichAll(rows, mb).Success?))
      && (|mb| > 0 && r.Success? ==>
            && r.value.hasBudget
            && r.value.budgetAmount == BudgetTotal(mb)
            && |r.value.expensesPerCategory| == |rows|
            && (forall i :: 0 <= i < |rows| ==> r.value.expensesPerCategory[i] == ToWithBudgetSum(rows[i], mb).value)
            && r.value.dangerPercent == Some(DangerPercent(Total(TodayExpenses(es, userId, today)), BudgetTotal(mb)).value))
    ensures r.Failure? ==> r.error == DivideByZero
  {
    var rows := TodayTotalExpense(es, userId, today);
    var monthBudgets := GetBudgetsPerCategory(budgets, userId, today);
    assert |monthBudgets| > 0 ==> monthBudgets[0] in monthBudgets;
    Report(rows, monthBudgets)
  }

  // ---------------------------------------------------------------- examples

  const Today: Date := Date(2023, 11, 15)
  const Noon: DateTime := DateTime(Today, 43_200_000_000_000)
  const Owner: UserId := 1

  function Spend(id: int, category: CategoryId, amount: Money): Expense {
    Expense(Some(id), None, amount, Owner, category, Noon, false, None)
  }

  function MonthBudget(cats: seq<CategoryBudget>): Budget {
    Budget(YearMonth(2023, 11), Some(Owner), cats, None, None)
  }

  /** Spending only, no budget: a single budget-less row. */
  lemma NoBudgetExample()
    ensures SearchTodayExpense([Spend(1, 1, 10000)], [], Owner, Today)
         == Success(TodayExpenseResponse([PlainRow(1, 10000)], 10000, false, 0, None))
  {
    var es := [Spend(1, 1, 10000)];
    assert TodayExpenses(es, Owner, Today) == es by {
      assert SpentToday(es[0], Owner, Today);
      assert TodayExpenses(es[1..], Owner, Today) == [];
    }
    assert GroupSums(es) == [CategoryExpenseSum(1, 10000)] by {
      assert Without(es, 1) == [];
      assert OfCategory(es, 1) == es;
    }
    assert TodayTotalExpense(es, Owner, Today) == [PlainRow(1, 10000)];
  }

  const OverlapSpending: seq<Expense> := [Spend(1, 3, 10000), Spend(2, 4, 50000)]
  const OverlapBudgets: seq<CategoryBudget> := [CategoryBudget(3, 300000)]
  const OverlapRows: seq<TodayExpensePerCategory> := [PlainRow(3, 10000), PlainRow(4, 50000)]

  lemma OverlapAllToday()
    ensures TodayExpenses(OverlapSpending, Owner, Today) == OverlapSpending
  {
    var es := OverlapSpending;
    assert SpentToday(es[0], Owner, Today) && SpentToday(es[1], Owner, Today);
    assert es[1..][1..] == [];
    assert TodayExpenses(es[1..], Owner, Today) == es[1..];
  }

  lemma OverlapGroups()
    ensures GroupSums(OverlapSpending) == [CategoryExpenseSum(3, 10000), CategoryExpenseSum(4, 50000)]
  {
    var es := OverlapSpending;
    assert es[1..][1..] == [];
    assert OfCategory(es, 3) == [es[0]];
    assert Without(es, 3) == [es[1]];
    assert OfCategory([es[1]], 4) == [es[1]];
    assert Without([es[1]], 4) == [];
  }

  lemma OverlapTotals()
    ensures TodayTotalExpense(OverlapSpending, Owner, Today) == OverlapRows
  {
    OverlapAllToday();
    OverlapGroups();
    var gs := [CategoryExpenseSum(3, 10000), CategoryExpenseSum(4, 50000)];
    assert PerCategoryRows(gs) == OverlapRows by {
      assert gs[1..][1..] == [];
    }
  }

  lemma OverlapReport()
    ensures Report(OverlapRows, OverlapBudgets)
         == Success(TodayExpenseResponse(
              [TodayExpensePerCategory(3, 10000, Some(300000), Some(100), true), PlainRow(4, 50000)],
              60000, true, 300000, Some(600)))
  {
    var rows, cats := OverlapRows, OverlapBudgets;
    var enriched := TodayExpensePerCategory(3, 10000, Some(300000), Some(100), true);
    assert ToWithBudgetSum(rows[0], cats) == Success(enriched) by {
      assert FindBudgetCategory(cats, 3) == Some(0);
      assert JavaInt.Div(10000, 10000) == Success(1);
    }
    assert ToWithBudgetSum(rows[1], cats) == Success(rows[1]) by {
      assert FindBudgetCategory(cats, 4) == None;
    }
    assert |rows| == 2;
    assert EnrichAll(rows, cats).value == [enriched, rows[1]];
    assert PaidTotal([enriched, rows[1]]) == 60000;
    assert BudgetTotal(cats) == 300000;
    assert JavaInt.Div(60000, 10000) == Success(6);
  }

  /** A budget for category 3 and spending in categories 3 and 4: only row 3
      is enriched; today's 60000 against 300000 / 30 a day is 600 percent. */
  lemma PartialOverlapExample()
    ensures SearchTodayExpense(OverlapSpending, [MonthBudget(OverlapBudgets)], Owner, Today)
         == Success(TodayExpenseResponse(
              [TodayExpensePerCategory(3, 10000, Some(300000), Some(100), true), PlainRow(4, 50000)],
              60000, true, 300000, Some(600)))
  {
    OverlapTotals();
    OverlapReport();
    OverlapMonthBudgets();
  }

  lemma OverlapMonthBudgets()
    ensures GetBudgetsPerCategory([MonthBudget(OverlapBudgets)], Owner, Today) == OverlapBudgets
  {
    var bs := [MonthBudget(OverlapBudgets)];
    assert BudgetOfMonth(bs[0], Owner, Today);
    assert bs[1..] == [];
  }
}
