/** The expense queries: the where-clause builders, the paged search, the
    per-category sums, today's per-category totals and this month's
    category budgets. A table is a sequence of rows; GROUP BY yields groups
    in the order their key first appears. */
module ExpenseQuery {
  import opened Wrappers
  import opened Errors
  import opened Money
  import opened Time
  import opened BudgetDomain
  import opened ExpenseDomain
  import opened SearchEnums
  import opened SearchCondition
  import opened ExpenseSort
  import opened TodayReport

  // ---------------------------------------------------------------- clauses

  /** An amount bound; an absent clause (`null`) filters nothing. */
  datatype AmountClause = AmountLoe(max: int) | AmountGoe(min: int) | AmountBetween(low: int, high: int)

  predicate AmountHolds(clause: Option<AmountClause>, amount: int) {
    match clause
    case None => true
    case Some(AmountLoe(m)) => amount <= m
    case Some(AmountGoe(m)) => amount >= m
    case Some(AmountBetween(lo, hi)) => lo <= amount <= hi
  }

  /** Each given bound is inclusive; no bound gives no clause. */
  function BetweenAmounts(min: Option<Money>, max: Option<Money>): (r: Option<AmountClause>)
    ensures r.None? <==> min.None? && max.None?
    ensures forall a :: AmountHolds(r, a) <==> (min.None? || min.value <= a) && (max.None? || a <= max.value)
  {
    if min.None? && max.Some? then Some(AmountLoe(max.value))
    else if min.Some? && max.None? then Some(AmountGoe(min.value))
    else if min.None? then None
    else Some(AmountBetween(min.value, max.value))
  }

  datatype CategoryClause = CategoryIn(ids: seq<CategoryId>)

  predicate CategoryHolds(clause: Option<CategoryClause>, id: CategoryId) {
    clause.None? || id in clause.value.ids
  }

  /** A missing or empty list filters nothing; otherwise membership. */
  function InCategories(categories: Option<seq<CategoryId>>): (r: Option<CategoryClause>)
    ensures r.None? <==> categories.None? || |categories.value| == 0
    ensures forall id :: CategoryHolds(r, id) <==> categories.None? || |categories.value| == 0 || id in categories.value
  {
    if categories.None? || |categories.value| == 0 then None
    else Some(CategoryIn(categories.value))
  }

  datatype DateClause = DateBetween(from: DateTime, to: DateTime) | DateBefore(to: DateTime) | DateAfter(from: DateTime)

  predicate DateHolds(clause: DateClause, t: DateTime) {
    match clause
    case DateBetween(from, to) => Le(from, t) && Le(t, to)
    case DateBefore(to) => Lt(t, to)
    case DateAfter(from) => Lt(from, t)
  }

  /** Both bounds: inclusive range. One bound: strict on that side. No bound:
      strictly after `monthAgo`, the clock read of "one month ago". */
  function BetweenDate(start: Option<DateTime>, end: Option<DateTime>, monthAgo: DateTime): (r: DateClause)
    ensures start.Some? && end.Some? ==>
      forall t :: DateHolds(r, t) <==> Le(start.value, t) && Le(t, end.value)
    ensures start.None? && end.Some? ==>
      forall t :: DateHolds(r, t) <==> Le(t, end.value) && t != end.value
    ensures start.Some? && end.None? ==>
      forall t :: DateHolds(r, t) <==> Le(start.value, t) && t != start.value
    ensures start.None? && end.None? ==>
      forall t :: DateHolds(r, t) <==> Le(monthAgo, t) && t != monthAgo
  {
    if start.Some? && end.Some? then DateBetween(start.value, end.value)
    else if start.None? && end.Some? then DateBefore(end.value)
    else if start.Some? then DateAfter(start.value)
    else DateAfter(monthAgo)
  }

  /** The clock is read only when neither bound is given. */
  lemma ClockReadOnlyWithoutBounds(start: Option<DateTime>, end: Option<DateTime>, m1: DateTime, m2: DateTime)
    requires start.Some? || end.Some?
    ensures BetweenDate(start, end, m1) == BetweenDate(start, end, m2)
  {
  }

  /** The conjunction of the four where-clauses of the search. */
  predicate Matches(e: Expense, userId: UserId, c: ExpenseSearchCondition, monthAgo: DateTime) {
    && e.owner == userId
    && AmountHolds(BetweenAmounts(c.min, c.max), e.money)
    && CategoryHolds(InCategories(Some(c.categoryIds.ids)), e.categoryId)
    && DateHolds(BetweenDate(Some(c.start), Some(c.end), monthAgo), e.expenseAt)
  }

  /** What a search condition admits, stated without the clause builders. */
  lemma MatchesMeaning(e: Expense, userId: UserId, c: ExpenseSearchCondition, monthAgo: DateTime)
    ensures Matches(e, userId, c, monthAgo) <==>
      && e.owner == userId
      && (c.min.None? || c.min.value <= e.money)
      && (c.max.None? || e.money <= c.max.value)
      && (IsEmpty(c.categoryIds) || e.categoryId in c.categoryIds.ids)
      && Le(c.start, e.expenseAt) && Le(e.expenseAt, c.end)
  {
  }

  /** The rows the where-clauses admit, in table order. */
  function Filtered(es: seq<Expense>, userId: UserId, c: ExpenseSearchCondition, monthAgo: DateTime): (r: seq<Expense>)
    ensures forall e :: multiset(r)[e] == if Matches(e, userId, c, monthAgo) then multiset(es)[e] else 0
  {
    if |es| == 0 then []
    else
      assert es == [es[0]] + es[1..];
      (if Matches(es[0], userId, c, monthAgo) then [es[0]] else []) + Filtered(es[1..], userId, c, monthAgo)
  }

  // --------------------------------------------------------------- grouping

  /** One row of the per-category sum query. */
  datatype CategoryExpenseSum = CategoryExpenseSum(categoryId: CategoryId, totalExpenseAmount: int)

  function Total(es: seq<Expense>): nat {
    if |es| == 0 then 0 else es[0].money + Total(es[1..])
  }

  function OfCategory(es: seq<Expense>, c: CategoryId): (r: seq<Expense>)
    ensures forall e :: e in r <==> e in es && e.categoryId == c
  {
    if |es| == 0 then []
    else (if es[0].categoryId == c then [es[0]] else []) + OfCategory(es[1..], c)
  }

  function Without(es: seq<Expense>, c: CategoryId): (r: seq<Expense>)
    ensures forall e :: e in r <==> e in es && e.categoryId != c
    ensures |r| <= |es|
    ensures |es| > 0 && es[0].categoryId == c ==> |r| < |es|
  {
    if |es| == 0 then []
    else (if es[0].categoryId == c then [] else [es[0]]) + Without(es[1..], c)
  }

  function Categories(es: seq<Expense>): set<CategoryId> {
    set e | e in es :: e.categoryId
  }

  function Keys(gs: seq<CategoryExpenseSum>): set<CategoryId> {
    set g | g in gs :: g.categoryId
  }

  predicate DistinctKeys(gs: seq<CategoryExpenseSum>) {
    forall i, j :: 0 <= i < j < |gs| ==> gs[i].categoryId != gs[j].categoryId
  }

  function SumOfSums(gs: seq<CategoryExpenseSum>): int {
    if |gs| == 0 then 0 else gs[0].totalExpenseAmount + SumOfSums(gs[1..])
  }

  /** GROUP BY category with SUM(amount): one row per category present. */
  function GroupSums(es: seq<Expense>): (r: seq<CategoryExpenseSum>)
    ensures Keys(r) == Categories(es)
    ensures DistinctKeys(r)
    decreases |es|
  {
    if |es| == 0 then []
    else
      var c := es[0].categoryId;
      var rest := GroupSums(Without(es, c));
      var r := [CategoryExpenseSum(c, Total(OfCategory(es, c)))] + rest;
      assert Categories(Without(es, c)) == Categories(es) - {c};
      assert Keys(r) == {c} + Keys(rest) by {
        forall k | k in Keys(r) ensures k in {c} + Keys(rest) {
          var g :| g in r && g.categoryId == k;
          if g != r[0] {
            assert g in rest;
          }
        }
        forall k | k in Keys(rest) ensures k in Keys(r) {
          var g :| g in rest && g.categoryId == k;
          assert g in r;
        }
      }
      assert es[0] in es;
      forall j | 0 < j < |r| ensures r[j].categoryId != c {
        assert rest[j - 1] in rest;
      }
      r
  }

  lemma {:induction false} TotalSplit(es: seq<Expense>, c: CategoryId)
    ensures Total(es) == Total(OfCategory(es, c)) + Total(Without(es, c))
  {
    if |es| > 0 {
      TotalSplit(es[1..], c);
      var h := if es[0].categoryId == c then [es[0]] else [];
      assert OfCategory(es, c) == h + OfCategory(es[1..], c);
      if es[0].categoryId == c {
        assert OfCategory(es, c)[1..] == OfCategory(es[1..], c);
        assert Without(es, c) == Without(es[1..], c);
      } else {
        assert OfCategory(es, c) == OfCategory(es[1..], c);
        assert Without(es, c)[1..] == Without(es[1..], c);
      }
    }
  }

  lemma {:induction false} OfCategoryWithout(es: seq<Expense>, c: CategoryId, d: CategoryId)
    requires c != d
    ensures OfCategory(Without(es, c), d) == OfCategory(es, d)
  {
    if |es| > 0 {
      OfCategoryWithout(es[1..], c, d);
      var w := Without(es, c);
      if es[0].categoryId == c {
        assert w == Without(es[1..], c);
        assert OfCategory(es, d) == OfCategory(es[1..], d);
      } else {
        assert w == [es[0]] + Without(es[1..], c);
        assert w[0] == es[0] && w[1..] == Without(es[1..], c);
      }
    }
  }

  /** Each group carries the sum of exactly its category's amounts. */
  lemma {:induction false} GroupSumsAreCategoryTotals(es: seq<Expense>)
    ensures forall i :: 0 <= i < |GroupSums(es)| ==>
      GroupSums(es)[i].totalExpenseAmount == Total(OfCategory(es, GroupSums(es)[i].categoryId))
    decreases |es|
  {
    if |es| > 0 {
      var c := es[0].categoryId;
      var rest := GroupSums(Without(es, c));
      GroupSumsAreCategoryTotals(Without(es, c));
      assert GroupSums(es) == [CategoryExpenseSum(c, Total(OfCategory(es, c)))] + rest;
      forall i | 1 <= i < |GroupSums(es)|
        ensures GroupSums(es)[i].totalExpenseAmount == Total(OfCategory(es, GroupSums(es)[i].categoryId))
      {
        var g := rest[i - 1];
        assert g in rest;
        assert g.categoryId in Keys(rest);
        OfCategoryWithout(es, c, g.categoryId);
      }
    }
  }

  /** The group sums add up to the total of all grouped rows. */
  lemma {:induction false} GroupSumsTotal(es: seq<Expense>)
    ensures SumOfSums(GroupSums(es)) == Total(es)
    decreases |es|
  {
    if |es| > 0 {
      var c := es[0].categoryId;
      GroupSumsTotal(Without(es, c));
      TotalSplit(es, c);
      assert GroupSums(es)[1..] == GroupSums(Without(es, c));
    }
  }

  /** The per-category sums over the rows the search admits. */
  function TotalSumOfCategoriesExpense(es: seq<Expense>, userId: UserId, c: ExpenseSearchCondition, monthAgo: DateTime): (r: seq<CategoryExpenseSum>)
    ensures DistinctKeys(r)
    ensures Keys(r) == Categories(Filtered(es, userId, c, monthAgo))
    ensures forall i :: 0 <= i < |r| ==>
      r[i].totalExpenseAmount == Total(OfCategory(Filtered(es, userId, c, monthAgo), r[i].categoryId))
    ensures SumOfSums(r) == Total(Filtered(es, userId, c, monthAgo))
  {
    var rows := Filtered(es, userId, c, monthAgo);
    GroupSumsAreCategoryTotals(rows);
    GroupSumsTotal(rows);
    GroupSums(rows)
  }

  // ----------------------------------------------------------------- paging

  datatype ExpensePage = ExpensePage(content: seq<Expense>, page: int, size: int, totalElements: nat)

  function Min(a: int, b: int): int {
    if a <= b then a else b
  }

  /** Page.getTotalPages: the ceiling of total over size (size is positive). */
  function TotalPages(p: ExpensePage): int
    requires p.size > 0
  {
    (p.totalElements + p.size - 1) / p.size
  }

  /** Page.isLast: there is no next page. */
  predicate IsLast(p: ExpensePage)
    requires p.size > 0
  {
    !(p.page + 1 < TotalPages(p))
  }

  /** LIMIT `size` OFFSET `offset`. */
  function Slice(s: seq<Expense>, offset: nat, size: nat): (r: seq<Expense>)
    ensures |r| == if offset >= |s| then 0 else Min(size, |s| - offset)
    ensures forall i :: 0 <= i < |r| ==> r[i] == s[offset + i]
  {
    if offset >= |s| then [] else s[offset..offset + Min(size, |s| - offset)]
  }

  /** A window of a sorted sequence is sorted. */
  lemma SliceSorted(sort: SearchSort, s: seq<Expense>, offset: nat, size: nat)
    requires SortedBy(sort, s)
    ensures SortedBy(sort, Slice(s, offset, size))
  {
    var r := Slice(s, offset, size);
    forall i, j | 0 <= i < j < |r| ensures Precedes(sort, r[i], r[j]) {
      assert r[i] == s[offset + i] && r[j] == s[offset + j];
    }
  }

  /** `searchByCondition`: filter, order by the chosen key, then cut the page. */
  function SearchByCondition(es: seq<Expense>, userId: UserId, c: ExpenseSearchCondition, monthAgo: DateTime): (r: Result<ExpensePage, Error>)
    ensures r.Failure? <==> c.page < 0 || c.size < 1
    ensures r.Failure? ==> r.error == IllegalArgument
    ensures r.Success? ==>
      var rows, sorted, offset := Filtered(es, userId, c, monthAgo), SortBy(c.sort, Filtered(es, userId, c, monthAgo)), Offset(Pageable(c.page, c.size));
      && r.value.page == c.page && r.value.size == c.size
      && r.value.totalElements == |rows|
      && |r.value.content| == (if offset >= |rows| then 0 else Min(c.size, |rows| - offset))
      && (forall i :: 0 <= i < |r.value.content| ==> r.value.content[i] == sorted[offset + i])
      && SortedBy(c.sort, r.value.content)
  {
    var pageable :- ToPageable(c);
    assert pageable == Pageable(c.page, c.size);
    var rows := Filtered(es, userId, c, monthAgo);
    var sorted := SortBy(c.sort, rows);
    assert |sorted| == |multiset(sorted)| == |rows|;
    var content := Slice(sorted, Offset(pageable), pageable.size);
    SliceSorted(c.sort, sorted, Offset(pageable), pageable.size);
    Success(ExpensePage(content, pageable.page, pageable.size, |rows|))
  }

  /** Every listed row is one the where-clauses admit. */
  lemma PageRowsAdmitted(es: seq<Expense>, userId: UserId, c: ExpenseSearchCondition, monthAgo: DateTime)
    requires SearchByCondition(es, userId, c, monthAgo).Success?
    ensures forall e :: e in SearchByCondition(es, userId, c, monthAgo).value.content ==>
      e in Filtered(es, userId, c, monthAgo) && Matches(e, userId, c, monthAgo)
  {
    var content := SearchByCondition(es, userId, c, monthAgo).value.content;
    var rows := Filtered(es, userId, c, monthAgo);
    var sorted := SortBy(c.sort, rows);
    forall e | e in content ensures e in rows && Matches(e, userId, c, monthAgo) {
      var i :| 0 <= i < |content| && content[i] == e;
      assert e == sorted[Offset(Pageable(c.page, c.size)) + i];
      assert e in multiset(sorted);
    }
  }

  lemma MulMono(a: int, b: int, s: nat)
    requires a <= b
    ensures a * s <= b * s
  {
  }

  /** ceil(t / s) <= n exactly when t <= n * s. */
  lemma CeilDivAtMost(t: nat, s: int, n: nat)
    requires s > 0
    ensures (t + s - 1) / s <= n <==> t <= n * s
  {
    var q := (t + s - 1) / s;
    assert q * s <= t + s - 1 < q * s + s;
    if q <= n {
      MulMono(q, n, s);
    } else {
      MulMono(n + 1, q, s);
    }
  }

  /** A page is the last exactly when no admitted row lies beyond it. */
  lemma {:induction false} LastPageMeansNothingFollows(es: seq<Expense>, userId: UserId, c: ExpenseSearchCondition, monthAgo: DateTime)
    requires SearchByCondition(es, userId, c, monthAgo).Success?
    ensures var p := SearchByCondition(es, userId, c, monthAgo).value;
      p.size > 0 && (IsLast(p) <==> Offset(Pageable(p.page, p.size)) + |p.content| >= p.totalElements)
  {
    var p := SearchByCondition(es, userId, c, monthAgo).value;
    WindowIsLast(p);
  }

  lemma WindowIsLast(p: ExpensePage)
    requires p.page >= 0 && p.size > 0
    requires var offset := Offset(Pageable(p.page, p.size));
      |p.content| == if offset >= p.totalElements then 0 else Min(p.size, p.totalElements - offset)
    ensures IsLast(p) <==> Offset(Pageable(p.page, p.size)) + |p.content| >= p.totalElements
  {
    CeilDivAtMost(p.totalElements, p.size, p.page + 1);
    NextOffset(p.page, p.size);
  }

  lemma NextOffset(page: int, size: int)
    ensures (page + 1) * size == Offset(Pageable(page, size)) + size
  {
  }

  /** The sort direction of a condition never changes the result. */
  lemma OrderNeverRead(es: seq<Expense>, userId: UserId, c: ExpenseSearchCondition, monthAgo: DateTime, order: SearchOrder)
    ensures SearchByCondition(es, userId, c, monthAgo) == SearchByCondition(es, userId, c.(order := order), monthAgo)
  {
    FilteredIgnoresOrder(es, userId, c, monthAgo, order);
  }

  lemma {:induction false} FilteredIgnoresOrder(es: seq<Expense>, userId: UserId, c: ExpenseSearchCondition, monthAgo: DateTime, order: SearchOrder)
    ensures Filtered(es, userId, c, monthAgo) == Filtered(es, userId, c.(order := order), monthAgo)
  {
    if |es| > 0 {
      FilteredIgnoresOrder(es[1..], userId, c, monthAgo, order);
    }
  }

  // ------------------------------------------------------------------ today

  /** An expense of the user at any instant of `today`, bounds included. */
  predicate SpentToday(e: Expense, userId: UserId, today: Date) {
    Le(StartOfDay(today), e.expenseAt) && Le(e.expenseAt, EndOfDay(today)) && e.owner == userId
  }

  function TodayExpenses(es: seq<Expense>, userId: UserId, today: Date): (r: seq<Expense>)
    ensures forall e :: multiset(r)[e] == if SpentToday(e, userId, today) then multiset(es)[e] else 0
  {
    if |es| == 0 then []
    else
      assert es == [es[0]] + es[1..];
      (if SpentToday(es[0], userId, today) then [es[0]] else []) + TodayExpenses(es[1..], userId, today)
  }

  function PerCategoryRows(gs: seq<CategoryExpenseSum>): (r: seq<TodayExpensePerCategory>)
    ensures |r| == |gs|
    ensures forall i :: 0 <= i < |r| ==> r[i] == PlainRow(gs[i].categoryId, gs[i].totalExpenseAmount)
    ensures PaidTotal(r) == SumOfSums(gs)
  {
    if |gs| == 0 then [] else [PlainRow(gs[0].categoryId, gs[0].totalExpenseAmount)] + PerCategoryRows(gs[1..])
  }

  /** `todayTotalExpense`: one budget-less row per category the user spent in
      today, carrying that category's sum; the exclude flag is not consulted. */
  function TodayTotalExpense(es: seq<Expense>, userId: UserId, today: Date): (r: seq<TodayExpensePerCategory>)
    ensures forall i, j :: 0 <= i < j < |r| ==> r[i].categoryId != r[j].categoryId
    ensures RowCategories(r) == Categories(TodayExpenses(es, userId, today))
    ensures forall i :: 0 <= i < |r| ==>
      && r[i].paidAmount == Total(OfCategory(TodayExpenses(es, userId, today), r[i].categoryId))
      && r[i].availableAmount.None? && r[i].dangerPercent.None? && !r[i].hasCategoryBudget
    ensures PaidTotal(r) == Total(TodayExpenses(es, userId, today))
  {
    var todays := TodayExpenses(es, userId, today);
    GroupSumsAreCategoryTotals(todays);
    GroupSumsTotal(todays);
    RowsCoverGroups(GroupSums(todays));
    PerCategoryRows(GroupSums(todays))
  }

  function RowCategories(rows: seq<TodayExpensePerCategory>): set<CategoryId> {
    set row | row in rows :: row.categoryId
  }

  lemma RowsCoverGroups(gs: seq<CategoryExpenseSum>)
    ensures RowCategories(PerCategoryRows(gs)) == Keys(gs)
  {
    var r := PerCategoryRows(gs);
    forall id | id in Keys(gs) ensures id in RowCategories(r) {
      var g :| g in gs && g.categoryId == id;
      var i :| 0 <= i < |gs| && gs[i] == g;
      assert r[i] in r;
    }
    forall id | id in RowCategories(r) ensures id in Keys(gs) {
      var row :| row in r && row.categoryId == id;
      var i :| 0 <= i < |r| && r[i] == row;
      assert gs[i] in gs;
    }
  }

  /** `getBudgetsPerCategory`: every category budget of the user's budgets
      for the month `today` falls in. */
  predicate BudgetOfMonth(b: Budget, userId: UserId, today: Date) {
    b.owner == Some(userId) && b.yearMonth == YearMonth(today.year, today.month)
  }

  function GetBudgetsPerCategory(budgets: seq<Budget>, userId: UserId, today: Date): (r: seq<CategoryBudget>)
    ensures forall cb :: cb in r <==> exists b :: b in budgets && BudgetOfMonth(b, userId, today) && cb in b.categoryBudgets
  {
    if |budgets| == 0 then []
    else
      var rest := GetBudgetsPerCategory(budgets[1..], userId, today);
      assert forall b :: b in budgets <==> b == budgets[0] || b in budgets[1..];
      (if BudgetOfMonth(budgets[0], userId, today) then budgets[0].categoryBudgets else []) + rest
  }

  /** One budget contributes its whole category list, in order, exactly when
      it is the user's budget for this month. */
  lemma GetBudgetsOfOne(b: Budget, userId: UserId, today: Date)
    ensures GetBudgetsPerCategory([b], userId, today) == if BudgetOfMonth(b, userId, today) then b.categoryBudgets else []
  {
    assert [b][1..] == [];
  }

  /** The lists of consecutive budgets are concatenated, so repeats are kept
      and the store's order is preserved. */
  lemma {:induction false} GetBudgetsAppend(xs: seq<Budget>, ys: seq<Budget>, userId: UserId, today: Date)
    ensures GetBudgetsPerCategory(xs + ys, userId, today) == GetBudgetsPerCategory(xs, userId, today) + GetBudgetsPerCategory(ys, userId, today)
  {
    if |xs| == 0 {
      assert xs + ys == ys;
    } else {
      assert (xs + ys)[1..] == xs[1..] + ys;
      GetBudgetsAppend(xs[1..], ys, userId, today);
    }
  }

  lemma TodayExpensesCons(x: Expense, rest: seq<Expense>, userId: UserId, today: Date)
    ensures TodayExpenses([x] + rest, userId, today) == (if SpentToday(x, userId, today) then [x] else []) + TodayExpenses(rest, userId, today)
  {
    assert ([x] + rest)[0] == x && ([x] + rest)[1..] == rest;
  }

  lemma {:induction false} TodayExpensesAppend(xs: seq<Expense>, ys: seq<Expense>, userId: UserId, today: Date)
    ensures TodayExpenses(xs + ys, userId, today) == TodayExpenses(xs, userId, today) + TodayExpenses(ys, userId, today)
  {
    if |xs| == 0 {
      assert xs + ys == ys;
    } else {
      var x, rest := xs[0], xs[1..];
      assert xs == [x] + rest && xs + ys == [x] + (rest + ys);
      TodayExpensesAppend(rest, ys, userId, today);
      TodayExpensesCons(x, rest, userId, today);
      TodayExpensesCons(x, rest + ys, userId, today);
      var head := if SpentToday(x, userId, today) then [x] else [];
      var a, b := TodayExpenses(rest, userId, today), TodayExpenses(ys, userId, today);
      ConcatAssoc(head, a, b);
    }
  }

  lemma ConcatAssoc<T>(a: seq<T>, b: seq<T>, c: seq<T>)
    ensures a + (b + c) == (a + b) + c
  {
  }

  lemma {:induction false} TotalAppend(xs: seq<Expense>, ys: seq<Expense>)
    ensures Total(xs + ys) == Total(xs) + Total(ys)
  {
    if |xs| == 0 {
      assert xs + ys == ys;
    } else {
      assert (xs + ys)[1..] == xs[1..] + ys;
      TotalAppend(xs[1..], ys);
    }
  }

  /** An expense built for the user at any time of `today` is counted in
      today's spending: appended to the store, it raises today's total by
      its amount, whatever its exclude flag says. */
  lemma NewExpenseCountsToday(es: seq<Expense>, id: Option<int>, memo: Option<string>, money: Money,
                              userId: UserId, category: CategoryId, at: DateTime, exclude: Option<bool>)
    requires 0 <= at.nanoOfDay <= LastNanoOfDay
    ensures NewExpense(id, memo, Some(money), Some(userId), Some(category), Some(at), exclude).Success?
    ensures
      var e := NewExpense(id, memo, Some(money), Some(userId), Some(category), Some(at), exclude).value;
      && e in TodayExpenses(es + [e], userId, at.date)
      && Total(TodayExpenses(es + [e], userId, at.date)) == Total(TodayExpenses(es, userId, at.date)) + money
  {
    var e := NewExpense(id, memo, Some(money), Some(userId), Some(category), Some(at), exclude).value;
    WithinDay(at);
    assert SpentToday(e, userId, at.date);
    TodayExpensesAppend(es, [e], userId, at.date);
    assert TodayExpenses([e], userId, at.date) == [e];
    TotalAppend(TodayExpenses(es, userId, at.date), [e]);
  }
}
