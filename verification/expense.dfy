/** The Expense entity and its constructor's ordered null checks. */
module ExpenseDomain {
  import opened Wrappers
  import opened Errors
  import opened Money
  import opened Time
  import opened BudgetDomain

  /** `createdAt` is the audit timestamp the store sets when it saves. */
  datatype Expense = Expense(
    id: Option<int>,
    memo: Option<string>,
    money: Money,
    owner: UserId,
    categoryId: CategoryId,
    expenseAt: DateTime,
    isExcludeInTotal: bool,
    createdAt: Option<DateTime>)

  /** Money, category and time are checked first, then the user; the
      exclude-in-total flag defaults to false. */
  function NewExpense(id: Option<int>, memo: Option<string>, money: Option<Money>, user: Option<UserId>,
                      category: Option<CategoryId>, expenseAt: Option<DateTime>,
                      exclude: Option<bool>): (r: Result<Expense, Error>)
    ensures money.None? || category.None? || expenseAt.None? ==> r == Failure(ExpenseNullArgument)
    ensures money.Some? && category.Some? && expenseAt.Some? && user.None? ==> r == Failure(ExpenseNullUser)
    ensures r.Success? <==> money.Some? && category.Some? && expenseAt.Some? && user.Some?
    ensures r.Success? ==>
      && r.value.id == id && r.value.memo == memo
      && r.value.money == money.value && r.value.owner == user.value
      && r.value.categoryId == category.value && r.value.expenseAt == expenseAt.value
      && (exclude.None? ==> !r.value.isExcludeInTotal)
      && (exclude.Some? ==> r.value.isExcludeInTotal == exclude.value)
      && r.value.createdAt.None?
  {
    if money.None? || category.None? || expenseAt.None? then Failure(ExpenseNullArgument)
    else if user.None? then Failure(ExpenseNullUser)
    else
      var e := Expense(id, memo, money.value, user.value, category.value, expenseAt.value, false, None);
      Success(if exclude.Some? then SetExclude(e, exclude.value) else e)
  }

  function SetExclude(e: Expense, exclude: bool): Expense {
    e.(isExcludeInTotal := exclude)
  }
}
