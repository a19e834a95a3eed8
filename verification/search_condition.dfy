/** Normalisation of raw search parameters into a search condition, and the
    request parameter object that feeds it. */
module SearchCondition {
  import opened Wrappers
  import opened Errors
  import opened Money
  import opened Time
  import opened BudgetDomain
  import opened SearchEnums
  import opened DateFormat

  const DefaultPageSize: int := 10
  const DefaultPage: int := 0

  /** A category filter; an empty list means no filter. */
  datatype CategoryIds = CategoryIds(ids: seq<CategoryId>)

  /** A missing or empty list becomes the empty list; any other list is kept. */
  function CategoryIdsOf(ids: Option<seq<CategoryId>>): (r: CategoryIds)
    ensures ids.None? ==> r.ids == []
    ensures ids.Some? ==> r.ids == ids.value
  {
    if ids.None? || |ids.value| == 0 then CategoryIds([]) else CategoryIds(ids.value)
  }

  predicate IsEmpty(c: CategoryIds) {
    |c.ids| == 0
  }

  /** The builder's raw arguments; every one may be absent. */
  datatype ConditionArgs = ConditionArgs(
    start: Option<string>, end: Option<string>,
    min: Option<int>, max: Option<int>,
    categoryIds: Option<seq<CategoryId>>,
    page: Option<int>, size: Option<int>,
    order: Option<SearchOrder>, sort: Option<SearchSort>)

  datatype ExpenseSearchCondition = ExpenseSearchCondition(
    start: DateTime, end: DateTime,
    min: Option<Money>, max: Option<Money>,
    categoryIds: CategoryIds,
    page: int, size: int,
    order: SearchOrder, sort: SearchSort)

  datatype Pageable = Pageable(page: int, size: int)

  /** A date text that matches the pattern, as midnight of the day
      `LocalDate.parse` resolves it to. */
  function ToLocalDateTime(date: string): (r: Result<DateTime, Error>)
    ensures !MatchesDatePattern(date) ==> r == Failure(IllegalArgument)
    ensures MatchesDatePattern(date) ==> (r.Failure? <==> date[0..4] == "0000")
    ensures MatchesDatePattern(date) && r.Failure? ==> r.error == DateTimeParse
    ensures r.Success? ==> r.value.nanoOfDay == 0 && IsCalendarDate(r.value.date)
    ensures r.Success? ==> r.value.date == ParseDate(date).value
  {
    if !MatchesDatePattern(date) then Failure(IllegalArgument)
    else
      var d :- ParseDate(date);
      Success(StartOfDay(d))
  }

  function OptionalMoney(amount: Option<int>): (r: Result<Option<Money>, Error>)
    ensures r.Success? <==> amount.None? || amount.value >= 0
    ensures r.Failure? ==> r.error == InvalidAmount
    ensures r.Success? ==> (r.value.Some? <==> amount.Some?) && (amount.Some? ==> r.value.value == amount.value)
  {
    if amount.None? then Success(None)
    else
      var m :- MoneyOf(amount.value);
      Success(Some(m))
  }

  /** `setPage`: a negative page is ignored. */
  function PageOf(page: Option<int>): (r: int)
    ensures r >= 0
    ensures page.Some? && page.value >= 0 ==> r == page.value
    ensures page.None? || page.value < 0 ==> r == DefaultPage
  {
    if page.Some? && page.value >= DefaultPage then page.value else DefaultPage
  }

  /** `setSize`: a size above the default is ignored rather than honoured. */
  function SizeOf(size: Option<int>): (r: int)
    ensures r <= DefaultPageSize
    ensures size.Some? && size.value <= DefaultPageSize ==> r == size.value
    ensures size.None? || size.value > DefaultPageSize ==> r == DefaultPageSize
  {
    if size.Some? && size.value <= DefaultPageSize then size.value else DefaultPageSize
  }

  /** The constructor: both dates are required, then each must match the
      pattern, then each present amount must be a valid Money. */
  function NewCondition(args: ConditionArgs): (r: Result<ExpenseSearchCondition, Error>)
    ensures args.start.None? || args.end.None? ==> r == Failure(ExpenseSearchDateNotNull)
    ensures args.start.Some? && args.end.Some? ==>
      var start, end := ToLocalDateTime(args.start.value), ToLocalDateTime(args.end.value);
      if start.Failure? then r == Failure(start.error)
      else if end.Failure? then r == Failure(end.error)
      else if (args.min.Some? && args.min.value < 0) || (args.max.Some? && args.max.value < 0) then r == Failure(InvalidAmount)
      else r.Success?
    ensures r.Success? ==>
      var c := r.value;
      && c.start == ToLocalDateTime(args.start.value).value
      && c.end == ToLocalDateTime(args.end.value).value
      && (c.min.Some? <==> args.min.Some?) && (c.min.Some? ==> c.min.value == args.min.value)
      && (c.max.Some? <==> args.max.Some?) && (c.max.Some? ==> c.max.value == args.max.value)
      && c.categoryIds.ids == args.categoryIds.GetOr([])
      && c.page == PageOf(args.page) && c.size == SizeOf(args.size)
      && c.order == args.order.GetOr(Desc) && c.sort == args.sort.GetOr(ExpenseDate)
  {
    if args.start.None? || args.end.None? then Failure(ExpenseSearchDateNotNull)
    else
      var start :- ToLocalDateTime(args.start.value);
      var end :- ToLocalDateTime(args.end.value);
      var min :- OptionalMoney(args.min);
      var max :- OptionalMoney(args.max);
      Success(ExpenseSearchCondition(start, end, min, max, CategoryIdsOf(args.categoryIds),
                                     PageOf(args.page), SizeOf(args.size),
                                     args.order.GetOr(Desc), args.sort.GetOr(ExpenseDate)))
  }

  /** `PageRequest.of(page, size)`: a negative page or a size below one is
      refused. The offset is page times size. */
  function ToPageable(c: ExpenseSearchCondition): (r: Result<Pageable, Error>)
    ensures r.Success? <==> c.page >= 0 && c.size >= 1
    ensures r.Failure? ==> r.error == IllegalArgument
    ensures r.Success? ==> r.value.page == c.page && r.value.size == c.size
  {
    if c.page < 0 || c.size < 1 then Failure(IllegalArgument) else Success(Pageable(c.page, c.size))
  }

  function Offset(p: Pageable): (r: int)
    ensures p.page >= 0 && p.size >= 0 ==> r >= 0
  {
    p.page * p.size
  }

  /** The query-string parameters of a search. */
  datatype ExpenseSearchParameter = ExpenseSearchParameter(
    start: Option<string>, end: Option<string>,
    min: Option<int>, max: Option<int>,
    page: Option<int>, size: Option<int>,
    order: Option<SearchOrder>, sort: Option<SearchSort>,
    cids: Option<seq<CategoryId>>)

  /** Every field but `page` is forwarded; `cids` becomes the category filter. */
  function ToCondition(p: ExpenseSearchParameter): (r: Result<ExpenseSearchCondition, Error>)
    ensures p.start.None? || p.end.None? ==> r == Failure(ExpenseSearchDateNotNull)
    ensures p.start.Some? && p.end.Some? ==>
      (r.Success? <==>
        && ToLocalDateTime(p.start.value).Success? && ToLocalDateTime(p.end.value).Success?
        && (p.min.None? || p.min.value >= 0) && (p.max.None? || p.max.value >= 0))
    ensures r.Success? ==>
      var c := r.value;
      && c.start.nanoOfDay == 0 && c.end.nanoOfDay == 0
      && IsCalendarDate(c.start.date) && IsCalendarDate(c.end.date)
      && c.start.date == ParseDate(p.start.value).value && c.end.date == ParseDate(p.end.value).value
      && (c.min.Some? <==> p.min.Some?) && (c.min.Some? ==> c.min.value == p.min.value)
      && (c.max.Some? <==> p.max.Some?) && (c.max.Some? ==> c.max.value == p.max.value)
      && c.categoryIds.ids == p.cids.GetOr([])
      && c.page == DefaultPage && c.size == SizeOf(p.size)
      && c.order == p.order.GetOr(Desc) && c.sort == p.sort.GetOr(ExpenseDate)
  {
    NewCondition(ConditionArgs(p.start, p.end, p.min, p.max, p.cids, None, p.size, p.order, p.sort))
  }

  /** Whatever page the caller asks for, the condition asks for the first. */
  lemma PageNeverForwarded(p: ExpenseSearchParameter, page: Option<int>)
    ensures ToCondition(p) == ToCondition(p.(page := page))
  {
  }

  /** Every size the parameter's range annotation admits, 10 to 100, ends up
      as an effective size of 10. */
  lemma AdmittedSizesBecomeDefault(p: ExpenseSearchParameter)
    requires p.size.Some? && 10 <= p.size.value <= 100
    requires ToCondition(p).Success?
    ensures ToCondition(p).value.size == DefaultPageSize
  {
  }

  /** Requested sizes above the default collapse to it; the test's 10000 does. */
  lemma SizeExamples()
    ensures SizeOf(Some(10000)) == 10 && SizeOf(Some(10)) == 10 && SizeOf(None) == 10
    ensures PageOf(Some(-1)) == 0 && PageOf(None) == 0 && PageOf(Some(1)) == 1
  {
  }

  /** The request validator and the condition's date conversion check the
      same pattern: a present text is valid exactly when converting it does
      not fail with IllegalArgument. */
  lemma ValidatorAgreesWithConversion(date: string)
    ensures IsValid(Some(date)) <==> ToLocalDateTime(date) != Failure(IllegalArgument)
  {
  }
}
