# jaringobi budgets and expense search, in Dafny

A model of the core of jaringobi, a personal-finance service. A user keeps a
monthly budget split into per-category amounts. Their expenses are searched
with date, amount and category filters and paged. Each day they get a report
that sets today's spending per category against a thirtieth of that
category's monthly budget: the "danger percent".

The model is a set of pure functions over immutable data. It has these modules:

- `Wrappers` and `Errors`: the `Option` and `Result` types. Every exception
  the code throws becomes one `Error` constructor.
- `Money`: non-negative amounts. `JavaInt`: Java's truncating `int` division,
  which throws on a zero divisor.
- `Time`: dates and date-times with their natural order, and the start and
  end of a day.
- `BudgetDomain`: the `Budget` aggregate. It covers the constructor, the
  set-once owner and category-list setters, adding a category and modifying
  a category.
- `BudgetDto`: the create request and the fetch response of a budget.
- `BudgetService`: create, delete, fetch, add-category and modify-category.
  They run over a store of budgets keyed by id, with the not-found, then
  permission, then domain-rule error order.
- `SearchEnums`: the sort key and sort direction, looked up from text
  ignoring case.
- `DateFormat`: the `yyyy-MM-dd` pattern, checked character by character,
  and the date `LocalDate.parse` resolves it to.
- `ExpenseDomain`: the `Expense` entity and its constructor.
- `SearchCondition`: raw search parameters normalised into a search
  condition, plus the page request.
- `ExpenseSort`: the `ORDER BY` of the search.
- `ExpenseQuery`: the where-clause builders, the paged search, the
  per-category `GROUP BY` sums, today's per-category totals and this month's
  category budgets.
- `TodayReport`: the danger percent per category and overall.
- `ExpenseSearchService`: the search response and the today report,
  assembled.

Database tables are sequences of rows. A `GROUP BY` yields its groups in the
order their key first appears. An `ORDER BY` is a stable insertion sort, so
rows with equal keys keep their table order. The database promises no order
between ties; the model picks table order.

Where the search parameter's declared limits and the code's behaviour
disagree, the model follows the behaviour:

- The search parameter object declares that its page must be at least 1.
  However, `toCondition` never passes the page on, so every search reads the
  first page (`SearchCondition.PageNeverForwarded`).
- The parameter's size range of 10 to 100 collapses to the default of 10,
  because `setSize` ignores any size above 10
  (`SearchCondition.AdmittedSizesBecomeDefault`).
- The code has no operation that removes a category from a budget, so none
  is modelled.
- The requested sort direction is stored but never read by the query
  (`ExpenseQuery.OrderNeverRead`). Every sort is descending.
- A category budget below 30, or a month's total below 30, leaves a daily
  allowance of 0. The danger percent then divides by zero. This is modelled
  as the `DivideByZero` error (`TodayReport.SmallBudgetDividesByZero`).

## Model

| member | source | states |
|---|---|---|
| JavaInt.Div | src/main/java/jaringobi/controller/query/expense/response/TodayExpensePerCategory.java:43-48 | Java int division: it fails exactly on a zero divisor. Otherwise the magnitude is the floor of the magnitudes' quotient and the sign follows the operands' signs (truncation toward zero). |
| Time.WithinDay | src/main/java/jaringobi/domain/expense/ExpenseQueryRepositoryImpl.java:64-66 | Every instant of a day lies between that day's start and its last nanosecond, both inclusive. |
| BudgetDomain.NewBudget | src/main/java/jaringobi/domain/budget/Budget.java:48-67 | A missing or empty month is refused with InvalidBudget, and every other month is accepted. The given owner and category list are installed, an absent list becomes empty, and no timestamps are set. |
| BudgetDomain.SetCategoryBudgets | src/main/java/jaringobi/domain/budget/Budget.java:69-76 | Fails exactly when the budget already has categories. Otherwise it installs the given list and changes nothing else. |
| BudgetDomain.SetUser | src/main/java/jaringobi/domain/budget/Budget.java:78-86 | Fails exactly when an owner is already set. Otherwise the owner becomes the given one and nothing else changes. |
| BudgetDomain.IsOwner | src/main/java/jaringobi/domain/budget/Budget.java:100-102 | The caller owns the budget exactly when the owner's id equals the caller's. It requires an owner (see `BudgetService.OwnedIfPresent` under "## Left out"). |
| BudgetDomain.FindBudgetCategory | src/main/java/jaringobi/domain/budget/Budget.java:125-130 | Finds the first entry with the category id, and finds none exactly when no entry has it. |
| BudgetDomain.AddBudgetCategory | src/main/java/jaringobi/domain/budget/Budget.java:104-115 | Refused with BudgetCategoryDuplicated exactly when the category id is present. Otherwise the entry is appended, earlier entries are kept and nothing else changes. |
| BudgetDomain.ModifyBudgetCategory | src/main/java/jaringobi/domain/budget/Budget.java:117-130 | Refused with BudgetCategoryNotFound exactly when no entry has the category. Otherwise only the first matching entry gets the new amount; the length and all category ids are kept. |
| BudgetDomain.OwnerSetOnlyOnce | src/main/java/jaringobi/domain/budget/Budget.java:78-86 | After an owner is installed, any further setUser fails. |
| BudgetDomain.CategoriesSetOnlyOnce | src/main/java/jaringobi/domain/budget/Budget.java:69-76 | After a non-empty list is installed, any further setCategoryBudgets fails. |
| BudgetDomain.AddKeepsCategoriesDistinct | src/main/java/jaringobi/domain/budget/Budget.java:104-115 | Adding a category to a budget whose category ids are distinct keeps them distinct. |
| BudgetDomain.ModifyKeepsCategoriesDistinct | src/main/java/jaringobi/domain/budget/Budget.java:117-130 | Modifying keeps the category ids distinct. |
| BudgetDto.ToBudget | src/main/java/jaringobi/dto/request/AddBudgetRequest.java:30-34 | The request's month becomes a bare budget: no owner and no categories. It fails exactly on the empty month. |
| BudgetDto.ToCategoryBudgets | src/main/java/jaringobi/dto/request/AddBudgetRequest.java:36-44 | Maps one entry to one category budget in order, with the same category and amount. It fails with InvalidAmount exactly when some amount is negative. |
| BudgetDto.Of | src/main/java/jaringobi/dto/response/BudgetResponse.java:17-27 | One response entry per category budget in order, with the same category and amount. The month and both timestamps are copied. |
| BudgetDto.DistinctRequestGivesDistinctBudgets | src/main/java/jaringobi/dto/request/AddBudgetRequest.java:18-19 | A request without repeated category ids yields category budgets with distinct ids. |
| BudgetService.FindBudget | src/main/java/jaringobi/service/BudgetService.java:73-76 | Returns the stored budget, or BudgetNotFound exactly when the id is absent. |
| BudgetService.FindUser | src/main/java/jaringobi/service/BudgetService.java:79-82 | Succeeds exactly for a known user. Otherwise it fails with UserNotFound. |
| BudgetService.FindBudgetOwnerOf | src/main/java/jaringobi/service/BudgetService.java:65-71 | An absent id gives BudgetNotFound, then another owner gives NoPermission. It succeeds exactly for the caller's own budget. |
| BudgetService.AddBudget | src/main/java/jaringobi/service/BudgetService.java:29-38 | Errors come in this order: UserNotFound for an unknown user, then InvalidBudget for an empty month, then InvalidAmount for a negative amount. It succeeds exactly for a known user, a non-empty month and non-negative amounts. It then stores one new budget owned by the caller, with the requested month and categories in order, and leaves every other budget unchanged. |
| BudgetService.DeleteBudget | src/main/java/jaringobi/service/BudgetService.java:40-44 | Not-found before no-permission. It succeeds exactly for the caller's own budget, removes only that budget and leaves the others unchanged. |
| BudgetService.FindOneBudget | src/main/java/jaringobi/service/BudgetService.java:46-50 | Not-found before no-permission. It succeeds exactly for the caller's own budget and returns its response. |
| BudgetService.AddBudgetCategory | src/main/java/jaringobi/service/BudgetService.java:52-56 | Errors come in this order: not-found, permission, negative amount, duplicate category. Success appends the entry to that budget only. |
| BudgetService.ModifyBudgetCategory | src/main/java/jaringobi/service/BudgetService.java:58-63 | Errors come in this order: not-found, permission, negative amount, missing category; the category comes from the path. Success changes only that budget, as the domain modify does. |
| BudgetService.OperationsKeepStoreOwned | src/main/java/jaringobi/service/BudgetService.java:29-63 | Every successful operation keeps every stored budget owned. That makes the ownership check always safe to evaluate. |
| BudgetService.CreateThenFetch | src/main/java/jaringobi/service/BudgetService.java:29-50 | A created budget fetched back by its owner shows the requested month, the creation time and the requested (category, amount) pairs in order. |
| BudgetService.AddCategoryKeepsDistinct | src/main/java/jaringobi/service/BudgetService.java:52-56 | Adding a category through the service keeps the budget's category ids distinct. |
| SearchEnums.SortOf | src/main/java/jaringobi/dto/SearchSort.java:20-29 | Absent text gives EXPENSE_DATE. Text equal to a constant's value ignoring case gives that constant. Any other text gives EXPENSE_DATE. |
| SearchEnums.OrderOf | src/main/java/jaringobi/dto/SearchOrder.java:12-20 | Absent text gives DESC. Text equal to a constant's name ignoring case gives that constant. Any other text gives DESC. |
| SearchEnums.SortRoundTrip | src/main/java/jaringobi/dto/SearchSort.java:10-12 | Every sort constant is found again from its own value text. |
| SearchEnums.OrderRoundTrip | src/main/java/jaringobi/dto/SearchOrder.java:7-8 | Every order constant is found again from its own name. |
| SearchEnums.SortOfIgnoresCase | src/main/java/jaringobi/dto/SearchSort.java:25-28 | Texts that differ only in letter case select the same sort. |
| SearchEnums.OrderOfIgnoresCase | src/main/java/jaringobi/dto/SearchOrder.java:16-19 | Texts that differ only in letter case select the same order. |
| SearchEnums.CaseExamples | src/main/java/jaringobi/dto/SearchSort.java:20-29 | "AMOUNT", "Created", "asc" and "dEsC" are recognised; "price" and "up" fall back to the defaults. |
| DateFormat.FormatDate | src/main/java/jaringobi/dto/request/ExpenseSearchCondition.java:23 | The inverse of parsing, written for the round-trip lemmas; the code only parses with this pattern and never formats. Every date in the pattern's range is written as text the date pattern accepts. |
| DateFormat.MonthLength | src/main/java/jaringobi/dto/request/ExpenseSearchCondition.java:110-111 | A month has 28 to 31 days; February has 29 exactly in a Gregorian leap year. |
| DateFormat.ParseDate | src/main/java/jaringobi/dto/request/ExpenseSearchCondition.java:110-111 | For text the pattern accepts: fails with DateTimeParse exactly when the year is written 0000. Otherwise the result is a real calendar date with the written year and month. Its day is the written day, or the month's last day when the written day is past it. |
| DateFormat.ParseFormatRoundTrip | src/main/java/jaringobi/dto/request/ExpenseSearchCondition.java:110-111 | Writing a calendar date and parsing it back gives the same date. |
| DateFormat.CalendarTextReadsBack | src/main/java/jaringobi/dto/request/ExpenseSearchCondition.java:110-111 | Accepted text with a non-zero year and a day that exists in its month parses to a date written back as exactly that text. |
| DateFormat.ResolveExamples | src/main/java/jaringobi/dto/request/ExpenseSearchCondition.java:110-111 | February 31 becomes the 28th, or the 29th in a leap year (1900 is not one, 2000 is). April 31 becomes the 30th, January 31 is kept, and year 0000 fails. |
| DateFormat.IsValid | src/main/java/jaringobi/dto/request/validator/DateFormatValidator.java:13-15 | A value is valid exactly when it is present and matches the `yyyy-MM-dd` pattern, the same pattern `ToLocalDateTime` checks. |
| SearchCondition.ValidatorAgreesWithConversion | src/main/java/jaringobi/dto/request/validator/DateFormatValidator.java:13-15 | A present text passes the validator exactly when the condition's date conversion does not reject it with IllegalArgument. |
| DateFormat.PatternExamples | src/main/java/jaringobi/dto/request/validator/DateFormatValidator.java:10-15 | The pattern accepts February 31. It rejects month 00 or 13, day 00 or 32, and a one-digit month. Null is invalid. |
| ExpenseDomain.NewExpense | src/main/java/jaringobi/domain/expense/Expense.java:64-95 | A missing amount, category or time gives the null-argument error before the null-user check. It succeeds exactly when all four are present. Fields are stored as given, and the exclude flag defaults to false. |
| SearchCondition.CategoryIdsOf | src/main/java/jaringobi/controller/search/CategoryIds.java:12-26 | A missing list becomes empty, and a given list is kept. |
| SearchCondition.ToLocalDateTime | src/main/java/jaringobi/dto/request/ExpenseSearchCondition.java:99-113 | Text not matching the pattern fails with IllegalArgument. Matching text fails with DateTimeParse exactly when its year is 0000. Otherwise the result is midnight of the parsed calendar date. |
| SearchCondition.OptionalMoney | src/main/java/jaringobi/dto/request/ExpenseSearchCondition.java:46-52 | An absent amount stays absent. A present one is kept, or refused with InvalidAmount when negative. |
| SearchCondition.PageOf | src/main/java/jaringobi/dto/request/ExpenseSearchCondition.java:92-97 | A negative or absent page gives 0; any other page is kept. |
| SearchCondition.SizeOf | src/main/java/jaringobi/dto/request/ExpenseSearchCondition.java:85-90 | A size above 10, or none, gives 10. Any other size is kept, even one below 1. |
| SearchCondition.NewCondition | src/main/java/jaringobi/dto/request/ExpenseSearchCondition.java:39-75 | Checks run in this order: a missing date, then the start's conversion error, then the end's, then a negative amount. On success the dates are the converted ones and every other field is normalised as the setters say. |
| SearchCondition.ToPageable | src/main/java/jaringobi/dto/request/ExpenseSearchCondition.java:115-117 | PageRequest.of refuses a negative page or a size below 1. Otherwise it keeps both. |
| SearchCondition.ToCondition | src/main/java/jaringobi/controller/search/ExpenseSearchParameter.java:51-62 | Both dates are required and must convert, and amounts must not be negative. The dates become midnight of their parsed calendar dates. The amounts, category ids, size, order and sort are forwarded. The page is always 0. |
| SearchCondition.PageNeverForwarded | src/main/java/jaringobi/controller/search/ExpenseSearchParameter.java:51-62 | The requested page never changes the resulting condition. |
| SearchCondition.AdmittedSizesBecomeDefault | src/main/java/jaringobi/controller/search/ExpenseSearchParameter.java:44-45 | Every size the parameter's range admits, 10 to 100, becomes 10. |
| SearchCondition.SizeExamples | src/test/java/jaringobi/dto/request/ExpenseSearchConditionTest.java:98-115 | A requested size of 10000 becomes 10, and a missing size gives 10. A page of -1 or none gives 0. |
| ExpenseSort.PrecedesTotal | src/main/java/jaringobi/domain/expense/ExpenseQueryRepositoryImpl.java:155-163 | Any two expenses are comparable under each sort key. |
| ExpenseSort.PrecedesTransitive | src/main/java/jaringobi/domain/expense/ExpenseQueryRepositoryImpl.java:155-163 | The order under each sort key is transitive. |
| ExpenseSort.SortBy | src/main/java/jaringobi/domain/expense/ExpenseQueryRepositoryImpl.java:155-163 | The result is a permutation of the rows, in descending order of the chosen key: amount, creation time, or expense time. |
| ExpenseSort.FirstIsGreatest | src/main/java/jaringobi/domain/expense/ExpenseQueryRepositoryImpl.java:155-163 | The first sorted row has a key no smaller than any row's. |
| ExpenseQuery.BetweenAmounts | src/main/java/jaringobi/domain/expense/ExpenseQueryRepositoryImpl.java:142-153 | There is no clause exactly when neither bound is given. Otherwise an amount passes exactly when it lies within each given bound, inclusive. |
| ExpenseQuery.InCategories | src/main/java/jaringobi/domain/expense/ExpenseQueryRepositoryImpl.java:135-140 | A missing or empty list gives no clause. Otherwise a category passes exactly when it is in the list. |
| ExpenseQuery.BetweenDate | src/main/java/jaringobi/domain/expense/ExpenseQueryRepositoryImpl.java:119-133 | With both bounds the range is inclusive. One bound is strict on its side. With no bound, a time passes exactly when it is strictly after one month ago. |
| ExpenseQuery.ClockReadOnlyWithoutBounds | src/main/java/jaringobi/domain/expense/ExpenseQueryRepositoryImpl.java:119-133 | The clause never depends on the clock when either bound is given. |
| ExpenseQuery.MatchesMeaning | src/main/java/jaringobi/domain/expense/ExpenseQueryRepositoryImpl.java:41-46 | A row is admitted exactly when it is the caller's, within the amount bounds, in the categories (or no categories were given) and between start and end inclusive. |
| ExpenseQuery.Filtered | src/main/java/jaringobi/domain/expense/ExpenseQueryRepositoryImpl.java:41-46 | Keeps every admitted row as often as the table holds it, and no other row. |
| ExpenseQuery.GroupSums | src/main/java/jaringobi/domain/expense/ExpenseQueryRepositoryImpl.java:103-117 | One group per category present in the rows, and no category twice. |
| ExpenseQuery.GroupSumsAreCategoryTotals | src/main/java/jaringobi/domain/expense/ExpenseQueryRepositoryImpl.java:103-117 | Each group's sum is the total of exactly its category's rows. |
| ExpenseQuery.GroupSumsTotal | src/main/java/jaringobi/domain/expense/ExpenseQueryRepositoryImpl.java:103-117 | The group sums add up to the total of all grouped rows. |
| ExpenseQuery.TotalSumOfCategoriesExpense | src/main/java/jaringobi/domain/expense/ExpenseQueryRepositoryImpl.java:103-117 | Over the admitted rows: distinct categories, exactly the admitted rows' categories, each with its own total, adding up to the admitted total. |
| ExpenseQuery.Slice | src/main/java/jaringobi/domain/expense/ExpenseQueryRepositoryImpl.java:47-48 | LIMIT and OFFSET: at most `size` rows, taken in order from the offset on, and none past the end. |
| ExpenseQuery.SearchByCondition | src/main/java/jaringobi/domain/expense/ExpenseQueryRepositoryImpl.java:38-60 | Fails exactly on an invalid page request. Otherwise the total counts every admitted row, and the content is the requested window of the admitted rows in sorted order. |
| ExpenseQuery.PageRowsAdmitted | src/main/java/jaringobi/domain/expense/ExpenseQueryRepositoryImpl.java:41-50 | Every row on a page is one that the where-clauses admit. |
| ExpenseQuery.LastPageMeansNothingFollows | src/main/java/jaringobi/domain/expense/ExpenseQueryRepositoryImpl.java:59 | A page is the last exactly when its offset plus its row count reaches the total. |
| ExpenseQuery.OrderNeverRead | src/main/java/jaringobi/domain/expense/ExpenseQueryRepositoryImpl.java:155-163 | Changing the requested sort direction never changes the search result. |
| ExpenseQuery.TodayExpenses | src/main/java/jaringobi/domain/expense/ExpenseQueryRepositoryImpl.java:74-76 | Keeps exactly the caller's rows whose time lies within today, both ends inclusive. |
| ExpenseQuery.PerCategoryRows | src/main/java/jaringobi/domain/expense/ExpenseQueryRepositoryImpl.java:68-71 | One budget-less row per group, with the group's category and sum, and the same overall total. |
| ExpenseQuery.TodayTotalExpense | src/main/java/jaringobi/domain/expense/ExpenseQueryRepositoryImpl.java:62-79 | One row per category the caller spent in today, no category twice. Each row's paid amount is that category's total for today, with no budget information. The rows add up to today's total. |
| ExpenseQuery.GetBudgetsPerCategory | src/main/java/jaringobi/domain/expense/ExpenseQueryRepositoryImpl.java:81-96 | Returns exactly the category budgets of the caller's budgets for today's month. |
| ExpenseQuery.GetBudgetsOfOne | src/main/java/jaringobi/domain/expense/ExpenseQueryRepositoryImpl.java:81-96 | One budget contributes its whole category list in order when it is the caller's budget for this month, and nothing otherwise. |
| ExpenseQuery.GetBudgetsAppend | src/main/java/jaringobi/domain/expense/ExpenseQueryRepositoryImpl.java:81-96 | The join over two runs of budgets is the concatenation of the two joins, so repeats and table order are kept. |
| ExpenseQuery.NewExpenseCountsToday | src/main/java/jaringobi/domain/expense/Expense.java:64-95 | An expense built for the caller at any time of today is counted among today's expenses, and adding it raises today's total by its amount. |
| TodayReport.DangerPercent | src/main/java/jaringobi/controller/query/expense/response/TodayExpensePerCategory.java:43-48 | Fails exactly when the daily allowance, the monthly amount / 30, is 0. For a non-negative spend the result is a non-negative multiple of 100: it is 100 times the number of whole daily allowances spent. |
| TodayReport.From | src/main/java/jaringobi/controller/query/expense/response/TodayExpensePerCategory.java:33-51 | A row whose category has no budget is returned unchanged. Otherwise the row gets the first matching budget's amount, its danger percent and the has-budget flag; it fails exactly when that amount is below 30. |
| TodayReport.ToWithBudgetSum | src/main/java/jaringobi/controller/query/expense/response/TodayExpensePerCategory.java:53-62 | Agrees with `from` on every input. The category and paid amount are kept, and the has-budget flag is set exactly when a budget matches. |
| TodayReport.EnrichAll | src/main/java/jaringobi/service/search/ExpenseSearchService.java:62-64 | Succeeds exactly when every row's enrichment does, and then enriches each row in order. |
| TodayReport.ResponseFrom | src/main/java/jaringobi/controller/query/expense/response/TodayExpenseResponse.java:30-52 | Fails exactly when the month's budget total is below 30. Otherwise it returns the rows, their paid total, the budget total, the has-budget flag and the overall danger percent. |
| TodayReport.Report | src/main/java/jaringobi/service/search/ExpenseSearchService.java:52-64 | With no budget the rows pass through: has-budget is false, the budget amount is 0 and there is no danger percent. Otherwise it succeeds exactly when the budget total is at least 30 and every row enriches. Every row is then enriched, the total is still the paid total, and the overall danger percent is that of the paid total against the budget total. |
| TodayReport.EnrichKeepsPaidTotal | src/main/java/jaringobi/controller/query/expense/response/TodayExpenseResponse.java:43-45 | Enrichment keeps every paid amount, so it keeps their total. |
| TodayReport.SmallBudgetDividesByZero | src/main/java/jaringobi/controller/query/expense/response/TodayExpensePerCategory.java:43-48 | A matching category budget below 30 makes the per-category danger percent divide by zero. |
| ExpenseSearchService.ListOf | src/main/java/jaringobi/controller/search/ExpenseResponse.java:28-42 | One response per expense in order, carrying its id, memo, amount, time and category. |
| ExpenseSearchService.SearchResponseFrom | src/main/java/jaringobi/controller/search/ExpenseSearchResponse.java:22-39 | The sums and end flag pass through, and the total expenditure is the sum of the group sums. |
| ExpenseSearchService.SearchExpense | src/main/java/jaringobi/service/search/ExpenseSearchService.java:25-31 | Fails exactly on an invalid page request. The listing is the requested window, in order, of the admitted expenses sorted descending by the chosen key. The sums are one per admitted category, with distinct keys, each the total of that category's admitted expenses. The total expenditure is the sum of the sums, which is the total of every admitted expense, not just the page. The end flag holds exactly when no admitted row follows the page. |
| ExpenseSearchService.SearchTodayExpense | src/main/java/jaringobi/service/search/ExpenseSearchService.java:47-65 | With no category budget this month: no budget and no danger percent. In every successful case the total is all of today's spending. With budgets it succeeds exactly when their total is at least 30 and every row enriches. Then has-budget holds, each row is enriched from the month's budgets, the budget amount is their total, and the overall danger percent is today's total against it. |
| ExpenseSearchService.NoBudgetExample | src/test/java/jaringobi/acceptance/expense/query/ExpenseTodayAPITest.java:21-58 | One expense of 10000 and no budget give one budget-less row, a total of 10000, no budget and a budget amount of 0. |
| ExpenseSearchService.PartialOverlapExample | src/test/java/jaringobi/acceptance/expense/query/ExpenseTodayAPITest.java:204-276 | A budget of 300000 for category 3, with 10000 spent in category 3 and 50000 in category 4, gives row 3 at 100 percent and row 4 without a budget. The total is 60000, with 600 percent overall. |

## Left out

- HTTP controllers, request converters, Bean Validation annotations and the
  mapping of errors to HTTP statuses. Annotations such as `@Positive` and
  `@NotDuplicated` are not applied; the model takes what reaches the service.
- JPA persistence: generated ids, lazy loading, cascades and the audit
  timestamps' refresh on update. The store assigns a new budget's key, which
  is a parameter of `BudgetService.AddBudget`. Its creation time is also a
  parameter.
- Identity and audit fields of `CategoryBudget` and the ids in its response.
  `Money.java`, `CategoryBudget.java` and `BudgetYearMonth.java` are not part
  of this model. Money is modelled as a non-negative amount: `MoneyOf`
  rejects a negative with InvalidAmount. A budget request carries its month already parsed, so
  month text parsing is left out.
- Clock reads: "today" and "one month ago" are parameters.
- Date parsing covers only what the SMART resolver does to text the pattern
  already accepts: year 0000 is refused and a day past the month's end is
  clamped. Other formatter behaviour, such as the exception's message and
  parse position, is not modelled.
- SearchCondition.ToLocalDateTime: the date writes back as the given text
  only when its day exists in its month (`DateFormat.CalendarTextReadsBack`),
  because `LocalDate.parse` clamps a day past the month's end.
- Java `int`/`long` overflow in sums and in the danger percent: integers
  are unbounded.
- Non-ASCII case folding: `SearchEnums.FoldCase` folds ASCII letters and the
  long s, which is all that matters against the constant names.
- ExpenseQuery.SearchByCondition: rows with equal sort keys are listed in
  table order, because the sort is a stable insertion sort. The database
  promises no order between ties, so a database that returns ties in
  another order, and hence a different page, is outside the model.
- The order of `GROUP BY` groups: the model takes first-appearance order.
  The general contracts state the groups as a set of distinct keys, but the
  worked examples of the today report fix the rows in that order.
- ExpenseSearchService.SearchTodayExpense: the category budgets are read from
  a sequence of budgets rather than the id-keyed store, and the order of the
  join is table order.
- BudgetService.OwnedIfPresent: the operations on a stored budget require
  it to have an owner. A stored budget without one would make `isOwner`
  throw a NullPointerException, which is not modelled. Every budget
  `AddBudget` stores has an owner, and `BudgetService.OperationsKeepStoreOwned`
  shows that no operation removes one.
- Fetching a budget does not change the store. This holds by construction,
  because every operation is a pure function.
