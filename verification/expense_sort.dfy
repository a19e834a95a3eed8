/** The ORDER BY of the expense search: one descending key chosen by the
    sort criterion. The sort is a stable insertion sort, so rows with equal
    keys keep their table order; the database itself promises no order
    between ties. */
module ExpenseSort {
  import opened Wrappers
  import opened Time
  import opened SearchEnums
  import opened ExpenseDomain

  /** Audit timestamps compare with an absent value lowest, as SQL NULLs do. */
  predicate CreatedLe(a: Option<DateTime>, b: Option<DateTime>) {
    a.None? || (b.Some? && Le(a.value, b.value))
  }

  /** `a` may be listed before `b`: its key is not smaller. The sort
      direction of the request is never consulted. */
  predicate Precedes(sort: SearchSort, a: Expense, b: Expense) {
    match sort
    case Amount => a.money >= b.money
    case Created => CreatedLe(b.createdAt, a.createdAt)
    case ExpenseDate => Le(b.expenseAt, a.expenseAt)
  }

  lemma PrecedesTotal(sort: SearchSort, a: Expense, b: Expense)
    ensures Precedes(sort, a, b) || Precedes(sort, b, a)
  {
    match sort
    case Amount =>
    case Created =>
      if a.createdAt.Some? && b.createdAt.Some? {
        LeTotal(a.createdAt.value, b.createdAt.value);
      }
    case ExpenseDate =>
      LeTotal(a.expenseAt, b.expenseAt);
  }

  lemma PrecedesTransitive(sort: SearchSort, a: Expense, b: Expense, c: Expense)
    requires Precedes(sort, a, b) && Precedes(sort, b, c)
    ensures Precedes(sort, a, c)
  {
    match sort
    case Amount =>
    case Created =>
      if c.createdAt.Some? {
        LeTransitive(c.createdAt.value, b.createdAt.value, a.createdAt.value);
      }
    case ExpenseDate =>
      LeTransitive(c.expenseAt, b.expenseAt, a.expenseAt);
  }

  predicate SortedBy(sort: SearchSort, s: seq<Expense>) {
    forall i, j :: 0 <= i < j < |s| ==> Precedes(sort, s[i], s[j])
  }

  lemma {:induction false} InsertFront(sort: SearchSort, x: Expense, s: seq<Expense>)
    requires SortedBy(sort, s) && |s| > 0 && Precedes(sort, x, s[0])
    ensures SortedBy(sort, [x] + s)
  {
    var r := [x] + s;
    forall i, j | 0 <= i < j < |r|
      ensures Precedes(sort, r[i], r[j])
    {
      if i == 0 && j > 1 {
        PrecedesTransitive(sort, x, s[0], s[j - 1]);
      }
    }
  }

  lemma {:induction false} InsertBehind(sort: SearchSort, x: Expense, s: seq<Expense>, rest: seq<Expense>)
    requires SortedBy(sort, s) && |s| > 0 && !Precedes(sort, x, s[0])
    requires SortedBy(sort, rest) && multiset(rest) == multiset(s[1..]) + multiset{x}
    ensures SortedBy(sort, [s[0]] + rest)
  {
    PrecedesTotal(sort, x, s[0]);
    var r := [s[0]] + rest;
    forall i, j | 0 <= i < j < |r|
      ensures Precedes(sort, r[i], r[j])
    {
      if i == 0 {
        var y := rest[j - 1];
        assert y in multiset(rest);
        if y != x {
          assert y in multiset(s[1..]);
          var k :| 0 <= k < |s[1..]| && s[1..][k] == y;
          assert s[k + 1] == y;
        }
      }
    }
  }

  /** Places `x` before the first element it may precede. */
  function Insert(sort: SearchSort, x: Expense, s: seq<Expense>): (r: seq<Expense>)
    requires SortedBy(sort, s)
    ensures multiset(r) == multiset(s) + multiset{x}
    ensures SortedBy(sort, r)
  {
    if |s| == 0 then [x]
    else if Precedes(sort, x, s[0]) then
      InsertFront(sort, x, s);
      [x] + s
    else
      var rest := Insert(sort, x, s[1..]);
      assert s == [s[0]] + s[1..];
      InsertBehind(sort, x, s, rest);
      [s[0]] + rest
  }

  /** The rows in the order the query returns them. */
  function SortBy(sort: SearchSort, s: seq<Expense>): (r: seq<Expense>)
    ensures multiset(r) == multiset(s)
    ensures |r| == |s|
    ensures SortedBy(sort, r)
  {
    if |s| == 0 then []
    else
      assert s == [s[0]] + s[1..];
      Insert(sort, s[0], SortBy(sort, s[1..]))
  }

  /** The first row of a sorted result has the greatest key of all rows. */
  lemma FirstIsGreatest(sort: SearchSort, s: seq<Expense>, e: Expense)
    requires e in s
    ensures Precedes(sort, SortBy(sort, s)[0], e)
  {
    var r := SortBy(sort, s);
    assert e in multiset(r);
    var k :| 0 <= k < |r| && r[k] == e;
    if k == 0 {
      PrecedesTotal(sort, e, e);
    }
  }
}
