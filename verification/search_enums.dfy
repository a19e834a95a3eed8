/** The sort key and sort direction of an expense search, each looked up
    case-insensitively from text with a default. */
module SearchEnums {
  import opened Wrappers

  datatype SearchSort = ExpenseDate | Created | Amount

  datatype SearchOrder = Asc | Desc

  /** The text each sort constant is known by. */
  function SortValue(s: SearchSort): string {
    match s
    case ExpenseDate => "expense_date"
    case Created => "created"
    case Amount => "amount"
  }

  /** The enum constant names. */
  function OrderName(o: SearchOrder): string {
    match o
    case Asc => "ASC"
    case Desc => "DESC"
  }

  /** Lower-cases ASCII letters. U+017F (long s) upper-cases to 'S' in Java,
      so String.equalsIgnoreCase matches it against 's'; it is the only
      non-ASCII character that matches a letter of the names above. */
  function FoldCase(c: char): char {
    if 'A' <= c <= 'Z' then (c as int + 32) as char
    else if c == 'ſ' then 's'
    else c
  }

  /** String.equalsIgnoreCase, exact whenever one side is one of the names above. */
  predicate EqualsIgnoreCase(a: string, b: string) {
    |a| == |b| && forall i :: 0 <= i < |a| ==> FoldCase(a[i]) == FoldCase(b[i])
  }

  /** `SearchSort.of`: an absent or unknown value gives ExpenseDate; it never fails. */
  function SortOf(value: Option<string>): (r: SearchSort)
    ensures value.None? ==> r == ExpenseDate
    ensures forall s :: value.Some? && EqualsIgnoreCase(SortValue(s), value.value) ==> r == s
    ensures (forall s :: !(value.Some? && EqualsIgnoreCase(SortValue(s), value.value))) ==> r == ExpenseDate
  {
    if value.None? then ExpenseDate
    else if EqualsIgnoreCase(SortValue(ExpenseDate), value.value) then ExpenseDate
    else if EqualsIgnoreCase(SortValue(Created), value.value) then Created
    else if EqualsIgnoreCase(SortValue(Amount), value.value) then Amount
    else ExpenseDate
  }

  /** `SearchOrder.of`: an absent or unknown value gives Desc; it never fails. */
  function OrderOf(value: Option<string>): (r: SearchOrder)
    ensures value.None? ==> r == Desc
    ensures forall o :: value.Some? && EqualsIgnoreCase(OrderName(o), value.value) ==> r == o
    ensures (forall o :: !(value.Some? && EqualsIgnoreCase(OrderName(o), value.value))) ==> r == Desc
  {
    if value.None? then Desc
    else if EqualsIgnoreCase(OrderName(Asc), value.value) then Asc
    else if EqualsIgnoreCase(OrderName(Desc), value.value) then Desc
    else Desc
  }

  lemma EqualsIgnoreCaseTransitive(a: string, b: string, c: string)
    requires EqualsIgnoreCase(a, b) && EqualsIgnoreCase(b, c)
    ensures EqualsIgnoreCase(a, c)
  {
  }

  /** Every constant is found again from its own text. */
  lemma {:induction false} SortRoundTrip(s: SearchSort)
    ensures SortOf(Some(SortValue(s))) == s
  {
    assert EqualsIgnoreCase(SortValue(s), SortValue(s));
  }

  lemma {:induction false} OrderRoundTrip(o: SearchOrder)
    ensures OrderOf(Some(OrderName(o))) == o
  {
    assert EqualsIgnoreCase(OrderName(o), OrderName(o));
  }

  /** Texts that differ only in letter case select the same constant. */
  lemma SortOfIgnoresCase(v: string, w: string)
    requires EqualsIgnoreCase(v, w)
    ensures SortOf(Some(v)) == SortOf(Some(w))
  {
    forall s | EqualsIgnoreCase(SortValue(s), v)
      ensures EqualsIgnoreCase(SortValue(s), w)
    {
      EqualsIgnoreCaseTransitive(SortValue(s), v, w);
    }
    forall s | EqualsIgnoreCase(SortValue(s), w)
      ensures EqualsIgnoreCase(SortValue(s), v)
    {
      EqualsIgnoreCaseTransitive(SortValue(s), w, v);
    }
  }

  lemma OrderOfIgnoresCase(v: string, w: string)
    requires EqualsIgnoreCase(v, w)
    ensures OrderOf(Some(v)) == OrderOf(Some(w))
  {
    forall o | EqualsIgnoreCase(OrderName(o), v)
      ensures EqualsIgnoreCase(OrderName(o), w)
    {
      EqualsIgnoreCaseTransitive(OrderName(o), v, w);
    }
    forall o | EqualsIgnoreCase(OrderName(o), w)
      ensures EqualsIgnoreCase(OrderName(o), v)
    {
      EqualsIgnoreCaseTransitive(OrderName(o), w, v);
    }
  }

  /** Upper-case and mixed-case spellings are recognised. */
  lemma CaseExamples()
    ensures SortOf(Some("AMOUNT")) == Amount
    ensures SortOf(Some("Created")) == Created
    ensures SortOf(Some("EXPENSE_DATE")) == ExpenseDate
    ensures SortOf(Some("price")) == ExpenseDate
    ensures OrderOf(Some("asc")) == Asc
    ensures OrderOf(Some("dEsC")) == Desc
    ensures OrderOf(Some("up")) == Desc
  {
    assert EqualsIgnoreCase(SortValue(Amount), "AMOUNT");
    assert EqualsIgnoreCase(SortValue(Created), "Created");
    assert EqualsIgnoreCase(OrderName(Asc), "asc");
    assert !EqualsIgnoreCase(SortValue(ExpenseDate), "AMOUNT");
    assert !EqualsIgnoreCase(SortValue(ExpenseDate), "Created");
    assert !EqualsIgnoreCase(SortValue(Created), "price");
  }
}
