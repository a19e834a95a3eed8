/** LocalDate and LocalDateTime as plain field records with their natural
    (lexicographic) order. No calendar arithmetic is modelled. */
module Time {

  datatype Date = Date(year: int, month: int, day: int)

  /** A local date-time: a date and the nanoseconds since that day's midnight. */
  datatype DateTime = DateTime(date: Date, nanoOfDay: int)

  /** The last nanosecond of a day, LocalTime.MAX. */
  const LastNanoOfDay: int := 86_399_999_999_999

  function StartOfDay(d: Date): DateTime {
    DateTime(d, 0)
  }

  function EndOfDay(d: Date): DateTime {
    DateTime(d, LastNanoOfDay)
  }

  predicate DateLe(a: Date, b: Date) {
    || a.year < b.year
    || (a.year == b.year && a.month < b.month)
    || (a.year == b.year && a.month == b.month && a.day <= b.day)
  }

  /** `a` is not after `b`. */
  predicate Le(a: DateTime, b: DateTime) {
    if a.date == b.date then a.nanoOfDay <= b.nanoOfDay
    else DateLe(a.date, b.date)
  }

  /** `a` is strictly before `b`. */
  predicate Lt(a: DateTime, b: DateTime) {
    Le(a, b) && a != b
  }

  lemma LeTotal(a: DateTime, b: DateTime)
    ensures Le(a, b) || Le(b, a)
  {
  }

  lemma LeTransitive(a: DateTime, b: DateTime, c: DateTime)
    requires Le(a, b) && Le(b, c)
    ensures Le(a, c)
  {
  }

  lemma LeAntisymmetric(a: DateTime, b: DateTime)
    requires Le(a, b) && Le(b, a)
    ensures a == b
  {
  }

  /** Every instant of a day lies between its start and its end. */
  lemma WithinDay(t: DateTime)
    requires 0 <= t.nanoOfDay <= LastNanoOfDay
    ensures Le(StartOfDay(t.date), t) && Le(t, EndOfDay(t.date))
  {
  }
}
