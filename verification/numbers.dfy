/** Amounts and Java's integer division. */
module Money {
  import opened Wrappers
  import opened Errors

  /** A validated amount: never negative. */
  type Money = nat

  /** `new Money(amount)`: negative amounts are refused. */
  function MoneyOf(amount: int): (r: Result<Money, Error>)
    ensures r.Success? <==> amount >= 0
    ensures r.Success? ==> r.value == amount
    ensures r.Failure? ==> r.error == InvalidAmount
  {
    if amount < 0 then Failure(InvalidAmount) else Success(amount)
  }
}

module JavaInt {
  import opened Wrappers
  import opened Errors

  /** Java's `a / b` on int: the quotient truncated toward zero, and an
      ArithmeticException when `b` is zero. Dafny's `/` is Euclidean, so the
      negative cases are written out. */
  function Div(a: int, b: int): (r: Result<int, Error>)
    ensures r.Failure? <==> b == 0
    ensures r.Failure? ==> r.error == DivideByZero
    ensures r.Success? ==> Abs(r.value) == Abs(a) / Abs(b)
    ensures r.Success? && r.value != 0 ==> (r.value > 0 <==> (a > 0) == (b > 0))
  {
    if b == 0 then Failure(DivideByZero)
    else
      var q := Abs(a) / Abs(b);
      QuotientOfMagnitudes(Abs(a), Abs(b));
      Success(if (a >= 0) == (b > 0) then q else -q)
  }

  lemma QuotientOfMagnitudes(n: nat, d: nat)
    requires d > 0
    ensures n / d >= 0
    ensures n / d != 0 ==> n > 0
  {
  }

  function Abs(x: int): nat {
    if x < 0 then -x else x
  }

  /** For non-negative operands truncation and Euclidean division agree. */
  lemma DivNonNegative(a: nat, b: nat)
    requires b > 0
    ensures Div(a, b) == Success(a / b)
  {
  }

  lemma DivNonNegativeWhenDefined(a: int, b: int)
    requires a >= 0 && b > 0
    ensures Div(a, b) == Success(a / b)
    ensures a / b * b <= a < (a / b + 1) * b
  {
    QuotientOfMagnitudes(a, b);
  }
}
