/** Option and Result, the failure-compatible datatypes every other module
    uses in place of Java's null and thrown exceptions. */
module Wrappers {

  datatype Option<+T> = None | Some(value: T) {
    function GetOr(default: T): T {
      match this
      case Some(v) => v
      case None => default
    }
  }

  datatype Result<+R, +E> = Success(value: R) | Failure(error: E) {
    predicate IsFailure() {
      Failure?
    }

    function PropagateFailure<U>(): Result<U, E>
      requires Failure?
    {
      Failure(error)
    }

    function Extract(): R
      requires Success?
    {
      value
    }
  }
}

/** The exception classes the core throws, one constructor each. */
module Errors {

  datatype Error =
    | InvalidAmount               // Money built from a negative integer
    | InvalidBudget               // empty month, owner or categories set twice
    | BudgetNotFound
    | BudgetCategoryDuplicated
    | BudgetCategoryNotFound
    | UserNotFound
    | NoPermission
    | ExpenseSearchDateNotNull    // a search without start or end
    | IllegalArgument             // bad date text, or a page size below one
    | DateTimeParse               // LocalDate.parse refusing a matching text
    | ExpenseNullArgument
    | ExpenseNullUser
    | DivideByZero                // Java's ArithmeticException on int division
}
