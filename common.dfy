/** Shared vocabulary of the model: identifiers, nullable values, fields of
    partial-update requests, and the exceptions the services and repositories
    throw. */
module Common {

  /** Row, owner and product identifiers (UUID strings in the database). */
  type Id = string

  /** A nullable column or an optional value: None stands for SQL NULL,
      JavaScript null and (in create requests) an absent property. */
  datatype Option<+T> = None | Some(value: T) {
    /** `x || default` and `x ?? default` for values that are never falsy. */
    function GetOr(default: T): T {
      match this
      case Some(v) => v
      case None => default
    }
  }

  /** One property of an update request: Keep when it is undefined, Set when
      the request supplies it (possibly with null, for nullable columns). */
  datatype Patch<+T> = Keep | Set(value: T) {
    /** The assignment `if (data.f !== undefined) row.f = data.f`. */
    function Apply(current: T): T {
      match this
      case Set(v) => v
      case Keep => current
    }
  }

  /** The exceptions thrown, one constructor per distinct condition. The
      services throw NestJS HTTP exceptions; the repositories throw a plain
      Error when a row is missing. */
  datatype Error =
    // sales service (BadRequestException / NotFoundException)
    | EmptyItems
    | ProductNotFound(productId: Id)
    | InsufficientStock(productId: Id, available: real, requested: real)
    | TotalMismatch(declared: real, calculated: real)
    | SaleNotFound
    // products service (BadRequestException)
    | SalePriceBelowCost
    | NegativeStock
    // expenses service (BadRequestException)
    | NonPositiveAmount
    | MissingRecurrencePeriod
    // categories service (ConflictException)
    | DuplicateCategoryName
    // customers service (BadRequestException)
    | CustomerNameRequired
    | InvalidEmail
    // repositories (plain Error)
    | ProductMissing
    | SaleMissing
    | ExpenseMissing
    | SomeExpensesMissing
    | CategoryMissing
    | CustomerMissing

  /** A value or the exception that replaced it. */
  datatype Result<+T> = Ok(value: T) | Err(error: Error)

  /** Completion of an operation without a value (a `Promise<void>`). */
  datatype Outcome = Pass | Fail(error: Error)

  /** JavaScript's `s || null` on an optional string: absent, null and the
      empty string all become null; any other string is kept. */
  function OrNull(s: Option<string>): (r: Option<string>)
    ensures r.None? <==> (s.None? || s.value == "")
    ensures r.Some? ==> r == s
  {
    if s.Some? && s.value != "" then s else None
  }

  /** JavaScript's `!s` on an optional string: true for absent, null and "". */
  predicate Falsy(s: Option<string>) {
    s.None? || s.value == ""
  }

  /** `Math.abs` on exact decimal values. */
  function Abs(x: real): real {
    if x < 0.0 then -x else x
  }
}
