/** Small value types shared by the whole model: optional values, results,
    JavaScript numbers and the replies the route handlers send. */
module Base {

  datatype Option<+T> = None | Some(value: T)

  datatype Result<+T, +E> = Success(value: T) | Failure(error: E)

  /** A JavaScript number as produced by `parseFloat`: NaN, or a finite value.
      Every comparison involving NaN is false. */
  datatype JsNumber = NaN | Num(value: real)

  /** A JavaScript number as sent in a JSON body: NaN becomes `null`. */
  function Wire(x: JsNumber): Option<real>
  {
    if x.NaN? then None else Some(x.value)
  }

  /** `x || 0` on a number that may be absent. */
  function OrZero(x: Option<real>): real
  {
    if x.Some? then x.value else 0.0
  }

  /** The reasons a route handler answers with an error. */
  datatype Error =
    | DepositNotFound            // 404
    | WithdrawalNotFound         // 404
    | UserNotFound               // 404
    | AlreadyProcessed           // 400
    | InvalidApprovedAmount      // 400
    | NoProof                    // 400 'Payment proof is required'
    | NoDeposit                  // 400 'No deposits found. Please make a deposit first.'
    | WaitDays(days: int)        // 400 'You can withdraw after <days> days from your first deposit.'
    | InsufficientBalance        // 400
    | InvalidOperation           // 400 'Invalid operation type'
    | AdminExists                // 400 'Admin already exists'
    | AdminForbidden             // 403 an admin token on a user-only route
    | SchemaViolation            // 500 the schema layer refused a create or save
    | StoreFault                 // 500 the database failed a write for a reason outside this model

  /** What a route handler answers: a success status, or an error. */
  datatype Reply = Ok(code: int) | Err(error: Error)
  {
    function Code(): int
    {
      match this
      case Ok(c) => c
      case Err(e) =>
        match e
        case DepositNotFound => 404
        case WithdrawalNotFound => 404
        case UserNotFound => 404
        case AdminForbidden => 403
        case SchemaViolation => 500
        case StoreFault => 500
        case _ => 400
    }
  }

  /** How a frontend service call ended: answered, or thrown with the
      server's `message` ("" when the error carries none). */
  datatype ApiReply = Answered | Refused(message: string)

  /** `message || fallback`. */
  function MessageOr(message: string, fallback: string): string
  {
    if message != "" then message else fallback
  }
}
