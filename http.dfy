/** The JSON responses the Express handlers send, reduced to what callers can tell apart. */
module Http {

  /** One entry of express-validator's `errors.array()`: the field and its message. */
  datatype FieldError = FieldError(path: string, msg: string)

  /**
   * `res.status(s).json(value)` on success, `400 {errors: [...]}` for a
   * failed validation chain, and `s {message: m}` for every other failure.
   */
  datatype Response<T> =
    | Success(status: nat, value: T)
    | Invalid(errors: seq<FieldError>)
    | Failure(status: nat, message: string)
  {
    function Status(): nat {
      match this
      case Success(s, _) => s
      case Invalid(_) => 400
      case Failure(s, _) => s
    }
  }

  /**
   * The position of a field in a validation chain: the index of `path` in
   * `chain`, or `|chain|` for a field the chain does not check.
   */
  function ChainPosition(chain: seq<string>, path: string): (k: nat)
    ensures k <= |chain|
    ensures k < |chain| ==> chain[k] == path
    ensures k == |chain| <==> path !in chain
  {
    if chain == [] then 0
    else if chain[0] == path then 0
    else 1 + ChainPosition(chain[1..], path)
  }

  /** A list of errors in the chain's order, each field once. */
  predicate InChainOrder(chain: seq<string>, errs: seq<FieldError>) {
    forall i, j :: 0 <= i < j < |errs| ==> ChainPosition(chain, errs[i].path) < ChainPosition(chain, errs[j].path)
  }

  /** A JSON body value that may be `undefined` (key absent), `null`, or given. */
  datatype Field<T> = Undefined | Null | Given(value: T)

  /** What every handler's `catch` block sends. */
  const ServerError: string := "Server error"
}
