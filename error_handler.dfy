/** The error middleware of src/middleware/errorHandler.ts: which status and message an
    error is answered with, decided by checks in a fixed order, with the field details of
    a validation error and the stack in development only. Logging is not part of this
    model. */
module ErrorHandler {
  import opened Wrappers

  /** One entry of a Mongoose validation error's `errors` object, in its key order. */
  datatype FieldError = FieldError(path: string, message: string)

  /** The properties of the thrown value the handler reads. An absent `message` or
      `statusCode` is `None`; `keyValue` is given by its keys, in order. */
  datatype Failure = Failure(
    name: string, code: Option<int>, fieldErrors: seq<FieldError>, keyValueKeys: seq<string>,
    statusCode: Option<int>, message: Option<string>, stack: Option<string>)

  datatype Detail = Detail(field: string, message: string)

  /** The JSON answer: `success` is part of every body; `details` and `stack` appear only
      when present. */
  datatype Response = Response(status: int, success: bool, message: string,
                               details: Option<seq<Detail>>, stack: Option<string>)

  /** The case that decides an error, in the order the handler tests them. */
  datatype Kind = Validation | DuplicateKey | InvalidToken | ExpiredToken | Other

  function KindOf(e: Failure): (k: Kind)
    ensures k == Validation <==> e.name == "ValidationError"
    ensures k == DuplicateKey <==> e.name != "ValidationError" && e.code == Some(11000)
    ensures k == InvalidToken <==> e.name != "ValidationError" && e.code != Some(11000) && e.name == "JsonWebTokenError"
    ensures k == ExpiredToken <==> e.name != "ValidationError" && e.code != Some(11000) && e.name == "TokenExpiredError"
  {
    if e.name == "ValidationError" then Validation
    else if e.code == Some(11000) then DuplicateKey
    else if e.name == "JsonWebTokenError" then InvalidToken
    else if e.name == "TokenExpiredError" then ExpiredToken
    else Other
  }

  /** `Object.values(error.errors).map(err => ({ field: err.path, message: err.message }))`. */
  function DetailsOf(errs: seq<FieldError>): (d: seq<Detail>)
    ensures |d| == |errs|
    ensures forall i :: 0 <= i < |errs| ==> d[i].field == errs[i].path && d[i].message == errs[i].message
  {
    if errs == [] then [] else [Detail(errs[0].path, errs[0].message)] + DetailsOf(errs[1..])
  }

  /** `Object.keys(error.keyValue)[0]` in a template: the first key, or `undefined`. */
  function FirstKey(keys: seq<string>): string {
    if keys == [] then "undefined" else keys[0]
  }

  /** `error.statusCode || 500`: an absent or zero status falls back to 500. */
  function StatusOr500(statusCode: Option<int>): int {
    if statusCode.None? || statusCode.value == 0 then 500 else statusCode.value
  }

  /** `error.message || 'Internal server error'`: an absent or empty message falls back. */
  function MessageOrDefault(message: Option<string>): string {
    if message.None? || message.value == "" then "Internal server error" else message.value
  }

  /** `errorHandler`, with `development` for `env.NODE_ENV === 'development'`. */
  function Handle(e: Failure, development: bool): (r: Response)
    ensures !r.success
    ensures r.details.Some? <==> KindOf(e) == Validation
    ensures r.stack.Some? ==> KindOf(e) == Other && development && r.stack == e.stack
    ensures KindOf(e) == Validation ==> r.status == 400 && r.message == "Validation failed" && r.details == Some(DetailsOf(e.fieldErrors))
    ensures KindOf(e) == DuplicateKey ==> r.status == 400 && r.message == FirstKey(e.keyValueKeys) + " already exists"
    ensures KindOf(e) == InvalidToken ==> r.status == 401 && r.message == "Invalid token"
    ensures KindOf(e) == ExpiredToken ==> r.status == 401 && r.message == "Token expired"
    ensures KindOf(e) == Other ==> r.status == StatusOr500(e.statusCode) && r.message == MessageOrDefault(e.message)
  {
    match KindOf(e)
    case Validation => Response(400, false, "Validation failed", Some(DetailsOf(e.fieldErrors)), None)
    case DuplicateKey => Response(400, false, FirstKey(e.keyValueKeys) + " already exists", None, None)
    case InvalidToken => Response(401, false, "Invalid token", None, None)
    case ExpiredToken => Response(401, false, "Token expired", None, None)
    case Other => Response(StatusOr500(e.statusCode), false, MessageOrDefault(e.message), None,
                           if development then e.stack else None)
  }

  /** The first test that matches decides: a validation error that also carries the
      duplicate-key code, or a token error's name, is still answered as a validation
      error, and a duplicate key wins over a token error's name. */
  lemma FirstMatchDecides(e: Failure, development: bool)
    ensures e.name == "ValidationError" ==> Handle(e, development).message == "Validation failed"
    ensures e.code == Some(11000) && e.name != "ValidationError" ==> Handle(e, development).status == 400
  {
  }

  /** Outside development no answer carries a stack. */
  lemma NoStackInProduction(e: Failure)
    ensures Handle(e, false).stack.None?
  {
  }

  /** The mode changes nothing but the stack. */
  lemma ModeOnlyAddsStack(e: Failure)
    ensures Handle(e, true).(stack := None) == Handle(e, false)
  {
  }

  /** A 401 comes from the two token errors, or from a thrown error's own status code. */
  lemma UnauthorizedSources(e: Failure, development: bool)
    ensures Handle(e, development).status == 401 <==>
      KindOf(e) == InvalidToken || KindOf(e) == ExpiredToken || (KindOf(e) == Other && e.statusCode == Some(401))
  {
  }

  /** A 500 comes only from the fallback: an error with no status code, a zero one, or 500. */
  lemma ServerErrorFallback(e: Failure, development: bool)
    ensures Handle(e, development).status == 500 <==>
      KindOf(e) == Other && (e.statusCode.None? || e.statusCode.value in {0, 500})
  {
  }
}
