/** `globalErrorHandler` of `src/middlewares/error.middleware.ts`: the last Express
    middleware, which turns whatever was passed to `next(err)` into a JSON error response.
    Local `statusCode`, `message` and `errors` start at their defaults and are overwritten
    by a cascade of checks on the error's attributes, so a later check wins over an
    earlier one. */
module ErrorHandler {
  import opened Common

  /** The attributes of the error object the handlers read; `None` is an attribute the
      object does not have (`"x" in err` is false, `err.x` is undefined).
      `errors` is the list an `ApiError` carries, or, for a Mongoose `ValidationError`,
      the `message` of each inner error in order. `keyValue` lists the keys of a duplicate
      key error's `keyValue` object, in order. */
  datatype ErrorInfo = ErrorInfo(
    isApiError: bool,
    name: Option<string>,
    message: Option<string>,
    statusCode: Option<int>,
    errors: Option<seq<string>>,
    code: Option<int>,
    keyValue: Option<seq<string>>,
    path: Option<string>,
    parseType: Option<string>,
    stack: Option<string>)

  /** The JSON body; `data` is always `null`. `stack` is `None` when it is `null`. */
  datatype ErrorBody = ErrorBody(success: bool, message: string, errors: seq<string>, data: JsValue, stack: Option<string>)

  /** A response, or an exception raised by the handler itself (which Express's final
      handler then reports). */
  datatype HandlerResult = Respond(status: int, body: ErrorBody) | HandlerThrew(thrown: Thrown)

  const ParseFailedType := "entity.parse.failed"
  const DuplicatePrefix := "Duplicate value for field(s): "
  const CastPrefix := "Invalid resource identifier: "
  const JsonMessage := "Invalid JSON body provided"
  const ExpiredMessage := "Your session has expired. Please log in again."
  const InvalidTokenMessage := "Invalid token. Please log in again."
  const ValidationMessage := "Validation Failed"
  const DefaultMessage := "Internal Server Error"
  const ValidationErrorName := "ValidationError"
  const ExpiredTokenName := "TokenExpiredError"
  const JwtErrorName := "JsonWebTokenError"
  const CastErrorName := "CastError"
  const Development := "development"

  predicate HasTruthyStatus(e: ErrorInfo) { e.statusCode.Some? && e.statusCode.value != 0 }
  predicate IsValidationError(e: ErrorInfo) { e.name == Some(ValidationErrorName) && e.errors.Some? }
  predicate IsDuplicateKey(e: ErrorInfo) { e.code == Some(11000) && e.keyValue.Some? }
  predicate IsJwtError(e: ErrorInfo) { e.name == Some(JwtErrorName) }
  predicate IsExpiredToken(e: ErrorInfo) { e.name == Some(ExpiredTokenName) }
  predicate IsCastError(e: ErrorInfo) { e.name == Some(CastErrorName) && e.path.Some? }
  predicate IsParseFailure(e: ErrorInfo) { e.parseType == Some(ParseFailedType) }

  /** The JSON check reads `err.message.includes(...)` unless the `type` test already
      succeeded; on an error without a message that read throws. */
  predicate MessageReadFails(e: ErrorInfo) { !IsParseFailure(e) && e.message.None? }

  predicate IsJsonFailure(e: ErrorInfo)
  {
    IsParseFailure(e) || (e.message.Some? && Includes(e.message.value, "JSON"))
  }

  /** The status by priority: the LAST matching check of the cascade decides. */
  function StatusOf(e: ErrorInfo): int
  {
    if IsJsonFailure(e) then 400
    else if IsCastError(e) then 400
    else if IsExpiredToken(e) then 401
    else if IsJwtError(e) then 401
    else if IsDuplicateKey(e) then 409
    else if IsValidationError(e) then 400
    else if HasTruthyStatus(e) then e.statusCode.value
    else 500
  }

  function MessageOf(e: ErrorInfo): string
    requires !MessageReadFails(e)
  {
    if IsJsonFailure(e) then JsonMessage
    else if IsCastError(e) then CastPrefix + e.path.value
    else if IsExpiredToken(e) then ExpiredMessage
    else if IsJwtError(e) then InvalidTokenMessage
    else if IsDuplicateKey(e) then DuplicatePrefix + Join(e.keyValue.value, ", ")
    else if IsValidationError(e) then ValidationMessage
    else if HasTruthyStatus(e) then e.message.value
    else DefaultMessage
  }

  /** Only the first two checks set `errors`. */
  function ErrorsOf(e: ErrorInfo): seq<string>
  {
    if IsValidationError(e) then e.errors.value
    else if HasTruthyStatus(e) && e.errors.Some? then e.errors.value
    else []
  }

  /** The handler's result, stated by priority rather than as a cascade. */
  function Classify(e: ErrorInfo, nodeEnv: Option<string>): HandlerResult
  {
    if MessageReadFails(e) then HandlerThrew(ReadOfUndefined("includes"))
    else Respond(StatusOf(e), ErrorBody(false, MessageOf(e), ErrorsOf(e), Null,
                                        if nodeEnv == Some(Development) then e.stack else None))
  }

  /** The cascade as the handler runs it: every check may overwrite what an earlier one set. */
  method GlobalErrorHandler(e: ErrorInfo, nodeEnv: Option<string>) returns (r: HandlerResult)
    ensures r == Classify(e, nodeEnv)
  {
    var statusCode := 500;
    var message: Option<string> := Some(DefaultMessage);
    var errors: seq<string> := [];

    if HasTruthyStatus(e) {
      statusCode := e.statusCode.value;
      message := e.message;
      errors := if e.errors.Some? then e.errors.value else [];
    }
    if IsValidationError(e) {
      statusCode := 400;
      message := Some(ValidationMessage);
      errors := e.errors.value;
    }
    if IsDuplicateKey(e) {
      statusCode := 409;
      message := Some(DuplicatePrefix + Join(e.keyValue.value, ", "));
    }
    if IsJwtError(e) {
      message := Some(InvalidTokenMessage);
      statusCode := 401;
    }
    if IsExpiredToken(e) {
      statusCode := 401;
      message := Some(ExpiredMessage);
    }
    if IsCastError(e) {
      statusCode := 400;
      message := Some(CastPrefix + e.path.value);
    }
    var jsonFailure := IsParseFailure(e);
    if !jsonFailure {
      if e.message.None? {
        return HandlerThrew(ReadOfUndefined("includes"));
      }
      jsonFailure := Includes(e.message.value, "JSON");
    }
    if jsonFailure {
      statusCode := 400;
      message := Some(JsonMessage);
    }
    var stack := if nodeEnv == Some(Development) then e.stack else None;
    r := Respond(statusCode, ErrorBody(false, message.value, errors, Null, stack));
  }

  /** The JSON check comes last, so it overrides every other classification. */
  lemma JsonFailureOverridesAll(e: ErrorInfo, nodeEnv: Option<string>)
    requires IsJsonFailure(e)
    ensures Classify(e, nodeEnv).Respond?
    ensures Classify(e, nodeEnv).status == 400 && Classify(e, nodeEnv).body.message == JsonMessage
  {
  }

  /** A thrown `ApiError` (a truthy `statusCode`, no other marker) keeps its status, message
      and error list. */
  lemma ApiErrorKeepsItsFields(e: ErrorInfo, nodeEnv: Option<string>)
    requires HasTruthyStatus(e) && e.message.Some? && !Includes(e.message.value, "JSON")
    requires !IsParseFailure(e) && e.code != Some(11000)
    requires e.name == Some("Error")
    ensures Classify(e, nodeEnv).Respond?
    ensures Classify(e, nodeEnv).status == e.statusCode.value
    ensures Classify(e, nodeEnv).body.message == e.message.value
    ensures Classify(e, nodeEnv).body.errors == (if e.errors.Some? then e.errors.value else [])
  {
  }

  /** A duplicate key error answers 409 and does not touch `errors`: the list is whatever the
      earlier checks left. */
  lemma DuplicateKeyKeepsErrors(e: ErrorInfo, nodeEnv: Option<string>)
    requires IsDuplicateKey(e) && !IsJsonFailure(e) && !MessageReadFails(e)
    requires !IsCastError(e) && !IsJwtError(e) && !IsExpiredToken(e)
    ensures Classify(e, nodeEnv).Respond?
    ensures Classify(e, nodeEnv).status == 409
    ensures Classify(e, nodeEnv).body.message == DuplicatePrefix + Join(e.keyValue.value, ", ")
    ensures Classify(e, nodeEnv).body.errors == Classify(e.(code := None), nodeEnv).body.errors
  {
  }

  /** Every response has `success: false` and `data: null`; the stack is sent only in
      development; the status is one of the fixed codes or the error's own. */
  lemma ResponseShape(e: ErrorInfo, nodeEnv: Option<string>)
    ensures var r := Classify(e, nodeEnv);
      r.Respond? ==>
        && !r.body.success && r.body.data == Null
        && (nodeEnv != Some(Development) ==> r.body.stack == None)
        && (nodeEnv == Some(Development) ==> r.body.stack == e.stack)
        && (r.status in {400, 401, 409, 500} || (HasTruthyStatus(e) && r.status == e.statusCode.value))
  {
  }

  /** The handler throws only when it has to read the message of an error that has none and
      is not a body-parser failure. */
  lemma ThrowsOnlyWithoutMessage(e: ErrorInfo, nodeEnv: Option<string>)
    ensures Classify(e, nodeEnv).HandlerThrew? <==> !IsParseFailure(e) && e.message.None?
  {
  }
}
