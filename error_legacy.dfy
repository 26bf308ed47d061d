/** The earlier JavaScript `globalErrorHandler`, `src/middlewares/error.middleware.js`. It
    returns an `ApiError` without answering, reads `err.errors` and `err.keyValue` without
    checking that they exist, knows no token errors, and ends by letting the error's own
    message replace whatever message the cascade chose. */
module ErrorLegacy {
  import opened Common
  import opened ErrorHandler

  /** The fields of the `ApiError` the handler serialises as the body. */
  datatype LegacyBody = LegacyBody(statusCode: int, message: string, errors: seq<string>, stack: Option<string>)

  /** An `ApiError` handed back to Express unanswered, a response, or an exception raised by
      the handler itself. */
  datatype LegacyResult = ReturnedUnanswered(err: ErrorInfo) | Answer(status: int, body: LegacyBody) | Threw(thrown: Thrown)

  /** The `TypeError` from `Object.values(undefined)` or `Object.keys(undefined)`. */
  const ObjectOfUndefined := Fault(TypeError, "Cannot convert undefined or null to object")

  const LegacyJsonMessage := "Invalid JSON body provided."

  /** `${err.path}` */
  function PathText(path: Option<string>): string
  {
    if path.Some? then path.value else "undefined"
  }

  /** Whether the cascade reaches the response, and if not, what it throws or returns. */
  predicate ReachesResponse(e: ErrorInfo)
  {
    && !e.isApiError
    && (e.name == Some(ValidationErrorName) ==> e.errors.Some?)
    && (e.code == Some(11000) ==> e.keyValue.Some?)
    && !MessageReadFails(e)
  }

  function LegacyStatus(e: ErrorInfo): int
  {
    if IsJsonFailure(e) then 400
    else if e.name == Some(CastErrorName) then 400
    else if e.code == Some(11000) then 409
    else if e.name == Some(ValidationErrorName) then 400
    else 500
  }

  /** The message the cascade chose, before the final override. */
  function CascadeMessage(e: ErrorInfo): string
    requires ReachesResponse(e)
  {
    if IsJsonFailure(e) then LegacyJsonMessage
    else if e.name == Some(CastErrorName) then CastPrefix + PathText(e.path)
    else if e.code == Some(11000) then DuplicatePrefix + Join(e.keyValue.value, ", ") + "."
    else if e.name == Some(ValidationErrorName) then ValidationMessage
    else DefaultMessage
  }

  /** The handler's result by priority: unanswered `ApiError`s first, then the exceptions in
      the order the cascade would meet them, then the response whose message is the error's
      own whenever it has both a name and a message. */
  function LegacyClassify(e: ErrorInfo): LegacyResult
  {
    if e.isApiError then ReturnedUnanswered(e)
    else if e.name == Some(ValidationErrorName) && e.errors.None? then Threw(ObjectOfUndefined)
    else if e.code == Some(11000) && e.keyValue.None? then Threw(ObjectOfUndefined)
    else if MessageReadFails(e) then Threw(ReadOfUndefined("includes"))
    else
      var message := if Present(e.name) && Present(e.message) then e.message.value else CascadeMessage(e);
      var errors := if e.name == Some(ValidationErrorName) then e.errors.value else [];
      Answer(LegacyStatus(e), LegacyBody(LegacyStatus(e), message, errors, if Present(e.stack) then e.stack else None))
  }

  /** The cascade as the handler runs it. */
  method LegacyGlobalErrorHandler(e: ErrorInfo) returns (r: LegacyResult)
    ensures r == LegacyClassify(e)
  {
    if e.isApiError {
      return ReturnedUnanswered(e);
    }
    var statusCode := 500;
    var message := DefaultMessage;
    var errors: seq<string> := [];

    if e.name == Some(ValidationErrorName) {
      if e.errors.None? {
        return Threw(ObjectOfUndefined);
      }
      statusCode := 400;
      message := ValidationMessage;
      errors := e.errors.value;
    }
    if e.code == Some(11000) {
      if e.keyValue.None? {
        return Threw(ObjectOfUndefined);
      }
      statusCode := 409;
      message := DuplicatePrefix + Join(e.keyValue.value, ", ") + ".";
    }
    if e.name == Some(CastErrorName) {
      statusCode := 400;
      message := CastPrefix + PathText(e.path);
    }
    var jsonFailure := e.parseType == Some(ParseFailedType);
    if !jsonFailure {
      if e.message.None? {
        return Threw(ReadOfUndefined("includes"));
      }
      jsonFailure := Includes(e.message.value, "JSON");
    }
    if jsonFailure {
      statusCode := 400;
      message := LegacyJsonMessage;
    }
    if Present(e.name) && Present(e.message) {
      message := e.message.value;
    }
    var stack := if Present(e.stack) then e.stack else None;
    r := Answer(statusCode, LegacyBody(statusCode, message, errors, stack));
  }

  /** An `ApiError` is returned to Express without a response being written. */
  lemma ApiErrorIsNotAnswered(e: ErrorInfo)
    requires e.isApiError
    ensures LegacyClassify(e) == ReturnedUnanswered(e)
  {
  }

  /** The final override: an error with a non-empty name and message is answered with its
      own message, whatever the cascade chose; the status is still the cascade's. So a
      body-parser `SyntaxError` keeps status 400 but never shows "Invalid JSON body
      provided.". */
  lemma OwnMessageOverrides(e: ErrorInfo)
    requires ReachesResponse(e) && Present(e.name) && Present(e.message)
    ensures LegacyClassify(e).Answer?
    ensures LegacyClassify(e).body.message == e.message.value
    ensures LegacyClassify(e).status == LegacyStatus(e)
    ensures IsJsonFailure(e) ==> LegacyClassify(e).status == 400
  {
  }

  /** The cascade's own messages reach the client only for errors without a name or without
      a message. */
  lemma CascadeMessageNeedsNamelessError(e: ErrorInfo)
    requires ReachesResponse(e) && (!Present(e.name) || !Present(e.message))
    ensures LegacyClassify(e).Answer? && LegacyClassify(e).body.message == CascadeMessage(e)
  {
  }

  /** Missing `errors` on a `ValidationError`, or a missing `keyValue` on a duplicate key
      error, makes the handler itself throw. */
  lemma MissingFieldsThrow(e: ErrorInfo)
    requires !e.isApiError
    ensures e.name == Some(ValidationErrorName) && e.errors.None? ==> LegacyClassify(e) == Threw(ObjectOfUndefined)
    ensures e.name != Some(ValidationErrorName) && e.code == Some(11000) && e.keyValue.None? ==>
      LegacyClassify(e) == Threw(ObjectOfUndefined)
  {
  }

  /** Token errors are not recognised: where the TypeScript handler answers 401, the legacy
      one answers 500 with the token library's message. */
  lemma TokenErrorsAre500(e: ErrorInfo, nodeEnv: Option<string>)
    requires e.name == Some(JwtErrorName) || e.name == Some(ExpiredTokenName)
    requires !e.isApiError && e.code != Some(11000) && e.message.Some? && e.message.value != ""
    requires !IsJsonFailure(e)
    ensures LegacyClassify(e) == Answer(500, LegacyBody(500, e.message.value, [], if Present(e.stack) then e.stack else None))
    ensures Classify(e, nodeEnv).Respond? && Classify(e, nodeEnv).status == 401
  {
  }

  /** On errors both handlers answer and that carry no token, JSON or status marker, they
      agree on the status; the legacy handler differs in the message (its trailing "." and
      the override) but not in which status class it picks. */
  lemma StatusAgreesWithTypeScript(e: ErrorInfo, nodeEnv: Option<string>)
    requires ReachesResponse(e) && !HasTruthyStatus(e)
    requires !IsJwtError(e) && !IsExpiredToken(e)
    requires e.name == Some(CastErrorName) ==> e.path.Some?
    ensures Classify(e, nodeEnv).Respond?
    ensures LegacyClassify(e).Answer? && LegacyClassify(e).status == Classify(e, nodeEnv).status
  {
  }
}
