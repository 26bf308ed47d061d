/** The `validation(schema)` middleware of `src/middlewares/validation.middleware.ts`: it
    parses `{ body, params, query }` with the schema and calls `next` exactly once, with no
    argument on success, with a 400 `ApiError` built from the issues on a `ZodError`, and
    with the error itself otherwise. */
module ValidationMiddleware {
  import opened Common

  /** An issue of a `ZodError` as the middleware reads it: its path and its message text. */
  datatype ZodIssue = ZodIssue(path: seq<string>, message: string)

  /** The outcome of `schema.parseAsync`. */
  datatype ParseOutcome = Parsed | ZodFailure(issues: seq<ZodIssue>, errorMessage: string) | OtherFailure(err: Thrown)

  /** `{ field, message }`, one per issue. */
  datatype FieldIssue = FieldIssue(field: string, message: string)

  /** The argument given to `next`. `ValidationFailure` holds the four arguments of
      `new ApiError(...)` in the order they are passed. */
  datatype NextArg =
    | NoError
    | ValidationFailure(statusCode: int, message: string, detail: string, issues: seq<FieldIssue>)
    | Forwarded(err: Thrown)

  const FieldSeparator := "."
  const SummarySeparator := ", "

  /** `issue.path.join(".")` */
  function FieldOf(path: seq<string>): string
  {
    Join(path, FieldSeparator)
  }

  /** `error.issues.map(...)`: one entry per issue, in the same order. */
  function FieldIssues(issues: seq<ZodIssue>): (r: seq<FieldIssue>)
    ensures |r| == |issues|
    ensures forall i :: 0 <= i < |r| ==> r[i] == FieldIssue(FieldOf(issues[i].path), issues[i].message)
  {
    seq(|issues|, i requires 0 <= i < |issues| => FieldIssue(FieldOf(issues[i].path), issues[i].message))
  }

  /** `${field}: ${message}` */
  function Line(fi: FieldIssue): (s: string)
    ensures s != ""
    ensures |s| == |fi.field| + 2 + |fi.message|
  {
    fi.field + ": " + fi.message
  }

  function Lines(fis: seq<FieldIssue>): (r: seq<string>)
    ensures |r| == |fis|
    ensures forall i :: 0 <= i < |r| ==> r[i] == Line(fis[i])
  {
    seq(|fis|, i requires 0 <= i < |fis| => Line(fis[i]))
  }

  /** The summary message: every line, joined by ", ". */
  function Summary(fis: seq<FieldIssue>): string
  {
    Join(Lines(fis), SummarySeparator)
  }

  /** The middleware's single call to `next`. */
  function Validate(outcome: ParseOutcome): (r: NextArg)
  {
    match outcome
    case Parsed => NoError
    case ZodFailure(issues, errorMessage) =>
      var fis := FieldIssues(issues);
      var summary := Summary(fis);
      ValidationFailure(400, "VALIDATION_ERROR", if summary != "" then summary else errorMessage, fis)
    case OtherFailure(err) => Forwarded(err)
  }

  /** The summary is empty exactly when there are no issues: every line holds ": ". */
  lemma SummaryEmptyIff(fis: seq<FieldIssue>)
    ensures Summary(fis) == "" <==> |fis| == 0
  {
    JoinEmptyIff(Lines(fis), SummarySeparator);
    if |fis| > 0 {
      assert Lines(fis)[0] != "";
    }
  }

  /** Appending a part to a non-empty join adds the separator and the part. */
  lemma {:induction false} JoinSnoc(parts: seq<string>, x: string, sep: string)
    requires |parts| > 0
    ensures Join(parts + [x], sep) == Join(parts, sep) + sep + x
  {
    if |parts| > 1 {
      JoinSnoc(parts[1..], x, sep);
      assert (parts + [x])[1..] == parts[1..] + [x];
    } else {
      assert parts + [x] == [parts[0], x];
      assert [parts[0], x][1..] == [x];
    }
  }

  /** The summary lists the issues in order: one more issue appends ", " and its line. */
  lemma SummarySnoc(fis: seq<FieldIssue>, fi: FieldIssue)
    ensures Summary(fis + [fi]) == if |fis| == 0 then Line(fi) else Summary(fis) + SummarySeparator + Line(fi)
  {
    assert Lines(fis + [fi]) == Lines(fis) + [Line(fi)];
    if |fis| > 0 {
      JoinSnoc(Lines(fis), Line(fi), SummarySeparator);
    }
  }

  /** Success calls `next()`; any error other than a `ZodError` is passed on unchanged; a
      `ZodError` becomes a 400 "VALIDATION_ERROR" that carries one field issue per Zod issue,
      in order, and whose detail is the summary, or the error's own message exactly when
      there are no issues. */
  lemma ValidateOutcomes(outcome: ParseOutcome)
    ensures outcome.Parsed? ==> Validate(outcome) == NoError
    ensures outcome.OtherFailure? ==> Validate(outcome) == Forwarded(outcome.err)
    ensures outcome.ZodFailure? ==>
      var r := Validate(outcome);
      && r.ValidationFailure? && r.statusCode == 400 && r.message == "VALIDATION_ERROR"
      && |r.issues| == |outcome.issues|
      && (forall i :: 0 <= i < |r.issues| ==>
            r.issues[i].field == Join(outcome.issues[i].path, ".") && r.issues[i].message == outcome.issues[i].message)
      && (r.detail == outcome.errorMessage <==> |outcome.issues| == 0 || Summary(r.issues) == outcome.errorMessage)
      && (|outcome.issues| == 0 ==> r.detail == outcome.errorMessage)
      && (|outcome.issues| > 0 ==> r.detail == Summary(r.issues))
  {
    if outcome.ZodFailure? {
      SummaryEmptyIff(FieldIssues(outcome.issues));
    }
  }

  /** A single issue with a two-step path reads "<location>.<field>: <message>". */
  lemma SingleIssueSummary(location: string, field: string, message: string, errorMessage: string)
    ensures Validate(ZodFailure([ZodIssue([location, field], message)], errorMessage)).detail
      == location + "." + field + ": " + message
  {
    var fis := FieldIssues([ZodIssue([location, field], message)]);
    assert [location, field][1..] == [field];
    assert Join([field], FieldSeparator) == field;
    assert FieldOf([location, field]) == location + "." + field;
    assert Lines(fis) == [Line(fis[0])];
  }
}
