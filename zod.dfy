/** The part of Zod's behaviour the schemas of `src/validators/` rely on: a field schema
    either yields its output value or reports issues; checks after the type check keep
    running after one fails, `.trim()` and `.toLowerCase()` replace the value in place
    among the checks, and an object reports the issues of its fields in key order with the
    field's path. A message of `None` is Zod's own default text for that issue. */
module Zod {
  import opened Common

  /** The outcome of one field schema. `aborted` marks a type mismatch, after which nothing
      else runs (and which stops an object's `.refine`). */
  datatype FieldResult<T> = Valid(value: T) | Invalid(messages: seq<Option<string>>, aborted: bool)

  datatype Issue = Issue(path: seq<string>, message: Option<string>)

  datatype SchemaResult<T> = Success(value: T) | Failure(issues: seq<Issue>)

  /** The custom `error` callback the schemas give: one message when the input is
      `undefined`, another otherwise. */
  function RequiredOr(input: JsValue, required: string, invalid: string): (m: Option<string>)
    ensures m == Some(required) <==> input.Undefined? || required == invalid
  {
    if input.Undefined? then Some(required) else Some(invalid)
  }

  /** `z.string({ error }) [.trim()] [.min(lo, m)] [.max(hi, m)]`. */
  function ZString(input: JsValue, typeMessage: Option<string>, trim: bool,
                   min: Option<(nat, string)>, max: Option<(nat, string)>): (r: FieldResult<string>)
    ensures !input.Str? ==> r == Invalid([typeMessage], true)
    ensures input.Str? ==>
      var t := if trim then Trim(input.s) else input.s;
      && (r.Valid? <==> (min.None? || |t| >= min.value.0) && (max.None? || |t| <= max.value.0))
      && (r.Valid? ==> r.value == t)
      && (r.Invalid? ==> !r.aborted && |r.messages| >= 1)
      && (r.Invalid? && min.Some? && |t| < min.value.0 ==> r.messages[0] == Some(min.value.1))
  {
    match input
    case Str(s) =>
      var t := if trim then Trim(s) else s;
      var tooShort := min.Some? && |t| < min.value.0;
      var tooLong := max.Some? && |t| > max.value.0;
      if !tooShort && !tooLong then Valid(t)
      else Invalid((if tooShort then [Some(min.value.1)] else []) + (if tooLong then [Some(max.value.1)] else []), false)
    case _ => Invalid([typeMessage], true)
  }

  /** A string shorter than the minimum, and not over the maximum, gets the minimum's
      message alone. */
  lemma ZStringTooShort(s: string, typeMessage: Option<string>, trim: bool, lo: nat, tooShort: string,
                        max: Option<(nat, string)>)
    requires |if trim then Trim(s) else s| < lo
    requires max.None? || |if trim then Trim(s) else s| <= max.value.0
    ensures ZString(Str(s), typeMessage, trim, Some((lo, tooShort)), max) == Invalid([Some(tooShort)], false)
  {
    assert [Some(tooShort)] + [] == [Some(tooShort)];
  }

  /** `.optional()` on a string schema: `undefined` is accepted as absent. */
  function ZOptional(input: JsValue, inner: FieldResult<string>): (r: FieldResult<Option<string>>)
    ensures input.Undefined? ==> r == Valid(None)
    ensures !input.Undefined? ==> (r.Valid? <==> inner.Valid?) && (r.Valid? ==> r.value == Some(inner.value))
  {
    if input.Undefined? then Valid(None)
    else match inner
      case Valid(v) => Valid(Some(v))
      case Invalid(ms, a) => Invalid(ms, a)
  }

  /** The issues of a field at `path`, in the order its checks reported them. */
  function IssuesAt<T>(path: seq<string>, r: FieldResult<T>): (issues: seq<Issue>)
    ensures r.Valid? ==> issues == []
    ensures r.Invalid? ==> |issues| == |r.messages|
    ensures forall i :: 0 <= i < |issues| ==> issues[i].path == path
  {
    match r
    case Valid(_) => []
    case Invalid(ms, _) => seq(|ms|, i requires 0 <= i < |ms| => Issue(path, ms[i]))
  }

  predicate Aborted<T>(r: FieldResult<T>) { r.Invalid? && r.aborted }
}
