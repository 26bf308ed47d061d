/** The request schemas of `src/validators/video.validator.ts`: `videoRequestSchema` for an
    upload, and `updateVideoSchema` for a detail update. Zod's URL check and JavaScript's
    `Number(string)` are parameters (`url`, `toNumber`): `url` gives `None` for a string
    Zod rejects and otherwise the value Zod's check stores in its place, and `toNumber`
    gives `None` for a string that does not convert to a finite number. */
module VideoValidator {
  import opened Common
  import opened Zod

  /** The paths under which the schemas report their issues. */
  const TitlePath := ["body", "title"]
  const DescriptionPath := ["body", "description"]
  const VideoUrlPath := ["body", "videoUrl"]
  const PublicIdPath := ["body", "videoPublicId"]
  const DurationPath := ["body", "duration"]
  const IsPublishedPath := ["body", "isPublished"]
  const VideoIdPath := ["params", "videoId"]
  const BodyPath := ["body"]

  /** The messages the schemas give. */
  const TitleRequired := "Title is required"
  const TitleInvalid := "Invalid title format"
  const TitleTooShort := "Title must be at least 2 characters"
  const TitleTooLong := "Title cannot exceed 100 characters"
  const DescriptionRequired := "Description is required"
  const DescriptionInvalid := "Invalid description"
  const DescriptionTooLong := "Description cannot exceed 400 characters"
  const UrlRequired := "url is required"
  const UrlInvalid := "Invalid url"
  const PublicIdRequired := "Public Id is required"
  const PublicIdInvalid := "Invalid pubicId"
  const DurationNotPositive := "Duration must be a positive number"
  const PublishedRequired := "Publish status is required"
  const PublishedInvalid := "Invalid status value"
  const VideoIdRequired := "Video Id is required."
  const VideoIdInvalidType := "Invalid input."
  const VideoIdNotObjectId := "Invalid MongoDB ObjectId"

  // ---------------------------------------------------------------------------
  // videoRequestSchema

  /** `title`: trimmed, 2 to 100 characters. */
  function TitleRule(input: JsValue): (r: FieldResult<string>)
    ensures r.Valid? <==> input.Str? && 2 <= |Trim(input.s)| <= 100
    ensures r.Valid? ==> r.value == Trim(input.s)
    ensures !input.Str? ==> r == Invalid([Some(if input.Undefined? then TitleRequired else TitleInvalid)], true)
  {
    ZString(input, RequiredOr(input, TitleRequired, TitleInvalid), true,
            Some((2, TitleTooShort)), Some((100, TitleTooLong)))
  }

  /** `description`: trimmed, at most 400 characters; empty is allowed. */
  function DescriptionRule(input: JsValue): (r: FieldResult<string>)
    ensures r.Valid? <==> input.Str? && |Trim(input.s)| <= 400
    ensures r.Valid? ==> r.value == Trim(input.s)
    ensures !input.Str? ==> r == Invalid([Some(if input.Undefined? then DescriptionRequired else DescriptionInvalid)], true)
  {
    ZString(input, RequiredOr(input, DescriptionRequired, DescriptionInvalid), true,
            None, Some((400, DescriptionTooLong)))
  }

  /** `videoUrl`: a string that Zod's URL check accepts; the output is the value that check
      writes back (Zod normalises an accepted URL, so it need not be the string as sent). */
  function VideoUrlRule(input: JsValue, url: string -> Option<string>): (r: FieldResult<string>)
    ensures r.Valid? <==> input.Str? && url(input.s).Some?
    ensures r.Valid? ==> r.value == url(input.s).value
    ensures r.Invalid? ==> r.messages == [Some(if input.Undefined? then UrlRequired else UrlInvalid)]
    ensures r.Invalid? ==> (r.aborted <==> !input.Str?)
  {
    match input
    case Str(s) => if url(s).Some? then Valid(url(s).value) else Invalid([Some(UrlInvalid)], false)
    case _ => Invalid([RequiredOr(input, UrlRequired, UrlInvalid)], true)
  }

  /** `videoPublicId`: any string. */
  function PublicIdRule(input: JsValue): (r: FieldResult<string>)
    ensures r.Valid? <==> input.Str?
    ensures r.Valid? ==> r.value == input.s
    ensures r.Invalid? ==> r.messages == [Some(if input.Undefined? then PublicIdRequired else PublicIdInvalid)]
  {
    ZString(input, RequiredOr(input, PublicIdRequired, PublicIdInvalid), false, None, None)
  }

  /** `Number(input)` as `z.coerce.number()` applies it; `None` is `NaN` or an infinity. */
  function Coerce(input: JsValue, toNumber: string -> Option<real>): Option<real>
  {
    match input
    case Undefined => None
    case Null => Some(0.0)
    case Bool(b) => Some(if b then 1.0 else 0.0)
    case Num(n) => Some(n)
    case Str(s) => toNumber(s)
  }

  /** `duration`: coerced to a number, which must be strictly positive. A value that does
      not convert fails the number check with Zod's default message. */
  function DurationRule(input: JsValue, toNumber: string -> Option<real>): (r: FieldResult<real>)
    ensures r.Valid? <==> Coerce(input, toNumber).Some? && Coerce(input, toNumber).value > 0.0
    ensures r.Valid? ==> r.value == Coerce(input, toNumber).value && r.value > 0.0
    ensures r.Invalid? && Coerce(input, toNumber).Some? ==> r.messages == [Some(DurationNotPositive)]
  {
    match Coerce(input, toNumber)
    case None => Invalid([None], true)
    case Some(n) => if n > 0.0 then Valid(n) else Invalid([Some(DurationNotPositive)], false)
  }

  /** `isPublished`: the string "true" or "false", turned into the boolean it names. */
  function IsPublishedRule(input: JsValue): (r: FieldResult<bool>)
    ensures r.Valid? <==> input == Str("true") || input == Str("false")
    ensures r.Valid? ==> r.value == (input == Str("true"))
    ensures r.Invalid? ==> r.messages == [Some(if input.Undefined? then PublishedRequired else PublishedInvalid)]
  {
    if input == Str("true") || input == Str("false") then Valid(input.s == "true")
    else Invalid([RequiredOr(input, PublishedRequired, PublishedInvalid)], true)
  }

  datatype UploadInput = UploadInput(
    title: JsValue, description: JsValue, videoUrl: JsValue, videoPublicId: JsValue,
    duration: JsValue, isPublished: JsValue)

  datatype UploadFields = UploadFields(
    title: string, description: string, videoUrl: string, videoPublicId: string,
    duration: real, isPublished: bool)

  /** `videoRequestSchema` (video.validator.ts:3-47). */
  function VideoRequestSchema(body: UploadInput, url: string -> Option<string>, toNumber: string -> Option<real>): SchemaResult<UploadFields>
  {
    var t := TitleRule(body.title);
    var d := DescriptionRule(body.description);
    var u := VideoUrlRule(body.videoUrl, url);
    var p := PublicIdRule(body.videoPublicId);
    var n := DurationRule(body.duration, toNumber);
    var b := IsPublishedRule(body.isPublished);
    if t.Valid? && d.Valid? && u.Valid? && p.Valid? && n.Valid? && b.Valid? then
      Success(UploadFields(t.value, d.value, u.value, p.value, n.value, b.value))
    else
      Failure(IssuesAt(TitlePath, t) + IssuesAt(DescriptionPath, d) +
              IssuesAt(VideoUrlPath, u) + IssuesAt(PublicIdPath, p) +
              IssuesAt(DurationPath, n) + IssuesAt(IsPublishedPath, b))
  }

  /** An upload passes exactly when every field passes its own rule; the output has the
      title and description trimmed, the URL as Zod's check rewrites it, the public id as
      sent, a positive duration, and `isPublished` true exactly
      for "true". */
  lemma VideoRequestAcceptsIff(body: UploadInput, url: string -> Option<string>, toNumber: string -> Option<real>)
    ensures var r := VideoRequestSchema(body, url, toNumber);
      && (r.Success? <==>
            && body.title.Str? && 2 <= |Trim(body.title.s)| <= 100
            && body.description.Str? && |Trim(body.description.s)| <= 400
            && body.videoUrl.Str? && url(body.videoUrl.s).Some?
            && body.videoPublicId.Str?
            && Coerce(body.duration, toNumber).Some? && Coerce(body.duration, toNumber).value > 0.0
            && (body.isPublished == Str("true") || body.isPublished == Str("false")))
      && (r.Success? ==>
            && r.value.title == Trim(body.title.s) && r.value.description == Trim(body.description.s)
            && r.value.videoUrl == url(body.videoUrl.s).value && r.value.videoPublicId == body.videoPublicId.s
            && r.value.duration > 0.0
            && r.value.isPublished == (body.isPublished.s == "true"))
      && (r.Failure? ==> |r.issues| > 0)
  {
    var t := TitleRule(body.title);
    var d := DescriptionRule(body.description);
    var u := VideoUrlRule(body.videoUrl, url);
    var p := PublicIdRule(body.videoPublicId);
    var n := DurationRule(body.duration, toNumber);
    var b := IsPublishedRule(body.isPublished);
    var r := VideoRequestSchema(body, url, toNumber);
    if r.Failure? {
      assert !t.Valid? || !d.Valid? || !u.Valid? || !p.Valid? || !n.Valid? || !b.Valid?;
      assert |r.issues| == |IssuesAt(TitlePath, t)| + |IssuesAt(DescriptionPath, d)| +
        |IssuesAt(VideoUrlPath, u)| + |IssuesAt(PublicIdPath, p)| +
        |IssuesAt(DurationPath, n)| + |IssuesAt(IsPublishedPath, b)|;
    }
  }

  // ---------------------------------------------------------------------------
  // updateVideoSchema

  predicate IsHexDigit(c: char)
  {
    IsAsciiDigit(c) || 'a' <= c <= 'f' || 'A' <= c <= 'F'
  }

  /** `/^[a-fA-F0-9]{24}$/` */
  predicate IsObjectIdText(s: string)
  {
    |s| == 24 && forall i :: 0 <= i < |s| ==> IsHexDigit(s[i])
  }

  /** `params.videoId`: a string of exactly 24 hexadecimal digits, either case. */
  function VideoIdRule(input: JsValue): (r: FieldResult<string>)
    ensures r.Valid? <==> input.Str? && IsObjectIdText(input.s)
    ensures r.Valid? ==> r.value == input.s
    ensures r.Invalid? ==> r.messages == [Some(if !input.Str? && input.Undefined? then VideoIdRequired
                                               else if !input.Str? then VideoIdInvalidType else VideoIdNotObjectId)]
  {
    match input
    case Str(s) => if IsObjectIdText(s) then Valid(s) else Invalid([Some(VideoIdNotObjectId)], false)
    case _ => Invalid([RequiredOr(input, VideoIdRequired, VideoIdInvalidType)], true)
  }

  /** The optional update `title` and `description`, with Zod's default type message. */
  function UpdateTitleRule(input: JsValue): FieldResult<Option<string>>
  {
    ZOptional(input, ZString(input, None, true, Some((2, TitleTooShort)),
                             Some((100, TitleTooLong))))
  }

  function UpdateDescriptionRule(input: JsValue): FieldResult<Option<string>>
  {
    ZOptional(input, ZString(input, None, true, None, Some((400, DescriptionTooLong))))
  }

  /** The value the object's `refine` sees for a field: the trimmed string, whether or not
      its length checks passed, or `undefined`. */
  function Seen(input: JsValue): Option<string>
  {
    if input.Str? then Some(Trim(input.s)) else None
  }

  const RefineMessage := "You must provide at least a title or a description to update"

  datatype UpdateFields = UpdateFields(title: Option<string>, description: Option<string>)

  /** `updateVideoSchema` (video.validator.ts:49-78): the `params` issues, then the `body`
      field issues, then the `refine` issue. The refine runs unless a body field failed its
      type check, and asks for a truthy title or description. */
  function UpdateVideoSchema(videoId: JsValue, title: JsValue, description: JsValue): SchemaResult<(string, UpdateFields)>
  {
    var id := VideoIdRule(videoId);
    var t := UpdateTitleRule(title);
    var d := UpdateDescriptionRule(description);
    var refineRuns := !Aborted(t) && !Aborted(d);
    var refineFails := refineRuns && !Present(Seen(title)) && !Present(Seen(description));
    if id.Valid? && t.Valid? && d.Valid? && !refineFails then
      Success((id.value, UpdateFields(t.value, d.value)))
    else
      Failure(IssuesAt(VideoIdPath, id) + IssuesAt(TitlePath, t) + IssuesAt(DescriptionPath, d) +
              (if refineFails then [Issue(BodyPath, Some(RefineMessage))] else []))
  }

  /** An update request passes exactly when the id is 24 hexadecimal digits, a given title
      has 2 to 100 characters after trimming, a given description at most 400, and at least
      one of them is given and not blank. The output fields are the trimmed strings. */
  lemma UpdateVideoAcceptsIff(videoId: JsValue, title: JsValue, description: JsValue)
    ensures var r := UpdateVideoSchema(videoId, title, description);
      && (r.Success? <==>
            && videoId.Str? && IsObjectIdText(videoId.s)
            && (title.Undefined? || (title.Str? && 2 <= |Trim(title.s)| <= 100))
            && (description.Undefined? || (description.Str? && |Trim(description.s)| <= 400))
            && (title.Str? || (description.Str? && Trim(description.s) != "")))
      && (r.Success? ==> r.value == (videoId.s, UpdateFields(Seen(title), Seen(description))))
  {
    var r := UpdateVideoSchema(videoId, title, description);
    if title.Str? && 2 <= |Trim(title.s)| {
      assert Present(Seen(title));
    }
  }

  /** A body field of the wrong type stops the refine: a request with a title that is given
      but not a string, and no description, reports the title's type issue alone. */
  lemma RefineSkippedAfterTypeError(videoId: string, title: JsValue)
    requires IsObjectIdText(videoId)
    requires !title.Undefined? && !title.Str?
    ensures UpdateVideoSchema(Str(videoId), title, Undefined) == Failure([Issue(TitlePath, None)])
  {
    assert IssuesAt(TitlePath, UpdateTitleRule(title)) == [Issue(TitlePath, None)];
  }

  /** With a valid id and no description, a title that fails its checks without aborting
      is reported alone, followed by the `refine` issue exactly when the refine sees no
      title. */
  lemma TitleOnlyIssues(videoId: JsValue, title: JsValue)
    requires VideoIdRule(videoId).Valid?
    requires UpdateTitleRule(title).Invalid? && !UpdateTitleRule(title).aborted
    ensures UpdateVideoSchema(videoId, title, Undefined) ==
      Failure(IssuesAt(TitlePath, UpdateTitleRule(title)) +
              (if Present(Seen(title)) then [] else [Issue(BodyPath, Some(RefineMessage))]))
  {
    var id := VideoIdRule(videoId);
    var t := UpdateTitleRule(title);
    var d := UpdateDescriptionRule(Undefined);
    assert d == Valid(None) && !Aborted(d) && !Aborted(t);
    assert IssuesAt(VideoIdPath, id) == [];
    assert IssuesAt(DescriptionPath, d) == [];
    assert !Present(Seen(Undefined));
  }

  /** A title shorter than two characters after trimming fails its minimum-length check
      alone; it is not over the maximum and not of the wrong type. */
  lemma ShortTitleRule(title: string)
    requires |Trim(title)| < 2
    ensures UpdateTitleRule(Str(title)) == Invalid([Some(TitleTooShort)], false)
  {
    ZStringTooShort(title, None, true, 2, TitleTooShort, Some((100, TitleTooLong)));
  }

  /** A title shorter than two characters after trimming reports its length issue; the
      refine still sees a one-character title, so its issue follows only when the trimmed
      title is empty. */
  lemma ShortTitleIssues(videoId: string, title: string)
    requires IsObjectIdText(videoId)
    requires |Trim(title)| < 2
    ensures UpdateVideoSchema(Str(videoId), Str(title), Undefined) ==
      Failure([Issue(TitlePath, Some(TitleTooShort))] +
              (if Trim(title) == "" then [Issue(BodyPath, Some(RefineMessage))] else []))
  {
    ShortTitleRule(title);
    TitleOnlyIssues(Str(videoId), Str(title));
    assert Present(Seen(Str(title))) <==> Trim(title) != "";
    assert IssuesAt(TitlePath, UpdateTitleRule(Str(title))) == [Issue(TitlePath, Some(TitleTooShort))];
  }
}
