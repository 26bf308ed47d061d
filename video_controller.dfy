/** `updateVideoDetails` of `src/controllers/video.controller.ts`: collect the fields to
    change from the request body into an update set, then apply it to the video with the
    given id that belongs to the authenticated user.

    As written, the title check is inverted: a title that is not blank after trimming is
    rejected, and only a blank one is put into the update set. `BuildUpdateAsWritten` is
    that code; `BuildUpdate` has the check the error message describes, and is the one the
    store operation uses. */
module VideoController {
  import opened Common
  import opened Zod
  import VV = VideoValidator

  type VideoId = string
  type UserId = string

  /** The fields of a video record the handler reads or writes. */
  datatype Video = Video(id: VideoId, owner: UserId, title: string, description: string, views: nat)

  /** `updateData`: the keys the handler set, each `None` when it was not set. */
  datatype UpdateSet = UpdateSet(title: Option<string>, description: Option<string>)

  const TitleField := "title"
  const DescriptionField := "description"
  const NullTrimMessage := "Cannot read properties of null (reading 'trim')"
  const NotAFunctionSuffix := ".trim is not a function"

  /** `v.trim()` on a body value that is not `undefined`. */
  function TrimValue(v: JsValue, name: string): (r: Result<string>)
    ensures r.Ok? <==> v.Str?
    ensures r.Ok? ==> r.value == Trim(v.s)
    ensures r.Fail? ==> r.thrown.Fault? && r.thrown.name == TypeError
  {
    match v
    case Str(s) => Ok(Trim(s))
    case Undefined => Fail(ReadOfUndefined("trim"))
    case Null => Fail(Fault(TypeError, NullTrimMessage))
    case _ => Fail(Fault(TypeError, name + NotAFunctionSuffix))
  }

  const IdRequired := ApiError(400, "Video id is required")
  const TitleEmpty := ApiError(400, "Title cannot be empty")
  const NothingToUpdate := ApiError(400, "Provide at least one field to update")
  const NotFound := ApiError(404, "Video not found or unauthorized")

  /** The title's contribution to `updateData`. `inverted` selects the check as written
      (`if (trimmedTitle) throw`) over the intended one (`if (!trimmedTitle) throw`). */
  function TitleEntry(title: JsValue, inverted: bool): (r: Result<Option<string>>)
    ensures title.Undefined? ==> r == Ok(None)
    ensures title.Str? && (Trim(title.s) != "") == inverted ==> r == Fail(TitleEmpty)
    ensures title.Str? && (Trim(title.s) != "") != inverted ==> r == Ok(Some(Trim(title.s)))
    ensures !title.Undefined? && !title.Str? ==> r.Fail? && r.thrown.Fault?
  {
    if title.Undefined? then Ok(None)
    else match TrimValue(title, TitleField)
      case Fail(e) => Fail(e)
      case Ok(s) => if (s != "") == inverted then Fail(TitleEmpty) else Ok(Some(s))
  }

  /** The description's contribution to `updateData`: any string, trimmed. */
  function DescriptionEntry(description: JsValue): (r: Result<Option<string>>)
    ensures description.Undefined? ==> r == Ok(None)
    ensures description.Str? ==> r == Ok(Some(Trim(description.s)))
    ensures !description.Undefined? && !description.Str? ==> r.Fail? && r.thrown.Fault?
  {
    if description.Undefined? then Ok(None)
    else match TrimValue(description, DescriptionField)
      case Fail(e) => Fail(e)
      case Ok(s) => Ok(Some(s))
  }

  /** The id check, the two entries in order, and the empty-update check. */
  function Build(id: Option<string>, title: JsValue, description: JsValue, inverted: bool): (r: Result<UpdateSet>)
    ensures !Present(id) ==> r == Fail(IdRequired)
    ensures r.Ok? ==> TitleEntry(title, inverted).Ok? && DescriptionEntry(description).Ok?
    ensures r.Ok? ==> r.value == UpdateSet(TitleEntry(title, inverted).value, DescriptionEntry(description).value)
    ensures r.Ok? ==> (r.value.title.Some? || r.value.description.Some?)
  {
    if !Present(id) then Fail(IdRequired)
    else
      var t := TitleEntry(title, inverted);
      if t.Fail? then Fail(t.thrown)
      else
        var d := DescriptionEntry(description);
        if d.Fail? then Fail(d.thrown)
        else if t.value.None? && d.value.None? then Fail(NothingToUpdate)
        else Ok(UpdateSet(t.value, d.value))
  }

  /** The update set as the handler builds it, with the title check as written: a title is
      rejected when it is NOT blank. */
  function BuildUpdateAsWritten(id: Option<string>, title: JsValue, description: JsValue): Result<UpdateSet>
  {
    Build(id, title, description, true)
  }

  /** The update set with the evidently intended title check: a title that trims to "" is
      rejected, any other is set in trimmed form. */
  function BuildUpdate(id: Option<string>, title: JsValue, description: JsValue): (r: Result<UpdateSet>)
    ensures !Present(id) ==> r == Fail(IdRequired)
    ensures r.Ok? ==> (r.value.title.Some? || r.value.description.Some?)
    ensures r.Ok? ==> r.value.title == (if title.Str? then Some(Trim(title.s)) else None)
    ensures r.Ok? ==> r.value.description == (if description.Str? then Some(Trim(description.s)) else None)
    ensures r.Ok? && r.value.title.Some? ==> r.value.title.value != ""
  {
    Build(id, title, description, false)
  }

  /** The errors of the corrected builder, in the order the handler checks them. */
  lemma BuildUpdateErrors(id: Option<string>, title: JsValue, description: JsValue)
    requires Present(id)
    ensures title.Str? && Trim(title.s) == "" ==> BuildUpdate(id, title, description) == Fail(TitleEmpty)
    ensures title.Undefined? && description.Undefined? ==> BuildUpdate(id, title, description) == Fail(NothingToUpdate)
    ensures (title.Undefined? || (title.Str? && Trim(title.s) != "")) && description.Str? ==> BuildUpdate(id, title, description).Ok?
    ensures title.Str? && Trim(title.s) != "" && (description.Undefined? || description.Str?) ==> BuildUpdate(id, title, description).Ok?
    ensures !title.Undefined? && !title.Str? ==> BuildUpdate(id, title, description).Fail? && BuildUpdate(id, title, description).thrown.Fault?
  {
  }

  /** The inverted check: every title that is not blank after trimming, and so every title
      the update schema accepts, is refused with "Title cannot be empty". */
  lemma AsWrittenRejectsEveryRealTitle(id: Option<string>, title: string, description: JsValue)
    requires Present(id) && Trim(title) != ""
    ensures BuildUpdateAsWritten(id, Str(title), description) == Fail(TitleEmpty)
    ensures BuildUpdate(id, Str(title), description).Ok? <==> description.Undefined? || description.Str?
  {
  }

  /** The other half of the inversion: a title that is empty or all whitespace is accepted
      and would overwrite the stored title with "", where the corrected check refuses it. */
  lemma AsWrittenStoresBlankTitle(id: Option<string>, title: string)
    requires Present(id)
    requires AllWhitespace(title)
    ensures BuildUpdateAsWritten(id, Str(title), Undefined) == Ok(UpdateSet(Some(""), None))
    ensures BuildUpdate(id, Str(title), Undefined) == Fail(TitleEmpty)
  {
    TrimEmptyIff(title);
  }

  /** Against the update schema: any request the schema accepts with a title is refused by
      the handler as written, while the corrected handler builds exactly the trimmed fields
      the schema outputs. */
  lemma SchemaValidRequests(videoId: JsValue, title: JsValue, description: JsValue)
    requires VV.UpdateVideoSchema(videoId, title, description).Success?
    ensures title.Str? ==> BuildUpdateAsWritten(Some(videoId.s), title, description) == Fail(TitleEmpty)
    ensures var f := VV.UpdateVideoSchema(videoId, title, description).value.1;
      BuildUpdate(Some(videoId.s), title, description) == Ok(UpdateSet(f.title, f.description))
  {
    VV.UpdateVideoAcceptsIff(videoId, title, description);
    var f := VV.UpdateVideoSchema(videoId, title, description).value.1;
    assert f == VV.UpdateFields(VV.Seen(title), VV.Seen(description));
    assert Present(Some(videoId.s)) by {
      assert |videoId.s| == 24;
    }
    if title.Str? {
      assert |Trim(title.s)| >= 2;
    }
  }

  /** `Video.findOneAndUpdate({ _id: id, owner }, ...)`: the first video with that id and
      owner. */
  function FindOwned(videos: seq<Video>, id: VideoId, owner: UserId): (r: Option<nat>)
    ensures r.Some? ==> r.value < |videos| && videos[r.value].id == id && videos[r.value].owner == owner
    ensures r.None? <==> forall k :: 0 <= k < |videos| ==> !(videos[k].id == id && videos[k].owner == owner)
  {
    if |videos| == 0 then None
    else if videos[0].id == id && videos[0].owner == owner then Some(0)
    else match FindOwned(videos[1..], id, owner)
      case None => None
      case Some(k) => Some(k + 1)
  }

  /** `$set: updateData` on one record. */
  function Applied(v: Video, u: UpdateSet): (w: Video)
    ensures w.id == v.id && w.owner == v.owner && w.views == v.views
    ensures w.title == (if u.title.Some? then u.title.value else v.title)
    ensures w.description == (if u.description.Some? then u.description.value else v.description)
  {
    v.(title := if u.title.Some? then u.title.value else v.title,
       description := if u.description.Some? then u.description.value else v.description)
  }

  datatype Outcome = Outcome(result: Result<Video>, videos: seq<Video>)

  /** The handler over the video collection, with the corrected title check. */
  function UpdateVideoDetailsStep(videos: seq<Video>, id: Option<string>, owner: UserId,
                                  title: JsValue, description: JsValue): Outcome
  {
    match BuildUpdate(id, title, description)
    case Fail(e) => Outcome(Fail(e), videos)
    case Ok(u) =>
      match FindOwned(videos, id.value, owner)
      case None => Outcome(Fail(NotFound), videos)
      case Some(k) => Outcome(Ok(Applied(videos[k], u)), videos[k := Applied(videos[k], u)])
  }

  /** Only the caller's own video with that id changes, and only in its title and
      description; a failure changes nothing; with no such video the answer is 404. */
  lemma UpdateTouchesOnlyOwnedVideo(videos: seq<Video>, id: Option<string>, owner: UserId,
                                    title: JsValue, description: JsValue)
    ensures var out := UpdateVideoDetailsStep(videos, id, owner, title, description);
      && |out.videos| == |videos|
      && (out.result.Fail? ==> out.videos == videos)
      && (BuildUpdate(id, title, description).Ok? && FindOwned(videos, id.value, owner).None? ==>
            out.result == Fail(NotFound))
      && (out.result.Ok? ==>
            && out.result.value.id == id.value && out.result.value.owner == owner
            && (exists k :: 0 <= k < |videos| && videos[k].id == id.value && videos[k].owner == owner
                  && out.videos[k] == out.result.value
                  && out.result.value.views == videos[k].views
                  && (forall j :: 0 <= j < |videos| && j != k ==> out.videos[j] == videos[j])))
  {
    var out := UpdateVideoDetailsStep(videos, id, owner, title, description);
    if out.result.Ok? {
      var k := FindOwned(videos, id.value, owner).value;
      assert out.videos[k] == out.result.value;
    }
  }

  /** The video collection the handler updates. */
  class VideoStore {
    var videos: seq<Video>

    constructor (videos: seq<Video>)
      ensures this.videos == videos
    {
      this.videos := videos;
    }

    /** The handler: build `updateData` key by key, then apply it to the owned record. */
    method UpdateVideoDetails(id: Option<string>, owner: UserId, title: JsValue, description: JsValue)
      returns (r: Result<Video>)
      modifies this
      ensures Outcome(r, videos) == UpdateVideoDetailsStep(old(videos), id, owner, title, description)
    {
      if !Present(id) {
        return Fail(IdRequired);
      }
      var newTitle: Option<string> := None;
      var newDescription: Option<string> := None;
      if !title.Undefined? {
        var t := TrimValue(title, TitleField);
        if t.Fail? {
          return Fail(t.thrown);
        }
        if t.value == "" {
          return Fail(TitleEmpty);
        }
        newTitle := Some(t.value);
      }
      if !description.Undefined? {
        var d := TrimValue(description, DescriptionField);
        if d.Fail? {
          return Fail(d.thrown);
        }
        newDescription := Some(d.value);
      }
      if newTitle.None? && newDescription.None? {
        return Fail(NothingToUpdate);
      }
      var k := FindOwned(videos, id.value, owner);
      if k.None? {
        return Fail(NotFound);
      }
      var updated := Applied(videos[k.value], UpdateSet(newTitle, newDescription));
      videos := videos[k.value := updated];
      r := Ok(updated);
    }
  }
}
