/** `updateWatchHistory` of `src/middlewares/updateWatchHistory.middleware.ts`: when a user
    opens a video, move it to the front of the user's `watchHistory` and count a view the
    first time it enters the history.

    The store is one user's `watchHistory` (most recent first) and the `views` counter of
    every existing video (a video exists exactly when it has a counter). The middleware's
    store calls are separate steps, applied here in the order the handler awaits them. */
module WatchHistory {
  import opened Common
  import Accounts

  const IdRequiredMessage := "Video id is required"
  const VideoNotFoundMessage := "Video not found"

  type VideoId = string

  /** `$pull: { watchHistory: v }`: every occurrence of `v` removed, the rest in order. */
  function RemoveAll(s: seq<VideoId>, v: VideoId): seq<VideoId>
  {
    if |s| == 0 then []
    else if s[0] == v then RemoveAll(s[1..], v)
    else [s[0]] + RemoveAll(s[1..], v)
  }

  predicate NoDuplicates(s: seq<VideoId>)
  {
    forall i, j :: 0 <= i < j < |s| ==> s[i] != s[j]
  }

  lemma {:induction false} RemoveAllRemoves(s: seq<VideoId>, v: VideoId)
    ensures v !in RemoveAll(s, v)
    ensures multiset(RemoveAll(s, v))[v] == 0
    ensures forall x :: x != v ==> multiset(RemoveAll(s, v))[x] == multiset(s)[x]
  {
    if |s| > 0 {
      RemoveAllRemoves(s[1..], v);
      assert s == [s[0]] + s[1..];
    }
  }

  lemma {:induction false} RemoveAllAbsent(s: seq<VideoId>, v: VideoId)
    requires v !in s
    ensures RemoveAll(s, v) == s
  {
    if |s| > 0 {
      RemoveAllAbsent(s[1..], v);
      assert s == [s[0]] + s[1..];
    }
  }

  /** Removing from a sequence without duplicates keeps it without duplicates. */
  lemma {:induction false} RemoveAllNoDuplicates(s: seq<VideoId>, v: VideoId)
    requires NoDuplicates(s)
    ensures NoDuplicates(RemoveAll(s, v))
  {
    if |s| > 0 {
      assert NoDuplicates(s[1..]) by {
        forall i, j | 0 <= i < j < |s[1..]| ensures s[1..][i] != s[1..][j] {
          assert s[1..][i] == s[i + 1] && s[1..][j] == s[j + 1];
        }
      }
      RemoveAllNoDuplicates(s[1..], v);
      RemoveAllRemoves(s[1..], v);
      var r := RemoveAll(s[1..], v);
      assert s[0] !in s[1..] by {
        forall k | 0 <= k < |s[1..]| ensures s[1..][k] != s[0] {
          assert s[1..][k] == s[k + 1];
        }
      }
      assert multiset(s[1..])[s[0]] == 0;
      if s[0] != v {
        assert multiset(r)[s[0]] == 0;
        assert s[0] !in r;
        forall i, j | 0 <= i < j < |[s[0]] + r| ensures ([s[0]] + r)[i] != ([s[0]] + r)[j] {
          if i == 0 {
            assert ([s[0]] + r)[j] == r[j - 1];
          } else {
            assert ([s[0]] + r)[i] == r[i - 1] && ([s[0]] + r)[j] == r[j - 1];
          }
        }
      }
    }
  }

  /** On a sequence without duplicates that starts with `v`, removing `v` is dropping the
      head. */
  lemma RemoveHeadOfDistinct(s: seq<VideoId>, v: VideoId)
    requires NoDuplicates(s) && |s| > 0 && s[0] == v
    ensures RemoveAll(s, v) == s[1..]
  {
    assert v !in s[1..] by {
      forall k | 0 <= k < |s[1..]| ensures s[1..][k] != v {
        assert s[1..][k] == s[k + 1];
      }
    }
    RemoveAllAbsent(s[1..], v);
  }

  /** The two stored collections the middleware changes. */
  class WatchStore {
    var history: seq<VideoId>
    var views: map<VideoId, nat>

    constructor (history: seq<VideoId>, views: map<VideoId, nat>)
      ensures this.history == history && this.views == views
    {
      this.history := history;
      this.views := views;
    }

    /** `User.findByIdAndUpdate(id, { $pull: { watchHistory: v } })`. */
    method Pull(v: VideoId)
      modifies this
      ensures history == RemoveAll(old(history), v) && views == old(views)
    {
      history := RemoveAll(history, v);
    }

    /** `$push: { watchHistory: { $each: [v], $position: 0 } }`. */
    method PushFront(v: VideoId)
      modifies this
      ensures history == [v] + old(history) && views == old(views)
    {
      history := [v] + history;
    }

    /** `Video.findByIdAndUpdate(v, { $inc: { views: 1 } })`. */
    method IncViews(v: VideoId)
      requires v in views
      modifies this
      ensures views == old(views)[v := old(views)[v] + 1] && history == old(history)
    {
      views := views[v := views[v] + 1];
    }
  }

  /** The new history and view counters, and the calls made to `next`, in order (`None` for a
      plain `next()`, `Some(e)` for `next(e)` from `asyncHandler`). */
  datatype Outcome = Outcome(history: seq<VideoId>, views: map<VideoId, nat>, nextCalls: seq<Option<Thrown>>)

  /** The middleware as written. When the history already starts with the video, `next()` is
      called and, with no `return` after it, the handler goes on through the
      "already in the history" branch and calls `next()` again at the end. */
  function ViewAsWritten(history: seq<VideoId>, views: map<VideoId, nat>, videoId: Option<string>): Outcome
  {
    if !Present(videoId) then Outcome(history, views, [Some(ApiError(400, IdRequiredMessage))])
    else
      var v := videoId.value;
      if v !in views then Outcome(history, views, [Some(ApiError(404, VideoNotFoundMessage))])
      else
        var early := if |history| > 0 && history[0] == v then [None] else [];
        if v in history then Outcome([v] + RemoveAll(history, v), views, early + [None])
        else Outcome([v] + history, views[v := views[v] + 1], early + [None])
  }

  method UpdateWatchHistory(store: WatchStore, req: Accounts.Request, videoId: Option<string>)
    modifies store, req
    ensures var out := ViewAsWritten(old(store.history), old(store.views), videoId);
      && store.history == out.history && store.views == out.views
      && req.nextCalls == old(req.nextCalls) + out.nextCalls
      && req.user == old(req.user)
  {
    if !Present(videoId) {
      req.nextCalls := req.nextCalls + [Some(ApiError(400, IdRequiredMessage))];
      return;
    }
    var v := videoId.value;
    if v !in store.views {
      req.nextCalls := req.nextCalls + [Some(ApiError(404, VideoNotFoundMessage))];
      return;
    }
    if |store.history| > 0 && store.history[0] == v {
      req.nextCalls := req.nextCalls + [None];
    }
    if v in store.history {
      store.Pull(v);
      store.PushFront(v);
    } else {
      store.PushFront(v);
      store.IncViews(v);
    }
    req.nextCalls := req.nextCalls + [None];
  }

  /** The middleware with `return next()` in the repeat branch: a repeated open of the video
      at the front of the history passes control on once and changes nothing. */
  function View(history: seq<VideoId>, views: map<VideoId, nat>, videoId: Option<string>): Outcome
  {
    if Present(videoId) && videoId.value in views && |history| > 0 && history[0] == videoId.value then
      Outcome(history, views, [None])
    else ViewAsWritten(history, views, videoId)
  }

  /** A missing id is 400 and an unknown video 404; either way nothing is stored and `next`
      receives the error once. */
  lemma ViewErrors(history: seq<VideoId>, views: map<VideoId, nat>, videoId: Option<string>)
    ensures !Present(videoId) ==>
      ViewAsWritten(history, views, videoId) == Outcome(history, views, [Some(ApiError(400, IdRequiredMessage))])
    ensures Present(videoId) && videoId.value !in views ==>
      ViewAsWritten(history, views, videoId) == Outcome(history, views, [Some(ApiError(404, VideoNotFoundMessage))])
  {
  }

  /** After a successful call the video is at the front and occurs exactly once; every other
      entry keeps its content and relative order; the set of known videos is the same and
      no counter goes down; the video's counter goes up by one exactly when it was not in
      the history before, and every other counter is unchanged. */
  lemma ViewMovesToFront(history: seq<VideoId>, views: map<VideoId, nat>, v: VideoId)
    requires v != "" && v in views
    ensures var out := ViewAsWritten(history, views, Some(v));
      && |out.history| > 0 && out.history[0] == v
      && multiset(out.history)[v] == 1
      && RemoveAll(out.history, v) == RemoveAll(history, v)
      && out.views.Keys == views.Keys
      && (forall k :: k in views ==> out.views[k] >= views[k])
      && (forall k :: k in views && k != v ==> out.views[k] == views[k])
      && out.views[v] == views[v] + (if v in history then 0 else 1)
  {
    RemoveAllRemoves(history, v);
    if v !in history {
      RemoveAllAbsent(history, v);
    }
    var out := ViewAsWritten(history, views, Some(v));
    assert out.history == [v] + RemoveAll(history, v) || out.history == [v] + history;
    assert out.history[1..] == RemoveAll(history, v);
    RemoveAllAbsent(RemoveAll(history, v), v);
    assert RemoveAll(out.history, v) == RemoveAll(out.history[1..], v);
  }

  /** With a history without duplicates, a successful call leaves it without duplicates. */
  lemma ViewKeepsNoDuplicates(history: seq<VideoId>, views: map<VideoId, nat>, v: VideoId)
    requires v != "" && v in views && NoDuplicates(history)
    ensures NoDuplicates(ViewAsWritten(history, views, Some(v)).history)
  {
    RemoveAllNoDuplicates(history, v);
    RemoveAllRemoves(history, v);
    if v !in history {
      RemoveAllAbsent(history, v);
    }
    var r := RemoveAll(history, v);
    var h := [v] + r;
    assert ViewAsWritten(history, views, Some(v)).history == h;
    forall i, j | 0 <= i < j < |h| ensures h[i] != h[j] {
      assert h[j] == r[j - 1];
      if i > 0 { assert h[i] == r[i - 1]; }
    }
  }

  /** The missing `return`: opening the video that is already at the front of a history
      without duplicates leaves the history and the counters as they were, but `next()` is
      reached twice. The corrected middleware gives the same state and reaches `next()` once. */
  lemma RepeatRefreshCallsNextTwice(history: seq<VideoId>, views: map<VideoId, nat>, v: VideoId)
    requires v != "" && v in views && NoDuplicates(history) && |history| > 0 && history[0] == v
    ensures var out := ViewAsWritten(history, views, Some(v));
      out.history == history && out.views == views && out.nextCalls == [None, None]
    ensures View(history, views, Some(v)) == Outcome(history, views, [None])
  {
    RemoveHeadOfDistinct(history, v);
    assert history == [v] + history[1..];
  }

  /** The corrected middleware calls `next` exactly once on every input, and differs from
      the handler as written only in the repeat case, where both leave the same state on a
      history without duplicates. */
  lemma ViewCallsNextOnce(history: seq<VideoId>, views: map<VideoId, nat>, videoId: Option<string>)
    ensures |View(history, views, videoId).nextCalls| == 1
    ensures !(Present(videoId) && videoId.value in views && |history| > 0 && history[0] == videoId.value) ==>
      View(history, views, videoId) == ViewAsWritten(history, views, videoId)
    ensures |ViewAsWritten(history, views, videoId).nextCalls| ==
      (if Present(videoId) && videoId.value in views && |history| > 0 && history[0] == videoId.value then 2 else 1)
  {
  }
}
