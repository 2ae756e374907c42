/**
 * The "viewed" markers: a user marks a provider movie as viewed, or takes
 * the mark back. The store is abstracted to a media table mapping provider
 * ids to local media ids, and a view table keyed by (user, media id)
 * holding the view's id. New rows take the next value of a counter, as
 * the store's auto-increment keys do.
 */
module ViewsController {
  import opened Wrappers
  import ErrorMiddleware

  type UserId = int

  datatype State = State(
    media: map<int, nat>,
    views: map<(UserId, nat), nat>,
    nextMediaId: nat,
    nextViewId: nat)

  /** The error the controller hands to the error handler. */
  datatype ApiError = ApiError(status: int, message: string)

  /** `Created` carries the new view's id (`user_media_viewId`); `Deleted` is `data: true`. */
  datatype ViewReply = Created(viewId: nat) | Deleted | Rejected(error: ApiError)

  datatype Transition = Transition(state: State, reply: ViewReply)

  const AlreadyViewed: string := "Media already marked as viewed by this user"
  const MediaNotFound: string := "Media not found"
  const NotViewed: string := "Media not marked as viewed by this user"

  predicate HasMediaId(s: State, id: nat)
  {
    exists t | t in s.media :: s.media[t] == id
  }

  /**
   * The store's consistency: media ids and view ids are below their
   * counters and unique, and every view refers to a media row.
   */
  predicate Valid(s: State)
  {
    && (forall t | t in s.media :: s.media[t] < s.nextMediaId)
    && (forall t1, t2 | t1 in s.media && t2 in s.media && t1 != t2 :: s.media[t1] != s.media[t2])
    && (forall v | v in s.views :: HasMediaId(s, v.1))
    && (forall v | v in s.views :: s.views[v] < s.nextViewId)
    && (forall v1, v2 | v1 in s.views && v2 in s.views && v1 != v2 :: s.views[v1] != s.views[v2])
  }

  /** The media row of a provider id, created with the next id when there is none. */
  function FindOrCreateMedia(s: State, tmdbId: int): (r: (State, nat))
    ensures tmdbId in r.0.media && r.0.media[tmdbId] == r.1
    ensures r.0.views == s.views && r.0.nextViewId == s.nextViewId
    ensures tmdbId in s.media ==> r.0 == s
    ensures tmdbId !in s.media ==> r.0.media == s.media[tmdbId := s.nextMediaId]
    ensures Valid(s) && tmdbId !in s.media ==> !HasMediaId(s, r.1)
  {
    if tmdbId in s.media then (s, s.media[tmdbId])
    else (s.(media := s.media[tmdbId := s.nextMediaId], nextMediaId := s.nextMediaId + 1), s.nextMediaId)
  }

  /**
   * Marks a provider movie as viewed by a user: find or create its media
   * row, then refuse a second view of the same pair, else add it.
   */
  function CreateViewed(s: State, user: UserId, tmdbId: int): (r: Transition)
    ensures r.state.media.Keys == s.media.Keys + {tmdbId}
    ensures tmdbId in s.media ==> r.state.media == s.media
    ensures tmdbId !in s.media ==> r.state.media == s.media[tmdbId := s.nextMediaId]
    ensures (user, r.state.media[tmdbId]) in s.views ==>
              r.reply == Rejected(ApiError(400, AlreadyViewed)) && r.state.views == s.views
    ensures (user, r.state.media[tmdbId]) !in s.views ==>
              && r.reply.Created?
              && r.state.views.Keys == s.views.Keys + {(user, r.state.media[tmdbId])}
              && r.state.views[(user, r.state.media[tmdbId])] == r.reply.viewId
              && (forall v | v in s.views :: r.state.views[v] == s.views[v])
    ensures !r.reply.Deleted?
  {
    var (s1, mediaId) := FindOrCreateMedia(s, tmdbId);
    if (user, mediaId) in s1.views then Transition(s1, Rejected(ApiError(400, AlreadyViewed)))
    else
      Transition(
        s1.(views := s1.views[(user, mediaId) := s1.nextViewId], nextViewId := s1.nextViewId + 1),
        Created(s1.nextViewId))
  }

  /** Takes back a user's view of a provider movie; a missing media row or view is refused. */
  function DeleteViewed(s: State, user: UserId, tmdbId: int): (r: Transition)
    ensures tmdbId !in s.media ==> r == Transition(s, Rejected(ApiError(400, MediaNotFound)))
    ensures tmdbId in s.media && (user, s.media[tmdbId]) !in s.views ==>
              r == Transition(s, Rejected(ApiError(400, NotViewed)))
    ensures r.reply.Deleted? <==> tmdbId in s.media && (user, s.media[tmdbId]) in s.views
    ensures r.reply.Deleted? ==>
              && r.state.media == s.media
              && r.state.views.Keys == s.views.Keys - {(user, s.media[tmdbId])}
              && (forall v | v in r.state.views :: r.state.views[v] == s.views[v])
    ensures !r.reply.Created?
  {
    if tmdbId !in s.media then Transition(s, Rejected(ApiError(400, MediaNotFound)))
    else
      var pair := (user, s.media[tmdbId]);
      if pair !in s.views then Transition(s, Rejected(ApiError(400, NotViewed)))
      else Transition(s.(views := s.views - {pair}), Deleted)
  }

  /** Finding or creating a media row keeps the store consistent. */
  lemma FindOrCreatePreservesValid(s: State, tmdbId: int)
    requires Valid(s)
    ensures Valid(FindOrCreateMedia(s, tmdbId).0)
  {
    var s1 := FindOrCreateMedia(s, tmdbId).0;
    forall v | v in s1.views
      ensures HasMediaId(s1, v.1)
    {
      var t :| t in s.media && s.media[t] == v.1;
      assert t in s1.media && s1.media[t] == v.1;
    }
  }

  /** Adding a view of an existing media row under the next view id keeps the store consistent. */
  lemma AddViewPreservesValid(s: State, pair: (UserId, nat))
    requires Valid(s) && HasMediaId(s, pair.1) && pair !in s.views
    ensures Valid(s.(views := s.views[pair := s.nextViewId], nextViewId := s.nextViewId + 1))
  {
  }

  /** In a consistent store, a created view gets an id no other view has. */
  lemma NewViewIdUnused(s: State, user: UserId, tmdbId: int)
    requires Valid(s)
    requires CreateViewed(s, user, tmdbId).reply.Created?
    ensures forall v | v in s.views :: s.views[v] != CreateViewed(s, user, tmdbId).reply.viewId
  {
  }

  /** Creating a view keeps the store consistent. */
  lemma CreatePreservesValid(s: State, user: UserId, tmdbId: int)
    requires Valid(s)
    ensures Valid(CreateViewed(s, user, tmdbId).state)
  {
    var (s1, mediaId) := FindOrCreateMedia(s, tmdbId);
    FindOrCreatePreservesValid(s, tmdbId);
    if (user, mediaId) !in s1.views {
      assert HasMediaId(s1, mediaId);
      AddViewPreservesValid(s1, (user, mediaId));
    }
  }

  /** Taking a view back keeps the store consistent. */
  lemma DeletePreservesValid(s: State, user: UserId, tmdbId: int)
    requires Valid(s)
    ensures Valid(DeleteViewed(s, user, tmdbId).state)
  {
  }

  /** In a consistent store a refused creation changes nothing: a fresh media row has no views yet. */
  lemma RejectedCreateChangesNothing(s: State, user: UserId, tmdbId: int)
    requires Valid(s)
    requires CreateViewed(s, user, tmdbId).reply.Rejected?
    ensures CreateViewed(s, user, tmdbId).state == s
  {
  }

  /** Creating a view and then deleting it gives back the original views. */
  lemma CreateThenDelete(s: State, user: UserId, tmdbId: int)
    requires Valid(s)
    requires CreateViewed(s, user, tmdbId).reply.Created?
    ensures DeleteViewed(CreateViewed(s, user, tmdbId).state, user, tmdbId).reply == Deleted
    ensures DeleteViewed(CreateViewed(s, user, tmdbId).state, user, tmdbId).state.views == s.views
  {
  }

  /**
   * A refused request reaches the client as a JSON failure with status 400
   * and the controller's message, whatever the error class is called, as
   * long as it is not the expired-token class.
   */
  lemma RejectionsReachClient(e: ApiError, name: string)
    requires e.status == 400 && name != ErrorMiddleware.TokenExpiredName
    ensures ErrorMiddleware.HandleError(ErrorMiddleware.AppError(Some(e.status), None, name, Some(e.message)), false)
            == ErrorMiddleware.Json(400, ErrorMiddleware.FailJson("fail", Some(e.message)))
  {
  }
}
