/** The read-only profile page of another user
    (frontend-web/src/pages/ViewProfile.js). The route id is parsed with
    `parseInt`; an unparsable id is `None` (NaN, equal to nothing). The page
    keeps its state between route changes: `loadProfile` overwrites what it
    reaches and leaves the rest. */
module ViewProfile {
  import opened Wrappers
  import opened Js
  import opened Entities

  /** The page's state hooks. `user` is `None` while nobody was found, and
      the page then renders "Profile not found". */
  datatype Page = Page(user: Option<User>, profile: Option<Profile>, photos: seq<Photo>,
                       skills: seq<ChildRecord>, interests: seq<ChildRecord>,
                       organizations: seq<ChildRecord>, languages: seq<ChildRecord>)

  /** The state on mount. */
  const Initial := Page(None, None, [], [], [], [], [])

  /** The six lists awaited together in one `Promise.all`. */
  datatype Tables = Tables(users: seq<User>, profiles: seq<Profile>,
                           skills: seq<ChildRecord>, interests: seq<ChildRecord>,
                           organizations: seq<ChildRecord>, languages: seq<ChildRecord>)

  /** `u.userId === parseInt(userId)`: nothing equals NaN. */
  predicate IsRouteId(routeId: Option<int>, id: JsId) {
    routeId.Some? && id == Num(routeId.value)
  }

  /** `loadProfile`. If the lists cannot be fetched nothing changes.
      Otherwise the user, the profile and the four lists are replaced by the
      route id's first user, first profile and entries. The photos are
      replaced only when a profile was found and its photos arrived; in every
      other case the previous photos stay. */
  function Load(before: Page, routeId: Option<int>, fetched: Fetch<Tables>,
                photosOf: JsId -> Fetch<seq<Photo>>): (r: Page)
    ensures fetched.FetchFailed? ==> r == before
    ensures fetched.Fetched? && routeId.None? ==>
      r == before.(user := None, profile := None, skills := [], interests := [], organizations := [], languages := [])
    ensures fetched.Fetched? && routeId.Some? ==>
      var t := fetched.value;
      var id := Num(routeId.value);
      && r.user == UserById(t.users, id)
      && r.profile == ProfileOf(t.profiles, id)
      && r.skills == OwnedBy(t.skills, id) && r.interests == OwnedBy(t.interests, id)
      && r.organizations == OwnedBy(t.organizations, id) && r.languages == OwnedBy(t.languages, id)
    ensures fetched.Fetched? && r.profile.Some? ==>
      r.photos == ValueOr(photosOf(r.profile.value.profileId), before.photos)
    ensures r.profile.None? ==> r.photos == before.photos
  {
    match fetched
    case FetchFailed(_) => before
    case Fetched(t) =>
      if routeId.None? then
        before.(user := None, profile := None, skills := [], interests := [], organizations := [], languages := [])
      else
        var id := Num(routeId.value);
        var profile := ProfileOf(t.profiles, id);
        var photos := if profile.Some? then ValueOr(photosOf(profile.value.profileId), before.photos)
                      else before.photos;
        Page(UserById(t.users, id), profile, photos, OwnedBy(t.skills, id), OwnedBy(t.interests, id),
             OwnedBy(t.organizations, id), OwnedBy(t.languages, id))
  }

  /** On a first visit the page says "Profile not found" exactly when the
      lists could not be fetched, the route id is not a number, or no user
      has that id. */
  lemma FirstVisitNotFound(routeId: Option<int>, fetched: Fetch<Tables>, photosOf: JsId -> Fetch<seq<Photo>>)
    ensures Load(Initial, routeId, fetched, photosOf).user.None?
            <==> fetched.FetchFailed? || routeId.None?
                 || forall i :: 0 <= i < |fetched.value.users| ==> !IsRouteId(routeId, fetched.value.users[i].userId)
  {
    if fetched.Fetched? && routeId.Some? {
      LookupIsFirst(fetched.value.users, fetched.value.profiles, Num(routeId.value));
    }
  }

  /** After a successful load the user shown carries the route id and the
      lists hold that user's entries and nobody else's. */
  lemma ShownListsBelongToUser(before: Page, routeId: Option<int>, fetched: Fetch<Tables>,
                               photosOf: JsId -> Fetch<seq<Photo>>)
    requires fetched.Fetched?
    ensures var r := Load(before, routeId, fetched, photosOf);
      r.user.Some? ==>
        && IsRouteId(routeId, r.user.value.userId)
        && (forall c :: c in r.skills <==> c in fetched.value.skills && IsRouteId(routeId, c.owner))
        && (forall c :: c in r.interests <==> c in fetched.value.interests && IsRouteId(routeId, c.owner))
        && (forall c :: c in r.organizations <==> c in fetched.value.organizations && IsRouteId(routeId, c.owner))
        && (forall c :: c in r.languages <==> c in fetched.value.languages && IsRouteId(routeId, c.owner))
  {
    var r := Load(before, routeId, fetched, photosOf);
    if r.user.Some? {
      var t := fetched.value;
      var id := Num(routeId.value);
      LookupIsFirst(t.users, t.profiles, id);
      OwnedByExact(t.skills, id, []);
      OwnedByExact(t.interests, id, []);
      OwnedByExact(t.organizations, id, []);
      OwnedByExact(t.languages, id, []);
    }
  }

  /** Moving from a user with photos to one without a profile keeps showing
      the first user's photos. */
  lemma PhotosOfPreviousUserLinger(before: Page, id: int, fetched: Fetch<Tables>,
                                   photosOf: JsId -> Fetch<seq<Photo>>)
    requires fetched.Fetched?
    requires forall i :: 0 <= i < |fetched.value.profiles| ==> fetched.value.profiles[i].owner != Num(id)
    ensures Load(before, Some(id), fetched, photosOf).photos == before.photos
  {
    LookupIsFirst(fetched.value.users, fetched.value.profiles, Num(id));
  }
}
