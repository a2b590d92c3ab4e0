/** The candidate list and swipe queue of the web Discover page
    (frontend-web/src/pages/Discover.js). The great-circle distance, the
    photo-URL resolution and every fetch are inputs. */
module Discover {
  import opened Wrappers
  import opened Js
  import opened Entities
  import Seqs

  /** `filters`: selected years, the nearby switch and its radius in km. */
  datatype Filters = Filters(years: seq<string>, locationEnabled: bool, maxDistance: int)

  const DefaultFilters := Filters([], false, 50)

  /** A user as shown on a card: `{...user, profile, major, location,
      latitude, longitude, photoUrl}` plus the `_distance` annotation. */
  datatype Candidate = Candidate(
    user: User,
    profile: Option<Profile>,
    major: string,
    location: string,
    latitude: Option<real>,
    longitude: Option<real>,
    photoUrl: Option<string>,
    distance: Option<real>)

  /** The photo a card shows: the first primary photo, else the first photo. */
  function CardPhoto(photos: seq<Photo>): (r: Option<Photo>)
    ensures r.None? <==> |photos| == 0
    ensures r.Some? ==> r.value in photos
    ensures (exists i :: 0 <= i < |photos| && photos[i].isPrimary) ==>
      r.Some? && r.value.isPrimary
      && exists i :: 0 <= i < |photos| && photos[i] == r.value
                     && forall j :: 0 <= j < i ==> !photos[j].isPrimary
    ensures (forall i :: 0 <= i < |photos| ==> !photos[i].isPrimary) && |photos| > 0 ==>
      r == Some(photos[0])
  {
    match Seqs.Find(photos, (p: Photo) => p.isPrimary)
    case Some(p) => Some(p)
    case None => if |photos| > 0 then Some(photos[0]) else None
  }

  /** The card's photo URL: fetched only for a profile with a truthy id,
      resolved when the chosen photo has a URL, absent when the fetch threw. */
  function CardPhotoUrl(profile: Option<Profile>, photosOf: JsId -> Fetch<seq<Photo>>,
                        absolutize: string -> string): (r: Option<string>)
    ensures (profile.None? || !Truthy(profile.value.profileId)) ==> r.None?
    ensures profile.Some? && photosOf(profile.value.profileId).FetchFailed? ==> r.None?
    ensures r.Some? <==>
      && profile.Some? && Truthy(profile.value.profileId) && photosOf(profile.value.profileId).Fetched?
      && CardPhoto(photosOf(profile.value.profileId).value).Some?
      && TextTruthy(CardPhoto(photosOf(profile.value.profileId).value).value.photoUrl)
    ensures r.Some? ==>
      r.value == absolutize(CardPhoto(photosOf(profile.value.profileId).value).value.photoUrl.value)
  {
    if profile.None? || !Truthy(profile.value.profileId) then None
    else
      match photosOf(profile.value.profileId)
      case FetchFailed(_) => None
      case Fetched(photos) =>
        var chosen := CardPhoto(photos);
        if chosen.Some? && TextTruthy(chosen.value.photoUrl) then Some(absolutize(chosen.value.photoUrl.value))
        else None
  }

  /** A card shows its profile's first primary photo whenever that photo
      has a URL and the fetch succeeded, whatever photos come before it. */
  lemma CardShowsFirstPrimary(profile: Profile, photosOf: JsId -> Fetch<seq<Photo>>,
                              absolutize: string -> string, k: nat)
    requires Truthy(profile.profileId) && photosOf(profile.profileId).Fetched?
    requires var photos := photosOf(profile.profileId).value;
             k < |photos| && photos[k].isPrimary && TextTruthy(photos[k].photoUrl)
             && forall j :: 0 <= j < k ==> !photos[j].isPrimary
    ensures CardPhotoUrl(Some(profile), photosOf, absolutize)
         == Some(absolutize(photosOf(profile.profileId).value[k].photoUrl.value))
  {
    var photos := photosOf(profile.profileId).value;
    var chosen := CardPhoto(photos);
    var i :| 0 <= i < |photos| && photos[i] == chosen.value && forall j :: 0 <= j < i ==> !photos[j].isPrimary;
    assert i == k;
  }

  /** The `map` step: profile lookup, photo, and location fallbacks. */
  function Enrich(user: User, profiles: seq<Profile>, photosOf: JsId -> Fetch<seq<Photo>>,
                  absolutize: string -> string): (c: Candidate)
    ensures c.user == user && c.distance.None?
    ensures c.profile == ProfileOf(profiles, user.userId)
    ensures c.profile.Some? && TextTruthy(c.profile.value.location) ==> c.location == c.profile.value.location.value
    ensures (c.profile.None? || !TextTruthy(c.profile.value.location)) ==> c.location == TextOr(user.location, None)
    ensures c.profile.Some? && CoordTruthy(c.profile.value.latitude) ==> c.latitude == c.profile.value.latitude
    ensures (c.profile.None? || !CoordTruthy(c.profile.value.latitude)) ==> c.latitude == user.latitude
    ensures c.profile.Some? && CoordTruthy(c.profile.value.longitude) ==> c.longitude == c.profile.value.longitude
    ensures (c.profile.None? || !CoordTruthy(c.profile.value.longitude)) ==> c.longitude == user.longitude
    ensures c.profile.Some? && TextTruthy(c.profile.value.major) ==> c.major == c.profile.value.major.value
    ensures (c.profile.None? || !TextTruthy(c.profile.value.major)) ==> c.major == ""
    ensures c.photoUrl == CardPhotoUrl(c.profile, photosOf, absolutize)
  {
    var profile := ProfileOf(profiles, user.userId);
    var pMajor := if profile.Some? then profile.value.major else None;
    var pLocation := if profile.Some? then profile.value.location else None;
    var pLat := if profile.Some? then profile.value.latitude else None;
    var pLon := if profile.Some? then profile.value.longitude else None;
    Candidate(user, profile, TextOr(pMajor, None), TextOr(pLocation, user.location),
              CoordOr(pLat, user.latitude), CoordOr(pLon, user.longitude),
              CardPhotoUrl(profile, photosOf, absolutize), None)
  }

  /** The ids in the swipe history (`swipee?.userId || swipee?.id`). */
  function SwipedIds(swipes: seq<Swipe>): (r: set<JsId>)
    ensures forall i :: 0 <= i < |swipes| ==> PartyId(swipes[i].swipee) in r
    ensures forall id :: id in r ==> exists i :: 0 <= i < |swipes| && PartyId(swipes[i].swipee) == id
  {
    set i | 0 <= i < |swipes| :: PartyId(swipes[i].swipee)
  }

  /** Not the current user and never swiped, whatever the swipe was. */
  function Unseen(currentUserId: JsId, swiped: set<JsId>): User -> bool {
    (u: User) => u.userId != currentUserId && u.userId !in swiped
  }

  /** Where the current user is, from their profile or else their account. */
  function HomeCoords(currentUserId: JsId, users: seq<User>, profiles: seq<Profile>): (Option<real>, Option<real>) {
    var me := UserById(users, currentUserId);
    var myProfile := ProfileOf(profiles, currentUserId);
    var uLat := if me.Some? then me.value.latitude else None;
    var uLon := if me.Some? then me.value.longitude else None;
    var pLat := if myProfile.Some? then myProfile.value.latitude else None;
    var pLon := if myProfile.Some? then myProfile.value.longitude else None;
    (CoordOr(pLat, uLat), CoordOr(pLon, uLon))
  }

  /** The `_distance` annotation: set only when both ends have truthy coordinates. */
  function WithDistance(c: Candidate, home: (Option<real>, Option<real>),
                        distance: (real, real, real, real) -> real): (r: Candidate)
    ensures CoordTruthy(home.0) && CoordTruthy(home.1) && CoordTruthy(c.latitude) && CoordTruthy(c.longitude) ==>
      r == c.(distance := Some(distance(home.0.value, home.1.value, c.latitude.value, c.longitude.value)))
    ensures !(CoordTruthy(home.0) && CoordTruthy(home.1) && CoordTruthy(c.latitude) && CoordTruthy(c.longitude)) ==>
      r == c
  {
    if CoordTruthy(home.0) && CoordTruthy(home.1) && CoordTruthy(c.latitude) && CoordTruthy(c.longitude) then
      c.(distance := Some(distance(home.0.value, home.1.value, c.latitude.value, c.longitude.value)))
    else c
  }

  /** `user.profile && filters.years.includes(user.profile.year)`. */
  predicate InYears(c: Candidate, years: seq<string>) {
    c.profile.Some? && c.profile.value.year.Some? && c.profile.value.year.value in years
  }

  /** Truthy coordinates and `_distance <= maxDistance`; an unset distance
      compares false. */
  predicate Nearby(c: Candidate, maxDistance: int) {
    CoordTruthy(c.latitude) && CoordTruthy(c.longitude)
    && c.distance.Some? && c.distance.value <= maxDistance as real
  }

  function YearFilter(years: seq<string>): Candidate -> bool {
    (c: Candidate) => InYears(c, years)
  }

  function NearbyFilter(maxDistance: int): Candidate -> bool {
    (c: Candidate) => Nearby(c, maxDistance)
  }

  /** One user as the page shows them: enriched, then measured. */
  function MeasureOne(profiles: seq<Profile>, photosOf: JsId -> Fetch<seq<Photo>>,
                      absolutize: string -> string, home: (Option<real>, Option<real>),
                      distance: (real, real, real, real) -> real): User -> Candidate {
    (u: User) => WithDistance(Enrich(u, profiles, photosOf, absolutize), home, distance)
  }

  /** Exclusion, enrichment and distances: every unseen user of the pool,
      in pool order, as a measured candidate. */
  function Measure(pool: seq<User>, currentUserId: JsId, swiped: set<JsId>,
                   profiles: seq<Profile>, photosOf: JsId -> Fetch<seq<Photo>>,
                   absolutize: string -> string, home: (Option<real>, Option<real>),
                   distance: (real, real, real, real) -> real): (r: seq<Candidate>)
    ensures |r| == |Seqs.Filter(pool, Unseen(currentUserId, swiped))|
    ensures forall c :: c in r ==> c.user in pool && c.user.userId != currentUserId && c.user.userId !in swiped
    ensures !CoordTruthy(home.0) || !CoordTruthy(home.1) ==> forall c :: c in r ==> c.distance.None?
  {
    var kept := Seqs.Filter(pool, Unseen(currentUserId, swiped));
    var f := MeasureOne(profiles, photosOf, absolutize, home, distance);
    var measured := Seqs.Map(kept, f);
    forall c | c in measured
      ensures c.user in kept
      ensures !CoordTruthy(home.0) || !CoordTruthy(home.1) ==> c.distance.None?
    {
      var k :| 0 <= k < |measured| && measured[k] == c;
      MeasureOneFacts(profiles, photosOf, absolutize, home, distance, kept[k]);
    }
    measured
  }

  lemma MeasureOneFacts(profiles: seq<Profile>, photosOf: JsId -> Fetch<seq<Photo>>,
                        absolutize: string -> string, home: (Option<real>, Option<real>),
                        distance: (real, real, real, real) -> real, u: User)
    ensures var c := MeasureOne(profiles, photosOf, absolutize, home, distance)(u);
            c.user == u && (!CoordTruthy(home.0) || !CoordTruthy(home.1) ==> c.distance.None?)
  {
  }

  /** The two optional filters: the year filter when a year is selected,
      then the nearby filter when it is switched on. */
  function ApplyFilters(measured: seq<Candidate>, filters: Filters): (r: seq<Candidate>)
    ensures |r| <= |measured|
    ensures forall c :: c in r ==>
      && c in measured
      && (|filters.years| > 0 ==> InYears(c, filters.years))
      && (filters.locationEnabled ==> Nearby(c, filters.maxDistance))
  {
    var byYear := if |filters.years| > 0 then Seqs.Filter(measured, YearFilter(filters.years)) else measured;
    if filters.locationEnabled then Seqs.Filter(byYear, NearbyFilter(filters.maxDistance)) else byYear
  }

  /** The selection stages after the current user's position is known. */
  function Select(pool: seq<User>, currentUserId: JsId, swiped: set<JsId>,
                  profiles: seq<Profile>, photosOf: JsId -> Fetch<seq<Photo>>,
                  absolutize: string -> string, home: (Option<real>, Option<real>),
                  distance: (real, real, real, real) -> real, filters: Filters): seq<Candidate>
  {
    ApplyFilters(Measure(pool, currentUserId, swiped, profiles, photosOf, absolutize, home, distance), filters)
  }

  /** What every selected candidate satisfies. */
  lemma SelectSound(pool: seq<User>, currentUserId: JsId, swiped: set<JsId>,
                    profiles: seq<Profile>, photosOf: JsId -> Fetch<seq<Photo>>,
                    absolutize: string -> string, home: (Option<real>, Option<real>),
                    distance: (real, real, real, real) -> real, filters: Filters)
    ensures var r := Select(pool, currentUserId, swiped, profiles, photosOf, absolutize, home, distance, filters);
      && |r| <= |pool|
      && forall c :: c in r ==>
           && c.user in pool && c.user.userId != currentUserId && c.user.userId !in swiped
           && (|filters.years| > 0 ==> InYears(c, filters.years))
           && (filters.locationEnabled ==> Nearby(c, filters.maxDistance))
  {
  }

  /** The candidate list `loadUsers` computes for the current user. */
  function Candidates(currentUserId: JsId, users: seq<User>, profiles: seq<Profile>, swipes: seq<Swipe>,
                          photosOf: JsId -> Fetch<seq<Photo>>, absolutize: string -> string,
                          distance: (real, real, real, real) -> real, filters: Filters): (r: seq<Candidate>)
    ensures |r| <= |users|
    ensures forall c :: c in r ==>
      && c.user in users
      && c.user.userId != currentUserId
      && (forall i :: 0 <= i < |swipes| ==> c.user.userId != PartyId(swipes[i].swipee))
      && (|filters.years| > 0 ==> InYears(c, filters.years))
      && (filters.locationEnabled ==> Nearby(c, filters.maxDistance))
  {
    SelectSound(users, currentUserId, SwipedIds(swipes), profiles, photosOf, absolutize,
                HomeCoords(currentUserId, users, profiles), distance, filters);
    Select(users, currentUserId, SwipedIds(swipes), profiles, photosOf, absolutize,
           HomeCoords(currentUserId, users, profiles), distance, filters)
  }

  /** The page state a load and a swipe touch: the cards and the index of
      the card on top. */
  datatype Deck = Deck(queue: seq<Candidate>, index: nat)

  /** What `loadUsers` awaits in one `Promise.all`. */
  datatype Directory = Directory(users: seq<User>, profiles: seq<Profile>, swipes: seq<Swipe>)

  /** `loadUsers`: a successful load replaces the cards and puts the first
      one on top; a failed load leaves the page as it was. */
  function LoadUsers(deck: Deck, currentUserId: JsId, fetched: Fetch<Directory>,
                     photosOf: JsId -> Fetch<seq<Photo>>, absolutize: string -> string,
                     distance: (real, real, real, real) -> real, filters: Filters): (r: Deck)
    ensures fetched.FetchFailed? ==> r == deck
    ensures fetched.Fetched? ==>
      && r.index == 0
      && r.queue == Candidates(currentUserId, fetched.value.users, fetched.value.profiles, fetched.value.swipes,
                               photosOf, absolutize, distance, filters)
  {
    match fetched
    case FetchFailed(_) => deck
    case Fetched(d) =>
      Deck(Candidates(currentUserId, d.users, d.profiles, d.swipes, photosOf, absolutize, distance, filters), 0)
  }

  /** Every unseen user who passes the active filters is offered. */
  lemma {:induction false} CandidatesComplete(pool: seq<User>, currentUserId: JsId, swiped: set<JsId>,
                                              profiles: seq<Profile>, photosOf: JsId -> Fetch<seq<Photo>>,
                                              absolutize: string -> string, home: (Option<real>, Option<real>),
                                              distance: (real, real, real, real) -> real, filters: Filters,
                                              u: User)
    requires u in pool && u.userId != currentUserId && u.userId !in swiped
    ensures var c := WithDistance(Enrich(u, profiles, photosOf, absolutize), home, distance);
            (|filters.years| == 0 || InYears(c, filters.years))
            && (!filters.locationEnabled || Nearby(c, filters.maxDistance))
            ==> c in Select(pool, currentUserId, swiped, profiles, photosOf, absolutize, home, distance, filters)
  {
    var c := WithDistance(Enrich(u, profiles, photosOf, absolutize), home, distance);
    var measured := Measure(pool, currentUserId, swiped, profiles, photosOf, absolutize, home, distance);
    MeasureComplete(pool, currentUserId, swiped, profiles, photosOf, absolutize, home, distance, u);
    if (|filters.years| == 0 || InYears(c, filters.years)) && (!filters.locationEnabled || Nearby(c, filters.maxDistance)) {
      var byYear := if |filters.years| > 0 then Seqs.Filter(measured, YearFilter(filters.years)) else measured;
      assert c in byYear by {
        if |filters.years| > 0 {
          assert YearFilter(filters.years)(c);
        }
      }
      if filters.locationEnabled {
        assert NearbyFilter(filters.maxDistance)(c);
        assert c in Seqs.Filter(byYear, NearbyFilter(filters.maxDistance));
      }
    }
  }

  /** Every unseen user of the pool is measured. */
  lemma MeasureComplete(pool: seq<User>, currentUserId: JsId, swiped: set<JsId>,
                        profiles: seq<Profile>, photosOf: JsId -> Fetch<seq<Photo>>,
                        absolutize: string -> string, home: (Option<real>, Option<real>),
                        distance: (real, real, real, real) -> real, u: User)
    requires u in pool && u.userId != currentUserId && u.userId !in swiped
    ensures MeasureOne(profiles, photosOf, absolutize, home, distance)(u)
            in Measure(pool, currentUserId, swiped, profiles, photosOf, absolutize, home, distance)
  {
    var kept := Seqs.Filter(pool, Unseen(currentUserId, swiped));
    assert Unseen(currentUserId, swiped)(u);
    var k :| 0 <= k < |kept| && kept[k] == u;
    var f := MeasureOne(profiles, photosOf, absolutize, home, distance);
    assert Seqs.Map(kept, f)[k] == f(u);
  }

  /** No ranking: the candidates keep the order of the user list (selection
      distributes over concatenation of the list). */
  lemma {:induction false} CandidatesInListOrder(a: seq<User>, b: seq<User>, currentUserId: JsId, swiped: set<JsId>,
                                                 profiles: seq<Profile>, photosOf: JsId -> Fetch<seq<Photo>>,
                                                 absolutize: string -> string, home: (Option<real>, Option<real>),
                                                 distance: (real, real, real, real) -> real, filters: Filters)
    ensures Select(a + b, currentUserId, swiped, profiles, photosOf, absolutize, home, distance, filters)
         == Select(a, currentUserId, swiped, profiles, photosOf, absolutize, home, distance, filters)
            + Select(b, currentUserId, swiped, profiles, photosOf, absolutize, home, distance, filters)
  {
    var unseen := Unseen(currentUserId, swiped);
    var f := MeasureOne(profiles, photosOf, absolutize, home, distance);
    Seqs.FilterConcat(a, b, unseen);
    var ka := Seqs.Filter(a, unseen);
    var kb := Seqs.Filter(b, unseen);
    Seqs.MapConcat(ka, kb, f);
    var ma := Measure(a, currentUserId, swiped, profiles, photosOf, absolutize, home, distance);
    var mb := Measure(b, currentUserId, swiped, profiles, photosOf, absolutize, home, distance);
    assert ma + mb == Measure(a + b, currentUserId, swiped, profiles, photosOf, absolutize, home, distance);
    Seqs.FilterConcat(ma, mb, YearFilter(filters.years));
    var ya := if |filters.years| > 0 then Seqs.Filter(ma, YearFilter(filters.years)) else ma;
    var yb := if |filters.years| > 0 then Seqs.Filter(mb, YearFilter(filters.years)) else mb;
    Seqs.FilterConcat(ya, yb, NearbyFilter(filters.maxDistance));
  }

  /** With no year selected and the nearby switch off, nobody unseen is
      dropped. */
  lemma NoFiltersKeepEveryone(pool: seq<User>, currentUserId: JsId, swiped: set<JsId>,
                              profiles: seq<Profile>, photosOf: JsId -> Fetch<seq<Photo>>,
                              absolutize: string -> string, home: (Option<real>, Option<real>),
                              distance: (real, real, real, real) -> real, filters: Filters)
    requires filters.years == [] && !filters.locationEnabled
    ensures var r := Select(pool, currentUserId, swiped, profiles, photosOf, absolutize, home, distance, filters);
            var kept := Seqs.Filter(pool, Unseen(currentUserId, swiped));
            && r == Measure(pool, currentUserId, swiped, profiles, photosOf, absolutize, home, distance)
            && |r| == |kept|
            && forall i :: 0 <= i < |r| ==> r[i].user == kept[i]
  {
    var kept := Seqs.Filter(pool, Unseen(currentUserId, swiped));
    forall i | 0 <= i < |kept|
      ensures Measure(pool, currentUserId, swiped, profiles, photosOf, absolutize, home, distance)[i].user == kept[i]
    {
      MeasureOneFacts(profiles, photosOf, absolutize, home, distance, kept[i]);
    }
  }

  /** When the current user has no usable coordinates, no distance is set
      and the nearby filter drops every candidate. */
  lemma NoHomeNoNearby(pool: seq<User>, currentUserId: JsId, swiped: set<JsId>,
                       profiles: seq<Profile>, photosOf: JsId -> Fetch<seq<Photo>>,
                       absolutize: string -> string, home: (Option<real>, Option<real>),
                       distance: (real, real, real, real) -> real, filters: Filters)
    requires !CoordTruthy(home.0) || !CoordTruthy(home.1)
    requires filters.locationEnabled
    ensures Select(pool, currentUserId, swiped, profiles, photosOf, absolutize, home, distance, filters) == []
  {
    var measured := Measure(pool, currentUserId, swiped, profiles, photosOf, absolutize, home, distance);
    var byYear := if |filters.years| > 0 then Seqs.Filter(measured, YearFilter(filters.years)) else measured;
    assert forall i :: 0 <= i < |byYear| ==> byYear[i] in measured;
    Seqs.FilterNone(byYear, NearbyFilter(filters.maxDistance));
  }

  /** `toggleYearFilter`: removes the year if selected, appends it otherwise. */
  function ToggleYear(years: seq<string>, year: string): (r: seq<string>)
    ensures year in r <==> year !in years
    ensures forall y :: y != year ==> (y in r <==> y in years)
  {
    if year in years then Seqs.Filter(years, (y: string) => y != year) else years + [year]
  }

  /** Toggling the same year twice restores the selection as a set. */
  lemma ToggleTwiceSameSet(years: seq<string>, year: string)
    ensures (set y | y in ToggleYear(ToggleYear(years, year), year)) == (set y | y in years)
  {
    var twice := ToggleYear(ToggleYear(years, year), year);
    assert forall y :: y in twice <==> y in years;
  }

  /** Selecting a year that was not selected and deselecting it again
      restores the list itself. */
  lemma ToggleTwiceRestores(years: seq<string>, year: string)
    requires year !in years
    ensures ToggleYear(ToggleYear(years, year), year) == years
  {
    {
      var p := (y: string) => y != year;
      Seqs.FilterConcat(years, [year], p);
      Seqs.FilterAll(years, p);
      assert Seqs.Filter([year], p) == [];
    }
  }

  /** The swipe the page records. */
  datatype SwipeRequest = SwipeRequest(swiper: JsId, swipee: JsId, isLike: bool)

  /** `handleSwipe`: past the end it does nothing; otherwise it records a
      like iff the direction is `'right'`, and the index advances by one
      only when the swipe was stored. */
  function HandleSwipe(index: nat, queue: seq<Candidate>, currentUserId: JsId, direction: string,
                       stored: bool): (r: (Option<SwipeRequest>, nat))
    ensures index >= |queue| ==> r == (None, index)
    ensures index < |queue| ==>
      && r.0 == Some(SwipeRequest(currentUserId, queue[index].user.userId, direction == "right"))
      && r.1 == (if stored then index + 1 else index)
  {
    if index >= |queue| then (None, index)
    else
      var request := SwipeRequest(currentUserId, queue[index].user.userId, direction == "right");
      (Some(request), if stored then index + 1 else index)
  }

  /** One swipe gesture and whether the server stored it. */
  datatype SwipeStep = SwipeStep(direction: string, stored: bool)

  /** How many gestures of a run were stored. */
  function StoredCount(steps: seq<SwipeStep>): nat
    decreases |steps|
  {
    if |steps| == 0 then 0 else (if steps[0].stored then 1 else 0) + StoredCount(steps[1..])
  }

  /** Whether each of the first `room` stored gestures was a like, in
      gesture order: the answer a run should give when `room` cards are left. */
  function StoredLikes(steps: seq<SwipeStep>, room: nat): seq<bool>
    decreases |steps|
  {
    if |steps| == 0 || room == 0 then []
    else if steps[0].stored then [steps[0].direction == "right"] + StoredLikes(steps[1..], room - 1)
    else StoredLikes(steps[1..], room)
  }

  /** Gestures applied one after another from `index`: the swipes the server
      stored, in order, and the final index. */
  function SwipeRun(index: nat, queue: seq<Candidate>, currentUserId: JsId, steps: seq<SwipeStep>)
    : (seq<SwipeRequest>, nat)
    decreases |steps|
  {
    if |steps| == 0 then ([], index)
    else
      var (request, next) := HandleSwipe(index, queue, currentUserId, steps[0].direction, steps[0].stored);
      var (rest, last) := SwipeRun(next, queue, currentUserId, steps[1..]);
      (if request.Some? && steps[0].stored then [request.value] + rest else rest, last)
  }

  /** Over any run of gestures the stored swipes are the cards from the
      starting index on, each exactly once and in queue order: a swipe that
      failed to store leaves the same card on top to be swiped again. The
      index never passes the end of the queue, and until it reaches the end
      it has moved once per stored swipe. Each stored swipe is a like iff
      its gesture was a right swipe. */
  lemma {:induction false} SwipeRunStoresQueueInOrder(index: nat, queue: seq<Candidate>, currentUserId: JsId,
                                                      steps: seq<SwipeStep>)
    requires index <= |queue|
    ensures var (saved, last) := SwipeRun(index, queue, currentUserId, steps);
      && index <= last <= |queue|
      && |saved| == last - index
      && (forall k :: 0 <= k < |saved| ==>
            saved[k].swiper == currentUserId && saved[k].swipee == queue[index + k].user.userId)
      && last <= index + StoredCount(steps)
      && (last < |queue| ==> last == index + StoredCount(steps))
      && |StoredLikes(steps, |queue| - index)| == |saved|
      && (forall k :: 0 <= k < |saved| ==> saved[k].isLike == StoredLikes(steps, |queue| - index)[k])
    decreases |steps|
  {
    if |steps| > 0 {
      var (request, next) := HandleSwipe(index, queue, currentUserId, steps[0].direction, steps[0].stored);
      SwipeRunStoresQueueInOrder(next, queue, currentUserId, steps[1..]);
    }
  }

  /** After a successful load the first stored swipes are the new queue's
      cards from the front. */
  lemma SwipesAfterLoadStartAtFirstCard(deck: Deck, currentUserId: JsId, fetched: Fetch<Directory>,
                                        photosOf: JsId -> Fetch<seq<Photo>>, absolutize: string -> string,
                                        distance: (real, real, real, real) -> real, filters: Filters,
                                        steps: seq<SwipeStep>)
    requires fetched.Fetched?
    ensures var d := LoadUsers(deck, currentUserId, fetched, photosOf, absolutize, distance, filters);
            var (saved, last) := SwipeRun(d.index, d.queue, currentUserId, steps);
            |saved| <= |d.queue| && forall k :: 0 <= k < |saved| ==> saved[k].swipee == d.queue[k].user.userId
  {
    var d := LoadUsers(deck, currentUserId, fetched, photosOf, absolutize, distance, filters);
    SwipeRunStoresQueueInOrder(d.index, d.queue, currentUserId, steps);
  }
}
