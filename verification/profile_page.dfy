/** The web Profile page (frontend-web/src/pages/Profile.js): photo
    ordering, the owner filters of `loadProfile`, the form update, the
    upload request, the reverse-geocoded location label and the choice
    between creating and updating the profile on save. */
module ProfilePage {
  import opened Wrappers
  import opened Js
  import opened Entities
  import opened Sorting
  import Seqs

  /** Milliseconds of `uploadedAt`, a missing date counting as 0. */
  function UploadedMillis(p: Photo): int {
    if p.uploadedAt.Some? then p.uploadedAt.value else 0
  }

  /** The comparator of `normalizePhotos` as a rank: primary photos first,
      then newest first. Equal ranks are exactly the pairs it calls equal. */
  function PhotoRank(p: Photo): Rank {
    Rank(if p.isPrimary then 0 else 1, -UploadedMillis(p))
  }

  /** The `map` step of `normalizePhotos`: URL resolved (`''` when missing),
      primary flag kept as a boolean. */
  function NormalizeOne(absolutize: string -> string): Photo -> Photo {
    (p: Photo) => p.(photoUrl := Some(if TextTruthy(p.photoUrl) then absolutize(p.photoUrl.value) else ""))
  }

  /** `normalizePhotos`. */
  function NormalizePhotos(photos: seq<Photo>, absolutize: string -> string): (r: seq<Photo>)
    ensures |r| == |photos|
    ensures multiset(r) == multiset(Seqs.Map(photos, NormalizeOne(absolutize)))
    ensures SortedBy(r, PhotoRank)
  {
    Sort(Seqs.Map(photos, NormalizeOne(absolutize)), PhotoRank)
  }

  /** After normalisation every primary photo precedes every other photo,
      and photos of the same kind run from newest to oldest. */
  lemma NormalizedOrder(photos: seq<Photo>, absolutize: string -> string)
    ensures var r := NormalizePhotos(photos, absolutize);
      && (forall i, j :: 0 <= i < |r| && 0 <= j < |r| && r[i].isPrimary && !r[j].isPrimary ==> i < j)
      && (forall i, j :: 0 <= i < j < |r| && r[i].isPrimary == r[j].isPrimary ==>
            UploadedMillis(r[i]) >= UploadedMillis(r[j]))
  {
    var r := NormalizePhotos(photos, absolutize);
    forall i, j | 0 <= i < |r| && 0 <= j < |r| && r[i].isPrimary && !r[j].isPrimary
      ensures i < j
    {
      assert i != j;
    }
    forall i, j | 0 <= i < j < |r| && r[i].isPrimary == r[j].isPrimary
      ensures UploadedMillis(r[i]) >= UploadedMillis(r[j])
    {
      assert RankLe(PhotoRank(r[i]), PhotoRank(r[j]));
    }
  }

  /** `normalizePhotos` is never applied: the page keeps the fetched photos
      as they came and shows `photos[0]` as the main photo, which need not
      be the primary one that normalisation would put first. */
  lemma MainPhotoNeedNotBePrimary()
    ensures var older := Photo(Num(1), Some("a.jpg"), false, Some(5));
            var primary := Photo(Num(2), Some("b.jpg"), true, Some(1));
            var fetched := [older, primary];
            !fetched[0].isPrimary
            && NormalizePhotos(fetched, (u: string) => u)[0].isPrimary
  {
    var older := Photo(Num(1), Some("a.jpg"), false, Some(5));
    var primary := Photo(Num(2), Some("b.jpg"), true, Some(1));
    var absolutize := (u: string) => u;
    NormalizedOrder([older, primary], absolutize);
    var r := NormalizePhotos([older, primary], absolutize);
    var n := Seqs.Map([older, primary], NormalizeOne(absolutize));
    assert n[1].isPrimary;
    assert n[1] in multiset(r);
    var k :| 0 <= k < |r| && r[k] == n[1];
  }

  /** The four lists `loadProfile` keeps for the signed-in user. */
  datatype OwnLists = OwnLists(skills: seq<ChildRecord>, interests: seq<ChildRecord>,
                               organizations: seq<ChildRecord>, languages: seq<ChildRecord>)

  function LoadOwnLists(userId: JsId, skills: seq<ChildRecord>, interests: seq<ChildRecord>,
                        organizations: seq<ChildRecord>, languages: seq<ChildRecord>): (r: OwnLists)
    ensures forall c :: c in r.skills <==> c in skills && c.owner == userId
    ensures forall c :: c in r.interests <==> c in interests && c.owner == userId
    ensures forall c :: c in r.organizations <==> c in organizations && c.owner == userId
    ensures forall c :: c in r.languages <==> c in languages && c.owner == userId
  {
    OwnedByExact(skills, userId, []);
    OwnedByExact(interests, userId, []);
    OwnedByExact(organizations, userId, []);
    OwnedByExact(languages, userId, []);
    OwnLists(OwnedBy(skills, userId), OwnedBy(interests, userId),
             OwnedBy(organizations, userId), OwnedBy(languages, userId))
  }

  /** A form field holds text or, for a checkbox, a flag. */
  datatype FormValue = Text(text: string) | Flag(on: bool)

  /** The fields of `e.target` that `handleChange` reads. */
  datatype ChangeEvent = ChangeEvent(name: string, value: string, inputType: string, checked: bool)

  /** `handleChange`: the named field takes the checkbox state or the
      value; every other field is untouched. */
  function HandleChange(form: map<string, FormValue>, e: ChangeEvent): (r: map<string, FormValue>)
    ensures r.Keys == form.Keys + {e.name}
    ensures r[e.name] == if e.inputType == "checkbox" then Flag(e.checked) else Text(e.value)
    ensures forall k :: k in form && k != e.name ==> r[k] == form[k]
  {
    form[e.name := if e.inputType == "checkbox" then Flag(e.checked) else Text(e.value)]
  }

  /** Repeating a change event changes nothing more. */
  lemma HandleChangeIdempotent(form: map<string, FormValue>, e: ChangeEvent)
    ensures HandleChange(HandleChange(form, e), e) == HandleChange(form, e)
  {
  }

  /** The multipart fields `handlePhotoUpload` sends. */
  datatype UploadRequest = UploadRequest(profileId: JsId, isPrimary: bool)

  /** Nothing is sent without a file or a profile id; the upload is primary
      exactly when the profile has no photos yet. */
  function PhotoUpload(hasFile: bool, profile: Option<Profile>, photos: seq<Photo>): (r: Option<UploadRequest>)
    ensures r.Some? <==> hasFile && profile.Some? && Truthy(profile.value.profileId)
    ensures r.Some? ==> r.value.profileId == profile.value.profileId && (r.value.isPrimary <==> photos == [])
  {
    if !hasFile || profile.None? || !Truthy(profile.value.profileId) then None
    else Some(UploadRequest(profile.value.profileId, |photos| == 0))
  }

  /** An upload can be sent exactly when a save would update rather than
      create: both need an existing profile with a truthy id. Only the
      first photo of a profile is sent as primary. */
  lemma UploadNeedsSavedProfile(profile: Option<Profile>, photos: seq<Photo>, p: Photo)
    ensures PhotoUpload(true, profile, photos).Some? <==> SaveAction(profile).UpdateProfile?
    ensures PhotoUpload(true, profile, photos).Some? ==>
      PhotoUpload(true, profile, photos).value.profileId == SaveAction(profile).profileId
    ensures PhotoUpload(true, profile, [p] + photos).Some? ==> !PhotoUpload(true, profile, [p] + photos).value.isPrimary
  {
  }

  /** The parts of a Nominatim `address` the page reads. */
  datatype Address = Address(city: Option<string>, town: Option<string>, village: Option<string>,
                             stateCode: Option<string>, state: Option<string>)

  /** `city || town || village || ''`. */
  function CityOf(a: Address): string {
    if TextTruthy(a.city) then a.city.value else TextOr(a.town, a.village)
  }

  /** `state_code || state || ''`. */
  function StateOf(a: Address): string {
    TextOr(a.stateCode, a.state)
  }

  /** The location text of `usePreciseLocation`: "city, state" when both are
      known, whichever one is known otherwise, and the formatted coordinates
      (`coordinates`) when neither is, or when no address came back. */
  function LocationLabel(address: Option<Address>, coordinates: string): (r: string)
    ensures address.Some? && CityOf(address.value) != "" && StateOf(address.value) != "" ==>
      r == CityOf(address.value) + ", " + StateOf(address.value)
    ensures address.Some? && CityOf(address.value) != "" && StateOf(address.value) == "" ==>
      r == CityOf(address.value)
    ensures address.Some? && CityOf(address.value) == "" && StateOf(address.value) != "" ==>
      r == StateOf(address.value)
    ensures address.None? || (CityOf(address.value) == "" && StateOf(address.value) == "") ==>
      r == coordinates
  {
    var cityName :=
      if address.Some? then
        var city := CityOf(address.value);
        var state := StateOf(address.value);
        if city != "" && state != "" then city + ", " + state
        else if city != "" then city else state
      else "";
    if cityName != "" then cityName else coordinates
  }

  /** The request `handleSubmit` ends with. */
  datatype ProfileSave = UpdateProfile(profileId: JsId) | CreateProfile

  /** An existing profile with a truthy id is updated; otherwise a new one is
      created. */
  function SaveAction(profile: Option<Profile>): (r: ProfileSave)
    ensures r.UpdateProfile? <==> profile.Some? && Truthy(profile.value.profileId)
    ensures r.UpdateProfile? ==> r.profileId == profile.value.profileId
  {
    if profile.Some? && Truthy(profile.value.profileId) then UpdateProfile(profile.value.profileId)
    else CreateProfile
  }

  /** The label is never blank when coordinates are known, it begins with the
      city whenever a city is known, and it ends with the state whenever a
      state is known. */
  lemma LocationLabelShape(address: Option<Address>, coordinates: string)
    ensures coordinates != "" ==> LocationLabel(address, coordinates) != ""
    ensures address.Some? && CityOf(address.value) != "" ==>
      var r := LocationLabel(address, coordinates);
      |CityOf(address.value)| <= |r| && r[..|CityOf(address.value)|] == CityOf(address.value)
    ensures address.Some? && StateOf(address.value) != "" ==>
      var r := LocationLabel(address, coordinates);
      |StateOf(address.value)| <= |r| && r[|r| - |StateOf(address.value)|..] == StateOf(address.value)
  {
    if address.Some? {
      var city := CityOf(address.value);
      var state := StateOf(address.value);
      var r := LocationLabel(address, coordinates);
      if city != "" && state != "" {
        assert r == city + ", " + state;
        assert r[..|city|] == city;
        assert r[|r| - |state|..] == state;
      }
    }
  }
}
