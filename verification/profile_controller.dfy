/** `ProfileController` (src/main/java/com/example/skillswap/controller/ProfileController.java):
    reading a profile and the update that overwrites a fixed list of fields. */
module ProfileController {
  import opened Wrappers
  import opened ServerModel

  const NotFound := Unhandled("Profile not found")

  /** `getProfile`. */
  function GetProfile(profiles: map<int, Profile>, id: int): (r: Result<Profile>)
    ensures id in profiles <==> r.Ok?
    ensures r.Ok? ==> r.value == profiles[id]
    ensures r.Err? ==> r.error == NotFound
  {
    if id in profiles then Ok(profiles[id]) else Err(NotFound)
  }

  /** The thirteen setters of `updateProfile`, applied unconditionally. */
  function CopyListedFields(existing: Profile, incoming: Profile): Profile {
    existing.(bio := incoming.bio, major := incoming.major, year := incoming.year,
              location := incoming.location, careerGoals := incoming.careerGoals,
              availability := incoming.availability, linkedin := incoming.linkedin,
              github := incoming.github, portfolio := incoming.portfolio, career := incoming.career,
              careerExperience := incoming.careerExperience,
              researchPublications := incoming.researchPublications, awards := incoming.awards)
  }

  /** The listed fields take the incoming values, null included. */
  predicate TakesListedFields(saved: Profile, incoming: Profile) {
    && saved.bio == incoming.bio && saved.major == incoming.major && saved.year == incoming.year
    && saved.location == incoming.location && saved.careerGoals == incoming.careerGoals
    && saved.availability == incoming.availability && saved.linkedin == incoming.linkedin
    && saved.github == incoming.github && saved.portfolio == incoming.portfolio
    && saved.career == incoming.career && saved.careerExperience == incoming.careerExperience
    && saved.researchPublications == incoming.researchPublications && saved.awards == incoming.awards
  }

  /** The fields the update never touches keep their stored values. */
  predicate KeepsUnlistedFields(saved: Profile, existing: Profile) {
    && saved.profileId == existing.profileId && saved.ownerId == existing.ownerId
    && saved.showLocation == existing.showLocation
    && saved.latitude == existing.latitude && saved.longitude == existing.longitude
  }

  /** `updateProfile`: an unknown id is an error; otherwise the listed fields
      are overwritten and the rest, `showLocation` among them, are kept. */
  function UpdateProfile(profiles: map<int, Profile>, id: int, incoming: Profile): (r: Result<(Profile, map<int, Profile>)>)
    ensures id !in profiles <==> r.Err?
    ensures r.Err? ==> r.error == NotFound
    ensures r.Ok? ==>
      var (saved, table) := r.value;
      && TakesListedFields(saved, incoming)
      && KeepsUnlistedFields(saved, profiles[id])
      && table == profiles[id := saved]
  {
    if id !in profiles then Err(NotFound)
    else
      var saved := CopyListedFields(profiles[id], incoming);
      Ok((saved, profiles[id := saved]))
  }

  /** Applying the same update twice gives what applying it once gives. */
  lemma UpdateProfileIdempotent(profiles: map<int, Profile>, id: int, incoming: Profile)
    requires id in profiles
    ensures var once := UpdateProfile(profiles, id, incoming).value.1;
            UpdateProfile(once, id, incoming) == Ok((once[id], once))
  {
    var once := UpdateProfile(profiles, id, incoming).value.1;
    assert CopyListedFields(once[id], incoming) == once[id];
    assert once[id := once[id]] == once;
  }

  /** A profile saved from the web form, whose body carries `showLocation`,
      keeps its stored `showLocation`: the switch is dropped by the update. */
  lemma ShowLocationNotSaved(profiles: map<int, Profile>, id: int, incoming: Profile)
    requires id in profiles
    requires incoming.showLocation != profiles[id].showLocation
    ensures UpdateProfile(profiles, id, incoming).value.0.showLocation != incoming.showLocation
  {
  }

  /** An update keeps every row under its own key. */
  lemma UpdateProfileKeepsKeys(profiles: map<int, Profile>, id: int, incoming: Profile)
    requires KeyedByProfileId(profiles) && id in profiles
    ensures KeyedByProfileId(UpdateProfile(profiles, id, incoming).value.1)
  {
  }

  /** Reading a profile back after updating it returns the saved profile: the
      listed fields as sent and the rest as stored before. Other ids read as
      before. */
  lemma UpdateThenGet(profiles: map<int, Profile>, id: int, incoming: Profile, other: int)
    requires id in profiles && other != id
    ensures var (saved, table) := UpdateProfile(profiles, id, incoming).value;
            && GetProfile(table, id) == Ok(saved)
            && TakesListedFields(GetProfile(table, id).value, incoming)
            && KeepsUnlistedFields(GetProfile(table, id).value, profiles[id])
            && GetProfile(table, other) == GetProfile(profiles, other)
  {
  }
}
