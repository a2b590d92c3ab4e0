/** The Spring back end's entities, as the controllers see them. Java
    references that may be null are `Option`s; related entities that the
    repositories resolve are held by value. */
module ServerModel {
  import opened Wrappers

  datatype User = User(
    userId: Option<int>,
    firstName: Option<string>,
    lastName: Option<string>,
    university: Option<string>,
    email: Option<string>,
    passwordHash: Option<string>,
    location: Option<string>,
    latitude: Option<real>,
    longitude: Option<real>,
    showLocation: Option<bool>)

  datatype Profile = Profile(
    profileId: Option<int>,
    ownerId: Option<int>,
    bio: Option<string>,
    major: Option<string>,
    year: Option<string>,
    location: Option<string>,
    careerGoals: Option<string>,
    availability: Option<string>,
    linkedin: Option<string>,
    github: Option<string>,
    portfolio: Option<string>,
    career: Option<string>,
    careerExperience: Option<string>,
    researchPublications: Option<string>,
    awards: Option<string>,
    showLocation: Option<bool>,
    latitude: Option<real>,
    longitude: Option<real>)

  datatype Match = Match(matchId: int, user1Id: int, user2Id: int)

  /** `sentAt` is the `LocalDateTime` as a count of some fixed unit. */
  datatype Message = Message(messageId: int, theMatch: Match, sender: User, content: string,
                             isRead: bool, sentAt: int)

  /** A `ResponseStatusException` (status and reason) or any other
      `RuntimeException` (which Spring answers with 500). */
  datatype ServerError = Status(code: int, reason: string) | Unhandled(message: string)

  datatype Result<+T> = Ok(value: T) | Err(error: ServerError)

  /** A table keyed by primary key in which every row carries its own key. */
  ghost predicate KeyedByUserId(users: map<int, User>) {
    forall k :: k in users ==> users[k].userId == Some(k)
  }

  ghost predicate KeyedByProfileId(profiles: map<int, Profile>) {
    forall k :: k in profiles ==> profiles[k].profileId == Some(k)
  }
}
