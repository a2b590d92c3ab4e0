/** The JSON resources as the React front ends read them. Nested relations
    arrive as stub objects (`{ "userId": ... }`); a missing stub reads, through
    optional chaining, like a stub whose fields are all `undefined`. */
module Entities {
  import opened Wrappers
  import opened Js
  import Seqs

  /** A reference to a user inside a match, message or swipe. Old payloads
      carry the id under `id`, current ones under `userId`. */
  datatype PartyRef = PartyRef(userId: JsId, id: JsId)

  /** The missing stub: `match.user1` is `undefined` or `null`. */
  const NoParty := PartyRef(Undefined, Undefined)

  /** `ref?.userId || ref?.id`. */
  function PartyId(p: PartyRef): (r: JsId)
    ensures Truthy(p.userId) ==> r == p.userId
    ensures !Truthy(p.userId) ==> r == p.id
  {
    Or(p.userId, p.id)
  }

  datatype Match = Match(matchId: JsId, user1: PartyRef, user2: PartyRef)

  datatype ChatMessage = ChatMessage(messageId: JsId, sender: PartyRef, content: string, isRead: bool)

  datatype User = User(
    userId: JsId,
    email: Option<string>,
    firstName: Option<string>,
    lastName: Option<string>,
    university: Option<string>,
    location: Option<string>,
    latitude: Option<real>,
    longitude: Option<real>)

  /** A profile; `owner` is `profile.user?.userId`. */
  datatype Profile = Profile(
    profileId: JsId,
    owner: JsId,
    major: Option<string>,
    year: Option<string>,
    location: Option<string>,
    latitude: Option<real>,
    longitude: Option<real>)

  datatype Photo = Photo(photoId: JsId, photoUrl: Option<string>, isPrimary: bool, uploadedAt: Option<int>)

  datatype Swipe = Swipe(swipee: PartyRef, isLike: bool)

  /** A skill, interest, organisation or language entry; `owner` is
      `entry.user?.userId`. */
  datatype ChildRecord = ChildRecord(recordId: JsId, owner: JsId, name: string)

  /** `e => e.user?.userId === userId`. */
  function OwnerIs(userId: JsId): ChildRecord -> bool {
    (c: ChildRecord) => c.owner == userId
  }

  /** `list.filter(e => e.user?.userId === userId)`. */
  function OwnedBy(records: seq<ChildRecord>, userId: JsId): seq<ChildRecord> {
    Seqs.Filter(records, OwnerIs(userId))
  }

  /** The owner filter keeps exactly the entries of that user, each as often
      as it occurs, and in their original order. */
  lemma OwnedByExact(records: seq<ChildRecord>, userId: JsId, more: seq<ChildRecord>)
    ensures forall c :: c in OwnedBy(records, userId) <==> c in records && c.owner == userId
    ensures forall c: ChildRecord :: c.owner == userId ==> multiset(OwnedBy(records, userId))[c] == multiset(records)[c]
    ensures OwnedBy(records + more, userId) == OwnedBy(records, userId) + OwnedBy(more, userId)
  {
    Seqs.FilterConcat(records, more, OwnerIs(userId));
    forall c: ChildRecord | c.owner == userId
      ensures multiset(OwnedBy(records, userId))[c] == multiset(records)[c]
    {
      Seqs.FilterMultiplicity(records, OwnerIs(userId), c);
    }
  }

  /** The first user whose `userId` is `id` (`users.find(u => u.userId === id)`). */
  function UserById(users: seq<User>, id: JsId): Option<User> {
    Seqs.Find(users, (u: User) => u.userId == id)
  }

  /** The first profile owned by `id` (`profiles.find(p => p.user?.userId === id)`). */
  function ProfileOf(profiles: seq<Profile>, id: JsId): Option<Profile> {
    Seqs.Find(profiles, (p: Profile) => p.owner == id)
  }

  /** Lookups return the first entry with the id, and nothing only when no
      entry has it. */
  lemma LookupIsFirst(users: seq<User>, profiles: seq<Profile>, id: JsId)
    ensures UserById(users, id).None? <==> forall i :: 0 <= i < |users| ==> users[i].userId != id
    ensures UserById(users, id).Some? ==>
      exists i :: 0 <= i < |users| && users[i] == UserById(users, id).value && users[i].userId == id
                  && forall j :: 0 <= j < i ==> users[j].userId != id
    ensures ProfileOf(profiles, id).None? <==> forall i :: 0 <= i < |profiles| ==> profiles[i].owner != id
    ensures ProfileOf(profiles, id).Some? ==>
      exists i :: 0 <= i < |profiles| && profiles[i] == ProfileOf(profiles, id).value && profiles[i].owner == id
                  && forall j :: 0 <= j < i ==> profiles[j].owner != id
  {
  }
}
