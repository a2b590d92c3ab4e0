/** Deciding whether the current user is a party to a match, and who the
    other party is: the rule both notification providers, the Messages page
    and the Matches page repeat inline. */
module Participants {
  import opened Js
  import opened Entities
  import Seqs

  /** `user1Id === userId || user2Id === userId`, each party id being
      `userId || id` of its stub. */
  predicate IsParty(m: Match, userId: JsId) {
    PartyId(m.user1) == userId || PartyId(m.user2) == userId
  }

  function PartyOf(userId: JsId): Match -> bool {
    (m: Match) => IsParty(m, userId)
  }

  /** `allMatches.filter(...)`: the matches the user belongs to. */
  function UserMatches(all: seq<Match>, userId: JsId): (r: seq<Match>)
    ensures forall m :: m in r <==> m in all && IsParty(m, userId)
    ensures forall m :: IsParty(m, userId) ==> multiset(r)[m] == multiset(all)[m]
  {
    var r := Seqs.Filter(all, PartyOf(userId));
    forall m | IsParty(m, userId)
      ensures multiset(r)[m] == multiset(all)[m]
    {
      Seqs.FilterMultiplicity(all, PartyOf(userId), m);
    }
    r
  }

  /** The user's matches keep the order of the fetched list. */
  lemma UserMatchesInOrder(a: seq<Match>, b: seq<Match>, userId: JsId)
    ensures UserMatches(a + b, userId) == UserMatches(a, userId) + UserMatches(b, userId)
  {
    Seqs.FilterConcat(a, b, PartyOf(userId));
  }

  /** `user1Id === userId ? user2Id : user1Id`. */
  function OtherPartyId(m: Match, userId: JsId): JsId {
    if PartyId(m.user1) == userId then PartyId(m.user2) else PartyId(m.user1)
  }

  /** For a match the user belongs to with two distinct parties, the other
      party is the party that is not the user. */
  lemma OtherPartyIsNotSelf(m: Match, userId: JsId)
    requires IsParty(m, userId)
    requires PartyId(m.user1) != PartyId(m.user2)
    ensures OtherPartyId(m, userId) != userId
    ensures {OtherPartyId(m, userId), userId} == {PartyId(m.user1), PartyId(m.user2)}
  {
  }

  /** Because a party id is `userId || id`, a stub whose `userId` is 0 is
      read through its `id`: a user with id 0 is recognised only through a
      stub whose `userId` is falsy and whose `id` is 0. */
  lemma ZeroIdFallsThrough(p: PartyRef)
    ensures PartyId(p) == Num(0) <==> !Truthy(p.userId) && p.id == Num(0)
    ensures PartyId(PartyRef(Num(0), Num(7))) == Num(7)
    ensures PartyId(PartyRef(Num(0), Undefined)) == Undefined
  {
  }
}
