/** The web Matches page (frontend-web/src/pages/Matches.js): the user's
    matches, each enriched with the other party's account and profile,
    and the count heading. */
module MatchesPage {
  import opened Wrappers
  import opened Js
  import opened Entities
  import opened Participants
  import opened Text
  import Seqs

  /** `{...theMatch, otherUser, otherProfile}`: every field of the match kept. */
  datatype MatchCard = MatchCard(theMatch: Match, otherUser: Option<User>, otherProfile: Option<Profile>)

  function ToCard(users: seq<User>, profiles: seq<Profile>, userId: JsId): Match -> MatchCard {
    (m: Match) => MatchCard(m, UserById(users, OtherPartyId(m, userId)), ProfileOf(profiles, OtherPartyId(m, userId)))
  }

  /** `loadMatches`. */
  function MatchCards(all: seq<Match>, users: seq<User>, profiles: seq<Profile>, userId: JsId): (r: seq<MatchCard>)
    ensures |r| == |UserMatches(all, userId)|
    ensures forall i :: 0 <= i < |r| ==>
      && r[i].theMatch == UserMatches(all, userId)[i]
      && IsParty(r[i].theMatch, userId)
      && r[i].otherUser == UserById(users, OtherPartyId(r[i].theMatch, userId))
      && r[i].otherProfile == ProfileOf(profiles, OtherPartyId(r[i].theMatch, userId))
  {
    var mine := UserMatches(all, userId);
    assert forall i :: 0 <= i < |mine| ==> mine[i] in mine;
    Seqs.Map(mine, ToCard(users, profiles, userId))
  }

  /** The enrichment adds the other party and nothing else: stripping the
      cards gives back the filtered matches, in the fetched order. */
  lemma CardsKeepMatches(all: seq<Match>, users: seq<User>, profiles: seq<Profile>, userId: JsId,
                         more: seq<Match>)
    ensures Seqs.Map(MatchCards(all, users, profiles, userId), (c: MatchCard) => c.theMatch) == UserMatches(all, userId)
    ensures MatchCards(all + more, users, profiles, userId)
         == MatchCards(all, users, profiles, userId) + MatchCards(more, users, profiles, userId)
  {
    UserMatchesInOrder(all, more, userId);
    Seqs.MapConcat(UserMatches(all, userId), UserMatches(more, userId), ToCard(users, profiles, userId));
  }

  /** `loadMatches` as a whole: a successful load shows the new cards; a
      failed one leaves the shown cards. */
  function LoadMatches(shown: seq<MatchCard>, userId: JsId,
                       fetched: Fetch<(seq<Match>, seq<User>, seq<Profile>)>): (r: seq<MatchCard>)
    ensures fetched.FetchFailed? ==> r == shown
    ensures fetched.Fetched? ==> r == MatchCards(fetched.value.0, fetched.value.1, fetched.value.2, userId)
  {
    match fetched
    case FetchFailed(_) => shown
    case Fetched((all, users, profiles)) => MatchCards(all, users, profiles, userId)
  }

  /** `{matches.length} {matches.length === 1 ? 'match' : 'matches'}`. */
  function CountHeading(n: nat): string {
    Decimal(n) + " " + (if n == 1 then "match" else "matches")
  }

  /** The heading is singular exactly for one match. */
  lemma HeadingSingularIffOne(n: nat)
    ensures var h := CountHeading(n); h[|h| - 2..] == "es" <==> n != 1
  {
    var h := CountHeading(n);
    if n == 1 {
      assert h == "1 match";
    }
  }
}
