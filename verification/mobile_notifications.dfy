/** The badge counters of the React Native `NotificationProvider`
    (frontend-mobile/src/contexts/NotificationContext.js). New matches are
    counted by delta against a baseline (edge-triggered); the message badge
    is set to the current number of conversations whose latest message
    awaits the user (level-triggered). Each fetch is an input; a fetch that
    throws is `FetchFailed`. */
module MobileNotifications {
  import opened Wrappers
  import opened Js
  import opened Entities
  import opened Participants
  import Seqs

  /** `lastMatchCountRef`, `lastMessageCountRef` and the two badges. */
  datatype Badges = Badges(lastMatchCount: nat, lastMessageCount: nat, unreadMatches: nat, unreadMessages: nat)

  /** The provider's state on mount, and after a sign-out. */
  const Zero := Badges(0, 0, 0, 0)

  /** What `messageAPI.getLatestByMatch` gave for one match. */
  datatype LatestFetch = LatestFailed | NoLatest | Latest(message: ChatMessage)

  /** The latest message exists, was sent by someone else and is unread. */
  predicate AwaitsUser(f: LatestFetch, userId: JsId) {
    f.Latest? && PartyId(f.message.sender) != userId && !f.message.isRead
  }

  function AwaitingIn(userId: JsId, latest: JsId -> LatestFetch): Match -> bool {
    (m: Match) => AwaitsUser(latest(m.matchId), userId)
  }

  /** The loop over the user's matches that adds 1 per match whose latest
      message awaits the user; a failed fetch adds nothing. */
  function AwaitingCount(matches: seq<Match>, userId: JsId, latest: JsId -> LatestFetch): nat {
    Seqs.Count(matches, AwaitingIn(userId, latest))
  }

  /** The count is additive over the match list, and a match whose latest
      message is missing or whose fetch threw contributes nothing. */
  lemma {:induction false} AwaitingCountAdditive(a: seq<Match>, m: Match, b: seq<Match>,
                                                 userId: JsId, latest: JsId -> LatestFetch)
    ensures AwaitingCount(a + [m] + b, userId, latest)
         == AwaitingCount(a, userId, latest) + AwaitingCount(b, userId, latest)
            + (if AwaitsUser(latest(m.matchId), userId) then 1 else 0)
    ensures !latest(m.matchId).Latest? ==>
      AwaitingCount(a + [m] + b, userId, latest) == AwaitingCount(a + b, userId, latest)
  {
    var p := AwaitingIn(userId, latest);
    Seqs.FilterConcat(a + [m], b, p);
    Seqs.FilterConcat(a, [m], p);
    Seqs.FilterConcat(a, b, p);
  }

  /** The session effect (lines 101-146): with no user everything is reset;
      otherwise `initializeCounts` records both baselines and leaves both
      badges alone, and a failed match fetch records nothing. */
  function OnSession(s: Badges, userId: JsId, fetched: Fetch<seq<Match>>,
                     latest: JsId -> LatestFetch): (r: Badges)
    ensures !Truthy(userId) ==> r == Zero
    ensures Truthy(userId) ==> r.unreadMatches == s.unreadMatches && r.unreadMessages == s.unreadMessages
    ensures Truthy(userId) && fetched.FetchFailed? ==> r == s
    ensures Truthy(userId) && fetched.Fetched? ==>
      var mine := UserMatches(fetched.value, userId);
      r.lastMatchCount == |mine| && r.lastMessageCount == AwaitingCount(mine, userId, latest)
  {
    if !Truthy(userId) then Zero
    else
      match fetched
      case FetchFailed(_) => s
      case Fetched(all) =>
        var mine := UserMatches(all, userId);
        s.(lastMatchCount := |mine|, lastMessageCount := AwaitingCount(mine, userId, latest))
  }

  /** `checkForNewMatches`: the badge grows by exactly the rise of the match
      count over the baseline, and the baseline follows the count, even
      when the count fell. */
  function CheckMatches(s: Badges, userId: JsId, fetched: Fetch<seq<Match>>): (r: Badges)
    ensures !Truthy(userId) || fetched.FetchFailed? ==> r == s
    ensures Truthy(userId) && fetched.Fetched? ==>
      var count := |UserMatches(fetched.value, userId)|;
      && r.lastMatchCount == count
      && (count > s.lastMatchCount ==> r.unreadMatches == s.unreadMatches + (count - s.lastMatchCount))
      && (count <= s.lastMatchCount ==> r.unreadMatches == s.unreadMatches)
    ensures r.unreadMessages == s.unreadMessages && r.lastMessageCount == s.lastMessageCount
  {
    if !Truthy(userId) then s
    else
      match fetched
      case FetchFailed(_) => s
      case Fetched(all) =>
        var currentCount := |UserMatches(all, userId)|;
        var previousCount := s.lastMatchCount;
        var unread :=
          if currentCount > previousCount && previousCount >= 0 then
            var newMatches := currentCount - previousCount;
            if newMatches > 0 then s.unreadMatches + newMatches else s.unreadMatches
          else s.unreadMatches;
        s.(unreadMatches := unread, lastMatchCount := currentCount)
  }

  /** `checkForNewMessages`: the badge and its baseline are both set to the
      current number of conversations awaiting the user, whatever they held. */
  function CheckMessages(s: Badges, userId: JsId, fetched: Fetch<seq<Match>>,
                         latest: JsId -> LatestFetch): (r: Badges)
    ensures !Truthy(userId) || fetched.FetchFailed? ==> r == s
    ensures Truthy(userId) && fetched.Fetched? ==>
      var total := AwaitingCount(UserMatches(fetched.value, userId), userId, latest);
      r.unreadMessages == total && r.lastMessageCount == total
    ensures r.unreadMatches == s.unreadMatches && r.lastMatchCount == s.lastMatchCount
  {
    if !Truthy(userId) then s
    else
      match fetched
      case FetchFailed(_) => s
      case Fetched(all) =>
        var totalNewMessages := AwaitingCount(UserMatches(all, userId), userId, latest);
        s.(unreadMessages := totalNewMessages, lastMessageCount := totalNewMessages)
  }

  /** `clearMatchNotifications`: the badge drops to 0 and the baseline moves
      to the current count. */
  function ClearMatches(s: Badges, userId: JsId, fetched: Fetch<seq<Match>>): (r: Badges)
    ensures !Truthy(userId) || fetched.FetchFailed? ==> r == s
    ensures Truthy(userId) && fetched.Fetched? ==>
      r.unreadMatches == 0 && r.lastMatchCount == |UserMatches(fetched.value, userId)|
    ensures r.unreadMessages == s.unreadMessages && r.lastMessageCount == s.lastMessageCount
  {
    if !Truthy(userId) then s
    else
      match fetched
      case FetchFailed(_) => s
      case Fetched(all) => s.(lastMatchCount := |UserMatches(all, userId)|, unreadMatches := 0)
  }

  /** `clearMessageNotifications`: recounts rather than zeroing. */
  function ClearMessages(s: Badges, userId: JsId, fetched: Fetch<seq<Match>>,
                         latest: JsId -> LatestFetch): Badges
  {
    if !Truthy(userId) then s
    else
      match fetched
      case FetchFailed(_) => s
      case Fetched(all) =>
        var matchesWithUnread := AwaitingCount(UserMatches(all, userId), userId, latest);
        s.(lastMessageCount := matchesWithUnread, unreadMessages := matchesWithUnread)
  }

  /** Clearing the message badge is the same transition as a message poll:
      the badge is resynchronised to the current level, not zeroed. */
  lemma ClearMessagesIsRecount(s: Badges, userId: JsId, fetched: Fetch<seq<Match>>,
                               latest: JsId -> LatestFetch)
    ensures ClearMessages(s, userId, fetched, latest) == CheckMessages(s, userId, fetched, latest)
  {
  }

  /** One interval tick: both checks, each with its own match fetch. */
  function Tick(s: Badges, userId: JsId, forMatches: Fetch<seq<Match>>, forMessages: Fetch<seq<Match>>,
                latest: JsId -> LatestFetch): Badges
  {
    CheckMessages(CheckMatches(s, userId, forMatches), userId, forMessages, latest)
  }

  /** The two checks of a tick run concurrently; they touch disjoint
      counters, so either completion order gives the same state. */
  lemma TickOrderIrrelevant(s: Badges, userId: JsId, forMatches: Fetch<seq<Match>>,
                            forMessages: Fetch<seq<Match>>, latest: JsId -> LatestFetch)
    ensures Tick(s, userId, forMatches, forMessages, latest)
         == CheckMatches(CheckMessages(s, userId, forMessages, latest), userId, forMatches)
  {
  }

  /** The message badge is never cumulative: after two polls it shows the
      second poll's level. */
  lemma MessageBadgeIsLevel(s: Badges, userId: JsId, first: seq<Match>, second: seq<Match>,
                            latest1: JsId -> LatestFetch, latest2: JsId -> LatestFetch)
    requires Truthy(userId)
    ensures CheckMessages(CheckMessages(s, userId, Fetched(first), latest1), userId, Fetched(second), latest2).unreadMessages
         == AwaitingCount(UserMatches(second, userId), userId, latest2)
  {
  }

  /** After clearing, a poll that sees the same match count keeps the badge
      at 0; in general it shows only the rise since the clear. */
  lemma ClearThenPoll(s: Badges, userId: JsId, atClear: seq<Match>, later: seq<Match>)
    requires Truthy(userId)
    ensures var c0 := |UserMatches(atClear, userId)|;
            var c1 := |UserMatches(later, userId)|;
            CheckMatches(ClearMatches(s, userId, Fetched(atClear)), userId, Fetched(later)).unreadMatches
            == if c1 > c0 then c1 - c0 else 0
    ensures CheckMatches(ClearMatches(s, userId, Fetched(atClear)), userId, Fetched(atClear)).unreadMatches == 0
  {
  }

  /** The sum of the rises in a sequence of observed counts, starting from
      the baseline `base`; falls contribute nothing. */
  function Rises(base: nat, counts: seq<nat>): nat
    decreases |counts|
  {
    if |counts| == 0 then 0
    else (if counts[0] > base then counts[0] - base else 0) + Rises(counts[0], counts[1..])
  }

  /** Match polls applied one after another, all succeeding. */
  function PollMatches(s: Badges, userId: JsId, polls: seq<seq<Match>>): Badges
    decreases |polls|
  {
    if |polls| == 0 then s
    else PollMatches(CheckMatches(s, userId, Fetched(polls[0])), userId, polls[1..])
  }

  function MatchCount(userId: JsId): seq<Match> -> nat {
    (all: seq<Match>) => |UserMatches(all, userId)|
  }

  /** Over any run of successful match polls, the badge grows by the sum of
      the positive deltas between consecutive counts (the baseline first),
      and the baseline ends at the last observed count. */
  lemma {:induction false} MatchBadgeSumsRises(s: Badges, userId: JsId, polls: seq<seq<Match>>)
    requires Truthy(userId)
    ensures PollMatches(s, userId, polls).unreadMatches
         == s.unreadMatches + Rises(s.lastMatchCount, Seqs.Map(polls, MatchCount(userId)))
    ensures |polls| > 0 ==>
      PollMatches(s, userId, polls).lastMatchCount == |UserMatches(polls[|polls| - 1], userId)|
    decreases |polls|
  {
    if |polls| > 0 {
      var counts := Seqs.Map(polls, MatchCount(userId));
      assert counts[1..] == Seqs.Map(polls[1..], MatchCount(userId));
      var next := CheckMatches(s, userId, Fetched(polls[0]));
      MatchBadgeSumsRises(next, userId, polls[1..]);
      if |polls| > 1 {
        assert polls[1..][|polls[1..]| - 1] == polls[|polls| - 1];
      }
    }
  }

  /** The observed counts 2, 2, 5, 5, 3, 6 raise the badge by 3 + 3, not
      by 3 + 1: after the fall to 3 the baseline is 3, so the climb back to
      6 counts in full. */
  lemma RisesExample()
    ensures Rises(2, [2, 5, 5, 3, 6]) == 6
  {
    assert [2, 5, 5, 3, 6][1..] == [5, 5, 3, 6];
    assert [5, 5, 3, 6][1..] == [5, 3, 6];
    assert [5, 3, 6][1..] == [3, 6];
    assert [3, 6][1..] == [6];
    assert [6][1..] == [];
    assert Rises(3, [6]) == 3;
    assert Rises(5, [3, 6]) == 3;
    assert Rises(5, [5, 3, 6]) == 3;
    assert Rises(2, [5, 5, 3, 6]) == 6;
  }

  /** Right after the session starts, a poll that sees the same matches
      raises no badge: the initial count is the baseline. */
  lemma SessionThenSamePollSilent(s: Badges, userId: JsId, all: seq<Match>, latest: JsId -> LatestFetch)
    requires Truthy(userId)
    ensures var started := OnSession(s, userId, Fetched(all), latest);
            CheckMatches(started, userId, Fetched(all)).unreadMatches == started.unreadMatches
            && started.unreadMatches == s.unreadMatches
  {
  }
}
