/** The badge counters and toasts of the React web `NotificationProvider`
    (frontend-web/src/contexts/NotificationContext.js). Both badges are
    counted by delta against a baseline, but only while the baseline is
    above 0: the first rise after start-up or after a clear only moves the
    baseline. `now` stands for `Date.now()`, which names each toast. */
module WebNotifications {
  import opened Wrappers
  import opened Js
  import opened Entities
  import opened Participants
  import opened Text
  import Seqs

  datatype Toast = Toast(id: int, title: string, message: string)

  datatype Badges = Badges(lastMatchCount: nat, lastMessageCount: nat,
                           unreadMatches: nat, unreadMessages: nat, toasts: seq<Toast>)

  const Zero := Badges(0, 0, 0, 0, [])

  /** `showNotification`: the new toast goes in front of the others. */
  function Show(toasts: seq<Toast>, id: int, title: string, message: string): (r: seq<Toast>)
    ensures |r| == |toasts| + 1
    ensures r[0] == Toast(id, title, message) && r[1..] == toasts
  {
    [Toast(id, title, message)] + toasts
  }

  function IdIsNot(id: int): Toast -> bool {
    (t: Toast) => t.id != id
  }

  /** The timed removal: drops every toast carrying that id, keeps the rest
      in order. */
  function Dismiss(toasts: seq<Toast>, id: int): (r: seq<Toast>)
    ensures forall t :: t in r <==> t in toasts && t.id != id
  {
    Seqs.Filter(toasts, IdIsNot(id))
  }

  /** Dismissal keeps the surviving toasts in the order they were shown:
      it acts on each part of the list separately. */
  lemma DismissKeepsOrder(front: seq<Toast>, back: seq<Toast>, id: int)
    ensures Dismiss(front + back, id) == Dismiss(front, id) + Dismiss(back, id)
  {
    Seqs.FilterConcat(front, back, IdIsNot(id));
  }

  /** Removing a toast right after showing it restores the list, provided
      no other toast shares its id (two toasts created in the same
      millisecond share one and vanish together). */
  lemma {:induction false} ShowThenDismiss(toasts: seq<Toast>, id: int, title: string, message: string)
    ensures Dismiss(Show(toasts, id, title, message), id) == Dismiss(toasts, id)
    ensures (forall i :: 0 <= i < |toasts| ==> toasts[i].id != id) ==>
      Dismiss(Show(toasts, id, title, message), id) == toasts
  {
    Seqs.FilterConcat([Toast(id, title, message)], toasts, IdIsNot(id));
    if forall i :: 0 <= i < |toasts| ==> toasts[i].id != id {
      Seqs.FilterAll(toasts, IdIsNot(id));
    }
  }

  const MatchTitle := "\U{1F389} New Match!"
  const MessageTitle := "\U{1F4AC} New Message!"

  /** `You have ${n} new match${n > 1 ? 'es' : ''}!` */
  function MatchText(n: nat): string {
    "You have " + Decimal(n) + " new match" + (if n > 1 then "es" else "") + "!"
  }

  /** `You have ${n} new message${n > 1 ? 's' : ''}!` */
  function MessageText(n: nat): string {
    "You have " + Decimal(n) + " new message" + (if n > 1 then "s" else "") + "!"
  }

  /** The toast text uses the plural exactly when more than one arrived. */
  lemma PluralIffMany(n: nat)
    ensures var t := MatchText(n); t[|t| - 3..] == "es!" <==> n > 1
    ensures var t := MessageText(n); t[|t| - 2..] == "s!" <==> n > 1
  {
    var t := MatchText(n);
    var u := MessageText(n);
    if n <= 1 {
      assert t[|t| - 3..] == "ch!";
      assert u[|u| - 2..] == "e!";
    }
  }

  /** `checkForNewMatches`. */
  function CheckMatches(s: Badges, userId: JsId, fetched: Fetch<seq<Match>>, now: int): (r: Badges)
    ensures !Truthy(userId) || fetched.FetchFailed? ==> r == s
    ensures Truthy(userId) && fetched.Fetched? ==>
      var count := |UserMatches(fetched.value, userId)|;
      && r.lastMatchCount == count
      && (count > s.lastMatchCount > 0 ==>
            r.unreadMatches == s.unreadMatches + (count - s.lastMatchCount)
            && r.toasts == Show(s.toasts, now, MatchTitle, MatchText(count - s.lastMatchCount)))
      && (!(count > s.lastMatchCount > 0) ==> r.unreadMatches == s.unreadMatches && r.toasts == s.toasts)
    ensures r.unreadMessages == s.unreadMessages && r.lastMessageCount == s.lastMessageCount
    ensures r.toasts != s.toasts <==> r.unreadMatches > s.unreadMatches
  {
    if !Truthy(userId) then s
    else
      match fetched
      case FetchFailed(_) => s
      case Fetched(all) =>
        var currentCount := |UserMatches(all, userId)|;
        if currentCount > s.lastMatchCount && s.lastMatchCount > 0 then
          var newMatches := currentCount - s.lastMatchCount;
          s.(toasts := Show(s.toasts, now, MatchTitle, MatchText(newMatches)),
             unreadMatches := s.unreadMatches + newMatches,
             lastMatchCount := currentCount)
        else
          s.(lastMatchCount := currentCount)
  }

  /** A message in a conversation counts when someone else sent it and it
      is unread. */
  predicate UnreadFor(msg: ChatMessage, userId: JsId) {
    PartyId(msg.sender) != userId && !msg.isRead
  }

  function UnreadForUser(userId: JsId): ChatMessage -> bool {
    (msg: ChatMessage) => UnreadFor(msg, userId)
  }

  /** The loop over the user's matches: each adds its unread messages, and a
      match whose fetch threw adds nothing. */
  function TotalUnread(matches: seq<Match>, userId: JsId,
                       messagesOf: JsId -> Fetch<seq<ChatMessage>>): nat
    decreases |matches|
  {
    if |matches| == 0 then 0
    else
      var here := match messagesOf(matches[0].matchId)
                  case Fetched(msgs) => Seqs.Count(msgs, UnreadForUser(userId))
                  case FetchFailed(_) => 0;
      here + TotalUnread(matches[1..], userId, messagesOf)
  }

  /** The total is the sum over conversations; a conversation whose fetch
      threw contributes 0. */
  lemma {:induction false} TotalUnreadAdditive(a: seq<Match>, b: seq<Match>, userId: JsId,
                                               messagesOf: JsId -> Fetch<seq<ChatMessage>>)
    ensures TotalUnread(a + b, userId, messagesOf)
         == TotalUnread(a, userId, messagesOf) + TotalUnread(b, userId, messagesOf)
    ensures (forall i :: 0 <= i < |a| ==> messagesOf(a[i].matchId).FetchFailed?) ==>
      TotalUnread(a + b, userId, messagesOf) == TotalUnread(b, userId, messagesOf)
    decreases |a|
  {
    if |a| == 0 {
      assert a + b == b;
    } else {
      assert (a + b)[1..] == a[1..] + b;
      TotalUnreadAdditive(a[1..], b, userId, messagesOf);
    }
  }

  /** `checkForNewMessages`: the same armed-delta rule as for matches,
      applied to the total of unread messages. */
  function CheckMessages(s: Badges, userId: JsId, fetched: Fetch<seq<Match>>,
                         messagesOf: JsId -> Fetch<seq<ChatMessage>>, now: int): (r: Badges)
    ensures !Truthy(userId) || fetched.FetchFailed? ==> r == s
    ensures Truthy(userId) && fetched.Fetched? ==>
      var total := TotalUnread(UserMatches(fetched.value, userId), userId, messagesOf);
      && r.lastMessageCount == total
      && (total > s.lastMessageCount > 0 ==>
            r.unreadMessages == s.unreadMessages + (total - s.lastMessageCount)
            && r.toasts == Show(s.toasts, now, MessageTitle, MessageText(total - s.lastMessageCount)))
      && (!(total > s.lastMessageCount > 0) ==> r.unreadMessages == s.unreadMessages && r.toasts == s.toasts)
    ensures r.unreadMatches == s.unreadMatches && r.lastMatchCount == s.lastMatchCount
    ensures r.toasts != s.toasts <==> r.unreadMessages > s.unreadMessages
  {
    if !Truthy(userId) then s
    else
      match fetched
      case FetchFailed(_) => s
      case Fetched(all) =>
        var totalNewMessages := TotalUnread(UserMatches(all, userId), userId, messagesOf);
        if totalNewMessages > s.lastMessageCount && s.lastMessageCount > 0 then
          var newMessages := totalNewMessages - s.lastMessageCount;
          s.(toasts := Show(s.toasts, now, MessageTitle, MessageText(newMessages)),
             unreadMessages := s.unreadMessages + newMessages,
             lastMessageCount := totalNewMessages)
        else
          s.(lastMessageCount := totalNewMessages)
  }

  /** `clearMatchNotifications`: badge and baseline both go to 0. */
  function ClearMatches(s: Badges): (r: Badges)
    ensures r.unreadMatches == 0 && r.lastMatchCount == 0
    ensures r.unreadMessages == s.unreadMessages && r.lastMessageCount == s.lastMessageCount
    ensures r.toasts == s.toasts
  {
    s.(unreadMatches := 0, lastMatchCount := 0)
  }

  /** `clearMessageNotifications`: badge and baseline both go to 0. */
  function ClearMessages(s: Badges): (r: Badges)
    ensures r.unreadMessages == 0 && r.lastMessageCount == 0
    ensures r.unreadMatches == s.unreadMatches && r.lastMatchCount == s.lastMatchCount
    ensures r.toasts == s.toasts
  {
    s.(unreadMessages := 0, lastMessageCount := 0)
  }

  /** With a baseline of 0 (the first poll, or the first after a clear) a
      poll never raises a badge or a toast: whatever arrived is absorbed
      into the baseline. */
  lemma UnarmedPollIsSilent(s: Badges, userId: JsId, all: seq<Match>, now: int,
                            messagesOf: JsId -> Fetch<seq<ChatMessage>>)
    requires Truthy(userId)
    ensures s.lastMatchCount == 0 ==>
      var r := CheckMatches(s, userId, Fetched(all), now);
      r.unreadMatches == s.unreadMatches && r.toasts == s.toasts
      && r.lastMatchCount == |UserMatches(all, userId)|
    ensures s.lastMessageCount == 0 ==>
      var r := CheckMessages(s, userId, Fetched(all), messagesOf, now);
      r.unreadMessages == s.unreadMessages && r.toasts == s.toasts
      && r.lastMessageCount == TotalUnread(UserMatches(all, userId), userId, messagesOf)
  {
  }

  /** A match that arrives between a clear and the next poll is never
      announced. */
  lemma MatchAfterClearIsLost(s: Badges, userId: JsId, all: seq<Match>, now: int)
    requires Truthy(userId)
    ensures CheckMatches(ClearMatches(s), userId, Fetched(all), now).unreadMatches == 0
  {
  }

  /** The rises the web badge counts: only those from a baseline above 0. */
  function ArmedRises(base: nat, counts: seq<nat>): nat
    decreases |counts|
  {
    if |counts| == 0 then 0
    else (if counts[0] > base && base > 0 then counts[0] - base else 0) + ArmedRises(counts[0], counts[1..])
  }

  function PollMatches(s: Badges, userId: JsId, polls: seq<seq<Match>>, now: int): Badges
    decreases |polls|
  {
    if |polls| == 0 then s
    else PollMatches(CheckMatches(s, userId, Fetched(polls[0]), now), userId, polls[1..], now)
  }

  function MatchCount(userId: JsId): seq<Match> -> nat {
    (all: seq<Match>) => |UserMatches(all, userId)|
  }

  /** Over a run of successful polls the match badge grows by the rises
      whose starting baseline was above 0. */
  lemma {:induction false} MatchBadgeSumsArmedRises(s: Badges, userId: JsId, polls: seq<seq<Match>>, now: int)
    requires Truthy(userId)
    ensures PollMatches(s, userId, polls, now).unreadMatches
         == s.unreadMatches + ArmedRises(s.lastMatchCount, Seqs.Map(polls, MatchCount(userId)))
    decreases |polls|
  {
    if |polls| > 0 {
      var counts := Seqs.Map(polls, MatchCount(userId));
      assert counts[1..] == Seqs.Map(polls[1..], MatchCount(userId));
      MatchBadgeSumsArmedRises(CheckMatches(s, userId, Fetched(polls[0]), now), userId, polls[1..], now);
    }
  }

  /** From a fresh start, counts 0 then 1 then 2 announce one match, not
      two: the first match is never counted. */
  lemma FirstMatchNeverCounted()
    ensures ArmedRises(0, [1, 2]) == 1
  {
    assert [1, 2][1..] == [2];
    assert [2][1..] == [];
  }
}
