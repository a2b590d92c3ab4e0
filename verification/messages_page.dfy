/** The web Messages page (frontend-web/src/pages/Messages.js): the
    conversation list, the first-selection rule, the send guard and the
    draft's fate after a send. */
module MessagesPage {
  import opened Wrappers
  import opened Js
  import opened Entities
  import opened Participants
  import opened Text
  import Seqs
  import WebNotifications
  import MobileNotifications

  /** `{...theMatch, otherUser}`. */
  datatype Conversation = Conversation(theMatch: Match, otherUser: Option<User>)

  function ToConversation(users: seq<User>, userId: JsId): Match -> Conversation {
    (m: Match) => Conversation(m, UserById(users, OtherPartyId(m, userId)))
  }

  /** `loadMatches`: one conversation per match the user belongs to, in the
      fetched order, each carrying the other party's account when known. */
  function Conversations(all: seq<Match>, users: seq<User>, userId: JsId): (r: seq<Conversation>)
    ensures |r| == |UserMatches(all, userId)|
    ensures forall i :: 0 <= i < |r| ==>
      && r[i].theMatch == UserMatches(all, userId)[i]
      && IsParty(r[i].theMatch, userId)
      && r[i].theMatch in all
      && r[i].otherUser == UserById(users, OtherPartyId(r[i].theMatch, userId))
  {
    var mine := UserMatches(all, userId);
    assert forall i :: 0 <= i < |mine| ==> mine[i] in mine;
    Seqs.Map(mine, ToConversation(users, userId))
  }

  /** Only a match the user is in becomes a conversation, and every such
      match does. */
  lemma ConversationsExact(all: seq<Match>, users: seq<User>, userId: JsId, m: Match)
    ensures (exists i :: 0 <= i < |Conversations(all, users, userId)|
                         && Conversations(all, users, userId)[i].theMatch == m)
            <==> m in all && IsParty(m, userId)
  {
    var mine := UserMatches(all, userId);
    if m in all && IsParty(m, userId) {
      assert m in mine;
      var i :| 0 <= i < |mine| && mine[i] == m;
      assert Conversations(all, users, userId)[i].theMatch == m;
    }
  }

  /** `if (enrichedMatches.length > 0 && !selectedMatch)`: the first
      conversation is opened only when there is one and none is open. */
  function AutoSelect(conversations: seq<Conversation>, selected: Option<Conversation>): (r: Option<Conversation>)
    ensures selected.Some? ==> r == selected
    ensures selected.None? && |conversations| == 0 ==> r.None?
    ensures selected.None? && |conversations| > 0 ==> r == Some(conversations[0])
  {
    if |conversations| > 0 && selected.None? then Some(conversations[0]) else selected
  }

  /** Opening the first conversation is a one-time step: once done, another
      pass changes nothing, and what it opens is one of the conversations. */
  lemma AutoSelectSettles(conversations: seq<Conversation>, selected: Option<Conversation>)
    ensures AutoSelect(conversations, AutoSelect(conversations, selected)) == AutoSelect(conversations, selected)
    ensures selected.None? ==> (AutoSelect(conversations, selected).Some? <==> |conversations| > 0)
    ensures selected.None? && |conversations| > 0 ==> AutoSelect(conversations, selected).value in conversations
  {
  }

  /** The list panel: the conversations and the one open. */
  datatype Panel = Panel(conversations: seq<Conversation>, selected: Option<Conversation>)

  /** `loadMatches` as a whole. `seen` is the open conversation as the
      handler's closure captured it, which the guard reads; the panel's own
      selection is what stays when the guard does not fire. A successful
      load replaces the list and, if the closure saw nothing open, opens its
      first conversation; a failed load changes nothing. */
  function LoadMatches(panel: Panel, seen: Option<Conversation>, userId: JsId,
                       fetched: Fetch<(seq<Match>, seq<User>)>): (r: Panel)
    ensures fetched.FetchFailed? ==> r == panel
    ensures fetched.Fetched? ==>
      && r.conversations == Conversations(fetched.value.0, fetched.value.1, userId)
      && (seen.None? && |r.conversations| > 0 ==> r.selected == Some(r.conversations[0]))
      && (seen.Some? || |r.conversations| == 0 ==> r.selected == panel.selected)
  {
    match fetched
    case FetchFailed(_) => panel
    case Fetched((all, users)) =>
      var conversations := Conversations(all, users, userId);
      var chosen := AutoSelect(conversations, seen);
      Panel(conversations, if chosen != seen then chosen else panel.selected)
  }

  /** The page loads its matches once, from the mount effect, whose closure
      saw the initial `null` selection. That load opens the first
      conversation iff there is one, which is what `AutoSelect` does from
      nothing open; and if the panel had somehow gained a selection, a load
      through that closure would still switch to the first conversation. */
  lemma MountLoadOpensFirst(panel: Panel, userId: JsId, all: seq<Match>, users: seq<User>)
    ensures var r := LoadMatches(panel, None, userId, Fetched((all, users)));
            && (|r.conversations| > 0 ==> r.selected == Some(r.conversations[0]))
            && (panel.selected.None? ==> r.selected == AutoSelect(r.conversations, None))
            && (panel.selected.None? ==> (r.selected.Some? <==> |r.conversations| > 0))
  {
  }

  /** The body posted by `sendMessage`. */
  datatype OutgoingMessage = OutgoingMessage(matchId: JsId, senderId: JsId, messageContent: string)

  /** The guard and payload of `sendMessage`: nothing is sent for a blank
      draft or with no open conversation; otherwise the trimmed draft goes
      to the open match from the current user. */
  function Outgoing(draft: string, selected: Option<Conversation>, userId: JsId): (r: Option<OutgoingMessage>)
    ensures r.None? <==> AllSpace(draft, IsJsWhitespace) || selected.None?
    ensures r.Some? ==>
      && r.value.matchId == selected.value.theMatch.matchId
      && r.value.senderId == userId
      && r.value.messageContent == JsTrim(draft)
      && r.value.messageContent != ""
  {
    if JsTrim(draft) == "" || selected.None? then None
    else Some(OutgoingMessage(selected.value.theMatch.matchId, userId, JsTrim(draft)))
  }

  /** The chat panel: the draft, the shown messages, and an alert if one
      was raised. */
  datatype Composer = Composer(draft: string, messages: seq<ChatMessage>, alert: Option<string>)

  const SendFailedAlert := "Failed to send message. Please try again."

  /** `loadMessages`: the fetched list replaces the shown one wholesale; a
      failed fetch leaves it. */
  function LoadMessages(shown: seq<ChatMessage>, fetched: Fetch<seq<ChatMessage>>): (r: seq<ChatMessage>)
    ensures fetched.Fetched? ==> r == fetched.value
    ensures fetched.FetchFailed? ==> r == shown
  {
    ValueOr(fetched, shown)
  }

  /** Polls are idempotent and the last answer wins: a second poll with the
      same answer changes nothing, and a failed poll in between is as if it
      had not happened. */
  lemma PollsSettle(shown: seq<ChatMessage>, first: Fetch<seq<ChatMessage>>,
                    second: Fetch<seq<ChatMessage>>, message: string)
    ensures LoadMessages(LoadMessages(shown, first), first) == LoadMessages(shown, first)
    ensures second.Fetched? ==> LoadMessages(LoadMessages(shown, first), second) == second.value
    ensures LoadMessages(LoadMessages(shown, FetchFailed(message)), first) == LoadMessages(shown, first)
  {
  }

  /** `sendMessage` as a whole: `created` says whether the POST succeeded
      and `reloaded` is the refetch that follows a success. */
  function Send(c: Composer, selected: Option<Conversation>, userId: JsId,
                created: bool, reloaded: Fetch<seq<ChatMessage>>): (r: Composer)
    ensures Outgoing(c.draft, selected, userId).None? ==> r == c
    ensures Outgoing(c.draft, selected, userId).Some? && created ==>
      r.draft == "" && r.messages == LoadMessages(c.messages, reloaded) && r.alert == c.alert
    ensures Outgoing(c.draft, selected, userId).Some? && !created ==>
      r.draft == c.draft && r.messages == c.messages && r.alert == Some(SendFailedAlert)
  {
    if Outgoing(c.draft, selected, userId).None? then c
    else if created then c.(draft := "", messages := LoadMessages(c.messages, reloaded))
    else c.(alert := Some(SendFailedAlert))
  }

  /** After a successful send the draft is empty, so sending again at once
      posts nothing; after a failed send the same message would be posted
      again. */
  lemma SentDraftIsConsumed(c: Composer, selected: Option<Conversation>, userId: JsId,
                            created: bool, reloaded: Fetch<seq<ChatMessage>>)
    requires Outgoing(c.draft, selected, userId).Some?
    ensures created ==> Outgoing(Send(c, selected, userId, created, reloaded).draft, selected, userId).None?
    ensures !created ==>
      Outgoing(Send(c, selected, userId, created, reloaded).draft, selected, userId) == Outgoing(c.draft, selected, userId)
  {
  }

  /** A message is drawn as the user's own iff its sender is the user. */
  predicate IsOwn(msg: ChatMessage, userId: JsId) {
    PartyId(msg.sender) == userId
  }

  /** The bubble side agrees with both notification providers: the user's
      own messages never count as awaiting them, and an unread message drawn
      on the other side always does. */
  lemma OwnMessagesNeverAwait(msg: ChatMessage, userId: JsId)
    ensures IsOwn(msg, userId) ==>
      !WebNotifications.UnreadFor(msg, userId)
      && !MobileNotifications.AwaitsUser(MobileNotifications.Latest(msg), userId)
    ensures !IsOwn(msg, userId) && !msg.isRead ==>
      WebNotifications.UnreadFor(msg, userId)
      && MobileNotifications.AwaitsUser(MobileNotifications.Latest(msg), userId)
  {
  }
}
