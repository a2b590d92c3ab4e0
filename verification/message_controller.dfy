/** `MessageController` (src/main/java/com/example/skillswap/controller/MessageController.java):
    listing a match's messages, sending a message with validation, and
    marking a message read. */
module MessageController {
  import opened Wrappers
  import opened Text
  import opened Sorting
  import Seqs
  import opened ServerModel

  /** The tables the controller reads and writes. Message rows are kept in
      insertion order; the order of a listing comes from the sort alone. */
  datatype Db = Db(matches: map<int, Match>, users: map<int, User>, messages: seq<Message>)

  /** Every stored match carries its own key. */
  ghost predicate KeyedByMatchId(matches: map<int, Match>) {
    forall k :: k in matches ==> matches[k].matchId == k
  }

  /** Every message id names one row. */
  ghost predicate UniqueMessageIds(messages: seq<Message>) {
    forall i, j :: 0 <= i < j < |messages| ==> messages[i].messageId != messages[j].messageId
  }

  /** The request body: `match` and `sender` are deserialized stubs of which
      only the ids are read. */
  datatype MatchStub = MatchStub(matchId: Option<int>)
  datatype Incoming = Incoming(theMatch: Option<MatchStub>, sender: Option<User>, content: Option<string>)

  const MaxLength := 1000

  const MatchRequired := Status(400, "Match ID is required")
  const SenderRequired := Status(400, "Sender ID is required")
  const EmptyContent := Status(400, "Message content cannot be empty")
  const TooLong := Status(400, "Message is too long")
  const MatchNotFound := Status(404, "Match not found")
  const SenderNotFound := Status(404, "Sender user not found")
  const MessageNotFound := Status(404, "Message not found")

  function InMatch(matchId: int): Message -> bool {
    (m: Message) => m.theMatch.matchId == matchId
  }

  function BySentAt(m: Message): Rank {
    Rank(m.sentAt, 0)
  }

  /** `getMessagesByMatch` (`findByMatchMatchIdOrderBySentAtAsc`): an unknown
      match is a 404; otherwise exactly the match's messages, oldest first. */
  function GetMessagesByMatch(db: Db, matchId: int): (r: Result<seq<Message>>)
    ensures matchId !in db.matches <==> r == Err(MatchNotFound)
    ensures r.Ok? ==> SortedBy(r.value, BySentAt)
    ensures r.Ok? ==> forall m :: m in r.value <==> m in db.messages && m.theMatch.matchId == matchId
    ensures r.Ok? ==> multiset(r.value) == multiset(Seqs.Filter(db.messages, InMatch(matchId)))
  {
    if matchId !in db.matches then Err(MatchNotFound)
    else
      var mine := Seqs.Filter(db.messages, InMatch(matchId));
      var r := Sort(mine, BySentAt);
      assert forall m :: m in r <==> m in multiset(mine);
      Ok(r)
  }

  /** `getMessagesByMatchLegacy` delegates to the clearer route. */
  function GetMessagesByMatchLegacy(db: Db, matchId: int): (r: Result<seq<Message>>)
    ensures r == GetMessagesByMatch(db, matchId)
  {
    GetMessagesByMatch(db, matchId)
  }

  /** Why `sendMessage` rejects a request, checked in the controller's order;
      `None` when every check passes. */
  function Rejection(db: Db, incoming: Incoming): Option<ServerError> {
    if incoming.theMatch.None? || incoming.theMatch.value.matchId.None? then Some(MatchRequired)
    else if incoming.sender.None? || incoming.sender.value.userId.None? then Some(SenderRequired)
    else if incoming.content.None? || JavaTrim(incoming.content.value) == [] then Some(EmptyContent)
    else if |incoming.content.value| > MaxLength then Some(TooLong)
    else if incoming.theMatch.value.matchId.value !in db.matches then Some(MatchNotFound)
    else if incoming.sender.value.userId.value !in db.users then Some(SenderNotFound)
    else None
  }

  /** The request names a match id (`match` and `match.matchId` non-null). */
  predicate MatchIdGiven(incoming: Incoming) {
    incoming.theMatch.Some? && incoming.theMatch.value.matchId.Some?
  }

  /** The request names a sender id. */
  predicate SenderIdGiven(incoming: Incoming) {
    incoming.sender.Some? && incoming.sender.value.userId.Some?
  }

  /** The content is present and not blank in Java's sense of `trim`. */
  predicate ContentGiven(incoming: Incoming) {
    incoming.content.Some? && !AllSpace(incoming.content.value, IsJavaTrimmed)
  }

  /** The untrimmed content is within the cap. */
  predicate ShortEnough(incoming: Incoming) {
    incoming.content.Some? && |incoming.content.value| <= MaxLength
  }

  /** The four checks on the request itself pass. */
  predicate WellFormed(incoming: Incoming) {
    MatchIdGiven(incoming) && SenderIdGiven(incoming) && ContentGiven(incoming) && ShortEnough(incoming)
  }

  /** The named match is stored. */
  predicate MatchKnown(db: Db, incoming: Incoming) {
    MatchIdGiven(incoming) && incoming.theMatch.value.matchId.value in db.matches
  }

  /** The named sender is stored. */
  predicate SenderKnown(db: Db, incoming: Incoming) {
    SenderIdGiven(incoming) && incoming.sender.value.userId.value in db.users
  }

  /** `sendMessage`: the checks run in the controller's order and the first
      that fails decides the error; a request that passes them all appends
      one unread message, stamped `now`, with the trimmed content and the
      stored match and sender. The id is the one the database generates
      (`freshId`). */
  function SendMessage(db: Db, incoming: Incoming, freshId: int, now: int): (r: Result<(Message, Db)>)
    ensures !MatchIdGiven(incoming) ==> r == Err(MatchRequired)
    ensures MatchIdGiven(incoming) && !SenderIdGiven(incoming) ==> r == Err(SenderRequired)
    ensures MatchIdGiven(incoming) && SenderIdGiven(incoming) && !ContentGiven(incoming)
            ==> r == Err(EmptyContent)
    ensures MatchIdGiven(incoming) && SenderIdGiven(incoming) && ContentGiven(incoming) && !ShortEnough(incoming)
            ==> r == Err(TooLong)
    ensures WellFormed(incoming) && !MatchKnown(db, incoming) ==> r == Err(MatchNotFound)
    ensures WellFormed(incoming) && MatchKnown(db, incoming) && !SenderKnown(db, incoming) ==> r == Err(SenderNotFound)
    ensures r.Ok? <==> WellFormed(incoming) && MatchKnown(db, incoming) && SenderKnown(db, incoming)
    ensures r.Ok? ==>
      var (m, after) := r.value;
      && incoming.content.Some?
      && m == Message(freshId, db.matches[incoming.theMatch.value.matchId.value],
                      db.users[incoming.sender.value.userId.value],
                      JavaTrim(incoming.content.value), false, now)
      && m.content != []
      && after == db.(messages := db.messages + [m])
  {
    match Rejection(db, incoming)
    case Some(e) => Err(e)
    case None =>
      var m := Message(freshId, db.matches[incoming.theMatch.value.matchId.value],
                       db.users[incoming.sender.value.userId.value],
                       JavaTrim(incoming.content.value), false, now);
      Ok((m, db.(messages := db.messages + [m])))
  }

  /** A successful send with a fresh id keeps message ids unique, and the new
      message is listed with its match. */
  lemma SendMessageListed(db: Db, incoming: Incoming, freshId: int, now: int)
    requires KeyedByMatchId(db.matches) && UniqueMessageIds(db.messages)
    requires forall m :: m in db.messages ==> m.messageId != freshId
    requires SendMessage(db, incoming, freshId, now).Ok?
    ensures var (m, after) := SendMessage(db, incoming, freshId, now).value;
            && UniqueMessageIds(after.messages)
            && GetMessagesByMatch(after, incoming.theMatch.value.matchId.value).Ok?
            && m in GetMessagesByMatch(after, incoming.theMatch.value.matchId.value).value
  {
    var (m, after) := SendMessage(db, incoming, freshId, now).value;
    assert after.messages[|db.messages|] == m;
  }

  function HasId(id: int): Message -> bool {
    (m: Message) => m.messageId == id
  }

  /** `markAsRead`: an unknown id is a 404; otherwise the message with that
      id is saved as read, and every other row and table is unchanged. */
  function MarkAsRead(db: Db, id: int): (r: Result<(Message, Db)>)
    ensures r.Err? <==> forall m :: m in db.messages ==> m.messageId != id
    ensures r.Err? ==> r.error == MessageNotFound
    ensures r.Ok? ==>
      var (m, after) := r.value;
      && m.messageId == id && m.isRead && m in after.messages
      && after.matches == db.matches && after.users == db.users
      && |after.messages| == |db.messages|
      && exists i :: 0 <= i < |db.messages| && db.messages[i].messageId == id
                     && after.messages[i] == m == db.messages[i].(isRead := true)
                     && forall j :: 0 <= j < |db.messages| && j != i ==> after.messages[j] == db.messages[j]
  {
    match Seqs.FindIndex(db.messages, HasId(id))
    case None =>
      assert forall m :: m in db.messages ==> m.messageId != id by {
        forall m | m in db.messages ensures m.messageId != id {
          var i :| 0 <= i < |db.messages| && db.messages[i] == m;
          assert !HasId(id)(db.messages[i]);
        }
      }
      Err(MessageNotFound)
    case Some(i) =>
      var m := db.messages[i].(isRead := true);
      var after := db.(messages := db.messages[i := m]);
      assert after.messages[i] == m;
      Ok((m, after))
  }

  /** When ids are unique, after marking a message read every row with that
      id is read and the ids are still unique. */
  lemma MarkAsReadMarksTheRow(db: Db, id: int)
    requires UniqueMessageIds(db.messages)
    requires MarkAsRead(db, id).Ok?
    ensures var after := MarkAsRead(db, id).value.1;
            && UniqueMessageIds(after.messages)
            && forall m :: m in after.messages && m.messageId == id ==> m.isRead
  {
    var (m, after) := MarkAsRead(db, id).value;
    var i :| 0 <= i < |db.messages| && db.messages[i].messageId == id
             && after.messages[i] == m == db.messages[i].(isRead := true)
             && forall j :: 0 <= j < |db.messages| && j != i ==> after.messages[j] == db.messages[j];
    forall x | x in after.messages && x.messageId == id
      ensures x.isRead
    {
      var k :| 0 <= k < |after.messages| && after.messages[k] == x;
    }
  }

  /** Marking a message read a second time changes nothing. */
  lemma MarkAsReadIdempotent(db: Db, id: int)
    requires MarkAsRead(db, id).Ok?
    ensures var once := MarkAsRead(db, id).value;
            MarkAsRead(once.1, id) == Ok(once)
  {
    var (m, after) := MarkAsRead(db, id).value;
    var i := Seqs.FindIndex(db.messages, HasId(id)).value;
    assert after.messages == db.messages[i := m];
    assert forall j :: 0 <= j < |after.messages| ==>
      HasId(id)(after.messages[j]) == HasId(id)(db.messages[j]);
    Seqs.FindIndexAgrees(db.messages, after.messages, HasId(id));
    assert after.messages[i := m] == after.messages;
  }
}
