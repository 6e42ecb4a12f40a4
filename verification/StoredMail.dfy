/** The rows of one stored message, row by row: what StoreMail means apart from the statements it is made of. */
module StoredMail {
  import opened Wrappers
  import opened MailStorage
  import opened DeliverySystem

  function FromRow(messageId: int, sender: string): Actor {
    Actor(messageId, sender, From, None, 0, None, None, None)
  }

  function ToRow(messageId: int, recipient: string): Actor {
    Actor(messageId, recipient, To, Some(DeliveryStatus.Queued), 0, None, None, None)
  }

  function ToRows(messageId: int, recipients: seq<string>): seq<Actor> {
    seq(|recipients|, i requires 0 <= i < |recipients| => ToRow(messageId, recipients[i]))
  }

  /** The actors that one mail adds behind the last one: the sender, then the recipients in order. */
  function NewRows(messageId: int, sender: string, recipients: seq<string>): seq<Actor> {
    [FromRow(messageId, sender)] + ToRows(messageId, recipients)
  }

  /** The rows follow on each other, with ids from first on. */
  ghost predicate Appended(before: map<int, Actor>, after: map<int, Actor>, first: int, rows: seq<Actor>) {
    && (forall id :: id in after <==> id in before || first <= id < first + |rows|)
    && (forall id :: id in after ==>
          after[id] == if first <= id < first + |rows| then rows[id - first] else before[id])
  }

  lemma {:induction false} RecipientsAppended(t: Tables, m: int, recipients: seq<string>)
    requires m in t.messages
    ensures var t' := AddRecipients(t, m, recipients);
      && t'.messages == t.messages && t'.lastMessageId == t.lastMessageId
      && t'.lastActorId == t.lastActorId + |recipients|
      && Appended(t.actors, t'.actors, t.lastActorId + 1, ToRows(m, recipients))
    decreases |recipients|
  {
    if recipients != [] {
      RecipientsAppended(InsertActor(t, m, recipients[0], To, Some(DeliveryStatus.Queued)), m, recipients[1..]);
    }
  }

  /**
   A stored mail is one message row with the text, Queued, and one actor row for the sender and for each
   recipient, in order and Queued; no other row is touched.
   */
  lemma StoreMailExact(t: Tables, sender: string, recipients: seq<string>, body: string)
    ensures var t' := StoreMail(t, sender, recipients, body);
      var m := t.lastMessageId + 1;
      && t'.messages == t.messages[m := Message(None, body, MessageStatus.Queued)] && t'.lastMessageId == m
      && t'.lastActorId == t.lastActorId + 1 + |recipients|
      && Appended(t.actors, t'.actors, t.lastActorId + 1, NewRows(m, sender, recipients))
  {
    var m := t.lastMessageId + 1;
    var t1 := InsertActor(InsertMessage(t, None, body, MessageStatus.Queued), m, sender, From, None);
    RecipientsAppended(t1, m, recipients);
    hide AddRecipients;
  }
}
