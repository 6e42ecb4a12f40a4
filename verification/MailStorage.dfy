/**
 The two tables of the mail store. Every SQL statement of the repositories is a function on the value of
 both tables, and a method of the class MailStore that updates the tables in place.

 Row ids come from AUTOINCREMENT: an id is never given out twice. Timestamps are integers, and
 '1970-01-01 00:00:00' is 0.
 */
module MailStorage {
  import opened Wrappers

  datatype ActorType = From | To | Cc | Bcc
  datatype DeliveryStatus = Pending | Queued | Delivering | Delivered | TemporaryFailed | Bounced | Failed
  datatype MessageStatus = Draft | Queued | Sending | Sent | Failed

  datatype Message = Message(subject: Option<string>, body: string, status: MessageStatus)

  datatype Actor = Actor(
    messageId: int,
    email: string,
    kind: ActorType,
    delivery: Option<DeliveryStatus>,
    attempts: nat,
    nextAttemptAt: Option<int>,
    lastError: Option<string>,
    deliveredAt: Option<int>)

  datatype Tables = Tables(messages: map<int, Message>, actors: map<int, Actor>, lastMessageId: nat, lastActorId: nat)

  const EmptyTables := Tables(map[], map[], 0, 0)

  // ----- rows -----

  predicate IsTerminal(d: DeliveryStatus) {
    d == DeliveryStatus.Delivered || d == DeliveryStatus.Bounced || d == DeliveryStatus.Failed
  }

  /** actor_type IN ('TO', 'CC', 'BCC') and delivery_status = d; false for a row that does not exist. */
  predicate HasStatus(t: Tables, id: int, d: DeliveryStatus) {
    id in t.actors && t.actors[id].kind != From && t.actors[id].delivery == Some(d)
  }

  /** The recipient rows of one message. */
  predicate IsRecipientOf(t: Tables, id: int, messageId: int) {
    id in t.actors && t.actors[id].kind != From && t.actors[id].messageId == messageId
  }

  predicate ActorCheck(a: Actor) {
    && (a.kind == From <==> a.delivery.None?)
    && (a.nextAttemptAt.Some? ==> a.delivery == Some(TemporaryFailed))
  }

  /**
   The CHECK and FOREIGN KEY constraints of the schema, the AUTOINCREMENT counters, and one fact the
   statements maintain: only a temporarily failed row carries a next attempt.
   */
  ghost predicate WellFormed(t: Tables) {
    && (forall m :: m in t.messages ==> 0 < m <= t.lastMessageId)
    && (forall id :: id in t.actors ==> 0 < id <= t.lastActorId)
    && (forall id :: id in t.actors ==> t.actors[id].messageId in t.messages)
    && (forall id :: id in t.actors ==> ActorCheck(t.actors[id]))
  }

  // ----- the statements, on the value of the tables -----

  function InsertMessage(t: Tables, subject: Option<string>, body: string, status: MessageStatus): Tables {
    t.(messages := t.messages[t.lastMessageId + 1 := Message(subject, body, status)],
       lastMessageId := t.lastMessageId + 1)
  }

  function DefaultStatus(kind: ActorType, delivery: Option<DeliveryStatus>): Option<DeliveryStatus> {
    if delivery.None? && kind != From then Some(Pending) else delivery
  }

  /** The row fails a constraint of the schema: no such message, or a delivery status on a FROM row. */
  predicate InsertRejected(t: Tables, messageId: int, kind: ActorType, delivery: Option<DeliveryStatus>) {
    messageId !in t.messages || (kind == From && delivery.Some?)
  }

  function InsertActor(t: Tables, messageId: int, email: string, kind: ActorType, delivery: Option<DeliveryStatus>):
    Tables
  {
    if InsertRejected(t, messageId, kind, delivery) then t
    else
      var row := Actor(messageId, email, kind, DefaultStatus(kind, delivery), 0, None, None, None);
      t.(actors := t.actors[t.lastActorId + 1 := row], lastActorId := t.lastActorId + 1)
  }

  function SetActor(t: Tables, id: int, a: Actor): Tables {
    t.(actors := t.actors[id := a])
  }

  function Queue(t: Tables, id: int): Tables {
    if HasStatus(t, id, Pending) || HasStatus(t, id, TemporaryFailed) then
      SetActor(t, id, t.actors[id].(delivery := Some(DeliveryStatus.Queued), nextAttemptAt := None, lastError := None))
    else t
  }

  function Deliver(t: Tables, id: int, now: int): Tables {
    if HasStatus(t, id, Delivering) then
      SetActor(t, id, t.actors[id].(delivery := Some(Delivered), nextAttemptAt := None, lastError := None,
                                    deliveredAt := Some(now)))
    else t
  }

  function FailTemporarily(t: Tables, id: int, nextAttemptAt: int, error: string): Tables {
    if HasStatus(t, id, Delivering) then
      SetActor(t, id, t.actors[id].(delivery := Some(TemporaryFailed), nextAttemptAt := Some(nextAttemptAt),
                                    lastError := Some(error), deliveredAt := None))
    else t
  }

  /** MarkFailed and MarkBounced. */
  function Terminate(t: Tables, id: int, status: DeliveryStatus, error: string): Tables {
    if HasStatus(t, id, Delivering) then
      SetActor(t, id, t.actors[id].(delivery := Some(status), nextAttemptAt := None, lastError := Some(error),
                                    deliveredAt := None))
    else t
  }

  predicate HasMessageStatus(t: Tables, messageId: int, status: MessageStatus) {
    messageId in t.messages && t.messages[messageId].status == status
  }

  function SetMessageStatus(t: Tables, messageId: int, status: MessageStatus): Tables
    requires messageId in t.messages
  {
    t.(messages := t.messages[messageId := t.messages[messageId].(status := status)])
  }

  function Update(t: Tables, messageId: int, expected: MessageStatus, status: MessageStatus): Tables {
    if HasMessageStatus(t, messageId, expected) then SetMessageStatus(t, messageId, status) else t
  }

  predicate SomeRecipient(t: Tables, messageId: int, d: DeliveryStatus) {
    exists id :: id in t.actors && IsRecipientOf(t, id, messageId) && HasStatus(t, id, d)
  }

  /** No recipient is pending, queued, delivering or temporarily failed. */
  predicate AllSettled(t: Tables, messageId: int) {
    && !SomeRecipient(t, messageId, Pending)
    && !SomeRecipient(t, messageId, DeliveryStatus.Queued)
    && !SomeRecipient(t, messageId, Delivering)
    && !SomeRecipient(t, messageId, TemporaryFailed)
  }

  predicate CanFinalize(t: Tables, messageId: int) {
    && (HasMessageStatus(t, messageId, MessageStatus.Queued) || HasMessageStatus(t, messageId, Sending))
    && AllSettled(t, messageId)
  }

  function Finalize(t: Tables, messageId: int): Tables {
    if CanFinalize(t, messageId) then
      SetMessageStatus(t, messageId, if SomeRecipient(t, messageId, Delivered) then Sent else MessageStatus.Failed)
    else t
  }

  /** ON DELETE CASCADE takes the actors along. */
  function Delete(t: Tables, messageId: int): Tables {
    t.(messages := t.messages - {messageId},
       actors := map id | id in t.actors && t.actors[id].messageId != messageId :: t.actors[id])
  }

  // ----- claiming -----

  predicate IsReady(t: Tables, id: int, now: int) {
    || HasStatus(t, id, DeliveryStatus.Queued)
    || (HasStatus(t, id, TemporaryFailed)
        && (t.actors[id].nextAttemptAt.None? || t.actors[id].nextAttemptAt.value <= now))
  }

  function Ready(t: Tables, now: int): set<int> {
    set id | id in t.actors && IsReady(t, id, now)
  }

  /** COALESCE(next_attempt_at, '1970-01-01 00:00:00'). */
  function DueAt(t: Tables, id: int): int
    requires id in t.actors
  {
    if t.actors[id].nextAttemptAt.None? then 0 else t.actors[id].nextAttemptAt.value
  }

  /** ORDER BY due time, then id. */
  predicate Precedes(t: Tables, a: int, b: int)
    requires a in t.actors && b in t.actors
  {
    DueAt(t, a) < DueAt(t, b) || (DueAt(t, a) == DueAt(t, b) && a < b)
  }

  ghost predicate IsFirst(t: Tables, rows: set<int>, m: int)
    requires rows <= t.actors.Keys
  {
    m in rows && forall x :: x in rows && x != m ==> Precedes(t, m, x)
  }

  lemma NonEmpty(rows: set<int>)
    ensures rows != {} ==> exists x :: x in rows
  {
    if !exists x :: x in rows {
      assert rows == {};
    }
  }

  /** The first row of a non-empty set in claim order. */
  lemma {:induction false} FirstExists(t: Tables, rows: set<int>)
    requires rows <= t.actors.Keys && rows != {}
    ensures exists m :: IsFirst(t, rows, m)
    decreases |rows|
  {
    NonEmpty(rows);
    var x :| x in rows;
    var rest := rows - {x};
    assert forall y :: y in rows && y != x ==> y in rest;
    if rest == {} {
      assert IsFirst(t, rows, x);
    } else {
      FirstExists(t, rest);
      var m :| IsFirst(t, rest, m);
      if Precedes(t, m, x) {
        assert IsFirst(t, rows, m);
      } else {
        PrecedesIsTotal(t, x, m);
        forall y | y in rows && y != x ensures Precedes(t, x, y) {
          assert y in rest;
        }
        assert IsFirst(t, rows, x);
      }
    }
  }

  lemma PrecedesIsTotal(t: Tables, a: int, b: int)
    requires a in t.actors && b in t.actors
    ensures a != b ==> (Precedes(t, a, b) <==> !Precedes(t, b, a))
  {}

  ghost function First(t: Tables, rows: set<int>): (m: int)
    requires rows <= t.actors.Keys && rows != {}
    ensures IsFirst(t, rows, m)
  {
    FirstExists(t, rows);
    var m :| IsFirst(t, rows, m);
    m
  }

  /** ORDER BY ... LIMIT over a set of rows. */
  ghost function Take(t: Tables, rows: set<int>, limit: int): seq<int>
    requires rows <= t.actors.Keys
    decreases |rows|
  {
    if limit <= 0 || rows == {} then []
    else [First(t, rows)] + Take(t, rows - {First(t, rows)}, limit - 1)
  }

  ghost function Claimed(t: Tables, limit: int, now: int): seq<int> {
    Take(t, Ready(t, now), limit)
  }

  function Min(a: int, b: int): int {
    if a < b then a else b
  }

  /** Exactly min(limit, rows) rows are taken, in order, and none that is left precedes one that is taken. */
  lemma {:induction false} TakeIsPrefix(t: Tables, rows: set<int>, limit: int)
    requires rows <= t.actors.Keys
    ensures var c := Take(t, rows, limit);
      && |c| == Min(if limit < 0 then 0 else limit, |rows|)
      && (forall i :: 0 <= i < |c| ==> c[i] in rows)
      && (forall i, j :: 0 <= i < j < |c| ==> Precedes(t, c[i], c[j]))
      && (forall i, x :: 0 <= i < |c| && x in rows && x !in c ==> Precedes(t, c[i], x))
    decreases |rows|
  {
    if limit > 0 && rows != {} {
      var f := First(t, rows);
      TakeIsPrefix(t, rows - {f}, limit - 1);
    }
  }

  function MarkClaimed(t: Tables, ids: set<int>): Tables {
    t.(actors := map id | id in t.actors ::
      if id in ids then
        t.actors[id].(delivery := Some(Delivering), attempts := t.actors[id].attempts + 1, nextAttemptAt := None)
      else t.actors[id])
  }

  function SetOf(ids: seq<int>): set<int> {
    set id | id in ids
  }

  ghost function Claim(t: Tables, limit: int, now: int): Tables {
    MarkClaimed(t, SetOf(Claimed(t, limit, now)))
  }

  /**
   The database behind MailMessageRepository and MailMessageActorRepository: each method is one SQL
   statement. BEGIN IMMEDIATE keeps a copy that ROLLBACK restores.
   */
  class MailStore {
    var messages: map<int, Message>
    var actors: map<int, Actor>
    var lastMessageId: nat
    var lastActorId: nat
    var saved: Option<Tables>

    constructor ()
      ensures State() == EmptyTables && saved == None
    {
      messages, actors, lastMessageId, lastActorId, saved := map[], map[], 0, 0, None;
    }

    function State(): Tables
      reads this
    {
      Tables(messages, actors, lastMessageId, lastActorId)
    }

    method Begin()
      modifies this
      ensures State() == old(State()) && saved == Some(old(State()))
    {
      saved := Some(State());
    }

    method Commit()
      modifies this
      ensures State() == old(State()) && saved == None
    {
      saved := None;
    }

    method Rollback()
      modifies this
      ensures saved == None
      ensures State() == if old(saved).Some? then old(saved).value else old(State())
    {
      if saved.Some? {
        var t := saved.value;
        messages, actors, lastMessageId, lastActorId := t.messages, t.actors, t.lastMessageId, t.lastActorId;
      }
      saved := None;
    }

    method CreateMessage(subject: Option<string>, body: string, status: MessageStatus) returns (id: int)
      modifies this
      ensures State() == InsertMessage(old(State()), subject, body, status)
      ensures id == lastMessageId && saved == old(saved)
    {
      id := lastMessageId + 1;
      messages := messages[id := Message(subject, body, status)];
      lastMessageId := id;
    }

    method CreateActor(messageId: int, email: string, kind: ActorType, delivery: Option<DeliveryStatus>)
      returns (r: Result<int>)
      modifies this
      ensures State() == InsertActor(old(State()), messageId, email, kind, delivery)
      ensures r.Err? <==> InsertRejected(old(State()), messageId, kind, delivery)
      ensures r.Ok? ==> r.value == lastActorId
      ensures saved == old(saved)
    {
      var status := delivery;
      if status.None? && kind != From {
        status := Some(Pending);
      }
      if messageId !in messages {
        return Err("FOREIGN KEY constraint failed");
      }
      if kind == From && status.Some? {
        return Err("CHECK constraint failed");
      }
      lastActorId := lastActorId + 1;
      actors := actors[lastActorId := Actor(messageId, email, kind, status, 0, None, None, None)];
      return Ok(lastActorId);
    }

    method QueueActor(id: int) returns (changed: bool)
      modifies this
      ensures State() == Queue(old(State()), id) && saved == old(saved)
      ensures changed <==> HasStatus(old(State()), id, Pending) || HasStatus(old(State()), id, TemporaryFailed)
    {
      changed := id in actors && actors[id].kind != From
                 && (actors[id].delivery == Some(Pending) || actors[id].delivery == Some(TemporaryFailed));
      if changed {
        actors := actors[id := actors[id].(delivery := Some(DeliveryStatus.Queued), nextAttemptAt := None,
                                           lastError := None)];
      }
    }

    /** One Step of the statement returns one row; SQLite may return the claimed rows in any order. */
    method ClaimReadyRecipients(limit: int, now: int) returns (claimed: seq<int>)
      modifies this
      ensures State() == Claim(old(State()), limit, now) && saved == old(saved)
      ensures claimed == Claimed(old(State()), limit, now)
    {
      claimed := [];
      ghost var t := State();
      if limit <= 0 {
        NothingClaimed(t, limit, now);
        return;
      }
      var rows := Ready(State(), now);
      while |claimed| < limit && rows != {}
        invariant State() == t && rows <= actors.Keys && |claimed| <= limit && saved == old(saved)
        invariant claimed + Take(t, rows, limit - |claimed|) == Claimed(t, limit, now)
        decreases |rows|
      {
        FirstExists(t, rows);
        var row :| row in rows && forall x :: x in rows && x != row ==> Precedes(State(), row, x);
        FirstIsUnique(t, rows, row);
        claimed := claimed + [row];
        rows := rows - {row};
      }
      actors := map id | id in actors ::
        if id in claimed then
          actors[id].(delivery := Some(Delivering), attempts := actors[id].attempts + 1, nextAttemptAt := None)
        else actors[id];
    }

    method MarkDelivered(id: int, now: int) returns (changed: bool)
      modifies this
      ensures State() == Deliver(old(State()), id, now) && saved == old(saved)
      ensures changed <==> HasStatus(old(State()), id, Delivering)
    {
      changed := id in actors && actors[id].kind != From && actors[id].delivery == Some(Delivering);
      if changed {
        actors := actors[id := actors[id].(delivery := Some(Delivered), nextAttemptAt := None, lastError := None,
                                           deliveredAt := Some(now))];
      }
    }

    method MarkTemporaryFailed(id: int, nextAttemptAt: int, error: string) returns (changed: bool)
      modifies this
      ensures State() == FailTemporarily(old(State()), id, nextAttemptAt, error) && saved == old(saved)
      ensures changed <==> HasStatus(old(State()), id, Delivering)
    {
      changed := id in actors && actors[id].kind != From && actors[id].delivery == Some(Delivering);
      if changed {
        actors := actors[id := actors[id].(delivery := Some(TemporaryFailed), nextAttemptAt := Some(nextAttemptAt),
                                           lastError := Some(error), deliveredAt := None)];
      }
    }

    method MarkTerminal(id: int, status: DeliveryStatus, error: string) returns (changed: bool)
      modifies this
      ensures State() == Terminate(old(State()), id, status, error) && saved == old(saved)
      ensures changed <==> HasStatus(old(State()), id, Delivering)
    {
      changed := id in actors && actors[id].kind != From && actors[id].delivery == Some(Delivering);
      if changed {
        actors := actors[id := actors[id].(delivery := Some(status), nextAttemptAt := None, lastError := Some(error),
                                           deliveredAt := None)];
      }
    }

    method UpdateStatus(messageId: int, expected: MessageStatus, status: MessageStatus) returns (changed: bool)
      modifies this
      ensures State() == Update(old(State()), messageId, expected, status) && saved == old(saved)
      ensures changed <==> HasMessageStatus(old(State()), messageId, expected)
    {
      changed := messageId in messages && messages[messageId].status == expected;
      if changed {
        messages := messages[messageId := messages[messageId].(status := status)];
      }
    }

    /** ON DELETE CASCADE takes the actors along. */
    method DeleteMessage(messageId: int) returns (changed: bool)
      modifies this
      ensures State() == Delete(old(State()), messageId) && saved == old(saved)
      ensures changed <==> messageId in old(messages)
    {
      changed := messageId in messages;
      messages := messages - {messageId};
      actors := map id | id in actors && actors[id].messageId != messageId :: actors[id];
    }

    method FinalizeDelivery(messageId: int) returns (changed: bool)
      modifies this
      ensures State() == Finalize(old(State()), messageId) && saved == old(saved)
      ensures changed <==> CanFinalize(old(State()), messageId)
    {
      var t := State();
      changed := CanFinalize(t, messageId);
      if changed {
        var status := if SomeRecipient(t, messageId, Delivered) then Sent else MessageStatus.Failed;
        messages := messages[messageId := messages[messageId].(status := status)];
      }
    }
  }

  lemma NothingClaimed(t: Tables, limit: int, now: int)
    requires limit <= 0
    ensures Claimed(t, limit, now) == [] && Claim(t, limit, now) == t
  {}

  lemma FirstIsUnique(t: Tables, rows: set<int>, m: int)
    requires rows <= t.actors.Keys && IsFirst(t, rows, m)
    ensures First(t, rows) == m
  {}
}
