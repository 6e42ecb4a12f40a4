/** Which rows a claim may take and when, and what the columns of a row say about its status, over any statements. */
module DueRows {
  import opened Wrappers
  import opened MailStorage
  import opened StatementTraces

  // ----- which rows are claimed -----

  /** A recipient that waits to be delivered for the first time. */
  predicate Waits(a: Actor) {
    (a.kind == To || a.kind == Cc || a.kind == Bcc) && a.delivery == Some(DeliveryStatus.Queued)
  }

  /** A recipient whose delivery failed for now, with the time of its next attempt, if it has one. */
  predicate Retries(a: Actor) {
    (a.kind == To || a.kind == Cc || a.kind == Bcc) && a.delivery == Some(TemporaryFailed)
  }

  predicate RetriesBy(a: Actor, now: int) {
    Retries(a) && (a.nextAttemptAt.None? || now >= a.nextAttemptAt.value)
  }

  /**
   Nothing is claimed but Queued recipients and temporarily failed ones whose next attempt is not later than now;
   and if the limit allows it, all of them are.
   */
  lemma ClaimedAreDue(t: Tables, limit: int, now: int, id: int)
    ensures id in Claimed(t, limit, now) ==> id in t.actors && (Waits(t.actors[id]) || RetriesBy(t.actors[id], now))
    ensures limit >= |t.actors| && id in t.actors && (Waits(t.actors[id]) || RetriesBy(t.actors[id], now)) ==>
      id in Claimed(t, limit, now)
  {
    var c, ready := Claimed(t, limit, now), Ready(t, now);
    ClaimIsExact(t, limit, now);
    assert id in ready <==> id in t.actors && (Waits(t.actors[id]) || RetriesBy(t.actors[id], now)) by {
      hide Claimed;
    }
    if limit >= |t.actors| {
      SubsetSize(ready, t.actors.Keys);
      assert SetOf(c) <= ready;
      AllOf(SetOf(c), ready);
    }
    hide Ready, Claimed, Waits, RetriesBy;
  }

  lemma AllOf(a: set<int>, b: set<int>)
    requires a <= b && |a| >= |b|
    ensures a == b
  {
    assert b == a + (b - a);
  }

  /** Of two rows claimed, the one returned first is due earlier, or as early with the smaller id. */
  lemma ClaimedInOrder(t: Tables, limit: int, now: int, i: nat, j: nat)
    requires i < j < |Claimed(t, limit, now)|
    ensures var c := Claimed(t, limit, now);
      && c[i] in t.actors && c[j] in t.actors
      && var a, b := t.actors[c[i]].nextAttemptAt, t.actors[c[j]].nextAttemptAt;
      && var due, later := (if a.Some? then a.value else 0), (if b.Some? then b.value else 0);
      due < later || (due == later && c[i] < c[j])
  {
    ClaimIsExact(t, limit, now);
    assert Claimed(t, limit, now)[i] in Ready(t, now) && Claimed(t, limit, now)[j] in Ready(t, now);
    hide Claimed;
  }

  // ----- a retry waits for its time -----

  /** The statement is none that could make the row due before the time: no earlier claim, no QueueActor of it. */
  predicate Waiting(s: Statement, id: int, time: int) {
    && (s.ClaimReady? ==> s.now < time)
    && (s.QueueActor? ==> s.id != id)
  }

  /** The row is gone, or it is put back for this time. */
  ghost predicate IsPutBack(t: Tables, id: int, time: int) {
    id in t.actors ==> Retries(t.actors[id]) && t.actors[id].nextAttemptAt == Some(time)
  }

  lemma NotClaimedYet(t: Tables, limit: int, now: int, id: int, time: int)
    requires IsPutBack(t, id, time) && id in t.actors && now < time
    ensures id !in Claimed(t, limit, now)
  {
    ClaimedAreDue(t, limit, now, id);
    hide Claimed;
  }

  lemma StillPutBack(t: Tables, s: Statement, id: int, time: int)
    requires WellFormed(t) && IsPutBack(t, id, time) && id <= t.lastActorId && Waiting(s, id, time)
    ensures IsPutBack(Execute(t, s), id, time)
    ensures s.ClaimReady? && id in t.actors ==> id !in Claimed(t, s.limit, s.now)
  {
    match s
    case ClaimReady(limit, now) =>
      if id in t.actors {
        NotClaimedYet(t, limit, now, id, time);
        ClaimEffect(t, limit, now, id);
      }
      hide Claimed;
    case _ =>
  }

  /** Over any statements: a recipient that is put back for a time is not claimed before it. */
  lemma {:induction false} RetryWaits(t: Tables, trace: seq<Statement>, id: int, time: int)
    requires WellFormed(t) && IsPutBack(t, id, time) && id in t.actors
    requires forall i :: 0 <= i < |trace| ==> Waiting(trace[i], id, time)
    ensures ClaimsOf(t, trace, id) == 0 && IsPutBack(ExecuteAll(t, trace), id, time)
  {
    RetryKept(t, trace, id, time);
  }

  lemma {:induction false} RetryKept(t: Tables, trace: seq<Statement>, id: int, time: int)
    requires WellFormed(t) && IsPutBack(t, id, time) && id <= t.lastActorId
    requires forall i :: 0 <= i < |trace| ==> Waiting(trace[i], id, time)
    ensures ClaimsOf(t, trace, id) == 0 && IsPutBack(ExecuteAll(t, trace), id, time)
    decreases |trace|
  {
    if trace != [] {
      var t1 := Execute(t, trace[0]);
      ExecuteWellFormed(t, trace[0]);
      StillPutBack(t, trace[0], id, time);
      if trace[0].ClaimReady? && id !in t.actors {
        GoneIsNotClaimed(t, trace[0], id);
      }
      hide Execute, WellFormed, IsPutBack, Waiting, Claimed;
      RetryKept(t1, trace[1..], id, time);
    }
  }

  lemma GoneIsNotClaimed(t: Tables, s: Statement, id: int)
    requires id !in t.actors && s.ClaimReady?
    ensures id !in Claimed(t, s.limit, s.now)
  {
    ClaimedAreDue(t, s.limit, s.now, id);
    hide Claimed;
  }

  /** MarkTemporaryFailed puts a row in delivery back for the time it is given, with its error. */
  lemma PutBackByMark(t: Tables, id: int, time: int, error: string)
    requires HasStatus(t, id, Delivering)
    ensures var t' := Execute(t, MarkTemporaryFailed(id, time, error));
      id in t'.actors && IsPutBack(t', id, time) && t'.actors[id].lastError == Some(error)
  {}

  /** QueueActor makes a recipient due at once, if it is pending or put back. */
  lemma QueuedIsDue(t: Tables, id: int, now: int)
    ensures var t' := Execute(t, QueueActor(id));
      HasStatus(t, id, Pending) || HasStatus(t, id, TemporaryFailed) || HasStatus(t, id, DeliveryStatus.Queued) ==>
        id in t'.actors && Waits(t'.actors[id]) && id in Ready(t', now)
  {}

  /** A new recipient is due only if it is Queued from the start. */
  lemma NewRecipient(t: Tables, messageId: int, email: string, kind: ActorType, delivery: Option<DeliveryStatus>,
                     now: int)
    requires messageId in t.messages && kind != From
    ensures var t' := Execute(t, CreateActor(messageId, email, kind, delivery)); var id := t.lastActorId + 1;
      && id in t'.actors && t'.actors[id].messageId == messageId && t'.actors[id].email == email
      && t'.actors[id].kind == kind && t'.actors[id].attempts == 0
      && (delivery.None? ==> t'.actors[id].delivery == Some(Pending) && id !in Ready(t', now))
      && (delivery.Some? ==> t'.actors[id].delivery == delivery)
  {}

  /** A deleted message is gone with its actors, and nothing else is. */
  lemma DeletedIsGone(t: Tables, m: int)
    ensures var t' := Execute(t, DeleteMessage(m));
      && m !in t'.messages && (forall id :: id in t'.actors ==> t'.actors[id].messageId != m)
      && (forall k :: k in t.messages && k != m ==> k in t'.messages && t'.messages[k] == t.messages[k])
      && (forall id :: id in t.actors && t.actors[id].messageId != m ==>
            id in t'.actors && t'.actors[id] == t.actors[id])
  {}

  // ----- the end of a delivery -----

  /** The row is settled as it is, or it is gone. */
  ghost predicate IsSettledAs(t: Tables, id: int, a: Actor) {
    id <= t.lastActorId && (id in t.actors ==> t.actors[id] == a)
  }

  predicate IsFinal(a: Actor) {
    a.kind != From && (a.delivery == Some(Delivered) || a.delivery == Some(Bounced)
                       || a.delivery == Some(DeliveryStatus.Failed))
  }

  lemma FinalStays(t: Tables, s: Statement, id: int, a: Actor)
    requires WellFormed(t) && IsSettledAs(t, id, a) && IsFinal(a)
    ensures IsSettledAs(Execute(t, s), id, a)
  {
    match s
    case ClaimReady(limit, now) =>
      if id in t.actors {
        ClaimedAreDue(t, limit, now, id);
        ClaimEffect(t, limit, now, id);
      }
      hide Claimed;
    case _ =>
  }

  /** A settled row keeps every column, over any statements, as long as it exists. */
  lemma {:induction false} FinalForever(t: Tables, trace: seq<Statement>, id: int, a: Actor)
    requires WellFormed(t) && IsSettledAs(t, id, a) && IsFinal(a)
    ensures IsSettledAs(ExecuteAll(t, trace), id, a)
    decreases |trace|
  {
    if trace != [] {
      ExecuteWellFormed(t, trace[0]);
      FinalStays(t, trace[0], id, a);
      hide Execute, WellFormed, IsSettledAs, IsFinal;
      FinalForever(Execute(t, trace[0]), trace[1..], id, a);
    }
  }

  /** The time of a delivery, and the error of a failed one, are those of the mark that settled the row, for good. */
  lemma MarkedForever(t: Tables, id: int, now: int, error: string, trace: seq<Statement>)
    requires WellFormed(t) && HasStatus(t, id, Delivering)
    ensures var t' := ExecuteAll(Execute(t, MarkDelivered(id, now)), trace);
      id in t'.actors ==>
        t'.actors[id].delivery == Some(Delivered) && t'.actors[id].deliveredAt == Some(now)
        && t'.actors[id].lastError == None && t'.actors[id].attempts == t.actors[id].attempts
    ensures var t' := ExecuteAll(Execute(t, MarkFailed(id, error)), trace);
      id in t'.actors ==>
        t'.actors[id].delivery == Some(DeliveryStatus.Failed) && t'.actors[id].deliveredAt == None
        && t'.actors[id].lastError == Some(error) && t'.actors[id].attempts == t.actors[id].attempts
    ensures var t' := ExecuteAll(Execute(t, MarkBounced(id, error)), trace);
      id in t'.actors ==>
        t'.actors[id].delivery == Some(Bounced) && t'.actors[id].deliveredAt == None
        && t'.actors[id].lastError == Some(error) && t'.actors[id].attempts == t.actors[id].attempts
  {
    MarkedOnce(t, MarkDelivered(id, now), id, trace);
    MarkedOnce(t, MarkFailed(id, error), id, trace);
    MarkedOnce(t, MarkBounced(id, error), id, trace);
    hide ExecuteAll, WellFormed;
  }

  lemma MarkedOnce(t: Tables, s: Statement, id: int, trace: seq<Statement>)
    requires WellFormed(t) && HasStatus(t, id, Delivering)
    requires (s.MarkDelivered? || s.MarkFailed? || s.MarkBounced?) && s.id == id
    ensures id in Execute(t, s).actors
    ensures var t' := ExecuteAll(Execute(t, s), trace); id in t'.actors ==> t'.actors[id] == Execute(t, s).actors[id]
  {
    ExecuteWellFormed(t, s);
    assert id in Execute(t, s).actors && IsFinal(Execute(t, s).actors[id]);
    assert IsSettledAs(Execute(t, s), id, Execute(t, s).actors[id]);
    FinalForever(Execute(t, s), trace, id, Execute(t, s).actors[id]);
    hide ExecuteAll, WellFormed, Execute, IsFinal;
  }

  // ----- the columns and the status -----

  /** When a row was delivered, when it is tried again and why it failed are known exactly where they make sense. */
  predicate ColumnsAgree(a: Actor) {
    && (a.deliveredAt.Some? <==> a.delivery == Some(Delivered))
    && (a.nextAttemptAt.Some? <==> a.delivery == Some(TemporaryFailed))
    && (HasFailed(a) ==> a.lastError.Some?)
    && (HasNoError(a) ==> a.lastError.None?)
  }

  predicate HasFailed(a: Actor) {
    a.delivery == Some(TemporaryFailed) || a.delivery == Some(Bounced) || a.delivery == Some(DeliveryStatus.Failed)
  }

  predicate HasNoError(a: Actor) {
    || a.delivery == None || a.delivery == Some(Pending) || a.delivery == Some(DeliveryStatus.Queued)
    || a.delivery == Some(Delivered)
  }

  ghost predicate AllAgree(t: Tables) {
    forall id :: id in t.actors ==> ColumnsAgree(t.actors[id])
  }

  /** A row starts without a history. */
  predicate StartsFresh(s: Statement) {
    s.CreateActor? ==> s.delivery.None? || s.delivery == Some(Pending) || s.delivery == Some(DeliveryStatus.Queued)
  }

  lemma ClaimAgrees(t: Tables, limit: int, now: int)
    requires AllAgree(t)
    ensures AllAgree(Claim(t, limit, now))
  {
    forall id | id in t.actors ensures ColumnsAgree(Claim(t, limit, now).actors[id]) {
      ClaimEffect(t, limit, now, id);
      ClaimedAreDue(t, limit, now, id);
    }
    hide Claimed, ColumnsAgree;
  }

  lemma StatementAgrees(t: Tables, s: Statement)
    requires AllAgree(t) && StartsFresh(s)
    ensures AllAgree(Execute(t, s))
  {
    match s
    case ClaimReady(limit, now) => ClaimAgrees(t, limit, now); hide AllAgree, Claim;
    case FinalizeDelivery(m) => hide CanFinalize, ColumnsAgree;
    case _ =>
  }

  /** Over any statements, of rows that start Pending or Queued. */
  lemma {:induction false} ColumnsAlwaysAgree(t: Tables, trace: seq<Statement>)
    requires AllAgree(t) && forall i :: 0 <= i < |trace| ==> StartsFresh(trace[i])
    ensures AllAgree(ExecuteAll(t, trace))
    decreases |trace|
  {
    if trace != [] {
      StatementAgrees(t, trace[0]);
      hide AllAgree, Execute, StartsFresh;
      ColumnsAlwaysAgree(Execute(t, trace[0]), trace[1..]);
    }
  }
}
