/**
 Properties of every sequence of SQL statements on the mail store, whatever processes, dispatchers and
 locks it comes from: a statement is atomic, nothing else is assumed.
 */
module StatementTraces {
  import opened Wrappers
  import opened MailStorage

  datatype Statement =
    | CreateMessage(subject: Option<string>, body: string, initial: MessageStatus)
    | CreateActor(messageId: int, email: string, kind: ActorType, delivery: Option<DeliveryStatus>)
    | QueueActor(id: int)
    | ClaimReady(limit: int, now: int)
    | MarkDelivered(id: int, now: int)
    | MarkTemporaryFailed(id: int, nextAttemptAt: int, error: string)
    | MarkFailed(id: int, error: string)
    | MarkBounced(id: int, error: string)
    | UpdateStatus(messageId: int, expected: MessageStatus, status: MessageStatus)
    | FinalizeDelivery(messageId: int)
    | DeleteMessage(messageId: int)

  ghost function Execute(t: Tables, s: Statement): Tables {
    match s
    case CreateMessage(subject, body, initial) => InsertMessage(t, subject, body, initial)
    case CreateActor(messageId, email, kind, delivery) => InsertActor(t, messageId, email, kind, delivery)
    case QueueActor(id) => Queue(t, id)
    case ClaimReady(limit, now) => Claim(t, limit, now)
    case MarkDelivered(id, now) => Deliver(t, id, now)
    case MarkTemporaryFailed(id, next, error) => FailTemporarily(t, id, next, error)
    case MarkFailed(id, error) => Terminate(t, id, DeliveryStatus.Failed, error)
    case MarkBounced(id, error) => Terminate(t, id, Bounced, error)
    case UpdateStatus(messageId, expected, status) => Update(t, messageId, expected, status)
    case FinalizeDelivery(messageId) => Finalize(t, messageId)
    case DeleteMessage(messageId) => Delete(t, messageId)
  }

  ghost function ExecuteAll(t: Tables, trace: seq<Statement>): Tables
    decreases |trace|
  {
    if trace == [] then t else ExecuteAll(Execute(t, trace[0]), trace[1..])
  }

  // ----- claiming -----

  /** The rows a claim returns, and what it does to every row. */
  lemma ClaimEffect(t: Tables, limit: int, now: int, id: int)
    requires id in t.actors
    ensures var t' := Claim(t, limit, now); var a := t.actors[id];
      && t'.actors.Keys == t.actors.Keys && t'.messages == t.messages
      && t'.lastActorId == t.lastActorId && t'.lastMessageId == t.lastMessageId
      && t'.actors[id] == if id in Claimed(t, limit, now)
                          then a.(delivery := Some(Delivering), attempts := a.attempts + 1, nextAttemptAt := None)
                          else a
  {}

  /**
   A claim takes exactly min(limit, ready) rows, each once, in the order of due time and id, and no ready
   row that it leaves precedes one that it takes.
   */
  lemma ClaimIsExact(t: Tables, limit: int, now: int)
    ensures var c := Claimed(t, limit, now); var ready := Ready(t, now);
      && |c| == Min(if limit < 0 then 0 else limit, |ready|)
      && (forall i :: 0 <= i < |c| ==> c[i] in ready)
      && (forall i, j :: 0 <= i < j < |c| ==> c[i] != c[j] && Precedes(t, c[i], c[j]))
      && (forall i, x :: 0 <= i < |c| && x in ready && x !in c ==> Precedes(t, c[i], x))
      && |SetOf(c)| == |c|
  {
    TakeIsPrefix(t, Ready(t, now), limit);
    DistinctSize(Claimed(t, limit, now));
  }

  lemma {:induction false} DistinctSize(c: seq<int>)
    requires forall i, j :: 0 <= i < j < |c| ==> c[i] != c[j]
    ensures |SetOf(c)| == |c|
  {
    if c == [] {
      assert SetOf(c) == {};
    } else {
      DistinctSize(c[1..]);
      assert SetOf(c) == {c[0]} + SetOf(c[1..]);
      assert c[0] !in SetOf(c[1..]);
    }
  }

  // ----- what every statement keeps -----

  lemma {:induction false} ExecuteWellFormed(t: Tables, s: Statement)
    requires WellFormed(t)
    ensures WellFormed(Execute(t, s))
    ensures Execute(t, s).lastActorId >= t.lastActorId && Execute(t, s).lastMessageId >= t.lastMessageId
  {
    var t' := Execute(t, s);
    match s
    case ClaimReady(limit, now) =>
      TakeIsPrefix(t, Ready(t, now), limit);
      forall id | id in t'.actors ensures ActorCheck(t'.actors[id]) && t'.actors[id].messageId in t'.messages {
        ClaimEffect(t, limit, now, id);
        if id in Claimed(t, limit, now) {
          assert id in Ready(t, now);
        }
      }
    case _ =>
  }

  /**
   Constraints hold after any statements; the counters of the ids only grow, so a new row has an id never used
   before.
   */
  lemma {:induction false} TraceWellFormed(t: Tables, trace: seq<Statement>)
    requires WellFormed(t)
    ensures var t' := ExecuteAll(t, trace);
      && WellFormed(t') && t'.lastActorId >= t.lastActorId && t'.lastMessageId >= t.lastMessageId
      && (forall id :: id in t'.actors && id !in t.actors ==> id > t.lastActorId)
      && (forall m :: m in t'.messages && m !in t.messages ==> m > t.lastMessageId)
    decreases |trace|
  {
    if trace != [] {
      var t1 := Execute(t, trace[0]);
      ExecuteWellFormed(t, trace[0]);
      NewIdsAreNew(t, trace[0]);
      hide Execute, WellFormed;
      TraceWellFormed(t1, trace[1..]);
    }
  }

  lemma NewIdsAreNew(t: Tables, s: Statement)
    requires WellFormed(t)
    ensures var t' := Execute(t, s);
      && (forall id :: id in t'.actors && id !in t.actors ==> id > t.lastActorId)
      && (forall m :: m in t'.messages && m !in t.messages ==> m > t.lastMessageId)
  {}

  /** The row is terminal, or it was deleted after its id had been given out. */
  ghost predicate Done(t: Tables, id: int, d: DeliveryStatus) {
    if id in t.actors then HasStatus(t, id, d) else id <= t.lastActorId
  }

  lemma {:induction false} StepKeepsTerminal(t: Tables, s: Statement, id: int, d: DeliveryStatus)
    requires WellFormed(t) && IsTerminal(d) && Done(t, id, d)
    ensures Done(Execute(t, s), id, d)
  {
    match s
    case ClaimReady(limit, now) =>
      TakeIsPrefix(t, Ready(t, now), limit);
      if id in t.actors {
        ClaimEffect(t, limit, now, id);
        assert id !in Ready(t, now);
      }
    case _ =>
  }

  /** A delivered, bounced or failed recipient keeps that status for ever, as long as its row exists. */
  lemma {:induction false} TerminalForever(t: Tables, trace: seq<Statement>, id: int, d: DeliveryStatus)
    requires WellFormed(t) && IsTerminal(d) && Done(t, id, d)
    ensures Done(ExecuteAll(t, trace), id, d)
    decreases |trace|
  {
    if trace != [] {
      StepKeepsTerminal(t, trace[0], id, d);
      ExecuteWellFormed(t, trace[0]);
      TerminalForever(Execute(t, trace[0]), trace[1..], id, d);
    }
  }

  // ----- each recipient is claimed once -----

  /** How many claims of the trace return the row. */
  ghost function ClaimsOf(t: Tables, trace: seq<Statement>, id: int): nat
    decreases |trace|
  {
    if trace == [] then 0
    else
      (if trace[0].ClaimReady? && id in Claimed(t, trace[0].limit, trace[0].now) then 1 else 0)
        + ClaimsOf(Execute(t, trace[0]), trace[1..], id)
  }

  /** How often the trace puts the row back with a temporary failure. */
  function RetriesOf(trace: seq<Statement>, id: int): nat {
    if trace == [] then 0
    else (if trace[0].MarkTemporaryFailed? && trace[0].id == id then 1 else 0) + RetriesOf(trace[1..], id)
  }

  /** Claims the row can still take part in when nothing is retried. */
  function ClaimsLeft(t: Tables, id: int): nat {
    if id > t.lastActorId || HasStatus(t, id, Pending) || HasStatus(t, id, DeliveryStatus.Queued)
       || HasStatus(t, id, TemporaryFailed)
    then 1 else 0
  }

  lemma {:induction false} StepSpendsClaim(t: Tables, s: Statement, id: int)
    requires WellFormed(t)
    ensures ClaimsLeft(Execute(t, s), id) + (if s.ClaimReady? && id in Claimed(t, s.limit, s.now) then 1 else 0)
      <= ClaimsLeft(t, id) + RetriesOf([s], id)
  {
    match s
    case ClaimReady(limit, now) =>
      TakeIsPrefix(t, Ready(t, now), limit);
      if id in t.actors {
        ClaimEffect(t, limit, now, id);
      }
      if id in Claimed(t, limit, now) {
        assert id in Ready(t, now);
      }
    case _ =>
  }

  /**
   However many dispatchers poll the database, a recipient is claimed at most once more than it was put
   back: at most once when nothing is retried.
   */
  lemma {:induction false} ClaimedOnce(t: Tables, trace: seq<Statement>, id: int)
    requires WellFormed(t)
    ensures ClaimsOf(t, trace, id) <= ClaimsLeft(t, id) + RetriesOf(trace, id)
    decreases |trace|
  {
    if trace != [] {
      StepSpendsClaim(t, trace[0], id);
      ExecuteWellFormed(t, trace[0]);
      ClaimedOnce(Execute(t, trace[0]), trace[1..], id);
      assert RetriesOf([trace[0]], id) == if trace[0].MarkTemporaryFailed? && trace[0].id == id then 1 else 0;
    }
  }

  lemma {:induction false} StepCountsAttempt(t: Tables, s: Statement, id: int)
    requires WellFormed(t) && id in t.actors && id in Execute(t, s).actors
    ensures Execute(t, s).actors[id].attempts
         == t.actors[id].attempts + if s.ClaimReady? && id in Claimed(t, s.limit, s.now) then 1 else 0
    ensures Execute(t, s).actors[id].email == t.actors[id].email
    ensures Execute(t, s).actors[id].messageId == t.actors[id].messageId
    ensures Execute(t, s).actors[id].kind == t.actors[id].kind
  {}

  /** attempt_count is the number of claims that returned the row. */
  lemma {:induction false} AttemptsCountClaims(t: Tables, trace: seq<Statement>, id: int)
    requires WellFormed(t) && id in t.actors && id in ExecuteAll(t, trace).actors
    ensures ExecuteAll(t, trace).actors[id].attempts == t.actors[id].attempts + ClaimsOf(t, trace, id)
    decreases |trace|
  {
    if trace != [] {
      var t' := Execute(t, trace[0]);
      ExecuteWellFormed(t, trace[0]);
      if id !in t'.actors {
        GoneForever(t', trace[1..], id);
      }
      StepCountsAttempt(t, trace[0], id);
      AttemptsCountClaims(t', trace[1..], id);
    }
  }

  lemma {:induction false} StepCreatesFreshIds(t: Tables, s: Statement, id: int)
    requires WellFormed(t) && id !in t.actors && id <= t.lastActorId
    ensures id !in Execute(t, s).actors
  {}

  /** A deleted row never comes back: its id is not given out again. */
  lemma {:induction false} GoneForever(t: Tables, trace: seq<Statement>, id: int)
    requires WellFormed(t) && id !in t.actors && id <= t.lastActorId
    ensures id !in ExecuteAll(t, trace).actors
    decreases |trace|
  {
    if trace != [] {
      StepCreatesFreshIds(t, trace[0], id);
      ExecuteWellFormed(t, trace[0]);
      GoneForever(Execute(t, trace[0]), trace[1..], id);
    }
  }

  // ----- the drain bound -----

  /** The rows that a claim may prefer to the queued row r, and r itself. */
  ghost function Ahead(t: Tables, r: int): set<int>
    requires r in t.actors
  {
    set id | id in t.actors
          && (HasStatus(t, id, DeliveryStatus.Queued) || HasStatus(t, id, TemporaryFailed))
          && (id == r || Precedes(t, id, r))
  }

  /**
   What may happen while r waits: anything, except claims with another limit, retries due before the
   epoch, and re-queueing a row that is older than r.
   */
  predicate FairTo(s: Statement, r: int, limit: int) {
    match s
    case ClaimReady(l, now) => l == limit && now >= 0
    case MarkTemporaryFailed(_, next, _) => next > 0
    case QueueActor(id) => id >= r
    case _ => true
  }

  function ClaimCount(trace: seq<Statement>): nat {
    if trace == [] then 0 else (if trace[0].ClaimReady? then 1 else 0) + ClaimCount(trace[1..])
  }

  /** A claim that does not reach r takes limit rows away from those ahead of it. */
  lemma ClaimAdvances(t: Tables, limit: int, now: int, r: int)
    requires WellFormed(t) && HasStatus(t, r, DeliveryStatus.Queued) && limit > 0 && now >= 0
    requires r !in Claimed(t, limit, now)
    ensures var t' := Claim(t, limit, now);
      HasStatus(t', r, DeliveryStatus.Queued) && |Ahead(t', r)| + limit <= |Ahead(t, r)|
  {
    var t' := Claim(t, limit, now);
    var c := Claimed(t, limit, now);
    ClaimIsExact(t, limit, now);
    ClaimEffect(t, limit, now, r);
    assert r in Ready(t, now);
    UnclaimedMeansFull(Ready(t, now), c, r);
    forall id | id in SetOf(c) ensures id in Ahead(t, r) && id !in Ahead(t', r) {
      ClaimEffect(t, limit, now, id);
      var i :| 0 <= i < |c| && c[i] == id;
    }
    forall id | id in Ahead(t', r) ensures id in Ahead(t, r) {
      ClaimEffect(t, limit, now, id);
    }
    assert Ahead(t', r) + SetOf(c) <= Ahead(t, r);
    SubsetSize(Ahead(t', r) + SetOf(c), Ahead(t, r));
    assert Ahead(t', r) !! SetOf(c);
  }

  lemma UnclaimedMeansFull(ready: set<int>, c: seq<int>, r: int)
    requires forall i :: 0 <= i < |c| ==> c[i] in ready
    requires r in ready && r !in c && |SetOf(c)| == |c|
    ensures |c| < |ready|
  {
    assert SetOf(c) <= ready - {r};
    SubsetSize(SetOf(c), ready - {r});
  }

  /** No other statement puts a row ahead of r. */
  lemma OthersDoNotOvertake(t: Tables, s: Statement, r: int, limit: int)
    requires WellFormed(t) && HasStatus(t, r, DeliveryStatus.Queued) && FairTo(s, r, limit) && !s.ClaimReady?
    ensures var t' := Execute(t, s);
      r in t'.actors ==> HasStatus(t', r, DeliveryStatus.Queued) && |Ahead(t', r)| <= |Ahead(t, r)|
  {
    var t' := Execute(t, s);
    if r in t'.actors {
      forall id | id in Ahead(t', r) ensures id in Ahead(t, r) {
        match s
        case _ =>
      }
      SubsetSize(Ahead(t', r), Ahead(t, r));
    }
  }

  predicate AllFairTo(trace: seq<Statement>, r: int, limit: int) {
    forall i :: 0 <= i < |trace| ==> FairTo(trace[i], r, limit)
  }

  lemma FirstIsFair(trace: seq<Statement>, r: int, limit: int)
    requires trace != [] && AllFairTo(trace, r, limit)
    ensures FairTo(trace[0], r, limit) && AllFairTo(trace[1..], r, limit)
  {
    hide FairTo;
  }

  lemma IsAheadOfItself(t: Tables, r: int)
    requires HasStatus(t, r, DeliveryStatus.Queued)
    ensures r in t.actors && |Ahead(t, r)| > 0
  {
    assert r in Ahead(t, r);
  }

  lemma FirstClaim(t: Tables, trace: seq<Statement>, r: int, limit: int)
    requires trace != []
    ensures ClaimCount(trace) * limit == ClaimCount(trace[1..]) * limit + if trace[0].ClaimReady? then limit else 0
    ensures var s, t' := trace[0], Execute(t, trace[0]);
      && ExecuteAll(t, trace) == ExecuteAll(t', trace[1..])
      && ClaimsOf(t, trace, r) >= ClaimsOf(t', trace[1..], r)
      && (s.ClaimReady? && r in Claimed(t, s.limit, s.now) ==> ClaimsOf(t, trace, r) >= 1)
  {
    hide Execute, Claimed;
  }

  lemma ClaimIsFair(t: Tables, s: Statement, r: int, limit: int)
    requires s.ClaimReady? && FairTo(s, r, limit)
    ensures s.limit == limit && s.now >= 0 && Execute(t, s) == Claim(t, limit, s.now)
  {}

  /**
   With k rows at or ahead of it, a queued row is claimed by the time ceil(k / limit) claims were made,
   whatever new mail arrives and whatever else is delivered, failed or retried meanwhile.
   */
  lemma {:induction false} DrainBound(t: Tables, trace: seq<Statement>, r: int, limit: int)
    requires WellFormed(t) && HasStatus(t, r, DeliveryStatus.Queued) && limit > 0
    requires AllFairTo(trace, r, limit) && ClaimCount(trace) * limit >= |Ahead(t, r)|
    ensures r in ExecuteAll(t, trace).actors ==> ClaimsOf(t, trace, r) >= 1
    decreases |trace|
  {
    IsAheadOfItself(t, r);
    assert trace != [];
    var s, t' := trace[0], Execute(t, trace[0]);
    hide *;
    FirstIsFair(trace, r, limit);
    FirstClaim(t, trace, r, limit);
    ExecuteWellFormed(t, s);
    if s.ClaimReady? {
      ClaimIsFair(t, s, r, limit);
      if r !in Claimed(t, limit, s.now) {
        ClaimAdvances(t, limit, s.now, r);
        IsAheadOfItself(t', r);
        DrainBound(t', trace[1..], r, limit);
      }
    } else {
      OthersDoNotOvertake(t, s, r, limit);
      if r in t'.actors {
        DrainBound(t', trace[1..], r, limit);
      } else {
        GoneForever(t', trace[1..], r);
      }
    }
  }
}
