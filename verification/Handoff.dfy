/**
 Exactly-once handoff: in every reachable state the recipients in Delivering are exactly those held by a
 Poll's local batch, the pool's queue or a Deliver that has not marked yet, each in one place only.
 */
module Handoff {
  import opened Wrappers
  import opened MailStorage
  import opened StatementTraces
  import opened DeliverySystem

  // ----- what the critical sections leave alone -----

  /** Rows stay, with address, message and kind; a terminal status stays. */
  ghost predicate RowsKept(t: Tables, t': Tables) {
    forall id :: id in t.actors ==>
      && id in t'.actors
      && t'.actors[id].email == t.actors[id].email
      && t'.actors[id].messageId == t.actors[id].messageId
      && t'.actors[id].kind == t.actors[id].kind
      && (t.actors[id].delivery.Some? && IsTerminal(t.actors[id].delivery.value)
          ==> t'.actors[id].delivery == t.actors[id].delivery)
  }

  lemma {:induction false} AddRecipientsRows(t: Tables, messageId: int, recipients: seq<string>)
    requires WellFormed(t) && messageId in t.messages
    ensures var t' := AddRecipients(t, messageId, recipients);
      && WellFormed(t') && t'.messages == t.messages
      && (forall id :: id in t.actors ==> id in t'.actors && t'.actors[id] == t.actors[id])
      && (forall id :: id in t'.actors && id !in t.actors ==>
            id > t.lastActorId && HasStatus(t', id, DeliveryStatus.Queued) && t'.actors[id].messageId == messageId)
      && (recipients != [] ==> exists id :: id in t'.actors && id !in t.actors)
    decreases |recipients|
  {
    if recipients != [] {
      var t1 := InsertActor(t, messageId, recipients[0], To, Some(DeliveryStatus.Queued));
      assert t1.lastActorId in t1.actors;
      AddRecipientsRows(t1, messageId, recipients[1..]);
    }
  }

  /** The tables once the message and its sender are inserted. */
  lemma SenderRow(t: Tables, sender: string, body: string)
    requires WellFormed(t)
    ensures var m := t.lastMessageId + 1;
      var t1 := InsertMessage(t, None, body, MessageStatus.Queued);
      var t2 := InsertActor(t1, m, sender, From, None);
      && t1.lastMessageId == m && m !in t.messages && WellFormed(t2)
      && t2.messages == t.messages[m := Message(None, body, MessageStatus.Queued)]
      && t2.lastActorId == t.lastActorId + 1 && t.lastActorId + 1 !in t.actors
      && t2.actors == t.actors[t.lastActorId + 1 := t2.actors[t.lastActorId + 1]]
      && t2.actors[t.lastActorId + 1].messageId == m && t2.actors[t.lastActorId + 1].kind == From
  {}

  /** A stored message: a new row of mail_messages, its sender, and its recipients, all Queued. */
  lemma StoreMailRows(t: Tables, sender: string, recipients: seq<string>, body: string)
    requires WellFormed(t)
    ensures var t' := StoreMail(t, sender, recipients, body); var m := t.lastMessageId + 1;
      && WellFormed(t') && m !in t.messages
      && t'.messages == t.messages[m := Message(None, body, MessageStatus.Queued)]
      && (forall id :: id in t.actors ==> id in t'.actors && t'.actors[id] == t.actors[id])
      && (forall id :: id in t'.actors && id !in t.actors ==>
            t'.actors[id].messageId == m && (t'.actors[id].kind == From || HasStatus(t', id, DeliveryStatus.Queued)))
      && (recipients != [] ==> exists id :: id in t'.actors && IsRecipientOf(t', id, m))
  {
    var m := t.lastMessageId + 1;
    var t2 := InsertActor(InsertMessage(t, None, body, MessageStatus.Queued), m, sender, From, None);
    SenderRow(t, sender, body);
    AddRecipientsRows(t2, m, recipients);
    hide WellFormed, InsertMessage, InsertActor, AddRecipients;
    if recipients != [] {
      var t' := AddRecipients(t2, m, recipients);
      var id :| id in t'.actors && id !in t2.actors;
      assert IsRecipientOf(t', id, m);
    }
  }

  lemma {:induction false} StartSendingActors(t: Tables, tasks: seq<Task>)
    ensures StartSending(t, tasks).actors == t.actors
    ensures StartSending(t, tasks).lastActorId == t.lastActorId
    ensures StartSending(t, tasks).lastMessageId == t.lastMessageId
    ensures StartSending(t, tasks).messages.Keys == t.messages.Keys
    decreases |tasks|
  {
    if tasks != [] {
      StartSendingActors(Update(t, tasks[0].messageId, MessageStatus.Queued, Sending), tasks[1..]);
    }
  }

  lemma ClaimKeepsRows(t: Tables, limit: int, now: int)
    requires WellFormed(t)
    ensures RowsKept(t, Claim(t, limit, now))
  {
    TakeIsPrefix(t, Ready(t, now), limit);
    forall id | id in t.actors
      ensures id in SetOf(Claimed(t, limit, now)) ==>
        HasStatus(t, id, DeliveryStatus.Queued) || HasStatus(t, id, TemporaryFailed)
    {
      assert id in Claimed(t, limit, now) ==> id in Ready(t, now);
    }
    hide Claimed, WellFormed;
  }

  lemma FinalizeWellFormed(t: Tables, m: int)
    requires WellFormed(t)
    ensures WellFormed(Finalize(t, m)) && Finalize(t, m).actors == t.actors
  {}

  /** A row in Delivering gets another status, without a next attempt. */
  lemma SettledRow(t: Tables, id: int, a: Actor)
    requires WellFormed(t) && HasStatus(t, id, Delivering) && a.delivery.Some? && a.nextAttemptAt.None?
    requires a.messageId == t.actors[id].messageId && a.email == t.actors[id].email && a.kind == t.actors[id].kind
    ensures WellFormed(SetActor(t, id, a)) && RowsKept(t, SetActor(t, id, a))
  {}

  lemma UntouchedRows(t: Tables)
    ensures RowsKept(t, t)
  {}

  lemma DeliverWellFormed(t: Tables, id: int, now: int)
    requires WellFormed(t)
    ensures WellFormed(Deliver(t, id, now)) && RowsKept(t, Deliver(t, id, now))
  {
    UntouchedRows(t);
    hide WellFormed, RowsKept;
    if HasStatus(t, id, Delivering) {
      SettledRow(t, id, t.actors[id].(delivery := Some(Delivered), nextAttemptAt := None, lastError := None,
                                      deliveredAt := Some(now)));
    }
  }

  lemma TerminateWellFormed(t: Tables, id: int, status: DeliveryStatus, error: string)
    requires WellFormed(t)
    ensures WellFormed(Terminate(t, id, status, error)) && RowsKept(t, Terminate(t, id, status, error))
  {
    UntouchedRows(t);
    hide WellFormed, RowsKept;
    if HasStatus(t, id, Delivering) {
      SettledRow(t, id, t.actors[id].(delivery := Some(status), nextAttemptAt := None, lastError := Some(error),
                                      deliveredAt := None));
    }
  }

  lemma MarkWellFormed(t: Tables, task: Task, users: set<string>, now: int, error: string)
    requires WellFormed(t)
    ensures WellFormed(Mark(t, task, users, now)) && WellFormed(Fail(t, task, error))
    ensures RowsKept(t, Mark(t, task, users, now)) && RowsKept(t, Fail(t, task, error))
  {
    hide WellFormed, RowsKept, Deliver, Terminate;
    DeliverWellFormed(t, task.id, now);
    TerminateWellFormed(t, task.id, DeliveryStatus.Failed, NOT_LOCAL);
    TerminateWellFormed(t, task.id, DeliveryStatus.Failed, error);
  }

  lemma ClaimSectionRows(t: Tables, limit: int, now: int, tasks: seq<Task>)
    requires WellFormed(t)
    ensures var t' := ClaimSection(t, limit, now, tasks);
      WellFormed(t') && RowsKept(t, t') && t'.actors == Claim(t, limit, now).actors
  {
    ExecuteWellFormed(t, ClaimReady(limit, now));
    StartSendingActors(Claim(t, limit, now), tasks);
    ClaimKeepsRows(t, limit, now);
  }

  lemma MarkFinalizeRows(t: Tables, task: Task, users: set<string>, now: int, error: string)
    requires WellFormed(t)
    ensures var t' := Finalize(Mark(t, task, users, now), task.messageId); WellFormed(t') && RowsKept(t, t')
    ensures var t' := Finalize(Fail(t, task, error), task.messageId); WellFormed(t') && RowsKept(t, t')
  {
    MarkWellFormed(t, task, users, now, error);
    hide Mark, Fail, Finalize, WellFormed;
    FinalizeWellFormed(Mark(t, task, users, now), task.messageId);
    FinalizeWellFormed(Fail(t, task, error), task.messageId);
  }

  /** Every step keeps the tables well formed and every terminal status as it is. */
  lemma StepKeepsRows(c: Config, s: System, step: Step)
    requires WellFormed(s.tables) && Enabled(c, s, step)
    ensures WellFormed(Apply(c, s, step).tables) && RowsKept(s.tables, Apply(c, s, step).tables)
  {
    hide WellFormed, Mark, Fail, Finalize, StoreMail, ClaimSection, TasksOf, Remove;
    var t := s.tables;
    match step
    case Arrive(sender, recipients, body) => StoreMailRows(t, sender, recipients, body);
    case ClaimBatch(d, limit, now, order) => ClaimSectionRows(t, limit, now, TasksOf(t, order));
    case EnqueueThrows(d, error) => MarkFinalizeRows(t, s.batches[d][0], c.users, 0, error);
    case DeliverTask(w, now, outcome) =>
      MarkWellFormed(t, s.running[w].task, c.users, now, "");
      MarkFinalizeRows(t, s.running[w].task, c.users, now, "");
    case Recover(w, error, outcome) =>
      MarkWellFormed(t, s.running[w].task, c.users, 0, error);
      MarkFinalizeRows(t, s.running[w].task, c.users, 0, error);
    case _ =>
  }

  // ----- the rows in Delivering -----

  lemma MultisetMinus(rows: set<int>, id: int)
    requires id in rows
    ensures multiset(rows) == multiset(rows - {id}) + multiset{id}
  {}

  lemma MultisetPlus(a: set<int>, b: set<int>)
    requires a !! b
    ensures multiset(a + b) == multiset(a) + multiset(b)
  {}

  lemma MarkDeliveringRows(t: Tables, task: Task, users: set<string>, now: int, error: string)
    ensures DeliveringRows(Mark(t, task, users, now)) == DeliveringRows(t) - {task.id}
    ensures DeliveringRows(Fail(t, task, error)) == DeliveringRows(t) - {task.id}
  {}

  lemma FinalizeDeliveringRows(t: Tables, m: int)
    ensures DeliveringRows(Finalize(t, m)) == DeliveringRows(t)
  {}

  lemma ClaimDeliveringRows(t: Tables, limit: int, now: int, tasks: seq<Task>)
    ensures DeliveringRows(ClaimSection(t, limit, now, tasks)) == DeliveringRows(t) + SetOf(Claimed(t, limit, now))
    ensures DeliveringRows(t) !! SetOf(Claimed(t, limit, now))
  {
    TakeIsPrefix(t, Ready(t, now), limit);
    StartSendingActors(Claim(t, limit, now), tasks);
    forall id | id in SetOf(Claimed(t, limit, now)) ensures id in Ready(t, now) {}
  }

  lemma {:induction false} DistinctMultiset(c: seq<int>)
    requires forall i, j :: 0 <= i < j < |c| ==> c[i] != c[j]
    ensures multiset(c) == multiset(SetOf(c))
  {
    if c == [] {
      assert SetOf(c) == {};
    } else {
      DistinctMultiset(c[1..]);
      assert c == [c[0]] + c[1..];
      assert SetOf(c) == {c[0]} + SetOf(c[1..]);
      assert {c[0]} !! SetOf(c[1..]);
      MultisetPlus({c[0]}, SetOf(c[1..]));
    }
  }

  /** The ids claimed, as the tasks of the batch hold them. */
  lemma BatchHoldsClaim(t: Tables, limit: int, now: int, order: seq<int>)
    requires forall i :: 0 <= i < |order| ==> order[i] in t.actors
    requires multiset(order) == multiset(Claimed(t, limit, now))
    ensures Ids(TasksOf(t, order)) == multiset(SetOf(Claimed(t, limit, now)))
  {
    ClaimIsExact(t, limit, now);
    DistinctMultiset(Claimed(t, limit, now));
    IdsOfTasks(t, order);
  }

  // ----- the invariant -----

  /** A Deliver whose mark went through left a terminal row. */
  ghost predicate MarkedIsTerminal(s: System) {
    forall w :: 0 <= w < |s.running| && s.running[w].Recovering? && s.running[w].marked ==>
      TerminalRow(s.tables, s.running[w].task.id)
  }

  ghost predicate HandoffInv(s: System) {
    WellFormed(s.tables) && HandoffExact(s) && MarkedIsTerminal(s)
  }

  lemma Cancel(a: multiset<int>, b: multiset<int>, x: multiset<int>)
    requires a + x == b + x
    ensures a == b
  {
    forall e: int ensures a[e] == b[e] {
      assert (a + x)[e] == a[e] + x[e] && (b + x)[e] == b[e] + x[e];
    }
  }

  lemma FirstOfBatchHeld(batches: seq<seq<Task>>, d: nat)
    requires d < |batches| && batches[d] != []
    ensures BatchIds(batches) == BatchIds(batches[d := batches[d][1..]]) + multiset{batches[d][0].id}
  {
    var id, tail := batches[d][0].id, Ids(batches[d][1..]);
    BatchIdsOfUpdate(batches, d, batches[d][1..]);
    var rest := BatchIds(batches[d := batches[d][1..]]);
    assert rest + (multiset{id} + tail) == BatchIds(batches) + tail;
    assert rest + (multiset{id} + tail) == (rest + multiset{id}) + tail;
    Cancel(BatchIds(batches), rest + multiset{id}, tail);
  }

  /** Marking a held row takes it out of Delivering and out of the holders at once. */
  lemma ReleaseRow(before: multiset<int>, after: multiset<int>, rows: set<int>, id: int)
    requires before == multiset(rows) && before == after + multiset{id}
    ensures after == multiset(rows - {id})
  {
    assert id in before;
    MultisetMinus(rows, id);
    Cancel(after, multiset(rows - {id}), multiset{id});
  }

  lemma ClaimKeepsHandoff(c: Config, s: System, step: Step)
    requires HandoffInv(s) && Enabled(c, s, step) && step.ClaimBatch?
    ensures HandoffExact(Apply(c, s, step))
  {
    var t, d := s.tables, step.dispatcher;
    var tasks, claimed := TasksOf(t, step.order), SetOf(Claimed(t, step.limit, step.now));
    BatchHoldsClaim(t, step.limit, step.now, step.order);
    BatchIdsOfUpdate(s.batches, d, tasks);
    NoTasks();
    ClaimDeliveringRows(t, step.limit, step.now, tasks);
    MultisetPlus(DeliveringRows(t), claimed);
    hide BatchIds, Ids, WorkIds, ClaimSection, TasksOf, DeliveringRows, Claimed, SetOf, WellFormed, MarkedIsTerminal;
    BatchGrows(s, Apply(c, s, step), multiset(claimed));
  }

  lemma BatchGrows(s: System, s': System, ids: multiset<int>)
    requires HandoffExact(s) && BatchIds(s'.batches) + multiset{} == BatchIds(s.batches) + ids
    requires s'.queue == s.queue && s'.running == s.running && s'.stranded == s.stranded
    requires multiset(DeliveringRows(s'.tables)) == multiset(DeliveringRows(s.tables)) + ids
    ensures HandoffExact(s')
  {
    hide BatchIds, Ids, WorkIds, DeliveringRows;
    var others := Ids(s.queue) + WorkIds(s.running) + s.stranded;
    assert Holders(s') == BatchIds(s.batches) + ids + others;
    assert Holders(s) == BatchIds(s.batches) + others;
  }

  lemma EnqueueKeepsHandoff(c: Config, s: System, step: Step)
    requires HandoffInv(s) && Enabled(c, s, step) && step.Enqueue?
    ensures HandoffExact(Apply(c, s, step))
  {
    var d := step.dispatcher;
    var task := s.batches[d][0];
    FirstOfBatchHeld(s.batches, d);
    OneTask(task);
    IdsOfConcat(s.queue, [task]);
    hide BatchIds, Ids, WorkIds, DeliveringRows, WellFormed;
    assert Holders(s) == Holders(Apply(c, s, step));
  }

  lemma EnqueueThrowsKeepsHandoff(c: Config, s: System, step: Step)
    requires HandoffInv(s) && Enabled(c, s, step) && step.EnqueueThrows?
    ensures HandoffExact(Apply(c, s, step))
  {
    var t, task := s.tables, s.batches[step.dispatcher][0];
    FirstOfBatchHeld(s.batches, step.dispatcher);
    MarkDeliveringRows(t, task, {}, 0, step.error);
    FinalizeDeliveringRows(Fail(t, task, step.error), task.messageId);
    hide BatchIds, Ids, WorkIds, DeliveringRows, Fail, Finalize, WellFormed;
    ReleaseRow(Holders(s), Holders(Apply(c, s, step)), DeliveringRows(t), task.id);
  }

  lemma QueueToWork(batches: multiset<int>, queue: multiset<int>, running: multiset<int>, stranded: multiset<int>,
                    id: multiset<int>)
    ensures batches + (id + queue) + running + stranded == batches + queue + (running + id) + stranded
  {}

  /** The oldest task of the queue gets a worker; nobody else takes or lets go. */
  lemma QueueToWorker(s: System, s': System, task: Task)
    requires HandoffExact(s) && s.queue == [task] + s'.queue && s'.running == s.running + [Running(task)]
    requires s'.tables == s.tables && s'.batches == s.batches && s'.stranded == s.stranded
    ensures HandoffExact(s')
  {
    OneTask(task);
    IdsOfConcat([task], s'.queue);
    OneWork(Running(task));
    WorkIdsOfConcat(s.running, [Running(task)]);
    QueueToWork(BatchIds(s.batches), Ids(s'.queue), WorkIds(s.running), s.stranded, multiset{task.id});
    hide BatchIds, Ids, WorkIds, DeliveringRows;
  }

  lemma TakeKeepsHandoff(c: Config, s: System, step: Step)
    requires HandoffInv(s) && Enabled(c, s, step) && step.TakeTask?
    ensures HandoffExact(Apply(c, s, step))
  {
    assert s.queue == [s.queue[0]] + s.queue[1..];
    hide HandoffExact, WellFormed, MarkedIsTerminal;
    QueueToWorker(s, Apply(c, s, step), s.queue[0]);
  }

  lemma NoTasks()
    ensures Ids([]) == multiset{} && BatchIds([]) == multiset{} && WorkIds([]) == multiset{}
  {}

  lemma OneTask(task: Task)
    ensures Ids([task]) == multiset{task.id}
  {}

  lemma OneWork(work: Work)
    ensures WorkIds([work]) == UnmarkedId(work)
  {}

  /** A worker that marks its row, or strands it, and changes nothing else about the holders. */
  lemma WorkerLetsGo(s: System, s': System, id: int, ids: multiset<int>)
    requires HandoffExact(s) && s'.batches == s.batches && s'.queue == s.queue
    requires WorkIds(s'.running) + ids == WorkIds(s.running)
    requires (s'.stranded == s.stranded + ids && DeliveringRows(s'.tables) == DeliveringRows(s.tables))
          || (s'.stranded == s.stranded && ids == multiset{id}
              && DeliveringRows(s'.tables) == DeliveringRows(s.tables) - {id})
    ensures HandoffExact(s')
  {
    hide BatchIds, Ids, WorkIds, DeliveringRows;
    var others := BatchIds(s.batches) + Ids(s.queue);
    if s'.stranded == s.stranded + ids && DeliveringRows(s'.tables) == DeliveringRows(s.tables) {
      assert Holders(s) == Holders(s');
    } else {
      assert Holders(s) == Holders(s') + multiset{id};
      ReleaseRow(Holders(s), Holders(s'), DeliveringRows(s.tables), id);
    }
  }

  lemma TryKeepsHandoff(c: Config, s: System, w: nat, now: int, outcome: Outcome)
    requires HandoffExact(s) && w < |s.running| && s.running[w].Running? && !outcome.ThrowsBeforeMark?
    ensures HandoffExact(AfterTry(c, s, w, now, outcome))
  {
    var task := s.running[w].task;
    hide BatchIds, Ids, WorkIds, DeliveringRows, Mark, Finalize, Remove, HandoffExact, Holders;
    WorkIdsOfRemove(s.running, w);
    WorkIdsOfUpdate(s.running, w, Recovering(task, true));
    MarkDeliveringRows(s.tables, task, c.users, now, "");
    FinalizeDeliveringRows(Mark(s.tables, task, c.users, now), task.messageId);
    WorkerLetsGo(s, AfterTry(c, s, w, now, outcome), task.id, multiset{task.id});
  }

  lemma FailedTryKeepsHandoff(c: Config, s: System, w: nat, now: int)
    requires HandoffExact(s) && w < |s.running| && s.running[w].Running?
    ensures HandoffExact(AfterTry(c, s, w, now, ThrowsBeforeMark))
  {
    var task := s.running[w].task;
    hide BatchIds, Ids, WorkIds, DeliveringRows, HandoffExact, Holders;
    WorkIdsOfUpdate(s.running, w, Recovering(task, false));
    Cancel(WorkIds(s.running[w := Recovering(task, false)]), WorkIds(s.running), multiset{task.id});
    WorkerLetsGo(s, AfterTry(c, s, w, now, ThrowsBeforeMark), task.id, multiset{});
  }

  lemma DeliverKeepsHandoff(c: Config, s: System, step: Step)
    requires HandoffInv(s) && Enabled(c, s, step) && step.DeliverTask?
    ensures HandoffExact(Apply(c, s, step))
  {
    hide HandoffExact, MarkedIsTerminal, WellFormed, AfterTry;
    if step.outcome.ThrowsBeforeMark? {
      FailedTryKeepsHandoff(c, s, step.worker, step.now);
    } else {
      TryKeepsHandoff(c, s, step.worker, step.now, step.outcome);
    }
  }

  lemma CatchKeepsHandoff(s: System, w: nat, error: string, outcome: Outcome)
    requires HandoffExact(s) && w < |s.running| && s.running[w].Recovering? && !s.running[w].marked
    ensures HandoffExact(AfterCatch(s, w, error, outcome))
  {
    var task := s.running[w].task;
    hide BatchIds, Ids, WorkIds, DeliveringRows, Fail, Finalize, Remove, HandoffExact, Holders;
    WorkIdsOfRemove(s.running, w);
    MarkDeliveringRows(s.tables, task, {}, 0, error);
    FinalizeDeliveringRows(Fail(s.tables, task, error), task.messageId);
    WorkerLetsGo(s, AfterCatch(s, w, error, outcome), task.id, multiset{task.id});
  }

  lemma MarkedCatchKeepsHandoff(s: System, w: nat, error: string, outcome: Outcome)
    requires HandoffExact(s) && MarkedIsTerminal(s)
    requires w < |s.running| && s.running[w].Recovering? && s.running[w].marked
    ensures HandoffExact(AfterCatch(s, w, error, outcome))
  {
    var task := s.running[w].task;
    MarkedNotDelivering(s, w);
    assert Fail(s.tables, task, error) == s.tables;
    hide BatchIds, Ids, WorkIds, DeliveringRows, Fail, Finalize, Remove, HandoffExact, Holders, MarkedIsTerminal;
    WorkIdsOfRemove(s.running, w);
    FinalizeDeliveringRows(s.tables, task.messageId);
    WorkerLetsGo(s, AfterCatch(s, w, error, outcome), task.id, multiset{});
  }

  lemma RecoverKeepsHandoff(c: Config, s: System, step: Step)
    requires HandoffInv(s) && Enabled(c, s, step) && step.Recover?
    ensures HandoffExact(Apply(c, s, step))
  {
    hide HandoffExact, MarkedIsTerminal, WellFormed, AfterCatch;
    if s.running[step.worker].marked {
      MarkedCatchKeepsHandoff(s, step.worker, step.error, step.outcome);
    } else {
      CatchKeepsHandoff(s, step.worker, step.error, step.outcome);
    }
  }

  /** MarkFailed in the catch block is a no-op on a row that was marked. */
  lemma MarkedNotDelivering(s: System, w: nat)
    requires MarkedIsTerminal(s) && w < |s.running| && s.running[w].Recovering? && s.running[w].marked
    ensures DeliveringRows(s.tables) - {s.running[w].task.id} == DeliveringRows(s.tables)
    ensures forall error :: Fail(s.tables, s.running[w].task, error) == s.tables
  {}

  lemma ArriveKeepsHandoff(c: Config, s: System, step: Step)
    requires HandoffInv(s) && Enabled(c, s, step) && step.Arrive?
    ensures HandoffExact(Apply(c, s, step))
  {
    StoreMailRows(s.tables, step.sender, step.recipients, step.body);
    assert DeliveringRows(Apply(c, s, step).tables) == DeliveringRows(s.tables);
  }

  lemma StepKeepsMarked(c: Config, s: System, step: Step)
    requires HandoffInv(s) && Enabled(c, s, step)
    ensures MarkedIsTerminal(Apply(c, s, step))
  {
    var s' := Apply(c, s, step);
    StepKeepsRows(c, s, step);
    forall w | 0 <= w < |s'.running| && s'.running[w].Recovering? && s'.running[w].marked
      ensures TerminalRow(s'.tables, s'.running[w].task.id)
    {
      NewlyMarked(c, s, step, w);
      hide Apply, Enabled, WellFormed, HandoffExact;
    }
  }

  ghost predicate TerminalRow(t: Tables, id: int) {
    id in t.actors && t.actors[id].delivery.Some? && IsTerminal(t.actors[id].delivery.value)
  }

  /** A marked Recovering was one before the step, or the step has just marked its row. */
  lemma NewlyMarked(c: Config, s: System, step: Step, w: nat)
    requires HandoffInv(s) && Enabled(c, s, step)
    requires var s' := Apply(c, s, step); w < |s'.running| && s'.running[w].Recovering? && s'.running[w].marked
    ensures var s' := Apply(c, s, step);
      TerminalRow(s.tables, s'.running[w].task.id) || TerminalRow(s'.tables, s'.running[w].task.id)
  {
    hide ClaimSection, StoreMail, Finalize, Fail, WellFormed, Holders, TasksOf;
    if step.DeliverTask? && step.outcome.ThrowsAfterMark? && w == step.worker {
      HeldRowExists(s, w);
    } else if step.TakeTask? || step.DeliverTask? || step.Recover? {
      assert Apply(c, s, step).running[w] in s.running;
    }
  }

  lemma HeldRowExists(s: System, w: nat)
    requires HandoffExact(s) && w < |s.running| && UnmarkedId(s.running[w]) != multiset{}
    ensures HasStatus(s.tables, s.running[w].task.id, Delivering)
  {
    WorkIdsOfRemove(s.running, w);
    assert s.running[w].task.id in Holders(s);
    assert s.running[w].task.id in multiset(DeliveringRows(s.tables));
  }

  lemma StepKeepsHandoff(c: Config, s: System, step: Step)
    requires HandoffInv(s) && Enabled(c, s, step)
    ensures HandoffInv(Apply(c, s, step))
  {
    StepKeepsRows(c, s, step);
    StepKeepsMarked(c, s, step);
    match step
    case Arrive(_, _, _) => ArriveKeepsHandoff(c, s, step);
    case ClaimBatch(_, _, _, _) => ClaimKeepsHandoff(c, s, step);
    case Enqueue(_) => EnqueueKeepsHandoff(c, s, step);
    case EnqueueThrows(_, _) => EnqueueThrowsKeepsHandoff(c, s, step);
    case TakeTask => TakeKeepsHandoff(c, s, step);
    case DeliverTask(_, _, _) => DeliverKeepsHandoff(c, s, step);
    case Recover(_, _, _) => RecoverKeepsHandoff(c, s, step);
    case Stop => assert Holders(Apply(c, s, step)) == Holders(s);
    case WorkerExits => assert Holders(Apply(c, s, step)) == Holders(s);
  }

  /** Exactly-once handoff, in every reachable state, with or without exceptions. */
  lemma {:induction false} HandoffInEveryRun(c: Config, s: System, steps: seq<Step>)
    requires HandoffInv(s) && IsRun(c, s, steps)
    ensures HandoffInv(Run(c, s, steps))
    decreases |steps|
  {
    if steps != [] {
      StepKeepsHandoff(c, s, steps[0]);
      HandoffInEveryRun(c, Apply(c, s, steps[0]), steps[1..]);
    }
  }
}
