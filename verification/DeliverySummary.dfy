/**
 The message status is a cached summary of the recipients' statuses. Between critical sections it agrees
 with them, except for messages whose last FinalizeDelivery threw.
 */
module DeliverySummary {
  import opened MailStorage
  import opened StatementTraces
  import opened DeliverySystem
  import opened Handoff

  // ----- what is summarised -----

  predicate AllQueued(t: Tables, m: int) {
    forall id :: id in t.actors && IsRecipientOf(t, id, m) ==> HasStatus(t, id, DeliveryStatus.Queued)
  }

  predicate HasRecipient(t: Tables, m: int) {
    exists id :: id in t.actors && IsRecipientOf(t, id, m)
  }

  /** The status of a message, as a function of its recipients. */
  function Summary(t: Tables, m: int): MessageStatus {
    if AllQueued(t, m) then MessageStatus.Queued
    else if !AllSettled(t, m) then Sending
    else if SomeRecipient(t, m, Delivered) then Sent
    else MessageStatus.Failed
  }

  /** The messages of calls that marked a recipient but have not finalized. */
  function Owed(s: System): set<int> {
    s.unsettled + (set w | w in s.running && w.Recovering? && w.marked :: w.task.messageId)
  }

  ghost predicate Agrees(t: Tables, m: int, owed: set<int>)
    requires m in t.messages
  {
    var status := t.messages[m].status;
    || status == Draft
    || (HasRecipient(t, m)
        && (status == Summary(t, m) || (status == Sending && Summary(t, m) != MessageStatus.Queued && m in owed)))
  }

  /** Every task names the row, the message and the address it was made from. */
  predicate Matches(t: Tables, task: Task) {
    IsRecipientOf(t, task.id, task.messageId) && t.actors[task.id].email == task.email
  }

  ghost predicate QueueMatches(t: Tables, queue: seq<Task>) {
    forall i :: 0 <= i < |queue| ==> Matches(t, queue[i])
  }

  ghost predicate BatchesMatch(t: Tables, batches: seq<seq<Task>>) {
    forall d, i :: 0 <= d < |batches| && 0 <= i < |batches[d]| ==> Matches(t, batches[d][i])
  }

  ghost predicate RunningMatches(t: Tables, running: seq<Work>) {
    forall w :: 0 <= w < |running| ==> Matches(t, running[w].task)
  }

  ghost predicate TasksMatch(s: System) {
    BatchesMatch(s.tables, s.batches) && QueueMatches(s.tables, s.queue) && RunningMatches(s.tables, s.running)
  }

  ghost predicate SummaryInv(s: System) {
    && HandoffInv(s)
    && TasksMatch(s)
    && (forall m :: m in s.tables.messages ==> Agrees(s.tables, m, Owed(s)))
  }

  // ----- recipients of other messages -----

  /** The recipients of m are the same rows with the same statuses. */
  ghost predicate SameRecipients(t: Tables, t': Tables, m: int) {
    && (forall id :: id in t.actors && IsRecipientOf(t, id, m) ==>
          id in t'.actors && IsRecipientOf(t', id, m) && t'.actors[id].delivery == t.actors[id].delivery)
    && (forall id :: id in t'.actors && IsRecipientOf(t', id, m) ==> id in t.actors && IsRecipientOf(t, id, m))
  }

  lemma SameSummary(t: Tables, t': Tables, m: int)
    requires SameRecipients(t, t', m)
    ensures Summary(t, m) == Summary(t', m)
    ensures HasRecipient(t, m) ==> HasRecipient(t', m)
  {}

  lemma AgreesCarries(t: Tables, t': Tables, m: int, owed: set<int>, owed': set<int>)
    requires m in t.messages && m in t'.messages && t'.messages[m].status == t.messages[m].status
    requires SameRecipients(t, t', m) && Agrees(t, m, owed) && (m in owed ==> m in owed')
    ensures Agrees(t', m, owed')
  {}

  // ----- marking and finalizing -----

  lemma MarkTouchesOneMessage(t: Tables, task: Task, users: set<string>, now: int, error: string, m: int)
    requires Matches(t, task) && m != task.messageId
    ensures SameRecipients(t, Mark(t, task, users, now), m)
    ensures SameRecipients(t, Fail(t, task, error), m)
  {}

  /** A recipient that is no longer queued rules out the summary Queued; one that is not settled means Sending. */
  lemma RecipientDecides(t: Tables, id: int, m: int)
    requires id in t.actors && IsRecipientOf(t, id, m)
    ensures HasRecipient(t, m)
    ensures !HasStatus(t, id, DeliveryStatus.Queued) ==> Summary(t, m) != MessageStatus.Queued
    ensures HasStatus(t, id, Delivering) ==> Summary(t, m) == Sending
    ensures HasStatus(t, id, TemporaryFailed) ==> Summary(t, m) == Sending
    ensures HasStatus(t, id, DeliveryStatus.Queued) ==>
      Summary(t, m) == MessageStatus.Queued || Summary(t, m) == Sending
  {}

  /** FinalizeDelivery restores the agreement of a message that left Queued. */
  lemma FinalizeAgrees(t: Tables, m: int)
    requires m in t.messages && HasRecipient(t, m) && Summary(t, m) != MessageStatus.Queued
    requires t.messages[m].status in {Draft, Sending, Summary(t, m)}
    ensures Agrees(Finalize(t, m), m, {})
    ensures Finalize(t, m).actors == t.actors && Finalize(t, m).messages.Keys == t.messages.Keys
    ensures forall m' :: m' in t.messages && m' != m ==> Finalize(t, m).messages[m'] == t.messages[m']
  {
    assert SameRecipients(t, Finalize(t, m), m);
    SameSummary(t, Finalize(t, m), m);
    hide SomeRecipient, AllQueued;
  }

  // ----- claiming -----

  /** Queued becomes Sending for the messages of the tasks; nothing else changes. */
  lemma {:induction false} StartSendingMessages(t: Tables, tasks: seq<Task>, m: int)
    requires m in t.messages
    ensures var t' := StartSending(t, tasks);
      m in t'.messages && t'.messages[m].status ==
        if t.messages[m].status == MessageStatus.Queued && (exists i :: 0 <= i < |tasks| && tasks[i].messageId == m)
        then Sending else t.messages[m].status
    decreases |tasks|
  {
    if tasks != [] {
      StartSendingMessages(Update(t, tasks[0].messageId, MessageStatus.Queued, Sending), tasks[1..], m);
      if i :| 0 <= i < |tasks| && tasks[i].messageId == m {
        if i > 0 {
          assert tasks[1..][i - 1].messageId == m;
        }
      } else {
        assert forall i :: 0 <= i < |tasks[1..]| ==> tasks[1..][i] == tasks[i + 1];
      }
    }
  }

  /** The order in which the claimed rows come back does not matter. */
  lemma OrderHasClaimed(t: Tables, limit: int, now: int, order: seq<int>)
    requires multiset(order) == multiset(Claimed(t, limit, now))
    ensures forall id :: id in order <==> id in Claimed(t, limit, now)
    ensures forall id :: id in order ==> id in Ready(t, now)
  {
    TakeIsPrefix(t, Ready(t, now), limit);
    forall id ensures id in order <==> id in Claimed(t, limit, now) {
      assert id in order <==> id in multiset(order);
      assert id in Claimed(t, limit, now) <==> id in multiset(Claimed(t, limit, now));
    }
  }

  lemma ClaimedMessageAgrees(t: Tables, limit: int, now: int, tasks: seq<Task>, i: nat, owed: set<int>)
    requires WellFormed(t) && i < |tasks| && Matches(t, tasks[i]) && tasks[i].id in Claimed(t, limit, now)
    requires tasks[i].messageId in t.messages && Agrees(t, tasks[i].messageId, owed)
    ensures var t', m := ClaimSection(t, limit, now, tasks), tasks[i].messageId; m in t'.messages && Agrees(t', m, owed)
  {
    var id, m := tasks[i].id, tasks[i].messageId;
    var t1 := Claim(t, limit, now);
    TakeIsPrefix(t, Ready(t, now), limit);
    assert id in Ready(t, now);
    RecipientDecides(t, id, m);
    ClaimEffect(t, limit, now, id);
    StartSendingMessages(t1, tasks, m);
    StartSendingActors(t1, tasks);
    hide Claimed, AllQueued, AllSettled, SomeRecipient, HasRecipient, StartSending;
    RecipientDecides(StartSending(t1, tasks), id, m);
  }

  lemma UnclaimedMessageAgrees(t: Tables, limit: int, now: int, tasks: seq<Task>, m: int, owed: set<int>)
    requires WellFormed(t) && m in t.messages && Agrees(t, m, owed)
    requires forall i :: 0 <= i < |tasks| ==> tasks[i].messageId != m
    requires forall id :: id in t.actors && IsRecipientOf(t, id, m) ==> id !in Claimed(t, limit, now)
    ensures var t' := ClaimSection(t, limit, now, tasks); m in t'.messages && Agrees(t', m, owed)
  {
    var t1 := Claim(t, limit, now);
    StartSendingMessages(t1, tasks, m);
    StartSendingActors(t1, tasks);
    var t' := StartSending(t1, tasks);
    forall id | id in t.actors
      ensures id in t'.actors && (IsRecipientOf(t, id, m) <==> IsRecipientOf(t', id, m))
      ensures IsRecipientOf(t, id, m) ==> t'.actors[id] == t.actors[id]
    {
      ClaimEffect(t, limit, now, id);
    }
    assert t'.actors.Keys == t.actors.Keys;
    hide Claimed, StartSending, Agrees;
    AgreesCarries(t, t', m, owed, owed);
  }

  lemma ClaimKeepsSummary(c: Config, s: System, step: Step, m: int)
    requires SummaryInv(s) && Enabled(c, s, step) && step.ClaimBatch? && m in s.tables.messages
    ensures var t' := Apply(c, s, step).tables; m in t'.messages && Agrees(t', m, Owed(s))
  {
    var t := s.tables;
    var tasks := TasksOf(t, step.order);
    OrderHasClaimed(t, step.limit, step.now, step.order);
    forall i | 0 <= i < |tasks| ensures Matches(t, tasks[i]) && tasks[i].id == step.order[i] {
      assert step.order[i] in step.order;
      assert step.order[i] in Ready(t, step.now);
    }
    hide Claimed, ClaimSection, Agrees, HandoffInv, Owed, TasksMatch;
    if i :| 0 <= i < |tasks| && tasks[i].messageId == m {
      ClaimedMessageAgrees(t, step.limit, step.now, tasks, i, Owed(s));
    } else {
      forall id | id in step.order ensures !IsRecipientOf(t, id, m) {
        var k :| 0 <= k < |step.order| && step.order[k] == id;
        assert tasks[k].messageId != m;
      }
      UnclaimedMessageAgrees(t, step.limit, step.now, tasks, m, Owed(s));
    }
  }

  // ----- delivering -----

  /** After one recipient of m is terminal and m is finalized, m agrees again and no other message moved. */
  lemma MarkFinalizeAgrees(t: Tables, t1: Tables, task: Task, m: int, owed: set<int>, owed': set<int>)
    requires t1.messages == t.messages && Matches(t1, task) && TerminalRow(t1, task.id)
    requires task.messageId in t.messages
    requires t.messages[task.messageId].status in {Draft, Sending, Summary(t1, task.messageId)}
    requires forall other :: other != task.messageId ==> SameRecipients(t, t1, other)
    requires m in t.messages && Agrees(t, m, owed) && owed - {task.messageId} <= owed'
    ensures var t' := Finalize(t1, task.messageId); m in t'.messages && Agrees(t', m, owed')
  {
    var mine := task.messageId;
    RecipientDecides(t1, task.id, mine);
    FinalizeAgrees(t1, mine);
    if m != mine {
      var t' := Finalize(t1, mine);
      assert SameRecipients(t, t1, m);
      assert SameRecipients(t, t', m);
      hide Finalize, Summary, HasRecipient;
      AgreesCarries(t, t', m, owed, owed');
    }
  }

  /** Between marking and finalizing, only the message of the task may be out of date. */
  lemma MarkedAgrees(t: Tables, t1: Tables, task: Task, m: int, owed: set<int>, owed': set<int>)
    requires t1.messages == t.messages && Matches(t1, task) && TerminalRow(t1, task.id)
    requires task.messageId in t.messages
    requires t.messages[task.messageId].status in {Draft, Sending, Summary(t1, task.messageId)}
    requires forall other :: other != task.messageId ==> SameRecipients(t, t1, other)
    requires m in t.messages && Agrees(t, m, owed) && owed <= owed' && task.messageId in owed'
    ensures Agrees(t1, m, owed')
  {
    RecipientDecides(t1, task.id, task.messageId);
    if m != task.messageId {
      hide Summary, HasRecipient;
      AgreesCarries(t, t1, m, owed, owed');
    }
  }

  /** The message of a row in Delivering is Sending (or a draft), whatever is owed. */
  lemma DeliveringMeansSending(t: Tables, task: Task, owed: set<int>)
    requires WellFormed(t) && Matches(t, task) && HasStatus(t, task.id, Delivering)
    requires task.messageId in t.messages && Agrees(t, task.messageId, owed)
    ensures t.messages[task.messageId].status in {Draft, Sending}
  {}

  lemma MarkMakesTerminal(t: Tables, task: Task, users: set<string>, now: int, error: string)
    requires Matches(t, task) && HasStatus(t, task.id, Delivering)
    ensures forall t1 :: t1 == Mark(t, task, users, now) || t1 == Fail(t, task, error) ==>
      && t1.messages == t.messages && Matches(t1, task) && TerminalRow(t1, task.id)
      && (forall other :: other != task.messageId ==> SameRecipients(t, t1, other))
  {
    forall other | other != task.messageId
      ensures SameRecipients(t, Mark(t, task, users, now), other) && SameRecipients(t, Fail(t, task, error), other)
    {
      MarkTouchesOneMessage(t, task, users, now, error, other);
    }
    hide SameRecipients;
  }

  lemma EnqueueThrowsKeepsSummary(c: Config, s: System, step: Step, m: int)
    requires SummaryInv(s) && Enabled(c, s, step) && step.EnqueueThrows? && m in s.tables.messages
    ensures var t' := Apply(c, s, step).tables; m in t'.messages && Agrees(t', m, Owed(s))
  {
    var t, task := s.tables, s.batches[step.dispatcher][0];
    FirstOfBatchHeld(s.batches, step.dispatcher);
    assert task.id in Holders(s);
    assert task.id in multiset(DeliveringRows(t));
    assert Matches(t, task);
    hide Holders, BatchIds, Ids, WorkIds, Finalize, Fail, Agrees, MarkedIsTerminal, TasksMatch, Owed;
    DeliveringMeansSending(t, task, Owed(s));
    MarkMakesTerminal(t, task, {}, 0, step.error);
    MarkFinalizeAgrees(t, Fail(t, task, step.error), task, m, Owed(s), Owed(s));
  }

  lemma DeliverKeepsSummary(c: Config, s: System, step: Step, m: int)
    requires SummaryInv(s) && Enabled(c, s, step) && step.DeliverTask? && m in s.tables.messages
    ensures var s' := Apply(c, s, step); m in s'.tables.messages && Agrees(s'.tables, m, Owed(s'))
  {
    var t, w := s.tables, step.worker;
    var task, s' := s.running[w].task, Apply(c, s, step);
    HeldRowExists(s, w);
    OwedAfterTry(c, s, w, step.now, step.outcome);
    assert Matches(t, task);
    hide Holders, Finalize, Mark, Agrees, MarkedIsTerminal, TasksMatch, Owed, HandoffExact, Remove;
    DeliveringMeansSending(t, task, Owed(s));
    MarkMakesTerminal(t, task, c.users, step.now, "");
    match step.outcome
    case Completes => MarkFinalizeAgrees(t, Mark(t, task, c.users, step.now), task, m, Owed(s), Owed(s'));
    case ThrowsBeforeMark =>
    case ThrowsAfterMark => MarkedAgrees(t, Mark(t, task, c.users, step.now), task, m, Owed(s), Owed(s'));
  }

  lemma OwedAfterTry(c: Config, s: System, w: nat, now: int, outcome: Outcome)
    requires w < |s.running| && s.running[w].Running?
    ensures var s' := AfterTry(c, s, w, now, outcome);
      && Owed(s) <= Owed(s')
      && (outcome.ThrowsAfterMark? ==> s.running[w].task.messageId in Owed(s'))
      && (!outcome.ThrowsAfterMark? ==> Owed(s') == Owed(s))
  {
    hide Mark, Finalize;
    var s' := AfterTry(c, s, w, now, outcome);
    forall k | 0 <= k < |s.running| && k != w ensures s.running[k] in s'.running {
      if outcome.Completes? && k > w {
        assert s'.running[k - 1] == s.running[k];
      } else {
        assert s'.running[k] == s.running[k];
      }
    }
    if outcome.ThrowsAfterMark? {
      assert s'.running[w] == Recovering(s.running[w].task, true);
    }
  }

  lemma OwedAfterCatch(s: System, w: nat, error: string, outcome: Outcome)
    requires w < |s.running| && s.running[w].Recovering?
    ensures var s', m := AfterCatch(s, w, error, outcome), s.running[w].task.messageId;
      && Owed(s) - {m} <= Owed(s')
      && (outcome.ThrowsAfterMark? || (outcome.ThrowsBeforeMark? && s.running[w].marked) ==> m in Owed(s'))
      && (outcome.ThrowsBeforeMark? && !s.running[w].marked ==> Owed(s) <= Owed(s'))
  {}

  /** The catch block, on a row that is still Delivering: like Deliver, with MarkFailed. */
  lemma CatchKeepsSummary(c: Config, s: System, step: Step, m: int)
    requires SummaryInv(s) && Enabled(c, s, step) && step.Recover? && !s.running[step.worker].marked
    requires m in s.tables.messages
    ensures var s' := Apply(c, s, step); m in s'.tables.messages && Agrees(s'.tables, m, Owed(s'))
  {
    var t, w := s.tables, step.worker;
    var task, s' := s.running[w].task, Apply(c, s, step);
    HeldRowExists(s, w);
    OwedAfterCatch(s, w, step.error, step.outcome);
    assert Matches(t, task);
    hide Holders, Finalize, Fail, Agrees, MarkedIsTerminal, TasksMatch, Owed, HandoffExact, Remove;
    DeliveringMeansSending(t, task, Owed(s));
    MarkMakesTerminal(t, task, {}, 0, step.error);
    match step.outcome
    case Completes => MarkFinalizeAgrees(t, Fail(t, task, step.error), task, m, Owed(s), Owed(s'));
    case ThrowsBeforeMark =>
    case ThrowsAfterMark => MarkedAgrees(t, Fail(t, task, step.error), task, m, Owed(s), Owed(s'));
  }

  /** The catch block after a mark that went through: MarkFailed changes nothing, FinalizeDelivery catches up. */
  lemma MarkedCatchKeepsSummary(c: Config, s: System, step: Step, m: int)
    requires SummaryInv(s) && Enabled(c, s, step) && step.Recover? && s.running[step.worker].marked
    requires m in s.tables.messages
    ensures var s' := Apply(c, s, step); m in s'.tables.messages && Agrees(s'.tables, m, Owed(s'))
  {
    var t, w := s.tables, step.worker;
    var task, s' := s.running[w].task, Apply(c, s, step);
    OwedAfterCatch(s, w, step.error, step.outcome);
    MarkedNotDelivering(s, w);
    assert Fail(t, task, step.error) == t;
    assert Matches(t, task) && task.messageId in t.messages;
    RecipientDecides(t, task.id, task.messageId);
    assert t.messages[task.messageId].status in {Draft, Sending, Summary(t, task.messageId)};
    hide Holders, Finalize, Fail, MarkedIsTerminal, TasksMatch, Owed, HandoffExact, Remove, Summary;
    if step.outcome.Completes? {
      MarkFinalizeAgrees(t, t, task, m, Owed(s), Owed(s'));
    } else {
      MarkedAgrees(t, t, task, m, Owed(s), Owed(s'));
    }
  }

  // ----- new mail -----

  lemma ArriveKeepsSummary(c: Config, s: System, step: Step, m: int)
    requires SummaryInv(s) && Enabled(c, s, step) && step.Arrive?
    requires m in Apply(c, s, step).tables.messages
    ensures Agrees(Apply(c, s, step).tables, m, Owed(s))
  {
    var t, t' := s.tables, Apply(c, s, step).tables;
    StoreMailRows(t, step.sender, step.recipients, step.body);
    if m in t.messages {
      assert m != t.lastMessageId + 1;
      hide StoreMail, Owed, HandoffExact, MarkedIsTerminal, TasksMatch;
      AgreesCarries(t, t', m, Owed(s), Owed(s));
    } else {
      hide StoreMail, Owed, HandoffExact, MarkedIsTerminal, TasksMatch;
      forall id | id in t'.actors && IsRecipientOf(t', id, m) ensures HasStatus(t', id, DeliveryStatus.Queued) {
        assert id !in t.actors;
      }
      assert AllQueued(t', m);
    }
  }

  // ----- the tasks -----

  lemma MatchesKept(t: Tables, t': Tables, batches: seq<seq<Task>>, queue: seq<Task>, running: seq<Work>)
    requires RowsKept(t, t')
    ensures BatchesMatch(t, batches) ==> BatchesMatch(t', batches)
    ensures QueueMatches(t, queue) ==> QueueMatches(t', queue)
    ensures RunningMatches(t, running) ==> RunningMatches(t', running)
  {}

  lemma ClaimedTasksMatch(c: Config, s: System, step: Step)
    requires WellFormed(s.tables) && Enabled(c, s, step) && step.ClaimBatch?
    ensures QueueMatches(s.tables, TasksOf(s.tables, step.order))
  {
    OrderHasClaimed(s.tables, step.limit, step.now, step.order);
    forall i | 0 <= i < |step.order| ensures Matches(s.tables, TaskOf(s.tables, step.order[i])) {
      assert step.order[i] in step.order;
      assert step.order[i] in Ready(s.tables, step.now);
    }
  }

  lemma BatchTasksMatch(t: Tables, batches: seq<seq<Task>>, d: nat, tasks: seq<Task>)
    requires d < |batches| && BatchesMatch(t, batches)
    ensures QueueMatches(t, batches[d]) && (batches[d] != [] ==> QueueMatches(t, batches[d][1..]))
    ensures QueueMatches(t, tasks) ==> BatchesMatch(t, batches[d := tasks])
  {}

  lemma RunningTasksMatch(t: Tables, running: seq<Work>, w: nat, marked: bool)
    requires w < |running| && RunningMatches(t, running)
    ensures RunningMatches(t, Remove(running, w))
    ensures RunningMatches(t, running[w := Recovering(running[w].task, marked)])
  {}

  /** A step only moves tasks, or makes them from claimed rows. */
  lemma HandoverMovesTasks(c: Config, s: System, step: Step)
    requires WellFormed(s.tables) && TasksMatch(s) && Enabled(c, s, step)
    requires step.ClaimBatch? || step.Enqueue? || step.EnqueueThrows?
    ensures var s' := Apply(c, s, step); BatchesMatch(s.tables, s'.batches) && QueueMatches(s.tables, s'.queue)
    ensures Apply(c, s, step).running == s.running
  {
    if step.ClaimBatch? {
      ClaimedTasksMatch(c, s, step);
      BatchTasksMatch(s.tables, s.batches, step.dispatcher, TasksOf(s.tables, step.order));
    } else {
      BatchTasksMatch(s.tables, s.batches, step.dispatcher, s.batches[step.dispatcher][1..]);
    }
    hide WellFormed, ClaimSection, Finalize, Fail, Matches, BatchesMatch, TasksOf, Claimed;
  }

  lemma WorkMovesTasks(c: Config, s: System, step: Step)
    requires TasksMatch(s) && Enabled(c, s, step) && (step.TakeTask? || step.DeliverTask? || step.Recover?)
    ensures var s' := Apply(c, s, step); QueueMatches(s.tables, s'.queue) && RunningMatches(s.tables, s'.running)
    ensures Apply(c, s, step).batches == s.batches
  {
    hide Finalize, Fail, Mark, Matches, BatchesMatch, Remove;
    if !step.TakeTask? {
      RunningTasksMatch(s.tables, s.running, step.worker, step.outcome.ThrowsAfterMark?);
    }
  }

  lemma StepKeepsTasks(c: Config, s: System, step: Step)
    requires SummaryInv(s) && Enabled(c, s, step)
    ensures TasksMatch(Apply(c, s, step))
  {
    StepKeepsRows(c, s, step);
    var s' := Apply(c, s, step);
    MatchesKept(s.tables, s'.tables, s'.batches, s'.queue, s'.running);
    hide HandoffExact, MarkedIsTerminal, Agrees, Owed, RowsKept, QueueMatches, BatchesMatch, RunningMatches;
    if step.ClaimBatch? || step.Enqueue? || step.EnqueueThrows? {
      HandoverMovesTasks(c, s, step);
    } else if step.TakeTask? || step.DeliverTask? || step.Recover? {
      WorkMovesTasks(c, s, step);
    }
  }

  lemma StepKeepsSummary(c: Config, s: System, step: Step)
    requires SummaryInv(s) && Enabled(c, s, step)
    ensures SummaryInv(Apply(c, s, step))
  {
    StepKeepsHandoff(c, s, step);
    StepKeepsTasks(c, s, step);
    var s' := Apply(c, s, step);
    forall m | m in s'.tables.messages ensures Agrees(s'.tables, m, Owed(s')) {
      StepKeepsOneSummary(c, s, step, m);
    }
  }

  lemma StepKeepsOneSummary(c: Config, s: System, step: Step, m: int)
    requires SummaryInv(s) && Enabled(c, s, step)
    requires var s' := Apply(c, s, step); m in s'.tables.messages
    ensures var s' := Apply(c, s, step); Agrees(s'.tables, m, Owed(s'))
  {
    if !step.Arrive? {
      StepKeepsMessages(c, s, step);
    }
    hide HandoffExact, MarkedIsTerminal, TasksMatch, ClaimSection, StoreMail, Finalize, Fail, Mark, WellFormed, Agrees;
    match step
    case Arrive(_, _, _) => ArriveKeepsSummary(c, s, step, m);
    case ClaimBatch(_, _, _, _) => ClaimKeepsSummary(c, s, step, m);
    case EnqueueThrows(_, _) => EnqueueThrowsKeepsSummary(c, s, step, m);
    case TakeTask => OwedAfterTake(s);
    case DeliverTask(_, _, _) => DeliverKeepsSummary(c, s, step, m);
    case Recover(w, _, _) =>
      if s.running[w].marked {
        MarkedCatchKeepsSummary(c, s, step, m);
      } else {
        CatchKeepsSummary(c, s, step, m);
      }
    case _ =>
  }

  lemma OwedAfterTake(s: System)
    requires s.queue != []
    ensures Owed(s.(queue := s.queue[1..], running := s.running + [Running(s.queue[0])])) == Owed(s)
  {}

  lemma SectionsKeepIds(t: Tables, task: Task, users: set<string>, now: int, error: string)
    ensures Mark(t, task, users, now).messages == t.messages && Mark(t, task, users, now).actors.Keys == t.actors.Keys
    ensures Fail(t, task, error).messages == t.messages && Fail(t, task, error).actors.Keys == t.actors.Keys
  {}

  lemma FinalizeKeepsIds(t: Tables, m: int)
    ensures Finalize(t, m).messages.Keys == t.messages.Keys && Finalize(t, m).actors == t.actors
  {
    hide AllSettled, SomeRecipient;
  }

  lemma ClaimKeepsIds(t: Tables, limit: int, now: int, tasks: seq<Task>)
    ensures ClaimSection(t, limit, now, tasks).messages.Keys == t.messages.Keys
    ensures ClaimSection(t, limit, now, tasks).actors.Keys == t.actors.Keys
  {
    StartSendingActors(Claim(t, limit, now), tasks);
    hide Claimed, StartSending;
  }

  /** Only a stored message adds a row to mail_messages or mail_message_actors; nothing removes one. */
  lemma StepKeepsMessages(c: Config, s: System, step: Step)
    requires Enabled(c, s, step) && !step.Arrive?
    ensures Apply(c, s, step).tables.messages.Keys == s.tables.messages.Keys
    ensures Apply(c, s, step).tables.actors.Keys == s.tables.actors.Keys
  {
    var t := s.tables;
    hide Mark, Fail, Finalize, ClaimSection, TasksOf, Remove;
    match step
    case ClaimBatch(d, limit, now, order) => ClaimKeepsIds(t, limit, now, TasksOf(t, order));
    case EnqueueThrows(d, error) =>
      var task := s.batches[d][0];
      SectionsKeepIds(t, task, {}, 0, error);
      FinalizeKeepsIds(Fail(t, task, error), task.messageId);
    case DeliverTask(w, now, outcome) =>
      var task := s.running[w].task;
      SectionsKeepIds(t, task, c.users, now, "");
      FinalizeKeepsIds(Mark(t, task, c.users, now), task.messageId);
    case Recover(w, error, outcome) =>
      var task := s.running[w].task;
      SectionsKeepIds(t, task, c.users, 0, error);
      FinalizeKeepsIds(Fail(t, task, error), task.messageId);
    case _ =>
  }

  lemma {:induction false} SummaryInEveryRun(c: Config, s: System, steps: seq<Step>)
    requires SummaryInv(s) && IsRun(c, s, steps)
    ensures SummaryInv(Run(c, s, steps))
    decreases |steps|
  {
    if steps != [] {
      StepKeepsSummary(c, s, steps[0]);
      SummaryInEveryRun(c, Apply(c, s, steps[0]), steps[1..]);
    }
  }
}