/**
 What the delivery queue guarantees over whole runs: the message status as a function of the recipients,
 the same outcome in every interleaving, termination, and nothing left in Delivering after Stop.
 */
module DeliveryOutcome {
  import opened Wrappers
  import opened MailStorage
  import opened StatementTraces
  import opened DeliverySystem
  import opened Handoff
  import opened DeliverySummary

  // ----- where a run starts -----

  /** Nothing claimed yet: every message has recipients and is Queued, and so are they. */
  ghost predicate Fresh(s: System) {
    && WellFormed(s.tables)
    && (forall m :: m in s.tables.messages ==>
          s.tables.messages[m].status == MessageStatus.Queued && HasRecipient(s.tables, m))
    && (forall id :: id in s.tables.actors && s.tables.actors[id].kind != From ==>
          HasStatus(s.tables, id, DeliveryStatus.Queued))
    && (forall d :: 0 <= d < |s.batches| ==> s.batches[d] == [])
    && s.queue == [] && s.running == [] && !s.stopping && s.exited == 0
    && s.stranded == multiset{} && s.unsettled == {}
  }

  lemma {:induction false} EmptyBatches(batches: seq<seq<Task>>)
    requires forall d :: 0 <= d < |batches| ==> batches[d] == []
    ensures BatchIds(batches) == multiset{}
  {
    if batches != [] {
      EmptyBatches(batches[1..]);
    }
  }

  lemma FreshHolds(s: System)
    requires Fresh(s)
    ensures SummaryInv(s)
  {
    EmptyBatches(s.batches);
    assert DeliveringRows(s.tables) == {};
    assert Holders(s) == multiset{};
    forall m | m in s.tables.messages ensures Agrees(s.tables, m, Owed(s)) {
      assert AllQueued(s.tables, m);
    }
  }

  // ----- the summary -----

  /** No recipient of m is pending, queued, delivering or temporarily failed. */
  ghost predicate AllTerminal(t: Tables, m: int) {
    forall id :: id in t.actors && IsRecipientOf(t, id, m) ==> TerminalRow(t, id)
  }

  /** The status a message shows is the one its recipients determine. */
  ghost predicate ShowsRecipients(t: Tables, m: int)
    requires m in t.messages
  {
    var status := t.messages[m].status;
    && (status == MessageStatus.Queued <==> AllQueued(t, m))
    && (status == Sending <==> !AllQueued(t, m) && !AllTerminal(t, m))
    && (status == Sent <==> AllTerminal(t, m) && SomeRecipient(t, m, Delivered))
    && (status == MessageStatus.Failed <==> AllTerminal(t, m) && !SomeRecipient(t, m, Delivered))
  }

  /**
   In every reachable state between critical sections, the status of a message that is no draft is the
   one its recipients determine. The only exceptions are the messages of calls whose FinalizeDelivery
   threw: those may still be Sending although every recipient is terminal.
   */
  lemma StatusIsSummary(c: Config, s0: System, steps: seq<Step>, m: int)
    requires Fresh(s0) && IsRun(c, s0, steps)
    requires var t := Run(c, s0, steps).tables; m in t.messages && t.messages[m].status != Draft
    ensures var s := Run(c, s0, steps);
      || ShowsRecipients(s.tables, m)
      || (m in Owed(s) && s.tables.messages[m].status == Sending && AllTerminal(s.tables, m))
  {
    FreshHolds(s0);
    SummaryInEveryRun(c, s0, steps);
    var s := Run(c, s0, steps);
    hide Run, Fresh, IsRun;
    AgreesMeans(s.tables, m, Owed(s));
  }

  lemma AgreesMeans(t: Tables, m: int, owed: set<int>)
    requires WellFormed(t) && m in t.messages && t.messages[m].status != Draft && Agrees(t, m, owed)
    ensures ShowsRecipients(t, m) || (m in owed && t.messages[m].status == Sending && AllTerminal(t, m))
  {}

  // ----- stopping the pool -----

  ghost predicate PoolInv(c: Config, s: System) {
    && |s.running| + s.exited <= c.workers
    && (s.exited > 0 ==> s.stopping && s.queue == [])
  }

  lemma {:induction false} PoolInEveryRun(c: Config, s: System, steps: seq<Step>)
    requires PoolInv(c, s) && IsRun(c, s, steps)
    ensures PoolInv(c, Run(c, s, steps))
    decreases |steps|
  {
    if steps != [] {
      StepKeepsPool(c, s, steps[0]);
      PoolInEveryRun(c, Apply(c, s, steps[0]), steps[1..]);
    }
  }

  lemma StepKeepsPool(c: Config, s: System, step: Step)
    requires PoolInv(c, s) && Enabled(c, s, step)
    ensures PoolInv(c, Apply(c, s, step))
  {
    hide ClaimSection, StoreMail, Finalize, Fail, Mark, TasksOf;
  }

  /**
   When every Poll is through with its batch and Stop has joined all workers, the rows left in Delivering
   are exactly those whose two attempts to mark them threw: none, if storage does not fail twice.
   */
  lemma StopDrains(c: Config, s0: System, steps: seq<Step>)
    requires Fresh(s0) && IsRun(c, s0, steps) && c.workers > 0
    requires var s := Run(c, s0, steps);
      s.exited == c.workers && forall d :: 0 <= d < |s.batches| ==> s.batches[d] == []
    ensures var s := Run(c, s0, steps); multiset(DeliveringRows(s.tables)) == s.stranded && s.queue == []
  {
    FreshHolds(s0);
    HandoffInEveryRun(c, s0, steps);
    PoolInEveryRun(c, s0, steps);
    var s := Run(c, s0, steps);
    EmptyBatches(s.batches);
    assert s.running == [];
    assert Holders(s) == s.stranded;
  }

  // ----- runs without exceptions -----

  predicate FaultFree(step: Step) {
    match step
    case EnqueueThrows(_, _) => false
    case DeliverTask(_, _, outcome) => outcome.Completes?
    case Recover(_, _, _) => false
    case _ => true
  }

  predicate AllFaultFree(steps: seq<Step>) {
    forall i :: 0 <= i < |steps| ==> FaultFree(steps[i])
  }

  /** An active local user gets the mail; every other recipient fails. */
  function Expected(c: Config, email: string): DeliveryStatus {
    if email in c.users then Delivered else DeliveryStatus.Failed
  }

  ghost predicate OnTrack(c: Config, t: Tables) {
    forall id :: id in t.actors && t.actors[id].kind != From ==>
      || HasStatus(t, id, DeliveryStatus.Queued) || HasStatus(t, id, Delivering)
      || HasStatus(t, id, Expected(c, t.actors[id].email))
  }

  ghost predicate CleanInv(c: Config, s: System) {
    SummaryInv(s) && OnTrack(c, s.tables) && NothingOwed(s) && NoDrafts(s.tables)
  }

  lemma ClaimOnTrack(c: Config, t: Tables, limit: int, now: int, tasks: seq<Task>)
    requires OnTrack(c, t)
    ensures OnTrack(c, ClaimSection(t, limit, now, tasks))
  {
    StartSendingActors(Claim(t, limit, now), tasks);
    forall id | id in t.actors
      ensures Claim(t, limit, now).actors[id].delivery == Some(Delivering)
        || Claim(t, limit, now).actors[id] == t.actors[id]
    {
      ClaimEffect(t, limit, now, id);
    }
  }

  lemma ArriveOnTrack(c: Config, t: Tables, sender: string, recipients: seq<string>, body: string)
    requires WellFormed(t) && OnTrack(c, t)
    ensures OnTrack(c, StoreMail(t, sender, recipients, body))
  {
    StoreMailRows(t, sender, recipients, body);
    hide StoreMail, WellFormed;
  }

  lemma MarkOnTrack(c: Config, t: Tables, task: Task, now: int)
    requires WellFormed(t) && OnTrack(c, t) && Matches(t, task)
    ensures OnTrack(c, Finalize(Mark(t, task, c.users, now), task.messageId))
  {
    MarkWellFormed(t, task, c.users, now, "");
    FinalizeWellFormed(Mark(t, task, c.users, now), task.messageId);
    hide Finalize, WellFormed;
  }

  lemma StepOnTrack(c: Config, s: System, step: Step)
    requires CleanInv(c, s) && Enabled(c, s, step) && FaultFree(step)
    ensures OnTrack(c, Apply(c, s, step).tables)
  {
    var t := s.tables;
    assert WellFormed(t) && TasksMatch(s);
    hide OnTrack, ClaimSection, StoreMail, Finalize, Mark, Fail, WellFormed, SummaryInv, Owed;
    if step.ClaimBatch? {
      ClaimOnTrack(c, t, step.limit, step.now, TasksOf(t, step.order));
    } else if step.Arrive? {
      ArriveOnTrack(c, t, step.sender, step.recipients, step.body);
    } else if step.DeliverTask? {
      MarkOnTrack(c, t, s.running[step.worker].task, step.now);
    }
  }

  ghost predicate NoDrafts(t: Tables) {
    forall m :: m in t.messages ==> t.messages[m].status != Draft
  }

  lemma ClaimMakesNoDraft(t: Tables, limit: int, now: int, tasks: seq<Task>)
    requires NoDrafts(t)
    ensures NoDrafts(ClaimSection(t, limit, now, tasks))
  {
    var t1 := Claim(t, limit, now);
    StartSendingActors(t1, tasks);
    forall m | m in t.messages ensures StartSending(t1, tasks).messages[m].status != Draft {
      StartSendingMessages(t1, tasks, m);
    }
    hide Claimed, StartSending;
  }

  lemma MarkMakesNoDraft(t: Tables, task: Task, users: set<string>, now: int)
    requires NoDrafts(t)
    ensures NoDrafts(Finalize(Mark(t, task, users, now), task.messageId))
  {}

  lemma StepMakesNoDraft(c: Config, s: System, step: Step)
    requires WellFormed(s.tables) && NoDrafts(s.tables) && Enabled(c, s, step) && FaultFree(step)
    ensures NoDrafts(Apply(c, s, step).tables)
  {
    var t := s.tables;
    hide NoDrafts, ClaimSection, Finalize, Mark, Fail, WellFormed;
    if step.ClaimBatch? {
      ClaimMakesNoDraft(t, step.limit, step.now, TasksOf(t, step.order));
    } else if step.Arrive? {
      ArriveMakesNoDraft(t, step.sender, step.recipients, step.body);
    } else if step.DeliverTask? {
      MarkMakesNoDraft(t, s.running[step.worker].task, c.users, step.now);
    }
  }

  lemma ArriveMakesNoDraft(t: Tables, sender: string, recipients: seq<string>, body: string)
    requires WellFormed(t) && NoDrafts(t)
    ensures NoDrafts(StoreMail(t, sender, recipients, body))
  {
    StoreMailRows(t, sender, recipients, body);
    hide StoreMail, WellFormed;
  }

  /** Without exceptions no worker enters its catch block and nothing is owed or stranded. */
  ghost predicate NothingOwed(s: System) {
    && s.stranded == multiset{} && s.unsettled == {}
    && (forall w :: 0 <= w < |s.running| ==> s.running[w].Running?)
  }

  lemma StepOwesNothing(c: Config, s: System, step: Step)
    requires NothingOwed(s) && Enabled(c, s, step) && FaultFree(step)
    ensures NothingOwed(Apply(c, s, step))
  {}

  lemma StepClean(c: Config, s: System, step: Step)
    requires CleanInv(c, s) && Enabled(c, s, step) && FaultFree(step)
    ensures CleanInv(c, Apply(c, s, step))
  {
    StepKeepsSummary(c, s, step);
    StepOnTrack(c, s, step);
    StepMakesNoDraft(c, s, step);
    StepOwesNothing(c, s, step);
    hide SummaryInv, OnTrack, NoDrafts, NothingOwed, Apply;
  }

  lemma {:induction false} CleanInEveryRun(c: Config, s: System, steps: seq<Step>)
    requires CleanInv(c, s) && IsRun(c, s, steps) && AllFaultFree(steps)
    ensures CleanInv(c, Run(c, s, steps))
    decreases |steps|
  {
    if steps != [] {
      StepClean(c, s, steps[0]);
      hide CleanInv, Enabled, Apply;
      CleanInEveryRun(c, Apply(c, s, steps[0]), steps[1..]);
    }
  }

  /** Nothing left to claim, to hand over, to take or to deliver. */
  ghost predicate Quiescent(s: System) {
    && (forall d :: 0 <= d < |s.batches| ==> s.batches[d] == [])
    && s.queue == [] && s.running == []
    && (forall id :: id in s.tables.actors ==> !HasStatus(s.tables, id, DeliveryStatus.Queued))
  }

  predicate SomeActive(c: Config, t: Tables, m: int) {
    exists id :: id in t.actors && IsRecipientOf(t, id, m) && t.actors[id].email in c.users
  }

  ghost predicate Finished(c: Config, t: Tables) {
    && (forall id :: id in t.actors && t.actors[id].kind != From ==>
          t.actors[id].delivery == Some(Expected(c, t.actors[id].email)))
    && (forall m :: m in t.messages ==>
          t.messages[m].status == if SomeActive(c, t, m) then Sent else MessageStatus.Failed)
  }

  /**
   However the steps of Poll, of the pool and of the workers interleave, and whatever mail arrives
   meanwhile: at the end a recipient is Delivered if and only if it is an active local user, and Failed
   otherwise; a message is Sent if and only if some recipient is active, and Failed otherwise.
   */
  lemma FinalStatuses(c: Config, s0: System, steps: seq<Step>)
    requires Fresh(s0) && IsRun(c, s0, steps) && AllFaultFree(steps) && Quiescent(Run(c, s0, steps))
    ensures Finished(c, Run(c, s0, steps).tables)
  {
    FreshHolds(s0);
    assert NothingOwed(s0) && NoDrafts(s0.tables) && OnTrack(c, s0.tables);
    CleanInEveryRun(c, s0, steps);
    var s := Run(c, s0, steps);
    hide Run, IsRun, Fresh, CleanInv, Quiescent;
    QuiescentIsFinished(c, s);
  }

  lemma QuiescentIsFinished(c: Config, s: System)
    requires CleanInv(c, s) && Quiescent(s)
    ensures Finished(c, s.tables)
  {
    NothingDelivering(c, s);
    forall m | m in s.tables.messages
      ensures s.tables.messages[m].status == if SomeActive(c, s.tables, m) then Sent else MessageStatus.Failed
    {
      assert Agrees(s.tables, m, {});
      FinalSummary(c, s.tables, m);
    }
  }

  lemma NothingDelivering(c: Config, s: System)
    requires CleanInv(c, s) && Quiescent(s)
    ensures forall id :: id in s.tables.actors && s.tables.actors[id].kind != From ==>
      s.tables.actors[id].delivery == Some(Expected(c, s.tables.actors[id].email))
  {
    EmptyBatches(s.batches);
    assert Holders(s) == multiset{};
    forall id | id in s.tables.actors ensures !HasStatus(s.tables, id, Delivering) {
      assert id !in multiset(DeliveringRows(s.tables));
    }
    hide SummaryInv;
  }

  lemma FinalSummary(c: Config, t: Tables, m: int)
    requires m in t.messages && t.messages[m].status != Draft && Agrees(t, m, {})
    requires forall id :: id in t.actors && t.actors[id].kind != From ==>
      t.actors[id].delivery == Some(Expected(c, t.actors[id].email))
    ensures t.messages[m].status == if SomeActive(c, t, m) then Sent else MessageStatus.Failed
  {}

  // ----- two interleavings -----

  ghost predicate SameShape(t: Tables, t': Tables) {
    && t.messages.Keys == t'.messages.Keys && t.actors.Keys == t'.actors.Keys
    && (forall id :: id in t.actors ==>
          t.actors[id].email == t'.actors[id].email && t.actors[id].kind == t'.actors[id].kind
          && t.actors[id].messageId == t'.actors[id].messageId)
  }

  lemma {:induction false} RunKeepsShape(c: Config, s: System, steps: seq<Step>)
    requires WellFormed(s.tables) && IsRun(c, s, steps) && NoArrivals(steps)
    ensures SameShape(s.tables, Run(c, s, steps).tables)
    decreases |steps|
  {
    if steps != [] {
      StepKeepsRows(c, s, steps[0]);
      StepKeepsMessages(c, s, steps[0]);
      RunKeepsShape(c, Apply(c, s, steps[0]), steps[1..]);
    }
  }

  lemma SameShapesAgree(c: Config, t: Tables, a: Tables, b: Tables)
    requires SameShape(t, a) && SameShape(t, b) && Finished(c, a) && Finished(c, b)
    ensures SameShape(a, b)
    ensures forall id :: id in a.actors && a.actors[id].kind != From ==> a.actors[id].delivery == b.actors[id].delivery
    ensures forall m :: m in a.messages ==> a.messages[m].status == b.messages[m].status
  {}

  predicate NoArrivals(steps: seq<Step>) {
    forall i :: 0 <= i < |steps| ==> !steps[i].Arrive?
  }

  /** Any two complete interleavings from the same queue end with the same statuses everywhere. */
  lemma OrderIndependence(c: Config, s0: System, stepsA: seq<Step>, stepsB: seq<Step>)
    requires Fresh(s0) && IsRun(c, s0, stepsA) && IsRun(c, s0, stepsB)
    requires AllFaultFree(stepsA) && AllFaultFree(stepsB) && NoArrivals(stepsA) && NoArrivals(stepsB)
    requires Quiescent(Run(c, s0, stepsA)) && Quiescent(Run(c, s0, stepsB))
    ensures var a, b := Run(c, s0, stepsA).tables, Run(c, s0, stepsB).tables;
      && SameShape(a, b)
      && (forall id :: id in a.actors && a.actors[id].kind != From ==> a.actors[id].delivery == b.actors[id].delivery)
      && (forall m :: m in a.messages ==> a.messages[m].status == b.messages[m].status)
  {
    FinalStatuses(c, s0, stepsA);
    FinalStatuses(c, s0, stepsB);
    RunKeepsShape(c, s0, stepsA);
    RunKeepsShape(c, s0, stepsB);
    var a, b := Run(c, s0, stepsA).tables, Run(c, s0, stepsB).tables;
    hide Finished, Run, IsRun, Fresh, Quiescent, AllFaultFree, NoArrivals;
    SameShapesAgree(c, s0.tables, a, b);
  }

  // ----- every interleaving completes -----

  function QueuedRows(t: Tables): set<int> {
    set id | id in t.actors && HasStatus(t, id, DeliveryStatus.Queued)
  }

  /** Four steps take a recipient through the system: claim, hand over, take, deliver. */
  function Left(s: System): nat {
    4 * |QueuedRows(s.tables)| + 3 * |BatchIds(s.batches)| + 2 * |s.queue| + |s.running|
  }

  predicate Effective(step: Step) {
    match step
    case ClaimBatch(_, _, _, order) => order != []
    case Enqueue(_) => true
    case TakeTask => true
    case DeliverTask(_, _, _) => true
    case _ => false
  }

  function EffectiveCount(steps: seq<Step>): nat {
    if steps == [] then 0 else (if Effective(steps[0]) then 1 else 0) + EffectiveCount(steps[1..])
  }

  lemma QueuedAfterClaim(t: Tables, limit: int, now: int, tasks: seq<Task>)
    ensures QueuedRows(ClaimSection(t, limit, now, tasks)) == QueuedRows(t) - SetOf(Claimed(t, limit, now))
  {
    StartSendingActors(Claim(t, limit, now), tasks);
    hide Claimed, StartSending;
  }

  lemma ClaimedAreQueued(t: Tables, limit: int, now: int)
    requires forall id :: id in t.actors ==> !HasStatus(t, id, TemporaryFailed)
    ensures SetOf(Claimed(t, limit, now)) <= QueuedRows(t)
  {
    TakeIsPrefix(t, Ready(t, now), limit);
    forall id | id in Claimed(t, limit, now) ensures id in Ready(t, now) {}
    hide Claimed, Take;
  }

  lemma ClaimTakesQueued(t: Tables, limit: int, now: int, tasks: seq<Task>)
    requires forall id :: id in t.actors ==> !HasStatus(t, id, TemporaryFailed)
    ensures |QueuedRows(ClaimSection(t, limit, now, tasks))| + |Claimed(t, limit, now)| == |QueuedRows(t)|
  {
    ClaimIsExact(t, limit, now);
    QueuedAfterClaim(t, limit, now, tasks);
    ClaimedAreQueued(t, limit, now);
    hide ClaimSection, Claimed, QueuedRows, SetOf;
  }

  lemma OnTrackHasNoRetries(c: Config, t: Tables)
    requires OnTrack(c, t)
    ensures forall id :: id in t.actors ==> !HasStatus(t, id, TemporaryFailed)
  {}

  lemma ClaimLeaves(c: Config, s: System, step: Step)
    requires CleanInv(c, s) && Enabled(c, s, step) && step.ClaimBatch?
    ensures Left(Apply(c, s, step)) + |step.order| == Left(s)
  {
    var t := s.tables;
    var tasks := TasksOf(t, step.order);
    OnTrackHasNoRetries(c, t);
    ClaimTakesQueued(t, step.limit, step.now, tasks);
    BatchIdsOfUpdate(s.batches, step.dispatcher, tasks);
    IdsOfTasks(t, step.order);
    NoTasks();
    assert |multiset(step.order)| == |multiset(Claimed(t, step.limit, step.now))|;
    hide CleanInv, ClaimSection, TasksOf, QueuedRows, BatchIds, Ids, Claimed;
    BatchSize(BatchIds(s.batches[step.dispatcher := tasks]), BatchIds(s.batches), step.order);
  }

  lemma BatchSize(after: multiset<int>, before: multiset<int>, order: seq<int>)
    requires after + multiset{} == before + multiset(order)
    ensures |after| == |before| + |order|
  {
    assert after == before + multiset(order);
  }

  lemma DeliverLeavesQueued(t: Tables, task: Task, users: set<string>, now: int)
    ensures QueuedRows(Finalize(Mark(t, task, users, now), task.messageId)) == QueuedRows(t)
  {}

  /** A step that moves a recipient makes the remaining work smaller; no other step makes it larger. */
  lemma StepLeaves(c: Config, s: System, step: Step)
    requires CleanInv(c, s) && Enabled(c, s, step) && FaultFree(step) && !step.Arrive?
    ensures Left(Apply(c, s, step)) + (if Effective(step) then 1 else 0) <= Left(s)
  {
    if step.ClaimBatch? {
      ClaimLeaves(c, s, step);
      hide Left, CleanInv, Apply;
    } else {
      if step.Enqueue? {
        FirstOfBatchHeld(s.batches, step.dispatcher);
      } else if step.DeliverTask? {
        DeliverLeavesQueued(s.tables, s.running[step.worker].task, c.users, step.now);
      }
      hide CleanInv, QueuedRows, BatchIds, Finalize, Mark;
    }
  }

  /** Any run makes at most four effective steps per recipient: every interleaving is finite. */
  lemma {:induction false} RunsAreBounded(c: Config, s: System, steps: seq<Step>)
    requires CleanInv(c, s) && IsRun(c, s, steps) && AllFaultFree(steps) && NoArrivals(steps)
    ensures EffectiveCount(steps) + Left(Run(c, s, steps)) <= Left(s)
    decreases |steps|
  {
    if steps != [] {
      StepClean(c, s, steps[0]);
      StepLeaves(c, s, steps[0]);
      hide CleanInv, Enabled, Apply, Left, FaultFree;
      RunsAreBounded(c, Apply(c, s, steps[0]), steps[1..]);
    }
  }

  /** As long as something is left, some step can move it: no interleaving gets stuck. */
  lemma NeverStuck(c: Config, s: System)
    requires CleanInv(c, s) && c.workers > 0 && !s.stopping && s.exited == 0 && |s.batches| > 0
    requires !Quiescent(s)
    ensures exists step :: Enabled(c, s, step) && FaultFree(step) && Effective(step) && !step.Arrive?
  {
    if d :| 0 <= d < |s.batches| && s.batches[d] != [] {
      var step := Enqueue(d);
      assert Enabled(c, s, step) && FaultFree(step) && Effective(step);
    } else if s.running != [] {
      var step := DeliverTask(0, 0, Completes);
      assert Enabled(c, s, step) && FaultFree(step) && Effective(step);
    } else if s.queue != [] {
      var step := TakeTask;
      assert Enabled(c, s, step) && FaultFree(step) && Effective(step);
    } else {
      var order := Claimed(s.tables, 1, 0);
      var id :| id in s.tables.actors && HasStatus(s.tables, id, DeliveryStatus.Queued);
      ReadyIsClaimed(s.tables, id);
      var step := ClaimBatch(0, 1, 0, order);
      assert Enabled(c, s, step) && FaultFree(step) && Effective(step);
    }
  }

  lemma ReadyIsClaimed(t: Tables, id: int)
    requires id in t.actors && HasStatus(t, id, DeliveryStatus.Queued)
    ensures var order := Claimed(t, 1, 0); order != [] && forall i :: 0 <= i < |order| ==> order[i] in t.actors
  {
    TakeIsPrefix(t, Ready(t, 0), 1);
    assert id in Ready(t, 0);
  }
}