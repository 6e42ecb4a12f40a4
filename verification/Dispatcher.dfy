/**
 The thread pool and the queue dispatcher as the objects of the source. Their methods are tied to the
 steps of DeliverySystem, so what is proved about runs holds of them.
 */
module Dispatcher {
  import opened Wrappers
  import opened MailStorage
  import opened DeliverySystem

  const MAX_INT: nat := 0x7fff_ffff

  const POOL_STOPPING := "ThreadPool is stopping"

  /** What one pass through the critical section of WorkerLoop decides. */
  datatype Fetch<T> = Waits | Leaves | Runs(task: T)

  class ThreadPool<T> {
    var tasks: seq<T>
    var stopping: bool

    constructor ()
      ensures tasks == [] && !stopping
    {
      tasks, stopping := [], false;
    }

    method AddTask(task: T) returns (r: Result<()>)
      modifies this
      ensures stopping == old(stopping)
      ensures r == if stopping then Err(POOL_STOPPING) else Ok(())
      ensures tasks == if stopping then old(tasks) else old(tasks) + [task]
    {
      if stopping {
        return Err(POOL_STOPPING);
      }
      tasks := tasks + [task];
      return Ok(());
    }

    /** The flag only: joining the workers is their leaving WorkerLoop, one by one. */
    method Stop()
      modifies this
      ensures stopping && tasks == old(tasks)
    {
      stopping := true;
    }

    /** A worker leaves only when the pool is stopping and no task is left. */
    method NextTask() returns (next: Fetch<T>)
      modifies this
      ensures stopping == old(stopping)
      ensures old(tasks) != [] ==> next == Runs(old(tasks)[0]) && tasks == old(tasks)[1..]
      ensures old(tasks) == [] ==> tasks == [] && next == if stopping then Leaves else Waits
    {
      if !stopping && tasks == [] {
        return Waits;
      }
      if stopping && tasks == [] {
        return Leaves;
      }
      next := Runs(tasks[0]);
      tasks := tasks[1..];
    }
  }

  // ----- the effect of a whole Poll -----

  /** The catch block of Poll, for each task that the pool refused. */
  function FailBatch(t: Tables, tasks: seq<Task>, error: string): Tables
    decreases |tasks|
  {
    if tasks == [] then t
    else FailBatch(Finalize(Fail(t, tasks[0], error), tasks[0].messageId), tasks[1..], error)
  }

  function BatchLimit(batchSize: nat): nat {
    if batchSize > MAX_INT then MAX_INT else batchSize
  }

  /** A batch size that an int can hold is taken as it is, and no batch size becomes none. */
  lemma BatchLimitIs(batchSize: nat)
    ensures batchSize <= MAX_INT ==> BatchLimit(batchSize) == batchSize
    ensures BatchLimit(batchSize) <= MAX_INT && (batchSize > 0 ==> BatchLimit(batchSize) > 0)
  {}

  lemma ClaimedInTable(t: Tables, limit: int, now: int)
    ensures var c := Claimed(t, limit, now); forall i :: 0 <= i < |c| ==> c[i] in t.actors
  {
    TakeIsPrefix(t, Ready(t, now), limit);
  }

  ghost function BatchOf(t: Tables, limit: int, now: int): seq<Task> {
    ClaimedInTable(t, limit, now);
    TasksOf(t, Claimed(t, limit, now))
  }

  lemma {:induction false} StartSendingGrows(t: Tables, tasks: seq<Task>, task: Task)
    ensures StartSending(t, tasks + [task])
         == Update(StartSending(t, tasks), task.messageId, MessageStatus.Queued, Sending)
    decreases |tasks|
  {
    if tasks == [] {
      assert [task][1..] == [];
    } else {
      assert (tasks + [task])[1..] == tasks[1..] + [task];
      StartSendingGrows(Update(t, tasks[0].messageId, MessageStatus.Queued, Sending), tasks[1..], task);
    }
  }

  class QueueDispatcher {
    const batchSize: nat
    const pollInterval: nat
    const pool: ThreadPool<Task>
    const store: MailStore
    var nextPoll: int

    constructor (batchSize: nat, pollInterval: nat, pool: ThreadPool<Task>, store: MailStore)
      requires batchSize > 0
      ensures this.batchSize == batchSize && this.pollInterval == pollInterval
      ensures this.pool == pool && this.store == store && nextPoll == 0
    {
      this.batchSize, this.pollInterval, this.pool, this.store := batchSize, pollInterval, pool, store;
      nextPoll := 0;
    }

    /** The critical section of Poll: claim, and move the messages from Queued to Sending. */
    method ClaimUnderLock(limit: int, now: int) returns (batch: seq<Task>)
      modifies store
      ensures batch == BatchOf(old(store.State()), limit, now)
      ensures store.State() == ClaimSection(old(store.State()), limit, now, batch)
      ensures store.saved == old(store.saved)
    {
      ghost var t := store.State();
      var claimed := store.ClaimReadyRecipients(limit, now);
      ghost var t1 := store.State();
      ClaimedInTable(t, limit, now);
      ClaimKeepsTasks(t, limit, now);
      batch := TasksOf(store.State(), claimed);
      var i := 0;
      while i < |batch|
        invariant 0 <= i <= |batch|
        invariant store.State() == StartSending(t1, batch[..i]) && store.saved == old(store.saved)
      {
        var changed := store.UpdateStatus(batch[i].messageId, MessageStatus.Queued, Sending);
        StartSendingGrows(t1, batch[..i], batch[i]);
        assert batch[..i + 1] == batch[..i] + [batch[i]];
        i := i + 1;
      }
      assert batch[..i] == batch;
    }

    /** Hands one recipient to the pool; if the pool throws, the recipient fails at once. */
    method HandOver(task: Task)
      modifies pool, store
      ensures pool.stopping == old(pool.stopping) && store.saved == old(store.saved)
      ensures pool.tasks == if pool.stopping then old(pool.tasks) else old(pool.tasks) + [task]
      ensures store.State()
           == if pool.stopping then Finalize(Fail(old(store.State()), task, POOL_STOPPING), task.messageId)
              else old(store.State())
    {
      var r := pool.AddTask(task);
      if r.Err? {
        var changed := store.MarkTerminal(task.id, DeliveryStatus.Failed, r.error);
        var settled := store.FinalizeDelivery(task.messageId);
      }
    }

    /**
     One call of Poll that no other thread interferes with. Before the interval is over it does nothing;
     afterwards everything it claims is in the pool's queue, in order, or has failed.
     */
    method Poll(steadyNow: int, now: int)
      modifies this, pool, store
      ensures steadyNow < old(nextPoll) ==>
        nextPoll == old(nextPoll) && store.State() == old(store.State()) && pool.tasks == old(pool.tasks)
      ensures pool.stopping == old(pool.stopping)
      ensures steadyNow >= old(nextPoll) ==> nextPoll == steadyNow + pollInterval
      ensures steadyNow >= old(nextPoll) ==>
        var t := old(store.State());
        var batch := BatchOf(t, BatchLimit(batchSize), now);
        var claimed := ClaimSection(t, BatchLimit(batchSize), now, batch);
        if pool.stopping then store.State() == FailBatch(claimed, batch, POOL_STOPPING) && pool.tasks == old(pool.tasks)
        else store.State() == claimed && pool.tasks == old(pool.tasks) + batch
    {
      if steadyNow < nextPoll {
        return;
      }
      nextPoll := steadyNow + pollInterval;
      var batch := ClaimUnderLock(BatchLimit(batchSize), now);
      ghost var claimed := store.State();
      var i := 0;
      while i < |batch|
        invariant 0 <= i <= |batch| && pool.stopping == old(pool.stopping) && nextPoll == steadyNow + pollInterval
        invariant pool.tasks == if pool.stopping then old(pool.tasks) else old(pool.tasks) + batch[..i]
        invariant !pool.stopping ==> store.State() == claimed
        invariant pool.stopping ==>
          FailBatch(store.State(), batch[i..], POOL_STOPPING) == FailBatch(claimed, batch, POOL_STOPPING)
      {
        assert batch[i..][0] == batch[i] && batch[i..][1..] == batch[i + 1..];
        assert batch[..i + 1] == batch[..i] + [batch[i]];
        HandOver(batch[i]);
        i := i + 1;
      }
      assert batch[..i] == batch && batch[i..] == [];
    }
  }

  /** The constructor of the source throws when the batch size is zero. */
  method CreateDispatcher(batchSize: nat, pollInterval: nat, pool: ThreadPool<Task>, store: MailStore)
    returns (r: Result<QueueDispatcher>)
    ensures r.Err? <==> batchSize == 0
    ensures r.Ok? ==> fresh(r.value) && r.value.batchSize == batchSize && r.value.pollInterval == pollInterval
                      && r.value.pool == pool && r.value.store == store && r.value.nextPoll == 0
  {
    if batchSize == 0 {
      return Err("QueueDispatcher batch size must be greater than zero");
    }
    var dispatcher := new QueueDispatcher(batchSize, pollInterval, pool, store);
    return Ok(dispatcher);
  }

  lemma ClaimKeepsTasks(t: Tables, limit: int, now: int)
    ensures var c := Claimed(t, limit, now);
      && (forall i :: 0 <= i < |c| ==> c[i] in t.actors && c[i] in Claim(t, limit, now).actors)
      && TasksOf(Claim(t, limit, now), c) == BatchOf(t, limit, now)
  {
    ClaimedInTable(t, limit, now);
    var c := Claimed(t, limit, now);
    forall i | 0 <= i < |c|
      ensures c[i] in Claim(t, limit, now).actors && TaskOf(Claim(t, limit, now), c[i]) == TaskOf(t, c[i]) {}
    hide Claimed, Ready;
  }

  // ----- Deliver -----

  /** The tables after Deliver returns, when its two attempts end as given. */
  function Delivered(t: Tables, task: Task, users: set<string>, now: int, first: Outcome, error: string,
                     second: Outcome):
    Tables
  {
    match first
    case Completes => Finalize(Mark(t, task, users, now), task.messageId)
    case ThrowsBeforeMark => Caught(t, task, error, second)
    case ThrowsAfterMark => Caught(Mark(t, task, users, now), task, error, second)
  }

  function Caught(t: Tables, task: Task, error: string, second: Outcome): Tables {
    match second
    case Completes => Finalize(Fail(t, task, error), task.messageId)
    case ThrowsBeforeMark => t
    case ThrowsAfterMark => Fail(t, task, error)
  }

  method TryDeliver(task: Task, users: set<string>, store: MailStore, now: int, outcome: Outcome, error: string)
    returns (r: Result<()>)
    modifies store
    ensures r == if outcome.Completes? then Ok(()) else Err(error)
    ensures store.State() == match outcome
      case Completes => Finalize(Mark(old(store.State()), task, users, now), task.messageId)
      case ThrowsBeforeMark => old(store.State())
      case ThrowsAfterMark => Mark(old(store.State()), task, users, now)
  {
    if outcome.ThrowsBeforeMark? {
      return Err(error);
    }
    if task.email in users {
      var changed := store.MarkDelivered(task.id, now);
    } else {
      var changed := store.MarkTerminal(task.id, DeliveryStatus.Failed, NOT_LOCAL);
    }
    if outcome.ThrowsAfterMark? {
      return Err(error);
    }
    var settled := store.FinalizeDelivery(task.messageId);
    return Ok(());
  }

  /** noexcept: the second exception is swallowed. The parameters say which statements throw. */
  method DeliverRecipient(task: Task, users: set<string>, store: MailStore, now: int,
                          first: Outcome, error: string, second: Outcome)
    modifies store
    ensures store.State() == Delivered(old(store.State()), task, users, now, first, error, second)
  {
    var r := TryDeliver(task, users, store, now, first, error);
    if r.Err? && !second.ThrowsBeforeMark? {
      var changed := store.MarkTerminal(task.id, DeliveryStatus.Failed, r.error);
      if !second.ThrowsAfterMark? {
        var settled := store.FinalizeDelivery(task.messageId);
      }
    }
  }

  /** A call of Deliver is one step of the system, or two with a gap in which the lock is free. */
  lemma DeliverIsRun(c: Config, s: System, w: nat, now: int, first: Outcome, error: string, second: Outcome)
    requires w < |s.running| && s.running[w].Running?
    ensures var task := s.running[w].task;
      var steps := [DeliverTask(w, now, first)] + if first.Completes? then [] else [Recover(w, error, second)];
      && IsRun(c, s, steps)
      && Run(c, s, steps).tables == Delivered(s.tables, task, c.users, now, first, error, second)
  {
    hide Mark, Finalize, Fail;
    var s1 := Apply(c, s, DeliverTask(w, now, first));
    var rest := if first.Completes? then [] else [Recover(w, error, second)];
    var steps := [DeliverTask(w, now, first)] + rest;
    assert steps[0] == DeliverTask(w, now, first) && steps[1..] == rest;
    if !first.Completes? {
      assert rest[0] == Recover(w, error, second) && rest[1..] == [];
      assert IsRun(c, s1, rest);
      assert Run(c, s1, rest) == Apply(c, s1, rest[0]);
    }
  }

  // ----- Poll as a run -----

  function Repeat(step: Step, n: nat): seq<Step> {
    if n == 0 then [] else [step] + Repeat(step, n - 1)
  }

  lemma {:induction false} EnqueueAll(c: Config, s: System, d: nat)
    requires d < |s.batches| && !s.stopping
    ensures var steps := Repeat(Enqueue(d), |s.batches[d]|);
      && IsRun(c, s, steps)
      && Run(c, s, steps) == s.(queue := s.queue + s.batches[d], batches := s.batches[d := []])
    decreases |s.batches[d]|
  {
    var batch := s.batches[d];
    var steps := Repeat(Enqueue(d), |batch|);
    if batch == [] {
      assert s.batches[d := []] == s.batches && s.queue + [] == s.queue;
    } else {
      var s1 := Apply(c, s, Enqueue(d));
      assert s1.batches[d] == batch[1..];
      EnqueueAll(c, s1, d);
      assert steps[0] == Enqueue(d) && steps[1..] == Repeat(Enqueue(d), |batch| - 1);
      assert s1.batches[d := []] == s.batches[d := []];
      assert s1.queue + batch[1..] == s.queue + batch;
    }
  }

  /** On a stopping pool every hand-over throws: the whole batch fails at once. */
  lemma {:induction false} FailAll(c: Config, s: System, d: nat)
    requires d < |s.batches|
    ensures var steps := Repeat(EnqueueThrows(d, POOL_STOPPING), |s.batches[d]|);
      && IsRun(c, s, steps)
      && Run(c, s, steps)
         == s.(tables := FailBatch(s.tables, s.batches[d], POOL_STOPPING), batches := s.batches[d := []])
    decreases |s.batches[d]|
  {
    hide Fail, Finalize;
    var batch := s.batches[d];
    var step := EnqueueThrows(d, POOL_STOPPING);
    var steps := Repeat(step, |batch|);
    if batch == [] {
      assert s.batches[d := []] == s.batches;
    } else {
      var s1 := Apply(c, s, step);
      assert s1.batches[d] == batch[1..];
      FailAll(c, s1, d);
      assert steps[0] == step && steps[1..] == Repeat(step, |batch| - 1);
      assert s1.batches[d := []] == s.batches[d := []];
    }
  }

  /** What Poll of an undisturbed dispatcher makes of the system, on a running pool and on a stopping one. */
  ghost function Polled(s: System, limit: int, now: int): System {
    var batch := BatchOf(s.tables, limit, now);
    var claimed := ClaimSection(s.tables, limit, now, batch);
    if s.stopping then s.(tables := FailBatch(claimed, batch, POOL_STOPPING))
    else s.(tables := claimed, queue := s.queue + batch)
  }

  /** An undisturbed Poll is a run of the system, whether or not the pool is stopping. */
  lemma PollIsRun(c: Config, s: System, d: nat, limit: int, now: int)
    requires d < |s.batches| && s.batches[d] == []
    ensures exists steps :: IsRun(c, s, steps) && Run(c, s, steps) == Polled(s, limit, now)
  {
    var order, batch := Claimed(s.tables, limit, now), BatchOf(s.tables, limit, now);
    ClaimedInTable(s.tables, limit, now);
    var claim := ClaimBatch(d, limit, now, order);
    assert Enabled(c, s, claim);
    var s1 := Apply(c, s, claim);
    var step := if s.stopping then EnqueueThrows(d, POOL_STOPPING) else Enqueue(d);
    if s.stopping {
      FailAll(c, s1, d);
    } else {
      EnqueueAll(c, s1, d);
    }
    var steps := [claim] + Repeat(step, |batch|);
    assert steps[0] == claim && steps[1..] == Repeat(step, |batch|);
    assert s1.batches[d] == batch;
    hide ClaimSection, Claimed, BatchOf, FailBatch;
    assert s1.batches[d := []] == s.batches;
    assert IsRun(c, s, steps);
  }
}
