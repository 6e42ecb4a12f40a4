/**
 The delivery queue as a transition system: SMTP sessions store mail, dispatchers claim batches and hand
 them to the thread pool, workers deliver in any order, statements may throw, the pool may stop. Each
 critical section of the storage mutex is one step; the pool's own mutex makes its operations steps too.
 */
module DeliverySystem {
  import opened Wrappers
  import opened MailStorage

  /** The record captured by the closure that Poll enqueues. */
  datatype Task = Task(id: int, messageId: int, email: string)

  /** A worker inside Deliver: in its try block, or in the catch block after an exception. */
  datatype Work = Running(task: Task) | Recovering(task: Task, marked: bool)

  /** Where a critical section of Deliver throws, if it does. */
  datatype Outcome = Completes | ThrowsBeforeMark | ThrowsAfterMark

  datatype System = System(
    tables: Tables,
    batches: seq<seq<Task>>, // what the running Poll of each dispatcher has not handed over yet
    queue: seq<Task>,        // tasks_ of the thread pool
    running: seq<Work>,
    stopping: bool,
    exited: nat,             // workers that left WorkerLoop
    stranded: multiset<int>, // recipients whose two attempts to mark them both threw
    unsettled: set<int>)     // messages of calls whose last FinalizeDelivery threw

  /** The active local users, and the number of worker threads. */
  datatype Config = Config(users: set<string>, workers: nat)

  datatype Step =
    | Arrive(sender: string, recipients: seq<string>, body: string)
    | ClaimBatch(dispatcher: nat, limit: int, now: int, order: seq<int>)
    | Enqueue(dispatcher: nat)
    | EnqueueThrows(dispatcher: nat, error: string)
    | TakeTask
    | DeliverTask(worker: nat, now: int, outcome: Outcome)
    | Recover(worker: nat, error: string, outcome: Outcome)
    | Stop
    | WorkerExits

  // ----- the critical sections, on the tables -----

  function AddRecipients(t: Tables, messageId: int, recipients: seq<string>): Tables
    decreases |recipients|
  {
    if recipients == [] then t
    else
      var t1 := InsertActor(t, messageId, recipients[0], To, Some(DeliveryStatus.Queued));
      AddRecipients(t1, messageId, recipients[1..])
  }

  /** The transaction of StoreMessage. */
  function StoreMail(t: Tables, sender: string, recipients: seq<string>, body: string): Tables {
    var t1 := InsertMessage(t, None, body, MessageStatus.Queued);
    AddRecipients(InsertActor(t1, t1.lastMessageId, sender, From, None), t1.lastMessageId, recipients)
  }

  function TaskOf(t: Tables, id: int): Task
    requires id in t.actors
  {
    Task(id, t.actors[id].messageId, t.actors[id].email)
  }

  function TasksOf(t: Tables, ids: seq<int>): seq<Task>
    requires forall i :: 0 <= i < |ids| ==> ids[i] in t.actors
  {
    seq(|ids|, i requires 0 <= i < |ids| => TaskOf(t, ids[i]))
  }

  /** Queued to Sending, for the message of every claimed recipient. */
  function StartSending(t: Tables, tasks: seq<Task>): Tables
    decreases |tasks|
  {
    if tasks == [] then t
    else StartSending(Update(t, tasks[0].messageId, MessageStatus.Queued, Sending), tasks[1..])
  }

  ghost function ClaimSection(t: Tables, limit: int, now: int, tasks: seq<Task>): Tables {
    StartSending(Claim(t, limit, now), tasks)
  }

  const NOT_LOCAL := "Recipient is not an active local user"

  function Mark(t: Tables, task: Task, users: set<string>, now: int): Tables {
    if task.email in users then Deliver(t, task.id, now)
    else Terminate(t, task.id, DeliveryStatus.Failed, NOT_LOCAL)
  }

  function Fail(t: Tables, task: Task, error: string): Tables {
    Terminate(t, task.id, DeliveryStatus.Failed, error)
  }

  // ----- the steps -----

  function Remove<T>(s: seq<T>, i: nat): seq<T>
    requires i < |s|
  {
    s[..i] + s[i + 1..]
  }

  ghost predicate Enabled(c: Config, s: System, step: Step) {
    match step
    case Arrive(_, recipients, _) => recipients != []
    case ClaimBatch(d, limit, now, order) =>
      d < |s.batches| && s.batches[d] == [] && multiset(order) == multiset(Claimed(s.tables, limit, now))
      && (forall i :: 0 <= i < |order| ==> order[i] in s.tables.actors)
    case Enqueue(d) => d < |s.batches| && s.batches[d] != [] && !s.stopping
    case EnqueueThrows(d, _) => d < |s.batches| && s.batches[d] != []
    case TakeTask => s.queue != [] && |s.running| + s.exited < c.workers
    case DeliverTask(w, _, _) => w < |s.running| && s.running[w].Running?
    case Recover(w, _, _) => w < |s.running| && s.running[w].Recovering?
    case Stop => true
    case WorkerExits => s.stopping && s.queue == [] && |s.running| + s.exited < c.workers
  }

  ghost function Apply(c: Config, s: System, step: Step): System
    requires Enabled(c, s, step)
  {
    match step
    case Arrive(sender, recipients, body) => s.(tables := StoreMail(s.tables, sender, recipients, body))
    case ClaimBatch(d, limit, now, order) =>
      var tasks := TasksOf(s.tables, order);
      s.(tables := ClaimSection(s.tables, limit, now, tasks), batches := s.batches[d := tasks])
    case Enqueue(d) => s.(queue := s.queue + [s.batches[d][0]], batches := s.batches[d := s.batches[d][1..]])
    case EnqueueThrows(d, error) =>
      var task := s.batches[d][0];
      s.(tables := Finalize(Fail(s.tables, task, error), task.messageId), batches := s.batches[d := s.batches[d][1..]])
    case TakeTask => s.(queue := s.queue[1..], running := s.running + [Running(s.queue[0])])
    case DeliverTask(w, now, outcome) => AfterTry(c, s, w, now, outcome)
    case Recover(w, error, outcome) => AfterCatch(s, w, error, outcome)
    case Stop => s.(stopping := true)
    case WorkerExits => s.(exited := s.exited + 1)
  }

  /** The try block: look up the user, mark, finalize. */
  function AfterTry(c: Config, s: System, w: nat, now: int, outcome: Outcome): System
    requires w < |s.running|
  {
    var task := s.running[w].task;
    match outcome
    case Completes =>
      s.(tables := Finalize(Mark(s.tables, task, c.users, now), task.messageId), running := Remove(s.running, w))
    case ThrowsBeforeMark => s.(running := s.running[w := Recovering(task, false)])
    case ThrowsAfterMark =>
      s.(tables := Mark(s.tables, task, c.users, now), running := s.running[w := Recovering(task, true)])
  }

  /** The catch block: mark failed and finalize; a second exception is swallowed. */
  function AfterCatch(s: System, w: nat, error: string, outcome: Outcome): System
    requires w < |s.running| && s.running[w].Recovering?
  {
    var task := s.running[w].task;
    var done := s.(running := Remove(s.running, w));
    match outcome
    case Completes => done.(tables := Finalize(Fail(s.tables, task, error), task.messageId))
    case ThrowsBeforeMark =>
      if s.running[w].marked then done.(unsettled := s.unsettled + {task.messageId})
      else done.(stranded := s.stranded + multiset{task.id})
    case ThrowsAfterMark =>
      done.(tables := Fail(s.tables, task, error), unsettled := s.unsettled + {task.messageId})
  }

  ghost predicate IsRun(c: Config, s: System, steps: seq<Step>)
    decreases |steps|
  {
    steps == [] || (Enabled(c, s, steps[0]) && IsRun(c, Apply(c, s, steps[0]), steps[1..]))
  }

  ghost function Run(c: Config, s: System, steps: seq<Step>): System
    requires IsRun(c, s, steps)
    decreases |steps|
  {
    if steps == [] then s else Run(c, Apply(c, s, steps[0]), steps[1..])
  }

  lemma {:induction false} OneStepMore(c: Config, s: System, steps: seq<Step>, step: Step)
    requires IsRun(c, s, steps) && Enabled(c, Run(c, s, steps), step)
    ensures IsRun(c, s, steps + [step]) && Run(c, s, steps + [step]) == Apply(c, Run(c, s, steps), step)
    decreases |steps|
  {
    var all := steps + [step];
    hide Enabled, Apply;
    if steps == [] {
      assert all[0] == step && all[1..] == [];
      assert IsRun(c, Apply(c, s, step), all[1..]);
    } else {
      assert all[0] == steps[0] && all[1..] == steps[1..] + [step];
      OneStepMore(c, Apply(c, s, steps[0]), steps[1..], step);
    }
  }

  // ----- who holds a recipient -----

  function Ids(tasks: seq<Task>): multiset<int> {
    if tasks == [] then multiset{} else multiset{tasks[0].id} + Ids(tasks[1..])
  }

  function BatchIds(batches: seq<seq<Task>>): multiset<int> {
    if batches == [] then multiset{} else Ids(batches[0]) + BatchIds(batches[1..])
  }

  /** The id of a Deliver that has not marked its recipient yet. */
  function UnmarkedId(w: Work): multiset<int> {
    if w.Recovering? && w.marked then multiset{} else multiset{w.task.id}
  }

  function WorkIds(running: seq<Work>): multiset<int> {
    if running == [] then multiset{} else UnmarkedId(running[0]) + WorkIds(running[1..])
  }

  function Holders(s: System): multiset<int> {
    BatchIds(s.batches) + Ids(s.queue) + WorkIds(s.running) + s.stranded
  }

  function DeliveringRows(t: Tables): set<int> {
    set id | id in t.actors && HasStatus(t, id, Delivering)
  }

  /** Every row in Delivering is held in exactly one place, and nothing else is held. */
  ghost predicate HandoffExact(s: System) {
    Holders(s) == multiset(DeliveringRows(s.tables))
  }

  // ----- the bookkeeping of the holders -----

  lemma {:induction false} IdsOfConcat(a: seq<Task>, b: seq<Task>)
    ensures Ids(a + b) == Ids(a) + Ids(b)
  {
    if a == [] {
      assert a + b == b;
    } else {
      assert (a + b)[1..] == a[1..] + b;
      IdsOfConcat(a[1..], b);
    }
  }

  lemma Shuffle(h: multiset<int>, a: multiset<int>, x: multiset<int>, b: multiset<int>, y: multiset<int>)
    requires a + x == b + y
    ensures h + a + x == h + b + y
  {
    assert h + a + x == h + (a + x);
    assert h + b + y == h + (b + y);
  }

  lemma {:induction false} BatchIdsOfUpdate(batches: seq<seq<Task>>, d: nat, tasks: seq<Task>)
    requires d < |batches|
    ensures BatchIds(batches[d := tasks]) + Ids(batches[d]) == BatchIds(batches) + Ids(tasks)
  {
    var after := batches[d := tasks];
    if d == 0 {
      assert after[1..] == batches[1..];
    } else {
      assert after[1..] == batches[1..][d - 1 := tasks];
      BatchIdsOfUpdate(batches[1..], d - 1, tasks);
      var head := Ids(batches[0]);
      assert BatchIds(after) == head + BatchIds(after[1..]);
      assert BatchIds(batches) == head + BatchIds(batches[1..]);
      assert batches[1..][d - 1] == batches[d];
      Shuffle(head, BatchIds(after[1..]), Ids(batches[d]), BatchIds(batches[1..]), Ids(tasks));
    }
  }

  lemma {:induction false} WorkIdsOfConcat(a: seq<Work>, b: seq<Work>)
    ensures WorkIds(a + b) == WorkIds(a) + WorkIds(b)
  {
    if a == [] {
      assert a + b == b;
    } else {
      assert (a + b)[1..] == a[1..] + b;
      WorkIdsOfConcat(a[1..], b);
    }
  }

  lemma {:induction false} WorkIdsOfRemove(running: seq<Work>, w: nat)
    requires w < |running|
    ensures WorkIds(Remove(running, w)) + UnmarkedId(running[w]) == WorkIds(running)
  {
    var after := Remove(running, w);
    if w == 0 {
      assert after == running[1..];
    } else {
      assert after[1..] == Remove(running[1..], w - 1);
      assert after[0] == running[0] && running[1..][w - 1] == running[w];
      WorkIdsOfRemove(running[1..], w - 1);
    }
  }

  lemma WorkIdsOfUpdate(running: seq<Work>, w: nat, work: Work)
    requires w < |running|
    ensures WorkIds(running[w := work]) + UnmarkedId(running[w]) == WorkIds(running) + UnmarkedId(work)
  {
    var after := running[w := work];
    WorkIdsOfRemove(running, w);
    WorkIdsOfRemove(after, w);
    assert Remove(after, w) == Remove(running, w);
  }

  lemma {:induction false} IdsOfTasks(t: Tables, ids: seq<int>)
    requires forall i :: 0 <= i < |ids| ==> ids[i] in t.actors
    ensures Ids(TasksOf(t, ids)) == multiset(ids)
  {
    if ids != [] {
      assert TasksOf(t, ids)[1..] == TasksOf(t, ids[1..]);
      IdsOfTasks(t, ids[1..]);
      assert ids == [ids[0]] + ids[1..];
    }
  }
}
