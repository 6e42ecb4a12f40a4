/**
 The recipient that stays in Delivering for good: exactly the one for which neither attempt of Deliver could mark the
 row.
 */
module StrandedRecipient {
  import opened MailStorage
  import opened StoredMail
  import opened DeliverySystem
  import opened Handoff
  import opened DeliveryOutcome

  /** The catch block of Deliver throws before it has marked a row that the try block has not marked either. */
  predicate Strands(s: System, step: Step) {
    && step.Recover? && step.outcome.ThrowsBeforeMark?
    && step.worker < |s.running| && s.running[step.worker].Recovering? && !s.running[step.worker].marked
  }

  function LostBy(s: System, step: Step): multiset<int> {
    if Strands(s, step) then multiset{s.running[step.worker].task.id} else multiset{}
  }

  /** The recipients for which that happens in a run. */
  ghost function Lost(c: Config, s: System, steps: seq<Step>): multiset<int>
    requires IsRun(c, s, steps)
    decreases |steps|
  {
    if steps == [] then multiset{} else LostBy(s, steps[0]) + Lost(c, Apply(c, s, steps[0]), steps[1..])
  }

  lemma StepStrands(c: Config, s: System, step: Step)
    requires Enabled(c, s, step)
    ensures Apply(c, s, step).stranded == s.stranded + LostBy(s, step)
  {
    hide ClaimSection, StoreMail, Finalize, Fail, Mark, TasksOf, Remove;
  }

  lemma {:induction false} StrandedAreLost(c: Config, s: System, steps: seq<Step>)
    requires IsRun(c, s, steps)
    ensures Run(c, s, steps).stranded == s.stranded + Lost(c, s, steps)
    decreases |steps|
  {
    if steps != [] {
      StepStrands(c, s, steps[0]);
      hide Enabled, Apply, LostBy;
      StrandedAreLost(c, Apply(c, s, steps[0]), steps[1..]);
    }
  }

  lemma HeldNowhereElse(s: System, id: int)
    requires HandoffExact(s) && s.queue == [] && s.running == []
    requires forall d :: 0 <= d < |s.batches| ==> s.batches[d] == []
    ensures HasStatus(s.tables, id, Delivering) <==> id in s.stranded
  {
    EmptyBatches(s.batches);
    NoTasks();
    hide BatchIds, Ids, WorkIds;
    assert Holders(s) == s.stranded;
    assert id in multiset(DeliveringRows(s.tables)) <==> HasStatus(s.tables, id, Delivering);
  }

  /**
   When no Poll, no queue and no worker holds anything any more, a recipient is left in Delivering if and only if some
   catch block threw for it before the row was marked. So none is, in a run in which no catch block does that.
   */
  lemma DeliveringIffLost(c: Config, s0: System, steps: seq<Step>, id: int)
    requires Fresh(s0) && IsRun(c, s0, steps)
    requires var s := Run(c, s0, steps);
      s.queue == [] && s.running == [] && forall d :: 0 <= d < |s.batches| ==> s.batches[d] == []
    ensures HasStatus(Run(c, s0, steps).tables, id, Delivering) <==> id in Lost(c, s0, steps)
  {
    FreshHolds(s0);
    assert s0.stranded == multiset{} && HandoffInv(s0);
    hide Fresh, IsRun, Run, HandoffExact, MarkedIsTerminal, WellFormed, Lost;
    HandoffInEveryRun(c, s0, steps);
    StrandedAreLost(c, s0, steps);
    HeldNowhereElse(Run(c, s0, steps), id);
  }

  /** And it stays: no run takes it out of Delivering again. */
  lemma StrandedForGood(c: Config, s: System, steps: seq<Step>, id: int)
    requires HandoffInv(s) && IsRun(c, s, steps) && id in s.stranded
    ensures HasStatus(Run(c, s, steps).tables, id, Delivering)
  {
    HandoffInEveryRun(c, s, steps);
    StrandedAreLost(c, s, steps);
    var s' := Run(c, s, steps);
    hide IsRun, Run, MarkedIsTerminal, WellFormed, Lost, BatchIds, Ids, WorkIds;
    assert id in Holders(s');
    assert id in multiset(DeliveringRows(s'.tables));
  }

  // ----- the run -----

  /** Claimed, handed over, taken, and then both attempts to mark the row throw. */
  function StrandingSteps(d: nat, limit: int, now: int, id: int, error: string): seq<Step> {
    [ClaimBatch(d, limit, now, [id]), Enqueue(d), TakeTask, DeliverTask(0, now, ThrowsBeforeMark),
     Recover(0, error, ThrowsBeforeMark)]
  }

  lemma FiveSteps(c: Config, s: System, steps: seq<Step>, s1: System, s2: System, s3: System, s4: System, s5: System)
    requires |steps| == 5
    requires Enabled(c, s, steps[0]) && Apply(c, s, steps[0]) == s1
    requires Enabled(c, s1, steps[1]) && Apply(c, s1, steps[1]) == s2
    requires Enabled(c, s2, steps[2]) && Apply(c, s2, steps[2]) == s3
    requires Enabled(c, s3, steps[3]) && Apply(c, s3, steps[3]) == s4
    requires Enabled(c, s4, steps[4]) && Apply(c, s4, steps[4]) == s5
    ensures IsRun(c, s, steps) && Run(c, s, steps) == s5
  {
    hide Enabled, Apply;
    assert steps[..0] == [] && steps[..5] == steps;
    assert steps[..1] == steps[..0] + [steps[0]] && steps[..2] == steps[..1] + [steps[1]];
    assert steps[..3] == steps[..2] + [steps[2]] && steps[..4] == steps[..3] + [steps[3]];
    assert steps[..5] == steps[..4] + [steps[4]];
    assert IsRun(c, s, []) && Run(c, s, []) == s;
    hide IsRun, Run;
    OneStepMore(c, s, steps[..0], steps[0]);
    OneStepMore(c, s, steps[..1], steps[1]);
    OneStepMore(c, s, steps[..2], steps[2]);
    OneStepMore(c, s, steps[..3], steps[3]);
    OneStepMore(c, s, steps[..4], steps[4]);
  }

  /** A batch of one, claimed and handed over. */
  lemma HandedOver(c: Config, s: System, d: nat, limit: int, now: int, id: int)
    requires d < |s.batches| && s.batches[d] == [] && !s.stopping && s.queue == []
    requires Claimed(s.tables, limit, now) == [id] && id in s.tables.actors
    ensures var task := TaskOf(s.tables, id);
      var t1 := ClaimSection(s.tables, limit, now, [task]);
      var s1 := s.(tables := t1, batches := s.batches[d := [task]]);
      && HasStatus(t1, id, Delivering)
      && Enabled(c, s, ClaimBatch(d, limit, now, [id])) && Apply(c, s, ClaimBatch(d, limit, now, [id])) == s1
      && Enabled(c, s1, Enqueue(d)) && Apply(c, s1, Enqueue(d)) == s.(tables := t1, queue := [task])
  {
    var task := TaskOf(s.tables, id);
    assert TasksOf(s.tables, [id]) == [task];
    assert [task][1..] == [] && s.batches[d := [task]][d := []] == s.batches;
    ClaimDeliveringRows(s.tables, limit, now, [task]);
    assert [id][0] == id;
    assert id in DeliveringRows(ClaimSection(s.tables, limit, now, [task]));
    hide ClaimSection, Claimed;
  }

  /** A task is taken, and neither attempt to mark its row gets through. */
  lemma NeverMarked(c: Config, s: System, task: Task, now: int, error: string)
    requires s.queue == [task] && s.running == [] && s.exited < c.workers
    ensures var s1 := s.(queue := [], running := [Running(task)]);
      var s2 := s1.(running := [Recovering(task, false)]);
      && Enabled(c, s, TakeTask) && Apply(c, s, TakeTask) == s1
      && Enabled(c, s1, DeliverTask(0, now, ThrowsBeforeMark))
      && Apply(c, s1, DeliverTask(0, now, ThrowsBeforeMark)) == s2
      && Enabled(c, s2, Recover(0, error, ThrowsBeforeMark))
      && Apply(c, s2, Recover(0, error, ThrowsBeforeMark))
         == s.(queue := [], stranded := s.stranded + multiset{task.id})
  {
    assert [task][1..] == [] && Remove([Recovering(task, false)], 0) == [];
  }

  /** From every state in which one recipient can be claimed and a worker is free. */
  lemma StrandingRun(c: Config, s: System, d: nat, limit: int, now: int, id: int, error: string)
    requires d < |s.batches| && s.batches[d] == [] && !s.stopping && s.queue == [] && s.running == []
    requires s.exited < c.workers && Claimed(s.tables, limit, now) == [id] && id in s.tables.actors
    ensures var steps := StrandingSteps(d, limit, now, id, error);
      && IsRun(c, s, steps)
      && var end := Run(c, s, steps);
      && end.queue == [] && end.running == [] && end.batches == s.batches
      && HasStatus(end.tables, id, Delivering) && end.stranded == s.stranded + multiset{id}
  {
    var task := TaskOf(s.tables, id);
    var t1 := ClaimSection(s.tables, limit, now, [task]);
    var s1, s2 := s.(tables := t1, batches := s.batches[d := [task]]), s.(tables := t1, queue := [task]);
    var s3 := s2.(queue := [], running := [Running(task)]);
    var s4 := s3.(running := [Recovering(task, false)]);
    hide Claimed, ClaimSection, Enabled, Apply, IsRun, Run, HasStatus;
    HandedOver(c, s, d, limit, now, id);
    NeverMarked(c, s2, task, now, error);
    FiveSteps(c, s, StrandingSteps(d, limit, now, id, error), s1, s2, s3, s4,
              s2.(queue := [], stranded := s.stranded + multiset{id}));
  }

  /** Such as the state after one mail for one recipient has arrived. */
  lemma OneMailClaimed(sender: string, recipient: string, body: string, now: int)
    ensures var t := StoreMail(EmptyTables, sender, [recipient], body);
      2 in t.actors && Claimed(t, 1, now) == [2]
  {
    var t := StoreMail(EmptyTables, sender, [recipient], body);
    StoreMailExact(EmptyTables, sender, [recipient], body);
    assert NewRows(1, sender, [recipient]) == [FromRow(1, sender), ToRow(1, recipient)];
    hide StoreMail;
    assert Ready(t, now) == {2};
    TakeIsPrefix(t, Ready(t, now), 1);
  }
}
