/**
 What becomes of a mail in the whole program: a message in the tables is the one that the dialogue of some connection
 shows, a mail that was accepted stays, and at the end of a run without failures it is delivered.
 */
module AcceptedMail {
  import opened MailStorage
  import opened SessionInvariant
  import opened SessionDialogue
  import opened ClientDelivery
  import opened WholeProgram
  import opened ConnectionRun
  import S = ServerSystem
  import D = DeliverySystem
  import Handoff
  import Summary = DeliverySummary
  import Outcome = DeliveryOutcome

  // ----- every stored mail has its dialogue, and every mail that was accepted is stored -----

  /** Message m, with recipients from row first on, is the mail of the view. */
  ghost predicate HoldsView(t: Tables, m: int, first: int, v: View) {
    IsMail(v) && HoldsMail(t, m, first, v.sender.value, v.recipients, v.body.value)
  }

  lemma ViewStays(t: Tables, t': Tables, m: int, first: int, v: View)
    requires HoldsView(t, m, first, v) && Extends(t, t')
    ensures HoldsView(t', m, first, v)
  {
    hide HoldsMail, Extends;
    MailStays(t, t', m, first, v.sender.value, v.recipients, v.body.value);
  }

  lemma ViewArrives(t: Tables, v: View, t': Tables)
    requires WellFormed(t) && IsMail(v) && t' == D.StoreMail(t, v.sender.value, v.recipients, v.body.value)
    ensures HoldsView(t', t.lastMessageId + 1, t.lastActorId + 2, v)
  {
    hide HoldsMail, WellFormed, D.StoreMail;
    ArrivedMail(t, v.sender.value, v.recipients, v.body.value);
  }

  /** The mail with this number is the one that the turn stores: as the dialogue of its connection shows it. */
  ghost predicate ComesFrom(g: Setting, p: Program, turn: Turn, t: Tables, m: int) {
    && StoresMail(g, p, turn) && turn.move.id in p.inputs && m == p.mail.tables.lastMessageId + 1
    && HoldsView(t, m, p.mail.tables.lastActorId + 2, Shown(g, p, turn))
  }

  /** It comes from turn i of the run. */
  ghost predicate ComesFromTurn(g: Setting, c: D.Config, p: Program, turns: seq<Turn>, i: nat, t: Tables, m: int)
    requires IsRun(g, c, p, turns)
  {
    i < |turns| && IsRun(g, c, p, turns[..i]) && ComesFrom(g, Run(g, c, p, turns[..i]), turns[i], t, m)
  }

  lemma MailWellFormed(g: Setting, p: Program)
    requires ProgramInv(g, p)
    ensures WellFormed(p.mail.tables) && SessionsFollow(g, p)
  {
    hide WellFormed, SessionsFollow, S.ServerInv;
  }

  lemma TablesAfter(g: Setting, c: D.Config, p: Program, turn: Turn)
    requires Enabled(g, c, p, turn) && StoresMail(g, p, turn)
    ensures turn.Serves? && turn.move.action.Processes? && S.HoldsTask(p.server, turn.move.id)
    ensures Apply(g, c, p, turn).mail.tables == Handles(g, p.server, turn.move).tables
  {
    hide Handles, S.Apply, Logged, S.Enabled, S.HoldsTask;
  }

  lemma StoringTurn(g: Setting, c: D.Config, p: Program, turn: Turn)
    requires ProgramInv(g, p) && Enabled(g, c, p, turn) && StoresMail(g, p, turn)
    ensures ComesFrom(g, p, turn, Apply(g, c, p, turn).mail.tables, p.mail.tables.lastMessageId + 1)
  {
    hide ProgramInv, SessionsFollow, Enabled, Apply, Handles, StoresMail, Shown, HoldsView, D.StoreMail, WellFormed,
         IsMail;
    MailWellFormed(g, p);
    TablesAfter(g, c, p, turn);
    StoredIsShown(g, c, p, turn.move);
    ViewArrives(p.mail.tables, Shown(g, p, turn), Apply(g, c, p, turn).mail.tables);
  }

  lemma TurnExtends(g: Setting, c: D.Config, p: Program, turn: Turn)
    requires ProgramInv(g, p) && Enabled(g, c, p, turn)
    ensures Extends(p.mail.tables, Apply(g, c, p, turn).mail.tables)
  {
    MailWellFormed(g, p);
    TurnIsStep(g, c, p, turn);
    ExtendsSelf(p.mail.tables);
    hide ProgramInv, SessionsFollow, Enabled, Apply, StepOf, D.Apply, D.Enabled, WellFormed, Extends;
    var step := StepOf(g, p, turn);
    if step.Some? {
      StepExtends(c, p.mail, step.value);
    }
  }

  lemma ExtendsSelf(t: Tables)
    requires WellFormed(t)
    ensures Extends(t, t)
  {}

  lemma NewMessage(g: Setting, c: D.Config, p: Program, turn: Turn, m: int)
    requires ProgramInv(g, p) && Enabled(g, c, p, turn)
    requires m in Apply(g, c, p, turn).mail.tables.messages && m !in p.mail.tables.messages
    ensures StoresMail(g, p, turn) && m == p.mail.tables.lastMessageId + 1
  {
    MailWellFormed(g, p);
    TurnIsStep(g, c, p, turn);
    hide ProgramInv, SessionsFollow, Enabled, Apply, StoresMail, Shown, WellFormed;
    var step := StepOf(g, p, turn);
    if turn.Delivers? {
      Summary.StepKeepsMessages(c, p.mail, turn.step);
      hide D.Apply, D.Enabled;
    } else if step.Some? {
      Handoff.StoreMailRows(p.mail.tables, step.value.sender, step.value.recipients, step.value.body);
      hide D.StoreMail;
    }
  }

  lemma StoresServes(g: Setting, p: Program, turn: Turn)
    requires StoresMail(g, p, turn)
    ensures turn.Serves? && turn.move.action.Processes? && S.HoldsTask(p.server, turn.move.id)
  {
    hide NoStore, Handles, S.HoldsTask;
  }

  lemma ComesFromIs(g: Setting, p: Program, turn: Turn, t: Tables, m: int)
    requires StoresMail(g, p, turn) && turn.Serves?
    ensures ComesFrom(g, p, turn, t, m) <==>
      && turn.move.id in p.inputs && m == p.mail.tables.lastMessageId + 1
      && HoldsView(t, m, p.mail.tables.lastActorId + 2, Shown(g, p, turn))
  {
    hide StoresMail, Shown, HoldsView;
  }

  lemma ComesFromStores(g: Setting, p: Program, turn: Turn, t: Tables, m: int)
    requires ComesFrom(g, p, turn, t, m)
    ensures StoresMail(g, p, turn)
  {
    hide StoresMail, Shown, HoldsView;
  }

  lemma ComesFromStill(g: Setting, p: Program, turn: Turn, t: Tables, t': Tables, m: int)
    requires ComesFrom(g, p, turn, t, m) && Extends(t, t')
    ensures ComesFrom(g, p, turn, t', m)
  {
    hide *;
    ComesFromStores(g, p, turn, t, m);
    StoresServes(g, p, turn);
    ComesFromIs(g, p, turn, t, m);
    ComesFromIs(g, p, turn, t', m);
    ViewStays(t, t', m, p.mail.tables.lastActorId + 2, Shown(g, p, turn));
  }

  lemma SameTurnLater(g: Setting, c: D.Config, p: Program, turns: seq<Turn>, i: nat, t: Tables, m: int)
    requires turns != [] && IsRun(g, c, p, turns) && i < |turns| - 1
    ensures turns[..|turns| - 1][..i] == turns[..i]
    ensures ComesFromTurn(g, c, p, turns[..|turns| - 1], i, t, m) <==> ComesFromTurn(g, c, p, turns, i, t, m)
  {
    assert turns[..|turns| - 1][..i] == turns[..i];
    hide ComesFrom, Run, Enabled;
  }

  /**
   In every run of the program, a message in the tables that was not there at the start is the mail which some
   connection's dialogue shows at the turn that stored it: its sender, its recipients in order, its text. Whatever
   happens afterwards.
   */
  lemma {:induction false} EveryMessageWasSaid(g: Setting, c: D.Config, p: Program, turns: seq<Turn>, m: int)
    requires ProgramInv(g, p) && IsRun(g, c, p, turns)
    requires m in Run(g, c, p, turns).mail.tables.messages && m !in p.mail.tables.messages
    ensures exists i: nat :: ComesFromTurn(g, c, p, turns, i, Run(g, c, p, turns).mail.tables, m)
    decreases |turns|
  {
    var n := |turns| - 1;
    var before, turn := Run(g, c, p, turns[..n]), turns[n];
    var t, t' := before.mail.tables, Run(g, c, p, turns).mail.tables;
    assert Enabled(g, c, before, turn) && t' == Apply(g, c, before, turn).mail.tables;
    assert IsRun(g, c, p, turns[..n]);
    hide ProgramInv, Enabled, Apply, Run, IsRun, Extends, ComesFrom;
    ProgramKept(g, c, p, turns[..n]);
    if m in t.messages {
      EveryMessageWasSaid(g, c, p, turns[..n], m);
      var i: nat :| ComesFromTurn(g, c, p, turns[..n], i, t, m);
      TurnExtends(g, c, before, turn);
      ComesFromStill(g, Run(g, c, p, turns[..n][..i]), turns[i], t, t', m);
      SameTurnLater(g, c, p, turns, i, t', m);
    } else {
      NewMessage(g, c, before, turn, m);
      StoringTurn(g, c, before, turn);
      assert ComesFromTurn(g, c, p, turns, n, t', m);
    }
  }

  lemma {:induction false} ComesFromForGood(g: Setting, c: D.Config, p: Program, turn: Turn, m: int, q: Program,
                                            after: seq<Turn>)
    requires ProgramInv(g, q) && IsRun(g, c, q, after) && ComesFrom(g, p, turn, q.mail.tables, m)
    ensures ComesFrom(g, p, turn, Run(g, c, q, after).mail.tables, m)
    decreases |after|
  {
    if after != [] {
      var n := |after| - 1;
      var before := Run(g, c, q, after[..n]);
      hide ProgramInv, Enabled, Apply, ComesFrom, Extends;
      ComesFromForGood(g, c, p, turn, m, q, after[..n]);
      ProgramKept(g, c, q, after[..n]);
      TurnExtends(g, c, before, after[n]);
      ComesFromStill(g, p, turn, before.mail.tables, Apply(g, c, before, after[n]).mail.tables, m);
    }
  }

  /** And the other way: a mail that was accepted with 250 is in the tables for good, as it was said. */
  lemma AcceptedMailStays(g: Setting, c: D.Config, p: Program, turn: Turn, after: seq<Turn>)
    requires ProgramInv(g, p) && Enabled(g, c, p, turn) && StoresMail(g, p, turn)
    requires IsRun(g, c, Apply(g, c, p, turn), after)
    ensures var end := Run(g, c, Apply(g, c, p, turn), after);
      ComesFrom(g, p, turn, end.mail.tables, p.mail.tables.lastMessageId + 1)
  {
    hide *;
    StoringTurn(g, c, p, turn);
    TurnKeeps(g, c, p, turn);
    ComesFromForGood(g, c, p, turn, p.mail.tables.lastMessageId + 1, Apply(g, c, p, turn), after);
  }

  // ----- delivered -----

  predicate FaultFree(turn: Turn) {
    turn.Delivers? ==> Outcome.FaultFree(turn.step)
  }

  ghost predicate CleanInv(g: Setting, c: D.Config, p: Program) {
    ProgramInv(g, p) && Outcome.CleanInv(c, p.mail)
  }

  lemma TurnClean(g: Setting, c: D.Config, p: Program, turn: Turn)
    requires CleanInv(g, c, p) && Enabled(g, c, p, turn) && FaultFree(turn)
    ensures CleanInv(g, c, Apply(g, c, p, turn))
  {
    hide ProgramInv, Outcome.CleanInv, SessionsFollow, Enabled, Apply, StoresMail, Shown, D.Apply, D.Enabled;
    TurnKeeps(g, c, p, turn);
    MailWellFormed(g, p);
    TurnIsStep(g, c, p, turn);
    var step := StepOf(g, p, turn);
    if step.Some? {
      Outcome.StepClean(c, p.mail, step.value);
    }
  }

  lemma {:induction false} CleanInEveryRun(g: Setting, c: D.Config, p: Program, turns: seq<Turn>)
    requires CleanInv(g, c, p) && IsRun(g, c, p, turns) && forall i :: 0 <= i < |turns| ==> FaultFree(turns[i])
    ensures CleanInv(g, c, Run(g, c, p, turns))
    decreases |turns|
  {
    if turns != [] {
      var n := |turns| - 1;
      hide CleanInv, Enabled, Apply, FaultFree;
      CleanInEveryRun(g, c, p, turns[..n]);
      TurnClean(g, c, Run(g, c, p, turns[..n]), turns[n]);
    }
  }

  lemma StartIsClean(g: Setting, c: D.Config, mail: D.System)
    requires Outcome.Fresh(mail)
    ensures CleanInv(g, c, Start(mail))
  {
    StartHolds(g, mail);
    FreshIsClean(c, mail);
    hide ProgramInv, Outcome.CleanInv, Outcome.Fresh;
  }

  /** What holds of a mail that the turn has stored, once everything is delivered. */
  ghost predicate IsDelivered(g: Setting, c: D.Config, p: Program, turn: Turn, end: Tables) {
    && turn.Serves? && turn.move.id in p.inputs
    && var v, m, first := Shown(g, p, turn), p.mail.tables.lastMessageId + 1, p.mail.tables.lastActorId + 2;
    HoldsView(end, m, first, v) && Settled(c, end, m, first, v.recipients)
  }

  lemma ViewSettled(c: D.Config, t: Tables, m: int, first: int, v: View)
    requires HoldsView(t, m, first, v) && Outcome.Finished(c, t)
    ensures Settled(c, t, m, first, v.recipients)
  {
    hide HoldsMail, Settled, Outcome.Finished;
    FinishedMail(c, t, m, first, v.sender.value, v.recipients, v.body.value);
  }

  lemma DeliveredIs(g: Setting, c: D.Config, p: Program, turn: Turn, end: Tables)
    requires turn.Serves? && turn.move.id in p.inputs
    ensures IsDelivered(g, c, p, turn, end) <==>
      && HoldsView(end, p.mail.tables.lastMessageId + 1, p.mail.tables.lastActorId + 2, Shown(g, p, turn))
      && Settled(c, end, p.mail.tables.lastMessageId + 1, p.mail.tables.lastActorId + 2, Shown(g, p, turn).recipients)
  {
    hide Shown, HoldsView, Settled;
  }

  lemma SettledView(g: Setting, c: D.Config, p: Program, turn: Turn, end: Tables)
    requires ComesFrom(g, p, turn, end, p.mail.tables.lastMessageId + 1) && Outcome.Finished(c, end)
    ensures IsDelivered(g, c, p, turn, end)
  {
    hide *;
    ComesFromStores(g, p, turn, end, p.mail.tables.lastMessageId + 1);
    StoresServes(g, p, turn);
    ComesFromIs(g, p, turn, end, p.mail.tables.lastMessageId + 1);
    DeliveredIs(g, c, p, turn, end);
    ViewSettled(c, end, p.mail.tables.lastMessageId + 1, p.mail.tables.lastActorId + 2, Shown(g, p, turn));
  }

  lemma CleanIsFinished(g: Setting, c: D.Config, p: Program)
    requires CleanInv(g, c, p) && Outcome.Quiescent(p.mail)
    ensures Outcome.Finished(c, p.mail.tables)
  {
    hide ProgramInv, Outcome.CleanInv, Outcome.Quiescent, Outcome.Finished;
    Outcome.QuiescentIsFinished(c, p.mail);
  }

  /**
   The whole promise, from dialogues to mailboxes. The program starts on a queue that nobody has begun to deliver and
   runs without a failing statement of the dispatcher or its workers; at some turn it accepts a mail with 250; and it
   is left alone until nothing is left to deliver. Then the mail is Delivered to exactly those of its recipients that
   are active users, has failed for the others, and is Sent if and only if there is an active one.
   */
  lemma AcceptedMailIsDelivered(g: Setting, c: D.Config, mail: D.System, before: seq<Turn>, turn: Turn,
                                after: seq<Turn>)
    requires Outcome.Fresh(mail) && IsRun(g, c, Start(mail), before)
    requires Enabled(g, c, Run(g, c, Start(mail), before), turn) && StoresMail(g, Run(g, c, Start(mail), before), turn)
    requires IsRun(g, c, Apply(g, c, Run(g, c, Start(mail), before), turn), after)
    requires forall i :: 0 <= i < |before| ==> FaultFree(before[i])
    requires forall i :: 0 <= i < |after| ==> FaultFree(after[i])
    requires Outcome.Quiescent(Run(g, c, Apply(g, c, Run(g, c, Start(mail), before), turn), after).mail)
    ensures var p := Run(g, c, Start(mail), before);
      IsDelivered(g, c, p, turn, Run(g, c, Apply(g, c, p, turn), after).mail.tables)
  {
    hide *;
    StartIsClean(g, c, mail);
    CleanInEveryRun(g, c, Start(mail), before);
    StoredIsDelivered(g, c, Run(g, c, Start(mail), before), turn, after);
  }

  lemma CleanHolds(g: Setting, c: D.Config, p: Program)
    requires CleanInv(g, c, p)
    ensures ProgramInv(g, p)
  {
    hide ProgramInv, Outcome.CleanInv;
  }

  lemma StoresFaultFree(g: Setting, p: Program, turn: Turn)
    requires StoresMail(g, p, turn)
    ensures FaultFree(turn)
  {
    StoresServes(g, p, turn);
    hide StoresMail;
  }

  lemma StoredIsDelivered(g: Setting, c: D.Config, p: Program, turn: Turn, after: seq<Turn>)
    requires CleanInv(g, c, p) && Enabled(g, c, p, turn) && StoresMail(g, p, turn)
    requires IsRun(g, c, Apply(g, c, p, turn), after) && forall i :: 0 <= i < |after| ==> FaultFree(after[i])
    requires Outcome.Quiescent(Run(g, c, Apply(g, c, p, turn), after).mail)
    ensures IsDelivered(g, c, p, turn, Run(g, c, Apply(g, c, p, turn), after).mail.tables)
  {
    hide *;
    CleanHolds(g, c, p);
    StoresFaultFree(g, p, turn);
    TurnClean(g, c, p, turn);
    CleanInEveryRun(g, c, Apply(g, c, p, turn), after);
    CleanIsFinished(g, c, Run(g, c, Apply(g, c, p, turn), after));
    AcceptedMailStays(g, c, p, turn, after);
    SettledView(g, c, p, turn, Run(g, c, Apply(g, c, p, turn), after).mail.tables);
  }
}
