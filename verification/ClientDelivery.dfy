/** From a mail client's Send to the last recipient: what becomes of the mail in every complete fault-free run. */
module ClientDelivery {
  import opened Wrappers
  import opened MailStorage
  import opened DeliverySystem
  import opened Handoff
  import opened DeliverySummary
  import opened DeliveryOutcome
  import opened StoredMail
  import opened SmtpSession
  import opened MailText
  import opened ClientServer
  import opened RoundTrip
  import C = SmtpClient

  // ----- rows and texts outlive the run -----

  /** Nothing goes away, no text changes, and a new row belongs to a new message. */
  ghost predicate Extends(t: Tables, t': Tables) {
    && WellFormed(t') && RowsKept(t, t')
    && (forall m :: m in t.messages ==> m in t'.messages && t'.messages[m].body == t.messages[m].body)
    && (forall id :: id in t'.actors && id !in t.actors ==> t'.actors[id].messageId !in t.messages)
  }

  lemma ExtendsOn(t: Tables, t1: Tables, t2: Tables)
    requires Extends(t, t1) && Extends(t1, t2)
    ensures Extends(t, t2)
  {}

  /** The same messages with the same texts. */
  ghost predicate SameTexts(t: Tables, t': Tables) {
    t'.messages.Keys == t.messages.Keys && forall m :: m in t.messages ==> t'.messages[m].body == t.messages[m].body
  }

  lemma {:induction false} StartSendingTexts(t: Tables, tasks: seq<Task>)
    ensures SameTexts(t, StartSending(t, tasks))
    decreases |tasks|
  {
    if tasks != [] {
      StartSendingTexts(Update(t, tasks[0].messageId, MessageStatus.Queued, Sending), tasks[1..]);
    }
  }

  lemma SectionTexts(t: Tables, t1: Tables, m: int)
    requires t1.messages == t.messages
    ensures SameTexts(t, Finalize(t1, m))
  {}

  lemma MarkTexts(t: Tables, task: Task, users: set<string>, now: int, error: string)
    ensures Mark(t, task, users, now).messages == t.messages && Fail(t, task, error).messages == t.messages
  {}

  lemma StepTexts(c: Config, s: System, step: Step)
    requires Enabled(c, s, step) && !step.Arrive?
    ensures SameTexts(s.tables, Apply(c, s, step).tables)
  {
    var t := s.tables;
    assert SameTexts(t, t);
    hide SameTexts, Mark, Fail, Finalize, TasksOf, Remove, Claimed;
    match step
    case ClaimBatch(d, limit, now, order) => ClaimTexts(t, limit, now, TasksOf(t, order));
    case EnqueueThrows(d, error) =>
      MarkTexts(t, s.batches[d][0], {}, 0, error);
      SectionTexts(t, Fail(t, s.batches[d][0], error), s.batches[d][0].messageId);
    case DeliverTask(w, now, outcome) =>
      MarkTexts(t, s.running[w].task, c.users, now, "");
      SameMessages(t, Mark(t, s.running[w].task, c.users, now));
      SectionTexts(t, Mark(t, s.running[w].task, c.users, now), s.running[w].task.messageId);
    case Recover(w, error, outcome) =>
      MarkTexts(t, s.running[w].task, c.users, 0, error);
      SameMessages(t, Fail(t, s.running[w].task, error));
      SectionTexts(t, Fail(t, s.running[w].task, error), s.running[w].task.messageId);
    case _ =>
  }

  lemma SameMessages(t: Tables, t': Tables)
    requires t'.messages == t.messages
    ensures SameTexts(t, t')
  {}

  lemma ClaimTexts(t: Tables, limit: int, now: int, tasks: seq<Task>)
    ensures SameTexts(t, StartSending(Claim(t, limit, now), tasks))
  {
    StartSendingTexts(Claim(t, limit, now), tasks);
    hide StartSending, Claimed;
  }

  lemma StepExtends(c: Config, s: System, step: Step)
    requires WellFormed(s.tables) && Enabled(c, s, step)
    ensures Extends(s.tables, Apply(c, s, step).tables)
  {
    var t, t' := s.tables, Apply(c, s, step).tables;
    StepKeepsRows(c, s, step);
    if step.Arrive? {
      StoreMailRows(t, step.sender, step.recipients, step.body);
      hide StoreMail, WellFormed, RowsKept;
    } else {
      StepTexts(c, s, step);
      StepKeepsMessages(c, s, step);
      hide Apply, Enabled, WellFormed, RowsKept;
    }
  }

  lemma {:induction false} RunExtends(c: Config, s: System, steps: seq<Step>)
    requires WellFormed(s.tables) && IsRun(c, s, steps)
    ensures Extends(s.tables, Run(c, s, steps).tables)
    decreases |steps|
  {
    if steps != [] {
      var s1 := Apply(c, s, steps[0]);
      StepExtends(c, s, steps[0]);
      assert WellFormed(s1.tables);
      hide Extends, WellFormed, Apply, Enabled;
      RunExtends(c, s1, steps[1..]);
      ExtendsOn(s.tables, s1.tables, Run(c, s1, steps[1..]).tables);
    }
  }

  // ----- one mail -----

  predicate IsSenderOf(t: Tables, id: int, messageId: int) {
    id in t.actors && t.actors[id].kind == From && t.actors[id].messageId == messageId
  }

  /**
   Message m holds the text; its recipients are the rows from first on, one for each address, in order, and the row
   before them is the sender.
   */
  ghost predicate HoldsMail(t: Tables, m: int, first: int, sender: string, recipients: seq<string>, text: string) {
    && m in t.messages && t.messages[m].body == text
    && (forall id :: IsRecipientOf(t, id, m) <==> first <= id < first + |recipients|)
    && (forall id :: IsRecipientOf(t, id, m) ==> t.actors[id].email == recipients[id - first])
    && (forall id :: IsSenderOf(t, id, m) <==> id == first - 1)
    && (forall id :: IsSenderOf(t, id, m) ==> t.actors[id].email == sender)
  }

  lemma ArrivedMail(t: Tables, sender: string, recipients: seq<string>, text: string)
    requires WellFormed(t)
    ensures var t' := StoreMail(t, sender, recipients, text);
      HoldsMail(t', t.lastMessageId + 1, t.lastActorId + 2, sender, recipients, text)
  {
    StoreMailExact(t, sender, recipients, text);
    var t', m := StoreMail(t, sender, recipients, text), t.lastMessageId + 1;
    hide StoreMail;
    AppendedMail(t, t', m, sender, recipients);
  }

  lemma AppendedMail(t: Tables, t': Tables, m: int, sender: string, recipients: seq<string>)
    requires WellFormed(t) && m !in t.messages
    requires Appended(t.actors, t'.actors, t.lastActorId + 1, NewRows(m, sender, recipients))
    ensures forall id :: IsRecipientOf(t', id, m) <==> t.lastActorId + 2 <= id < t.lastActorId + 2 + |recipients|
    ensures forall id :: IsRecipientOf(t', id, m) ==> t'.actors[id].email == recipients[id - (t.lastActorId + 2)]
    ensures forall id :: IsSenderOf(t', id, m) <==> id == t.lastActorId + 1
    ensures forall id :: IsSenderOf(t', id, m) ==> t'.actors[id].email == sender
  {
    assert NewRows(m, sender, recipients)[0] == FromRow(m, sender);
  }

  lemma MailStays(t: Tables, t': Tables, m: int, first: int, sender: string, recipients: seq<string>, text: string)
    requires Extends(t, t') && HoldsMail(t, m, first, sender, recipients, text)
    ensures HoldsMail(t', m, first, sender, recipients, text)
  {
    hide WellFormed;
    forall id: int
      ensures IsRecipientOf(t', id, m) <==> IsRecipientOf(t, id, m)
      ensures IsSenderOf(t', id, m) <==> IsSenderOf(t, id, m)
      ensures IsRecipientOf(t, id, m) || IsSenderOf(t, id, m) ==> t'.actors[id].email == t.actors[id].email
    {
      assert id in t'.actors && id !in t.actors ==> t'.actors[id].messageId !in t.messages;
      assert id in t.actors ==> id in t'.actors && t'.actors[id].messageId == t.actors[id].messageId;
    }
  }

  predicate SomeListed(c: Config, recipients: seq<string>) {
    exists i :: 0 <= i < |recipients| && recipients[i] in c.users
  }

  /** Delivered to an active user, Failed for any other address. */
  predicate IsSettled(c: Config, t: Tables, id: int, email: string) {
    id in t.actors && t.actors[id].email == email && t.actors[id].delivery == Some(Expected(c, email))
  }

  /** Every recipient has its final status, and the message the one that sums them up. */
  ghost predicate Settled(c: Config, t: Tables, m: int, first: int, recipients: seq<string>) {
    && m in t.messages
    && (forall i :: 0 <= i < |recipients| ==> IsSettled(c, t, first + i, recipients[i]))
    && t.messages[m].status == if SomeListed(c, recipients) then Sent else MessageStatus.Failed
  }

  lemma RecipientSettled(c: Config, t: Tables, m: int, first: int, sender: string, recipients: seq<string>,
                         text: string, i: nat)
    requires Finished(c, t) && HoldsMail(t, m, first, sender, recipients, text) && i < |recipients|
    ensures IsRecipientOf(t, first + i, m) && IsSettled(c, t, first + i, recipients[i])
  {
    var id := first + i;
    assert IsRecipientOf(t, id, m) && t.actors[id].email == recipients[id - first];
  }

  lemma ActiveIsListed(c: Config, t: Tables, m: int, first: int, sender: string, recipients: seq<string>, text: string)
    requires Finished(c, t) && HoldsMail(t, m, first, sender, recipients, text)
    ensures SomeActive(c, t, m) <==> SomeListed(c, recipients)
  {
    if SomeActive(c, t, m) {
      var id :| id in t.actors && IsRecipientOf(t, id, m) && t.actors[id].email in c.users;
      assert recipients[id - first] in c.users;
    }
    if SomeListed(c, recipients) {
      var i :| 0 <= i < |recipients| && recipients[i] in c.users;
      RecipientSettled(c, t, m, first, sender, recipients, text, i);
    }
  }

  lemma FinishedMail(c: Config, t: Tables, m: int, first: int, sender: string, recipients: seq<string>, text: string)
    requires Finished(c, t) && HoldsMail(t, m, first, sender, recipients, text)
    ensures Settled(c, t, m, first, recipients)
  {
    assert m in t.messages;
    assert t.messages[m].status == if SomeActive(c, t, m) then Sent else MessageStatus.Failed;
    ActiveIsListed(c, t, m, first, sender, recipients, text);
    hide Finished, HoldsMail, SomeActive, SomeListed, IsSettled;
    forall i | 0 <= i < |recipients|
      ensures IsSettled(c, t, first + i, recipients[i])
    {
      RecipientSettled(c, t, m, first, sender, recipients, text, i);
    }
  }

  /**
   A mail that arrives in the middle of any fault-free run, whatever else is under way then and arrives later: when
   the run is complete, exactly the active recipients are Delivered, the others Failed, and the message is Sent if
   and only if there is an active one. Its text is what arrived.
   */
  lemma ArrivalIsSettled(c: Config, s0: System, before: seq<Step>, mail: Step, after: seq<Step>)
    requires Fresh(s0) && IsRun(c, s0, before) && AllFaultFree(before) && AllFaultFree(after)
    requires mail.Arrive? && mail.recipients != []
    requires Enabled(c, Run(c, s0, before), mail) && IsRun(c, Apply(c, Run(c, s0, before), mail), after)
    requires Quiescent(Run(c, Apply(c, Run(c, s0, before), mail), after))
    ensures var t := Run(c, s0, before).tables;
      var end := Run(c, Apply(c, Run(c, s0, before), mail), after).tables;
      && Settled(c, end, t.lastMessageId + 1, t.lastActorId + 2, mail.recipients)
      && HoldsMail(end, t.lastMessageId + 1, t.lastActorId + 2, mail.sender, mail.recipients, mail.body)
  {
    hide *;
    var s1 := Run(c, s0, before);
    FreshIsClean(c, s0);
    CleanInEveryRun(c, s0, before);
    CleanIsWellFormed(c, s1);
    ArriveIs(c, s1, mail);
    StepClean(c, s1, mail);
    var s2 := Apply(c, s1, mail);
    CleanIsWellFormed(c, s2);
    ArrivedMail(s1.tables, mail.sender, mail.recipients, mail.body);
    CleanInEveryRun(c, s2, after);
    RunExtends(c, s2, after);
    var end := Run(c, s2, after);
    QuiescentIsFinished(c, end);
    var m, first := s1.tables.lastMessageId + 1, s1.tables.lastActorId + 2;
    MailStays(s2.tables, end.tables, m, first, mail.sender, mail.recipients, mail.body);
    FinishedMail(c, end.tables, m, first, mail.sender, mail.recipients, mail.body);
  }

  lemma FreshIsClean(c: Config, s: System)
    requires Fresh(s)
    ensures CleanInv(c, s)
  {
    FreshHolds(s);
    hide SummaryInv;
  }

  lemma CleanIsWellFormed(c: Config, s: System)
    requires CleanInv(c, s)
    ensures WellFormed(s.tables)
  {}

  lemma ArriveIs(c: Config, s: System, mail: Step)
    requires mail.Arrive? && Enabled(c, s, mail)
    ensures FaultFree(mail)
    ensures Apply(c, s, mail).tables == StoreMail(s.tables, mail.sender, mail.recipients, mail.body)
  {}

  // ----- the client's mail -----

  /** The step that the dialogue of one mail makes of the delivery system. */
  function Stores(mail: C.Mail, text: string): Step {
    Arrive(mail.sender, mail.recipients, text)
  }

  /**
   The whole way of a mail: the client sends it while the queue is in any fault-free run, SendMailMessage succeeds,
   and the tables make the step Arrive. When any fault-free continuation is complete, the recipients that are
   active users have it Delivered, the others have failed, and what is stored for them shows the body and the
   subject that were written.
   */
  lemma MailIsDelivered(config: ServerConfig, users: map<string, string>, mail: C.Mail, lines: seq<string>,
                        c: Config, s0: System, before: seq<Step>, after: seq<Step>)
    requires !config.requireAuthentication && IsClientMail(mail) && IsClientText(config, mail, lines) && IsBody(lines)
    requires Fresh(s0) && IsRun(c, s0, before) && AllFaultFree(before) && AllFaultFree(after)
    ensures var s1 := Run(c, s0, before);
      var r := C.SendMail(Respond, Connect(config, users, s1.tables), mail);
      && r.0 == C.SUCCESS
      && exists text ::
        && StripMessageHeaders(text) == NormalizeLineEndings(mail.body)
        && DisplaySubject("", text) == (if mail.subject == "" then NO_SUBJECT else mail.subject)
        && Enabled(c, s1, Stores(mail, text))
        && Apply(c, s1, Stores(mail, text)) == s1.(tables := r.1.server.tables)
        && (IsRun(c, s1.(tables := r.1.server.tables), after)
            && Quiescent(Run(c, s1.(tables := r.1.server.tables), after)) ==>
              var end := Run(c, s1.(tables := r.1.server.tables), after).tables;
              var m := s1.tables.lastMessageId + 1;
              && Settled(c, end, m, s1.tables.lastActorId + 2, mail.recipients)
              && HoldsMail(end, m, s1.tables.lastActorId + 2, mail.sender, mail.recipients, text))
  {
    var s1 := Run(c, s0, before);
    assert mail.recipients != [];
    hide *;
    MailRoundTrip(config, users, s1.tables, mail, lines);
    var r := C.SendMail(Respond, Connect(config, users, s1.tables), mail);
    var text :|
      && r.1.server.tables == StoreMail(s1.tables, mail.sender, mail.recipients, text)
      && StripMessageHeaders(text) == NormalizeLineEndings(mail.body)
      && DisplaySubject("", text) == if mail.subject == "" then NO_SUBJECT else mail.subject;
    StoresIsStep(c, s1, mail, text);
    var s2 := s1.(tables := r.1.server.tables);
    if IsRun(c, s2, after) && Quiescent(Run(c, s2, after)) {
      ArrivalIsSettled(c, s0, before, Stores(mail, text), after);
    }
  }

  lemma StoresIsStep(c: Config, s: System, mail: C.Mail, text: string)
    requires mail.recipients != []
    ensures Enabled(c, s, Stores(mail, text))
    ensures Apply(c, s, Stores(mail, text)) == s.(tables := StoreMail(s.tables, mail.sender, mail.recipients, text))
    ensures var step := Stores(mail, text);
      step.Arrive? && step.sender == mail.sender && step.recipients == mail.recipients && step.body == text
  {}
}
