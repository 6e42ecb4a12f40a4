/**
 A stored message against the dialogue that led to it. The dialogue is what both ends of the connection can
 see: the events and the replies. From it alone one can read who the message is from, who it is for and
 what its text is; the session never stores anything else.
 */
module SessionDialogue {
  import opened Wrappers
  import opened Text
  import opened Base64
  import opened MailStorage
  import opened DeliverySystem
  import opened SmtpSession
  import opened SessionInvariant

  datatype Exchange = Exchange(event: Event, effects: seq<Effect>)

  function Dialogue(config: ServerConfig, users: map<string, string>, s: Session, inputs: seq<Input>): seq<Exchange>
    decreases |inputs|
  {
    if inputs == [] then []
    else
      [Exchange(inputs[0].event, Effects(config, users, s, inputs[0]))]
      + Dialogue(config, users, Next(config, users, s, inputs[0]), inputs[1..])
  }

  function Effects(config: ServerConfig, users: map<string, string>, s: Session, input: Input): seq<Effect> {
    Handle(config, users, input.tables, s, input.event, input.fails).effects
  }

  /** What an exchange means for the mail under way, read off the command word and the reply code. */
  datatype Role =
    | OpensMail(sender: string)
    | AddsRecipient(recipient: string)
    | OpensData
    | Unanswered(line: string)
    | Clears
    | Interrupts
    | Neutral

  function LineRole(line: string, effects: seq<Effect>): Role {
    if effects == [] then Unanswered(line)
    else if effects[0].Stored? then Clears
    else if !effects[0].Reply? then Neutral
    else if effects[0].code == 552 then Clears
    else CommandRole(VerbOf(Command(line)), Argument(line), effects[0].code)
  }

  function CommandRole(verb: Verb, argument: string, code: nat): Role {
    match verb
    case Mail => if code == 250 then OpensMail(ExtractPath(argument)) else Neutral
    case Rcpt => if code == 250 then AddsRecipient(ExtractPath(argument)) else Neutral
    case Data => if code == 354 then OpensData else Neutral
    case Rset => if code == 250 then Clears else Neutral
    case StartTls => if code == 220 then Clears else Neutral
    case _ => Neutral
  }

  function RoleOf(x: Exchange): Role {
    match x.event
    case MessageReceived(payload) => LineRole(Trimmed(payload), x.effects)
    case Connected => Interrupts
    case TlsFailed => Interrupts
    case TlsSucceeded => Clears
    case Disconnected => Clears
  }

  /** The mail under way: the sender if MAIL was accepted, the recipients since, the text if DATA was. */
  datatype View = View(sender: Option<string>, recipients: seq<string>, body: Option<string>)

  const NothingUnderWay := View(None, [], None)

  function Advance(v: View, role: Role): View {
    match role
    case OpensMail(sender) => View(Some(sender), [], None)
    case AddsRecipient(recipient) => v.(recipients := v.recipients + [recipient], body := None)
    case OpensData => v.(body := Some(""))
    case Unanswered(line) =>
      if v.body.None? || line == "." then v else v.(body := Some(v.body.value + Unstuffed(line) + CRLF))
    case Clears => NothingUnderWay
    case Interrupts => v.(body := None)
    case Neutral => v
  }

  function ViewOf(h: seq<Exchange>): View {
    if h == [] then NothingUnderWay else Advance(ViewOf(h[..|h| - 1]), RoleOf(h[|h| - 1]))
  }

  // ----- the session's fields are that view -----

  function Fields(s: Session): View {
    View(if s.sender == "" then None else Some(s.sender), s.recipients,
         if s.phase == ReceivingMessage then Some(s.buffer) else None)
  }

  lemma DataLineAdvances(config: ServerConfig, t: Tables, s: Session, line: string, fails: bool)
    requires SessionInv(config, s) && s.phase == ReceivingMessage
    ensures var h := OnDataLine(config, t, s, line, fails);
      Fields(h.session) == Advance(Fields(s), LineRole(line, h.effects))
  {
    hide StoreMail, Decimal, Unstuffed, CommandRole, VerbOf, Command, Argument;
  }

  /** The replies of the AUTH dialogue are none of those that open or clear a mail. */
  predicate Bystander(s: Session, r: (Session, seq<Effect>)) {
    && |r.1| == 1 && r.1[0].Reply? && r.1[0].code in {501, 334, 235, 535, 503, 538, 504}
    && Fields(r.0) == Fields(s)
  }

  lemma AuthDoneStandsBy(s: Session, result: AuthResult)
    ensures Bystander(s, AuthDone(s, result))
  {}

  lemma PlainStandsBy(users: map<string, string>, s: Session, line: string)
    ensures Bystander(s, OnPlainResponse(users, s, line))
  {
    var c := ParsePlainAuth(line);
    if c.Some? {
      AuthDoneStandsBy(s, Authenticate(users, c.value.username, c.value.secret));
    }
    hide ParsePlainAuth, Authenticate, AuthDone;
  }

  lemma LoginStandsBy(users: map<string, string>, s: Session, line: string)
    ensures Bystander(s, OnLoginUsername(s, line)) && Bystander(s, OnLoginPassword(users, s, line))
  {
    var c := Decoded(line);
    if c.Some? {
      AuthDoneStandsBy(s, Authenticate(users, s.pendingUsername, c.value));
    }
    hide Decoded, Authenticate, AuthDone;
  }

  lemma MechanismsStandBy(users: map<string, string>, s: Session, initial: string)
    ensures Bystander(s, OnAuthPlain(users, s, initial)) && Bystander(s, OnAuthLogin(s, initial))
  {
    var c := ParsePlainAuth(initial);
    if c.Some? {
      AuthDoneStandsBy(s, Authenticate(users, c.value.username, c.value.secret));
    }
    hide ParsePlainAuth, Authenticate, AuthDone, Decoded;
  }

  lemma AuthStandsBy(config: ServerConfig, users: map<string, string>, s: Session, argument: string)
    ensures Bystander(s, OnAuth(config, users, s, argument))
  {
    var (mechanism, initial) := Words(argument);
    MechanismsStandBy(users, s, initial);
    hide OnAuthPlain, OnAuthLogin, Upper, Words, IsAuthAllowed, Fields;
  }

  lemma BystanderAdvances(s: Session, r: (Session, seq<Effect>), line: string)
    requires Bystander(s, r)
    ensures Fields(r.0) == Advance(Fields(s), LineRole(line, r.1))
  {
    hide VerbOf, Command, Argument;
  }

  predicate CommandAdvances(s: Session, r: (Session, seq<Effect>), verb: Verb, argument: string) {
    && r.1 != [] && r.1[0].Reply? && r.1[0].code != 552
    && Fields(r.0) == Advance(Fields(s), CommandRole(verb, argument, r.1[0].code))
  }

  lemma MailAdvances(config: ServerConfig, s: Session, argument: string)
    requires s.phase != ReceivingMessage
    ensures CommandAdvances(s, OnMail(config, s, argument), Mail, argument)
  {
    hide ExtractPath, StartsWithNoCase;
  }

  lemma RcptAdvances(s: Session, argument: string)
    requires s.phase != ReceivingMessage
    ensures CommandAdvances(s, OnRcpt(s, argument), Rcpt, argument)
  {
    hide ExtractPath, StartsWithNoCase;
  }

  lemma HelloAdvances(config: ServerConfig, s: Session, extended: bool, argument: string)
    requires s.phase != ReceivingMessage
    ensures CommandAdvances(s, OnHello(config, s, extended, argument), if extended then Ehlo else Helo, argument)
  {}

  lemma StartTlsAdvances(config: ServerConfig, s: Session, argument: string)
    requires s.phase != ReceivingMessage
    ensures CommandAdvances(s, OnStartTls(config, s), StartTls, argument)
  {}

  lemma AuthAdvances(config: ServerConfig, users: map<string, string>, s: Session, argument: string)
    ensures CommandAdvances(s, OnAuth(config, users, s, argument), Auth, argument)
  {
    AuthStandsBy(config, users, s, argument);
    hide OnAuth, Fields;
  }

  lemma DataAdvances(s: Session, argument: string)
    requires s.phase != ReceivingMessage
    ensures CommandAdvances(s, OnDataCommand(s), Data, argument)
  {}

  lemma RestAdvances(config: ServerConfig, users: map<string, string>, s: Session, verb: Verb, argument: string)
    requires s.phase != ReceivingMessage
    requires verb in {Rset, Vrfy, Expn, Help, Noop, Quit, Unrecognized}
    ensures CommandAdvances(s, OnCommand(config, users, s, verb, argument), verb, argument)
  {
    hide OnHello, OnAuth, OnMail, OnRcpt, OnStartTls, OnDataCommand, ExtractPath;
  }

  lemma OnCommandAdvances(config: ServerConfig, users: map<string, string>, s: Session, verb: Verb, argument: string)
    requires s.phase != ReceivingMessage
    ensures CommandAdvances(s, OnCommand(config, users, s, verb, argument), verb, argument)
  {
    match verb
    case Helo => HelloAdvances(config, s, false, argument); hide OnHello, CommandAdvances;
    case Ehlo => HelloAdvances(config, s, true, argument); hide OnHello, CommandAdvances;
    case StartTls => StartTlsAdvances(config, s, argument); hide OnStartTls, CommandAdvances;
    case Auth => AuthAdvances(config, users, s, argument); hide OnAuth, CommandAdvances;
    case Mail => MailAdvances(config, s, argument); hide OnMail, CommandAdvances;
    case Rcpt => RcptAdvances(s, argument); hide OnRcpt, CommandAdvances;
    case Data => DataAdvances(s, argument); hide OnDataCommand, CommandAdvances;
    case _ => RestAdvances(config, users, s, verb, argument); hide OnCommand, CommandAdvances;
  }

  lemma LineAdvances(config: ServerConfig, users: map<string, string>, t: Tables, s: Session, payload: string,
                     fails: bool)
    requires SessionInv(config, s)
    ensures var h := OnLine(config, users, t, s, payload, fails);
      Fields(h.session) == Advance(Fields(s), LineRole(Trimmed(payload), h.effects))
  {
    var line := Trimmed(payload);
    if s.phase == ReceivingMessage {
      DataLineAdvances(config, t, s, line, fails);
      hide Trimmed, OnDataLine, LineRole, Fields, Advance;
    } else if s.authStage == NoAuth {
      OnCommandAdvances(config, users, s, VerbOf(Command(line)), Argument(line));
      hide Trimmed, OnCommand, CommandRole, Fields, Advance, Command, Argument, VerbOf;
    } else {
      PlainStandsBy(users, s, line);
      LoginStandsBy(users, s, line);
      forall r | Bystander(s, r) ensures Fields(r.0) == Advance(Fields(s), LineRole(line, r.1)) {
        BystanderAdvances(s, r, line);
      }
      hide Trimmed, OnPlainResponse, OnLoginUsername, OnLoginPassword, LineRole, Fields, Advance, Bystander;
    }
  }

  lemma OtherEventsAdvance(config: ServerConfig, users: map<string, string>, s: Session, input: Input)
    requires !input.event.MessageReceived?
    ensures Fields(Next(config, users, s, input))
         == Advance(Fields(s), RoleOf(Exchange(input.event, Effects(config, users, s, input))))
  {
    hide OnLine, LineRole, Trimmed;
  }

  /** One event moves the fields of the session exactly as it moves what the dialogue shows. */
  lemma EventAdvances(config: ServerConfig, users: map<string, string>, s: Session, input: Input)
    requires SessionInv(config, s)
    ensures Fields(Next(config, users, s, input))
         == Advance(Fields(s), RoleOf(Exchange(input.event, Effects(config, users, s, input))))
  {
    if input.event.MessageReceived? {
      LineAdvances(config, users, input.tables, s, input.event.payload, input.fails);
      hide OnLine, LineRole, Fields, Advance, Trimmed;
    } else {
      OtherEventsAdvance(config, users, s, input);
      hide Next, Fields, Advance, RoleOf;
    }
  }

  lemma {:induction false} FieldsAreView(config: ServerConfig, users: map<string, string>, s: Session, h: seq<Exchange>,
                                         inputs: seq<Input>)
    requires SessionInv(config, s) && Fields(s) == ViewOf(h)
    ensures Fields(After(config, users, s, inputs)) == ViewOf(h + Dialogue(config, users, s, inputs))
    decreases |inputs|
  {
    hide SessionInv, Fields, Advance, RoleOf, Next, Effects;
    if inputs == [] {
      assert h + [] == h;
    } else {
      var x := Exchange(inputs[0].event, Effects(config, users, s, inputs[0]));
      var s1 := Next(config, users, s, inputs[0]);
      EventAdvances(config, users, s, inputs[0]);
      EventKeeps(config, users, s, inputs[0]);
      assert (h + [x])[..|h|] == h;
      FieldsAreView(config, users, s1, h + [x], inputs[1..]);
      assert h + [x] + Dialogue(config, users, s1, inputs[1..]) == h + Dialogue(config, users, s, inputs);
    }
  }

  ghost predicate StoredFromView(v: View, t: Tables, event: Event, fails: bool, h: Handled) {
    if NoStore(h.effects) then h.tables == t
    else
      && event.MessageReceived? && Trimmed(event.payload) == "." && !fails
      && v.sender.Some? && v.recipients != [] && v.body.Some?
      && h.tables == StoreMail(t, v.sender.value, v.recipients, v.body.value)
      && h.effects == [Stored(h.tables.lastMessageId, v.sender.value, v.recipients, v.body.value),
                       Reply(250, true, "Message accepted as " + Decimal(h.tables.lastMessageId))]
  }

  lemma StoresAsViewed(config: ServerConfig, s: Session, t: Tables, event: Event, fails: bool, h: Handled)
    requires SessionInv(config, s) && StoresAs(t, s, event, fails, h)
    ensures StoredFromView(Fields(s), t, event, fails, h)
  {
    if IsFinalDot(s, event) {
      if !fails {
        assert h.effects[0] in h.effects;
      }
    }
    hide Trimmed, StoreMail, Decimal, IsAuthAllowed;
  }

  /**
   Over any events, any state of the tables and any failures: a message is stored only by the final dot, and
   then it is from the sender, to the recipients and of the text that the dialogue shows; the tables
   gain exactly those rows, and 250 with the number of the message is sent afterwards.
   */
  lemma StoredEqualsDialogue(config: ServerConfig, users: map<string, string>, inputs: seq<Input>, last: Input)
    ensures var s := After(config, users, FreshSession, inputs);
      StoredFromView(ViewOf(Dialogue(config, users, FreshSession, inputs)), last.tables, last.event, last.fails,
                     Handle(config, users, last.tables, s, last.event, last.fails))
  {
    var s := After(config, users, FreshSession, inputs);
    FreshHolds(config);
    assert Fields(FreshSession) == ViewOf([]);
    hide After, Dialogue, ViewOf, Handle, StoredFromView, StoresAs, Fields, SessionInv;
    FieldsAreView(config, users, FreshSession, [], inputs);
    assert [] + Dialogue(config, users, FreshSession, inputs) == Dialogue(config, users, FreshSession, inputs);
    InvariantAlways(config, users, FreshSession, inputs);
    StoredOnlyByData(config, users, last.tables, s, last.event, last.fails);
    StoresAsViewed(config, s, last.tables, last.event, last.fails,
                   Handle(config, users, last.tables, s, last.event, last.fails));
  }

  // ----- what the view says about the dialogue -----

  /** The paths of the accepted RCPT commands, in order. */
  function Recipients(h: seq<Exchange>): seq<string> {
    if h == [] then []
    else
      var before := Recipients(h[..|h| - 1]);
      var role := RoleOf(h[|h| - 1]);
      if role.AddsRecipient? then before + [role.recipient] else before
  }

  /** The lines without an answer, dots removed, each with its line ending; an unanswered final dot is no text. */
  function TextLines(h: seq<Exchange>): string {
    if h == [] then ""
    else
      var before := TextLines(h[..|h| - 1]);
      var role := RoleOf(h[|h| - 1]);
      if role.Unanswered? && role.line != "." then before + Unstuffed(role.line) + CRLF else before
  }

  ghost predicate MailOpenedAt(h: seq<Exchange>, i: nat) {
    && i < |h| && RoleOf(h[i]).OpensMail?
    && (forall j :: i < j < |h| ==> !RoleOf(h[j]).OpensMail? && !RoleOf(h[j]).Clears?)
    && ViewOf(h).sender == Some(RoleOf(h[i]).sender)
    && ViewOf(h).recipients == Recipients(h[i + 1..])
  }

  ghost predicate DataOpenedAt(h: seq<Exchange>, k: nat) {
    && k < |h| && RoleOf(h[k]).OpensData?
    && (forall j :: k < j < |h| ==> RoleOf(h[j]).Unanswered? || RoleOf(h[j]).Neutral?)
    && ViewOf(h).body == Some(TextLines(h[k + 1..]))
  }

  lemma Grows(h: seq<Exchange>, x: Exchange)
    ensures ViewOf(h + [x]) == Advance(ViewOf(h), RoleOf(x))
    ensures Recipients(h + [x])
         == Recipients(h) + if RoleOf(x).AddsRecipient? then [RoleOf(x).recipient] else []
    ensures TextLines(h + [x]) == if RoleOf(x).Unanswered? && RoleOf(x).line != "."
                                  then TextLines(h) + Unstuffed(RoleOf(x).line) + CRLF else TextLines(h)
  {}

  lemma MailOpenedLater(h: seq<Exchange>, x: Exchange, i: nat)
    requires MailOpenedAt(h, i) && !RoleOf(x).OpensMail? && !RoleOf(x).Clears?
    ensures MailOpenedAt(h + [x], i)
  {
    assert (h + [x])[i + 1..] == h[i + 1..] + [x];
    Grows(h, x);
    Grows(h[i + 1..], x);
    hide RoleOf, ViewOf, Recipients, Unstuffed, TextLines;
    assert (h + [x])[i] == h[i];
    forall j | i < j < |h + [x]| ensures !RoleOf((h + [x])[j]).OpensMail? && !RoleOf((h + [x])[j]).Clears? {
      assert (h + [x])[j] == if j < |h| then h[j] else x;
    }
  }

  lemma DataOpenedLater(h: seq<Exchange>, x: Exchange, k: nat)
    requires DataOpenedAt(h, k) && (RoleOf(x).Unanswered? || RoleOf(x).Neutral?)
    ensures DataOpenedAt(h + [x], k)
  {
    assert (h + [x])[k + 1..] == h[k + 1..] + [x];
    Grows(h, x);
    Grows(h[k + 1..], x);
    hide RoleOf, ViewOf, Recipients, Unstuffed, TextLines;
    assert (h + [x])[k] == h[k];
    forall j | k < j < |h + [x]| ensures RoleOf((h + [x])[j]).Unanswered? || RoleOf((h + [x])[j]).Neutral? {
      assert (h + [x])[j] == if j < |h| then h[j] else x;
    }
  }

  lemma OpenedNow(h: seq<Exchange>, x: Exchange)
    ensures RoleOf(x).OpensMail? ==> MailOpenedAt(h + [x], |h|)
    ensures RoleOf(x).OpensData? ==> DataOpenedAt(h + [x], |h|)
  {}

  /** The sender is that of the last accepted MAIL, the recipients those accepted since; nothing cleared them. */
  lemma {:induction false} SenderIsOfLastMail(h: seq<Exchange>)
    ensures ViewOf(h).sender.Some? ==> exists i :: MailOpenedAt(h, i)
  {
    if h != [] {
      var init, x := h[..|h| - 1], h[|h| - 1];
      assert init + [x] == h;
      Grows(init, x);
      OpenedNow(init, x);
      SenderIsOfLastMail(init);
      hide RoleOf, ViewOf, MailOpenedAt, Recipients, TextLines;
      if ViewOf(init).sender.Some? && !RoleOf(x).OpensMail? && !RoleOf(x).Clears? {
        var i :| MailOpenedAt(init, i);
        MailOpenedLater(init, x, i);
      }
    }
  }

  /** The text is the unanswered lines since the last accepted DATA. */
  lemma {:induction false} TextIsSinceData(h: seq<Exchange>)
    ensures ViewOf(h).body.Some? ==> exists k :: DataOpenedAt(h, k)
  {
    if h != [] {
      var init, x := h[..|h| - 1], h[|h| - 1];
      assert init + [x] == h;
      Grows(init, x);
      OpenedNow(init, x);
      TextIsSinceData(init);
      hide RoleOf, ViewOf, DataOpenedAt, Recipients, TextLines;
      if ViewOf(init).body.Some? && (RoleOf(x).Unanswered? || RoleOf(x).Neutral?) {
        var k :| DataOpenedAt(init, k);
        DataOpenedLater(init, x, k);
      }
    }
  }
}
