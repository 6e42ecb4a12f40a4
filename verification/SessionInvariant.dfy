/** What holds of a session after any sequence of events, whatever the tables contain and whatever fails. */
module SessionInvariant {
  import opened Wrappers
  import opened Text
  import opened Base64
  import opened MailStorage
  import opened DeliverySystem
  import opened SmtpSession

  /** One event, the tables it meets (other sessions and the dispatcher change them), and whether a store fails. */
  datatype Input = Input(event: Event, tables: Tables, fails: bool)

  function Next(config: ServerConfig, users: map<string, string>, s: Session, input: Input): Session {
    Handle(config, users, input.tables, s, input.event, input.fails).session
  }

  function After(config: ServerConfig, users: map<string, string>, s: Session, inputs: seq<Input>): Session
    decreases |inputs|
  {
    if inputs == [] then s else After(config, users, Next(config, users, s, inputs[0]), inputs[1..])
  }

  ghost predicate SessionInv(config: ServerConfig, s: Session) {
    && (s.phase == ReceivingMessage ==> s.sender != "" && s.recipients != [] && s.authStage == NoAuth)
    && |s.buffer| <= config.maxMessageSize
    && (s.authenticated <==> s.identity != "")
    && (s.pendingUsername != "" <==> s.authStage == LoginPassword)
    && (s.authenticated ==> IsAuthAllowed(config, s))
    && (s.authStage != NoAuth ==> !s.authenticated && IsAuthAllowed(config, s))
    && (config.requireAuthentication && s.sender != "" ==> s.authenticated)
    && (s.recipients != [] ==> s.sender != "")
  }

  lemma ResetKeeps(config: ServerConfig, s: Session)
    requires SessionInv(config, s)
    ensures SessionInv(config, Reset(s)) && Reset(s).sender == ""
  {}

  // ----- AUTH -----

  lemma PlainUsernameNotEmpty(encoded: string)
    ensures var c := ParsePlainAuth(encoded); c.Some? ==> c.value.username != ""
  {}

  lemma AuthDoneKeeps(config: ServerConfig, users: map<string, string>, s: Session, username: string, secret: string)
    requires SessionInv(config, s) && s.phase != ReceivingMessage && IsAuthAllowed(config, s) && !s.authenticated
    requires username != ""
    ensures SessionInv(config, AuthDone(s, Authenticate(users, username, secret)).0)
  {}

  lemma PlainKeeps(config: ServerConfig, users: map<string, string>, s: Session, line: string)
    requires SessionInv(config, s) && s.authStage == PlainResponse
    ensures SessionInv(config, OnPlainResponse(users, s, line).0)
  {
    PlainUsernameNotEmpty(line);
    var c := ParsePlainAuth(line);
    if c.Some? {
      AuthDoneKeeps(config, users, s, c.value.username, c.value.secret);
    }
    hide AuthDone, Authenticate, ParsePlainAuth;
  }

  lemma LoginUsernameKeeps(config: ServerConfig, s: Session, line: string)
    requires SessionInv(config, s) && s.authStage == LoginUsername
    ensures SessionInv(config, OnLoginUsername(s, line).0)
  {
    hide Decoded;
  }

  lemma LoginPasswordKeeps(config: ServerConfig, users: map<string, string>, s: Session, line: string)
    requires SessionInv(config, s) && s.authStage == LoginPassword
    ensures SessionInv(config, OnLoginPassword(users, s, line).0)
  {
    var secret := Decoded(line);
    if secret.Some? {
      AuthDoneKeeps(config, users, s, s.pendingUsername, secret.value);
    }
    hide AuthDone, Authenticate, Decoded;
  }

  lemma AuthPlainKeeps(config: ServerConfig, users: map<string, string>, s: Session, initial: string)
    requires SessionInv(config, s) && s.authStage == NoAuth && s.phase != ReceivingMessage
    requires !s.authenticated && IsAuthAllowed(config, s)
    ensures SessionInv(config, OnAuthPlain(users, s, initial).0)
  {
    PlainUsernameNotEmpty(initial);
    var c := ParsePlainAuth(initial);
    if c.Some? {
      AuthDoneKeeps(config, users, s, c.value.username, c.value.secret);
    }
    hide AuthDone, Authenticate, ParsePlainAuth;
  }

  lemma AuthLoginKeeps(config: ServerConfig, s: Session, initial: string)
    requires SessionInv(config, s) && s.authStage == NoAuth && s.phase != ReceivingMessage
    requires !s.authenticated && IsAuthAllowed(config, s)
    ensures SessionInv(config, OnAuthLogin(s, initial).0)
  {}

  lemma AuthCommandKeeps(config: ServerConfig, users: map<string, string>, s: Session, argument: string)
    requires SessionInv(config, s) && s.authStage == NoAuth && s.phase != ReceivingMessage
    ensures SessionInv(config, OnAuth(config, users, s, argument).0)
  {
    if !s.authenticated && IsAuthAllowed(config, s) {
      var (mechanism, initial) := Words(argument);
      AuthPlainKeeps(config, users, s, initial);
      AuthLoginKeeps(config, s, initial);
    }
    hide SessionInv, OnAuthPlain, OnAuthLogin, Upper, Words, IsAuthAllowed;
  }

  // ----- commands -----

  lemma MailKeeps(config: ServerConfig, s: Session, argument: string)
    requires SessionInv(config, s) && s.authStage == NoAuth
    ensures SessionInv(config, OnMail(config, s, argument).0)
  {
    hide ExtractPath, StartsWithNoCase;
  }

  lemma RcptKeeps(config: ServerConfig, s: Session, argument: string)
    requires SessionInv(config, s) && s.authStage == NoAuth
    ensures SessionInv(config, OnRcpt(s, argument).0)
  {
    hide ExtractPath, StartsWithNoCase;
  }

  lemma HelloKeeps(config: ServerConfig, s: Session, extended: bool, argument: string)
    requires SessionInv(config, s) && s.authStage == NoAuth && s.phase != ReceivingMessage
    ensures SessionInv(config, OnHello(config, s, extended, argument).0)
  {}

  lemma CommandKeeps(config: ServerConfig, users: map<string, string>, s: Session, verb: Verb, argument: string)
    requires SessionInv(config, s) && s.authStage == NoAuth && s.phase != ReceivingMessage
    ensures SessionInv(config, OnCommand(config, users, s, verb, argument).0)
  {
    match verb
    case Helo => HelloKeeps(config, s, false, argument);
    case Ehlo => HelloKeeps(config, s, true, argument);
    case Auth => AuthCommandKeeps(config, users, s, argument);
    case Mail => MailKeeps(config, s, argument);
    case Rcpt => RcptKeeps(config, s, argument);
    case _ => hide OnHello, OnAuth, OnMail, OnRcpt;
  }

  // ----- lines and events -----

  lemma DataLineKeeps(config: ServerConfig, t: Tables, s: Session, line: string, fails: bool)
    requires SessionInv(config, s) && s.phase == ReceivingMessage
    ensures SessionInv(config, OnDataLine(config, t, s, line, fails).session)
  {
    ResetKeeps(config, s);
    hide Unstuffed, Decimal, StoreMail;
  }

  lemma LineKeeps(config: ServerConfig, users: map<string, string>, t: Tables, s: Session, payload: string, fails: bool)
    requires SessionInv(config, s)
    ensures SessionInv(config, OnLine(config, users, t, s, payload, fails).session)
  {
    var line := Trimmed(payload);
    match s.authStage {
      case PlainResponse => PlainKeeps(config, users, s, line);
      case LoginUsername => LoginUsernameKeeps(config, s, line);
      case LoginPassword => LoginPasswordKeeps(config, users, s, line);
      case NoAuth =>
        if s.phase == ReceivingMessage {
          DataLineKeeps(config, t, s, line, fails);
        } else {
          CommandKeeps(config, users, s, VerbOf(Command(line)), Argument(line));
        }
    }
    hide SessionInv, Trimmed, Command, Argument, VerbOf, OnCommand, OnDataLine, OnPlainResponse, OnLoginUsername,
         OnLoginPassword;
  }

  lemma EventKeeps(config: ServerConfig, users: map<string, string>, s: Session, input: Input)
    requires SessionInv(config, s)
    ensures SessionInv(config, Next(config, users, s, input))
  {
    match input.event {
      case MessageReceived(payload) => LineKeeps(config, users, input.tables, s, payload, input.fails);
      case _ => OtherEventsKeep(config, users, s, input);
    }
    hide SessionInv, OnLine;
  }

  lemma PhaseKeeps(config: ServerConfig, s: Session, phase: Phase)
    requires SessionInv(config, s) && phase != ReceivingMessage
    ensures SessionInv(config, s.(phase := phase))
  {}

  lemma TlsOnKeeps(config: ServerConfig, s: Session)
    requires SessionInv(config, s)
    ensures SessionInv(config, s.(tlsActive := true, tlsHandshakePending := false, clientName := ""))
    ensures SessionInv(config, s.(tlsHandshakePending := false))
  {}

  lemma HandledKeeps(config: ServerConfig, users: map<string, string>, t: Tables, s: Session, event: Event, fails: bool)
    requires SessionInv(config, s)
    ensures SessionInv(config, Handle(config, users, t, s, event, fails).session)
  {
    EventKeeps(config, users, s, Input(event, t, fails));
    hide SessionInv, Handle;
  }

  lemma OtherEventsKeep(config: ServerConfig, users: map<string, string>, s: Session, input: Input)
    requires SessionInv(config, s) && !input.event.MessageReceived?
    ensures SessionInv(config, Next(config, users, s, input))
  {
    hide SessionInv, Reset, OnLine;
    TlsOnKeeps(config, s);
    match input.event {
      case Connected => PhaseKeeps(config, s, WaitingForGreeting);
      case TlsSucceeded =>
        var s1 := s.(tlsActive := true, tlsHandshakePending := false, clientName := "");
        ResetKeeps(config, s1);
        PhaseKeeps(config, Reset(s1), WaitingForGreeting);
      case TlsFailed => PhaseKeeps(config, s.(tlsHandshakePending := false), Closed);
      case Disconnected =>
        ResetKeeps(config, s);
        PhaseKeeps(config, Reset(s), Closed);
      case MessageReceived(payload) => assert false;
    }
  }

  /** Over every event sequence, whatever the state of the tables and whatever fails. */
  lemma {:induction false} InvariantAlways(config: ServerConfig, users: map<string, string>, s: Session,
                                           inputs: seq<Input>)
    requires SessionInv(config, s)
    ensures SessionInv(config, After(config, users, s, inputs))
    decreases |inputs|
  {
    if inputs != [] {
      EventKeeps(config, users, s, inputs[0]);
      hide SessionInv, Next;
      InvariantAlways(config, users, Next(config, users, s, inputs[0]), inputs[1..]);
    }
  }

  lemma FreshHolds(config: ServerConfig)
    ensures SessionInv(config, FreshSession)
  {}

  // ----- what stores a message -----

  predicate NoStore(effects: seq<Effect>) {
    forall e :: e in effects ==> !e.Stored?
  }

  lemma StoreMailId(t: Tables, sender: string, recipients: seq<string>, body: string)
    ensures StoreMail(t, sender, recipients, body).lastMessageId == t.lastMessageId + 1
  {
    var t1 := InsertMessage(t, None, body, MessageStatus.Queued);
    AddRecipientsKeepsId(InsertActor(t1, t1.lastMessageId, sender, From, None), t1.lastMessageId, recipients);
  }

  lemma {:induction false} AddRecipientsKeepsId(t: Tables, m: int, recipients: seq<string>)
    ensures AddRecipients(t, m, recipients).lastMessageId == t.lastMessageId
    decreases |recipients|
  {
    if recipients != [] {
      AddRecipientsKeepsId(InsertActor(t, m, recipients[0], To, Some(DeliveryStatus.Queued)), m, recipients[1..]);
    }
  }

  lemma AuthStoresNothing(users: map<string, string>, s: Session, line: string)
    ensures NoStore(OnPlainResponse(users, s, line).1)
    ensures NoStore(OnLoginUsername(s, line).1)
    ensures NoStore(OnLoginPassword(users, s, line).1)
  {
    hide ParsePlainAuth, Decoded, Authenticate;
  }

  lemma AuthMechanismsStoreNothing(users: map<string, string>, s: Session, initial: string)
    ensures NoStore(OnAuthPlain(users, s, initial).1) && NoStore(OnAuthLogin(s, initial).1)
  {
    hide ParsePlainAuth, Decoded, Authenticate;
  }

  lemma AuthCommandStoresNothing(config: ServerConfig, users: map<string, string>, s: Session, argument: string)
    ensures NoStore(OnAuth(config, users, s, argument).1)
  {
    var (mechanism, initial) := Words(argument);
    AuthMechanismsStoreNothing(users, s, initial);
    hide OnAuthPlain, OnAuthLogin, Words, Upper, IsAuthAllowed;
  }

  lemma HelloStoresNothing(config: ServerConfig, s: Session, extended: bool, argument: string)
    ensures NoStore(OnHello(config, s, extended, argument).1)
  {}

  lemma TransactionStoresNothing(config: ServerConfig, s: Session, argument: string)
    ensures NoStore(OnMail(config, s, argument).1) && NoStore(OnRcpt(s, argument).1)
    ensures NoStore(OnDataCommand(s).1) && NoStore(OnStartTls(config, s).1)
  {
    hide ExtractPath, StartsWithNoCase, Reset;
  }

  lemma CommandStoresNothing(config: ServerConfig, users: map<string, string>, s: Session, verb: Verb, argument: string)
    ensures NoStore(OnCommand(config, users, s, verb, argument).1)
  {
    AuthCommandStoresNothing(config, users, s, argument);
    HelloStoresNothing(config, s, verb == Ehlo, argument);
    TransactionStoresNothing(config, s, argument);
    hide OnAuth, OnHello, OnMail, OnRcpt, OnDataCommand, OnStartTls, Reset;
  }

  /** The event is the line that ends the message of a DATA command. */
  predicate IsFinalDot(s: Session, event: Event) {
    event.MessageReceived? && s.authStage == NoAuth && s.phase == ReceivingMessage && Trimmed(event.payload) == "."
  }

  ghost predicate StoresAs(t: Tables, s: Session, event: Event, fails: bool, h: Handled) {
    if !IsFinalDot(s, event) then h.tables == t && NoStore(h.effects) && !h.threw
    else if fails then h.tables == t && h.effects == [] && h.session == s && h.threw
    else
      && h.tables == StoreMail(t, s.sender, s.recipients, s.buffer)
      && h.effects == [Stored(h.tables.lastMessageId, s.sender, s.recipients, s.buffer),
                       Reply(250, true, "Message accepted as " + Decimal(h.tables.lastMessageId))]
      && !h.threw
  }

  lemma DataLineStores(config: ServerConfig, t: Tables, s: Session, payload: string, fails: bool)
    requires s.authStage == NoAuth && s.phase == ReceivingMessage
    ensures StoresAs(t, s, MessageReceived(payload), fails, OnDataLine(config, t, s, Trimmed(payload), fails))
  {
    StoreMailId(t, s.sender, s.recipients, s.buffer);
    hide StoreMail, Trimmed, Decimal, Unstuffed, Reset;
  }

  lemma LineStores(config: ServerConfig, users: map<string, string>, t: Tables, s: Session, payload: string,
                   fails: bool)
    ensures StoresAs(t, s, MessageReceived(payload), fails, OnLine(config, users, t, s, payload, fails))
  {
    var line := Trimmed(payload);
    if s.authStage == NoAuth && s.phase == ReceivingMessage {
      DataLineStores(config, t, s, payload, fails);
      hide StoresAs, OnDataLine, Trimmed;
    } else {
      CommandStoresNothing(config, users, s, VerbOf(Command(line)), Argument(line));
      AuthStoresNothing(users, s, line);
      hide NoStore, OnCommand, OnPlainResponse, OnLoginUsername, OnLoginPassword, StoreMail, Trimmed, VerbOf, Command,
           Argument, OnDataLine, Decimal;
    }
  }

  lemma OtherEventsStoreNothing(config: ServerConfig, users: map<string, string>, t: Tables, s: Session, event: Event,
                                fails: bool)
    requires !event.MessageReceived?
    ensures StoresAs(t, s, event, fails, Handle(config, users, t, s, event, fails))
  {
    hide OnLine, Trimmed, Reset, StoreMail, Decimal;
  }

  /**
   Only the final dot stores a message, and exactly one; the 250 that answers it follows the commit. A store
   that fails changes neither table nor session and is not answered, but leaves the handler as an exception.
   */
  lemma StoredOnlyByData(config: ServerConfig, users: map<string, string>, t: Tables, s: Session, event: Event,
                         fails: bool)
    ensures StoresAs(t, s, event, fails, Handle(config, users, t, s, event, fails))
  {
    match event {
      case MessageReceived(payload) => LineStores(config, users, t, s, payload, fails);
      case _ => OtherEventsStoreNothing(config, users, t, s, event, fails);
    }
    hide StoresAs, OnLine;
  }

  /**
   Where the configuration demands authentication, a message is stored only for a client that is
   authenticated under a non-empty name, over TLS unless plain text is allowed.
   */
  lemma StoreNeedsAuthentication(config: ServerConfig, users: map<string, string>, inputs: seq<Input>, last: Input)
    requires config.requireAuthentication
    ensures var s := After(config, users, FreshSession, inputs);
      NoStore(Handle(config, users, last.tables, s, last.event, last.fails).effects)
      || (s.authenticated && s.identity != "" && (s.tlsActive || config.allowPlainWithoutTls))
  {
    FreshHolds(config);
    InvariantAlways(config, users, FreshSession, inputs);
    StoredOnlyByData(config, users, last.tables, After(config, users, FreshSession, inputs), last.event, last.fails);
    hide After, Handle, NoStore, Trimmed, StoreMail;
  }
}
