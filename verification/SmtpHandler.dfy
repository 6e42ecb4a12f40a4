/**
 SmtpSessionHandler as the object of the source: it assigns the fields of the session state, calls the mail
 store under its lock, and sends replies through the context. Each method is proved to do what the function
 of SmtpSession says, so everything proved about sessions holds of it.
 */
module SmtpHandler {
  import opened Wrappers
  import opened Text
  import opened Base64
  import opened MailStorage
  import opened DeliverySystem
  import opened SmtpSession
  import opened SessionInvariant

  class SmtpSessionState {
    var phase: Phase
    var tlsActive: bool
    var tlsHandshakePending: bool
    var authenticated: bool
    var authStage: AuthStage
    var clientName: string
    var identity: string
    var pendingUsername: string
    var sender: string
    var recipients: seq<string>
    var messageBuffer: string

    constructor ()
      ensures Value() == FreshSession
    {
      phase, authStage := WaitingForGreeting, NoAuth;
      tlsActive, tlsHandshakePending, authenticated := false, false, false;
      clientName, identity, pendingUsername, sender, recipients, messageBuffer := "", "", "", "", [], "";
    }

    function Value(): Session
      reads this
    {
      Session(phase, tlsActive, tlsHandshakePending, authenticated, authStage, clientName, identity, pendingUsername,
              sender, recipients, messageBuffer)
    }
  }

  /** The sockets manager, as far as the handler uses it, is the list of what it was asked to do. */
  class SmtpSessionContext {
    const config: ServerConfig
    const users: map<string, string>
    const store: MailStore
    var effects: seq<Effect>

    constructor (config: ServerConfig, users: map<string, string>, store: MailStore)
      ensures this.config == config && this.users == users && this.store == store && effects == []
    {
      this.config, this.users, this.store, effects := config, users, store, [];
    }

    method SendReply(code: nat, text: string)
      modifies this
      ensures effects == old(effects) + [Reply(code, true, text)]
    {
      effects := effects + [Reply(code, true, text)];
    }

    method Emit(effect: Effect)
      modifies this
      ensures effects == old(effects) + [effect]
    {
      effects := effects + [effect];
    }
  }

  class SmtpSessionHandler {
    constructor () {}

    method ResetMailTransaction(state: SmtpSessionState)
      modifies state
      ensures state.Value() == Reset(old(state.Value()))
    {
      state.sender := "";
      state.recipients := [];
      state.messageBuffer := "";
      if state.phase != Closed && state.phase != Closing {
        state.phase := ReadyForMail;
      }
    }

    // ----- storing -----

    /**
     fault is the number of the statement that throws: BEGIN is 0, the message 1, the sender 2, then one for
     each recipient, then COMMIT. A fault after BEGIN is rolled back.
     */
    method StoreMessage(state: SmtpSessionState, store: MailStore, fault: nat) returns (r: Result<int>)
      requires store.saved.None?
      modifies store
      ensures store.saved.None?
      ensures r.Err? <==> fault < 4 + |state.recipients|
      ensures r.Err? ==> store.State() == old(store.State())
      ensures r.Ok? ==> r.value == old(store.lastMessageId) + 1
      ensures r.Ok? ==>
        store.State() == StoreMail(old(store.State()), state.sender, state.recipients, state.messageBuffer)
    {
      if fault == 0 {
        return Err("storage");
      }
      store.Begin();
      r := Insert(state, store, fault);
      if r.Ok? && fault != 3 + |state.recipients| {
        store.Commit();
      } else {
        store.Rollback();
        r := Err("storage");
      }
    }

    /** The statements between BEGIN and COMMIT. */
    method Insert(state: SmtpSessionState, store: MailStore, fault: nat) returns (r: Result<int>)
      requires fault > 0
      modifies store
      ensures store.saved == old(store.saved)
      ensures r.Err? <==> fault < 3 + |state.recipients|
      ensures r.Ok? ==> r.value == old(store.lastMessageId) + 1
      ensures r.Ok? ==>
        store.State() == StoreMail(old(store.State()), state.sender, state.recipients, state.messageBuffer)
    {
      if fault == 1 {
        return Err("storage");
      }
      ghost var t0 := store.State();
      var id := store.CreateMessage(None, state.messageBuffer, MessageStatus.Queued);
      if fault == 2 {
        return Err("storage");
      }
      var actor := store.CreateActor(id, state.sender, From, None);
      ghost var t1 := store.State();
      r := InsertRecipients(state, store, id, fault);
    }

    method InsertRecipients(state: SmtpSessionState, store: MailStore, id: int, fault: nat) returns (r: Result<int>)
      requires fault > 2 && id in store.messages
      modifies store
      ensures store.saved == old(store.saved)
      ensures r.Err? <==> fault < 3 + |state.recipients|
      ensures r.Ok? ==> r.value == id && store.State() == AddRecipients(old(store.State()), id, state.recipients)
    {
      var i := 0;
      while i < |state.recipients|
        invariant 0 <= i <= |state.recipients| && fault >= 3 + i && id in store.messages
        invariant store.saved == old(store.saved)
        invariant AddRecipients(store.State(), id, state.recipients[i..])
               == AddRecipients(old(store.State()), id, state.recipients)
      {
        if fault == 3 + i {
          return Err("storage");
        }
        assert state.recipients[i..][0] == state.recipients[i];
        assert state.recipients[i..][1..] == state.recipients[i + 1..];
        var actor := store.CreateActor(id, state.recipients[i], To, Some(DeliveryStatus.Queued));
        i := i + 1;
      }
      assert state.recipients[i..] == [];
      return Ok(id);
    }

    // ----- message data -----

    method HandleData(line: string, state: SmtpSessionState, context: SmtpSessionContext, fault: nat)
      returns (threw: bool)
      requires context.store.saved.None?
      modifies state, context, context.store
      ensures context.store.saved.None?
      ensures var h := OnDataLine(context.config, old(context.store.State()), old(state.Value()), line,
                                  fault < 4 + |old(state.recipients)|);
        && state.Value() == h.session && context.store.State() == h.tables && threw == h.threw
        && context.effects == old(context.effects) + h.effects
    {
      hide StoreMail, Decimal;
      threw := false;
      if line == "." {
        var r := StoreMessage(state, context.store, fault);
        if r.Err? {
          assert context.effects + [] == context.effects;
          return true;
        }
        context.Emit(Stored(r.value, state.sender, state.recipients, state.messageBuffer));
        context.SendReply(250, "Message accepted as " + Decimal(r.value));
        ResetMailTransaction(state);
        return;
      }
      AddLine(line, state, context);
    }

    /** A line of the message: without the first of two dots, if it fits. */
    method AddLine(line: string, state: SmtpSessionState, context: SmtpSessionContext)
      requires line != "."
      modifies state, context
      ensures var h := OnDataLine(context.config, context.store.State(), old(state.Value()), line, false);
        state.Value() == h.session && context.effects == old(context.effects) + h.effects
    {
      var text := line;
      var dots := StartsWithCaseInsensitive(line, "..");
      if dots {
        text := text[1..];
      }
      if |state.messageBuffer| + |text| + 2 > context.config.maxMessageSize {
        context.SendReply(552, "Message size exceeds fixed maximum message size");
        ResetMailTransaction(state);
        return;
      }
      state.messageBuffer := state.messageBuffer + text;
      state.messageBuffer := state.messageBuffer + CRLF;
    }

    // ----- AUTH -----

    method MarkAuthenticated(state: SmtpSessionState, context: SmtpSessionContext, username: string, secret: string)
      modifies state, context
      ensures var r := AuthDone(old(state.Value()), Authenticate(context.users, username, secret));
        state.Value() == r.0 && context.effects == old(context.effects) + r.1
    {
      var result := Authenticate(context.users, username, secret);
      state.authenticated := result.accepted;
      state.identity := result.identity;
      state.authStage := NoAuth;
      state.pendingUsername := "";
      context.SendReply(if state.authenticated then 235 else 535,
                        if state.authenticated then "Authentication successful" else "Authentication failed");
    }

    method HandlePlainResponse(line: string, state: SmtpSessionState, context: SmtpSessionContext)
      modifies state, context
      ensures var r := OnPlainResponse(context.users, old(state.Value()), line);
        state.Value() == r.0 && context.effects == old(context.effects) + r.1
    {
      var credentials := ParsePlainAuth(line);
      if credentials.None? {
        context.SendReply(501, "Invalid authentication response");
        state.authStage := NoAuth;
        return;
      }
      MarkAuthenticated(state, context, credentials.value.username, credentials.value.secret);
    }

    method HandleLoginUsername(line: string, state: SmtpSessionState, context: SmtpSessionContext)
      modifies state, context
      ensures var r := OnLoginUsername(old(state.Value()), line);
        state.Value() == r.0 && context.effects == old(context.effects) + r.1
    {
      var username := DecodeBase64(line);
      if username.None? || username.value == "" {
        context.SendReply(501, "Invalid username");
        state.authStage := NoAuth;
        return;
      }
      state.pendingUsername := username.value;
      state.authStage := LoginPassword;
      context.SendReply(334, "UGFzc3dvcmQ6");
    }

    method HandleLoginPassword(line: string, state: SmtpSessionState, context: SmtpSessionContext)
      modifies state, context
      ensures var r := OnLoginPassword(context.users, old(state.Value()), line);
        state.Value() == r.0 && context.effects == old(context.effects) + r.1
    {
      var secret := DecodeBase64(line);
      if secret.None? {
        context.SendReply(501, "Invalid password");
        state.authStage := NoAuth;
        state.pendingUsername := "";
        return;
      }
      MarkAuthenticated(state, context, state.pendingUsername, secret.value);
    }

    method HandleAuthPlain(initial: string, state: SmtpSessionState, context: SmtpSessionContext)
      modifies state, context
      ensures var r := OnAuthPlain(context.users, old(state.Value()), initial);
        state.Value() == r.0 && context.effects == old(context.effects) + r.1
    {
      if initial == "" {
        state.authStage := PlainResponse;
        context.SendReply(334, "");
        return;
      }
      var credentials := ParsePlainAuth(initial);
      if credentials.None? {
        context.SendReply(501, "Invalid authentication response");
        return;
      }
      MarkAuthenticated(state, context, credentials.value.username, credentials.value.secret);
    }

    method HandleAuthLogin(initial: string, state: SmtpSessionState, context: SmtpSessionContext)
      modifies state, context
      ensures var r := OnAuthLogin(old(state.Value()), initial);
        state.Value() == r.0 && context.effects == old(context.effects) + r.1
    {
      if initial != "" {
        var username := DecodeBase64(initial);
        if username.None? || username.value == "" {
          context.SendReply(501, "Invalid username");
          return;
        }
        state.pendingUsername := username.value;
        state.authStage := LoginPassword;
        context.SendReply(334, "UGFzc3dvcmQ6");
        return;
      }
      state.authStage := LoginUsername;
      context.SendReply(334, "VXNlcm5hbWU6");
    }

    method HandleAuth(argument: string, state: SmtpSessionState, context: SmtpSessionContext)
      modifies state, context
      ensures var r := OnAuth(context.config, context.users, old(state.Value()), argument);
        state.Value() == r.0 && context.effects == old(context.effects) + r.1
    {
      if state.authenticated {
        context.SendReply(503, "Already authenticated");
        return;
      }
      if !IsAuthAllowed(context.config, state.Value()) {
        context.SendReply(538, "Encryption required for requested authentication mechanism");
        return;
      }
      var (mechanism, initial) := Words(argument);
      mechanism := Upper(mechanism);
      if mechanism == "PLAIN" {
        HandleAuthPlain(initial, state, context);
      } else if mechanism == "LOGIN" {
        HandleAuthLogin(initial, state, context);
      } else {
        context.SendReply(504, "Unsupported authentication mechanism");
      }
    }

    // ----- the other commands -----

    method HandleHello(extended: bool, name: string, state: SmtpSessionState, context: SmtpSessionContext)
      modifies state, context
      ensures var r := OnHello(context.config, old(state.Value()), extended, name);
        state.Value() == r.0 && context.effects == old(context.effects) + r.1
    {
      state.clientName := name;
      state.phase := ReadyForMail;
      if !extended {
        context.SendReply(250, context.config.serverName);
        return;
      }
      context.Emit(Reply(250, false, context.config.serverName));
      if context.config.tlsEnabled && !state.tlsActive {
        context.Emit(Reply(250, false, "STARTTLS"));
      }
      if !state.authenticated && IsAuthAllowed(context.config, state.Value()) {
        context.Emit(Reply(250, false, "AUTH PLAIN LOGIN"));
      }
      context.Emit(Reply(250, true, "SIZE " + Decimal(context.config.maxMessageSize)));
    }

    method HandleStartTls(state: SmtpSessionState, context: SmtpSessionContext)
      modifies state, context
      ensures var r := OnStartTls(context.config, old(state.Value()));
        state.Value() == r.0 && context.effects == old(context.effects) + r.1
    {
      if !context.config.tlsEnabled {
        context.SendReply(454, "TLS not available");
        return;
      }
      if state.tlsActive || state.tlsHandshakePending {
        context.SendReply(503, "TLS is already active");
        return;
      }
      if state.phase == ReceivingMessage {
        context.SendReply(503, "Cannot start TLS during DATA");
        return;
      }
      AcceptStartTls(state, context);
    }

    /** What HandleStartTls does when nothing speaks against TLS. */
    method AcceptStartTls(state: SmtpSessionState, context: SmtpSessionContext)
      modifies state, context
      ensures state.Value() == Reset(old(state.Value())).(clientName := "", authenticated := false, identity := "",
                                                          tlsHandshakePending := true, phase := WaitingForGreeting)
      ensures context.effects == old(context.effects) + [Reply(220, true, "Ready to start TLS"), TlsRequested]
    {
      ResetMailTransaction(state);
      state.clientName := "";
      state.authenticated := false;
      state.identity := "";
      state.tlsHandshakePending := true;
      state.phase := WaitingForGreeting;
      context.SendReply(220, "Ready to start TLS");
      context.Emit(TlsRequested);
    }

    method HandleMail(argument: string, state: SmtpSessionState, context: SmtpSessionContext)
      modifies state, context
      ensures var r := OnMail(context.config, old(state.Value()), argument);
        state.Value() == r.0 && context.effects == old(context.effects) + r.1
    {
      if context.config.requireAuthentication && !state.authenticated {
        context.SendReply(530, "Authentication required");
        return;
      }
      var from := StartsWithCaseInsensitive(argument, "FROM:");
      if !from {
        context.SendReply(501, "Expected MAIL FROM:<address>");
        return;
      }
      var sender := ExtractPath(argument);
      if sender == "" {
        context.SendReply(501, "Invalid sender");
        return;
      }
      ResetMailTransaction(state);
      state.sender := sender;
      state.phase := MailTransaction;
      context.SendReply(250, "Sender OK");
    }

    method HandleRcpt(argument: string, state: SmtpSessionState, context: SmtpSessionContext)
      modifies state, context
      ensures var r := OnRcpt(old(state.Value()), argument);
        state.Value() == r.0 && context.effects == old(context.effects) + r.1
    {
      if state.sender == "" {
        context.SendReply(503, "Need MAIL FROM before RCPT TO");
        return;
      }
      var to := StartsWithCaseInsensitive(argument, "TO:");
      if !to {
        context.SendReply(501, "Expected RCPT TO:<address>");
        return;
      }
      var recipient := ExtractPath(argument);
      if recipient == "" {
        context.SendReply(501, "Invalid recipient");
        return;
      }
      state.recipients := state.recipients + [recipient];
      state.phase := MailTransaction;
      context.SendReply(250, "Recipient OK");
    }

    method HandleDataCommand(state: SmtpSessionState, context: SmtpSessionContext)
      modifies state, context
      ensures var r := OnDataCommand(old(state.Value()));
        state.Value() == r.0 && context.effects == old(context.effects) + r.1
    {
      if state.sender == "" || state.recipients == [] {
        context.SendReply(503, "Need MAIL FROM and RCPT TO before DATA");
        return;
      }
      state.phase := ReceivingMessage;
      state.messageBuffer := "";
      context.SendReply(354, "End data with <CR><LF>.<CR><LF>");
    }

    method HandleCommand(verb: Verb, argument: string, state: SmtpSessionState, context: SmtpSessionContext)
      modifies state, context
      ensures var r := OnCommand(context.config, context.users, old(state.Value()), verb, argument);
        state.Value() == r.0 && context.effects == old(context.effects) + r.1
    {
      hide OnHello, OnStartTls, OnAuth, OnMail, OnRcpt, OnDataCommand;
      match verb
      case Helo => HandleHello(false, argument, state, context);
      case Ehlo => HandleHello(true, argument, state, context);
      case StartTls => HandleStartTls(state, context);
      case Auth => HandleAuth(argument, state, context);
      case Mail => HandleMail(argument, state, context);
      case Rcpt => HandleRcpt(argument, state, context);
      case Data => HandleDataCommand(state, context);
      case Rset =>
        ResetMailTransaction(state);
        context.SendReply(250, "Reset OK");
      case Vrfy => context.SendReply(252, "Cannot VRFY user, but will accept message");
      case Expn => context.SendReply(502, "EXPN not implemented");
      case Help => context.SendReply(214, HELP_TEXT);
      case Noop => context.SendReply(250, "OK");
      case Quit =>
        state.phase := Closing;
        context.SendReply(221, context.config.serverName + " closing connection");
        context.Emit(CloseRequested);
      case Unrecognized => context.SendReply(500, "Command unrecognized");
    }

    // ----- events -----

    method HandleConnected(state: SmtpSessionState, context: SmtpSessionContext)
      modifies state, context
      ensures state.Value() == old(state.Value()).(phase := WaitingForGreeting)
      ensures context.effects == old(context.effects) + [Reply(220, true, context.config.serverName + " ESMTP ready")]
    {
      state.phase := WaitingForGreeting;
      context.SendReply(220, context.config.serverName + " ESMTP ready");
    }

    method HandleDisconnected(state: SmtpSessionState)
      modifies state
      ensures state.Value() == Reset(old(state.Value())).(phase := Closed)
    {
      ResetMailTransaction(state);
      state.phase := Closed;
    }

    method HandleMessageReceived(payload: string, state: SmtpSessionState, context: SmtpSessionContext, fault: nat)
      returns (threw: bool)
      requires context.store.saved.None?
      modifies state, context, context.store
      ensures context.store.saved.None?
      ensures var h := OnLine(context.config, context.users, old(context.store.State()), old(state.Value()), payload,
                              fault < 4 + |old(state.recipients)|);
        && state.Value() == h.session && context.store.State() == h.tables && threw == h.threw
        && context.effects == old(context.effects) + h.effects
    {
      hide OnDataLine, OnPlainResponse, OnLoginUsername, OnLoginPassword, OnCommand, Trimmed, Upper, VerbOf;
      var line := Trim(payload);
      threw := false;
      match state.authStage
      case PlainResponse => HandlePlainResponse(line, state, context);
      case LoginUsername => HandleLoginUsername(line, state, context);
      case LoginPassword => HandleLoginPassword(line, state, context);
      case NoAuth =>
        if state.phase == ReceivingMessage {
          threw := HandleData(line, state, context, fault);
        } else {
          HandleCommand(VerbOf(Command(line)), Argument(line), state, context);
        }
    }

    /**
     fault chooses the statement of StoreMessage that throws, if the event gets that far. What holds of a session
     over all events holds of the object: its invariant is kept, and only a final dot touches the tables.
     */
    method HandleEvent(event: Event, state: SmtpSessionState, context: SmtpSessionContext, fault: nat)
      returns (threw: bool)
      requires context.store.saved.None?
      modifies state, context, context.store
      ensures context.store.saved.None?
      ensures var h := Handle(context.config, context.users, old(context.store.State()), old(state.Value()), event,
                              fault < 4 + |old(state.recipients)|);
        && state.Value() == h.session && context.store.State() == h.tables && threw == h.threw
        && context.effects == old(context.effects) + h.effects
        && StoresAs(old(context.store.State()), old(state.Value()), event, fault < 4 + |old(state.recipients)|, h)
      ensures SessionInv(context.config, old(state.Value())) ==> SessionInv(context.config, state.Value())
    {
      hide Handle, SessionInv, StoresAs;
      ghost var s, t, fails := state.Value(), context.store.State(), fault < 4 + |state.recipients|;
      threw := DispatchEvent(event, state, context, fault);
      StoredOnlyByData(context.config, context.users, t, s, event, fails);
      if SessionInv(context.config, s) {
        HandledKeeps(context.config, context.users, t, s, event, fails);
      }
    }

    method HandleTlsSucceeded(state: SmtpSessionState)
      modifies state
      ensures var s := old(state.Value()).(tlsActive := true, tlsHandshakePending := false, clientName := "");
        state.Value() == Reset(s).(phase := WaitingForGreeting)
    {
      state.tlsActive := true;
      state.tlsHandshakePending := false;
      state.clientName := "";
      ResetMailTransaction(state);
      state.phase := WaitingForGreeting;
    }

    method DispatchEvent(event: Event, state: SmtpSessionState, context: SmtpSessionContext, fault: nat)
      returns (threw: bool)
      requires context.store.saved.None?
      modifies state, context, context.store
      ensures context.store.saved.None?
      ensures var h := Handle(context.config, context.users, old(context.store.State()), old(state.Value()), event,
                              fault < 4 + |old(state.recipients)|);
        && state.Value() == h.session && context.store.State() == h.tables && threw == h.threw
        && context.effects == old(context.effects) + h.effects
    {
      hide OnLine;
      threw := false;
      match event
      case Connected => HandleConnected(state, context);
      case MessageReceived(payload) => threw := HandleMessageReceived(payload, state, context, fault);
      case TlsSucceeded =>
        HandleTlsSucceeded(state);
        assert context.effects + [] == context.effects;
      case TlsFailed =>
        state.tlsHandshakePending := false;
        state.phase := Closed;
        context.Emit(CloseRequested);
      case Disconnected =>
        HandleDisconnected(state);
        assert context.effects + [] == context.effects;
    }
  }
}
