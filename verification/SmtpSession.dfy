/**
 One SMTP session: the command, AUTH and DATA state machine, as a function from one session value and
 event to the next, and as the handler that assigns the fields of the session state.
 */
module SmtpSession {
  import opened Text
  import opened Base64
  import opened MailStorage
  import opened DeliverySystem

  datatype Phase = WaitingForGreeting | ReadyForMail | MailTransaction | ReceivingMessage | Closing | Closed
  datatype AuthStage = NoAuth | PlainResponse | LoginUsername | LoginPassword

  datatype ServerConfig = ServerConfig(
    serverName: string,
    maxMessageSize: nat,
    requireAuthentication: bool,
    allowPlainWithoutTls: bool,
    tlsEnabled: bool)

  datatype Session = Session(
    phase: Phase,
    tlsActive: bool,
    tlsHandshakePending: bool,
    authenticated: bool,
    authStage: AuthStage,
    clientName: string,
    identity: string,
    pendingUsername: string,
    sender: string,
    recipients: seq<string>,
    buffer: string)

  const FreshSession :=
    Session(WaitingForGreeting, false, false, false, NoAuth, "", "", "", "", [], "")

  /** What the socket layer queues for one connection; a received line has lost its line ending. */
  datatype Event = Connected | MessageReceived(payload: string) | TlsSucceeded | TlsFailed | Disconnected

  /** What handling an event does to the outside, in order. A reply line is last unless a '-' follows its code. */
  datatype Effect =
    | Reply(code: nat, last: bool, text: string)
    | Stored(messageId: int, sender: string, recipients: seq<string>, body: string)
    | CloseRequested
    | TlsRequested

  /** The bytes of a reply line. */
  function Rendered(reply: Effect): string
    requires reply.Reply?
  {
    Decimal(reply.code) + (if reply.last then " " else "-") + reply.text + CRLF
  }

  /** The new session and tables, the effects, and whether an exception left the handler. */
  datatype Handled = Handled(session: Session, tables: Tables, effects: seq<Effect>, threw: bool)

  // ----- authentication -----

  datatype AuthResult = AuthResult(accepted: bool, identity: string)

  function Authenticate(users: map<string, string>, username: string, secret: string): AuthResult {
    if username in users && users[username] == secret then AuthResult(true, username) else AuthResult(false, "")
  }

  predicate IsAuthAllowed(config: ServerConfig, s: Session) {
    s.tlsActive || config.allowPlainWithoutTls
  }

  function AuthDone(s: Session, result: AuthResult): (Session, seq<Effect>) {
    (s.(authenticated := result.accepted, identity := result.identity, authStage := NoAuth, pendingUsername := ""),
     [if result.accepted then Reply(235, true, "Authentication successful")
      else Reply(535, true, "Authentication failed")])
  }

  function OnPlainResponse(users: map<string, string>, s: Session, encoded: string): (Session, seq<Effect>) {
    var credentials := ParsePlainAuth(encoded);
    if credentials.None? then (s.(authStage := NoAuth), [Reply(501, true, "Invalid authentication response")])
    else AuthDone(s, Authenticate(users, credentials.value.username, credentials.value.secret))
  }

  function OnLoginUsername(s: Session, encoded: string): (Session, seq<Effect>) {
    var username := Decoded(encoded);
    if username.None? || username.value == "" then (s.(authStage := NoAuth), [Reply(501, true, "Invalid username")])
    else (s.(pendingUsername := username.value, authStage := LoginPassword), [Reply(334, true, "UGFzc3dvcmQ6")])
  }

  function OnLoginPassword(users: map<string, string>, s: Session, encoded: string): (Session, seq<Effect>) {
    var secret := Decoded(encoded);
    if secret.None? then (s.(authStage := NoAuth, pendingUsername := ""), [Reply(501, true, "Invalid password")])
    else AuthDone(s, Authenticate(users, s.pendingUsername, secret.value))
  }

  // ----- commands -----

  function Reset(s: Session): Session {
    var cleared := s.(sender := "", recipients := [], buffer := "");
    if s.phase == Closed || s.phase == Closing then cleared else cleared.(phase := ReadyForMail)
  }

  /** The parameters of MAIL and RCPT stand behind a blank. */
  function WithoutParameters(path: string): string {
    var blank := Find(path, ' ');
    if blank.None? then path else path[..blank.value]
  }

  function WithoutBrackets(path: string): string {
    if |path| >= 2 && path[0] == '<' && path[|path| - 1] == '>' then path[1..|path| - 1] else path
  }

  /** The address of MAIL and RCPT: behind the first colon, as far as the first blank, without <>. */
  function ExtractPath(argument: string): string {
    var value := Trimmed(argument);
    var colon := Find(value, ':');
    var path := if colon.None? then value else Trimmed(value[colon.value + 1..]);
    WithoutBrackets(WithoutParameters(path))
  }

  function FirstWord(s: string): (r: string)
    ensures |r| <= |s|
  {
    if s == "" || IsSpace(s[0]) then "" else [s[0]] + FirstWord(s[1..])
  }

  /** Both operands of AUTH, as read from a stream. */
  function Words(s: string): (string, string) {
    var rest := TrimmedLeft(s);
    var first := FirstWord(rest);
    (first, FirstWord(TrimmedLeft(rest[|first|..])))
  }

  function Command(line: string): string {
    var blank := Find(line, ' ');
    if blank.None? then Upper(line) else Upper(line[..blank.value])
  }

  function Argument(line: string): string {
    var blank := Find(line, ' ');
    if blank.None? then "" else Trimmed(line[blank.value + 1..])
  }

  function OnHello(config: ServerConfig, s: Session, extended: bool, name: string): (Session, seq<Effect>) {
    var s' := s.(clientName := name, phase := ReadyForMail);
    (s', if !extended then [Reply(250, true, config.serverName)]
         else [Reply(250, false, config.serverName)]
              + (if config.tlsEnabled && !s.tlsActive then [Reply(250, false, "STARTTLS")] else [])
              + (if !s.authenticated && IsAuthAllowed(config, s) then [Reply(250, false, "AUTH PLAIN LOGIN")] else [])
              + [Reply(250, true, "SIZE " + Decimal(config.maxMessageSize))])
  }

  function OnStartTls(config: ServerConfig, s: Session): (Session, seq<Effect>) {
    if !config.tlsEnabled then (s, [Reply(454, true, "TLS not available")])
    else if s.tlsActive || s.tlsHandshakePending then (s, [Reply(503, true, "TLS is already active")])
    else if s.phase == ReceivingMessage then (s, [Reply(503, true, "Cannot start TLS during DATA")])
    else (Reset(s).(clientName := "", authenticated := false, identity := "", tlsHandshakePending := true,
                    phase := WaitingForGreeting),
          [Reply(220, true, "Ready to start TLS"), TlsRequested])
  }

  function OnAuthPlain(users: map<string, string>, s: Session, initial: string): (Session, seq<Effect>) {
    if initial == "" then (s.(authStage := PlainResponse), [Reply(334, true, "")])
    else
      var credentials := ParsePlainAuth(initial);
      if credentials.None? then (s, [Reply(501, true, "Invalid authentication response")])
      else AuthDone(s, Authenticate(users, credentials.value.username, credentials.value.secret))
  }

  function OnAuthLogin(s: Session, initial: string): (Session, seq<Effect>) {
    if initial == "" then (s.(authStage := LoginUsername), [Reply(334, true, "VXNlcm5hbWU6")])
    else
      var username := Decoded(initial);
      if username.None? || username.value == "" then (s, [Reply(501, true, "Invalid username")])
      else (s.(pendingUsername := username.value, authStage := LoginPassword), [Reply(334, true, "UGFzc3dvcmQ6")])
  }

  function OnAuth(config: ServerConfig, users: map<string, string>, s: Session, argument: string):
    (Session, seq<Effect>)
  {
    if s.authenticated then (s, [Reply(503, true, "Already authenticated")])
    else if !IsAuthAllowed(config, s) then
      (s, [Reply(538, true, "Encryption required for requested authentication mechanism")])
    else
      var (mechanism, initial) := Words(argument);
      if Upper(mechanism) == "PLAIN" then OnAuthPlain(users, s, initial)
      else if Upper(mechanism) == "LOGIN" then OnAuthLogin(s, initial)
      else (s, [Reply(504, true, "Unsupported authentication mechanism")])
  }

  function OnMail(config: ServerConfig, s: Session, argument: string): (Session, seq<Effect>) {
    if config.requireAuthentication && !s.authenticated then (s, [Reply(530, true, "Authentication required")])
    else if !StartsWithNoCase(argument, "FROM:") then (s, [Reply(501, true, "Expected MAIL FROM:<address>")])
    else
      var sender := ExtractPath(argument);
      if sender == "" then (s, [Reply(501, true, "Invalid sender")])
      else (Reset(s).(sender := sender, phase := MailTransaction), [Reply(250, true, "Sender OK")])
  }

  function OnRcpt(s: Session, argument: string): (Session, seq<Effect>) {
    if s.sender == "" then (s, [Reply(503, true, "Need MAIL FROM before RCPT TO")])
    else if !StartsWithNoCase(argument, "TO:") then (s, [Reply(501, true, "Expected RCPT TO:<address>")])
    else
      var recipient := ExtractPath(argument);
      if recipient == "" then (s, [Reply(501, true, "Invalid recipient")])
      else (s.(recipients := s.recipients + [recipient], phase := MailTransaction), [Reply(250, true, "Recipient OK")])
  }

  function OnDataCommand(s: Session): (Session, seq<Effect>) {
    if s.sender == "" || s.recipients == [] then
      (s, [Reply(503, true, "Need MAIL FROM and RCPT TO before DATA")])
    else (s.(phase := ReceivingMessage, buffer := ""), [Reply(354, true, "End data with <CR><LF>.<CR><LF>")])
  }

  const HELP_TEXT := "Commands: HELO EHLO MAIL RCPT DATA RSET VRFY EXPN HELP NOOP QUIT STARTTLS AUTH"

  datatype Verb =
    | Helo | Ehlo | StartTls | Auth | Mail | Rcpt | Data | Rset | Vrfy | Expn | Help | Noop | Quit | Unrecognized

  function VerbOf(command: string): Verb {
    if command == "HELO" then Helo
    else if command == "EHLO" then Ehlo
    else if command == "STARTTLS" then StartTls
    else if command == "AUTH" then Auth
    else if command == "MAIL" then Mail
    else if command == "RCPT" then Rcpt
    else if command == "DATA" then Data
    else if command == "RSET" then Rset
    else if command == "VRFY" then Vrfy
    else if command == "EXPN" then Expn
    else if command == "HELP" then Help
    else if command == "NOOP" then Noop
    else if command == "QUIT" then Quit
    else Unrecognized
  }

  function OnCommand(config: ServerConfig, users: map<string, string>, s: Session, verb: Verb, argument: string):
    (Session, seq<Effect>)
  {
    match verb
    case Helo => OnHello(config, s, false, argument)
    case Ehlo => OnHello(config, s, true, argument)
    case StartTls => OnStartTls(config, s)
    case Auth => OnAuth(config, users, s, argument)
    case Mail => OnMail(config, s, argument)
    case Rcpt => OnRcpt(s, argument)
    case Data => OnDataCommand(s)
    case Rset => (Reset(s), [Reply(250, true, "Reset OK")])
    case Vrfy => (s, [Reply(252, true, "Cannot VRFY user, but will accept message")])
    case Expn => (s, [Reply(502, true, "EXPN not implemented")])
    case Help => (s, [Reply(214, true, HELP_TEXT)])
    case Noop => (s, [Reply(250, true, "OK")])
    case Quit => (s.(phase := Closing), [Reply(221, true, config.serverName + " closing connection"), CloseRequested])
    case Unrecognized => (s, [Reply(500, true, "Command unrecognized")])
  }

  // ----- message data -----

  /** A leading dot before a dot was put there by the sender. */
  function Unstuffed(line: string): string {
    if StartsWithNoCase(line, "..") then line[1..] else line
  }

  /** A line between DATA and the final dot; fails says that a statement of StoreMessage throws. */
  function OnDataLine(config: ServerConfig, t: Tables, s: Session, line: string, fails: bool): Handled {
    if line == "." then
      if fails then Handled(s, t, [], true)
      else
        var id := t.lastMessageId + 1;
        Handled(Reset(s), StoreMail(t, s.sender, s.recipients, s.buffer),
                [Stored(id, s.sender, s.recipients, s.buffer),
                 Reply(250, true, "Message accepted as " + Decimal(id))], false)
    else
      var text := Unstuffed(line);
      if |s.buffer| + |text| + 2 > config.maxMessageSize then
        Handled(Reset(s), t, [Reply(552, true, "Message size exceeds fixed maximum message size")], false)
      else Handled(s.(buffer := s.buffer + text + CRLF), t, [], false)
  }

  // ----- events -----

  function OnLine(config: ServerConfig, users: map<string, string>, t: Tables, s: Session, payload: string,
                  fails: bool):
    Handled
  {
    var line := Trimmed(payload);
    if s.authStage == NoAuth && s.phase == ReceivingMessage then OnDataLine(config, t, s, line, fails)
    else
      var (s', effects) :=
        match s.authStage
        case PlainResponse => OnPlainResponse(users, s, line)
        case LoginUsername => OnLoginUsername(s, line)
        case LoginPassword => OnLoginPassword(users, s, line)
        case NoAuth => OnCommand(config, users, s, VerbOf(Command(line)), Argument(line));
      Handled(s', t, effects, false)
  }

  function Handle(config: ServerConfig, users: map<string, string>, t: Tables, s: Session, event: Event, fails: bool):
    Handled
  {
    match event
    case Connected =>
      Handled(s.(phase := WaitingForGreeting), t, [Reply(220, true, config.serverName + " ESMTP ready")], false)
    case MessageReceived(payload) => OnLine(config, users, t, s, payload, fails)
    case TlsSucceeded =>
      var s' := s.(tlsActive := true, tlsHandshakePending := false, clientName := "");
      Handled(Reset(s').(phase := WaitingForGreeting), t, [], false)
    case TlsFailed => Handled(s.(tlsHandshakePending := false, phase := Closed), t, [CloseRequested], false)
    case Disconnected => Handled(Reset(s).(phase := Closed), t, [], false)
  }
}
