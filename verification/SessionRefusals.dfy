/** When the server refuses a command of a mail, and what a refusal leaves behind: nothing. */
module SessionRefusals {
  import opened Text
  import opened Base64
  import opened MailStorage
  import opened SmtpSession
  import opened SessionInvariant
  import opened SessionOffers

  /** MAIL is accepted exactly where it may be used, with FROM: and an address. */
  lemma MailAcceptedIff(config: ServerConfig, users: map<string, string>, s: Session, argument: string)
    ensures var (s', effects) := OnCommand(config, users, s, Mail, argument);
      && |effects| == 1 && FirstCode(effects) in {250, 501, 530}
      && (FirstCode(effects) == 530 <==> config.requireAuthentication && !s.authenticated)
      && (FirstCode(effects) == 250 <==>
            && (config.requireAuthentication ==> s.authenticated)
            && StartsWithNoCase(argument, "FROM:") && ExtractPath(argument) != "")
  {
    hide ExtractPath, StartsWithNoCase;
  }

  /** RCPT is accepted exactly behind MAIL, with TO: and an address. */
  lemma RcptAcceptedIff(config: ServerConfig, users: map<string, string>, s: Session, argument: string)
    ensures var (s', effects) := OnCommand(config, users, s, Rcpt, argument);
      && |effects| == 1 && FirstCode(effects) in {250, 501, 503}
      && (FirstCode(effects) == 503 <==> s.sender == "")
      && (FirstCode(effects) == 250 <==>
            s.sender != "" && StartsWithNoCase(argument, "TO:") && ExtractPath(argument) != "")
  {
    hide ExtractPath, StartsWithNoCase;
  }

  /** DATA is accepted exactly with a sender and a recipient. */
  lemma DataAcceptedIff(config: ServerConfig, users: map<string, string>, s: Session, argument: string)
    ensures var (s', effects) := OnCommand(config, users, s, Data, argument);
      && |effects| == 1 && FirstCode(effects) in {354, 503}
      && (FirstCode(effects) == 354 <==> s.sender != "" && s.recipients != [])
      && (FirstCode(effects) == 354 ==> s' == s.(phase := ReceivingMessage, buffer := ""))
  {}

  /** HELO is answered with one line, the name of the server. */
  lemma HeloReply(config: ServerConfig, users: map<string, string>, s: Session, name: string)
    ensures OnCommand(config, users, s, Helo, name)
         == (s.(clientName := name, phase := ReadyForMail), [Reply(250, true, config.serverName)])
  {}

  /** The other commands only inform: one line, and the session stays as it is. */
  lemma OthersInform(config: ServerConfig, users: map<string, string>, s: Session, verb: Verb, argument: string)
    requires verb in {Vrfy, Expn, Help, Noop, Unrecognized}
    ensures var (s', effects) := OnCommand(config, users, s, verb, argument);
      && s' == s && |effects| == 1 && effects[0].Reply? && effects[0].last
      && effects[0].code
         == (match verb case Vrfy => 252 case Expn => 502 case Help => 214 case Noop => 250 case _ => 500)
  {}

  // ----- the command words -----

  const NAMES: seq<string> :=
    ["HELO", "EHLO", "STARTTLS", "AUTH", "MAIL", "RCPT", "DATA", "RSET", "VRFY", "EXPN", "HELP", "NOOP", "QUIT"]

  const VERBS: seq<Verb> :=
    [Helo, Ehlo, StartTls, Auth, Mail, Rcpt, Data, Rset, Vrfy, Expn, Help, Noop, Quit]

  /** Each word names its verb, different words name different verbs, and no other word names one. */
  lemma VerbNames(command: string)
    ensures forall i :: 0 <= i < |NAMES| ==> (VerbOf(command) == VERBS[i] <==> command == NAMES[i])
    ensures VerbOf(command) == Unrecognized <==> command !in NAMES
  {
    assert "HELO"[0] == 'H' && "HELO"[1] == 'E' && "HELO"[3] == 'O' && "HELP"[0] == 'H' && "HELP"[3] == 'P';
    assert "EHLO"[0] == 'E' && "EHLO"[1] == 'H' && "EXPN"[0] == 'E' && "EXPN"[1] == 'X';
    assert "RCPT"[0] == 'R' && "RCPT"[1] == 'C' && "RSET"[0] == 'R' && "RSET"[1] == 'S';
    assert "AUTH"[0] == 'A' && "MAIL"[0] == 'M' && "DATA"[0] == 'D' && "VRFY"[0] == 'V' && "NOOP"[0] == 'N';
    assert "QUIT"[0] == 'Q' && |"STARTTLS"| == 8;
  }

  // ----- a refusal changes nothing -----

  /** A reply of 400 or more leaves the session as it was. */
  ghost predicate RefusalKeeps(s: Session, r: (Session, seq<Effect>)) {
    FirstCode(r.1) >= 400 ==> r.0 == s
  }

  lemma HelloRefusal(config: ServerConfig, s: Session, extended: bool, argument: string)
    ensures RefusalKeeps(s, OnHello(config, s, extended, argument))
  {
    hide Decimal, IsAuthAllowed;
  }

  lemma MailRefusal(config: ServerConfig, s: Session, argument: string)
    ensures RefusalKeeps(s, OnMail(config, s, argument)) && RefusalKeeps(s, OnRcpt(s, argument))
    ensures RefusalKeeps(s, OnDataCommand(s))
  {
    hide ExtractPath, StartsWithNoCase, Reset;
  }

  lemma StartTlsRefusal(config: ServerConfig, s: Session)
    ensures RefusalKeeps(s, OnStartTls(config, s))
  {
    hide Reset;
  }

  lemma AuthRefusal(config: ServerConfig, users: map<string, string>, s: Session, argument: string)
    requires SessionInv(config, s) && s.authStage == NoAuth
    ensures RefusalKeeps(s, OnAuth(config, users, s, argument))
  {
    var (mechanism, initial) := Words(argument);
    if !s.authenticated {
      assert s.identity == "" && s.pendingUsername == "";
      MechanismRefusal(users, s, initial);
    }
    hide OnAuthPlain, OnAuthLogin, Words, Upper, IsAuthAllowed, SessionInv;
  }

  lemma MechanismRefusal(users: map<string, string>, s: Session, initial: string)
    requires s.authStage == NoAuth && !s.authenticated && s.identity == "" && s.pendingUsername == ""
    ensures RefusalKeeps(s, OnAuthPlain(users, s, initial)) && RefusalKeeps(s, OnAuthLogin(s, initial))
  {
    hide ParsePlainAuth, Decoded;
  }

  lemma RestRefusal(config: ServerConfig, users: map<string, string>, s: Session, verb: Verb, argument: string)
    requires verb in {Rset, Vrfy, Expn, Help, Noop, Quit, Unrecognized}
    ensures RefusalKeeps(s, OnCommand(config, users, s, verb, argument))
  {
    hide OnHello, OnMail, OnRcpt, OnDataCommand, OnStartTls, OnAuth, Reset;
  }

  /** Whatever command is refused, the session is as if it had not been sent. */
  lemma RefusedChangesNothing(config: ServerConfig, users: map<string, string>, s: Session, verb: Verb,
                              argument: string)
    requires SessionInv(config, s) && s.authStage == NoAuth
    ensures RefusalKeeps(s, OnCommand(config, users, s, verb, argument))
  {
    hide OnHello, OnMail, OnRcpt, OnDataCommand, OnStartTls, OnAuth, SessionInv, Reset, RefusalKeeps;
    match verb
    case Helo => HelloRefusal(config, s, false, argument);
    case Ehlo => HelloRefusal(config, s, true, argument);
    case StartTls => StartTlsRefusal(config, s);
    case Auth => AuthRefusal(config, users, s, argument);
    case Mail => MailRefusal(config, s, argument);
    case Rcpt => MailRefusal(config, s, argument);
    case Data => MailRefusal(config, s, argument);
    case _ => RestRefusal(config, users, s, verb, argument);
  }

  // ----- the end of a session -----

  predicate IsOver(s: Session) {
    s.phase == Closing || s.phase == Closed
  }

  lemma ResponsesKeepPhase(users: map<string, string>, s: Session, line: string)
    ensures OnPlainResponse(users, s, line).0.phase == s.phase && OnLoginUsername(s, line).0.phase == s.phase
    ensures OnLoginPassword(users, s, line).0.phase == s.phase
  {
    hide ParsePlainAuth, Decoded, Authenticate;
  }

  lemma MechanismsKeepPhase(users: map<string, string>, s: Session, initial: string)
    ensures OnAuthPlain(users, s, initial).0.phase == s.phase && OnAuthLogin(s, initial).0.phase == s.phase
  {
    hide ParsePlainAuth, Decoded, Authenticate;
  }

  lemma AuthKeepsPhase(config: ServerConfig, users: map<string, string>, s: Session, argument: string)
    ensures OnAuth(config, users, s, argument).0.phase == s.phase
  {
    MechanismsKeepPhase(users, s, Words(argument).1);
    hide OnAuthPlain, OnAuthLogin, Words, Upper, IsAuthAllowed;
  }

  lemma MailGoesOn(config: ServerConfig, s: Session, argument: string)
    requires !IsOver(s)
    ensures !IsOver(OnMail(config, s, argument).0) && !IsOver(OnRcpt(s, argument).0) && !IsOver(OnDataCommand(s).0)
  {
    hide ExtractPath, StartsWithNoCase;
  }

  lemma HelloGoesOn(config: ServerConfig, s: Session, argument: string, extended: bool)
    requires !IsOver(s)
    ensures !IsOver(OnHello(config, s, extended, argument).0) && !IsOver(OnStartTls(config, s).0)
  {
    hide Decimal, IsAuthAllowed;
  }

  lemma RestGoesOn(config: ServerConfig, users: map<string, string>, s: Session, verb: Verb, argument: string)
    requires verb in {Rset, Vrfy, Expn, Help, Noop, Unrecognized} && !IsOver(s)
    ensures !IsOver(OnCommand(config, users, s, verb, argument).0)
  {
    hide OnHello, OnMail, OnRcpt, OnDataCommand, OnStartTls, OnAuth;
  }

  lemma QuitEnds(config: ServerConfig, users: map<string, string>, s: Session, argument: string)
    ensures var (s', effects) := OnCommand(config, users, s, Quit, argument);
      s'.phase == Closing && CloseRequested in effects
  {
    hide OnHello, OnMail, OnRcpt, OnDataCommand, OnStartTls, OnAuth;
    var effects := OnCommand(config, users, s, Quit, argument).1;
    assert effects[1] == CloseRequested;
  }

  /** QUIT ends a session, and no other command does. */
  lemma CommandEnds(config: ServerConfig, users: map<string, string>, s: Session, verb: Verb, argument: string)
    requires !IsOver(s)
    ensures IsOver(OnCommand(config, users, s, verb, argument).0) <==> verb == Quit
  {
    assert IsOver(s) <==> s.phase == Closing || s.phase == Closed;
    hide OnHello, OnMail, OnRcpt, OnDataCommand, OnStartTls, OnAuth, Reset;
    match verb
    case Helo => HelloGoesOn(config, s, argument, false);
    case Ehlo => HelloGoesOn(config, s, argument, true);
    case StartTls => HelloGoesOn(config, s, argument, true);
    case Auth => AuthKeepsPhase(config, users, s, argument);
    case Mail => MailGoesOn(config, s, argument);
    case Rcpt => MailGoesOn(config, s, argument);
    case Data => MailGoesOn(config, s, argument);
    case Quit => QuitEnds(config, users, s, argument);
    case _ => RestGoesOn(config, users, s, verb, argument);
  }

  /** RSET forgets the mail, and a session that is over stays so. */
  lemma ResetForgets(config: ServerConfig, users: map<string, string>, s: Session, argument: string)
    ensures var s' := OnCommand(config, users, s, Rset, argument).0;
      IsOver(s') == IsOver(s) && s'.sender == "" && s'.recipients == [] && s'.buffer == ""
  {}

  lemma DataGoesOn(config: ServerConfig, t: Tables, s: Session, line: string, fails: bool)
    requires !IsOver(s)
    ensures !IsOver(OnDataLine(config, t, s, line, fails).session)
  {
    hide Decimal, Unstuffed;
  }

  lemma CommandAsks(config: ServerConfig, users: map<string, string>, s: Session, verb: Verb, argument: string)
    requires !IsOver(s)
    ensures var (s', effects) := OnCommand(config, users, s, verb, argument); IsOver(s') ==> CloseRequested in effects
  {
    hide *;
    CommandEnds(config, users, s, verb, argument);
    QuitEnds(config, users, s, argument);
  }

  lemma LineEnds(config: ServerConfig, users: map<string, string>, t: Tables, s: Session, payload: string, fails: bool)
    requires !IsOver(s)
    ensures var h := OnLine(config, users, t, s, payload, fails); IsOver(h.session) ==> CloseRequested in h.effects
  {
    var line := Trimmed(payload);
    hide OnDataLine, OnCommand, OnPlainResponse, OnLoginUsername, OnLoginPassword, Trimmed, Command, Argument, VerbOf;
    DataGoesOn(config, t, s, line, fails);
    CommandAsks(config, users, s, VerbOf(Command(line)), Argument(line));
    ResponsesKeepPhase(users, s, line);
  }

  /**
   A session that is over has asked for the connection to be closed, unless it was told that it is: QUIT and a failed
   handshake end it, and so does Disconnected.
   */
  lemma EndAsksForClose(config: ServerConfig, users: map<string, string>, t: Tables, s: Session, event: Event,
                        fails: bool)
    requires !IsOver(s)
    ensures var h := Handle(config, users, t, s, event, fails);
      && (event == TlsFailed ==> h.session.phase == Closed && CloseRequested in h.effects)
      && (event == Disconnected ==> h.session.phase == Closed)
      && (IsOver(h.session) && event != Disconnected ==> CloseRequested in h.effects)
  {
    if event.MessageReceived? {
      LineEnds(config, users, t, s, event.payload, fails);
    }
    hide OnLine;
  }
}
