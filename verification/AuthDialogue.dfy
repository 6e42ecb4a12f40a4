/**
 Who a session is authenticated as, against the dialogue: the credentials that the client's lines carried, and the
 replies.
 */
module AuthDialogue {
  import opened Wrappers
  import opened Text
  import opened Base64
  import opened MailStorage
  import opened SmtpSession
  import opened SessionInvariant
  import opened SessionDialogue

  /** What the next line is taken for: a command, a PLAIN message, a user name, or the password of a user. */
  datatype Waiting = ForCommand | ForPlain | ForUser | ForPassword(user: string)

  /** What the dialogue shows of authentication: what is waited for, as whom the client was accepted, and TLS. */
  datatype AuthView = AuthView(waiting: Waiting, who: Option<string>, tls: bool)

  const Stranger := AuthView(ForCommand, None, false)

  function CodeOf(effects: seq<Effect>): nat {
    if effects != [] && effects[0].Reply? then effects[0].code else 0
  }

  predicate IsAuthWith(line: string, mechanism: string) {
    VerbOf(Command(line)) == Auth && Upper(Words(Argument(line)).0) == mechanism
  }

  /** The operand behind the mechanism. */
  function Initial(line: string): string {
    Words(Argument(line)).1
  }

  /** The credentials that the line completes, if it completes any. */
  function Offered(waiting: Waiting, line: string): Option<Credentials> {
    match waiting
    case ForCommand => if IsAuthWith(line, "PLAIN") && Initial(line) != "" then ParsePlainAuth(Initial(line)) else None
    case ForPlain => ParsePlainAuth(line)
    case ForUser => None
    case ForPassword(user) =>
      var secret := Decoded(line);
      if secret.None? then None else Some(Credentials(user, secret.value))
  }

  function OrEmpty(s: Option<string>): string {
    if s.None? then "" else s.value
  }

  /** What is waited for once the line was answered with 334. */
  function Awaited(waiting: Waiting, line: string): Waiting {
    match waiting
    case ForCommand =>
      if IsAuthWith(line, "PLAIN") then ForPlain
      else if Initial(line) == "" then ForUser
      else ForPassword(OrEmpty(Decoded(Initial(line))))
    case ForUser => ForPassword(OrEmpty(Decoded(line)))
    case _ => ForCommand
  }

  function LineStep(v: AuthView, line: string, code: nat): AuthView {
    var offered := Offered(v.waiting, line);
    AuthView(if code == 334 then Awaited(v.waiting, line) else ForCommand,
             if code == 235 && offered.Some? then Some(offered.value.username)
             else if v.waiting == ForCommand && VerbOf(Command(line)) == StartTls && code == 220 then None
             else v.who,
             v.tls)
  }

  /** inData: the lines are those of a message. */
  function AuthStep(v: AuthView, inData: bool, x: Exchange): AuthView {
    match x.event
    case MessageReceived(payload) =>
      if inData && v.waiting == ForCommand then v else LineStep(v, Trimmed(payload), CodeOf(x.effects))
    case TlsSucceeded => v.(tls := true)
    case _ => v
  }

  /** What the whole dialogue shows. */
  function AuthOf(h: seq<Exchange>): AuthView {
    if h == [] then Stranger
    else
      var before := h[..|h| - 1];
      AuthStep(AuthOf(before), ViewOf(before).body.Some?, h[|h| - 1])
  }

  predicate Correct(users: map<string, string>, offered: Option<Credentials>) {
    offered.Some? && offered.value.username in users && users[offered.value.username] == offered.value.secret
  }

  // ----- the session's fields are that view -----

  function AuthFields(s: Session): AuthView {
    AuthView(match s.authStage
             case NoAuth => ForCommand
             case PlainResponse => ForPlain
             case LoginUsername => ForUser
             case LoginPassword => ForPassword(s.pendingUsername),
             if s.authenticated then Some(s.identity) else None,
             s.tlsActive)
  }

  /** The line was answered 235 exactly for correct credentials, and the fields went on as the view does. */
  ghost predicate Matches(users: map<string, string>, s: Session, line: string, r: (Session, seq<Effect>)) {
    && AuthFields(r.0) == LineStep(AuthFields(s), line, CodeOf(r.1))
    && (CodeOf(r.1) == 235 <==> Correct(users, Offered(AuthFields(s).waiting, line)))
  }

  lemma PlainLine(config: ServerConfig, users: map<string, string>, s: Session, line: string)
    requires SessionInv(config, s) && s.authStage == PlainResponse
    ensures Matches(users, s, line, OnPlainResponse(users, s, line))
  {
    hide ParsePlainAuth, IsAuthWith, Initial, Decoded, Command, VerbOf;
  }

  lemma UserLine(config: ServerConfig, users: map<string, string>, s: Session, line: string)
    requires SessionInv(config, s) && s.authStage == LoginUsername
    ensures Matches(users, s, line, OnLoginUsername(s, line))
  {
    hide ParsePlainAuth, IsAuthWith, Initial, Decoded, Command, VerbOf;
  }

  lemma PasswordLine(config: ServerConfig, users: map<string, string>, s: Session, line: string)
    requires SessionInv(config, s) && s.authStage == LoginPassword
    ensures Matches(users, s, line, OnLoginPassword(users, s, line))
  {
    hide ParsePlainAuth, IsAuthWith, Initial, Decoded, Command, VerbOf;
  }

  /** AUTH may be used: nobody is authenticated yet, and the connection is secure enough. */
  predicate MayAuthenticate(config: ServerConfig, v: AuthView) {
    v.who.None? && (v.tls || config.allowPlainWithoutTls)
  }

  ghost predicate CommandMatches(config: ServerConfig, users: map<string, string>, s: Session, line: string,
                                 r: (Session, seq<Effect>))
  {
    && AuthFields(r.0) == LineStep(AuthFields(s), line, CodeOf(r.1))
    && (CodeOf(r.1) == 235 <==> MayAuthenticate(config, AuthFields(s)) && Correct(users, Offered(ForCommand, line)))
  }

  lemma PlainCommand(users: map<string, string>, s: Session, line: string)
    requires s.authStage == NoAuth && !s.authenticated && IsAuthWith(line, "PLAIN")
    ensures var r := OnAuthPlain(users, s, Initial(line));
      && AuthFields(r.0) == LineStep(AuthFields(s), line, CodeOf(r.1))
      && (CodeOf(r.1) == 235 <==> Correct(users, Offered(ForCommand, line)))
  {
    hide ParsePlainAuth, Initial, Decoded, Command;
  }

  lemma LoginCommand(users: map<string, string>, s: Session, line: string)
    requires s.authStage == NoAuth && !s.authenticated && IsAuthWith(line, "LOGIN")
    ensures var r := OnAuthLogin(s, Initial(line));
      && AuthFields(r.0) == LineStep(AuthFields(s), line, CodeOf(r.1))
      && CodeOf(r.1) != 235 && Offered(ForCommand, line) == None
  {
    assert !IsAuthWith(line, "PLAIN") by {
      assert "LOGIN"[0] == 'L' && "PLAIN"[0] == 'P';
    }
    hide ParsePlainAuth, Initial, Decoded, Command, IsAuthWith;
    assert IsAuthWith(line, "LOGIN");
  }

  lemma AuthCommand(config: ServerConfig, users: map<string, string>, s: Session, line: string)
    requires s.authStage == NoAuth && VerbOf(Command(line)) == Auth
    ensures CommandMatches(config, users, s, line, OnAuth(config, users, s, Argument(line)))
  {
    var (mechanism, initial) := Words(Argument(line));
    assert IsAuthWith(line, "PLAIN") <==> Upper(mechanism) == "PLAIN";
    assert IsAuthWith(line, "LOGIN") <==> Upper(mechanism) == "LOGIN";
    assert Initial(line) == initial;
    if !s.authenticated && IsAuthAllowed(config, s) {
      if Upper(mechanism) == "PLAIN" {
        PlainCommand(users, s, line);
      } else if Upper(mechanism) == "LOGIN" {
        LoginCommand(users, s, line);
      }
    }
    hide OnAuthPlain, OnAuthLogin, Words, Upper, ParsePlainAuth, Initial, Decoded, Command, IsAuthWith;
  }

  /** The other commands ask for no credentials. */
  ghost predicate Unrelated(s: Session, r: (Session, seq<Effect>)) {
    && r.0.authStage == s.authStage && r.0.pendingUsername == s.pendingUsername && r.0.tlsActive == s.tlsActive
    && CodeOf(r.1) != 235 && CodeOf(r.1) != 334
  }

  lemma HelloIsUnrelated(config: ServerConfig, s: Session, extended: bool, argument: string)
    ensures var r := OnHello(config, s, extended, argument);
      Unrelated(s, r) && r.0.authenticated == s.authenticated && r.0.identity == s.identity
  {
    hide Decimal, IsAuthAllowed;
  }

  lemma MailIsUnrelated(config: ServerConfig, s: Session, argument: string)
    ensures var r := OnMail(config, s, argument);
      Unrelated(s, r) && r.0.authenticated == s.authenticated && r.0.identity == s.identity
  {
    hide ExtractPath, StartsWithNoCase;
  }

  lemma RcptIsUnrelated(s: Session, argument: string)
    ensures var r := OnRcpt(s, argument);
      Unrelated(s, r) && r.0.authenticated == s.authenticated && r.0.identity == s.identity
  {
    hide ExtractPath, StartsWithNoCase;
  }

  lemma CodeOfOne(code: nat, text: string)
    ensures CodeOf([Reply(code, true, text)]) == code
  {}

  lemma DataIsUnrelated(s: Session)
    ensures var r := OnDataCommand(s);
      Unrelated(s, r) && r.0.authenticated == s.authenticated && r.0.identity == s.identity
  {
    CodeOfOne(503, "Need MAIL FROM and RCPT TO before DATA");
    CodeOfOne(354, "End data with <CR><LF>.<CR><LF>");
    hide CodeOf;
  }

  lemma StartTlsIsUnrelated(config: ServerConfig, s: Session)
    ensures var r := OnStartTls(config, s);
      && Unrelated(s, r)
      && (if CodeOf(r.1) == 220 then !r.0.authenticated
          else r.0.authenticated == s.authenticated && r.0.identity == s.identity)
  {}

  lemma OtherCommand(config: ServerConfig, users: map<string, string>, s: Session, verb: Verb, argument: string)
    requires verb != Auth
    ensures var r := OnCommand(config, users, s, verb, argument);
      && Unrelated(s, r)
      && (if verb == StartTls && CodeOf(r.1) == 220 then !r.0.authenticated
          else r.0.authenticated == s.authenticated && r.0.identity == s.identity)
  {
    HelloIsUnrelated(config, s, verb == Ehlo, argument);
    MailIsUnrelated(config, s, argument);
    RcptIsUnrelated(s, argument);
    DataIsUnrelated(s);
    StartTlsIsUnrelated(config, s);
    hide OnHello, OnMail, OnRcpt, OnDataCommand, OnStartTls;
  }

  lemma CommandLineMatches(config: ServerConfig, users: map<string, string>, s: Session, line: string)
    requires s.authStage == NoAuth
    ensures CommandMatches(config, users, s, line, OnCommand(config, users, s, VerbOf(Command(line)), Argument(line)))
  {
    var verb := VerbOf(Command(line));
    if verb == Auth {
      AuthCommand(config, users, s, line);
      hide OnAuth, CommandMatches;
    } else {
      OtherCommand(config, users, s, verb, Argument(line));
      assert Offered(ForCommand, line) == None;
      hide OnCommand, Command, Argument, VerbOf, Offered;
    }
  }

  // ----- any event -----

  /** The line is one of a message, not of the dialogue. */
  predicate IsText(s: Session) {
    s.phase == ReceivingMessage && s.authStage == NoAuth
  }

  lemma ResetKeepsAuth(s: Session)
    ensures AuthFields(Reset(s)) == AuthFields(s)
  {}

  lemma DataLineKeepsAuth(config: ServerConfig, t: Tables, s: Session, line: string, fails: bool)
    ensures AuthFields(OnDataLine(config, t, s, line, fails).session) == AuthFields(s)
    ensures CodeOf(OnDataLine(config, t, s, line, fails).effects) != 235
  {
    hide Decimal, Unstuffed, Reset;
    ResetKeepsAuth(s);
    CodeOfOne(552, "Message size exceeds fixed maximum message size");
  }

  /** Which lines are answered with 235, and what becomes of the fields. */
  lemma LineMatches(config: ServerConfig, users: map<string, string>, t: Tables, s: Session, payload: string,
                    fails: bool)
    requires SessionInv(config, s)
    ensures var h, v, line := OnLine(config, users, t, s, payload, fails), AuthFields(s), Trimmed(payload);
      && AuthFields(h.session) == (if IsText(s) then v else LineStep(v, line, CodeOf(h.effects)))
      && (CodeOf(h.effects) == 235 <==>
            && !IsText(s) && Correct(users, Offered(v.waiting, line))
            && (v.waiting == ForCommand ==> MayAuthenticate(config, v)))
  {
    var line := Trimmed(payload);
    if IsText(s) {
      DataLineKeepsAuth(config, t, s, line, fails);
      hide OnDataLine, AuthFields, CodeOf, Trimmed;
    } else {
      match s.authStage
      case PlainResponse =>
        PlainLine(config, users, s, line);
        hide OnPlainResponse, CodeOf, Trimmed, LineStep, Offered, Correct;
      case LoginUsername =>
        UserLine(config, users, s, line);
        hide OnLoginUsername, CodeOf, Trimmed, LineStep, Offered, Correct;
      case LoginPassword =>
        PasswordLine(config, users, s, line);
        hide OnLoginPassword, CodeOf, Trimmed, LineStep, Offered, Correct;
      case NoAuth =>
        CommandLineMatches(config, users, s, line);
        hide OnCommand, CodeOf, Trimmed, LineStep, Offered, Correct, VerbOf, Command, Argument;
    }
  }

  lemma OtherEventsMatch(config: ServerConfig, users: map<string, string>, s: Session, input: Input)
    requires !input.event.MessageReceived?
    ensures AuthFields(Next(config, users, s, input))
         == if input.event.TlsSucceeded? then AuthFields(s).(tls := true) else AuthFields(s)
    ensures CodeOf(Effects(config, users, s, input)) != 235
  {
    hide OnLine;
  }

  lemma EventMatches(config: ServerConfig, users: map<string, string>, s: Session, input: Input)
    requires SessionInv(config, s)
    ensures AuthFields(Next(config, users, s, input))
         == AuthStep(AuthFields(s), s.phase == ReceivingMessage,
                     Exchange(input.event, Effects(config, users, s, input)))
  {
    if input.event.MessageReceived? {
      LineMatches(config, users, input.tables, s, input.event.payload, input.fails);
      assert AuthFields(s).waiting == ForCommand <==> s.authStage == NoAuth;
      hide OnLine, AuthFields, LineStep, Offered, Trimmed, SessionInv, CodeOf;
    } else {
      OtherEventsMatch(config, users, s, input);
      hide Next, Effects, AuthFields;
    }
  }

  lemma AuthOfMore(h: seq<Exchange>, x: Exchange)
    ensures AuthOf(h + [x]) == AuthStep(AuthOf(h), ViewOf(h).body.Some?, x)
  {
    assert (h + [x])[..|h|] == h;
    hide AuthStep, ViewOf;
  }

  lemma DialogueMore(config: ServerConfig, users: map<string, string>, s: Session, h: seq<Exchange>, inputs: seq<Input>)
    requires inputs != []
    ensures var s1 := Next(config, users, s, inputs[0]);
      var x := Exchange(inputs[0].event, Effects(config, users, s, inputs[0]));
      && After(config, users, s, inputs) == After(config, users, s1, inputs[1..])
      && h + Dialogue(config, users, s, inputs) == h + [x] + Dialogue(config, users, s1, inputs[1..])
  {
    var s1, x := Next(config, users, s, inputs[0]), Exchange(inputs[0].event, Effects(config, users, s, inputs[0]));
    assert Dialogue(config, users, s, inputs) == [x] + Dialogue(config, users, s1, inputs[1..]);
    hide Next, Effects, Dialogue;
    Associates(h, [x], Dialogue(config, users, s1, inputs[1..]));
  }

  lemma Associates<T>(a: seq<T>, b: seq<T>, c: seq<T>)
    ensures a + (b + c) == a + b + c && a + [] == a
  {}

  lemma NoDialogue(config: ServerConfig, users: map<string, string>, s: Session)
    ensures After(config, users, s, []) == s && Dialogue(config, users, s, []) == []
  {}

  lemma InDataIs(s: Session)
    ensures Fields(s).body.Some? <==> s.phase == ReceivingMessage
  {}

  lemma {:induction false} AuthIsView(config: ServerConfig, users: map<string, string>, s: Session, h: seq<Exchange>,
                                      inputs: seq<Input>)
    requires SessionInv(config, s) && Fields(s) == ViewOf(h) && AuthFields(s) == AuthOf(h)
    ensures AuthFields(After(config, users, s, inputs)) == AuthOf(h + Dialogue(config, users, s, inputs))
    decreases |inputs|
  {
    hide *;
    if inputs == [] {
      NoDialogue(config, users, s);
      Associates(h, h, h);
    } else {
      var x := Exchange(inputs[0].event, Effects(config, users, s, inputs[0]));
      InDataIs(s);
      EventAdvances(config, users, s, inputs[0]);
      EventKeeps(config, users, s, inputs[0]);
      EventMatches(config, users, s, inputs[0]);
      AuthOfMore(h, x);
      ViewOfMore(h, x);
      AuthIsView(config, users, Next(config, users, s, inputs[0]), h + [x], inputs[1..]);
      DialogueMore(config, users, s, h, inputs);
    }
  }

  lemma ViewOfMore(h: seq<Exchange>, x: Exchange)
    ensures ViewOf(h + [x]) == Advance(ViewOf(h), RoleOf(x))
  {
    assert (h + [x])[..|h|] == h;
    hide Advance, RoleOf;
  }

  // ----- what that means -----

  /** The view of a session is that of its dialogue, from its first event on. */
  lemma SessionShows(config: ServerConfig, users: map<string, string>, inputs: seq<Input>)
    ensures var s, h := After(config, users, FreshSession, inputs), Dialogue(config, users, FreshSession, inputs);
      && SessionInv(config, s) && AuthFields(s) == AuthOf(h)
      && (s.phase == ReceivingMessage <==> ViewOf(h).body.Some?)
  {
    FreshHolds(config);
    assert Fields(FreshSession) == ViewOf([]) && AuthFields(FreshSession) == AuthOf([]);
    var s, h := After(config, users, FreshSession, inputs), Dialogue(config, users, FreshSession, inputs);
    assert [] + h == h;
    assert Fields(s).body.Some? <==> s.phase == ReceivingMessage;
    hide After, Dialogue, ViewOf, AuthOf, Fields, AuthFields, SessionInv;
    AuthIsView(config, users, FreshSession, [], inputs);
    FieldsAreView(config, users, FreshSession, [], inputs);
    InvariantAlways(config, users, FreshSession, inputs);
  }

  /**
   Over any events: a line is answered with 235 if and only if the credentials that the dialogue carried are a user
   and its password; in one line with AUTH only where nobody is authenticated yet and TLS is on or not needed.
   */
  lemma AcceptedIffCorrect(config: ServerConfig, users: map<string, string>, inputs: seq<Input>, t: Tables,
                           payload: string, fails: bool)
    ensures var s, h := After(config, users, FreshSession, inputs), Dialogue(config, users, FreshSession, inputs);
      var v, isText := AuthOf(h), ViewOf(h).body.Some? && AuthOf(h).waiting == ForCommand;
      CodeOf(Handle(config, users, t, s, MessageReceived(payload), fails).effects) == 235 <==>
        && !isText && Correct(users, Offered(v.waiting, Trimmed(payload)))
        && (v.waiting == ForCommand ==> v.who.None? && (v.tls || config.allowPlainWithoutTls))
  {
    SessionShows(config, users, inputs);
    var s := After(config, users, FreshSession, inputs);
    assert AuthFields(s).waiting == ForCommand <==> s.authStage == NoAuth;
    LineMatches(config, users, t, s, payload, fails);
    hide After, Dialogue, ViewOf, AuthOf, AuthFields, SessionInv, OnLine, Offered, Correct, Trimmed, CodeOf;
  }

  ghost predicate AcceptsAt(h: seq<Exchange>, i: nat) {
    && i < |h| && h[i].event.MessageReceived? && CodeOf(h[i].effects) == 235
    && !InText(h, i) && Offered(AuthOf(h[..i]).waiting, Trimmed(h[i].event.payload)).Some?
  }

  /** Line i is one of a message. */
  ghost predicate InText(h: seq<Exchange>, i: nat)
    requires i < |h|
  {
    ViewOf(h[..i]).body.Some? && AuthOf(h[..i]).waiting == ForCommand
  }

  /** Exchange i is an accepted STARTTLS. */
  ghost predicate StartsTlsAt(h: seq<Exchange>, i: nat) {
    && i < |h| && h[i].event.MessageReceived? && CodeOf(h[i].effects) == 220
    && !InText(h, i) && AuthOf(h[..i]).waiting == ForCommand
    && VerbOf(Command(Trimmed(h[i].event.payload))) == StartTls
  }

  /** The user whose credentials exchange i completes. */
  ghost function UserAt(h: seq<Exchange>, i: nat): string
    requires AcceptsAt(h, i)
  {
    Offered(AuthOf(h[..i]).waiting, Trimmed(h[i].event.payload)).value.username
  }

  /** What the last exchange does to who the client is. */
  lemma LastWho(h: seq<Exchange>)
    requires h != []
    ensures var n := |h| - 1;
      AuthOf(h).who
      == if AcceptsAt(h, n) then Some(UserAt(h, n)) else if Decides(h, n) then None else AuthOf(h[..n]).who
  {
    var n := |h| - 1;
    var before := AuthOf(h[..n]);
    assert AuthOf(h) == AuthStep(before, ViewOf(h[..n]).body.Some?, h[n]);
    hide AuthOf, ViewOf, Offered, CodeOf, Trimmed, Command, VerbOf, Awaited;
  }

  lemma SameBefore(h: seq<Exchange>, i: nat)
    requires i < |h| - 1
    ensures AcceptsAt(h[..|h| - 1], i) <==> AcceptsAt(h, i)
    ensures Decides(h[..|h| - 1], i) <==> Decides(h, i)
    ensures AcceptsAt(h, i) ==> UserAt(h[..|h| - 1], i) == UserAt(h, i)
  {
    assert h[..|h| - 1][..i] == h[..i];
    hide AuthOf, ViewOf, Offered, CodeOf, Trimmed, Command, VerbOf;
  }

  /** Exchange i decides who the client is. */
  ghost predicate Decides(h: seq<Exchange>, i: nat) {
    AcceptsAt(h, i) || StartsTlsAt(h, i)
  }

  ghost predicate NoneDecides(h: seq<Exchange>, i: nat) {
    forall j: nat :: i < j < |h| ==> !Decides(h, j)
  }

  /** Exchange i shows that the client was accepted as this user, and since then nothing has changed that. */
  ghost predicate AcceptedSince(h: seq<Exchange>, i: nat, user: string) {
    AcceptsAt(h, i) && UserAt(h, i) == user && NoneDecides(h, i)
  }

  lemma DecidesBefore(h: seq<Exchange>, before: seq<Exchange>, i: nat)
    requires h != [] && before == h[..|h| - 1] && !Decides(h, |h| - 1)
    ensures NoneDecides(before, i) <==> NoneDecides(h, i)
  {
    hide AcceptsAt, Decides, UserAt;
    forall j: nat | j < |before| ensures Decides(before, j) <==> Decides(h, j) {
      SameBefore(h, j);
    }
    if NoneDecides(before, i) {
      forall j: nat | i < j < |h| ensures !Decides(h, j) {
        assert j < |before| ==> !Decides(before, j);
      }
    }
  }

  lemma SinceIs(h: seq<Exchange>, i: nat, user: string)
    ensures AcceptedSince(h, i, user) <==> AcceptsAt(h, i) && UserAt(h, i) == user && NoneDecides(h, i)
  {
    hide AcceptsAt, UserAt, NoneDecides;
  }

  lemma SinceBefore(h: seq<Exchange>, i: nat, user: string)
    requires h != [] && !Decides(h, |h| - 1) && i < |h| - 1
    ensures AcceptedSince(h[..|h| - 1], i, user) <==> AcceptedSince(h, i, user)
  {
    hide *;
    SameBefore(h, i);
    DecidesBefore(h, h[..|h| - 1], i);
    SinceIs(h, i, user);
    SinceIs(h[..|h| - 1], i, user);
  }

  lemma SinceMeans(h: seq<Exchange>, i: nat, j: nat, user: string)
    requires AcceptedSince(h, i, user) && i < j < |h|
    ensures !Decides(h, j) && !AcceptsAt(h, j)
  {
    assert AcceptsAt(h, j) ==> Decides(h, j) by {
      hide AcceptsAt, StartsTlsAt;
    }
    hide AcceptsAt, Decides, UserAt;
  }

  lemma NowMeans(h: seq<Exchange>, user: string)
    requires h != []
    ensures AcceptedSince(h, |h| - 1, user) <==> AcceptsAt(h, |h| - 1) && UserAt(h, |h| - 1) == user
  {
    hide AcceptsAt, Decides, UserAt;
  }

  lemma {:induction false} WhoHasAccepted(h: seq<Exchange>, user: string)
    ensures AuthOf(h).who == Some(user) ==> exists i: nat :: AcceptedSince(h, i, user)
    decreases |h|
  {
    if h != [] {
      var n := |h| - 1;
      hide *;
      LastWho(h);
      NowMeans(h, user);
      WhoHasAccepted(h[..n], user);
      if AuthOf(h).who == Some(user) && !AcceptsAt(h, n) {
        var i: nat :| AcceptedSince(h[..n], i, user);
        SinceIsBefore(h[..n], i, user);
        SinceBefore(h, i, user);
      }
    }
  }

  lemma SinceIsBefore(h: seq<Exchange>, i: nat, user: string)
    requires AcceptedSince(h, i, user)
    ensures i < |h|
  {
    hide AuthOf, ViewOf, Offered, CodeOf, Trimmed, Command, VerbOf, InText, NoneDecides;
  }

  lemma {:induction false} AcceptedIsWho(h: seq<Exchange>, i: nat, user: string)
    requires AcceptedSince(h, i, user)
    ensures AuthOf(h).who == Some(user)
    decreases |h|
  {
    hide *;
    SinceIsBefore(h, i, user);
    var n := |h| - 1;
    LastWho(h);
    if i < n {
      SinceMeans(h, i, n, user);
      SinceBefore(h, i, user);
      AcceptedIsWho(h[..n], i, user);
    } else {
      assert i == n;
      NowMeans(h, user);
    }
  }

  lemma DialogueIs(config: ServerConfig, users: map<string, string>, s: Session, inputs: seq<Input>)
    requires inputs != []
    ensures var s1 := Next(config, users, s, inputs[0]);
      Dialogue(config, users, s, inputs)
      == [Exchange(inputs[0].event, Effects(config, users, s, inputs[0]))] + Dialogue(config, users, s1, inputs[1..])
    ensures After(config, users, s, inputs) == After(config, users, Next(config, users, s, inputs[0]), inputs[1..])
  {
    hide Next, Effects;
  }

  lemma FirstOf<T>(h: seq<T>, x: T, rest: seq<T>, i: nat)
    requires h == [x] + rest && i < |h|
    ensures h[i] == (if i == 0 then x else rest[i - 1]) && h[..i] == if i == 0 then [] else [x] + rest[..i - 1]
  {}

  lemma {:induction false} DialogueAt(config: ServerConfig, users: map<string, string>, s: Session, inputs: seq<Input>,
                                      i: nat)
    requires i < |inputs|
    ensures var h := Dialogue(config, users, s, inputs);
      && |h| == |inputs| && h[..i] == Dialogue(config, users, s, inputs[..i])
      && h[i] == Exchange(inputs[i].event, Effects(config, users, After(config, users, s, inputs[..i]), inputs[i]))
    decreases |inputs|
  {
    hide *;
    var s1 := Next(config, users, s, inputs[0]);
    var x := Exchange(inputs[0].event, Effects(config, users, s, inputs[0]));
    var h, rest := Dialogue(config, users, s, inputs), Dialogue(config, users, s1, inputs[1..]);
    DialogueLength(config, users, s, inputs);
    DialogueIs(config, users, s, inputs);
    FirstOf(h, x, rest, i);
    if i == 0 {
      assert inputs[..0] == [];
      NoDialogue(config, users, s);
    } else {
      DialogueAt(config, users, s1, inputs[1..], i - 1);
      FirstOf(inputs, inputs[0], inputs[1..], i);
      assert inputs == [inputs[0]] + inputs[1..];
      assert inputs[..i][1..] == inputs[1..][..i - 1] && inputs[..i][0] == inputs[0];
      DialogueIs(config, users, s, inputs[..i]);
    }
  }

  /** At exchange i the client gave this user and its password. */
  ghost predicate GaveCredentials(users: map<string, string>, h: seq<Exchange>, i: nat, user: string) {
    && i < |h| && h[i].event.MessageReceived?
    && var offered := Offered(AuthOf(h[..i]).waiting, Trimmed(h[i].event.payload));
    Correct(users, offered) && offered.value.username == user
  }

  lemma AcceptedGave(config: ServerConfig, users: map<string, string>, inputs: seq<Input>, i: nat, user: string)
    requires AcceptedSince(Dialogue(config, users, FreshSession, inputs), i, user) && i < |inputs|
    ensures GaveCredentials(users, Dialogue(config, users, FreshSession, inputs), i, user)
  {
    var h := Dialogue(config, users, FreshSession, inputs);
    DialogueAt(config, users, FreshSession, inputs, i);
    var last := inputs[i];
    assert AcceptsAt(h, i) && last.event.MessageReceived? by {
      hide AuthOf, ViewOf, Offered, CodeOf, Trimmed, Command, VerbOf, InText, Dialogue, NoneDecides;
    }
    AcceptedIffCorrect(config, users, inputs[..i], last.tables, last.event.payload, last.fails);
    hide AuthOf, ViewOf, Offered, CodeOf, Trimmed, Command, VerbOf, Dialogue, After, Handle, Correct, InText,
         NoneDecides;
  }

  /**
   Over any events: a session is authenticated as a user if and only if its dialogue shows an exchange answered with
   235 in which the client gave this user and its password, with no accepted STARTTLS and no other such exchange since.
   */
  lemma AuthenticatedIff(config: ServerConfig, users: map<string, string>, inputs: seq<Input>, user: string)
    ensures var s, h := After(config, users, FreshSession, inputs), Dialogue(config, users, FreshSession, inputs);
      s.authenticated && s.identity == user <==>
        exists i: nat :: AcceptedSince(h, i, user) && GaveCredentials(users, h, i, user)
  {
    var s, h := After(config, users, FreshSession, inputs), Dialogue(config, users, FreshSession, inputs);
    assert AuthFields(s).who == if s.authenticated then Some(s.identity) else None;
    hide *;
    SessionShows(config, users, inputs);
    if AuthOf(h).who == Some(user) {
      WhoHasAccepted(h, user);
      var i: nat :| AcceptedSince(h, i, user);
      SinceIsBefore(h, i, user);
      DialogueLength(config, users, FreshSession, inputs);
      AcceptedGave(config, users, inputs, i, user);
    }
    if i: nat :| AcceptedSince(h, i, user) && GaveCredentials(users, h, i, user) {
      AcceptedIsWho(h, i, user);
    }
  }

  lemma {:induction false} DialogueLength(config: ServerConfig, users: map<string, string>, s: Session,
                                          inputs: seq<Input>)
    ensures |Dialogue(config, users, s, inputs)| == |inputs|
    decreases |inputs|
  {
    if inputs != [] {
      DialogueLength(config, users, Next(config, users, s, inputs[0]), inputs[1..]);
      hide Next, Effects;
    }
  }

  /** TLS is on in a session once a handshake has succeeded, and stays on. */
  lemma {:induction false} TlsIffSucceeded(config: ServerConfig, users: map<string, string>, s: Session,
                                           inputs: seq<Input>)
    requires SessionInv(config, s)
    ensures After(config, users, s, inputs).tlsActive
       <==> s.tlsActive || exists i :: 0 <= i < |inputs| && inputs[i].event == TlsSucceeded
    decreases |inputs|
  {
    if inputs != [] {
      var s1 := Next(config, users, s, inputs[0]);
      EventMatches(config, users, s, inputs[0]);
      EventKeeps(config, users, s, inputs[0]);
      assert s1.tlsActive <==> s.tlsActive || inputs[0].event == TlsSucceeded by {
        hide SessionInv, Next, Effects, Offered, Trimmed, VerbOf, Command, CodeOf, Awaited;
      }
      hide SessionInv, Next, AuthFields, AuthStep;
      TlsIffSucceeded(config, users, s1, inputs[1..]);
      assert forall i :: 0 <= i < |inputs| - 1 ==> inputs[1..][i] == inputs[i + 1];
      assert forall i :: 0 < i < |inputs| ==> inputs[i] == inputs[1..][i - 1];
    }
  }
}
