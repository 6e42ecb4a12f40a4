/** SmtpClient talking to this server, and the mail client reading what was stored. */
module ClientServer {
  import opened Wrappers
  import opened Text
  import opened MailStorage
  import opened DeliverySystem
  import opened SmtpSession
  import opened SessionInvariant
  import opened DotTransparency
  import opened MailText
  import C = SmtpClient

  /** A connection of the server, as far as a client on it matters. */
  datatype Site = Site(config: ServerConfig, users: map<string, string>, session: Session, tables: Tables)

  function Replies(effects: seq<Effect>): seq<string> {
    if effects == [] then []
    else (if effects[0].Reply? then [Rendered(effects[0])] else []) + Replies(effects[1..])
  }

  function React(site: Site, event: Event): (Site, seq<string>) {
    var h := Handle(site.config, site.users, site.tables, site.session, event, false);
    (site.(session := h.session, tables := h.tables), Replies(h.effects))
  }

  function Respond(site: Site, line: string): (Site, seq<string>) {
    React(site, MessageReceived(line))
  }

  /** A client that has just connected to a new session. */
  function Connect(config: ServerConfig, users: map<string, string>, t: Tables): C.Link<Site> {
    var (site, greeting) := React(Site(config, users, FreshSession, t), Connected);
    C.Link(site, greeting)
  }

  // ----- lines on the wire -----

  lemma WireLine(line: string, rest: string)
    requires OneLine(line)
    ensures C.WireLines(line + CRLF + rest) == [line] + C.WireLines(rest)
    ensures (line == "" || line[|line| - 1] != '\r') && C.WireLines(line + "\n" + rest) == [line] + C.WireLines(rest)
  {
    var crlf := line + "\r" + ['\n'] + rest;
    assert crlf == line + CRLF + rest;
    FindFirst(line + "\r", '\n', rest);
    assert crlf[..|line| + 1] == line + "\r" && crlf[|line| + 2..] == rest;
    assert C.DropCr(line + "\r") == line;
    var lf := line + ['\n'] + rest;
    assert lf == line + "\n" + rest;
    FindFirst(line, '\n', rest);
    assert lf[..|line|] == line && lf[|line| + 1..] == rest;
    hide Find;
  }

  lemma WireCommand(command: string)
    requires OneLine(command)
    ensures C.WireLines(command + CRLF) == [command]
  {
    WireLine(command, "");
    assert command + CRLF + "" == command + CRLF;
  }

  /** The text is these lines, with "\n" or "\r\n" between them. */
  predicate Spells(text: string, lines: seq<string>)
    decreases |lines|
  {
    if lines == [] then false
    else if |lines| == 1 then text == lines[0]
    else exists n | n in {1, 2} :: SpellsAfter(text, lines, n)
  }

  predicate SpellsAfter(text: string, lines: seq<string>, n: int)
    requires |lines| > 1 && n in {1, 2}
    decreases |lines|, 0
  {
    var ending := if n == 1 then "\n" else CRLF;
    && lines[0] + ending <= text
    && Spells(text[|lines[0]| + n..], lines[1..])
  }

  lemma Cons<T>(a: T, xs: seq<T>, ys: seq<T>)
    requires xs != [] && xs[0] == a
    ensures [a] + (xs[1..] + ys) == xs + ys
  {}

  lemma Cons3<T>(a: T, b: T, c: T, ys: seq<T>)
    ensures [a] + ([b] + ([c] + ys)) == [a, b, c] + ys
  {}

  lemma Sum3<T>(a: seq<T>, b: seq<T>, c: seq<T>)
    ensures a + b + c == a + (b + c)
  {}

  lemma FirstLine(body: string, lines: seq<string>) returns (ending: string, more: string)
    requires Spells(body, lines) && |lines| > 1
    ensures ending in {"\n", CRLF} && body == lines[0] + ending + more && Spells(more, lines[1..])
  {
    var n :| n in {1, 2} && SpellsAfter(body, lines, n);
    ending := if n == 1 then "\n" else CRLF;
    more := body[|lines[0]| + n..];
  }

  lemma WireLineBefore(line: string, ending: string, more: string, rest: string)
    requires OneLine(line) && ending in {"\n", CRLF}
    ensures C.WireLines(line + ending + more + CRLF + rest) == [line] + C.WireLines(more + CRLF + rest)
  {
    WireLine(line, more + CRLF + rest);
    hide C.WireLines;
    Sum3(line + ending, more, CRLF);
    Sum3(line + ending, more + CRLF, rest);
  }

  lemma {:induction false} WireBody(body: string, lines: seq<string>, rest: string)
    requires Spells(body, lines) && AllOneLine(lines)
    ensures C.WireLines(body + CRLF + rest) == lines + C.WireLines(rest)
    decreases |lines|
  {
    if |lines| == 1 {
      WireLine(lines[0], rest);
      assert lines == [lines[0]];
    } else {
      var ending, more := FirstLine(body, lines);
      hide Spells, C.WireLines;
      WireLineBefore(lines[0], ending, more, rest);
      WireBody(more, lines[1..], rest);
      Cons(lines[0], lines, C.WireLines(rest));
    }
  }

  function HeaderLines(mail: C.Mail): seq<string> {
    ["From: " + mail.sender, "Subject: " + mail.subject, ""]
  }

  lemma MessageEnds(mail: C.Mail)
    ensures C.MessageText(mail) + CRLF
         == C.Line("From: " + mail.sender,
                   C.Line("Subject: " + mail.subject, C.Line("", C.Line(mail.body, "." + CRLF))))
  {}

  lemma WireHeader(h0: string, h1: string, text: string)
    requires OneLine(h0) && OneLine(h1)
    ensures C.WireLines(C.Line(h0, C.Line(h1, C.Line("", text)))) == [h0, h1, ""] + C.WireLines(text)
  {
    WireLine("", text);
    WireLine(h1, C.Line("", text));
    WireLine(h0, C.Line(h1, C.Line("", text)));
    hide C.WireLines;
    Cons3(h0, h1, "", C.WireLines(text));
  }

  lemma WireTail(body: string, lines: seq<string>)
    requires Spells(body, lines) && AllOneLine(lines)
    ensures C.WireLines(C.Line(body, "." + CRLF)) == lines + ["."]
  {
    WireCommand(".");
    WireBody(body, lines, "." + CRLF);
    hide C.WireLines, Spells, AllOneLine;
  }

  lemma WireMessage(mail: C.Mail, lines: seq<string>)
    requires OneLine(mail.sender) && OneLine(mail.subject) && Spells(mail.body, lines) && AllOneLine(lines)
    ensures C.WireLines(C.MessageText(mail) + CRLF) == HeaderLines(mail) + (lines + ["."])
  {
    assert OneLine("From: " + mail.sender) && OneLine("Subject: " + mail.subject);
    WireTail(mail.body, lines);
    MessageEnds(mail);
    WireHeader("From: " + mail.sender, "Subject: " + mail.subject, C.Line(mail.body, "." + CRLF));
    hide *;
    assert HeaderLines(mail) == ["From: " + mail.sender, "Subject: " + mail.subject, ""] by {
      HeaderLinesAre(mail);
    }
  }

  lemma HeaderLinesAre(mail: C.Mail)
    ensures HeaderLines(mail) == ["From: " + mail.sender, "Subject: " + mail.subject, ""]
  {}

  // ----- reply lines -----

  lemma DecimalOfThree(n: nat)
    requires 100 <= n < 1000
    ensures |Decimal(n)| == 3 && C.Stoi(Decimal(n)) == Some(n)
  {
    var a, b, c := '0' + (n / 100) as char, '0' + (n / 10 % 10) as char, '0' + (n % 10) as char;
    assert Decimal(n / 100) == [a];
    assert Decimal(n / 10) == [a, b];
    assert Decimal(n) == [a, b, c];
    ThreeDigits(a, b, c);
  }

  lemma ThreeDigits(a: char, b: char, c: char)
    requires C.IsDigit(a) && C.IsDigit(b) && C.IsDigit(c)
    ensures C.Stoi([a, b, c])
         == Some(100 * (a as int - '0' as int) + 10 * (b as int - '0' as int) + (c as int - '0' as int))
  {
    var x: nat := a as int - '0' as int;
    var y: nat := b as int - '0' as int;
    var z: nat := c as int - '0' as int;
    assert [a, b, c][1..] == [b, c] && [b, c][1..] == [c] && [c][1..] == [];
    assert C.Digits([c], 10 * x + y) == 10 * (10 * x + y) + z;
    assert C.Digits([b, c], x) == C.Digits([c], 10 * x + y);
    assert C.Digits([a, b, c], 0) == C.Digits([b, c], x);
  }

  lemma RenderedReads(code: nat, last: bool, text: string)
    requires 100 <= code < 1000
    ensures var line := Rendered(Reply(code, last, text));
      (C.IsLastLine(line) <==> last) && |line| >= 4 && C.Stoi(line[..3]) == Some(code)
  {
    DecimalOfThree(code);
    hide Decimal;
    assert Rendered(Reply(code, last, text))[..3] == Decimal(code);
  }

  /** The client reads the code of the last line, skipping the others of a reply. */
  lemma {:induction false} ReplyReads(site: Site, effects: seq<Effect>, code: nat)
    requires effects != [] && 100 <= code < 1000
    requires forall i :: 0 <= i < |effects| ==>
      effects[i].Reply? && effects[i].code == code && (effects[i].last <==> i == |effects| - 1)
    ensures var r := C.Reply(C.Link(site, Replies(effects)));
      r.Some? && r.value.0.code == code && r.value.1 == C.Link(site, [])
    decreases |effects|
  {
    var first := effects[0];
    RenderedReads(code, first.last, first.text);
    var rest := Replies(effects[1..]);
    assert Replies(effects) == [Rendered(first)] + rest;
    assert ([Rendered(first)] + rest)[1..] == rest;
    if |effects| > 1 {
      ReplyReads(site, effects[1..], code);
      hide Rendered, Replies, C.Stoi;
    } else {
      assert rest == [];
      hide Rendered, Replies, C.Stoi;
    }
  }

  predicate Answers(effects: seq<Effect>, code: nat) {
    && effects != [] && 100 <= code < 1000
    && forall i :: 0 <= i < |effects| ==>
      effects[i].Reply? && effects[i].code == code && (effects[i].last <==> i == |effects| - 1)
  }

  function Reacted(site: Site, event: Event): Handled {
    Handle(site.config, site.users, site.tables, site.session, event, false)
  }

  lemma OneResponse(site: Site, unread: seq<string>, line: string)
    ensures C.Receive(Respond, C.Link(site, unread), [line])
         == C.Link(Respond(site, line).0, unread + Respond(site, line).1)
  {
    hide Respond;
    assert [line][1..] == [];
  }

  /** One command of one line, answered with one reply of the expected code. */
  lemma CommandAccepted(site: Site, command: string, code: nat, error: C.SmtpError, message: string)
    requires OneLine(command) && Answers(Reacted(site, MessageReceived(command)).effects, code)
    ensures C.Expect(Respond, C.Link(site, []), command, code, error, message)
         == C.Going(C.Link(Respond(site, command).0, []))
  {
    var site' := Respond(site, command).0;
    var effects := Reacted(site, MessageReceived(command)).effects;
    assert Respond(site, command).1 == Replies(effects);
    WireCommand(command);
    ReplyReads(site', effects, code);
    hide C.WireLines, Respond, Reacted, Replies, C.Reply, OneLine;
    OneResponse(site, [], command);
    assert [] + Replies(effects) == Replies(effects);
  }

  // ----- command lines -----

  lemma CommandParsed(word: string, argument: string)
    requires word != "" && SpaceFree(word) && argument != "" && IsTrimmed(argument)
    ensures var line := word + " " + argument;
      Trimmed(line) == line && Command(line) == Upper(word) && Argument(line) == argument
  {
    var line := word + [' '] + argument;
    assert line == word + " " + argument;
    assert line[0] == word[0] && line[|line| - 1] == argument[|argument| - 1];
    TrimmedIsTrimmed(line);
    TrimmedIsTrimmed(argument);
    FindFirst(word, ' ', argument);
    assert line[..|word|] == word && line[|word| + 1..] == argument;
    hide Trimmed, Find, Upper;
  }

  /** ExtractPathArgument undoes the wrapping of sections 4.1.1.2 and 4.1.1.3 of RFC 5321. */
  lemma PathUndone(prefix: string, address: string)
    requires ':' !in prefix && prefix != "" && !IsSpace(prefix[0]) && SpaceFree(address)
    ensures ExtractPath(prefix + ":<" + address + ">") == address
  {
    var wrapped := "<" + address + ">";
    var value := prefix + [':'] + wrapped;
    assert value == prefix + ":<" + address + ">";
    assert value[0] == prefix[0] && value[|value| - 1] == '>';
    TrimmedIsTrimmed(value);
    FindFirst(prefix, ':', wrapped);
    assert value[|prefix| + 1..] == wrapped;
    WrappedWhole(address);
    hide Trimmed, Find;
    assert Trimmed(value) == value && Find(value, ':') == Some(|prefix|);
    assert wrapped[0] == '<' && wrapped[|wrapped| - 1] == '>';
  }

  lemma WrappedWhole(address: string)
    requires SpaceFree(address)
    ensures var wrapped := "<" + address + ">";
      Trimmed(wrapped) == wrapped && Find(wrapped, ' ') == None && wrapped[1..|wrapped| - 1] == address
  {}

  lemma PrefixFound(prefix: string, rest: string)
    ensures StartsWithNoCase(prefix + rest, prefix)
  {}

  lemma VerbsKnown()
    ensures Upper("EHLO") == "EHLO" && Upper("MAIL") == "MAIL" && Upper("RCPT") == "RCPT" && Upper("DATA") == "DATA"
    ensures SpaceFree("EHLO") && SpaceFree("MAIL") && SpaceFree("RCPT")
    ensures VerbOf("EHLO") == Ehlo && VerbOf("MAIL") == Mail && VerbOf("RCPT") == Rcpt && VerbOf("DATA") == Data
  {
    assert "EHLO"[0] == 'E' && "MAIL"[0] == 'M' && "RCPT"[0] == 'R' && "DATA"[0] == 'D';
    assert "HELO"[0] == 'H' && "AUTH"[0] == 'A';
  }

  predicate IsAddress(s: string) {
    s != "" && SpaceFree(s)
  }

  lemma WrappedArgument(prefix: string, address: string)
    requires prefix != "" && !IsSpace(prefix[0]) && SpaceFree(address)
    ensures var argument := prefix + ":<" + address + ">";
      argument != "" && IsTrimmed(argument) && StartsWithNoCase(argument, prefix + ":")
  {}

  // ----- the session under the client's commands -----

  predicate AwaitsCommand(site: Site) {
    site.session.authStage == NoAuth && site.session.phase != ReceivingMessage
  }

  lemma CommandReacts(site: Site, word: string, argument: string, verb: Verb)
    requires AwaitsCommand(site) && word != "" && SpaceFree(word) && argument != "" && IsTrimmed(argument)
    requires VerbOf(Upper(word)) == verb
    ensures var r := OnCommand(site.config, site.users, site.session, verb, argument);
      Reacted(site, MessageReceived(word + " " + argument)) == Handled(r.0, site.tables, r.1, false)
  {
    CommandParsed(word, argument);
    hide Trimmed, Command, Argument, VerbOf, Upper, OnCommand, SpaceFree, IsTrimmed;
  }

  lemma HelloReaction(site: Site)
    requires AwaitsCommand(site)
    ensures var h := Reacted(site, MessageReceived("EHLO client"));
      && Answers(h.effects, 250) && h.tables == site.tables
      && h.session == site.session.(clientName := "client", phase := ReadyForMail)
  {
    assert "EHLO client" == "EHLO" + " " + "client";
    assert IsTrimmed("client");
    HelloAnswers(site.config, site.users, site.session);
    hide *;
    VerbsKnown();
    CommandReacts(site, "EHLO", "client", Ehlo);
  }

  lemma HelloAnswers(config: ServerConfig, users: map<string, string>, s: Session)
    ensures Answers(OnCommand(config, users, s, Ehlo, "client").1, 250)
    ensures OnCommand(config, users, s, Ehlo, "client").0 == s.(clientName := "client", phase := ReadyForMail)
  {
    hide Decimal, IsAuthAllowed;
  }

  lemma MailLine(address: string)
    ensures "MAIL FROM:<" + address + ">" == "MAIL" + " " + ("FROM" + ":<" + address + ">")
    ensures "RCPT TO:<" + address + ">" == "RCPT" + " " + ("TO" + ":<" + address + ">")
    ensures "FROM" + ":" == "FROM:" && "TO" + ":" == "TO:"
  {}

  lemma OneAnswer(code: nat, text: string)
    requires 100 <= code < 1000
    ensures Answers([Effect.Reply(code, true, text)], code)
  {}

  lemma MailAnswers(config: ServerConfig, users: map<string, string>, s: Session, argument: string)
    requires !config.requireAuthentication && StartsWithNoCase(argument, "FROM:") && ExtractPath(argument) != ""
    ensures OnCommand(config, users, s, Mail, argument)
         == (Reset(s).(sender := ExtractPath(argument), phase := MailTransaction),
             [Effect.Reply(250, true, "Sender OK")])
  {
    hide ExtractPath, StartsWithNoCase, Reset;
  }

  lemma RcptAnswers(config: ServerConfig, users: map<string, string>, s: Session, argument: string)
    requires s.phase == MailTransaction && s.sender != ""
    requires StartsWithNoCase(argument, "TO:") && ExtractPath(argument) != ""
    ensures OnCommand(config, users, s, Rcpt, argument)
         == (s.(recipients := s.recipients + [ExtractPath(argument)]), [Effect.Reply(250, true, "Recipient OK")])
  {
    hide ExtractPath, StartsWithNoCase;
  }

  lemma MailReaction(site: Site, address: string)
    requires AwaitsCommand(site) && !site.config.requireAuthentication && IsAddress(address)
    ensures var h := Reacted(site, MessageReceived("MAIL FROM:<" + address + ">"));
      && Answers(h.effects, 250) && h.tables == site.tables
      && h.session == Reset(site.session).(sender := address, phase := MailTransaction)
  {
    assert address != "" && SpaceFree(address) && !IsSpace("FROM"[0]) && ':' !in "FROM";
    hide *;
    var argument := "FROM" + ":<" + address + ">";
    MailLine(address);
    WrappedArgument("FROM", address);
    PathUndone("FROM", address);
    VerbsKnown();
    CommandReacts(site, "MAIL", argument, Mail);
    MailAnswers(site.config, site.users, site.session, argument);
    OneAnswer(250, "Sender OK");
  }

  lemma RcptReaction(site: Site, address: string)
    requires AwaitsCommand(site) && site.session.phase == MailTransaction && site.session.sender != ""
    requires IsAddress(address)
    ensures var h := Reacted(site, MessageReceived("RCPT TO:<" + address + ">"));
      && Answers(h.effects, 250) && h.tables == site.tables
      && h.session == site.session.(recipients := site.session.recipients + [address])
  {
    assert address != "" && SpaceFree(address) && !IsSpace("TO"[0]) && ':' !in "TO";
    hide *;
    var argument := "TO" + ":<" + address + ">";
    MailLine(address);
    WrappedArgument("TO", address);
    PathUndone("TO", address);
    VerbsKnown();
    CommandReacts(site, "RCPT", argument, Rcpt);
    RcptAnswers(site.config, site.users, site.session, argument);
    OneAnswer(250, "Recipient OK");
  }

  lemma WordReacts(site: Site, word: string, verb: Verb)
    requires AwaitsCommand(site) && word != "" && SpaceFree(word) && VerbOf(Upper(word)) == verb
    ensures var r := OnCommand(site.config, site.users, site.session, verb, "");
      Reacted(site, MessageReceived(word)) == Handled(r.0, site.tables, r.1, false)
  {
    assert IsTrimmed(word);
    TrimmedIsTrimmed(word);
    assert ' ' !in word;
    hide Trimmed, VerbOf, Upper, OnCommand, SpaceFree, IsTrimmed;
  }

  lemma DataAnswers(config: ServerConfig, users: map<string, string>, s: Session)
    requires s.sender != "" && s.recipients != []
    ensures OnCommand(config, users, s, Data, "")
         == (s.(phase := ReceivingMessage, buffer := ""), [Effect.Reply(354, true, "End data with <CR><LF>.<CR><LF>")])
  {}

  lemma DataReaction(site: Site)
    requires AwaitsCommand(site) && site.session.sender != "" && site.session.recipients != []
    ensures var h := Reacted(site, MessageReceived("DATA"));
      && Answers(h.effects, 354) && h.tables == site.tables
      && h.session == site.session.(phase := ReceivingMessage, buffer := "")
  {
    assert SpaceFree("DATA");
    hide *;
    VerbsKnown();
    WordReacts(site, "DATA", Data);
    DataAnswers(site.config, site.users, site.session);
    OneAnswer(354, "End data with <CR><LF>.<CR><LF>");
  }

  // ----- a whole mail -----

  predicate IsClientMail(mail: C.Mail) {
    && IsAddress(mail.sender) && mail.recipients != []
    && (forall i :: 0 <= i < |mail.recipients| ==> IsAddress(mail.recipients[i]))
    && OneLine(mail.subject) && IsTrimmed(mail.subject)
  }

  function With(site: Site, session: Session): Site {
    site.(session := session)
  }

  lemma {:induction false} RecipientsAccepted(site: Site, recipients: seq<string>)
    requires AwaitsCommand(site) && site.session.phase == MailTransaction && site.session.sender != ""
    requires forall i :: 0 <= i < |recipients| ==> IsAddress(recipients[i])
    ensures C.SendRecipients(Respond, C.Link(site, []), recipients)
         == C.Going(C.Link(With(site, site.session.(recipients := site.session.recipients + recipients)), []))
    decreases |recipients|
  {
    if recipients == [] {
      assert site.session.recipients + [] == site.session.recipients;
    } else {
      var command := "RCPT TO:<" + recipients[0] + ">";
      var s' := site.session.(recipients := site.session.recipients + [recipients[0]]);
      AddressOnOneLine("RCPT TO:<", recipients[0]);
      RcptReaction(site, recipients[0]);
      assert Respond(site, command).0 == With(site, s');
      CommandAccepted(site, command, 250, C.RecipientRejected, "Recipient <" + recipients[0] + "> rejected: ");
      hide Respond, C.Expect, Reacted, IsAddress, OneLine, Answers;
      RecipientsAccepted(With(site, s'), recipients[1..]);
      Cons2(site.session.recipients, recipients);
    }
  }

  lemma Cons2<T>(before: seq<T>, xs: seq<T>)
    requires xs != []
    ensures before + [xs[0]] + xs[1..] == before + xs
  {}

  lemma AddressOnOneLine(prefix: string, address: string)
    requires OneLine(prefix) && SpaceFree(address)
    ensures OneLine(prefix + address + ">") && OneLine(address)
  {}

  /** A command whose reaction leaves the tables alone. */
  lemma AcceptedAs(site: Site, command: string, code: nat, error: C.SmtpError, message: string, session: Session)
    requires OneLine(command) && Answers(Reacted(site, MessageReceived(command)).effects, code)
    requires Reacted(site, MessageReceived(command)).tables == site.tables
    requires Reacted(site, MessageReceived(command)).session == session
    ensures C.Expect(Respond, C.Link(site, []), command, code, error, message)
         == C.Going(C.Link(With(site, session), []))
  {
    assert Respond(site, command).0 == With(site, session);
    hide Reacted, Answers, OneLine, C.Expect, Respond, With;
    CommandAccepted(site, command, code, error, message);
  }

  function Greeted(s: Session): Session {
    s.(clientName := "client", phase := ReadyForMail)
  }

  function Enveloped(s: Session, mail: C.Mail): Session {
    Reset(Greeted(s)).(sender := mail.sender, phase := MailTransaction)
  }

  lemma EnvelopedIs(site: Site, mail: C.Mail)
    requires AwaitsCommand(site)
    ensures var s := Enveloped(site.session, mail);
      && s.recipients == [] && s.sender == mail.sender && s.authStage == NoAuth && s.phase == MailTransaction
      && Greeted(site.session).authStage == NoAuth && Greeted(site.session).phase != ReceivingMessage
  {}

  lemma WithWith(site: Site, s1: Session, s2: Session)
    ensures With(With(site, s1), s2) == With(site, s2) && With(site, s1).session == s1
    ensures With(site, s1).tables == site.tables && With(site, s1).config == site.config
  {}

  lemma HelloAccepted(site: Site)
    requires AwaitsCommand(site)
    ensures C.Expect(Respond, C.Link(site, []), "EHLO client", 250, C.ServerError, "EHLO rejected: ")
         == C.Going(C.Link(With(site, Greeted(site.session)), []))
  {
    assert OneLine("EHLO client");
    HelloReaction(site);
    hide Reacted, Answers, OneLine, C.Expect, Respond, With;
    AcceptedAs(site, "EHLO client", 250, C.ServerError, "EHLO rejected: ", Greeted(site.session));
  }

  lemma MailAccepted(site: Site, sender: string)
    requires AwaitsCommand(site) && !site.config.requireAuthentication && IsAddress(sender)
    ensures C.Expect(Respond, C.Link(site, []), "MAIL FROM:<" + sender + ">", 250, C.ServerError,
                     "MAIL FROM rejected: ")
         == C.Going(C.Link(With(site, Reset(site.session).(sender := sender, phase := MailTransaction)), []))
  {
    AddressOnOneLine("MAIL FROM:<", sender);
    MailReaction(site, sender);
    hide *;
    AcceptedAs(site, "MAIL FROM:<" + sender + ">", 250, C.ServerError, "MAIL FROM rejected: ",
               Reset(site.session).(sender := sender, phase := MailTransaction));
  }

  /** The envelope: afterwards the session has the sender and the recipients, in order. */
  lemma EnvelopeAccepted(site: Site, mail: C.Mail)
    requires AwaitsCommand(site) && !site.config.requireAuthentication && IsClientMail(mail)
    ensures C.SendEnvelope(Respond, C.Link(site, []), mail)
         == C.Going(C.Link(With(site, Enveloped(site.session, mail).(recipients := mail.recipients)), []))
  {
    var s1, s2 := Greeted(site.session), Enveloped(site.session, mail);
    EnvelopedIs(site, mail);
    WithWith(site, s1, s2);
    WithWith(site, s2, s2.(recipients := mail.recipients));
    HelloAccepted(site);
    MailAccepted(With(site, s1), mail.sender);
    RecipientsAccepted(With(site, s2), mail.recipients);
    assert [] + mail.recipients == mail.recipients;
    hide C.Expect, C.SendRecipients, With, Respond, Greeted;
  }

  // ----- the text -----

  lemma {:induction false} ReceiveSum(k: C.Link<Site>, a: seq<string>, b: seq<string>)
    ensures C.Receive(Respond, k, a + b) == C.Receive(Respond, C.Receive(Respond, k, a), b)
    decreases |a|
  {
    if a == [] {
      assert a + b == b;
    } else {
      var (server, replies) := Respond(k.server, a[0]);
      assert (a + b)[0] == a[0] && (a + b)[1..] == a[1..] + b;
      hide Respond;
      ReceiveSum(C.Link(server, k.unread + replies), a[1..], b);
    }
  }

  lemma DataLineReacts(site: Site, payload: string, line: string)
    requires InData(site.session) && ArrivesAs(payload, line)
    requires |site.session.buffer| + |line| + 2 <= site.config.maxMessageSize
    ensures Respond(site, payload) == (With(site, site.session.(buffer := site.session.buffer + line + CRLF)), [])
  {
    hide Trimmed, Unstuffed;
  }

  lemma {:induction false} DataLinesReceived(site: Site, payloads: seq<string>, lines: seq<string>)
    requires InData(site.session) && |payloads| == |lines|
    requires forall i :: 0 <= i < |lines| ==> ArrivesAs(payloads[i], lines[i])
    requires |site.session.buffer| + |Joined(lines)| <= site.config.maxMessageSize
    ensures C.Receive(Respond, C.Link(site, []), payloads)
         == C.Link(With(site, site.session.(buffer := site.session.buffer + Joined(lines))), [])
    decreases |lines|
  {
    hide ArrivesAs;
    if lines == [] {
      assert site.session.buffer + "" == site.session.buffer;
    } else {
      var n := |lines| - 1;
      JoinedGrows(site.session.buffer, lines);
      JoinedLength(lines);
      var s1 := site.session.(buffer := site.session.buffer + Joined(lines[..n]));
      hide Joined, Respond, C.Receive;
      DataLinesReceived(site, payloads[..n], lines[..n]);
      WithWith(site, s1, s1.(buffer := site.session.buffer + Joined(lines)));
      DataLineReacts(With(site, s1), payloads[n], lines[n]);
      LastReceived(site, payloads, With(site, s1));
    }
  }

  lemma LastReceived(site: Site, payloads: seq<string>, before: Site)
    requires payloads != [] && C.Receive(Respond, C.Link(site, []), payloads[..|payloads| - 1]) == C.Link(before, [])
    ensures var (after, replies) := Respond(before, payloads[|payloads| - 1]);
      C.Receive(Respond, C.Link(site, []), payloads) == C.Link(after, replies)
  {
    var n := |payloads| - 1;
    hide *;
    ReceiveSum(C.Link(site, []), payloads[..n], [payloads[n]]);
    OneResponse(before, [], payloads[n]);
    assert payloads[..n] + [payloads[n]] == payloads;
    AddNothing(Respond(before, payloads[n]).1);
  }

  /** The lines of the stored text: the white space behind an empty subject is trimmed away. */
  function StoredLines(mail: C.Mail, lines: seq<string>): seq<string> {
    ["From: " + mail.sender, if mail.subject == "" then "Subject:" else "Subject: " + mail.subject, ""] + lines
  }

  lemma HeaderArrives(mail: C.Mail, i: nat)
    requires i < 3 && IsClientMail(mail)
    ensures ArrivesAs(HeaderLines(mail)[i], StoredLines(mail, [])[i])
  {
    var payload, line := HeaderLines(mail)[i], StoredLines(mail, [])[i];
    if i == 1 && mail.subject == "" {
      TrimmedOfPadded("", "Subject:", " ");
      assert payload == "" + "Subject:" + " ";
    } else if i < 2 {
      assert IsTrimmed(payload) && payload[0] != '.';
      TrimmedIsTrimmed(payload);
    } else {
      TrimmedIsTrimmed("");
    }
    StartsWithDots(line);
    hide Trimmed, StartsWithNoCase;
    assert |line| > 1 || line == "";
  }

  predicate IsClientText(config: ServerConfig, mail: C.Mail, lines: seq<string>) {
    && Spells(mail.body, lines) && AllOneLine(lines)
    && (forall i :: 0 <= i < |lines| ==> IsTrimmed(lines[i]) && !IsDotted(lines[i]))
    && |Joined(StoredLines(mail, lines))| <= config.maxMessageSize
  }

  lemma TextArrives(config: ServerConfig, mail: C.Mail, lines: seq<string>, i: nat)
    requires IsClientMail(mail) && IsClientText(config, mail, lines) && i < |HeaderLines(mail) + lines|
    ensures |HeaderLines(mail) + lines| == |StoredLines(mail, lines)|
    ensures ArrivesAs((HeaderLines(mail) + lines)[i], StoredLines(mail, lines)[i])
  {
    if i < 3 {
      HeaderArrives(mail, i);
    } else {
      PlainArrives(lines[i - 3]);
    }
    hide ArrivesAs, Spells, Joined;
  }

  lemma DotReacts(site: Site)
    requires InData(site.session)
    ensures var s := site.session;
      && Respond(site, ".").0.tables == StoreMail(site.tables, s.sender, s.recipients, s.buffer)
      && AwaitsCommand(Respond(site, ".").0) && Respond(site, ".").0.config == site.config
    ensures var r := C.Reply(C.Link(Respond(site, ".").0, Respond(site, ".").1));
      r.Some? && r.value.0.code == 250 && r.value.1 == C.Link(Respond(site, ".").0, [])
  {
    TrimmedIsTrimmed(".");
    assert Trimmed(".") == ".";
    var h := Reacted(site, MessageReceived("."));
    assert h.session == Reset(site.session);
    StoredOnlyByData(site.config, site.users, site.tables, site.session, MessageReceived("."), false);
    var answer := Effect.Reply(250, true, "Message accepted as " + Decimal(h.tables.lastMessageId));
    DotReplies(h.effects[0], answer);
    ReplyReads(Respond(site, ".").0, [answer], 250);
    hide Trimmed, StoreMail, Decimal, C.Reply, Handle, Replies, NoStore;
  }

  lemma DotReplies(stored: Effect, answer: Effect)
    requires stored.Stored?
    ensures Replies([stored, answer]) == Replies([answer])
  {}

  lemma TextReceived(site: Site, mail: C.Mail, lines: seq<string>)
    requires InData(site.session) && site.session.buffer == ""
    requires IsClientMail(mail) && IsClientText(site.config, mail, lines)
    ensures var site' := With(site, site.session.(buffer := Joined(StoredLines(mail, lines))));
      C.Sent(Respond, C.Link(site, []), C.MessageText(mail)) == C.Link(Respond(site', ".").0, Respond(site', ".").1)
  {
    var payloads, stored := HeaderLines(mail) + lines, StoredLines(mail, lines);
    var site' := With(site, site.session.(buffer := Joined(stored)));
    forall i | 0 <= i < |payloads| ensures |payloads| == |stored| && ArrivesAs(payloads[i], stored[i]) {
      TextArrives(site.config, mail, lines, i);
    }
    AddressOnOneLine("", mail.sender);
    WireMessage(mail, lines);
    assert |stored| == |payloads|;
    assert |Joined(stored)| <= site.config.maxMessageSize;
    hide *;
    Sum3(HeaderLines(mail), lines, ["."]);
    DataLinesReceived(site, payloads, stored);
    AddNothing(Joined(stored));
    ReceiveSum(C.Link(site, []), payloads, ["."]);
    OneResponse(site', [], ".");
    AddNothing(Respond(site', ".").1);
    SentIsReceived(C.Link(site, []), C.MessageText(mail));
  }

  lemma SentIsReceived(k: C.Link<Site>, command: string)
    ensures C.Sent(Respond, k, command) == C.Receive(Respond, k, C.WireLines(command + CRLF))
  {}

  lemma TextAccepted(site: Site, mail: C.Mail, lines: seq<string>)
    requires AwaitsCommand(site) && site.session.sender != "" && site.session.recipients != []
    requires IsClientMail(mail) && IsClientText(site.config, mail, lines)
    ensures var p := C.SendText(Respond, C.Link(site, []), mail);
      && p.Going? && p.link.unread == [] && AwaitsCommand(p.link.server)
      && p.link.server.tables
         == StoreMail(site.tables, site.session.sender, site.session.recipients, Joined(StoredLines(mail, lines)))
  {
    var s1 := site.session.(phase := ReceivingMessage, buffer := "");
    var s2 := s1.(buffer := Joined(StoredLines(mail, lines)));
    assert OneLine("DATA") && InData(s1) && InData(s2) && s1.buffer == "";
    hide *;
    DataReaction(site);
    AcceptedAs(site, "DATA", 354, C.ServerError, "DATA command rejected: ", s1);
    WithWith(site, s1, s2);
    WithWith(site, s2, s2);
    TextReceived(With(site, s1), mail, lines);
    DotReacts(With(site, s2));
    SendTextChains(site, With(site, s1), With(site, s2), mail);
  }

  lemma SendTextChains(site: Site, receiving: Site, received: Site, mail: C.Mail)
    requires C.Expect(Respond, C.Link(site, []), "DATA", 354, C.ServerError, "DATA command rejected: ")
          == C.Going(C.Link(receiving, []))
    requires C.Sent(Respond, C.Link(receiving, []), C.MessageText(mail))
          == C.Link(Respond(received, ".").0, Respond(received, ".").1)
    requires var r := C.Reply(C.Link(Respond(received, ".").0, Respond(received, ".").1));
      r.Some? && r.value.0.code == 250 && r.value.1 == C.Link(Respond(received, ".").0, [])
    ensures C.SendText(Respond, C.Link(site, []), mail) == C.Going(C.Link(Respond(received, ".").0, []))
  {
    assert C.Expect(Respond, C.Link(receiving, []), C.MessageText(mail), 250, C.ServerError, "Message not accepted: ")
        == C.Going(C.Link(Respond(received, ".").0, [])) by {
      hide Respond, C.Sent, C.Reply, C.MessageText;
    }
    hide Respond, C.Expect;
  }

  lemma QuitReacts(site: Site)
    requires AwaitsCommand(site)
    ensures C.Sent(Respond, C.Link(site, []), "QUIT").server.tables == site.tables
  {
    assert OneLine("QUIT") && SpaceFree("QUIT");
    WordReacts(site, "QUIT", VerbOf(Upper("QUIT")));
    WireCommand("QUIT");
    OneResponse(site, [], "QUIT");
    hide C.WireLines, C.Receive, OnCommand, VerbOf, Upper, Replies;
  }

  lemma GreetingReads(config: ServerConfig, users: map<string, string>, t: Tables)
    ensures var site := Site(config, users, FreshSession, t);
      var r := C.Reply(Connect(config, users, t));
      r.Some? && r.value.0.code == 220 && r.value.1 == C.Link(site, [])
  {
    var greeting := [Effect.Reply(220, true, config.serverName + " ESMTP ready")];
    var site := Site(config, users, FreshSession, t);
    ReplyReads(site, greeting, 220);
    hide C.Reply, Replies;
    assert Connect(config, users, t) == C.Link(site, Replies(greeting));
  }

  /**
   The client against the server: without errors of storage or network, and with authentication not
   required, SendMailMessage succeeds, and the tables gain one message: from the sender, to the
   recipients in their order, with the lines that the client built.
   */
  lemma MailIsStored(config: ServerConfig, users: map<string, string>, t: Tables, mail: C.Mail, lines: seq<string>)
    requires !config.requireAuthentication && IsClientMail(mail) && IsClientText(config, mail, lines)
    ensures var r := C.SendMail(Respond, Connect(config, users, t), mail);
      && r.0 == C.SUCCESS
      && r.1.server.tables == StoreMail(t, mail.sender, mail.recipients, Joined(StoredLines(mail, lines)))
  {
    var site := Site(config, users, FreshSession, t);
    assert AwaitsCommand(site) && mail.sender != "" && mail.recipients != [];
    GreetingReads(config, users, t);
    var s := Enveloped(site.session, mail).(recipients := mail.recipients);
    EnvelopedIs(site, mail);
    WithWith(site, s, s);
    assert AwaitsCommand(With(site, s));
    hide *;
    EnvelopeAccepted(site, mail);
    TextAccepted(With(site, s), mail, lines);
    var p := C.SendText(Respond, C.Link(With(site, s), []), mail);
    QuitReacts(p.link.server);
    SendMailChains(Connect(config, users, t), C.Link(site, []), With(site, s), p.link.server, mail);
  }

  lemma SendMailChains(k: C.Link<Site>, greeted: C.Link<Site>, enveloped: Site, texted: Site, mail: C.Mail)
    requires C.Reply(k).Some? && C.Reply(k).value.0.code == 220 && C.Reply(k).value.1 == greeted
    requires C.SendEnvelope(Respond, greeted, mail) == C.Going(C.Link(enveloped, []))
    requires C.SendText(Respond, C.Link(enveloped, []), mail) == C.Going(C.Link(texted, []))
    ensures C.SendMail(Respond, k, mail) == (C.SUCCESS, C.Sent(Respond, C.Link(texted, []), "QUIT"))
  {
    hide C.Reply, C.SendEnvelope, C.SendText, C.Sent;
  }
}
