/**
 SmtpClient, against any server that answers lines with reply lines. A server is a function from its state
 and a received line to its next state and the lines it sends back.
 */
module SmtpClient {
  import opened Wrappers
  import opened Text

  datatype SmtpError = NoError | ConnectionFailed | ServerError | RecipientRejected | Unknown

  datatype SmtpReply = SmtpReply(code: int, text: string)

  datatype SmtpResult = SmtpResult(error: SmtpError, message: string, code: int)

  const SUCCESS := SmtpResult(NoError, "Message sent successfully", 250)

  /** What the catch blocks answer for an exception; its text is not modelled. */
  const THROWN := SmtpResult(Unknown, "", 0)

  datatype Mail = Mail(sender: string, recipients: seq<string>, subject: string, body: string)

  /** The server and the reply lines it has sent that the client has not read yet. */
  datatype Link<S> = Link(server: S, unread: seq<string>)

  // ----- the wire -----

  function DropCr(line: string): string {
    if line != "" && line[|line| - 1] == '\r' then line[..|line| - 1] else line
  }

  /** What the server reads: lines up to '\n', each without one '\r' before it. */
  function WireLines(bytes: string): seq<string> {
    var end := Find(bytes, '\n');
    if end.None? then [] else [DropCr(bytes[..end.value])] + WireLines(bytes[end.value + 1..])
  }

  function Receive<S>(respond: (S, string) -> (S, seq<string>), k: Link<S>, lines: seq<string>): Link<S>
    decreases |lines|
  {
    if lines == [] then k
    else
      var (server, replies) := respond(k.server, lines[0]);
      Receive(respond, Link(server, k.unread + replies), lines[1..])
  }

  function Sent<S>(respond: (S, string) -> (S, seq<string>), k: Link<S>, command: string): Link<S> {
    Receive(respond, k, WireLines(command + CRLF))
  }

  // ----- replies -----

  predicate IsLastLine(line: string) {
    |line| >= 4 && line[3] == ' '
  }

  /** The last line of the next reply, and what is behind it; None if the connection ends before. */
  function Response(unread: seq<string>): (r: Option<(string, seq<string>)>)
    ensures r.Some? ==> IsLastLine(r.value.0)
    decreases |unread|
  {
    if unread == [] then None
    else if IsLastLine(unread[0]) then Some((unread[0], unread[1..]))
    else Response(unread[1..])
  }

  predicate IsDigit(c: char) {
    '0' <= c <= '9'
  }

  function Digits(s: string, value: nat): nat {
    if s == "" || !IsDigit(s[0]) then value else Digits(s[1..], 10 * value + (s[0] as int - '0' as int))
  }

  /** std::stoi of a short text; None where it throws. */
  function Stoi(s: string): Option<int> {
    var t := TrimmedLeft(s);
    var negative := t != "" && t[0] == '-';
    var body := if t != "" && (t[0] == '-' || t[0] == '+') then t[1..] else t;
    if body == "" || !IsDigit(body[0]) then None
    else
      var value: int := Digits(body, 0);
      Some(if negative then -value else value)
  }

  /** White space before a number is skipped, and a sign is taken into account. */
  lemma SignIsRead(gap: string, digits: string)
    requires forall i :: 0 <= i < |gap| ==> IsSpace(gap[i])
    requires digits != "" && IsDigit(digits[0])
    ensures Stoi(gap + digits) == Some(Digits(digits, 0)) && Stoi(gap + ("+" + digits)) == Some(Digits(digits, 0))
    ensures var value: int := Digits(digits, 0); Stoi(gap + ("-" + digits)) == Some(-value)
  {
    TrimmedLeftDrops(gap, digits);
    TrimmedLeftDrops(gap, "+" + digits);
    TrimmedLeftDrops(gap, "-" + digits);
    assert ("+" + digits)[1..] == digits && ("-" + digits)[1..] == digits;
    hide Digits, TrimmedLeft;
  }

  /** None for an exception. */
  function Reply<S>(k: Link<S>): Option<(SmtpReply, Link<S>)> {
    var response := Response(k.unread);
    if response.None? then None
    else
      var (line, rest) := response.value;
      var code := Stoi(line[..3]);
      if code.None? then None
      else Some((SmtpReply(code.value, line[4..]), k.(unread := rest)))
  }

  function Ask<S>(respond: (S, string) -> (S, seq<string>), k: Link<S>, command: string): Option<(SmtpReply, Link<S>)> {
    Reply(Sent(respond, k, command))
  }

  // ----- sending a mail -----

  function Line(line: string, rest: string): string {
    line + CRLF + rest
  }

  function MessageText(mail: Mail): string {
    Line("From: " + mail.sender, Line("Subject: " + mail.subject, Line("", Line(mail.body, "."))))
  }

  /** The state after the step, or the result with which SendMailMessage returns. */
  datatype Progress<S> = Going(link: Link<S>) | Stopped(result: SmtpResult, link: Link<S>)

  function Expect<S>(respond: (S, string) -> (S, seq<string>), k: Link<S>, command: string, code: int, error: SmtpError,
                     message: string): (p: Progress<S>)
    ensures p.Stopped? && error != NoError ==> p.result.error != NoError
  {
    var r := Ask(respond, k, command);
    if r.None? then Stopped(THROWN, Sent(respond, k, command))
    else if r.value.0.code != code then Stopped(SmtpResult(error, message + r.value.0.text, r.value.0.code), r.value.1)
    else Going(r.value.1)
  }

  function SendRecipients<S>(respond: (S, string) -> (S, seq<string>), k: Link<S>,
                             recipients: seq<string>): (p: Progress<S>)
    ensures p.Stopped? ==> p.result.error != NoError
    decreases |recipients|
  {
    if recipients == [] then Going(k)
    else
      var p := Expect(respond, k, "RCPT TO:<" + recipients[0] + ">", 250, RecipientRejected,
                      "Recipient <" + recipients[0] + "> rejected: ");
      if p.Stopped? then p else SendRecipients(respond, p.link, recipients[1..])
  }

  function SendEnvelope<S>(respond: (S, string) -> (S, seq<string>), k: Link<S>, mail: Mail): Progress<S> {
    var p1 := Expect(respond, k, "EHLO client", 250, ServerError, "EHLO rejected: ");
    if p1.Stopped? then p1
    else
      var p2 := Expect(respond, p1.link, "MAIL FROM:<" + mail.sender + ">", 250, ServerError, "MAIL FROM rejected: ");
      if p2.Stopped? then p2 else SendRecipients(respond, p2.link, mail.recipients)
  }

  function SendText<S>(respond: (S, string) -> (S, seq<string>), k: Link<S>, mail: Mail): Progress<S> {
    var p1 := Expect(respond, k, "DATA", 354, ServerError, "DATA command rejected: ");
    if p1.Stopped? then p1
    else Expect(respond, p1.link, MessageText(mail), 250, ServerError, "Message not accepted: ")
  }

  /** On a connected socket: greeting, envelope, text, QUIT. */
  function SendMail<S>(respond: (S, string) -> (S, seq<string>), k: Link<S>, mail: Mail): (SmtpResult, Link<S>) {
    var greeting := Reply(k);
    if greeting.None? then (THROWN, k)
    else if greeting.value.0.code != 220 then
      (SmtpResult(ConnectionFailed, "Server greeting failed: " + greeting.value.0.text, greeting.value.0.code),
       greeting.value.1)
    else
      var p1 := SendEnvelope(respond, greeting.value.1, mail);
      if p1.Stopped? then (p1.result, p1.link)
      else
        var p2 := SendText(respond, p1.link, mail);
        if p2.Stopped? then (p2.result, p2.link) else (SUCCESS, Sent(respond, p2.link, "QUIT"))
  }

  /** The client over a socket to such a server. */
  class Client<S(!new)> {
    const respond: (S, string) -> (S, seq<string>)
    var server: S
    var unread: seq<string>

    /** Connects: the greeting is what the server sends first. */
    constructor (respond: (S, string) -> (S, seq<string>), server: S, greeting: seq<string>)
      ensures this.respond == respond && State() == Link(server, greeting)
    {
      this.respond, this.server, this.unread := respond, server, greeting;
    }

    function State(): Link<S>
      reads this
    {
      Link(server, unread)
    }

    method SendCommand(command: string)
      modifies this
      ensures State() == Sent(respond, old(State()), command)
    {
      var lines := WireLines(command + CRLF);
      var i := 0;
      while i < |lines|
        invariant 0 <= i <= |lines|
        invariant Receive(respond, State(), lines[i..]) == Sent(respond, old(State()), command)
      {
        assert lines[i..][0] == lines[i] && lines[i..][1..] == lines[i + 1..];
        var (next, replies) := respond(server, lines[i]);
        server, unread := next, unread + replies;
        i := i + 1;
      }
    }

    method ReadResponse() returns (line: Option<string>)
      modifies this`unread
      ensures var r := Response(old(unread));
        if r.None? then line.None? else line == Some(r.value.0) && unread == r.value.1
    {
      while unread != []
        invariant Response(unread) == Response(old(unread))
        decreases |unread|
      {
        var last := unread[0];
        unread := unread[1..];
        if |last| >= 4 && last[3] == ' ' {
          return Some(last);
        }
      }
      return None;
    }

    method ReadReply() returns (reply: Option<SmtpReply>)
      modifies this`unread
      ensures var r := Reply(old(State()));
        if r.None? then reply.None? else reply == Some(r.value.0) && State() == r.value.1
    {
      var line := ReadResponse();
      if line.None? {
        return None;
      }
      var code := Stoi(line.value[..3]);
      if code.None? {
        return None;
      }
      return Some(SmtpReply(code.value, line.value[4..]));
    }

    /** One command and the check of its reply: the result to return with, unless the code is the expected one. */
    method Command(command: string, code: int, error: SmtpError, message: string) returns (failure: Option<SmtpResult>)
      modifies this
      ensures match Expect(respond, old(State()), command, code, error, message)
        case Going(k) => failure.None? && State() == k
        case Stopped(result, k) => failure == Some(result)
    {
      SendCommand(command);
      var reply := ReadReply();
      if reply.None? {
        return Some(THROWN);
      }
      if reply.value.code != code {
        return Some(SmtpResult(error, message + reply.value.text, reply.value.code));
      }
      return None;
    }

    method SendMailMessage(mail: Mail) returns (result: SmtpResult)
      modifies this
      ensures result == SendMail(respond, old(State()), mail).0
      ensures result == SUCCESS ==> State() == SendMail(respond, old(State()), mail).1
    {
      hide Expect, Sent, Reply;
      var greeting := ReadReply();
      if greeting.None? {
        return THROWN;
      }
      if greeting.value.code != 220 {
        return SmtpResult(ConnectionFailed, "Server greeting failed: " + greeting.value.text, greeting.value.code);
      }
      var failure := Command("EHLO client", 250, ServerError, "EHLO rejected: ");
      if failure.Some? {
        return failure.value;
      }
      failure := Command("MAIL FROM:<" + mail.sender + ">", 250, ServerError, "MAIL FROM rejected: ");
      if failure.Some? {
        return failure.value;
      }
      failure := SendAllRecipients(mail.recipients);
      if failure.Some? {
        return failure.value;
      }
      failure := Command("DATA", 354, ServerError, "DATA command rejected: ");
      if failure.Some? {
        return failure.value;
      }
      failure := Command(MessageText(mail), 250, ServerError, "Message not accepted: ");
      if failure.Some? {
        return failure.value;
      }
      SendCommand("QUIT");
      return SUCCESS;
    }

    method SendAllRecipients(recipients: seq<string>) returns (failure: Option<SmtpResult>)
      modifies this
      ensures match SendRecipients(respond, old(State()), recipients)
        case Going(k) => failure.None? && State() == k
        case Stopped(result, k) => failure == Some(result)
    {
      hide Expect;
      var i := 0;
      while i < |recipients|
        invariant 0 <= i <= |recipients|
        invariant SendRecipients(respond, State(), recipients[i..]) == SendRecipients(respond, old(State()), recipients)
      {
        assert recipients[i..][0] == recipients[i] && recipients[i..][1..] == recipients[i + 1..];
        failure := Command("RCPT TO:<" + recipients[i] + ">", 250, RecipientRejected,
                           "Recipient <" + recipients[i] + "> rejected: ");
        if failure.Some? {
          return;
        }
        i := i + 1;
      }
      return None;
    }
  }
}
