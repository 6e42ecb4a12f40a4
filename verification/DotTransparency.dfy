/** Lines of message data on their way into the buffer, with and without the dots of section 4.5.2 of RFC 5321. */
module DotTransparency {
  import opened Text
  import opened Base64
  import opened MailStorage
  import opened DeliverySystem
  import opened SmtpSession
  import opened SessionInvariant
  import opened SessionDialogue

  /** A sender puts a dot in front of a line that begins with one. */
  function Stuffed(line: string): string {
    if line != "" && line[0] == '.' then "." + line else line
  }

  function Joined(lines: seq<string>): string {
    if lines == [] then "" else Joined(lines[..|lines| - 1]) + lines[|lines| - 1] + CRLF
  }

  /** The inputs are these lines, one event each; tables and faults may be anything. */
  ghost predicate Sends(inputs: seq<Input>, lines: seq<string>) {
    |inputs| == |lines| && forall i :: 0 <= i < |lines| ==> inputs[i].event == MessageReceived(lines[i])
  }

  predicate InData(s: Session) {
    s.phase == ReceivingMessage && s.authStage == NoAuth
  }

  predicate IsDotted(line: string) {
    line == "." || StartsWithNoCase(line, "..")
  }

  lemma StartsWithDots(line: string)
    ensures StartsWithNoCase(line, "..") <==> |line| >= 2 && line[0] == '.' && line[1] == '.'
  {
    if |line| >= 2 {
      var head := Upper(line[..2]);
      assert head[0] == UpperChar(line[0]) && head[1] == UpperChar(line[1]);
      assert Upper("..")[0] == '.' && Upper("..")[1] == '.';
      if line[0] == '.' && line[1] == '.' {
        assert head == Upper("..");
      }
    }
  }

  lemma StuffedArrives(line: string)
    requires IsTrimmed(line)
    ensures Trimmed(Stuffed(line)) == Stuffed(line) != "." && Unstuffed(Stuffed(line)) == line
  {
    TrimmedIsTrimmed(Stuffed(line));
    StartsWithDots(Stuffed(line));
    hide Trimmed, StartsWithNoCase;
  }

  lemma PlainArrives(line: string)
    requires IsTrimmed(line) && !IsDotted(line)
    ensures Trimmed(line) == line != "." && Unstuffed(line) == line
  {}

  /** A payload that arrives as text: it does not end the message, and this is what is left of it. */
  predicate ArrivesAs(payload: string, line: string) {
    Trimmed(payload) != "." && Unstuffed(Trimmed(payload)) == line
  }

  lemma LineAppended(config: ServerConfig, users: map<string, string>, s: Session, input: Input,
                     payload: string, line: string)
    requires InData(s) && input.event == MessageReceived(payload) && ArrivesAs(payload, line)
    requires |s.buffer| + |line| + 2 <= config.maxMessageSize
    ensures Next(config, users, s, input) == s.(buffer := s.buffer + line + CRLF)
    ensures Effects(config, users, s, input) == []
  {
    hide Trimmed, Unstuffed;
  }

  lemma {:induction false} After1(config: ServerConfig, users: map<string, string>, s: Session, inputs: seq<Input>,
                                  input: Input)
    ensures After(config, users, s, inputs + [input]) == Next(config, users, After(config, users, s, inputs), input)
    ensures Dialogue(config, users, s, inputs + [input])
         == Dialogue(config, users, s, inputs)
            + [Exchange(input.event, Effects(config, users, After(config, users, s, inputs), input))]
    decreases |inputs|
  {
    hide Next, Effects;
    var all := inputs + [input];
    if inputs == [] {
      assert all[0] == input && all[1..] == [];
    } else {
      assert all[0] == inputs[0] && all[1..] == inputs[1..] + [input];
      After1(config, users, Next(config, users, s, inputs[0]), inputs[1..], input);
    }
  }

  predicate Silent(h: seq<Exchange>) {
    forall i :: 0 <= i < |h| ==> h[i].effects == []
  }

  /** Lines that arrive as text all end up in the buffer, without an answer, as long as they fit. */
  lemma {:induction false} LinesAppended(config: ServerConfig, users: map<string, string>, s: Session,
                                         inputs: seq<Input>, payloads: seq<string>, lines: seq<string>)
    requires InData(s) && Sends(inputs, payloads) && |payloads| == |lines|
    requires forall i :: 0 <= i < |lines| ==> ArrivesAs(payloads[i], lines[i])
    requires |s.buffer| + |Joined(lines)| <= config.maxMessageSize
    ensures After(config, users, s, inputs) == s.(buffer := s.buffer + Joined(lines))
    ensures Silent(Dialogue(config, users, s, inputs))
    decreases |lines|
  {
    hide ArrivesAs, Next, Effects;
    if lines == [] {
      assert s.buffer + "" == s.buffer;
    } else {
      var n := |lines| - 1;
      JoinedGrows(s.buffer, lines);
      After1(config, users, s, inputs[..n], inputs[n]);
      hide After, Dialogue, Joined;
      LinesAppended(config, users, s, inputs[..n], payloads[..n], lines[..n]);
      LineAppended(config, users, After(config, users, s, inputs[..n]), inputs[n], payloads[n], lines[n]);
      assert inputs[..n] + [inputs[n]] == inputs;
    }
  }

  lemma Sum4<T>(a: seq<T>, b: seq<T>, c: seq<T>, d: seq<T>)
    ensures a + (b + c + d) == a + b + c + d
  {}

  lemma JoinedGrows(before: string, lines: seq<string>)
    requires lines != []
    ensures var n := |lines| - 1;
      before + Joined(lines) == before + Joined(lines[..n]) + lines[n] + CRLF
  {
    var n := |lines| - 1;
    var init := Joined(lines[..n]);
    assert Joined(lines) == init + lines[n] + CRLF;
    hide *;
    Sum4(before, init, lines[n], CRLF);
  }

  ghost predicate StoresExactly(config: ServerConfig, users: map<string, string>, s: Session, inputs: seq<Input>,
                                dot: Input, body: string)
  {
    var h := Handle(config, users, dot.tables, After(config, users, s, inputs), dot.event, dot.fails);
    && Silent(Dialogue(config, users, s, inputs))
    && h.tables == StoreMail(dot.tables, s.sender, s.recipients, body)
    && h.effects == [Stored(h.tables.lastMessageId, s.sender, s.recipients, body),
                     Reply(250, true, "Message accepted as " + Decimal(h.tables.lastMessageId))]
  }

  lemma DotStores(config: ServerConfig, users: map<string, string>, s: Session, inputs: seq<Input>, dot: Input,
                  lines: seq<string>)
    requires InData(s) && s.buffer == ""
    requires After(config, users, s, inputs) == s.(buffer := Joined(lines))
    requires Silent(Dialogue(config, users, s, inputs))
    requires dot.event == MessageReceived(".") && !dot.fails
    ensures StoresExactly(config, users, s, inputs, dot, Joined(lines))
  {
    TrimmedIsTrimmed(".");
    assert Trimmed(".") == ".";
    hide Trimmed, After, Dialogue, Handle, Joined, StoreMail, Decimal;
    StoredOnlyByData(config, users, dot.tables, s.(buffer := Joined(lines)), dot.event, false);
  }

  /**
   Stuffed lines and the final dot store exactly those lines, each with its line ending; no line ends the
   message early.
   */
  lemma StuffingIsTransparent(config: ServerConfig, users: map<string, string>, s: Session, inputs: seq<Input>,
                              dot: Input, lines: seq<string>)
    requires InData(s) && s.buffer == "" && |lines| == |inputs|
    requires forall i :: 0 <= i < |lines| ==>
      IsTrimmed(lines[i]) && inputs[i].event == MessageReceived(Stuffed(lines[i]))
    requires |Joined(lines)| <= config.maxMessageSize
    requires dot.event == MessageReceived(".") && !dot.fails
    ensures StoresExactly(config, users, s, inputs, dot, Joined(lines))
  {
    var payloads := seq(|lines|, i requires 0 <= i < |lines| => Stuffed(lines[i]));
    forall i | 0 <= i < |lines| ensures ArrivesAs(payloads[i], lines[i]) {
      StuffedArrives(lines[i]);
    }
    hide Joined, After, Dialogue, StoresExactly, Stuffed, IsTrimmed, ArrivesAs;
    LinesAppended(config, users, s, inputs, payloads, lines);
    assert "" + Joined(lines) == Joined(lines);
    DotStores(config, users, s, inputs, dot, lines);
  }

  // ----- lines sent as they are -----

  lemma CommandBuffer(config: ServerConfig, users: map<string, string>, s: Session, verb: Verb, argument: string)
    ensures OnCommand(config, users, s, verb, argument).0.buffer in {s.buffer, ""}
  {
    AuthBuffer(config, users, s, argument);
    hide OnAuth, ExtractPath, StartsWithNoCase, Decimal;
  }

  lemma AuthBuffer(config: ServerConfig, users: map<string, string>, s: Session, argument: string)
    ensures OnAuth(config, users, s, argument).0.buffer == s.buffer
  {
    var (mechanism, initial) := Words(argument);
    MechanismBuffer(users, s, initial);
    hide OnAuthPlain, OnAuthLogin, Upper, Words, IsAuthAllowed;
  }

  lemma MechanismBuffer(users: map<string, string>, s: Session, initial: string)
    ensures OnAuthPlain(users, s, initial).0.buffer == s.buffer && OnAuthLogin(s, initial).0.buffer == s.buffer
    ensures OnPlainResponse(users, s, initial).0.buffer == s.buffer
    ensures OnLoginUsername(s, initial).0.buffer == s.buffer
    ensures OnLoginPassword(users, s, initial).0.buffer == s.buffer
  {
    hide ParsePlainAuth, Decoded, Authenticate;
  }

  lemma DataLineBuffer(config: ServerConfig, t: Tables, s: Session, line: string, fails: bool)
    requires InData(s)
    ensures var after := OnDataLine(config, t, s, line, fails).session.buffer;
      |after| <= |s.buffer| + |line| + if IsDotted(line) then 1 else 2
  {
    StartsWithDots(line);
    hide StartsWithNoCase, StoreMail, Decimal;
  }

  lemma LineBuffer(config: ServerConfig, users: map<string, string>, s: Session, input: Input, line: string)
    requires IsTrimmed(line) && input.event == MessageReceived(line)
    ensures var after := Next(config, users, s, input).buffer;
      |after| <= |s.buffer| + |line| + if InData(s) && !IsDotted(line) then 2 else 1
  {
    TrimmedIsTrimmed(line);
    if InData(s) {
      DataLineBuffer(config, input.tables, s, line, input.fails);
    } else {
      CommandBuffer(config, users, s, VerbOf(Command(line)), Argument(line));
      MechanismBuffer(users, s, line);
    }
    hide Trimmed, IsTrimmed, OnDataLine, OnCommand, OnPlainResponse, OnLoginUsername, OnLoginPassword, VerbOf, Command,
         Argument, IsDotted;
  }

  predicate NoneDotted(lines: seq<string>) {
    forall i :: 0 <= i < |lines| ==> !IsDotted(lines[i])
  }

  lemma NoneDottedMore(lines: seq<string>)
    requires lines != [] && NoneDotted(lines[..|lines| - 1]) && !IsDotted(lines[|lines| - 1])
    ensures NoneDotted(lines)
  {
    hide IsDotted;
    forall i | 0 <= i < |lines| ensures !IsDotted(lines[i]) {
      assert i < |lines| - 1 ==> lines[..|lines| - 1][i] == lines[i];
    }
  }

  lemma SendsFewer(inputs: seq<Input>, lines: seq<string>)
    requires lines != [] && Sends(inputs, lines) && forall i :: 0 <= i < |lines| ==> IsTrimmed(lines[i])
    ensures var n := |lines| - 1;
      && |inputs| == n + 1 && Sends(inputs[..n], lines[..n]) && IsTrimmed(lines[n])
      && inputs[n].event == MessageReceived(lines[n]) && inputs[..n] + [inputs[n]] == inputs
      && forall i :: 0 <= i < n ==> IsTrimmed(lines[..n][i])
  {
    hide IsTrimmed;
  }

  lemma NothingSent(config: ServerConfig, users: map<string, string>, s: Session, inputs: seq<Input>,
                    lines: seq<string>)
    requires Sends(inputs, lines) && lines == []
    ensures After(config, users, s, inputs) == s && Joined(lines) == "" && NoneDotted(lines)
  {
    hide Next;
  }

  lemma {:induction false} RawLinesBound(config: ServerConfig, users: map<string, string>, s: Session,
                                         inputs: seq<Input>, lines: seq<string>)
    requires Sends(inputs, lines) && forall i :: 0 <= i < |lines| ==> IsTrimmed(lines[i])
    ensures var after := After(config, users, s, inputs).buffer;
      && |after| <= |s.buffer| + |Joined(lines)|
      && (|after| == |s.buffer| + |Joined(lines)| ==> NoneDotted(lines))
    decreases |lines|
  {
    hide *;
    if lines == [] {
      NothingSent(config, users, s, inputs, lines);
    } else {
      var n := |lines| - 1;
      SendsFewer(inputs, lines);
      RawLinesBound(config, users, s, inputs[..n], lines[..n]);
      LineBuffer(config, users, After(config, users, s, inputs[..n]), inputs[n], lines[n]);
      After1(config, users, s, inputs[..n], inputs[n]);
      JoinedLength(lines);
      if |After(config, users, s, inputs).buffer| == |s.buffer| + |Joined(lines)| {
        NoneDottedMore(lines);
      }
    }
  }

  lemma JoinedLength(lines: seq<string>)
    requires lines != []
    ensures |Joined(lines)| == |Joined(lines[..|lines| - 1])| + |lines[|lines| - 1]| + 2
  {}

  /**
   A sender that does not stuff, as SmtpClient does not: its lines reach the buffer unchanged if and only if
   none of them is a dot or begins with two.
   */
  lemma RawLinesSurvive(config: ServerConfig, users: map<string, string>, s: Session, inputs: seq<Input>,
                        lines: seq<string>)
    requires InData(s) && Sends(inputs, lines) && forall i :: 0 <= i < |lines| ==> IsTrimmed(lines[i])
    requires |s.buffer| + |Joined(lines)| <= config.maxMessageSize
    ensures After(config, users, s, inputs) == s.(buffer := s.buffer + Joined(lines))
       <==> forall i :: 0 <= i < |lines| ==> !IsDotted(lines[i])
  {
    if forall i :: 0 <= i < |lines| ==> !IsDotted(lines[i]) {
      forall i | 0 <= i < |lines| ensures ArrivesAs(lines[i], lines[i]) {
        PlainArrives(lines[i]);
      }
      LinesAppended(config, users, s, inputs, lines, lines);
    } else {
      RawLinesBound(config, users, s, inputs, lines);
    }
  }

  /** The shortest text that is not kept: a line of two dots loses one. */
  lemma TwoDotsLoseOne(config: ServerConfig, users: map<string, string>, s: Session, input: Input)
    requires InData(s) && s.buffer == "" && input.event == MessageReceived("..") && config.maxMessageSize >= 3
    ensures Next(config, users, s, input).buffer == "." + CRLF
  {
    TrimmedIsTrimmed("..");
    StartsWithDots("..");
    assert Unstuffed("..") == ".";
    LineAppended(config, users, s, input, "..", ".");
    assert "" + "." == ".";
  }
}
