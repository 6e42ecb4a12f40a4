/**
 What a client means by a MAIL or RCPT line: the command word and the keyword in any case, an address with or without
 brackets, and parameters behind it, which EHLO invites and the server ignores.
 */
module PathArguments {
  import opened Wrappers
  import opened Text
  import opened MailStorage
  import opened SmtpSession

  predicate AllSpace(s: string) {
    forall i :: 0 <= i < |s| ==> IsSpace(s[i])
  }

  /** Nothing, or a blank and what may follow it. */
  predicate IsTail(tail: string) {
    tail == "" || tail[0] == ' '
  }

  predicate IsCore(core: string) {
    core != "" && !IsSpace(core[0]) && !IsSpace(core[|core| - 1])
  }

  // ----- trimming -----

  lemma {:induction false} TrimmedRightKeeps(core: string, tail: string)
    requires IsCore(core)
    ensures TrimmedRight(core + tail) == core + TrimmedRight(tail)
    decreases |tail|
  {
    var all := core + tail;
    if tail == "" {
      assert all == core && core + "" == core;
    } else {
      assert all[|all| - 1] == tail[|tail| - 1];
      assert all[..|all| - 1] == core + tail[..|tail| - 1];
      TrimmedRightKeeps(core, tail[..|tail| - 1]);
    }
  }

  /** White space before a text goes, and only at its far end behind it. */
  lemma TrimmedTail(left: string, core: string, tail: string)
    requires AllSpace(left) && IsCore(core)
    ensures Trimmed(left + core + tail) == core + TrimmedRight(tail)
    ensures IsTail(tail) ==> IsTail(TrimmedRight(tail))
  {
    assert left + core + tail == left + (core + tail);
    TrimmedLeftDrops(left, core + tail);
    TrimmedRightKeeps(core, tail);
    TrimmedRightPrefix(tail);
    hide TrimmedLeft, TrimmedRight;
  }

  // ----- the path -----

  lemma FirstBlank(core: string, tail: string)
    requires ' ' !in core && IsTail(tail)
    ensures WithoutParameters(core + tail) == core
  {
    hide Find;
    if tail == "" {
      assert core + tail == core;
    } else {
      var rest := tail[1..];
      assert tail == [' '] + rest;
      Nested(core, [' '], rest);
      FindFirst(core, ' ', rest);
    }
  }

  lemma Nested<T>(a: seq<T>, b: seq<T>, c: seq<T>)
    ensures a + b + c == a + (b + c) && (a + (b + c))[..|a|] == a
  {}

  /** The address without the brackets around it. */
  function Bare(path: string): string {
    if |path| >= 2 && path[0] == '<' && path[|path| - 1] == '>' then path[1..|path| - 1] else path
  }

  lemma PathBehind(value: string, colon: nat)
    requires Trimmed(value) == value && Find(value, ':') == Some(colon) && colon < |value|
    ensures ExtractPath(value) == Bare(WithoutParameters(Trimmed(value[colon + 1..])))
  {
    hide Trimmed, Find, WithoutParameters;
  }

  lemma PathBehindColon(before: string, path: string)
    requires ':' !in before
    requires IsTrimmed(before + ":" + path)
    ensures ExtractPath(before + ":" + path) == Bare(WithoutParameters(Trimmed(path)))
  {
    hide *;
    var value := before + ":" + path;
    TrimmedIsTrimmed(value);
    FindFirst(before, ':', path);
    assert [':'] == ":";
    Behind(before, ":", path);
    PathBehind(value, |before|);
  }

  lemma Behind<T>(a: seq<T>, b: seq<T>, c: seq<T>)
    requires |b| == 1
    ensures (a + b + c)[|a| + 1..] == c && |a| < |a + b + c|
  {}

  lemma TrimmedAgain(argument: string)
    ensures ExtractPath(argument) == ExtractPath(Trimmed(argument)) && IsTrimmed(Trimmed(argument))
  {
    TrimmedIsTrimmed(argument);
    TrimmedIsTrimmed(Trimmed(argument));
    hide Trimmed, Find;
  }

  /** Whatever stands between the colon and the path, and behind the path, the path is what is taken. */
  lemma PathIs(keyword: string, blanks: string, path: string, tail: string)
    requires ':' !in keyword && IsCore(keyword) && AllSpace(blanks) && path != "" && SpaceFree(path) && IsTail(tail)
    ensures ExtractPath(keyword + ":" + blanks + path + tail) == Bare(path)
  {
    var core, rest := keyword + ":" + blanks + path, TrimmedRight(tail);
    assert IsCore(core) && IsCore(path) && ' ' !in path;
    TrimmedTail("", core, tail);
    assert "" + core + tail == core + tail;
    TrimmedAgain(core + tail);
    var inner := blanks + path + rest;
    Associates(keyword + ":", blanks, path, rest);
    hide Trimmed, TrimmedRight, ExtractPath, Bare;
    PathBehindColon(keyword, inner);
    TrimmedTail(blanks, path, rest);
    TrimmedRightTwice(tail);
    FirstBlank(path, rest);
  }

  lemma Associates<T>(a: seq<T>, b: seq<T>, c: seq<T>, d: seq<T>)
    ensures a + b + c + d == a + (b + c + d)
  {}

  lemma {:induction false} TrimmedRightTwice(s: string)
    ensures TrimmedRight(TrimmedRight(s)) == TrimmedRight(s)
  {
    TrimmedRightPrefix(s);
  }

  lemma BracketsGo(address: string)
    ensures Bare("<" + address + ">") == address
  {
    var path := "<" + address + ">";
    assert path[0] == '<' && path[|path| - 1] == '>' && path[1..|path| - 1] == address;
  }

  lemma InBrackets<T>(a: seq<T>, b: seq<T>, open: seq<T>, c: seq<T>, close: seq<T>, d: seq<T>)
    ensures a + b + (open + c + close) + d == a + b + open + c + close + d
  {}

  /** In brackets, as section 4.1.1.2 of RFC 5321 has it, with any parameters behind. */
  lemma BracketedAddress(keyword: string, blanks: string, address: string, tail: string)
    requires ':' !in keyword && IsCore(keyword) && AllSpace(blanks) && SpaceFree(address) && IsTail(tail)
    ensures ExtractPath(keyword + ":" + blanks + "<" + address + ">" + tail) == address
  {
    assert SpaceFree("<" + address + ">");
    hide ExtractPath, Bare, SpaceFree, IsCore, IsTail, AllSpace;
    BracketsGo(address);
    PathIs(keyword, blanks, "<" + address + ">", tail);
    InBrackets(keyword + ":", blanks, "<", address, ">", tail);
  }

  /** And without brackets. */
  lemma PlainAddress(keyword: string, blanks: string, address: string, tail: string)
    requires ':' !in keyword && IsCore(keyword) && AllSpace(blanks) && SpaceFree(address) && IsTail(tail)
    requires address != "" && address[0] != '<'
    ensures ExtractPath(keyword + ":" + blanks + address + tail) == address
  {
    PathIs(keyword, blanks, address, tail);
    hide ExtractPath;
  }

  // ----- the line -----

  predicate AllUpper(name: string) {
    forall i :: 0 <= i < |name| ==> 'A' <= name[i] <= 'Z'
  }

  lemma WordIsCore(word: string, name: string)
    requires Upper(word) == name && AllUpper(name) && name != ""
    ensures IsCore(word) && ' ' !in word && ':' !in word
  {
    assert |word| == |name|;
    forall i | 0 <= i < |word| ensures !IsSpace(word[i]) && word[i] != ' ' && word[i] != ':' {
      assert UpperChar(word[i]) == Upper(word)[i] == name[i];
    }
  }

  lemma SplitAtBlank(word: string, rest: string)
    requires ' ' !in word
    ensures Command(word + " " + rest) == Upper(word) && Argument(word + " " + rest) == Trimmed(rest)
  {
    var line := word + [' '] + rest;
    FindFirst(word, ' ', rest);
    assert line[..|word|] == word && line[|word| + 1..] == rest;
    hide Trimmed, Find, Upper;
  }

  lemma Regroup<T>(a: seq<T>, b: seq<T>, c: seq<T>, d: seq<T>, e: seq<T>)
    ensures [] + (a + b + (c + d)) + e == a + b + (c + d) + e
    ensures a + b + (c + d) + e == a + b + (c + d + e)
  {}

  /** The command word and the argument of a line, with any white space between and behind. */
  lemma LineIs(word: string, gap: string, core: string, tail: string)
    requires IsCore(word) && ' ' !in word && AllSpace(gap) && IsCore(core)
    ensures var line := Trimmed(word + " " + (gap + core) + tail);
      Command(line) == Upper(word) && Argument(line) == core + TrimmedRight(tail)
  {
    var all, rest := word + " " + (gap + core), TrimmedRight(tail);
    assert IsCore(all) by {
      assert all[0] == word[0] && all[|all| - 1] == core[|core| - 1];
    }
    assert AllSpace("");
    hide *;
    TrimmedTail("", all, tail);
    Regroup(word, " ", gap, core, tail);
    Regroup(word, " ", gap, core, rest);
    SplitAtBlank(word, gap + core + rest);
    TrimmedTail(gap, core, rest);
    TrimmedRightTwice(tail);
  }

  lemma KeywordFound(keyword: string, name: string, rest: string)
    requires Upper(keyword) == name
    ensures StartsWithNoCase(keyword + ":" + rest, name + ":")
  {
    var s, p := keyword + ":" + rest, name + ":";
    assert s[..|p|] == keyword + ":";
    assert |name| == |keyword|;
    forall i | 0 <= i < |p| ensures Upper(keyword + ":")[i] == Upper(p)[i] {
      UpperTwice(keyword, name, i);
    }
    assert Upper(s[..|p|]) == Upper(p);
  }

  lemma UpperTwice(keyword: string, name: string, i: nat)
    requires Upper(keyword) == name && i <= |name|
    ensures |keyword| == |name|
    ensures UpperChar((keyword + ":")[i]) == UpperChar((name + ":")[i])
  {
    if i < |name| {
      assert UpperChar(keyword[i]) == Upper(keyword)[i] == name[i];
    }
  }

  /** A line of this form: the word, white space, the keyword, a colon, white space, a path, parameters. */
  function PathLine(word: string, gap: string, keyword: string, blanks: string, path: string, tail: string): string {
    word + " " + (gap + (keyword + ":" + blanks + path)) + tail
  }

  lemma PathLineIs(word: string, name: string, gap: string, keyword: string, key: string, blanks: string, path: string,
                   tail: string)
    requires Upper(word) == name && AllUpper(name) && name != "" && Upper(keyword) == key && AllUpper(key) && key != ""
    requires AllSpace(gap) && AllSpace(blanks) && path != "" && SpaceFree(path) && IsTail(tail)
    ensures var line := Trimmed(PathLine(word, gap, keyword, blanks, path, tail));
      && Command(line) == name && StartsWithNoCase(Argument(line), key + ":")
      && ExtractPath(Argument(line)) == Bare(path)
  {
    var core := keyword + ":" + blanks + path;
    var rest := TrimmedRight(tail);
    WordIsCore(word, name);
    WordIsCore(keyword, key);
    assert IsCore(core) && IsTail(rest) by {
      TrimmedTail("", "x", tail);
      assert core[0] == keyword[0] && core[|core| - 1] == path[|path| - 1];
    }
    Associates(keyword + ":", blanks, path, rest);
    hide *;
    LineIs(word, gap, core, tail);
    PathIs(keyword, blanks, path, rest);
    KeywordFound(keyword, key, blanks + path + rest);
  }

  predicate AwaitsLine(s: Session) {
    s.authStage == NoAuth && s.phase != ReceivingMessage
  }

  lemma CommandLine(config: ServerConfig, users: map<string, string>, t: Tables, s: Session, payload: string,
                    fails: bool)
    requires AwaitsLine(s)
    ensures var line := Trimmed(payload);
      var (session, effects) := OnCommand(config, users, s, VerbOf(Command(line)), Argument(line));
      Handle(config, users, t, s, MessageReceived(payload), fails) == Handled(session, t, effects, false)
  {
    hide Trimmed, Command, Argument, VerbOf, OnCommand, OnDataLine, OnPlainResponse, OnLoginUsername, OnLoginPassword;
  }

  lemma MailAndRcpt()
    ensures AllUpper("MAIL") && AllUpper("RCPT") && AllUpper("FROM") && AllUpper("TO")
    ensures VerbOf("MAIL") == Mail && VerbOf("RCPT") == Rcpt
  {
    assert "MAIL"[0] == 'M' && "RCPT"[0] == 'R' && "HELO"[0] == 'H' && "EHLO"[0] == 'E' && "AUTH"[0] == 'A';
    assert |"STARTTLS"| == 8;
  }

  /**
   MAIL FROM, in any case and spacing, with any parameters: where it is allowed, the path without its brackets is the
   sender of a new mail.
   */
  lemma MailLineTaken(config: ServerConfig, users: map<string, string>, t: Tables, s: Session, word: string,
                      gap: string, keyword: string, blanks: string, path: string, tail: string, fails: bool)
    requires AwaitsLine(s) && Upper(word) == "MAIL" && Upper(keyword) == "FROM" && AllSpace(gap) && AllSpace(blanks)
    requires path != "" && SpaceFree(path) && Bare(path) != "" && IsTail(tail)
    ensures var payload := PathLine(word, gap, keyword, blanks, path, tail);
      var h := Handle(config, users, t, s, MessageReceived(payload), fails);
      if config.requireAuthentication && !s.authenticated then
        h.session == s && h.effects == [Reply(530, true, "Authentication required")]
      else
        && h.session.sender == Bare(path) && h.session.recipients == [] && h.session.buffer == ""
        && h.session.phase == MailTransaction && h.effects == [Reply(250, true, "Sender OK")]
  {
    MailAndRcpt();
    PathLineIs(word, "MAIL", gap, keyword, "FROM", blanks, path, tail);
    CommandLine(config, users, t, s, PathLine(word, gap, keyword, blanks, path, tail), fails);
    var argument := Argument(Trimmed(PathLine(word, gap, keyword, blanks, path, tail)));
    assert "FROM" + ":" == "FROM:";
    MailIs(config, users, s, argument);
    hide *;
  }

  lemma MailIs(config: ServerConfig, users: map<string, string>, s: Session, argument: string)
    requires StartsWithNoCase(argument, "FROM:") && ExtractPath(argument) != ""
    ensures var (session, effects) := OnCommand(config, users, s, Mail, argument);
      if config.requireAuthentication && !s.authenticated then
        session == s && effects == [Reply(530, true, "Authentication required")]
      else
        && session.sender == ExtractPath(argument) && session.recipients == [] && session.buffer == ""
        && session.phase == MailTransaction && effects == [Reply(250, true, "Sender OK")]
  {
    hide ExtractPath, StartsWithNoCase;
  }

  /** RCPT TO likewise: the path is one more recipient, if there is a sender. */
  lemma RcptLineTaken(config: ServerConfig, users: map<string, string>, t: Tables, s: Session, word: string,
                      gap: string, keyword: string, blanks: string, path: string, tail: string, fails: bool)
    requires AwaitsLine(s) && Upper(word) == "RCPT" && Upper(keyword) == "TO" && AllSpace(gap) && AllSpace(blanks)
    requires path != "" && SpaceFree(path) && Bare(path) != "" && IsTail(tail)
    ensures var payload := PathLine(word, gap, keyword, blanks, path, tail);
      var h := Handle(config, users, t, s, MessageReceived(payload), fails);
      if s.sender == "" then h.session == s && h.effects == [Reply(503, true, "Need MAIL FROM before RCPT TO")]
      else
        && h.session == s.(recipients := s.recipients + [Bare(path)], phase := MailTransaction)
        && h.effects == [Reply(250, true, "Recipient OK")]
  {
    MailAndRcpt();
    PathLineIs(word, "RCPT", gap, keyword, "TO", blanks, path, tail);
    CommandLine(config, users, t, s, PathLine(word, gap, keyword, blanks, path, tail), fails);
    var argument := Argument(Trimmed(PathLine(word, gap, keyword, blanks, path, tail)));
    assert "TO" + ":" == "TO:";
    RcptIs(config, users, s, argument);
    hide *;
  }

  lemma RcptIs(config: ServerConfig, users: map<string, string>, s: Session, argument: string)
    requires StartsWithNoCase(argument, "TO:") && ExtractPath(argument) != ""
    ensures var (session, effects) := OnCommand(config, users, s, Rcpt, argument);
      if s.sender == "" then session == s && effects == [Reply(503, true, "Need MAIL FROM before RCPT TO")]
      else
        && session == s.(recipients := s.recipients + [ExtractPath(argument)], phase := MailTransaction)
        && effects == [Reply(250, true, "Recipient OK")]
  {
    hide ExtractPath, StartsWithNoCase;
  }
}
