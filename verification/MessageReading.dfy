/** Line endings of any kind, and where the body of a message begins, on any message text. */
module MessageReading {
  import opened Wrappers
  import opened Text
  import opened MailText

  // ----- line endings -----

  predicate IsEnding(ending: string) {
    ending == CRLF || ending == "\n" || ending == "\r"
  }

  /** Each line with its own ending behind it. */
  function EndedBy(lines: seq<string>, endings: seq<string>): string
    requires |lines| == |endings|
  {
    if lines == [] then "" else lines[0] + endings[0] + EndedBy(lines[1..], endings[1..])
  }

  /** The endings can be told apart: behind "\r" there is no "\n" that would belong to an empty line. */
  predicate CanBeRead(lines: seq<string>, endings: seq<string>)
    requires |lines| == |endings|
  {
    && AllOneLine(lines)
    && (forall i :: 0 <= i < |endings| ==> IsEnding(endings[i]))
    && (forall i :: 0 <= i < |endings| - 1 && endings[i] == "\r" ==> lines[i + 1] != "" || endings[i + 1] != "\n")
  }

  /** The same text with "\n" where "\r\n" was. */
  function HalfWay(ending: string): string {
    if ending == CRLF then "\n" else ending
  }

  lemma {:induction false} OverLine(line: string, rest: string)
    requires OneLine(line)
    ensures WithoutCrLf(line + rest) == line + WithoutCrLf(rest)
    decreases |line|
  {
    if line == "" {
      assert line + rest == rest && "" + WithoutCrLf(rest) == WithoutCrLf(rest);
    } else {
      assert (line + rest)[1..] == line[1..] + rest && (line + rest)[0] == line[0];
      OverLine(line[1..], rest);
      assert [line[0]] + (line[1..] + WithoutCrLf(rest)) == line + WithoutCrLf(rest);
    }
  }

  lemma OverEnding(ending: string, rest: string)
    requires IsEnding(ending) && (ending == "\r" ==> rest == "" || rest[0] != '\n')
    ensures WithoutCrLf(ending + rest) == HalfWay(ending) + WithoutCrLf(rest)
  {
    var all := ending + rest;
    if ending == CRLF {
      assert all[0] == '\r' && all[1] == '\n' && all[2..] == rest;
    } else {
      assert all[0] == ending[0] && all[1..] == rest;
      assert [ending[0]] == ending;
    }
  }

  lemma WithoutCrSum(a: string, b: string)
    ensures WithoutCr(a + b) == WithoutCr(a) + WithoutCr(b)
  {}

  lemma WithoutCrOfLine(line: string, ending: string)
    requires OneLine(line) && IsEnding(ending)
    ensures WithoutCr(line) == line && WithoutCr(HalfWay(ending)) == "\n"
  {}

  lemma FirstOfText(lines: seq<string>, endings: seq<string>)
    requires |lines| == |endings| && CanBeRead(lines, endings)
    ensures EndedBy(lines, endings) != "" && EndedBy(lines, endings)[0] == '\n' ==>
      lines != [] && lines[0] == "" && endings[0] == "\n"
  {}

  lemma TailCanBeRead(lines: seq<string>, endings: seq<string>)
    requires |lines| == |endings| && lines != [] && CanBeRead(lines, endings)
    ensures CanBeRead(lines[1..], endings[1..])
    ensures OneLine(lines[0]) && IsEnding(endings[0])
    ensures endings[0] == "\r" ==> |lines| == 1 || lines[1] != "" || endings[1] != "\n"
  {
    hide OneLine, IsEnding;
  }

  /** A text whose lines end in "\r\n", "\n" or "\r", in any mixture, reads as these lines. */
  lemma {:induction false} AnyEndings(lines: seq<string>, endings: seq<string>)
    requires |lines| == |endings| && CanBeRead(lines, endings)
    ensures NormalizeLineEndings(EndedBy(lines, endings)) == Ended(lines, "\n")
    decreases |lines|
  {
    if lines != [] {
      var line, ending, rest := lines[0], endings[0], EndedBy(lines[1..], endings[1..]);
      TailCanBeRead(lines, endings);
      FirstOfText(lines[1..], endings[1..]);
      assert rest != "" && rest[0] == '\n' ==> ending != "\r";
      assert EndedBy(lines, endings) == line + ending + rest;
      assert Ended(lines, "\n") == line + "\n" + Ended(lines[1..], "\n");
      assert NormalizeLineEndings(line + ending + rest) == WithoutCr(WithoutCrLf(line + ending + rest));
      assert NormalizeLineEndings(rest) == WithoutCr(WithoutCrLf(rest));
      hide *;
      AnyEndings(lines[1..], endings[1..]);
      Associate(line, ending, rest);
      OverLine(line, ending + rest);
      OverEnding(ending, rest);
      WithoutCrSum(line, HalfWay(ending) + WithoutCrLf(rest));
      WithoutCrSum(HalfWay(ending), WithoutCrLf(rest));
      WithoutCrOfLine(line, ending);
      Associate(line, "\n", Ended(lines[1..], "\n"));
    }
  }

  // ----- the body -----

  predicate BlankLineAt(s: string, i: nat) {
    i + 2 <= |s| && s[i] == '\n' && s[i + 1] == '\n'
  }

  /** The search finds the first place, if there is one. */
  lemma {:induction false} FirstBlankLine(s: string)
    ensures var r := FindBlankLine(s);
      && (r.Some? ==> BlankLineAt(s, r.value) && forall i: nat :: i < r.value ==> !BlankLineAt(s, i))
      && (r.None? ==> forall i: nat :: !BlankLineAt(s, i))
    decreases |s|
  {
    if |s| >= 2 && !(s[0] == '\n' && s[1] == '\n') {
      FirstBlankLine(s[1..]);
      forall i: nat | BlankLineAt(s, i) ensures i > 0 && BlankLineAt(s[1..], i - 1) {}
      assert forall i: nat :: BlankLineAt(s[1..], i) ==> BlankLineAt(s, i + 1);
    }
  }

  /** Everything behind the first empty line is the body, trimmed; without one the whole text is. */
  lemma BodyIs(raw: string)
    ensures var text := NormalizeLineEndings(raw);
      && (forall i: nat :: BlankLineAt(text, i) && (forall j: nat :: j < i ==> !BlankLineAt(text, j)) ==>
            StripMessageHeaders(raw) == Trimmed(text[i + 2..]))
      && ((forall i: nat :: !BlankLineAt(text, i)) ==> StripMessageHeaders(raw) == Trimmed(text))
  {
    var text := NormalizeLineEndings(raw);
    FirstBlankLine(text);
    hide Trimmed, NormalizeLineEndings, FindBlankLine;
    forall i: nat | BlankLineAt(text, i) && forall j: nat :: j < i ==> !BlankLineAt(text, j)
      ensures FindBlankLine(text) == Some(i)
    {
      OneFirst(text, i);
    }
  }

  lemma OneFirst(text: string, i: nat)
    requires BlankLineAt(text, i) && forall j: nat :: j < i ==> !BlankLineAt(text, j)
    ensures FindBlankLine(text) == Some(i)
  {
    FirstBlankLine(text);
    var r := FindBlankLine(text);
    assert r.Some?;
    hide FindBlankLine;
  }

  /** A subject that is given is shown, trimmed; otherwise that of the header, or the placeholder. */
  lemma SubjectShown(subject: string, body: string)
    ensures Trimmed(subject) != "" ==> DisplaySubject(subject, body) == Trimmed(subject)
    ensures Trimmed(subject) == "" && HeaderOf(body, "Subject") != "" ==>
      DisplaySubject(subject, body) == HeaderOf(body, "Subject")
    ensures Trimmed(subject) == "" && HeaderOf(body, "Subject") == "" ==>
      DisplaySubject(subject, body) == "(No subject)"
  {
    hide Trimmed, HeaderOf;
  }
}
