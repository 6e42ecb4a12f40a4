/** How the mail client reads a stored message: line endings, headers, body and subject. */
module MailText {
  import opened Wrappers
  import opened Text

  // ----- line endings -----

  /** Every "\r\n" becomes "\n". */
  function WithoutCrLf(s: string): string {
    if s == "" then ""
    else if |s| >= 2 && s[0] == '\r' && s[1] == '\n' then "\n" + WithoutCrLf(s[2..])
    else [s[0]] + WithoutCrLf(s[1..])
  }

  function WithoutCr(s: string): string {
    seq(|s|, i requires 0 <= i < |s| => if s[i] == '\r' then '\n' else s[i])
  }

  function NormalizeLineEndings(s: string): string {
    WithoutCr(WithoutCrLf(s))
  }

  /** QString::split at '\n'. */
  function Split(s: string): (lines: seq<string>)
    ensures |lines| > 0
  {
    if s == "" then [""]
    else if s[0] == '\n' then [""] + Split(s[1..])
    else
      var rest := Split(s[1..]);
      [[s[0]] + rest[0]] + rest[1..]
  }

  // ----- headers -----

  /** What the loop of HeaderValue makes of the remaining lines. */
  function HeaderIn(lines: seq<string>, prefix: string, reading: bool, value: string): string
    decreases |lines|
  {
    if lines == [] || Trimmed(lines[0]) == "" then value
    else if reading && (lines[0][..1] == " " || lines[0][..1] == "\t") then
      HeaderIn(lines[1..], prefix, reading, value + " " + Trimmed(lines[0]))
    else if StartsWithNoCase(lines[0], prefix) then HeaderIn(lines[1..], prefix, true, Trimmed(lines[0][|prefix|..]))
    else HeaderIn(lines[1..], prefix, false, value)
  }

  function HeaderOf(raw: string, name: string): string {
    HeaderIn(Split(NormalizeLineEndings(raw)), name + ":", false, "")
  }

  method HeaderValue(raw: string, name: string) returns (value: string)
    ensures value == HeaderOf(raw, name)
  {
    var lines := Split(NormalizeLineEndings(raw));
    var prefix := name + ":";
    var reading := false;
    value := "";
    var i := 0;
    while i < |lines|
      invariant 0 <= i <= |lines|
      invariant HeaderIn(lines[i..], prefix, reading, value) == HeaderIn(lines, prefix, false, "")
    {
      assert lines[i..][0] == lines[i] && lines[i..][1..] == lines[i + 1..];
      var line := lines[i];
      i := i + 1;
      var trimmed := Trim(line);
      if trimmed == "" {
        break;
      }
      if reading && (line[..1] == " " || line[..1] == "\t") {
        value := value + " " + trimmed;
        continue;
      }
      reading := StartsWithCaseInsensitive(line, prefix);
      if reading {
        value := Trim(line[|prefix|..]);
      }
    }
  }

  // ----- body and subject -----

  /** QString::indexOf of "\n\n". */
  function FindBlankLine(s: string): (r: Option<nat>)
    ensures r.Some? ==> r.value + 2 <= |s|
  {
    if |s| < 2 then None
    else if s[0] == '\n' && s[1] == '\n' then Some(0)
    else
      var rest := FindBlankLine(s[1..]);
      if rest.None? then None else Some(rest.value + 1)
  }

  function StripMessageHeaders(raw: string): string {
    var text := NormalizeLineEndings(raw);
    var end := FindBlankLine(text);
    if end.None? then Trimmed(text) else Trimmed(text[end.value + 2..])
  }

  const NO_SUBJECT := "(No subject)"

  function DisplaySubject(subject: string, body: string): string {
    var shown := if Trimmed(subject) == "" then HeaderOf(body, "Subject") else Trimmed(subject);
    if shown == "" then NO_SUBJECT else shown
  }

  // ----- text made of lines -----

  predicate OneLine(s: string) {
    forall i :: 0 <= i < |s| ==> s[i] != '\r' && s[i] != '\n'
  }

  predicate AllOneLine(lines: seq<string>) {
    forall i :: 0 <= i < |lines| ==> OneLine(lines[i])
  }

  /** Each line with the same ending behind it. */
  function Ended(lines: seq<string>, ending: string): string {
    if lines == [] then "" else lines[0] + ending + Ended(lines[1..], ending)
  }

  /** The lines with '\n' between them. */
  function Between(lines: seq<string>): string {
    if lines == [] then "" else if |lines| == 1 then lines[0] else lines[0] + "\n" + Between(lines[1..])
  }

  lemma {:induction false} WithoutCrLfLine(line: string, rest: string)
    requires OneLine(line)
    ensures WithoutCrLf(line + CRLF + rest) == line + "\n" + WithoutCrLf(rest)
    decreases |line|
  {
    var all := line + CRLF + rest;
    if line == "" {
      assert all[2..] == rest;
    } else {
      assert all[1..] == line[1..] + CRLF + rest && all[0] == line[0];
      WithoutCrLfLine(line[1..], rest);
      assert [line[0]] + (line[1..] + "\n" + WithoutCrLf(rest)) == line + "\n" + WithoutCrLf(rest);
    }
  }

  lemma {:induction false} WithoutCrLfLines(lines: seq<string>)
    requires AllOneLine(lines)
    ensures WithoutCrLf(Ended(lines, CRLF)) == Ended(lines, "\n")
    decreases |lines|
  {
    if lines != [] {
      WithoutCrLfLine(lines[0], Ended(lines[1..], CRLF));
      WithoutCrLfLines(lines[1..]);
    }
  }

  lemma {:induction false} EndedHasNoCr(lines: seq<string>)
    requires AllOneLine(lines)
    ensures forall i :: 0 <= i < |Ended(lines, "\n")| ==> Ended(lines, "\n")[i] != '\r'
    decreases |lines|
  {
    if lines != [] {
      EndedHasNoCr(lines[1..]);
      hide Ended;
    }
  }

  /** Stored lines, read with normalised endings. */
  lemma NormalizedLines(lines: seq<string>)
    requires AllOneLine(lines)
    ensures NormalizeLineEndings(Ended(lines, CRLF)) == Ended(lines, "\n")
  {
    WithoutCrLfLines(lines);
    EndedHasNoCr(lines);
    hide WithoutCrLf, Ended;
  }

  lemma {:induction false} SplitLine(line: string, rest: string)
    requires OneLine(line)
    ensures Split(line + "\n" + rest) == [line] + Split(rest)
    decreases |line|
  {
    var all := line + "\n" + rest;
    if line == "" {
      assert all[1..] == rest;
    } else {
      assert all[1..] == line[1..] + "\n" + rest && all[0] == line[0];
      SplitLine(line[1..], rest);
      assert [line[0]] + line[1..] == line;
    }
  }

  lemma {:induction false} SplitLines(lines: seq<string>)
    requires AllOneLine(lines)
    ensures Split(Ended(lines, "\n")) == lines + [""]
    decreases |lines|
  {
    if lines != [] {
      SplitLine(lines[0], Ended(lines[1..], "\n"));
      SplitLines(lines[1..]);
      assert [lines[0]] + (lines[1..] + [""]) == lines + [""];
    }
  }

  lemma {:induction false} NoBlankIn(line: string, rest: string)
    requires OneLine(line) && line != ""
    ensures var r := FindBlankLine(rest);
      FindBlankLine(line + rest) == if r.None? then None else Some(r.value + |line|)
    decreases |line|
  {
    assert (line + rest)[1..] == line[1..] + rest;
    if |line| == 1 {
      assert line[1..] + rest == rest;
      if |rest| == 0 {
        assert FindBlankLine(line + rest) == None;
      }
    } else {
      NoBlankIn(line[1..], rest);
    }
  }

  /** The header ends at the first empty line behind non-empty ones. */
  lemma BlankLineAfter(first: string, second: string, rest: string)
    requires OneLine(first) && first != "" && OneLine(second) && second != ""
    ensures FindBlankLine(first + "\n" + second + "\n" + "\n" + rest) == Some(|first| + 1 + |second|)
  {
    var tail := "\n" + "\n" + rest;
    assert FindBlankLine(tail) == Some(0);
    NoBlankIn(second, tail);
    var mid := "\n" + second + tail;
    assert mid[1..] == second + tail && (second + tail)[0] == second[0];
    assert FindBlankLine(mid) == Some(|second| + 1);
    NoBlankIn(first, mid);
    assert first + "\n" + second + "\n" + "\n" + rest == first + mid;
  }
}
