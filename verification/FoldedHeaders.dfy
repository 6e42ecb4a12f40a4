/** What the mail client takes for the value of a header and for the body, on any message text. */
module FoldedHeaders {
  import opened Wrappers
  import opened Text
  import opened MailText

  // ----- kinds of lines -----

  predicate IsBlank(line: string) {
    Trimmed(line) == ""
  }

  predicate StartsBlank(line: string) {
    line != "" && (line[0] == ' ' || line[0] == '\t')
  }

  /** A continuation of the line before. */
  predicate IsFold(line: string) {
    !IsBlank(line) && StartsBlank(line)
  }

  predicate NoneBlank(lines: seq<string>) {
    forall i :: 0 <= i < |lines| ==> !IsBlank(lines[i])
  }

  predicate AllFolds(lines: seq<string>) {
    forall i :: 0 <= i < |lines| ==> IsFold(lines[i])
  }

  /** Lines of other headers, with their continuations. */
  predicate AllOther(lines: seq<string>, prefix: string) {
    forall i :: 0 <= i < |lines| ==> !IsBlank(lines[i]) && !StartsWithNoCase(lines[i], prefix)
  }

  /** The header section is over: at the end of the text or at a blank line. */
  predicate IsOver(lines: seq<string>) {
    lines == [] || IsBlank(lines[0])
  }

  /** What the continuations add to the value. */
  function Folded(folds: seq<string>): string {
    if folds == [] then "" else " " + Trimmed(folds[0]) + Folded(folds[1..])
  }

  predicate IsPrefix(prefix: string) {
    prefix != "" && !IsSpace(prefix[0]) && !IsSpace(prefix[|prefix| - 1])
  }

  // ----- what the loop makes of them -----

  lemma HeadIsNoFold(line: string, prefix: string)
    requires IsPrefix(prefix) && StartsWithNoCase(line, prefix)
    ensures !StartsBlank(line) && !IsBlank(line)
  {
    var first := line[0];
    assert UpperChar(first) == UpperChar(prefix[0]) by {
      assert Upper(line[..|prefix|])[0] == Upper(prefix)[0];
    }
    assert !IsSpace(first);
    NotBlank(line);
  }

  lemma NotBlank(line: string)
    requires line != "" && !IsSpace(line[0])
    ensures !IsBlank(line)
  {
    assert TrimmedLeft(line) == line;
    TrimmedKeepsFirst(line);
  }

  lemma StartIs(line: string)
    requires !IsBlank(line)
    ensures line != "" && (StartsBlank(line) <==> line[..1] == " " || line[..1] == "\t")
  {
    assert line != "" by {
      assert Trimmed("") == "";
    }
    assert line[..1] == [line[0]];
  }

  lemma Behind(line: string, rest: seq<string>)
    ensures ([line] + rest)[0] == line && ([line] + rest)[1..] == rest && [line] + rest != []
  {}

  lemma FirstAndRest(lines: seq<string>, rest: seq<string>)
    requires lines != []
    ensures lines + rest == [lines[0]] + (lines[1..] + rest)
  {}

  lemma {:induction false} OthersSkipped(others: seq<string>, over: seq<string>, prefix: string, reading: bool,
                                         value: string)
    requires AllOther(others, prefix) && IsOver(over) && (reading && others != [] ==> !StartsBlank(others[0]))
    ensures HeaderIn(others + over, prefix, reading, value) == value
    decreases |others|
  {
    if others == [] {
      assert others + over == over;
      hide Trimmed, StartsWithNoCase;
    } else {
      FirstAndRest(others, over);
      Behind(others[0], others[1..] + over);
      StartIs(others[0]);
      hide Trimmed, StartsWithNoCase;
      OthersSkipped(others[1..], over, prefix, false, value);
    }
  }

  lemma {:induction false} FoldsRead(folds: seq<string>, rest: seq<string>, prefix: string, value: string)
    requires AllFolds(folds)
    ensures HeaderIn(folds + rest, prefix, true, value) == HeaderIn(rest, prefix, true, value + Folded(folds))
    decreases |folds|
  {
    if folds == [] {
      assert folds + rest == rest && value + "" == value;
    } else {
      var more := value + " " + Trimmed(folds[0]);
      FirstAndRest(folds, rest);
      Behind(folds[0], folds[1..] + rest);
      StartIs(folds[0]);
      hide Trimmed, StartsWithNoCase;
      FoldsRead(folds[1..], rest, prefix, more);
      assert more + Folded(folds[1..]) == value + Folded(folds);
    }
  }

  /** Whatever was read before it, a line with the prefix starts the value anew. */
  lemma {:induction false} HeadFound(before: seq<string>, head: string, rest: seq<string>, prefix: string,
                                     reading: bool, value: string)
    requires NoneBlank(before) && IsPrefix(prefix) && StartsWithNoCase(head, prefix)
    ensures HeaderIn(before + ([head] + rest), prefix, reading, value)
         == HeaderIn(rest, prefix, true, Trimmed(head[|prefix|..]))
    decreases |before|
  {
    if before == [] {
      HeadIsNoFold(head, prefix);
      assert before + ([head] + rest) == [head] + rest;
      Behind(head, rest);
      hide Trimmed, StartsWithNoCase, HeaderIn;
      OneHead(head, rest, prefix, reading, value);
    } else {
      FirstAndRest(before, [head] + rest);
      Behind(before[0], before[1..] + ([head] + rest));
      StartIs(before[0]);
      hide Trimmed, StartsWithNoCase;
      var line := before[0];
      var folds := reading && StartsBlank(line);
      var found := StartsWithNoCase(line, prefix);
      HeadFound(before[1..], head, rest, prefix, if folds then true else found,
                if folds then value + " " + Trimmed(line) else if found then Trimmed(line[|prefix|..]) else value);
    }
  }

  lemma OneHead(head: string, rest: seq<string>, prefix: string, reading: bool, value: string)
    requires StartsWithNoCase(head, prefix) && !StartsBlank(head) && !IsBlank(head)
    ensures HeaderIn([head] + rest, prefix, reading, value) == HeaderIn(rest, prefix, true, Trimmed(head[|prefix|..]))
  {
    Behind(head, rest);
    StartIs(head);
    hide Trimmed, StartsWithNoCase;
  }

  /** The last header of the name with its continuations, among any lines. */
  lemma LastHeaderRead(before: seq<string>, head: string, folds: seq<string>, others: seq<string>, over: seq<string>,
                       prefix: string)
    requires NoneBlank(before) && IsPrefix(prefix) && StartsWithNoCase(head, prefix) && AllFolds(folds)
    requires AllOther(others, prefix) && (others != [] ==> !StartsBlank(others[0])) && IsOver(over)
    ensures HeaderIn(before + ([head] + (folds + (others + over))), prefix, false, "")
         == Trimmed(head[|prefix|..]) + Folded(folds)
  {
    assert |prefix| <= |head|;
    hide HeaderIn, Folded, Trimmed, StartsWithNoCase;
    HeadFound(before, head, folds + (others + over), prefix, false, "");
    FoldsRead(folds, others + over, prefix, Trimmed(head[|prefix|..]));
    OthersSkipped(others, over, prefix, true, Trimmed(head[|prefix|..]) + Folded(folds));
  }

  // ----- on a stored message -----

  lemma LinesOf(lines: seq<string>)
    requires AllOneLine(lines)
    ensures Split(NormalizeLineEndings(Ended(lines, CRLF))) == lines + [""]
  {
    NormalizedLines(lines);
    SplitLines(lines);
    hide NormalizeLineEndings, Ended, Split;
  }

  lemma NameIsPrefix(name: string)
    requires name != "" && !IsSpace(name[0])
    ensures IsPrefix(name + ":")
  {}

  lemma Grouped<T>(a: seq<T>, b: seq<T>, c: seq<T>, d: seq<T>, e: seq<T>, f: seq<T>)
    ensures a + b + c + d + e + f == a + (b + (c + (d + (e + f))))
  {}

  /** The end of a text is a line without characters. */
  lemma OverAtEnd(over: seq<string>)
    requires IsOver(over)
    ensures IsOver(over + [""])
  {
    assert over != [] ==> (over + [""])[0] == over[0];
    assert over == [] ==> (over + [""])[0] == "";
  }

  /**
   The value of a header: the trimmed rest of the last line with its name, in any case, and behind it each continuation,
   trimmed and after one blank. Lines of other headers count for nothing, nor does anything behind the first blank line.
   */
  lemma HeaderWithFolds(before: seq<string>, head: string, folds: seq<string>, others: seq<string>, over: seq<string>,
                        name: string)
    requires name != "" && !IsSpace(name[0]) && AllOneLine(before + [head] + folds + others + over)
    requires NoneBlank(before) && StartsWithNoCase(head, name + ":") && AllFolds(folds)
    requires AllOther(others, name + ":") && (others != [] ==> !StartsBlank(others[0])) && IsOver(over)
    ensures HeaderOf(Ended(before + [head] + folds + others + over, CRLF), name)
         == Trimmed(head[|name| + 1..]) + Folded(folds)
  {
    var lines := before + [head] + folds + others + over;
    assert HeaderOf(Ended(lines, CRLF), name)
        == HeaderIn(Split(NormalizeLineEndings(Ended(lines, CRLF))), name + ":", false, "");
    assert |name + ":"| == |name| + 1;
    hide *;
    LinesOf(lines);
    NameIsPrefix(name);
    OverAtEnd(over);
    Grouped(before, [head], folds, others, over, [""]);
    LastHeaderRead(before, head, folds, others, over + [""], name + ":");
  }

  /** No line with the name before the first blank one: no value. */
  lemma HeaderMissing(others: seq<string>, over: seq<string>, name: string)
    requires AllOneLine(others + over) && AllOther(others, name + ":") && IsOver(over)
    ensures HeaderOf(Ended(others + over, CRLF), name) == ""
  {
    assert HeaderOf(Ended(others + over, CRLF), name)
        == HeaderIn(Split(NormalizeLineEndings(Ended(others + over, CRLF))), name + ":", false, "");
    hide *;
    LinesOf(others + over);
    OverAtEnd(over);
    Associate(others, over, [""]);
    OthersSkipped(others, over + [""], name + ":", false, "");
  }

}
