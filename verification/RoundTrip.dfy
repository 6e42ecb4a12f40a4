/** From the compose window to the reading pane: what the mail client shows is what the sender wrote. */
module RoundTrip {
  import opened Wrappers
  import opened Text
  import opened MailStorage
  import opened DeliverySystem
  import opened SmtpSession
  import opened DotTransparency
  import opened MailText
  import opened ClientServer
  import C = SmtpClient

  // ----- the stored text as lines -----

  lemma {:induction false} EndedGrows(lines: seq<string>, last: string, ending: string)
    ensures Ended(lines + [last], ending) == Ended(lines, ending) + last + ending
    decreases |lines|
  {
    if lines == [] {
      assert [last][1..] == [];
      assert Ended([last], ending) == last + ending + "";
      assert "" + last + ending == last + ending + "";
    } else {
      assert (lines + [last])[1..] == lines[1..] + [last] && (lines + [last])[0] == lines[0];
      EndedGrows(lines[1..], last, ending);
      EndedShift(lines[0], ending, Ended(lines[1..], ending), last);
      hide Ended;
    }
  }

  lemma EndedShift(first: string, ending: string, mid: string, last: string)
    ensures first + ending + (mid + last + ending) == first + ending + mid + last + ending
  {}

  lemma {:induction false} JoinedIsEnded(lines: seq<string>)
    ensures Joined(lines) == Ended(lines, CRLF)
    decreases |lines|
  {
    if lines != [] {
      var n := |lines| - 1;
      JoinedIsEnded(lines[..n]);
      EndedGrows(lines[..n], lines[n], CRLF);
      assert lines[..n] + [lines[n]] == lines;
      hide Ended;
    }
  }

  // ----- the body -----

  predicate IsBody(lines: seq<string>) {
    && lines != [] && lines[0] != "" && lines[|lines| - 1] != ""
    && forall i :: 0 <= i < |lines| ==> OneLine(lines[i]) && IsTrimmed(lines[i])
  }

  lemma {:induction false} EndedIsBetween(lines: seq<string>)
    requires lines != []
    ensures Ended(lines, "\n") == Between(lines) + "\n"
    decreases |lines|
  {
    if |lines| == 1 {
      assert Ended(lines[1..], "\n") == "";
      assert lines[0] + "\n" + "" == lines[0] + "\n";
    } else {
      EndedIsBetween(lines[1..]);
      assert lines[0] + "\n" + (Between(lines[1..]) + "\n") == lines[0] + "\n" + Between(lines[1..]) + "\n";
    }
  }

  lemma {:induction false} BetweenEnds(lines: seq<string>)
    requires lines != [] && lines[|lines| - 1] != ""
    ensures var b := Between(lines);
      && b != "" && b[|b| - 1] == lines[|lines| - 1][|lines[|lines| - 1]| - 1]
      && (lines[0] != "" ==> b[0] == lines[0][0])
    decreases |lines|
  {
    if |lines| > 1 {
      BetweenEnds(lines[1..]);
    }
  }

  lemma BodyTrimmed(lines: seq<string>)
    requires IsBody(lines)
    ensures Trimmed(Ended(lines, "\n")) == Between(lines)
  {
    EndedIsBetween(lines);
    BetweenEnds(lines);
    assert IsTrimmed(lines[0]) && IsTrimmed(lines[|lines| - 1]);
    TrimmedOfPadded("", Between(lines), "\n");
    assert "" + Between(lines) + "\n" == Between(lines) + "\n";
    hide Between, Ended, Trimmed;
  }

  lemma {:induction false} BodyNormalized(body: string, lines: seq<string>)
    requires Spells(body, lines) && AllOneLine(lines)
    ensures NormalizeLineEndings(body) == Between(lines)
    decreases |lines|
  {
    SpelledWithoutCrLf(body, lines);
    BetweenHasNoCr(lines);
    hide WithoutCrLf, Between, Spells;
    assert WithoutCr(Between(lines)) == Between(lines);
  }

  lemma {:induction false} BetweenHasNoCr(lines: seq<string>)
    requires AllOneLine(lines)
    ensures forall i :: 0 <= i < |Between(lines)| ==> Between(lines)[i] != '\r'
    decreases |lines|
  {
    if |lines| > 1 {
      BetweenHasNoCr(lines[1..]);
    }
  }

  lemma {:induction false} WithoutCrLfSame(line: string)
    requires OneLine(line)
    ensures WithoutCrLf(line) == line
    decreases |line|
  {
    if line != "" {
      WithoutCrLfSame(line[1..]);
    }
  }

  lemma {:induction false} WithoutCrLfLf(line: string, rest: string)
    requires OneLine(line)
    ensures WithoutCrLf(line + "\n" + rest) == line + "\n" + WithoutCrLf(rest)
    decreases |line|
  {
    var all := line + "\n" + rest;
    if line == "" {
      assert all[1..] == rest;
    } else {
      assert all[1..] == line[1..] + "\n" + rest && all[0] == line[0];
      WithoutCrLfLf(line[1..], rest);
      assert [line[0]] + (line[1..] + "\n" + WithoutCrLf(rest)) == line + "\n" + WithoutCrLf(rest);
    }
  }

  lemma {:induction false} SpelledWithoutCrLf(body: string, lines: seq<string>)
    requires Spells(body, lines) && AllOneLine(lines)
    ensures WithoutCrLf(body) == Between(lines)
    decreases |lines|
  {
    if |lines| == 1 {
      WithoutCrLfSame(lines[0]);
    } else {
      var ending, more := FirstLine(body, lines);
      hide WithoutCrLf, Spells;
      SpelledWithoutCrLf(more, lines[1..]);
      WithoutCrLfLine(lines[0], more);
      WithoutCrLfLf(lines[0], more);
    }
  }

  // ----- the stored text, as the reader sees it -----

  function SubjectLine(subject: string): string {
    if subject == "" then "Subject:" else "Subject: " + subject
  }

  lemma StoredNormalized(mail: C.Mail, lines: seq<string>)
    requires OneLine(mail.sender) && OneLine(mail.subject) && AllOneLine(lines)
    ensures NormalizeLineEndings(Joined(StoredLines(mail, lines))) == Ended(StoredLines(mail, lines), "\n")
    ensures AllOneLine(StoredLines(mail, lines))
  {
    var stored := StoredLines(mail, lines);
    forall i | 0 <= i < |stored| ensures OneLine(stored[i]) {
      if i >= 3 {
        assert stored[i] == lines[i - 3];
      }
    }
    JoinedIsEnded(stored);
    NormalizedLines(stored);
    hide Joined, Ended, NormalizeLineEndings, OneLine;
  }

  lemma EndedCons(first: string, rest: seq<string>, ending: string)
    ensures Ended([first] + rest, ending) == first + ending + Ended(rest, ending)
  {}

  lemma StoredEnded(mail: C.Mail, lines: seq<string>)
    ensures var h0, h1, text := "From: " + mail.sender, SubjectLine(mail.subject), Ended(lines, "\n");
      && StoredLines(mail, lines) == [h0] + ([h1] + ([""] + lines))
      && Ended(StoredLines(mail, lines), "\n") == h0 + "\n" + (h1 + "\n" + ("" + "\n" + text))
  {
    var h0, h1 := "From: " + mail.sender, SubjectLine(mail.subject);
    assert StoredLines(mail, lines) == [h0, h1, ""] + lines;
    hide *;
    Cons3(h0, h1, "", lines);
    EndedCons("", lines, "\n");
    EndedCons(h1, [""] + lines, "\n");
    EndedCons(h0, [h1] + ([""] + lines), "\n");
  }

  lemma HeaderCut(h0: string, h1: string, text: string)
    requires OneLine(h0) && OneLine(h1) && h0 != "" && h1 != ""
    ensures var all := h0 + "\n" + (h1 + "\n" + ("" + "\n" + text));
      FindBlankLine(all) == Some(|h0| + 1 + |h1|) && all[|h0| + 1 + |h1| + 2..] == text
  {
    BlankLineAfter(h0, h1, text);
    assert h0 + "\n" + h1 + "\n" + "\n" + text == h0 + "\n" + (h1 + "\n" + ("" + "\n" + text));
    hide FindBlankLine;
  }

  lemma HeaderLineFacts(mail: C.Mail)
    requires OneLine(mail.sender) && OneLine(mail.subject)
    ensures OneLine("From: " + mail.sender) && OneLine(SubjectLine(mail.subject))
    ensures "From: " + mail.sender != "" && SubjectLine(mail.subject) != ""
  {}

  /** The body the reader shows is the body that was written, with its line endings normalised. */
  lemma BodyComesBack(mail: C.Mail, lines: seq<string>)
    requires OneLine(mail.sender) && OneLine(mail.subject) && IsBody(lines) && Spells(mail.body, lines)
    ensures StripMessageHeaders(Joined(StoredLines(mail, lines))) == NormalizeLineEndings(mail.body)
  {
    assert AllOneLine(lines);
    StoredNormalized(mail, lines);
    StoredEnded(mail, lines);
    HeaderLineFacts(mail);
    HeaderCut("From: " + mail.sender, SubjectLine(mail.subject), Ended(lines, "\n"));
    BodyTrimmed(lines);
    BodyNormalized(mail.body, lines);
    hide NormalizeLineEndings, Ended, FindBlankLine, Trimmed, Between, Joined, StoredLines, SubjectLine, Spells;
  }

  // ----- the subject -----

  lemma FromIsNoSubject(sender: string)
    ensures !StartsWithNoCase("From: " + sender, "Subject:") && Trimmed("From: " + sender) != ""
  {
    var line := "From: " + sender;
    if |line| >= 8 {
      assert Upper(line[..8])[0] == 'F' && Upper("Subject:")[0] == 'S';
    }
    NotBlank(line);
  }

  lemma NotBlank(line: string)
    requires line != "" && !IsSpace(line[0])
    ensures Trimmed(line) != ""
  {
    TrimmedKeepsFirst(line);
  }

  lemma SubjectRead(subject: string)
    requires IsTrimmed(subject)
    ensures var line := SubjectLine(subject);
      && StartsWithNoCase(line, "Subject:") && Trimmed(line) != "" && Trimmed(line[|"Subject:"|..]) == subject
  {
    var line := SubjectLine(subject);
    NotBlank(line);
    if subject == "" {
      assert line == "Subject:" + "" && line[8..] == "";
      PrefixFound("Subject:", "");
      TrimmedIsTrimmed("");
    } else {
      assert line == "Subject:" + (" " + subject) && line[8..] == " " + subject;
      PrefixFound("Subject:", " " + subject);
      TrimmedOfPadded(" ", subject, "");
      assert " " + subject + "" == " " + subject;
    }
    hide Trimmed, StartsWithNoCase;
  }

  /** The reader finds the subject that was written. */
  lemma SubjectComesBack(mail: C.Mail, lines: seq<string>)
    requires OneLine(mail.sender) && OneLine(mail.subject) && IsTrimmed(mail.subject) && AllOneLine(lines)
    ensures DisplaySubject("", Joined(StoredLines(mail, lines)))
         == if mail.subject == "" then NO_SUBJECT else mail.subject
  {
    var stored := StoredLines(mail, lines);
    StoredNormalized(mail, lines);
    SplitLines(stored);
    StoredEnded(mail, lines);
    FromIsNoSubject(mail.sender);
    SubjectRead(mail.subject);
    TrimmedIsTrimmed("");
    assert "Subject" + ":" == "Subject:";
    HeaderRead(stored + [""], "From: " + mail.sender, SubjectLine(mail.subject), "Subject:");
    hide NormalizeLineEndings, Ended, Split, Trimmed, Joined, StartsWithNoCase, HeaderIn;
    assert Trimmed("") == "";
  }

  lemma HeaderRead(all: seq<string>, h0: string, h1: string, prefix: string)
    requires |all| > 2 && all[0] == h0 && all[1] == h1 && all[2] == ""
    requires Trimmed(h0) != "" && !StartsWithNoCase(h0, prefix) && Trimmed(h1) != "" && StartsWithNoCase(h1, prefix)
    ensures HeaderIn(all, prefix, false, "") == Trimmed(h1[|prefix|..])
  {
    var value := Trimmed(h1[|prefix|..]);
    TrimmedIsTrimmed("");
    hide Trimmed, StartsWithNoCase;
    assert all[1..][0] == h1 && all[2..][0] == "" && all[1..][1..] == all[2..];
    assert HeaderIn(all[2..], prefix, true, value) == value;
  }

  /**
   The whole way: a mail that the client sends to this server is stored, and what is stored shows the body
   and the subject that were written.
   */
  lemma MailRoundTrip(config: ServerConfig, users: map<string, string>, t: Tables, mail: C.Mail, lines: seq<string>)
    requires !config.requireAuthentication && IsClientMail(mail) && IsClientText(config, mail, lines) && IsBody(lines)
    ensures var r := C.SendMail(Respond, Connect(config, users, t), mail);
      && r.0 == C.SUCCESS
      && exists text ::
        && r.1.server.tables == StoreMail(t, mail.sender, mail.recipients, text)
        && StripMessageHeaders(text) == NormalizeLineEndings(mail.body)
        && DisplaySubject("", text) == if mail.subject == "" then NO_SUBJECT else mail.subject
  {
    AddressOnOneLine("", mail.sender);
    MailIsStored(config, users, t, mail, lines);
    assert OneLine(mail.sender) && OneLine(mail.subject) && IsTrimmed(mail.subject) && Spells(mail.body, lines);
    assert AllOneLine(lines);
    hide *;
    BodyComesBack(mail, lines);
    SubjectComesBack(mail, lines);
  }
}
