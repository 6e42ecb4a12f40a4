/**
 What SendMailMessage answers, against any server: the commands in order with the codes they need, and the first reply
 that has another code.
 */
module ClientResult {
  import opened Wrappers
  import opened Text
  import C = SmtpClient

  /** A command, the code it needs, and what a reply with any other code is reported as. */
  datatype Item = Item(command: string, code: int, error: C.SmtpError, text: string)

  function RcptItems(recipients: seq<string>): seq<Item> {
    seq(|recipients|, i requires 0 <= i < |recipients| =>
      Item("RCPT TO:<" + recipients[i] + ">", 250, C.RecipientRejected, "Recipient <" + recipients[i] + "> rejected: "))
  }

  function Items(mail: C.Mail): seq<Item> {
    [Item("EHLO client", 250, C.ServerError, "EHLO rejected: "),
     Item("MAIL FROM:<" + mail.sender + ">", 250, C.ServerError, "MAIL FROM rejected: ")]
    + RcptItems(mail.recipients)
    + [Item("DATA", 354, C.ServerError, "DATA command rejected: "),
       Item("From: " + mail.sender + CRLF + "Subject: " + mail.subject + CRLF + CRLF + mail.body + CRLF + ".",
            250, C.ServerError, "Message not accepted: ")]
  }

  /**
   The connection before item n: behind the greeting, each of the n items before was sent and its reply read. None
   if the connection ended, or a reply had no code, on the way.
   */
  function Before<S>(respond: (S, string) -> (S, seq<string>), k: C.Link<S>, items: seq<Item>, n: nat):
    Option<C.Link<S>>
    requires n <= |items|
  {
    if n == 0 then
      var greeting := C.Reply(k);
      if greeting.None? then None else Some(greeting.value.1)
    else
      var before := Before(respond, k, items, n - 1);
      if before.None? then None
      else
        var answer := C.Reply(C.Sent(respond, before.value, items[n - 1].command));
        if answer.None? then None else Some(answer.value.1)
  }

  /** The reply to item n, if there is one. */
  function Answer<S>(respond: (S, string) -> (S, seq<string>), k: C.Link<S>, items: seq<Item>, n: nat):
    Option<C.SmtpReply>
    requires n < |items|
  {
    var before := Before(respond, k, items, n);
    if before.None? then None
    else
      var answer := C.Reply(C.Sent(respond, before.value, items[n].command));
      if answer.None? then None else Some(answer.value.0)
  }

  predicate Greeted<S>(k: C.Link<S>) {
    C.Reply(k).Some? && C.Reply(k).value.0.code == 220
  }

  predicate Accepts<S>(respond: (S, string) -> (S, seq<string>), k: C.Link<S>, items: seq<Item>, n: nat)
    requires n < |items|
  {
    var answer := Answer(respond, k, items, n); answer.Some? && answer.value.code == items[n].code
  }

  /** Item n is the first whose reply is missing or has another code. */
  ghost predicate DeviatesAt<S>(respond: (S, string) -> (S, seq<string>), k: C.Link<S>, items: seq<Item>, n: nat) {
    && n < |items| && !Accepts(respond, k, items, n)
    && forall j: nat :: j < n ==> Accepts(respond, k, items, j)
  }

  function Reported(item: Item, answer: Option<C.SmtpReply>): C.SmtpResult {
    if answer.None? then C.THROWN else C.SmtpResult(item.error, item.text + answer.value.text, answer.value.code)
  }

  // ----- the items one after the other -----

  /** The items from n on, sent on the connection. */
  function SendAll<S>(respond: (S, string) -> (S, seq<string>), k: C.Link<S>, items: seq<Item>): C.Progress<S>
    decreases |items|
  {
    if items == [] then C.Going(k)
    else
      var p := C.Expect(respond, k, items[0].command, items[0].code, items[0].error, items[0].text);
      if p.Stopped? then p else SendAll(respond, p.link, items[1..])
  }

  lemma {:induction false} SendAllSum<S>(respond: (S, string) -> (S, seq<string>), k: C.Link<S>, a: seq<Item>,
                                         b: seq<Item>)
    ensures var p := SendAll(respond, k, a);
      SendAll(respond, k, a + b) == if p.Stopped? then p else SendAll(respond, p.link, b)
    decreases |a|
  {
    hide C.Expect;
    if a == [] {
      assert a + b == b;
    } else {
      assert (a + b)[0] == a[0] && (a + b)[1..] == a[1..] + b;
      var p := C.Expect(respond, k, a[0].command, a[0].code, a[0].error, a[0].text);
      if p.Going? {
        SendAllSum(respond, p.link, a[1..], b);
      }
    }
  }

  lemma {:induction false} RecipientsAreItems<S>(respond: (S, string) -> (S, seq<string>), k: C.Link<S>,
                                                 recipients: seq<string>)
    ensures C.SendRecipients(respond, k, recipients) == SendAll(respond, k, RcptItems(recipients))
    decreases |recipients|
  {
    hide C.Expect;
    if recipients != [] {
      var items := RcptItems(recipients);
      assert items[1..] == RcptItems(recipients[1..]);
      var p := C.Expect(respond, k, items[0].command, items[0].code, items[0].error, items[0].text);
      if p.Going? {
        RecipientsAreItems(respond, p.link, recipients[1..]);
      }
    }
  }

  lemma TwoItems<S>(respond: (S, string) -> (S, seq<string>), k: C.Link<S>, a: Item, b: Item)
    ensures var p := C.Expect(respond, k, a.command, a.code, a.error, a.text);
      SendAll(respond, k, [a, b])
      == if p.Stopped? then p else C.Expect(respond, p.link, b.command, b.code, b.error, b.text)
  {
    hide C.Expect;
    assert [a, b][1..] == [b] && [b][1..] == [];
    var p := C.Expect(respond, k, a.command, a.code, a.error, a.text);
    if p.Going? {
      var q := C.Expect(respond, p.link, b.command, b.code, b.error, b.text);
      assert SendAll(respond, p.link, [b]) == if q.Stopped? then q else SendAll(respond, q.link, [b][1..]);
    }
  }

  lemma MessageIs(mail: C.Mail)
    ensures C.MessageText(mail)
         == "From: " + mail.sender + CRLF + "Subject: " + mail.subject + CRLF + CRLF + mail.body + CRLF + "."
  {
    LinesJoin("From: " + mail.sender, "Subject: " + mail.subject, mail.body, ".");
  }

  lemma LinesJoin(a: string, b: string, c: string, d: string)
    ensures C.Line(a, C.Line(b, C.Line("", C.Line(c, d)))) == a + CRLF + b + CRLF + CRLF + c + CRLF + d
  {
    var e := CRLF;
    assert C.Line("", C.Line(c, d)) == e + (c + e + d);
    Regroup(a, b, c, d, e);
  }

  lemma Regroup<T>(a: seq<T>, b: seq<T>, c: seq<T>, d: seq<T>, e: seq<T>)
    ensures a + e + (b + e + (e + (c + e + d))) == a + e + b + e + e + c + e + d
  {}

  lemma EnvelopeIsItems<S>(respond: (S, string) -> (S, seq<string>), k: C.Link<S>, mail: C.Mail)
    ensures C.SendEnvelope(respond, k, mail) == SendAll(respond, k, Items(mail)[..2] + RcptItems(mail.recipients))
  {
    var a, b := Items(mail)[0], Items(mail)[1];
    assert Items(mail)[..2] == [a, b];
    hide C.Expect, SendAll, Items;
    TwoItems(respond, k, a, b);
    SendAllSum(respond, k, [a, b], RcptItems(mail.recipients));
    var p := SendAll(respond, k, [a, b]);
    if p.Going? {
      RecipientsAreItems(respond, p.link, mail.recipients);
    }
  }

  lemma TextIsItems<S>(respond: (S, string) -> (S, seq<string>), k: C.Link<S>, mail: C.Mail)
    ensures |Items(mail)| == |mail.recipients| + 4
    ensures C.SendText(respond, k, mail) == SendAll(respond, k, Items(mail)[|mail.recipients| + 2..])
  {
    var n := |mail.recipients| + 2;
    MessageIs(mail);
    var a, b := Items(mail)[n], Items(mail)[n + 1];
    assert Items(mail)[n..] == [a, b];
    TwoItems(respond, k, a, b);
    hide C.Expect, SendAll, C.MessageText;
  }

  lemma ItemsAre(mail: C.Mail)
    ensures Items(mail) == Items(mail)[..2] + RcptItems(mail.recipients) + Items(mail)[|mail.recipients| + 2..]
  {}

  lemma SendMailIsItems<S>(respond: (S, string) -> (S, seq<string>), k: C.Link<S>, mail: C.Mail)
    requires Greeted(k)
    ensures var p := SendAll(respond, C.Reply(k).value.1, Items(mail));
      C.SendMail(respond, k, mail)
      == if p.Stopped? then (p.result, p.link) else (C.SUCCESS, C.Sent(respond, p.link, "QUIT"))
  {
    var link := C.Reply(k).value.1;
    var envelope, text := Items(mail)[..2] + RcptItems(mail.recipients), Items(mail)[|mail.recipients| + 2..];
    hide C.SendEnvelope, C.SendText, SendAll, Items, RcptItems, C.Reply, C.Sent;
    ItemsAre(mail);
    EnvelopeIsItems(respond, link, mail);
    SendAllSum(respond, link, envelope, text);
    var p := SendAll(respond, link, envelope);
    if p.Going? {
      TextIsItems(respond, p.link, mail);
    }
  }

  // ----- item by item -----

  lemma OneItem<S>(respond: (S, string) -> (S, seq<string>), k: C.Link<S>, items: seq<Item>, n: nat, link: C.Link<S>)
    requires n < |items| && Before(respond, k, items, n) == Some(link)
    ensures var p := C.Expect(respond, link, items[n].command, items[n].code, items[n].error, items[n].text);
      if Accepts(respond, k, items, n) then p.Going? && Before(respond, k, items, n + 1) == Some(p.link)
      else p.Stopped? && p.result == Reported(items[n], Answer(respond, k, items, n))
  {
    hide C.Reply, C.Sent;
  }

  lemma OneMoreItem<S>(respond: (S, string) -> (S, seq<string>), link: C.Link<S>, items: seq<Item>, n: nat)
    requires n < |items|
    ensures var p := C.Expect(respond, link, items[n].command, items[n].code, items[n].error, items[n].text);
      SendAll(respond, link, items[n..]) == if p.Stopped? then p else SendAll(respond, p.link, items[n + 1..])
  {
    assert items[n..][0] == items[n] && items[n..][1..] == items[n + 1..];
    hide C.Expect;
  }

  /** What sending the items from n on comes to. */
  ghost predicate EndsAs<S>(respond: (S, string) -> (S, seq<string>), k: C.Link<S>, items: seq<Item>, n: nat,
                            p: C.Progress<S>)
    requires n <= |items|
  {
    if forall j: nat :: n <= j < |items| ==> Accepts(respond, k, items, j) then
      p.Going? && Before(respond, k, items, |items|) == Some(p.link)
    else
      exists j: nat ::
        && n <= j < |items| && !Accepts(respond, k, items, j)
        && (forall i: nat :: n <= i < j ==> Accepts(respond, k, items, i))
        && p.Stopped? && p.result == Reported(items[j], Answer(respond, k, items, j))
  }

  lemma EndsLater<S>(respond: (S, string) -> (S, seq<string>), k: C.Link<S>, items: seq<Item>, n: nat, p: C.Progress<S>)
    requires n < |items| && Accepts(respond, k, items, n) && EndsAs(respond, k, items, n + 1, p)
    ensures EndsAs(respond, k, items, n, p)
  {
    hide Accepts, Before, Answer, Reported;
    if j: nat :| n <= j < |items| && !Accepts(respond, k, items, j) {
      assert n + 1 <= j;
    }
  }

  lemma EndsHere<S>(respond: (S, string) -> (S, seq<string>), k: C.Link<S>, items: seq<Item>, n: nat, p: C.Progress<S>)
    requires n < |items| && !Accepts(respond, k, items, n)
    requires p.Stopped? && p.result == Reported(items[n], Answer(respond, k, items, n))
    ensures EndsAs(respond, k, items, n, p)
  {
    hide Accepts, Before, Answer, Reported;
  }

  lemma {:induction false} AllEndAs<S>(respond: (S, string) -> (S, seq<string>), k: C.Link<S>, items: seq<Item>, n: nat,
                                       link: C.Link<S>)
    requires n <= |items| && Before(respond, k, items, n) == Some(link)
    ensures EndsAs(respond, k, items, n, SendAll(respond, link, items[n..]))
    decreases |items| - n
  {
    if n == |items| {
      assert items[n..] == [];
      hide Accepts, Before, Answer;
    } else {
      hide *;
      var p := C.Expect(respond, link, items[n].command, items[n].code, items[n].error, items[n].text);
      OneItem(respond, k, items, n, link);
      OneMoreItem(respond, link, items, n);
      if Accepts(respond, k, items, n) {
        AllEndAs(respond, k, items, n + 1, p.link);
        EndsLater(respond, k, items, n, SendAll(respond, p.link, items[n + 1..]));
      } else {
        EndsHere(respond, k, items, n, p);
      }
    }
  }

  /** The greeting has another code than 220, or there is none. */
  lemma NotGreeted<S>(respond: (S, string) -> (S, seq<string>), k: C.Link<S>, mail: C.Mail)
    requires !Greeted(k)
    ensures var greeting := C.Reply(k);
      C.SendMail(respond, k, mail).0
      == if greeting.None? then C.THROWN
         else
           var reply := greeting.value.0;
           C.SmtpResult(C.ConnectionFailed, "Server greeting failed: " + reply.text, reply.code)
  {
    hide C.Reply, C.SendEnvelope, C.SendText;
  }

  predicate AllAccepted<S>(respond: (S, string) -> (S, seq<string>), k: C.Link<S>, items: seq<Item>) {
    forall n: nat :: n < |items| ==> Accepts(respond, k, items, n)
  }

  lemma OneDeviates<S>(respond: (S, string) -> (S, seq<string>), k: C.Link<S>, items: seq<Item>, m: nat, n: nat)
    requires DeviatesAt(respond, k, items, m) && DeviatesAt(respond, k, items, n)
    ensures m == n
  {
    hide Accepts;
  }

  lemma FirstIsReported<S>(respond: (S, string) -> (S, seq<string>), k: C.Link<S>, items: seq<Item>, p: C.Progress<S>)
    requires EndsAs(respond, k, items, 0, p) && !AllAccepted(respond, k, items)
    ensures p.Stopped? && exists n: nat :: DeviatesAt(respond, k, items, n)
    ensures forall n: nat :: DeviatesAt(respond, k, items, n) ==>
      p.result == Reported(items[n], Answer(respond, k, items, n))
  {
    hide Accepts, Before, Answer, Reported;
    var j: nat :| && j < |items| && !Accepts(respond, k, items, j)
      && (forall i: nat :: i < j ==> Accepts(respond, k, items, i))
      && p.Stopped? && p.result == Reported(items[j], Answer(respond, k, items, j));
    assert DeviatesAt(respond, k, items, j);
    forall n: nat | DeviatesAt(respond, k, items, n) ensures n == j {
      OneDeviates(respond, k, items, n, j);
    }
  }

  lemma AllGoThrough<S>(respond: (S, string) -> (S, seq<string>), k: C.Link<S>, items: seq<Item>, p: C.Progress<S>)
    requires EndsAs(respond, k, items, 0, p) && AllAccepted(respond, k, items)
    ensures p.Going? && Before(respond, k, items, |items|) == Some(p.link)
  {
    hide Accepts, Before, Answer, Reported;
  }

  /** With a greeting: success if every item is accepted, else what the first deviating reply is reported as. */
  lemma GreetedResult<S>(respond: (S, string) -> (S, seq<string>), k: C.Link<S>, mail: C.Mail)
    requires Greeted(k)
    ensures var items, r := Items(mail), C.SendMail(respond, k, mail);
      if AllAccepted(respond, k, items) then
        && r.0 == C.SUCCESS && Before(respond, k, items, |items|).Some?
        && r.1 == C.Sent(respond, Before(respond, k, items, |items|).value, "QUIT")
      else
        && (exists n: nat :: DeviatesAt(respond, k, items, n))
        && (forall n: nat :: DeviatesAt(respond, k, items, n) ==>
              r.0 == Reported(items[n], Answer(respond, k, items, n)))
  {
    var items := Items(mail);
    var link := C.Reply(k).value.1;
    assert Before(respond, k, items, 0) == Some(link) && items[0..] == items;
    hide *;
    SendMailIsItems(respond, k, mail);
    AllEndAs(respond, k, items, 0, link);
    var p := SendAll(respond, link, items);
    if AllAccepted(respond, k, items) {
      AllGoThrough(respond, k, items, p);
    } else {
      FirstIsReported(respond, k, items, p);
    }
  }

  lemma ReportedIsFailure(mail: C.Mail, n: nat, answer: Option<C.SmtpReply>)
    requires n < |Items(mail)|
    ensures Reported(Items(mail)[n], answer).error != C.NoError
  {}

  /**
   Against every server: SendMailMessage reports success if and only if the greeting has code 220 and EHLO, MAIL, each
   RCPT, DATA and the text are answered with 250, 250, 250, 354 and 250.
   */
  lemma SuccessIff<S>(respond: (S, string) -> (S, seq<string>), k: C.Link<S>, mail: C.Mail)
    ensures C.SendMail(respond, k, mail).0.error == C.NoError <==> Greeted(k) && AllAccepted(respond, k, Items(mail))
    ensures C.SendMail(respond, k, mail).0.error == C.NoError ==> C.SendMail(respond, k, mail).0 == C.SUCCESS
  {
    hide Items, C.SendMail, Reported, AllAccepted, Greeted, Before, Answer, C.Reply, C.Sent;
    if Greeted(k) {
      GreetedResult(respond, k, mail);
      if !AllAccepted(respond, k, Items(mail)) {
        var n: nat :| DeviatesAt(respond, k, Items(mail), n);
        ReportedIsFailure(mail, n, Answer(respond, k, Items(mail), n));
      }
    } else {
      NotGreeted(respond, k, mail);
    }
  }
}
