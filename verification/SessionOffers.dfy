/** What EHLO offers against what the server then accepts, and how the operands of AUTH are read. */
module SessionOffers {
  import opened Text
  import opened Base64
  import opened SmtpSession
  import opened PathArguments

  /** The reply has this line behind the first, which is the name of the server. */
  predicate Offers(effects: seq<Effect>, text: string) {
    exists i :: 0 < i < |effects| && effects[i].Reply? && effects[i].text == text
  }

  function FirstCode(effects: seq<Effect>): nat {
    if effects != [] && effects[0].Reply? then effects[0].code else 0
  }

  /** The replies to EHLO: all 250, and exactly the last one is marked as the last. */
  lemma HelloReplies(config: ServerConfig, users: map<string, string>, s: Session, name: string)
    ensures var (s', effects) := OnCommand(config, users, s, Ehlo, name);
      && s' == s.(clientName := name, phase := ReadyForMail) && effects != []
      && (forall i :: 0 <= i < |effects| ==>
            effects[i].Reply? && effects[i].code == 250 && (effects[i].last <==> i == |effects| - 1))
      && effects[|effects| - 1].text == "SIZE " + Decimal(config.maxMessageSize)
  {
    hide Decimal, IsAuthAllowed;
  }

  lemma OfferedIs(config: ServerConfig, s: Session, name: string)
    ensures var effects := OnHello(config, s, true, name).1;
      && (Offers(effects, "STARTTLS") <==> config.tlsEnabled && !s.tlsActive)
      && (Offers(effects, "AUTH PLAIN LOGIN") <==> !s.authenticated && IsAuthAllowed(config, s))
  {
    var size := "SIZE " + Decimal(config.maxMessageSize);
    assert size[0] == 'S' && size[1] == 'I' && "STARTTLS"[1] == 'T' && "AUTH PLAIN LOGIN"[0] == 'A';
    var effects := OnHello(config, s, true, name).1;
    var tls, auth := config.tlsEnabled && !s.tlsActive, !s.authenticated && IsAuthAllowed(config, s);
    assert tls ==> effects[1].text == "STARTTLS";
    assert auth ==> effects[if tls then 2 else 1].text == "AUTH PLAIN LOGIN";
    hide Decimal, IsAuthAllowed;
  }

  /**
   STARTTLS is offered in the reply to EHLO, and then accepted, unless a handshake is already on its way: the offer
   does not look at that.
   */
  lemma StartTlsAsOffered(config: ServerConfig, users: map<string, string>, s: Session, name: string, argument: string)
    ensures var (s', effects) := OnCommand(config, users, s, Ehlo, name);
      var answer := OnCommand(config, users, s', StartTls, argument).1;
      && (FirstCode(answer) == 220 <==> Offers(effects, "STARTTLS") && !s.tlsHandshakePending)
      && (TlsRequested in answer <==> FirstCode(answer) == 220)
  {
    OfferedIs(config, s, name);
    HelloReplies(config, users, s, name);
    hide OnHello, Offers;
  }

  /** AUTH is offered in the reply to EHLO if and only if it is not refused for where the session stands. */
  lemma AuthAsOffered(config: ServerConfig, users: map<string, string>, s: Session, name: string, argument: string)
    ensures var (s', effects) := OnCommand(config, users, s, Ehlo, name);
      var answer := OnCommand(config, users, s', Auth, argument).1;
      Offers(effects, "AUTH PLAIN LOGIN") <==> FirstCode(answer) != 503 && FirstCode(answer) != 538
  {
    OfferedIs(config, s, name);
    HelloReplies(config, users, s, name);
    var s' := OnCommand(config, users, s, Ehlo, name).0;
    assert IsAuthAllowed(config, s') == IsAuthAllowed(config, s) && s'.authenticated == s.authenticated;
    AuthAnswers(config, users, s', argument);
    hide OnHello, Offers, OnAuth, IsAuthAllowed;
  }

  lemma MechanismAnswers(users: map<string, string>, s: Session, initial: string)
    ensures var code := FirstCode(OnAuthPlain(users, s, initial).1); code != 503 && code != 538
    ensures var code := FirstCode(OnAuthLogin(s, initial).1); code != 503 && code != 538
  {
    hide ParsePlainAuth, Decoded, Authenticate;
  }

  lemma AuthAnswers(config: ServerConfig, users: map<string, string>, s: Session, argument: string)
    ensures var code := FirstCode(OnAuth(config, users, s, argument).1);
      code == 503 || code == 538 <==> s.authenticated || !IsAuthAllowed(config, s)
  {
    MechanismAnswers(users, s, Words(argument).1);
    hide OnAuthPlain, OnAuthLogin, Words, Upper, IsAuthAllowed;
  }

  // ----- the operands of AUTH -----

  lemma {:induction false} FirstWordIs(word: string, tail: string)
    requires SpaceFree(word) && (tail == "" || IsSpace(tail[0]))
    ensures FirstWord(word + tail) == word
    decreases |word|
  {
    if word == "" {
      assert word + tail == tail;
    } else {
      assert (word + tail)[0] == word[0] && (word + tail)[1..] == word[1..] + tail;
      FirstWordIs(word[1..], tail);
      assert [word[0]] + word[1..] == word;
    }
  }

  lemma WordBehind(gap: string, word: string, tail: string)
    requires AllSpace(gap) && SpaceFree(word) && (tail == "" || IsSpace(tail[0])) && (word == "" ==> tail == "")
    ensures var rest := TrimmedLeft(gap + (word + tail)); rest == word + tail && FirstWord(rest) == word
  {
    assert word + tail != "" ==> !IsSpace((word + tail)[0]);
    TrimmedLeftDrops(gap, word + tail);
    FirstWordIs(word, tail);
    hide TrimmedLeft, FirstWord;
  }

  /** The first two words, whatever white space is around them and whatever follows. */
  lemma WordsAre(gap: string, first: string, between: string, second: string, tail: string)
    requires AllSpace(gap) && AllSpace(between) && SpaceFree(first) && SpaceFree(second) && first != ""
    requires (second != "" ==> between != "") && (tail == "" || IsSpace(tail[0])) && (second == "" ==> tail == "")
    ensures Words(gap + (first + (between + (second + tail)))) == (first, second)
  {
    var behind := between + (second + tail);
    assert behind == "" || IsSpace(behind[0]);
    WordBehind(gap, first, behind);
    WordBehind(between, second, tail);
    assert (first + behind)[|first|..] == behind;
    hide TrimmedLeft, FirstWord;
  }

  // ----- command words -----

  /** The case of the command word does not matter. */
  lemma CommandInAnyCase(word: string, word': string, rest: string)
    requires ' ' !in word && ' ' !in word' && AllSameUpToCase(word, word')
    ensures Command(word + " " + rest) == Command(word' + " " + rest)
    ensures Argument(word + " " + rest) == Argument(word' + " " + rest)
  {
    SplitAtBlank(word, rest);
    SplitAtBlank(word', rest);
    UpperIs(word, word');
    hide Command, Argument, Upper, Lower, AllSameUpToCase;
  }
}
