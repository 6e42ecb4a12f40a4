/** The search highlighter: every occurrence of the searched word in a span, everything else escaped for HTML. */
module Highlight {
  import opened Wrappers
  import opened Text

  function OpenTag(): string {
    "<span" + " style=\"background-color:#fff3a3;color:#101828\">"
  }

  function CloseTag(): string {
    "</span>"
  }

  // ----- HTML escapes -----

  /** QString::toHtmlEscaped, one character. */
  function EscapedChar(c: char): string {
    if c == '<' then "&lt;"
    else if c == '>' then "&gt;"
    else if c == '&' then "&amp;"
    else if c == '"' then "&quot;"
    else [c]
  }

  function HtmlEscaped(s: string): string {
    if s == "" then "" else EscapedChar(s[0]) + HtmlEscaped(s[1..])
  }

  /** What a reader of HTML makes of the four escapes. */
  function Unescaped(s: string): string {
    if s == "" then ""
    else if "&lt;" <= s then "<" + Unescaped(s[4..])
    else if "&gt;" <= s then ">" + Unescaped(s[4..])
    else if "&amp;" <= s then "&" + Unescaped(s[5..])
    else if "&quot;" <= s then "\"" + Unescaped(s[6..])
    else [s[0]] + Unescaped(s[1..])
  }

  lemma UnescapesOne(c: char, rest: string)
    ensures Unescaped(EscapedChar(c) + rest) == [c] + Unescaped(rest)
  {
    var s := EscapedChar(c) + rest;
    assert s[|EscapedChar(c)|..] == rest;
    assert s[0] == EscapedChar(c)[0];
    if c == '<' || c == '>' || c == '&' || c == '"' {
      assert s[1] == EscapedChar(c)[1];
      assert EscapedChar(c) <= s;
      assert "&lt;"[1] == 'l' && "&gt;"[1] == 'g' && "&amp;"[1] == 'a' && "&quot;"[1] == 'q';
    } else {
      assert "&lt;"[0] == '&' && "&gt;"[0] == '&' && "&amp;"[0] == '&' && "&quot;"[0] == '&';
    }
  }

  lemma {:induction false} UnescapedInverts(s: string)
    ensures Unescaped(HtmlEscaped(s)) == s
    decreases |s|
  {
    if s != "" {
      UnescapesOne(s[0], HtmlEscaped(s[1..]));
      UnescapedInverts(s[1..]);
      hide Unescaped, EscapedChar;
    }
  }

  lemma {:induction false} EscapedSum(a: string, b: string)
    ensures HtmlEscaped(a + b) == HtmlEscaped(a) + HtmlEscaped(b)
    decreases |a|
  {
    if a == "" {
      assert a + b == b;
    } else {
      assert (a + b)[1..] == a[1..] + b && (a + b)[0] == a[0];
      EscapedSum(a[1..], b);
      hide EscapedChar;
      Associate(EscapedChar(a[0]), HtmlEscaped(a[1..]), HtmlEscaped(b));
    }
  }

  lemma {:induction false} EscapedHasNoTag(s: string)
    ensures '<' !in HtmlEscaped(s)
    decreases |s|
  {
    if s != "" {
      EscapedHasNoTag(s[1..]);
      assert '<' !in EscapedChar(s[0]);
      hide EscapedChar;
    }
  }

  // ----- tags -----

  /** The text between the tags. */
  function WithoutTags(s: string): string {
    if s == "" then ""
    else if OpenTag() <= s then WithoutTags(s[|OpenTag()|..])
    else if CloseTag() <= s then WithoutTags(s[|CloseTag()|..])
    else [s[0]] + WithoutTags(s[1..])
  }

  lemma TagsBeginWithAngle()
    ensures OpenTag()[0] == '<' && CloseTag()[0] == '<' && OpenTag()[1] != CloseTag()[1]
  {}

  lemma TagRemoved(rest: string)
    ensures WithoutTags(OpenTag() + rest) == WithoutTags(rest) && WithoutTags(CloseTag() + rest) == WithoutTags(rest)
  {
    TagsBeginWithAngle();
    assert (OpenTag() + rest)[|OpenTag()|..] == rest && (CloseTag() + rest)[|CloseTag()|..] == rest;
    assert OpenTag() <= OpenTag() + rest && CloseTag() <= CloseTag() + rest;
    assert (CloseTag() + rest)[1] == CloseTag()[1];
  }

  lemma {:induction false} PlainKept(plain: string, rest: string)
    requires '<' !in plain
    ensures WithoutTags(plain + rest) == plain + WithoutTags(rest)
    decreases |plain|
  {
    if plain == "" {
      assert plain + rest == rest;
    } else {
      TagsBeginWithAngle();
      var all := plain + rest;
      assert plain[0] in plain && all[0] == plain[0] && all[1..] == plain[1..] + rest;
      PlainKept(plain[1..], rest);
      assert [plain[0]] + (plain[1..] + WithoutTags(rest)) == plain + WithoutTags(rest);
    }
  }

  // ----- occurrences -----

  /** The word stands at this position, up to ASCII case. */
  predicate OccursAt(text: string, word: string, i: int) {
    0 <= i <= |text| - |word| && Lower(text[i..i + |word|]) == Lower(word)
  }

  /** Character by character. */
  lemma OccursIs(text: string, word: string, i: nat)
    ensures OccursAt(text, word, i)
       <==> i + |word| <= |text| && forall k :: 0 <= k < |word| ==> SameUpToCase(text[i + k], word[k])
  {
    if i + |word| <= |text| {
      UpperIs(text[i..i + |word|], word);
    }
    hide SameUpToCase, Lower, Upper;
  }

  /** QString::indexOf without regard to case. */
  function IndexOf(text: string, word: string, start: nat): (r: Option<nat>)
    ensures r.Some? ==> r.value >= start && OccursAt(text, word, r.value)
    ensures forall i :: start <= i && (r.None? || i < r.value) ==> !OccursAt(text, word, i)
    decreases |text| - start
  {
    if start + |word| > |text| then None
    else if OccursAt(text, word, start) then Some(start)
    else IndexOf(text, word, start + 1)
  }

  /**
   The leftmost occurrences that do not overlap: each is the first one behind the end of the one before, and
   none is left behind the last.
   */
  ghost predicate Leftmost(text: string, word: string, start: int, ps: seq<nat>)
    decreases |ps|
  {
    if ps == [] then forall i :: i >= start ==> !OccursAt(text, word, i)
    else
      && ps[0] >= start && OccursAt(text, word, ps[0])
      && (forall i :: start <= i < ps[0] ==> !OccursAt(text, word, i))
      && Leftmost(text, word, ps[0] + |word|, ps[1..])
  }

  function Occurrences(text: string, word: string, start: nat): (ps: seq<nat>)
    requires word != ""
    ensures Leftmost(text, word, start, ps)
    decreases |text| - start
  {
    var found := IndexOf(text, word, start);
    if found.None? then [] else [found.value] + Occurrences(text, word, found.value + |word|)
  }

  /** There is only one such list. */
  lemma {:induction false} LeftmostIsUnique(text: string, word: string, start: int, ps: seq<nat>, qs: seq<nat>)
    requires Leftmost(text, word, start, ps) && Leftmost(text, word, start, qs)
    ensures ps == qs
    decreases |ps|
  {
    if ps != [] && qs != [] {
      assert ps[0] == qs[0];
      LeftmostIsUnique(text, word, ps[0] + |word|, ps[1..], qs[1..]);
      assert ps == [ps[0]] + ps[1..] && qs == [qs[0]] + qs[1..];
    }
  }

  // ----- rendering -----

  function Piece(before: string, word: string, rest: string): string {
    HtmlEscaped(before) + OpenTag() + HtmlEscaped(word) + CloseTag() + rest
  }

  /** The pieces between the positions escaped, the words at them escaped and tagged. */
  function Rendered(text: string, n: nat, start: nat, ps: seq<nat>): string
    requires start <= |text| && Fits(text, n, start, ps)
    decreases |ps|
  {
    if ps == [] then HtmlEscaped(text[start..])
    else Piece(text[start..ps[0]], text[ps[0]..ps[0] + n], Rendered(text, n, ps[0] + n, ps[1..]))
  }

  predicate Fits(text: string, n: nat, start: nat, ps: seq<nat>)
    decreases |ps|
  {
    ps == [] || (start <= ps[0] && ps[0] + n <= |text| && Fits(text, n, ps[0] + n, ps[1..]))
  }

  lemma {:induction false} LeftmostFits(text: string, word: string, start: nat, ps: seq<nat>)
    requires Leftmost(text, word, start, ps)
    ensures Fits(text, |word|, start, ps)
    decreases |ps|
  {
    if ps != [] {
      LeftmostFits(text, word, ps[0] + |word|, ps[1..]);
    }
  }

  lemma PieceRemoved(a: string, b: string, rest: string)
    ensures WithoutTags(Piece(a, b, rest)) == HtmlEscaped(a + b) + WithoutTags(rest)
  {
    var x, y := HtmlEscaped(a), HtmlEscaped(b);
    assert Piece(a, b, rest) == x + OpenTag() + y + CloseTag() + rest;
    EscapedHasNoTag(a);
    EscapedHasNoTag(b);
    EscapedSum(a, b);
    hide *;
    Associate(x + OpenTag() + y, CloseTag(), rest);
    Associate(x + OpenTag(), y, CloseTag() + rest);
    Associate(x, OpenTag(), y + (CloseTag() + rest));
    PlainKept(x, OpenTag() + (y + (CloseTag() + rest)));
    TagRemoved(y + (CloseTag() + rest));
    PlainKept(y, CloseTag() + rest);
    TagRemoved(rest);
    Associate(x, y, WithoutTags(rest));
  }

  /** The text from start on, cut at a position and behind the word there. */
  lemma Cut(text: string, n: nat, start: nat, p: nat)
    requires start <= p && p + n <= |text|
    ensures HtmlEscaped(text[start..p] + text[p..p + n]) + HtmlEscaped(text[p + n..]) == HtmlEscaped(text[start..])
  {
    assert text[start..p] + text[p..p + n] == text[start..p + n];
    assert text[start..p + n] + text[p + n..] == text[start..];
    EscapedSum(text[start..p + n], text[p + n..]);
    hide HtmlEscaped;
  }

  lemma RenderedStep(text: string, n: nat, start: nat, ps: seq<nat>)
    requires start <= |text| && Fits(text, n, start, ps) && ps != []
    ensures var p := ps[0];
      && start <= p && p + n <= |text| && Fits(text, n, p + n, ps[1..])
      && Rendered(text, n, start, ps) == Piece(text[start..p], text[p..p + n], Rendered(text, n, p + n, ps[1..]))
  {}

  lemma HeadAndTail<T>(x: T, xs: seq<T>)
    ensures ([x] + xs)[0] == x && ([x] + xs)[1..] == xs && [x] + xs != []
  {}

  lemma NothingRendered(text: string, n: nat, start: nat)
    requires start <= |text|
    ensures Fits(text, n, start, [])
    ensures WithoutTags(Rendered(text, n, start, [])) == HtmlEscaped(text[start..])
  {
    var rest := HtmlEscaped(text[start..]);
    EscapedHasNoTag(text[start..]);
    PlainKept(rest, "");
    assert rest + "" == rest;
    assert WithoutTags("") == "";
    hide HtmlEscaped, WithoutTags;
  }

  lemma {:induction false} RenderedRead(text: string, n: nat, start: nat, ps: seq<nat>)
    requires start <= |text| && Fits(text, n, start, ps)
    ensures WithoutTags(Rendered(text, n, start, ps)) == HtmlEscaped(text[start..])
    decreases |ps|
  {
    hide *;
    if ps == [] {
      NothingRendered(text, n, start);
    } else {
      var p, rest := ps[0], ps[1..];
      RenderedStep(text, n, start, ps);
      RenderedRead(text, n, p + n, rest);
      PieceRemoved(text[start..p], text[p..p + n], Rendered(text, n, p + n, rest));
      Cut(text, n, start, p);
    }
  }

  function Highlighted(text: string, searched: string): string {
    var word := Trimmed(searched);
    if word == "" then HtmlEscaped(text)
    else
      LeftmostFits(text, word, 0, Occurrences(text, word, 0));
      Rendered(text, |word|, 0, Occurrences(text, word, 0))
  }

  /** Without the tags and the escapes, the text is what it was. */
  lemma HighlightRoundTrip(text: string, searched: string)
    ensures Unescaped(WithoutTags(Highlighted(text, searched))) == text
  {
    var word := Trimmed(searched);
    UnescapedInverts(text);
    assert text[0..] == text;
    if word == "" {
      EscapedHasNoTag(text);
      PlainKept(HtmlEscaped(text), "");
      assert HtmlEscaped(text) + "" == HtmlEscaped(text);
      assert WithoutTags("") == "";
    } else {
      LeftmostFits(text, word, 0, Occurrences(text, word, 0));
      RenderedRead(text, |word|, 0, Occurrences(text, word, 0));
    }
    hide HtmlEscaped, WithoutTags, Unescaped, Trimmed, Occurrences, Rendered;
  }

  method AppendFound(result: string, before: string, word: string) returns (r: string)
    ensures r == result + HtmlEscaped(before) + OpenTag() + HtmlEscaped(word) + CloseTag()
  {
    hide *;
    r := result + HtmlEscaped(before);
    r := r + OpenTag();
    r := r + HtmlEscaped(word);
    r := r + CloseTag();
  }

  method HighlightAllFoundWords(text: string, searched: string) returns (result: string)
    ensures result == Highlighted(text, searched)
  {
    hide *;
    var word := Trim(searched);
    if word == "" {
      NothingSearched(text, searched);
      return HtmlEscaped(text);
    }
    HighlightedIsRest(text, searched);
    result := "";
    var start := 0;
    var found := IndexOf(text, word, start);
    while found.Some?
      invariant 0 <= start <= |text| && found == IndexOf(text, word, start)
      invariant result + Rest(text, word, start) == Highlighted(text, searched)
      decreases |text| - start
    {
      var p := found.value;
      RestFound(text, word, start, p);
      PieceAppended(result, text[start..p], text[p..p + |word|], Rest(text, word, p + |word|));
      result := AppendFound(result, text[start..p], text[p..p + |word|]);
      start := p + |word|;
      found := IndexOf(text, word, start);
    }
    RestNotFound(text, word, start);
    result := result + HtmlEscaped(text[start..]);
  }

  lemma OccurrencesFit(text: string, word: string, start: nat)
    requires word != ""
    ensures Fits(text, |word|, start, Occurrences(text, word, start))
  {
    LeftmostFits(text, word, start, Occurrences(text, word, start));
  }

  /** What the loop still has to append. */
  function Rest(text: string, word: string, start: nat): string
    requires word != "" && start <= |text|
  {
    OccurrencesFit(text, word, start);
    Rendered(text, |word|, start, Occurrences(text, word, start))
  }

  lemma NothingSearched(text: string, searched: string)
    requires Trimmed(searched) == ""
    ensures Highlighted(text, searched) == HtmlEscaped(text)
  {}

  lemma HighlightedIsRest(text: string, searched: string)
    requires Trimmed(searched) != ""
    ensures "" + Rest(text, Trimmed(searched), 0) == Highlighted(text, searched)
  {}

  lemma RestNotFound(text: string, word: string, start: nat)
    requires word != "" && start <= |text| && IndexOf(text, word, start).None?
    ensures Rest(text, word, start) == HtmlEscaped(text[start..])
  {}

  lemma OccurrencesFrom(text: string, word: string, start: nat, p: nat)
    requires word != "" && IndexOf(text, word, start) == Some(p)
    ensures p + |word| <= |text| && start <= p
    ensures Occurrences(text, word, start) == [p] + Occurrences(text, word, p + |word|)
  {
    hide Leftmost, IndexOf;
  }

  lemma RestIs(text: string, word: string, start: nat)
    requires word != "" && start <= |text|
    ensures Fits(text, |word|, start, Occurrences(text, word, start))
    ensures Rest(text, word, start) == Rendered(text, |word|, start, Occurrences(text, word, start))
  {
    OccurrencesFit(text, word, start);
    hide Rendered, Occurrences, Fits;
  }

  lemma RestFound(text: string, word: string, start: nat, p: nat)
    requires word != "" && start <= |text| && IndexOf(text, word, start) == Some(p)
    ensures start <= p && p + |word| <= |text|
    ensures Rest(text, word, start) == Piece(text[start..p], text[p..p + |word|], Rest(text, word, p + |word|))
  {
    hide *;
    OccurrencesFrom(text, word, start, p);
    RestIs(text, word, start);
    RestIs(text, word, p + |word|);
    HeadAndTail(p, Occurrences(text, word, p + |word|));
    RenderedStep(text, |word|, start, Occurrences(text, word, start));
  }

  lemma PieceAppended(result: string, before: string, word: string, rest: string)
    ensures result + Piece(before, word, rest)
         == result + HtmlEscaped(before) + OpenTag() + HtmlEscaped(word) + CloseTag() + rest
  {
    Pieces(result, HtmlEscaped(before), OpenTag(), HtmlEscaped(word), CloseTag(), rest);
    hide HtmlEscaped, OpenTag, CloseTag;
  }

  lemma Pieces<T>(r: seq<T>, a: seq<T>, b: seq<T>, c: seq<T>, d: seq<T>, e: seq<T>)
    ensures r + (a + b + c + d + e) == r + a + b + c + d + e
  {}

  /** The tagged pieces are the leftmost occurrences that do not overlap, and nothing else. */
  lemma TagsAreLeftmost(text: string, searched: string, ps: seq<nat>)
    requires Trimmed(searched) != "" && Leftmost(text, Trimmed(searched), 0, ps)
    ensures Fits(text, |Trimmed(searched)|, 0, ps)
    ensures Highlighted(text, searched) == Rendered(text, |Trimmed(searched)|, 0, ps)
  {
    var word := Trimmed(searched);
    LeftmostIsUnique(text, word, 0, ps, Occurrences(text, word, 0));
    LeftmostFits(text, word, 0, ps);
    hide Leftmost, Occurrences, Rendered, Trimmed, HtmlEscaped;
  }
}
