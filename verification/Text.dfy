/** Text helpers the session, the client and the reader share. Text is ASCII. */
module Text {
  import opened Wrappers

  const CRLF: string := "\r\n"

  /** std::isspace in the C locale, which is also what QString::trimmed removes from ASCII text. */
  predicate IsSpace(c: char) {
    c == ' ' || c == '\t' || c == '\n' || c == '\r' || c == 11 as char || c == 12 as char
  }

  predicate SpaceFree(s: string) {
    forall i :: 0 <= i < |s| ==> !IsSpace(s[i])
  }

  /** No white space at either end. */
  predicate IsTrimmed(s: string) {
    s == "" || (!IsSpace(s[0]) && !IsSpace(s[|s| - 1]))
  }

  function TrimmedLeft(s: string): string {
    if s != "" && IsSpace(s[0]) then TrimmedLeft(s[1..]) else s
  }

  function TrimmedRight(s: string): string {
    if s != "" && IsSpace(s[|s| - 1]) then TrimmedRight(s[..|s| - 1]) else s
  }

  function Trimmed(s: string): string {
    TrimmedRight(TrimmedLeft(s))
  }

  lemma {:induction false} TrimmedLeftDrops(left: string, core: string)
    requires forall i :: 0 <= i < |left| ==> IsSpace(left[i])
    requires core != "" ==> !IsSpace(core[0])
    ensures TrimmedLeft(left + core) == core
  {
    if left == "" {
      assert left + core == core;
    } else {
      assert (left + core)[1..] == left[1..] + core;
      TrimmedLeftDrops(left[1..], core);
    }
  }

  lemma {:induction false} TrimmedRightDrops(core: string, right: string)
    requires forall i :: 0 <= i < |right| ==> IsSpace(right[i])
    requires core != "" ==> !IsSpace(core[|core| - 1])
    ensures TrimmedRight(core + right) == core
  {
    if right == "" {
      assert core + right == core;
    } else {
      var all := core + right;
      assert all[..|all| - 1] == core + right[..|right| - 1];
      TrimmedRightDrops(core, right[..|right| - 1]);
    }
  }

  /** What trimming means: the trimmed core of a text is what is left of the white space around it. */
  lemma TrimmedOfPadded(left: string, core: string, right: string)
    requires forall i :: 0 <= i < |left| ==> IsSpace(left[i])
    requires forall i :: 0 <= i < |right| ==> IsSpace(right[i])
    requires IsTrimmed(core)
    ensures Trimmed(left + core + right) == core
  {
    if core == "" {
      TrimmedLeftDrops(left + right, "");
      assert left + core + right == left + right + "";
    } else {
      assert left + core + right == left + (core + right);
      TrimmedLeftDrops(left, core + right);
      TrimmedRightDrops(core, right);
    }
  }

  /** Every text is such a padded core, so trimming is total and idempotent. */
  lemma {:induction false} TrimmedIsTrimmed(s: string)
    ensures IsTrimmed(Trimmed(s)) && |Trimmed(s)| <= |s|
    ensures IsTrimmed(s) ==> Trimmed(s) == s
    ensures forall c :: c in Trimmed(s) ==> c in s
  {
    TrimmedLeftSuffix(s);
    TrimmedRightPrefix(TrimmedLeft(s));
  }

  lemma {:induction false} TrimmedLeftSuffix(s: string)
    ensures var r := TrimmedLeft(s); |r| <= |s| && r == s[|s| - |r|..] && (r != "" ==> !IsSpace(r[0]))
  {
    if s != "" && IsSpace(s[0]) {
      TrimmedLeftSuffix(s[1..]);
    }
  }

  lemma {:induction false} TrimmedRightPrefix(s: string)
    ensures var r := TrimmedRight(s); |r| <= |s| && r == s[..|r|] && (r != "" ==> !IsSpace(r[|r| - 1]))
  {
    if s != "" && IsSpace(s[|s| - 1]) {
      TrimmedRightPrefix(s[..|s| - 1]);
    }
  }

  lemma {:induction false} TrimmedKeepsFirst(line: string)
    requires line != "" && !IsSpace(line[0])
    ensures TrimmedRight(line) != ""
    decreases |line|
  {
    if IsSpace(line[|line| - 1]) {
      TrimmedKeepsFirst(line[..|line| - 1]);
    }
  }

  method Trim(value: string) returns (r: string)
    ensures r == Trimmed(value)
  {
    r := value;
    while r != "" && IsSpace(r[0])
      invariant TrimmedLeft(r) == TrimmedLeft(value)
      decreases |r|
    {
      r := r[1..];
    }
    while r != "" && IsSpace(r[|r| - 1])
      invariant TrimmedRight(r) == Trimmed(value)
      decreases |r|
    {
      r := r[..|r| - 1];
    }
  }

  function UpperChar(c: char): char {
    if 'a' <= c <= 'z' then (c as int - 32) as char else c
  }

  function LowerChar(c: char): char {
    if 'A' <= c <= 'Z' then (c as int + 32) as char else c
  }

  function Upper(s: string): string {
    seq(|s|, i requires 0 <= i < |s| => UpperChar(s[i]))
  }

  function Lower(s: string): string {
    seq(|s|, i requires 0 <= i < |s| => LowerChar(s[i]))
  }

  /** value starts with prefix, up to ASCII case. */
  predicate StartsWithNoCase(value: string, prefix: string) {
    |prefix| <= |value| && Upper(value[..|prefix|]) == Upper(prefix)
  }

  /** The same character, or the same letter in the other case. */
  predicate SameUpToCase(a: char, b: char) {
    || a == b
    || ('a' <= a <= 'z' && b as int == a as int - ('a' as int - 'A' as int))
    || ('A' <= a <= 'Z' && b as int == a as int + ('a' as int - 'A' as int))
  }

  lemma CaseIs(a: char, b: char)
    ensures UpperChar(a) == UpperChar(b) <==> SameUpToCase(a, b)
    ensures LowerChar(a) == LowerChar(b) <==> SameUpToCase(a, b)
  {}

  predicate AllSameUpToCase(a: string, b: string) {
    |a| == |b| && forall i :: 0 <= i < |a| ==> SameUpToCase(a[i], b[i])
  }

  lemma UpperIs(a: string, b: string)
    ensures Upper(a) == Upper(b) <==> AllSameUpToCase(a, b)
    ensures Lower(a) == Lower(b) <==> AllSameUpToCase(a, b)
  {
    if |a| == |b| {
      forall i | 0 <= i < |a|
        ensures Upper(a)[i] == Upper(b)[i] <==> SameUpToCase(a[i], b[i])
        ensures Lower(a)[i] == Lower(b)[i] <==> SameUpToCase(a[i], b[i])
      {
        CaseIs(a[i], b[i]);
      }
    } else {
      assert |Upper(a)| != |Upper(b)| && |Lower(a)| != |Lower(b)|;
    }
    hide SameUpToCase;
  }

  /** The comparison of prefixes, character by character. */
  lemma PrefixIs(value: string, prefix: string)
    ensures StartsWithNoCase(value, prefix)
       <==> |prefix| <= |value| && forall i :: 0 <= i < |prefix| ==> SameUpToCase(value[i], prefix[i])
  {
    if |prefix| <= |value| {
      UpperIs(value[..|prefix|], prefix);
    }
    hide SameUpToCase, Upper, Lower;
  }

  method StartsWithCaseInsensitive(value: string, prefix: string) returns (r: bool)
    ensures r == StartsWithNoCase(value, prefix)
  {
    if |value| < |prefix| {
      return false;
    }
    var index := 0;
    while index < |prefix|
      invariant 0 <= index <= |prefix|
      invariant forall j :: 0 <= j < index ==> UpperChar(value[j]) == UpperChar(prefix[j])
    {
      if UpperChar(value[index]) != UpperChar(prefix[index]) {
        assert Upper(value[..|prefix|])[index] != Upper(prefix)[index];
        return false;
      }
      index := index + 1;
    }
    return true;
  }

  /** std::string::find of one character. */
  function Find(s: string, c: char): (r: Option<nat>)
    ensures r.None? <==> c !in s
    ensures r.Some? ==> r.value < |s| && s[r.value] == c && c !in s[..r.value]
  {
    if s == "" then None
    else if s[0] == c then Some(0)
    else
      var rest := Find(s[1..], c);
      if rest.None? then None
      else
        assert s[..rest.value + 1] == [s[0]] + s[1..][..rest.value];
        Some(rest.value + 1)
  }

  /** The first occurrence is the one nothing precedes. */
  lemma {:induction false} FindFirst(before: string, c: char, after: string)
    requires c !in before
    ensures Find(before + [c] + after, c) == Some(|before|)
  {
    if before != "" {
      assert before[0] in before;
      assert (before + [c] + after)[1..] == before[1..] + [c] + after;
      FindFirst(before[1..], c, after);
    }
  }

  /** std::to_string of a non-negative number. */
  function Decimal(n: nat): (r: string)
    ensures |r| >= 1
    ensures n < 10 ==> |r| == 1
  {
    if n < 10 then ['0' + n as char] else Decimal(n / 10) + ['0' + (n % 10) as char]
  }
}
