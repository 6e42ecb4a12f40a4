/**
 The Base64 decoder of the AUTH dialogue, with its 32-bit bit accumulator, against the encoding of
 section 4 of RFC 4648, and the PLAIN message of section 2 of RFC 4616 it carries.

 A std::string of raw bytes is a string whose characters are all below 256.
 */
module Base64 {
  import opened Wrappers
  import opened Text

  /** The bytes of a std::string, and the six-bit groups of section 4 of RFC 4648. */
  type Byte = int
  type Sextet = int

  predicate AllBytes(b: seq<Byte>) {
    forall i :: 0 <= i < |b| ==> 0 <= b[i] < 256
  }

  predicate AllSextets(v: seq<Sextet>) {
    forall i :: 0 <= i < |v| ==> 0 <= v[i] < 64
  }

  /** The decoding table of the source: -1 outside the alphabet. */
  function TableValue(c: char): (v: int)
    ensures -1 <= v < 64
  {
    if 'A' <= c <= 'Z' then c as int - 'A' as int
    else if 'a' <= c <= 'z' then c as int - 'a' as int + 26
    else if '0' <= c <= '9' then c as int - '0' as int + 52
    else if c == '+' then 62
    else if c == '/' then 63
    else -1
  }

  /** The alphabet of table 1 of RFC 4648. */
  function Letter(v: Sextet): (c: char)
    requires 0 <= v < 64
    ensures TableValue(c) == v && !IsSpace(c) && c != '='
  {
    if v < 26 then (v + 'A' as int) as char
    else if v < 52 then (v - 26 + 'a' as int) as char
    else if v < 62 then (v - 52 + '0' as int) as char
    else if v == 62 then '+'
    else '/'
  }

  // ----- the bytes of a group -----

  function Byte0(a: Sextet, b: Sextet): Byte { a * 4 + b / 16 }
  function Byte1(b: Sextet, c: Sextet): Byte { b % 16 * 16 + c / 4 }
  function Byte2(c: Sextet, d: Sextet): Byte { c % 4 * 64 + d }

  function Letters(v: seq<Sextet>): string
    requires AllSextets(v)
  {
    seq(|v|, i requires 0 <= i < |v| => Letter(v[i]))
  }

  function Sextet0(a: Byte): Sextet { a / 4 }
  function Sextet1(a: Byte, b: Byte): Sextet { a % 4 * 16 + b / 16 }
  function Sextet2(b: Byte, c: Byte): Sextet { b % 16 * 4 + c / 64 }
  function Sextet3(c: Byte): Sextet { c % 64 }

  function Group(a: Byte, b: Byte, c: Byte): seq<Sextet> {
    [Sextet0(a), Sextet1(a, b), Sextet2(b, c), Sextet3(c)]
  }

  /** Three bytes become four six-bit groups; a shorter last group gets zero bits at its end. */
  function Groups(b: seq<Byte>): (v: seq<Sextet>)
    requires AllBytes(b)
    ensures AllSextets(v)
  {
    if b == [] then []
    else if |b| == 1 then [Sextet0(b[0]), Sextet1(b[0], 0)]
    else if |b| == 2 then [Sextet0(b[0]), Sextet1(b[0], b[1]), Sextet2(b[1], 0)]
    else Group(b[0], b[1], b[2]) + Groups(b[3..])
  }

  function Padding(n: nat): string {
    if n % 3 == 1 then "==" else if n % 3 == 2 then "=" else ""
  }

  function Encode(b: seq<Byte>): string
    requires AllBytes(b)
  {
    Letters(Groups(b)) + Padding(|b|)
  }

  // ----- what decoding means -----

  /** The letters of the input as far as the first '=', white space dropped; None outside the alphabet. */
  function Sextets(input: string): Option<seq<Sextet>> {
    if input == "" then Some([])
    else if IsSpace(input[0]) then Sextets(input[1..])
    else if input[0] == '=' then Some([])
    else if TableValue(input[0]) < 0 then None
    else Prepended([TableValue(input[0])], Sextets(input[1..]))
  }

  function Prepended(v: seq<Sextet>, rest: Option<seq<Sextet>>): Option<seq<Sextet>> {
    if rest.None? then None else Some(v + rest.value)
  }

  lemma PrependNothing(rest: Option<seq<Sextet>>)
    ensures Prepended([], rest) == rest
  {
    if rest.Some? {
      assert [] + rest.value == rest.value;
    }
  }

  lemma PrependOne(v: seq<Sextet>, x: Sextet, rest: Option<seq<Sextet>>)
    ensures Prepended(v, Prepended([x], rest)) == Prepended(v + [x], rest)
  {
    if rest.Some? {
      assert v + ([x] + rest.value) == v + [x] + rest.value;
    }
  }

  /** The byte completed, if any, when the sextet x follows n others of which the last is last. */
  function NextByte(n: nat, last: Sextet, x: Sextet): seq<Byte> {
    if n % 4 == 0 then []
    else if n % 4 == 1 then [Byte0(last, x)]
    else if n % 4 == 2 then [Byte1(last, x)]
    else [Byte2(last, x)]
  }

  function Last(v: seq<Sextet>): Sextet {
    if v == [] then 0 else v[|v| - 1]
  }

  /** The whole bytes contained in a row of six-bit groups. */
  function Bytes(v: seq<Sextet>): seq<Byte> {
    if v == [] then []
    else
      var before := v[..|v| - 1];
      Bytes(before) + NextByte(|before|, Last(before), Last(v))
  }

  lemma BytesGrow(v: seq<Sextet>, x: Sextet)
    ensures Bytes(v + [x]) == Bytes(v) + NextByte(|v|, Last(v), x)
  {}

  function AsText(b: seq<Byte>): string {
    seq(|b|, i requires 0 <= i < |b| => (b[i] % 256) as char)
  }

  function Decoded(input: string): Option<string> {
    var v := Sextets(input);
    if v.None? then None else Some(AsText(Bytes(v.value)))
  }

  // ----- the accumulator -----

  /** The bit counter of the source after n sextets: -8, plus six for each, minus eight per byte pushed. */
  function BitsAfter(n: nat): int {
    if n % 4 == 0 then -8 else if n % 4 == 1 then -2 else if n % 4 == 2 then -4 else -6
  }

  /** An arithmetic shift to the right by a count the decoder uses, and the mask 0xFF. */
  function ShiftedByte(register: int, bits: int): Byte
    requires bits == 0 || bits == 2 || bits == 4
  {
    if bits == 4 then register / 16 % 256 else if bits == 2 then register / 4 % 256 else register % 256
  }

  lemma DivMod(n: int, d: int, q: int, r: int)
    requires d == 4 || d == 16 || d == 64 || d == 256
    requires 0 <= r < d && n == q * d + r
    ensures n / d == q && n % d == r
  {}

  /** Output happens at shifts 4, 2 and 0 only, so no more than twelve bits of the register reach it. */
  lemma RegisterSuffices(n: nat, last: Sextet, x: Sextet, register: int)
    requires 0 <= last < 64 && 0 <= x < 64
    requires register % 64 == last
    ensures (register * 64 + x) % 64 == x
    ensures BitsAfter(n) + 6 >= 0 <==> n % 4 != 0
    ensures n % 4 != 0 ==> NextByte(n, last, x) == [ShiftedByte(register * 64 + x, BitsAfter(n) + 6)]
  {
    LowTwelveBits(register / 64, last, x);
    DivMod(register * 64 + x, 64, register, x);
    assert register * 64 + x == 4096 * (register / 64) + 64 * last + x;
  }

  lemma LowTwelveBits(high: int, last: Sextet, x: Sextet)
    requires 0 <= last < 64 && 0 <= x < 64
    ensures var n := 4096 * high + 64 * last + x;
      && ShiftedByte(n, 4) == Byte0(last, x)
      && ShiftedByte(n, 2) == Byte1(last, x)
      && ShiftedByte(n, 0) == Byte2(last, x)
  {
    var n := 4096 * high + 64 * last + x;
    DivMod(n, 16, 256 * high + Byte0(last, x), x % 16);
    DivMod(n / 16, 256, high, Byte0(last, x));
    DivMod(n, 4, 256 * (4 * high + last / 16) + Byte1(last, x), x % 4);
    DivMod(n / 4, 256, 4 * high + last / 16, Byte1(last, x));
    DivMod(n, 256, 16 * high + last / 4, Byte2(last, x));
  }

  /** A 32-bit signed int after an overflow: two's complement. */
  function Wrap32(n: int): int {
    var low := n % 0x1_0000_0000;
    if low < 0x8000_0000 then low else low - 0x1_0000_0000
  }

  lemma WrapKeepsLowBits(n: int, bits: int)
    requires bits == 0 || bits == 2 || bits == 4
    ensures ShiftedByte(Wrap32(n), bits) == ShiftedByte(n, bits)
    ensures Wrap32(n) % 64 == n % 64
  {
    var w := Wrap32(n);
    var k := if n % 0x1_0000_0000 < 0x8000_0000 then n / 0x1_0000_0000 else n / 0x1_0000_0000 + 1;
    assert n == w + 0x1_0000_0000 * k;
    SameLowBits(w, 0x10_0000 * k);
  }

  lemma SameLowBits(w: int, k: int)
    ensures (w + 4096 * k) % 64 == w % 64
    ensures (w + 4096 * k) / 16 % 256 == w / 16 % 256
    ensures (w + 4096 * k) / 4 % 256 == w / 4 % 256
    ensures (w + 4096 * k) % 256 == w % 256
  {
    var n := w + 4096 * k;
    DivMod(n, 64, w / 64 + 64 * k, w % 64);
    DivMod(n, 16, w / 16 + 256 * k, w % 16);
    DivMod(n / 16, 256, w / 16 / 256 + k, w / 16 % 256);
    DivMod(n, 4, w / 4 + 1024 * k, w % 4);
    DivMod(n / 4, 256, w / 4 / 256 + 4 * k, w / 4 % 256);
    DivMod(n, 256, w / 256 + 16 * k, w % 256);
  }

  /** The register after one more sextet: a bounded one wraps at 32 bits. */
  function Shifted(register: int, x: Sextet, bounded: bool): int {
    if bounded then Wrap32(register * 64 + x) else register * 64 + x
  }

  /** The byte pushed when the register holds its value after n + 1 sextets. */
  function PushedByte(n: nat, register: int): seq<Byte> {
    if BitsAfter(n) + 6 >= 0 then [ShiftedByte(register, BitsAfter(n) + 6)] else []
  }

  lemma NoByteAtGroupStart(n: nat, last: Sextet, x: Sextet)
    ensures n % 4 == 0 ==> NextByte(n, last, x) == []
  {}

  lemma OneStep(n: nat, last: Sextet, x: Sextet, register: int, bounded: bool)
    requires 0 <= last < 64 && 0 <= x < 64
    requires register % 64 == last
    ensures PushedByte(n, Shifted(register, x, bounded)) == NextByte(n, last, x)
    ensures Shifted(register, x, bounded) % 64 == x
  {
    hide ShiftedByte, Wrap32, NextByte;
    RegisterSuffices(n, last, x, register);
    NoByteAtGroupStart(n, last, x);
    var bits := BitsAfter(n) + 6;
    WrapKeepsLowBits(register * 64 + x, if bits >= 0 then bits else 0);
  }

  function Pushed(v: seq<Sextet>, n: nat, register: int, bounded: bool): seq<Byte> {
    if v == [] then []
    else
      var next := Shifted(register, v[0], bounded);
      PushedByte(n, next) + Pushed(v[1..], n + 1, next, bounded)
  }

  /** The bounded register and the unbounded one push the same bytes: those of the six-bit groups. */
  lemma {:induction false} RegisterWidthIrrelevant(before: seq<Sextet>, v: seq<Sextet>, register: int, bounded: bool)
    requires AllSextets(before) && AllSextets(v)
    requires register % 64 == Last(before)
    ensures Bytes(before) + Pushed(v, |before|, register, bounded) == Bytes(before + v)
    decreases |v|
  {
    hide PushedByte, Shifted, NextByte, Bytes;
    if v == [] {
      assert before + v == before;
    } else {
      var next := Shifted(register, v[0], bounded);
      OneStep(|before|, Last(before), v[0], register, bounded);
      BytesGrow(before, v[0]);
      assert before + v == before + [v[0]] + v[1..];
      RegisterWidthIrrelevant(before + [v[0]], v[1..], next, bounded);
    }
  }

  lemma BitsStep(n: nat)
    ensures BitsAfter(n + 1) == if BitsAfter(n) + 6 >= 0 then BitsAfter(n) - 2 else BitsAfter(n) + 6
  {}

  lemma AsTextConcat(a: seq<Byte>, b: seq<Byte>)
    ensures AsText(a + b) == AsText(a) + AsText(b)
  {}

  /** What is left of the input from one place on, by its first character. */
  lemma SextetsFrom(input: string, index: nat)
    requires index < |input|
    ensures var c, rest := input[index], Sextets(input[index + 1..]);
      Sextets(input[index..])
      == if IsSpace(c) then rest
         else if c == '=' then Some([])
         else if TableValue(c) < 0 then None
         else Prepended([TableValue(c)], rest)
  {
    assert input[index..][1..] == input[index + 1..] && input[index..][0] == input[index];
    hide TableValue, IsSpace, Prepended;
  }

  /** The variables of the loop, after the letters v. */
  ghost predicate Decoding(v: seq<Sextet>, output: string, buffer: int, bits: int) {
    AllSextets(v) && output == AsText(Bytes(v)) && bits == BitsAfter(|v|) && buffer % 64 == Last(v)
  }

  lemma DecodingStarts()
    ensures Decoding([], "", 0, -8)
  {}

  lemma DecodingIs(v: seq<Sextet>, output: string, buffer: int, bits: int)
    requires Decoding(v, output, buffer, bits)
    ensures output == AsText(Bytes(v)) && AllSextets(v) && (bits + 6 >= 0 ==> bits + 6 in {0, 2, 4})
  {
    hide AsText, Bytes;
  }

  /** One more letter: six bits more in the register, and a byte out once there are eight. */
  lemma DecodingGoesOn(v: seq<Sextet>, output: string, buffer: int, bits: int, value: Sextet)
    requires Decoding(v, output, buffer, bits) && 0 <= value < 64 && (bits + 6 >= 0 ==> bits + 6 in {0, 2, 4})
    ensures var register := Wrap32(buffer * 64 + value);
      if bits + 6 >= 0 then
        Decoding(v + [value], output + [(ShiftedByte(register, bits + 6) % 256) as char], register, bits - 2)
      else Decoding(v + [value], output, register, bits + 6)
  {
    var register := Wrap32(buffer * 64 + value);
    assert 0 <= Last(v) < 64;
    var pushed := PushedByte(|v|, register);
    assert Shifted(buffer, value, true) == register;
    assert pushed == if bits + 6 >= 0 then [ShiftedByte(register, bits + 6)] else [];
    assert AsText([ShiftedByte(register, 0)]) == [(ShiftedByte(register, 0) % 256) as char];
    hide NextByte, Wrap32, ShiftedByte;
    OneStep(|v|, Last(v), value, buffer, true);
    BitsStep(|v|);
    BytesGrow(v, value);
    OneByteText(output, pushed);
    hide BitsAfter, Bytes, PushedByte, Shifted;
    AsTextConcat(Bytes(v), pushed);
    assert Last(v + [value]) == value;
  }

  lemma OneByteText(output: string, pushed: seq<Byte>)
    ensures pushed == [] ==> output + AsText(pushed) == output
    ensures |pushed| == 1 ==> output + AsText(pushed) == output + [(pushed[0] % 256) as char]
  {
    assert |pushed| == 1 ==> AsText(pushed) == [(pushed[0] % 256) as char];
  }

  lemma NoMore(v: seq<Sextet>)
    ensures Prepended(v, Some([])) == Some(v) && Prepended(v, None) == None && Sextets("") == Some([])
  {
    assert v + [] == v;
  }

  lemma DecodedIs(input: string, v: Option<seq<Sextet>>)
    requires Sextets(input) == v
    ensures Decoded(input) == if v.None? then None else Some(AsText(Bytes(v.value)))
  {
    hide Bytes, AsText;
  }

  /**
   The decoding loop. The register is an int that overflows; only its low bits reach the output, so
   the bytes are those of the six-bit groups of the whole input.
   */
  method DecodeBase64(input: string) returns (r: Option<string>)
    ensures r == Decoded(input)
  {
    hide *;
    var output: string := "";
    var buffer := 0;
    var bits := -8;
    ghost var v: seq<Sextet> := [];
    var index := 0;

    DecodingStarts();
    PrependNothing(Sextets(input));
    assert input[0..] == input;
    while index < |input|
      invariant 0 <= index <= |input|
      invariant Sextets(input) == Prepended(v, Sextets(input[index..]))
      invariant Decoding(v, output, buffer, bits)
    {
      DecodingIs(v, output, buffer, bits);
      SextetsFrom(input, index);
      NoMore(v);
      var character := input[index];
      index := index + 1;
      if IsSpace(character) {
        continue;
      }
      if character == '=' {
        DecodedIs(input, Some(v));
        return Some(output);
      }

      var value := TableValue(character);
      if value < 0 {
        DecodedIs(input, None);
        return None;
      }

      DecodingGoesOn(v, output, buffer, bits, value);
      PrependOne(v, value, Sextets(input[index..]));
      buffer := Wrap32(buffer * 64 + value);
      bits := bits + 6;
      if bits >= 0 {
        output := output + [(ShiftedByte(buffer, bits) % 256) as char];
        bits := bits - 8;
      }
      v := v + [value];
    }
    NoMore(v);
    DecodingIs(v, output, buffer, bits);
    assert input[index..] == "";
    DecodedIs(input, Some(v));
    return Some(output);
  }

  // ----- decoding undoes encoding -----

  function WithoutSpace(s: string): string {
    if s == "" then "" else if IsSpace(s[0]) then WithoutSpace(s[1..]) else [s[0]] + WithoutSpace(s[1..])
  }

  lemma {:induction false} SpaceIsIgnored(s: string)
    ensures Sextets(s) == Sextets(WithoutSpace(s))
  {
    if s != "" {
      SpaceIsIgnored(s[1..]);
      if !IsSpace(s[0]) {
        assert WithoutSpace(s)[1..] == WithoutSpace(s[1..]);
      }
    }
  }

  lemma {:induction false} SextetsOfLetters(v: seq<Sextet>, padding: string)
    requires AllSextets(v)
    requires padding == "" || padding[0] == '='
    ensures Sextets(Letters(v) + padding) == Some(v)
  {
    if v == [] {
      assert Letters(v) + padding == padding;
    } else {
      assert (Letters(v) + padding)[1..] == Letters(v[1..]) + padding;
      SextetsOfLetters(v[1..], padding);
      assert [v[0]] + v[1..] == v;
    }
  }

  lemma GroupInverse(a: Byte, b: Byte, c: Byte)
    requires 0 <= a < 256 && 0 <= b < 256 && 0 <= c < 256
    ensures Byte0(Sextet0(a), Sextet1(a, b)) == a
    ensures Byte1(Sextet1(a, b), Sextet2(b, c)) == b
    ensures Byte2(Sextet2(b, c), Sextet3(c)) == c
  {}

  lemma BytesGrowAfter(v: seq<Sextet>, last: Sextet, x: Sextet)
    ensures Bytes(v + [last] + [x]) == Bytes(v + [last]) + NextByte(|v| + 1, last, x)
  {}

  /** Four sextets that complete three bytes, one at a time. */
  lemma BytesOfQuartet(v0: seq<Sextet>, s0: Sextet, s1: Sextet, s2: Sextet, s3: Sextet)
    requires |v0| % 4 == 0
    ensures Bytes(v0 + [s0] + [s1]) == Bytes(v0) + [Byte0(s0, s1)]
    ensures Bytes(v0 + [s0] + [s1] + [s2]) == Bytes(v0) + [Byte0(s0, s1)] + [Byte1(s1, s2)]
    ensures Bytes(v0 + [s0] + [s1] + [s2] + [s3])
         == Bytes(v0) + [Byte0(s0, s1)] + [Byte1(s1, s2)] + [Byte2(s2, s3)]
  {
    NextBytes(|v0|, s0, s1, s2, s3, Last(v0));
    hide Bytes, Byte0, Byte1, Byte2, NextByte, Last;
    BytesGrow(v0, s0);
    assert Bytes(v0) + [] == Bytes(v0);
    BytesGrowAfter(v0, s0, s1);
    BytesGrowAfter(v0 + [s0], s1, s2);
    BytesGrowAfter(v0 + [s0] + [s1], s2, s3);
  }

  lemma NextBytes(n: nat, s0: Sextet, s1: Sextet, s2: Sextet, s3: Sextet, last: Sextet)
    requires n % 4 == 0
    ensures NextByte(n, last, s0) == [] && NextByte(n + 1, s0, s1) == [Byte0(s0, s1)]
    ensures NextByte(n + 2, s1, s2) == [Byte1(s1, s2)] && NextByte(n + 3, s2, s3) == [Byte2(s2, s3)]
  {}

  lemma {:induction false} BytesOfGroups(before: seq<Sextet>, b: seq<Byte>)
    requires AllBytes(b) && |before| % 4 == 0
    ensures Bytes(before + Groups(b)) == Bytes(before) + b
    decreases |b|, 1
  {
    hide Byte0, Byte1, Byte2, Sextet0, Sextet1, Sextet2, Sextet3, Bytes;
    var g := Groups(b);
    if |b| == 0 {
      assert before + g == before;
    } else if |b| == 1 {
      GroupInverse(b[0], 0, 0);
      BytesOfQuartet(before, g[0], g[1], 0, 0);
      assert before + g == before + [g[0]] + [g[1]];
    } else if |b| == 2 {
      GroupInverse(b[0], b[1], 0);
      BytesOfQuartet(before, g[0], g[1], g[2], 0);
      assert before + g == before + [g[0]] + [g[1]] + [g[2]];
    } else {
      BytesOfFullGroup(before, b);
    }
  }

  lemma BytesOfFullGroup(before: seq<Sextet>, b: seq<Byte>)
    requires AllBytes(b) && |before| % 4 == 0 && |b| >= 3
    ensures Bytes(before + Groups(b)) == Bytes(before) + b
    decreases |b|, 0
  {
    SplitGroup(before, b);
    hide *;
    QuartetDecodes(before, b[0], b[1], b[2]);
    BytesOfGroups(before + Group(b[0], b[1], b[2]), b[3..]);
    Associative(before, Group(b[0], b[1], b[2]), Groups(b[3..]));
    Associative(Bytes(before), [b[0], b[1], b[2]], b[3..]);
  }

  lemma SplitGroup(before: seq<Sextet>, b: seq<Byte>)
    requires AllBytes(b) && |before| % 4 == 0 && |b| >= 3
    ensures AllBytes(b[3..]) && b == [b[0], b[1], b[2]] + b[3..]
    ensures 0 <= b[0] < 256 && 0 <= b[1] < 256 && 0 <= b[2] < 256
    ensures Groups(b) == Group(b[0], b[1], b[2]) + Groups(b[3..])
    ensures |before + Group(b[0], b[1], b[2])| % 4 == 0
  {}

  lemma QuartetDecodes(before: seq<Sextet>, a: Byte, b: Byte, c: Byte)
    requires |before| % 4 == 0 && 0 <= a < 256 && 0 <= b < 256 && 0 <= c < 256
    ensures Bytes(before + Group(a, b, c)) == Bytes(before) + [a, b, c]
  {
    hide Byte0, Byte1, Byte2, Sextet0, Sextet1, Sextet2, Sextet3, Bytes;
    GroupInverse(a, b, c);
    BytesOfQuartet(before, Sextet0(a), Sextet1(a, b), Sextet2(b, c), Sextet3(c));
    AppendFour(before, Sextet0(a), Sextet1(a, b), Sextet2(b, c), Sextet3(c));
    AppendThree(Bytes(before), a, b, c);
  }

  lemma AppendFour(before: seq<int>, s0: int, s1: int, s2: int, s3: int)
    ensures before + [s0] + [s1] + [s2] + [s3] == before + [s0, s1, s2, s3]
  {}

  lemma AppendThree(before: seq<int>, s0: int, s1: int, s2: int)
    ensures before + [s0] + [s1] + [s2] == before + [s0, s1, s2]
  {}

  lemma Associative(a: seq<int>, b: seq<int>, c: seq<int>)
    ensures a + (b + c) == a + b + c
  {}

  /** Decoding inverts the encoding of every byte string, wherever white space was inserted. */
  lemma DecodeInvertsEncode(b: seq<Byte>, wire: string)
    requires AllBytes(b)
    requires WithoutSpace(wire) == Encode(b)
    ensures Decoded(wire) == Some(AsText(b))
  {
    assert Bytes([]) == [];
    hide Bytes, WithoutSpace, Sextets, Groups, Letters, AsText;
    var v := Groups(b);
    SpaceIsIgnored(wire);
    SextetsOfLetters(v, Padding(|b|));
    BytesOfGroups([], b);
    assert [] + v == v && [] + b == b;
    assert Sextets(wire) == Some(v);
  }

  /** A character of the alphabet of table 1 of RFC 4648. */
  predicate IsLetter(c: char) {
    'A' <= c <= 'Z' || 'a' <= c <= 'z' || '0' <= c <= '9' || c == '+' || c == '/'
  }

  /** A character that is neither white space nor of the alphabet, with no '=' up to it. */
  ghost predicate ForeignAt(input: string, i: nat) {
    i < |input| && !IsSpace(input[i]) && !IsLetter(input[i]) && '=' !in input[..i + 1]
  }

  /** Decoding fails if and only if there is one. */
  lemma {:induction false} RejectedIffForeign(input: string)
    ensures Decoded(input).None? <==> exists i: nat :: ForeignAt(input, i)
  {
    SextetsOrForeign(input);
    hide ForeignAt, Sextets, Bytes, AsText;
  }

  ghost predicate SomeForeign(input: string) {
    exists i: nat :: ForeignAt(input, i)
  }

  lemma {:induction false} SextetsOrForeign(input: string)
    ensures Sextets(input).None? <==> SomeForeign(input)
    decreases |input|
  {
    if input != "" {
      SextetsOrForeign(input[1..]);
      ForeignOnwards(input);
      hide SomeForeign;
    }
  }

  lemma ForeignOnwards(input: string)
    requires input != ""
    ensures SomeForeign(input) <==>
      input[0] != '=' && ((!IsSpace(input[0]) && TableValue(input[0]) < 0) || SomeForeign(input[1..]))
  {
    ForeignHere(input);
    hide ForeignAt;
    if i: nat :| ForeignAt(input, i) {
      NoneBehindPad(input, i);
      if i > 0 {
        ForeignLater(input, i - 1);
      }
    }
    if input[0] != '=' {
      if i: nat :| ForeignAt(input[1..], i) {
        ForeignLater(input, i);
      }
    }
  }

  lemma NoneBehindPad(input: string, i: nat)
    requires input != "" && ForeignAt(input, i)
    ensures input[0] != '='
  {
    assert input[..i + 1][0] == input[0];
  }

  lemma ForeignHere(input: string)
    requires input != ""
    ensures ForeignAt(input, 0) <==> !IsSpace(input[0]) && input[0] != '=' && TableValue(input[0]) < 0
  {
    assert input[..1] == [input[0]];
  }

  lemma ForeignLater(input: string, i: nat)
    requires input != "" && input[0] != '='
    ensures ForeignAt(input[1..], i) <==> ForeignAt(input, i + 1)
  {
    if i + 1 < |input| {
      assert input[..i + 2] == [input[0]] + input[1..][..i + 1];
    }
  }

  // ----- AUTH PLAIN -----

  datatype Credentials = Credentials(username: string, secret: string)

  const NUL: char := 0 as char

  /** The field in front of the first NUL, and the one behind it. */
  function SplitFields(value: string): Option<Credentials> {
    var nul := Find(value, NUL);
    if nul.None? || nul.value == 0 then None else Some(Credentials(value[..nul.value], value[nul.value + 1..]))
  }

  /** What precedes the first NUL is skipped. */
  function SplitPlain(value: string): Option<Credentials> {
    var firstNull := Find(value, NUL);
    if firstNull.None? then None else SplitFields(value[firstNull.value + 1..])
  }

  /** None when the source returns false. */
  function ParsePlainAuth(encoded: string): Option<Credentials> {
    var decoded := Decoded(encoded);
    if decoded.None? then None else SplitPlain(decoded.value)
  }

  /** The message of section 2 of RFC 4616. */
  function PlainMessage(authzid: seq<Byte>, authcid: seq<Byte>, passwd: seq<Byte>): seq<Byte> {
    authzid + [0] + authcid + [0] + passwd
  }

  /** The identity and the password arrive intact; the authorization identity is ignored. */
  lemma PlainAuthRecovered(authzid: seq<Byte>, authcid: seq<Byte>, passwd: seq<Byte>, wire: string)
    requires AllBytes(authzid) && AllBytes(authcid) && AllBytes(passwd)
    requires 0 !in authzid && 0 !in authcid && authcid != []
    requires WithoutSpace(wire) == Encode(PlainMessage(authzid, authcid, passwd))
    ensures ParsePlainAuth(wire) == Some(Credentials(AsText(authcid), AsText(passwd)))
  {
    var message := PlainMessage(authzid, authcid, passwd);
    assert AllBytes(message);
    hide *;
    DecodeInvertsEncode(message, wire);
    PlainMessageText(authzid, authcid, passwd);
    SplitPlainMessage(AsText(authzid), AsText(authcid), AsText(passwd));
    assert ParsePlainAuth(wire) == SplitPlain(AsText(message)) by {
      ParsesDecoded(wire, AsText(message));
    }
  }

  /** The message has the three fields of section 2 of RFC 4616, and the second is this user. */
  ghost predicate IsPlainMessage(text: string, authzid: string, c: Credentials) {
    && text == authzid + [NUL] + (c.username + [NUL] + c.secret)
    && NUL !in authzid && NUL !in c.username && c.username != ""
  }

  lemma FindSplits(text: string, at: nat)
    requires Find(text, NUL) == Some(at)
    ensures text == text[..at] + [NUL] + text[at + 1..] && NUL !in text[..at]
  {
    hide Find;
  }

  lemma SplitIsPlain(text: string)
    ensures SplitPlain(text).Some? ==> exists authzid :: IsPlainMessage(text, authzid, SplitPlain(text).value)
  {
    hide Find;
    if SplitPlain(text).Some? {
      var first := Find(text, NUL).value;
      FindSplits(text, first);
      var rest := text[first + 1..];
      var second := Find(rest, NUL).value;
      FindSplits(rest, second);
      assert SplitPlain(text).value == Credentials(rest[..second], rest[second + 1..]);
      assert IsPlainMessage(text, text[..first], Credentials(rest[..second], rest[second + 1..]));
    }
  }

  /** Credentials are recognised exactly where the decoded text is such a message. */
  lemma CredentialsIff(encoded: string, c: Credentials)
    ensures ParsePlainAuth(encoded) == Some(c) <==>
      Decoded(encoded).Some? && exists authzid :: IsPlainMessage(Decoded(encoded).value, authzid, c)
  {
    var decoded := Decoded(encoded);
    hide Decoded, SplitPlain;
    if decoded.Some? {
      SplitIsPlain(decoded.value);
      forall authzid | IsPlainMessage(decoded.value, authzid, c) ensures SplitPlain(decoded.value) == Some(c) {
        SplitPlainMessage(authzid, c.username, c.secret);
      }
    }
  }

  lemma ParsesDecoded(wire: string, text: string)
    requires Decoded(wire) == Some(text)
    ensures ParsePlainAuth(wire) == SplitPlain(text)
  {}

  lemma SplitPlainMessage(authzid: string, authcid: string, passwd: string)
    requires NUL !in authzid && NUL !in authcid && authcid != ""
    ensures SplitPlain(authzid + [NUL] + (authcid + [NUL] + passwd)) == Some(Credentials(authcid, passwd))
  {
    hide Find;
    var rest := authcid + [NUL] + passwd;
    SplitAtNul(authzid, rest);
    assert SplitPlain(authzid + [NUL] + rest) == SplitFields(rest);
    SplitAtNul(authcid, passwd);
  }

  lemma PlainMessageText(authzid: seq<Byte>, authcid: seq<Byte>, passwd: seq<Byte>)
    requires AllBytes(authzid) && AllBytes(authcid) && 0 !in authzid && 0 !in authcid
    ensures AsText(PlainMessage(authzid, authcid, passwd))
         == AsText(authzid) + [NUL] + (AsText(authcid) + [NUL] + AsText(passwd))
    ensures NUL !in AsText(authzid) && NUL !in AsText(authcid) && (authcid != [] ==> AsText(authcid) != "")
  {}

  lemma SplitAtNul(before: string, after: string)
    requires NUL !in before
    ensures var s := before + [NUL] + after;
      Find(s, NUL) == Some(|before|) && s[..|before|] == before && s[|before| + 1..] == after
  {
    FindFirst(before, NUL, after);
  }
}
