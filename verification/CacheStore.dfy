/**
 The cache table: rows under a namespace and a key, with an expiry in whole seconds, and deletion of a
 namespace prefix by LIKE. The clock counts nanoseconds; TimePointToString keeps the whole seconds.
 */
module CacheStore {
  import opened Wrappers
  import opened Text

  const SECOND: nat := 1_000_000_000

  datatype Entry = Entry(payload: string, version: int, createdAt: int, expiresAt: int)

  /** cache_entries, by its primary key. */
  type Rows = map<(string, string), Entry>

  // ----- LIKE -----

  /** SQLite's value LIKE pattern ESCAPE '\': ASCII letters match in either case. */
  predicate Like(value: string, pattern: string)
    decreases |pattern|, |value|
  {
    if pattern == "" then value == ""
    else if pattern[0] == '%' then Like(value, pattern[1..]) || (value != "" && Like(value[1..], pattern))
    else if pattern[0] == '_' then value != "" && Like(value[1..], pattern[1..])
    else if pattern[0] == '\\' then
      |pattern| > 1 && value != "" && LowerChar(value[0]) == LowerChar(pattern[1]) && Like(value[1..], pattern[2..])
    else value != "" && LowerChar(value[0]) == LowerChar(pattern[0]) && Like(value[1..], pattern[1..])
  }

  predicate IsSpecial(c: char) {
    c == '%' || c == '_' || c == '\\'
  }

  function Escaped(value: string): string {
    if value == "" then "" else (if IsSpecial(value[0]) then ['\\', value[0]] else [value[0]]) + Escaped(value[1..])
  }

  lemma {:induction false} EscapedGrows(value: string, c: char)
    ensures Escaped(value + [c]) == Escaped(value) + if IsSpecial(c) then ['\\', c] else [c]
    decreases |value|
  {
    if value == "" {
      assert [c][1..] == "";
    } else {
      assert (value + [c])[1..] == value[1..] + [c];
      EscapedGrows(value[1..], c);
    }
  }

  method EscapeLike(value: string) returns (escaped: string)
    ensures escaped == Escaped(value)
  {
    escaped := "";
    var i := 0;
    assert value[..0] == "";
    while i < |value|
      invariant 0 <= i <= |value| && escaped == Escaped(value[..i])
    {
      EscapedGrows(value[..i], value[i]);
      assert value[..i + 1] == value[..i] + [value[i]];
      if value[i] == '%' || value[i] == '_' || value[i] == '\\' {
        escaped := escaped + ['\\'];
      }
      escaped := escaped + [value[i]];
      i := i + 1;
    }
    assert value[..i] == value;
  }

  lemma {:induction false} AnythingMatches(value: string)
    ensures Like(value, "%")
    decreases |value|
  {
    if value == "" {
      assert Like("", "");
    } else {
      AnythingMatches(value[1..]);
    }
  }

  /** value begins with prefix, up to ASCII case. */
  predicate BeginsWith(value: string, prefix: string) {
    |prefix| <= |value| && forall i :: 0 <= i < |prefix| ==> LowerChar(value[i]) == LowerChar(prefix[i])
  }

  lemma BeginsWithIs(value: string, prefix: string)
    ensures BeginsWith(value, prefix)
       <==> |prefix| <= |value| && forall i :: 0 <= i < |prefix| ==> SameUpToCase(value[i], prefix[i])
  {
    if |prefix| <= |value| {
      forall i | 0 <= i < |prefix|
        ensures LowerChar(value[i]) == LowerChar(prefix[i]) <==> SameUpToCase(value[i], prefix[i])
      {
        CaseIs(value[i], prefix[i]);
      }
    }
    hide LowerChar, SameUpToCase;
  }

  lemma BeginsWithStep(value: string, prefix: string)
    requires prefix != ""
    ensures BeginsWith(value, prefix)
       <==> value != "" && LowerChar(value[0]) == LowerChar(prefix[0]) && BeginsWith(value[1..], prefix[1..])
  {}

  /** Escaping is exact: no character of the prefix acts as a wildcard, and none is lost. */
  lemma {:induction false} LikeIsExact(value: string, prefix: string)
    ensures Like(value, Escaped(prefix) + "%") <==> BeginsWith(value, prefix)
    decreases |prefix|
  {
    if prefix == "" {
      AnythingMatches(value);
      assert "" + "%" == "%";
    } else {
      var head := if IsSpecial(prefix[0]) then ['\\', prefix[0]] else [prefix[0]];
      var rest := Escaped(prefix[1..]) + "%";
      var pattern := head + rest;
      assert Escaped(prefix) + "%" == pattern;
      assert pattern[|head|..] == rest;
      BeginsWithStep(value, prefix);
      if value != "" {
        LikeIsExact(value[1..], prefix[1..]);
      }
      hide BeginsWith, LowerChar, Escaped;
    }
  }

  /** Without escaping, an underscore stands for any character. */
  lemma UnescapedIsWrong()
    ensures Like("ab", "a_" + "%") && !BeginsWith("ab", "a_")
  {
    AnythingMatches("");
    assert "a_" + "%" == "a_%";
    assert "a_%"[1..] == "_%" && "_%"[1..] == "%" && "ab"[1..] == "b" && "b"[1..] == "";
    assert LowerChar("ab"[1]) != LowerChar("a_"[1]);
  }

  // ----- the statements -----

  /** to_time_t of now + ttl, which is not negative. */
  function Expiry(now: nat, ttl: int): int {
    (now + ttl * SECOND) / SECOND
  }

  predicate Fresh(e: Entry, now: nat) {
    e.expiresAt * SECOND > now
  }

  function PutRow(rows: Rows, ns: string, key: string, payload: string, ttl: int, version: int, now: nat): Rows {
    rows[(ns, key) := Entry(payload, version, now / SECOND, Expiry(now, ttl))]
  }

  function Found(rows: Rows, ns: string, key: string, allowStale: bool, now: nat): Option<Entry> {
    if (ns, key) in rows && (allowStale || Fresh(rows[(ns, key)], now)) then Some(rows[(ns, key)]) else None
  }

  function WithoutNamespace(rows: Rows, ns: string): Rows {
    map k | k in rows && k.0 != ns :: rows[k]
  }

  function WithoutPrefix(rows: Rows, prefix: string): Rows {
    map k | k in rows && !BeginsWith(k.0, prefix) :: rows[k]
  }

  /** An entry is served for at least its time to live less one second, and never when it is over. */
  lemma ServedForItsTime(payload: string, version: int, ttl: int, saved: nat, now: nat)
    requires ttl > 0
    ensures var e := Entry(payload, version, saved / SECOND, Expiry(saved, ttl));
      && (now >= saved + ttl * SECOND ==> !Fresh(e, now))
      && (now <= saved + (ttl - 1) * SECOND ==> Fresh(e, now))
  {}

  const BAD_TTL := "Cache TTL must be positive"

  class Store {
    var rows: Rows

    constructor ()
      ensures rows == map[]
    {
      rows := map[];
    }

    method Put(ns: string, key: string, payload: string, ttl: int, version: int, now: nat) returns (r: Result<()>)
      modifies this
      ensures r == if ttl <= 0 then Err(BAD_TTL) else Ok(())
      ensures rows == if ttl <= 0 then old(rows) else PutRow(old(rows), ns, key, payload, ttl, version, now)
    {
      if ttl <= 0 {
        return Err(BAD_TTL);
      }
      rows := rows[(ns, key) := Entry(payload, version, now / SECOND, Expiry(now, ttl))];
      return Ok(());
    }

    method Get(ns: string, key: string, allowStale: bool, now: nat) returns (entry: Option<Entry>)
      ensures entry == Found(rows, ns, key, allowStale, now)
    {
      if (ns, key) !in rows {
        return None;
      }
      var e := rows[(ns, key)];
      if !allowStale && e.expiresAt * SECOND <= now {
        return None;
      }
      return Some(e);
    }

    method Exists(ns: string, key: string, now: nat) returns (exists_: bool)
      ensures exists_ <==> (ns, key) in rows
    {
      var entry := Get(ns, key, true, now);
      exists_ := entry.Some?;
    }

    method Invalidate(ns: string, key: string)
      modifies this
      ensures rows == old(rows) - {(ns, key)}
    {
      rows := rows - {(ns, key)};
    }

    method InvalidateNamespace(ns: string)
      modifies this
      ensures rows == WithoutNamespace(old(rows), ns)
    {
      rows := map k | k in rows && k.0 != ns :: rows[k];
    }

    /** The statement uses LIKE; its effect is that of a comparison of prefixes. */
    method InvalidateNamespacePrefix(prefix: string)
      modifies this
      ensures rows == WithoutPrefix(old(rows), prefix)
    {
      var escaped := EscapeLike(prefix);
      forall value ensures Like(value, escaped + "%") <==> BeginsWith(value, prefix) {
        LikeIsExact(value, prefix);
      }
      rows := map k | k in rows && !Like(k.0, escaped + "%") :: rows[k];
    }
  }
}
