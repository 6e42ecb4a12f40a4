/**
 EmailListCache over the cache table: a map from folder and search text, both up to case and surrounding white
 space.
 */
module EmailCache {
  import opened Wrappers
  import opened Text
  import opened CacheStore

  const NAMESPACE := "email-list"

  /** trimmed().toLower(). */
  function Norm(s: string): string {
    Lower(Trimmed(s))
  }

  function MakeNamespace(folder: string): string {
    NAMESPACE + ":" + Norm(folder)
  }

  function MakeKey(folder: string, search: string): string {
    Norm(folder) + "|" + Norm(search)
  }

  function RowKey(folder: string, search: string): (string, string) {
    (MakeNamespace(folder), MakeKey(folder, search))
  }

  lemma SamePrefix(prefix: string, a: string, b: string)
    ensures prefix + a == prefix + b <==> a == b
  {
    if prefix + a == prefix + b {
      assert (prefix + a)[|prefix|..] == a && (prefix + b)[|prefix|..] == b;
    }
  }

  lemma NamespacesAgree(f1: string, f2: string)
    ensures MakeNamespace(f1) == MakeNamespace(f2) <==> Norm(f1) == Norm(f2)
  {
    SamePrefix(NAMESPACE + ":", Norm(f1), Norm(f2));
    hide Norm;
  }

  /** Two requests share a row exactly when both parts agree, whatever bars and colons they contain. */
  lemma RowsAgree(f1: string, s1: string, f2: string, s2: string)
    ensures RowKey(f1, s1) == RowKey(f2, s2) <==> Norm(f1) == Norm(f2) && Norm(s1) == Norm(s2)
  {
    NamespacesAgree(f1, f2);
    SamePrefix(Norm(f1) + "|", Norm(s1), Norm(s2));
    hide Norm, MakeNamespace;
  }

  /**
   What agreeing means: the same text between white space at the ends, up to ASCII case. So every spelling of a
   folder shares its row, and two folders that differ otherwise never do.
   */
  lemma NormsAgree(left: string, core: string, right: string, left': string, core': string, right': string)
    requires forall i :: 0 <= i < |left| ==> IsSpace(left[i])
    requires forall i :: 0 <= i < |right| ==> IsSpace(right[i])
    requires forall i :: 0 <= i < |left'| ==> IsSpace(left'[i])
    requires forall i :: 0 <= i < |right'| ==> IsSpace(right'[i])
    requires IsTrimmed(core) && IsTrimmed(core')
    ensures Norm(left + core + right) == Norm(left' + core' + right') <==> AllSameUpToCase(core, core')
  {
    TrimmedOfPadded(left, core, right);
    TrimmedOfPadded(left', core', right');
    UpperIs(core, core');
    hide Trimmed, Lower, Upper, AllSameUpToCase;
  }

  /** Neither part of the row key alone identifies the request: bars may be part of a folder. */
  lemma KeyAloneIsAmbiguous()
    ensures MakeKey("a|b", "c") == MakeKey("a", "b|c")
  {
    NormIsSame("a|b");
    NormIsSame("c");
    NormIsSame("a");
    NormIsSame("b|c");
    hide Norm;
    assert "a|b" + "|" + "c" == "a" + "|" + "b|c";
  }

  lemma NormIsSame(s: string)
    requires IsTrimmed(s) && forall i :: 0 <= i < |s| ==> LowerChar(s[i]) == s[i]
    ensures Norm(s) == s
  {}

  datatype CachedEmailList = CachedEmailList(folder: string, search: string, payload: string, version: int)

  class EmailListCache {
    const store: Store

    constructor (store: Store)
      ensures this.store == store
    {
      this.store := store;
    }

    method Save(folder: string, search: string, payload: string, ttl: int, version: int, now: nat)
      returns (r: Result<()>)
      modifies store
      ensures r.Ok? <==> ttl > 0
      ensures store.rows == Applied(old(store.rows), Saves(folder, search, payload, ttl, version, now))
    {
      r := store.Put(MakeNamespace(folder), MakeKey(folder, search), payload, ttl, version, now);
    }

    method Load(folder: string, search: string, allowStale: bool, now: nat) returns (r: Option<CachedEmailList>)
      ensures r == Loaded(store.rows, folder, search, allowStale, now)
    {
      var entry := store.Get(MakeNamespace(folder), MakeKey(folder, search), allowStale, now);
      if entry.None? {
        return None;
      }
      return Some(CachedEmailList(folder, search, entry.value.payload, entry.value.version));
    }

    method InvalidateFolder(folder: string)
      modifies store
      ensures store.rows == Applied(old(store.rows), InvalidatesFolder(folder))
    {
      store.InvalidateNamespace(MakeNamespace(folder));
    }

    method InvalidateAll()
      modifies store
      ensures store.rows == Applied(old(store.rows), InvalidatesAll)
    {
      store.InvalidateNamespacePrefix(NAMESPACE);
    }
  }

  // ----- refinement of a map -----

  datatype Operation =
    | Saves(folder: string, search: string, payload: string, ttl: int, version: int, now: nat)
    | InvalidatesFolder(folder: string)
    | InvalidatesAll

  function Applied(rows: Rows, op: Operation): Rows {
    match op
    case Saves(folder, search, payload, ttl, version, now) =>
      if ttl <= 0 then rows
      else PutRow(rows, MakeNamespace(folder), MakeKey(folder, search), payload, ttl, version, now)
    case InvalidatesFolder(folder) => WithoutNamespace(rows, MakeNamespace(folder))
    case InvalidatesAll => WithoutPrefix(rows, NAMESPACE)
  }

  function AppliedAll(rows: Rows, ops: seq<Operation>): Rows {
    if ops == [] then rows else Applied(AppliedAll(rows, ops[..|ops| - 1]), ops[|ops| - 1])
  }

  function Loaded(rows: Rows, folder: string, search: string, allowStale: bool, now: nat): Option<CachedEmailList> {
    var entry := Found(rows, MakeNamespace(folder), MakeKey(folder, search), allowStale, now);
    if entry.None? then None else Some(CachedEmailList(folder, search, entry.value.payload, entry.value.version))
  }

  /** The simple cache: a map from the normalised folder and search text to what was saved last. */
  datatype Saved = Saved(payload: string, version: int, at: nat, ttl: int)
  type Simple = map<(string, string), Saved>

  function SimplyApplied(m: Simple, op: Operation): Simple {
    match op
    case Saves(folder, search, payload, ttl, version, now) =>
      if ttl <= 0 then m else m[(Norm(folder), Norm(search)) := Saved(payload, version, now, ttl)]
    case InvalidatesFolder(folder) => map k | k in m && k.0 != Norm(folder) :: m[k]
    case InvalidatesAll => map[]
  }

  function SimplyAppliedAll(m: Simple, ops: seq<Operation>): Simple {
    if ops == [] then m else SimplyApplied(SimplyAppliedAll(m, ops[..|ops| - 1]), ops[|ops| - 1])
  }

  function RowOf(saved: Saved): Entry {
    Entry(saved.payload, saved.version, saved.at / SECOND, Expiry(saved.at, saved.ttl))
  }

  ghost predicate AgreeOn(rows: Rows, m: Simple, folder: string, search: string) {
    var k, row := (Norm(folder), Norm(search)), RowKey(folder, search);
    (row in rows <==> k in m) && (k in m ==> rows[row] == RowOf(m[k]))
  }

  lemma OperationAgrees(rows: Rows, m: Simple, op: Operation, folder: string, search: string)
    requires AgreeOn(rows, m, folder, search)
    ensures AgreeOn(Applied(rows, op), SimplyApplied(m, op), folder, search)
  {
    match op
    case Saves(f, s, payload, ttl, version, now) =>
      RowsAgree(f, s, folder, search);
      hide Norm, MakeNamespace, MakeKey, Expiry;
    case InvalidatesFolder(f) =>
      NamespacesAgree(f, folder);
      hide Norm, MakeNamespace, MakeKey, Expiry;
    case InvalidatesAll =>
      NamespaceBegins(folder);
      hide Norm, MakeNamespace, MakeKey, Expiry, BeginsWith;
  }

  lemma NamespaceBegins(folder: string)
    ensures BeginsWith(MakeNamespace(folder), NAMESPACE)
  {}

  /** After any operations on an empty table, every request sees the row exactly if the map has its entry. */
  lemma {:induction false} CacheRefinesMap(ops: seq<Operation>, folder: string, search: string)
    ensures AgreeOn(AppliedAll(map[], ops), SimplyAppliedAll(map[], ops), folder, search)
    decreases |ops|
  {
    if ops != [] {
      CacheRefinesMap(ops[..|ops| - 1], folder, search);
      OperationAgrees(AppliedAll(map[], ops[..|ops| - 1]), SimplyAppliedAll(map[], ops[..|ops| - 1]), ops[|ops| - 1],
                      folder, search);
      hide Applied, SimplyApplied, AgreeOn;
    }
  }

  ghost predicate AllTimed(m: Simple) {
    forall k :: k in m ==> m[k].ttl > 0
  }

  lemma OperationTimed(m: Simple, op: Operation)
    requires AllTimed(m)
    ensures AllTimed(SimplyApplied(m, op))
  {}

  /** Entries that the time to live of Put refuses never get into the map. */
  lemma {:induction false} SavedAreTimed(ops: seq<Operation>)
    ensures AllTimed(SimplyAppliedAll(map[], ops))
    decreases |ops|
  {
    if ops != [] {
      SavedAreTimed(ops[..|ops| - 1]);
      OperationTimed(SimplyAppliedAll(map[], ops[..|ops| - 1]), ops[|ops| - 1]);
      hide SimplyApplied, AllTimed;
    }
  }

  /**
   What Load returns after any operations: what was saved last for this folder and search text since they
   were invalidated. It is never returned at or after the end of its time to live, and always up to one
   second before.
   */
  lemma LoadReturnsLastSaved(ops: seq<Operation>, folder: string, search: string, allowStale: bool, now: nat)
    ensures var m := SimplyAppliedAll(map[], ops);
      var r := Loaded(AppliedAll(map[], ops), folder, search, allowStale, now);
      var k := (Norm(folder), Norm(search));
      && (r.Some? ==> k in m && r.value == CachedEmailList(folder, search, m[k].payload, m[k].version))
      && (k !in m ==> r.None?)
      && (k in m && allowStale ==> r.Some?)
      && (k in m && !allowStale ==>
            && (now >= m[k].at + m[k].ttl * SECOND ==> r.None?)
            && (now <= m[k].at + (m[k].ttl - 1) * SECOND ==> r.Some?))
  {
    var m := SimplyAppliedAll(map[], ops);
    var k := (Norm(folder), Norm(search));
    CacheRefinesMap(ops, folder, search);
    SavedAreTimed(ops);
    if k in m {
      ServedForItsTime(m[k].payload, m[k].version, m[k].ttl, m[k].at, now);
    }
    hide Norm, MakeNamespace, MakeKey, Expiry, Fresh, AppliedAll, SimplyAppliedAll, AllTimed;
  }

  /** The namespace of another cache in the same table: no folder has it. */
  ghost predicate IsForeign(ns: string) {
    forall folder :: MakeNamespace(folder) != ns
  }

  /** What one operation does to the row of another cache. */
  lemma ForeignRow(rows: Rows, op: Operation, k: (string, string))
    requires IsForeign(k.0)
    ensures k in Applied(rows, op) <==> k in rows && !(op.InvalidatesAll? && BeginsWith(k.0, NAMESPACE))
    ensures k in Applied(rows, op) ==> Applied(rows, op)[k] == rows[k]
  {}

  /**
   What this cache does to the rows of others, over any operations: it never makes or changes one, and it loses
   one if and only if InvalidateAll is called and the namespace happens to begin with "email-list", in any
   case of letters.
   */
  lemma {:induction false} OtherCachesKept(rows: Rows, ops: seq<Operation>, k: (string, string))
    requires IsForeign(k.0)
    ensures k in AppliedAll(rows, ops) <==> k in rows && !(InvalidatesAll in ops && BeginsWith(k.0, NAMESPACE))
    ensures k in AppliedAll(rows, ops) ==> AppliedAll(rows, ops)[k] == rows[k]
    decreases |ops|
  {
    if ops != [] {
      var n := |ops| - 1;
      OtherCachesKept(rows, ops[..n], k);
      ForeignRow(AppliedAll(rows, ops[..n]), ops[n], k);
      assert ops == ops[..n] + [ops[n]];
      hide Applied, IsForeign, BeginsWith;
    }
  }

  /** Such a namespace exists: a cache called "email-listing" would lose its rows. */
  lemma ForeignRowLost(rows: Rows, key: string)
    requires ("email-listing", key) in rows
    ensures IsForeign("email-listing") && ("email-listing", key) !in AppliedAll(rows, [InvalidatesAll])
  {
    var ns := "email-listing";
    forall folder ensures MakeNamespace(folder) != ns {
      assert MakeNamespace(folder)[10] == ':';
      assert ns[10] == 'i';
    }
    assert BeginsWith(ns, NAMESPACE) by {
      assert ns == NAMESPACE + "ing";
    }
    hide MakeNamespace, BeginsWith;
    OtherCachesKept(rows, [InvalidatesAll], (ns, key));
  }
}
