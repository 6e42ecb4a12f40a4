/**
 The migration runner. The database is the table schema_migrations and everything else, whose type S and
 whose reaction to a script are left open; the migrations directory is a list of files in any order.
 */
module Migrations {
  import opened Wrappers
  import opened Text

  const MAX_INT: int := 0x7fff_ffff

  datatype File = File(name: string, isRegular: bool, sql: string)

  datatype Migration = Migration(version: int, name: string, sql: string)

  // ----- file names -----

  predicate IsDigit(c: char) {
    '0' <= c <= '9'
  }

  predicate AllDigits(s: string) {
    forall i :: 0 <= i < |s| ==> IsDigit(s[i])
  }

  function Number(s: string): nat
    requires AllDigits(s)
  {
    if s == "" then 0 else 10 * Number(s[..|s| - 1]) + (s[|s| - 1] as int - '0' as int)
  }

  predicate EndsWith(s: string, suffix: string) {
    |suffix| <= |s| && s[|s| - |suffix|..] == suffix
  }

  /** path::extension() == ".sql"; a file that is only called ".sql" has no extension. */
  predicate HasSqlExtension(name: string) {
    EndsWith(name, ".sql") && |name| > 4
  }

  /**
   Digits, '_', at least one character, ".sql". std::stol throws for numbers beyond long, which are too large
   anyway.
   */
  function ParseVersion(name: string): Result<int> {
    var separator := Find(name, '_');
    if separator.None? || separator.value == 0 || |name| <= separator.value + 5 || !EndsWith(name, ".sql") then
      Err("Invalid migration filename: " + name)
    else if !AllDigits(name[..separator.value]) then Err("Invalid migration filename: " + name)
    else
      var version := Number(name[..separator.value]);
      if version <= 0 || version > MAX_INT then Err("Invalid migration filename: " + name) else Ok(version)
  }

  lemma {:induction false} DecimalNumber(n: nat)
    ensures AllDigits(Decimal(n)) && Number(Decimal(n)) == n && Decimal(n) != ""
    decreases n
  {
    if n >= 10 {
      DecimalNumber(n / 10);
      var last := '0' + (n % 10) as char;
      assert Decimal(n) == Decimal(n / 10) + [last];
      assert (Decimal(n / 10) + [last])[..|Decimal(n)| - 1] == Decimal(n / 10);
    } else {
      assert Decimal(n)[..0] == "";
    }
  }

  lemma {:induction false} LeadingZeros(zeros: string, digits: string)
    requires AllDigits(zeros) && AllDigits(digits) && forall i :: 0 <= i < |zeros| ==> zeros[i] == '0'
    ensures AllDigits(zeros + digits) && Number(zeros + digits) == Number(digits)
    decreases |zeros| + |digits|
  {
    if digits != "" {
      assert (zeros + digits)[..|zeros + digits| - 1] == zeros + digits[..|digits| - 1];
      LeadingZeros(zeros, digits[..|digits| - 1]);
    } else if zeros != "" {
      assert zeros + digits == zeros;
      LeadingZeros(zeros[..|zeros| - 1], "");
      assert zeros[..|zeros| - 1] + "" == zeros[..|zeros| - 1];
    }
  }

  lemma NameParsed(digits: string, rest: string)
    requires AllDigits(digits) && digits != "" && |rest| > 4 && EndsWith(rest, ".sql")
    requires 0 < Number(digits) <= MAX_INT
    ensures ParseVersion(digits + ['_'] + rest) == Ok(Number(digits))
  {
    var name := digits + ['_'] + rest;
    assert '_' !in digits;
    FindFirst(digits, '_', rest);
    assert name[..|digits|] == digits;
    assert name[|name| - 4..] == rest[|rest| - 4..];
    hide Number, Find, AllDigits;
  }

  /** Every version up to the largest int can be written, with or without leading zeros. */
  lemma VersionParsed(version: nat, zeros: string, title: string)
    requires 0 < version <= MAX_INT && title != "" && forall i :: 0 <= i < |zeros| ==> zeros[i] == '0'
    ensures ParseVersion(zeros + Decimal(version) + ['_'] + (title + ".sql")) == Ok(version)
  {
    DecimalNumber(version);
    assert AllDigits(zeros);
    assert (title + ".sql")[|title|..] == ".sql";
    assert EndsWith(title + ".sql", ".sql");
    hide *;
    LeadingZeros(zeros, Decimal(version));
    NameParsed(zeros + Decimal(version), title + ".sql");
  }

  /** Which names are valid, and with which version: digits, '_', a title, ".sql". */
  ghost predicate IsNameOf(name: string, digits: string, title: string) {
    name == digits + "_" + title + ".sql" && digits != "" && AllDigits(digits) && title != ""
  }

  lemma NameSplits(name: string, digits: string, title: string)
    requires IsNameOf(name, digits, title)
    ensures Find(name, '_') == Some(|digits|) && |name| > |digits| + 5 && EndsWith(name, ".sql")
    ensures name[..|digits|] == digits
  {
    assert '_' !in digits;
    FindFirst(digits, '_', title + ".sql");
    assert name == digits + ['_'] + (title + ".sql");
    hide Find;
  }

  lemma SplitsAtUnderscore(name: string, n: nat)
    requires n < |name| && name[n] == '_' && 0 < n && |name| > n + 5 && EndsWith(name, ".sql") && AllDigits(name[..n])
    ensures IsNameOf(name, name[..n], name[n + 1..|name| - 4])
  {
    assert name == name[..n] + [name[n]] + name[n + 1..|name| - 4] + name[|name| - 4..];
  }

  /** A name is accepted with a version if and only if it is of that form, and the digits are that positive int. */
  lemma AcceptedNames(name: string, version: int)
    ensures ParseVersion(name) == Ok(version) <==>
      exists digits, title ::
        IsNameOf(name, digits, title) && Number(digits) == version && 0 < version <= MAX_INT
    ensures ParseVersion(name).Err? ==> ParseVersion(name) == Err("Invalid migration filename: " + name)
  {
    if ParseVersion(name) == Ok(version) {
      var n := Find(name, '_').value;
      SplitsAtUnderscore(name, n);
    }
    if digits, title :| IsNameOf(name, digits, title) && Number(digits) == version && 0 < version <= MAX_INT {
      NameSplits(name, digits, title);
    }
    hide Number, AllDigits, Find, EndsWith, IsNameOf;
  }

  // ----- loading -----

  predicate Before(a: Migration, b: Migration) {
    if a.version != b.version then a.version < b.version else NameBefore(a.name, b.name)
  }

  /** operator< of std::string. */
  predicate NameBefore(a: string, b: string) {
    b != "" && (a == "" || a[0] < b[0] || (a[0] == b[0] && NameBefore(a[1..], b[1..])))
  }

  function Insert(ms: seq<Migration>, m: Migration): seq<Migration> {
    if ms == [] || Before(m, ms[0]) then [m] + ms else [ms[0]] + Insert(ms[1..], m)
  }

  function Sorted(ms: seq<Migration>): seq<Migration> {
    if ms == [] then [] else Insert(Sorted(ms[..|ms| - 1]), ms[|ms| - 1])
  }

  predicate Ascending(ms: seq<Migration>) {
    forall i, j :: 0 <= i < j < |ms| ==> ms[i].version <= ms[j].version
  }

  predicate StrictlyAscending(ms: seq<Migration>) {
    forall i, j :: 0 <= i < j < |ms| ==> ms[i].version < ms[j].version
  }

  lemma BeforeByVersion(a: Migration, b: Migration)
    ensures if Before(a, b) then a.version <= b.version else b.version <= a.version
  {}

  lemma {:induction false} InsertPermutes(ms: seq<Migration>, m: Migration)
    ensures multiset(Insert(ms, m)) == multiset(ms) + multiset{m}
    decreases |ms|
  {
    hide Before;
    if ms != [] {
      InsertPermutes(ms[1..], m);
      assert ms == [ms[0]] + ms[1..];
    }
  }

  lemma {:induction false} InsertAbove(ms: seq<Migration>, m: Migration, least: int)
    requires m.version >= least && forall i :: 0 <= i < |ms| ==> ms[i].version >= least
    ensures forall i :: 0 <= i < |Insert(ms, m)| ==> Insert(ms, m)[i].version >= least
    decreases |ms|
  {
    hide Before;
    if ms != [] {
      InsertAbove(ms[1..], m, least);
    }
  }

  lemma {:induction false} InsertSorts(ms: seq<Migration>, m: Migration)
    requires Ascending(ms)
    ensures Ascending(Insert(ms, m))
    decreases |ms|
  {
    if ms != [] {
      BeforeByVersion(m, ms[0]);
      hide Before;
      InsertSorts(ms[1..], m);
      if !Before(m, ms[0]) {
        InsertAbove(ms[1..], m, ms[0].version);
      }
    }
  }

  lemma {:induction false} SortedSorts(ms: seq<Migration>)
    ensures Ascending(Sorted(ms)) && multiset(Sorted(ms)) == multiset(ms)
    decreases |ms|
  {
    if ms != [] {
      SortedSorts(ms[..|ms| - 1]);
      InsertSorts(Sorted(ms[..|ms| - 1]), ms[|ms| - 1]);
      InsertPermutes(Sorted(ms[..|ms| - 1]), ms[|ms| - 1]);
      hide Ascending, Insert;
      assert ms == ms[..|ms| - 1] + [ms[|ms| - 1]];
    }
  }

  predicate AdjacentDuplicate(ms: seq<Migration>) {
    exists i :: 0 < i < |ms| && ms[i - 1].version == ms[i].version
  }

  /** Two different entries of the same version. */
  predicate HasDuplicate(ms: seq<Migration>) {
    exists i, j :: 0 <= i < j < |ms| && ms[i].version == ms[j].version
  }

  lemma AdjacentSuffices(ms: seq<Migration>)
    requires Ascending(ms)
    ensures AdjacentDuplicate(ms) <==> HasDuplicate(ms)
    ensures !HasDuplicate(ms) ==> StrictlyAscending(ms)
  {
    if HasDuplicate(ms) {
      var i, j :| 0 <= i < j < |ms| && ms[i].version == ms[j].version;
      assert ms[i].version <= ms[i + 1].version <= ms[j].version;
      assert ms[i + 1 - 1].version == ms[i + 1].version;
    }
    if AdjacentDuplicate(ms) {
      var i :| 0 < i < |ms| && ms[i - 1].version == ms[i].version;
      assert ms[i - 1].version == ms[i].version;
    }
  }

  // ----- the sort loses and adds no version -----

  function Count(ms: seq<Migration>, version: int): nat {
    if ms == [] then 0 else (if ms[0].version == version then 1 else 0) + Count(ms[1..], version)
  }

  lemma {:induction false} CountInsert(ms: seq<Migration>, m: Migration, version: int)
    ensures Count(Insert(ms, m), version) == Count(ms, version) + if m.version == version then 1 else 0
    decreases |ms|
  {
    if ms == [] || Before(m, ms[0]) {
      assert ([m] + ms)[1..] == ms;
    } else {
      var rest := Insert(ms[1..], m);
      assert ([ms[0]] + rest)[1..] == rest;
      CountInsert(ms[1..], m, version);
    }
  }

  lemma {:induction false} CountLast(ms: seq<Migration>, version: int)
    requires ms != []
    ensures Count(ms, version) == Count(ms[..|ms| - 1], version) + if ms[|ms| - 1].version == version then 1 else 0
    decreases |ms|
  {
    if |ms| > 1 {
      CountLast(ms[1..], version);
      assert ms[1..][..|ms| - 2] == ms[..|ms| - 1][1..];
    }
  }

  lemma {:induction false} CountSorted(ms: seq<Migration>, version: int)
    ensures Count(Sorted(ms), version) == Count(ms, version)
    decreases |ms|
  {
    if ms != [] {
      CountSorted(ms[..|ms| - 1], version);
      CountInsert(Sorted(ms[..|ms| - 1]), ms[|ms| - 1], version);
      CountLast(ms, version);
      hide Insert, Count;
    }
  }

  lemma {:induction false} OneOf(ms: seq<Migration>, version: int)
    ensures Count(ms, version) >= 1 <==> exists i :: 0 <= i < |ms| && ms[i].version == version
    decreases |ms|
  {
    if ms != [] {
      OneOf(ms[1..], version);
      if Count(ms, version) >= 1 && ms[0].version != version {
        var i :| 0 <= i < |ms[1..]| && ms[1..][i].version == version;
        assert ms[i + 1].version == version;
      }
      if i :| 0 <= i < |ms| && ms[i].version == version && ms[0].version != version {
        assert ms[1..][i - 1].version == version;
      }
    }
  }

  lemma {:induction false} TwoOf(ms: seq<Migration>, version: int)
    ensures Count(ms, version) >= 2 <==> exists i, j :: 0 <= i < j < |ms| && ms[i].version == ms[j].version == version
    decreases |ms|
  {
    if ms != [] {
      TwoOf(ms[1..], version);
      OneOf(ms[1..], version);
      if Count(ms, version) >= 2 {
        if ms[0].version == version {
          var j :| 0 <= j < |ms[1..]| && ms[1..][j].version == version;
          assert ms[0].version == ms[j + 1].version == version;
        } else {
          var i, j :| 0 <= i < j < |ms[1..]| && ms[1..][i].version == ms[1..][j].version == version;
          assert ms[i + 1].version == ms[j + 1].version == version;
        }
      }
      if i, j :| 0 <= i < j < |ms| && ms[i].version == ms[j].version == version {
        assert ms[1..][j - 1].version == version;
        if i > 0 {
          assert ms[1..][i - 1].version == ms[1..][j - 1].version == version;
        }
      }
    }
  }

  /** The check of neighbours after the sort finds exactly the repeated versions of the directory. */
  lemma DuplicatesFound(ms: seq<Migration>)
    ensures AdjacentDuplicate(Sorted(ms)) <==> HasDuplicate(ms)
    ensures !AdjacentDuplicate(Sorted(ms)) ==> StrictlyAscending(Sorted(ms))
  {
    SortedSorts(ms);
    AdjacentSuffices(Sorted(ms));
    if i, j :| 0 <= i < j < |ms| && ms[i].version == ms[j].version {
      SameDuplicates(ms, Sorted(ms), ms[i].version);
    }
    if i, j :| 0 <= i < j < |Sorted(ms)| && Sorted(ms)[i].version == Sorted(ms)[j].version {
      SameDuplicates(ms, Sorted(ms), Sorted(ms)[i].version);
    }
    hide Sorted, Count;
  }

  lemma SameDuplicates(ms: seq<Migration>, sorted: seq<Migration>, version: int)
    requires sorted == Sorted(ms)
    ensures (exists i, j :: 0 <= i < j < |ms| && ms[i].version == ms[j].version == version)
       <==> (exists i, j :: 0 <= i < j < |sorted| && sorted[i].version == sorted[j].version == version)
  {
    CountSorted(ms, version);
    TwoOf(ms, version);
    TwoOf(sorted, version);
    hide Sorted, Count;
  }

  // ----- LoadMigrations -----

  predicate IsCandidate(f: File) {
    f.isRegular && HasSqlExtension(f.name)
  }

  /** The migrations of the directory in its order, or the first file name that is not valid. */
  function Listed(files: seq<File>): Result<seq<Migration>> {
    if files == [] then Ok([])
    else
      var before, f := Listed(files[..|files| - 1]), files[|files| - 1];
      if before.Err? || !IsCandidate(f) then before
      else
        var version := ParseVersion(f.name);
        if version.Err? then Err(version.error) else Ok(before.value + [Migration(version.value, f.name, f.sql)])
  }

  /** The regular files that end in ".sql" and are called more than that. */
  lemma CandidateIs(f: File)
    ensures IsCandidate(f) <==> f.isRegular && exists title :: title != "" && f.name == title + ".sql"
  {
    if IsCandidate(f) {
      assert f.name == f.name[..|f.name| - 4] + ".sql";
    }
    if title :| title != "" && f.name == title + ".sql" {
      assert f.name[|title|..] == ".sql" && |title| == |f.name| - 4;
    }
  }

  ghost predicate IsInvalid(f: File) {
    IsCandidate(f) && ParseVersion(f.name).Err?
  }

  /** The candidates of a directory, in its order. */
  function Candidates(files: seq<File>): seq<File> {
    if files == [] then []
    else Candidates(files[..|files| - 1]) + if IsCandidate(files[|files| - 1]) then [files[|files| - 1]] else []
  }

  /** Every candidate is a migration under the version of its name, in order, and nothing else is. */
  ghost predicate IsListing(ms: seq<Migration>, candidates: seq<File>) {
    && |ms| == |candidates|
    && forall i :: 0 <= i < |ms| ==> IsMigrationOf(ms[i], candidates[i])
  }

  predicate IsMigrationOf(m: Migration, f: File) {
    ParseVersion(f.name) == Ok(m.version) && m.name == f.name && m.sql == f.sql
  }

  lemma OneMoreListed(ms: seq<Migration>, candidates: seq<File>, m: Migration, f: File)
    requires IsListing(ms, candidates) && IsMigrationOf(m, f)
    ensures IsListing(ms + [m], candidates + [f])
  {
    hide IsMigrationOf;
  }

  /** No name before this place is invalid. */
  ghost predicate NoneInvalid(files: seq<File>, n: nat)
    requires n <= |files|
  {
    forall i :: 0 <= i < n ==> !IsInvalid(files[i])
  }

  lemma NoneInvalidBefore(files: seq<File>, n: nat)
    requires n < |files|
    ensures NoneInvalid(files[..|files| - 1], n) <==> NoneInvalid(files, n)
    ensures NoneInvalid(files, |files|) <==> NoneInvalid(files, |files| - 1) && !IsInvalid(files[|files| - 1])
  {
    hide IsInvalid;
    assert forall i :: 0 <= i < n ==> files[..|files| - 1][i] == files[i];
  }

  lemma LastListed(files: seq<File>)
    requires files != []
    ensures var before, f := files[..|files| - 1], files[|files| - 1];
      if Listed(before).Err? then Listed(files) == Listed(before)
      else if IsInvalid(f) then Listed(files) == Err("Invalid migration filename: " + f.name)
      else
        && Listed(files).Ok?
        && Candidates(files) == Candidates(before) + (if IsCandidate(f) then [f] else [])
        && (if IsCandidate(f) then exists m :: IsMigrationOf(m, f) && Listed(files).value == Listed(before).value + [m]
            else Listed(files) == Listed(before))
  {
    var before, f := files[..|files| - 1], files[|files| - 1];
    AcceptedNames(f.name, 0);
    hide ParseVersion, IsCandidate;
    if Listed(before).Ok? && IsCandidate(f) && !IsInvalid(f) {
      var m := Migration(ParseVersion(f.name).value, f.name, f.sql);
      assert IsMigrationOf(m, f) && Listed(files).value == Listed(before).value + [m];
    }
  }

  /**
   Loading fails at the first candidate whose name is not valid, if there is one, and names it; otherwise every
   candidate is a migration under the version of its name, and nothing else is.
   */
  lemma {:induction false} ListedIs(files: seq<File>)
    ensures Listed(files).Ok? <==> NoneInvalid(files, |files|)
    ensures Listed(files).Ok? ==> IsListing(Listed(files).value, Candidates(files))
    ensures forall n: nat :: n < |files| && IsInvalid(files[n]) && NoneInvalid(files, n) ==>
      Listed(files) == Err("Invalid migration filename: " + files[n].name)
    decreases |files|
  {
    if files != [] {
      var n := |files| - 1;
      var before, f := files[..n], files[n];
      ListedIs(before);
      LastListed(files);
      hide Listed, Candidates, IsInvalid, IsCandidate, IsListing, IsMigrationOf, NoneInvalid;
      NoneInvalidBefore(files, n);
      if Listed(before).Ok? && !IsInvalid(f) && IsCandidate(f) {
        var m :| IsMigrationOf(m, f) && Listed(files).value == Listed(before).value + [m];
        OneMoreListed(Listed(before).value, Candidates(before), m, f);
      }
      assert Candidates(before) + [] == Candidates(before);
      forall k: nat | k < |files| && IsInvalid(files[k]) && NoneInvalid(files, k)
        ensures Listed(files) == Err("Invalid migration filename: " + files[k].name)
      {
        NoneInvalidBefore(files, k);
        if k < n {
          assert before[k] == files[k];
          FirstInvalid(files, k);
        }
      }
    }
  }

  /** An invalid name is not before the end of a listing. */
  lemma FirstInvalid(files: seq<File>, k: nat)
    requires k < |files| - 1 && IsInvalid(files[k])
    ensures !NoneInvalid(files[..|files| - 1], |files| - 1)
  {
    assert files[..|files| - 1][k] == files[k];
  }

  function Load(files: seq<File>): Result<seq<Migration>> {
    var listed := Listed(files);
    if listed.Err? then listed
    else if AdjacentDuplicate(Sorted(listed.value)) then Err("Duplicate migration version")
    else Ok(Sorted(listed.value))
  }

  lemma {:induction false} ListedPrefix(files: seq<File>, n: nat)
    requires n <= |files| && Listed(files[..n]).Err?
    ensures Listed(files) == Listed(files[..n])
    decreases |files| - n
  {
    if n == |files| {
      assert files[..n] == files;
    } else {
      assert files[..n + 1][..n] == files[..n];
      ListedPrefix(files, n + 1);
    }
  }

  method LoadMigrations(files: seq<File>) returns (r: Result<seq<Migration>>)
    ensures r == Load(files)
  {
    hide ParseVersion, Sorted, IsCandidate;
    var migrations: seq<Migration> := [];
    var i := 0;
    assert files[..0] == [];
    while i < |files|
      invariant 0 <= i <= |files| && Listed(files[..i]) == Ok(migrations)
    {
      assert files[..i + 1][..i] == files[..i];
      if IsCandidate(files[i]) {
        var version := ParseVersion(files[i].name);
        if version.Err? {
          ListedPrefix(files, i + 1);
          return Err(version.error);
        }
        migrations := migrations + [Migration(version.value, files[i].name, files[i].sql)];
      }
      i := i + 1;
    }
    assert files[..i] == files;
    migrations := Sorted(migrations);
    var index := 1;
    while index < |migrations|
      invariant 1 <= index
      invariant forall j :: 0 < j < index && j < |migrations| ==> migrations[j - 1].version != migrations[j].version
    {
      if migrations[index - 1].version == migrations[index].version {
        return Err("Duplicate migration version");
      }
      index := index + 1;
    }
    return Ok(migrations);
  }
}
