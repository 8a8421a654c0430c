/** Reading the porcelain-v2 status of a worktree (internal/flywheel/worktree.go:687-817). */
module ChangedFiles {
  import opened Options
  import opened Text
  import opened Sorting
  import opened Findings
  import opened Ledger

  const NUL := 0 as char

  // ---- fields

  function IndexOf(s: string, sep: char): (i: nat)
    requires sep in s
    ensures i < |s| && s[i] == sep && forall k :: 0 <= k < i ==> s[k] != sep
  {
    if s[0] == sep then 0
    else
      assert s == [s[0]] + s[1..];
      1 + IndexOf(s[1..], sep)
  }

  /** `strings.SplitN`: at most n pieces, the last one uncut. */
  function SplitN(s: string, sep: char, n: nat): (parts: seq<string>)
    requires n >= 1
    ensures 1 <= |parts| <= n
    decreases n
  {
    if n == 1 || sep !in s then [s]
    else [s[..IndexOf(s, sep)]] + SplitN(s[IndexOf(s, sep) + 1..], sep, n - 1)
  }

  /** Pieces in a row, then a rest that may hold separators. */
  function Row(parts: seq<string>, last: string, sep: char): string {
    if parts == [] then last else parts[0] + [sep] + Row(parts[1..], last, sep)
  }

  lemma FirstCut(word: string, rest: string, sep: char)
    requires sep !in word
    ensures var s := word + [sep] + rest;
              sep in s && IndexOf(s, sep) == |word| && s[..|word|] == word &&
              s[|word| + 1..] == rest
  {
    hide IndexOf;
    var s := word + [sep] + rest;
    assert s[|word|] == sep;
    assert forall k :: 0 <= k < |word| ==> s[k] == word[k] && word[k] in word;
  }

  lemma {:induction false} SplitNRow(parts: seq<string>, last: string, sep: char)
    requires forall p :: p in parts ==> sep !in p
    ensures SplitN(Row(parts, last, sep), sep, |parts| + 1) == parts + [last]
  {
    hide *;
    if parts == [] {
      RowNothing(last, sep);
      OnePiece(last, sep);
    } else {
      assert parts[0] in parts;
      var tail := Row(parts[1..], last, sep);
      RowCons(parts, last, sep);
      FirstCut(parts[0], tail, sep);
      FirstPiece(parts[0] + [sep] + tail, sep, |parts| + 1);
      SplitNRow(parts[1..], last, sep);
      assert parts == [parts[0]] + parts[1..];
    }
  }

  lemma OnePiece(s: string, sep: char)
    ensures SplitN(s, sep, 1) == [s]
  {
  }

  lemma RowCons(parts: seq<string>, last: string, sep: char)
    requires parts != []
    ensures Row(parts, last, sep) == parts[0] + [sep] + Row(parts[1..], last, sep)
  {
  }

  lemma FirstPiece(s: string, sep: char, n: nat)
    requires n > 1 && sep in s
    ensures SplitN(s, sep, n) == [s[..IndexOf(s, sep)]] + SplitN(s[IndexOf(s, sep) + 1..], sep, n - 1)
  {
    hide IndexOf;
  }

  lemma {:induction false} RowSplitN(s: string, sep: char, n: nat)
    requires n >= 1 && |SplitN(s, sep, n)| == n
    ensures var parts := SplitN(s, sep, n); Row(parts[..n - 1], parts[n - 1], sep) == s
    decreases n
  {
    hide *;
    var parts := SplitN(s, sep, n);
    SplitNStep(s, sep, n);
    if n == 1 {
      RowNothing(parts[0], sep);
      assert parts[..0] == [];
    } else {
      var i := IndexOf(s, sep);
      var rest := s[i + 1..];
      RowSplitN(rest, sep, n - 1);
      RowFirst(parts, SplitN(rest, sep, n - 1), s[..i], sep);
      assert s == s[..i] + [sep] + rest;
    }
  }

  lemma RowNothing(last: string, sep: char)
    ensures Row([], last, sep) == last
  {
  }

  lemma SplitNStep(s: string, sep: char, n: nat)
    requires n >= 1 && |SplitN(s, sep, n)| == n
    ensures n == 1 ==> SplitN(s, sep, n) == [s]
    ensures n > 1 ==>
      sep in s && SplitN(s, sep, n) == [s[..IndexOf(s, sep)]] + SplitN(s[IndexOf(s, sep) + 1..], sep, n - 1)
  {
    hide IndexOf;
  }

  lemma Middle<T>(a: T, middle: seq<T>, b: T)
    ensures var s := [a] + middle + [b];
            |s| == |middle| + 2 && s[0] == a && s[1..|middle| + 1] == middle && s[|middle| + 1] == b
  {
  }

  lemma RowFirst(parts: seq<string>, rest: seq<string>, word: string, sep: char)
    requires rest != [] && parts == [word] + rest
    ensures var n := |parts| - 1;
            Row(parts[..n], parts[n], sep) == word + [sep] + Row(rest[..n - 1], rest[n - 1], sep)
  {
    assert parts[..|parts| - 1][1..] == rest[..|rest| - 1];
  }

  lemma RowHead(front: seq<string>, last: string, sep: char)
    requires front != [] && front[0] != ""
    ensures Row(front, last, sep) != "" && Row(front, last, sep)[0] == front[0][0]
  {
  }

  /** A record with the right number of pieces shows its tag and comes apart again. */
  lemma Pieces(tag: string, middle: seq<string>, path: string)
    requires tag != "" && ' ' !in tag && forall p :: p in middle ==> ' ' !in p
    ensures var record := Row([tag] + middle, path, ' ');
            record != "" && record[0] == tag[0] && SplitN(record, ' ', |middle| + 2) == [tag] + middle + [path]
  {
    hide SplitN, Row, IndexOf;
    var front := [tag] + middle;
    assert front[0] == tag && |front| + 1 == |middle| + 2;
    RowHead(front, path, ' ');
    SplitNRow(front, path, ' ');
  }

  lemma MiddleOfThree<T>(a: T, middle: seq<T>, b: T, c: T)
    ensures var s := [a] + (middle + [b]) + [c]; var n := |middle|;
            |s| == n + 3 && s[0] == a && s[1..n + 1] == middle && s[n + 1] == b && s[n + 2] == c
  {
  }

  // ---- what a record may hold

  predicate IsAnyOf(c: char, choices: string) {
    c in choices
  }

  predicate ValidXY(v: string) {
    |v| == 2 && IsAnyOf(v[0], ".MADRCUT") && IsAnyOf(v[1], ".MADRCUT")
  }

  predicate ValidSubmodule(v: string) {
    |v| == 4 && IsAnyOf(v[0], "NS") && IsAnyOf(v[1], ".C") && IsAnyOf(v[2], ".M") && IsAnyOf(v[3], ".U")
  }

  predicate ValidMode(v: string) {
    |v| == 6 && forall c :: c in v ==> '0' <= c <= '7'
  }

  function Score(digits: string): nat {
    if digits == "" then 0
    else
      var c := digits[|digits| - 1];
      10 * Score(digits[..|digits| - 1]) + (if '0' <= c <= '9' then (c - '0') as int else 0)
  }

  predicate ValidRenameScore(v: string) {
    2 <= |v| <= 4 && IsAnyOf(v[0], "RC") && (forall c :: c in v[1..] ==> '0' <= c <= '9') && Score(v[1..]) <= 100
  }

  predicate TrackedMetadata(m: seq<string>) {
    && |m| == 7 && ValidXY(m[0]) && ValidSubmodule(m[1])
    && ValidMode(m[2]) && ValidMode(m[3]) && ValidMode(m[4]) && ValidObjectID(m[5]) && ValidObjectID(m[6])
  }

  predicate UnmergedMetadata(m: seq<string>) {
    && |m| == 9 && ValidXY(m[0]) && ValidSubmodule(m[1]) && ValidMode(m[2]) && ValidMode(m[3]) && ValidMode(m[4]) &&
      ValidMode(m[5])
    && ValidObjectID(m[6]) && ValidObjectID(m[7]) && ValidObjectID(m[8])
  }

  /** `validGitRelativePath`: the paths that `filepath.Clean` leaves alone, neither rooted nor leading out. */
  predicate GitRelative(path: string) {
    forall c :: c in Split(path, '/') ==> c != "" && c != "." && c != ".."
  }

  // ---- entries

  datatype Entry =
    | Ordinary(meta: seq<string>, path: string)
    | Renamed(meta: seq<string>, score: string, path: string, source: string)
    | Unmerged(meta: seq<string>, path: string)
    | Untracked(path: string)

  predicate ValidEntry(e: Entry) {
    && GitRelative(e.path)
    && match e
       case Ordinary(meta, _) => TrackedMetadata(meta)
       case Renamed(meta, score, _, source) => TrackedMetadata(meta) && ValidRenameScore(score) && GitRelative(source)
       case Unmerged(meta, _) => UnmergedMetadata(meta)
       case Untracked(_) => true
  }

  function Record(e: Entry): string {
    match e
    case Ordinary(meta, path) => Row(["1"] + meta, path, ' ')
    case Renamed(meta, score, path, _) => Row(["2"] + (meta + [score]), path, ' ')
    case Unmerged(meta, path) => Row(["u"] + meta, path, ' ')
    case Untracked(path) => "? " + path
  }

  function Lines(e: Entry): seq<string> {
    if e.Renamed? then [Record(e), e.source] else [Record(e)]
  }

  function EntryPaths(e: Entry): set<string> {
    if e.Renamed? then {e.path, e.source} else {e.path}
  }

  function AllLines(entries: seq<Entry>): seq<string> {
    if entries == [] then [] else AllLines(entries[..|entries| - 1]) + Lines(entries[|entries| - 1])
  }

  function AllPaths(entries: seq<Entry>): set<string> {
    if entries == [] then {} else AllPaths(entries[..|entries| - 1]) + EntryPaths(entries[|entries| - 1])
  }

  /** The entry of a record; the field after the record is the source of a rename. */
  function ReadEntry(record: string, next: Option<string>): Option<Entry> {
    if record == "" then None
    else if record[0] == '1' then
      var parts := SplitN(record, ' ', 9);
      if |parts| == 9 && parts[0] == "1" && TrackedMetadata(parts[1..8]) && GitRelative(parts[8])
      then Some(Ordinary(parts[1..8], parts[8])) else None
    else if record[0] == '2' then
      var parts := SplitN(record, ' ', 10);
      if |parts| == 10 && parts[0] == "2" && TrackedMetadata(parts[1..8]) && ValidRenameScore(parts[8])
         && GitRelative(parts[9])
         && next.Some? && GitRelative(next.value)
      then Some(Renamed(parts[1..8], parts[8], parts[9], next.value)) else None
    else if record[0] == 'u' then
      var parts := SplitN(record, ' ', 11);
      if |parts| == 11 && parts[0] == "u" && UnmergedMetadata(parts[1..10]) && GitRelative(parts[10])
      then Some(Unmerged(parts[1..10], parts[10])) else None
    else if HasPrefix(record, "? ") && GitRelative(record[2..]) then Some(Untracked(record[2..]))
    else None
  }

  /** What follows the record of an entry. */
  function Next(e: Entry, after: Option<string>): Option<string> {
    if e.Renamed? then Some(e.source) else after
  }

  lemma NoSpaces(m: seq<string>)
    requires TrackedMetadata(m) || UnmergedMetadata(m)
    ensures forall p :: p in m ==> ' ' !in p
  {
    forall p | p in m ensures ' ' !in p {
      var i :| 0 <= i < |m| && m[i] == p;
      Spaceless(p);
    }
  }

  lemma Spaceless(p: string)
    requires ValidXY(p) || ValidSubmodule(p) || ValidMode(p) || ValidObjectID(p) || ValidRenameScore(p)
    ensures ' ' !in p
  {
    if ValidRenameScore(p) { assert p == [p[0]] + p[1..]; }
  }

  lemma ReadsOrdinary(meta: seq<string>, path: string, next: Option<string>)
    requires TrackedMetadata(meta) && GitRelative(path)
    ensures ReadEntry(Row(["1"] + meta, path, ' '), next) == Some(Ordinary(meta, path))
  {
    assert |meta| == 7;
    hide TrackedMetadata, GitRelative, SplitN, Row;
    NoSpaces(meta);
    Pieces("1", meta, path);
    Middle("1", meta, path);
  }

  lemma ReadsRenamed(meta: seq<string>, score: string, path: string, source: string)
    requires TrackedMetadata(meta) && ValidRenameScore(score) && GitRelative(path) && GitRelative(source)
    ensures ReadEntry(Row(["2"] + (meta + [score]), path, ' '), Some(source)) ==
      Some(Renamed(meta, score, path, source))
  {
    assert |meta| == 7;
    hide TrackedMetadata, GitRelative, ValidRenameScore, SplitN, Row;
    NoSpaces(meta);
    Spaceless(score);
    Pieces("2", meta + [score], path);
    MiddleOfThree("2", meta, score, path);
  }

  lemma ReadsUnmerged(meta: seq<string>, path: string, next: Option<string>)
    requires UnmergedMetadata(meta) && GitRelative(path)
    ensures ReadEntry(Row(["u"] + meta, path, ' '), next) == Some(Unmerged(meta, path))
  {
    assert |meta| == 9;
    hide UnmergedMetadata, GitRelative, SplitN, Row;
    NoSpaces(meta);
    Pieces("u", meta, path);
    Middle("u", meta, path);
  }

  lemma ReadsUntracked(path: string, next: Option<string>)
    requires GitRelative(path)
    ensures ReadEntry("? " + path, next) == Some(Untracked(path))
  {
    hide GitRelative;
    assert ("? " + path)[2..] == path && ("? " + path)[0] == '?';
  }

  /** Every entry is read back from its own record. */
  lemma ReadsBack(e: Entry, after: Option<string>)
    requires ValidEntry(e)
    ensures ReadEntry(Record(e), Next(e, after)) == Some(e)
  {
    hide TrackedMetadata, UnmergedMetadata, GitRelative, ValidRenameScore, ReadEntry;
    match e
    case Ordinary(meta, path) => ReadsOrdinary(meta, path, after);
    case Renamed(meta, score, path, source) => ReadsRenamed(meta, score, path, source);
    case Unmerged(meta, path) => ReadsUnmerged(meta, path, after);
    case Untracked(path) => ReadsUntracked(path, after);
  }

  /** What is read is an entry, and the record is its record. */
  lemma ReadIsEntry(record: string, next: Option<string>)
    requires ReadEntry(record, next).Some?
    ensures var e := ReadEntry(record, next).value; ValidEntry(e) && Record(e) == record && next == Next(e, next)
  {
    hide TrackedMetadata, UnmergedMetadata, GitRelative, ValidRenameScore, SplitN, Row;
    if record[0] == '1' {
      RowSplitN(record, ' ', 9);
      var parts := SplitN(record, ' ', 9);
      assert parts[..8] == ["1"] + parts[1..8];
    } else if record[0] == '2' {
      RowSplitN(record, ' ', 10);
      var parts := SplitN(record, ' ', 10);
      assert parts[..9] == ["2"] + (parts[1..8] + [parts[8]]);
    } else if record[0] == 'u' {
      RowSplitN(record, ' ', 11);
      var parts := SplitN(record, ' ', 11);
      assert parts[..10] == ["u"] + parts[1..10];
    } else {
      assert record == "? " + record[2..];
    }
  }

  // ---- whole listings

  /** Lines, each ended by a NUL. */
  function Terminated(lines: seq<string>): string {
    Join(lines + [""], NUL)
  }

  ghost predicate Listing(output: string, entries: seq<Entry>) {
    && (forall e :: e in entries ==> ValidEntry(e)) && (forall line :: line in AllLines(entries) ==> NUL !in line)
    && output == Terminated(AllLines(entries))
  }

  lemma TerminatedSplits(lines: seq<string>)
    requires forall line :: line in lines ==> NUL !in line
    ensures Split(Terminated(lines), NUL) == lines + [""]
  {
    SplitJoin(lines + [""], NUL);
  }

  lemma OnePart(s: string, sep: char)
    ensures |Split(s, sep)| == 1 ==> Split(s, sep)[0] == s
  {
    JoinSplit(s, sep);
  }

  lemma {:induction false} EndsWithSeparator(s: string, sep: char)
    requires s != ""
    ensures s[|s| - 1] == sep <==> Split(s, sep)[|Split(s, sep)| - 1] == ""
  {
    hide *;
    var rest := Split(s[1..], sep);
    SplitCons(s, sep);
    OnePart(s[1..], sep);
    if |s| > 1 {
      EndsWithSeparator(s[1..], sep);
      assert s[1..][|s| - 2] == s[|s| - 1];
    }
  }

  lemma SplitCons(s: string, sep: char)
    requires s != ""
    ensures var rest := Split(s[1..], sep);
            Split(s, sep) == if s[0] == sep then [""] + rest else [[s[0]] + rest[0]] + rest[1..]
    ensures |s| == 1 ==> Split(s[1..], sep) == [""]
  {
    assert |s| == 1 ==> s[1..] == "";
  }

  lemma SplitTerminates(output: string)
    requires output != "" && output[|output| - 1] == NUL
    ensures var parts := Split(output, NUL); |parts| >= 2 && output == Terminated(parts[..|parts| - 1])
  {
    var parts := Split(output, NUL);
    EndsWithSeparator(output, NUL);
    JoinSplit(output, NUL);
    OnePart(output, NUL);
    hide Split;
    assert parts[..|parts| - 1] + [""] == parts;
  }

  /** An unterminated output lists nothing. */
  lemma Unterminated(output: string, entries: seq<Entry>)
    requires output != "" && output[|output| - 1] != NUL
    ensures !Listing(output, entries)
  {
    if Listing(output, entries) {
      TerminatedSplits(AllLines(entries));
      EndsWithSeparator(output, NUL);
    }
  }

  function ReadAt(fields: seq<string>, i: nat): Option<Entry>
    requires i < |fields|
  {
    ReadEntry(fields[i], if i + 1 < |fields| then Some(fields[i + 1]) else None)
  }

  lemma ReadsAt(fields: seq<string>, i: nat, e: Entry)
    requires ValidEntry(e) && i + |Lines(e)| <= |fields| && fields[i..i + |Lines(e)|] == Lines(e)
    ensures ReadAt(fields, i) == Some(e)
  {
    hide ReadEntry, ValidEntry, Record;
    assert fields[i] == Lines(e)[0];
    var after := if i + 1 < |fields| then Some(fields[i + 1]) else None;
    assert e.Renamed? ==> fields[i + 1] == Lines(e)[1];
    ReadsBack(e, after);
  }

  lemma {:induction false} LinesAt(entries: seq<Entry>, k: nat)
    requires k < |entries|
    ensures AllLines(entries[..k]) + Lines(entries[k]) <= AllLines(entries)
  {
    hide Lines;
    var n := |entries| - 1;
    if k < n {
      LinesAt(entries[..n], k);
      assert entries[..n][..k] == entries[..k];
    }
  }

  /** The entry that starts where the lines of the first k end. */
  lemma EntryAt(entries: seq<Entry>, k: nat)
    requires k < |entries| && forall e :: e in entries ==> ValidEntry(e)
    ensures var fields, i := AllLines(entries), |AllLines(entries[..k])|;
            i < |fields| && ReadAt(fields, i) == Some(entries[k])
  {
    hide ValidEntry, ReadAt, AllLines;
    LinesAt(entries, k);
    var fields, i := AllLines(entries), |AllLines(entries[..k])|;
    assert fields[i..i + |Lines(entries[k])|] == Lines(entries[k]);
    ReadsAt(fields, i, entries[k]);
  }

  lemma {:induction false} FewerLines(entries: seq<Entry>)
    ensures |AllLines(entries)| >= |entries|
  {
    if entries != [] { FewerLines(entries[..|entries| - 1]); }
  }

  /** Where two listings agree on what comes before, they agree on the next entry. */
  lemma SameNext(before: seq<Entry>, e: Entry, all: seq<Entry>)
    requires ValidEntry(e) && forall f :: f in all ==> ValidEntry(f)
    requires before < all && AllLines(before) + Lines(e) <= AllLines(all)
    ensures before + [e] <= all
  {
    hide ValidEntry, ReadAt, Lines, AllLines;
    var n := |before|;
    assert all[..n] == before;
    EntryAt(all, n);
    LinesNonempty(e);
    var fields, i := AllLines(all), |AllLines(before)|;
    assert fields[i..i + |Lines(e)|] == Lines(e);
    ReadsAt(fields, i, e);
    assert all[n] == e;
  }

  /** Entries that have been read are the first entries of every listing of the same lines. */
  lemma {:induction false} PrefixEntries(entries: seq<Entry>, all: seq<Entry>)
    requires (forall e :: e in entries ==> ValidEntry(e)) && (forall e :: e in all ==> ValidEntry(e))
    requires AllLines(entries) <= AllLines(all)
    ensures entries <= all
  {
    if entries != [] {
      var n := |entries| - 1;
      var before, e := entries[..n], entries[n];
      assert AllLines(entries) == AllLines(before) + Lines(e);
      hide *;
      assert e in entries && forall f :: f in before ==> f in entries;
      PrefixEntries(before, all);
      LinesNonempty(e);
      assert before != all;
      SameNext(before, e, all);
      assert entries == before + [e];
    }
  }

  lemma LinesNonempty(e: Entry)
    ensures |Lines(e)| >= 1
  {
  }

  /** A status output lists one sequence of entries at most. */
  lemma ListingIsUnique(output: string, a: seq<Entry>, b: seq<Entry>)
    requires Listing(output, a) && Listing(output, b)
    ensures a == b
  {
    TerminatedSplits(AllLines(a));
    TerminatedSplits(AllLines(b));
    var x, y := AllLines(a) + [""], AllLines(b) + [""];
    assert x == y && x[..|x| - 1] == AllLines(a) && y[..|y| - 1] == AllLines(b);
    hide ValidEntry, AllLines, Terminated;
    PrefixEntries(a, b);
    PrefixEntries(b, a);
  }

  /** Where reading fails, there is nothing to be read. */
  lemma NoListing(fields: seq<string>, entries: seq<Entry>, all: seq<Entry>)
    requires forall e :: e in entries + all ==> ValidEntry(e)
    requires AllLines(entries) <= fields && |AllLines(entries)| < |fields| && ReadAt(fields, |AllLines(entries)|).None?
    ensures AllLines(all) != fields
  {
    hide ValidEntry, ReadAt;
    if AllLines(all) == fields {
      PrefixEntries(entries, all);
      assert all != entries;
      assert all[..|entries|] == entries;
      assert forall e :: e in all ==> e in entries + all;
      EntryAt(all, |entries|);
    }
  }

  lemma StringOrderOn(s: seq<string>)
    ensures StrictWeakOn(s, Less)
  {
    hide Less;
    forall a, b | a in s && b in s && Less(a, b) ensures !Less(b, a) { LessLaws(a, b, a); }
    forall a, b, c | a in s && b in s && c in s && Less(a, c) ensures Less(a, b) || Less(b, c) { LessLaws(a, b, c); }
  }

  /** The names in order, each once. */
  ghost predicate Names(files: seq<string>, paths: set<string>) {
    (forall i :: 0 < i < |files| ==> Ascends(files, i)) && forall p :: p in files <==> p in paths
  }

  method SortedNames(paths: set<string>) returns (files: seq<string>)
    ensures Names(files, paths)
  {
    var names: seq<string> := [];
    var rest := paths;
    while rest != {}
      invariant rest <= paths && (forall p :: p in names <==> p in paths && p !in rest)
      invariant forall i, j :: 0 <= i < j < |names| ==> names[i] != names[j]
      decreases rest
    {
      var p :| p in rest;
      names := names + [p];
      rest := rest - {p};
    }
    StringOrderOn(names);
    files := Sort(names, Less);
    AscendingNames(names, files);
  }

  lemma AscendingNames(names: seq<string>, files: seq<string>)
    requires Sorted(files, Less) && multiset(files) == multiset(names)
    requires forall i, j :: 0 <= i < j < |names| ==> names[i] != names[j]
    ensures forall i :: 0 < i < |files| ==> Ascends(files, i)
    ensures forall p :: p in files <==> p in names
  {
    hide Less;
    SamePermutation(files, names);
    forall i | 0 < i < |files| ensures Ascends(files, i) {
      NamesApart(names, files, i - 1, i);
      LessTotal(files[i - 1], files[i]);
    }
  }

  lemma NamesApart(names: seq<string>, files: seq<string>, i: nat, j: nat)
    requires multiset(files) == multiset(names) && i < j < |files|
    requires forall i, j :: 0 <= i < j < |names| ==> names[i] != names[j]
    ensures files[i] != files[j]
  {
    if files[i] == files[j] {
      TwiceInSeq(files, i, j);
      OnceInSeq(names, files[i]);
    }
  }

  /** Paths as the parser names them: relative to the repository, in order and without duplicates. */
  ghost predicate GitListed(files: seq<string>) {
    (forall i :: 0 < i < |files| ==> Ascends(files, i)) && forall f :: f in files ==> GitRelative(f)
  }

  lemma {:induction false} PathsAreRelative(entries: seq<Entry>)
    requires forall e :: e in entries ==> ValidEntry(e)
    ensures forall p :: p in AllPaths(entries) ==> GitRelative(p)
  {
    hide GitRelative;
    if entries != [] {
      var n := |entries| - 1;
      assert entries[n] in entries;
      forall e | e in entries[..n] ensures ValidEntry(e) { assert e in entries; }
      PathsAreRelative(entries[..n]);
    }
  }

  /** `parseChangedFilesV2` accepts exactly the listings, and names every path they touch, in order and once. */
  method ParseChangedFiles(output: string) returns (r: Option<seq<string>>)
    ensures r.Some? ==> exists entries :: Listing(output, entries) && Names(r.value, AllPaths(entries))
    ensures r.None? ==> forall entries :: !Listing(output, entries)
    ensures r.Some? ==> GitListed(r.value)
  {
    hide GitRelative, ValidEntry, ReadAt, AllLines, AllPaths, Lines, Terminated, Names, Split, EntryPaths;
    NothingListed();
    if |output| == 0 {
      return Some([]);
    }
    if output[|output| - 1] != NUL {
      forall entries ensures !Listing(output, entries) { Unterminated(output, entries); }
      return None;
    }
    SplitTerminates(output);
    var parts := Split(output, NUL);
    var fields := parts[..|parts| - 1];
    assert forall f :: f in fields ==> f in parts;
    var paths: set<string> := {};
    ghost var entries: seq<Entry> := [];
    var index := 0;
    while index < |fields|
      invariant index <= |fields| && AllLines(entries) == fields[..index] && paths == AllPaths(entries)
      invariant forall e :: e in entries ==> ValidEntry(e)
    {
      var e := ReadAt(fields, index);
      if e.None? {
        NothingElse(output, fields, entries);
        return None;
      }
      NextEntry(fields, index, entries, e.value);
      entries := entries + [e.value];
      paths := paths + EntryPaths(e.value);
      index := index + |Lines(e.value)|;
    }
    assert fields[..index] == fields;
    assert Listing(output, entries);
    PathsAreRelative(entries);
    var files := SortedNames(paths);
    return Some(files);
  }

  lemma NothingListed()
    ensures Listing("", []) && Names([], AllPaths([])) && AllLines([]) == [] && AllPaths([]) == {}
  {
  }

  lemma NothingElse(output: string, fields: seq<string>, entries: seq<Entry>)
    requires output == Terminated(fields) && (forall f :: f in fields ==> NUL !in f)
    requires forall e :: e in entries ==> ValidEntry(e)
    requires AllLines(entries) <= fields && |AllLines(entries)| < |fields| && ReadAt(fields, |AllLines(entries)|).None?
    ensures forall all :: !Listing(output, all)
  {
    hide ValidEntry, ReadAt, AllLines, Terminated;
    forall all ensures !Listing(output, all) {
      if Listing(output, all) {
        TerminatedSplits(fields);
        TerminatedSplits(AllLines(all));
        var x, y := fields + [""], AllLines(all) + [""];
        assert x[..|x| - 1] == fields && y[..|y| - 1] == AllLines(all);
        NoListing(fields, entries, all);
      }
    }
  }

  lemma NextEntry(fields: seq<string>, index: nat, entries: seq<Entry>, e: Entry)
    requires index < |fields| && AllLines(entries) == fields[..index] && ReadAt(fields, index) == Some(e)
    ensures ValidEntry(e) && index + |Lines(e)| <= |fields| && |Lines(e)| >= 1
    ensures AllLines(entries + [e]) == fields[..index + |Lines(e)|]
    ensures AllPaths(entries + [e]) == AllPaths(entries) + EntryPaths(e)
  {
    hide ReadEntry, Record, ValidEntry, EntryPaths, AllLines, AllPaths;
    ReadIsEntry(fields[index], if index + 1 < |fields| then Some(fields[index + 1]) else None);
    OneMoreEntry(entries, e);
    var next := index + |Lines(e)|;
    assert fields[index..next] == Lines(e);
    assert fields[..next] == fields[..index] + fields[index..next];
  }

  lemma OneMoreEntry(entries: seq<Entry>, e: Entry)
    ensures AllLines(entries + [e]) == AllLines(entries) + Lines(e) &&
      AllPaths(entries + [e]) == AllPaths(entries) + EntryPaths(e)
  {
    assert (entries + [e])[..|entries|] == entries;
  }
}
