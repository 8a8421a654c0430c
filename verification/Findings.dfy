/** Findings: their identity, their validity and their canonical grouping
    (internal/finding/finding.go, path.go and group.go). */
module Findings {
  import opened Text
  import opened Sorting

  // ---- the hash

  ghost predicate Digests(f: string -> string) {
    (forall x, y :: f(x) == f(y) ==> x == y) && forall x :: f(x) != ""
  }

  function SomeDigest(s: string): string { "h" + s }

  lemma SomeDigestDigests()
    ensures Digests(SomeDigest)
  {
    forall x, y | SomeDigest(x) == SomeDigest(y) ensures x == y {
      assert SomeDigest(x)[1..] == x && SomeDigest(y)[1..] == y;
    }
  }

  /** A hash is idealized as any function without collisions and without empty results. */
  type CollisionFree = f: string -> string | Digests(f) witness (SomeDigestDigests(); SomeDigest)

  /** `hex(sha256(...))`: nothing is known of it but that it has no collisions. */
  const Sha256: CollisionFree

  lemma NoCollision(x: string, y: string)
    requires Sha256(x) == Sha256(y)
    ensures x == y
  {
    assert Digests(Sha256);
  }

  lemma DigestNonempty(x: string)
    ensures Sha256(x) != ""
  {
    assert Digests(Sha256);
  }

  // ---- paths

  /** `isWindowsAbsolute` */
  predicate WindowsAbsolute(path: string) {
    |path| >= 3 && ('a' <= path[0] <= 'z' || 'A' <= path[0] <= 'Z') && path[1] == ':' && path[2] == '/'
  }

  function Portable(path: string): string {
    if path == "" then "" else [if path[0] == '\\' then '/' else path[0]] + Portable(path[1..])
  }

  /** What `ParsePath` accepts. */
  predicate ValidPath(path: string) {
    && !Blank(path)
    && !HasPrefix(Portable(path), "/") && !WindowsAbsolute(Portable(path))
    && ".." !in Split(Portable(path), '/')
  }

  function Components(parts: seq<string>): (kept: seq<string>)
    ensures forall p :: p in kept ==> p in parts && p != "" && p != "."
  {
    if parts == [] then []
    else (if parts[0] == "" || parts[0] == "." then [] else [parts[0]]) + Components(parts[1..])
  }

  /** `filepath.Clean` on a path that `ParsePath` accepts: neither rooted nor containing "..". */
  function NormalizeFile(path: string): string {
    var kept := Components(Split(path, '/'));
    if kept == [] then "." else Join(kept, '/')
  }

  lemma {:induction false} KeptAlready(parts: seq<string>)
    requires forall p :: p in parts ==> p != "" && p != "."
    ensures Components(parts) == parts
  {
    if parts != [] {
      assert parts[0] in parts;
      assert forall p :: p in parts[1..] ==> p in parts;
      KeptAlready(parts[1..]);
      assert [parts[0]] + parts[1..] == parts;
    }
  }

  lemma NormalizeFileIdempotent(path: string)
    ensures NormalizeFile(NormalizeFile(path)) == NormalizeFile(path)
  {
    var kept := Components(Split(path, '/'));
    if kept != [] {
      SplitJoin(kept, '/');
      KeptAlready(kept);
    } else {
      SplitWord(".", '/');
      assert Components(["."]) == [] + Components([]) == [];
    }
  }

  // ---- findings

  /** A severity string; only the first three are valid. */
  datatype Severity = Error | Warning | Info | Unknown(name: string)

  datatype Occurrence = Occurrence(line: int, endLine: int)

  datatype Finding = Finding(
    gate: string, language: string, ruleID: string, severity: Severity, file: string, line: int, endLine: int,
    snippet: string, occurrences: seq<Occurrence>, message: string, fingerprint: string)

  function NormalizeSnippet(snippet: string): string {
    Join(Fields(snippet), ' ')
  }

  function IdentityFields(f: Finding): seq<string> {
    [f.gate, f.ruleID, NormalizeFile(f.file), NormalizeSnippet(f.snippet)]
  }

  function Fingerprint(f: Finding): string {
    Sha256(FieldsOf(IdentityFields(f)))
  }

  /** The identity strings are no longer than a Go string can be. */
  ghost predicate Sized(f: Finding) {
    forall s :: s in IdentityFields(f) ==> Fits(s)
  }

  /** The fingerprint settles gate, rule, file and normalized snippet, and depends on nothing else. */
  lemma FingerprintIsIdentity(f: Finding, g: Finding)
    requires Sized(f) && Sized(g)
    ensures Fingerprint(f) == Fingerprint(g) <==> IdentityFields(f) == IdentityFields(g)
  {
    if Fingerprint(f) == Fingerprint(g) {
      NoCollision(FieldsOf(IdentityFields(f)), FieldsOf(IdentityFields(g)));
      FieldsDecode(IdentityFields(f), "", IdentityFields(g), "");
    }
  }

  predicate ValidSeverity(s: Severity) {
    !s.Unknown?
  }

  predicate ToolQualified(ruleID: string) {
    exists i :: 0 < i < |ruleID| - 1 && ruleID[i] == '/' && forall k :: 0 <= k < i ==> ruleID[k] != '/'
  }

  predicate ValidLocation(o: Occurrence) {
    o.line > 0 && (o.endLine == 0 || o.endLine >= o.line)
  }

  predicate ValidIdentity(f: Finding) {
    && !Blank(f.gate) && !Blank(f.language) && !Blank(f.ruleID) && ToolQualified(f.ruleID) && ValidSeverity(f.severity)
    && f.file != "" && !Blank(f.snippet) && !Blank(f.message) && ValidPath(f.file)
  }

  /** `Validate` reports no error. */
  predicate Valid(f: Finding) {
    && ValidIdentity(f)
    && ValidLocation(Occurrence(f.line, f.endLine))
    && (forall o :: o in f.occurrences ==> ValidLocation(o))
    && (f.fingerprint == "" || f.fingerprint == Fingerprint(f))
  }

  function Normalized(f: Finding): Finding {
    f.(file := NormalizeFile(f.file), fingerprint := Fingerprint(f.(file := NormalizeFile(f.file))))
  }

  lemma NormalizedFacts(f: Finding)
    ensures Normalized(f).severity == f.severity
    ensures Normalized(f).fingerprint == Fingerprint(f) == Fingerprint(Normalized(f))
    ensures Normalized(Normalized(f)) == Normalized(f)
    ensures Sized(f) ==> Sized(Normalized(f))
    ensures IdentityFields(Normalized(f)) == IdentityFields(f)
  {
    NormalizeFileIdempotent(f.file);
    assert IdentityFields(f.(file := NormalizeFile(f.file))) == IdentityFields(f);
  }

  // ---- orders

  predicate LessOccurrence(a: Occurrence, b: Occurrence) {
    if a.line != b.line then a.line < b.line else a.endLine < b.endLine
  }

  function Precedence(s: Severity): int {
    match s
    case Error => 3
    case Warning => 2
    case Info => 1
    case Unknown(_) => 0
  }

  predicate LessMetadata(a: Finding, b: Finding) {
    if a.severity != b.severity then Precedence(a.severity) > Precedence(b.severity)
    else if a.language != b.language then Less(a.language, b.language)
    else if a.message != b.message then Less(a.message, b.message)
    else a.snippet != b.snippet && Less(a.snippet, b.snippet)
  }

  predicate LessFinding(a: Finding, b: Finding) {
    if a.file != b.file then Less(a.file, b.file)
    else if a.line != b.line then a.line < b.line
    else if a.gate != b.gate then Less(a.gate, b.gate)
    else if a.ruleID != b.ruleID then Less(a.ruleID, b.ruleID)
    else Less(a.fingerprint, b.fingerprint)
  }

  lemma LessLaws(a: string, b: string, c: string)
    ensures Less(a, b) ==> a != b && !Less(b, a)
    ensures a != b ==> Less(a, b) || Less(b, a)
    ensures Less(a, c) ==> Less(a, b) || Less(b, c)
  {
    LessIrreflexive(a);
    LessTotal(a, b);
    LessTotal(b, c);
    if Less(a, b) { LessAsymmetric(a, b); }
    if Less(a, c) && !Less(a, b) && b != c && !Less(b, c) {
      if a == b { } else {
        LessTransitive(c, b, a);
        LessAsymmetric(a, c);
      }
    }
  }

  lemma LessFindingLaws(a: Finding, b: Finding, c: Finding)
    ensures LessFinding(a, b) ==> !LessFinding(b, a)
    ensures a.fingerprint != b.fingerprint ==> LessFinding(a, b) || LessFinding(b, a)
    ensures LessFinding(a, c) ==> LessFinding(a, b) || LessFinding(b, c)
  {
    LessLaws(a.file, b.file, c.file);
    LessLaws(a.gate, b.gate, c.gate);
    LessLaws(a.ruleID, b.ruleID, c.ruleID);
    LessLaws(a.fingerprint, b.fingerprint, c.fingerprint);
    hide Less;
  }

  lemma LessMetadataLaws(a: Finding, b: Finding, c: Finding)
    requires ValidSeverity(a.severity) && ValidSeverity(b.severity) && ValidSeverity(c.severity)
    ensures LessMetadata(a, b) ==> !LessMetadata(b, a)
    ensures LessMetadata(a, c) ==> LessMetadata(a, b) || LessMetadata(b, c)
    ensures !LessMetadata(a, b) && !LessMetadata(b, a) ==>
      a.severity == b.severity && a.language == b.language && a.message == b.message && a.snippet == b.snippet
  {
    LessLaws(a.language, b.language, c.language);
    LessLaws(a.message, b.message, c.message);
    LessLaws(a.snippet, b.snippet, c.snippet);
    hide Less;
  }

  lemma FindingOrderOn(s: seq<Finding>)
    ensures StrictWeakOn(s, LessFinding)
  {
    forall a, b, c | a in s && b in s && c in s
      ensures LessFinding(a, b) ==> !LessFinding(b, a)
      ensures LessFinding(a, c) ==> LessFinding(a, b) || LessFinding(b, c)
    {
      LessFindingLaws(a, b, c);
    }
    hide LessFinding;
    forall a, b | a in s && b in s && LessFinding(a, b) ensures !LessFinding(b, a) {
      LessFindingLaws(a, b, b);
    }
  }

  lemma MetadataOrderOn(s: seq<Finding>)
    requires forall f :: f in s ==> ValidSeverity(f.severity)
    ensures StrictWeakOn(s, LessMetadata)
  {
    forall a, b, c | a in s && b in s && c in s
      ensures LessMetadata(a, c) ==> LessMetadata(a, b) || LessMetadata(b, c)
    {
      LessMetadataLaws(a, b, c);
    }
    hide LessMetadata;
    forall a, b | a in s && b in s && LessMetadata(a, b) ensures !LessMetadata(b, a) {
      LessMetadataLaws(a, b, b);
    }
  }

  // ---- combining the findings of one fingerprint

  function AllLocations(f: Finding): seq<Occurrence> {
    [Occurrence(f.line, f.endLine)] + f.occurrences
  }

  function FirstLocation(f: Finding): Occurrence {
    Occurrence(f.line, f.endLine)
  }

  ghost predicate Located(members: seq<Finding>, o: Occurrence) {
    exists f :: f in members && o in AllLocations(f)
  }

  /** The report of a group takes all but its location, occurrences and severity from this member. */
  ghost predicate Leads(members: seq<Finding>, out: Finding, f: Finding) {
    && f in members && FirstLocation(out) in AllLocations(f)
    && out == f.(line := out.line, endLine := out.endLine, severity := out.severity, occurrences := out.occurrences)
    && forall g :: g in members && FirstLocation(out) in AllLocations(g) ==> !LessMetadata(g, f)
  }

  ghost predicate TopSeverity(members: seq<Finding>, severity: Severity) {
    && (exists f :: f in members && f.severity == severity)
    && (forall f :: f in members ==> Precedence(f.severity) <= Precedence(severity))
  }

  /** What a group becomes: every location of every member once and in order, the highest severity,
      and the wording of the foremost member that has the first location. */
  ghost predicate IsCombination(members: seq<Finding>, out: Finding) {
    && StrictlySorted(AllLocations(out), LessOccurrence)
    && (forall o :: o in AllLocations(out) <==> Located(members, o))
    && TopSeverity(members, out.severity)
    && exists f :: Leads(members, out, f)
  }

  /** The members of one group, as `Group` collects them. */
  ghost predicate Alike(members: seq<Finding>) {
    && members != []
    && (forall f :: f in members ==> ValidSeverity(f.severity) && Sized(f) && f == Normalized(f))
    && (forall f, g :: f in members && g in members ==> f.fingerprint == g.fingerprint)
  }

  lemma SameLeader(a: seq<Finding>, b: seq<Finding>, x: Finding, y: Finding, f: Finding, g: Finding)
    requires Alike(a) && SameElements(a, b) && x.severity == y.severity && AllLocations(x) == AllLocations(y)
    requires Leads(a, x, f) && Leads(b, y, g)
    ensures x == y
  {
    assert FirstLocation(x) == AllLocations(x)[0] && FirstLocation(y) == AllLocations(y)[0];
    assert x.occurrences == AllLocations(x)[1..] && y.occurrences == AllLocations(y)[1..];
    assert f in b && g in a && f in a;
    LessMetadataLaws(f, g, g);
    NormalizedFacts(f);
    NormalizedFacts(g);
    FingerprintIsIdentity(f, g);
    assert IdentityFields(f)[0] == f.gate && IdentityFields(g)[0] == g.gate;
    assert IdentityFields(f)[1] == f.ruleID && IdentityFields(g)[1] == g.ruleID;
    assert IdentityFields(f)[2] == f.file && IdentityFields(g)[2] == g.file;
  }

  /** A group has one combination, whatever order its members come in. */
  lemma CombinationIsUnique(a: seq<Finding>, b: seq<Finding>, x: Finding, y: Finding)
    requires Alike(a) && SameElements(a, b) && IsCombination(a, x) && IsCombination(b, y)
    ensures x == y
  {
    SameLocations(a, b, x, y);
    SameSeverity(a, b, x, y);
    var f :| Leads(a, x, f);
    var g :| Leads(b, y, g);
    SameLeader(a, b, x, y, f, g);
  }

  lemma SameLocations(a: seq<Finding>, b: seq<Finding>, x: Finding, y: Finding)
    requires SameElements(a, b) && IsCombination(a, x) && IsCombination(b, y)
    ensures AllLocations(x) == AllLocations(y)
  {
    forall o ensures Located(a, o) <==> Located(b, o) { }
    hide Located, Leads, TopSeverity;
    AscendingIsUnique(AllLocations(x), AllLocations(y), LessOccurrence);
  }

  lemma SameSeverity(a: seq<Finding>, b: seq<Finding>, x: Finding, y: Finding)
    requires SameElements(a, b) && TopSeverity(a, x.severity) && TopSeverity(b, y.severity)
    requires forall f :: f in a ==> ValidSeverity(f.severity)
    ensures x.severity == y.severity
  {
    var f :| f in a && f.severity == x.severity;
    var g :| g in b && g.severity == y.severity;
    assert f in b && g in a;
  }

  // ---- combine

  datatype LocatedFinding = LocatedFinding(findingIndex: nat, location: Occurrence)

  predicate LessLocated(a: LocatedFinding, b: LocatedFinding) {
    LessOccurrence(a.location, b.location)
  }

  /** A location is kept for the first finding that has it; every location of the first n findings,
      and the first k of the next one, has been seen. */
  ghost predicate Collected(members: seq<Finding>, locations: seq<LocatedFinding>, n: nat, k: nat) {
    && n <= |members| && (k > 0 ==> n < |members| && k <= |AllLocations(members[n])|)
    && (forall l :: l in locations ==> l.findingIndex < |members| && Owner(members, l))
    && (forall i, j :: 0 <= i < j < |locations| ==> locations[i].location != locations[j].location)
    && (forall i, o :: 0 <= i < n && o in AllLocations(members[i]) ==> Listed(locations, o))
    && (forall j :: 0 <= j < k ==> Listed(locations, AllLocations(members[n])[j]))
  }

  ghost predicate Owner(members: seq<Finding>, l: LocatedFinding)
    requires l.findingIndex < |members|
  {
    && l.location in AllLocations(members[l.findingIndex])
    && forall i :: 0 <= i < l.findingIndex ==> l.location !in AllLocations(members[i])
  }

  ghost predicate Listed(locations: seq<LocatedFinding>, o: Occurrence) {
    exists l :: l in locations && l.location == o
  }

  /** A location that has been seen before is passed over. */
  lemma CollectSeen(members: seq<Finding>, locations: seq<LocatedFinding>, n: nat, k: nat)
    requires Collected(members, locations, n, k) && n < |members| && k < |AllLocations(members[n])|
    requires Listed(locations, AllLocations(members[n])[k])
    ensures Collected(members, locations, n, k + 1)
  {
    hide AllLocations, Owner, Listed;
  }

  /** A new one belongs to the finding that is being read. */
  lemma CollectFresh(members: seq<Finding>, locations: seq<LocatedFinding>, n: nat, k: nat)
    requires Collected(members, locations, n, k) && n < |members| && k < |AllLocations(members[n])|
    requires !Listed(locations, AllLocations(members[n])[k])
    ensures Collected(members, locations + [LocatedFinding(n, AllLocations(members[n])[k])], n, k + 1)
  {
    var l := LocatedFinding(n, AllLocations(members[n])[k]);
    FreshOwner(members, locations, n, k);
    ListedAppend(locations, l);
    FreshLocation(locations, l);
    hide AllLocations, Owner, Listed;
    var now := locations + [l];
    forall x | x in now ensures x.findingIndex < |members| && Owner(members, x) {
      if x != l { assert x in locations; }
    }
  }

  lemma FreshOwner(members: seq<Finding>, locations: seq<LocatedFinding>, n: nat, k: nat)
    requires Collected(members, locations, n, k) && n < |members| && k < |AllLocations(members[n])|
    requires !Listed(locations, AllLocations(members[n])[k])
    ensures Owner(members, LocatedFinding(n, AllLocations(members[n])[k]))
  {
    hide AllLocations, Listed;
    var o := AllLocations(members[n])[k];
    forall i | 0 <= i < n ensures o !in AllLocations(members[i]) {
      assert o in AllLocations(members[i]) ==> Listed(locations, o);
    }
  }

  lemma FreshLocation(locations: seq<LocatedFinding>, l: LocatedFinding)
    requires !Listed(locations, l.location)
    ensures forall i :: 0 <= i < |locations| ==> locations[i].location != l.location
    ensures Listed(locations + [l], l.location)
  {
    assert l in locations + [l];
    forall i | 0 <= i < |locations| ensures locations[i].location != l.location {
      assert locations[i] in locations;
    }
  }

  lemma CollectWhole(members: seq<Finding>, locations: seq<LocatedFinding>, n: nat)
    requires n < |members| && Collected(members, locations, n, |AllLocations(members[n])|)
    ensures Collected(members, locations, n + 1, 0)
  {
    forall o | o in AllLocations(members[n]) ensures Listed(locations, o) {
      var j :| 0 <= j < |AllLocations(members[n])| && AllLocations(members[n])[j] == o;
    }
  }

  lemma NothingCollected(members: seq<Finding>)
    ensures Collected(members, [], 0, 0)
  {
  }

  method CollectLocations(members: seq<Finding>) returns (locations: seq<LocatedFinding>)
    ensures Collected(members, locations, |members|, 0)
  {
    hide AllLocations, Owner;
    locations := [];
    NothingCollected(members);
    hide Collected;
    var seen: set<Occurrence> := {};
    var n := 0;
    while n < |members|
      invariant 0 <= n <= |members| && Collected(members, locations, n, 0)
      invariant forall o :: o in seen <==> Listed(locations, o)
    {
      var all := AllLocations(members[n]);
      var k := 0;
      while k < |all|
        invariant 0 <= k <= |all| && Collected(members, locations, n, k)
        invariant forall o :: o in seen <==> Listed(locations, o)
      {
        if all[k] in seen {
          CollectSeen(members, locations, n, k);
        } else {
          CollectFresh(members, locations, n, k);
          ListedAppend(locations, LocatedFinding(n, all[k]));
          seen := seen + {all[k]};
          locations := locations + [LocatedFinding(n, all[k])];
        }
        k := k + 1;
      }
      CollectWhole(members, locations, n);
      n := n + 1;
    }
  }

  lemma ListedAppend(locations: seq<LocatedFinding>, l: LocatedFinding)
    ensures forall o :: Listed(locations + [l], o) <==> Listed(locations, o) || o == l.location
  {
    forall o ensures Listed(locations + [l], o) <==> Listed(locations, o) || o == l.location {
      if Listed(locations, o) {
        var m :| m in locations && m.location == o;
        assert m in locations + [l];
      }
      assert l in locations + [l];
    }
  }

  function Places(ordered: seq<LocatedFinding>): seq<Occurrence> {
    seq(|ordered|, i requires 0 <= i < |ordered| => ordered[i].location)
  }

  lemma LocatedOrderOn(s: seq<LocatedFinding>)
    ensures StrictWeakOn(s, LessLocated)
  {
  }

  /** The sorted locations, as a list of places: ascending, and all there are. */
  lemma PlacesAscend(members: seq<Finding>, locations: seq<LocatedFinding>, ordered: seq<LocatedFinding>)
    requires Collected(members, locations, |members|, 0)
    requires Sorted(ordered, LessLocated) && multiset(ordered) == multiset(locations)
    ensures StrictlySorted(Places(ordered), LessOccurrence)
    ensures forall o :: o in Places(ordered) <==> Located(members, o)
  {
    hide AllLocations, Owner;
    SamePermutation(ordered, locations);
    DistinctAfterSort(locations, ordered);
    forall o ensures o in Places(ordered) <==> Located(members, o) {
      if o in Places(ordered) {
        var i :| 0 <= i < |ordered| && ordered[i].location == o;
        assert ordered[i] in locations;
        OwnerLocates(members, ordered[i]);
      }
      if Located(members, o) {
        var f :| f in members && o in AllLocations(f);
        var n :| 0 <= n < |members| && members[n] == f;
        assert Listed(locations, o);
        var l :| l in locations && l.location == o;
        assert l in ordered;
        var i :| 0 <= i < |ordered| && ordered[i] == l;
        assert Places(ordered)[i] == o;
      }
    }
  }

  lemma OwnerLocates(members: seq<Finding>, l: LocatedFinding)
    requires l.findingIndex < |members| && Owner(members, l)
    ensures Located(members, l.location)
  {
    assert members[l.findingIndex] in members;
  }

  lemma DistinctAfterSort(locations: seq<LocatedFinding>, ordered: seq<LocatedFinding>)
    requires Sorted(ordered, LessLocated) && multiset(ordered) == multiset(locations)
    requires forall i, j :: 0 <= i < j < |locations| ==> locations[i].location != locations[j].location
    ensures StrictlySorted(Places(ordered), LessOccurrence)
  {
    forall i, j | 0 <= i < j < |ordered| ensures LessOccurrence(ordered[i].location, ordered[j].location) {
      assert !LessLocated(ordered[j], ordered[i]);
      if ordered[i] == ordered[j] {
        TwiceInSeq(ordered, i, j);
        OnceInSeq(locations, ordered[i]);
      } else {
        assert ordered[i] in multiset(ordered) && ordered[j] in multiset(ordered);
        var p :| 0 <= p < |locations| && locations[p] == ordered[i];
        var q :| 0 <= q < |locations| && locations[q] == ordered[j];
        assert p < q || q < p;
      }
    }
  }

  lemma TwiceInSeq<T>(s: seq<T>, i: nat, j: nat)
    requires i < j < |s| && s[i] == s[j]
    ensures multiset(s)[s[i]] >= 2
  {
    assert s == s[..j] + [s[j]] + s[j + 1..];
    assert s[i] in s[..j];
    assert s[i] in multiset(s[..j]);
  }

  lemma {:induction false} OnceInSeq<T>(s: seq<T>, x: T)
    requires forall i, j :: 0 <= i < j < |s| ==> s[i] != s[j]
    ensures multiset(s)[x] <= 1
  {
    if s != [] {
      var n := |s| - 1;
      OnceInSeq(s[..n], x);
      assert s == s[..n] + [s[n]];
      if s[n] == x {
        assert x !in s[..n];
        assert x !in multiset(s[..n]);
      }
    }
  }

  method HighestSeverity(members: seq<Finding>) returns (highest: Severity)
    requires members != []
    ensures TopSeverity(members, highest)
  {
    highest := members[0].severity;
    ghost var top := members[0];
    for i := 1 to |members|
      invariant top in members && top.severity == highest
      invariant forall k :: 0 <= k < i ==> Precedence(members[k].severity) <= Precedence(highest)
    {
      if Precedence(members[i].severity) > Precedence(highest) {
        highest, top := members[i].severity, members[i];
      }
    }
  }

  /** The foremost owner of the first place leads the group. */
  lemma FirstOwnerLeads(members: seq<Finding>, sorted: seq<Finding>, l: LocatedFinding, out: Finding)
    requires SameElements(sorted, members) && Sorted(sorted, LessMetadata)
    requires forall f :: f in members ==> ValidSeverity(f.severity)
    requires l.findingIndex < |sorted| && Owner(sorted, l) && FirstLocation(out) == l.location
    requires out == sorted[l.findingIndex].(line := out.line, endLine := out.endLine,
             severity := out.severity, occurrences := out.occurrences)
    ensures Leads(members, out, sorted[l.findingIndex])
  {
    hide AllLocations;
    var f := sorted[l.findingIndex];
    assert f in sorted;
    forall g | g in members && FirstLocation(out) in AllLocations(g) ensures !LessMetadata(g, f) {
      assert g in sorted;
      var i :| 0 <= i < |sorted| && sorted[i] == g;
      assert i >= l.findingIndex;
      if i == l.findingIndex { LessMetadataLaws(f, f, f); }
    }
  }

  method Combine(members: seq<Finding>) returns (combined: Finding)
    requires members != [] && forall f :: f in members ==> ValidSeverity(f.severity)
    ensures IsCombination(members, combined)
  {
    MetadataOrderOn(members);
    var sorted := Sort(members, LessMetadata);
    var locations := CollectLocations(sorted);
    LocatedOrderOn(locations);
    var ordered := Sort(locations, LessLocated);
    PlacesAscend(sorted, locations, ordered);
    NonemptyPlaces(sorted, locations, ordered);
    var severity := HighestSeverity(sorted);
    var primary := ordered[0];
    var first := primary.location;
    var rest := Places(ordered)[1..];
    combined := sorted[primary.findingIndex].(line := first.line, endLine := first.endLine, severity := severity,
                                              occurrences := rest);
    hide LessMetadata, Collected, Sorted, StrictWeakOn;
    assert AllLocations(combined) == Places(ordered);
    FirstOwnerLeads(members, sorted, primary, combined);
    SortedCombination(members, sorted, combined);
  }

  lemma NonemptyPlaces(members: seq<Finding>, locations: seq<LocatedFinding>, ordered: seq<LocatedFinding>)
    requires members != [] && Collected(members, locations, |members|, 0) && SameElements(ordered, locations)
    ensures ordered != [] && ordered[0].findingIndex < |members| && Owner(members, ordered[0])
  {
    var o := AllLocations(members[0])[0];
    assert o in AllLocations(members[0]);
    assert Listed(locations, o);
    var l :| l in locations && l.location == o;
    assert l in ordered;
    assert ordered[0] in locations;
  }

  lemma SortedCombination(members: seq<Finding>, sorted: seq<Finding>, out: Finding)
    requires SameElements(sorted, members)
    requires StrictlySorted(AllLocations(out), LessOccurrence)
    requires forall o :: o in AllLocations(out) <==> Located(sorted, o)
    requires TopSeverity(sorted, out.severity) && exists f :: Leads(members, out, f)
    ensures IsCombination(members, out)
  {
    hide Leads, StrictlySorted;
    forall o ensures Located(sorted, o) <==> Located(members, o) { }
  }

  // ---- Group

  /** The normalized findings of a fingerprint, in input order. */
  ghost function Members(findings: seq<Finding>, fingerprint: string): seq<Finding> {
    if findings == [] then []
    else
      var n := |findings| - 1;
      var f := Normalized(findings[n]);
      Members(findings[..n], fingerprint) + (if f.fingerprint == fingerprint then [f] else [])
  }

  lemma {:induction false} MembersAre(findings: seq<Finding>, fingerprint: string)
    ensures forall m :: m in Members(findings, fingerprint) <==>
      exists f :: f in findings && Normalized(f) == m && m.fingerprint == fingerprint
  {
    if findings != [] {
      var n := |findings| - 1;
      MembersAre(findings[..n], fingerprint);
      hide Normalized;
      forall m ensures m in Members(findings, fingerprint) <==>
          exists f :: f in findings && Normalized(f) == m && m.fingerprint == fingerprint
      {
        OneMore(findings, m, fingerprint);
      }
    }
  }

  lemma OneMore(findings: seq<Finding>, m: Finding, fingerprint: string)
    requires findings != []
    ensures var n := |findings| - 1;
      (exists f :: f in findings && Normalized(f) == m && m.fingerprint == fingerprint) <==>
      (exists f :: f in findings[..n] && Normalized(f) == m && m.fingerprint == fingerprint)
      || (Normalized(findings[n]) == m && m.fingerprint == fingerprint)
  {
    hide Normalized;
    var n := |findings| - 1;
    assert findings == findings[..n] + [findings[n]];
  }

  ghost predicate Acceptable(findings: seq<Finding>) {
    forall f :: f in findings ==> Valid(f) && Sized(f)
  }

  lemma MembersAlike(findings: seq<Finding>, fingerprint: string)
    requires Acceptable(findings)
    ensures Members(findings, fingerprint) != [] ==> Alike(Members(findings, fingerprint))
  {
    hide Valid, Sized, Normalized, Members, ValidSeverity;
    MembersAre(findings, fingerprint);
    forall m | m in Members(findings, fingerprint)
      ensures ValidSeverity(m.severity) && Sized(m) && m == Normalized(m) && m.fingerprint == fingerprint
    {
      var f :| f in findings && Normalized(f) == m && m.fingerprint == fingerprint;
      NormalizedFacts(f);
      ValidHasSeverity(f);
    }
  }

  lemma ValidHasSeverity(f: Finding)
    requires Valid(f)
    ensures ValidSeverity(f.severity)
  {
  }

  /** What `Group` promises: one finding per fingerprint, each the combination of its members, in report order. */
  ghost predicate IsGrouping(findings: seq<Finding>, grouped: seq<Finding>) {
    && StrictlySorted(grouped, LessFinding)
    && (forall g :: g in grouped ==>
          Members(findings, g.fingerprint) != [] && IsCombination(Members(findings, g.fingerprint), g))
    && (forall f :: f in findings ==> exists g :: g in grouped && g.fingerprint == Normalized(f).fingerprint)
    && (forall g, h :: g in grouped && h in grouped && g.fingerprint == h.fingerprint ==> g == h)
  }

  lemma CombinationKeeps(members: seq<Finding>, g: Finding, fingerprint: string)
    requires members != [] && forall m :: m in members ==> m.fingerprint == fingerprint
    requires IsCombination(members, g)
    ensures g.fingerprint == fingerprint
  {
    var f :| Leads(members, g, f);
  }

  lemma SameMembers(a: seq<Finding>, b: seq<Finding>, fingerprint: string)
    requires SameElements(a, b)
    ensures SameElements(Members(a, fingerprint), Members(b, fingerprint))
  {
    MembersAre(a, fingerprint);
    MembersAre(b, fingerprint);
    hide Normalized, Members;
    forall m | m in Members(a, fingerprint) ensures m in Members(b, fingerprint) {
      var f :| f in a && Normalized(f) == m && m.fingerprint == fingerprint;
      assert f in b;
    }
    forall m | m in Members(b, fingerprint) ensures m in Members(a, fingerprint) {
      var f :| f in b && Normalized(f) == m && m.fingerprint == fingerprint;
      assert f in a;
    }
  }

  lemma GroupedWithin(a: seq<Finding>, b: seq<Finding>, x: seq<Finding>, y: seq<Finding>, g: Finding)
    requires Acceptable(a) && SameElements(a, b) && IsGrouping(a, x) && IsGrouping(b, y) && g in x
    ensures g in y
  {
    hide Valid, Sized, IsCombination, Alike, Acceptable, StrictlySorted, Members, Normalized;
    var fingerprint := g.fingerprint;
    var members := Members(a, fingerprint);
    MembersAre(a, fingerprint);
    SomeElement(members);
    var m :| m in members;
    var f :| f in a && Normalized(f) == m && m.fingerprint == fingerprint;
    assert f in b;
    var h :| h in y && h.fingerprint == fingerprint;
    SameMembers(a, b, fingerprint);
    MembersAlike(a, fingerprint);
    CombinationIsUnique(members, Members(b, fingerprint), g, h);
  }

  lemma SomeElement<T>(s: seq<T>)
    requires s != []
    ensures exists x :: x in s
  {
    assert s[0] in s;
  }

  /** Grouping depends on nothing but which findings there are: neither input order, nor repetition,
      nor the order in which a map is walked, nor how a sort breaks ties. */
  lemma GroupingIsUnique(a: seq<Finding>, b: seq<Finding>, x: seq<Finding>, y: seq<Finding>)
    requires Acceptable(a) && Acceptable(b) && SameElements(a, b) && IsGrouping(a, x) && IsGrouping(b, y)
    ensures x == y
  {
    forall g | g in x ensures g in y { GroupedWithin(a, b, x, y, g); }
    forall g | g in y ensures g in x { GroupedWithin(b, a, y, x, g); }
    forall g, h | g in x && h in x && LessFinding(g, h) ensures !LessFinding(h, g) { LessFindingLaws(g, h, h); }
    hide LessFinding;
    AscendingIsUnique(x, y, LessFinding);
  }

  datatype GroupResult = Grouped(findings: seq<Finding>) | Invalid(index: nat)

  /** The map that the first loop of `Group` fills. */
  ghost predicate Filed(groups: map<string, seq<Finding>>, findings: seq<Finding>) {
    forall p :: (p in groups <==> Members(findings, p) != []) && (p in groups ==> groups[p] == Members(findings, p))
  }

  lemma FileNext(groups: map<string, seq<Finding>>, findings: seq<Finding>, n: nat)
    requires n < |findings| && Filed(groups, findings[..n])
    ensures var p := Normalized(findings[n]).fingerprint;
            Filed(groups[p := (if p in groups then groups[p] else []) + [Normalized(findings[n])]], findings[..n + 1])
  {
    hide Normalized;
    var next := findings[..n + 1];
    assert next[..n] == findings[..n] && next[n] == findings[n];
    forall p ensures Members(next, p) ==
        Members(findings[..n], p) +
        (if Normalized(findings[n]).fingerprint == p then [Normalized(findings[n])] else []) { }
  }

  method FileFindings(findings: seq<Finding>) returns (r: GroupResult, groups: map<string, seq<Finding>>)
    ensures r.Grouped? <==> forall f :: f in findings ==> Valid(f)
    ensures r.Grouped? ==> Filed(groups, findings)
    ensures r.Invalid? ==> r.index < |findings| && !Valid(findings[r.index])
    ensures r.Invalid? ==> forall k :: 0 <= k < r.index ==> Valid(findings[k])
  {
    hide Valid, Members, Normalized;
    groups := map[];
    EmptyFiled();
    var i := 0;
    while i < |findings|
      invariant 0 <= i <= |findings| && Filed(groups, findings[..i])
      invariant forall k :: 0 <= k < i ==> Valid(findings[k])
    {
      if !Valid(findings[i]) {
        return Invalid(i), groups;
      }
      FileNext(groups, findings, i);
      var copied := Normalized(findings[i]);
      var p := copied.fingerprint;
      groups := groups[p := (if p in groups then groups[p] else []) + [copied]];
      i := i + 1;
    }
    assert findings[..|findings|] == findings;
    return Grouped([]), groups;
  }

  lemma EmptyFiled()
    ensures forall findings: seq<Finding> :: findings == [] ==> Filed(map[], findings)
  {
  }

  /** One combination for each fingerprint of `done`, and no other. */
  ghost predicate Combined(findings: seq<Finding>, grouped: seq<Finding>, done: set<string>) {
    && (forall g :: g in grouped ==> g.fingerprint in done && IsCombination(Members(findings, g.fingerprint), g))
    && (forall p :: p in done ==> exists g :: g in grouped && g.fingerprint == p)
    && (forall i, j :: 0 <= i < j < |grouped| ==> grouped[i].fingerprint != grouped[j].fingerprint)
  }

  lemma CombineNext(findings: seq<Finding>, grouped: seq<Finding>, done: set<string>, g: Finding)
    requires Combined(findings, grouped, done) && g.fingerprint !in done
    requires IsCombination(Members(findings, g.fingerprint), g)
    ensures Combined(findings, grouped + [g], done + {g.fingerprint})
  {
    hide IsCombination, Members;
    forall p | p in done + {g.fingerprint} ensures exists h :: h in grouped + [g] && h.fingerprint == p {
      if p in done {
        var h :| h in grouped && h.fingerprint == p;
        assert h in grouped + [g];
      } else {
        assert g in grouped + [g];
      }
    }
    forall i | 0 <= i < |grouped| ensures grouped[i].fingerprint != g.fingerprint { assert grouped[i] in grouped; }
  }

  /** The map is walked in no particular order. */
  method CombineGroups(findings: seq<Finding>, groups: map<string, seq<Finding>>) returns (grouped: seq<Finding>)
    requires Acceptable(findings) && Filed(groups, findings)
    ensures Combined(findings, grouped, groups.Keys)
  {
    hide Members, Valid, IsCombination, Sized, LessFinding, Alike, Acceptable;
    grouped := [];
    var rest := groups.Keys;
    while rest != {}
      invariant rest <= groups.Keys && Combined(findings, grouped, groups.Keys - rest)
      decreases rest
    {
      var p :| p in rest;
      MembersAlike(findings, p);
      AlikeFacts(Members(findings, p));
      MembersAre(findings, p);
      var g := Combine(groups[p]);
      CombinationKeeps(groups[p], g, p);
      CombineNext(findings, grouped, groups.Keys - rest, g);
      assert groups.Keys - rest + {p} == groups.Keys - (rest - {p});
      grouped := grouped + [g];
      rest := rest - {p};
    }
    assert groups.Keys - {} == groups.Keys;
  }

  lemma AlikeFacts(members: seq<Finding>)
    requires Alike(members)
    ensures members != [] && forall f :: f in members ==> ValidSeverity(f.severity)
  {
  }

  lemma SortedGrouping(findings: seq<Finding>, groups: map<string, seq<Finding>>, grouped: seq<Finding>,
                       sorted: seq<Finding>)
    requires Filed(groups, findings) && Combined(findings, grouped, groups.Keys)
    requires Sorted(sorted, LessFinding) && multiset(sorted) == multiset(grouped)
    ensures IsGrouping(findings, sorted)
  {
    hide Members, IsCombination, Normalized, LessFinding;
    SamePermutation(sorted, grouped);
    forall i, j | 0 <= i < j < |sorted| ensures LessFinding(sorted[i], sorted[j]) {
      SortedApart(grouped, sorted, i, j);
      LessFindingLaws(sorted[i], sorted[j], sorted[j]);
    }
    forall f | f in findings ensures exists g :: g in sorted && g.fingerprint == Normalized(f).fingerprint {
      var p := Normalized(f).fingerprint;
      MembersAre(findings, p);
      assert Normalized(f) in Members(findings, p);
      assert p in groups;
      var g :| g in grouped && g.fingerprint == p;
      assert g in sorted;
    }
    forall g, h | g in sorted && h in sorted && g.fingerprint == h.fingerprint ensures g == h {
      var i :| 0 <= i < |grouped| && grouped[i] == g;
      var j :| 0 <= j < |grouped| && grouped[j] == h;
    }
  }

  lemma SortedApart(grouped: seq<Finding>, sorted: seq<Finding>, i: nat, j: nat)
    requires multiset(sorted) == multiset(grouped) && i < j < |sorted|
    requires forall i, j :: 0 <= i < j < |grouped| ==> grouped[i].fingerprint != grouped[j].fingerprint
    ensures sorted[i].fingerprint != sorted[j].fingerprint
  {
    if sorted[i] == sorted[j] {
      TwiceInSeq(sorted, i, j);
      OnceInSeq(grouped, sorted[i]);
    } else {
      assert sorted[i] in multiset(sorted) && sorted[j] in multiset(sorted);
      var p :| 0 <= p < |grouped| && grouped[p] == sorted[i];
      var q :| 0 <= q < |grouped| && grouped[q] == sorted[j];
      assert p < q || q < p;
    }
  }

  /** The answer of `Group`: the grouping, or the first finding that is not valid. */
  ghost predicate GroupAnswers(findings: seq<Finding>, r: GroupResult) {
    && (r.Grouped? <==> forall f :: f in findings ==> Valid(f))
    && (r.Grouped? ==> IsGrouping(findings, r.findings))
    && (r.Invalid? ==>
          r.index < |findings| && !Valid(findings[r.index]) && forall k :: 0 <= k < r.index ==> Valid(findings[k]))
  }

  /** Combines findings with the same fingerprint and orders them for reports. */
  method Group(findings: seq<Finding>) returns (r: GroupResult)
    requires forall f :: f in findings ==> Sized(f)
    ensures GroupAnswers(findings, r)
  {
    hide Valid, Filed, Combined, IsGrouping, Sized;
    var groups;
    r, groups := FileFindings(findings);
    if r.Invalid? {
      return;
    }
    var grouped := CombineGroups(findings, groups);
    FindingOrderOn(grouped);
    var sorted := Sort(grouped, LessFinding);
    SortedGrouping(findings, groups, grouped, sorted);
    return Grouped(sorted);
  }

  // ---- what grouping conserves

  lemma ReportedWasThere(findings: seq<Finding>, grouped: seq<Finding>, g: Finding, o: Occurrence) returns (f: Finding)
    requires IsGrouping(findings, grouped) && g in grouped && o in AllLocations(g)
    ensures f in findings && Fingerprint(f) == g.fingerprint && o in AllLocations(f)
  {
    hide AllLocations, LessFinding, Leads, TopSeverity, StrictlySorted, Members, Fingerprint, Normalized;
    MembersAre(findings, g.fingerprint);
    assert Located(Members(findings, g.fingerprint), o);
    var m :| m in Members(findings, g.fingerprint) && o in AllLocations(m);
    f :| f in findings && Normalized(f) == m && m.fingerprint == g.fingerprint;
    NormalizedFacts(f);
    NormalizedLocations(f);
  }

  lemma ThereIsReported(findings: seq<Finding>, grouped: seq<Finding>, f: Finding, o: Occurrence) returns (g: Finding)
    requires IsGrouping(findings, grouped) && f in findings && o in AllLocations(f)
    ensures g in grouped && g.fingerprint == Fingerprint(f) && o in AllLocations(g)
  {
    hide AllLocations, LessFinding, Leads, TopSeverity, StrictlySorted, Members, Fingerprint, Normalized;
    NormalizedFacts(f);
    NormalizedLocations(f);
    MembersAre(findings, Fingerprint(f));
    assert Normalized(f) in Members(findings, Fingerprint(f));
    assert Located(Members(findings, Fingerprint(f)), o);
    g :| g in grouped && g.fingerprint == Normalized(f).fingerprint;
  }

  /** Every location of every finding is reported, under its fingerprint, and nothing else is. */
  lemma GroupingConservesLocations(findings: seq<Finding>, grouped: seq<Finding>, p: string, o: Occurrence)
    requires IsGrouping(findings, grouped)
    ensures (exists g :: g in grouped && g.fingerprint == p && o in AllLocations(g)) <==>
            (exists f :: f in findings && Fingerprint(f) == p && o in AllLocations(f))
  {
    hide AllLocations, IsGrouping, Fingerprint;
    if exists g :: g in grouped && g.fingerprint == p && o in AllLocations(g) {
      var g :| g in grouped && g.fingerprint == p && o in AllLocations(g);
      var f := ReportedWasThere(findings, grouped, g, o);
    }
    if exists f :: f in findings && Fingerprint(f) == p && o in AllLocations(f) {
      var f :| f in findings && Fingerprint(f) == p && o in AllLocations(f);
      var g := ThereIsReported(findings, grouped, f, o);
    }
  }

  lemma NormalizedLocations(f: Finding)
    ensures AllLocations(Normalized(f)) == AllLocations(f)
  {
  }

  /** A finding that `Group` leaves as it is. */
  ghost predicate Canonical(f: Finding) {
    f == Normalized(f) && StrictlySorted(AllLocations(f), LessOccurrence)
  }

  lemma {:induction false} CanonicalIsOwnCombination(f: Finding)
    requires Canonical(f)
    ensures IsCombination([f], f)
  {
    hide Normalized;
    assert f in [f];
    forall o ensures o in AllLocations(f) <==> Located([f], o) { }
    LessIrreflexive(f.language);
    LessIrreflexive(f.message);
    assert FirstLocation(f) == AllLocations(f)[0];
    assert Leads([f], f, f);
  }

  lemma {:induction false} SoleMember(findings: seq<Finding>, f: Finding)
    requires f in findings && forall g :: g in findings ==> g == Normalized(g)
    requires forall i, j :: 0 <= i < j < |findings| ==> findings[i].fingerprint != findings[j].fingerprint
    ensures Members(findings, f.fingerprint) == [f]
  {
    hide Normalized;
    var n := |findings| - 1;
    assert findings[n] in findings;
    forall g | g in findings[..n] ensures g == Normalized(g) { assert g in findings; }
    if f == findings[n] {
      NoMember(findings[..n], f.fingerprint);
    } else {
      assert f in findings[..n];
      SoleMember(findings[..n], f);
    }
  }

  lemma {:induction false} NoMember(findings: seq<Finding>, p: string)
    requires forall g :: g in findings ==> g == Normalized(g) && g.fingerprint != p
    ensures Members(findings, p) == []
  {
    hide Normalized;
    if findings != [] {
      var n := |findings| - 1;
      assert findings[n] in findings;
      forall g | g in findings[..n] ensures g == Normalized(g) && g.fingerprint != p { assert g in findings; }
      NoMember(findings[..n], p);
    }
  }

  lemma OwnCombination(findings: seq<Finding>, g: Finding)
    requires g in findings && forall f :: f in findings ==> Canonical(f)
    requires forall i, j :: 0 <= i < j < |findings| ==> findings[i].fingerprint != findings[j].fingerprint
    ensures Members(findings, g.fingerprint) == [g] && IsCombination([g], g)
    ensures g.fingerprint == Normalized(g).fingerprint
  {
    hide Members, IsCombination, Normalized, StrictlySorted;
    SoleMember(findings, g);
    CanonicalIsOwnCombination(g);
  }

  /** A list is its own grouping if it is in report order and each finding is canonical and alone. */
  lemma GroupingFixpoint(findings: seq<Finding>)
    requires StrictlySorted(findings, LessFinding) && forall f :: f in findings ==> Canonical(f)
    requires forall i, j :: 0 <= i < j < |findings| ==> findings[i].fingerprint != findings[j].fingerprint
    ensures IsGrouping(findings, findings)
  {
    hide StrictlySorted, Members, IsCombination, Normalized, LessFinding, Canonical;
    forall g | g in findings
      ensures Members(findings, g.fingerprint) == [g] && IsCombination([g], g)
      ensures g.fingerprint == Normalized(g).fingerprint
    {
      OwnCombination(findings, g);
    }
    forall g, h | g in findings && h in findings && g.fingerprint == h.fingerprint ensures g == h {
      SameFingerprintSame(findings, g, h);
    }
  }

  lemma SameFingerprintSame(findings: seq<Finding>, g: Finding, h: Finding)
    requires forall i, j :: 0 <= i < j < |findings| ==> findings[i].fingerprint != findings[j].fingerprint
    requires g in findings && h in findings && g.fingerprint == h.fingerprint
    ensures g == h
  {
    var i :| 0 <= i < |findings| && findings[i] == g;
    var j :| 0 <= j < |findings| && findings[j] == h;
  }

  lemma CombinationIsCanonical(members: seq<Finding>, g: Finding)
    requires Alike(members) && IsCombination(members, g)
    ensures Canonical(g)
  {
    hide StrictlySorted, Located, TopSeverity;
    var f :| Leads(members, g, f);
    assert f == Normalized(f);
    assert IdentityFields(g) == IdentityFields(f);
  }

  /** A grouping is a grouping of itself. */
  lemma GroupingOfGrouping(findings: seq<Finding>, grouped: seq<Finding>)
    requires Acceptable(findings) && IsGrouping(findings, grouped)
    ensures IsGrouping(grouped, grouped)
  {
    hide Members, IsCombination, Canonical, Normalized, LessFinding, Alike;
    forall g | g in grouped ensures Canonical(g) {
      MembersAlike(findings, g.fingerprint);
      CombinationIsCanonical(Members(findings, g.fingerprint), g);
    }
    forall i, j | 0 <= i < j < |grouped| ensures grouped[i].fingerprint != grouped[j].fingerprint {
      assert grouped[i] in grouped && grouped[j] in grouped;
      assert LessFinding(grouped[i], grouped[j]);
      LessFindingLaws(grouped[i], grouped[i], grouped[i]);
    }
    GroupingFixpoint(grouped);
  }
}
