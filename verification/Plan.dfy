/** Fix plans: waves of batches, their identities, and the blockers they stand for
    (internal/flywheel/plan.go, internal/flywheel/brief.go:52-73). */
module Plan {
  import opened Text
  import opened Sorting
  import opened Findings

  datatype BatchStatus = Pending | Running | Done | Stuck

  datatype AttemptStatus = AttemptRunning | AttemptPassed | AttemptFailed

  datatype Attempt = Attempt(number: int, status: AttemptStatus, failure: string, changedFiles: seq<string>,
                             commit: string)

  datatype Batch = Batch(
    id: string, primaryFile: string, findings: seq<Finding>, status: BatchStatus, attempts: seq<Attempt>,
    waveDigest: string, identityProof: string)

  datatype Plan = Plan(schemaVersion: int, batches: seq<Batch>)

  /** Go's zero value: no plan yet. */
  const NO_PLAN := Plan(0, [])

  // ---- canonical findings

  ghost predicate DistinctFingerprints(findings: seq<Finding>) {
    forall i, j :: 0 <= i < j < |findings| ==> findings[i].fingerprint != findings[j].fingerprint
  }

  /** Findings as `Group` leaves them, each fingerprint once; the order does not matter. */
  ghost predicate CanonicalList(findings: seq<Finding>) {
    && (forall f :: f in findings ==> f.fingerprint != "" && Valid(f) && Canonical(f))
    && DistinctFingerprints(findings)
  }

  ghost predicate AllSized(findings: seq<Finding>) {
    forall f :: f in findings ==> Sized(f)
  }

  /** `ordered` lists the findings in report order. */
  ghost predicate Ordering(findings: seq<Finding>, ordered: seq<Finding>) {
    StrictlySorted(ordered, LessFinding) && multiset(ordered) == multiset(findings)
  }

  lemma OneGrouping(f: Finding, grouped: seq<Finding>)
    requires Valid(f) && Sized(f) && IsGrouping([f], grouped)
    ensures grouped == [f] <==> Canonical(f)
  {
    hide Valid, Sized, LessFinding, IsCombination, Members, Normalized, Alike, IsGrouping, Canonical;
    if Canonical(f) {
      assert StrictlySorted([f], LessFinding);
      GroupingFixpoint([f]);
      GroupingIsUnique([f], [f], grouped, [f]);
    }
    if grouped == [f] {
      assert f in grouped;
      GroupedIsCombined([f], grouped, f);
      MembersAlike([f], f.fingerprint);
      CombinationIsCanonical(Members([f], f.fingerprint), f);
    }
  }

  lemma GroupedIsCombined(findings: seq<Finding>, grouped: seq<Finding>, g: Finding)
    requires IsGrouping(findings, grouped) && g in grouped
    ensures Members(findings, g.fingerprint) != [] && IsCombination(Members(findings, g.fingerprint), g)
  {
    hide Members, IsCombination, StrictlySorted;
  }

  /** Whether one finding is already as `Group` would leave it. */
  method IsCanonical(f: Finding) returns (canonical: bool)
    requires Sized(f)
    ensures canonical <==> f.fingerprint != "" && Valid(f) && Canonical(f)
  {
    if f.fingerprint == "" {
      return false;
    }
    hide Valid, Canonical, IsGrouping, Sized;
    var grouped := Group([f]);
    if grouped.Invalid? {
      return false;
    }
    assert f in [f];
    OneGrouping(f, grouped.findings);
    return grouped.findings == [f];
  }

  method CanonicalFindings(findings: seq<Finding>) returns (ok: bool, ordered: seq<Finding>)
    requires AllSized(findings)
    ensures ok <==> CanonicalList(findings)
    ensures ok ==> Ordering(findings, ordered)
  {
    hide Valid, Canonical, Sized, LessFinding;
    ordered := [];
    var seen: set<string> := {};
    var i := 0;
    while i < |findings|
      invariant 0 <= i <= |findings|
      invariant forall k :: 0 <= k < i ==> findings[k].fingerprint != "" && Valid(findings[k]) && Canonical(findings[k])
      invariant DistinctFingerprints(findings[..i])
      invariant forall p :: p in seen <==> exists k :: 0 <= k < i && findings[k].fingerprint == p
    {
      assert findings[i] in findings;
      var canonical := IsCanonical(findings[i]);
      if !canonical || findings[i].fingerprint in seen {
        return false, ordered;
      }
      seen := seen + {findings[i].fingerprint};
      i := i + 1;
    }
    assert findings[..i] == findings;
    FindingOrderOn(findings);
    ordered := Sort(findings, LessFinding);
    OrderingOf(findings, ordered);
    return true, ordered;
  }

  lemma OrderingOf(findings: seq<Finding>, sorted: seq<Finding>)
    requires DistinctFingerprints(findings)
    requires Sorted(sorted, LessFinding) && multiset(sorted) == multiset(findings)
    ensures Ordering(findings, sorted)
  {
    hide LessFinding;
    forall i, j | 0 <= i < j < |sorted| ensures LessFinding(sorted[i], sorted[j]) {
      SortedApart(findings, sorted, i, j);
      LessFindingLaws(sorted[i], sorted[j], sorted[j]);
    }
  }

  lemma OrderingIsUnique(findings: seq<Finding>, a: seq<Finding>, b: seq<Finding>)
    requires Ordering(findings, a) && Ordering(findings, b)
    ensures a == b
  {
    SamePermutation(a, b);
    forall x, y | x in a && y in a && LessFinding(x, y) ensures !LessFinding(y, x) { LessFindingLaws(x, y, y); }
    hide LessFinding;
    AscendingIsUnique(a, b, LessFinding);
  }

  lemma OrderingKeepsList(findings: seq<Finding>, ordered: seq<Finding>)
    requires CanonicalList(findings) && Ordering(findings, ordered)
    ensures CanonicalList(ordered) && SameElements(ordered, findings)
    ensures AllSized(findings) ==> AllSized(ordered)
  {
    hide Valid, Canonical, Sized, LessFinding;
    SamePermutation(ordered, findings);
    forall i, j | 0 <= i < j < |ordered| ensures ordered[i].fingerprint != ordered[j].fingerprint {
      SortedApart(findings, ordered, i, j);
    }
  }

  // ---- blockers

  function Times(p: string, n: nat): multiset<string> {
    multiset{}[p := n]
  }

  /** Every blocking occurrence, under its fingerprint. */
  function Bag(findings: seq<Finding>): multiset<string> {
    if findings == [] then multiset{}
    else
      var n := |findings| - 1;
      Bag(findings[..n]) + Times(findings[n].fingerprint, 1 + |findings[n].occurrences|)
  }

  /** A Go map of counts, read as a multiset. */
  ghost predicate Counts(counts: map<string, int>, bag: multiset<string>) {
    forall p :: (p in counts <==> p in bag) && (p in counts ==> counts[p] == bag[p])
  }

  lemma {:induction false} BagHas(findings: seq<Finding>, f: Finding)
    requires f in findings
    ensures Times(f.fingerprint, 1 + |f.occurrences|) <= Bag(findings) && f.fingerprint in Bag(findings)
  {
    var n := |findings| - 1;
    if f != findings[n] {
      assert f in findings[..n];
      BagHas(findings[..n], f);
    }
  }

  lemma BagLast(findings: seq<Finding>)
    requires findings != []
    ensures var n := |findings| - 1;
            Bag(findings) == Bag(findings[..n]) + Times(findings[n].fingerprint, 1 + |findings[n].occurrences|)
  {
  }

  lemma {:induction false} BagConcat(a: seq<Finding>, b: seq<Finding>)
    ensures Bag(a + b) == Bag(a) + Bag(b)
  {
    if b == [] {
      assert a + b == a;
    } else {
      var n := |b| - 1;
      var c := a + b;
      assert c[..|c| - 1] == a + b[..n] && c[|c| - 1] == b[n];
      BagLast(c);
      BagLast(b);
      hide Bag, Times;
      BagConcat(a, b[..n]);
    }
  }

  lemma BagWithout(b: seq<Finding>, i: nat)
    requires i < |b|
    ensures Bag(b) == Bag(b[..i] + b[i + 1..]) + Bag([b[i]])
  {
    hide Bag;
    assert b == b[..i] + ([b[i]] + b[i + 1..]);
    BagConcat(b[..i], b[i + 1..]);
    BagConcat(b[..i], [b[i]] + b[i + 1..]);
    BagConcat([b[i]], b[i + 1..]);
  }

  lemma BagFirst(a: seq<Finding>)
    requires a != []
    ensures Bag(a) == Bag(a[1..]) + Bag([a[0]])
  {
    hide Bag;
    assert a == [a[0]] + a[1..];
    BagConcat([a[0]], a[1..]);
  }

  lemma {:induction false} BagOfPermutation(a: seq<Finding>, b: seq<Finding>)
    requires multiset(a) == multiset(b)
    ensures Bag(a) == Bag(b)
  {
    if a == [] {
      assert |multiset(b)| == 0;
    } else {
      hide Bag, Times;
      var i := FindIn(a, b);
      var rest := b[..i] + b[i + 1..];
      BagOfPermutation(a[1..], rest);
      BagFirst(a);
      BagWithout(b, i);
    }
  }

  /** Where the head of a list went in a permutation of it. */
  lemma FindIn<T>(a: seq<T>, b: seq<T>) returns (i: nat)
    requires multiset(a) == multiset(b) && a != []
    ensures i < |b| && b[i] == a[0] && multiset(a[1..]) == multiset(b[..i] + b[i + 1..])
  {
    assert a[0] in multiset(b);
    i :| 0 <= i < |b| && b[i] == a[0];
    TailOf(a);
    RemovedFrom(b, i);
  }

  lemma TailOf<T>(s: seq<T>)
    requires s != []
    ensures multiset(s[1..]) == multiset(s) - multiset{s[0]}
  {
    assert s == [s[0]] + s[1..];
  }

  lemma RemovedFrom<T>(s: seq<T>, i: nat)
    requires i < |s|
    ensures multiset(s[..i] + s[i + 1..]) == multiset(s) - multiset{s[i]}
  {
    assert s == s[..i] + [s[i]] + s[i + 1..];
  }

  lemma BagOfOne(f: Finding)
    ensures Bag([f]) == Times(f.fingerprint, 1 + |f.occurrences|)
  {
    assert [f][..0] == [];
  }

  lemma CountsNext(counts: map<string, int>, ordered: seq<Finding>, i: nat)
    requires i < |ordered| && Counts(counts, Bag(ordered[..i]))
    ensures var p, n := ordered[i].fingerprint, 1 + |ordered[i].occurrences|;
            Counts(counts[p := (if p in counts then counts[p] else 0) + n], Bag(ordered[..i + 1]))
  {
    assert ordered[..i + 1][..i] == ordered[..i];
    BagLast(ordered[..i + 1]);
    hide Bag;
  }

  method BlockingMultiset(findings: seq<Finding>) returns (ok: bool, counts: map<string, int>)
    requires AllSized(findings)
    ensures ok <==> CanonicalList(findings)
    ensures ok ==> Counts(counts, Bag(findings))
  {
    hide CanonicalList, AllSized, LessFinding, StrictlySorted;
    counts := map[];
    var ordered;
    ok, ordered := CanonicalFindings(findings);
    if !ok {
      return;
    }
    BagOfPermutation(ordered, findings);
    counts := CountOccurrences(ordered);
  }

  lemma NothingCounts()
    ensures Counts(map[], Bag([]))
  {
  }

  method CountOccurrences(ordered: seq<Finding>) returns (counts: map<string, int>)
    ensures Counts(counts, Bag(ordered))
  {
    hide Bag, Times, Counts;
    counts := map[];
    NothingCounts();
    var i := 0;
    assert ordered[..i] == [];
    while i < |ordered|
      invariant 0 <= i <= |ordered| && Counts(counts, Bag(ordered[..i]))
    {
      var p, n := ordered[i].fingerprint, 1 + |ordered[i].occurrences|;
      CountsNext(counts, ordered, i);
      counts := counts[p := (if p in counts then counts[p] else 0) + n];
      i := i + 1;
    }
    assert ordered[..i] == ordered;
  }

  function Count(counts: map<string, int>, p: string): int {
    if p in counts then counts[p] else 0
  }

  /** Whether `after` is a strict multiset subset of `before`; both maps are walked in no particular order. */
  method StrictlyShrinks(after: map<string, int>, before: map<string, int>, ghost a: multiset<string>,
                         ghost b: multiset<string>)
    returns (shrinks: bool)
    requires Counts(after, a) && Counts(before, b)
    ensures shrinks <==> a < b
  {
    var strict := false;
    var rest := after.Keys;
    while rest != {}
      invariant rest <= after.Keys
      invariant forall p :: p in after && p !in rest ==> a[p] <= b[p]
      invariant strict <==> exists p :: p in after && p !in rest && a[p] < b[p]
      decreases rest
    {
      var p :| p in rest;
      var count := after[p];
      if count <= 0 || count > Count(before, p) {
        assert a[p] > b[p];
        return false;
      }
      if count < Count(before, p) {
        strict := true;
      }
      rest := rest - {p};
    }
    assert a <= b;
    rest := before.Keys;
    while rest != {}
      invariant rest <= before.Keys
      invariant strict <==>
        (exists p :: p in after && a[p] < b[p]) || (exists p :: p in before && p !in rest && p !in after)
      decreases rest
    {
      var p :| p in rest;
      assert before[p] == b[p];
      if before[p] <= 0 {
        return false;
      }
      if p !in after {
        strict := true;
      }
      rest := rest - {p};
    }
    StrictWitness(after, before, a, b, strict);
    return strict;
  }

  lemma StrictWitness(after: map<string, int>, before: map<string, int>, a: multiset<string>, b: multiset<string>,
                      strict: bool)
    requires Counts(after, a) && Counts(before, b) && a <= b
    requires strict <==> (exists p :: p in after && a[p] < b[p]) || (exists p :: p in before && p !in after)
    ensures strict <==> a < b
  {
    if !strict {
      forall p ensures a[p] == b[p] {
        if p in b { assert p in before; }
      }
      assert a == b;
    }
    if strict {
      if exists p :: p in after && a[p] < b[p] {
      } else {
        var p :| p in before && p !in after;
        assert a[p] == 0 && b[p] > 0;
      }
    }
  }

  /** `multisetSubset` of the attempt validator (internal/flywheel/validate.go:272-279). */
  method MultisetSubset(candidate: map<string, int>, baseline: map<string, int>, ghost c: multiset<string>,
                        ghost b: multiset<string>)
    returns (subset: bool)
    requires Counts(candidate, c) && Counts(baseline, b)
    ensures subset <==> c <= b
  {
    var rest := candidate.Keys;
    while rest != {}
      invariant rest <= candidate.Keys
      invariant forall p :: p in candidate && p !in rest ==> c[p] <= b[p]
      decreases rest
    {
      var p :| p in rest;
      if candidate[p] <= 0 || candidate[p] > Count(baseline, p) {
        assert c[p] > b[p];
        return false;
      }
      rest := rest - {p};
    }
    assert c <= b;
    return true;
  }

  lemma ShrinkingIsSmaller(a: multiset<string>, b: multiset<string>)
    requires a < b
    ensures |a| < |b|
  {
    assert b == a + (b - a);
    assert |b| == |a| + |b - a|;
    assert b - a != multiset{};
  }

  // ---- identities

  /** One blocker as the wave digest sees it. */
  function BlockerBytes(f: Finding): string {
    Field(f.fingerprint) + Word(1 + |f.occurrences|)
  }

  function WaveBytes(ordered: seq<Finding>): (bytes: string)
    ensures bytes == "" <==> ordered == []
  {
    if ordered == [] then "" else BlockerBytes(ordered[0]) + WaveBytes(ordered[1..])
  }

  function WaveDigest(ordered: seq<Finding>): string {
    Sha256("togi/fix-wave-identity/v1\0" + WaveBytes(ordered))
  }

  function BatchID(primaryFile: string, waveDigest: string): string {
    "batch-" + Sha256("togi/fix-batch-identity/v1\0" + Field(primaryFile) + Field(waveDigest))
  }

  /** `writeInt`: a Go int as eight bytes, negative numbers in two's complement. */
  function IntBytes(n: int): string {
    Word(n % WORD)
  }

  function SeverityText(s: Severity): string {
    match s
    case Error => "error"
    case Warning => "warning"
    case Info => "info"
    case Unknown(name) => name
  }

  function FindingTexts(f: Finding): seq<string> {
    [f.gate, f.language, f.ruleID, SeverityText(f.severity), f.file, f.snippet, f.message, f.fingerprint]
  }

  function OccurrencesBytes(os: seq<Occurrence>): string {
    if os == [] then "" else IntBytes(os[0].line) + IntBytes(os[0].endLine) + OccurrencesBytes(os[1..])
  }

  function FindingBytes(f: Finding): string {
    FieldsOf(FindingTexts(f)) + IntBytes(f.line) + IntBytes(f.endLine) + IntBytes(|f.occurrences|) +
    OccurrencesBytes(f.occurrences)
  }

  function FindingsBytes(findings: seq<Finding>): string {
    if findings == [] then "" else FindingBytes(findings[0]) + FindingsBytes(findings[1..])
  }

  function IdentityProof(id: string, primaryFile: string, waveDigest: string, findings: seq<Finding>): string {
    Sha256("togi/validated-fix-batch/v1\0" + FieldsOf([id, primaryFile, waveDigest]) +
           IntBytes(|findings|) + FindingsBytes(findings))
  }

  const MAX_LENGTH := 0x7FFF_FFFF_FFFF_FFFE

  /** A Go int, positive or not. */
  predicate IsInt(n: int) {
    -WORD <= 2 * n < WORD
  }

  /** The string of an unknown severity is none of the known ones. */
  predicate OwnSeverity(s: Severity) {
    s.Unknown? ==> s.name != "error" && s.name != "warning" && s.name != "info"
  }

  /** The finding can be held in Go's types; it need not be valid. */
  ghost predicate InGo(f: Finding) {
    && (forall s :: s in FindingTexts(f) ==> Fits(s))
    && IsInt(f.line) && IsInt(f.endLine) && |f.occurrences| <= MAX_LENGTH && OwnSeverity(f.severity)
    && forall o :: o in f.occurrences ==> IsInt(o.line) && IsInt(o.endLine)
  }

  ghost predicate AllInGo(findings: seq<Finding>) {
    |findings| <= MAX_LENGTH && forall f :: f in findings ==> InGo(f)
  }

  lemma IntDecodes(a: int, x: string, b: int, y: string)
    requires IsInt(a) && IsInt(b) && IntBytes(a) + x == IntBytes(b) + y
    ensures a == b && x == y
  {
    hide Word;
    TwosComplement(a);
    TwosComplement(b);
    WordDecodes(a % WORD, x, b % WORD, y);
  }

  lemma TwosComplement(n: int)
    requires IsInt(n)
    ensures n % WORD == if n < 0 then n + WORD else n
  {
  }

  lemma SameAfterPrefix(prefix: string, x: string, y: string)
    requires prefix + x == prefix + y
    ensures x == y
  {
    assert x == (prefix + x)[|prefix|..] && y == (prefix + y)[|prefix|..];
  }

  /** The bytes behind a wave digest determine the blockers, one by one. */
  lemma {:induction false} WaveDecodes(a: seq<Finding>, b: seq<Finding>)
    requires (forall f :: f in a ==> InGo(f)) && (forall f :: f in b ==> InGo(f))
    requires WaveBytes(a) == WaveBytes(b)
    ensures Bag(a) == Bag(b)
  {
    hide BlockerBytes, Bag, Times, InGo;
    if a != [] && b != [] {
      var f, g := a[0], b[0];
      assert f in a && g in b;
      FingerprintFits(f);
      FingerprintFits(g);
      BlockerDecodes(f, WaveBytes(a[1..]), g, WaveBytes(b[1..]));
      assert (forall f :: f in a[1..] ==> f in a) && (forall f :: f in b[1..] ==> f in b);
      WaveDecodes(a[1..], b[1..]);
      assert a == [f] + a[1..] && b == [g] + b[1..];
      BagConcat([f], a[1..]);
      BagConcat([g], b[1..]);
      BagOfOne(f);
      BagOfOne(g);
    }
  }

  lemma FingerprintFits(f: Finding)
    requires InGo(f)
    ensures Fits(f.fingerprint) && 1 + |f.occurrences| < WORD
  {
    assert FindingTexts(f)[7] == f.fingerprint;
  }

  lemma BlockerDecodes(f: Finding, x: string, g: Finding, y: string)
    requires Fits(f.fingerprint) && Fits(g.fingerprint) && 1 + |f.occurrences| < WORD && 1 + |g.occurrences| < WORD
    requires BlockerBytes(f) + x == BlockerBytes(g) + y
    ensures f.fingerprint == g.fingerprint && |f.occurrences| == |g.occurrences| && x == y
  {
    var u, v := Word(1 + |f.occurrences|) + x, Word(1 + |g.occurrences|) + y;
    assert BlockerBytes(f) + x == Field(f.fingerprint) + u && BlockerBytes(g) + y == Field(g.fingerprint) + v;
    FieldDecodes(f.fingerprint, u, g.fingerprint, v);
    WordDecodes(1 + |f.occurrences|, x, 1 + |g.occurrences|, y);
  }

  /** Waves with different blockers have different digests. */
  lemma DigestDecidesBlockers(a: seq<Finding>, b: seq<Finding>)
    requires AllInGo(a) && AllInGo(b) && WaveDigest(a) == WaveDigest(b)
    ensures Bag(a) == Bag(b)
  {
    hide WaveBytes, Bag, InGo;
    var tag := "togi/fix-wave-identity/v1\0";
    NoCollision(tag + WaveBytes(a), tag + WaveBytes(b));
    SameAfterPrefix(tag, WaveBytes(a), WaveBytes(b));
    WaveDecodes(a, b);
  }

  /** A batch ID determines the primary file and the wave. */
  lemma BatchIDDecodes(file: string, digest: string, otherFile: string, otherDigest: string)
    requires Fits(file) && Fits(otherFile) && BatchID(file, digest) == BatchID(otherFile, otherDigest)
    ensures file == otherFile && digest == otherDigest
  {
    var tag := "togi/fix-batch-identity/v1\0";
    var x, y := Field(file) + Field(digest), Field(otherFile) + Field(otherDigest);
    hide Field, Word;
    assert tag + Field(file) + Field(digest) == tag + x && tag + Field(otherFile) + Field(otherDigest) == tag + y;
    SameAfterPrefix("batch-", Sha256(tag + x), Sha256(tag + y));
    NoCollision(tag + x, tag + y);
    SameAfterPrefix(tag, x, y);
    FieldDecodes(file, Field(digest), otherFile, Field(otherDigest));
    FieldTail(digest, otherDigest);
  }

  lemma FieldTail(a: string, b: string)
    requires Field(a) == Field(b)
    ensures a == b
  {
    assert Field(a)[8..] == a && Field(b)[8..] == b;
  }

  lemma {:induction false} OccurrencesDecode(a: seq<Occurrence>, x: string, b: seq<Occurrence>, y: string)
    requires |a| == |b| && OccurrencesBytes(a) + x == OccurrencesBytes(b) + y
    requires forall o :: o in a + b ==> IsInt(o.line) && IsInt(o.endLine)
    ensures a == b && x == y
  {
    hide IntBytes;
    if a == [] {
      assert OccurrencesBytes(a) + x == x && OccurrencesBytes(b) + y == y;
    } else {
      assert a[0] in a + b && b[0] in a + b;
      var u, v := OccurrencesBytes(a[1..]) + x, OccurrencesBytes(b[1..]) + y;
      assert OccurrencesBytes(a) + x == IntBytes(a[0].line) + (IntBytes(a[0].endLine) + u);
      assert OccurrencesBytes(b) + y == IntBytes(b[0].line) + (IntBytes(b[0].endLine) + v);
      IntDecodes(a[0].line, IntBytes(a[0].endLine) + u, b[0].line, IntBytes(b[0].endLine) + v);
      IntDecodes(a[0].endLine, u, b[0].endLine, v);
      assert forall o :: o in a[1..] + b[1..] ==> o in a + b;
      OccurrencesDecode(a[1..], x, b[1..], y);
      assert a == [a[0]] + a[1..] && b == [b[0]] + b[1..];
    }
  }

  lemma FindingDecodes(f: Finding, x: string, g: Finding, y: string)
    requires InGo(f) && InGo(g) && FindingBytes(f) + x == FindingBytes(g) + y
    ensures f == g && x == y
  {
    hide FieldsOf, IntBytes, OccurrencesBytes;
    var c, d := OccurrencesBytes(f.occurrences) + x, OccurrencesBytes(g.occurrences) + y;
    var e, h := IntBytes(|f.occurrences|) + c, IntBytes(|g.occurrences|) + d;
    var i, j := IntBytes(f.endLine) + e, IntBytes(g.endLine) + h;
    var k, l := IntBytes(f.line) + i, IntBytes(g.line) + j;
    assert FindingBytes(f) + x == FieldsOf(FindingTexts(f)) + k;
    assert FindingBytes(g) + y == FieldsOf(FindingTexts(g)) + l;
    FieldsDecode(FindingTexts(f), k, FindingTexts(g), l);
    IntDecodes(f.line, i, g.line, j);
    IntDecodes(f.endLine, e, g.endLine, h);
    IntDecodes(|f.occurrences|, c, |g.occurrences|, d);
    OccurrencesDecode(f.occurrences, x, g.occurrences, y);
    TextsDecide(f, g);
  }

  lemma TextsDecide(f: Finding, g: Finding)
    requires FindingTexts(f) == FindingTexts(g) && OwnSeverity(f.severity) && OwnSeverity(g.severity)
    requires f.line == g.line && f.endLine == g.endLine && f.occurrences == g.occurrences
    ensures f == g
  {
    var a, b := FindingTexts(f), FindingTexts(g);
    assert a[0] == b[0] && a[1] == b[1] && a[2] == b[2] && a[3] == b[3];
    assert a[4] == b[4] && a[5] == b[5] && a[6] == b[6] && a[7] == b[7];
  }

  lemma {:induction false} FindingsDecode(a: seq<Finding>, b: seq<Finding>)
    requires |a| == |b| && (forall f :: f in a ==> InGo(f)) && (forall f :: f in b ==> InGo(f))
    requires FindingsBytes(a) == FindingsBytes(b)
    ensures a == b
  {
    hide FindingBytes, InGo;
    if a != [] {
      assert a[0] in a && b[0] in b;
      FindingDecodes(a[0], FindingsBytes(a[1..]), b[0], FindingsBytes(b[1..]));
      assert (forall f :: f in a[1..] ==> f in a) && (forall f :: f in b[1..] ==> f in b);
      FindingsDecode(a[1..], b[1..]);
      assert a == [a[0]] + a[1..] && b == [b[0]] + b[1..];
    }
  }

  /** The identity proof of a batch changes with any change to its findings. */
  lemma ProofDecidesFindings(id: string, file: string, digest: string, a: seq<Finding>, b: seq<Finding>)
    requires AllInGo(a) && AllInGo(b)
    requires IdentityProof(id, file, digest, a) == IdentityProof(id, file, digest, b)
    ensures a == b
  {
    hide FieldsOf, IntBytes, FindingsBytes, InGo;
    var tag := "togi/validated-fix-batch/v1\0" + FieldsOf([id, file, digest]);
    var x, y := IntBytes(|a|) + FindingsBytes(a), IntBytes(|b|) + FindingsBytes(b);
    assert tag + IntBytes(|a|) + FindingsBytes(a) == tag + x && tag + IntBytes(|b|) + FindingsBytes(b) == tag + y;
    NoCollision(tag + x, tag + y);
    SameAfterPrefix(tag, x, y);
    IntDecodes(|a|, FindingsBytes(a), |b|, FindingsBytes(b));
    FindingsDecode(a, b);
  }

  // ---- NewPlan

  ghost function Flatten(batches: seq<Batch>): seq<Finding> {
    if batches == [] then [] else Flatten(batches[..|batches| - 1]) + batches[|batches| - 1].findings
  }

  /** A batch nobody has attempted; `sealed` once its identity has been filled in. */
  ghost predicate Untried(b: Batch, digest: string, sealed: bool) {
    && b.id == BatchID(b.primaryFile, digest) && b.status == Pending && b.attempts == []
    && b.findings != [] && (forall f :: f in b.findings ==> f.file == b.primaryFile)
    && (sealed ==> b.waveDigest == digest && b.identityProof == IdentityProof(b.id, b.primaryFile, digest, b.findings))
  }

  ghost predicate FilesAscend(batches: seq<Batch>) {
    forall i, j :: 0 <= i < j < |batches| ==> Less(batches[i].primaryFile, batches[j].primaryFile)
  }

  /** The batches of a wave: its findings in order, cut where the file changes. */
  ghost predicate WavePlan(ordered: seq<Finding>, batches: seq<Batch>) {
    && Flatten(batches) == ordered
    && (forall b :: b in batches ==> Untried(b, WaveDigest(ordered), true))
    && FilesAscend(batches)
  }

  ghost predicate Drafted(ordered: seq<Finding>, batches: seq<Batch>, digest: string) {
    && Flatten(batches) == ordered
    && (forall i :: 0 <= i < |batches| ==> Untried(batches[i], digest, false))
    && FilesAscend(batches)
  }

  function NewBatch(file: string, digest: string, findings: seq<Finding>): Batch {
    Batch(BatchID(file, digest), file, findings, Pending, [], "", "")
  }

  /** The next finding opens a batch or joins the last one. */
  function Drafting(batches: seq<Batch>, item: Finding, digest: string): seq<Batch> {
    var last := |batches| - 1;
    if last < 0 || batches[last].primaryFile != item.file then batches + [NewBatch(item.file, digest, [item])]
    else batches[last := batches[last].(findings := batches[last].findings + [item])]
  }

  lemma {:induction false} FlattenLast(batches: seq<Batch>)
    requires batches != [] && forall i :: 0 <= i < |batches| ==> batches[i].findings != []
    ensures Flatten(batches) != []
    ensures Flatten(batches)[|Flatten(batches)| - 1] ==
      batches[|batches| - 1].findings[|batches[|batches| - 1].findings| - 1]
  {
  }

  lemma DraftOpens(ordered: seq<Finding>, batches: seq<Batch>, item: Finding, digest: string)
    requires Drafted(ordered, batches, digest)
    requires forall i :: 0 <= i < |batches| ==> Less(batches[i].primaryFile, item.file)
    ensures Drafted(ordered + [item], batches + [NewBatch(item.file, digest, [item])], digest)
  {
    hide BatchID, Less;
    var next := batches + [NewBatch(item.file, digest, [item])];
    assert next[..|next| - 1] == batches;
  }

  lemma DraftExtends(ordered: seq<Finding>, batches: seq<Batch>, item: Finding, digest: string)
    requires Drafted(ordered, batches, digest) && batches != [] && batches[|batches| - 1].primaryFile == item.file
    ensures Drafted(ordered + [item], Drafting(batches, item, digest), digest)
  {
    hide BatchID, Less;
    var last := |batches| - 1;
    var next := Drafting(batches, item, digest);
    assert next[..last] == batches[..last];
    assert Flatten(next) == Flatten(batches[..last]) + (batches[last].findings + [item]);
  }

  lemma DraftNext(ordered: seq<Finding>, n: nat, batches: seq<Batch>, digest: string)
    requires n < |ordered| && StrictlySorted(ordered, LessFinding) && Drafted(ordered[..n], batches, digest)
    ensures Drafted(ordered[..n + 1], Drafting(batches, ordered[n], digest), digest)
  {
    hide BatchID, Less;
    var item := ordered[n];
    assert ordered[..n + 1] == ordered[..n] + [item];
    if batches == [] {
      DraftOpens(ordered[..n], batches, item, digest);
    } else {
      var last := batches[|batches| - 1];
      if last.primaryFile == item.file {
        DraftExtends(ordered[..n], batches, item, digest);
      } else {
        FlattenLast(batches);
        var f := last.findings[|last.findings| - 1];
        assert f in last.findings && f == ordered[n - 1];
        assert LessFinding(ordered[n - 1], item);
        FileFollows(batches, item.file);
        DraftOpens(ordered[..n], batches, item, digest);
      }
    }
  }

  lemma FileFollows(batches: seq<Batch>, file: string)
    requires FilesAscend(batches) && batches != [] && Less(batches[|batches| - 1].primaryFile, file)
    ensures forall i :: 0 <= i < |batches| ==> Less(batches[i].primaryFile, file)
  {
    forall i | 0 <= i < |batches| ensures Less(batches[i].primaryFile, file) {
      if i < |batches| - 1 {
        LessTransitive(batches[i].primaryFile, batches[|batches| - 1].primaryFile, file);
      }
    }
  }

  function Seal(b: Batch, digest: string): Batch {
    b.(waveDigest := digest, identityProof := IdentityProof(b.id, b.primaryFile, digest, b.findings))
  }

  ghost predicate PartlySealed(drafts: seq<Batch>, batches: seq<Batch>, digest: string, n: nat) {
    && |batches| == |drafts|
    && forall i :: 0 <= i < |drafts| ==> batches[i] == if i < n then Seal(drafts[i], digest) else drafts[i]
  }

  lemma {:induction false} SealedFlatten(drafts: seq<Batch>, batches: seq<Batch>, digest: string)
    requires PartlySealed(drafts, batches, digest, |drafts|)
    ensures Flatten(batches) == Flatten(drafts)
  {
    if drafts != [] {
      var n := |drafts| - 1;
      assert PartlySealed(drafts[..n], batches[..n], digest, n);
      SealedFlatten(drafts[..n], batches[..n], digest);
    }
  }

  lemma SealedIsWave(ordered: seq<Finding>, drafts: seq<Batch>, batches: seq<Batch>)
    requires Drafted(ordered, drafts, WaveDigest(ordered))
    requires PartlySealed(drafts, batches, WaveDigest(ordered), |drafts|)
    ensures WavePlan(ordered, batches)
  {
    hide BatchID, IdentityProof, WaveDigest, Less;
    SealedFlatten(drafts, batches, WaveDigest(ordered));
    forall b | b in batches ensures Untried(b, WaveDigest(ordered), true) {
      var i :| 0 <= i < |batches| && batches[i] == b;
      assert Untried(drafts[i], WaveDigest(ordered), false);
    }
  }

  /** Groups canonical blocking findings by their primary file. */
  method NewPlan(findings: seq<Finding>) returns (ok: bool, plan: Plan, ghost ordered: seq<Finding>)
    requires AllSized(findings)
    ensures ok <==> CanonicalList(findings)
    ensures ok ==> plan.schemaVersion == 1 && Ordering(findings, ordered) && WavePlan(ordered, plan.batches)
  {
    hide CanonicalList, AllSized, LessFinding, WaveDigest, IdentityProof, BatchID, Drafting, PartlySealed, Seal;
    var listed;
    ok, listed := CanonicalFindings(findings);
    ordered := listed;
    plan := NO_PLAN;
    if !ok {
      return;
    }
    var digest := WaveDigest(listed);
    var drafts: seq<Batch> := [];
    var i := 0;
    NothingDrafted(listed, digest);
    hide Drafted, WavePlan;
    while i < |listed|
      invariant 0 <= i <= |listed| && Drafted(listed[..i], drafts, digest)
    {
      DraftNext(listed, i, drafts, digest);
      drafts := Drafting(drafts, listed[i], digest);
      i := i + 1;
    }
    assert listed[..i] == listed;
    var batches := SealAll(drafts, digest);
    SealedIsWave(listed, drafts, batches);
    plan := Plan(1, batches);
  }

  lemma NothingDrafted(ordered: seq<Finding>, digest: string)
    ensures Drafted(ordered[..0], [], digest)
  {
  }

  /** The second loop fills in the identities in place. */
  method SealAll(drafts: seq<Batch>, digest: string) returns (batches: seq<Batch>)
    ensures PartlySealed(drafts, batches, digest, |drafts|)
  {
    hide Seal;
    batches := drafts;
    var i := 0;
    while i < |batches|
      invariant 0 <= i <= |batches| && PartlySealed(drafts, batches, digest, i)
    {
      batches := batches[i := Seal(batches[i], digest)];
      i := i + 1;
    }
  }

  // ---- the batches of a wave

  lemma {:induction false} FlattenAt(batches: seq<Batch>, k: nat) returns (before: seq<Finding>, after: seq<Finding>)
    requires k < |batches|
    ensures Flatten(batches) == before + batches[k].findings + after
  {
    var n := |batches| - 1;
    if k == n {
      before, after := Flatten(batches[..n]), [];
    } else {
      before, after := FlattenAt(batches[..n], k);
      after := after + batches[n].findings;
    }
  }

  lemma SliceOfWave(ordered: seq<Finding>, before: seq<Finding>, part: seq<Finding>, after: seq<Finding>)
    requires ordered == before + part + after && CanonicalList(ordered) && StrictlySorted(ordered, LessFinding)
    ensures CanonicalList(part) && StrictlySorted(part, LessFinding)
    ensures Bag(part) <= Bag(ordered)
    ensures (AllSized(ordered) ==> AllSized(part)) && (AllInGo(ordered) ==> AllInGo(part))
  {
    hide Valid, Canonical, Sized, InGo, LessFinding, Bag;
    BagConcat(before + part, after);
    BagConcat(before, part);
    var b := |before|;
    SliceIndex(before, part, after);
    forall i, j | 0 <= i < j < |part|
      ensures part[i].fingerprint != part[j].fingerprint && LessFinding(part[i], part[j])
    {
      assert part[i] == ordered[b + i] && part[j] == ordered[b + j];
    }
  }

  lemma SliceIndex(before: seq<Finding>, part: seq<Finding>, after: seq<Finding>)
    ensures forall i :: 0 <= i < |part| ==> part[i] == (before + part + after)[|before| + i]
    ensures forall f :: f in part ==> f in before + part + after
  {
  }

  /** Each batch of a wave holds a canonical part of its blockers. */
  lemma BatchOfWave(ordered: seq<Finding>, batches: seq<Batch>, k: nat)
    requires WavePlan(ordered, batches) && k < |batches|
    requires CanonicalList(ordered) && StrictlySorted(ordered, LessFinding)
    ensures CanonicalList(batches[k].findings) && StrictlySorted(batches[k].findings, LessFinding)
    ensures Bag(batches[k].findings) <= Bag(ordered)
    ensures (AllSized(ordered) ==> AllSized(batches[k].findings)) && (AllInGo(ordered) ==> AllInGo(batches[k].findings))
  {
    hide CanonicalList, LessFinding, Bag, AllSized, AllInGo, Untried;
    var before, after := FlattenAt(batches, k);
    SliceOfWave(ordered, before, batches[k].findings, after);
  }

  /** Batch IDs are pairwise distinct within a wave. */
  lemma WaveIDsDistinct(ordered: seq<Finding>, batches: seq<Batch>, i: nat, j: nat)
    requires WavePlan(ordered, batches) && i < j < |batches|
    requires Fits(batches[i].primaryFile) && Fits(batches[j].primaryFile)
    ensures batches[i].id != batches[j].id
  {
    hide BatchID, WaveDigest, IdentityProof;
    var b, c := batches[i], batches[j];
    assert b in batches && c in batches;
    assert Untried(b, WaveDigest(ordered), true) && Untried(c, WaveDigest(ordered), true);
    assert Less(b.primaryFile, c.primaryFile);
    LessIrreflexive(b.primaryFile);
    if b.id == c.id { BatchIDDecodes(b.primaryFile, WaveDigest(ordered), c.primaryFile, WaveDigest(ordered)); }
  }

  /** A batch of one wave never shares its ID with a batch of a wave that has other blockers. */
  lemma AcrossWavesIDsDistinct(first: seq<Finding>, second: seq<Finding>, b: Batch, c: Batch)
    requires AllInGo(first) && AllInGo(second) && Bag(first) != Bag(second)
    requires b.id == BatchID(b.primaryFile, WaveDigest(first)) && c.id == BatchID(c.primaryFile, WaveDigest(second))
    requires Fits(b.primaryFile) && Fits(c.primaryFile)
    ensures b.id != c.id
  {
    hide BatchID, WaveDigest, Bag, InGo;
    if b.id == c.id {
      BatchIDDecodes(b.primaryFile, WaveDigest(first), c.primaryFile, WaveDigest(second));
      DigestDecidesBlockers(first, second);
    }
  }

  // ---- the identity checks of a brief

  /** `BuildBrief` accepts the identity of the batch it is asked to describe. */
  method BriefAcceptsIdentity(b: Batch) returns (accepts: bool)
    requires AllSized(b.findings)
    ensures accepts <==> IdentityAccepted(b)
  {
    hide CanonicalList, AllSized, LessFinding, BatchID, IdentityProof;
    if !HasPrefix(b.id, "batch-") {
      return false;
    }
    var ok, canonical := CanonicalFindings(b.findings);
    if !ok || |canonical| == 0 {
      EmptyOrdering(b.findings, canonical, ok);
      return false;
    }
    SamePermutation(canonical, b.findings);
    for i := 0 to |canonical|
      invariant forall k :: 0 <= k < i ==> canonical[k].file == b.primaryFile
    {
      if canonical[i].file != b.primaryFile {
        assert canonical[i] in b.findings;
        return false;
      }
    }
    if b.waveDigest == "" {
      return false;
    }
    if b.id != BatchID(b.primaryFile, b.waveDigest) {
      return false;
    }
    var expected := IdentityProof(b.id, b.primaryFile, b.waveDigest, canonical);
    OrderedProof(b, canonical);
    return b.identityProof == expected;
  }

  /** The checks, on the one report order that the findings have. */
  ghost predicate IdentityAccepted(b: Batch) {
    && HasPrefix(b.id, "batch-") && CanonicalList(b.findings) && b.findings != []
    && (forall f :: f in b.findings ==> f.file == b.primaryFile)
    && b.waveDigest != "" && b.id == BatchID(b.primaryFile, b.waveDigest)
    && exists ordered :: Ordering(b.findings, ordered) &&
         b.identityProof == IdentityProof(b.id, b.primaryFile, b.waveDigest, ordered)
  }

  lemma EmptyOrdering(findings: seq<Finding>, ordered: seq<Finding>, ok: bool)
    requires ok ==> Ordering(findings, ordered)
    ensures ok && |ordered| == 0 ==> findings == []
  {
    if ok { SamePermutation(ordered, findings); }
  }

  lemma OrderedProof(b: Batch, ordered: seq<Finding>)
    requires Ordering(b.findings, ordered)
    ensures (exists o ::
               Ordering(b.findings, o)
               && b.identityProof == IdentityProof(b.id, b.primaryFile, b.waveDigest, o)) <==>
            b.identityProof == IdentityProof(b.id, b.primaryFile, b.waveDigest, ordered)
  {
    hide IdentityProof, Ordering;
    forall o | Ordering(b.findings, o) ensures o == ordered { OrderingIsUnique(b.findings, o, ordered); }
  }

  /** Every batch of a plan passes, whatever its status and attempts have become. */
  lemma PlannedBatchAccepted(ordered: seq<Finding>, batches: seq<Batch>, k: nat, b: Batch)
    requires WavePlan(ordered, batches) && k < |batches|
    requires CanonicalList(ordered) && StrictlySorted(ordered, LessFinding)
    requires b == batches[k].(status := b.status, attempts := b.attempts)
    ensures IdentityAccepted(b)
  {
    hide CanonicalList, LessFinding, IdentityProof, Bag;
    BatchOfWave(ordered, batches, k);
    assert batches[k] in batches;
    assert Untried(batches[k], WaveDigest(ordered), true);
    DigestNonempty("togi/fix-wave-identity/v1\0" + WaveBytes(ordered));
    assert Ordering(b.findings, b.findings);
  }

  /** With other findings in it the batch passes only if they are the same findings in another order. */
  lemma AlteredBatchRefused(b: Batch, altered: seq<Finding>)
    requires IdentityAccepted(b) && AllInGo(b.findings) && AllInGo(altered)
    ensures IdentityAccepted(b.(findings := altered)) ==> multiset(altered) == multiset(b.findings)
  {
    hide CanonicalList, LessFinding, IdentityProof, InGo, BatchID;
    var c := b.(findings := altered);
    if IdentityAccepted(c) {
      var x :| Ordering(b.findings, x) && b.identityProof == IdentityProof(b.id, b.primaryFile, b.waveDigest, x);
      var y :| Ordering(altered, y) && b.identityProof == IdentityProof(b.id, b.primaryFile, b.waveDigest, y);
      SamePermutation(x, b.findings);
      SamePermutation(y, altered);
      ProofDecidesFindings(b.id, b.primaryFile, b.waveDigest, x, y);
    }
  }
}
