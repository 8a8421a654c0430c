/** Which suppressions of a fix attempt are new or moved
    (internal/flywheel/suppression.go:784-850 and 1443-1570). */
module Suppression {
  import opened Constraints
  import opened Matching

  const MAX_FINDINGS := 10_000
  const LEGACY_DUPLICATE := "build-duplicate-legacy"

  /** What a lint directive silences: everything, or the listed rules. */
  datatype Scope = Scope(all: bool, rules: seq<string>)

  datatype Site = Site(kind: string, identity: string, scope: Scope, constraint: Expr, line: int, snippet: string)

  datatype IntegrityFinding = IntegrityFinding(ruleID: string, file: string, line: int, snippet: string)

  // ---- the order on sites

  predicate BothLegacy(attempted: Site, original: Site) {
    attempted.kind == LEGACY_DUPLICATE && original.kind == attempted.kind
  }

  ghost predicate ScopeNarrows(attempted: Scope, original: Scope) {
    original.all || (!attempted.all && forall rule :: rule in attempted.rules ==> rule in original.rules)
  }

  /** The attempted site suppresses no more than the original one. */
  ghost predicate Narrows(attempted: Site, original: Site) {
    if BothLegacy(attempted, original) then Equivalent(attempted.constraint, original.constraint)
    else if attempted.constraint == Absent && original.constraint == Absent then
      ScopeNarrows(attempted.scope, original.scope)
    else
      attempted.constraint != Absent && original.constraint != Absent
      && Implies(attempted.constraint, original.constraint)
  }

  ghost function NarrowsCost(attempted: Site, original: Site): nat {
    if BothLegacy(attempted, original) then EquivalentCost(attempted.constraint, original.constraint)
    else ImpliesCost(attempted.constraint, original.constraint)
  }

  method RulesNarrow(attempted: seq<string>, original: seq<string>) returns (narrows: bool)
    ensures narrows <==> forall rule :: rule in attempted ==> rule in original
  {
    var baseline := set rule | rule in original;
    for i := 0 to |attempted|
      invariant forall k :: 0 <= k < i ==> attempted[k] in original
    {
      if attempted[i] !in baseline {
        return false;
      }
    }
    return true;
  }

  method SuppressionNarrows(attempted: Site, original: Site, work: IntCell, budget: IntCell?) returns (r: Result<bool>)
    requires work != budget
    modifies work, budget
    ensures r.Ok? ==> (r.value <==> Narrows(attempted, original))
    ensures r.ResourceLimit? ==>
      TagCount(attempted.constraint, original.constraint) > MAX_CONSTRAINT_TAGS ||
      Short(old(Left(budget)), old(work.value), NarrowsCost(attempted, original))
    ensures old(Left(budget)) >= 0 ==> Left(budget) >= 0
    ensures r.Ok? ==>
      Paid(old(Left(budget)), old(work.value), Left(budget), work.value, NarrowsCost(attempted, original))
  {
    hide Implies, Equivalent, RowsCost, Shl1, TagCount;
    if BothLegacy(attempted, original) {
      r := ConstraintsEquivalent(attempted.constraint, original.constraint, work, budget);
      return;
    }
    if attempted.constraint != Absent || original.constraint != Absent {
      if attempted.constraint == Absent || original.constraint == Absent {
        return Ok(false);
      }
      r := ConstraintImplies(attempted.constraint, original.constraint, work, budget);
      return;
    }
    if original.scope.all {
      return Ok(true);
    }
    if attempted.scope.all {
      return Ok(false);
    }
    var narrows := RulesNarrow(attempted.scope.rules, original.scope.rules);
    return Ok(narrows);
  }

  lemma NarrowsReflexive(s: Site)
    ensures Narrows(s, s)
  {
  }

  /** A legacy duplicate always carries the constraint it repeats. */
  predicate Carried(s: Site) {
    s.kind == LEGACY_DUPLICATE ==> s.constraint != Absent
  }

  ghost predicate TransitiveOn(ka: string, kb: string, kc: string) {
    forall a: Site, b: Site, c: Site |
      a.kind == ka && b.kind == kb && c.kind == kc && Carried(a) && Carried(b) && Carried(c) && Narrows(a, b) &&
      Narrows(b, c)
      :: Narrows(a, c)
  }

  lemma NarrowsTransitive(a: Site, b: Site, c: Site)
    requires Carried(a) && Carried(b) && Carried(c)
    requires Narrows(a, b) && Narrows(b, c)
    requires a.kind == LEGACY_DUPLICATE && c.kind == LEGACY_DUPLICATE ==> b.kind == LEGACY_DUPLICATE
    ensures Narrows(a, c)
  {
    if a.constraint != Absent && b.constraint != Absent && c.constraint != Absent {
      forall on: Assignment | Holds(a.constraint, on) ensures Holds(c.constraint, on) {
        assert Holds(b.constraint, on);
      }
      if BothLegacy(a, c) {
        forall on: Assignment | Holds(c.constraint, on) ensures Holds(a.constraint, on) {
          assert Holds(b.constraint, on);
        }
      }
    }
  }

  /** "Narrows" is transitive for exactly the combinations of kinds that do not put a site of
      another kind between two legacy duplicates: there implication is asked for twice and
      equivalence is wanted. */
  lemma TransitiveExactly(ka: string, kb: string, kc: string)
    ensures TransitiveOn(ka, kb, kc) <==> !(ka == kc == LEGACY_DUPLICATE && kb != LEGACY_DUPLICATE)
  {
    if ka == kc == LEGACY_DUPLICATE && kb != LEGACY_DUPLICATE {
      var some := Scope(true, []);
      var a := Site(ka, "", some, And(Tag("linux"), Tag("cgo")), 1, "");
      var b := Site(kb, "", some, Tag("linux"), 1, "");
      var c := Site(kc, "", some, Tag("linux"), 1, "");
      assert Holds(c.constraint, iset{"linux"}) && !Holds(a.constraint, iset{"linux"});
      assert Narrows(a, b) && Narrows(b, c) && !Narrows(a, c);
    } else {
      forall a: Site, b: Site, c: Site |
        a.kind == ka && b.kind == kb && c.kind == kc && Carried(a) && Carried(b) && Carried(c)
        && Narrows(a, b) && Narrows(b, c)
        ensures Narrows(a, c)
      {
        NarrowsTransitive(a, b, c);
      }
    }
  }

  // ---- pairings

  ghost predicate MayPair(original: Site, attempted: Site) {
    original.identity == attempted.identity && Narrows(attempted, original)
  }

  /** A one-to-one assignment of attempted sites to original sites of the same identity that they narrow. */
  ghost predicate IsPairing(original: seq<Site>, attempted: seq<Site>, m: map<int, int>) {
    && (forall c :: c in m ==> 0 <= c < |attempted| && 0 <= m[c] < |original| && MayPair(original[m[c]], attempted[c]))
    && (forall c, d :: c in m && d in m && m[c] == m[d] ==> c == d)
  }

  ghost predicate IsBestPairing(original: seq<Site>, attempted: seq<Site>, m: map<int, int>) {
    && IsPairing(original, attempted, m)
    && forall other: map<int, int> :: IsPairing(original, attempted, other) ==> |other| <= |m|
  }

  /** Every attempted site can be accounted for by an original one. */
  ghost predicate Quiet(original: seq<Site>, attempted: seq<Site>) {
    exists m: map<int, int> :: IsPairing(original, attempted, m) && forall c :: 0 <= c < |attempted| ==> c in m
  }

  ghost predicate EdgesFor(original: seq<Site>, attempted: seq<Site>, edges: Edges) {
    && |edges| == |attempted|
    && forall c :: 0 <= c < |edges| ==> EdgeList(original, attempted[c], edges[c], |original|)
  }

  /** The first n baselines that the candidate may be paired with, each once. */
  ghost predicate EdgeList(original: seq<Site>, candidate: Site, list: seq<int>, n: int) {
    && n <= |original| && |list| <= n
    && (forall o :: o in list ==> 0 <= o < n && MayPair(original[o], candidate))
    && (forall o :: 0 <= o < n && MayPair(original[o], candidate) ==> o in list)
  }

  lemma PairingIsMatching(original: seq<Site>, attempted: seq<Site>, edges: Edges, m: map<int, int>)
    requires EdgesFor(original, attempted, edges)
    ensures IsPairing(original, attempted, m) <==> IsMatching(edges, m)
  {
    hide MayPair;
    if IsPairing(original, attempted, m) {
      forall c | c in m ensures 0 <= c < |edges| && m[c] in edges[c] {
        assert EdgeList(original, attempted[c], edges[c], |original|);
      }
    }
    if IsMatching(edges, m) {
      forall c | c in m
        ensures 0 <= c < |attempted| && 0 <= m[c] < |original| && MayPair(original[m[c]], attempted[c])
      {
        assert EdgeList(original, attempted[c], edges[c], |original|);
      }
    }
  }

  lemma MaximumIsBest(original: seq<Site>, attempted: seq<Site>, edges: Edges, m: map<int, int>)
    requires EdgesFor(original, attempted, edges) && IsMaximum(edges, m)
    ensures IsBestPairing(original, attempted, m)
  {
    PairingIsMatching(original, attempted, edges, m);
    forall other: map<int, int> | IsPairing(original, attempted, other) ensures |other| <= |m| {
      PairingIsMatching(original, attempted, edges, other);
    }
  }

  // ---- the comparison

  /** Whatever pair is looked at, its comparison stays within the tag limit and costs less than `unit`. */
  ghost predicate PairsCost(original: seq<Site>, attempted: seq<Site>, unit: nat) {
    forall o, c :: 0 <= o < |original| && 0 <= c < |attempted| && original[o].identity == attempted[c].identity ==>
      && TagCount(attempted[c].constraint, original[o].constraint) <= MAX_CONSTRAINT_TAGS
      && NarrowsCost(attempted[c], original[o]) < unit
  }

  /** Compares one pair and extends the list of edges. */
  method TryEdge(original: seq<Site>, attempted: seq<Site>, c: nat, o: nat, list: seq<int>,
                 work: IntCell, budget: IntCell?, ghost unit: nat)
    returns (r: Result<seq<int>>)
    requires work != budget && c < |attempted| && o < |original|
    requires EdgeList(original, attempted[c], list, o)
    modifies work, budget
    ensures old(Left(budget)) >= 0 ==> Left(budget) >= 0
    ensures r.Ok? ==> EdgeList(original, attempted[c], r.value, o + 1)
    ensures r.Ok? && PairsCost(original, attempted, unit) && unit > 0 ==>
      Paid(old(Left(budget)), old(work.value), Left(budget), work.value, unit)
    ensures r.ResourceLimit? && PairsCost(original, attempted, unit) && unit > 0 ==>
      Short(old(Left(budget)), old(work.value), unit)
  {
    hide Narrows, NarrowsCost, TagCount;
    var ok := ChargeEdge(work, budget);
    if !ok {
      return ResourceLimit;
    }
    if original[o].identity != attempted[c].identity {
      return Ok(list);
    }
    var narrows := SuppressionNarrows(attempted[c], original[o], work, budget);
    if narrows.ResourceLimit? {
      return ResourceLimit;
    }
    return Ok(if narrows.value then list + [o] else list);
  }

  method EdgesOf(original: seq<Site>, attempted: seq<Site>, c: nat, work: IntCell, budget: IntCell?, ghost unit: nat)
    returns (r: Result<seq<int>>)
    requires work != budget && c < |attempted|
    modifies work, budget
    ensures old(Left(budget)) >= 0 ==> Left(budget) >= 0
    ensures r.Ok? ==> EdgeList(original, attempted[c], r.value, |original|)
    ensures r.Ok? && PairsCost(original, attempted, unit) && unit > 0 ==>
      Paid(old(Left(budget)), old(work.value), Left(budget), work.value, RowsCost(|original|, unit))
    ensures r.ResourceLimit? && PairsCost(original, attempted, unit) && unit > 0 ==>
      Short(old(Left(budget)), old(work.value), RowsCost(|original|, unit))
  {
    ghost var left0, work0 := Left(budget), work.value;
    ghost var priced := PairsCost(original, attempted, unit) && unit > 0;
    assert Paid(left0, work0, left0, work0, RowsCost(0, unit));
    var list: seq<int> := [];
    assert EdgeList(original, attempted[c], list, 0);
    hide EdgeList, PairsCost, Paid, Short, RowsCost;
    var o := 0;
    while o < |original|
      invariant o <= |original| && EdgeList(original, attempted[c], list, o)
      invariant left0 >= 0 ==> Left(budget) >= 0
      invariant priced ==> Paid(left0, work0, Left(budget), work.value, RowsCost(o, unit))
    {
      ghost var left1, work1 := Left(budget), work.value;
      var next := TryEdge(original, attempted, c, o, list, work, budget, unit);
      if priced {
        PaidMore(left0, work0, left1, work1, Left(budget), work.value, o, |original|, unit);
      }
      if next.ResourceLimit? {
        return ResourceLimit;
      }
      list := next.value;
      o := o + 1;
    }
    return Ok(list);
  }

  method BuildEdges(original: seq<Site>, attempted: seq<Site>, work: IntCell, budget: IntCell?, ghost unit: nat)
    returns (r: Result<Edges>)
    requires work != budget
    modifies work, budget
    ensures old(Left(budget)) >= 0 ==> Left(budget) >= 0
    ensures r.Ok? ==> EdgesFor(original, attempted, r.value)
    ensures r.Ok? && PairsCost(original, attempted, unit) && unit > 0 ==>
      Paid(old(Left(budget)), old(work.value), Left(budget), work.value,
           RowsCost(|attempted|, RowsCost(|original|, unit)))
    ensures r.ResourceLimit? && PairsCost(original, attempted, unit) && unit > 0 ==>
      Short(old(Left(budget)), old(work.value), RowsCost(|attempted|, RowsCost(|original|, unit)))
  {
    ghost var left0, work0 := Left(budget), work.value;
    ghost var priced, most := PairsCost(original, attempted, unit) && unit > 0, RowsCost(|original|, unit);
    assert Paid(left0, work0, left0, work0, RowsCost(0, most));
    hide EdgeList, PairsCost, Paid, Short, RowsCost;
    var edges: Edges := [];
    var c := 0;
    while c < |attempted|
      invariant |edges| == c <= |attempted|
      invariant forall k :: 0 <= k < c ==> EdgeList(original, attempted[k], edges[k], |original|)
      invariant left0 >= 0 ==> Left(budget) >= 0
      invariant priced ==> Paid(left0, work0, Left(budget), work.value, RowsCost(c, most))
    {
      ghost var left1, work1 := Left(budget), work.value;
      var list := EdgesOf(original, attempted, c, work, budget, unit);
      if priced {
        PaidMore(left0, work0, left1, work1, Left(budget), work.value, c, |attempted|, most);
      }
      if list.ResourceLimit? {
        return ResourceLimit;
      }
      edges := edges + [list.value];
      c := c + 1;
    }
    return Ok(edges);
  }

  // ---- the report

  function NewSuppression(file: string, site: Site): IntegrityFinding {
    IntegrityFinding("togi/new-suppression", file, site.line, site.snippet)
  }

  /** One finding for each of the first n attempted sites that has no partner, in order. */
  ghost function Unpaired(file: string, attempted: seq<Site>, m: map<int, int>, n: nat): (r: seq<IntegrityFinding>)
    requires n <= |attempted|
    ensures |r| <= n
  {
    if n == 0 then []
    else Unpaired(file, attempted, m, n - 1) + (if n - 1 in m then [] else [NewSuppression(file, attempted[n - 1])])
  }

  ghost function Below(m: map<int, int>, n: int): map<int, int> {
    map c | c in m && c < n :: m[c]
  }

  lemma {:induction false} UnpairedCount(file: string, attempted: seq<Site>, m: map<int, int>, n: nat)
    requires n <= |attempted| && forall c :: c in m ==> c >= 0
    ensures |Unpaired(file, attempted, m, n)| + |Below(m, n)| == n
  {
    if n == 0 {
      assert Below(m, 0) == map[];
    } else {
      UnpairedCount(file, attempted, m, n - 1);
      if n - 1 in m {
        assert Below(m, n) == Below(m, n - 1)[n - 1 := m[n - 1]];
      } else {
        assert Below(m, n) == Below(m, n - 1);
      }
    }
  }

  method ReportUnpaired(file: string, attempted: seq<Site>, matchCandidate: seq<int>, budget: IntCell?)
    returns (r: Result<seq<IntegrityFinding>>)
    requires |matchCandidate| == |attempted|
    modifies budget
    ensures old(Left(budget)) >= 0 ==> Left(budget) >= 0
    ensures r.Ok? ==> r.value == Unpaired(file, attempted, AsMatching(matchCandidate), |attempted|)
    ensures r.Ok? ==> old(Left(budget)) - Left(budget) == |attempted| && |r.value| <= MAX_FINDINGS
    ensures r.ResourceLimit? ==> old(Left(budget)) < |attempted| || |attempted| > MAX_FINDINGS
  {
    var result: seq<IntegrityFinding> := [];
    var c := 0;
    while c < |attempted|
      invariant c <= |attempted| && |result| <= MAX_FINDINGS
      invariant result == Unpaired(file, attempted, AsMatching(matchCandidate), c)
      invariant Left(budget) == old(Left(budget)) - c
      invariant old(Left(budget)) >= 0 ==> Left(budget) >= 0
    {
      var ok := SpendSuppressionWork(budget, 1);
      if !ok {
        return ResourceLimit;
      }
      if matchCandidate[c] < 0 {
        result := result + [NewSuppression(file, attempted[c])];
        if |result| > MAX_FINDINGS {
          return ResourceLimit;
        }
      }
      c := c + 1;
    }
    return Ok(result);
  }

  // ---- compareSuppressionSitesBounded

  /** All that the comparison may charge to its match work. */
  ghost function ComparisonCost(originals: nat, attempteds: nat, unit: nat): nat {
    RowsCost(attempteds, RowsCost(originals, unit)) + RowsCost(attempteds, RowsCost(attempteds, originals))
  }

  /** Limits within which no comparison is refused, given what any one pair costs. */
  ghost predicate Affordable(original: seq<Site>, attempted: seq<Site>, left: int, unit: nat) {
    && PairsCost(original, attempted, unit) && unit > 0
    && ComparisonCost(|original|, |attempted|, unit) <= MAX_MATCH_WORK
    && ComparisonCost(|original|, |attempted|, unit) + |attempted| <= left
    && |attempted| <= MAX_FINDINGS
  }

  /** The findings are those left over by a pairing that no other pairing improves on. */
  ghost predicate Reports(file: string, original: seq<Site>, attempted: seq<Site>, r: seq<IntegrityFinding>) {
    exists m: map<int, int> :: IsBestPairing(original, attempted, m) && r == Unpaired(file, attempted, m, |attempted|)
  }

  method CompareSuppressionSitesBounded(file: string, original: seq<Site>, attempted: seq<Site>, budget: IntCell?,
                                        ghost unit: nat)
    returns (r: Result<seq<IntegrityFinding>>)
    modifies budget
    ensures r.Ok? ==> Reports(file, original, attempted, r.value)
    ensures Affordable(original, attempted, old(Left(budget)), unit) ==> r.Ok?
    ensures old(Left(budget)) >= 0 ==> Left(budget) >= 0
  {
    var work := new IntCell(0);
    ghost var left0 := Left(budget);
    hide EdgeList, PairsCost, RowsCost, IsBestPairing, IsMaximum, Unpaired;
    var edges := BuildEdges(original, attempted, work, budget, unit);
    if edges.ResourceLimit? {
      return ResourceLimit;
    }
    ghost var left1, work1 := Left(budget), work.value;
    EdgesInRange(original, attempted, edges.value);
    var matchCandidate := MaximumMatching(edges.value, |original|, work, budget);
    if matchCandidate.ResourceLimit? {
      return ResourceLimit;
    }
    MaximumIsBest(original, attempted, edges.value, AsMatching(matchCandidate.value));
    r := ReportUnpaired(file, attempted, matchCandidate.value, budget);
  }

  lemma EdgesInRange(original: seq<Site>, attempted: seq<Site>, edges: Edges)
    requires EdgesFor(original, attempted, edges)
    ensures InRange(edges, |original|) && forall c :: 0 <= c < |edges| ==> |edges[c]| <= |original|
  {
    forall c, j | 0 <= c < |edges| && 0 <= j < |edges[c]| ensures 0 <= edges[c][j] < |original| {
      assert EdgeList(original, attempted[c], edges[c], |original|);
      assert edges[c][j] in edges[c];
    }
    forall c | 0 <= c < |edges| ensures |edges[c]| <= |original| {
      assert EdgeList(original, attempted[c], edges[c], |original|);
    }
  }

  // ---- what a caller may conclude

  /** The number of findings is the number of attempted sites less the size of a best pairing. */
  lemma ReportsCount(file: string, original: seq<Site>, attempted: seq<Site>, r: seq<IntegrityFinding>,
                     m: map<int, int>)
    requires Reports(file, original, attempted, r) && IsBestPairing(original, attempted, m)
    ensures |r| == |attempted| - |m|
  {
    var best: map<int, int> :|
      IsBestPairing(original, attempted, best) && r == Unpaired(file, attempted, best, |attempted|);
    assert Below(best, |attempted|) == best;
    UnpairedCount(file, attempted, best, |attempted|);
  }

  /** No finding is raised exactly when every attempted site can be accounted for at once. */
  lemma NoFindingsIffQuiet(file: string, original: seq<Site>, attempted: seq<Site>, r: seq<IntegrityFinding>)
    requires Reports(file, original, attempted, r)
    ensures r == [] <==> Quiet(original, attempted)
  {
    var best: map<int, int> :|
      IsBestPairing(original, attempted, best) && r == Unpaired(file, attempted, best, |attempted|);
    hide Unpaired, MayPair, Reports;
    UnpairedEmpty(file, attempted, best, |attempted|);
    if Quiet(original, attempted) {
      var m: map<int, int> :| IsPairing(original, attempted, m) && forall c :: 0 <= c < |attempted| ==> c in m;
      WholePairing(file, original, attempted, m);
      ReportsCount(file, original, attempted, r, best);
    }
  }

  lemma WholePairing(file: string, original: seq<Site>, attempted: seq<Site>, m: map<int, int>)
    requires IsPairing(original, attempted, m) && forall c :: 0 <= c < |attempted| ==> c in m
    ensures |m| == |attempted|
  {
    hide MayPair;
    UnpairedEmpty(file, attempted, m, |attempted|);
    UnpairedCount(file, attempted, m, |attempted|);
    assert Below(m, |attempted|) == m;
  }

  lemma {:induction false} UnpairedEmpty(file: string, attempted: seq<Site>, m: map<int, int>, n: nat)
    requires n <= |attempted|
    ensures Unpaired(file, attempted, m, n) == [] <==> forall c :: 0 <= c < n ==> c in m
  {
    if n > 0 { UnpairedEmpty(file, attempted, m, n - 1); }
  }

  /** What the comparison looks at; where a suppression stands and how it is described do not matter. */
  function Essence(s: Site): Site {
    s.(line := 0, snippet := "")
  }

  ghost function Essences(sites: seq<Site>): multiset<Site> {
    if sites == [] then multiset{} else Essences(sites[..|sites| - 1]) + multiset{Essence(sites[|sites| - 1])}
  }

  lemma EssencesLast(sites: seq<Site>)
    requires sites != []
    ensures Essences(sites) == Essences(sites[..|sites| - 1]) + multiset{Essence(sites[|sites| - 1])}
  {
  }

  lemma {:induction false} EssenceAt(sites: seq<Site>, e: Site) returns (i: nat)
    requires e in Essences(sites)
    ensures i < |sites| && Essence(sites[i]) == e
    ensures Essences(sites[..i] + sites[i + 1..]) == Essences(sites) - multiset{e}
  {
    var n := |sites| - 1;
    EssencesLast(sites);
    hide Essence, Essences;
    if Essence(sites[n]) == e {
      i := n;
      assert sites[..i] + sites[i + 1..] == sites[..n];
    } else {
      i := EssenceAt(sites[..n], e);
      WithoutOne(sites, i);
      EssencesLast(sites[..i] + sites[i + 1..]);
    }
  }

  lemma WithoutOne<T>(s: seq<T>, i: nat)
    requires i < |s| - 1
    ensures var n := |s| - 1;
            var rest := s[..i] + s[i + 1..];
            rest[..|rest| - 1] == s[..n][..i] + s[..n][i + 1..] && rest[|rest| - 1] == s[n]
  {
  }

  lemma NothingIsQuiet(original: seq<Site>)
    ensures Quiet(original, [])
  {
    assert IsPairing(original, [], map[]);
  }

  lemma SomeAccounting(original: seq<Site>, attempted: seq<Site>) returns (m: map<int, int>)
    requires Quiet(original, attempted)
    ensures IsPairing(original, attempted, m) && forall c :: 0 <= c < |attempted| ==> c in m
  {
    m :| IsPairing(original, attempted, m) && forall c :: 0 <= c < |attempted| ==> c in m;
  }

  /** Taking suppressions away, or moving them about without changing what they silence, is never reported. */
  lemma {:induction false} FewerSuppressionsAreQuiet(original: seq<Site>, attempted: seq<Site>)
    requires Essences(attempted) <= Essences(original)
    ensures Quiet(original, attempted)
  {
    if attempted == [] {
      NothingIsQuiet(original);
    } else {
      var n := |attempted| - 1;
      EssencesLast(attempted);
      hide *;
      var e := Essence(attempted[n]);
      var i := EssenceAt(original, e);
      var rest := original[..i] + original[i + 1..];
      FewerSuppressionsAreQuiet(rest, attempted[..n]);
      var m := SomeAccounting(rest, attempted[..n]);
      Reinsert(original, attempted, i, m);
    }
  }

  lemma Reinsert(original: seq<Site>, attempted: seq<Site>, i: nat, m: map<int, int>)
    requires attempted != [] && i < |original|
    requires Essence(attempted[|attempted| - 1]) == Essence(original[i])
    requires IsPairing(original[..i] + original[i + 1..], attempted[..|attempted| - 1], m)
    requires forall c :: 0 <= c < |attempted| - 1 ==> c in m
    ensures Quiet(original, attempted)
  {
    var n := |attempted| - 1;
    var m' := map c | 0 <= c <= n :: if c == n then i else if m[c] < i then m[c] else m[c] + 1;
    forall c | c in m' ensures 0 <= m'[c] < |original| && MayPair(original[m'[c]], attempted[c]) {
      if c == n {
        EssenceDecides(attempted[n], original[i]);
      }
    }
    assert IsPairing(original, attempted, m');
  }

  lemma EssenceDecides(a: Site, o: Site)
    requires Essence(a) == Essence(o)
    ensures MayPair(o, a)
  {
    NarrowsReflexive(a);
    assert a.kind == o.kind && a.scope == o.scope && a.constraint == o.constraint && a.identity == o.identity;
  }

  /** The kind of a site that the extraction emits is settled by its identity. */
  predicate WellFormed(s: Site) {
    && Carried(s)
    && (s.kind == LEGACY_DUPLICATE <==> s.identity == LEGACY_IDENTITY)
  }

  const LEGACY_IDENTITY := "file\0header\0duplicate:+build"

  lemma MayPairComposes(a: Site, b: Site, o: Site)
    requires MayPair(b, a) && MayPair(o, b) && WellFormed(a) && WellFormed(b) && WellFormed(o)
    ensures MayPair(o, a)
  {
    hide Narrows;
    NarrowsTransitive(a, b, o);
  }

  /** Two attempts that each add nothing add nothing together. */
  lemma QuietComposes(original: seq<Site>, middle: seq<Site>, attempted: seq<Site>)
    requires Quiet(original, middle) && Quiet(middle, attempted)
    requires forall s :: s in original || s in middle || s in attempted ==> WellFormed(s)
    ensures Quiet(original, attempted)
  {
    hide MayPair, WellFormed;
    var f := SomeAccounting(original, middle);
    var g := SomeAccounting(middle, attempted);
    var h := map c | 0 <= c < |attempted| :: f[g[c]];
    forall c | c in h ensures 0 <= h[c] < |original| && MayPair(original[h[c]], attempted[c]) {
      var a, b, o := attempted[c], middle[g[c]], original[h[c]];
      assert MayPair(b, a) && MayPair(o, b);
      assert WellFormed(a) && WellFormed(b) && WellFormed(o);
      MayPairComposes(a, b, o);
    }
    assert IsPairing(original, attempted, h);
  }

  // ---- duplicate directives in a file header

  ghost predicate AllHold(directives: seq<Expr>, on: Assignment) {
    forall d :: d in directives ==> Holds(d, on)
  }

  ghost predicate Repeats(directive: Expr, representatives: seq<Expr>) {
    exists i :: 0 <= i < |representatives| && Equivalent(directive, representatives[i])
  }

  ghost predicate Inequivalent(directives: seq<Expr>) {
    forall i, j :: 0 <= i < j < |directives| ==> !Equivalent(directives[j], directives[i])
  }

  /** Each directive repeats exactly one representative, and no representative repeats another. */
  ghost predicate Represents(representatives: seq<Expr>, directives: seq<Expr>) {
    && (forall d :: d in directives ==> Repeats(d, representatives))
    && (forall r :: r in representatives ==> r in directives)
    && Inequivalent(representatives)
  }

  /** Whether some representative is equivalent to the directive: the inner loop of the legacy pass. */
  method FindRepresentative(directive: Expr, representatives: seq<Expr>, budget: IntCell?) returns (r: Result<bool>)
    modifies budget
    ensures r.Ok? ==> (r.value <==> Repeats(directive, representatives))
    ensures old(Left(budget)) >= 0 ==> Left(budget) >= 0
  {
    hide Equivalent, EquivalentCost, TagCount;
    for i := 0 to |representatives|
      invariant forall k :: 0 <= k < i ==> !Equivalent(directive, representatives[k])
      invariant old(Left(budget)) >= 0 ==> Left(budget) >= 0
    {
      var equivalent := ConstraintsEquivalent(directive, representatives[i], null, budget);
      if equivalent.ResourceLimit? {
        return ResourceLimit;
      }
      if equivalent.value {
        return Ok(true);
      }
    }
    return Ok(false);
  }

  /** Splits the `+build` directives of a header into representatives and reported duplicates. */
  method PartitionLegacy(legacy: seq<Expr>, budget: IntCell?)
    returns (ok: bool, representatives: seq<Expr>, duplicates: seq<Expr>)
    modifies budget
    ensures ok ==> Represents(representatives, legacy)
    ensures ok ==> multiset(representatives) + multiset(duplicates) == multiset(legacy)
    ensures old(Left(budget)) >= 0 ==> Left(budget) >= 0
  {
    hide Equivalent;
    representatives, duplicates := [], [];
    for i := 0 to |legacy|
      invariant Represents(representatives, legacy[..i])
      invariant multiset(representatives) + multiset(duplicates) == multiset(legacy[..i])
      invariant old(Left(budget)) >= 0 ==> Left(budget) >= 0
    {
      var duplicate := FindRepresentative(legacy[i], representatives, budget);
      if duplicate.ResourceLimit? {
        return false, representatives, duplicates;
      }
      AddDirective(representatives, legacy[..i], legacy[i], duplicate.value);
      assert legacy[..i + 1] == legacy[..i] + [legacy[i]];
      if duplicate.value {
        duplicates := duplicates + [legacy[i]];
      } else {
        representatives := representatives + [legacy[i]];
      }
    }
    assert legacy[..|legacy|] == legacy;
    return true, representatives, duplicates;
  }

  lemma AddDirective(representatives: seq<Expr>, directives: seq<Expr>, directive: Expr, duplicate: bool)
    requires Represents(representatives, directives)
    requires duplicate <==> Repeats(directive, representatives)
    ensures Represents(if duplicate then representatives else representatives + [directive], directives + [directive])
  {
    hide Holds;
    var now := if duplicate then representatives else representatives + [directive];
    forall d | d in directives + [directive] ensures Repeats(d, now) {
      if d in directives {
        var i :| 0 <= i < |representatives| && Equivalent(d, representatives[i]);
        assert now[i] == representatives[i];
      } else if !duplicate {
        assert now[|representatives|] == d && Equivalent(d, d);
      }
    }
  }

  lemma ItsRepresentative(representatives: seq<Expr>, directive: Expr) returns (r: Expr)
    requires Repeats(directive, representatives)
    ensures r in representatives && Equivalent(directive, r)
  {
    hide Equivalent;
    var i :| 0 <= i < |representatives| && Equivalent(directive, representatives[i]);
    r := representatives[i];
  }

  /** The representatives together demand what all the directives demand. */
  lemma RepresentativesSuffice(representatives: seq<Expr>, directives: seq<Expr>, on: Assignment)
    requires Represents(representatives, directives)
    ensures AllHold(representatives, on) <==> AllHold(directives, on)
  {
    hide Repeats, Inequivalent;
    if AllHold(representatives, on) {
      forall d | d in directives ensures Holds(d, on) {
        var r := ItsRepresentative(representatives, d);
        assert Holds(r, on);
      }
    }
  }

  /** The effective constraint of a header without a `go:build` line. */
  function Conjunction(legacy: seq<Expr>): Expr
    requires legacy != []
  {
    if |legacy| == 1 then legacy[0] else And(Conjunction(legacy[..|legacy| - 1]), legacy[|legacy| - 1])
  }

  lemma {:induction false} ConjunctionHolds(legacy: seq<Expr>, on: Assignment)
    requires legacy != []
    ensures Holds(Conjunction(legacy), on) <==> AllHold(legacy, on)
  {
    var n := |legacy| - 1;
    assert legacy == legacy[..n] + [legacy[n]];
    if n > 0 { ConjunctionHolds(legacy[..n], on); }
  }

  /** Dropping the reported duplicates would not change what the header demands. */
  lemma DuplicatesAreRedundant(legacy: seq<Expr>, representatives: seq<Expr>)
    requires legacy != [] && Represents(representatives, legacy)
    ensures representatives != [] && Equivalent(Conjunction(legacy), Conjunction(representatives))
  {
    hide Repeats, AllHold, Holds, Conjunction, Inequivalent;
    assert legacy[0] in legacy;
    var r := ItsRepresentative(representatives, legacy[0]);
    forall on: Assignment ensures Holds(Conjunction(legacy), on) <==> Holds(Conjunction(representatives), on) {
      ConjunctionHolds(legacy, on);
      ConjunctionHolds(representatives, on);
      RepresentativesSuffice(representatives, legacy, on);
    }
  }
}
