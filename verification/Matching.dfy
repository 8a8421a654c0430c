/** Bipartite matching by breadth-first augmenting paths, as `compareSuppressionSitesBounded`
    runs it, and the vertex-cover argument that makes its result maximum
    (internal/flywheel/suppression.go:1474-1526). */
module Matching {
  import opened Constraints

  /** edges[c] lists the baselines that candidate c may be paired with. */
  type Edges = seq<seq<int>>

  ghost predicate InRange(edges: Edges, originals: nat) {
    forall c, j :: 0 <= c < |edges| && 0 <= j < |edges[c]| ==> 0 <= edges[c][j] < originals
  }

  /** A one-to-one assignment of candidates to baselines along edges. */
  ghost predicate IsMatching(edges: Edges, m: map<int, int>) {
    && (forall c :: c in m ==> 0 <= c < |edges| && m[c] in edges[c])
    && (forall c, d :: c in m && d in m && m[c] == m[d] ==> c == d)
  }

  ghost predicate IsMaximum(edges: Edges, m: map<int, int>) {
    && IsMatching(edges, m)
    && forall other: map<int, int> :: IsMatching(edges, other) ==> |other| <= |m|
  }

  // ---- the certificate of maximality

  /** Z holds every unmatched candidate, and everything Z can reach is matched back into Z. */
  ghost predicate Saturated(edges: Edges, m: map<int, int>, z: set<int>) {
    && (forall c :: 0 <= c < |edges| && c !in m ==> c in z)
    && (forall c, o :: c in z && 0 <= c < |edges| && o in edges[c] ==> exists d :: d in z && d in m && m[d] == o)
  }

  lemma {:induction false} InjectionBound<A, B>(a: set<A>, b: set<B>, f: map<A, B>)
    requires a <= f.Keys
    requires forall x :: x in a ==> f[x] in b
    requires forall x, y :: x in a && y in a && f[x] == f[y] ==> x == y
    ensures |a| <= |b|
  {
    if a != {} {
      var x :| x in a;
      InjectionBound(a - {x}, b - {f[x]}, f);
    }
  }

  ghost function PartnerInZ(m: map<int, int>, z: set<int>, o: int): (d: int)
    requires exists d :: d in z && d in m && m[d] == o
    ensures d in z && d in m && m[d] == o
  {
    var d :| d in z && d in m && m[d] == o;
    d
  }

  /** No assignment beats a matching that has such a set: outside Z every candidate is already
      matched, and inside Z an assignment can use only the baselines Z already holds. */
  lemma SaturatedIsMaximum(edges: Edges, m: map<int, int>, z: set<int>)
    requires IsMatching(edges, m) && Saturated(edges, m, z)
    ensures IsMaximum(edges, m)
  {
    forall other: map<int, int> | IsMatching(edges, other) ensures |other| <= |m| {
      var f := map c | c in other :: if c in z then PartnerInZ(m, z, other[c]) else c;
      forall x, y | x in other && y in other && f[x] == f[y] ensures x == y {
        if x in z && y in z { assert other[x] == other[y]; }
      }
      InjectionBound(other.Keys, m.Keys, f);
      assert |other.Keys| == |other| && |m.Keys| == |m|;
    }
  }

  // ---- the arrays of the algorithm

  /** `matchCandidate` and `matchOriginal` are inverse to each other, along edges; -1 means unmatched. */
  ghost predicate Consistent(edges: Edges, mc: seq<int>, mo: seq<int>) {
    && |mc| == |edges|
    && (forall c :: 0 <= c < |mc| && mc[c] >= 0 ==> mc[c] < |mo| && mo[mc[c]] == c && mc[c] in edges[c])
    && (forall o :: 0 <= o < |mo| && mo[o] >= 0 ==> mo[o] < |mc| && mc[mo[o]] == o)
  }

  ghost function AsMatching(mc: seq<int>): map<int, int> {
    map c: int | 0 <= c < |mc| && mc[c] >= 0 :: mc[c]
  }

  lemma ConsistentIsMatching(edges: Edges, mc: seq<int>, mo: seq<int>)
    requires Consistent(edges, mc, mo)
    ensures IsMatching(edges, AsMatching(mc))
  {
  }

  /** Everything reachable from Z is matched back into Z. */
  ghost predicate Closed(edges: Edges, mo: seq<int>, z: set<int>) {
    forall c, o :: c in z && 0 <= c < |edges| && o in edges[c] ==> 0 <= o < |mo| && mo[o] >= 0 && mo[o] in z
  }

  // ---- the bookkeeping of one breadth-first search

  /** `rank` orders the discovered baselines; `done` holds the candidates taken off the queue. */
  datatype Search = Search(seen: set<int>, rank: map<int, nat>, done: set<int>, queue: seq<int>)

  /** Each discovered baseline was reached from `start`, or from a candidate matched to a baseline
      discovered earlier. */
  ghost predicate Tree(edges: Edges, mc: seq<int>, previous: seq<int>, start: int, rank: map<int, nat>) {
    && |mc| == |edges|
    && forall o :: o in rank ==>
         && 0 <= o < |previous| && 0 <= previous[o] < |edges| && o in edges[previous[o]]
         && (previous[o] == start || (mc[previous[o]] in rank && rank[mc[previous[o]]] < rank[o]))
  }

  ghost predicate Frontier(mc: seq<int>, mo: seq<int>, start: int, s: Search) {
    && start in s.seen
    && (forall c :: c in s.seen ==> 0 <= c < |mc| && (c == start || mc[c] in s.rank))
    && (forall o :: o in s.rank ==> 0 <= o < |mo| && s.rank[o] < |s.rank|)
  }

  ghost predicate MatchedBack(mo: seq<int>, s: Search) {
    forall o :: o in s.rank ==> 0 <= o < |mo| && mo[o] >= 0 && mo[o] in s.seen
  }

  ghost predicate Pending(s: Search) {
    && (forall c :: c in s.queue ==> c in s.seen && c !in s.done)
    && (forall i, j :: 0 <= i < j < |s.queue| ==> s.queue[i] != s.queue[j])
    && (forall c :: c in s.seen ==> c in s.done || c in s.queue)
    && s.done <= s.seen
  }

  ghost predicate Stamps(marks: seq<int>, stamp: int, marked: set<int>) {
    forall i :: 0 <= i < |marks| ==> marks[i] <= stamp && (marks[i] == stamp <==> i in marked)
  }

  ghost predicate Searching(edges: Edges, mc: seq<int>, mo: seq<int>, previous: seq<int>, start: int, s: Search) {
    && Tree(edges, mc, previous, start, s.rank)
    && Frontier(mc, mo, start, s)
    && MatchedBack(mo, s)
    && Pending(s)
  }

  /** Every edge of these candidates has been followed. */
  ghost predicate Explored(edges: Edges, done: set<int>, rank: map<int, nat>) {
    forall c, o :: c in done && 0 <= c < |edges| && o in edges[c] ==> o in rank
  }

  /** Reaching a baseline for the first time, and through it the candidate it is matched to. */
  ghost function Reached(s: Search, baseline: int): Search {
    s.(rank := s.rank[baseline := |s.rank|])
  }

  ghost function Queued(s: Search, next: int): Search {
    if next in s.seen then s else s.(seen := s.seen + {next}, queue := s.queue + [next])
  }

  lemma ReachedKeepsTree(edges: Edges, mc: seq<int>, mo: seq<int>, previous: seq<int>, start: int, s: Search,
                         candidate: int, baseline: int)
    requires Tree(edges, mc, previous, start, s.rank) && Frontier(mc, mo, start, s)
    requires candidate in s.seen && baseline in edges[candidate] && baseline !in s.rank
    requires 0 <= baseline < |previous| == |mo|
    ensures Tree(edges, mc, previous[baseline := candidate], start, Reached(s, baseline).rank)
    ensures Frontier(mc, mo, start, Reached(s, baseline))
  {
    var rank, previous' := Reached(s, baseline).rank, previous[baseline := candidate];
    assert |rank| == |s.rank| + 1;
    forall o | o in rank
      ensures 0 <= previous'[o] < |edges| && o in edges[previous'[o]]
      ensures previous'[o] == start || (mc[previous'[o]] in rank && rank[mc[previous'[o]]] < rank[o])
    {
      if o == baseline {
        assert rank[o] == |s.rank|;
        if candidate != start {
          var via := mc[candidate];
          assert via in s.rank && via != baseline;
          assert s.rank[via] < |s.rank|;
          assert rank[via] == s.rank[via];
        }
      } else {
        assert o in s.rank && rank[o] == s.rank[o];
      }
    }
  }

  lemma ReachedKeepsPending(s: Search, baseline: int)
    requires Pending(s)
    ensures Pending(Reached(s, baseline))
  {
  }

  lemma QueuedKeepsPending(s: Search, next: int)
    requires Pending(s)
    ensures Pending(Queued(s, next)) && next in Queued(s, next).seen
  {
    var t := Queued(s, next);
    if next !in s.seen {
      forall i, j | 0 <= i < j < |t.queue| ensures t.queue[i] != t.queue[j] {
        assert t.queue[i] == s.queue[i] && s.queue[i] in s.queue;
        if j < |s.queue| { assert t.queue[j] == s.queue[j]; }
      }
      forall c | c in t.queue ensures c in t.seen && c !in t.done { }
      forall c | c in t.seen ensures c in t.done || c in t.queue {
        if c == next { assert t.queue[|s.queue|] == next; }
      }
    }
  }

  lemma QueuedKeepsFrontier(mc: seq<int>, mo: seq<int>, start: int, s: Search, next: int)
    requires Frontier(mc, mo, start, s) && 0 <= next < |mc| && mc[next] in s.rank
    ensures Frontier(mc, mo, start, Queued(s, next))
  {
  }

  lemma QueuedKeepsSearch(edges: Edges, mc: seq<int>, mo: seq<int>, previous: seq<int>, start: int, s: Search,
                          baseline: int)
    requires Tree(edges, mc, previous, start, s.rank) && Frontier(mc, mo, start, s) && Pending(s)
    requires baseline in s.rank && 0 <= baseline < |mo| && 0 <= mo[baseline] < |mc| && mc[mo[baseline]] == baseline
    requires forall o :: o in s.rank && o != baseline ==> 0 <= o < |mo| && mo[o] >= 0 && mo[o] in s.seen
    ensures Searching(edges, mc, mo, previous, start, Queued(s, mo[baseline]))
  {
    hide Tree, Frontier, Pending;
    QueuedKeepsPending(s, mo[baseline]);
    QueuedKeepsFrontier(mc, mo, start, s, mo[baseline]);
  }

  /** One unit of work for one edge: the source counts it first and looks at the limit after. */
  method ChargeEdge(work: IntCell, budget: IntCell?) returns (ok: bool)
    requires work != budget
    modifies work, budget
    ensures ok <==> old(Left(budget)) >= 1 && old(work.value) < MAX_MATCH_WORK
    ensures ok ==> Left(budget) == old(Left(budget)) - 1 && work.value == old(work.value) + 1
    ensures old(Left(budget)) >= 0 ==> Left(budget) >= 0
  {
    ok := SpendSuppressionWork(budget, 1);
    if ok {
      work.value := work.value + 1;
      ok := work.value <= MAX_MATCH_WORK;
    }
  }

  // ---- the search

  /** The arrays are separate, sized to the graph, and the graph has no repeated edges. */
  ghost predicate Arrays(edges: Edges, mo: array<int>, seenCandidate: array<int>, seenOriginal: array<int>,
                         previous: array<int>) {
    && mo != seenCandidate && mo != seenOriginal && mo != previous
    && seenCandidate != seenOriginal && seenCandidate != previous && seenOriginal != previous
    && seenCandidate.Length == |edges| && seenOriginal.Length == mo.Length == previous.Length
    && InRange(edges, mo.Length)
    && forall c :: 0 <= c < |edges| ==> |edges[c]| <= mo.Length
  }

  ghost predicate AtMost(marks: seq<int>, stamp: int) {
    forall i :: 0 <= i < |marks| ==> marks[i] <= stamp
  }

  /** Looks along one edge.  Returns a free baseline, or -1. */
  method Visit(edges: Edges, candidate: int, baseline: int, start: int, mo: array<int>, seenCandidate: array<int>,
               seenOriginal: array<int>, previous: array<int>, ghost mc: seq<int>, ghost s: Search)
    returns (free: int, added: seq<int>, ghost s': Search)
    requires Arrays(edges, mo, seenCandidate, seenOriginal, previous)
    requires Consistent(edges, mc, mo[..]) && 0 <= baseline < mo.Length
    requires Searching(edges, mc, mo[..], previous[..], start, s)
    requires candidate in s.seen && baseline in edges[candidate]
    requires Stamps(seenCandidate[..], start + 1, s.seen) && Stamps(seenOriginal[..], start + 1, s.rank.Keys)
    modifies seenCandidate, seenOriginal, previous
    ensures free == baseline || free == -1
    ensures Stamps(seenCandidate[..], start + 1, s'.seen) && Stamps(seenOriginal[..], start + 1, s'.rank.Keys)
    ensures free == baseline ==>
      mo[baseline] < 0 && baseline in s'.rank && Tree(edges, mc, previous[..], start, s'.rank) &&
      Frontier(mc, mo[..], start, s')
    ensures free == -1 ==>
      && Searching(edges, mc, mo[..], previous[..], start, s')
      && baseline in s'.rank && s'.done == s.done && s'.queue == s.queue + added
    ensures s.rank.Keys <= s'.rank.Keys && s.seen <= s'.seen
  {
    hide Tree, Frontier, Pending;
    var stamp := start + 1;
    s' := s;
    if seenOriginal[baseline] == stamp {
      return -1, [], s';
    }
    ReachedKeepsTree(edges, mc, mo[..], previous[..], start, s, candidate, baseline);
    ReachedKeepsPending(s, baseline);
    seenOriginal[baseline] := stamp;
    previous[baseline] := candidate;
    s' := Reached(s, baseline);
    assert previous[..] == old(previous[..])[baseline := candidate];
    if mo[baseline] < 0 {
      return baseline, [], s';
    }
    var next := mo[baseline];
    QueuedKeepsSearch(edges, mc, mo[..], previous[..], start, s', baseline);
    added := [];
    if seenCandidate[next] != stamp {
      seenCandidate[next] := stamp;
      added := [next];
    }
    s' := Queued(s', next);
    return -1, added, s';
  }

  /** Looks along every edge of one candidate, stopping at a free baseline. */
  method Expand(edges: Edges, candidate: int, start: int, mo: array<int>, seenCandidate: array<int>,
                seenOriginal: array<int>, previous: array<int>, queue: seq<int>, work: IntCell, budget: IntCell?,
                ghost mc: seq<int>, ghost s: Search)
    returns (r: Result<int>, queue': seq<int>, ghost s': Search)
    requires work != budget
    requires Arrays(edges, mo, seenCandidate, seenOriginal, previous)
    requires Consistent(edges, mc, mo[..])
    requires Searching(edges, mc, mo[..], previous[..], start, s)
    requires 0 <= candidate < |edges| && candidate in s.done && candidate in s.seen && s.queue == queue
    requires Explored(edges, s.done - {candidate}, s.rank)
    requires Stamps(seenCandidate[..], start + 1, s.seen) && Stamps(seenOriginal[..], start + 1, s.rank.Keys)
    modifies seenCandidate, seenOriginal, previous, work, budget
    ensures old(Left(budget)) >= 0 ==> Left(budget) >= 0
    ensures r.ResourceLimit? ==>
      old(Left(budget)) < |edges[candidate]| || old(work.value) + |edges[candidate]| > MAX_MATCH_WORK
    ensures r.Ok? ==>
      && old(Left(budget)) - Left(budget) == work.value - old(work.value)
      && 0 <= work.value - old(work.value) <= |edges[candidate]|
      && (old(work.value) <= MAX_MATCH_WORK ==> work.value <= MAX_MATCH_WORK)
    ensures r.Ok? ==>
      && Stamps(seenCandidate[..], start + 1, s'.seen) && Stamps(seenOriginal[..], start + 1, s'.rank.Keys)
      && Tree(edges, mc, previous[..], start, s'.rank) && Frontier(mc, mo[..], start, s')
    ensures r.Ok? && r.value >= 0 ==> r.value < mo.Length && mo[r.value] < 0 && r.value in s'.rank
    ensures r.Ok? && r.value < 0 ==>
      && Searching(edges, mc, mo[..], previous[..], start, s')
      && s'.done == s.done && s'.queue == queue' && Explored(edges, s'.done, s'.rank)
  {
    hide Consistent, Stamps, Tree, Frontier, MatchedBack, Pending;
    queue', s' := queue, s;
    var j := 0;
    while j < |edges[candidate]|
      invariant 0 <= j <= |edges[candidate]|
      invariant Left(budget) == old(Left(budget)) - j && work.value == old(work.value) + j
      invariant old(work.value) <= MAX_MATCH_WORK ==> work.value <= MAX_MATCH_WORK
      invariant old(Left(budget)) >= 0 ==> Left(budget) >= 0
      invariant Searching(edges, mc, mo[..], previous[..], start, s')
      invariant Stamps(seenCandidate[..], start + 1, s'.seen) && Stamps(seenOriginal[..], start + 1, s'.rank.Keys)
      invariant s'.done == s.done && s'.queue == queue'
      invariant s.rank.Keys <= s'.rank.Keys && s.seen <= s'.seen
      invariant forall k :: 0 <= k < j ==> edges[candidate][k] in s'.rank
    {
      var ok := ChargeEdge(work, budget);
      if !ok {
        return ResourceLimit, queue', s';
      }
      var free, added;
      free, added, s' := Visit(edges, candidate, edges[candidate][j], start, mo, seenCandidate, seenOriginal, previous,
                               mc, s');
      if free >= 0 {
        return Ok(free), queue', s';
      }
      queue' := queue' + added;
      j := j + 1;
    }
    return Ok(-1), queue', s';
  }

  ghost function RangeSet(n: nat): set<int> {
    if n == 0 then {} else RangeSet(n - 1) + {n - 1}
  }

  lemma {:induction false} RangeCardinality(n: nat)
    ensures |RangeSet(n)| == n
    ensures forall x :: x in RangeSet(n) <==> 0 <= x < n
  {
    if n > 0 { RangeCardinality(n - 1); }
  }

  /** Taking a candidate off the queue. */
  ghost function Popped(s: Search): Search
    requires s.queue != []
  {
    s.(done := s.done + {s.queue[0]}, queue := s.queue[1..])
  }

  lemma PopKeepsPending(s: Search)
    requires Pending(s) && s.queue != []
    ensures Pending(Popped(s)) && s.queue[0] in s.seen && s.queue[0] !in s.done
  {
    var head, rest := s.queue[0], s.queue[1..];
    assert s.queue[0] in s.queue;
    forall c | c in rest ensures c in s.seen && c !in Popped(s).done {
      var i :| 0 <= i < |rest| && rest[i] == c;
      assert s.queue[i + 1] == c && c in s.queue;
    }
    forall c | c in s.seen ensures c in Popped(s).done || c in rest {
      if c !in s.done && c != head {
        var i :| 0 <= i < |s.queue| && s.queue[i] == c;
        assert rest[i - 1] == c;
      }
    }
    forall i, j | 0 <= i < j < |rest| ensures rest[i] != rest[j] {
      assert s.queue[i + 1] != s.queue[j + 1];
    }
  }

  lemma PopKeepsSearch(edges: Edges, mc: seq<int>, mo: seq<int>, previous: seq<int>, start: int, s: Search)
    requires Searching(edges, mc, mo, previous, start, s) && s.queue != [] && Explored(edges, s.done, s.rank)
    ensures Searching(edges, mc, mo, previous, start, Popped(s))
    ensures s.queue[0] in s.seen && s.queue[0] !in s.done && 0 <= s.queue[0] < |edges|
    ensures Explored(edges, Popped(s).done - {s.queue[0]}, s.rank)
  {
    PopKeepsPending(s);
    hide Pending;
    assert Frontier(mc, mo, start, Popped(s));
    assert MatchedBack(mo, Popped(s));
    assert 0 <= s.queue[0] < |mc|;
    hide Frontier, MatchedBack;
    assert |mc| == |edges|;
    hide Tree;
    ExploredFewer(edges, s.done, Popped(s).done - {s.queue[0]}, s.rank);
  }

  lemma ExploredFewer(edges: Edges, done: set<int>, fewer: set<int>, rank: map<int, nat>)
    requires Explored(edges, done, rank) && forall c :: c in fewer ==> c in done
    ensures Explored(edges, fewer, rank)
  {
  }

  /** The state of a finished search: a free baseline with its tree, or a set closed under the search. */
  ghost predicate Searched(edges: Edges, mc: seq<int>, mo: seq<int>, previous: seq<int>, start: int, free: int,
                           s: Search) {
    if free >= 0
    then free < |mo| && mo[free] < 0 && free in s.rank && Tree(edges, mc, previous, start, s.rank)
    else start in s.seen && (forall c :: c in s.seen ==> c in s.done)
         && Explored(edges, s.done, s.rank) && MatchedBack(mo, s)
  }

  /** A search under way: `left` are the candidates it has not taken off its queue. */
  ghost predicate Live(edges: Edges, mc: seq<int>, mo: seq<int>, previous: seq<int>, seenCandidate: seq<int>,
                       seenOriginal: seq<int>, start: int, s: Search, left: set<int>) {
    && Searching(edges, mc, mo, previous, start, s) && Explored(edges, s.done, s.rank)
    && Stamps(seenCandidate, start + 1, s.seen) && Stamps(seenOriginal, start + 1, s.rank.Keys)
    && forall c :: 0 <= c < |edges| && c !in s.done ==> c in left
  }

  lemma StartSearch(edges: Edges, mc: seq<int>, mo: seq<int>, previous: seq<int>, seenCandidate: seq<int>,
                    seenOriginal: seq<int>, start: int)
    requires |mc| == |edges| && 0 <= start < |seenCandidate| == |edges|
    requires AtMost(seenCandidate, start)
    requires AtMost(seenOriginal, start)
    ensures Live(edges, mc, mo, previous, seenCandidate[start := start + 1], seenOriginal, start,
                 Search({start}, map[], {}, [start]), RangeSet(|edges|))
  {
    RangeCardinality(|edges|);
  }

  lemma FinishSearch(edges: Edges, mc: seq<int>, mo: seq<int>, previous: seq<int>, start: int, s: Search,
                     seenCandidate: seq<int>, seenOriginal: seq<int>)
    requires Stamps(seenCandidate, start + 1, s.seen) && Stamps(seenOriginal, start + 1, s.rank.Keys)
    ensures AtMost(seenCandidate, start + 1)
    ensures AtMost(seenOriginal, start + 1)
  {
  }

  lemma EmptyQueue(edges: Edges, mc: seq<int>, mo: seq<int>, previous: seq<int>, seenCandidate: seq<int>,
                   seenOriginal: seq<int>, start: int, s: Search, left: set<int>)
    requires Live(edges, mc, mo, previous, seenCandidate, seenOriginal, start, s, left) && s.queue == []
    ensures Searched(edges, mc, mo, previous, start, -1, s)
    ensures AtMost(seenCandidate, start + 1)
    ensures AtMost(seenOriginal, start + 1)
  {
  }

  lemma PaidMore(left0: int, work0: int, left1: int, work1: int, left2: int, work2: int, rows: nat, limit: nat,
                 unit: nat)
    requires Paid(left0, work0, left1, work1, RowsCost(rows, unit)) && rows < limit
    ensures Paid(left1, work1, left2, work2, unit) ==> Paid(left0, work0, left2, work2, RowsCost(rows + 1, unit))
    ensures Short(left1, work1, unit) ==> Short(left0, work0, RowsCost(limit, unit))
    ensures Paid(left1, work1, left2, work2, unit) ==> Paid(left0, work0, left2, work2, RowsCost(limit, unit))
  {
    OneMoreRow(rows, limit, unit);
  }

  lemma PaidAtMost(left0: int, work0: int, left1: int, work1: int, rows: nat, limit: nat, unit: nat)
    requires Paid(left0, work0, left1, work1, RowsCost(rows, unit)) && rows <= limit
    ensures Paid(left0, work0, left1, work1, RowsCost(limit, unit))
  {
    MoreRowsCostMore(rows, limit, unit);
  }

  /** Takes one candidate off the queue and expands it. */
  method Round(edges: Edges, start: int, mo: array<int>, seenCandidate: array<int>, seenOriginal: array<int>,
               previous: array<int>, queue: seq<int>, work: IntCell, budget: IntCell?,
               ghost mc: seq<int>, ghost s: Search, ghost left: set<int>)
    returns (r: Result<int>, queue': seq<int>, ghost s': Search, ghost left': set<int>)
    requires work != budget
    requires Arrays(edges, mo, seenCandidate, seenOriginal, previous)
    requires Consistent(edges, mc, mo[..])
    requires Live(edges, mc, mo[..], previous[..], seenCandidate[..], seenOriginal[..], start, s, left)
    requires queue == s.queue && queue != []
    modifies seenCandidate, seenOriginal, previous, work, budget
    ensures |left'| == |left| - 1
    ensures old(Left(budget)) >= 0 ==> Left(budget) >= 0
    ensures r.ResourceLimit? ==> Short(old(Left(budget)), old(work.value), mo.Length)
    ensures r.Ok? ==> Paid(old(Left(budget)), old(work.value), Left(budget), work.value, mo.Length)
    ensures r.Ok? ==> AtMost(seenCandidate[..], start + 1) && AtMost(seenOriginal[..], start + 1)
    ensures r.Ok? && r.value >= 0 ==> Searched(edges, mc, mo[..], previous[..], start, r.value, s')
    ensures r.Ok? && r.value < 0 ==>
      queue' == s'.queue && Live(edges, mc, mo[..], previous[..], seenCandidate[..], seenOriginal[..], start, s', left')
  {
    hide Consistent, Explored, Tree, MatchedBack, Frontier, InRange, Pending, AtMost;
    var candidate := queue[0];
    queue' := queue[1..];
    PopKeepsSearch(edges, mc, mo[..], previous[..], start, s);
    s' := Popped(s);
    left' := left - {candidate};
    hide Searching, Stamps;
    r, queue', s' := Expand(edges, candidate, start, mo, seenCandidate, seenOriginal, previous, queue', work, budget,
                            mc, s');
    if r.Ok? {
      FinishSearch(edges, mc, mo[..], previous[..], start, s', seenCandidate[..], seenOriginal[..]);
    }
  }

  /** Rounds until a free baseline turns up or the queue is empty. */
  method Drain(edges: Edges, start: int, mo: array<int>, seenCandidate: array<int>, seenOriginal: array<int>,
               previous: array<int>, pending: seq<int>, work: IntCell, budget: IntCell?,
               ghost mc: seq<int>, ghost s0: Search, ghost all: set<int>)
    returns (r: Result<int>, ghost s: Search)
    requires work != budget && |all| == |edges| && s0.queue == pending
    requires Arrays(edges, mo, seenCandidate, seenOriginal, previous)
    requires Consistent(edges, mc, mo[..])
    requires Live(edges, mc, mo[..], previous[..], seenCandidate[..], seenOriginal[..], start, s0, all)
    modifies seenCandidate, seenOriginal, previous, work, budget
    ensures old(Left(budget)) >= 0 ==> Left(budget) >= 0
    ensures r.ResourceLimit? ==> Short(old(Left(budget)), old(work.value), RowsCost(|edges|, mo.Length))
    ensures r.Ok? ==> Paid(old(Left(budget)), old(work.value), Left(budget), work.value, RowsCost(|edges|, mo.Length))
    ensures r.Ok? ==> Searched(edges, mc, mo[..], previous[..], start, r.value, s)
    ensures r.Ok? ==> AtMost(seenCandidate[..], start + 1) && AtMost(seenOriginal[..], start + 1)
  {
    ghost var was, left0, work0 := mo[..], Left(budget), work.value;
    assert mo != seenCandidate && mo != seenOriginal && mo != previous;
    assert Paid(left0, work0, left0, work0, RowsCost(0, mo.Length));
    hide *;
    var queue := pending;
    s := s0;
    ghost var left := all;
    while |queue| > 0
      invariant mo[..] == was && s.queue == queue && |left| <= |edges|
      invariant left0 >= 0 ==> Left(budget) >= 0
      invariant Live(edges, mc, was, previous[..], seenCandidate[..], seenOriginal[..], start, s, left)
      invariant Paid(left0, work0, Left(budget), work.value, RowsCost(|edges| - |left|, mo.Length))
      decreases |left|
    {
      ghost var left1, work1 := Left(budget), work.value;
      r, queue, s, left := Round(edges, start, mo, seenCandidate, seenOriginal, previous, queue, work, budget, mc, s,
                                 left);
      PaidMore(left0, work0, left1, work1, Left(budget), work.value, |edges| - |left| - 1, |edges|, mo.Length);
      if r.ResourceLimit? || r.value >= 0 {
        return;
      }
    }
    PaidAtMost(left0, work0, Left(budget), work.value, |edges| - |left|, |edges|, mo.Length);
    assert s.queue == [];
    EmptyQueue(edges, mc, was, previous[..], seenCandidate[..], seenOriginal[..], start, s, left);
    return Ok(-1), s;
  }

  /** Breadth-first search for an augmenting path from an unmatched candidate. */
  method FindPath(edges: Edges, start: int, mo: array<int>, seenCandidate: array<int>, seenOriginal: array<int>,
                  previous: array<int>, work: IntCell, budget: IntCell?, ghost mc: seq<int>)
    returns (r: Result<int>, ghost s: Search)
    requires work != budget
    requires Arrays(edges, mo, seenCandidate, seenOriginal, previous)
    requires Consistent(edges, mc, mo[..])
    requires 0 <= start < |edges|
    requires AtMost(seenCandidate[..], start)
    requires AtMost(seenOriginal[..], start)
    modifies seenCandidate, seenOriginal, previous, work, budget
    ensures old(Left(budget)) >= 0 ==> Left(budget) >= 0
    ensures r.ResourceLimit? ==> Short(old(Left(budget)), old(work.value), RowsCost(|edges|, mo.Length))
    ensures r.Ok? ==> Paid(old(Left(budget)), old(work.value), Left(budget), work.value, RowsCost(|edges|, mo.Length))
    ensures r.Ok? ==> Searched(edges, mc, mo[..], previous[..], start, r.value, s)
    ensures r.Ok? ==> AtMost(seenCandidate[..], start + 1) && AtMost(seenOriginal[..], start + 1)
  {
    StartSearch(edges, mc, mo[..], previous[..], seenCandidate[..], seenOriginal[..], start);
    RangeCardinality(|edges|);
    assert mo != seenCandidate && |edges| == seenCandidate.Length;
    hide Consistent, Live, Arrays, AtMost, Searched, RangeSet, RowsCost, Paid, Short;
    var queue := [start];
    seenCandidate[start] := start + 1;
    assert seenCandidate[..] == old(seenCandidate[..])[start := start + 1];
    r, s := Drain(edges, start, mo, seenCandidate, seenOriginal, previous, queue, work, budget, mc,
                  Search({start}, map[], {}, queue), RangeSet(|edges|));
  }

  // ---- the augmentation

  /** Between two steps of the walk back along `previous`: all is consistent but for `free`, which is about
      to change hands, and everything discovered before `free` still has its old partner. */
  ghost predicate Walking(edges: Edges, mc0: seq<int>, mc: seq<int>, mo: seq<int>, previous: seq<int>, start: int,
                          rank: map<int, nat>, free: int, z: set<int>) {
    && |mc| == |mc0| == |edges| && |mo| == |previous|
    && (free >= 0 ==> free < |mo| && free in rank)
    && (forall c :: 0 <= c < |mc| && mc[c] >= 0 ==>
          mc[c] < |mo| && mc[c] != free && mo[mc[c]] == c && mc[c] in edges[c])
    && (forall o :: 0 <= o < |mo| && mo[o] >= 0 && o != free ==> mo[o] < |mc| && mc[mo[o]] == o)
    && (free >= 0 ==> forall c :: 0 <= c < |mc| && mc0[c] in rank && rank[mc0[c]] < rank[free] ==> mc[c] == mc0[c])
    && (forall c, o :: c in z && 0 <= c < |edges| && o in edges[c] ==>
          o != free && 0 <= o < |mo| && mo[o] >= 0 && mo[o] in z)
  }

  /** Who is matched: nobody loses a partner, and only `start` gains one. */
  ghost predicate OnlyGains(mc0: seq<int>, mc: seq<int>, start: int, gained: bool) {
    && |mc| == |mc0| && 0 <= start < |mc|
    && (forall c :: 0 <= c < |mc| && c != start ==> (mc[c] >= 0 <==> mc0[c] >= 0))
    && (mc[start] >= 0 <==> gained)
  }

  lemma WalkStep(edges: Edges, mc0: seq<int>, mc: seq<int>, mo: seq<int>, previous: seq<int>, start: int,
                 rank: map<int, nat>, free: int, z: set<int>)
    requires Walking(edges, mc0, mc, mo, previous, start, rank, free, z) && free >= 0
    requires Tree(edges, mc0, previous, start, rank) && OnlyGains(mc0, mc, start, false)
    ensures 0 <= previous[free] < |mc|
    ensures var c := previous[free];
            && Walking(edges, mc0, mc[c := free], mo[free := c], previous, start, rank, mc[c], z)
            && OnlyGains(mc0, mc[c := free], start, mc[c] < 0)
            && (mc[c] >= 0 ==> rank[mc[c]] < rank[free])
  {
    var c := previous[free];
    assert c !in z;
    if c != start {
      assert mc0[c] in rank && rank[mc0[c]] < rank[free];
      assert mc[c] == mc0[c];
    }
  }

  /** Walks back along `previous`, giving each candidate on the path its new partner. */
  method Augment(edges: Edges, mc: array<int>, mo: array<int>, previous: array<int>, start: int, found: int,
                 ghost rank: map<int, nat>, ghost z: set<int>)
    requires mc != mo && mc != previous && mo != previous && mo.Length == previous.Length
    requires Consistent(edges, mc[..], mo[..]) && Closed(edges, mo[..], z)
    requires Tree(edges, mc[..], previous[..], start, rank)
    requires 0 <= start < mc.Length && mc[start] < 0
    requires 0 <= found < mo.Length && mo[found] < 0 && found in rank
    modifies mc, mo
    ensures Consistent(edges, mc[..], mo[..]) && Closed(edges, mo[..], z)
    ensures OnlyGains(old(mc[..]), mc[..], start, true)
  {
    ghost var mc0 := mc[..];
    StartWalk(edges, mc[..], mo[..], previous[..], start, rank, found, z);
    assert mc.Length == |edges|;
    hide Consistent, Closed, Tree, Walking, OnlyGains;
    var free := found;
    while free >= 0
      invariant Walking(edges, mc0, mc[..], mo[..], previous[..], start, rank, free, z)
      invariant OnlyGains(mc0, mc[..], start, free < 0)
      invariant 0 <= free ==> free < mo.Length && free in rank
      decreases if free >= 0 then rank[free] + 1 else 0
    {
      WalkStep(edges, mc0, mc[..], mo[..], previous[..], start, rank, free, z);
      ghost var mc1, mo1 := mc[..], mo[..];
      var candidate := previous[free];
      var prior := mc[candidate];
      WalkRange(edges, mc0, mc[..][candidate := free], mo[..][free := candidate], previous[..], start, rank, prior, z);
      mc[candidate] := free;
      mo[free] := candidate;
      assert mc[..] == mc1[candidate := free] && mo[..] == mo1[free := candidate];
      free := prior;
    }
    EndWalk(edges, mc0, mc[..], mo[..], previous[..], start, rank, free, z);
  }

  lemma StartWalk(edges: Edges, mc: seq<int>, mo: seq<int>, previous: seq<int>, start: int, rank: map<int, nat>,
                  found: int, z: set<int>)
    requires Consistent(edges, mc, mo) && Closed(edges, mo, z) && Tree(edges, mc, previous, start, rank)
    requires |mo| == |previous| && 0 <= start < |mc| && mc[start] < 0
    requires 0 <= found < |mo| && mo[found] < 0 && found in rank
    ensures Walking(edges, mc, mc, mo, previous, start, rank, found, z) && OnlyGains(mc, mc, start, false)
    ensures |mc| == |edges|
  {
  }

  lemma WalkRange(edges: Edges, mc0: seq<int>, mc: seq<int>, mo: seq<int>, previous: seq<int>, start: int,
                  rank: map<int, nat>, free: int, z: set<int>)
    requires Walking(edges, mc0, mc, mo, previous, start, rank, free, z)
    ensures free >= 0 ==> free < |mo| && free in rank
  {
  }

  lemma EndWalk(edges: Edges, mc0: seq<int>, mc: seq<int>, mo: seq<int>, previous: seq<int>, start: int,
                rank: map<int, nat>, free: int, z: set<int>)
    requires Walking(edges, mc0, mc, mo, previous, start, rank, free, z) && free < 0
    ensures Consistent(edges, mc, mo) && Closed(edges, mo, z)
  {
  }

  // ---- all starts

  /** Between two starts: earlier candidates without a partner are in Z, later ones are untouched. */
  ghost predicate Progress(edges: Edges, mc: seq<int>, mo: seq<int>, next: nat, z: set<int>) {
    && Consistent(edges, mc, mo) && Closed(edges, mo, z)
    && (forall c :: 0 <= c < next && c < |mc| && mc[c] < 0 ==> c in z)
    && (forall c :: next <= c < |mc| ==> mc[c] < 0)
  }

  lemma GainKeepsProgress(edges: Edges, mc0: seq<int>, mo0: seq<int>, mc: seq<int>, mo: seq<int>, start: nat,
                          z: set<int>)
    requires Progress(edges, mc0, mo0, start, z) && 0 <= start < |mc0|
    requires OnlyGains(mc0, mc, start, true) && Consistent(edges, mc, mo) && Closed(edges, mo, z)
    ensures Progress(edges, mc, mo, start + 1, z)
  {
  }

  lemma FailureKeepsProgress(edges: Edges, mc: seq<int>, mo: seq<int>, previous: seq<int>, start: nat, free: int,
                             z: set<int>, s: Search)
    requires Progress(edges, mc, mo, start, z) && 0 <= start < |mc| && free < 0
    requires Searched(edges, mc, mo, previous, start, free, s)
    ensures Progress(edges, mc, mo, start + 1, z + s.done)
  {
    forall c, o | c in s.done && 0 <= c < |edges| && o in edges[c]
      ensures 0 <= o < |mo| && mo[o] >= 0 && mo[o] in s.done
    {
      assert o in s.rank && mo[o] in s.seen;
    }
  }

  lemma ProgressIsMaximum(edges: Edges, mc: seq<int>, mo: seq<int>, z: set<int>)
    requires Progress(edges, mc, mo, |edges|, z)
    ensures IsMaximum(edges, AsMatching(mc))
  {
    ConsistentIsMatching(edges, mc, mo);
    var m := AsMatching(mc);
    forall c, o | c in z && 0 <= c < |edges| && o in edges[c] ensures exists d :: d in z && d in m && m[d] == o {
      assert mo[o] in z && mo[o] in m && m[mo[o]] == o;
    }
    SaturatedIsMaximum(edges, m, z);
  }

  /** The body of the loop over starts. */
  method TryStart(edges: Edges, start: nat, matchCandidate: array<int>, matchOriginal: array<int>,
                  seenCandidate: array<int>,
                  seenOriginal: array<int>, previous: array<int>, work: IntCell, budget: IntCell?, ghost z: set<int>)
    returns (ok: bool, ghost z': set<int>)
    requires work != budget && start < |edges|
    requires Arrays(edges, matchOriginal, seenCandidate, seenOriginal, previous)
    requires matchCandidate != matchOriginal && matchCandidate != seenCandidate
    requires matchCandidate != seenOriginal && matchCandidate != previous
    requires Progress(edges, matchCandidate[..], matchOriginal[..], start, z)
    requires AtMost(seenCandidate[..], start) && AtMost(seenOriginal[..], start)
    modifies matchCandidate, matchOriginal, seenCandidate, seenOriginal, previous, work, budget
    ensures old(Left(budget)) >= 0 ==> Left(budget) >= 0
    ensures ok ==> Progress(edges, matchCandidate[..], matchOriginal[..], start + 1, z')
    ensures ok ==> AtMost(seenCandidate[..], start + 1) && AtMost(seenOriginal[..], start + 1)
    ensures ok ==>
      Paid(old(Left(budget)), old(work.value), Left(budget), work.value, RowsCost(|edges|, matchOriginal.Length))
    ensures !ok ==> Short(old(Left(budget)), old(work.value), RowsCost(|edges|, matchOriginal.Length))
  {
    ghost var mc1, mo1 := matchCandidate[..], matchOriginal[..];
    z' := z;
    ProgressIsConsistent(edges, mc1, mo1, start, z);
    assert matchOriginal.Length == previous.Length && matchOriginal != previous;
    hide Progress, AtMost, Paid, Short, RowsCost, Consistent, Closed, Searched, Tree, OnlyGains;
    var found;
    ghost var s;
    found, s := FindPath(edges, start, matchOriginal, seenCandidate, seenOriginal, previous, work, budget, mc1);
    if found.ResourceLimit? {
      return false, z';
    }
    if found.value >= 0 {
      SearchedTree(edges, mc1, mo1, previous[..], start, found.value, s);
      Augment(edges, matchCandidate, matchOriginal, previous, start, found.value, s.rank, z);
      GainKeepsProgress(edges, mc1, mo1, matchCandidate[..], matchOriginal[..], start, z);
    } else {
      FailureKeepsProgress(edges, mc1, mo1, previous[..], start, found.value, z, s);
      z' := z + s.done;
    }
    return true, z';
  }

  /** One augmenting search per candidate; a candidate whose search fails never gets another. */
  method MaximumMatching(edges: Edges, originals: nat, work: IntCell, budget: IntCell?) returns (r: Result<seq<int>>)
    requires work != budget && InRange(edges, originals)
    requires forall c :: 0 <= c < |edges| ==> |edges[c]| <= originals
    modifies work, budget
    ensures old(Left(budget)) >= 0 ==> Left(budget) >= 0
    ensures r.Ok? ==> |r.value| == |edges| && IsMaximum(edges, AsMatching(r.value))
    ensures r.Ok? ==>
      Paid(old(Left(budget)), old(work.value), Left(budget), work.value,
           RowsCost(|edges|, RowsCost(|edges|, originals)))
    ensures r.ResourceLimit? ==>
      Short(old(Left(budget)), old(work.value), RowsCost(|edges|, RowsCost(|edges|, originals)))
  {
    var matchOriginal := new int[originals](_ => -1);
    var matchCandidate := new int[|edges|](_ => -1);
    var seenCandidate := new int[|edges|](_ => 0);
    var seenOriginal := new int[originals](_ => 0);
    var previous := new int[originals](_ => 0);
    ghost var z: set<int>, left0, work0 := {}, Left(budget), work.value;
    ghost var most := RowsCost(|edges|, originals);
    assert Progress(edges, matchCandidate[..], matchOriginal[..], 0, z);
    assert Arrays(edges, matchOriginal, seenCandidate, seenOriginal, previous);
    assert AtMost(seenCandidate[..], 0) && AtMost(seenOriginal[..], 0);
    assert Paid(left0, work0, left0, work0, RowsCost(0, most));
    hide *;
    var start := 0;
    while start < |edges|
      invariant 0 <= start <= |edges|
      invariant fresh(matchOriginal) && fresh(matchCandidate) && fresh(seenCandidate) && fresh(seenOriginal)
      invariant fresh(previous)
      invariant Progress(edges, matchCandidate[..], matchOriginal[..], start, z)
      invariant AtMost(seenCandidate[..], start) && AtMost(seenOriginal[..], start)
      invariant Paid(left0, work0, Left(budget), work.value, RowsCost(start, most))
      invariant left0 >= 0 ==> Left(budget) >= 0
    {
      ghost var left1, work1 := Left(budget), work.value;
      var ok;
      ok, z := TryStart(edges, start, matchCandidate, matchOriginal, seenCandidate, seenOriginal, previous, work,
                        budget, z);
      PaidMore(left0, work0, left1, work1, Left(budget), work.value, start, |edges|, most);
      if !ok {
        return ResourceLimit;
      }
      start := start + 1;
    }
    ProgressIsMaximum(edges, matchCandidate[..], matchOriginal[..], z);
    return Ok(matchCandidate[..]);
  }

  lemma ProgressIsConsistent(edges: Edges, mc: seq<int>, mo: seq<int>, next: nat, z: set<int>)
    requires Progress(edges, mc, mo, next, z)
    ensures Consistent(edges, mc, mo) && Closed(edges, mo, z) && |mc| == |edges|
    ensures 0 <= next < |mc| ==> mc[next] < 0
  {
  }

  lemma SearchedTree(edges: Edges, mc: seq<int>, mo: seq<int>, previous: seq<int>, start: int, free: int, s: Search)
    requires Searched(edges, mc, mo, previous, start, free, s) && free >= 0
    ensures free < |mo| && mo[free] < 0 && free in s.rank && Tree(edges, mc, previous, start, s.rank)
  {
  }
}
