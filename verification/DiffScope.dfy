/** Changed lines of a diff, and the findings that touch them
    (internal/run/diff.go, internal/finding/scope.go, internal/run/run.go). */
module DiffScope {
  import opened Text
  import opened Sorting
  import opened Findings

  const MAX_INT := 0x7FFF_FFFF_FFFF_FFFF

  datatype LineRange = LineRange(start: int, end: int)

  predicate ValidRange(r: LineRange) {
    1 <= r.start <= r.end <= MAX_INT
  }

  predicate Inside(r: LineRange, line: int) {
    r.start <= line <= r.end
  }

  ghost predicate Covers(ranges: seq<LineRange>, line: int) {
    exists r :: r in ranges && Inside(r, line)
  }

  /** Ascending ranges with at least one unchanged line between any two. */
  ghost predicate Normal(ranges: seq<LineRange>) {
    && (forall r :: r in ranges ==> ValidRange(r))
    && forall i, j :: 0 <= i < j < |ranges| ==> ranges[i].end + 1 < ranges[j].start
  }

  // ---- merging

  predicate LessRange(a: LineRange, b: LineRange) {
    if a.start != b.start then a.start < b.start else a.end < b.end
  }

  lemma RangeOrderOn(s: seq<LineRange>)
    ensures StrictWeakOn(s, LessRange)
  {
  }

  predicate Joins(current: LineRange, candidate: LineRange) {
    candidate.start <= current.end || (current.end < MAX_INT && candidate.start == current.end + 1)
  }

  function Extended(current: LineRange, candidate: LineRange): LineRange {
    current.(end := if candidate.end > current.end then candidate.end else current.end)
  }

  /** The compaction step on values: the last range of `kept` grows, or another follows it. */
  ghost function Compacted(kept: seq<LineRange>, candidate: LineRange): (r: seq<LineRange>)
    requires kept != []
    ensures r != []
  {
    var w := |kept| - 1;
    if Joins(kept[w], candidate) then kept[w := Extended(kept[w], candidate)] else kept + [candidate]
  }

  lemma CompactedKeeps(kept: seq<LineRange>, candidate: LineRange)
    requires kept != [] && Normal(kept) && ValidRange(candidate) && kept[|kept| - 1].start <= candidate.start
    ensures Normal(Compacted(kept, candidate))
    ensures forall line :: Covers(Compacted(kept, candidate), line) <==> Covers(kept, line) || Inside(candidate, line)
    ensures Compacted(kept, candidate)[|Compacted(kept, candidate)| - 1].start <= candidate.start
  {
    var w := |kept| - 1;
    var r := Compacted(kept, candidate);
    assert kept[w] in kept && r[|r| - 1] in r;
    forall x | x in r ensures ValidRange(x) {
      assert x in kept || x == candidate || x == Extended(kept[w], candidate);
    }
    forall line ensures Covers(r, line) <==> Covers(kept, line) || Inside(candidate, line) {
      CompactedCovers(kept, candidate, line);
    }
  }

  lemma CompactedCovers(kept: seq<LineRange>, candidate: LineRange, line: int)
    requires kept != [] && kept[|kept| - 1].start <= candidate.start
    ensures Covers(Compacted(kept, candidate), line) <==> Covers(kept, line) || Inside(candidate, line)
  {
    var w := |kept| - 1;
    var r := Compacted(kept, candidate);
    if Covers(kept, line) {
      var x :| x in kept && Inside(x, line);
      var i :| 0 <= i < |kept| && kept[i] == x;
      assert r[i] in r && Inside(r[i], line);
    }
    if Inside(candidate, line) {
      assert r[|r| - 1] in r && Inside(r[|r| - 1], line);
    }
    if Covers(r, line) {
      var x :| x in r && Inside(x, line);
      var i :| 0 <= i < |r| && r[i] == x;
      if i < w { assert r[i] in kept; }
      if i == w { assert kept[w] in kept; }
    }
  }

  /** One turn of the loop: the range at `read` is joined to the one at `write`, or moves up behind it. */
  method CompactStep(a: array<LineRange>, read: nat, write: nat) returns (next: nat)
    requires write < read < a.Length
    modifies a
    ensures write <= next <= read && a[..next + 1] == Compacted(old(a[..write + 1]), old(a[read]))
    ensures a[read + 1..] == old(a[read + 1..])
  {
    hide Compacted, Joins, Extended;
    ghost var kept, candidate := a[..write + 1], a[read];
    next := write;
    if Joins(a[write], a[read]) {
      a[write] := Extended(a[write], a[read]);
      assert a[..write + 1] == kept[..write] + [a[write]];
    } else {
      next := write + 1;
      a[next] := a[read];
      assert a[..next + 1] == kept + [candidate];
    }
    CompactedSlice(kept, candidate, a[..next + 1]);
  }

  /** The in-place loop: `a[..write + 1]` holds the merged form of what has been read. */
  method CompactInPlace(a: array<LineRange>) returns (length: nat)
    requires a.Length > 0 && Sorted(a[..], LessRange)
    requires forall r :: r in a[..] ==> ValidRange(r)
    modifies a
    ensures 0 < length <= a.Length && Normal(a[..length])
    ensures forall line :: Covers(a[..length], line) <==> old(Covers(a[..], line))
  {
    ghost var was := a[..];
    StartCompact(was);
    hide Covers, Normal, Sorted, SameLines, Compacted, ValidRange;
    var write := 0;
    var read := 1;
    assert a[..1] == was[..1];
    while read < a.Length
      invariant 0 <= write < read <= a.Length == |was|
      invariant a[read..] == was[read..]
      invariant Normal(a[..write + 1]) && SameLines(a[..write + 1], was[..read])
      invariant a[..write + 1][write].start <= was[read - 1].start
    {
      ghost var kept := a[..write + 1];
      assert a[read] == a[read..][0] == was[read];
      CompactNext(was, read, kept);
      write := CompactStep(a, read, write);
      assert a[read + 1..] == was[read..][1..];
      read := read + 1;
    }
    assert was[..read] == was;
    SameLinesMeans(a[..write + 1], was);
    return write + 1;
  }

  lemma CompactedSlice(kept: seq<LineRange>, candidate: LineRange, now: seq<LineRange>)
    requires kept != []
    requires now == if Joins(kept[|kept| - 1], candidate)
                    then kept[..|kept| - 1] + [Extended(kept[|kept| - 1], candidate)] else kept + [candidate]
    ensures now == Compacted(kept, candidate)
  {
  }

  ghost predicate SameLines(a: seq<LineRange>, b: seq<LineRange>) {
    forall line :: Covers(a, line) <==> Covers(b, line)
  }

  lemma SameLinesMeans(a: seq<LineRange>, b: seq<LineRange>)
    requires SameLines(a, b)
    ensures forall line :: Covers(a, line) <==> Covers(b, line)
  {
  }

  /** One more range read, one more compaction. */
  lemma CompactNext(was: seq<LineRange>, read: int, kept: seq<LineRange>)
    requires 0 < read < |was| && Sorted(was, LessRange) && forall r :: r in was ==> ValidRange(r)
    requires kept != [] && Normal(kept) && SameLines(kept, was[..read]) && kept[|kept| - 1].start <= was[read - 1].start
    ensures var next := Compacted(kept, was[read]);
            Normal(next) && SameLines(next, was[..read + 1]) && next[|next| - 1].start <= was[read].start
  {
    hide Covers, Normal, Sorted, Compacted;
    ReadNext(was, read);
    CompactedKeeps(kept, was[read]);
    var next := Compacted(kept, was[read]);
    forall line ensures Covers(next, line) <==> Covers(was[..read + 1], line) {
      assert Covers(next, line) <==> Covers(kept, line) || Inside(was[read], line);
    }
  }

  lemma StartCompact(was: seq<LineRange>)
    requires was != [] && forall r :: r in was ==> ValidRange(r)
    ensures Normal(was[..1])
  {
    assert was[0] in was;
  }

  lemma ReadNext(was: seq<LineRange>, read: int)
    requires 0 < read < |was| && Sorted(was, LessRange) && forall r :: r in was ==> ValidRange(r)
    ensures was[read - 1].start <= was[read].start && ValidRange(was[read])
    ensures forall line :: Covers(was[..read + 1], line) <==> Covers(was[..read], line) || Inside(was[read], line)
  {
    assert was[read] in was && was[..read + 1] == was[..read] + [was[read]];
    assert !LessRange(was[read], was[read - 1]);
    forall line ensures Covers(was[..read + 1], line) <==> Covers(was[..read], line) || Inside(was[read], line) {
      if Covers(was[..read], line) {
        var r :| r in was[..read] && Inside(r, line);
        assert r in was[..read + 1];
      }
      assert was[read] in was[..read + 1];
    }
  }

  method MergeLineRanges(ranges: seq<LineRange>) returns (merged: seq<LineRange>)
    requires forall r :: r in ranges ==> ValidRange(r)
    ensures Normal(merged)
    ensures forall line :: Covers(merged, line) <==> Covers(ranges, line)
  {
    if ranges == [] {
      return [];
    }
    RangeOrderOn(ranges);
    var sorted := Sort(ranges, LessRange);
    var a := new LineRange[|sorted|](i requires 0 <= i < |sorted| => sorted[i]);
    assert a[..] == sorted;
    SameCover(sorted, ranges);
    hide Covers, Normal, Sorted;
    var length := CompactInPlace(a);
    return a[..length];
  }

  lemma SameCover(a: seq<LineRange>, b: seq<LineRange>)
    requires SameElements(a, b)
    ensures forall line :: Covers(a, line) <==> Covers(b, line)
  {
  }

  /** A set of lines has one normal form. */
  lemma {:induction false} NormalIsUnique(a: seq<LineRange>, b: seq<LineRange>)
    requires Normal(a) && Normal(b) && forall line :: Covers(a, line) <==> Covers(b, line)
    ensures a == b
  {
    assert |b| > 0 ==> b[0] in b && Inside(b[0], b[0].start) && Covers(b, b[0].start);
    if a != [] {
      FirstStarts(a, b);
      FirstStarts(b, a);
      FirstEnds(a, b);
      FirstEnds(b, a);
      forall line ensures Covers(a[1..], line) <==> Covers(b[1..], line) {
        TailCovers(a, line);
        TailCovers(b, line);
      }
      TailNormal(a);
      TailNormal(b);
      NormalIsUnique(a[1..], b[1..]);
      assert a == [a[0]] + a[1..] && b == [b[0]] + b[1..];
    }
  }

  lemma FirstStarts(a: seq<LineRange>, b: seq<LineRange>)
    requires Normal(a) && Normal(b) && a != [] && forall line :: Covers(a, line) ==> Covers(b, line)
    ensures b != [] && b[0].start <= a[0].start
  {
    assert a[0] in a && Inside(a[0], a[0].start);
    assert Covers(a, a[0].start);
    var r :| r in b && Inside(r, a[0].start);
    var i :| 0 <= i < |b| && b[i] == r;
    assert b[0] in b;
  }

  lemma FirstEnds(a: seq<LineRange>, b: seq<LineRange>)
    requires Normal(a) && Normal(b) && a != [] && b != [] && a[0].start == b[0].start
    requires forall line :: Covers(b, line) ==> Covers(a, line)
    ensures b[0].end <= a[0].end
  {
    assert a[0] in a && b[0] in b;
    forall r | r in a ensures !Inside(r, a[0].end + 1) {
      var i :| 0 <= i < |a| && a[i] == r;
    }
    assert !Covers(b, a[0].end + 1);
  }

  lemma TailNormal(a: seq<LineRange>)
    requires Normal(a) && a != []
    ensures Normal(a[1..])
  {
    forall r | r in a[1..] ensures ValidRange(r) { assert r in a; }
  }

  lemma TailCovers(a: seq<LineRange>, line: int)
    requires Normal(a) && a != []
    ensures Covers(a[1..], line) <==> Covers(a, line) && line > a[0].end
  {
    assert a[0] in a;
    if Covers(a[1..], line) {
      var r :| r in a[1..] && Inside(r, line);
      var i :| 0 <= i < |a| - 1 && a[1..][i] == r;
      assert a[i + 1] == r && r in a;
    }
    if Covers(a, line) && line > a[0].end {
      var r :| r in a && Inside(r, line);
      var i :| 0 <= i < |a| && a[i] == r;
      assert a[1..][i - 1] == r;
    }
  }

  // ---- hunks

  /** The post-image side of a hunk header; a count of 0 is a pure deletion. */
  datatype Hunk = Hunk(start: nat, count: nat)

  /** Where a deletion is anchored: on a line that exists, or 0 when there is none. */
  function DeletionAnchor(requested: nat, lineCount: nat): (anchor: nat)
    ensures anchor == 0 <==> lineCount == 0
    ensures anchor <= lineCount
  {
    if lineCount == 0 then 0
    else if requested == 0 then 1
    else if requested <= lineCount then requested
    else lineCount
  }

  /** The lines a hunk marks as changed. */
  predicate HunkMarks(h: Hunk, lineCount: nat, line: int) {
    if h.count == 0 then line > 0 && line == DeletionAnchor(h.start, lineCount)
    else h.start <= line < h.start + h.count
  }

  predicate HunkInRange(h: Hunk) {
    h.count == 0 || 0 < h.start <= MAX_INT - h.count + 1
  }

  ghost predicate Marked(hunks: seq<Hunk>, lineCount: nat, line: int) {
    exists h :: h in hunks && HunkMarks(h, lineCount, line)
  }

  /** The ranges of a patch: every marked line once, in normal form, or a refusal. */
  method ParseDiffHunks(hunks: seq<Hunk>, lineCount: nat) returns (ok: bool, ranges: seq<LineRange>)
    requires lineCount <= MAX_INT
    ensures ok <==> forall h :: h in hunks ==> HunkInRange(h)
    ensures ok ==> Normal(ranges) && forall line :: Covers(ranges, line) <==> Marked(hunks, lineCount, line)
  {
    var found: seq<LineRange> := [];
    for i := 0 to |hunks|
      invariant forall r :: r in found ==> ValidRange(r)
      invariant forall k :: 0 <= k < i ==> HunkInRange(hunks[k])
      invariant forall line :: Covers(found, line) <==> Marked(hunks[..i], lineCount, line)
    {
      var h := hunks[i];
      assert hunks[..i + 1] == hunks[..i] + [h];
      if !HunkInRange(h) {
        return false, [];
      }
      var added := AddedRange(h, lineCount);
      MarkNext(found, added, hunks[..i], h, lineCount);
      found := found + added;
    }
    assert hunks[..|hunks|] == hunks;
    hide Covers, Marked, Normal;
    ranges := MergeLineRanges(found);
    return true, ranges;
  }

  function AddedRange(h: Hunk, lineCount: nat): (added: seq<LineRange>)
    requires HunkInRange(h) && lineCount <= MAX_INT
    ensures forall r :: r in added ==> ValidRange(r)
  {
    if h.count == 0 then
      var anchor := DeletionAnchor(h.start, lineCount);
      if anchor != 0 then [LineRange(anchor, anchor)] else []
    else [LineRange(h.start, h.start + h.count - 1)]
  }

  lemma MarkNext(found: seq<LineRange>, added: seq<LineRange>, hunks: seq<Hunk>, h: Hunk, lineCount: nat)
    requires HunkInRange(h) && lineCount <= MAX_INT && added == AddedRange(h, lineCount)
    requires forall line :: Covers(found, line) <==> Marked(hunks, lineCount, line)
    ensures forall line :: Covers(found + added, line) <==> Marked(hunks + [h], lineCount, line)
  {
    forall line ensures Covers(found + added, line) <==> Marked(hunks + [h], lineCount, line) {
      assert HunkMarks(h, lineCount, line) <==> (added != [] && Inside(added[0], line));
      if Covers(found + added, line) {
        var r :| r in found + added && Inside(r, line);
        if r in found {
          assert Covers(found, line);
          var g :| g in hunks && HunkMarks(g, lineCount, line);
          assert g in hunks + [h];
        } else {
          assert h in hunks + [h];
        }
      }
      if Marked(hunks + [h], lineCount, line) {
        var g :| g in hunks + [h] && HunkMarks(g, lineCount, line);
        if g in hunks {
          assert Marked(hunks, lineCount, line);
          var r :| r in found && Inside(r, line);
          assert r in found + added;
        } else {
          assert added[0] in found + added;
        }
      }
    }
  }

  // ---- scope filtering

  type ChangedLines = map<string, seq<LineRange>>

  predicate GoodRange(r: LineRange) {
    0 < r.start <= r.end
  }

  predicate ValidChanged(changed: ChangedLines) {
    forall k :: k in changed ==> ValidPath(k) && forall r :: r in changed[k] ==> GoodRange(r)
  }

  /** The changed lines of a file, under whatever spellings of its path. */
  ghost function TouchedLines(changed: ChangedLines, path: string): iset<int> {
    iset line | TouchedBy(changed, changed.Keys, path, line)
  }

  ghost predicate TouchedBy(changed: ChangedLines, keys: set<string>, path: string, line: int) {
    exists k :: k in keys && k in changed && NormalizeFile(k) == path && Covers(changed[k], line)
  }

  function Lookup(changed: ChangedLines, path: string): seq<LineRange> {
    if path in changed then changed[path] else []
  }

  ghost predicate Gathered(changed: ChangedLines, keys: set<string>, validated: ChangedLines) {
    && (forall p, r :: p in validated && r in validated[p] ==> GoodRange(r))
    && (forall p, line :: Covers(Lookup(validated, p), line) <==> TouchedBy(changed, keys, p, line))
  }

  lemma GatherNext(changed: ChangedLines, keys: set<string>, validated: ChangedLines, k: string)
    requires Gathered(changed, keys, validated) && k in changed && forall r :: r in changed[k] ==> GoodRange(r)
    ensures var p := NormalizeFile(k);
            Gathered(changed, keys + {k}, validated[p := Lookup(validated, p) + changed[k]])
  {
    hide NormalizeFile;
    var p := NormalizeFile(k);
    var next := validated[p := Lookup(validated, p) + changed[k]];
    forall q, r | q in next && r in next[q] ensures GoodRange(r) {
      if q == p && r in Lookup(validated, p) { assert p in validated; }
    }
    forall q, line ensures Covers(Lookup(next, q), line) <==> TouchedBy(changed, keys + {k}, q, line) {
      CoversConcat(Lookup(validated, p), changed[k], line);
      hide Covers;
      if TouchedBy(changed, keys, q, line) {
        var j :| j in keys && j in changed && NormalizeFile(j) == q && Covers(changed[j], line);
        assert j in keys + {k};
      }
      if q == p && Covers(changed[k], line) { assert k in keys + {k}; }
    }
  }

  lemma CoversConcat(a: seq<LineRange>, b: seq<LineRange>, line: int)
    ensures Covers(a + b, line) <==> Covers(a, line) || Covers(b, line)
  {
    if Covers(a, line) {
      var r :| r in a && Inside(r, line);
      assert r in a + b;
    }
    if Covers(b, line) {
      var r :| r in b && Inside(r, line);
      assert r in a + b;
    }
  }

  method RangesGood(ranges: seq<LineRange>) returns (ok: bool)
    ensures ok <==> forall r :: r in ranges ==> GoodRange(r)
  {
    for i := 0 to |ranges|
      invariant forall k :: 0 <= k < i ==> GoodRange(ranges[k])
    {
      if !GoodRange(ranges[i]) {
        return false;
      }
    }
    return true;
  }

  /** Ranges listed under different spellings of a path are pooled, in whatever order the map is walked. */
  method ValidatedChangedLines(changed: ChangedLines) returns (ok: bool, validated: ChangedLines)
    ensures ok <==> ValidChanged(changed)
    ensures ok ==> Gathered(changed, changed.Keys, validated)
  {
    hide Covers, NormalizeFile, ValidPath, TouchedBy;
    validated := map[];
    NothingGathered(changed);
    var rest := changed.Keys;
    while rest != {}
      invariant rest <= changed.Keys && Gathered(changed, changed.Keys - rest, validated)
      invariant forall k :: k in changed && k !in rest ==> ValidPath(k) && forall r :: r in changed[k] ==> GoodRange(r)
      decreases rest
    {
      var k :| k in rest;
      if !ValidPath(k) {
        return false, validated;
      }
      var good := RangesGood(changed[k]);
      if !good {
        return false, validated;
      }
      GatherNext(changed, changed.Keys - rest, validated, k);
      assert changed.Keys - rest + {k} == changed.Keys - (rest - {k});
      var p := NormalizeFile(k);
      validated := validated[p := Lookup(validated, p) + changed[k]];
      rest := rest - {k};
    }
    assert changed.Keys - {} == changed.Keys;
    return true, validated;
  }

  lemma NothingGathered(changed: ChangedLines)
    ensures Gathered(changed, changed.Keys - changed.Keys, map[])
  {
  }

  function LastLine(o: Occurrence): int {
    if o.endLine == 0 then o.line else o.endLine
  }

  /** The location and the changed lines share a line. */
  ghost predicate Touches(o: Occurrence, lines: iset<int>) {
    exists line :: line in lines && o.line <= line <= LastLine(o)
  }

  ghost function CoveredLines(ranges: seq<LineRange>): iset<int> {
    iset line | Covers(ranges, line)
  }

  method OverlapsChanged(location: Occurrence, ranges: seq<LineRange>) returns (overlaps: bool)
    requires ValidLocation(location) && forall r :: r in ranges ==> GoodRange(r)
    ensures overlaps <==> Touches(location, CoveredLines(ranges))
  {
    var end := LastLine(location);
    for i := 0 to |ranges|
      invariant forall k :: 0 <= k < i ==> !(location.line <= ranges[k].end && end >= ranges[k].start)
    {
      if location.line <= ranges[i].end && end >= ranges[i].start {
        var shared := if location.line >= ranges[i].start then location.line else ranges[i].start;
        assert ranges[i] in ranges && Inside(ranges[i], shared);
        assert shared in CoveredLines(ranges);
        return true;
      }
    }
    forall line | line in CoveredLines(ranges) ensures !(location.line <= line <= end) {
      var r :| r in ranges && Inside(r, line);
    }
    return false;
  }

  ghost function Surviving(locations: seq<Occurrence>, lines: iset<int>): seq<Occurrence> {
    if locations == [] then []
    else
      var n := |locations| - 1;
      Surviving(locations[..n], lines) + (if Touches(locations[n], lines) then [locations[n]] else [])
  }

  /** Filters in place: survivors overwrite the front of the array they are read from. */
  method KeepTouched(locations: array<Occurrence>, ranges: seq<LineRange>) returns (kept: nat)
    requires forall o :: o in locations[..] ==> ValidLocation(o)
    requires forall r :: r in ranges ==> GoodRange(r)
    modifies locations
    ensures kept <= locations.Length && locations[..kept] == Surviving(old(locations[..]), CoveredLines(ranges))
  {
    ghost var was := locations[..];
    ghost var lines := CoveredLines(ranges);
    hide Touches, CoveredLines, GoodRange, ValidLocation;
    kept := 0;
    var read := 0;
    while read < locations.Length
      invariant kept <= read <= locations.Length == |was|
      invariant forall k :: read <= k < |was| ==> locations[k] == was[k]
      invariant locations[..kept] == Surviving(was[..read], lines)
    {
      var location := locations[read];
      assert was[read] in was;
      assert was[..read + 1][..read] == was[..read];
      var overlaps := OverlapsChanged(location, ranges);
      if overlaps {
        ghost var front := locations[..kept];
        locations[kept] := location;
        kept := kept + 1;
        assert locations[..kept] == front + [location];
      }
      read := read + 1;
    }
    assert was[..read] == was;
  }

  /** The finding reported for f: its surviving locations in order, everything else as it was. */
  ghost predicate KeptAs(f: Finding, lines: iset<int>, g: Finding) {
    && g == f.(file := NormalizeFile(f.file), line := g.line, endLine := g.endLine, occurrences := g.occurrences)
    && Sorted(AllLocations(g), LessOccurrence)
    && multiset(AllLocations(g)) == multiset(Surviving(AllLocations(f), lines))
  }

  /** `filtered` is what `FilterTouched` makes of `findings`. */
  ghost predicate Filtered(findings: seq<Finding>, changed: ChangedLines, filtered: seq<Finding>) {
    if findings == [] then filtered == []
    else
      var n := |findings| - 1;
      var f := findings[n];
      var lines := TouchedLines(changed, NormalizeFile(f.file));
      if Surviving(AllLocations(f), lines) == [] then Filtered(findings[..n], changed, filtered)
      else
        && filtered != [] && KeptAs(f, lines, filtered[|filtered| - 1])
        && Filtered(findings[..n], changed, filtered[..|filtered| - 1])
  }

  lemma OccurrenceOrderOn(s: seq<Occurrence>)
    ensures StrictWeakOn(s, LessOccurrence)
  {
  }

  /** Judges one finding.  No survivor means the finding is dropped. */
  method FilterOne(f: Finding, ranges: seq<LineRange>) returns (kept: bool, copied: Finding)
    requires Valid(f) && forall r :: r in ranges ==> GoodRange(r)
    ensures kept <==> Surviving(AllLocations(f), CoveredLines(ranges)) != []
    ensures kept ==> KeptAs(f, CoveredLines(ranges), copied)
  {
    LocationsValid(f);
    hide Valid, GoodRange, ValidLocation, CoveredLines, NormalizeFile;
    var all := AllLocations(f);
    var locations := new Occurrence[|all|](i requires 0 <= i < |all| => all[i]);
    assert locations[..] == all;
    var count := KeepTouched(locations, ranges);
    var survivors := locations[..count];
    if survivors == [] {
      return false, f;
    }
    OccurrenceOrderOn(survivors);
    var sorted := Sort(survivors, LessOccurrence);
    copied := f.(file := NormalizeFile(f.file), line := sorted[0].line, endLine := sorted[0].endLine,
                 occurrences := sorted[1..]);
    assert AllLocations(copied) == sorted;
    return true, copied;
  }

  lemma LocationsValid(f: Finding)
    requires Valid(f)
    ensures forall o :: o in AllLocations(f) ==> ValidLocation(o)
  {
  }

  lemma PooledLines(changed: ChangedLines, validated: ChangedLines, path: string)
    requires Gathered(changed, changed.Keys, validated)
    ensures CoveredLines(Lookup(validated, path)) == TouchedLines(changed, path)
    ensures forall r :: r in Lookup(validated, path) ==> GoodRange(r)
  {
    hide NormalizeFile, Covers, GoodRange;
    forall line ensures line in CoveredLines(Lookup(validated, path)) <==> line in TouchedLines(changed, path) {
      assert Covers(Lookup(validated, path), line) <==> TouchedBy(changed, changed.Keys, path, line);
    }
  }

  /** Keeps only the finding locations that share a line with the diff. */
  method FilterTouched(findings: seq<Finding>, changed: ChangedLines) returns (ok: bool, filtered: seq<Finding>)
    ensures ok <==> ValidChanged(changed) && forall f :: f in findings ==> Valid(f)
    ensures ok ==> Filtered(findings, changed, filtered)
  {
    hide Valid, Gathered, ValidChanged, KeptAs, Surviving, TouchedLines, CoveredLines, NormalizeFile, AllLocations;
    filtered := [];
    var validated;
    ok, validated := ValidatedChangedLines(changed);
    if !ok {
      return;
    }
    var i := 0;
    while i < |findings|
      invariant 0 <= i <= |findings| && Filtered(findings[..i], changed, filtered)
      invariant forall k :: 0 <= k < i ==> Valid(findings[k])
    {
      var f := findings[i];
      if !Valid(f) {
        return false, filtered;
      }
      var path := NormalizeFile(f.file);
      PooledLines(changed, validated, path);
      var kept, copied := FilterOne(f, Lookup(validated, path));
      assert findings[..i + 1][..i] == findings[..i];
      if kept {
        assert (filtered + [copied])[..|filtered|] == filtered;
        filtered := filtered + [copied];
      }
      i := i + 1;
    }
    assert findings[..i] == findings;
    return true, filtered;
  }

  lemma {:induction false} SurvivingAre(locations: seq<Occurrence>, lines: iset<int>)
    ensures forall o :: o in Surviving(locations, lines) <==> o in locations && Touches(o, lines)
  {
    hide Touches;
    if locations != [] {
      var n := |locations| - 1;
      SurvivingAre(locations[..n], lines);
      assert locations == locations[..n] + [locations[n]];
    }
  }

  /** A kept finding has exactly the locations that share a changed line, and keeps its identity. */
  lemma KeptIsExact(f: Finding, lines: iset<int>, g: Finding)
    requires KeptAs(f, lines, g)
    ensures forall o :: o in AllLocations(g) <==> o in AllLocations(f) && Touches(o, lines)
    ensures Fingerprint(g) == Fingerprint(f) && g.severity == f.severity && g.message == f.message
  {
    SamePermutation(AllLocations(g), Surviving(AllLocations(f), lines));
    SurvivingAre(AllLocations(f), lines);
    NormalizeFileIdempotent(f.file);
    assert IdentityFields(g) == IdentityFields(f);
    hide Touches;
    forall o ensures o in AllLocations(g) <==> o in Surviving(AllLocations(f), lines) { }
  }

  lemma KeptIsUnique(f: Finding, lines: iset<int>, g: Finding, h: Finding)
    requires KeptAs(f, lines, g) && KeptAs(f, lines, h)
    ensures g == h
  {
    hide NormalizeFile, Surviving;
    SortedIsUnique(AllLocations(g), AllLocations(h), LessOccurrence);
    assert AllLocations(g)[0] == AllLocations(h)[0] && AllLocations(g)[1..] == AllLocations(h)[1..];
  }

  ghost predicate SameScope(a: ChangedLines, b: ChangedLines) {
    forall path :: TouchedLines(a, path) == TouchedLines(b, path)
  }

  /** The filter sees which lines changed, not how they are divided into ranges or spelled as keys. */
  lemma {:induction false} FilterSeesLinesOnly(findings: seq<Finding>, a: ChangedLines, b: ChangedLines,
                                               x: seq<Finding>, y: seq<Finding>)
    requires SameScope(a, b) && Filtered(findings, a, x) && Filtered(findings, b, y)
    ensures x == y
  {
    hide KeptAs, Surviving, NormalizeFile, TouchedLines;
    if findings != [] {
      var n := |findings| - 1;
      var f := findings[n];
      var lines := TouchedLines(a, NormalizeFile(f.file));
      assert lines == TouchedLines(b, NormalizeFile(f.file));
      if Surviving(AllLocations(f), lines) == [] {
        FilterSeesLinesOnly(findings[..n], a, b, x, y);
      } else {
        var g, h := x[|x| - 1], y[|y| - 1];
        KeptIsUnique(f, lines, g, h);
        FilterSeesLinesOnly(findings[..n], a, b, x[..|x| - 1], y[..|y| - 1]);
        assert x == x[..|x| - 1] + [g] && y == y[..|y| - 1] + [h];
      }
    }
  }

  /** Merging the ranges of every file leaves the scope as it was. */
  lemma MergingKeepsScope(raw: ChangedLines, merged: ChangedLines)
    requires raw.Keys == merged.Keys
    requires forall k, line :: k in raw ==> (Covers(raw[k], line) <==> Covers(merged[k], line))
    ensures SameScope(raw, merged)
  {
    hide Covers, NormalizeFile;
    forall path ensures TouchedLines(raw, path) == TouchedLines(merged, path) {
      forall line ensures TouchedBy(raw, raw.Keys, path, line) <==> TouchedBy(merged, merged.Keys, path, line) { }
    }
  }

  // ---- the changed-line count

  ghost function Span(start: int, end: int): set<int>
    decreases end - start
  {
    if end < start then {} else Span(start, end - 1) + {end}
  }

  lemma {:induction false} SpanIs(start: int, end: int)
    requires start <= end + 1
    ensures |Span(start, end)| == end - start + 1
    ensures forall line :: line in Span(start, end) <==> start <= line <= end
    decreases end - start
  {
    if start <= end { SpanIs(start, end - 1); }
  }

  ghost function LineSet(ranges: seq<LineRange>): set<int> {
    if ranges == [] then {}
    else LineSet(ranges[..|ranges| - 1]) + Span(ranges[|ranges| - 1].start, ranges[|ranges| - 1].end)
  }

  lemma {:induction false} LineSetIs(ranges: seq<LineRange>)
    requires forall r :: r in ranges ==> GoodRange(r)
    ensures forall line :: line in LineSet(ranges) <==> Covers(ranges, line)
  {
    if ranges != [] {
      var n := |ranges| - 1;
      assert ranges[n] in ranges;
      assert forall r :: r in ranges[..n] ==> r in ranges;
      LineSetIs(ranges[..n]);
      SpanIs(ranges[n].start, ranges[n].end);
      forall line ensures line in LineSet(ranges) <==> Covers(ranges, line) {
        assert ranges == ranges[..n] + [ranges[n]];
        CoversConcat(ranges[..n], [ranges[n]], line);
        assert Covers([ranges[n]], line) <==> Inside(ranges[n], line) by {
          assert ranges[n] in [ranges[n]];
        }
      }
    }
  }

  predicate Apart(previous: LineRange, next: LineRange) {
    !(next.start <= previous.end || (previous.end < MAX_INT && next.start == previous.end + 1))
  }

  /** Ascending and apart: what `validateDiff` demands of neighbouring ranges. */
  ghost predicate Spaced(ranges: seq<LineRange>) {
    forall i :: 0 < i < |ranges| ==> Apart(ranges[i - 1], ranges[i])
  }

  lemma {:induction false} SpacedIsNormal(ranges: seq<LineRange>)
    requires forall r :: r in ranges ==> ValidRange(r)
    ensures Spaced(ranges) <==> Normal(ranges)
  {
    if ranges != [] {
      var n := |ranges| - 1;
      assert forall r :: r in ranges[..n] ==> r in ranges;
      assert ranges[n] in ranges && (n > 0 ==> ranges[n - 1] in ranges);
      SpacedIsNormal(ranges[..n]);
      if Spaced(ranges) {
        assert forall i :: 0 < i < n ==> Apart(ranges[i - 1], ranges[i]);
        assert Spaced(ranges[..n]);
        forall i, j | 0 <= i < j < |ranges| ensures ranges[i].end + 1 < ranges[j].start {
          if j == n {
            assert Apart(ranges[n - 1], ranges[n]);
            assert ranges[n - 1].start <= ranges[n - 1].end;
            if i < n - 1 { assert ranges[..n][i].end + 1 < ranges[..n][n - 1].start; }
          } else {
            assert ranges[..n][i].end + 1 < ranges[..n][j].start;
          }
        }
      }
    }
  }

  ghost function Tagged(path: string, lines: set<int>): set<(string, int)> {
    set line | line in lines :: (path, line)
  }

  lemma {:induction false} TaggedCount(path: string, lines: set<int>)
    ensures |Tagged(path, lines)| == |lines|
  {
    if lines == {} {
      assert Tagged(path, lines) == {};
    } else {
      var line := SomeMember(lines);
      TaggedCount(path, lines - {line});
      assert Tagged(path, lines) == Tagged(path, lines - {line}) + {(path, line)};
    }
  }

  /** The changed lines of the files in `keys`, each tagged with its file. */
  ghost function ChangedPairs(changed: ChangedLines, keys: set<string>): set<(string, int)>
    requires keys <= changed.Keys
  {
    set k, line | k in keys && line in LineSet(changed[k]) :: (k, line)
  }

  lemma PairsNext(changed: ChangedLines, keys: set<string>, k: string)
    requires keys <= changed.Keys && k in changed && k !in keys
    ensures |ChangedPairs(changed, keys + {k})| == |ChangedPairs(changed, keys)| + |LineSet(changed[k])|
  {
    hide LineSet;
    var before, added, after := ChangedPairs(changed, keys), Tagged(k, LineSet(changed[k])), ChangedPairs(changed,
                                             keys + {k});
    forall p | p in after ensures p in before + added {
      if p.0 == k { assert p == (k, p.1); }
    }
    forall p | p in before + added ensures p in after { }
    assert after == before + added;
    TaggedCount(k, LineSet(changed[k]));
    DisjointCount(ChangedPairs(changed, keys), Tagged(k, LineSet(changed[k])));
  }

  lemma PairsGrow(changed: ChangedLines, keys: set<string>, more: set<string>)
    requires keys <= more <= changed.Keys
    ensures |ChangedPairs(changed, keys)| <= |ChangedPairs(changed, more)|
  {
    hide LineSet;
    SubsetCount(ChangedPairs(changed, keys), ChangedPairs(changed, more));
  }

  ghost function Cardinality(ranges: seq<LineRange>): int {
    if ranges == [] then 0
    else Cardinality(ranges[..|ranges| - 1]) + ranges[|ranges| - 1].end - ranges[|ranges| - 1].start + 1
  }

  /** In normal form no line is counted twice. */
  lemma {:induction false} CardinalityIsCount(ranges: seq<LineRange>)
    requires Normal(ranges)
    ensures Cardinality(ranges) == |LineSet(ranges)|
  {
    if ranges != [] {
      var n := |ranges| - 1;
      var last := ranges[n];
      assert last in ranges;
      assert forall r :: r in ranges[..n] ==> r in ranges;
      CardinalityIsCount(ranges[..n]);
      LineSetIs(ranges[..n]);
      SpanIs(last.start, last.end);
      forall line | line in LineSet(ranges[..n]) ensures line !in Span(last.start, last.end) {
        var r :| r in ranges[..n] && Inside(r, line);
        var i :| 0 <= i < n && ranges[i] == r;
      }
      DisjointCount(LineSet(ranges[..n]), Span(last.start, last.end));
    }
  }

  lemma {:induction false} CardinalityGrows(ranges: seq<LineRange>, n: nat)
    requires n <= |ranges| && forall r :: r in ranges ==> ValidRange(r)
    ensures Cardinality(ranges[..n]) <= Cardinality(ranges)
    decreases |ranges|
  {
    if n < |ranges| {
      var last := |ranges| - 1;
      assert ranges[last] in ranges;
      assert forall r :: r in ranges[..last] ==> r in ranges;
      CardinalityGrows(ranges[..last], n);
      assert ranges[..last][..n] == ranges[..n];
    } else {
      assert ranges[..n] == ranges;
    }
  }

  /** Adds up the ranges of one file, refusing what is not in normal form and what would overflow. */
  method CountRanges(ranges: seq<LineRange>, before: nat) returns (ok: bool, count: nat)
    requires before <= MAX_INT && forall r :: r in ranges ==> ValidRange(r)
    ensures ok <==> Spaced(ranges) && before + Cardinality(ranges) <= MAX_INT
    ensures ok ==> count == before + Cardinality(ranges)
  {
    count := before;
    var i := 0;
    while i < |ranges|
      invariant 0 <= i <= |ranges| && count <= MAX_INT
      invariant Spaced(ranges[..i]) && count == before + Cardinality(ranges[..i])
    {
      var r := ranges[i];
      assert ranges[i] in ranges;
      assert ranges[..i + 1][..i] == ranges[..i];
      CardinalityGrows(ranges, i + 1);
      if i > 0 {
        var previous := ranges[i - 1];
        if r.start <= previous.end || (previous.end < MAX_INT && r.start == previous.end + 1) {
          assert !Apart(ranges[i - 1], ranges[i]);
          return false, count;
        }
      }
      var cardinality := r.end - r.start + 1;
      if count > MAX_INT - cardinality {
        return false, count;
      }
      count := count + cardinality;
      SpacedNext(ranges, i);
      i := i + 1;
    }
    assert ranges[..i] == ranges;
    return true, count;
  }

  lemma SpacedNext(ranges: seq<LineRange>, i: nat)
    requires i < |ranges| && Spaced(ranges[..i]) && (i > 0 ==> Apart(ranges[i - 1], ranges[i]))
    ensures Spaced(ranges[..i + 1])
  {
    var front, next := ranges[..i], ranges[..i + 1];
    forall j | 0 < j < |next| ensures Apart(next[j - 1], next[j]) {
      if j < i { assert Apart(front[j - 1], front[j]); }
    }
  }

  // ---- one line under two spellings of a file

  ghost function Files(lines: ChangedLines): set<string> {
    set k | k in lines.Keys :: NormalizeFile(k)
  }

  /** The changed lines of the files themselves, however their paths are spelled. */
  ghost function FileLines(lines: ChangedLines): set<(string, int)> {
    set p | p in ChangedPairs(lines, lines.Keys) :: (NormalizeFile(p.0), p.1)
  }

  ghost predicate FilesApart(lines: ChangedLines) {
    forall k, l :: k in lines && l in lines && NormalizeFile(k) == NormalizeFile(l) ==> k == l
  }

  /** No line is listed under two spellings of its file. */
  ghost predicate LinesApart(lines: ChangedLines) {
    forall k, l, line :: k in lines && l in lines && line in LineSet(lines[k]) && line in LineSet(lines[l]) ==>
      NormalizeFile(k) == NormalizeFile(l) ==> k == l
  }

  ghost function Image<A, B>(f: A -> B, s: set<A>): set<B> {
    set x | x in s :: f(x)
  }

  /** An image is as large as what it is the image of exactly when nothing falls together. */
  lemma {:induction false} ImageCount<A, B>(f: A -> B, s: set<A>)
    ensures |Image(f, s)| <= |s|
    ensures |Image(f, s)| == |s| <==> forall x, y :: x in s && y in s && f(x) == f(y) ==> x == y
  {
    if s == {} {
      assert Image(f, s) == {};
    } else {
      var x :| x in s;
      var rest := s - {x};
      ImageCount(f, rest);
      assert s == rest + {x};
      if f(x) in Image(f, rest) {
        assert Image(f, s) == Image(f, rest);
        var y :| y in rest && f(y) == f(x);
        assert y != x;
      } else {
        assert Image(f, s) == Image(f, rest) + {f(x)};
        forall y | y in rest ensures f(y) != f(x) { assert f(y) in Image(f, rest); }
      }
    }
  }

  /** The count by spellings is the number of files exactly when no file is spelled twice. */
  lemma FilesCountedExactly(lines: ChangedLines)
    ensures |Files(lines)| <= |lines.Keys|
    ensures |Files(lines)| == |lines.Keys| <==> FilesApart(lines)
  {
    hide NormalizeFile;
    var f := (k: string) => NormalizeFile(k);
    ImageCount(f, lines.Keys);
    forall n ensures n in Files(lines) <==> n in Image(f, lines.Keys) {
      if n in Image(f, lines.Keys) { var k :| k in lines.Keys && f(k) == n; }
      if n in Files(lines) {
        var k :| k in lines.Keys && NormalizeFile(k) == n;
        assert f(k) == n;
      }
    }
    assert Files(lines) == Image(f, lines.Keys);
    if FilesApart(lines) {
      forall x, y | x in lines.Keys && y in lines.Keys && f(x) == f(y) ensures x == y { }
    }
    if forall x, y :: x in lines.Keys && y in lines.Keys && f(x) == f(y) ==> x == y {
      forall k, l | k in lines && l in lines && NormalizeFile(k) == NormalizeFile(l) ensures k == l {
        assert k in lines.Keys && l in lines.Keys && f(k) == f(l);
      }
    }
  }

  /** The count by spellings is the number of distinct changed lines exactly when no line is listed under two
      spellings of its file.  A diff that lists files by their cleaned paths is counted right. */
  lemma LinesCountedExactly(lines: ChangedLines)
    ensures |FileLines(lines)| <= |ChangedPairs(lines, lines.Keys)|
    ensures |FileLines(lines)| == |ChangedPairs(lines, lines.Keys)| <==> LinesApart(lines)
    ensures (forall k :: k in lines ==> NormalizeFile(k) == k) ==> FilesApart(lines) && LinesApart(lines)
  {
    hide NormalizeFile, LineSet;
    var pairs, f := ChangedPairs(lines, lines.Keys), (p: (string, int)) => (NormalizeFile(p.0), p.1);
    ImageCount(f, pairs);
    forall n ensures n in FileLines(lines) <==> n in Image(f, pairs) {
      if n in Image(f, pairs) { var p :| p in pairs && f(p) == n; }
      if n in FileLines(lines) {
        var p :| p in pairs && (NormalizeFile(p.0), p.1) == n;
        assert f(p) == n;
      }
    }
    assert FileLines(lines) == Image(f, pairs);
    if LinesApart(lines) {
      forall p, q | p in pairs && q in pairs && f(p) == f(q) ensures p == q { }
    }
    if forall p, q :: p in pairs && q in pairs && f(p) == f(q) ==> p == q {
      forall k, l, line | k in lines && l in lines && line in LineSet(lines[k]) && line in LineSet(lines[l])
        ensures NormalizeFile(k) == NormalizeFile(l) ==> k == l
      {
        assert (k, line) in pairs && (l, line) in pairs;
        if NormalizeFile(k) == NormalizeFile(l) { assert f((k, line)) == f((l, line)); }
      }
    }
  }

  const FIRST_LINE := [LineRange(1, 1)]
  const TWO_SPELLINGS: ChangedLines := map["a" := FIRST_LINE, "./a" := FIRST_LINE]

  /** One line of one file that is counted as two lines of two files. */
  lemma TwoSpellingsCountTwice()
    ensures |TWO_SPELLINGS| == 2 == |ChangedPairs(TWO_SPELLINGS, TWO_SPELLINGS.Keys)|
    ensures |Files(TWO_SPELLINGS)| == 1 == |FileLines(TWO_SPELLINGS)|
    ensures ValidChanged(TWO_SPELLINGS) && forall k :: k in TWO_SPELLINGS ==> Normal(TWO_SPELLINGS[k])
  {
    hide NormalizeFile, ValidPath, LineSet;
    SpelledTwice();
    SpelledValid();
    FirstLineOnly();
    var lines := TWO_SPELLINGS;
    assert "a" != "./a" && lines.Keys == {"a", "./a"};
    assert ChangedPairs(lines, lines.Keys) == {("a", 1), ("./a", 1)};
    assert Files(lines) == {"a"};
    assert FileLines(lines) == {("a", 1)};
  }

  lemma FirstLineOnly()
    ensures LineSet(FIRST_LINE) == {1} && Normal(FIRST_LINE)
  {
    LineSetIs(FIRST_LINE);
    hide LineSet;
    assert LineRange(1, 1) in FIRST_LINE && Covers(FIRST_LINE, 1);
  }

  lemma SpelledTwice()
    ensures NormalizeFile("a") == "a" == NormalizeFile("./a")
  {
    assert "." + ['/'] + "a" == "./a";
    SplitFirst(".", "a", '/');
    SplitWord("a", '/');
    hide Split;
    assert Components(["a"]) == ["a"] + Components([]);
    assert [".", "a"][1..] == ["a"] && Components([".", "a"]) == [] + Components(["a"]);
  }

  lemma SpelledPortably()
    ensures Portable("a") == "a" && Portable("./a") == "./a"
  {
    assert "a"[1..] == "" && "./a"[1..] == "/a" && "/a"[1..] == "a";
  }

  lemma SpelledInside()
    ensures ".." !in Split("a", '/') && ".." !in Split("./a", '/')
  {
    assert "." + ['/'] + "a" == "./a";
    SplitFirst(".", "a", '/');
    SplitWord("a", '/');
    hide Split;
  }

  lemma SpelledVisibly()
    ensures !Blank("a") && !Blank("./a")
  {
    assert 'a' in "a" && 'a' in "./a" && !IsSpace('a');
  }

  lemma SpelledRelatively()
    ensures !HasPrefix("a", "/") && !HasPrefix("./a", "/") && !WindowsAbsolute("a") && !WindowsAbsolute("./a")
  {
    assert "a"[0] != "/"[0] && "./a"[0] != "/"[0];
  }

  lemma SpelledValid()
    ensures ValidPath("a") && ValidPath("./a")
  {
    hide Split, Portable, Blank, HasPrefix, WindowsAbsolute;
    SpelledPortably();
    SpelledInside();
    SpelledVisibly();
    SpelledRelatively();
  }

  /** `validateDiff` on the line data: the ranges of every path are in normal form, and the stated counts are the number
      of paths and the number of distinct changed lines of each.  They are those of the files unless paths are
      spelled in two ways. */
  method ValidateDiff(changedFiles: int, changedLines: int, lines: ChangedLines) returns (ok: bool)
    requires forall k, r :: k in lines && r in lines[k] ==> r.end <= MAX_INT
    ensures ok <==>
      && |lines| == changedFiles && ValidChanged(lines)
      && (forall k :: k in lines ==> Normal(lines[k]))
      && |ChangedPairs(lines, lines.Keys)| == changedLines <= MAX_INT
    ensures ok ==> (|Files(lines)| == changedFiles <==> FilesApart(lines))
    ensures ok ==> (|FileLines(lines)| == changedLines <==> LinesApart(lines))
  {
    hide ValidPath, NormalizeFile, LineSet, ChangedPairs, Cardinality, Normal, Gathered;
    hide Files, FileLines, FilesApart, LinesApart;
    FilesCountedExactly(lines);
    LinesCountedExactly(lines);
    if changedFiles < 0 || changedLines < 0 || (changedFiles == 0 && changedLines != 0) {
      CountOfNone(lines);
      return false;
    }
    if |lines| != changedFiles {
      return false;
    }
    var valid, _ := ValidatedChangedLines(lines);
    if !valid {
      return false;
    }
    CountOfNone(lines);
    var count: nat := 0;
    var rest := lines.Keys;
    while rest != {}
      invariant rest <= lines.Keys && count <= MAX_INT
      invariant forall k :: k in lines && k !in rest ==> Normal(lines[k])
      invariant count == |ChangedPairs(lines, lines.Keys - rest)|
      decreases rest
    {
      var k :| k in rest;
      assert forall r :: r in lines[k] ==> ValidRange(r);
      var counted;
      ghost var before := count;
      counted, count := CountRanges(lines[k], count);
      SpacedIsNormal(lines[k]);
      NormalPairsNext(lines, lines.Keys - rest, k);
      assert lines.Keys - rest + {k} == lines.Keys - (rest - {k});
      PairsGrow(lines, lines.Keys - (rest - {k}), lines.Keys);
      if !counted {
        return false;
      }
      rest := rest - {k};
    }
    assert lines.Keys - {} == lines.Keys;
    return count == changedLines;
  }

  lemma NormalPairsNext(changed: ChangedLines, keys: set<string>, k: string)
    requires keys <= changed.Keys && k in changed && k !in keys
    ensures Normal(changed[k]) ==>
      |ChangedPairs(changed, keys + {k})| == |ChangedPairs(changed, keys)| + Cardinality(changed[k])
  {
    PairsNext(changed, keys, k);
    if Normal(changed[k]) { CardinalityIsCount(changed[k]); }
  }

  lemma CountOfNone(lines: ChangedLines)
    ensures |lines| == 0 ==> |ChangedPairs(lines, lines.Keys)| == 0
    ensures |ChangedPairs(lines, lines.Keys - lines.Keys)| == 0
  {
    assert ChangedPairs(lines, lines.Keys - lines.Keys) == {};
    if |lines| == 0 {
      assert lines == map[];
      assert ChangedPairs(lines, lines.Keys) == {};
    }
  }

  /** What `parseDiffHunks` produces is what `validateDiff` and `FilterTouched` accept. */
  lemma ParsedRangesAreAccepted(ranges: seq<LineRange>)
    requires Normal(ranges)
    ensures Spaced(ranges) && forall r :: r in ranges ==> GoodRange(r)
    ensures Cardinality(ranges) == |LineSet(ranges)| && forall line :: line in LineSet(ranges) <==> Covers(ranges, line)
  {
    SpacedIsNormal(ranges);
    CardinalityIsCount(ranges);
    LineSetIs(ranges);
  }
}
