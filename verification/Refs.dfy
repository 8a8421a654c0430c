/** Commits, refs, and the repository as several writers see it (internal/flywheel/landing.go,
    internal/flywheel/worktree.go). */
module Refs {
  import opened Text
  import opened Options
  import LandingEvidence

  // ---- commit objects

  /** Where the header ends: the position of the first blank line. */
  function HeaderEnd(raw: string, from: nat): (end: Option<nat>)
    requires from <= |raw|
    ensures end.Some? ==> from <= end.value && end.value + 2 <= |raw|
    decreases |raw| - from
  {
    if from + 2 > |raw| then None
    else if raw[from] == '\n' && raw[from + 1] == '\n' then Some(from)
    else HeaderEnd(raw, from + 1)
  }

  function HeaderLines(raw: string): seq<string> {
    var end := HeaderEnd(raw, 0);
    Split(if end.Some? then raw[..end.value] else raw, '\n')
  }

  function Message(raw: string): string {
    var end := HeaderEnd(raw, 0);
    if end.Some? then raw[end.value + 2..] else ""
  }

  function WithPrefix(lines: seq<string>, prefix: string): (found: seq<string>)
    ensures forall line :: line in found <==> line in lines && HasPrefix(line, prefix)
  {
    if lines == [] then []
    else
      var n := |lines| - 1;
      WithPrefix(lines[..n], prefix) + (if HasPrefix(lines[n], prefix) then [lines[n]] else [])
  }

  /** No commit is among its own ancestors: there is a rank that falls from every commit to its parents. */
  ghost predicate NoCycles(raw: string -> string) {
    exists rank: string -> nat :: Falls(raw, rank)
  }

  ghost predicate Falls(raw: string -> string, rank: string -> nat) {
    forall id, parent :: "parent " + parent in HeaderLines(raw(id)) ==> rank(parent) < rank(id)
  }

  function NoCommit(id: string): string { "" }

  lemma NoCommitFalls()
    ensures NoCycles(NoCommit)
  {
    SplitWord("", '\n');
    forall id, parent ensures "parent " + parent !in HeaderLines(NoCommit(id)) {
      assert HeaderLines(NoCommit(id)) == [""];
      assert |"parent " + parent| > 0;
    }
    assert Falls(NoCommit, (id: string) => 0);
  }

  /** IDs are content addresses: nothing changes what is stored under one, and a commit can only name older ones. */
  type CommitStore = raw: string -> string | NoCycles(raw) witness (NoCommitFalls(); NoCommit)

  /** The bytes stored under an object ID. */
  const RawCommit: CommitStore

  /** The trees and the parents that a commit names in its header. */
  function TreeLines(id: string): seq<string> {
    WithPrefix(HeaderLines(RawCommit(id)), "tree ")
  }

  function ParentLines(id: string): seq<string> {
    WithPrefix(HeaderLines(RawCommit(id)), "parent ")
  }

  function TreeOf(id: string): string {
    var lines := TreeLines(id);
    if lines == [] then ""
    else
      assert lines[0] in lines;
      lines[0][|"tree "|..]
  }

  predicate IsParent(id: string, parent: string) {
    "parent " + parent in ParentLines(id)
  }

  /** A commit of exactly this tree on exactly this parent. */
  predicate Snapshots(id: string, tree: string, parent: string) {
    TreeLines(id) == ["tree " + tree] && ParentLines(id) == ["parent " + parent]
  }

  lemma SnapshotFacts(id: string, tree: string, parent: string)
    requires Snapshots(id, tree, parent)
    ensures TreeOf(id) == tree && IsParent(id, parent)
    ensures forall p :: IsParent(id, p) ==> p == parent
  {
    hide TreeLines, ParentLines;
    assert ("tree " + tree)[|"tree "|..] == tree;
    forall p | IsParent(id, p) ensures p == parent {
      assert "parent " + p == "parent " + parent;
      assert ("parent " + p)[|"parent "|..] == p && ("parent " + parent)[|"parent "|..] == parent;
    }
  }

  lemma RankFalls(id: string, parent: string, rank: string -> nat)
    requires Falls(RawCommit, rank) && IsParent(id, parent)
    ensures rank(parent) < rank(id)
  {
    hide HeaderLines, HasPrefix;
    assert "parent " + parent in HeaderLines(RawCommit(id));
  }

  lemma SomeRank() returns (rank: string -> nat)
    ensures Falls(RawCommit, rank)
  {
    hide Falls;
    assert NoCycles(RawCommit);
    rank :| Falls(RawCommit, rank);
  }

  /** A commit of a tree on a parent is not that parent. */
  lemma SnapshotIsOther(id: string, tree: string, parent: string)
    requires Snapshots(id, tree, parent)
    ensures id != parent
  {
    SnapshotFacts(id, tree, parent);
    hide *;
    var rank := SomeRank();
    RankFalls(id, parent, rank);
  }

  /** Each commit was made on the one before, the first on `start`. */
  predicate Chain(start: string, commits: seq<string>) {
    commits == []
    || (Chain(start, commits[..|commits| - 1])
        && IsParent(commits[|commits| - 1], Tip(start, commits[..|commits| - 1])))
  }

  function Tip(start: string, commits: seq<string>): string {
    if commits == [] then start else commits[|commits| - 1]
  }

  lemma {:induction false} ChainMovesOn(start: string, commits: seq<string>, rank: string -> nat)
    requires Chain(start, commits) && Falls(RawCommit, rank)
    ensures rank(Tip(start, commits)) >= rank(start) + |commits|
  {
    hide IsParent, Falls;
    if commits != [] {
      var n := |commits| - 1;
      ChainMovesOn(start, commits[..n], rank);
      RankFalls(commits[n], Tip(start, commits[..n]), rank);
    }
  }

  /** A chain of commits leads back to where it started only if it is empty. */
  lemma TipIsStartExactly(start: string, commits: seq<string>)
    requires Chain(start, commits)
    ensures Tip(start, commits) == start <==> commits == []
  {
    hide IsParent, Falls, Chain;
    var rank := SomeRank();
    ChainMovesOn(start, commits, rank);
  }

  // ---- ancestry

  predicate Path(path: seq<string>, id: string, ancestor: string) {
    && path != [] && path[0] == id && path[|path| - 1] == ancestor
    && forall i :: 0 < i < |path| ==> IsParent(path[i - 1], path[i])
  }

  ghost predicate Descends(id: string, ancestor: string) {
    exists path :: Path(path, id, ancestor)
  }

  lemma DescendsAlong(path: seq<string>, id: string, ancestor: string)
    requires Path(path, id, ancestor)
    ensures Descends(id, ancestor)
  {
  }

  lemma DescendsSelf(id: string)
    ensures Descends(id, id)
  {
    assert Path([id], id, id);
  }

  lemma DescendsParent(id: string, parent: string)
    requires IsParent(id, parent)
    ensures Descends(id, parent)
  {
    hide IsParent;
    assert Path([id, parent], id, parent);
  }

  lemma DescendsTransitive(a: string, b: string, c: string)
    requires Descends(a, b) && Descends(b, c)
    ensures Descends(a, c)
  {
    hide IsParent;
    var p :| Path(p, a, b);
    var q :| Path(q, b, c);
    assert Path(p + q[1..], a, c);
  }

  // ---- refs

  datatype RefState = Missing | Symbolic(target: string) | Direct(id: string)

  /** Someone with this ref can still get at a commit of this tree. */
  ghost predicate Reaches(ref: RefState, tree: string) {
    ref.Direct? && exists c :: Descends(ref.id, c) && TreeOf(c) == tree
  }

  /** A ref that was moved, but not back. */
  ghost predicate Forward(before: RefState, after: RefState) {
    before == after || (before.Direct? && after.Direct? && Descends(after.id, before.id))
  }

  lemma ForwardReaches(before: RefState, after: RefState, tree: string)
    requires Forward(before, after) && Reaches(before, tree)
    ensures Reaches(after, tree)
  {
    hide Descends, TreeOf;
    if before != after {
      var c :| Descends(before.id, c) && TreeOf(c) == tree;
      DescendsTransitive(after.id, before.id, c);
    }
  }

  lemma ForwardTransitive(a: RefState, b: RefState, c: RefState)
    requires Forward(a, b) && Forward(b, c)
    ensures Forward(a, c)
  {
    hide Descends;
    if a != b && b != c { DescendsTransitive(c.id, b.id, a.id); }
  }

  // ---- who wrote what

  /** The history of the two refs.  The first act says what they were to begin with; everything but `Foreign` is our
      own doing: writes, observations of the run ref (`Seen`), of worktree and index (`Proved`), of the worktree gone,
      of the feature branch before a landing (`Guarded`), and so on. */
  datatype Act =
    | Foreign(run: RefState, feature: RefState)
    | Swapped(from: string, to: string)
    | Deleted(from: string)
    | Merged(commit: string)
    | Gone
    | Seen(id: string)
    | Proved(id: string)
    | Intact
    | Created(id: string)
    | Guarded(commit: string, base: string)
    | Launched(commit: string)
    | Evidenced(evidence: LandingEvidence.Evidence)

  function RunOf(log: seq<Act>): RefState {
    if log == [] then Missing
    else
      match log[|log| - 1]
      case Foreign(run, _) => run
      case Swapped(_, to) => Direct(to)
      case Deleted(_) => Missing
      case _ => RunOf(log[..|log| - 1])
  }

  function FeatureOf(log: seq<Act>): RefState {
    if log == [] then Missing
    else
      match log[|log| - 1]
      case Foreign(_, feature) => feature
      case Merged(commit) => Direct(commit)
      case _ => FeatureOf(log[..|log| - 1])
  }

  /** Our own writes to the run ref, in order. */
  function OwnWrites(log: seq<Act>): seq<Act> {
    if log == [] then [] else OwnWrites(log[..|log| - 1]) + OwnWrite(log[|log| - 1])
  }

  function OwnWrite(a: Act): seq<Act> {
    if a.Swapped? || a.Deleted? then [a] else []
  }

  /** Foreign writers do not take either ref back. */
  ghost predicate PoliteSince(log: seq<Act>, start: nat) {
    forall i :: start <= i < |log| ==> PoliteAt(log, i)
  }

  ghost predicate PoliteAt(log: seq<Act>, i: nat)
    requires i < |log|
  {
    log[i].Foreign? ==> Forward(RunOf(log[..i]), log[i].run) && Forward(FeatureOf(log[..i]), log[i].feature)
  }

  /** The last act that set the run ref was our own move to `id`. */
  predicate OursLast(log: seq<Act>, id: string) {
    if log == [] then false
    else
      var before := log[..|log| - 1];
      match log[|log| - 1]
      case Swapped(_, to) => to == id
      case Deleted(_) => false
      case Foreign(run, _) => run == RunOf(before) && OursLast(before, id)
      case _ => OursLast(before, id)
  }

  lemma {:induction false} OursIsThere(log: seq<Act>, id: string)
    requires OursLast(log, id)
    ensures RunOf(log) == Direct(id)
  {
    var last := log[|log| - 1];
    if !last.Swapped? { OursIsThere(log[..|log| - 1], id); }
  }

  /** What we did or saw ourselves, in order. */
  function Acts(log: seq<Act>): seq<Act> {
    if log == [] then [] else Acts(log[..|log| - 1]) + (if log[|log| - 1].Foreign? then [] else [log[|log| - 1]])
  }

  /** The last of it. */
  function LastAct(log: seq<Act>): Option<Act> {
    var acts := Acts(log);
    if acts == [] then None else Some(acts[|acts| - 1])
  }

  lemma ActsNext(log: seq<Act>, a: Act)
    ensures Acts(log + [a]) == Acts(log) + (if a.Foreign? then [] else [a])
    ensures LastAct(log + [a]) == if a.Foreign? then LastAct(log) else Some(a)
  {
    assert (log + [a])[..|log|] == log;
  }

  /** Wherever this act occurs, that one comes just before it. */
  predicate RightAfter(trail: seq<Act>, act: Act, earlier: Act) {
    forall k :: 0 <= k < |trail| && trail[k] == act ==> k > 0 && trail[k - 1] == earlier
  }

  lemma RightAfterHere(first: seq<Act>, second: seq<Act>, act: Act, earlier: Act)
    requires first != [] && first[|first| - 1] == earlier && act !in first
    requires forall k :: 0 < k < |second| ==> second[k] != act
    ensures RightAfter(first + second, act, earlier)
  {
    var trail := first + second;
    assert forall k :: 0 <= k < |first| ==> trail[k] in first;
  }

  /** Nobody but foreign writers has done anything since the worktree was seen to be gone. */
  predicate SeenGone(log: seq<Act>) {
    log != [] && (log[|log| - 1] == Gone || (log[|log| - 1].Foreign? && SeenGone(log[..|log| - 1])))
  }

  /** What may be done next: a write replaces what it says it replaces, an observation says what is there, a deletion
      follows the removal of the worktree, and a landing goes step by step. */
  ghost predicate Permitted(log: seq<Act>, a: Act) {
    match a
    case Swapped(from, _) => RunOf(log) == Direct(from)
    case Deleted(from) => RunOf(log) == Direct(from) && SeenGone(log)
    case Seen(id) => RunOf(log) == Direct(id)
    case Proved(id) => LastAct(log) == Some(Seen(id))
    case Guarded(commit, base) => FeatureOf(log) == Direct(base) && LastAct(log) == Some(Seen(commit))
    case Launched(commit) => exists base :: LastAct(log) == Some(Guarded(commit, base))
    case Merged(commit) => LastAct(log) == Some(Launched(commit))
    case Evidenced(_) => LastAct(log).Some? && (LastAct(log).value.Launched? || LastAct(log).value.Merged?)
    case _ => true
  }

  ghost predicate Orderly(log: seq<Act>) {
    forall i :: 0 <= i < |log| ==> Permitted(log[..i], log[i])
  }

  lemma OrderlyNext(log: seq<Act>, a: Act)
    requires Orderly(log) && Permitted(log, a)
    ensures Orderly(log + [a])
  {
    hide Permitted;
    forall i | 0 <= i < |log + [a]| ensures Permitted((log + [a])[..i], (log + [a])[i]) {
      assert (log + [a])[..i] == log[..i];
    }
  }

  // ---- foreign values stand

  /** One of these commits, and not a value that somebody else has given the ref. */
  predicate OneOf(ref: RefState, ids: set<string>) {
    ref.Direct? && ref.id in ids
  }

  /** Since `start` nobody but foreign writers has changed the run ref, except where it was one of `ids`. */
  ghost predicate Spares(log: seq<Act>, start: nat, ids: set<string>) {
    forall i :: start <= i < |log| && !log[i].Foreign? && !OneOf(RunOf(log[..i]), ids) ==>
      RunOf(log[..i + 1]) == RunOf(log[..i])
  }

  /** A value that somebody has given the ref stays until somebody else changes it. */
  lemma {:induction false} ForeignStands(log: seq<Act>, i: nat, j: nat, ids: set<string>)
    requires Spares(log, i, ids) && i < j <= |log| && log[i].Foreign? && !OneOf(log[i].run, ids)
    requires forall k :: i < k < j ==> !log[k].Foreign?
    ensures RunOf(log[..j]) == log[i].run
    decreases j
  {
    if j == i + 1 {
      assert log[..j][..i] == log[..i] && log[..j][i] == log[i];
    } else {
      ForeignStands(log, i, j - 1, ids);
      assert !log[j - 1].Foreign?;
      hide RunOf;
    }
  }

  lemma Cancel<A>(a: seq<A>, b: seq<A>, c: seq<A>)
    requires a + b == a + c
    ensures b == c
  {
    assert (a + b)[|a|..] == b && (a + c)[|a|..] == c;
  }

  /** Our writes are among those that were counted. */
  lemma {:induction false} Counted(before: seq<Act>, log: seq<Act>, writes: seq<Act>, i: nat)
    requires before <= log && |before| <= i < |log| && (log[i].Swapped? || log[i].Deleted?)
    requires OwnWrites(log) == OwnWrites(before) + writes
    ensures log[i] in writes
    decreases |log|
  {
    var n := |log| - 1;
    var front, last := log[..n], OwnWrite(log[n]);
    assert OwnWrites(log) == OwnWrites(front) + last;
    assert i == n ==> last == [log[n]];
    hide *;
    OnlyMore(before, front);
    var earlier := OwnWrites(front)[|OwnWrites(before)|..];
    Regroup(OwnWrites(before), earlier, last, writes);
    if i < n {
      assert front[i] == log[i];
      Counted(before, front, earlier, i);
    }
  }

  lemma Regroup<A>(a: seq<A>, b: seq<A>, c: seq<A>, whole: seq<A>)
    requires (a + b) + c == a + whole
    ensures whole == b + c
  {
    assert (a + b) + c == a + (b + c);
    Cancel(a, b + c, whole);
  }

  lemma {:induction false} OnlyMore(before: seq<Act>, log: seq<Act>)
    requires before <= log
    ensures OwnWrites(before) <= OwnWrites(log)
    decreases |log|
  {
    if |before| < |log| {
      OnlyMore(before, log[..|log| - 1]);
    } else {
      assert before == log;
    }
  }

  /** A stretch of history in which we wrote nothing but over these commits. */
  lemma SparesForeign(before: seq<Act>, log: seq<Act>, writes: seq<Act>, ids: set<string>)
    requires Orderly(log) && Went(before, log, writes) && forall w :: w in writes ==> w.from in ids
    ensures Spares(log, |before|, ids)
  {
    hide RunOf, OwnWrites, SeenGone, LastAct, FeatureOf;
    forall i | |before| <= i < |log| && !log[i].Foreign? && !OneOf(RunOf(log[..i]), ids)
      ensures RunOf(log[..i + 1]) == RunOf(log[..i])
    {
      assert Permitted(log[..i], log[i]);
      if log[i].Swapped? || log[i].Deleted? { Counted(before, log, writes, i); }
      QuietAct(log, i);
    }
  }

  lemma QuietAct(log: seq<Act>, i: nat)
    requires i < |log| && !log[i].Foreign? && !log[i].Swapped? && !log[i].Deleted?
    ensures RunOf(log[..i + 1]) == RunOf(log[..i])
  {
    assert log[..i + 1][..i] == log[..i];
  }

  /** Where our writes leave the run ref if nobody interferes. */
  function Target(run: RefState, writes: seq<Act>): RefState {
    if writes == [] then run else RunOf(writes)
  }

  /** `log` goes on from `before`: `writes` are our own writes meanwhile, and if everybody else is polite
      they decide from where the run ref has gone forward, and the feature ref has not gone back. */
  ghost predicate Went(before: seq<Act>, log: seq<Act>, writes: seq<Act>) {
    && |before| <= |log| && before == log[..|before|] && OwnWrites(log) == OwnWrites(before) + writes
    && (forall w :: w in writes ==> w.Swapped? || w.Deleted?)
    && (PoliteSince(log, |before|) ==>
          Forward(Target(RunOf(before), writes), RunOf(log)) && Forward(FeatureOf(before), FeatureOf(log)))
  }

  lemma PoliteInit(log: seq<Act>, n: nat, start: nat)
    requires PoliteSince(log, start) && n <= |log|
    ensures PoliteSince(log[..n], start)
  {
    forall i | start <= i < n ensures PoliteAt(log[..n], i) {
      assert PoliteAt(log, i) && log[..n][..i] == log[..i];
    }
  }

  lemma TargetForward(a: RefState, b: RefState, c: RefState, first: seq<Act>, second: seq<Act>)
    requires forall w :: w in first + second ==> w.Swapped? || w.Deleted?
    requires Forward(Target(a, first), b) && Forward(Target(b, second), c)
    ensures Forward(Target(a, first + second), c)
  {
    hide Forward;
    if second == [] {
      assert first + second == first;
      ForwardTransitive(Target(a, first), b, c);
    } else {
      assert second[|second| - 1] in first + second;
    }
  }

  lemma WentThen(a: seq<Act>, b: seq<Act>, c: seq<Act>, first: seq<Act>, second: seq<Act>)
    requires Went(a, b, first) && Went(b, c, second)
    ensures Went(a, c, first + second)
  {
    hide RunOf, FeatureOf, OwnWrites, Forward, Target, PoliteAt;
    assert c[..|b|][..|a|] == c[..|a|];
    if PoliteSince(c, |a|) {
      PoliteInit(c, |b|, |a|);
      TargetForward(RunOf(a), RunOf(b), RunOf(c), first, second);
      ForwardTransitive(FeatureOf(a), FeatureOf(b), FeatureOf(c));
    }
  }

  /** Nothing more was written. */
  lemma WentOn(a: seq<Act>, b: seq<Act>, c: seq<Act>, writes: seq<Act>)
    requires Went(a, b, writes) && Went(b, c, [])
    ensures Went(a, c, writes)
  {
    hide Went;
    WentThen(a, b, c, writes, []);
    assert writes + [] == writes;
  }

  /** Nothing had been written before. */
  lemma WentFirst(a: seq<Act>, b: seq<Act>, c: seq<Act>, writes: seq<Act>)
    requires Went(a, b, []) && Went(b, c, writes)
    ensures Went(a, c, writes)
  {
    hide Went;
    WentThen(a, b, c, [], writes);
    assert [] + writes == writes;
  }

  lemma WentSelf(log: seq<Act>)
    ensures Went(log, log, [])
  {
  }

  lemma OneAct(log: seq<Act>, a: Act)
    ensures RunOf(log + [a]) ==
      (match a case Foreign(run, _) => run case Swapped(_, to) => Direct(to)
       case Deleted(_) => Missing case _ => RunOf(log))
    ensures FeatureOf(log + [a]) ==
      (match a case Foreign(_, f) => f case Merged(c) => Direct(c) case _ => FeatureOf(log))
    ensures OwnWrites(log + [a]) == OwnWrites(log) + OwnWrite(a)
    ensures a.Foreign? && PoliteSince(log + [a], |log|) ==>
      Forward(RunOf(log), RunOf(log + [a])) && Forward(FeatureOf(log), FeatureOf(log + [a]))
  {
    assert (log + [a])[..|log|] == log;
    if a.Foreign? && PoliteSince(log + [a], |log|) {
      assert PoliteAt(log + [a], |log|);
    }
  }

  lemma WentQuietly(log: seq<Act>, a: Act)
    requires !a.Swapped? && !a.Deleted? && !a.Merged?
    ensures Went(log, log + [a], []) && ((SeenGone(log) && a.Foreign?) || a.Gone? ==> SeenGone(log + [a]))
    ensures LastAct(log + [a]) == if a.Foreign? then LastAct(log) else Some(a)
    ensures Acts(log + [a]) == Acts(log) + (if a.Foreign? then [] else [a])
  {
    OneAct(log, a);
    ActsNext(log, a);
    assert (log + [a])[..|log|] == log;
  }

  lemma TargetOfOne(run: RefState, a: Act)
    requires a.Swapped? || a.Deleted?
    ensures Target(run, [a]) == if a.Swapped? then Direct(a.to) else Missing
  {
  }

  lemma WentOwn(log: seq<Act>, a: Act)
    requires a.Swapped? || a.Deleted?
    ensures Went(log, log + [a], [a])
  {
    OneAct(log, a);
    TargetOfOne(RunOf(log), a);
    hide RunOf, FeatureOf, OwnWrites, Target, PoliteSince, Descends;
    assert (log + [a])[..|log|] == log;
  }

  lemma WroteAfter(before: seq<Act>, log: seq<Act>, a: Act)
    requires Went(before, log, []) && (a.Swapped? || a.Deleted?)
    ensures Went(before, log + [a], [a]) && FeatureOf(log + [a]) == FeatureOf(log)
    ensures RunOf(log + [a]) == if a.Swapped? then Direct(a.to) else Missing
  {
    hide Went;
    WentOwn(log, a);
    OneAct(log, a);
    WentThen(before, log, log + [a], [], [a]);
    assert [] + [a] == [a];
  }

  lemma WentMerged(log: seq<Act>, commit: string)
    requires FeatureOf(log).Direct? && Descends(commit, FeatureOf(log).id)
    ensures Went(log, log + [Merged(commit)], []) && RunOf(log + [Merged(commit)]) == RunOf(log)
    ensures FeatureOf(log + [Merged(commit)]) == Direct(commit)
  {
    OneAct(log, Merged(commit));
    assert (log + [Merged(commit)])[..|log|] == log;
    hide RunOf, FeatureOf, OwnWrites, Descends;
  }

  /** Something that was established or done without a write to a ref may go on record. */
  lemma Noted(log: seq<Act>, a: Act)
    requires Orderly(log) && Permitted(log, a) && !a.Foreign? && !a.Swapped? && !a.Deleted? && !a.Merged?
    ensures Orderly(log + [a]) && Went(log, log + [a], []) && Acts(log + [a]) == Acts(log) + [a]
    ensures RunOf(log + [a]) == RunOf(log) && FeatureOf(log + [a]) == FeatureOf(log)
    ensures a.Gone? ==> SeenGone(log + [a])
  {
    hide Acts, Permitted;
    OneAct(log, a);
    WentQuietly(log, a);
    OrderlyNext(log, a);
  }

  // ---- the repository

  /** The run ref, the feature ref and the cache worktree.  Every port lets foreign writers go first. */
  class Repository {
    var run: RefState
    var feature: RefState
    var present: bool
    ghost var log: seq<Act>

    ghost predicate Valid()
      reads this
    {
      run == RunOf(log) && feature == FeatureOf(log) && Orderly(log)
    }

    constructor (run: RefState, feature: RefState)
      ensures Valid() && this.run == run && this.feature == feature
    {
      this.run, this.feature, this.present, this.log := run, feature, true, [Foreign(run, feature)];
    }

    /** Foreign writers do what they like, and it is on record. */
    method Others()
      requires Valid()
      modifies this
      ensures Valid() && Went(old(log), log, []) && (old(SeenGone(log)) ==> SeenGone(log))
      ensures Acts(log) == old(Acts(log))
    {
      hide Acts, Permitted;
      run, feature, present := *, *, *;
      OneAct(log, Foreign(run, feature));
      WentQuietly(log, Foreign(run, feature));
      ForeignPermitted(log, run, feature);
      OrderlyNext(log, Foreign(run, feature));
      log := log + [Foreign(run, feature)];
    }

    /** An observation of the run ref; it may fail. */
    method InspectRun() returns (r: Option<RefState>)
      requires Valid()
      modifies this
      ensures Valid() && Went(old(log), log, []) && (old(SeenGone(log)) ==> SeenGone(log))
      ensures Acts(log) == old(Acts(log)) && (r.Some? ==> r.value == run)
    {
      Others();
      var ok: bool := *;
      return if ok then Some(run) else None;
    }

    /** `requireDirectRunRef`: the run branch is checked out, direct, and at the expected commit. */
    method RequireDirect(expected: string) returns (ok: bool)
      requires Valid()
      modifies this
      ensures Valid() && Went(old(log), log, []) && (ok ==> run == Direct(expected))
      ensures Acts(log) == old(Acts(log)) + if ok then [Seen(expected)] else []
    {
      hide Went, Acts, SeenGone;
      var bound: bool := *;
      var r := InspectRun();
      ok := bound && r == Some(Direct(expected));
      if ok {
        ghost var seen := log;
        Noted(log, Seen(expected));
        log := log + [Seen(expected)];
        WentOn(old(log), seen, log, []);
      }
    }

    /** The rest of `verifyBatch`: worktree and index still match the proof. */
    method VerifyTree(expected: string) returns (ok: bool)
      requires Valid() && LastAct(log) == Some(Seen(expected))
      modifies this
      ensures Valid() && Went(old(log), log, [])
      ensures Acts(log) == old(Acts(log)) + if ok then [Proved(expected)] else []
    {
      hide Went, Acts, SeenGone;
      Others();
      ok := *;
      if ok {
        ghost var seen := log;
        Noted(log, Proved(expected));
        log := log + [Proved(expected)];
        WentOn(old(log), seen, log, []);
      }
    }

    /** `snapshot.Verify`: the snapshot of the latest green tree has not changed. */
    method VerifySnapshot() returns (ok: bool)
      requires Valid()
      modifies this
      ensures Valid() && Went(old(log), log, [])
      ensures Acts(log) == old(Acts(log)) + if ok then [Intact] else []
    {
      hide Went, Acts, SeenGone;
      Others();
      ok := *;
      if ok {
        ghost var seen := log;
        Noted(log, Intact);
        log := log + [Intact];
        WentOn(old(log), seen, log, []);
      }
    }

    /** `update-ref --no-deref`: a success is a swap, a failure may be one too. */
    method CompareAndSwap(next: string, previous: string) returns (ok: bool, ghost writes: seq<Act>)
      requires Valid()
      modifies this
      ensures Valid() && Went(old(log), log, writes) && (writes == [] || writes == [Swapped(previous, next)])
      ensures writes != [] ==> run == Direct(next) && log[|log| - 1] == Swapped(previous, next)
      ensures writes != [] ==> RunOf(log[..|log| - 1]) == Direct(previous)
      ensures Acts(log) == old(Acts(log)) + writes && (ok ==> writes != [])
    {
      hide Went, OwnWrites, SeenGone, Acts;
      Others();
      var swap: bool := *;
      writes := [];
      ok := false;
      if run == Direct(previous) && swap {
        ok := *;
        writes := [Swapped(previous, next)];
        WroteAfter(old(log), log, writes[0]);
        OrderlyNext(log, writes[0]);
        ActsNext(log, writes[0]);
        assert (log + writes)[..|log|] == log;
        run, log := Direct(next), log + writes;
      }
    }

    /** `update-ref -d`: deletes the run ref if it is still where it is expected. */
    method DeleteRun(expected: string) returns (ok: bool, ghost writes: seq<Act>)
      requires Valid() && SeenGone(log)
      modifies this
      ensures Valid() && Went(old(log), log, writes) && (writes == [] || writes == [Deleted(expected)])
      ensures writes != [] ==> log[|log| - 1] == Deleted(expected) && RunOf(log[..|log| - 1]) == Direct(expected)
      ensures Acts(log) == old(Acts(log)) + writes && (ok ==> writes != [])
    {
      hide Went, OwnWrites, SeenGone, Acts;
      Others();
      var delete: bool := *;
      writes := [];
      ok := false;
      if run == Direct(expected) && delete {
        ok := *;
        writes := [Deleted(expected)];
        WroteAfter(old(log), log, writes[0]);
        OrderlyNext(log, writes[0]);
        ActsNext(log, writes[0]);
        assert (log + writes)[..|log|] == log;
        run, log := Missing, log + writes;
      }
    }

    /** The worktree is neither on disk nor registered, and the run branch is checked out nowhere. */
    method VerifyWorktreeRemoved() returns (ok: bool)
      requires Valid()
      modifies this
      ensures Valid() && Went(old(log), log, []) && (ok ==> !present && SeenGone(log))
    {
      hide Went, Acts, SeenGone;
      Others();
      ok := *;
      if ok && !present {
        ghost var seen := log;
        Noted(log, Gone);
        log := log + [Gone];
        WentOn(old(log), seen, log, []);
      } else {
        ok := false;
      }
    }

    /** `commit-tree`: a new object. */
    method CreateCommit(tree: string, parent: string) returns (r: Option<string>)
      requires Valid()
      modifies this
      ensures Valid() && Went(old(log), log, []) && (r.Some? ==> Snapshots(r.value, tree, parent))
      ensures Acts(log) == old(Acts(log)) + if r.Some? then [Created(r.value)] else []
    {
      hide Went, Acts, SeenGone, Snapshots;
      Others();
      var id: string := *;
      if Snapshots(id, tree, parent) {
        ghost var seen := log;
        Noted(log, Created(id));
        log := log + [Created(id)];
        WentOn(old(log), seen, log, []);
        return Some(id);
      }
      return None;
    }

    /** An observation of the feature branch; it may fail. */
    method InspectFeature() returns (r: Option<RefState>)
      requires Valid()
      modifies this
      ensures Valid() && Went(old(log), log, []) && Acts(log) == old(Acts(log)) && (r.Some? ==> r.value == feature)
    {
      Others();
      var ok: bool := *;
      return if ok then Some(feature) else None;
    }

    /** The feature checkout is clean and its branch at the base; the commit to land must have been seen on the run
        branch just before. */
    method GuardFeature(commit: string, base: string) returns (ok: bool)
      requires Valid() && LastAct(log) == Some(Seen(commit))
      modifies this
      ensures Valid() && Went(old(log), log, [])
      ensures Acts(log) == old(Acts(log)) + if ok then [Guarded(commit, base)] else []
    {
      hide Went, Acts, SeenGone;
      var r := InspectFeature();
      var clean: bool := *;
      ok := clean && r == Some(Direct(base));
      if ok {
        ghost var seen := log;
        Noted(log, Guarded(commit, base));
        log := log + [Guarded(commit, base)];
        WentOn(old(log), seen, log, []);
      }
    }

    /** `merge --ff-only`: moves the feature branch forward or not at all; whether it says so is another matter.
        The guard must have been the last thing before it. */
    method MergeFastForward(commit: string, ghost base: string) returns (ok: bool)
      requires Valid() && LastAct(log) == Some(Guarded(commit, base))
      modifies this
      ensures Valid() && Went(old(log), log, [])
      ensures Acts(log) == old(Acts(log)) + [Launched(commit)]
        || Acts(log) == old(Acts(log)) + [Launched(commit), Merged(commit)]
    {
      hide Went, Acts, SeenGone;
      Others();
      ghost var waited := log;
      Noted(log, Launched(commit));
      log := log + [Launched(commit)];
      WentOn(old(log), waited, log, []);
      ok := *;
      var moved: bool := *;
      ghost var before := log;
      var path: seq<string> := *;
      if moved && feature.Direct? && Path(path, commit, feature.id) {
        DescendsAlong(path, commit, FeatureOf(log).id);
        WentMerged(log, commit);
        OrderlyNext(log, Merged(commit));
        ActsNext(log, Merged(commit));
        feature, log := Direct(commit), log + [Merged(commit)];
        WentOn(old(log), before, log, []);
      }
    }

    /** What the landing has left behind: the private transaction log and ORIG_HEAD. */
    method ReadEvidence() returns (evidence: LandingEvidence.Evidence)
      requires Valid() && LastAct(log).Some? && (LastAct(log).value.Launched? || LastAct(log).value.Merged?)
      modifies this
      ensures Valid() && Went(old(log), log, []) && Acts(log) == old(Acts(log)) + [Evidenced(evidence)]
    {
      hide Went, Acts, SeenGone;
      Others();
      evidence := *;
      ghost var seen := log;
      Noted(log, Evidenced(evidence));
      log := log + [Evidenced(evidence)];
      WentOn(old(log), seen, log, []);
    }

    /** Takes the worktree off the books; whether it did is for the caller to see. */
    method RemoveRegistration() returns (ok: bool)
      requires Valid()
      modifies this
      ensures Valid() && Went(old(log), log, [])
    {
      Others();
      ok := *;
    }
  }

  lemma ForeignPermitted(log: seq<Act>, run: RefState, feature: RefState)
    ensures Permitted(log, Foreign(run, feature))
  {
  }
}
