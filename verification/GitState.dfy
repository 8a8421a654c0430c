/** The Git control surfaces an agent must not touch: comparing snapshots of them and restoring the two that
    are owned (internal/flywheel/worktree.go:1706-2160, 3043-3101, 3632-3643). */
module GitState {
  import opened Options
  import opened Text
  import opened Sorting
  import Ports

  // ---- files

  datatype Mode = Mode(regular: bool, bits: int)

  /** What the file system says of a file.  `accessed` is not compared. */
  datatype FileInfo = FileInfo(inode: int, mode: Mode, size: int, modified: int, changed: int, accessed: int)

  datatype ExactFile = ExactFile(path: string, exists_: bool, mode: Mode, bytes: string, info: FileInfo)

  type Files = map<string, ExactFile>

  predicate SameFile(a: FileInfo, b: FileInfo) {
    a.inode == b.inode
  }

  predicate StableInfo(a: FileInfo, b: FileInfo) {
    SameFile(a, b) && a.mode == b.mode && a.size == b.size && a.modified == b.modified && a.changed == b.changed
  }

  predicate ExactEqual(a: ExactFile, b: ExactFile) {
    a.path == b.path && a.exists_ == b.exists_ && a.mode == b.mode && a.bytes == b.bytes
  }

  predicate IdentityEqual(a: ExactFile, b: ExactFile) {
    ExactEqual(a, b) && (a.exists_ ==> SameFile(a.info, b.info))
  }

  predicate StableEqual(a: ExactFile, b: ExactFile) {
    IdentityEqual(a, b) && (a.exists_ ==> StableInfo(a.info, b.info))
  }

  /** As the code compares maps: equal sizes, and every entry on the left is matched on the right. */
  predicate StableMapsEqual(a: Files, b: Files) {
    |a| == |b| && forall name :: name in a ==> name in b && StableEqual(a[name], b[name])
  }

  /** As it is meant: the same names, and each names the same file. */
  predicate SameFiles(a: Files, b: Files) {
    a.Keys == b.Keys && forall name :: name in a ==> StableEqual(a[name], b[name])
  }

  lemma EqualCount<T>(a: set<T>, b: set<T>)
    requires |a| == |b| && forall x :: x in a ==> x in b
    ensures a == b
  {
    assert b == a + (b - a);
    DisjointCount(a, b - a);
    assert b - a == {};
  }

  lemma MapsMeanFiles(a: Files, b: Files)
    ensures StableMapsEqual(a, b) <==> SameFiles(a, b)
  {
    hide StableEqual;
    if StableMapsEqual(a, b) {
      assert |a.Keys| == |b.Keys|;
      EqualCount(a.Keys, b.Keys);
    }
    if SameFiles(a, b) {
      assert |a.Keys| == |a| && |b.Keys| == |b|;
    }
  }

  lemma SameFilesTransitive(a: Files, b: Files, c: Files)
    requires SameFiles(a, b) && SameFiles(b, c)
    ensures SameFiles(a, c)
  {
  }

  // ---- snapshots

  datatype Ref = Ref(id: string, symbolic: string)

  /** Go's zero value: no such ref. */
  const NO_REF := Ref("", "")

  datatype Worktree = Worktree(path: string, head: string, rest: string)

  datatype State = State(
    owner: int, rootInfo: FileInfo, dotGit: ExactFile, gitDir: string, gitDirInfo: FileInfo,
    commonDir: string, commonInfo: FileInfo,
    head: string, symbolicHead: string, indexTree: string, indexPath: string, indexBytes: string, indexInfo: FileInfo,
    runRef: Ref, worktrees: seq<Worktree>, configGraph: string, configs: Files, pseudorefs: Files,
    refs: map<string, Ref>, hooks: Files, rawRefs: Files, rawControl: Files)

  function RunRefName(branch: string): string { "refs/heads/" + branch }

  function RunRefKey(branch: string): string { "common:heads/" + branch }

  function Lookup(refs: map<string, Ref>, name: string): Ref {
    if name in refs then refs[name] else NO_REF
  }

  /** What taking a snapshot guarantees of it. */
  predicate Taken(s: State, branch: string) {
    s.runRef == Lookup(s.refs, RunRefName(branch)) && "" !in s.refs &&
    forall name :: name in s.refs ==> s.refs[name] != NO_REF
  }

  predicate ControlBound(a: State, b: State) {
    && SameFile(a.rootInfo, b.rootInfo) && StableEqual(a.dotGit, b.dotGit)
    && a.gitDir == b.gitDir && a.commonDir == b.commonDir && a.indexPath == b.indexPath
    && SameFile(a.gitDirInfo, b.gitDirInfo) && SameFile(a.commonInfo, b.commonInfo)
  }

  predicate IndexExactEqual(a: State, b: State) {
    a.indexPath == b.indexPath && a.indexTree == b.indexTree && a.indexBytes == b.indexBytes &&
    StableInfo(a.indexInfo, b.indexInfo)
  }

  predicate IndexContentChanged(a: State, b: State) {
    a.indexTree != b.indexTree || a.indexBytes != b.indexBytes
  }

  function WithoutHead(t: Worktree): Worktree {
    t.(head := "")
  }

  /** The registrations agree, the head of the owned worktree aside. */
  predicate SharedWorktreesEqual(a: seq<Worktree>, b: seq<Worktree>, own: string) {
    && |a| == |b|
    && forall i :: 0 <= i < |a| ==>
         (if a[i].path == own && b[i].path == own then WithoutHead(a[i]) == WithoutHead(b[i]) else a[i] == b[i])
  }

  // ---- refs

  function NewRefs(before: map<string, Ref>, after: map<string, Ref>): set<string> {
    set name | name in after && name !in before
  }

  function DeletedRefs(before: map<string, Ref>, after: map<string, Ref>): set<string> {
    set name | name in before && name !in after
  }

  function MovedRefs(before: map<string, Ref>, after: map<string, Ref>): set<string> {
    set name | name in after && name in before && before[name] != after[name]
  }

  predicate RefsEqualExcept(a: map<string, Ref>, b: map<string, Ref>, excluded: string) {
    && (forall name :: name in a && name != excluded ==> name in b && a[name] == b[name])
    && (forall name :: name in b && name != excluded ==> name in a)
  }

  predicate OtherThan(names: set<string>, excluded: string) {
    exists name :: name in names && name != excluded
  }

  // ---- the storage of refs

  /** `isRunRefStorageAncestor`: a directory on the way to the run ref, in the same namespace. */
  predicate StorageAncestor(name: string, runKey: string) {
    HasPrefix(name, "common:") && HasPrefix(runKey, name + "/")
  }

  predicate RawRefsTransition(a: Files, b: Files, runKey: string, runRefChanged: bool) {
    if !runRefChanged then StableMapsEqual(a, b)
    else
      && (forall name :: name in a && name != runKey ==>
           name in b && (if StorageAncestor(name, runKey) then IdentityEqual(a[name], b[name])
                         else StableEqual(a[name], b[name])))
      && (forall name :: name in b && name != runKey ==> name in a)
  }

  /** The loose file of a direct ref: a regular file with the ID and a newline. */
  predicate DirectRefFile(file: ExactFile, id: string) {
    file.exists_ && file.mode.regular && file.bytes == id + "\n" && ValidObjectID(id)
  }

  function StorageProof(files: Files, runKey: string): Files {
    map name | name in files && (name == runKey || StorageAncestor(name, runKey)) :: files[name]
  }

  predicate StorageProofMatches(proof: Files, current: Files) {
    |proof| != 0 && forall name :: name in proof ==> name in current && StableEqual(proof[name], current[name])
  }

  // ---- what is compared

  datatype Surface = Head | Index | RunRef | Worktrees | Config | Pseudorefs | Hooks | RawRefs | RawControl |
                     RefSet | MovedRef

  /** The surfaces on which the snapshots differ, as `gitStateViolations` finds them. */
  predicate Differs(surface: Surface, a: State, b: State, branch: string, own: string) {
    match surface
    case Head => a.head != b.head || a.symbolicHead != b.symbolicHead
    case Index => !IndexExactEqual(a, b)
    case RunRef => a.runRef != b.runRef
    case Worktrees => !SharedWorktreesEqual(a.worktrees, b.worktrees, own)
    case Config => a.configGraph != b.configGraph || !StableMapsEqual(a.configs, b.configs)
    case Pseudorefs => !StableMapsEqual(a.pseudorefs, b.pseudorefs)
    case Hooks => !StableMapsEqual(a.hooks, b.hooks)
    case RawRefs => !RawRefsTransition(a.rawRefs, b.rawRefs, RunRefKey(branch), a.runRef != b.runRef)
    case RawControl => !StableMapsEqual(a.rawControl, b.rawControl)
    case RefSet => NewRefs(a.refs, b.refs) != {} || DeletedRefs(a.refs, b.refs) != {}
    case MovedRef => MovedRefs(a.refs, b.refs) != {}
  }

  /** Nothing protected differs. */
  predicate Unchanged(a: State, b: State, own: string) {
    && a.head == b.head && a.symbolicHead == b.symbolicHead && IndexExactEqual(a, b) && a.runRef == b.runRef
    && SharedWorktreesEqual(a.worktrees, b.worktrees, own) && a.configGraph == b.configGraph
    && SameFiles(a.configs, b.configs)
    && SameFiles(a.pseudorefs, b.pseudorefs) && SameFiles(a.hooks, b.hooks) && SameFiles(a.rawRefs, b.rawRefs)
    && SameFiles(a.rawControl, b.rawControl) && a.refs == b.refs
  }

  lemma NoRefChange(a: map<string, Ref>, b: map<string, Ref>)
    ensures NewRefs(a, b) == {} && DeletedRefs(a, b) == {} && MovedRefs(a, b) == {} <==> a == b
  {
    if NewRefs(a, b) == {} && DeletedRefs(a, b) == {} && MovedRefs(a, b) == {} {
      forall name ensures name in a <==> name in b {
        assert name !in NewRefs(a, b) && name !in DeletedRefs(a, b);
      }
      forall name | name in a ensures a[name] == b[name] {
        assert name !in MovedRefs(a, b);
      }
    }
  }

  /** The list of violations is empty exactly when nothing protected differs. */
  lemma NoViolation(a: State, b: State, branch: string, own: string)
    ensures (forall surface :: !Differs(surface, a, b, branch, own)) <==> Unchanged(a, b, own)
  {
    MapsMeanFiles(a.configs, b.configs);
    MapsMeanFiles(a.pseudorefs, b.pseudorefs);
    MapsMeanFiles(a.hooks, b.hooks);
    MapsMeanFiles(a.rawRefs, b.rawRefs);
    MapsMeanFiles(a.rawControl, b.rawControl);
    NoRefChange(a.refs, b.refs);
    hide StableMapsEqual, SameFiles, NewRefs, DeletedRefs, MovedRefs, SharedWorktreesEqual, IndexExactEqual;
    if forall surface :: !Differs(surface, a, b, branch, own) {
      assert !Differs(Head, a, b, branch, own) && !Differs(Index, a, b, branch, own);
      assert !Differs(RunRef, a, b, branch, own);
      assert !Differs(Worktrees, a, b, branch, own) && !Differs(Config, a, b, branch, own) &&
        !Differs(Pseudorefs, a, b, branch, own);
      assert !Differs(Hooks, a, b, branch, own) && !Differs(RawRefs, a, b, branch, own) &&
        !Differs(RawControl, a, b, branch, own);
      assert !Differs(RefSet, a, b, branch, own) && !Differs(MovedRef, a, b, branch, own);
    }
  }

  // ---- restoring

  datatype Write = SwapRunRef(to: string, from: string) | ReplaceIndex(to: string, from: string)

  datatype Problem =
    | WorktreesPreserved | ConfigPreserved | PseudorefsPreserved | HooksPreserved | RawRefsPreserved
    | RawControlPreserved
    | SymbolicHeadPreserved | NewRefsPreserved | DeletedRefsPreserved | MovedRefsPreserved | SymbolicRunRef
    | RunRefStorage
    | RunRefSwap | RunRefBinding | IndexMetadata | IndexSwap | AfterRestore | SharedChanged | OwnedDiffers

  /** The evidence that restoration leaves: the files it installed. */
  datatype Restoration = Restoration(
    problems: seq<Problem>, runRefFile: Option<ExactFile>, runRefStorage: Files, indexInfo: Option<FileInfo>)

  /** What is left alone must not have changed between the two snapshots. */
  predicate OnlyOwnedChanged(a: State, b: State, branch: string, own: string) {
    && SharedWorktreesEqual(a.worktrees, b.worktrees, own)
    && a.configGraph == b.configGraph && StableMapsEqual(a.configs, b.configs)
    && StableMapsEqual(a.pseudorefs, b.pseudorefs)
    && StableMapsEqual(a.hooks, b.hooks)
    && RawRefsTransition(a.rawRefs, b.rawRefs, RunRefKey(branch), a.runRef != b.runRef)
    && StableMapsEqual(a.rawControl, b.rawControl) && a.symbolicHead == b.symbolicHead && NewRefs(a.refs, b.refs) == {}
    && !OtherThan(DeletedRefs(a.refs, b.refs), RunRefName(branch))
    && !OtherThan(MovedRefs(a.refs, b.refs), RunRefName(branch))
  }

  /** `sharedGitStateEqual`: what others own, between the observed and the final snapshot. */
  predicate SharedEqual(a: State, b: State, r: Restoration, branch: string, own: string) {
    && a.owner == b.owner && ControlBound(a, b)
    && a.configGraph == b.configGraph && StableMapsEqual(a.configs, b.configs)
    && StableMapsEqual(a.pseudorefs, b.pseudorefs)
    && (if r.runRefFile.Some? then SharedWorktreesEqual(a.worktrees, b.worktrees, own) else a.worktrees == b.worktrees)
    && StableMapsEqual(a.hooks, b.hooks)
    && RawRefsTransition(a.rawRefs, b.rawRefs, RunRefKey(branch), r.runRefFile.Some?)
    && StableMapsEqual(a.rawControl, b.rawControl)
    && (r.indexInfo.None? ==> IndexExactEqual(a, b))
    && RefsEqualExcept(a.refs, b.refs, if r.runRefFile.Some? then RunRefName(branch) else "")
  }

  /** `ownedGitStateEqual`: what is ours, between the baseline and the final snapshot. */
  predicate OwnedEqual(a: State, b: State, r: Restoration, branch: string) {
    var key := RunRefKey(branch);
    && a.head == b.head && a.symbolicHead == b.symbolicHead && a.runRef == b.runRef
    && (if r.indexInfo.None? then IndexExactEqual(a, b)
        else a.indexPath == b.indexPath && !IndexContentChanged(a, b) && a.indexInfo.mode == b.indexInfo.mode
             && StableInfo(r.indexInfo.value, b.indexInfo))
    && (if r.runRefFile.None?
        then (key in a.rawRefs <==> key in b.rawRefs)
             && (key in a.rawRefs ==> StableEqual(a.rawRefs[key], b.rawRefs[key]))
        else key in a.rawRefs && key in b.rawRefs && ExactEqual(a.rawRefs[key], b.rawRefs[key])
             && StableEqual(r.runRefFile.value, b.rawRefs[key]) && StorageProofMatches(r.runRefStorage, b.rawRefs))
  }

  /** The final state is the baseline again, the owned files possibly in new inodes. */
  predicate BackTo(a: State, b: State, own: string, branch: string) {
    && a.head == b.head && a.symbolicHead == b.symbolicHead && a.runRef == b.runRef
    && a.indexPath == b.indexPath && a.indexTree == b.indexTree && a.indexBytes == b.indexBytes
    && a.refs == b.refs && SharedWorktreesEqual(a.worktrees, b.worktrees, own)
    && a.configGraph == b.configGraph && SameFiles(a.configs, b.configs) && SameFiles(a.pseudorefs, b.pseudorefs)
    && SameFiles(a.hooks, b.hooks) && SameFiles(a.rawControl, b.rawControl)
    && a.rawRefs.Keys == b.rawRefs.Keys
    && forall name :: name in a.rawRefs ==> ExactEqual(a.rawRefs[name], b.rawRefs[name])
  }

  lemma WorktreesTransitive(a: seq<Worktree>, b: seq<Worktree>, c: seq<Worktree>, own: string)
    requires SharedWorktreesEqual(a, b, own) && SharedWorktreesEqual(b, c, own)
    ensures SharedWorktreesEqual(a, c, own)
  {
    forall i | 0 <= i < |a|
      ensures if a[i].path == own && c[i].path == own then WithoutHead(a[i]) == WithoutHead(c[i]) else a[i] == c[i]
    {
      assert a[i].path == b[i].path by { SamePath(a, b, own, i); }
      assert b[i].path == c[i].path by { SamePath(b, c, own, i); }
    }
  }

  lemma SamePath(a: seq<Worktree>, b: seq<Worktree>, own: string, i: nat)
    requires SharedWorktreesEqual(a, b, own) && i < |a|
    ensures a[i].path == b[i].path
  {
    if a[i].path == own && b[i].path == own {
    } else {
      assert a[i] == b[i];
    }
  }

  /** The refs come back: the others never moved, and the run ref was put back. */
  lemma RefsChain(a: State, b: State, c: State, branch: string, restored: bool)
    requires Taken(a, branch) && Taken(b, branch) && Taken(c, branch)
    requires NewRefs(a.refs, b.refs) == {}
    requires !OtherThan(DeletedRefs(a.refs, b.refs), RunRefName(branch)) &&
      !OtherThan(MovedRefs(a.refs, b.refs), RunRefName(branch))
    requires RefsEqualExcept(b.refs, c.refs, if restored then RunRefName(branch) else "")
    requires a.runRef == c.runRef && (a.runRef != b.runRef ==> restored)
    ensures a.refs == c.refs
  {
    var run := RunRefName(branch);
    forall name | name != run
      ensures (name in a.refs <==> name in c.refs) && (name in a.refs ==> a.refs[name] == c.refs[name])
    {
      assert name !in NewRefs(a.refs, b.refs);
      assert name !in DeletedRefs(a.refs, b.refs) && name !in MovedRefs(a.refs, b.refs);
    }
    assert run in a.refs <==> run in c.refs;
  }

  /** The storage of the refs comes back with the same content. */
  lemma StorageChain(a: Files, b: Files, c: Files, key: string, first: bool, second: bool)
    requires RawRefsTransition(a, b, key, first) && RawRefsTransition(b, c, key, second)
    requires (key in a <==> key in c) && (key in a ==> ExactEqual(a[key], c[key]))
    ensures a.Keys == c.Keys && forall name :: name in a ==> ExactEqual(a[name], c[name])
  {
    Loosely(a, b, key, first);
    Loosely(b, c, key, second);
    hide RawRefsTransition, ExactEqual;
    forall name ensures (name in a <==> name in c) && (name in a ==> ExactEqual(a[name], c[name])) {
      if name in a && name != key { ExactTransitive(a[name], b[name], c[name]); }
    }
  }

  lemma ExactTransitive(a: ExactFile, b: ExactFile, c: ExactFile)
    requires ExactEqual(a, b) && ExactEqual(b, c)
    ensures ExactEqual(a, c)
  {
  }

  lemma Loosely(a: Files, b: Files, key: string, changed: bool)
    requires RawRefsTransition(a, b, key, changed)
    ensures forall name :: name != key ==> (name in a <==> name in b) && (name in a ==> ExactEqual(a[name], b[name]))
  {
    if !changed { MapsMeanFiles(a, b); }
  }

  /** Baseline, observed and final snapshot in a row. */
  lemma Chained(a: State, b: State, c: State, r: Restoration, branch: string, own: string)
    requires Taken(a, branch) && Taken(b, branch) && Taken(c, branch)
    requires OnlyOwnedChanged(a, b, branch, own) && SharedEqual(b, c, r, branch, own) && OwnedEqual(a, c, r, branch)
    requires a.runRef != b.runRef ==> r.runRefFile.Some?
    ensures BackTo(a, c, own, branch)
  {
    RefsChain(a, b, c, branch, r.runRefFile.Some?);
    StorageChain(a.rawRefs, b.rawRefs, c.rawRefs, RunRefKey(branch), a.runRef != b.runRef, r.runRefFile.Some?);
    hide RawRefsTransition, RefsEqualExcept, NewRefs, DeletedRefs, MovedRefs, OtherThan, Taken, ExactEqual;
    MapsMeanFiles(a.configs, b.configs);
    MapsMeanFiles(b.configs, c.configs);
    MapsMeanFiles(a.pseudorefs, b.pseudorefs);
    MapsMeanFiles(b.pseudorefs, c.pseudorefs);
    MapsMeanFiles(a.hooks, b.hooks);
    MapsMeanFiles(b.hooks, c.hooks);
    MapsMeanFiles(a.rawControl, b.rawControl);
    MapsMeanFiles(b.rawControl, c.rawControl);
    hide StableMapsEqual;
    SameFilesTransitive(a.configs, b.configs, c.configs);
    SameFilesTransitive(a.pseudorefs, b.pseudorefs, c.pseudorefs);
    SameFilesTransitive(a.hooks, b.hooks, c.hooks);
    SameFilesTransitive(a.rawControl, b.rawControl, c.rawControl);
    hide SameFiles;
    SharedAnyway(b.worktrees, c.worktrees, own);
    WorktreesTransitive(a.worktrees, b.worktrees, c.worktrees, own);
  }

  lemma SharedAnyway(a: seq<Worktree>, b: seq<Worktree>, own: string)
    ensures a == b ==> SharedWorktreesEqual(a, b, own)
  {
  }

  // ---- the check

  class Keeper {
    const owner: int
    const path: string
    const branch: string
    var indexInfo: FileInfo
    var indexBytes: string
    ghost var writes: seq<Write>
    ghost var taken: seq<State>

    constructor (owner: int, path: string, branch: string, indexInfo: FileInfo, indexBytes: string)
      ensures this.owner == owner && this.path == path && this.branch == branch && writes == []
    {
      this.owner, this.path, this.branch := owner, path, branch;
      this.indexInfo, this.indexBytes, this.writes, this.taken := indexInfo, indexBytes, [], [];
    }

    /** `snapshotGitState`; it may fail, and anyone may change anything before the next one. */
    method Snapshot() returns (r: Option<State>)
      modifies this`taken
      ensures r.Some? ==> Taken(r.value, branch) && r.value.owner == owner && taken == old(taken) + [r.value]
      ensures r.None? ==> taken == old(taken)
    {
      var s: State := *;
      var ok: bool := *;
      if !ok || !Taken(s, branch) || s.owner != owner {
        return None;
      }
      taken := taken + [s];
      return Some(s);
    }

    method GitStateViolations(before: State, after: State) returns (violations: seq<Surface>)
      ensures forall surface :: surface in violations <==> Differs(surface, before, after, branch, path)
      ensures violations == [] <==> forall surface :: !Differs(surface, before, after, branch, path)
    {
      hide Differs, Lists;
      ghost var checked: set<Surface> := {};
      NothingListed(before, after, branch, path);
      violations := [];
      violations, checked := Compare(Head, violations, before, after, checked);
      violations, checked := Compare(Index, violations, before, after, checked);
      violations, checked := Compare(RunRef, violations, before, after, checked);
      violations, checked := Compare(Worktrees, violations, before, after, checked);
      violations, checked := Compare(Config, violations, before, after, checked);
      violations, checked := Compare(Pseudorefs, violations, before, after, checked);
      violations, checked := Compare(Hooks, violations, before, after, checked);
      violations, checked := Compare(RawRefs, violations, before, after, checked);
      violations, checked := Compare(RawControl, violations, before, after, checked);
      violations, checked := Compare(RefSet, violations, before, after, checked);
      violations, checked := Compare(MovedRef, violations, before, after, checked);
      EverythingListed(violations, before, after, branch, path, checked);
    }

    /** One `if` of the list of violations. */
    method Compare(surface: Surface, violations: seq<Surface>, before: State, after: State, ghost checked: set<Surface>)
      returns (more: seq<Surface>, ghost all: set<Surface>)
      requires Lists(violations, before, after, branch, path, checked)
      ensures all == checked + {surface} && Lists(more, before, after, branch, path, all)
    {
      hide Differs;
      all := checked + {surface};
      more := if Differs(surface, before, after, branch, path) then violations + [surface] else violations;
    }

    /** `update-ref` of the run ref, by compare-and-swap. */
    method SwapRunRefTo(to: string, from: string) returns (ok: bool)
      modifies this`writes
      ensures writes == old(writes) + [SwapRunRef(to, from)]
    {
      ok := *;
      writes := writes + [SwapRunRef(to, from)];
    }

    /** `replaceIndexCASBound` */
    method ReplaceIndexBy(to: string, from: string, info: FileInfo) returns (r: Option<FileInfo>)
      modifies this`writes
      ensures writes == old(writes) + [ReplaceIndex(to, from)]
    {
      var installed: FileInfo := *;
      var ok: bool := *;
      r := if ok then Some(installed) else None;
      writes := writes + [ReplaceIndex(to, from)];
    }

    method SnapshotRefStorage() returns (r: Option<Files>) {
      r := *;
    }

    /** The changes that are preserved, because they are not ours to undo. */
    method PreservedChanges(before: State, observed: State) returns (problems: seq<Problem>)
      ensures problems == [] <==> OnlyOwnedChanged(before, observed, branch, path)
    {
      hide SharedWorktreesEqual, StableMapsEqual, RawRefsTransition, NewRefs;
      hide DeletedRefs, MovedRefs, OtherThan, RunRefName, RunRefKey;
      problems := [];
      if !SharedWorktreesEqual(before.worktrees, observed.worktrees, path) {
        problems := problems + [WorktreesPreserved];
      }
      if before.configGraph != observed.configGraph || !StableMapsEqual(before.configs, observed.configs) {
        problems := problems + [ConfigPreserved];
      }
      if !StableMapsEqual(before.pseudorefs, observed.pseudorefs) {
        problems := problems + [PseudorefsPreserved];
      }
      if !StableMapsEqual(before.hooks, observed.hooks) {
        problems := problems + [HooksPreserved];
      }
      if !RawRefsTransition(before.rawRefs, observed.rawRefs, RunRefKey(branch), before.runRef != observed.runRef) {
        problems := problems + [RawRefsPreserved];
      }
      if !StableMapsEqual(before.rawControl, observed.rawControl) {
        problems := problems + [RawControlPreserved];
      }
      if before.symbolicHead != observed.symbolicHead {
        problems := problems + [SymbolicHeadPreserved];
      }
      if NewRefs(before.refs, observed.refs) != {} {
        problems := problems + [NewRefsPreserved];
      }
      if OtherThan(DeletedRefs(before.refs, observed.refs), RunRefName(branch)) {
        problems := problems + [DeletedRefsPreserved];
      }
      if OtherThan(MovedRefs(before.refs, observed.refs), RunRefName(branch)) {
        problems := problems + [MovedRefsPreserved];
      }
    }

    /** Puts the run ref back, if it moved and both values are plain. */
    method RestoreRunRef(before: State, observed: State)
      returns (problem: Option<Problem>, file: Option<ExactFile>, storage: Files)
      requires before.runRef != observed.runRef
      modifies this`writes
      ensures problem.None? <==> file.Some?
      ensures writes == old(writes)
        || (writes == old(writes) + [SwapRunRef(before.runRef.id, Expected(before, observed))])
      ensures writes != old(writes) ==> before.runRef.symbolic == observed.runRef.symbolic == ""
    {
      file, storage := None, map[];
      if before.runRef.symbolic != "" || observed.runRef.symbolic != "" {
        return Some(SymbolicRunRef), file, storage;
      }
      var key := RunRefKey(branch);
      var baseline := key in before.rawRefs && DirectRefFile(before.rawRefs[key], before.runRef.id);
      var safe :=
        (observed.runRef.id == "" && key !in observed.rawRefs) ||
        (key in observed.rawRefs && DirectRefFile(observed.rawRefs[key], observed.runRef.id)
         && key in before.rawRefs && observed.rawRefs[key].mode == before.rawRefs[key].mode);
      if !baseline || !safe {
        return Some(RunRefStorage), file, storage;
      }
      var ok := SwapRunRefTo(before.runRef.id, Expected(before, observed));
      if !ok {
        return Some(RunRefSwap), file, storage;
      }
      var installed := SnapshotRefStorage();
      if installed.None? || key !in installed.value || !DirectRefFile(installed.value[key], before.runRef.id)
         || installed.value[key].mode != before.rawRefs[key].mode {
        return Some(RunRefBinding), file, storage;
      }
      return None, Some(installed.value[key]), StorageProof(installed.value, key);
    }

    /** Puts the bytes of the index back, if only they changed. */
    method RestoreIndex(before: State, observed: State) returns (problem: Option<Problem>, info: Option<FileInfo>)
      modifies this`writes
      ensures problem.None? <==> info.Some?
      ensures writes == old(writes) || (writes == old(writes) + [ReplaceIndex(before.indexBytes, observed.indexBytes)])
      ensures writes != old(writes) ==> before.indexPath == observed.indexPath && IndexContentChanged(before, observed)
    {
      if before.indexPath != observed.indexPath || !IndexContentChanged(before, observed)
         || before.indexInfo.mode != observed.indexInfo.mode {
        return Some(IndexMetadata), None;
      }
      var installed := ReplaceIndexBy(before.indexBytes, observed.indexBytes, observed.indexInfo);
      return if installed.Some? then None else Some(IndexSwap), installed;
    }

    /** `restoreGitState`: nothing is written but the owned run ref and the owned index. */
    method RestoreGitState(before: State, observed: State) returns (r: Restoration)
      modifies this`writes
      ensures OwnedWrites(old(writes), writes, before, observed)
      ensures r.problems == [] ==> OnlyOwnedChanged(before, observed, branch, path)
      ensures r.problems == [] && before.runRef != observed.runRef ==> r.runRefFile.Some?
      ensures r.runRefFile.Some? ==> before.runRef != observed.runRef
    {
      hide OnlyOwnedChanged, IndexExactEqual;
      var problems := PreservedChanges(before, observed);
      var file: Option<ExactFile>, storage: Files := None, map[];
      if before.runRef != observed.runRef {
        var problem;
        problem, file, storage := RestoreRunRef(before, observed);
        if problem.Some? {
          problems := problems + [problem.value];
          if problem.value == SymbolicRunRef || problem.value == RunRefStorage {
            return Restoration(problems, None, map[], None);
          }
        }
      }
      var info: Option<FileInfo> := None;
      if !IndexExactEqual(before, observed) {
        var problem;
        problem, info := RestoreIndex(before, observed);
        if problem.Some? {
          problems := problems + [problem.value];
        }
      }
      return Restoration(problems, file, storage, info);
    }

    /** `checkGitState`: `after` is the first snapshot of the call and `final` the last
        one, after a second one in between. */
    method CheckGitState(before: State) returns (r: Ports.GitCheck, ghost after: Option<State>,
                         ghost final: Option<State>)
      requires Taken(before, branch)
      modifies this
      ensures (r == Ports.Untouched) <==> (after.Some? && before.owner == owner &&
        ControlBound(before, after.value) && Unchanged(before, after.value, path))
      ensures r == Ports.Restored ==>
        final.Some? && ControlBound(before, final.value) && BackTo(before, final.value, path, branch)
      ensures r == Ports.Untouched ==> writes == old(writes)
      ensures after.None? ==> writes == old(writes)
      ensures old(taken) <= taken
      ensures after.Some? ==> |old(taken)| < |taken| && after.value == taken[|old(taken)|]
      ensures final.Some? ==> |old(taken)| + 2 < |taken| && final.value == taken[|taken| - 1]
      ensures writes != old(writes) ==> SeenTwice(taken, |old(taken)|, after)
      ensures after.Some? ==> OwnedWrites(old(writes), writes, before, after.value)
    {
      hide Unchanged, BackTo, ControlBound, Differs, OnlyOwnedChanged, SharedEqual;
      hide OwnedEqual, IndexExactEqual, StableEqual, ObservedEqual, Taken, OwnedWrites;
      after, final := None, None;
      NothingWritten(writes, before);
      var bound: bool := *;
      if before.owner != owner || !bound {
        return Ports.Unsafe, after, final;
      }
      var observed := Snapshot();
      if observed.None? || !ControlBound(before, observed.value) {
        return Ports.Unsafe, after, final;
      }
      after := observed;
      var violations := GitStateViolations(before, observed.value);
      NoViolation(before, observed.value, branch, path);
      if violations == [] {
        return Ports.Untouched, after, final;
      }
      bound := *;
      var again := Snapshot();
      if !bound || again.None? || !ControlBound(before, again.value) || !ObservedEqual(observed.value, again.value) {
        return Ports.Unsafe, after, final;
      }
      var restoration := RestoreGitState(before, observed.value);
      var last := Snapshot();
      final := last;
      if last.None? || !ControlBound(before, last.value) {
        return Ports.Unsafe, after, final;
      }
      var shared := SharedEqual(observed.value, last.value, restoration, branch, path);
      var owned := OwnedEqual(before, last.value, restoration, branch);
      if owned && (IndexExactEqual(before, observed.value) ||
         !SameFile(observed.value.indexInfo, last.value.indexInfo)) {
        indexInfo, indexBytes := last.value.indexInfo, last.value.indexBytes;
      }
      if restoration.problems != [] || !shared || !owned {
        return Ports.Unsafe, after, final;
      }
      Chained(before, observed.value, last.value, restoration, branch, path);
      return Ports.Restored, after, final;
    }
  }

  /** `observedGitStateEqual`: nothing at all happened between two snapshots. */
  predicate ObservedEqual(a: State, b: State) {
    && a.owner == b.owner && ControlBound(a, b) && a.head == b.head && a.symbolicHead == b.symbolicHead
    && a.runRef == b.runRef
    && IndexExactEqual(a, b) && a.worktrees == b.worktrees && a.configGraph == b.configGraph
    && StableMapsEqual(a.configs, b.configs) && StableMapsEqual(a.pseudorefs, b.pseudorefs)
    && StableMapsEqual(a.hooks, b.hooks)
    && StableMapsEqual(a.rawRefs, b.rawRefs) && StableMapsEqual(a.rawControl, b.rawControl) &&
      RefsEqualExcept(a.refs, b.refs, "")
  }

  lemma NothingWritten(writes: seq<Write>, before: State)
    ensures forall observed :: OwnedWrites(writes, writes, before, observed)
  {
  }

  /** The observed state was found unchanged by a second snapshot. */
  predicate SeenTwice(taken: seq<State>, start: nat, after: Option<State>) {
    start + 1 < |taken| && after == Some(taken[start]) && ObservedEqual(taken[start], taken[start + 1])
  }

  /** What the run ref is expected to be when it is put back: its observed value, or nothing. */
  function Expected(before: State, observed: State): string {
    if observed.runRef.id == "" then seq(|before.runRef.id|, _ => '0') else observed.runRef.id
  }

  /** At most the run ref and then the index were written, each because it had changed, and to what it was. */
  predicate OwnedWrites(old_: seq<Write>, new_: seq<Write>, before: State, observed: State) {
    var ref, index := SwapRunRef(before.runRef.id, Expected(before, observed)), ReplaceIndex(before.indexBytes,
                                 observed.indexBytes);
    || new_ == old_
    || (new_ == old_ + [ref] && before.runRef != observed.runRef)
    || (new_ == old_ + [index] && IndexContentChanged(before, observed))
    || (new_ == old_ + [ref, index] && before.runRef != observed.runRef && IndexContentChanged(before, observed))
  }

  /** The list of those among the surfaces looked at that differ. */
  ghost predicate Lists(violations: seq<Surface>, before: State, after: State, branch: string, own: string,
                        checked: set<Surface>) {
    forall surface :: surface in violations <==> surface in checked && Differs(surface, before, after, branch, own)
  }

  lemma NothingListed(before: State, after: State, branch: string, own: string)
    ensures Lists([], before, after, branch, own, {})
  {
  }

  lemma EverythingListed(violations: seq<Surface>, before: State, after: State, branch: string, own: string,
                         checked: set<Surface>)
    requires Lists(violations, before, after, branch, own, checked)
    requires checked == {Head, Index, RunRef, Worktrees, Config, Pseudorefs,
                         Hooks, RawRefs, RawControl, RefSet, MovedRef}
    ensures forall surface :: surface in violations <==> Differs(surface, before, after, branch, own)
    ensures violations == [] <==> forall surface :: !Differs(surface, before, after, branch, own)
  {
    hide Differs;
    forall surface ensures surface in checked {
      match surface
      case Head =>
      case Index =>
      case RunRef =>
      case Worktrees =>
      case Config =>
      case Pseudorefs =>
      case Hooks =>
      case RawRefs =>
      case RawControl =>
      case RefSet =>
      case MovedRef =>
    }
    if violations != [] { assert violations[0] in violations; }
  }
}
