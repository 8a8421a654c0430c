/** The owned workspace: commits, squash, landing and cleanup, with foreign writers at work at any moment
    (internal/flywheel/landing.go, internal/flywheel/worktree.go). */
module Workspace {
  import opened Options
  import opened Text
  import opened Refs
  import opened Reachability
  import opened SquashObject
  import LandingEvidence

  /** Why a commit or a squash did not come about. */
  datatype Failure = Refused | NotAdvanced | RollbackFailed | UnexpectedRef | TakenBack

  datatype CommitResult = Made(commit: string) | Failed(why: Failure)

  datatype SquashResult = Nothing | Squashed(commit: string) | NotSquashed(why: Failure)

  datatype LandingStatus = NotNeeded | Complete | Blocked

  datatype Disposition = Landed | PreserveValidated

  class Workspace {
    const repo: Repository
    const originalHead: string
    const identity: Identity
    var green: string
    var landingComplete: bool
    var cleanupDisposition: Option<Disposition>
    var cleanupQuarantine: bool
    var cleanupRegistrationRemoved: bool
    var cleanupWorktreeRemoved: bool
    var cleanupPreserved: bool
    var cleanupRunRefDeleted: bool

    ghost function V(): View
      reads this, repo
    {
      View(RunOf(repo.log), FeatureOf(repo.log), green, landingComplete)
    }

    constructor (repo: Repository, originalHead: string, identity: Identity)
      ensures this.repo == repo && this.originalHead == originalHead && green == originalHead
      ensures !landingComplete && cleanupDisposition == None && !cleanupRunRefDeleted
    {
      this.repo, this.originalHead, this.identity, this.green := repo, originalHead, identity, originalHead;
      this.landingComplete, this.cleanupDisposition, this.cleanupQuarantine := false, None, false;
      this.cleanupRegistrationRemoved, this.cleanupWorktreeRemoved := false, false;
      this.cleanupPreserved, this.cleanupRunRefDeleted := false, false;
    }

    /** `verifyBatch`: the run ref, then worktree and index against the proof. */
    method VerifyProof(expected: string) returns (ok: bool)
      requires repo.Valid()
      modifies repo
      ensures repo.Valid() && Went(old(repo.log), repo.log, [])
      ensures ok ==> Acts(repo.log) == old(Acts(repo.log)) + Proving(expected)
      ensures !ok ==> exists n :: 0 <= n <= 1 && Acts(repo.log) == old(Acts(repo.log)) + Proving(expected)[..n]
    {
      hide Went, Acts, RunOf, FeatureOf, Orderly;
      ghost var start := repo.log;
      ok := repo.RequireDirect(expected);
      if !ok {
        assert Acts(repo.log) == Acts(start) + Proving(expected)[..0];
        return;
      }
      ghost var seen := repo.log;
      ok := repo.VerifyTree(expected);
      WentOn(start, seen, repo.log, []);
      if !ok {
        assert Acts(repo.log) == Acts(start) + Proving(expected)[..1];
      }
    }

    /** A swap of the run ref that is taken back unless it can be confirmed. */
    method Advance(next: string, previous: string) returns (failure: Option<Failure>, ghost writes: seq<Act>,
                   ghost trail: seq<Act>)
      requires repo.Valid()
      modifies repo
      ensures repo.Valid() && Went(old(repo.log), repo.log, writes) && Tried(writes, previous, next)
      ensures Acts(repo.log) == old(Acts(repo.log)) + trail
      ensures next != previous ==> forall k :: 0 < k < |trail| ==> trail[k] != Swapped(previous, next)
      ensures failure.None? ==> writes == trail == [Swapped(previous, next)] && repo.run == Direct(next)
      ensures failure == Some(NotAdvanced) && next != previous ==> !OursLast(repo.log, next)
      ensures failure.Some? ==>
        failure.value == NotAdvanced || failure.value == RollbackFailed || failure.value == UnexpectedRef
    {
      hide Went, OwnWrites, OursLast, Acts, LastAct, RunOf, FeatureOf, Orderly;
      ghost var before := repo.log;
      var ok;
      ok, writes := repo.CompareAndSwap(next, previous);
      trail := writes;
      if ok {
        return None, writes, trail;
      }
      ghost var swapped, back, more := repo.log, [], [];
      var why;
      why, back, more := Settle(next, previous);
      WentThen(before, swapped, repo.log, writes, back);
      assert next != previous ==> forall k :: 0 <= k < |more| ==> more[k] in more;
      return Some(why), writes + back, trail + more;
    }

    /** A swap that was reported as failed: where the run ref is now, and taken back if it is at our commit. */
    method Settle(next: string, previous: string) returns (failure: Failure, ghost back: seq<Act>,
                  ghost trail: seq<Act>)
      requires repo.Valid()
      modifies repo
      ensures repo.Valid() && Went(old(repo.log), repo.log, back) && (back == [] || back == [Swapped(next, previous)])
      ensures Acts(repo.log) == old(Acts(repo.log)) + trail && (next != previous ==> Swapped(previous, next) !in trail)
      ensures failure == NotAdvanced && next != previous ==> !OursLast(repo.log, next)
      ensures failure == NotAdvanced || failure == RollbackFailed || failure == UnexpectedRef
    {
      hide Went, OwnWrites, OursLast, Acts, LastAct, RunOf, FeatureOf, Orderly;
      ghost var before := repo.log;
      back, trail := [], [];
      var there := repo.RequireDirect(next);
      if there {
        ghost var seen := repo.log;
        var ok;
        ok, back := repo.CompareAndSwap(previous, next);
        WentFirst(before, seen, repo.log, back);
        trail := [Seen(next)] + back;
        if !ok {
          return RollbackFailed, back, trail;
        }
        if next != previous { NotOurs(repo.log, next); }
        return NotAdvanced, back, trail;
      }
      ghost var looked := repo.log;
      there := repo.RequireDirect(previous);
      WentOn(before, looked, repo.log, []);
      if !there {
        return UnexpectedRef, back, trail;
      }
      if next != previous { NotOurs(repo.log, next); }
      return NotAdvanced, back, [Seen(previous)];
    }

    /** Takes back a swap that could not be confirmed. */
    method TakeBack(next: string, previous: string) returns (failure: Failure, ghost writes: seq<Act>)
      requires repo.Valid()
      modifies repo
      ensures repo.Valid() && Went(old(repo.log), repo.log, writes)
      ensures (writes == [] || writes == [Swapped(next, previous)])
      ensures Acts(repo.log) == old(Acts(repo.log)) + writes
      ensures failure == TakenBack ==> writes != [] && (next != previous ==> !OursLast(repo.log, next))
      ensures failure == TakenBack || failure == RollbackFailed
    {
      hide Went, OwnWrites, OursLast, Acts, LastAct, RunOf, FeatureOf, Orderly;
      var ok;
      ok, writes := repo.CompareAndSwap(previous, next);
      if !ok {
        return RollbackFailed, writes;
      }
      if next != previous { NotOurs(repo.log, next); }
      return TakenBack, writes;
    }

    /** Records the prepared tree; the latest green commit moves only once the record is confirmed.  `trail` is what we
        did and saw ourselves. */
    method CommitBatch(tree: string)
      returns (r: CommitResult, ghost attempt: string, ghost writes: seq<Act>, ghost trail: seq<Act>)
      requires repo.Valid()
      modifies this`green, repo
      ensures repo.Valid() && Went(old(repo.log), repo.log, writes) && Acts(repo.log) == old(Acts(repo.log)) + trail
      ensures RightAfter(trail, Swapped(old(green), attempt), Proved(old(green)))
      ensures writes != [] ==> Snapshots(attempt, tree, old(green)) && Tried(writes, old(green), attempt)
      ensures writes != [] ==> attempt != old(green) && Preparation(old(green), attempt) <= trail
      ensures r.Made? ==> r.commit == green == attempt != old(green) && writes == [Swapped(old(green), green)]
      ensures r.Made? ==> trail == Preparation(old(green), green) + [Swapped(old(green), green)] + Proving(green)
      ensures r.Failed? ==> green == old(green)
      ensures r.Failed? && r.why != RollbackFailed && r.why != UnexpectedRef ==>
        !OursLast(repo.log, attempt) || writes == []
      ensures Spares(repo.log, |old(repo.log)|, {old(green), attempt})
      ensures PoliteSince(repo.log, |old(repo.log)|) ==>
        Allowed(originalHead, old(V()), Committing(attempt, tree, writes), V())
    {
      hide Acts, OwnWrites, OursLast, Snapshots, Spares, Preparation, Proving, RightAfter;
      hide Went, Allowed, Tried, RunOf, FeatureOf, PoliteSince, Orderly;
      ghost var start, v := repo.log, V();
      attempt, writes := "", [];
      var commit;
      r, commit, trail := PrepareCommit(tree);
      if r.Failed? {
        NothingCommitted(start, repo.log, originalHead, v, tree, trail, V());
        return;
      }
      attempt := commit;
      ghost var prepared, preparation, steps := repo.log, trail, [];
      r, writes, steps := AdvanceBatch(commit);
      WentFirst(start, prepared, repo.log, writes);
      trail := preparation + steps;
      CommitTold(start, repo.log, originalHead, v, tree, attempt, writes, preparation, steps, V());
    }

    /** The ref update of a commit, taken back unless the proof holds at the new commit. */
    method AdvanceBatch(commit: string) returns (r: CommitResult, ghost writes: seq<Act>, ghost trail: seq<Act>)
      requires repo.Valid() && commit != green
      modifies this`green, repo
      ensures repo.Valid() && Went(old(repo.log), repo.log, writes) && Tried(writes, old(green), commit)
      ensures Acts(repo.log) == old(Acts(repo.log)) + trail
      ensures forall k :: 0 < k < |trail| ==> trail[k] != Swapped(old(green), commit)
      ensures r.Made? ==> r.commit == green == commit && writes == [Swapped(old(green), green)]
      ensures r.Made? ==> trail == [Swapped(old(green), green)] + Proving(green)
      ensures r.Failed? ==> green == old(green)
      ensures r.Failed? && r.why != RollbackFailed && r.why != UnexpectedRef ==>
        !OursLast(repo.log, commit) || writes == []
    {
      hide Went, OwnWrites, OursLast, Acts, LastAct, RunOf, FeatureOf, Orderly, Tried, Proving;
      ghost var start := repo.log;
      var failure;
      failure, writes, trail := Advance(commit, green);
      if failure.Some? {
        return Failed(failure.value), writes, trail;
      }
      ghost var swapped, proving := repo.log, [];
      var cancelled: bool := *;
      var verified;
      verified, proving := Confirm(commit);
      WentOn(start, swapped, repo.log, writes);
      NoSwapIn(proving, green, commit);
      trail := trail + proving;
      if cancelled || !verified {
        ghost var seen, back := repo.log, [];
        var why;
        why, back := TakeBack(commit, green);
        WentThen(start, seen, repo.log, writes, back);
        TriedBack(back, green, commit);
        return Failed(why), writes + back, trail + back;
      }
      green := commit;
      r := Made(commit);
    }

    /** The proof against a commit, and how far that went. */
    method Confirm(commit: string) returns (ok: bool, ghost trail: seq<Act>)
      requires repo.Valid()
      modifies repo
      ensures repo.Valid() && Went(old(repo.log), repo.log, []) && Acts(repo.log) == old(Acts(repo.log)) + trail
      ensures (ok ==> trail == Proving(commit)) && forall a :: a in trail ==> !a.Swapped?
    {
      hide Went, Acts, LastAct, RunOf, FeatureOf, Orderly;
      ghost var before := Acts(repo.log);
      ok := VerifyProof(commit);
      trail := Proving(commit);
      if !ok {
        ghost var n :| 0 <= n <= 1 && Acts(repo.log) == before + Proving(commit)[..n];
        trail := Proving(commit)[..n];
      }
    }

    /** Everything up to the ref update: the proof verified four times, the run ref seen between.  Nothing is written
        to a ref. */
    method PrepareCommit(tree: string) returns (r: CommitResult, commit: string, ghost trail: seq<Act>)
      requires repo.Valid()
      modifies repo
      ensures repo.Valid() && Went(old(repo.log), repo.log, []) && Acts(repo.log) == old(Acts(repo.log)) + trail
      ensures r == Failed(Refused) || (r == Made(commit) && Snapshots(commit, tree, green))
      ensures r.Made? ==> commit != green && trail == Preparation(green, commit)
      ensures r.Failed? ==> forall a :: a in trail ==> !a.Swapped?
    {
      hide Went, Acts, LastAct, Snapshots, RunOf, FeatureOf, Orderly, Checking, Rechecking;
      ghost var start := repo.log;
      commit := "";
      r := Failed(Refused);
      var ok;
      ok, trail := Check();
      if !ok {
        return;
      }
      ghost var before, more := repo.log, [];
      var created := repo.CreateCommit(tree, green);
      WentOn(start, before, repo.log, []);
      if created.Some? { trail := trail + [Created(created.value)]; }
      if created.None? || !ValidObjectID(created.value) {
        return;
      }
      SnapshotIsOther(created.value, tree, green);
      before := repo.log;
      ok, more := Recheck();
      WentOn(start, before, repo.log, []);
      trail := trail + more;
      if !ok {
        return;
      }
      return Made(created.value), created.value, trail;
    }

    /** The looks before the object is made, between them the snapshot of the attempt thrown away. */
    method Check() returns (ok: bool, ghost trail: seq<Act>)
      requires repo.Valid()
      modifies repo
      ensures repo.Valid() && Went(old(repo.log), repo.log, []) && Acts(repo.log) == old(Acts(repo.log)) + trail
      ensures (ok ==> trail == Checking(green)) && forall a :: a in trail ==> !a.Swapped?
    {
      hide Went, Acts, LastAct, RunOf, FeatureOf, Orderly, Proving;
      ghost var start := repo.log;
      ok, trail := Confirm(green);
      var discarded: bool := *;
      ok := ok && discarded;
      if !ok {
        return;
      }
      ghost var before, more := repo.log, [];
      ok, more := Confirm(green);
      WentOn(start, before, repo.log, []);
      trail := trail + more;
      if !ok {
        return;
      }
      before := repo.log;
      ok := repo.RequireDirect(green);
      WentOn(start, before, repo.log, []);
      if ok { trail := trail + [Seen(green)]; }
    }

    /** The last looks before the ref update. */
    method Recheck() returns (ok: bool, ghost trail: seq<Act>)
      requires repo.Valid()
      modifies repo
      ensures repo.Valid() && Went(old(repo.log), repo.log, []) && Acts(repo.log) == old(Acts(repo.log)) + trail
      ensures (ok ==> trail == Rechecking(green)) && forall a :: a in trail ==> !a.Swapped?
    {
      hide Went, Acts, LastAct, RunOf, FeatureOf, Orderly, Proving;
      ghost var start := repo.log;
      ok, trail := Confirm(green);
      if !ok {
        return;
      }
      ghost var before, more := repo.log, [];
      ok := repo.RequireDirect(green);
      WentOn(start, before, repo.log, []);
      if !ok {
        return;
      }
      trail := trail + [Seen(green)];
      before := repo.log;
      ok, more := Confirm(green);
      WentOn(start, before, repo.log, []);
      trail := trail + more;
    }

    // ---- squash

    /** `verifySquashObject`; reading the object may fail. */
    method VerifySquashObject(commit: string, tree: string) returns (ok: bool)
      ensures ok ==> ValidObjectID(commit) && Snapshots(commit, tree, originalHead)
    {
      var read: bool := *;
      ok := CheckSquashObject(RawCommit(commit), commit, tree, originalHead, identity);
      ok := ok && read;
      if ok { ShapeSnapshots(commit, tree, originalHead, identity); }
    }

    /** One commit of the latest green tree on the original HEAD. */
    method Squash() returns (r: SquashResult, ghost attempt: string, ghost writes: seq<Act>, ghost trail: seq<Act>)
      requires repo.Valid()
      modifies this`green, repo
      ensures repo.Valid() && Went(old(repo.log), repo.log, writes) && Acts(repo.log) == old(Acts(repo.log)) + trail
      ensures attempt != old(green) ==> RightAfter(trail, Swapped(old(green), attempt), Seen(old(green)))
      ensures (r == Nothing <==> old(green) == originalHead) && (r == Nothing ==> green == old(green) && writes == [])
      ensures writes != [] ==>
        Snapshots(attempt, TreeOf(old(green)), originalHead) && Tried(writes, old(green), attempt)
      ensures writes != [] ==> SquashPreparation(old(green), attempt) <= trail
      ensures r.Squashed? ==> r.commit == green == attempt && writes == [Swapped(old(green), green)]
      ensures r.Squashed? ==> trail == SquashPreparation(old(green), green) + [Swapped(old(green), green), Seen(green)]
      ensures r.NotSquashed? ==> green == old(green)
      ensures r.Squashed? ==> ValidObjectID(r.commit) && Snapshots(green, TreeOf(old(green)), originalHead)
      ensures r.NotSquashed? && r.why != RollbackFailed && r.why != UnexpectedRef && attempt != green ==>
        !OursLast(repo.log, attempt) || writes == []
      ensures Spares(repo.log, |old(repo.log)|, {old(green), attempt})
      ensures PoliteSince(repo.log, |old(repo.log)|) ==>
        Allowed(originalHead, old(V()), Squashing(attempt, writes), V())
    {
      hide Acts, OwnWrites, OursLast, Snapshots, TreeOf, Spares, SquashPreparation, RightAfter;
      hide Went, Allowed, Tried, RunOf, FeatureOf, PoliteSince, Orderly;
      ghost var start, v := repo.log, V();
      attempt, writes, trail := "", [], [];
      WentSelf(start);
      NothingSquashed(start, repo.log, originalHead, v, trail, V());
      if green == originalHead {
        return Nothing, attempt, writes, trail;
      }
      var latest := green;
      var commit, tree;
      r, commit, tree, trail := PrepareSquash(latest);
      if r.NotSquashed? {
        NothingSquashed(start, repo.log, originalHead, v, trail, V());
        return;
      }
      attempt := commit;
      ghost var prepared, preparation, steps := repo.log, trail, [];
      r, writes, steps := AdvanceSquash(commit, tree);
      WentFirst(start, prepared, repo.log, writes);
      trail := preparation + steps;
      SquashTold(start, repo.log, originalHead, v, attempt, writes, preparation, steps, V());
    }

    /** The ref update of a squash, taken back unless it can be confirmed. */
    method AdvanceSquash(commit: string, tree: string) returns (r: SquashResult, ghost writes: seq<Act>,
                         ghost trail: seq<Act>)
      requires repo.Valid()
      modifies this`green, repo
      ensures repo.Valid() && Went(old(repo.log), repo.log, writes) && Tried(writes, old(green), commit)
      ensures Acts(repo.log) == old(Acts(repo.log)) + trail
      ensures commit != old(green) ==> forall k :: 0 < k < |trail| ==> trail[k] != Swapped(old(green), commit)
      ensures r.Squashed? ==> r.commit == green == commit && ValidObjectID(commit)
      ensures r.Squashed? ==>
        writes == [Swapped(old(green), green)] && trail == [Swapped(old(green), green), Seen(green)]
      ensures r.NotSquashed? ==> green == old(green)
      ensures r.Squashed? || r.NotSquashed?
      ensures r.NotSquashed? && r.why != RollbackFailed && r.why != UnexpectedRef && commit != green ==>
        !OursLast(repo.log, commit) || writes == []
    {
      hide Went, OwnWrites, OursLast, Acts, LastAct, RunOf, FeatureOf, Orderly, Snapshots, TreeOf, Tried;
      ghost var start := repo.log;
      var latest, failure := green, None;
      failure, writes, trail := Advance(commit, latest);
      if failure.Some? {
        return NotSquashed(failure.value), writes, trail;
      }
      ghost var swapped := repo.log;
      var cancelled: bool := *;
      var verified := VerifySquashObject(commit, tree);
      var there := repo.RequireDirect(commit);
      trail := trail + if there then [Seen(commit)] else [];
      WentOn(start, swapped, repo.log, writes);
      if cancelled || !verified || !there {
        ghost var seen, back := repo.log, [];
        var why;
        why, back := TakeBack(commit, latest);
        WentThen(start, seen, repo.log, writes, back);
        TriedBack(back, latest, commit);
        return NotSquashed(why), writes + back, trail + back;
      }
      green := commit;
      r := Squashed(commit);
    }

    /** A squash needs the snapshot of the latest green tree to be ours, open and unchanged. */
    method SquashValidated(snapshotOwned: bool)
      returns (r: SquashResult, ghost attempt: string, ghost writes: seq<Act>, ghost trail: seq<Act>)
      requires repo.Valid()
      modifies this`green, repo
      ensures repo.Valid() && Went(old(repo.log), repo.log, writes) && Acts(repo.log) == old(Acts(repo.log)) + trail
      ensures r != NotSquashed(Refused) || writes != [] ==> snapshotOwned && trail != [] && trail[0] == Intact
      ensures r == Nothing ==> green == old(green) == originalHead
      ensures writes != [] ==>
        Snapshots(attempt, TreeOf(old(green)), originalHead) && Tried(writes, old(green), attempt)
      ensures r.NotSquashed? ==> green == old(green)
      ensures r.Squashed? ==> r.commit == green && ValidObjectID(green)
      ensures r.Squashed? ==> Snapshots(green, TreeOf(old(green)), originalHead)
      ensures Spares(repo.log, |old(repo.log)|, {old(green), attempt})
      ensures PoliteSince(repo.log, |old(repo.log)|) ==>
        Allowed(originalHead, old(V()), Squashing(attempt, writes), V())
    {
      hide Acts, Snapshots, TreeOf, Spares, SquashPreparation, RightAfter;
      hide Went, Allowed, Tried, RunOf, FeatureOf, PoliteSince, Orderly;
      ghost var start, v := repo.log, V();
      attempt, writes, trail := "", [], [];
      WentSelf(start);
      NothingSquashed(start, repo.log, originalHead, v, trail, V());
      r := NotSquashed(Refused);
      if !snapshotOwned {
        return;
      }
      var verified := repo.VerifySnapshot();
      if !verified {
        NothingSquashed(start, repo.log, originalHead, v, trail, V());
        return;
      }
      ghost var seen, more := repo.log, [];
      r, attempt, writes, more := Squash();
      trail := [Intact] + more;
      WentFirst(start, seen, repo.log, writes);
      SquashSafe(start, repo.log, originalHead, v, attempt, writes, V());
    }

    /** The verified object, with the run ref still where it was. */
    method PrepareSquash(latest: string) returns (r: SquashResult, commit: string, tree: string, ghost trail: seq<Act>)
      requires repo.Valid()
      modifies repo
      ensures repo.Valid() && Went(old(repo.log), repo.log, []) && Acts(repo.log) == old(Acts(repo.log)) + trail
      ensures r == NotSquashed(Refused) || (r == Squashed(commit) && Snapshots(commit, TreeOf(latest), originalHead))
      ensures r.Squashed? ==> ValidObjectID(commit) && trail == SquashPreparation(latest, commit)
      ensures tree == TreeOf(latest) && forall a :: a in trail ==> !a.Swapped?
    {
      hide Went, Acts, LastAct, Snapshots, TreeOf, RunOf, FeatureOf, Orderly;
      ghost var start := repo.log;
      r, commit, tree, trail := NotSquashed(Refused), "", TreeOf(latest), [];
      var ok := repo.RequireDirect(latest);
      if ok { trail := trail + [Seen(latest)]; }
      var descends: bool := *;
      if !ok || !descends || !ValidObjectID(originalHead) || !ValidObjectID(latest) {
        return;
      }
      ghost var before := repo.log;
      var created := repo.CreateCommit(tree, originalHead);
      WentOn(start, before, repo.log, []);
      if created.None? {
        return;
      }
      commit := created.value;
      trail := trail + [Created(commit)];
      if !ValidObjectID(commit) {
        return;
      }
      var verified := VerifySquashObject(commit, tree);
      if !verified {
        return;
      }
      before := repo.log;
      ok := repo.RequireDirect(latest);
      WentOn(start, before, repo.log, []);
      if ok { trail := trail + [Seen(latest)]; }
      if !ok {
        return;
      }
      verified := VerifySquashObject(commit, tree);
      if !verified {
        return;
      }
      before := repo.log;
      ok := repo.RequireDirect(latest);
      WentOn(start, before, repo.log, []);
      if ok {
        trail := trail + [Seen(latest)];
        r := Squashed(commit);
      }
    }

    // ---- reset and rollback

    /** Back to the latest green commit; the run ref is swapped with itself to see that it has not moved. */
    method ResetAttempt() returns (ok: bool, ghost writes: seq<Act>)
      requires repo.Valid()
      modifies repo
      ensures repo.Valid() && Went(old(repo.log), repo.log, writes)
      ensures (writes == [] || writes == [Swapped(green, green)])
      ensures ok ==> repo.run == Direct(green)
      ensures Spares(repo.log, |old(repo.log)|, {green})
      ensures PoliteSince(repo.log, |old(repo.log)|) ==> Allowed(originalHead, old(V()), Resetting(writes), V())
    {
      ok, writes := Reset();
      SparesForeign(old(repo.log), repo.log, writes, {green});
    }

    method Reset() returns (ok: bool, ghost writes: seq<Act>)
      requires repo.Valid()
      modifies repo
      ensures repo.Valid() && Went(old(repo.log), repo.log, writes)
      ensures (writes == [] || writes == [Swapped(green, green)])
      ensures ok ==> repo.run == Direct(green)
    {
      hide Went, Acts, LastAct, RunOf, FeatureOf, Orderly;
      ghost var start := repo.log;
      writes := [];
      WentSelf(start);
      var discarded: bool := *;
      if !discarded {
        return false, writes;
      }
      ok := repo.RequireDirect(green);
      if !ok {
        return;
      }
      ghost var first := repo.log;
      ok, writes := repo.CompareAndSwap(green, green);
      WentFirst(start, first, repo.log, writes);
      var restored: bool := *;
      if !ok || !restored {
        return false, writes;
      }
      ghost var second := repo.log;
      ok := repo.RequireDirect(green);
      WentOn(start, second, repo.log, writes);
    }

    /** Takes the latest green commit back. */
    method RollbackBatch(commit: string) returns (ok: bool, ghost parent: string, ghost writes: seq<Act>)
      requires repo.Valid()
      modifies this`green, repo
      ensures repo.Valid() && Went(old(repo.log), repo.log, writes)
      ensures green == old(green) || (old(green) == commit && green == parent)
      ensures ok ==> repo.run == Direct(green) && old(green) == commit && green == parent
      ensures writes != [] ==> old(green) == commit && Undone(writes, commit, parent)
      ensures green == parent != old(green) ==> writes != []
      ensures old(green) != commit ==> !ok && writes == []
      ensures Spares(repo.log, |old(repo.log)|, {old(green), parent})
      ensures PoliteSince(repo.log, |old(repo.log)|) ==>
        Allowed(originalHead, old(V()), RollingBack(parent, writes), V())
    {
      ok, parent, writes := Rollback(commit);
      hide OwnWrites;
      SparesForeign(old(repo.log), repo.log, writes, {old(green), parent});
    }

    method Rollback(commit: string) returns (ok: bool, ghost parent: string, ghost writes: seq<Act>)
      requires repo.Valid()
      modifies this`green, repo
      ensures repo.Valid() && Went(old(repo.log), repo.log, writes)
      ensures ok ==> repo.run == Direct(green) && old(green) == commit && writes != [] && green == parent
      ensures writes != [] ==> old(green) == commit && Undone(writes, commit, parent)
      ensures green == old(green) || (green == parent && writes != [])
      ensures green == old(green) ==> |writes| <= 1 || parent == commit
      ensures old(green) != commit ==> !ok && writes == []
    {
      hide Went, Acts, IsParent;
      ghost var start := repo.log;
      parent, writes := "", [];
      WentSelf(start);
      if !ValidObjectID(commit) || commit != green {
        return false, parent, writes;
      }
      ok := repo.RequireDirect(commit);
      var first: string := *;
      parent := first;
      if !ok || !IsParent(commit, first) || !ValidObjectID(first) {
        return false, parent, writes;
      }
      ghost var seen := repo.log;
      ok, writes := repo.CompareAndSwap(first, commit);
      WentFirst(start, seen, repo.log, writes);
      if !ok {
        return;
      }
      green := first;
      ghost var swapped := repo.log;
      ghost var more;
      ok, more := Reset();
      WentThen(start, swapped, repo.log, writes, more);
      writes := writes + more;
    }

    // ---- landing

    /** `guardLanding`: the run branch and the squash object are as they should be, the feature checkout is clean
        and where it was, and no control file has changed since the last look. */
    method GuardLanding(squash: string) returns (ok: bool, ghost trail: seq<Act>)
      requires repo.Valid()
      modifies repo
      ensures repo.Valid() && Went(old(repo.log), repo.log, []) && Acts(repo.log) == old(Acts(repo.log)) + trail
      ensures ok ==> Snapshots(squash, TreeOf(squash), originalHead) && trail == Guarding(squash, originalHead)
      ensures ok ==> LastAct(repo.log) == Some(Guarded(squash, originalHead))
    {
      hide Went, Acts, Snapshots, TreeOf, RunOf, Orderly;
      ghost var start := repo.log;
      trail := [];
      ok := repo.RequireDirect(squash);
      if !ok {
        return;
      }
      trail := [Seen(squash)];
      ok := VerifySquashObject(squash, TreeOf(squash));
      if !ok {
        return;
      }
      ghost var first := repo.log;
      ok := repo.GuardFeature(squash, originalHead);
      WentOn(start, first, repo.log, []);
      if ok { trail := trail + [Guarded(squash, originalHead)]; }
    }

    /** `verifyLandingResult`: the feature checkout is clean and at the squash. */
    method VerifyLandingResult(squash: string) returns (ok: bool)
      requires repo.Valid()
      modifies repo
      ensures repo.Valid() && Went(old(repo.log), repo.log, []) && (ok ==> repo.feature == Direct(squash))
      ensures Acts(repo.log) == old(Acts(repo.log))
    {
      hide Went, Acts, LastAct, RunOf, FeatureOf, Orderly;
      var feature := repo.InspectFeature();
      var clean: bool := *;
      return clean && feature == Some(Direct(squash));
    }

    /** The guarded fast-forward of the feature branch.  It is complete only if what was read after the merge is
        authentic and proves that the branch came from the original HEAD. */
    method Land(squash: string, featureRef: string)
      returns (status: LandingStatus, failed: bool, ghost trail: seq<Act>)
      requires repo.Valid()
      modifies this`landingComplete, repo
      ensures repo.Valid() && Went(old(repo.log), repo.log, []) && Acts(repo.log) == old(Acts(repo.log)) + trail
      ensures status == NotNeeded <==> squash == "" && green == originalHead
      ensures status == Complete ==> squash == green && repo.feature == Direct(squash)
      ensures status == Complete ==> LandedBy(trail, squash, originalHead, featureRef)
      ensures status == Complete ==> Snapshots(squash, TreeOf(squash), originalHead)
      ensures status == Blocked ==> landingComplete == old(landingComplete) && failed
      ensures status != Blocked ==> landingComplete
      ensures Spares(repo.log, |old(repo.log)|, {})
      ensures PoliteSince(repo.log, |old(repo.log)|) ==> Allowed(originalHead, old(V()), Landing, V())
    {
      hide Acts, Snapshots, TreeOf, Spares, LandedBy, Went, Allowed, RunOf, FeatureOf, PoliteSince, Orderly, Repeated;
      ghost var start, v := repo.log, V();
      WentSelf(start);
      trail, failed := [], true;
      if squash == "" {
        if green == originalHead {
          landingComplete := true;
          LandingAllowed(start, repo.log, originalHead, v, V());
          return NotNeeded, false, trail;
        }
        LandingAllowed(start, repo.log, originalHead, v, V());
        return Blocked, true, trail;
      }
      if squash != green || !ValidObjectID(squash) {
        LandingAllowed(start, repo.log, originalHead, v, V());
        return Blocked, true, trail;
      }
      var guarded;
      guarded, trail := GuardFourTimes(squash);
      if !guarded {
        LandingAllowed(start, repo.log, originalHead, v, V());
        return Blocked, true, trail;
      }
      ghost var launched := repo.log;
      var merged, actual;
      ghost var more;
      merged, actual, more := Merge(squash, featureRef);
      if actual == Some(originalHead) { MergeLands(trail, more, squash, originalHead, featureRef); }
      trail := trail + more;
      WentOn(start, launched, repo.log, []);
      ghost var landed := repo.log;
      var stable: bool := *;
      var complete := VerifyLandingResult(squash);
      WentOn(start, landed, repo.log, []);
      var closed: bool := *;
      if complete && stable && actual == Some(originalHead) {
        landingComplete := true;
        LandingAllowed(start, repo.log, originalHead, v, V());
        return Complete, !merged || !closed, trail;
      }
      ghost var unclear := repo.log;
      complete := VerifyLandingResult(squash);
      WentOn(start, unclear, repo.log, []);
      stable := *;
      if complete && stable && actual == Some(originalHead) {
        landingComplete := true;
        LandingAllowed(start, repo.log, originalHead, v, V());
        return Complete, !merged || !closed, trail;
      }
      LandingAllowed(start, repo.log, originalHead, v, V());
      return Blocked, true, trail;
    }

    /** The merge, and where the evidence read after it says that the feature branch came from. */
    method Merge(squash: string, featureRef: string)
      returns (merged: bool, actual: Option<string>, ghost trail: seq<Act>)
      requires repo.Valid() && LastAct(repo.log) == Some(Guarded(squash, originalHead))
      modifies repo
      ensures repo.Valid() && Went(old(repo.log), repo.log, []) && Acts(repo.log) == old(Acts(repo.log)) + trail
      ensures actual == Some(originalHead) ==> MergedBy(trail, squash, originalHead, featureRef)
    {
      hide Went, Acts, RunOf, FeatureOf, Orderly;
      hide LandingEvidence.ValidOrigHead, LandingEvidence.ShowsCommit;
      hide LandingEvidence.LogLines, LandingEvidence.TrimSpace;
      ghost var start, acts := repo.log, Acts(repo.log);
      merged := repo.MergeFastForward(squash, originalHead);
      ghost var launched := repo.log;
      ghost var launch :=
        if Acts(repo.log) == acts + [Launched(squash)] then [Launched(squash)] else [Launched(squash), Merged(squash)];
      var e := repo.ReadEvidence();
      WentOn(start, launched, repo.log, []);
      trail := launch + [Evidenced(e)];
      actual := LandingEvidence.AuthenticateLandingEvidence(e.nonce, e.transaction, e.head, squash, featureRef);
      if actual == Some(originalHead) { EvidenceMerges(launch, e, squash, originalHead, featureRef); }
    }

    /** The guard before, after and between the snapshots, and once more with the directories bound. */
    method GuardFourTimes(squash: string) returns (ok: bool, ghost trail: seq<Act>)
      requires repo.Valid()
      modifies repo
      ensures repo.Valid() && Went(old(repo.log), repo.log, []) && Acts(repo.log) == old(Acts(repo.log)) + trail
      ensures ok ==>
        Snapshots(squash, TreeOf(squash), originalHead) && trail == Repeated(Guarding(squash, originalHead), 4)
      ensures ok ==> LastAct(repo.log) == Some(Guarded(squash, originalHead))
    {
      hide Went, Acts, LastAct, Snapshots, TreeOf, Repeated, Guarding, Orderly;
      ghost var start, guarding := repo.log, Guarding(squash, originalHead);
      ok, trail := GuardLanding(squash);
      RepeatedNext(guarding, 0);
      var rounds := 1;
      while ok && rounds < 4
        invariant 1 <= rounds <= 4 && repo.Valid() && Went(start, repo.log, []) && Acts(repo.log) == Acts(start) + trail
        invariant ok ==> Snapshots(squash, TreeOf(squash), originalHead) && trail == Repeated(guarding, rounds)
        invariant ok ==> LastAct(repo.log) == Some(Guarded(squash, originalHead))
      {
        ghost var before, more := repo.log, [];
        RepeatedNext(guarding, rounds);
        ok, more := GuardLanding(squash);
        WentOn(start, before, repo.log, []);
        trail := trail + more;
        rounds := rounds + 1;
      }
    }

    // ---- cleanup

    /** When the run branch may go: its work has landed, or there is none. */
    predicate MayDelete(disposition: Disposition)
      reads this
    {
      if disposition == Landed then landingComplete else green == originalHead
    }

    /** Removes the worktree, then the run branch unless validated work must be kept.  It may be called again. */
    method Cleanup(disposition: Disposition) returns (ok: bool, ghost writes: seq<Act>)
      requires repo.Valid()
      modifies this`cleanupDisposition, this`cleanupQuarantine, this`cleanupRegistrationRemoved
      modifies this`cleanupWorktreeRemoved
      modifies this`cleanupPreserved, this`cleanupRunRefDeleted, repo
      ensures repo.Valid() && Went(old(repo.log), repo.log, writes)
      ensures forall w :: w in writes ==> w == Swapped(green, green) || (w == Deleted(green) && MayDelete(disposition))
      ensures old(cleanupDisposition).Some? ==> cleanupDisposition == old(cleanupDisposition)
      ensures disposition == Landed && !landingComplete ==> !ok && writes == []
      ensures old(cleanupDisposition).Some? && old(cleanupDisposition).value != disposition ==> !ok && writes == []
      ensures ok ==> cleanupDisposition == Some(disposition) && cleanupWorktreeRemoved
      ensures ok && MayDelete(disposition) ==> repo.run == Missing && cleanupRunRefDeleted
      ensures ok && !MayDelete(disposition) ==> repo.run == Direct(green) && cleanupPreserved
      ensures Spares(repo.log, |old(repo.log)|, {green})
      ensures PoliteSince(repo.log, |old(repo.log)|) ==> Allowed(originalHead, old(V()), Cleaning(writes), V())
    {
      hide Spares, OwnWrites;
      ghost var start := repo.log;
      writes := [];
      WentSelf(start);
      SparesForeign(start, repo.log, writes, {green});
      if disposition == Landed && !landingComplete {
        return false, writes;
      }
      if cleanupDisposition.Some? && cleanupDisposition.value != disposition {
        return false, writes;
      }
      cleanupDisposition := Some(disposition);
      ok, writes := RemoveWorktree(disposition);
      SparesForeign(start, repo.log, writes, {green});
      if !ok {
        return;
      }
      ghost var removed := repo.log;
      ghost var more;
      ok, more := SettleRunRef(disposition);
      WentThen(start, removed, repo.log, writes, more);
      writes := writes + more;
      SparesForeign(start, repo.log, writes, {green});
    }

    /** The first half of a cleanup, as far as it has not been done before. */
    method RemoveWorktree(disposition: Disposition) returns (ok: bool, ghost writes: seq<Act>)
      requires repo.Valid()
      modifies this`cleanupQuarantine, this`cleanupRegistrationRemoved, this`cleanupWorktreeRemoved, repo
      ensures repo.Valid() && Went(old(repo.log), repo.log, writes)
      ensures (writes == [] || writes == [Swapped(green, green)])
      ensures ok ==> cleanupWorktreeRemoved && SeenGone(repo.log)
    {
      hide Went, Acts, SeenGone;
      ghost var start := repo.log;
      writes := [];
      WentSelf(start);
      if cleanupWorktreeRemoved {
        ok := repo.VerifyWorktreeRemoved();
        return;
      }
      if !cleanupQuarantine && !cleanupRegistrationRemoved {
        ok, writes := Quarantine(disposition);
        if !ok {
          return;
        }
      }
      ghost var quarantined := repo.log;
      var removed := true;
      if !cleanupRegistrationRemoved {
        removed := repo.RemoveRegistration();
        WentOn(start, quarantined, repo.log, writes);
        ghost var unregistered := repo.log;
        ok := repo.VerifyWorktreeRemoved();
        WentOn(start, unregistered, repo.log, writes);
        if !ok {
          return;
        }
        cleanupRegistrationRemoved := true;
      }
      if cleanupQuarantine {
        var discarded: bool := *;
        if !discarded {
          return false, writes;
        }
        cleanupQuarantine := false;
      }
      ghost var cleared := repo.log;
      ok := repo.VerifyWorktreeRemoved();
      WentOn(start, cleared, repo.log, writes);
      if !ok {
        return;
      }
      cleanupWorktreeRemoved := true;
      ok := removed;
    }

    /** Nothing is thrown away before the run branch has been seen at the latest green commit, twice. */
    method Quarantine(disposition: Disposition) returns (ok: bool, ghost writes: seq<Act>)
      requires repo.Valid() && !cleanupQuarantine
      modifies this`cleanupQuarantine, repo
      ensures repo.Valid() && Went(old(repo.log), repo.log, writes)
      ensures (writes == [] || writes == [Swapped(green, green)])
      ensures ok == cleanupQuarantine && (ok ==> repo.run == Direct(green))
    {
      hide Went, Acts, LastAct, RunOf, FeatureOf, Orderly;
      ghost var start := repo.log;
      writes := [];
      WentSelf(start);
      if disposition == PreserveValidated {
        ok, writes := ResetAttempt();
      } else {
        ok := *;
      }
      if !ok {
        return;
      }
      ghost var settled := repo.log;
      ok := repo.RequireDirect(green);
      WentOn(start, settled, repo.log, writes);
      if !ok {
        return;
      }
      ghost var seen := repo.log;
      ok := repo.RequireDirect(green);
      WentOn(start, seen, repo.log, writes);
      if !ok {
        return;
      }
      cleanupQuarantine := *;
      ok := cleanupQuarantine;
    }

    /** The second half: the run branch is kept, or deleted once the worktree is seen to be gone. */
    method SettleRunRef(disposition: Disposition) returns (ok: bool, ghost writes: seq<Act>)
      requires repo.Valid() && (disposition == Landed ==> landingComplete)
      modifies this`cleanupPreserved, this`cleanupRunRefDeleted, repo
      ensures repo.Valid() && Went(old(repo.log), repo.log, writes)
      ensures writes == [] || (writes == [Deleted(green)] && MayDelete(disposition))
      ensures ok && MayDelete(disposition) ==> repo.run == Missing && cleanupRunRefDeleted
      ensures ok && !MayDelete(disposition) ==> repo.run == Direct(green) && cleanupPreserved
    {
      hide Went, Acts, LastAct, RunOf, FeatureOf, Orderly;
      ghost var start := repo.log;
      writes := [];
      WentSelf(start);
      var preserve := disposition == PreserveValidated && green != originalHead;
      if preserve {
        var kept := repo.InspectRun();
        if kept != Some(Direct(green)) {
          return false, writes;
        }
        cleanupPreserved := true;
        return true, writes;
      }
      if cleanupRunRefDeleted {
        var gone := repo.InspectRun();
        return gone == Some(Missing), writes;
      }
      var found := repo.InspectRun();
      if found != Some(Direct(green)) {
        return false, writes;
      }
      ghost var first := repo.log;
      var removed := repo.VerifyWorktreeRemoved();
      WentOn(start, first, repo.log, []);
      var bound: bool := *;
      if !removed || !bound {
        return false, writes;
      }
      ghost var second := repo.log;
      var deleted;
      deleted, writes := repo.DeleteRun(green);
      WentFirst(start, second, repo.log, writes);
      ghost var third := repo.log;
      var left := repo.InspectRun();
      WentOn(start, third, repo.log, writes);
      if left == Some(Missing) {
        cleanupRunRefDeleted := true;
        return true, writes;
      }
      return false, writes;
    }
  }

  /** One history goes on from the other, with these writes of ours, from one view to the next. */
  ghost predicate Passage(before: seq<Act>, v: View, log: seq<Act>, w: View, writes: seq<Act>) {
    && Orderly(log) && Went(before, log, writes)
    && v.run == RunOf(before) && v.feature == FeatureOf(before) && w.run == RunOf(log) && w.feature == FeatureOf(log)
    && w.landed == v.landed
  }

  lemma CommitAllowed(before: seq<Act>, log: seq<Act>, original: string, v: View, attempt: string, tree: string,
                      writes: seq<Act>, w: View)
    requires Passage(before, v, log, w, writes) && Tried(writes, v.green, attempt)
    requires writes != [] ==> Snapshots(attempt, tree, v.green)
    requires w.green == v.green || (w.green == attempt && writes == [Swapped(v.green, attempt)])
    ensures PoliteSince(log, |before|) ==> Allowed(original, v, Committing(attempt, tree, writes), w)
  {
    hide Snapshots, TreeOf, Tried, RunOf, FeatureOf, OwnWrites, Target, Forward, PoliteAt, Orderly;
  }

  lemma SquashAllowed(before: seq<Act>, log: seq<Act>, original: string, v: View, attempt: string, writes: seq<Act>,
                      w: View)
    requires Passage(before, v, log, w, writes) && Tried(writes, v.green, attempt)
    requires writes != [] ==> Snapshots(attempt, TreeOf(v.green), original)
    requires w.green == v.green || (w.green == attempt && writes == [Swapped(v.green, attempt)] && v.green != original)
    ensures PoliteSince(log, |before|) ==> Allowed(original, v, Squashing(attempt, writes), w)
  {
    hide Snapshots, TreeOf, Tried, RunOf, FeatureOf, OwnWrites, Target, Forward, PoliteAt, Orderly;
  }

  lemma LandingAllowed(before: seq<Act>, log: seq<Act>, original: string, v: View, w: View)
    requires Passage(before, v.(landed := w.landed), log, w, []) && w.green == v.green && (v.landed ==> w.landed)
    requires w.landed ==> v.landed || w.feature == Direct(v.green) || v.green == original
    ensures Spares(log, |before|, {}) && (PoliteSince(log, |before|) ==> Allowed(original, v, Landing, w))
  {
    SparesForeign(before, log, [], {});
    hide Spares, RunOf, FeatureOf, OwnWrites, Forward, PoliteAt, Orderly;
  }

  lemma NothingCommitted(before: seq<Act>, log: seq<Act>, original: string, v: View, tree: string, trail: seq<Act>,
                         w: View)
    requires Passage(before, v, log, w, []) && w.green == v.green && forall a :: a in trail ==> !a.Swapped?
    ensures Spares(log, |before|, {v.green, ""}) && RightAfter(trail, Swapped(v.green, ""), Proved(v.green))
    ensures PoliteSince(log, |before|) ==> Allowed(original, v, Committing("", tree, []), w)
  {
    SparesTried(before, log, [], v.green, "");
    NotYetSwapped(trail, Swapped(v.green, ""), Proved(v.green));
    CommitAllowed(before, log, original, v, "", tree, [], w);
    hide *;
  }

  lemma NothingSquashed(before: seq<Act>, log: seq<Act>, original: string, v: View, trail: seq<Act>, w: View)
    requires Passage(before, v, log, w, []) && w.green == v.green && forall a :: a in trail ==> !a.Swapped?
    ensures Spares(log, |before|, {v.green, ""}) && RightAfter(trail, Swapped(v.green, ""), Seen(v.green))
    ensures PoliteSince(log, |before|) ==> Allowed(original, v, Squashing("", []), w)
  {
    SparesTried(before, log, [], v.green, "");
    NotYetSwapped(trail, Swapped(v.green, ""), Seen(v.green));
    SquashAllowed(before, log, original, v, "", [], w);
    hide *;
  }

  lemma SquashSafe(before: seq<Act>, log: seq<Act>, original: string, v: View, attempt: string, writes: seq<Act>,
                   w: View)
    requires Passage(before, v, log, w, writes) && (writes == [] || Tried(writes, v.green, attempt))
    requires writes != [] ==> Snapshots(attempt, TreeOf(v.green), original)
    requires w.green == v.green || (w.green == attempt && writes == [Swapped(v.green, attempt)] && v.green != original)
    ensures Spares(log, |before|, {v.green, attempt})
    ensures PoliteSince(log, |before|) ==> Allowed(original, v, Squashing(attempt, writes), w)
  {
    hide Passage, Spares, Snapshots, TreeOf, Allowed, PoliteSince;
    PassageParts(before, v, log, w, writes);
    SparesTried(before, log, writes, v.green, attempt);
    SquashAllowed(before, log, original, v, attempt, writes, w);
  }

  lemma PassageParts(before: seq<Act>, v: View, log: seq<Act>, w: View, writes: seq<Act>)
    requires Passage(before, v, log, w, writes)
    ensures Orderly(log) && Went(before, log, writes)
  {
  }

  lemma CommitTold(before: seq<Act>, log: seq<Act>, original: string, v: View, tree: string, attempt: string,
                   writes: seq<Act>, preparation: seq<Act>, steps: seq<Act>, w: View)
    requires Passage(before, v, log, w, writes) && Tried(writes, v.green, attempt) && Snapshots(attempt, tree, v.green)
    requires w.green == v.green || (w.green == attempt && writes == [Swapped(v.green, attempt)])
    requires preparation == Preparation(v.green, attempt) && v.green != attempt
    requires forall k :: 0 < k < |steps| ==> steps[k] != Swapped(v.green, attempt)
    ensures Spares(log, |before|, {v.green, attempt}) && preparation <= preparation + steps
    ensures RightAfter(preparation + steps, Swapped(v.green, attempt), Proved(v.green))
    ensures PoliteSince(log, |before|) ==> Allowed(original, v, Committing(attempt, tree, writes), w)
  {
    SparesTried(before, log, writes, v.green, attempt);
    RightAfterHere(preparation, steps, Swapped(v.green, attempt), Proved(v.green));
    CommitAllowed(before, log, original, v, attempt, tree, writes, w);
    hide *;
  }

  lemma SquashTold(before: seq<Act>, log: seq<Act>, original: string, v: View, attempt: string, writes: seq<Act>,
                   preparation: seq<Act>, steps: seq<Act>, w: View)
    requires Passage(before, v, log, w, writes) && Tried(writes, v.green, attempt)
    requires Snapshots(attempt, TreeOf(v.green), original) && v.green != original
    requires w.green == v.green || (w.green == attempt && writes == [Swapped(v.green, attempt)])
    requires preparation == SquashPreparation(v.green, attempt)
    requires v.green != attempt ==> forall k :: 0 < k < |steps| ==> steps[k] != Swapped(v.green, attempt)
    ensures Spares(log, |before|, {v.green, attempt}) && preparation <= preparation + steps
    ensures v.green != attempt ==> RightAfter(preparation + steps, Swapped(v.green, attempt), Seen(v.green))
    ensures PoliteSince(log, |before|) ==> Allowed(original, v, Squashing(attempt, writes), w)
  {
    SparesTried(before, log, writes, v.green, attempt);
    if v.green != attempt { RightAfterHere(preparation, steps, Swapped(v.green, attempt), Seen(v.green)); }
    SquashAllowed(before, log, original, v, attempt, writes, w);
    hide *;
  }

  lemma TriedBack(back: seq<Act>, green: string, attempt: string)
    requires back == [] || back == [Swapped(attempt, green)]
    ensures Tried([Swapped(green, attempt)] + back, green, attempt)
  {
  }

  lemma SparesTried(before: seq<Act>, log: seq<Act>, writes: seq<Act>, green: string, attempt: string)
    requires Orderly(log) && Went(before, log, writes) && Tried(writes, green, attempt)
    ensures Spares(log, |before|, {green, attempt})
  {
    hide Orderly, Went, Spares;
    SparesForeign(before, log, writes, {green, attempt});
  }

  lemma NotOurs(log: seq<Act>, id: string)
    requires RunOf(log) != Direct(id)
    ensures !OursLast(log, id)
  {
    if OursLast(log, id) { OursIsThere(log, id); }
  }

  // ---- what we do in order

  function Proving(id: string): seq<Act> {
    [Seen(id), Proved(id)]
  }

  /** The looks of a commit before its ref update: the proof twice, the object, and the proof twice again. */
  function Preparation(green: string, commit: string): seq<Act> {
    Checking(green) + [Created(commit)] + Rechecking(green)
  }

  function Checking(green: string): seq<Act> {
    Proving(green) + Proving(green) + [Seen(green)]
  }

  function Rechecking(green: string): seq<Act> {
    Proving(green) + [Seen(green)] + Proving(green)
  }

  function SquashPreparation(latest: string, commit: string): seq<Act> {
    [Seen(latest), Created(commit), Seen(latest), Seen(latest)]
  }

  lemma NotYetSwapped(trail: seq<Act>, act: Act, earlier: Act)
    requires act.Swapped? && forall a :: a in trail ==> !a.Swapped?
    ensures RightAfter(trail, act, earlier)
  {
    assert act !in trail;
  }

  lemma NoSwapIn(trail: seq<Act>, from: string, to: string)
    requires forall a :: a in trail ==> !a.Swapped?
    ensures forall k :: 0 <= k < |trail| ==> trail[k] != Swapped(from, to)
  {
    assert forall k :: 0 <= k < |trail| ==> trail[k] in trail;
  }

  function Guarding(squash: string, base: string): seq<Act> {
    [Seen(squash), Guarded(squash, base)]
  }

  function Repeated(acts: seq<Act>, n: nat): seq<Act> {
    if n == 0 then [] else Repeated(acts, n - 1) + acts
  }

  lemma RepeatedNext(acts: seq<Act>, n: nat)
    ensures Repeated(acts, n + 1) == Repeated(acts, n) + acts && (n == 0 ==> Repeated(acts, 1) == acts)
  {
    if n == 0 { assert Repeated(acts, 0) + acts == acts; }
  }

  /** The merge, and the reading of authentic evidence that the branch has gone from the base to the squash. */
  ghost predicate MergedBy(trail: seq<Act>, squash: string, base: string, featureRef: string) {
    exists launch, e :: IsMerge(trail, launch, e, squash) && LandingEvidence.Proves(e, featureRef, base, squash)
  }

  predicate IsMerge(trail: seq<Act>, launch: seq<Act>, e: LandingEvidence.Evidence, squash: string) {
    && trail == launch + [Evidenced(e)]
    && (launch == [Launched(squash)] || launch == [Launched(squash), Merged(squash)])
  }

  /** Four passed guards, and then that. */
  ghost predicate LandedBy(trail: seq<Act>, squash: string, base: string, featureRef: string) {
    var guards := Repeated(Guarding(squash, base), 4);
    guards <= trail && MergedBy(trail[|guards|..], squash, base, featureRef)
  }

  lemma EvidenceMerges(launch: seq<Act>, e: LandingEvidence.Evidence, squash: string, base: string, featureRef: string)
    requires launch == [Launched(squash)] || launch == [Launched(squash), Merged(squash)]
    requires LandingEvidence.Proves(e, featureRef, base, squash)
    ensures MergedBy(launch + [Evidenced(e)], squash, base, featureRef)
  {
    hide LandingEvidence.Proves;
    assert IsMerge(launch + [Evidenced(e)], launch, e, squash);
  }

  lemma MergeLands(guards: seq<Act>, trail: seq<Act>, squash: string, base: string, featureRef: string)
    requires guards == Repeated(Guarding(squash, base), 4) && MergedBy(trail, squash, base, featureRef)
    ensures LandedBy(guards + trail, squash, base, featureRef)
  {
    hide MergedBy, Repeated;
    assert (guards + trail)[|guards|..] == trail;
  }
}
