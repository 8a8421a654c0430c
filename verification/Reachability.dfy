/** What a run of commits, squashes, rollbacks, landings and cleanups does to the latest green tree, provided nobody
    else takes one of the two branches back (internal/flywheel/landing.go, internal/flywheel/worktree.go). */
module Reachability {
  import opened Text
  import opened Refs

  /** The refs, the latest green commit and the landing flag. */
  datatype View = View(run: RefState, feature: RefState, green: string, landed: bool)

  /** One call, with our own writes to the run branch during it. */
  datatype Op =
    | Committing(attempt: string, tree: string, writes: seq<Act>)
    | Squashing(attempt: string, writes: seq<Act>)
    | Resetting(writes: seq<Act>)
    | RollingBack(parent: string, writes: seq<Act>)
    | Landing
    | Cleaning(writes: seq<Act>)

  /** At most one swap from the green commit to our own, and at most one back. */
  predicate Tried(writes: seq<Act>, green: string, next: string) {
    || writes == [] || writes == [Swapped(green, next)] || writes == [Swapped(next, green)]
    || writes == [Swapped(green, next), Swapped(next, green)]
  }

  /** One swap from the green commit to its parent, and perhaps one of the parent with itself. */
  predicate Undone(writes: seq<Act>, green: string, parent: string) {
    IsParent(green, parent) &&
    (writes == [Swapped(green, parent)] || writes == [Swapped(green, parent), Swapped(parent, parent)])
  }

  /** What a call may do to the view.  A swap moves `green` exactly when it stands and is acknowledged. */
  ghost predicate Allowed(original: string, v: View, op: Op, w: View) {
    && Forward(v.feature, w.feature)
    && match op
       case Committing(attempt, tree, writes) =>
         && w.landed == v.landed && Forward(Target(v.run, writes), w.run) && Tried(writes, v.green, attempt)
         && (writes != [] ==> Snapshots(attempt, tree, v.green))
         && (w.green == v.green || (w.green == attempt && writes == [Swapped(v.green, attempt)]))
       case Squashing(attempt, writes) =>
         && w.landed == v.landed && Forward(Target(v.run, writes), w.run) && Tried(writes, v.green, attempt)
         && (writes != [] ==> Snapshots(attempt, TreeOf(v.green), original))
         && (w.green == v.green || (w.green == attempt && writes == [Swapped(v.green, attempt)] && v.green != original))
       case Resetting(writes) =>
         && w.landed == v.landed && w.green == v.green && Forward(Target(v.run, writes), w.run)
         && (writes == [] || writes == [Swapped(v.green, v.green)])
       case RollingBack(parent, writes) =>
         && w.landed == v.landed && Forward(Target(v.run, writes), w.run)
         && (writes == [] || Undone(writes, v.green, parent))
         && (w.green == v.green ==> |writes| <= 1 || parent == v.green)
         && (w.green != v.green ==> w.green == parent && writes != [])
       case Landing =>
         && Forward(v.run, w.run) && w.green == v.green
         && (v.landed ==> w.landed)
         && (w.landed ==> v.landed || w.feature == Direct(v.green) || v.green == original)
       case Cleaning(writes) =>
         && w.landed == v.landed && w.green == v.green && Forward(Target(v.run, writes), w.run)
         && (forall d :: d in writes ==>
               d == Swapped(v.green, v.green) || (d == Deleted(v.green) && (v.landed || v.green == original)))
  }

  /** Nothing validated is lost: the tree of the latest green commit can be had from one of the two branches. */
  ghost predicate Saved(v: View) {
    Reaches(v.run, TreeOf(v.green)) || Reaches(v.feature, TreeOf(v.green))
  }

  /** What every run keeps: the run branch has the green tree until it is no longer needed for it. */
  ghost predicate Retained(original: string, v: View) {
    && Reaches(v.feature, TreeOf(original))
    && (v.landed ==> Reaches(v.feature, TreeOf(v.green)))
    && (Reaches(v.run, TreeOf(v.green)) || v.landed || v.green == original)
  }

  lemma RetainedIsSaved(original: string, v: View)
    requires Retained(original, v)
    ensures Saved(v)
  {
    hide Reaches, TreeOf;
  }

  lemma ReachesSelf(id: string)
    ensures Reaches(Direct(id), TreeOf(id))
  {
    hide TreeOf;
    DescendsSelf(id);
  }

  lemma ReachesParent(id: string, parent: string)
    requires IsParent(id, parent)
    ensures Reaches(Direct(id), TreeOf(parent))
  {
    hide TreeOf, IsParent;
    DescendsParent(id, parent);
  }

  lemma TargetIs(run: RefState, writes: seq<Act>)
    requires |writes| > 0 ==> writes[|writes| - 1].Swapped? || writes[|writes| - 1].Deleted?
    ensures Target(run, writes) ==
      if |writes| == 0 then run
      else if writes[|writes| - 1].Swapped? then Direct(writes[|writes| - 1].to) else Missing
  {
  }

  /** Wherever a swap that did not count leaves the run branch, the green tree is still there. */
  lemma TriedReaches(v: View, writes: seq<Act>, attempt: string)
    requires Tried(writes, v.green, attempt) && (Reaches(v.run, TreeOf(v.green)) || writes != [])
    requires writes != [] ==> IsParent(attempt, v.green) || TreeOf(attempt) == TreeOf(v.green)
    ensures Reaches(Target(v.run, writes), TreeOf(v.green))
  {
    TargetIs(v.run, writes);
    hide TreeOf, IsParent, Reaches, Target, RunOf;
    ReachesSelf(v.green);
    ReachesSelf(attempt);
    if IsParent(attempt, v.green) { ReachesParent(attempt, v.green); }
  }

  /** The three parts of `Retained`, for proofs that do not look inside. */
  lemma RetainedParts(original: string, v: View)
    ensures Retained(original, v) <==>
      && Reaches(v.feature, TreeOf(original))
      && (v.landed ==> Reaches(v.feature, TreeOf(v.green)))
      && (Reaches(v.run, TreeOf(v.green)) || v.landed || v.green == original)
  {
    hide Reaches, TreeOf;
  }

  lemma FeatureKeeps(original: string, v: View, w: View)
    requires Retained(original, v) && Forward(v.feature, w.feature)
    ensures Reaches(w.feature, TreeOf(original)) && (v.landed ==> Reaches(w.feature, TreeOf(v.green)))
  {
    RetainedParts(original, v);
    hide *;
    ForwardReaches(v.feature, w.feature, TreeOf(original));
    if v.landed { ForwardReaches(v.feature, w.feature, TreeOf(v.green)); }
  }

  /** A call that leaves the green commit and the flag alone, and from somewhere within reach takes the run branch
      forward. */
  lemma StayingKeeps(original: string, v: View, target: RefState, w: View)
    requires Retained(original, v) && Forward(v.feature, w.feature) && Forward(target, w.run)
    requires w.green == v.green && w.landed == v.landed
    requires Reaches(v.run, TreeOf(v.green)) || target != v.run ==>
      Reaches(target, TreeOf(v.green)) || v.landed || v.green == original
    ensures Retained(original, w)
  {
    RetainedParts(original, v);
    RetainedParts(original, w);
    FeatureKeeps(original, v, w);
    hide *;
    if Reaches(target, TreeOf(v.green)) { ForwardReaches(target, w.run, TreeOf(v.green)); }
  }

  /** A call that moves the green commit to where it has put the run branch. */
  lemma MovingKeeps(original: string, v: View, w: View)
    requires Retained(original, v) && Forward(v.feature, w.feature) && Forward(Direct(w.green), w.run)
    requires w.landed == v.landed && (v.landed ==> TreeOf(w.green) == TreeOf(v.green))
    ensures Retained(original, w)
  {
    RetainedParts(original, v);
    RetainedParts(original, w);
    FeatureKeeps(original, v, w);
    ReachesSelf(w.green);
    hide *;
    ForwardReaches(Direct(w.green), w.run, TreeOf(w.green));
  }

  lemma CommitKeeps(original: string, v: View, op: Op, w: View)
    requires Retained(original, v) && op.Committing? && Allowed(original, v, op, w)
    requires w.green != v.green ==> !v.landed
    ensures Retained(original, w)
  {
    TargetIs(v.run, op.writes);
    if op.writes != [] { SnapshotFacts(op.attempt, op.tree, v.green); }
    hide Retained, Target, RunOf, Reaches, TreeOf, IsParent, Snapshots, Forward;
    if w.green != v.green {
      MovingKeeps(original, v, w);
    } else {
      if Reaches(v.run, TreeOf(v.green)) || op.writes != [] { TriedReaches(v, op.writes, op.attempt); }
      StayingKeeps(original, v, Target(v.run, op.writes), w);
    }
  }

  lemma SquashKeeps(original: string, v: View, op: Op, w: View)
    requires Retained(original, v) && op.Squashing? && Allowed(original, v, op, w)
    ensures Retained(original, w)
  {
    TargetIs(v.run, op.writes);
    if op.writes != [] { SnapshotFacts(op.attempt, TreeOf(v.green), original); }
    hide Retained, Target, RunOf, Reaches, TreeOf, IsParent, Snapshots, Forward;
    if w.green != v.green {
      MovingKeeps(original, v, w);
    } else {
      if Reaches(v.run, TreeOf(v.green)) || op.writes != [] { TriedReaches(v, op.writes, op.attempt); }
      StayingKeeps(original, v, Target(v.run, op.writes), w);
    }
  }

  lemma LandingKeeps(original: string, v: View, w: View)
    requires Retained(original, v) && Allowed(original, v, Landing, w)
    ensures Retained(original, w)
  {
    FeatureKeeps(original, v, w);
    RetainedParts(original, v);
    RetainedParts(original, w);
    ReachesSelf(v.green);
    hide Retained, Reaches, TreeOf, Forward, Target, RunOf;
    if Reaches(v.run, TreeOf(v.green)) { ForwardReaches(v.run, w.run, TreeOf(v.green)); }
  }

  lemma CleaningKeeps(original: string, v: View, op: Op, w: View)
    requires Retained(original, v) && (op.Cleaning? || op.Resetting?) && Allowed(original, v, op, w)
    ensures Retained(original, w)
  {
    if |op.writes| > 0 { assert op.writes[|op.writes| - 1] in op.writes; }
    TargetIs(v.run, op.writes);
    ReachesSelf(v.green);
    hide Retained, Target, RunOf, Reaches, TreeOf, Forward;
    StayingKeeps(original, v, Target(v.run, op.writes), w);
  }

  /** A rollback keeps the tree of the parent once it is acknowledged. */
  lemma RollbackKeeps(original: string, v: View, op: Op, w: View)
    requires Retained(original, v) && op.RollingBack? && Allowed(original, v, op, w) && Prudent(v, op, w)
    ensures Retained(original, w)
  {
    TargetIs(v.run, op.writes);
    hide Retained, Target, RunOf, Reaches, TreeOf, Forward, IsParent;
    if w.green != v.green {
      MovingKeeps(original, v, w);
    } else {
      StayingKeeps(original, v, v.run, w);
    }
  }

  /** No commit is added or taken back once the landing is complete, and no rollback has moved the run branch without
      saying so. */
  predicate Prudent(v: View, op: Op, w: View) {
    && ((op.Committing? || op.RollingBack?) && w.green != v.green ==> !v.landed)
    && (op.RollingBack? && op.writes != [] ==> w.green != v.green)
  }

  lemma StepKeeps(original: string, v: View, op: Op, w: View)
    requires Retained(original, v) && Allowed(original, v, op, w) && Prudent(v, op, w)
    ensures Retained(original, w)
  {
    hide Retained, Allowed;
    match op
    case Committing(_, _, _) => CommitKeeps(original, v, op, w);
    case Squashing(_, _) => SquashKeeps(original, v, op, w);
    case RollingBack(_, _) => RollbackKeeps(original, v, op, w);
    case Landing => LandingKeeps(original, v, w);
    case _ => CleaningKeeps(original, v, op, w);
  }

  ghost predicate Run(original: string, views: seq<View>, ops: seq<Op>) {
    |views| == |ops| + 1 && forall i :: 0 <= i < |ops| ==> Allowed(original, views[i], ops[i], views[i + 1])
  }

  predicate AllPrudent(views: seq<View>, ops: seq<Op>)
    requires |views| == |ops| + 1
  {
    forall i :: 0 <= i < |ops| ==> Prudent(views[i], ops[i], views[i + 1])
  }

  /** Across every run, the tree of the latest green commit stays within reach. */
  lemma {:induction false} RunSaves(original: string, views: seq<View>, ops: seq<Op>, n: nat)
    requires Run(original, views, ops) && AllPrudent(views, ops) && n <= |ops|
    requires Retained(original, views[0])
    ensures Retained(original, views[n]) && Saved(views[n])
    decreases n
  {
    hide Retained, Allowed, Saved, Prudent;
    if n > 0 {
      RunSaves(original, views, ops, n - 1);
      StepKeeps(original, views[n - 1], ops[n - 1], views[n]);
    }
    RetainedIsSaved(original, views[n]);
  }

  /** A new workspace: both branches at the original HEAD. */
  lemma StartIsRetained(original: string)
    ensures Retained(original, View(Direct(original), Direct(original), original, false))
  {
    hide TreeOf;
    ReachesSelf(original);
  }

  // ---- where the conditions are needed

  /** The tree can be had from one of the two branches. */
  ghost predicate Available(v: View, tree: string) {
    Reaches(v.run, tree) || Reaches(v.feature, tree)
  }

  /** Whatever may be done from here on, the tree can still be had. */
  ghost predicate SafeForever(original: string, v: View, tree: string) {
    forall views, ops, n: nat :: Run(original, views, ops) && views[0] == v && n <= |ops| ==> Available(views[n], tree)
  }

  lemma {:induction false} FeatureLasts(original: string, views: seq<View>, ops: seq<Op>, n: nat, tree: string)
    requires Run(original, views, ops) && n <= |ops| && Reaches(views[0].feature, tree)
    ensures Reaches(views[n].feature, tree)
    decreases n
  {
    if n > 0 {
      FeatureLasts(original, views, ops, n - 1, tree);
      assert Allowed(original, views[n - 1], ops[n - 1], views[n]);
      hide Run;
      FeatureForward(original, views[n - 1], ops[n - 1], views[n]);
      hide *;
      ForwardReaches(views[n - 1].feature, views[n].feature, tree);
    }
  }

  lemma FeatureForward(original: string, v: View, op: Op, w: View)
    requires Allowed(original, v, op, w)
    ensures Forward(v.feature, w.feature)
  {
  }

  /** After a landing a tree is safe exactly when the feature branch has it: the next cleanup may delete the other. */
  lemma LandedTreeIsSafeExactly(original: string, v: View, tree: string)
    requires v.landed
    ensures SafeForever(original, v, tree) <==> Reaches(v.feature, tree)
  {
    hide Reaches, Allowed;
    if Reaches(v.feature, tree) {
      forall views, ops, n: nat | Run(original, views, ops) && views[0] == v && n <= |ops|
        ensures Available(views[n], tree)
      {
        FeatureLasts(original, views, ops, n, tree);
      }
    } else {
      var views, ops := [v, v.(run := Missing)], [Cleaning([Deleted(v.green)])];
      DeletionAllowed(original, v);
      assert Run(original, views, ops) && views[0] == v && 1 <= |ops|;
      NothingReached(tree);
      assert !Available(views[1], tree);
    }
  }

  lemma DeletionAllowed(original: string, v: View)
    requires v.landed
    ensures Allowed(original, v, Cleaning([Deleted(v.green)]), v.(run := Missing))
  {
  }

  /** A commit made after a landing is safe exactly when its tree can be had from the feature branch anyway. */
  lemma CommitAfterLandingExactly(original: string, v: View, op: Op, w: View)
    requires Retained(original, v) && v.landed && op.Committing? && Allowed(original, v, op, w) && w.green != v.green
    ensures Saved(w)
    ensures SafeForever(original, w, TreeOf(w.green)) <==> Reaches(w.feature, TreeOf(w.green))
  {
    hide Reaches, SafeForever, Retained, TreeOf, Forward;
    LandedTreeIsSafeExactly(original, w, TreeOf(w.green));
    ReachesSelf(w.green);
    ForwardReaches(Direct(w.green), w.run, TreeOf(w.green));
  }

  /** Such a commit can be lost: with nothing to land, `Land("")` completes the landing, a commit is made after that,
      and the landed cleanup that is then allowed deletes it. */
  lemma CommitAfterLandingIsLost(original: string, attempt: string, tree: string)
    requires Snapshots(attempt, tree, original) && attempt != original && !Reaches(Direct(original), tree)
    ensures var views := LosingViews(original, attempt);
            var ops := [Landing, Committing(attempt, tree, [Swapped(original, attempt)]), Cleaning([Deleted(attempt)])];
            && Run(original, views, ops) && Retained(original, views[0]) && !AllPrudent(views, ops)
            && Saved(views[2]) && !Saved(views[3])
  {
    var views := LosingViews(original, attempt);
    var ops := [Landing, Committing(attempt, tree, [Swapped(original, attempt)]), Cleaning([Deleted(attempt)])];
    StartIsRetained(original);
    EmptyLandingAllowed(original, views[0]);
    CommitAllowed(original, views[1], attempt, tree);
    DeletionAllowed(original, views[2]);
    SnapshotFacts(attempt, tree, original);
    ReachesSelf(attempt);
    NothingReached(tree);
    assert !Prudent(views[1], ops[1], views[2]);
    hide Reaches, TreeOf, Snapshots, Retained, Allowed;
  }

  lemma EmptyLandingAllowed(original: string, v: View)
    requires v.green == original
    ensures Allowed(original, v, Landing, v.(landed := true))
  {
  }

  lemma CommitAllowed(original: string, v: View, attempt: string, tree: string)
    requires v.run == Direct(v.green) && Snapshots(attempt, tree, v.green)
    ensures Allowed(original, v, Committing(attempt, tree, [Swapped(v.green, attempt)]),
                    v.(run := Direct(attempt), green := attempt))
  {
    TargetOfOne(v.run, Swapped(v.green, attempt));
    hide Target, RunOf, Snapshots, Descends;
  }

  /** A rollback whose swap is not acknowledged leaves the green commit behind.  Its tree is then sure to be within
      reach exactly when the parent's history or the feature branch has it anyway. */
  lemma UnacknowledgedRollbackExactly(original: string, v: View, parent: string)
    requires Retained(original, v) && IsParent(v.green, parent)
    ensures var op := RollingBack(parent, [Swapped(v.green, parent)]);
            (forall w :: Allowed(original, v, op, w) && w.green == v.green ==> Saved(w)) <==>
            Reaches(Direct(parent), TreeOf(v.green)) || Reaches(v.feature, TreeOf(v.green))
  {
    var op, tree := RollingBack(parent, [Swapped(v.green, parent)]), TreeOf(v.green);
    hide Reaches, TreeOf, IsParent;
    if Reaches(Direct(parent), tree) || Reaches(v.feature, tree) {
      forall w | Allowed(original, v, op, w) && w.green == v.green ensures Saved(w) {
        hide Forward;
        if Reaches(Direct(parent), tree) {
          ForwardReaches(Direct(parent), w.run, tree);
        } else {
          ForwardReaches(v.feature, w.feature, tree);
        }
      }
    } else {
      var w := v.(run := Direct(parent));
      assert Allowed(original, v, op, w) && w.green == v.green && !Saved(w);
    }
  }

  lemma NothingReached(tree: string)
    ensures !Reaches(Missing, tree)
  {
  }

  function LosingViews(original: string, attempt: string): seq<View> {
    var start := View(Direct(original), Direct(original), original, false);
    var landed := start.(landed := true);
    var committed := landed.(run := Direct(attempt), green := attempt);
    [start, landed, committed, committed.(run := Missing)]
  }
}
