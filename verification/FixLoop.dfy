/** The command around the engine: final suite, squash, landing, and what is reported and cleaned up
    (internal/run/fix.go:165-505). */
module FixLoop {
  import opened Options
  import opened Text
  import opened Findings
  import opened Plan
  import opened Ledger
  import opened Ports
  import opened EngineState
  import opened Waves
  import Rails
  import Engine
  import Refs
  import Reach = Reachability
  import W = Workspace

  datatype Verdict = UnsealedVerdict | BlockedVerdict | RailsVerdict | ErroredVerdict

  datatype SuiteStatus = SuitePassed | SuiteFailed | SuiteMissing | SuiteErrored

  /** What the report is composed from.  `preserved` stands for the name of the run branch. */
  datatype Execution = Execution(verdict: Verdict, failed: bool, status: W.LandingStatus, commit: string,
                                 preserved: bool)

  function VerdictFor(kind: OutcomeKind): Verdict {
    match kind
    case Ready => UnsealedVerdict
    case Blocked => BlockedVerdict
    case OutOfRails => RailsVerdict
    case Errored => ErroredVerdict
  }

  predicate HasValidatedBatch(batches: seq<Batch>) {
    exists b :: b in batches && b.status == Done
  }

  /** Before anything has happened. */
  const BLANK := Execution(ErroredVerdict, true, W.Blocked, "", false)

  function Preserving(e: Execution, verdict: Verdict): Execution {
    e.(verdict := verdict, failed := true, preserved := true)
  }

  /** The report and the cleanup tell the truth about the workspace. */
  ghost predicate Truthful(e: Execution, disposition: W.Disposition, o: Outcome, landed: bool, spent: bool) {
    && (disposition == W.Landed <==> e.status == W.Complete) && (disposition == W.Landed <==> landed)
    && e.status != W.NotNeeded
    && (e.verdict == UnsealedVerdict <==> e.status == W.Complete && !e.failed)
    && (e.preserved <==> e.status != W.Complete && HasValidatedBatch(o.plan.batches))
    && (e.verdict == RailsVerdict ==> spent)
  }

  /** The commits of the engine were made in this workspace, each on the one before: the green commit is the tip of that
      chain, and the tip is the original HEAD exactly when the chain is empty (`Refs.TipIsStartExactly`). */
  method Adopt(w: W.Workspace, o: Outcome)
    requires w.repo.Valid()
    modifies w`green, w.repo
    ensures w.repo.Valid()
    ensures !o.recoveryFailed ==> (w.green == w.originalHead <==> PassedCommits(o.plan.batches) == [])
  {
    w.repo.Others();
    var green: string := *;
    if PassedCommits(o.plan.batches) == [] {
      green := w.originalHead;
    } else if green == w.originalHead {
      green := w.originalHead + "'";
    }
    w.green := green;
  }

  /** Setting up, the engine, and what follows when it is ready. */
  method ExecuteFixLoop(mergeBase: string, blockers: seq<Finding>, ports: Ports, rails: Rails.Rails, ctx: Context,
                        w: W.Workspace, featureRef: string)
    returns (e: Execution, disposition: W.Disposition, ghost o: Outcome)
    requires blockers != [] && AllSized(blockers) && AllInGo(blockers) && ports.baseline == Bag(blockers)
    requires ports.published == NO_PLAN && ports.green == ports.runRef == [] && ports.trace == []
    requires Rails.Sound(rails.Fields()) && w.repo.Valid() && w.green == w.originalHead && !w.landingComplete
    modifies ports, rails, ctx, w, w.repo
    ensures w.repo.Valid() && Truthful(e, disposition, o, w.landingComplete, Rails.Spent(rails.Fields()))
    ensures e.status == W.Complete ==> w.repo.feature == Refs.Direct(w.green) && e.commit == w.green
    ensures w.green != w.originalHead ==> HasValidatedBatch(o.plan.batches) || o.recoveryFailed
    ensures !o.recoveryFailed ==> (e.preserved <==> !w.MayDelete(disposition))
  {
    hide Bag, AllSized, AllInGo, PassedCommits;
    e, disposition, o := BLANK, W.PreserveValidated, Outcome(Errored, NO_PLAN, 0, "", false);
    var prepared: bool := *;
    if !prepared {
      return;
    }
    var outcome := Engine.Execute(mergeBase, w.originalHead, blockers, ports, rails, ctx);
    o := outcome;
    Adopt(w, outcome);
    EndMeans(outcome, Engine.World(outcome, ports, rails), blockers, ports.objectIDLength);
    if outcome.kind != Ready {
      e := Execution(VerdictFor(outcome.kind), true, W.Blocked, "", HasValidatedBatch(outcome.plan.batches));
      return;
    }
    e, disposition := FinishReady(rails, ctx, w, featureRef);
  }

  /** What is settled once the engine is ready: the run branch is reported exactly if nothing has landed. */
  ghost predicate Reported(e: Execution, disposition: W.Disposition, landed: bool, spent: bool) {
    && (disposition == W.Landed <==> e.status == W.Complete) && (disposition == W.Landed <==> landed)
    && e.status != W.NotNeeded && (e.preserved <==> e.status != W.Complete)
    && (e.verdict == UnsealedVerdict <==> e.status == W.Complete && !e.failed)
    && (e.verdict == RailsVerdict ==> spent)
  }

  /** A cancelled context: out of rails if that is the cause, and out of order if the snapshot cannot even be closed. */
  function VerdictOnCancel(railCause: bool, closed: bool): Verdict {
    if railCause && closed then RailsVerdict else ErroredVerdict
  }

  method ObserveCause(rails: Rails.Rails, ctx: Context) returns (cancelled: bool, railCause: bool)
    requires Rails.Sound(rails.Fields())
    modifies rails, ctx
    ensures Later(old(rails.Fields()), rails.Fields()) && Rails.Sound(rails.Fields())
    ensures cancelled == ctx.done && (cancelled && railCause ==> Rails.Spent(rails.Fields()))
  {
    cancelled := ctx.Cancelled();
    railCause := ctx.railCause;
    rails.ObserveExecutionContext(cancelled && railCause);
  }

  /** The immutable snapshot of the latest green tree, and the whole suite on it. */
  method FinalSuite(rails: Rails.Rails, ctx: Context) returns (stop: Option<Execution>)
    requires Rails.Sound(rails.Fields())
    modifies rails, ctx
    ensures Rails.Sound(rails.Fields())
    ensures stop.Some? ==> Reported(stop.value, W.PreserveValidated, false, Rails.Spent(rails.Fields()))
  {
    var now: int := *;
    var admission := rails.ExecutionContext(now);
    if admission != Rails.Admitted {
      return Some(Preserving(BLANK, if admission.Exhausted? then RailsVerdict else ErroredVerdict));
    }
    var snapshot: bool, closed: bool := *, *;
    var cancelled, railCause := ObserveCause(rails, ctx);
    if cancelled {
      return Some(Preserving(BLANK, VerdictOnCancel(railCause, closed || !snapshot)));
    }
    if !snapshot {
      return Some(Preserving(BLANK, ErroredVerdict));
    }
    var suite: SuiteStatus, ran: bool, verified: bool := *, *, *;
    cancelled, railCause := ObserveCause(rails, ctx);
    if cancelled {
      return Some(Preserving(BLANK, VerdictOnCancel(railCause, closed)));
    }
    if !ran || !verified || suite == SuiteErrored || suite == SuiteMissing {
      return Some(Preserving(BLANK, ErroredVerdict));
    }
    if suite != SuitePassed {
      return Some(Preserving(BLANK, if closed then BlockedVerdict else ErroredVerdict));
    }
    now := *;
    admission := rails.AdmitLanding(now);
    if admission != Rails.Admitted {
      return Some(Preserving(BLANK, if closed then RailsVerdict else ErroredVerdict));
    }
    cancelled := ctx.Cancelled();
    return if cancelled then Some(Preserving(BLANK, ErroredVerdict)) else None;
  }

  /** From a ready engine to the landing.  Two answers of the workspace cannot occur here: that there is nothing to
      squash, and that no landing was needed. */
  method FinishReady(rails: Rails.Rails, ctx: Context, w: W.Workspace, featureRef: string)
    returns (e: Execution, disposition: W.Disposition)
    requires Rails.Sound(rails.Fields()) && w.repo.Valid() && w.green != w.originalHead && !w.landingComplete
    modifies rails, ctx, w, w.repo
    ensures w.repo.Valid() && Reported(e, disposition, w.landingComplete, Rails.Spent(rails.Fields()))
    ensures e.status == W.Complete ==> w.repo.feature == Refs.Direct(w.green) && e.commit == w.green
    ensures e.status == W.Complete ==> Refs.Snapshots(w.green, Refs.TreeOf(old(w.green)), w.originalHead)
    ensures w.green != w.originalHead
  {
    hide Refs.Went, Refs.Snapshots, Refs.TreeOf, Reach.Allowed;
    disposition := W.PreserveValidated;
    var stop := FinalSuite(rails, ctx);
    if stop.Some? {
      return stop.value, disposition;
    }
    var owned: bool, closed: bool := *, *;
    var r, _, _, _ := w.SquashValidated(owned);
    if !r.Squashed? {
      assert r != W.Nothing;
      return Preserving(BLANK, ErroredVerdict), disposition;
    }
    Refs.SnapshotIsOther(w.green, Refs.TreeOf(old(w.green)), w.originalHead);
    if !closed {
      return Preserving(BLANK, ErroredVerdict), disposition;
    }
    assert r.commit != "";
    var status, failed, _ := w.Land(r.commit, featureRef);
    e := BLANK.(commit := r.commit, status := status);
    if status == W.Complete {
      disposition := W.Landed;
      e := e.(verdict := if failed then ErroredVerdict else UnsealedVerdict, failed := failed);
      return;
    }
    assert status == W.Blocked;
    e := Preserving(e, BlockedVerdict);
  }

  lemma EndMeans(o: Outcome, s: State, findings: seq<Finding>, len: int)
    requires Ended(o, s, len) && ReadyMeans(o, findings) && findings != []
    ensures Rails.Sound(s.rails) && (o.kind == OutOfRails ==> Rails.Spent(s.rails))
    ensures o.kind == Ready ==>
      HasValidatedBatch(o.plan.batches) && !o.recoveryFailed && PassedCommits(o.plan.batches) != []
    ensures PassedCommits(o.plan.batches) != [] <==> HasValidatedBatch(o.plan.batches)
  {
    if PassedCommits(o.plan.batches) != [] { CommitMeansDone(o.plan.batches, len); }
    if HasValidatedBatch(o.plan.batches) { DoneMeansSomeCommit(o.plan.batches, len); }
  }

  /** Only a batch that is done claims a commit. */
  lemma {:induction false} CommitMeansDone(batches: seq<Batch>, len: int)
    requires BatchesAccepted(batches, len) && PassedCommits(batches) != []
    ensures HasValidatedBatch(batches)
  {
    var n := |batches| - 1;
    var b := batches[n];
    assert b in batches && BatchAccepted(b, len);
    if b.status == Done {
    } else {
      NotDone(b, len);
      assert BatchesAccepted(batches[..n], len) by { FewerAccepted(batches, n, len); }
      CommitMeansDone(batches[..n], len);
    }
  }

  lemma {:induction false} DoneMeansSomeCommit(batches: seq<Batch>, len: int)
    requires BatchesAccepted(batches, len) && HasValidatedBatch(batches)
    ensures PassedCommits(batches) != []
  {
    var n := |batches| - 1;
    if batches[n].status == Done {
      DoneMeansCommit(batches, len);
    } else {
      FewerAccepted(batches, n, len);
      hide BatchesAccepted;
      var b :| b in batches && b.status == Done;
      assert b in batches[..n];
      DoneMeansSomeCommit(batches[..n], len);
    }
  }

  /** The cleanup that follows keeps the run branch exactly when it has been reported. */
  method CleanUp(e: Execution, disposition: W.Disposition, w: W.Workspace) returns (ok: bool)
    requires w.repo.Valid() && (e.preserved <==> !w.MayDelete(disposition))
    modifies w, w.repo
    ensures w.repo.Valid() && w.green == old(w.green)
    ensures ok ==> w.repo.run == if e.preserved then Refs.Direct(w.green) else Refs.Missing
  {
    hide Refs.Went, Refs.Spares, Reach.Allowed;
    var done, _ := w.Cleanup(disposition);
    return done;
  }

  lemma FewerAccepted(batches: seq<Batch>, n: nat, len: int)
    requires BatchesAccepted(batches, len) && n <= |batches|
    ensures BatchesAccepted(batches[..n], len)
  {
    hide BatchAccepted;
  }

  lemma NotDone(b: Batch, len: int)
    requires BatchAccepted(b, len) && b.status != Done
    ensures CommitsOf(b.attempts) == []
  {
    hide FindingsAccepted, CanonicalPath, AttemptAccepted;
    assert StatusFits(b);
    var attempts := b.attempts;
    if |attempts| == 1 {
      assert attempts[..0] == [];
    } else if |attempts| == 2 {
      var first := attempts[..1];
      assert first[..0] == [] && first[0] == attempts[0] && attempts[0].status == AttemptFailed;
      assert CommitsOf(first) == CommitsOf(first[..0]) + CommitOf(first[0]);
      assert attempts[1].status != AttemptPassed && attempts[..|attempts| - 1] == first;
    }
  }
}
