/** The serial fix loop (internal/flywheel/engine.go). */
module Engine {
  import opened Options
  import opened Text
  import opened Sorting
  import opened Findings
  import opened Plan
  import opened Ledger
  import opened Ports
  import opened EngineState
  import opened Waves
  import opened ChangedFiles
  import opened ChangedPaths
  import Rails

  /** How `failAndReset` ended. */
  datatype Recovery = Recovered | WriteFailed | ResetFailed

  class Engine {
    var plan: Plan
    var persisted: Plan
    const ports: Ports
    const rails: Rails.Rails
    const ctx: Context

    ghost function S(): State
      reads this, ports, rails
    {
      State(plan, persisted, ports.published, ports.green, ports.runRef, ports.trace, rails.Fields())
    }

    ghost function Len(): int { ports.objectIDLength }

    constructor (ports: Ports, rails: Rails.Rails, ctx: Context)
      ensures this.ports == ports && this.rails == rails && this.ctx == ctx
      ensures plan == persisted == NO_PLAN
    {
      this.ports, this.rails, this.ctx := ports, rails, ctx;
      plan, persisted := NO_PLAN, NO_PLAN;
    }

    // ---- plans and outcomes

    method Persist() returns (r: WriteResult)
      requires BatchesAccepted(plan.batches, Len())
      modifies this`persisted, ports`published
      ensures S() == Persisted(old(S()), r)
    {
      r := ports.WritePlan(plan);
      if r != FailedUnpublished {
        persisted := plan;
      }
    }

    /** `engineOutcome` on the plan on disk. */
    method Finish(kind: OutcomeKind, failure: string, recoveryFailed: bool) returns (o: Outcome)
      modifies rails
      ensures OnlyTime(old(S()), S())
      ensures o == Outcome(kind, persisted, S().rails.iterations, Bounded(failure), recoveryFailed)
    {
      var now: int := *;
      var snapshot := rails.TakeSnapshot(now);
      return Outcome(kind, persisted, snapshot.iterations, Bounded(failure), recoveryFailed);
    }

    /** An error whose cleanup succeeded or is reported. */
    method FinishErrored(failure: string, recoveryFailed: bool) returns (o: Outcome)
      requires Safe(S(), Len())
      requires Accounted(persisted, S())
      requires (!recoveryFailed ==> S().runRef == S().green == PassedCommits(persisted.batches))
      modifies rails
      ensures OnlyTime(old(S()), S()) && Stopped(o, S(), Len())
    {
      hide Safe, PassedCommits;
      o := Finish(Errored, failure, recoveryFailed);
      TimeKeeps(old(S()), S(), Len());
    }

    method StopForContext() returns (o: Option<Outcome>)
      requires Calm(S(), Len())
      modifies rails, ctx
      ensures OnlyTime(old(S()), S()) && Calm(S(), Len())
      ensures (o.Some? <==> ctx.done) && (old(ctx.done) ==> ctx.done)
      ensures o.Some? ==> Stopped(o.value, S(), Len()) && !o.value.recoveryFailed
    {
      hide Disciplined, BatchesAccepted, PassedCommits, Quiescent;
      var cancelled := ctx.Cancelled();
      if !cancelled {
        return None;
      }
      var kind, failure := Errored, "context canceled";
      if ctx.railCause {
        rails.ObserveExecutionContext(true);
        kind, failure := OutOfRails, "execution rail exhausted";
      } else {
        var now: int := *;
        var admission := rails.AdmitLanding(now);
        if admission.Exhausted? {
          kind := OutOfRails;
        }
      }
      assert OnlyTime(old(S()), S()) && (kind == OutOfRails ==> Rails.Spent(S().rails));
      label timed:
      TimeKeeps(old(S()), S(), Len());
      var outcome := Finish(kind, failure, false);
      TimeKeeps(old@timed(S()), S(), Len());
      return Some(outcome);
    }

    method StopForRail() returns (o: Option<Outcome>)
      requires Calm(S(), Len())
      modifies rails
      ensures OnlyTime(old(S()), S()) && Calm(S(), Len())
      ensures o.Some? ==> Stopped(o.value, S(), Len()) && !o.value.recoveryFailed
    {
      hide Disciplined, BatchesAccepted, PassedCommits, Quiescent;
      var now: int := *;
      var admission := rails.AdmitLanding(now);
      label timed:
      TimeKeeps(old(S()), S(), Len());
      if admission == Rails.Admitted {
        return None;
      }
      var outcome := Finish(if admission.Exhausted? then OutOfRails else Errored, "execution rail exhausted", false);
      TimeKeeps(old@timed(S()), S(), Len());
      return Some(outcome);
    }

    // ---- the checkpoints of an attempt

    method FailAndReset(index: nat, n: int, failure: string) returns (r: Recovery)
      requires Active(S(), index, n, Len()) && !Blank(failure)
      modifies this, ports
      ensures Kept(S(), Len()) && S().rails == old(S().rails) && S().green == old(S().green)
      ensures S().plan == WithBatch(old(S()), index, Fail(old(S()).plan.batches[index], n, Bounded(failure))).plan
      ensures LaterUntried(S().plan.batches, index) && (n == 1 ==> Awaits(S().plan.batches[index], 2))
      ensures r != ResetFailed ==> S().runRef == S().green
      ensures r == Recovered ==> Calm(S(), Len()) && S().persisted == S().plan
      ensures SameAdmissions(old(S().trace), S().trace)
    {
      assert plan.batches[index].attempts != [];
      hide Kept, LaterUntried, Awaits, InAttempt, Blank, Bounded, Quiescent, SameAdmissions;
      ghost var len := Len();
      BoundedNonblank(failure);
      var reason := Bounded(failure);
      Failing(S(), index, n, reason, len);
      plan := plan.(batches := plan.batches[index := Fail(plan.batches[index], n, reason)]);
      assert S() == WithBatch(old(S()), index, Fail(old(S()).plan.batches[index], n, reason));
      label failed:
      KeptAccepts(S(), len);
      var write := Persist();
      PersistKeeps(old@failed(S()), write, len);
      label persisted:
      var ok := ports.ResetAttempt();
      assert S() == Happened(old@persisted(S()), Reset(ok), S().runRef);
      EventKeeps(old@persisted(S()), Reset(ok), S().runRef, len);
      return if !ok then ResetFailed else if write != Written then WriteFailed else Recovered;
    }

    method CheckpointContext(index: nat, n: int) returns (o: Option<Outcome>)
      requires Active(S(), index, n, Len())
      modifies this, ports, rails, ctx
      ensures o.None? ==> S() == old(S())
      ensures o.Some? ==> Stopped(o.value, S(), Len())
    {
      assert !Blank("context canceled") by { Nonblank("context canceled", 0); }
      hide Kept, Active, Blank, Bounded, Quiescent, SameAdmissions, Stopped, LaterUntried, Awaits;
      var cancelled := ctx.Cancelled();
      if !cancelled {
        return None;
      }
      var recovery := FailAndReset(index, n, "context canceled");
      if recovery != Recovered {
        KeptFacts(S(), Len());
        var outcome := FinishErrored("reset attempt", recovery == ResetFailed);
        return Some(outcome);
      }
      o := StopForContext();
    }

    method Checkpoint(index: nat, n: int) returns (o: Option<Outcome>)
      requires Active(S(), index, n, Len())
      modifies this, ports, rails, ctx
      ensures o.None? ==>
        OnlyTime(old(S()), S()) && Active(S(), index, n, Len()) && (old(Calm(S(), Len())) ==> Calm(S(), Len()))
      ensures o.Some? ==> Stopped(o.value, S(), Len())
    {
      assert !Blank("execution rail exhausted") by { Nonblank("execution rail exhausted", 0); }
      assert Rails.Sound(rails.Fields());
      hide Kept, InAttempt, Blank, Bounded, Quiescent, SameAdmissions, LaterUntried, Awaits;
      o := CheckpointContext(index, n);
      if o.Some? {
        return;
      }
      var now: int := *;
      var admission := rails.AdmitLanding(now);
      assert admission.Exhausted? ==> Rails.Spent(rails.Fields());
      TimeKeeps(old(S()), S(), Len());
      if admission == Rails.Admitted {
        return;
      }
      var recovery := FailAndReset(index, n, "execution rail exhausted");
      KeptFacts(S(), Len());
      if recovery != Recovered {
        var outcome := FinishErrored("reset attempt", recovery == ResetFailed);
        return Some(outcome);
      }
      label reset:
      var outcome := Finish(if admission.Exhausted? then OutOfRails else Errored, "execution rail exhausted", false);
      TimeKeeps(old@reset(S()), S(), Len());
      KeptFacts(S(), Len());
      return Some(outcome);
    }

    method AbortSemantic(index: nat, n: int, failure: string) returns (o: Option<Outcome>)
      requires Active(S(), index, n, Len()) && !Blank(failure)
      modifies this, ports, rails
      ensures o.Some? ==> Stopped(o.value, S(), Len())
      ensures o.None? ==> SameWork(old(S().plan), old(S().trace), S().plan, S().trace, index)
      ensures o.None? ==> Calm(S(), Len()) && S().persisted == S().plan && LaterUntried(S().plan.batches, index)
      ensures o.None? ==> |plan.batches[index].attempts| == n
      ensures o.None? ==> if n == 1 then Awaits(plan.batches[index], 2) else plan.batches[index].status == Stuck
    {
      hide Kept, Blank, Bounded, Quiescent, SameAdmissions, Stopped, LaterUntried;
      var recovery := FailAndReset(index, n, failure);
      assert SameWork(old(S().plan), old(S().trace), S().plan, S().trace, index);
      KeptFacts(S(), Len());
      if recovery != Recovered {
        var outcome := FinishErrored("reset attempt", recovery == ResetFailed);
        return Some(outcome);
      }
      if n == MAX_ATTEMPTS {
        Sticking(S(), index, Len());
        label failed:
        plan := plan.(batches := plan.batches[index := plan.batches[index].(status := Stuck)]);
        assert S() == WithBatch(old@failed(S()), index, plan.batches[index]);
        KeptAccepts(S(), Len());
        label stuck:
        var write := Persist();
        PersistKeeps(old@stuck(S()), write, Len());
        if write != Written {
          KeptFacts(S(), Len());
          var outcome := FinishErrored("write stuck plan", false);
          return Some(outcome);
        }
      }
      return None;
    }

    // ---- one attempt; a stage returns nothing when the attempt goes on

    /** The running record. */
    method Start(index: nat, n: int) returns (r: Option<AttemptResult>)
      requires Waiting(S(), index, n, Len())
      modifies this, ports, rails, ctx
      ensures r.None? ==> Active(S(), index, n, Len()) && Calm(S(), Len())
      ensures r.Some? ==> !r.value.Succeeded? && Resulted(r.value, S(), index, n, Len())
      ensures (r.Some? && r.value.StoppedBy?) || SameWork(old(S().plan), old(S().trace), S().plan, S().trace, index)
    {
      Beginning(S(), index, n, Len());
      WaitingFacts(S(), index, n, Len());
      ghost var before := plan.batches[index];
      hide Kept, Active, Waiting, Calm, Blank, Bounded, SameAdmissions, Stopped, LaterUntried, Awaits, InAttempt;
      plan := plan.(batches := plan.batches[index := Begin(plan.batches[index], n)]);
      assert S() == WithBatch(old(S()), index, Begin(before, n));
      assert SameWork(old(S().plan), old(S().trace), S().plan, S().trace, index);
      hide SameWork;
      label begun:
      ActiveFacts(S(), index, n, Len());
      var write := Persist();
      ActivePersists(old@begun(S()), write, index, n, Len());
      if write != Written {
        Nonblank("write running plan", 0);
        return Some(Broken("write running plan", false));
      }
      var stop := Checkpoint(index, n);
      return if stop.Some? then Some(StoppedBy(stop.value)) else None;
    }

    /** The brief.  Its identity checks never refuse a batch of the plan: it is built exactly if it fits its bounds. */
    method Brief(index: nat, n: int, fits: bool) returns (r: Option<AttemptResult>)
      requires Active(S(), index, n, Len()) && Assignable(plan.batches[index], ports.baseline)
      ensures r.None? <==> fits
      ensures r.Some? ==> r.value.Infrastructure? && Resulted(r.value, S(), index, n, Len())
    {
      hide Kept, InAttempt, Blank, Bounded, LaterUntried, IdentityAccepted;
      var identified := BriefAcceptsIdentity(plan.batches[index]);
      if !identified || !fits {
        Nonblank("build brief", 0);
        return Some(Broken("build brief", false));
      }
      return None;
    }

    /** The artifacts of the attempt and the snapshot that the agent is held to. */
    method Furnish(index: nat, n: int) returns (r: Option<AttemptResult>)
      requires Active(S(), index, n, Len()) && Calm(S(), Len())
      modifies this, ports, rails, ctx
      ensures r.None? ==> Active(S(), index, n, Len()) && Calm(S(), Len())
      ensures r.Some? ==> !r.value.Succeeded? && Resulted(r.value, S(), index, n, Len())
      ensures (r.Some? && r.value.StoppedBy?) || (plan == old(plan) && ports.trace == old(ports.trace))
    {
      hide Kept, Active, Calm, Blank, Stopped;
      var ok := ports.WriteBrief();
      if !ok {
        Nonblank("write brief", 0);
        return Some(Broken("write brief", false));
      }
      var stop := Checkpoint(index, n);
      if stop.Some? {
        return Some(StoppedBy(stop.value));
      }
      ok := ports.AdapterSink();
      if !ok {
        Nonblank("allocate adapter sink", 0);
        return Some(Broken("allocate adapter sink", false));
      }
      stop := Checkpoint(index, n);
      if stop.Some? {
        return Some(StoppedBy(stop.value));
      }
      ok := ports.SnapshotGitState();
      stop := Checkpoint(index, n);
      if stop.Some? {
        return Some(StoppedBy(stop.value));
      }
      if !ok {
        Nonblank("snapshot Git state", 0);
        return Some(Broken("snapshot Git state", false));
      }
      return None;
    }

    /** The agent's work, and what it did to the Git state. */
    method Launch(index: nat, n: int) returns (r: Option<AttemptResult>, ghost check: GitCheck)
      requires Active(S(), index, n, Len()) && Calm(S(), Len())
      modifies this, ports, rails, ctx
      ensures r.None? ==> Active(S(), index, n, Len()) && Untainted(ports.trace)
      ensures (r.Some? && r.value.StoppedBy?) || ports.trace == old(ports.trace) + [Event.Run, Checked(check)]
      ensures check == Restored ==> r.Some? && r.value.Semantic? && r.value.stopIfCancelled
      ensures check == Unsafe ==> r.Some? && r.value.Infrastructure? && !r.value.retryable
      ensures r.Some? ==> !r.value.Succeeded? && Resulted(r.value, S(), index, n, Len())
      ensures (r.Some? && r.value.StoppedBy?) || SameWork(old(S().plan), old(S().trace), S().plan, S().trace, index)
    {
      hide Kept, Safe, Active, Calm, Blank, Bounded, Stopped, SameWork, Quiescent, IdentityAccepted;
      CalmFacts(S(), Len());
      var run := ports.RunAdapter();
      Stepping(old(S()), Event.Run, S().runRef, index, n, Len());
      label ran:
      var verdict := ports.CheckGitState();
      check := verdict;
      Stepping(old@ran(S()), Checked(check), S().runRef, index, n, Len());
      UntaintedNext(old@ran(ports.trace), Checked(check));
      assert ports.trace == old(ports.trace) + [Event.Run, Checked(check)];
      SameWorkThen(old(S()).plan, old(S()).trace, old@ran(S()).plan, old@ran(S()).trace, plan, ports.trace, index);
      hide Untainted;
      if verdict != Untouched {
        Nonblank("check Git state", 0);
        r := Some(if verdict == Restored then Semantic("check Git state", true) else Broken("check Git state", false));
        return;
      }
      var stop := Checkpoint(index, n);
      if stop.Some? {
        r := Some(StoppedBy(stop.value));
        return;
      }
      if run.RunFailed? {
        Nonblank("adapter", 0);
        r := Some(Broken("adapter", run.retryable));
        return;
      }
      r := None;
    }

    /** What the agent changed, and whether it may be committed as it stands. */
    method Judge(index: nat, n: int) returns (r: Option<AttemptResult>, changed: seq<string>, proof: Proof)
      requires Active(S(), index, n, Len()) && Assignable(plan.batches[index], ports.baseline) && Untainted(ports.trace)
      modifies this, ports, rails, ctx
      ensures r.None? ==> Active(S(), index, n, Len()) && Vouched(ports.trace, proof)
      ensures r.None? ==> changed != [] && CanonicalPaths(changed)
      ensures r.Some? ==> !r.value.Succeeded? && Resulted(r.value, S(), index, n, Len())
      ensures (r.Some? && r.value.StoppedBy?) || SameWork(old(S().plan), old(S().trace), S().plan, S().trace, index)
    {
      hide Kept, Active, Calm, Blank, Stopped, SameWork, Quiescent;
      hide Assignable, CanonicalPaths, GitListed, ChangedPath, Vouched, Untainted, Primed;
      changed, proof := [], NoProof;
      SameWorkSelf(S(), index, n, Len());
      ActiveFacts(S(), index, n, Len());
      var inspected := ports.ChangedFiles();
      var stop := Checkpoint(index, n);
      if stop.Some? {
        return Some(StoppedBy(stop.value)), changed, proof;
      }
      if inspected.None? {
        Nonblank("inspect changed files", 0);
        return Some(Broken("inspect changed files", true)), changed, proof;
      }
      changed := inspected.value;
      if |changed| == 0 {
        Nonblank("agent produced no worktree changes", 0);
        return Some(Semantic("agent produced no worktree changes", false)), changed, proof;
      }
      ghost var begun := S();
      StillAssignable(old(S()).plan.batches[index], plan.batches[index], ports.baseline);
      r, proof := Stage(index, n, changed);
      if r.Some? {
        return;
      }
      ghost var staged := S();
      SameWorkFacts(begun.plan, begun.trace, staged.plan, staged.trace, index);
      StillAssignable(begun.plan.batches[index], plan.batches[index], ports.baseline);
      r := Weigh(index, n, proof);
      if r.None? { PassedPathsAreCanonical(changed); }
      if !(r.Some? && r.value.StoppedBy?) {
        SameWorkThen(begun.plan, begun.trace, staged.plan, staged.trace, plan, ports.trace, index);
      }
    }

    /** The evidence for one staged tree. */
    method Stage(index: nat, n: int, changed: seq<string>) returns (r: Option<AttemptResult>, proof: Proof)
      requires Active(S(), index, n, Len()) && Untainted(ports.trace)
      modifies this, ports, rails, ctx
      ensures r.None? ==> Active(S(), index, n, Len()) && Primed(ports.trace, proof)
      ensures r.None? && proof.Proof? ==> proof.changed == changed
      ensures r.Some? ==> !r.value.Succeeded? && Resulted(r.value, S(), index, n, Len())
      ensures (r.Some? && r.value.StoppedBy?) || SameWork(old(S().plan), old(S().trace), S().plan, S().trace, index)
    {
      proof := NoProof;
      ghost var begun := S();
      SameWorkSelf(begun, index, n, Len());
      hide Kept, Active, Calm, Blank, Bounded, Stopped, SameWork, Quiescent, Untainted;
      var prepared := ports.PrepareBatch(changed);
      if prepared.Some? {
        Stepping(begun, Prepared(prepared.value), S().runRef, index, n, Len());
        assert ports.trace[..|ports.trace| - 1] == begun.trace && Primed(ports.trace, prepared.value);
      }
      var stopped := CheckpointContext(index, n);
      if stopped.Some? {
        return Some(StoppedBy(stopped.value)), proof;
      }
      if prepared.None? {
        Nonblank("prepare batch proof", 0);
        return Some(Broken("prepare batch proof", true)), proof;
      }
      return None, prepared.value;
    }

    /** Validation, renewed verification of the proof, and what both amount to. */
    method Weigh(index: nat, n: int, proof: Proof) returns (r: Option<AttemptResult>)
      requires Active(S(), index, n, Len()) && Assignable(plan.batches[index], ports.baseline)
      requires Primed(ports.trace, proof)
      modifies this, ports, rails, ctx
      ensures r.None? ==> Active(S(), index, n, Len()) && Vouched(ports.trace, proof)
      ensures r.None? ==> proof.Proof? && PathsUsable(proof)
      ensures r.Some? ==> !r.value.Succeeded? && Resulted(r.value, S(), index, n, Len())
      ensures (r.Some? && r.value.StoppedBy?) || SameWork(old(S().plan), old(S().trace), S().plan, S().trace, index)
    {
      hide Kept, Safe, Active, Calm, Blank, Bounded, Stopped, SameWork, Quiescent;
      hide Assignable, Vouched, AttemptResultValid, PathsUsable, Primed;
      var validation, verified := Examine(index, n, proof);
      if !verified {
        Nonblank("verify batch proof", 0);
        validation := ValidationResult(InfrastructureFailure, "verify batch proof", [], NoProof);
        var cancelled := ctx.Cancelled();
        if cancelled {
          return Some(Broken("verify batch proof", false));
        }
      }
      var stop := Checkpoint(index, n);
      if stop.Some? {
        return Some(StoppedBy(stop.value));
      }
      validation := validation.(proof := if verified && validation.kind == Passed then proof else NoProof);
      r := Classify(index, n, validation);
      if r.Some? {
        return;
      }
      stop := Checkpoint(index, n);
      return if stop.Some? then Some(StoppedBy(stop.value)) else None;
    }

    /** The validators first, then the proof once more, so that nothing they did can be committed. */
    method Examine(index: nat, n: int, proof: Proof) returns (validation: ValidationResult, verified: bool)
      requires Active(S(), index, n, Len()) && Assignable(plan.batches[index], ports.baseline)
      requires Primed(ports.trace, proof)
      modifies ports`trace
      ensures Active(S(), index, n, Len()) && SameWork(old(S().plan), old(S().trace), S().plan, S().trace, index)
      ensures (validation.failure == "" || !Blank(validation.failure)) && AllSized(validation.findings)
      ensures verified && validation.kind == Passed && validation.findings == [] ==> Vouched(ports.trace, proof)
      ensures validation.kind == Passed ==> PathsUsable(proof)
    {
      hide Kept, Safe, Active, Calm, Blank, SameWork, Quiescent, IdentityAccepted, PathsUsable, Primed, Vouched;
      ghost var primed := ports.trace;
      ActiveFacts(S(), index, n, Len());
      validation := ports.Validate(plan.batches[index], proof);
      ghost var clean := validation.kind == Passed && validation.findings == [];
      Stepping(old(S()), Validated(clean), S().runRef, index, n, Len());
      label validated:
      verified := ports.VerifyBatch(proof);
      if clean && verified { PrimedVouches(primed, proof); }
      Stepping(old@validated(S()), Verified(proof, verified), S().runRef, index, n, Len());
      SameWorkThen(old(S()).plan, old(S()).trace, old@validated(S()).plan, old@validated(S()).trace, plan, ports.trace,
                   index);
    }

    /** What a validation result amounts to; only a pass without reservations goes on. */
    method Classify(index: nat, n: int, validation: ValidationResult) returns (r: Option<AttemptResult>)
      requires Active(S(), index, n, Len()) && AllSized(validation.findings)
      requires validation.failure == "" || !Blank(validation.failure)
      ensures r.None? ==> validation.kind == Passed && validation.findings == [] && validation.proof != NoProof
      ensures r.Some? ==> (r.value.Semantic? || r.value.Infrastructure?) && Resulted(r.value, S(), index, n, Len())
    {
      hide Kept, InAttempt, Blank, Bounded, LaterUntried, CanonicalList, AllSized;
      var classified, _ := BlockingMultiset(validation.findings);
      if !classified {
        Nonblank("classify validation findings", 0);
        return Some(Broken("classify validation findings", false));
      }
      if !AttemptResultValid(validation) {
        Nonblank("invalid batch validation", 0);
        return Some(Broken("invalid batch validation", false));
      }
      match validation.kind
      case SemanticFailure =>
        BoundedNonblank(validation.failure);
        return Some(Semantic(Bounded(validation.failure), false));
      case InfrastructureFailure =>
        return Some(Broken(validation.failure, true));
      case _ =>
        return None;
    }

    /** The commit and its record; without a durable record the commit is taken back. */
    method Record(index: nat, n: int, changed: seq<string>, proof: Proof) returns (r: AttemptResult)
      requires Active(S(), index, n, Len()) && Vouched(ports.trace, proof) && changed != [] && CanonicalPaths(changed)
      modifies this, ports, rails, ctx
      ensures Resulted(r, S(), index, n, Len())
      ensures r.StoppedBy? || SameWork(old(S().plan), old(S().trace), S().plan, S().trace, index)
    {
      ActiveFacts(S(), index, n, Len());
      ghost var begun := S();
      hide Kept, Safe, Calm, Active, Blank, Bounded, Quiescent, SameAdmissions;
      hide CanonicalPaths, Vouched, ValidObjectID, LaterUntried;
      hide SameWork, PassedCommits, Stopped, BatchesAccepted, InAttempt;
      var committed := ports.CommitBatch(plan.batches[index].primaryFile, proof);
      if committed.None? {
        assert S() == Happened(begun, Committed(proof, false), S().runRef);
        Stepping(begun, Committed(proof, false), S().runRef, index, n, Len());
        r := Uncommitted(index, n);
        return;
      }
      Recording(begun, index, n, changed, committed.value, proof, Len());
      plan := plan.(batches := plan.batches[index := Pass(plan.batches[index], n, changed, committed.value)]);
      assert S() == Recorded(begun, index, n, changed, committed.value, proof);
      ghost var recorded := S();
      hide Recorded, Persisted, OnlyTime, Resulted;
      r := Publish(committed.value);
      Believed(begun, recorded, r, S(), index, n, Len());
    }

    method Uncommitted(index: nat, n: int) returns (r: AttemptResult)
      requires Active(S(), index, n, Len())
      modifies this, ports, rails, ctx
      ensures !r.Succeeded? && Resulted(r, S(), index, n, Len()) && (!r.StoppedBy? ==> S() == old(S()))
    {
      hide Active, Blank, Bounded, Stopped;
      var stop := CheckpointContext(index, n);
      if stop.Some? {
        return StoppedBy(stop.value);
      }
      Nonblank("commit batch", 0);
      return Broken("commit batch", true);
    }

    /** The plan on disk does not claim the commit, so it is taken back. */
    method Compensate(commit: string) returns (o: Outcome)
      requires Safe(S(), Len()) && S().green == PassedCommits(persisted.batches) + [commit]
      modifies ports, rails
      ensures Stopped(o, S(), Len())
    {
      hide Safe, PassedCommits, Stopped;
      ghost var s := S();
      assert s.green[..|s.green| - 1] == PassedCommits(persisted.batches);
      var ok := ports.RollbackBatch(commit);
      RollingBack(s, ok, S().green, S().runRef, Len());
      o := FinishErrored("write completed plan", !ok);
    }

    /** The plan that claims the commit. */
    method Publish(commit: string) returns (r: AttemptResult)
      requires Safe(S(), Len()) && BatchesAccepted(plan.batches, Len()) && Calm(Persisted(S(), Written), Len())
      requires S().green == S().runRef == PassedCommits(persisted.batches) + [commit] == PassedCommits(plan.batches)
      modifies this, ports, rails, ctx
      ensures r.StoppedBy? || r.Succeeded?
      ensures r.StoppedBy? ==> Stopped(r.outcome, S(), Len())
      ensures r.Succeeded? ==> OnlyTime(Persisted(old(S()), Written), S()) && Calm(S(), Len())
    {
      hide Safe, Calm, Bounded, PassedCommits, Accounted;
      var write := Persist();
      if write == FailedUnpublished {
        var outcome := Compensate(commit);
        return StoppedBy(outcome);
      }
      CalmFacts(S(), Len());
      if write != Written {
        assert Accounted(persisted, S()) by { AccountedFor(persisted, S()); }
        var outcome := FinishErrored("write completed plan", false);
        return StoppedBy(outcome);
      }
      var stop := StopForContext();
      if stop.Some? {
        return StoppedBy(stop.value);
      }
      stop := StopForRail();
      return if stop.Some? then StoppedBy(stop.value) else Succeeded;
    }

    /** `batchAttempt.run` */
    method Attempt(index: nat, n: int) returns (r: AttemptResult)
      requires Waiting(S(), index, n, Len()) && Assignable(plan.batches[index], ports.baseline)
      modifies this, ports, rails, ctx
      ensures Resulted(r, S(), index, n, Len())
      ensures r.StoppedBy? || SameWork(old(S().plan), old(S().trace), S().plan, S().trace, index)
    {
      hide Kept, Calm, Waiting, Active, Blank, Assignable, Stopped, SameWork, Vouched, CanonicalPaths, LaterUntried;
      ghost var p, t := plan, ports.trace;
      var o := Start(index, n);
      if o.Some? {
        return o.value;
      }
      SameWorkFacts(p, t, plan, ports.trace, index);
      StillAssignable(p.batches[index], plan.batches[index], ports.baseline);
      var fits := ports.BriefFits();
      o := Brief(index, n, fits);
      if o.Some? {
        return o.value;
      }
      ghost var p1, t1 := plan, ports.trace;
      o := Furnish(index, n);
      if o.Some? {
        return o.value;
      }
      r := Work(index, n);
      if !r.StoppedBy? {
        SameWorkThen(p, t, p1, t1, plan, ports.trace, index);
      }
    }

    /** The part of an attempt that may change the worktree. */
    method Work(index: nat, n: int) returns (r: AttemptResult)
      requires Active(S(), index, n, Len()) && Calm(S(), Len()) && Assignable(plan.batches[index], ports.baseline)
      modifies this, ports, rails, ctx
      ensures Resulted(r, S(), index, n, Len())
      ensures r.StoppedBy? || SameWork(old(S().plan), old(S().trace), S().plan, S().trace, index)
    {
      ActiveFacts(S(), index, n, Len());
      hide Kept, Calm, Waiting, Active, Blank, Assignable;
      hide Stopped, SameWork, Vouched, CanonicalPaths, LaterUntried, Untainted;
      ghost var p, t := plan, ports.trace;
      var o, _ := Launch(index, n);
      if o.Some? {
        return o.value;
      }
      SameWorkFacts(p, t, plan, ports.trace, index);
      StillAssignable(p.batches[index], plan.batches[index], ports.baseline);
      ghost var p1, t1 := plan, ports.trace;
      var changed, proof;
      o, changed, proof := Judge(index, n);
      if !(o.Some? && o.value.StoppedBy?) {
        SameWorkThen(p, t, p1, t1, plan, ports.trace, index);
      }
      if o.Some? {
        return o.value;
      }
      ghost var p2, t2 := plan, ports.trace;
      r := Record(index, n, changed, proof);
      if !r.StoppedBy? {
        SameWorkThen(p, t, p2, t2, plan, ports.trace, index);
      }
    }

    /** Whether the rails let the batch have its n-th attempt. */
    method Admit(index: nat, n: int) returns (o: Option<Outcome>)
      requires Waiting(S(), index, n, Len()) && Matched(S())
      modifies ports, rails, ctx
      ensures o.Some? ==> Stopped(o.value, S(), Len())
      ensures o.None? ==> Waiting(S(), index, n, Len()) && AdmittedOnce(old(ports.trace), ports.trace, index)
    {
      WaitingFacts(S(), index, n, Len());
      CalmFacts(S(), Len());
      hide Kept, Calm, Stopped, Matched, Awaits, LaterUntried, AdmittedOnce;
      o := StopForContext();
      if o.Some? {
        return;
      }
      CalmFacts(S(), Len());
      ghost var waited := S();
      var now: int := *;
      var admission := rails.AdmitAttempt(now);
      RailsKeep(waited, rails.Fields(), Len());
      CalmFacts(S(), Len());
      if admission != Rails.Admitted {
        ghost var refused := S();
        var outcome := Finish(if admission.Exhausted? then OutOfRails else Errored, "execution rail exhausted", false);
        TimeKeeps(refused, S(), Len());
        CalmFacts(S(), Len());
        return Some(outcome);
      }
      ghost var counted := S();
      ports.NoteAdmission(index, n);
      assert S() == Happened(counted, Event.Admit(index, n), counted.runRef);
      Admitting(counted, index, n, Len());
      o := StopForContext();
    }

    /** What the loop makes of the result of an attempt; `again` when the batch gets another one. */
    method Conclude(index: nat, n: int, r: AttemptResult) returns (o: Option<Outcome>, again: bool)
      requires Resulted(r, S(), index, n, Len()) && 1 <= n <= MAX_ATTEMPTS
      modifies this, ports, rails, ctx
      ensures r.StoppedBy? ==> o.Some?
      ensures o.Some? ==> Stopped(o.value, S(), Len())
      ensures o.None? ==>
        SameWork(old(plan), old(ports.trace), plan, ports.trace, index) && |plan.batches[index].attempts| == n
      ensures o.None? ==> Calm(S(), Len()) && LaterUntried(plan.batches, index) && S().persisted == S().plan
      ensures o.None? ==> if again then n == 1 && Awaits(plan.batches[index], 2) else Finished(plan.batches[index])
    {
      hide Kept, Calm, Stopped, SameAdmissions, Blank, Bounded, LaterUntried;
      match r
      case Succeeded =>
        SameAdmissionsSelf(ports.trace);
        return None, false;
      case StoppedBy(outcome) =>
        return Some(outcome), false;
      case Semantic(failure, stopIfCancelled) =>
        o := AbortSemantic(index, n, failure);
        if o.Some? {
          return o, false;
        }
        CalmFacts(S(), Len());
        if stopIfCancelled {
          var cancelled := ctx.Cancelled();
          if cancelled {
            var outcome := FinishErrored(failure, false);
            return Some(outcome), false;
          }
        }
        return None, n != MAX_ATTEMPTS;
      case Infrastructure(failure, retryable) =>
        var recovery := FailAndReset(index, n, failure);
        KeptFacts(S(), Len());
        if recovery != Recovered || !retryable || n == MAX_ATTEMPTS {
          var outcome := FinishErrored(failure, recovery == ResetFailed);
          return Some(outcome), false;
        }
        return None, true;
    }

    /** One admitted attempt. */
    method TryOnce(index: nat, n: int) returns (o: Option<Outcome>, again: bool)
      requires Waiting(S(), index, n, Len()) && Assignable(plan.batches[index], ports.baseline) && Matched(S())
      modifies this, ports, rails, ctx
      ensures o.Some? ==> Stopped(o.value, S(), Len())
      ensures o.None? ==> Reworked(old(plan), plan, index) && Matched(S()) && S().persisted == S().plan
      ensures o.None? ==> Calm(S(), Len()) && LaterUntried(plan.batches, index)
      ensures o.None? ==> if again then n == 1 && Waiting(S(), index, 2, Len()) else Finished(plan.batches[index])
    {
      WaitingFacts(S(), index, n, Len());
      ghost var waiting := S();
      o := Admit(index, n);
      if o.Some? {
        return o, false;
      }
      hide Waiting, Assignable, Stopped, Matched, Reworked, AdmittedOnce;
      hide Resulted, SameWork, Calm, LaterUntried, Awaits, Finished;
      ghost var admitted := S();
      var r := Attempt(index, n);
      ghost var attempted := S();
      o, again := Conclude(index, n, r);
      if o.Some? {
        return;
      }
      SameWorkThen(admitted.plan, admitted.trace, attempted.plan, attempted.trace, S().plan, S().trace, index);
      Rematched(waiting, admitted.trace, S(), index, n, Len());
      SameWorkFacts(admitted.plan, admitted.trace, S().plan, S().trace, index);
      WaitingAgain(S(), index, Len());
    }

    /** At most two attempts, and the batch is done or stuck unless the loop stops here. */
    method ExecuteBatch(index: nat) returns (o: Option<Outcome>)
      requires Waiting(S(), index, 1, Len()) && Assignable(plan.batches[index], ports.baseline) && Matched(S())
      modifies this, ports, rails, ctx
      ensures o.Some? ==> Stopped(o.value, S(), Len())
      ensures o.None? ==> Reworked(old(plan), plan, index) && Finished(plan.batches[index])
      ensures o.None? ==>
        Calm(S(), Len()) && LaterUntried(plan.batches, index) && Matched(S()) && S().persisted == S().plan
    {
      WaitingFacts(S(), index, 1, Len());
      hide Kept, Calm, Assignable, Stopped, Matched, Reworked, LaterUntried;
      ghost var p := plan;
      ReworkedSelf(p, index);
      var number := 1;
      while true
        invariant 1 <= number <= MAX_ATTEMPTS && Matched(S()) && Reworked(p, plan, index)
        invariant Waiting(S(), index, number, Len())
        decreases MAX_ATTEMPTS - number
      {
        ghost var waiting := plan;
        ReworkedFacts(p, plan, index);
        StillAssignable(p.batches[index], plan.batches[index], ports.baseline);
        var again;
        o, again := TryOnce(index, number);
        if o.Some? {
          return;
        }
        ReworkedThen(p, waiting, plan, index);
        if !again {
          return;
        }
        number := number + 1;
      }
    }

    // ---- waves

    /** Every batch of the wave in turn. */
    method RunWave(waveStart: nat) returns (o: Option<Outcome>, waveStuck: bool)
      requires Calm(S(), Len()) && Matched(S()) && S().persisted == S().plan && Unstarted(plan.batches, waveStart)
      requires forall k :: waveStart <= k < |plan.batches| ==> Assignable(plan.batches[k], ports.baseline)
      modifies this, ports, rails, ctx
      ensures o.Some? ==> Stopped(o.value, S(), Len())
      ensures o.None? ==>
        Calm(S(), Len()) && Matched(S()) && S().persisted == S().plan && Continued(old(plan), plan, waveStart)
      ensures o.None? ==> Attempted(plan.batches, waveStart, waveStuck)
    {
      hide Kept, Calm, Assignable, Stopped, Matched, Awaits;
      ghost var p := plan;
      waveStuck := false;
      var index := waveStart;
      while index < |plan.batches|
        invariant waveStart <= index && Calm(S(), Len()) && Matched(S()) && S().persisted == S().plan
        invariant Continued(p, plan, waveStart) && Unstarted(plan.batches, index)
        invariant forall k :: waveStart <= k < index && k < |plan.batches| ==> Finished(plan.batches[k])
        invariant waveStuck <==>
          exists k :: waveStart <= k < index && k < |plan.batches| && plan.batches[k].status == Stuck
        decreases |plan.batches| - index
      {
        UnstartedWaits(S(), index, Len());
        StillAssignable(p.batches[index], plan.batches[index], ports.baseline);
        ghost var q := plan;
        o := ExecuteBatch(index);
        if o.Some? {
          return;
        }
        ContinuedBy(p, q, plan, waveStart, index);
        if plan.batches[index].status == Stuck {
          waveStuck := true;
        }
        index := index + 1;
      }
      o := None;
    }

    /** `evaluateBarrier`: a verdict, or strictly fewer blockers to go on with. */
    method EvaluateBarrier(barrier: ValidationResult, before: map<string, int>, waveStuck: bool,
                           ghost left: multiset<string>)
      returns (o: Option<Outcome>, after: map<string, int>)
      requires Calm(S(), Len()) && Counts(before, left) && AllSized(barrier.findings)
      modifies this, ports, rails, ctx
      ensures o.Some? ==> Ended(o.value, S(), Len())
      ensures o.Some? && o.value.kind == Ready ==>
        && !waveStuck && barrier.kind == Passed && Bag(barrier.findings) == multiset{}
        && plan == old(plan) && o.value.plan == plan && !o.value.recoveryFailed
      ensures o.None? ==>
        Calm(S(), Len()) && S().plan == old(S().plan) && S().persisted == S().plan && ports.trace == old(ports.trace)
      ensures o.None? ==> !waveStuck && Counts(after, Bag(barrier.findings)) && Bag(barrier.findings) < left
    {
      hide Kept, Calm, Bounded, Bag, AllSized;
      after := map[];
      ghost var began := S();
      var verdict, cancelled;
      verdict, after, cancelled := Assess(barrier, before, waveStuck, left);
      ghost var assessed := S();
      CalmFacts(S(), Len());
      var write := Persist();
      CalmPersists(assessed, write, Len());
      CalmFacts(S(), Len());
      if write != Written {
        var outcome := FinishErrored("write barrier plan", false);
        return Some(outcome), after;
      }
      if cancelled {
        o := StopForContext();
        return;
      }
      if verdict.Some? {
        ghost var persisted := S();
        var outcome := Finish(verdict.value.0, verdict.value.1, false);
        TimeKeeps(persisted, S(), Len());
        CalmFacts(S(), Len());
        return Some(outcome), after;
      }
      o := None;
    }

    /** One turn of the loop: the batches of a wave, the barrier, and the next wave. */
    method Turn(waveStart: nat, blockers: map<string, int>, ghost waves: seq<seq<Finding>>,
                ghost left: multiset<string>)
      returns (o: Option<Outcome>, fewer: map<string, int>, ghost next: seq<seq<Finding>>, ghost rest: multiset<string>)
      requires Going(S(), waves, ports.baseline, left, waveStart, Len()) && Counts(blockers, left)
      modifies this, ports, rails, ctx
      ensures o.Some? ==> Ended(o.value, S(), Len()) && (o.value.kind == Ready ==> AllDone(o.value, old(plan)))
      ensures o.None? ==>
        Going(S(), next, ports.baseline, rest, old(|plan.batches|), Len()) && Counts(fewer, rest) && rest < left
      ensures o.None? ==> |plan.batches| >= old(|plan.batches|)
    {
      ghost var p := plan;
      fewer, next, rest := map[], [], multiset{};
      GoingFacts(S(), waves, ports.baseline, left, waveStart, Len());
      hide Calm, Matched, Lineage, Going, Assignable, Continued, Bag;
      hide AllSized, AllInGo, Stopped, Finished, Unstarted, Counts, Ended, AllDone;
      var waveStuck;
      o, waveStuck := FinishWave(waveStart);
      if o.Some? {
        StoppedFacts(o.value, S(), Len());
        return;
      }
      var barrier := ports.Barrier();
      o, fewer := EvaluateBarrier(barrier, blockers, waveStuck, left);
      if o.Some? {
        if o.value.kind == Ready {
          WaveDone(p, plan, waveStart, waveStuck, o.value);
        }
        return;
      }
      WaveFinished(p, plan, waveStart, waveStuck);
      LineageContinues(p, plan, waveStart, waves, ports.baseline, left);
      o, next, rest := AppendWave(barrier, waves, left);
      if o.Some? {
        StoppedFacts(o.value, S(), Len());
      }
    }

    /** Every batch of the wave, and one more look at the rails. */
    method FinishWave(waveStart: nat) returns (o: Option<Outcome>, waveStuck: bool)
      requires Calm(S(), Len()) && Matched(S()) && S().persisted == S().plan && Unstarted(plan.batches, waveStart)
      requires forall k :: waveStart <= k < |plan.batches| ==> Assignable(plan.batches[k], ports.baseline)
      modifies this, ports, rails, ctx
      ensures o.Some? ==> Stopped(o.value, S(), Len())
      ensures o.None? ==>
        Calm(S(), Len()) && Matched(S()) && S().persisted == S().plan && Continued(old(plan), plan, waveStart)
      ensures o.None? ==> Attempted(plan.batches, waveStart, waveStuck)
    {
      hide Calm, Matched, Assignable, Continued, Stopped, Finished, Unstarted;
      o, waveStuck := RunWave(waveStart);
      if o.Some? {
        return;
      }
      ghost var ran := S();
      o := StopForContext();
      if o.Some? {
        return;
      }
      o := StopForRail();
      if o.Some? {
        return;
      }
      TimeMatched(ran, S());
    }

    /** The next wave joins the plan. */
    method AppendWave(barrier: ValidationResult, ghost waves: seq<seq<Finding>>, ghost left: multiset<string>)
      returns (o: Option<Outcome>, ghost next: seq<seq<Finding>>, ghost rest: multiset<string>)
      requires Calm(S(), Len()) && Matched(S()) && S().persisted == S().plan && left <= ports.baseline
      requires Lineage(plan.batches, waves, ports.baseline, left) && forall b :: b in plan.batches ==> b.status == Done
      requires Bag(barrier.findings) < left && AllSized(barrier.findings) && AllInGo(barrier.findings)
      modifies this, ports, rails
      ensures o.Some? ==> Stopped(o.value, S(), Len())
      ensures o.None? ==>
        Going(S(), next, ports.baseline, rest, old(|plan.batches|), Len()) && rest == Bag(barrier.findings)
      ensures o.None? ==> |plan.batches| >= old(|plan.batches|)
    {
      hide Kept, Calm, Matched, Lineage, Going, Assignable, Bag, AllSized, AllInGo;
      hide Stopped, CanonicalList, Ordering, WavePlan, PassedCommits;
      hide BatchesAccepted, Unstarted, Safe, Repeat, Persisted;
      CalmFacts(S(), Len());
      next, rest := [], Bag(barrier.findings);
      var planned, wave;
      ghost var ordered;
      planned, wave, ordered := NewPlan(barrier.findings);
      if !planned {
        var outcome := FinishErrored("create next plan wave", false);
        return Some(outcome), next, rest;
      }
      ghost var before := S();
      next := waves + Repeat(ordered, |wave.batches|);
      Growing(before, waves, ports.baseline, left, barrier.findings, ordered, wave.batches, Len());
      plan := plan.(batches := plan.batches + wave.batches);
      assert S() == Grown(before, wave.batches);
      o := PersistWave();
      if o.None? {
        assert S() == Persisted(Grown(before, wave.batches), Written);
        Resumed(before, S(), wave.batches, next, ports.baseline, rest, Len());
      }
    }

    method PersistWave() returns (o: Option<Outcome>)
      requires Calm(S(), Len())
      modifies this`persisted, ports`published, rails
      ensures o.Some? ==> Stopped(o.value, S(), Len())
      ensures o.None? ==> Calm(S(), Len()) && S() == Persisted(old(S()), Written)
    {
      hide Calm;
      CalmFacts(S(), Len());
      var write := Persist();
      CalmPersists(old(S()), write, Len());
      CalmFacts(S(), Len());
      if write != Written {
        var outcome := FinishErrored("write next plan wave", false);
        return Some(outcome);
      }
      o := None;
    }

    /** The first wave, and turn after turn. */
    method RunWaves(ghost findings: seq<Finding>, ghost ordered: seq<Finding>, first: Plan, counts: map<string, int>)
      returns (o: Outcome)
      requires Calm(S(), Len()) && plan == persisted == NO_PLAN && ports.trace == []
      requires Ordering(findings, ordered) && WavePlan(ordered, first.batches)
      requires CanonicalList(findings) && AllSized(findings) && AllInGo(findings)
      requires Counts(counts, Bag(findings)) && ports.baseline == Bag(findings)
      modifies this, ports, rails, ctx
      ensures Ended(o, S(), Len()) && ReadyMeans(o, findings)
    {
      hide Kept, Calm, Matched, Lineage, Going, Bag, AllSized;
      hide AllInGo, Stopped, CanonicalList, Ordering, WavePlan, PassedCommits, BatchesAccepted, ReadyMeans;
      ghost var left := Bag(findings);
      FirstWave(S(), findings, ordered, first, Len());
      ghost var entered := S();
      plan := first;
      assert S() == entered.(plan := first);
      var stop := StopForContext();
      if stop.Some? {
        StoppedMeans(stop.value, S(), Len(), findings);
        return stop.value;
      }
      stop := StopForRail();
      if stop.Some? {
        StoppedMeans(stop.value, S(), Len(), findings);
        return stop.value;
      }
      ghost var checked := S();
      CalmFacts(S(), Len());
      var write := Persist();
      CalmPersists(checked, write, Len());
      CalmFacts(S(), Len());
      if write != Written {
        o := FinishErrored("write plan", false);
        StoppedMeans(o, S(), Len(), findings);
        return;
      }
      var waveStart: nat, blockers := 0, counts;
      ghost var waves := Repeat(ordered, |first.batches|);
      FirstGoing(S(), findings, ordered, first, Len());
      while true
        invariant Going(S(), waves, ports.baseline, left, waveStart, Len()) && Counts(blockers, left)
        invariant |plan.batches| >= |first.batches|
        decreases |left|
      {
        ghost var was := plan;
        var waveEnd := |plan.batches|;
        ghost var rest;
        var fewer;
        stop, fewer, waves, rest := Turn(waveStart, blockers, waves, left);
        if stop.Some? {
          TurnMeans(stop.value, was, S(), findings, ordered, first, Len());
          return stop.value;
        }
        ShrinkingIsSmaller(rest, left);
        waveStart, blockers, left := waveEnd, fewer, rest;
      }
    }

    /** The stops before there is a plan. */
    method Enter() returns (o: Option<Outcome>)
      requires Calm(S(), Len())
      modifies rails, ctx
      ensures o.None? ==> OnlyTime(old(S()), S()) && Calm(S(), Len())
      ensures o.Some? ==> Stopped(o.value, S(), Len())
    {
      CalmFacts(S(), Len());
      hide Kept, Calm;
      o := StopForContext();
      if o.Some? {
        return;
      }
      o := StopForRail();
      if o.Some? {
        return;
      }
      ghost var checked := S();
      var now: int := *;
      var admission := rails.ExecutionContext(now);
      TimeKeeps(checked, S(), Len());
      if admission != Rails.Admitted {
        ghost var refused := S();
        var outcome := Finish(OutOfRails, "execution rail exhausted", false);
        TimeKeeps(refused, S(), Len());
        CalmFacts(S(), Len());
        return Some(outcome);
      }
    }

    /** The verdict on the result of the barrier; none when the next wave may start. */
    method Assess(barrier: ValidationResult, before: map<string, int>, waveStuck: bool, ghost left: multiset<string>)
      returns (verdict: Option<(OutcomeKind, string)>, after: map<string, int>, cancelled: bool)
      requires Calm(S(), Len()) && Counts(before, left) && AllSized(barrier.findings)
      modifies rails, ctx
      ensures OnlyTime(old(S()), S()) && Calm(S(), Len()) && (cancelled ==> ctx.done)
      ensures verdict.Some? && verdict.value.0 == OutOfRails ==> Rails.Spent(S().rails)
      ensures verdict.Some? && verdict.value.0 == Ready ==>
        !waveStuck && barrier.kind == Passed && Bag(barrier.findings) == multiset{}
      ensures verdict.None? && !cancelled ==>
        !waveStuck && Counts(after, Bag(barrier.findings)) && Bag(barrier.findings) < left
    {
      CalmFacts(S(), Len());
      hide Kept, Calm, Bag, AllSized, CanonicalList;
      after := map[];
      cancelled := ctx.Cancelled();
      if cancelled {
        return None, after, cancelled;
      }
      var now: int := *;
      var admission := rails.AdmitLanding(now);
      TimeKeeps(old(S()), S(), Len());
      if admission != Rails.Admitted {
        return Some((if admission.Exhausted? then OutOfRails else Errored, "execution rail exhausted")), after, false;
      }
      var classified, counts := BlockingMultiset(barrier.findings);
      if !classified {
        return Some((Errored, "classify barrier blockers")), after, false;
      }
      if !BarrierResultValid(barrier) {
        return Some((Errored, "invalid barrier validation")), after, false;
      }
      after := counts;
      if barrier.kind == InfrastructureFailure {
        return Some((Errored, barrier.failure)), after, false;
      }
      if barrier.kind == SemanticFailure {
        return Some((Blocked, barrier.failure)), after, false;
      }
      if waveStuck {
        return Some((Blocked, "one or more batches are stuck")), after, false;
      }
      if |after| == 0 {
        NothingCounted(after, Bag(barrier.findings));
        return Some((Ready, "")), after, false;
      }
      var shrinks := StrictlyShrinks(after, before, Bag(barrier.findings), left);
      if !shrinks {
        return Some((Blocked, "blocking findings did not strictly shrink")), after, false;
      }
      return None, after, false;
    }
  }

  /** A revision as Git writes it. */
  predicate ValidRevision(revision: string) {
    (|revision| == 40 || |revision| == 64) && forall c :: c in revision ==> HexDigit(c) || 'A' <= c <= 'F'
  }

  /** The world after a run, as its outcome sees it. */
  ghost function World(o: Outcome, ports: Ports, rails: Rails.Rails): State
    reads ports, rails
  {
    State(o.plan, o.plan, ports.published, ports.green, ports.runRef, ports.trace, rails.Fields())
  }

  /** Runs batches wave by wave until the barrier is clean or the run must end. */
  method Execute(mergeBase: string, originalHead: string, findings: seq<Finding>, ports: Ports, rails: Rails.Rails,
                 ctx: Context)
    returns (o: Outcome)
    requires ports.published == NO_PLAN && ports.green == ports.runRef == [] && ports.trace == []
    requires ports.baseline == Bag(findings) && Rails.Sound(rails.Fields()) && AllSized(findings) && AllInGo(findings)
    modifies ports, rails, ctx
    ensures Ended(o, World(o, ports, rails), ports.objectIDLength) && ReadyMeans(o, findings)
  {
    hide Bag, AllSized, AllInGo, Calm, Matched;
    var engine := new Engine(ports, rails, ctx);
    NothingYet(engine.S(), engine.Len());
    if !ValidRevision(mergeBase) || !ValidRevision(originalHead) {
      o := engine.FinishErrored("object ID required", false);
      return;
    }
    var stop := engine.Enter();
    if stop.Some? {
      return stop.value;
    }
    var planned, plan;
    ghost var ordered;
    planned, plan, ordered := NewPlan(findings);
    var classified, blockers := BlockingMultiset(findings);
    if !planned || !classified {
      o := engine.FinishErrored("create initial plan", false);
      return;
    }
    o := engine.RunWaves(findings, ordered, plan, blockers);
  }

  lemma NothingCounted(counts: map<string, int>, bag: multiset<string>)
    requires Counts(counts, bag) && |counts| == 0
    ensures bag == multiset{}
  {
    forall p ensures p !in bag {
      assert p !in counts;
    }
  }
}
