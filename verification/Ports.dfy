/** The side effects of the fix loop: what the engine may assume of them, and what it must have done
    before it uses them (internal/flywheel/engine.go:17-58). */
module Ports {
  import opened Options
  import opened Text
  import opened Findings
  import opened Plan
  import opened Ledger
  import opened ChangedPaths
  import Status = ChangedFiles

  /** Evidence that binds an attempt to one staged tree and to the paths it changes. */
  datatype Proof = NoProof | Proof(id: int, changed: seq<string>)

  /** The validator has been through the paths that the proof is about. */
  ghost predicate PathsUsable(proof: Proof) {
    proof.Proof? ==> forall f :: f in proof.changed ==> ChangedPath(f)
  }

  datatype ValidationKind = Passed | SemanticFailure | InfrastructureFailure | UnknownKind

  datatype ValidationResult = ValidationResult(kind: ValidationKind, failure: string, findings: seq<Finding>,
                                               proof: Proof)

  /** A failed write may still have replaced the plan on disk. */
  datatype WriteResult = Written | FailedUnpublished | FailedPublished

  datatype RunResult = RanWell | RunFailed(retryable: bool)

  datatype GitCheck = Untouched | Restored | Unsafe

  // ---- the trace

  datatype Event =
    | Admit(index: nat, number: int)
    | Run
    | Checked(result: GitCheck)
    | Prepared(proof: Proof)
    | Validated(passed: bool)
    | Verified(proof: Proof, ok: bool)
    | Committed(proof: Proof, ok: bool)
    | Reset(ok: bool)
    | RolledBack(ok: bool)

  /** Nothing an agent did is left in the worktree: the last run has been committed or reset. */
  ghost predicate Quiescent(trace: seq<Event>)
    decreases |trace|, 0
  {
    trace == [] || Settled(trace[..|trace| - 1], trace[|trace| - 1])
  }

  ghost predicate Settled(before: seq<Event>, e: Event)
    decreases |before|, 1
  {
    e != Run && ((e.Committed? && e.ok) || (e.Reset? && e.ok) || Quiescent(before))
  }

  /** The Git check of the last agent run found nothing touched. */
  predicate Untainted(trace: seq<Event>) {
    trace != [] && trace[|trace| - 1] != Run
    && (if trace[|trace| - 1].Checked? then trace[|trace| - 1].result == Untouched else Untainted(trace[..|trace| - 1]))
  }

  lemma UntaintedNext(trace: seq<Event>, e: Event)
    requires e != Run
    ensures Untainted(trace + [e]) <==> if e.Checked? then e.result == Untouched else Untainted(trace)
  {
    assert (trace + [e])[..|trace|] == trace;
  }

  /** The trace ends with a preparation after an agent run that has left the Git state alone. */
  ghost predicate Primed(trace: seq<Event>, proof: Proof) {
    trace != [] && trace[|trace| - 1] == Prepared(proof) && Untainted(trace[..|trace| - 1])
  }

  /** The trace ends with such a preparation, a validation without objection and a renewed verification of one proof. */
  ghost predicate Vouched(trace: seq<Event>, proof: Proof) {
    && |trace| >= 3 && Primed(trace[..|trace| - 2], proof)
    && trace[|trace| - 2] == Validated(true)
    && trace[|trace| - 1] == Verified(proof, true)
  }

  lemma PrimedVouches(trace: seq<Event>, proof: Proof)
    requires Primed(trace, proof)
    ensures Vouched(trace + [Validated(true)] + [Verified(proof, true)], proof)
  {
    hide Untainted;
    var vouched := trace + [Validated(true)] + [Verified(proof, true)];
    assert vouched[..|vouched| - 2] == trace;
  }

  function AdmitsBatch(e: Event, index: nat): nat {
    if e.Admit? && e.index == index then 1 else 0
  }

  ghost function Admissions(trace: seq<Event>, index: nat): nat {
    if trace == [] then 0 else Admissions(trace[..|trace| - 1], index) + AdmitsBatch(trace[|trace| - 1], index)
  }

  /** Every commit was vouched for in its own attempt, whose agent had left the Git state alone, no agent ran on top
      of another's leftovers, and no batch was admitted more than twice. */
  ghost predicate Disciplined(trace: seq<Event>) {
    && (forall i :: 0 <= i < |trace| && trace[i].Committed? ==> Vouched(trace[..i], trace[i].proof))
    && (forall i :: 0 <= i < |trace| && trace[i] == Run ==> Quiescent(trace[..i]))
    && (forall index: nat :: Admissions(trace, index) <= 2)
  }

  lemma Extend(trace: seq<Event>, e: Event)
    requires Disciplined(trace)
    requires e.Committed? ==> Vouched(trace, e.proof)
    requires e == Run ==> Quiescent(trace)
    requires e.Admit? ==> Admissions(trace, e.index) <= 1
    ensures Disciplined(trace + [e])
    ensures forall index: nat :: Admissions(trace + [e], index) == Admissions(trace, index) + AdmitsBatch(e, index)
    ensures Quiescent(trace + [e]) == Settled(trace, e)
  {
    var next := trace + [e];
    assert next[..|trace|] == trace;
    forall index: nat ensures Admissions(next, index) == Admissions(trace, index) + AdmitsBatch(e, index) { }
    hide Vouched, Quiescent;
    forall i | 0 <= i < |next| && next[i].Committed? ensures Vouched(next[..i], next[i].proof) {
      if i < |trace| { assert next[..i] == trace[..i]; }
    }
    forall i | 0 <= i < |next| && next[i] == Run ensures Quiescent(next[..i]) {
      if i < |trace| { assert next[..i] == trace[..i]; }
    }
  }

  // ---- the ports

  /** A context that may be cancelled at any moment and then stays so. */
  class Context {
    var done: bool
    var railCause: bool

    constructor ()
    {
      done, railCause := *, *;
    }

    /** `ctx.Err() != nil` */
    method Cancelled() returns (r: bool)
      modifies this
      ensures r == done && (old(done) ==> done && railCause == old(railCause))
    {
      if !done {
        done, railCause := *, *;
      }
      return done;
    }
  }

  /** The owned worktree, the private ledger, the agent and the validators.
      `published` is the plan on disk, `green` the commits the workspace vouches for, and `runRef` the
      commits actually on the run branch, both since the original HEAD. */
  class Ports {
    const objectIDLength: int
    ghost const baseline: multiset<string>
    ghost var published: Plan
    ghost var green: seq<string>
    ghost var runRef: seq<string>
    ghost var trace: seq<Event>

    ghost constructor (objectIDLength: int, baseline: multiset<string>)
      ensures published == NO_PLAN && green == runRef == [] && trace == []
      ensures this.objectIDLength == objectIDLength && this.baseline == baseline
    {
      this.objectIDLength, this.baseline := objectIDLength, baseline;
      published, green, runRef, trace := NO_PLAN, [], [], [];
    }

    /** Replaces the plan on disk, completely or not at all. */
    method WritePlan(plan: Plan) returns (r: WriteResult)
      requires BatchesAccepted(plan.batches, objectIDLength)
      modifies this`published
      ensures published == if r == FailedUnpublished then old(published) else plan
    {
      r := *;
      published := if r == FailedUnpublished then published else plan;
    }

    /** The rails let a batch have another attempt; recorded for the trace only. */
    ghost method NoteAdmission(index: nat, number: int)
      modifies this`trace
      ensures trace == old(trace) + [Admit(index, number)]
    {
      trace := trace + [Admit(index, number)];
    }

    /** Artifacts outside the repository and read-only snapshots: they succeed or fail, and change nothing here. */
    method WriteBrief() returns (ok: bool) { ok := *; }
    method AdapterSink() returns (ok: bool) { ok := *; }
    method SnapshotGitState() returns (ok: bool) { ok := *; }

    /** Briefs may be refused for their size. */
    method BriefFits() returns (ok: bool) { ok := *; }

    /** The agent may do anything to the repository, including to the run branch. */
    method RunAdapter() returns (r: RunResult)
      requires Quiescent(trace)
      modifies this`trace, this`runRef
      ensures trace == old(trace) + [Run]
    {
      r, runRef := *, *;
      trace := trace + [Run];
    }

    /** The verdict on what the agent did to the Git state. */
    method CheckGitState() returns (r: GitCheck)
      modifies this`trace, this`runRef
      ensures trace == old(trace) + [Checked(r)]
    {
      r, runRef := *, *;
      trace := trace + [Checked(r)];
    }

    /** The paths that differ from the latest green commit, as the status names them. */
    method ChangedFiles() returns (r: Option<seq<string>>)
      ensures r.Some? ==> Status.GitListed(r.value)
    {
      var output: string := *;
      var ok: bool := *;
      r := Status.ParseChangedFiles(output);
      return if ok then r else None;
    }

    method PrepareBatch(changed: seq<string>) returns (r: Option<Proof>)
      modifies this`trace
      ensures r.Some? ==> trace == old(trace) + [Prepared(r.value)]
      ensures r.Some? && r.value.Proof? ==> r.value.changed == changed
      ensures r.None? ==> trace == old(trace)
    {
      var id: int := *;
      var ok: bool, present: bool := *, *;
      r := if !ok then None else if present then Some(Proof(id, changed)) else Some(NoProof);
      if r.Some? {
        trace := trace + [Prepared(r.value)];
      }
    }

    /** A reason, when there is one, is not blank; what is found fits Go's types; nothing passes without its paths
        having been looked at. */
    method Validate(batch: Batch, proof: Proof) returns (r: ValidationResult)
      requires Bag(batch.findings) <= baseline
      modifies this`trace
      ensures trace == old(trace) + [Validated(r.kind == Passed && r.findings == [])]
      ensures (r.failure == "" || !Blank(r.failure)) && AllSized(r.findings)
      ensures r.kind == Passed ==> PathsUsable(proof)
    {
      hide ChangedPath;
      r := AnyValidation();
      var usable := UsablePaths(if proof.Proof? then proof.changed else []);
      if r.kind == Passed && !usable {
        r := r.(kind := UnknownKind);
      }
      trace := trace + [Validated(r.kind == Passed && r.findings == [])];
    }

    method VerifyBatch(proof: Proof) returns (ok: bool)
      modifies this`trace
      ensures trace == old(trace) + [Verified(proof, ok)]
    {
      ok := *;
      trace := trace + [Verified(proof, ok)];
    }

    /** A commit is added to the run branch, or the run branch may be anything. */
    method CommitBatch(primaryFile: string, proof: Proof) returns (r: Option<string>)
      requires Vouched(trace, proof)
      modifies this`trace, this`runRef, this`green
      ensures trace == old(trace) + [Committed(proof, r.Some?)]
      ensures r.Some? ==>
        ValidObjectID(r.value) && |r.value| == objectIDLength && green == runRef == old(green) + [r.value]
      ensures r.None? ==> green == old(green)
    {
      var ok: bool := *;
      var commit: string := *;
      if ok && ValidObjectID(commit) && |commit| == objectIDLength {
        r := Some(commit);
        green := green + [commit];
        runRef := green;
      } else {
        r := None;
        runRef := *;
      }
      trace := trace + [Committed(proof, r.Some?)];
    }

    /** Back to the latest green commit, run branch included. */
    method ResetAttempt() returns (ok: bool)
      modifies this`trace, this`runRef
      ensures trace == old(trace) + [Reset(ok)]
      ensures ok ==> runRef == green
    {
      ok := *;
      runRef := *;
      if ok {
        runRef := green;
      }
      trace := trace + [Reset(ok)];
    }

    /** Takes the latest green commit back. */
    method RollbackBatch(commit: string) returns (ok: bool)
      requires green != [] && green[|green| - 1] == commit
      modifies this`trace, this`runRef, this`green
      ensures trace == old(trace) + [RolledBack(ok)]
      ensures ok ==> green == runRef == old(green)[..|old(green)| - 1]
      ensures green == old(green) || green == old(green)[..|old(green)| - 1]
    {
      ok := *;
      var moved: bool := *;
      if ok || moved {
        green := green[..|green| - 1];
      }
      runRef := *;
      if ok {
        runRef := green;
      }
      trace := trace + [RolledBack(ok)];
    }

    /** All gates on the latest green tree. */
    method Barrier() returns (r: ValidationResult)
      ensures AllSized(r.findings) && AllInGo(r.findings)
    {
      r := AnyValidation();
    }

    /** Stands for any validator; callers know no more of it than the contract. */
    method AnyValidation() returns (r: ValidationResult)
      ensures (r.failure == "" || !Blank(r.failure)) && AllSized(r.findings) && AllInGo(r.findings)
    {
      var kind: ValidationKind := *;
      var failure: string := *;
      var proof: Proof := *;
      return ValidationResult(kind, if Blank(failure) then "" else failure, [], proof);
    }
  }
}
