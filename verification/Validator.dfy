/** How one attempt is judged (internal/flywheel/validate.go:55-190): integrity, gates, progress and the local suite. */
module Validator {
  import opened Options
  import opened Text
  import opened Findings
  import opened Plan
  import opened Ports
  import opened EngineState
  import opened ChangedPaths

  /** What the callbacks answer.  No integrity findings, no packages, and no gate errors are the empty case.  The last
      fields are the obstacles: the validation module is confined, the packages of the changed files can be told, the
      evidence and that of the gates is within bounds, and the proof verifies again after integrity, gates and suite and
      at the end. */
  datatype Evidence = Evidence(
    changed: seq<string>, packages: seq<string>, full: bool, integrity: Option<seq<Finding>>,
    blocking: seq<Finding>, gateErrors: seq<string>, suitePassed: bool, suiteBroken: bool,
    confined: bool, selected: bool, bounded: bool, gatesBounded: bool,
    verifiedIntegrity: bool, verifiedGates: bool, verifiedSuite: bool, verifiedEnd: bool)

  predicate NeedsSuite(e: Evidence) {
    e.full || e.packages != []
  }

  /** Nothing stood in the way of a judgement. */
  predicate Undisturbed(e: Evidence) {
    && e.confined && e.selected && e.bounded && e.verifiedIntegrity && e.verifiedGates && e.gatesBounded
    && (NeedsSuite(e) ==> e.verifiedSuite) && e.verifiedEnd
  }

  /** The findings nobody has approved. */
  function Unapproved(findings: seq<Finding>, waived: set<string>): (kept: seq<Finding>)
    ensures forall f :: f in kept <==> f in findings && f.fingerprint !in waived
  {
    if findings == [] then []
    else
      var n := |findings| - 1;
      Unapproved(findings[..n], waived) + (if findings[n].fingerprint in waived then [] else [findings[n]])
  }

  method UnwaivedIntegrityFindings(findings: seq<Finding>, waived: set<string>) returns (result: seq<Finding>)
    ensures result == Unapproved(findings, waived)
  {
    result := [];
    for i := 0 to |findings|
      invariant result == Unapproved(findings[..i], waived)
    {
      assert findings[..i + 1][..i] == findings[..i];
      if findings[i].fingerprint !in waived {
        result := result + [findings[i]];
      }
    }
    assert findings[..|findings|] == findings;
  }

  /** Whether a blocker of the batch is still there. */
  method AssignedRemains(mine: map<string, int>, after: map<string, int>, ghost a: multiset<string>,
                         ghost b: multiset<string>)
    returns (remains: bool)
    requires Counts(mine, a) && Counts(after, b)
    ensures remains <==> exists p :: p in a && p in b
  {
    var rest := mine.Keys;
    while rest != {}
      invariant rest <= mine.Keys
      invariant forall p :: p in mine && p !in rest ==> p !in b
      decreases rest
    {
      var p :| p in rest;
      if Count(after, p) != 0 {
        assert p in a && p in b;
        return true;
      }
      assert b[p] == 0;
      rest := rest - {p};
    }
    return false;
  }

  /** The blockers of the batch are well formed and were blockers to begin with. */
  ghost predicate Assigned(batch: Batch, baseline: seq<Finding>) {
    && CanonicalList(baseline) && CanonicalList(batch.findings) && batch.findings != []
    && Bag(batch.findings) <= Bag(baseline)
  }

  ghost predicate IntegrityHolds(e: Evidence, waived: set<string>) {
    e.integrity.Some? && Unapproved(e.integrity.value, waived) == []
  }

  /** The gates ran, the blockers of the batch are gone, and nothing else blocks more than before. */
  ghost predicate GatesHold(e: Evidence, mine: multiset<string>, baseline: multiset<string>) {
    && CanonicalList(e.blocking) && e.gateErrors == []
    && (forall p :: p in mine ==> p !in Bag(e.blocking)) && Bag(e.blocking) <= baseline
  }

  predicate SuiteHolds(e: Evidence) {
    NeedsSuite(e) ==> e.suitePassed && !e.suiteBroken
  }

  ghost predicate PathsHold(e: Evidence) {
    forall f :: f in e.changed ==> ChangedPath(f)
  }

  /** Nothing is wrong with the attempt. */
  ghost predicate Satisfied(e: Evidence, batch: Batch, baseline: seq<Finding>, waived: set<string>) {
    && e.changed != [] && PathsHold(e) && Assigned(batch, baseline) && IntegrityHolds(e, waived)
    && GatesHold(e, Bag(batch.findings), Bag(baseline)) && SuiteHolds(e)
  }

  /** The agent, and not the machinery, is at fault. */
  ghost predicate AtFault(e: Evidence, batch: Batch, baseline: seq<Finding>, waived: set<string>) {
    || e.changed == []
    || (e.integrity.Some? && Unapproved(e.integrity.value, waived) != [])
    || (exists p :: p in Bag(batch.findings) && p in Bag(e.blocking)) || !(Bag(e.blocking) <= Bag(baseline))
    || SuiteRejects(e)
  }

  predicate SuiteRejects(e: Evidence) {
    NeedsSuite(e) && !e.suiteBroken && !e.suitePassed
  }

  /** Progress needs no check of its own: a blocker of the batch is gone and none is new. */
  lemma RemovalIsProgress(mine: multiset<string>, after: multiset<string>, baseline: multiset<string>)
    requires mine != multiset{} && mine <= baseline && after <= baseline
    requires forall p :: p in mine ==> p !in after
    ensures after < baseline
  {
    var p :| p in mine;
    assert after[p] == 0 && baseline[p] > 0;
  }

  lemma SomeBlocker(findings: seq<Finding>)
    requires findings != []
    ensures Bag(findings) != multiset{}
  {
    BagHas(findings, findings[0]);
  }

  /** A failure; reasons are abbreviated here, but none of them is blank. */
  function Judged(kind: ValidationKind, failure: string, findings: seq<Finding>): (r: ValidationResult)
    requires failure != "" && !IsSpace(failure[0]) && (kind == SemanticFailure || kind == InfrastructureFailure)
    ensures AttemptResultValid(r) && !Blank(r.failure) && r.kind == kind
  {
    Nonblank(failure, 0);
    ValidationResult(kind, failure, findings, NoProof)
  }

  function Hindered(failure: string): (r: Option<ValidationResult>)
    requires failure != "" && !IsSpace(failure[0])
    ensures r.Some? && Failing(r.value) && r.value.kind == InfrastructureFailure
  {
    Some(Judged(InfrastructureFailure, failure, []))
  }

  function Rejected(failure: string, findings: seq<Finding>): (r: Option<ValidationResult>)
    requires failure != "" && !IsSpace(failure[0])
    ensures r.Some? && Failing(r.value) && r.value.kind == SemanticFailure
  {
    Some(Judged(SemanticFailure, failure, findings))
  }

  predicate Failing(r: ValidationResult) {
    AttemptResultValid(r) && !Blank(r.failure) && r.kind != Passed
  }

  /** Renewed verification of the proof and cancellation; either may stop the judgement. */
  method Interrupted(ctx: Context, verified: bool) returns (stop: Option<ValidationResult>)
    modifies ctx
    ensures (stop.None? <==> verified && !ctx.done) && (old(ctx.done) ==> ctx.done)
    ensures stop.Some? ==> Failing(stop.value) && stop.value.kind == InfrastructureFailure
  {
    hide Blank;
    if !verified {
      return Hindered("batch drifted");
    }
    var cancelled := ctx.Cancelled();
    return if cancelled then Hindered("canceled") else None;
  }

  method JudgeIntegrity(ctx: Context, e: Evidence, waived: set<string>) returns (stop: Option<ValidationResult>)
    modifies ctx
    ensures (stop.None? <==> IntegrityHolds(e, waived) && e.verifiedIntegrity && !ctx.done)
    ensures (old(ctx.done) ==> ctx.done)
    ensures stop.Some? ==> Failing(stop.value)
    ensures stop.Some? && stop.value.kind == SemanticFailure ==>
      e.integrity.Some? && Unapproved(e.integrity.value, waived) != []
  {
    hide Blank;
    var cancelled := ctx.Cancelled();
    if cancelled {
      return Hindered("canceled");
    }
    if e.integrity.None? {
      return Hindered("no integrity evidence");
    }
    if |e.integrity.value| != 0 {
      var unwaived := UnwaivedIntegrityFindings(e.integrity.value, waived);
      if |unwaived| != 0 {
        return Rejected("regressions", unwaived);
      }
    }
    stop := Interrupted(ctx, e.verifiedIntegrity);
  }

  method JudgeGates(ctx: Context, e: Evidence, mine: map<string, int>, before: map<string, int>,
                    ghost a: multiset<string>, ghost b: multiset<string>)
    returns (stop: Option<ValidationResult>)
    requires AllSized(e.blocking) && Counts(mine, a) && Counts(before, b) && a != multiset{} && a <= b
    modifies ctx
    ensures stop.None? <==> GatesHold(e, a, b) && e.verifiedGates && e.gatesBounded && !ctx.done
    ensures (stop.Some? ==> Failing(stop.value)) && (old(ctx.done) ==> ctx.done)
    ensures stop.None? ==> Bag(e.blocking) < b
    ensures stop.Some? && stop.value.kind == SemanticFailure ==>
      (exists p :: p in a && p in Bag(e.blocking)) || !(Bag(e.blocking) <= b)
  {
    hide Blank, AllSized, CanonicalList, Bag, Counts;
    stop := Interrupted(ctx, e.verifiedGates);
    if stop.Some? {
      return;
    }
    if !e.gatesBounded {
      return Hindered("oversized");
    }
    var classified, after := BlockingMultiset(e.blocking);
    if !classified {
      return Hindered("malformed");
    }
    if |e.gateErrors| != 0 {
      return Hindered("gates errored");
    }
    var remains := AssignedRemains(mine, after, a, Bag(e.blocking));
    if remains {
      return Rejected("blocker remains", e.blocking);
    }
    var subset := MultisetSubset(after, before, Bag(e.blocking), b);
    if !subset {
      return Rejected("new blockers", e.blocking);
    }
    RemovalIsProgress(a, Bag(e.blocking), b);
    var shrinks := StrictlyShrinks(after, before, Bag(e.blocking), b);
    assert shrinks;
    return None;
  }

  method JudgeSuite(ctx: Context, e: Evidence) returns (stop: Option<ValidationResult>)
    modifies ctx
    ensures stop.None? <==> SuiteHolds(e) && (NeedsSuite(e) ==> e.verifiedSuite) && e.verifiedEnd && !ctx.done
    ensures (stop.Some? ==> Failing(stop.value)) && (old(ctx.done) ==> ctx.done)
    ensures stop.Some? && stop.value.kind == SemanticFailure ==> SuiteRejects(e)
  {
    hide Blank;
    if NeedsSuite(e) {
      stop := Interrupted(ctx, true);
      if stop.Some? {
        return;
      }
      stop := Interrupted(ctx, e.verifiedSuite);
      if stop.Some? {
        return;
      }
      if e.suiteBroken {
        return Hindered("suite broken");
      }
      if !e.suitePassed {
        return Rejected("suite failed", e.blocking);
      }
    }
    stop := Interrupted(ctx, e.verifiedEnd);
  }

  /** The decision. */
  method Validate(ctx: Context, e: Evidence, batch: Batch, proof: Proof, baseline: seq<Finding>, waived: set<string>)
    returns (r: ValidationResult)
    requires AllSized(baseline) && AllSized(batch.findings) && AllSized(e.blocking)
    modifies ctx
    ensures AttemptResultValid(r) && (r.kind == Passed || Failing(r)) && (old(ctx.done) ==> ctx.done)
    ensures r.kind == Passed <==>
      proof != NoProof && Satisfied(e, batch, baseline, waived) && Undisturbed(e) && !ctx.done
    ensures r.kind == Passed ==> r.proof == proof && Bag(e.blocking) < Bag(baseline)
    ensures r.kind == SemanticFailure ==> AtFault(e, batch, baseline, waived)
  {
    hide Bag, CanonicalList, AllSized, Unapproved, Blank;
    hide IntegrityHolds, GatesHold, SuiteHolds, SuiteRejects, ChangedPath;
    var cancelled := ctx.Cancelled();
    if cancelled {
      return Hindered("canceled").value;
    }
    if |e.changed| == 0 {
      return Rejected("no changes", []).value;
    }
    if proof == NoProof || !e.confined {
      return Hindered("unproven").value;
    }
    var usable := UsablePaths(e.changed);
    if !usable || !e.selected || !e.bounded {
      return Hindered("no packages").value;
    }
    var known, before := BlockingMultiset(baseline);
    var classified, mine := BlockingMultiset(batch.findings);
    if !known || !classified || |batch.findings| == 0 {
      return Hindered("bad blockers").value;
    }
    var subset := MultisetSubset(mine, before, Bag(batch.findings), Bag(baseline));
    if !subset {
      return Hindered("unknown blockers").value;
    }
    SomeBlocker(batch.findings);
    var stop := JudgeIntegrity(ctx, e, waived);
    if stop.Some? {
      return stop.value;
    }
    stop := JudgeGates(ctx, e, mine, before, Bag(batch.findings), Bag(baseline));
    if stop.Some? {
      return stop.value;
    }
    stop := JudgeSuite(ctx, e);
    if stop.Some? {
      return stop.value;
    }
    r := ValidationResult(Passed, "", [], proof);
  }
}
