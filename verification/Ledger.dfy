/** The checker that guards every persisted fix report: which batch records it believes
    (internal/run/ledger.go:889-974). */
module Ledger {
  import opened Text
  import opened Sorting
  import opened Findings
  import opened Plan

  predicate CanonicalPath(path: string) {
    ValidPath(path) && NormalizeFile(path) == path
  }

  /** Sorted without duplicates, each a canonical path. */
  ghost predicate CanonicalPaths(files: seq<string>) {
    && (forall i :: 0 < i < |files| ==> Ascends(files, i))
    && (forall f :: f in files ==> CanonicalPath(f))
  }

  ghost predicate Ascends(files: seq<string>, i: int)
    requires 0 < i < |files|
  {
    Less(files[i - 1], files[i])
  }

  predicate EvidenceFits(a: Attempt) {
    match a.status
    case AttemptRunning => a.failure == "" && a.changedFiles == [] && a.commit == ""
    case AttemptFailed => !Blank(a.failure) && a.changedFiles == [] && a.commit == ""
    case AttemptPassed => a.failure == "" && a.changedFiles != [] && ValidObjectID(a.commit)
  }

  ghost predicate AttemptAccepted(a: Attempt, index: int, objectIDLength: int) {
    && a.number == index + 1
    && (a.commit != "" ==> ValidObjectID(a.commit) && |a.commit| == objectIDLength)
    && EvidenceFits(a) && CanonicalPaths(a.changedFiles)
  }

  /** How the status of a batch and its attempts must agree. */
  predicate StatusFits(b: Batch) {
    && |b.attempts| <= 2
    && (b.status == Pending ==> b.attempts == [])
    && (b.status == Running ==> b.attempts != [] && b.attempts[|b.attempts| - 1].status != AttemptPassed)
    && (|b.attempts| == 2 ==> b.attempts[0].status == AttemptFailed)
    && (b.status == Done ==> b.attempts != [] && b.attempts[|b.attempts| - 1].status == AttemptPassed)
    && (b.status == Stuck ==> |b.attempts| == 2 && b.attempts[1].status == AttemptFailed)
  }

  ghost predicate FindingsAccepted(findings: seq<Finding>, primaryFile: string) {
    && findings != []
    && (forall f :: f in findings ==> Valid(f) && f.file == primaryFile)
    && IsGrouping(findings, findings)
  }

  ghost predicate BatchAccepted(b: Batch, objectIDLength: int) {
    && HasPrefix(b.id, "batch-") && CanonicalPath(b.primaryFile)
    && FindingsAccepted(b.findings, b.primaryFile) && StatusFits(b)
    && forall i :: 0 <= i < |b.attempts| ==> AttemptAccepted(b.attempts[i], i, objectIDLength)
  }

  ghost predicate DistinctIDs(batches: seq<Batch>) {
    forall i, j :: 0 <= i < j < |batches| ==> batches[i].id != batches[j].id
  }

  ghost predicate BatchesAccepted(batches: seq<Batch>, objectIDLength: int) {
    DistinctIDs(batches) && forall b :: b in batches ==> BatchAccepted(b, objectIDLength)
  }

  method PathsCanonical(files: seq<string>) returns (ok: bool)
    ensures ok <==> CanonicalPaths(files)
  {
    hide CanonicalPath, Less;
    for i := 0 to |files|
      invariant forall k :: 0 < k < i ==> Ascends(files, k)
    {
      if i > 0 && !Less(files[i - 1], files[i]) {
        assert !Ascends(files, i);
        return false;
      }
    }
    for i := 0 to |files|
      invariant forall k :: 0 <= k < i ==> CanonicalPath(files[k])
    {
      if !CanonicalPath(files[i]) {
        return false;
      }
    }
    return true;
  }

  method AttemptsAccepted(attempts: seq<Attempt>, objectIDLength: int) returns (ok: bool)
    ensures ok <==> forall i :: 0 <= i < |attempts| ==> AttemptAccepted(attempts[i], i, objectIDLength)
  {
    hide EvidenceFits, CanonicalPaths, ValidObjectID;
    for i := 0 to |attempts|
      invariant forall k :: 0 <= k < i ==> AttemptAccepted(attempts[k], k, objectIDLength)
    {
      var attempt := attempts[i];
      if attempt.number != i + 1 {
        return false;
      }
      if attempt.commit != "" && (!ValidObjectID(attempt.commit) || |attempt.commit| != objectIDLength) {
        return false;
      }
      if !EvidenceFits(attempt) {
        return false;
      }
      var canonical := PathsCanonical(attempt.changedFiles);
      if !canonical {
        return false;
      }
    }
    return true;
  }

  method FindingsCanonical(findings: seq<Finding>, primaryFile: string) returns (ok: bool)
    requires AllSized(findings)
    ensures ok <==> FindingsAccepted(findings, primaryFile)
  {
    hide Valid, IsGrouping, Sized;
    if |findings| == 0 {
      return false;
    }
    for i := 0 to |findings|
      invariant forall k :: 0 <= k < i ==> Valid(findings[k]) && findings[k].file == primaryFile
    {
      if !Valid(findings[i]) || findings[i].file != primaryFile {
        assert findings[i] in findings;
        return false;
      }
    }
    var grouped := Group(findings);
    assert grouped.Grouped?;
    GroupedToItself(findings, grouped.findings);
    return grouped.findings == findings;
  }

  lemma GroupedToItself(findings: seq<Finding>, grouped: seq<Finding>)
    requires Acceptable(findings) && IsGrouping(findings, grouped)
    ensures grouped == findings <==> IsGrouping(findings, findings)
  {
    hide IsGrouping, Acceptable;
    if IsGrouping(findings, findings) { GroupingIsUnique(findings, findings, grouped, findings); }
  }

  method ValidateFixBatches(batches: seq<Batch>, objectIDLength: int) returns (ok: bool)
    requires forall b :: b in batches ==> AllSized(b.findings)
    ensures ok <==> BatchesAccepted(batches, objectIDLength)
  {
    hide FindingsAccepted, StatusFits, AttemptAccepted, CanonicalPath, AllSized;
    var seen: set<string> := {};
    var i := 0;
    while i < |batches|
      invariant 0 <= i <= |batches| && DistinctIDs(batches[..i])
      invariant forall p :: p in seen <==> exists k :: 0 <= k < i && batches[k].id == p
      invariant forall k :: 0 <= k < i ==> BatchAccepted(batches[k], objectIDLength)
    {
      var b := batches[i];
      assert b in batches;
      if !HasPrefix(b.id, "batch-") {
        return false;
      }
      if b.id in seen {
        return false;
      }
      seen := seen + {b.id};
      if !CanonicalPath(b.primaryFile) {
        return false;
      }
      var findings := FindingsCanonical(b.findings, b.primaryFile);
      if !findings {
        return false;
      }
      if !StatusFits(b) {
        return false;
      }
      var attempts := AttemptsAccepted(b.attempts, objectIDLength);
      if !attempts {
        return false;
      }
      i := i + 1;
    }
    assert batches[..i] == batches;
    return true;
  }

  /** The batches of a new wave are believed as they stand. */
  lemma FreshBatchAccepted(ordered: seq<Finding>, batches: seq<Batch>, k: nat, objectIDLength: int)
    requires WavePlan(ordered, batches) && k < |batches|
    requires CanonicalList(ordered) && StrictlySorted(ordered, LessFinding)
    ensures BatchAccepted(batches[k], objectIDLength)
  {
    hide LessFinding, IdentityProof, WaveDigest, Bag, Normalized;
    hide IsGrouping, ValidPath, NormalizeFile, ValidLocation, ToolQualified;
    BatchOfWave(ordered, batches, k);
    var b := batches[k];
    assert b in batches;
    assert Untried(b, WaveDigest(ordered), true);
    GroupingFixpoint(b.findings);
    var f := b.findings[0];
    assert f in b.findings;
    NormalizedFile(f);
    assert CanonicalPath(b.primaryFile);
  }

  lemma NormalizedFile(f: Finding)
    requires Valid(f) && f == Normalized(f)
    ensures CanonicalPath(f.file)
  {
    NormalizeFileIdempotent(f.file);
  }
}
