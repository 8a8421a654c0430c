/** What the serial fix loop records, and what every step of it keeps (internal/flywheel/engine.go). */
module EngineState {
  import opened Options
  import opened Text
  import opened Findings
  import opened Plan
  import opened Ledger
  import opened Ports
  import Rails

  const MAX_ATTEMPTS := 2
  const MAX_DIAGNOSTIC := 16_384
  const MARKER := "\n...[truncated]"

  datatype OutcomeKind = Ready | Blocked | OutOfRails | Errored

  /** `recoveryFailed` stands for a failure text that reports a reset or a rollback that did not work. */
  datatype Outcome = Outcome(kind: OutcomeKind, plan: Plan, iterations: int, failure: string, recoveryFailed: bool)

  datatype AttemptResult =
    | Succeeded
    | Semantic(failure: string, stopIfCancelled: bool)
    | Infrastructure(failure: string, retryable: bool)
    | StoppedBy(outcome: Outcome)

  /** `boundedFailure`, on strings that are valid UTF-8. */
  function Bounded(failure: string): string {
    if |failure| <= MAX_DIAGNOSTIC then failure else failure[..MAX_DIAGNOSTIC - |MARKER|] + MARKER
  }

  lemma Nonblank(s: string, i: nat)
    requires i < |s| && !IsSpace(s[i])
    ensures !Blank(s)
  {
    assert s[i] in s;
  }

  lemma BoundedNonblank(failure: string)
    requires !Blank(failure)
    ensures !Blank(Bounded(failure))
  {
    if |failure| > MAX_DIAGNOSTIC {
      var s := Bounded(failure);
      var i := MAX_DIAGNOSTIC - |MARKER| + 1;
      assert s[i] == MARKER[1] == '.';
      Nonblank(s, i);
    }
  }

  function Broken(failure: string, retryable: bool): (r: AttemptResult)
    requires !Blank(failure)
    ensures r == Infrastructure(Bounded(failure), retryable) && !Blank(r.failure)
  {
    BoundedNonblank(failure);
    Infrastructure(Bounded(failure), retryable)
  }

  /** `validateAttemptResult` */
  predicate AttemptResultValid(v: ValidationResult) {
    match v.kind
    case Passed => v.failure == "" && v.findings == [] && v.proof != NoProof
    case SemanticFailure => v.failure != "" && v.proof == NoProof
    case InfrastructureFailure => v.failure != "" && v.proof == NoProof
    case UnknownKind => false
  }

  /** `validateBarrierResult` */
  predicate BarrierResultValid(v: ValidationResult) {
    match v.kind
    case Passed => v.failure == ""
    case SemanticFailure => v.failure != ""
    case InfrastructureFailure => v.failure != ""
    case UnknownKind => false
  }

  // ---- one batch through its attempts

  function Begin(b: Batch, n: int): Batch {
    b.(status := Running, attempts := b.attempts + [Attempt(n, AttemptRunning, "", [], "")])
  }

  function Fail(b: Batch, n: int, failure: string): Batch
    requires b.attempts != []
  {
    b.(attempts := b.attempts[|b.attempts| - 1 := Attempt(n, AttemptFailed, failure, [], "")])
  }

  function Pass(b: Batch, n: int, changed: seq<string>, commit: string): Batch
    requires b.attempts != []
  {
    b.(status := Done, attempts := b.attempts[|b.attempts| - 1 := Attempt(n, AttemptPassed, "", changed, commit)])
  }

  /** The batch may be given its n-th attempt. */
  predicate Awaits(b: Batch, n: int) {
    (n == 1 && b.status == Pending && b.attempts == [])
    || (n == 2 && b.status == Running && |b.attempts| == 1 && b.attempts[0].status == AttemptFailed)
  }

  /** The n-th attempt is under way. */
  predicate InAttempt(b: Batch, n: int) {
    && 1 <= n <= MAX_ATTEMPTS && b.status == Running && |b.attempts| == n
    && b.attempts[n - 1] == Attempt(n, AttemptRunning, "", [], "")
    && (n == 2 ==> b.attempts[0].status == AttemptFailed)
  }

  predicate Finished(b: Batch) {
    b.status == Done || b.status == Stuck
  }

  function CommitOf(a: Attempt): seq<string> {
    if a.status == AttemptPassed then [a.commit] else []
  }

  function CommitsOf(attempts: seq<Attempt>): seq<string> {
    if attempts == [] then [] else CommitsOf(attempts[..|attempts| - 1]) + CommitOf(attempts[|attempts| - 1])
  }

  /** The commits of the passed attempts of a plan, in plan order. */
  function PassedCommits(batches: seq<Batch>): seq<string> {
    if batches == [] then [] else PassedCommits(batches[..|batches| - 1]) + CommitsOf(batches[|batches| - 1].attempts)
  }

  lemma LastAttempt(attempts: seq<Attempt>, a: Attempt)
    requires attempts != []
    ensures CommitsOf(attempts) == CommitsOf(attempts[..|attempts| - 1]) + CommitOf(attempts[|attempts| - 1])
    ensures CommitsOf(attempts[|attempts| - 1 := a]) == CommitsOf(attempts[..|attempts| - 1]) + CommitOf(a)
    ensures CommitsOf(attempts + [a]) == CommitsOf(attempts) + CommitOf(a)
  {
    var n := |attempts| - 1;
    assert attempts[n := a][..n] == attempts[..n];
    assert (attempts + [a])[..n + 1] == attempts;
  }

  lemma BeginAccepted(b: Batch, n: int, len: int)
    requires BatchAccepted(b, len) && Awaits(b, n)
    ensures BatchAccepted(Begin(b, n), len) && InAttempt(Begin(b, n), n)
    ensures CommitsOf(Begin(b, n).attempts) == CommitsOf(b.attempts)
  {
    hide FindingsAccepted, CanonicalPath, ValidObjectID, Blank;
    var a := Attempt(n, AttemptRunning, "", [], "");
    if b.attempts != [] { LastAttempt(b.attempts, a); }
    assert (b.attempts + [a])[..|b.attempts|] == b.attempts;
    forall i | 0 <= i < |Begin(b, n).attempts| ensures AttemptAccepted(Begin(b, n).attempts[i], i, len) { }
  }

  lemma FailAccepted(b: Batch, n: int, failure: string, len: int)
    requires BatchAccepted(b, len) && InAttempt(b, n) && !Blank(failure)
    ensures BatchAccepted(Fail(b, n, failure), len)
    ensures n == 1 ==> Awaits(Fail(b, n, failure), 2)
    ensures CommitsOf(Fail(b, n, failure).attempts) == CommitsOf(b.attempts)
  {
    hide FindingsAccepted, CanonicalPath, ValidObjectID, Blank;
    LastAttempt(b.attempts, Attempt(n, AttemptFailed, failure, [], ""));
    forall i | 0 <= i < |b.attempts| ensures AttemptAccepted(Fail(b, n, failure).attempts[i], i, len) { }
  }

  lemma PassAccepted(b: Batch, n: int, changed: seq<string>, commit: string, len: int)
    requires BatchAccepted(b, len) && InAttempt(b, n)
    requires changed != [] && CanonicalPaths(changed) && ValidObjectID(commit) && |commit| == len
    ensures BatchAccepted(Pass(b, n, changed, commit), len)
    ensures CommitsOf(Pass(b, n, changed, commit).attempts) == CommitsOf(b.attempts) + [commit]
  {
    hide FindingsAccepted, CanonicalPath, ValidObjectID, Blank;
    LastAttempt(b.attempts, Attempt(n, AttemptPassed, "", changed, commit));
    forall i | 0 <= i < |b.attempts| ensures AttemptAccepted(Pass(b, n, changed, commit).attempts[i], i, len) { }
  }

  lemma StuckAccepted(b: Batch, len: int)
    requires BatchAccepted(b, len) && b.status == Running && |b.attempts| == 2 && b.attempts[1].status == AttemptFailed
    ensures BatchAccepted(b.(status := Stuck), len)
  {
    hide FindingsAccepted, CanonicalPath;
  }

  /** A failed attempt is believed exactly when its reason is not blank; a validator that fails with a
      reason of spaces passes `validateAttemptResult`, and the check of the report does not believe the plan. */
  lemma BlankReasonIsRefused(b: Batch, n: int, failure: string, len: int)
    requires BatchAccepted(b, len) && InAttempt(b, n)
    ensures BatchAccepted(Fail(b, n, failure), len) <==> !Blank(failure)
  {
    if !Blank(failure) {
      FailAccepted(b, n, failure, len);
    } else {
      assert !AttemptAccepted(Fail(b, n, failure).attempts[n - 1], n - 1, len);
    }
  }

  // ---- one batch within the plan

  predicate SameIdentity(b: Batch, c: Batch) {
    c == b.(status := c.status, attempts := c.attempts)
  }

  lemma {:induction false} CommitsSplit(batches: seq<Batch>, k: nat)
    requires k < |batches| && forall j :: k < j < |batches| ==> batches[j].attempts == []
    ensures PassedCommits(batches) == PassedCommits(batches[..k]) + CommitsOf(batches[k].attempts)
    decreases |batches|
  {
    hide CommitsOf;
    var n := |batches| - 1;
    if k < n {
      CommitsSplit(batches[..n], k);
      assert batches[..n][..k] == batches[..k];
      NoCommits(batches[n]);
    }
  }

  lemma NoCommits(b: Batch)
    requires b.attempts == []
    ensures CommitsOf(b.attempts) == []
  {
  }

  /** Replacing the batch at work. */
  lemma Replace(batches: seq<Batch>, k: nat, b: Batch, len: int)
    requires k < |batches| && BatchesAccepted(batches, len)
    requires SameIdentity(batches[k], b) && BatchAccepted(b, len)
    requires forall j :: k < j < |batches| ==> batches[j].attempts == []
    ensures BatchesAccepted(batches[k := b], len)
    ensures PassedCommits(batches) == PassedCommits(batches[..k]) + CommitsOf(batches[k].attempts)
    ensures PassedCommits(batches[k := b]) == PassedCommits(batches[..k]) + CommitsOf(b.attempts)
  {
    hide BatchAccepted, CommitsOf;
    var next := batches[k := b];
    forall i, j | 0 <= i < j < |next| ensures next[i].id != next[j].id {
      assert batches[i].id != batches[j].id;
    }
    CommitsSplit(batches, k);
    CommitsSplit(next, k);
    assert next[..k] == batches[..k];
  }

  // ---- states

  datatype State = State(plan: Plan, persisted: Plan, published: Plan, green: seq<string>, runRef: seq<string>,
                         trace: seq<Event>, rails: Rails.View)

  /** What holds whatever happens: the plan on disk is the one last reported, the ledger believes it,
      and the trace keeps the rules. */
  ghost predicate Safe(s: State, len: int) {
    && s.persisted == s.published && BatchesAccepted(s.persisted.batches, len)
    && Disciplined(s.trace) && Rails.Sound(s.rails)
  }

  /** Moreover the workspace vouches for exactly the commits that the plan on disk and the plan in memory claim. */
  ghost predicate Kept(s: State, len: int) {
    && Safe(s, len) && BatchesAccepted(s.plan.batches, len)
    && s.green == PassedCommits(s.persisted.batches) == PassedCommits(s.plan.batches)
  }

  /** Moreover nothing is pending in the worktree. */
  ghost predicate Calm(s: State, len: int) {
    Kept(s, len) && s.runRef == s.green && Quiescent(s.trace)
  }

  predicate LaterUntried(batches: seq<Batch>, index: nat) {
    forall j :: index < j < |batches| ==> batches[j].attempts == [] && batches[j].status == Pending
  }

  /** Attempt n of the batch at `index` is under way. */
  ghost predicate Active(s: State, index: nat, n: int, len: int) {
    && Kept(s, len) && index < |s.plan.batches| && InAttempt(s.plan.batches[index], n)
    && LaterUntried(s.plan.batches, index)
  }

  /** The batch at `index` may be given its n-th attempt. */
  ghost predicate Waiting(s: State, index: nat, n: int, len: int) {
    && Calm(s, len) && index < |s.plan.batches| && Awaits(s.plan.batches[index], n)
    && LaterUntried(s.plan.batches, index)
  }

  /** The workspace vouches for the commits that the plan claims, and after a failed rollback perhaps for the one that
      was to be taken back. */
  ghost predicate Accounted(plan: Plan, s: State) {
    || s.green == PassedCommits(plan.batches)
    || (s.trace != [] && s.trace[|s.trace| - 1] == RolledBack(false)
        && s.green != [] && s.green[..|s.green| - 1] == PassedCommits(plan.batches))
  }

  lemma AccountedFor(plan: Plan, s: State)
    requires s.green == PassedCommits(plan.batches)
    ensures Accounted(plan, s)
  {
  }

  /** An outcome tells the truth about the state it leaves behind. */
  ghost predicate Ended(o: Outcome, s: State, len: int) {
    && Safe(s, len) && o.plan == s.persisted && o.iterations == s.rails.iterations
    && (o.kind == OutOfRails ==> Rails.Spent(s.rails))
    && Accounted(o.plan, s) && (!o.recoveryFailed ==> s.runRef == s.green == PassedCommits(o.plan.batches))
  }

  /** An outcome before the barrier: out of rails or out of order. */
  ghost predicate Stopped(o: Outcome, s: State, len: int) {
    Ended(o, s, len) && (o.kind == OutOfRails || o.kind == Errored)
  }

  /** Only time has passed. */
  predicate Later(v: Rails.View, w: Rails.View) {
    w == v.(observedAt := w.observedAt) && w.observedAt >= v.observedAt
  }

  predicate OnlyTime(s: State, t: State) {
    t == s.(rails := t.rails) && Later(s.rails, t.rails)
  }

  lemma TimeKeeps(s: State, t: State, len: int)
    requires OnlyTime(s, t)
    ensures Rails.Sound(s.rails) ==> Rails.Sound(t.rails)
    ensures Rails.Spent(s.rails) ==> Rails.Spent(t.rails)
    ensures (Safe(s, len) ==> Safe(t, len)) && (Kept(s, len) ==> Kept(t, len)) && (Calm(s, len) ==> Calm(t, len))
  {
    hide BatchesAccepted, Disciplined, PassedCommits, Quiescent;
  }

  ghost predicate SameAdmissions(a: seq<Event>, b: seq<Event>) {
    forall index: nat :: Admissions(a, index) == Admissions(b, index)
  }

  /** One admission for every recorded attempt. */
  ghost predicate Matched(s: State) {
    forall i: nat :: Admissions(s.trace, i) == if i < |s.plan.batches| then |s.plan.batches[i].attempts| else 0
  }

  // ---- the elementary steps

  function Persisted(s: State, r: WriteResult): State {
    if r == FailedUnpublished then s else s.(persisted := s.plan, published := s.plan)
  }

  function Happened(s: State, e: Event, runRef: seq<string>): State {
    s.(trace := s.trace + [e], runRef := runRef)
  }

  function WithBatch(s: State, index: nat, b: Batch): State
    requires index < |s.plan.batches|
  {
    s.(plan := s.plan.(batches := s.plan.batches[index := b]))
  }

  lemma PersistKeeps(s: State, r: WriteResult, len: int)
    requires Kept(s, len)
    ensures Kept(Persisted(s, r), len)
  {
    hide BatchesAccepted, Disciplined, PassedCommits;
  }

  /** Whatever happened to the run branch, the record is still right. */
  lemma EventKeeps(s: State, e: Event, runRef: seq<string>, len: int)
    requires Kept(s, len)
    requires e.Committed? ==> Vouched(s.trace, e.proof)
    requires e == Run ==> Quiescent(s.trace)
    requires e.Admit? ==> Admissions(s.trace, e.index) <= 1
    ensures Kept(Happened(s, e, runRef), len)
    ensures Quiescent(s.trace + [e]) == Settled(s.trace, e)
    ensures !e.Admit? ==> SameAdmissions(s.trace, s.trace + [e])
  {
    Extend(s.trace, e);
    hide BatchesAccepted, Disciplined, PassedCommits, Admissions, Quiescent, Vouched, Settled;
  }

  /** The batch at work changes without claiming a commit. */
  lemma Swapping(s: State, index: nat, b: Batch, len: int)
    requires Kept(s, len) && index < |s.plan.batches| && LaterUntried(s.plan.batches, index)
    requires SameIdentity(s.plan.batches[index], b) && BatchAccepted(b, len)
    requires CommitsOf(b.attempts) == CommitsOf(s.plan.batches[index].attempts)
    ensures Kept(WithBatch(s, index, b), len) && LaterUntried(WithBatch(s, index, b).plan.batches, index)
  {
    hide BatchAccepted, CommitsOf, Disciplined, SameIdentity;
    Replace(s.plan.batches, index, b, len);
    hide BatchesAccepted, PassedCommits;
  }

  lemma AcceptedAt(s: State, index: nat, len: int)
    requires Kept(s, len) && index < |s.plan.batches|
    ensures BatchAccepted(s.plan.batches[index], len)
  {
    hide BatchAccepted, PassedCommits, Disciplined;
    assert s.plan.batches[index] in s.plan.batches;
  }

  lemma Beginning(s: State, index: nat, n: int, len: int)
    requires Waiting(s, index, n, len)
    ensures var t := WithBatch(s, index, Begin(s.plan.batches[index], n)); Calm(t, len) && Active(t, index, n, len)
  {
    hide BatchAccepted, CommitsOf, Kept, Quiescent, Awaits, InAttempt;
    var b := s.plan.batches[index];
    AcceptedAt(s, index, len);
    BeginAccepted(b, n, len);
    Swapping(s, index, Begin(b, n), len);
  }

  lemma Failing(s: State, index: nat, n: int, failure: string, len: int)
    requires Active(s, index, n, len) && !Blank(failure)
    ensures var t := WithBatch(s, index, Fail(s.plan.batches[index], n, failure));
            && Kept(t, len) && LaterUntried(t.plan.batches, index)
            && (n == 1 ==> Awaits(t.plan.batches[index], 2))
  {
    hide BatchAccepted, CommitsOf, Kept, Blank, Awaits;
    var b := s.plan.batches[index];
    AcceptedAt(s, index, len);
    FailAccepted(b, n, failure, len);
    Swapping(s, index, Fail(b, n, failure), len);
  }

  lemma Sticking(s: State, index: nat, len: int)
    requires Calm(s, len) && index < |s.plan.batches| && LaterUntried(s.plan.batches, index)
    requires var b := s.plan.batches[index];
             b.status == Running && |b.attempts| == 2 && b.attempts[1].status == AttemptFailed
    ensures var t := WithBatch(s, index, s.plan.batches[index].(status := Stuck));
            Calm(t, len) && LaterUntried(t.plan.batches, index)
  {
    hide BatchAccepted, CommitsOf, Kept, Quiescent;
    var b := s.plan.batches[index];
    AcceptedAt(s, index, len);
    StuckAccepted(b, len);
    Swapping(s, index, b.(status := Stuck), len);
  }

  /** A commit recorded in the plan, and the workspace one commit further. */
  lemma Passing(s: State, index: nat, n: int, changed: seq<string>, commit: string, len: int)
    requires Active(s, index, n, len)
    requires changed != [] && CanonicalPaths(changed) && ValidObjectID(commit) && |commit| == len
    ensures var t := WithBatch(s, index, Pass(s.plan.batches[index], n, changed, commit));
            && BatchesAccepted(t.plan.batches, len) && LaterUntried(t.plan.batches, index)
            && PassedCommits(t.plan.batches) == s.green + [commit]
  {
    hide BatchAccepted, CommitsOf, Disciplined, CanonicalPaths, ValidObjectID;
    var b := s.plan.batches[index];
    AcceptedAt(s, index, len);
    PassAccepted(b, n, changed, commit, len);
    Replace(s.plan.batches, index, Pass(b, n, changed, commit), len);
    hide BatchesAccepted, PassedCommits;
  }

  lemma KeptAccepts(s: State, len: int)
    requires Kept(s, len)
    ensures BatchesAccepted(s.plan.batches, len)
  {
  }

  lemma KeptFacts(s: State, len: int)
    requires Kept(s, len)
    ensures Safe(s, len) && s.green == PassedCommits(s.persisted.batches) && Rails.Sound(s.rails)
  {
  }

  lemma ActiveFacts(s: State, index: nat, n: int, len: int)
    requires Active(s, index, n, len)
    ensures BatchesAccepted(s.plan.batches, len) && index < |s.plan.batches| && s.plan.batches[index].attempts != []
  {
  }

  lemma WaitingFacts(s: State, index: nat, n: int, len: int)
    requires Waiting(s, index, n, len)
    ensures Calm(s, len) && index < |s.plan.batches| && 1 <= n <= MAX_ATTEMPTS && SameAdmissions(s.trace, s.trace)
  {
  }

  lemma ActivePersists(s: State, r: WriteResult, index: nat, n: int, len: int)
    requires Active(s, index, n, len)
    ensures Active(Persisted(s, r), index, n, len) && (Calm(s, len) ==> Calm(Persisted(s, r), len))
  {
    hide Kept, Quiescent, InAttempt;
    PersistKeeps(s, r, len);
  }

  lemma CalmFacts(s: State, len: int)
    requires Calm(s, len)
    ensures Safe(s, len) && s.runRef == s.green == PassedCommits(s.persisted.batches) == PassedCommits(s.plan.batches)
    ensures Rails.Sound(s.rails) && BatchesAccepted(s.plan.batches, len) && Quiescent(s.trace)
  {
  }

  lemma CalmPersists(s: State, r: WriteResult, len: int)
    requires Calm(s, len)
    ensures Calm(Persisted(s, r), len)
  {
    hide Kept, Quiescent;
    PersistKeeps(s, r, len);
  }

  // ---- what an attempt may do to the plan and to the trace

  /** Only the status and the attempts of the batch at `index` differ. */
  ghost predicate Reworked(p: Plan, q: Plan, index: nat) {
    && index < |p.batches| && |q.batches| == |p.batches|
    && q == p.(batches := p.batches[index := q.batches[index]])
    && SameIdentity(p.batches[index], q.batches[index])
  }

  /** Only the batch at `index` was worked on, and nothing was admitted meanwhile. */
  ghost predicate SameWork(p: Plan, a: seq<Event>, q: Plan, b: seq<Event>, index: nat) {
    Reworked(p, q, index) && SameAdmissions(a, b)
  }

  lemma ReworkedSelf(p: Plan, index: nat)
    requires index < |p.batches|
    ensures Reworked(p, p, index)
  {
  }

  lemma ReworkedFacts(p: Plan, q: Plan, index: nat)
    requires Reworked(p, q, index)
    ensures index < |p.batches| == |q.batches| && SameIdentity(p.batches[index], q.batches[index])
  {
  }

  lemma SameWorkFacts(p: Plan, a: seq<Event>, q: Plan, b: seq<Event>, index: nat)
    requires SameWork(p, a, q, b, index)
    ensures Reworked(p, q, index) && index < |p.batches| == |q.batches|
    ensures SameIdentity(p.batches[index], q.batches[index])
  {
  }

  lemma ReworkedThen(p: Plan, q: Plan, r: Plan, index: nat)
    requires Reworked(p, q, index) && Reworked(q, r, index)
    ensures Reworked(p, r, index)
  {
    assert p.batches[index := q.batches[index]][index := r.batches[index]] == p.batches[index := r.batches[index]];
  }

  lemma SameWorkThen(p: Plan, a: seq<Event>, q: Plan, b: seq<Event>, r: Plan, c: seq<Event>, index: nat)
    requires SameWork(p, a, q, b, index) && SameWork(q, b, r, c, index)
    ensures SameWork(p, a, r, c, index)
  {
    hide Admissions;
    ReworkedThen(p, q, r, index);
    forall i: nat ensures Admissions(a, i) == Admissions(c, i) {
      assert Admissions(a, i) == Admissions(b, i);
    }
  }

  /** An event during an attempt, other than an admission. */
  lemma Stepping(s: State, e: Event, runRef: seq<string>, index: nat, n: int, len: int)
    requires Active(s, index, n, len) && !e.Admit?
    requires e.Committed? ==> Vouched(s.trace, e.proof)
    requires e == Run ==> Quiescent(s.trace)
    ensures var t := Happened(s, e, runRef);
            Active(t, index, n, len) && SameWork(s.plan, s.trace, t.plan, t.trace, index)
  {
    hide Kept, Vouched, Quiescent, InAttempt, SameAdmissions;
    EventKeeps(s, e, runRef, len);
  }

  lemma SameWorkSelf(s: State, index: nat, n: int, len: int)
    requires Active(s, index, n, len)
    ensures SameWork(s.plan, s.trace, s.plan, s.trace, index)
  {
  }

  /** What a batch must be before an agent is set to work on it. */
  ghost predicate Assignable(b: Batch, baseline: multiset<string>) {
    IdentityAccepted(b) && Bag(b.findings) <= baseline && AllSized(b.findings)
  }

  lemma StillAssignable(b: Batch, c: Batch, baseline: multiset<string>)
    requires Assignable(b, baseline) && SameIdentity(b, c)
    ensures Assignable(c, baseline)
  {
    hide CanonicalList, Ordering, IdentityProof, BatchID, Bag, AllSized;
  }

  /** What the result of an attempt says about the state it leaves. */
  ghost predicate Resulted(r: AttemptResult, t: State, index: nat, n: int, len: int) {
    match r
    case StoppedBy(o) => Stopped(o, t, len)
    case Semantic(failure, _) => Active(t, index, n, len) && !Blank(failure)
    case Infrastructure(failure, _) => Active(t, index, n, len) && !Blank(failure)
    case Succeeded =>
      && Calm(t, len) && t.persisted == t.plan && index < |t.plan.batches| && LaterUntried(t.plan.batches, index)
      && t.plan.batches[index].status == Done && |t.plan.batches[index].attempts| == n
  }

  // ---- a commit and its record

  /** Just after the commit: the workspace and the plan in memory are one commit ahead of the plan on disk. */
  ghost function Recorded(s: State, index: nat, n: int, changed: seq<string>, commit: string, proof: Proof): State
    requires index < |s.plan.batches| && s.plan.batches[index].attempts != []
  {
    var plan := s.plan.(batches := s.plan.batches[index := Pass(s.plan.batches[index], n, changed, commit)]);
    s.(plan := plan, green := s.green + [commit], runRef := s.green + [commit],
       trace := s.trace + [Committed(proof, true)])
  }

  lemma Recording(s: State, index: nat, n: int, changed: seq<string>, commit: string, proof: Proof, len: int)
    requires Active(s, index, n, len) && Vouched(s.trace, proof)
    requires changed != [] && CanonicalPaths(changed) && ValidObjectID(commit) && |commit| == len
    ensures index < |s.plan.batches| && s.plan.batches[index].attempts != []
    ensures var t := Recorded(s, index, n, changed, commit, proof);
            && Safe(t, len) && BatchesAccepted(t.plan.batches, len) && PassedCommits(t.persisted.batches) == s.green
            && Calm(Persisted(t, Written), len) && t.runRef == t.green == PassedCommits(t.plan.batches)
            && SameWork(s.plan, s.trace, t.plan, t.trace, index) && LaterUntried(t.plan.batches, index)
            && t.plan.batches[index].status == Done && |t.plan.batches[index].attempts| == n
  {
    EventKeeps(s, Committed(proof, true), s.runRef, len);
    Passing(s, index, n, changed, commit, len);
    hide BatchesAccepted, PassedCommits, Disciplined, Quiescent, Vouched, CanonicalPaths, ValidObjectID, SameAdmissions;
  }

  /** Once the plan on disk claims the commit, the attempt has succeeded. */
  lemma Believed(s: State, recorded: State, r: AttemptResult, t: State, index: nat, n: int, len: int)
    requires SameWork(s.plan, s.trace, recorded.plan, recorded.trace, index)
    requires LaterUntried(recorded.plan.batches, index)
    requires recorded.plan.batches[index].status == Done && |recorded.plan.batches[index].attempts| == n
    requires r.StoppedBy? || r.Succeeded?
    requires r.StoppedBy? ==> Stopped(r.outcome, t, len)
    requires r.Succeeded? ==> OnlyTime(Persisted(recorded, Written), t) && Calm(t, len)
    ensures Resulted(r, t, index, n, len) && (r.Succeeded? ==> SameWork(s.plan, s.trace, t.plan, t.trace, index))
  {
    hide Calm, Stopped, SameAdmissions, LaterUntried;
  }

  lemma RollingBack(s: State, ok: bool, green: seq<string>, runRef: seq<string>, len: int)
    requires Safe(s, len)
    ensures Safe(s.(trace := s.trace + [RolledBack(ok)], green := green, runRef := runRef), len)
  {
    Extend(s.trace, RolledBack(ok));
    hide BatchesAccepted, Disciplined;
  }

  // ---- admissions

  lemma SameAdmissionsSelf(trace: seq<Event>)
    ensures SameAdmissions(trace, trace)
  {
  }

  ghost predicate AdmittedOnce(a: seq<Event>, b: seq<Event>, index: nat) {
    forall i: nat :: Admissions(b, i) == Admissions(a, i) + if i == index then 1 else 0
  }

  lemma RailsKeep(s: State, v: Rails.View, len: int)
    requires Calm(s, len) && Rails.Sound(v)
    ensures Calm(s.(rails := v), len)
  {
    hide BatchesAccepted, Disciplined, PassedCommits, Quiescent;
  }

  lemma WaitingAgain(s: State, index: nat, len: int)
    requires Calm(s, len) && index < |s.plan.batches| && LaterUntried(s.plan.batches, index)
    ensures Awaits(s.plan.batches[index], 2) ==> Waiting(s, index, 2, len)
  {
  }

  /** The admission of the next attempt keeps the limit of two. */
  lemma Admitting(s: State, index: nat, n: int, len: int)
    requires Waiting(s, index, n, len) && Matched(s)
    ensures var t := Happened(s, Admit(index, n), s.runRef);
            Waiting(t, index, n, len) && AdmittedOnce(s.trace, t.trace, index)
  {
    hide Kept, Quiescent, Awaits, LaterUntried, Matched, AdmittedOnce, Admissions, Vouched;
    FirstOrSecond(s, index, n, len);
    EventKeeps(s, Admit(index, n), s.runRef, len);
    AdmittedExtends(s.trace, index, n);
  }

  lemma FirstOrSecond(s: State, index: nat, n: int, len: int)
    requires Waiting(s, index, n, len) && Matched(s)
    ensures Admissions(s.trace, index) == n - 1 && 1 <= n <= 2
  {
    hide Kept, Quiescent, LaterUntried, Admissions;
  }

  lemma AdmittedExtends(trace: seq<Event>, index: nat, n: int)
    ensures AdmittedOnce(trace, trace + [Admit(index, n)], index)
  {
    var next := trace + [Admit(index, n)];
    assert next[..|trace|] == trace;
    forall i: nat ensures Admissions(next, i) == Admissions(trace, i) + if i == index then 1 else 0 { }
  }

  /** After the attempt every admission has its record again. */
  lemma Rematched(s: State, admitted: seq<Event>, t: State, index: nat, n: int, len: int)
    requires Waiting(s, index, n, len) && Matched(s) && AdmittedOnce(s.trace, admitted, index)
    requires SameWork(s.plan, admitted, t.plan, t.trace, index) && |t.plan.batches[index].attempts| == n
    ensures Matched(t)
  {
    hide Admissions, Kept, Quiescent, LaterUntried;
    forall i: nat ensures Admissions(t.trace, i) == if i < |t.plan.batches| then |t.plan.batches[i].attempts| else 0 {
      assert Admissions(t.trace, i) == Admissions(admitted, i);
      assert Admissions(admitted, i) == Admissions(s.trace, i) + if i == index then 1 else 0;
    }
  }
}
