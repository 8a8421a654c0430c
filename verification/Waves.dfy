/** How a plan grows wave by wave (internal/flywheel/engine.go:177-217): every wave is a strictly smaller
    multiset of blockers, so no batch ID ever comes back. */
module Waves {
  import opened Options
  import opened Text
  import opened Sorting
  import opened Findings
  import opened Plan
  import opened Ledger
  import opened Ports
  import opened EngineState
  import Rails

  /** A batch made from a wave of blockers, whatever its status and attempts have become. */
  ghost predicate Born(b: Batch, wave: seq<Finding>, baseline: multiset<string>) {
    Assignable(b, baseline) && b.id == BatchID(b.primaryFile, WaveDigest(wave)) && Fits(b.primaryFile) && AllInGo(wave)
  }

  /** Every batch was born of a wave with at least the blockers that are left now. */
  ghost predicate Lineage(batches: seq<Batch>, waves: seq<seq<Finding>>, baseline: multiset<string>,
                          left: multiset<string>) {
    && |waves| == |batches|
    && forall k :: 0 <= k < |batches| ==> Born(batches[k], waves[k], baseline) && left <= Bag(waves[k])
  }

  /** No batch from `start` on has been touched. */
  predicate Unstarted(batches: seq<Batch>, start: nat) {
    forall j :: start <= j < |batches| ==> batches[j].attempts == [] && batches[j].status == Pending
  }

  /** Only the status and the attempts of batches from `start` on differ. */
  ghost predicate Continued(p: Plan, q: Plan, start: nat) {
    && q.schemaVersion == p.schemaVersion && |q.batches| == |p.batches|
    && (forall j :: 0 <= j < |p.batches| ==> SameIdentity(p.batches[j], q.batches[j]))
    && (forall j :: 0 <= j < start && j < |p.batches| ==> p.batches[j] == q.batches[j])
  }

  lemma ContinuedBy(p: Plan, q: Plan, r: Plan, start: nat, index: nat)
    requires Continued(p, q, start) && Reworked(q, r, index) && start <= index
    ensures Continued(p, r, start) && forall j :: 0 <= j < index ==> r.batches[j] == q.batches[j]
  {
  }

  lemma UnstartedWaits(s: State, index: nat, len: int)
    requires Calm(s, len) && Unstarted(s.plan.batches, index) && index < |s.plan.batches|
    ensures Waiting(s, index, 1, len)
  {
    hide Calm;
  }

  lemma StillBorn(b: Batch, c: Batch, wave: seq<Finding>, baseline: multiset<string>)
    requires Born(b, wave, baseline) && SameIdentity(b, c)
    ensures Born(c, wave, baseline)
  {
    StillAssignable(b, c, baseline);
    hide Assignable, BatchID, WaveDigest, AllInGo;
  }

  lemma LineageContinues(p: Plan, q: Plan, start: nat, waves: seq<seq<Finding>>, baseline: multiset<string>,
                         left: multiset<string>)
    requires Lineage(p.batches, waves, baseline, left) && Continued(p, q, start)
    ensures Lineage(q.batches, waves, baseline, left)
  {
    hide Born, Bag;
    forall k | 0 <= k < |q.batches| ensures Born(q.batches[k], waves[k], baseline) && left <= Bag(waves[k]) {
      assert Born(p.batches[k], waves[k], baseline) && SameIdentity(p.batches[k], q.batches[k]);
      StillBorn(p.batches[k], q.batches[k], waves[k], baseline);
    }
  }

  lemma LineageAt(batches: seq<Batch>, waves: seq<seq<Finding>>, baseline: multiset<string>, left: multiset<string>,
                  k: nat)
    requires Lineage(batches, waves, baseline, left) && k < |batches|
    ensures Assignable(batches[k], baseline)
  {
    hide Assignable;
  }

  lemma FindingFits(findings: seq<Finding>, b: Batch)
    requires AllInGo(findings) && b.findings != [] && b.findings[0] in findings && b.findings[0].file == b.primaryFile
    ensures Fits(b.primaryFile)
  {
    assert InGo(b.findings[0]);
    assert b.findings[0].file in FindingTexts(b.findings[0]);
  }

  /** A batch of a new wave is ready for an agent. */
  lemma FreshBatchBorn(ordered: seq<Finding>, next: seq<Batch>, k: nat, baseline: multiset<string>)
    requires WavePlan(ordered, next) && k < |next|
    requires CanonicalList(ordered) && StrictlySorted(ordered, LessFinding) && AllInGo(ordered) && AllSized(ordered)
    requires Bag(ordered) <= baseline
    ensures Born(next[k], ordered, baseline) && next[k].status == Pending && next[k].attempts == []
  {
    hide CanonicalList, LessFinding, IdentityProof, WaveDigest, BatchID, InGo, Sized, IdentityAccepted, Bag, IsGrouping;
    var b := next[k];
    assert b in next && Untried(b, WaveDigest(ordered), true);
    BatchOfWave(ordered, next, k);
    PlannedBatchAccepted(ordered, next, k, b);
    assert b.findings[0] in b.findings;
    assert AllInGo(b.findings);
    FindingFits(b.findings, b);
  }

  lemma FreshIsNew(batches: seq<Batch>, waves: seq<seq<Finding>>, baseline: multiset<string>, left: multiset<string>,
                   k: nat, b: Batch, ordered: seq<Finding>)
    requires Lineage(batches, waves, baseline, left) && k < |batches| && Born(b, ordered, baseline)
    requires Bag(ordered) < left
    ensures batches[k].id != b.id
  {
    assert Born(batches[k], waves[k], baseline) && left <= Bag(waves[k]);
    hide Assignable, BatchID, WaveDigest, Bag, Lineage, AllInGo;
    AcrossWavesIDsDistinct(waves[k], ordered, batches[k], b);
  }

  ghost function Repeat(wave: seq<Finding>, n: nat): (r: seq<seq<Finding>>)
    ensures |r| == n && forall k :: 0 <= k < n ==> r[k] == wave
  {
    seq(n, _ => wave)
  }

  /** A strictly smaller wave joins the plan: the lineage goes on, and no ID is used twice. */
  lemma NextWave(batches: seq<Batch>, waves: seq<seq<Finding>>, baseline: multiset<string>, left: multiset<string>,
                 ordered: seq<Finding>, next: seq<Batch>, len: int)
    requires BatchesAccepted(batches, len) && Lineage(batches, waves, baseline, left) && left <= baseline
    requires WavePlan(ordered, next) && CanonicalList(ordered) && StrictlySorted(ordered, LessFinding)
    requires AllInGo(ordered) && AllSized(ordered) && Bag(ordered) <= left && (batches == [] || Bag(ordered) < left)
    ensures BatchesAccepted(batches + next, len)
    ensures Lineage(batches + next, waves + Repeat(ordered, |next|), baseline, Bag(ordered))
    ensures PassedCommits(batches + next) == PassedCommits(batches) && Unstarted(batches + next, |batches|)
  {
    hide CanonicalList, LessFinding, Bag, AllInGo, AllSized, BatchAccepted;
    hide Born, WavePlan, PassedCommits, Lineage, BatchesAccepted, StrictlySorted;
    FreshBatchesBorn(ordered, next, baseline, len);
    NextAccepted(batches, waves, baseline, left, ordered, next, len);
    NextLineage(batches, waves, baseline, left, ordered, next);
    UntriedCommits(batches, next);
  }

  ghost predicate AllFresh(ordered: seq<Finding>, next: seq<Batch>, baseline: multiset<string>, len: int) {
    forall k :: 0 <= k < |next| ==>
      Born(next[k], ordered, baseline) && next[k].status == Pending && next[k].attempts == [] &&
      BatchAccepted(next[k], len)
  }

  lemma FreshBatchesBorn(ordered: seq<Finding>, next: seq<Batch>, baseline: multiset<string>, len: int)
    requires WavePlan(ordered, next) && CanonicalList(ordered) && StrictlySorted(ordered, LessFinding)
    requires AllInGo(ordered) && AllSized(ordered) && Bag(ordered) <= baseline
    ensures AllFresh(ordered, next, baseline, len)
  {
    hide CanonicalList, LessFinding, Bag, AllInGo, AllSized, BatchAccepted, Born, WavePlan;
    forall k | 0 <= k < |next|
      ensures Born(next[k], ordered, baseline) && next[k].status == Pending && next[k].attempts == [] &&
        BatchAccepted(next[k], len)
    {
      FreshBatchBorn(ordered, next, k, baseline);
      FreshBatchAccepted(ordered, next, k, len);
    }
  }

  lemma NextLineage(batches: seq<Batch>, waves: seq<seq<Finding>>, baseline: multiset<string>, left: multiset<string>,
                    ordered: seq<Finding>, next: seq<Batch>)
    requires Lineage(batches, waves, baseline, left) && Bag(ordered) <= left
    requires forall k :: 0 <= k < |next| ==> Born(next[k], ordered, baseline)
    ensures Lineage(batches + next, waves + Repeat(ordered, |next|), baseline, Bag(ordered))
  {
    hide Bag, Born;
    var all, from := batches + next, waves + Repeat(ordered, |next|);
    forall k | 0 <= k < |all| ensures Born(all[k], from[k], baseline) && Bag(ordered) <= Bag(from[k]) {
      if k < |batches| { assert Born(batches[k], waves[k], baseline) && left <= Bag(waves[k]); }
    }
  }

  lemma NextAccepted(batches: seq<Batch>, waves: seq<seq<Finding>>, baseline: multiset<string>, left: multiset<string>,
                     ordered: seq<Finding>, next: seq<Batch>, len: int)
    requires BatchesAccepted(batches, len) && Lineage(batches, waves, baseline, left) && WavePlan(ordered, next)
    requires AllFresh(ordered, next, baseline, len) && (batches == [] || Bag(ordered) < left)
    ensures BatchesAccepted(batches + next, len)
  {
    hide Bag, Born, BatchAccepted, WavePlan, Lineage;
    NextIDs(batches, waves, baseline, left, ordered, next);
  }

  lemma NextIDs(batches: seq<Batch>, waves: seq<seq<Finding>>, baseline: multiset<string>, left: multiset<string>,
                ordered: seq<Finding>, next: seq<Batch>)
    requires DistinctIDs(batches) && Lineage(batches, waves, baseline, left) && WavePlan(ordered, next)
    requires forall k :: 0 <= k < |next| ==> Born(next[k], ordered, baseline)
    requires batches == [] || Bag(ordered) < left
    ensures DistinctIDs(batches + next)
  {
    hide Bag, Lineage, Assignable, WavePlan, BatchID, WaveDigest, AllInGo;
    var all := batches + next;
    forall i, j | 0 <= i < j < |all| ensures all[i].id != all[j].id {
      if j < |batches| {
        assert batches[i].id != batches[j].id;
      } else if i < |batches| {
        FreshIsNew(batches, waves, baseline, left, i, next[j - |batches|], ordered);
      } else {
        WaveIDsDistinct(ordered, next, i - |batches|, j - |batches|);
      }
    }
  }

  lemma {:induction false} UntriedCommits(batches: seq<Batch>, next: seq<Batch>)
    requires forall k :: 0 <= k < |next| ==> next[k].attempts == []
    ensures PassedCommits(batches + next) == PassedCommits(batches)
  {
    if next == [] {
      assert batches + next == batches;
    } else {
      var n := |next| - 1;
      UntriedCommits(batches, next[..n]);
      assert (batches + next)[..|batches| + n] == batches + next[..n];
      NoCommits(next[n]);
    }
  }

  /** A plan of nothing but finished work has a commit for every batch. */
  lemma DoneMeansCommit(batches: seq<Batch>, len: int)
    requires batches != [] && BatchesAccepted(batches, len) && batches[|batches| - 1].status == Done
    ensures PassedCommits(batches) != []
  {
    hide FindingsAccepted, AttemptAccepted, CanonicalPath, StatusFits, DistinctIDs;
    var b := batches[|batches| - 1];
    assert b in batches && BatchAccepted(b, len);
    DoneHasCommit(b);
    hide CommitsOf;
  }

  lemma DoneHasCommit(b: Batch)
    requires StatusFits(b) && b.status == Done
    ensures CommitsOf(b.attempts) != []
  {
    assert CommitOf(b.attempts[|b.attempts| - 1]) != [];
  }

  // ---- the loop over waves

  /** Between waves: the waves before `waveStart` are done, the wave from there on is untouched, and all its
      ancestors had at least the blockers `left` now. */
  ghost predicate Going(s: State, waves: seq<seq<Finding>>, baseline: multiset<string>, left: multiset<string>,
                        waveStart: nat, len: int) {
    && Calm(s, len) && Matched(s) && s.persisted == s.plan && waveStart <= |s.plan.batches|
    && Unstarted(s.plan.batches, waveStart) && (forall k :: 0 <= k < waveStart ==> s.plan.batches[k].status == Done)
    && Lineage(s.plan.batches, waves, baseline, left) && left <= baseline
  }

  lemma GoingFacts(s: State, waves: seq<seq<Finding>>, baseline: multiset<string>, left: multiset<string>,
                   waveStart: nat, len: int)
    requires Going(s, waves, baseline, left, waveStart, len)
    ensures Calm(s, len) && Matched(s) && s.persisted == s.plan && waveStart <= |s.plan.batches| && left <= baseline
    ensures Unstarted(s.plan.batches, waveStart) && Lineage(s.plan.batches, waves, baseline, left)
    ensures forall k :: 0 <= k < waveStart ==> s.plan.batches[k].status == Done
    ensures forall k :: waveStart <= k < |s.plan.batches| ==> Assignable(s.plan.batches[k], baseline)
  {
    hide Calm, Matched, Assignable, Lineage;
    forall k | waveStart <= k < |s.plan.batches| ensures Assignable(s.plan.batches[k], baseline) {
      LineageAt(s.plan.batches, waves, baseline, left, k);
    }
  }

  lemma StoppedFacts(o: Outcome, s: State, len: int)
    requires Stopped(o, s, len)
    ensures Ended(o, s, len) && o.kind != Ready
  {
  }

  /** A Ready outcome: the plan grew from `p` and all of it is done. */
  ghost predicate AllDone(o: Outcome, p: Plan) {
    !o.recoveryFailed && |o.plan.batches| == |p.batches| && forall b :: b in o.plan.batches ==> b.status == Done
  }

  /** Every batch of the wave is done or stuck, and it is known whether one is stuck. */
  predicate Attempted(batches: seq<Batch>, waveStart: nat, waveStuck: bool) {
    && (forall k :: waveStart <= k < |batches| ==> Finished(batches[k]))
    && (waveStuck <==> exists k :: waveStart <= k < |batches| && batches[k].status == Stuck)
  }

  lemma WaveFinished(p: Plan, q: Plan, waveStart: nat, waveStuck: bool)
    requires Continued(p, q, waveStart) && waveStart <= |p.batches| && Attempted(q.batches, waveStart, waveStuck)
    requires !waveStuck
    requires forall k :: 0 <= k < waveStart ==> p.batches[k].status == Done
    ensures |q.batches| == |p.batches| && forall b :: b in q.batches ==> b.status == Done
  {
  }

  lemma WaveDone(p: Plan, q: Plan, waveStart: nat, waveStuck: bool, o: Outcome)
    requires Continued(p, q, waveStart) && waveStart <= |p.batches| && Attempted(q.batches, waveStart, waveStuck)
    requires !waveStuck
    requires forall k :: 0 <= k < waveStart ==> p.batches[k].status == Done
    requires o.plan == q && !o.recoveryFailed
    ensures AllDone(o, p)
  {
    WaveFinished(p, q, waveStart, waveStuck);
  }

  lemma TimeMatched(s: State, t: State)
    requires Matched(s) && t.plan == s.plan && t.trace == s.trace
    ensures Matched(t)
  {
  }

  lemma OrderedWave(findings: seq<Finding>, ordered: seq<Finding>)
    requires CanonicalList(findings) && Ordering(findings, ordered) && AllSized(findings) && AllInGo(findings)
    ensures CanonicalList(ordered) && StrictlySorted(ordered, LessFinding) && AllSized(ordered) && AllInGo(ordered)
    ensures Bag(ordered) == Bag(findings) && |ordered| == |findings|
  {
    hide CanonicalList, LessFinding, Bag, AllSized, InGo;
    OrderingKeepsList(findings, ordered);
    BagOfPermutation(ordered, findings);
    assert |multiset(ordered)| == |multiset(findings)|;
    SamePermutation(ordered, findings);
  }

  /** The plan in memory with another wave behind it. */
  function Grown(s: State, next: seq<Batch>): State {
    s.(plan := s.plan.(batches := s.plan.batches + next))
  }

  lemma Growing(s: State, waves: seq<seq<Finding>>, baseline: multiset<string>, left: multiset<string>,
                findings: seq<Finding>, ordered: seq<Finding>, next: seq<Batch>, len: int)
    requires Calm(s, len) && Lineage(s.plan.batches, waves, baseline, left) && left <= baseline
    requires CanonicalList(findings) && Ordering(findings, ordered) && AllSized(findings) && AllInGo(findings)
    requires WavePlan(ordered, next) && Bag(findings) < left
    ensures var t := Grown(s, next);
            && Calm(t, len) && Unstarted(t.plan.batches, |s.plan.batches|) && Bag(findings) <= baseline
            && Lineage(t.plan.batches, waves + Repeat(ordered, |next|), baseline, Bag(findings))
  {
    hide CanonicalList, LessFinding, Bag, AllSized, AllInGo, WavePlan, Ordering;
    hide StrictlySorted, BatchesAccepted, PassedCommits, Lineage, Disciplined, Quiescent, Unstarted;
    OrderedWave(findings, ordered);
    NextWave(s.plan.batches, waves, baseline, left, ordered, next, len);
  }

  lemma Resumed(s: State, t: State, next: seq<Batch>, waves: seq<seq<Finding>>, baseline: multiset<string>,
                rest: multiset<string>, len: int)
    requires Matched(s) && Calm(t, len) && t == Persisted(Grown(s, next), Written)
    requires Unstarted(Grown(s, next).plan.batches, |s.plan.batches|)
    requires forall b :: b in s.plan.batches ==> b.status == Done
    requires Lineage(Grown(s, next).plan.batches, waves, baseline, rest) && rest <= baseline
    ensures Going(t, waves, baseline, rest, |s.plan.batches|, len) && |t.plan.batches| >= |s.plan.batches|
  {
    hide Calm, Lineage, Admissions;
    assert t.plan.batches == s.plan.batches + next;
    forall i: nat ensures Admissions(t.trace, i) == if i < |t.plan.batches| then |t.plan.batches[i].attempts| else 0 {
      assert Admissions(s.trace, i) == if i < |s.plan.batches| then |s.plan.batches[i].attempts| else 0;
    }
  }

  lemma NothingYet(s: State, len: int)
    requires s.plan == s.persisted == s.published == NO_PLAN && s.green == s.runRef == [] && s.trace == []
    requires Rails.Sound(s.rails)
    ensures Calm(s, len) && Matched(s) && Safe(s, len) && PassedCommits(s.persisted.batches) == []
  {
  }

  lemma FirstWave(s: State, findings: seq<Finding>, ordered: seq<Finding>, first: Plan, len: int)
    requires Calm(s, len) && s.plan == NO_PLAN && Ordering(findings, ordered) && WavePlan(ordered, first.batches)
    requires CanonicalList(findings) && AllSized(findings) && AllInGo(findings)
    ensures Calm(s.(plan := first), len) && Bag(ordered) == Bag(findings)
    ensures Lineage(first.batches, Repeat(ordered, |first.batches|), Bag(findings), Bag(findings))
    ensures Unstarted(first.batches, 0)
  {
    hide CanonicalList, LessFinding, Bag, AllSized, AllInGo, WavePlan;
    hide Ordering, BatchAccepted, Born, Disciplined, Quiescent, Repeat;
    OrderedWave(findings, ordered);
    NextWave([], [], Bag(findings), Bag(findings), ordered, first.batches, len);
    assert [] + first.batches == first.batches;
    assert [] + Repeat(ordered, |first.batches|) == Repeat(ordered, |first.batches|);
  }

  lemma FirstGoing(s: State, findings: seq<Finding>, ordered: seq<Finding>, first: Plan, len: int)
    requires Calm(s, len) && s.plan == s.persisted == first && s.trace == [] && Unstarted(first.batches, 0)
    requires Lineage(first.batches, Repeat(ordered, |first.batches|), Bag(findings), Bag(findings))
    ensures Going(s, Repeat(ordered, |first.batches|), Bag(findings), Bag(findings), 0, len)
  {
    hide Calm, Lineage, Bag, Repeat;
  }

  /** What Ready claims: every batch is done, and there were commits if there was anything to fix. */
  ghost predicate ReadyMeans(o: Outcome, findings: seq<Finding>) {
    o.kind == Ready ==>
      && !o.recoveryFailed && (forall b :: b in o.plan.batches ==> b.status == Done)
      && (findings != [] ==> o.plan.batches != [] && PassedCommits(o.plan.batches) != [])
  }

  lemma StoppedMeans(o: Outcome, s: State, len: int, findings: seq<Finding>)
    requires Stopped(o, s, len)
    ensures Ended(o, s, len) && ReadyMeans(o, findings)
  {
    hide PassedCommits, Safe;
  }

  /** Findings make batches, and done batches are commits. */
  lemma TurnMeans(o: Outcome, was: Plan, s: State, findings: seq<Finding>, ordered: seq<Finding>, first: Plan, len: int)
    requires Ended(o, s, len) && (o.kind == Ready ==> AllDone(o, was)) && |was.batches| >= |first.batches|
    requires Ordering(findings, ordered) && WavePlan(ordered, first.batches)
    ensures ReadyMeans(o, findings)
  {
    if o.kind == Ready && findings != [] {
      SamePermutation(ordered, findings);
      assert |multiset(ordered)| == |multiset(findings)| == |findings|;
      assert first.batches != [];
      DoneMeansCommit(o.plan.batches, len);
    }
  }
}
