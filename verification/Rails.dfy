/** Execution rails: an iteration budget and a wall-clock budget under an arbitrary clock
    (internal/flywheel/rails.go), and the report evidence made from them
    (internal/run/fix.go:656-665, internal/run/ledger.go:793-798). */
module Rails {

  datatype RailKind = Iterations | WallClock

  datatype Admission = Admitted | Exhausted(rail: RailKind) | Uninitialized

  /** The fields of a `Rails` value.  Times and durations are nanoseconds. */
  datatype View = View(maxIterations: int, iterations: int, maxWallClock: int, startedAt: int, deadline: int,
                       observedAt: int)

  datatype Snapshot = Snapshot(maxIterations: int, iterations: int, maxWallClock: int, elapsed: int)

  /** What construction establishes and every call keeps. */
  predicate Sound(v: View) {
    && v.maxIterations > 0 && 0 <= v.iterations <= v.maxIterations
    && v.maxWallClock > 0 && v.deadline == v.startedAt + v.maxWallClock && v.observedAt >= v.startedAt
  }

  predicate TimeUp(v: View) {
    v.observedAt >= v.deadline
  }

  /** A rail is used up. */
  predicate Spent(v: View) {
    TimeUp(v) || v.iterations >= v.maxIterations
  }

  function Elapsed(v: View): int {
    if v.observedAt < v.startedAt then 0 else v.observedAt - v.startedAt
  }

  // ---- what each call does to the fields

  datatype Call =
    | CallAdmitAttempt(now: int)
    | CallAdmitLanding(now: int)
    | CallExecutionContext(now: int)
    | CallObserveContext(railCause: bool)
    | CallSnapshot(now: int)

  function Observed(v: View, now: int): View {
    if now > v.observedAt then v.(observedAt := now) else v
  }

  function After(v: View, call: Call): View {
    match call
    case CallAdmitAttempt(now) =>
      var seen := Observed(v, now);
      if TimeUp(seen) || seen.iterations >= seen.maxIterations then seen else seen.(iterations := seen.iterations + 1)
    case CallAdmitLanding(now) => Observed(v, now)
    case CallExecutionContext(now) => Observed(v, now)
    case CallSnapshot(now) => Observed(v, now)
    case CallObserveContext(railCause) =>
      if railCause && v.deadline > v.observedAt then v.(observedAt := v.deadline) else v
  }

  function Answer(v: View, call: Call): Admission {
    match call
    case CallAdmitAttempt(now) =>
      if TimeUp(Observed(v, now)) then Exhausted(WallClock)
      else if v.iterations >= v.maxIterations then Exhausted(Iterations)
      else Admitted
    case CallAdmitLanding(now) => if TimeUp(Observed(v, now)) then Exhausted(WallClock) else Admitted
    case CallExecutionContext(now) =>
      if v.maxWallClock - Elapsed(Observed(v, now)) <= 0 then Exhausted(WallClock) else Admitted
    case CallSnapshot(_) => Admitted
    case CallObserveContext(_) => Admitted
  }

  // ---- the class

  class Rails {
    var maxIterations: int
    var iterations: int
    var maxWallClock: int
    var startedAt: int
    var deadline: int
    var observedAt: int

    function Fields(): View
      reads this
    {
      View(maxIterations, iterations, maxWallClock, startedAt, deadline, observedAt)
    }

    constructor (maxIterations: int, maxWallClock: int, now: int)
      requires maxIterations > 0 && maxWallClock > 0
      ensures Fields() == View(maxIterations, 0, maxWallClock, now, now + maxWallClock, now)
    {
      this.maxIterations, this.iterations, this.maxWallClock := maxIterations, 0, maxWallClock;
      this.startedAt, this.deadline, this.observedAt := now, now + maxWallClock, now;
    }

    predicate Initialized()
      reads this
    {
      maxIterations > 0 && maxWallClock > 0
    }

    method ObserveLocked(now: int) returns (observed: int)
      modifies this`observedAt
      ensures Fields() == Observed(old(Fields()), now) && observed == observedAt
    {
      if now > observedAt {
        observedAt := now;
      }
      return observedAt;
    }

    method AdmitAttempt(now: int) returns (r: Admission)
      modifies this
      ensures !old(Initialized()) ==> r == Uninitialized && Fields() == old(Fields())
      ensures old(Initialized()) ==>
        r == Answer(old(Fields()), CallAdmitAttempt(now)) && Fields() == After(old(Fields()), CallAdmitAttempt(now))
    {
      if !Initialized() {
        return Uninitialized;
      }
      var observed := ObserveLocked(now);
      if !(observed < deadline) {
        return Exhausted(WallClock);
      }
      if iterations >= maxIterations {
        return Exhausted(Iterations);
      }
      iterations := iterations + 1;
      return Admitted;
    }

    method AdmitLanding(now: int) returns (r: Admission)
      modifies this
      ensures !old(Initialized()) ==> r == Uninitialized && Fields() == old(Fields())
      ensures old(Initialized()) ==>
        r == Answer(old(Fields()), CallAdmitLanding(now)) && Fields() == After(old(Fields()), CallAdmitLanding(now))
    {
      if !Initialized() {
        return Uninitialized;
      }
      var observed := ObserveLocked(now);
      if !(observed < deadline) {
        return Exhausted(WallClock);
      }
      return Admitted;
    }

    method TakeSnapshot(now: int) returns (s: Snapshot)
      modifies this
      ensures Fields() == After(old(Fields()), CallSnapshot(now))
      ensures s == Snapshot(maxIterations, iterations, maxWallClock, Elapsed(Fields()))
    {
      var observed := ObserveLocked(now);
      var elapsed := observed - startedAt;
      if elapsed < 0 {
        elapsed := 0;
      }
      return Snapshot(maxIterations, iterations, maxWallClock, elapsed);
    }

    /** Bounds work by what is left of the wall clock; the deadline of the returned context is not modelled. */
    method ExecutionContext(now: int) returns (r: Admission)
      modifies this
      ensures !old(Initialized()) ==> r == Uninitialized && Fields() == old(Fields())
      ensures old(Initialized()) ==>
        r == Answer(old(Fields()), CallExecutionContext(now)) &&
        Fields() == After(old(Fields()), CallExecutionContext(now))
    {
      if !Initialized() {
        return Uninitialized;
      }
      var snapshot := TakeSnapshot(now);
      if snapshot.maxWallClock - snapshot.elapsed <= 0 {
        return Exhausted(WallClock);
      }
      return Admitted;
    }

    /** A context cancelled by the wall-clock rail counts as time observed, whatever the clock says. */
    method ObserveExecutionContext(railCause: bool)
      modifies this`observedAt
      ensures Fields() == After(old(Fields()), CallObserveContext(railCause))
    {
      if railCause && deadline > observedAt {
        observedAt := deadline;
      }
    }
  }

  /** Refuses limits that are not positive. */
  method NewRails(maxIterations: int, maxWallClock: int, now: int) returns (rails: Rails?)
    ensures rails == null <==> maxIterations <= 0 || maxWallClock <= 0
    ensures rails != null ==> fresh(rails) && Sound(rails.Fields()) && rails.iterations == 0
  {
    if maxIterations <= 0 || maxWallClock <= 0 {
      return null;
    }
    rails := new Rails(maxIterations, maxWallClock, now);
  }

  // ---- every sequence of calls, under any clock

  function Run(v: View, calls: seq<Call>): View {
    if calls == [] then v else After(Run(v, calls[..|calls| - 1]), calls[|calls| - 1])
  }

  /** How many attempts a sequence of calls admits. */
  function AdmittedAttempts(v: View, calls: seq<Call>): nat {
    if calls == [] then 0
    else
      var n := |calls| - 1;
      AdmittedAttempts(v, calls[..n]) +
      (if calls[n].CallAdmitAttempt? && Answer(Run(v, calls[..n]), calls[n]) == Admitted then 1 else 0)
  }

  /** Time never runs backwards, the budgets are respected, and every admitted attempt is counted once. */
  lemma {:induction false} RunKeeps(v: View, calls: seq<Call>)
    requires Sound(v)
    ensures var w := Run(v, calls);
            && Sound(w) && w.observedAt >= v.observedAt
            && w.iterations == v.iterations + AdmittedAttempts(v, calls)
            && w == v.(iterations := w.iterations, observedAt := w.observedAt)
  {
    if calls != [] { RunKeeps(v, calls[..|calls| - 1]); }
  }

  /** Once the wall clock is up nothing is admitted any more, however the clock behaves. */
  lemma {:induction false} ExhaustionIsPermanent(v: View, calls: seq<Call>, call: Call)
    requires Sound(v) && TimeUp(v)
    requires call.CallAdmitAttempt? || call.CallAdmitLanding? || call.CallExecutionContext?
    ensures Answer(Run(v, calls), call) == Exhausted(WallClock)
  {
    RunKeeps(v, calls);
  }

  /** No rail refuses before one is used up, and a refusal is visible in the fields afterwards. */
  lemma RefusalMeansSpent(v: View, call: Call)
    requires Sound(v)
    ensures Answer(v, call).Exhausted? ==> Spent(After(v, call))
    ensures Answer(v, call) == Exhausted(Iterations) ==> call.CallAdmitAttempt? && v.iterations == v.maxIterations
    ensures call.CallAdmitAttempt? && Answer(v, call) == Admitted ==> !Spent(v)
  {
  }

  // ---- report evidence

  const MILLISECOND := 1_000_000

  /** Rounds up to whole milliseconds. */
  function ReportMilliseconds(duration: int): int {
    if duration <= 0 then 0
    else duration / MILLISECOND + (if duration % MILLISECOND != 0 then 1 else 0)
  }

  /** What the report shows of the fields. */
  function Shown(v: View): Snapshot {
    Snapshot(v.maxIterations, v.iterations, v.maxWallClock, Elapsed(v))
  }

  /** The accounting rules of `validateFixReport`, and the evidence it wants for a rails verdict. */
  predicate AccountingAccepted(s: Snapshot) {
    && s.maxIterations > 0 && 0 <= s.iterations <= s.maxIterations
    && ReportMilliseconds(s.maxWallClock) > 0 && ReportMilliseconds(s.elapsed) >= 0
  }

  predicate RailsVerdictAccepted(s: Snapshot) {
    !(s.iterations < s.maxIterations && ReportMilliseconds(s.elapsed) < ReportMilliseconds(s.maxWallClock))
  }

  /** Whatever happens between a used-up rail and the report, the report is accepted. */
  lemma SpentIsAccepted(v: View, calls: seq<Call>, now: int)
    requires Sound(v)
    ensures var w := Observed(Run(v, calls), now);
            var s := Shown(w);
            AccountingAccepted(s) && (Spent(v) ==> RailsVerdictAccepted(s))
  {
    RunKeeps(v, calls);
  }

  /** The smallest time that is rounded up as far as the wall-clock limit is. */
  function Lenient(v: View): int {
    (ReportMilliseconds(v.maxWallClock) - 1) * MILLISECOND + 1
  }

  /** Rounding up is one number of milliseconds on all of a left-open interval. */
  lemma RoundsUp(duration: int, k: int)
    requires k > 0
    ensures ReportMilliseconds(duration) >= k <==> duration > (k - 1) * MILLISECOND
  {
    var q, r := duration / MILLISECOND, duration % MILLISECOND;
    assert duration == q * MILLISECOND + r;
  }

  /** The evidence is accepted exactly when a rail is used up, or when the clock is in the same millisecond as its
      limit; so it is accepted wrongly exactly in the last moments before the limit. */
  lemma VerdictAcceptedExactly(v: View)
    requires Sound(v)
    ensures RailsVerdictAccepted(Shown(v)) <==> Spent(v) || Elapsed(v) >= Lenient(v)
    ensures RailsVerdictAccepted(Shown(v)) && !Spent(v) <==>
      v.iterations < v.maxIterations && Lenient(v) <= Elapsed(v) < v.maxWallClock
  {
    RoundsUp(Elapsed(v), ReportMilliseconds(v.maxWallClock));
  }

  /** Such moments exist for every wall-clock limit but those one nanosecond past a whole millisecond. */
  lemma WrongVerdictsExactly(maxIterations: int, maxWallClock: int)
    requires maxIterations > 0 && maxWallClock > 0
    ensures maxWallClock % MILLISECOND != 1 <==>
      exists v: View :: && Sound(v) && v.maxIterations == maxIterations && v.maxWallClock == maxWallClock
                        && !Spent(v) && RailsVerdictAccepted(Shown(v))
  {
    var latest := View(maxIterations, 0, maxWallClock, 0, maxWallClock, maxWallClock - 1);
    VerdictAcceptedExactly(latest);
    LenientLimit(latest);
    forall v: View | Sound(v) && v.maxWallClock == maxWallClock && !Spent(v) && RailsVerdictAccepted(Shown(v))
      ensures maxWallClock % MILLISECOND != 1
    {
      VerdictAcceptedExactly(v);
      LenientLimit(v);
    }
  }

  lemma LenientLimit(v: View)
    requires v.maxWallClock > 0
    ensures Lenient(v) == v.maxWallClock <==> v.maxWallClock % MILLISECOND == 1
    ensures Lenient(v) <= v.maxWallClock
  {
    var q, r := v.maxWallClock / MILLISECOND, v.maxWallClock % MILLISECOND;
    assert v.maxWallClock == q * MILLISECOND + r;
  }

  /** One of them: 1.2 of 1.5 milliseconds are shown as 2 of 2. */
  lemma RoundingMayAccuseEarly()
    ensures var v := View(2, 1, 1_500_000, 0, 1_500_000, 1_200_000);
            Sound(v) && !Spent(v) && RailsVerdictAccepted(Shown(v))
  {
    assert ReportMilliseconds(1_200_000) == 2 && ReportMilliseconds(1_500_000) == 2;
  }
}
