/** The transaction log that proves a landing (internal/flywheel/landing.go:677-722). */
module LandingEvidence {
  import opened Options
  import opened Text

  /** What is read back of ORIG_HEAD. */
  datatype OrigHead = OrigHead(exists_: bool, regular: bool, bytes: string)

  // ---- shapes

  function TrimLeft(s: string): string {
    if s != "" && IsSpace(s[0]) then TrimLeft(s[1..]) else s
  }

  function TrimRight(s: string): string {
    if s != "" && IsSpace(s[|s| - 1]) then TrimRight(s[..|s| - 1]) else s
  }

  /** `strings.TrimSpace` */
  function TrimSpace(s: string): string {
    TrimRight(TrimLeft(s))
  }

  predicate ContainsAny(s: string, chars: string) {
    exists c :: c in s && c in chars
  }

  predicate KnownStage(stage: string) {
    stage == "preparing" || stage == "prepared" || stage == "committed" || stage == "aborted"
  }

  /** nonce, stage, old value, new value, ref */
  predicate WellFormed(nonce: string, line: seq<string>) {
    |line| == 5 && line[0] == nonce && KnownStage(line[1])
  }

  datatype Transition = Transition(stage: string, old_: string, next: string)

  /** The transitions of one ref, without the announcement that opens each transaction. */
  function Projection(lines: seq<seq<string>>, ref: string): seq<Transition> {
    if lines == [] then []
    else
      var n := |lines| - 1;
      var line := lines[n];
      Projection(lines[..n], ref) +
      (if |line| == 5 && line[4] == ref && line[1] != "preparing" then [Transition(line[1], line[2], line[3])] else [])
  }

  function LogLines(transaction: string): seq<seq<string>> {
    var rows := Split(TrimSpace(transaction), '\n');
    seq(|rows|, i requires 0 <= i < |rows| => Split(rows[i], '\t'))
  }

  predicate ValidOrigHead(head: OrigHead) {
    head.exists_ && head.regular && ValidObjectID(TrimSpace(head.bytes)) && !ContainsAny(head.bytes, " \t\r")
  }

  /** The log shows one transaction on the ref: prepared, then committed, from `from` to `to`. */
  predicate ShowsCommit(nonce: string, lines: seq<seq<string>>, ref: string, from: string, to: string) {
    && (forall line :: line in lines ==> WellFormed(nonce, line))
    && Projection(lines, ref) == [Transition("prepared", from, to), Transition("committed", from, to)]
  }

  /** What is read back after a landing. */
  datatype Evidence = Evidence(nonce: string, transaction: string, head: OrigHead)

  /** The evidence is authentic, and says that the ref went from `from` to `to`. */
  predicate Proves(e: Evidence, ref: string, from: string, to: string) {
    && ValidOrigHead(e.head) && TrimSpace(e.head.bytes) == from
    && ShowsCommit(e.nonce, LogLines(e.transaction), ref, from, to)
  }

  lemma {:induction false} ProjectionGrows(lines: seq<seq<string>>, ref: string, n: nat)
    requires n <= |lines|
    ensures Projection(lines[..n], ref) <= Projection(lines, ref)
    decreases |lines|
  {
    if n == |lines| {
      assert lines[..n] == lines;
    } else {
      var last := |lines| - 1;
      ProjectionGrows(lines[..last], ref, n);
      assert lines[..last][..n] == lines[..n];
    }
  }

  /** Where the loop stands after n lines. */
  function Expected(from: string, to: string, state: int): seq<Transition> {
    [Transition("prepared", from, to), Transition("committed", from, to)]
      [..if state < 0 then 0 else if state > 2 then 2 else state]
  }

  /** One turn of the loop: the new state, or -1 for a refusal. */
  function NextState(line: seq<string>, ref: string, from: string, to: string, state: int): int
    requires |line| == 5
  {
    if line[4] != ref || line[1] == "preparing" then state
    else if line[3] != to || line[2] != from then -1
    else if line[1] == "prepared" then (if state == 0 then 1 else -1)
    else if line[1] == "committed" then (if state == 1 then 2 else -1)
    else -1
  }

  lemma StateFollowsProjection(lines: seq<seq<string>>, n: nat, nonce: string, ref: string, from: string, to: string,
                               state: int)
    requires n < |lines| && WellFormed(nonce, lines[n]) && 0 <= state <= 2
    requires Projection(lines[..n], ref) == Expected(from, to, state)
    ensures var next := NextState(lines[n], ref, from, to, state);
            && (next >= 0 ==> next <= 2 && Projection(lines[..n + 1], ref) == Expected(from, to, next))
            && (next < 0 ==> !(Projection(lines[..n + 1], ref) <= Expected(from, to, 2)))
  {
    var line := lines[n];
    var front := lines[..n + 1];
    assert front[..n] == lines[..n] && front[n] == line;
    var next := NextState(line, ref, from, to, state);
    if line[4] == ref && line[1] != "preparing" {
      var t := Transition(line[1], line[2], line[3]);
      assert Projection(front, ref) == Expected(from, to, state) + [t];
      assert |Expected(from, to, state)| == state && (Expected(from, to, state) + [t])[state] == t;
    }
  }

  /** The loop over the log, with its `state` variable. */
  method ScanLog(nonce: string, lines: seq<seq<string>>, featureRef: string, actual: string, squash: string)
    returns (ok: bool)
    ensures ok <==> ShowsCommit(nonce, lines, featureRef, actual, squash)
  {
    hide Projection, WellFormed, Expected, NextState;
    var state := 0;
    EmptyProjection(lines, featureRef, actual, squash);
    WholeExpected(actual, squash);
    var i := 0;
    while i < |lines|
      invariant 0 <= i <= |lines| && 0 <= state <= 2
      invariant forall k :: 0 <= k < i ==> WellFormed(nonce, lines[k])
      invariant Projection(lines[..i], featureRef) == Expected(actual, squash, state)
    {
      if !WellFormed(nonce, lines[i]) {
        assert lines[i] in lines;
        return false;
      }
      FiveFields(nonce, lines[i]);
      StateFollowsProjection(lines, i, nonce, featureRef, actual, squash, state);
      ProjectionGrows(lines, featureRef, i + 1);
      state := NextState(lines[i], featureRef, actual, squash, state);
      if state < 0 {
        return false;
      }
      i := i + 1;
    }
    assert lines[..i] == lines;
    ExpectedGrows(actual, squash, state);
    return state == 2;
  }

  method AuthenticateLandingEvidence(nonce: string, transaction: string, head: OrigHead, squash: string,
                                     featureRef: string)
    returns (r: Option<string>)
    ensures r.Some? <==>
      ValidOrigHead(head) && ShowsCommit(nonce, LogLines(transaction), featureRef, TrimSpace(head.bytes), squash)
    ensures r.Some? ==> r.value == TrimSpace(head.bytes)
  {
    if !head.exists_ || !head.regular {
      return None;
    }
    var actual := TrimSpace(head.bytes);
    if !ValidObjectID(actual) || ContainsAny(head.bytes, " \t\r") {
      return None;
    }
    hide ShowsCommit, LogLines;
    var ok := ScanLog(nonce, LogLines(transaction), featureRef, actual, squash);
    return if ok then Some(actual) else None;
  }

  lemma EmptyProjection(lines: seq<seq<string>>, ref: string, from: string, to: string)
    ensures Projection(lines[..0], ref) == Expected(from, to, 0)
  {
  }

  lemma FiveFields(nonce: string, line: seq<string>)
    requires WellFormed(nonce, line)
    ensures |line| == 5
  {
  }

  lemma WholeExpected(from: string, to: string)
    ensures Expected(from, to, 2) == [Transition("prepared", from, to), Transition("committed", from, to)]
  {
  }

  lemma ExpectedGrows(from: string, to: string, state: int)
    requires 0 <= state <= 2
    ensures Expected(from, to, state) == Expected(from, to, 2) ==> state == 2
  {
    assert |Expected(from, to, state)| == state;
  }
}
