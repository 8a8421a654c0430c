/** Go build constraints, and the truth tables that decide how two of them compare
    (internal/flywheel/suppression.go). */
module Constraints {

  const MAX_CONSTRAINT_TAGS := 16
  const MAX_MATCH_WORK := 1_000_000

  /** `constraint.Expr`.  `Absent` is the nil interface value, which every type switch
      of the source sends to its default case. */
  datatype Expr = Absent | Tag(name: string) | Not(x: Expr) | And(l: Expr, r: Expr) | Or(l: Expr, r: Expr)

  /** An assignment of truth values to build tags: the tags that are on. */
  type Assignment = iset<string>

  ghost predicate Holds(e: Expr, on: Assignment) {
    match e
    case Absent => false
    case Tag(name) => name in on
    case Not(x) => !Holds(x, on)
    case And(l, r) => Holds(l, on) && Holds(r, on)
    case Or(l, r) => Holds(l, on) || Holds(r, on)
  }

  ghost predicate Implies(a: Expr, b: Expr) {
    forall on: Assignment :: Holds(a, on) ==> Holds(b, on)
  }

  ghost predicate Equivalent(a: Expr, b: Expr) {
    forall on: Assignment :: Holds(a, on) <==> Holds(b, on)
  }

  // ---- the source's recursive walks

  /** A tag missing from `values` reads as false, as a Go map does. */
  predicate Eval(e: Expr, values: map<string, bool>) {
    match e
    case Absent => false
    case Tag(name) => name in values && values[name]
    case Not(x) => !Eval(x, values)
    case And(l, r) => Eval(l, values) && Eval(r, values)
    case Or(l, r) => Eval(l, values) || Eval(r, values)
  }

  function NodeCount(e: Expr): (n: int)
    ensures n >= 1
  {
    match e
    case Absent => 1
    case Tag(_) => 1
    case Not(x) => 1 + NodeCount(x)
    case And(l, r) => 1 + NodeCount(l) + NodeCount(r)
    case Or(l, r) => 1 + NodeCount(l) + NodeCount(r)
  }

  function Tags(e: Expr): set<string> {
    match e
    case Absent => {}
    case Tag(name) => {name}
    case Not(x) => Tags(x)
    case And(l, r) => Tags(l) + Tags(r)
    case Or(l, r) => Tags(l) + Tags(r)
  }

  function AllTags(left: Expr, right: Expr): set<string> {
    Tags(left) + Tags(right)
  }

  /** An expression depends on nothing but the tags collected from it. */
  lemma {:induction false} EvalDependsOnTags(e: Expr, values: map<string, bool>, on: Assignment)
    requires forall t :: t in Tags(e) ==> t in values && (values[t] <==> t in on)
    ensures Eval(e, values) <==> Holds(e, on)
  {
    match e
    case Absent =>
    case Tag(_) =>
    case Not(x) => EvalDependsOnTags(x, values, on);
    case And(l, r) => EvalDependsOnTags(l, values, on); EvalDependsOnTags(r, values, on);
    case Or(l, r) => EvalDependsOnTags(l, values, on); EvalDependsOnTags(r, values, on);
  }

  // ---- bit masks over a tag list

  /** `1 << n` */
  function Shl1(n: nat): (p: nat)
    ensures p >= 1
  {
    if n == 0 then 1 else 2 * Shl1(n - 1)
  }

  /** `mask & (1 << i) != 0` */
  predicate Bit(mask: nat, i: nat) {
    if i == 0 then mask % 2 == 1 else Bit(mask / 2, i - 1)
  }

  /** The assignment that a mask denotes: its set bits pick tags from the list. */
  function Values(names: seq<string>, mask: nat): map<string, bool>
    requires Distinct(names)
  {
    map i | 0 <= i < |names| :: names[i] := Bit(mask, i)
  }

  predicate Distinct(names: seq<string>) {
    forall i, j :: 0 <= i < j < |names| ==> names[i] != names[j]
  }

  /** Each tag once. */
  ghost predicate Lists(names: seq<string>, tags: set<string>) {
    Distinct(names) && (set n | n in names) == tags
  }

  ghost function MaskOf(names: seq<string>, on: Assignment): (mask: nat)
    ensures mask < Shl1(|names|)
  {
    if names == [] then 0 else (if names[0] in on then 1 else 0) + 2 * MaskOf(names[1..], on)
  }

  /** Counting masks from 0 to `1 << n` passes every assignment of the n tags. */
  lemma {:induction false} MaskOfBits(names: seq<string>, on: Assignment, i: nat)
    requires i < |names|
    ensures Bit(MaskOf(names, on), i) <==> names[i] in on
  {
    var rest := MaskOf(names[1..], on);
    var mask := MaskOf(names, on);
    assert mask / 2 == rest;
    if i > 0 { MaskOfBits(names[1..], on, i - 1); }
  }

  /** Every assignment is read off by some mask below `1 << n`. */
  lemma SomeMaskReads(e: Expr, names: seq<string>, on: Assignment)
    requires Distinct(names) && Tags(e) <= (set n | n in names)
    ensures MaskOf(names, on) < Shl1(|names|)
    ensures Eval(e, Values(names, MaskOf(names, on))) <==> Holds(e, on)
  {
    var mask := MaskOf(names, on);
    forall i | 0 <= i < |names| ensures Bit(mask, i) <==> names[i] in on { MaskOfBits(names, on, i); }
    EvalDependsOnTags(e, Values(names, mask), on);
  }

  /** And every mask reads off some assignment. */
  lemma MaskReadsSome(e: Expr, names: seq<string>, mask: nat)
    requires Distinct(names) && Tags(e) <= (set n | n in names)
    ensures Eval(e, Values(names, mask)) <==> Holds(e, iset n | n in names && Values(names, mask)[n])
  {
    EvalDependsOnTags(e, Values(names, mask), iset n | n in names && Values(names, mask)[n]);
  }

  // ---- truth tables

  ghost predicate ImpliesRow(left: Expr, right: Expr, names: seq<string>, mask: nat)
    requires Distinct(names)
  {
    Eval(left, Values(names, mask)) ==> Eval(right, Values(names, mask))
  }

  ghost predicate AgreeRow(left: Expr, right: Expr, names: seq<string>, mask: nat)
    requires Distinct(names)
  {
    Eval(left, Values(names, mask)) <==> Eval(right, Values(names, mask))
  }

  /** The implication holds on every row of the table. */
  ghost predicate ImpliesEverywhere(left: Expr, right: Expr, names: seq<string>)
    requires Distinct(names)
  {
    forall k: nat :: k < Shl1(|names|) ==> ImpliesRow(left, right, names, k)
  }

  ghost predicate AgreeEverywhere(left: Expr, right: Expr, names: seq<string>)
    requires Distinct(names)
  {
    forall k: nat :: k < Shl1(|names|) ==> AgreeRow(left, right, names, k)
  }

  lemma ImpliesTable(left: Expr, right: Expr, names: seq<string>)
    requires Lists(names, AllTags(left, right))
    ensures Implies(left, right) <==> ImpliesEverywhere(left, right, names)
  {
    if ImpliesEverywhere(left, right, names) {
      forall on: Assignment | Holds(left, on) ensures Holds(right, on) {
        SomeMaskReads(left, names, on);
        SomeMaskReads(right, names, on);
        assert ImpliesRow(left, right, names, MaskOf(names, on));
      }
    } else {
      var k: nat :| k < Shl1(|names|) && !ImpliesRow(left, right, names, k);
      MaskReadsSome(left, names, k);
      MaskReadsSome(right, names, k);
    }
  }

  lemma AgreeTable(left: Expr, right: Expr, names: seq<string>)
    requires Lists(names, AllTags(left, right))
    ensures Equivalent(left, right) <==> AgreeEverywhere(left, right, names)
  {
    if AgreeEverywhere(left, right, names) {
      forall on: Assignment ensures Holds(left, on) <==> Holds(right, on) {
        SomeMaskReads(left, names, on);
        SomeMaskReads(right, names, on);
        assert AgreeRow(left, right, names, MaskOf(names, on));
      }
    } else {
      var k: nat :| k < Shl1(|names|) && !AgreeRow(left, right, names, k);
      MaskReadsSome(left, names, k);
      MaskReadsSome(right, names, k);
    }
  }

  // ---- work accounting

  /** A Go `*int`. */
  class IntCell {
    var value: int
    constructor (v: int) ensures value == v { value := v; }
  }

  datatype Result<+T> = Ok(value: T) | ResourceLimit

  /** Takes `amount` out of the budget, or refuses and takes nothing. */
  method SpendSuppressionWork(budget: IntCell?, amount: int) returns (ok: bool)
    modifies budget
    ensures ok <==> budget != null && amount >= 0 && amount <= old(budget.value)
    ensures budget != null ==> budget.value == old(budget.value) - (if ok then amount else 0)
  {
    if budget == null || amount < 0 || budget.value < amount {
      return false;
    }
    budget.value := budget.value - amount;
    return true;
  }

  /** The keys of a Go map, in some order.  The source then sorts them; no result depends on the order. */
  method ListTags(tags: set<string>) returns (names: seq<string>)
    ensures Lists(names, tags) && Distinct(names) && |names| == |tags|
  {
    names := [];
    var rest := tags;
    while rest != {}
      invariant rest <= tags && Distinct(names)
      invariant (set n | n in names) == tags - rest
      invariant |names| + |rest| == |tags|
      decreases rest
    {
      var t :| t in rest;
      assert (set n | n in names + [t]) == (set n | n in names) + {t};
      names := names + [t];
      rest := rest - {t};
    }
  }

  /** What a number of truth-table rows costs. */
  ghost function RowsCost(rows: nat, unit: nat): nat {
    if rows == 0 then 0 else RowsCost(rows - 1, unit) + unit
  }

  lemma {:induction false} MoreRowsCostMore(a: nat, b: nat, unit: nat)
    requires a <= b
    ensures RowsCost(a, unit) <= RowsCost(b, unit)
  {
    if a < b { MoreRowsCostMore(a, b - 1, unit); }
  }

  ghost function TagCount(left: Expr, right: Expr): nat {
    |AllTags(left, right)|
  }

  lemma OneMoreRow(rows: nat, limit: nat, unit: nat)
    requires rows < limit
    ensures RowsCost(rows + 1, unit) == RowsCost(rows, unit) + unit <= RowsCost(limit, unit)
  {
    MoreRowsCostMore(rows + 1, limit, unit);
  }

  /** The most that a whole comparison spends: one evaluation of both sides per mask. */
  ghost function ImpliesCost(left: Expr, right: Expr): nat {
    RowsCost(Shl1(TagCount(left, right)), NodeCount(left) + NodeCount(right))
  }

  ghost function EquivalentCost(left: Expr, right: Expr): nat {
    RowsCost(Shl1(TagCount(left, right)), NodeCount(left) + NodeCount(right) + TagCount(left, right))
  }

  /** The counters cannot pay `cost`. */
  ghost predicate Short(left: int, used: int, cost: nat) {
    left < cost || used + cost > MAX_MATCH_WORK
  }

  /** The counters moved together, by at most `most`, and stayed inside their limits. */
  ghost predicate Paid(left0: int, work0: int, left1: int, work1: int, most: nat) {
    && left0 - left1 == work1 - work0 && 0 <= work1 - work0 <= most
    && (work0 <= MAX_MATCH_WORK ==> work1 <= MAX_MATCH_WORK)
    && (left0 >= 0 ==> left1 >= 0)
  }

  ghost function Left(budget: IntCell?): int
    reads budget
  {
    if budget == null then -1 else budget.value
  }

  ghost function Used(work: IntCell?): int
    reads work
  {
    if work == null then 0 else work.value
  }

  /** No counter passes its limit, and a finished comparison charges both alike, by at most `most`. */
  twostate predicate Charged(work: IntCell?, budget: IntCell?, most: int, finished: bool)
    reads work, budget
  {
    && Left(budget) <= old(Left(budget)) && Used(work) >= old(Used(work))
    && (old(Left(budget)) >= 0 ==> Left(budget) >= 0)
    && (old(Used(work)) <= MAX_MATCH_WORK ==> Used(work) <= MAX_MATCH_WORK)
    && (finished ==>
          && old(Left(budget)) - Left(budget) <= most
          && (work != null ==> Used(work) - old(Used(work)) == old(Left(budget)) - Left(budget)))
  }

  /** One row of a truth table is paid for before it is evaluated. */
  method ChargeRow(work: IntCell?, budget: IntCell?, unit: int) returns (ok: bool)
    requires unit >= 0
    requires work != null ==> work != budget
    modifies work, budget
    ensures ok <==> old(Left(budget)) >= unit && (work == null || old(Used(work)) + unit <= MAX_MATCH_WORK)
    ensures ok ==> Left(budget) == old(Left(budget)) - unit && (work != null ==> Used(work) == old(Used(work)) + unit)
    ensures Charged(work, budget, unit, ok)
  {
    var paid := SpendSuppressionWork(budget, unit);
    if !paid {
      return false;
    }
    if work != null {
      if work.value > MAX_MATCH_WORK - unit {
        return false;
      }
      work.value := work.value + unit;
    }
    return true;
  }

  /** The loop of `constraintImplies`: rows are paid for and evaluated until one refutes the implication. */
  method ScanImplies(left: Expr, right: Expr, names: seq<string>, unit: nat, work: IntCell, budget: IntCell?)
    returns (r: Result<bool>)
    requires Distinct(names) && work != budget
    modifies work, budget
    ensures r.Ok? ==> (r.value <==> ImpliesEverywhere(left, right, names))
    ensures r.ResourceLimit? ==> Short(old(Left(budget)), old(Used(work)), RowsCost(Shl1(|names|), unit))
    ensures Charged(work, budget, RowsCost(Shl1(|names|), unit), r.Ok?)
  {
    var rows := Shl1(|names|);
    var mask: nat := 0;
    assert RowsCost(0, unit) == 0;
    hide Shl1, RowsCost, Eval, Values, Distinct;
    while mask < rows
      invariant mask <= rows
      invariant Left(budget) == old(Left(budget)) - RowsCost(mask, unit)
      invariant Used(work) == old(Used(work)) + RowsCost(mask, unit)
      invariant Charged(work, budget, RowsCost(mask, unit), true)
      invariant forall k: nat :: k < mask ==> ImpliesRow(left, right, names, k)
    {
      OneMoreRow(mask, rows, unit);
      var ok := ChargeRow(work, budget, unit);
      if !ok {
        return ResourceLimit;
      }
      var values := Values(names, mask);
      if Eval(left, values) && !Eval(right, values) {
        assert !ImpliesRow(left, right, names, mask);
        return Ok(false);
      }
      mask := mask + 1;
    }
    return Ok(true);
  }

  lemma TableCost(left: Expr, right: Expr, n: nat)
    requires n == |AllTags(left, right)|
    ensures n == TagCount(left, right)
    ensures ImpliesCost(left, right) == RowsCost(Shl1(n), NodeCount(left) + NodeCount(right))
    ensures EquivalentCost(left, right) == RowsCost(Shl1(n), NodeCount(left) + NodeCount(right) + n)
  {
    hide NodeCount, Shl1, RowsCost, AllTags;
  }

  method ConstraintImplies(left: Expr, right: Expr, work: IntCell, budget: IntCell?) returns (r: Result<bool>)
    requires work != budget
    modifies work, budget
    ensures r.Ok? ==> (r.value <==> Implies(left, right))
    ensures r.ResourceLimit? ==>
      TagCount(left, right) > MAX_CONSTRAINT_TAGS ||
      Short(old(Left(budget)), old(Used(work)), ImpliesCost(left, right))
    ensures Charged(work, budget, ImpliesCost(left, right), r.Ok?)
  {
    hide Implies, ImpliesEverywhere, RowsCost, Shl1, NodeCount, AllTags;
    hide Lists, Distinct, Short, Left, Used, TagCount, ImpliesCost;
    var names := ListTags(AllTags(left, right));
    TableCost(left, right, |names|);
    if |names| > MAX_CONSTRAINT_TAGS {
      return ResourceLimit;
    }
    ImpliesTable(left, right, names);
    r := ScanImplies(left, right, names, NodeCount(left) + NodeCount(right), work, budget);
  }

  /** The loop of `constraintsEquivalent`. */
  method ScanAgree(left: Expr, right: Expr, names: seq<string>, unit: nat, work: IntCell?, budget: IntCell?)
    returns (r: Result<bool>)
    requires Distinct(names) && (work != null ==> work != budget)
    modifies work, budget
    ensures r.Ok? ==> (r.value <==> AgreeEverywhere(left, right, names))
    ensures r.ResourceLimit? ==> Short(old(Left(budget)), old(Used(work)), RowsCost(Shl1(|names|), unit))
    ensures Charged(work, budget, RowsCost(Shl1(|names|), unit), r.Ok?)
  {
    var rows := Shl1(|names|);
    var mask: nat := 0;
    assert RowsCost(0, unit) == 0;
    hide Shl1, RowsCost, Eval, Values, Distinct;
    while mask < rows
      invariant mask <= rows
      invariant Left(budget) == old(Left(budget)) - RowsCost(mask, unit)
      invariant work != null ==> Used(work) == old(Used(work)) + RowsCost(mask, unit)
      invariant Charged(work, budget, RowsCost(mask, unit), true)
      invariant forall k: nat :: k < mask ==> AgreeRow(left, right, names, k)
    {
      OneMoreRow(mask, rows, unit);
      var ok := ChargeRow(work, budget, unit);
      if !ok {
        return ResourceLimit;
      }
      var values := Values(names, mask);
      if Eval(left, values) != Eval(right, values) {
        assert !AgreeRow(left, right, names, mask);
        return Ok(false);
      }
      mask := mask + 1;
    }
    return Ok(true);
  }

  /** The legacy-directive pass has no match work to charge and passes null for it. */
  method ConstraintsEquivalent(left: Expr, right: Expr, work: IntCell?, budget: IntCell?) returns (r: Result<bool>)
    requires work != null ==> work != budget
    modifies work, budget
    ensures r.Ok? ==> (r.value <==> Equivalent(left, right))
    ensures r.ResourceLimit? ==>
      TagCount(left, right) > MAX_CONSTRAINT_TAGS ||
      Short(old(Left(budget)), old(Used(work)), EquivalentCost(left, right))
    ensures Charged(work, budget, EquivalentCost(left, right), r.Ok?)
  {
    hide Equivalent, AgreeEverywhere, RowsCost, Shl1, NodeCount, AllTags;
    hide Lists, Distinct, Short, Left, Used, TagCount, EquivalentCost;
    var names := ListTags(AllTags(left, right));
    TableCost(left, right, |names|);
    if |names| > MAX_CONSTRAINT_TAGS {
      return ResourceLimit;
    }
    AgreeTable(left, right, names);
    r := ScanAgree(left, right, names, NodeCount(left) + NodeCount(right) + |names|, work, budget);
  }
}
