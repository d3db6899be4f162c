/** The simulator's `--shrink`: greedy descent to a locally smallest profile that still
    fails the same way. */
module Shrink {

  const AXES: nat := 6
  const OP_CLASSES: nat := 8

  /** The shrinkable dimensions of a simulated world; `rest` stands for the fields the
      search never touches. */
  datatype Profile = Profile(
    ops: nat, buckets: nat, nodes: nat, packages: nat, files: nat, failPercent: nat,
    partitionPercent: nat, weights: seq<nat>, rest: string)

  /** Does this profile still fail the same way on the seed at hand? */
  type Oracle = Profile -> bool

  predicate Valid(p: Profile) {
    |p.weights| == OP_CLASSES
  }

  function Get(p: Profile, axis: nat): nat
    requires axis < AXES
  {
    [p.ops, p.buckets, p.nodes, p.packages, p.files, p.failPercent][axis]
  }

  function Set(p: Profile, axis: nat, value: nat): (p': Profile)
    requires axis < AXES
    ensures Get(p', axis) == value
    ensures forall a :: 0 <= a < AXES && a != axis ==> Get(p', a) == Get(p, a)
    ensures p'.partitionPercent == p.partitionPercent && p'.weights == p.weights && p'.rest == p.rest
  {
    match axis
    case 0 => p.(ops := value)
    case 1 => p.(buckets := value)
    case 2 => p.(nodes := value)
    case 3 => p.(packages := value)
    case 4 => p.(files := value)
    case _ => p.(failPercent := value)
  }

  function Floor(axis: nat): nat {
    if axis == 5 then 0 else 1
  }

  predicate AllZero(weights: seq<nat>) {
    forall i :: 0 <= i < |weights| ==> weights[i] == 0
  }

  function ZeroClass(p: Profile, class': nat): Profile
    requires class' < |p.weights|
  {
    p.(weights := p.weights[class' := 0])
  }

  /** A class may be zeroed when it is not zero already and something remains. */
  predicate MayZero(p: Profile, class': nat)
    requires class' < |p.weights|
  {
    p.weights[class'] != 0 && !AllZero(p.weights[class' := 0])
  }

  // ----- What a result owes ----------------------------------------------------------------

  ghost predicate AxesMinimal(p: Profile, fails: Oracle, upTo: nat)
    requires upTo <= AXES
  {
    forall a, v :: 0 <= a < upTo && Floor(a) <= v < Get(p, a) ==> !fails(Set(p, a, v))
  }

  predicate PartitionMinimal(p: Profile, fails: Oracle) {
    p.partitionPercent > 0 ==> !fails(p.(partitionPercent := 0))
  }

  ghost predicate ClassesMinimal(p: Profile, fails: Oracle, upTo: nat)
    requires upTo <= |p.weights|
  {
    forall c :: 0 <= c < upTo && MayZero(p, c) ==> !fails(ZeroClass(p, c))
  }

  /** Left alone, or lowered no further than the floor. */
  predicate Lowered(v: nat, was: nat, floor: nat) {
    v == was || floor <= v < was
  }

  predicate TwoRun(weights: seq<nat>, c: int, d: int) {
    0 <= c < |weights| && 0 <= d < |weights| && c != d && weights[c] != 0 && weights[d] != 0
  }

  /** No world smaller in one dimension still fails, nor one without the partition, nor one
      without one of several operation classes. */
  ghost predicate LocallyMinimal(p: Profile, fails: Oracle) {
    && (forall v :: 1 <= v < p.ops ==> !fails(p.(ops := v)))
    && (forall v :: 1 <= v < p.buckets ==> !fails(p.(buckets := v)))
    && (forall v :: 1 <= v < p.nodes ==> !fails(p.(nodes := v)))
    && (forall v :: 1 <= v < p.packages ==> !fails(p.(packages := v)))
    && (forall v :: 1 <= v < p.files ==> !fails(p.(files := v)))
    && (forall v :: 0 <= v < p.failPercent ==> !fails(p.(failPercent := v)))
    && (p.partitionPercent > 0 ==> !fails(p.(partitionPercent := 0)))
    && (forall c, d :: TwoRun(p.weights, c, d) ==> !fails(p.(weights := p.weights[c := 0])))
  }

  lemma FixpointIsMinimal(p: Profile, fails: Oracle)
    requires Valid(p)
    requires AxesMinimal(p, fails, AXES) && PartitionMinimal(p, fails) && ClassesMinimal(p, fails, OP_CLASSES)
    ensures LocallyMinimal(p, fails)
  {
    forall v | 1 <= v < p.ops ensures !fails(p.(ops := v)) {
      assert !fails(Set(p, 0, v));
    }
    forall v | 1 <= v < p.buckets ensures !fails(p.(buckets := v)) {
      assert !fails(Set(p, 1, v));
    }
    forall v | 1 <= v < p.nodes ensures !fails(p.(nodes := v)) {
      assert !fails(Set(p, 2, v));
    }
    forall v | 1 <= v < p.packages ensures !fails(p.(packages := v)) {
      assert !fails(Set(p, 3, v));
    }
    forall v | 1 <= v < p.files ensures !fails(p.(files := v)) {
      assert !fails(Set(p, 4, v));
    }
    forall v | 0 <= v < p.failPercent ensures !fails(p.(failPercent := v)) {
      assert !fails(Set(p, 5, v));
    }
    forall c, d | TwoRun(p.weights, c, d) ensures !fails(p.(weights := p.weights[c := 0])) {
      assert p.weights[c := 0][d] != 0;
      assert MayZero(p, c);
      assert !fails(ZeroClass(p, c));
    }
  }

  /** `p` is no bigger than `q` in any dimension, and otherwise the same. */
  ghost predicate Within(p: Profile, q: Profile) {
    && Lowered(p.ops, q.ops, 1) && Lowered(p.buckets, q.buckets, 1) && Lowered(p.nodes, q.nodes, 1)
    && Lowered(p.packages, q.packages, 1) && Lowered(p.files, q.files, 1) && Lowered(p.failPercent, q.failPercent, 0)
    && (p.partitionPercent == q.partitionPercent || p.partitionPercent == 0)
    && |p.weights| == |q.weights|
    && (forall c :: 0 <= c < |p.weights| ==> p.weights[c] == q.weights[c] || p.weights[c] == 0)
    && p.rest == q.rest
  }

  // ----- The measure every accepted move lowers ----------------------------------------------

  function NonZero(weights: seq<nat>): nat {
    if weights == [] then 0 else (if weights[0] != 0 then 1 else 0) + NonZero(weights[1..])
  }

  function AxisSum(p: Profile): nat {
    p.ops + p.buckets + p.nodes + p.packages + p.files + p.failPercent
  }

  function Measure(p: Profile): nat {
    AxisSum(p) + (if p.partitionPercent > 0 then 1 else 0) + NonZero(p.weights)
  }

  lemma {:induction false} ZeroingLowers(weights: seq<nat>, c: nat)
    requires c < |weights| && weights[c] != 0
    ensures NonZero(weights[c := 0]) == NonZero(weights) - 1
  {
    if c == 0 {
      assert weights[c := 0][1..] == weights[1..];
    } else {
      assert weights[c := 0][1..] == weights[1..][c - 1 := 0];
      ZeroingLowers(weights[1..], c - 1);
    }
  }

  lemma AxisMoveLowers(p: Profile, axis: nat, value: nat)
    requires axis < AXES && value < Get(p, axis)
    ensures Measure(Set(p, axis, value)) < Measure(p)
    ensures AxisSum(Set(p, axis, value)) == AxisSum(p) - Get(p, axis) + value
  {
  }

  /** The search moved down from `p` to a failing profile. */
  ghost predicate Descended(p: Profile, best: Profile, fails: Oracle) {
    && fails(best) && Measure(best) < Measure(p) && Within(best, p)
    && (!AllZero(p.weights) ==> !AllZero(best.weights))
  }

  lemma DescentChains(p: Profile, q: Profile, r: Profile, fails: Oracle)
    requires p == q || Descended(p, q, fails)
    requires q == r || Descended(q, r, fails)
    ensures p == r || Descended(p, r, fails)
  {
  }

  // ----- The search ------------------------------------------------------------------------------

  /** The smallest value of one axis that still fails, if any is smaller than the current. */
  method ShrinkAxis(p: Profile, axis: nat, fails: Oracle) returns (best: Profile, shrank: bool, probes: nat)
    requires axis < AXES && Valid(p)
    ensures if shrank then Descended(p, best, fails)
            else best == p
    ensures forall v :: Floor(axis) <= v < Get(best, axis) ==> !fails(Set(p, axis, v))
    ensures best == Set(p, axis, Get(best, axis))
    ensures probes <= Get(p, axis)
  {
    best, shrank, probes := p, false, 0;
    var value := Floor(axis);
    while value < Get(p, axis)
      invariant Floor(axis) <= value && probes == value - Floor(axis)
      invariant forall v :: Floor(axis) <= v < value ==> !fails(Set(p, axis, v))
      invariant probes <= Get(p, axis)
    {
      var trial := Set(p, axis, value);
      probes := probes + 1;
      if fails(trial) {
        AxisMoveLowers(p, axis, value);
        return trial, true, probes;
      }
      value := value + 1;
    }
  }

  /** The first axes' values added up. */
  function AxisPrefix(p: Profile, axis: nat): nat
    requires axis <= AXES
  {
    if axis == 0 then 0 else AxisPrefix(p, axis - 1) + Get(p, axis - 1)
  }

  lemma AxisPrefixWhole(p: Profile)
    ensures AxisPrefix(p, AXES) == AxisSum(p)
  {
    assert AxisPrefix(p, 1) == p.ops;
    assert AxisPrefix(p, 2) == p.ops + p.buckets;
    assert AxisPrefix(p, 3) == p.ops + p.buckets + p.nodes;
    assert AxisPrefix(p, 4) == AxisPrefix(p, 3) + p.packages;
    assert AxisPrefix(p, 5) == AxisPrefix(p, 4) + p.files;
  }

  method ShrinkAxes(p: Profile, fails: Oracle) returns (best: Profile, shrank: bool, probes: nat)
    requires Valid(p)
    ensures if shrank then Descended(p, best, fails) else best == p && AxesMinimal(p, fails, AXES)
    ensures Valid(best) && probes <= AxisSum(p)
  {
    best, shrank, probes := p, false, 0;
    for axis := 0 to AXES
      invariant if shrank then Descended(p, best, fails) else best == p && AxesMinimal(p, fails, axis)
      invariant forall a :: axis <= a < AXES ==> Get(best, a) == Get(p, a)
      invariant Valid(best) && probes <= AxisPrefix(p, axis)
    {
      var next, moved, spent := ShrinkAxis(best, axis, fails);
      probes := probes + spent;
      if moved {
        DescentChains(p, best, next, fails);
        best, shrank := next, true;
      }
    }
    AxisPrefixWhole(p);
  }

  method ShrinkPartition(p: Profile, fails: Oracle) returns (best: Profile, shrank: bool, probes: nat)
    requires Valid(p)
    ensures if shrank then Descended(p, best, fails) else best == p && PartitionMinimal(p, fails)
    ensures Valid(best) && AxisSum(best) == AxisSum(p) && probes <= 1
  {
    best, shrank, probes := p, false, 0;
    if p.partitionPercent > 0 {
      var trial := p.(partitionPercent := 0);
      probes := 1;
      if fails(trial) {
        best, shrank := trial, true;
      }
    }
  }

  method ShrinkClasses(p: Profile, fails: Oracle) returns (best: Profile, shrank: bool, probes: nat)
    requires Valid(p)
    ensures if shrank then Descended(p, best, fails) else best == p && ClassesMinimal(p, fails, OP_CLASSES)
    ensures Valid(best) && probes <= OP_CLASSES
  {
    best, shrank, probes := p, false, 0;
    for c := 0 to OP_CLASSES
      invariant Valid(best) && probes <= c
      invariant if shrank then Descended(p, best, fails) else best == p && ClassesMinimal(p, fails, c)
    {
      var trial := ZeroClass(best, c);
      if MayZero(best, c) {
        probes := probes + 1;
        if fails(trial) {
          ZeroingLowers(best.weights, c);
          DescentChains(p, best, trial, fails);
          best, shrank := trial, true;
        }
      }
    }
  }

  /** One pass over every dimension: it moves down, or finds nothing left to take away. */
  method ShrinkRound(p: Profile, fails: Oracle) returns (best: Profile, shrank: bool, probes: nat)
    requires Valid(p)
    ensures if shrank then Descended(p, best, fails) else best == p && LocallyMinimal(p, fails)
    ensures Valid(best) && probes <= Measure(p) + 9
  {
    var p1, s1, n1 := ShrinkAxes(p, fails);
    var p2, s2, n2 := ShrinkPartition(p1, fails);
    var p3, s3, n3 := ShrinkClasses(p2, fails);
    DescentChains(p, p1, p2, fails);
    DescentChains(p, p2, p3, fails);
    if !s1 && !s2 && !s3 {
      FixpointIsMinimal(p, fails);
    }
    best, shrank, probes := p3, s1 || s2 || s3, n1 + n2 + n3;
  }

  lemma RoundBudget(spent: nat, before: nat, after: nat, start: nat, round: nat)
    requires after < before <= start && spent <= (start - before) * round
    ensures spent + round <= (start - after) * round
  {
    assert (start - before) * round + round == (start - before + 1) * round;
    assert (start - before + 1) * round <= (start - after) * round;
  }

  /** Greedy descent to a fixpoint. For every oracle it ends, within a bounded number of
      probes; the result is the base or a failing profile inside it, keeps some operation
      class, and is locally minimal: no smaller value of one axis, no removal of the
      partition and no allowed zeroing of a class still fails. */
  method ShrinkSearch(base: Profile, fails: Oracle) returns (best: Profile, probes: nat)
    requires Valid(base)
    ensures best == base || fails(best)
    ensures Within(best, base) && Valid(best)
    ensures !AllZero(base.weights) ==> !AllZero(best.weights)
    ensures LocallyMinimal(best, fails)
    ensures Measure(best) <= Measure(base) && probes <= (Measure(base) + 1) * (Measure(base) + 9)
  {
    best, probes := base, 0;
    ghost var round := Measure(base) + 9;
    while true
      invariant Valid(best) && (best == base || Descended(base, best, fails))
      invariant Measure(best) <= Measure(base) && probes <= (Measure(base) - Measure(best)) * round
      decreases Measure(best)
    {
      var next, shrank, spent := ShrinkRound(best, fails);
      if !shrank {
        probes := probes + spent;
        FinalBudget(probes, Measure(base), Measure(best), round);
        return;
      }
      RoundBudget(probes, Measure(best), Measure(next), Measure(base), round);
      DescentChains(base, best, next, fails);
      best, probes := next, probes + spent;
    }
  }

  lemma FinalBudget(spent: nat, start: nat, end: nat, round: nat)
    requires end <= start && spent <= (start - end) * round + round
    ensures spent <= (start + 1) * round
  {
    assert (start - end) * round + round == (start - end + 1) * round;
    assert (start - end + 1) * round <= (start + 1) * round;
  }
}
