/** The deadband filter: which samples of a point are sent, given the last one that was. */
module Deadband {
  import opened Common

  /** Numeric values are exact here: no rounding, and neither NaN nor infinity. */
  datatype Value = Single(on: bool) | Double(state: byte) | Normalized(x: real) | Scaled(n: int) | Float(x: real)
  datatype Kind = SingleKind | DoubleKind | NormalizedKind | ScaledKind | FloatKind
  datatype Quality = Quality(overflow: bool, bits: byte)
  datatype Policy = NoPolicy | Absolute(delta: real) | Percent(pct: real, floor: real)
  datatype Baseline = Baseline(value: Value, quality: Quality)
  datatype Decision = Emit | Suppress | KindMismatch

  function KindOf(v: Value): Kind {
    match v
    case Single(_) => SingleKind
    case Double(_) => DoubleKind
    case Normalized(_) => NormalizedKind
    case Scaled(_) => ScaledKind
    case Float(_) => FloatKind
  }

  predicate Numeric(v: Value) { v.Normalized? || v.Scaled? || v.Float? }

  function Number(v: Value): real
    requires Numeric(v)
  {
    if v.Scaled? then v.n as real else v.x
  }

  function Abs(x: real): real { if x < 0.0 then -x else x }

  function Larger(x: real, y: real): real { if x < y then y else x }

  function Crossed(old_: Value, new_: Value, policy: Policy): bool
    requires KindOf(old_) == KindOf(new_)
  {
    if old_.Single? || old_.Double? then old_ != new_ else
    var dist := Abs(Number(new_) - Number(old_));
    match policy
    case NoPolicy => dist > 0.0
    case Absolute(delta) => dist >= delta
    case Percent(pct, floor) => dist >= pct / 100.0 * Larger(Abs(Number(old_)), floor)
  }

  datatype Tracker = Tracker(policies: map<u32, Policy>, baselines: map<u32, Baseline>)
  {
    function PolicyOf(ioa: u32): Policy { if ioa in policies then policies[ioa] else NoPolicy }

    function Rebased(ioa: u32, v: Value, q: Quality): Tracker { this.(baselines := baselines[ioa := Baseline(v, q)]) }

    function Observe(ioa: u32, v: Value, q: Quality): (Tracker, bool) {
      if ioa in baselines && KindOf(baselines[ioa].value) != KindOf(v) then (this, false)
      else (Rebased(ioa, v, q), true)
    }

    function Evaluate(ioa: u32, v: Value, q: Quality): (Tracker, Decision) {
      if ioa !in baselines then (Rebased(ioa, v, q), Emit) else
      var b := baselines[ioa];
      if KindOf(b.value) != KindOf(v) then (this, KindMismatch)
      else if b.quality != q then (Rebased(ioa, v, q), Emit)
      else if PolicyOf(ioa) == NoPolicy then (if b.value == v then (this, Suppress) else (Rebased(ioa, v, q), Emit))
      else if Crossed(b.value, v, PolicyOf(ioa)) then (Rebased(ioa, v, q), Emit)
      else (this, Suppress)
    }
  }

  // ------------------------------------------------------------------
  // What was last sent
  // ------------------------------------------------------------------

  /** A sample to be filtered, a value sent around the filter, and the changes of policy and memory. */
  datatype Op =
    | Sample(ioa: u32, value: Value, quality: Quality)
    | Sent(ioa: u32, value: Value, quality: Quality)
    | Set(ioa: u32, policy: Policy)
    | Remove(ioa: u32)
    | Forgotten(ioa: u32)
    | Cleared

  function Apply(t: Tracker, op: Op): Tracker {
    match op
    case Sample(ioa, v, q) => t.Evaluate(ioa, v, q).0
    case Sent(ioa, v, q) => t.Observe(ioa, v, q).0
    case Set(ioa, p) => t.(policies := t.policies[ioa := p])
    case Remove(ioa) => t.(policies := t.policies - {ioa})
    case Forgotten(ioa) => t.(baselines := t.baselines - {ioa})
    case Cleared => t.(baselines := map[])
  }

  function Run(ops: seq<Op>): Tracker {
    if ops == [] then Tracker(map[], map[]) else Apply(Run(ops[..|ops| - 1]), ops[|ops| - 1])
  }

  /** Near enough not to be sent: no change at all, or a change inside the band around what was sent. */
  predicate Near(was: Value, v: Value, policy: Policy) {
    && KindOf(was) == KindOf(v)
    && (if !Numeric(was) || policy == NoPolicy then was == v
        else var dist := Abs(Number(v) - Number(was));
             if policy.Absolute? then dist < policy.delta
             else dist < policy.pct / 100.0 * Larger(Abs(Number(was)), policy.floor))
  }

  /** The policy of a point is the one last set for it and not removed since. */
  function PolicyIn(ops: seq<Op>, ioa: u32): Policy {
    if ops == [] then NoPolicy else
    match ops[|ops| - 1]
    case Set(i, p) => if i == ioa then p else PolicyIn(ops[..|ops| - 1], ioa)
    case Remove(i) => if i == ioa then NoPolicy else PolicyIn(ops[..|ops| - 1], ioa)
    case _ => PolicyIn(ops[..|ops| - 1], ioa)
  }

  /** A sample of the kind and quality last sent, and near it. */
  predicate Same(last: Option<Baseline>, v: Value, q: Quality, policy: Policy) {
    last.Some? && last.value.quality == q && Near(last.value.value, v, policy)
  }

  predicate Clashes(last: Option<Baseline>, v: Value) { last.Some? && KindOf(last.value.value) != KindOf(v) }

  /** The operation sends a value: a sample that the filter lets through, or one around it that is taken. */
  predicate GoesOut(t: Tracker, op: Op) {
    match op
    case Sample(ioa, v, q) => t.Evaluate(ioa, v, q).1 == Emit
    case Sent(ioa, v, q) => t.Observe(ioa, v, q).1
    case _ => false
  }

  /** What was last sent for a point since it was last forgotten, told from the answers that were given. */
  function LastSent(ops: seq<Op>, ioa: u32): Option<Baseline> {
    if ops == [] then None else
    var before, op := ops[..|ops| - 1], ops[|ops| - 1];
    if op == Cleared || op == Forgotten(ioa) then None
    else if GoesOut(Run(before), op) && op.ioa == ioa then Some(Baseline(op.value, op.quality))
    else LastSent(before, ioa)
  }

  function BaselineOf(t: Tracker, ioa: u32): Option<Baseline> {
    if ioa in t.baselines then Some(t.baselines[ioa]) else None
  }

  /** The five rules of an evaluation, said of the last value sent. */
  lemma {:induction false} EvaluateMeans(t: Tracker, ioa: u32, v: Value, q: Quality)
    ensures var (u, d) := t.Evaluate(ioa, v, q);
            var last := BaselineOf(t, ioa);
            && (d == KindMismatch <==> Clashes(last, v))
            && (d == Suppress <==> Same(last, v, q, t.PolicyOf(ioa)))
            && u == (if d == Emit then t.Rebased(ioa, v, q) else t)
  {
  }

  /** The two maps of the tracker hold, point by point, what the operations say. */
  lemma {:induction false} TrackerRemembers(ops: seq<Op>, ioa: u32)
    ensures Run(ops).PolicyOf(ioa) == PolicyIn(ops, ioa) && BaselineOf(Run(ops), ioa) == LastSent(ops, ioa)
  {
    if ops != [] {
      hide Near, Tracker.Evaluate;
      var before, op := ops[..|ops| - 1], ops[|ops| - 1];
      TrackerRemembers(before, ioa);
      if op.Sample? { EvaluateMeans(Run(before), op.ioa, op.value, op.quality); }
    }
  }

  /**
   * Over every sequence of operations, on every point: a sample is held back if and only if it has the
   * kind and the quality of what was last sent for the point and lies inside the band around it, and is
   * an error if and only if its kind differs. So under an absolute band a sample that is held back
   * differs from what was last sent by less than the band.
   */
  lemma {:induction false} HeldBackIff(ops: seq<Op>, ioa: u32, v: Value, q: Quality)
    ensures var (u, d) := Run(ops).Evaluate(ioa, v, q);
            var last := LastSent(ops, ioa);
            && (d == Suppress <==> Same(last, v, q, PolicyIn(ops, ioa)))
            && (d == KindMismatch <==> Clashes(last, v))
            && (d != Emit ==> u == Run(ops))
  {
    hide Run, LastSent, PolicyIn, Near;
    TrackerRemembers(ops, ioa);
    EvaluateMeans(Run(ops), ioa, v, q);
  }

  // ------------------------------------------------------------------
  // The object
  // ------------------------------------------------------------------

  class DeadbandTracker {
    var policies: map<u32, Policy>
    var baselines: map<u32, Baseline>

    /** What was done with the object so far. */
    ghost var ops: seq<Op>

    ghost predicate Valid()
      reads this
    {
      Tracker(policies, baselines) == Run(ops)
    }

    constructor ()
      ensures Valid() && ops == []
    {
      policies, baselines := map[], map[];
      ops := [];
    }

    method SetPolicy(ioa: u32, policy: Policy)
      requires Valid()
      modifies this
      ensures Valid() && ops == old(ops) + [Set(ioa, policy)]
    {
      hide Run;
      policies := policies[ioa := policy];
      ops := ops + [Set(ioa, policy)];
      Grown(old(ops), ops);
    }

    method RemovePolicy(ioa: u32) returns (r: Option<Policy>)
      requires Valid()
      modifies this
      ensures Valid() && ops == old(ops) + [Remove(ioa)]
      ensures (if r.Some? then r.value else NoPolicy) == PolicyIn(old(ops), ioa)
    {
      hide Run, LastSent, PolicyIn;
      TrackerRemembers(ops, ioa);
      r := if ioa in policies then Some(policies[ioa]) else None;
      policies := policies - {ioa};
      ops := ops + [Remove(ioa)];
      Grown(old(ops), ops);
    }

    method Forget(ioa: u32)
      requires Valid()
      modifies this
      ensures Valid() && ops == old(ops) + [Forgotten(ioa)]
    {
      hide Run;
      baselines := baselines - {ioa};
      ops := ops + [Forgotten(ioa)];
      Grown(old(ops), ops);
    }

    method Clear()
      requires Valid()
      modifies this
      ensures Valid() && ops == old(ops) + [Cleared]
    {
      hide Run;
      baselines := map[];
      ops := ops + [Cleared];
      Grown(old(ops), ops);
    }

    /** A value sent around the filter becomes the last one sent, unless its kind clashes. */
    method Observe(ioa: u32, v: Value, q: Quality) returns (ok: bool)
      requires Valid()
      modifies this
      ensures Valid() && ops == old(ops) + [Sent(ioa, v, q)]
      ensures ok <==> !Clashes(LastSent(old(ops), ioa), v)
    {
      hide Run, LastSent, PolicyIn;
      TrackerRemembers(ops, ioa);
      ops := ops + [Sent(ioa, v, q)];
      Grown(old(ops), ops);
      if ioa in baselines {
        if KindOf(baselines[ioa].value) != KindOf(v) { return false; }
      }
      baselines := baselines[ioa := Baseline(v, q)];
      ok := true;
    }

    /** A sample is held back exactly if it is the same as what was last sent, up to the band of its point. */
    method Evaluate(ioa: u32, v: Value, q: Quality) returns (d: Decision)
      requires Valid()
      modifies this
      ensures Valid() && ops == old(ops) + [Sample(ioa, v, q)]
      ensures d == Suppress <==> Same(LastSent(old(ops), ioa), v, q, PolicyIn(old(ops), ioa))
      ensures d == KindMismatch <==> Clashes(LastSent(old(ops), ioa), v)
    {
      hide Run, LastSent, PolicyIn;
      HeldBackIff(ops, ioa, v, q);
      ops := ops + [Sample(ioa, v, q)];
      Grown(old(ops), ops);
      if ioa !in baselines {
        baselines := baselines[ioa := Baseline(v, q)];
        return Emit;
      }
      var baseline := baselines[ioa];
      if KindOf(baseline.value) != KindOf(v) { return KindMismatch; }
      if baseline.quality != q {
        baselines := baselines[ioa := Baseline(v, q)];
        return Emit;
      }
      var policy := if ioa in policies then policies[ioa] else NoPolicy;
      if policy == NoPolicy {
        if baseline.value == v { return Suppress; }
        baselines := baselines[ioa := Baseline(v, q)];
        return Emit;
      }
      var crosses := Crossed(baseline.value, v, policy);
      if crosses {
        baselines := baselines[ioa := Baseline(v, q)];
        d := Emit;
      } else {
        d := Suppress;
      }
    }
  }

  lemma Grown(before: seq<Op>, after: seq<Op>)
    requires after != [] && before == after[..|after| - 1]
    ensures Run(after) == Apply(Run(before), after[|after| - 1])
  {
  }

  // ------------------------------------------------------------------
  // A wider band and a narrower one
  // ------------------------------------------------------------------

  /** One point under an absolute band: the tracker and how many samples went out. */
  datatype Counter = Counter(tracker: Tracker, count: nat)

  function CountSent(delta: real, samples: seq<int>, ioa: u32, q: Quality): Counter {
    if samples == [] then Counter(Tracker(map[ioa := Absolute(delta)], map[]), 0) else
      var c := CountSent(delta, samples[..|samples| - 1], ioa, q);
      var (u, d) := c.tracker.Evaluate(ioa, Scaled(samples[|samples| - 1]), q);
      Counter(u, c.count + (if d == Emit then 1 else 0))
  }

  predicate Ascending(samples: seq<int>) { forall i :: 0 < i < |samples| ==> samples[i - 1] <= samples[i] }

  predicate Descending(samples: seq<int>) { forall i :: 0 < i < |samples| ==> samples[i - 1] >= samples[i] }

  /** The same walk on numbers alone: the value last sent and how many were. */
  function Walk(delta: real, samples: seq<int>): (int, nat)
    requires samples != []
  {
    var v := samples[|samples| - 1];
    if |samples| == 1 then (v, 1) else
      var (a, k) := Walk(delta, samples[..|samples| - 1]);
      if Abs(v as real - a as real) >= delta then (v, k + 1) else (a, k)
  }

  lemma {:induction false} CountIsWalk(delta: real, samples: seq<int>, ioa: u32, q: Quality)
    requires samples != []
    ensures CountSent(delta, samples, ioa, q) ==
            (var (a, k) := Walk(delta, samples);
             Counter(Tracker(map[ioa := Absolute(delta)], map[ioa := Baseline(Scaled(a), q)]), k))
  {
    var before, v := samples[..|samples| - 1], samples[|samples| - 1];
    if before != [] {
      CountIsWalk(delta, before, ioa, q);
      var a := Walk(delta, before).0;
      assert map[ioa := Baseline(Scaled(a), q)][ioa := Baseline(Scaled(v), q)] == map[ioa := Baseline(Scaled(v), q)];
    }
  }

  /** On an ascending walk the wider band is never ahead, and when level it was the later one to send. */
  lemma {:induction false} NeverAhead(narrow: real, wide: real, samples: seq<int>)
    requires samples != [] && narrow <= wide && Ascending(samples)
    ensures var (a, j) := Walk(narrow, samples);
            var (b, k) := Walk(wide, samples);
            k <= j && (k == j ==> a <= b) && a <= samples[|samples| - 1] && b <= samples[|samples| - 1]
  {
    if |samples| > 1 {
      NeverAhead(narrow, wide, samples[..|samples| - 1]);
      assert samples[|samples| - 2] <= samples[|samples| - 1];
    }
  }

  function Mirrored(samples: seq<int>): seq<int> { seq(|samples|, i requires 0 <= i < |samples| => -samples[i]) }

  lemma {:induction false} MirrorWalk(delta: real, samples: seq<int>)
    requires samples != []
    ensures Walk(delta, Mirrored(samples)) == (-Walk(delta, samples).0, Walk(delta, samples).1)
  {
    if |samples| > 1 {
      MirrorWalk(delta, samples[..|samples| - 1]);
      assert Mirrored(samples)[..|samples| - 1] == Mirrored(samples[..|samples| - 1]);
    }
  }

  /** A walk in one direction at unchanged quality is sent no more often through a wider band. */
  lemma {:induction false} WiderSendsNoMore(narrow: real, wide: real, samples: seq<int>, ioa: u32, q: Quality)
    requires narrow <= wide && (Ascending(samples) || Descending(samples))
    ensures CountSent(wide, samples, ioa, q).count <= CountSent(narrow, samples, ioa, q).count
  {
    if samples != [] {
      CountIsWalk(narrow, samples, ioa, q);
      CountIsWalk(wide, samples, ioa, q);
      if Ascending(samples) {
        NeverAhead(narrow, wide, samples);
      } else {
        var m := Mirrored(samples);
        assert Ascending(m);
        MirrorWalk(narrow, samples);
        MirrorWalk(wide, samples);
        NeverAhead(narrow, wide, m);
      }
    }
  }

  /** A walk that turns can be sent more often through the wider band: 0, 5, 8, 2 through bands of 4 and of 6. */
  lemma {:induction false} TurningWalk(ioa: u32, q: Quality)
    ensures CountSent(4.0, [0, 5, 8, 2], ioa, q).count == 2
    ensures CountSent(6.0, [0, 5, 8, 2], ioa, q).count == 3
  {
    var s := [0, 5, 8, 2];
    assert s[..3] == [0, 5, 8] && [0, 5, 8][..2] == [0, 5] && [0, 5][..1] == [0];
    CountIsWalk(4.0, s, ioa, q);
    CountIsWalk(6.0, s, ioa, q);
    assert Walk(4.0, [0]) == (0, 1) && Walk(6.0, [0]) == (0, 1);
    assert Walk(4.0, [0, 5]) == (5, 2) && Walk(6.0, [0, 5]) == (0, 1);
    assert Walk(4.0, [0, 5, 8]) == (5, 2) && Walk(6.0, [0, 5, 8]) == (8, 2);
  }
}
