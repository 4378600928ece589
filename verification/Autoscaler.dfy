/** The replica autoscaler's decision and what it does over sequences of CPU readings. */
module Autoscaler {
  import opened Wrappers
  import opened Text
  import opened Rates
  import opened AlertCache

  /** A float64 reading; a query can yield NaN. */
  datatype Cpu = NaN | Usage(cores: real)

  predicate High(cpu: Cpu)
  {
    cpu.Usage? && cpu.cores > 0.70
  }

  predicate Low(cpu: Cpu)
  {
    cpu.Usage? && cpu.cores < 0.20
  }

  /** A min- or max-replicas annotation, falling back to the default when absent or no int32. */
  function Bound(annotation: Option<string>, default: int32): int32
  {
    if annotation.None? then default
    else
      var p := ParseInt(annotation.value, HALF32);
      if p.err.NoError? then p.value else default
  }

  /** The replica count the patch will ask for, if any. */
  function Desired(current: int32, min: int32, max: int32, cpu: Cpu): Option<int32>
  {
    if High(cpu) then if current < max then Some(current + 1) else None
    else if Low(cpu) then if current > min then Some(current - 1) else None
    else None
  }

  /** The bounds as read: an annotation that is a 32-bit numeral counts as its number; an absent one
      and any other text counts as the default. */
  lemma BoundExact(annotation: Option<string>, default: int32)
    ensures Bound(annotation, default)
            == if && annotation.Some? && IsNumeral(annotation.value)
                  && -0x8000_0000 <= Numeral(annotation.value) < 0x8000_0000
               then Numeral(annotation.value) else default
  {
    if annotation.Some? {
      ParseIntExact(annotation.value, HALF32);
    }
  }

  /** The decision as a whole: above 0.70 cores the patch asks for one replica more if the maximum
      allows, below 0.20 for one less if the minimum does; between them, at either threshold, and
      when the reading is no number, there is no patch. */
  lemma DecisionExact(current: int32, min: int32, max: int32, cpu: Cpu)
    ensures cpu.NaN? ==> Desired(current, min, max, cpu).None?
    ensures cpu.Usage? ==>
              && (0.20 <= cpu.cores <= 0.70 ==> Desired(current, min, max, cpu).None?)
              && (Desired(current, min, max, cpu) == Some(current + 1) <==> cpu.cores > 0.70 && current < max)
              && (Desired(current, min, max, cpu) == Some(current - 1) <==> cpu.cores < 0.20 && current > min)
    ensures forall n :: Desired(current, min, max, cpu) == Some(n) ==> n == current + 1 || n == current - 1
  {
  }

  function Next(current: int32, min: int32, max: int32, cpu: Cpu): int32
  {
    if Desired(current, min, max, cpu).Some? then Desired(current, min, max, cpu).value else current
  }

  function After(current: int32, min: int32, max: int32, cpus: seq<Cpu>): int32
  {
    if cpus == [] then current
    else Next(After(current, min, max, cpus[..|cpus| - 1]), min, max, cpus[|cpus| - 1])
  }

  /** How far a count is outside [min, max]. */
  function Distance(x: int, min: int, max: int): nat
  {
    if x < min then min - x else if x > max then x - max else 0
  }

  /** For every CPU sequence and every pair of bounds with min <= max, the distance to [min, max]
      never grows -- so the interval is never left once entered -- and n readings move the count by at most n. */
  lemma {:induction false} NeverStrays(current: int32, min: int32, max: int32, cpus: seq<Cpu>, k: nat)
    requires min <= max && k <= |cpus|
    ensures var (a, b) := (After(current, min, max, cpus[..k]), After(current, min, max, cpus));
            Distance(b, min, max) <= Distance(a, min, max) && k - |cpus| <= b - a <= |cpus| - k
  {
    if k < |cpus| {
      NeverStrays(current, min, max, cpus[..|cpus| - 1], k);
      assert cpus[..|cpus| - 1][..k] == cpus[..k];
    } else {
      assert cpus[..k] == cpus;
    }
  }

  /** With any bounds at all, crossed ones included, a rise never ends above max and a fall never
      ends below min. */
  lemma {:induction false} NeverOvershoots(current: int32, min: int32, max: int32, cpus: seq<Cpu>)
    ensures After(current, min, max, cpus) <= (if current > max then current else max)
    ensures After(current, min, max, cpus) >= (if current < min then current else min)
  {
    if cpus != [] {
      NeverOvershoots(current, min, max, cpus[..|cpus| - 1]);
    }
  }

  /** Sustained high CPU reaches max in exactly the remaining number of readings and then stays;
      a count already at or above max never moves. */
  lemma {:induction false} SustainedHigh(current: int32, min: int32, max: int32, cpus: seq<Cpu>)
    requires forall c <- cpus :: High(c)
    ensures After(current, min, max, cpus)
            == if current >= max then current else if current + |cpus| <= max then current + |cpus| else max
  {
    if cpus != [] {
      SustainedHigh(current, min, max, cpus[..|cpus| - 1]);
      assert High(cpus[|cpus| - 1]);
    }
  }

  lemma {:induction false} SustainedLow(current: int32, min: int32, max: int32, cpus: seq<Cpu>)
    requires forall c <- cpus :: Low(c)
    ensures After(current, min, max, cpus)
            == if current <= min then current else if current - |cpus| >= min then current - |cpus| else min
  {
    if cpus != [] {
      SustainedLow(current, min, max, cpus[..|cpus| - 1]);
      assert Low(cpus[|cpus| - 1]) && !High(cpus[|cpus| - 1]);
    }
  }

  // ---------- drift ----------

  predicate IsMove(op: Op, namespace: string, pods: set<string>)
  {
    op.Passed? && op.key.Scale? && op.key.namespace == namespace && op.key.name in pods
  }

  /** The autoscaler passes of some pods within [lo, hi]. */
  ghost function Moves(ops: seq<Op>, namespace: string, pods: set<string>, lo: int, hi: int): nat
  {
    if ops == [] then 0
    else
      var op := ops[|ops| - 1];
      Moves(ops[..|ops| - 1], namespace, pods, lo, hi)
      + if IsMove(op, namespace, pods) && lo <= op.at <= hi then 1 else 0
  }

  lemma {:induction false} MovesSplit(ops: seq<Op>, namespace: string, pod: string, pods: set<string>, lo: int, hi: int)
    requires pod in pods
    ensures Moves(ops, namespace, pods, lo, hi)
            == Moves(ops, namespace, pods - {pod}, lo, hi) + Count(Passes(ops, Scale(namespace, pod)), lo, hi)
  {
    if ops != [] {
      var (rest, op) := (ops[..|ops| - 1], ops[|ops| - 1]);
      MovesSplit(rest, namespace, pod, pods, lo, hi);
      var k := Scale(namespace, pod);
      if op.Passed? && op.key == k {
        CountAppend(Passes(rest, k), op.at, lo, hi);
      } else {
        assert Passes(ops, k) == Passes(rest, k);
      }
    }
  }

  lemma {:induction false} MovesNone(ops: seq<Op>, namespace: string, lo: int, hi: int)
    ensures Moves(ops, namespace, {}, lo, hi) == 0
  {
    if ops != [] {
      MovesNone(ops[..|ops| - 1], namespace, lo, hi);
    }
  }

  lemma {:induction false} MovesBound(ops: seq<Op>, namespace: string, pods: set<string>, lo: int, T: nat)
    requires Legal(ops)
    ensures Moves(ops, namespace, pods, lo, lo + T) <= |pods| * (T / (15 * SECOND) + 1)
    decreases pods
  {
    if pods == {} {
      MovesNone(ops, namespace, lo, lo + T);
    } else {
      var pod :| pod in pods;
      var (n, each) := (|pods - {pod}|, T / (15 * SECOND) + 1);
      MovesSplit(ops, namespace, pod, pods, lo, lo + T);
      MovesBound(ops, namespace, pods - {pod}, lo, T);
      RateBound(ops, Scale(namespace, pod), lo, T);
      assert (n + 1) * each == n * each + each;
    }
  }

  /** What one pass of the gate meets: the bounds, the reading if the deployment and the metrics
      could be read, and whether the API takes the patch. */
  datatype Reading = Reading(min: int32, max: int32, cpu: Option<Cpu>, patched: bool)

  /** The patch a pass asks for. */
  function Asked(current: int32, r: Reading): Option<int32>
  {
    if r.cpu.Some? then Desired(current, r.min, r.max, r.cpu.value) else None
  }

  /** The count after a patch, if there is one and it is taken. */
  function Taken(current: int32, patch: Option<int32>, patched: bool): int32
  {
    if patch.Some? && patched then patch.value else current
  }

  /** The deployment's count after a trace with nobody else editing it: the passes of its pods are
      the autoscaler's decisions on what they read, and no other operation touches it. */
  ghost function Replicas(start: int32, ops: seq<Op>, readings: seq<Reading>, namespace: string, pods: set<string>)
    : int32
    requires |readings| == |ops|
  {
    if ops == [] then start
    else
      var n := |ops| - 1;
      var current := Replicas(start, ops[..n], readings[..n], namespace, pods);
      if IsMove(ops[n], namespace, pods) then Taken(current, Asked(current, readings[n]), readings[n].patched)
      else current
  }

  lemma ReplicasAppend(start: int32, ops: seq<Op>, readings: seq<Reading>, namespace: string, pods: set<string>,
                       op: Op, r: Reading)
    requires |readings| == |ops|
    ensures var current := Replicas(start, ops, readings, namespace, pods);
            Replicas(start, ops + [op], readings + [r], namespace, pods)
            == if IsMove(op, namespace, pods) then Taken(current, Asked(current, r), r.patched) else current
  {
    assert (ops + [op])[..|ops|] == ops && (readings + [r])[..|readings|] == readings;
  }

  /** What one more operation does to the count: a pass of one of the deployment's pods whose patch
      is taken raises it by one above 0.70 cores if it is below the maximum, and lowers it by one
      below 0.20 if it is above the minimum; nothing else moves it. */
  lemma PassMoves(start: int32, ops: seq<Op>, readings: seq<Reading>, namespace: string, pods: set<string>,
                  op: Op, r: Reading)
    requires |readings| == |ops|
    ensures var before := Replicas(start, ops, readings, namespace, pods);
            var after := Replicas(start, ops + [op], readings + [r], namespace, pods);
            var moves := (exists pod <- pods :: op.key == Scale(namespace, pod)) && op.Passed? && r.patched;
            if moves && r.cpu.Some? && r.cpu.value.Usage? && r.cpu.value.cores > 0.70 && before < r.max then
              after == before + 1
            else if moves && r.cpu.Some? && r.cpu.value.Usage? && r.cpu.value.cores < 0.20 && before > r.min then
              after == before - 1
            else after == before
  {
    ReplicasAppend(start, ops, readings, namespace, pods, op, r);
    var before := Replicas(start, ops, readings, namespace, pods);
    if r.cpu.Some? {
      DecisionExact(before, r.min, r.max, r.cpu.value);
    }
    if op.key.Scale? && op.key.namespace == namespace && op.key.name in pods {
      assert op.key == Scale(namespace, op.key.name);
    }
  }

  /** Passes that read nothing leave the count alone. */
  lemma {:induction false} ReplicasUnread(start: int32, ops: seq<Op>, readings: seq<Reading>, namespace: string,
                                          pods: set<string>)
    requires |readings| == |ops| && forall r <- readings :: r.cpu.None?
    ensures Replicas(start, ops, readings, namespace, pods) == start
  {
    if ops != [] {
      var n := |ops| - 1;
      ReplicasUnread(start, ops[..n], readings[..n], namespace, pods);
      assert readings[n] in readings;
    }
  }

  lemma {:induction false} DriftMoves(start: int32, ops: seq<Op>, readings: seq<Reading>, namespace: string,
                                      pods: set<string>, i: nat, lo: int, hi: int)
    requires |readings| == |ops| && i <= |ops|
    requires forall k :: i <= k < |ops| && IsMove(ops[k], namespace, pods) ==> lo <= ops[k].at <= hi
    ensures var moved := Moves(ops, namespace, pods, lo, hi);
            var (a, b) := (Replicas(start, ops[..i], readings[..i], namespace, pods),
                           Replicas(start, ops, readings, namespace, pods));
            0 - moved <= b - a <= moved
  {
    if i < |ops| {
      var n := |ops| - 1;
      DriftMoves(start, ops[..n], readings[..n], namespace, pods, i, lo, hi);
      assert ops[..n][..i] == ops[..i] && readings[..n][..i] == readings[..i];
    } else {
      assert ops[..i] == ops && readings[..i] == readings;
    }
  }

  /** The count of a whole trace, pass by pass, never strays: with the same bounds min <= max at
      every pass, its distance to [min, max] never grows. */
  lemma {:induction false} RunNeverStrays(start: int32, ops: seq<Op>, readings: seq<Reading>, namespace: string,
                                          pods: set<string>, i: nat, min: int32, max: int32)
    requires |readings| == |ops| && i <= |ops| && min <= max
    requires forall r <- readings :: r.min == min && r.max == max
    ensures Distance(Replicas(start, ops, readings, namespace, pods), min, max)
            <= Distance(Replicas(start, ops[..i], readings[..i], namespace, pods), min, max)
  {
    if i < |ops| {
      var n := |ops| - 1;
      RunNeverStrays(start, ops[..n], readings[..n], namespace, pods, i, min, max);
      assert ops[..n][..i] == ops[..i] && readings[..n][..i] == readings[..i];
      assert readings[n] in readings;
    } else {
      assert ops[..i] == ops && readings[..i] == readings;
    }
  }

  /** The drift bound: with P pods and no one else editing the deployment, over any stretch of a
      run whose autoscaler passes lie within an interval of length T, the autoscaler moves the
      replica count by at most P * (T / 15s + 1), whatever it reads. */
  lemma DriftBound(start: int32, ops: seq<Op>, readings: seq<Reading>, namespace: string, pods: set<string>,
                   i: nat, j: nat, lo: int, T: nat)
    requires Legal(ops) && |readings| == |ops| && i <= j <= |ops|
    requires forall k :: i <= k < j && IsMove(ops[k], namespace, pods) ==> lo <= ops[k].at <= lo + T
    ensures var bound := |pods| * (T / (15 * SECOND) + 1);
            var (a, b) := (Replicas(start, ops[..i], readings[..i], namespace, pods),
                           Replicas(start, ops[..j], readings[..j], namespace, pods));
            0 - bound <= b - a <= bound
  {
    DriftMoves(start, ops[..j], readings[..j], namespace, pods, i, lo, lo + T);
    assert ops[..j][..i] == ops[..i] && readings[..j][..i] == readings[..i];
    LegalPrefix(ops, j);
    MovesBound(ops[..j], namespace, pods, lo, T);
  }
}
