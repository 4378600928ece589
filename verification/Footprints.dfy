/** Which keys a stretch of the trace concerns, and whether it passed the gates it should have:
    the bookkeeping by which a reconciler's request is put together from its checks. */
module Footprints {
  import opened Wrappers
  import opened AlertCache
  import opened Incidents

  /** The trace has grown, by operations on the given keys and on notices. */
  ghost predicate Touches(before: seq<Op>, after: seq<Op>, keys: set<Key>)
  {
    before <= after && forall i :: |before| <= i < |after| ==> after[i].key in keys || after[i].key.Notice?
  }

  lemma TouchesBoth(a: seq<Op>, b: seq<Op>, c: seq<Op>, keys: set<Key>, more: set<Key>)
    requires Touches(a, b, keys) && Touches(b, c, more)
    ensures Touches(a, c, keys + more)
  {
    forall i | |a| <= i < |c| ensures c[i].key in keys + more || c[i].key.Notice? {
      if i < |b| {
        assert c[i] == b[i];
      }
    }
  }

  /** One gate passed and perhaps one notice tried. */
  lemma GateTouches(before: seq<Op>, after: seq<Op>, op: Op, notice: Key, now: int)
    requires notice.Notice?
    requires after == before || after == before + [op] || after == Attempted(before + [op], notice, now)
    ensures Touches(before, after, {op.key})
    ensures after != before && op.Passed? && !op.key.Notice? ==> |Passes(after, op.key)| > |Passes(before, op.key)|
  {
    PassAppend(before, op, op.key);
    AttemptExact(before + [op], notice, now, op.key);
  }

  /** Keys a stretch does not concern are as they were. */
  lemma {:induction false} Untouched(before: seq<Op>, after: seq<Op>, keys: set<Key>, k: Key)
    requires Touches(before, after, keys) && k !in keys && !k.Notice?
    ensures Passes(after, k) == Passes(before, k) && Last(after, k) == Last(before, k)
    decreases |after|
  {
    if |before| == |after| {
      assert before == after;
    } else {
      Untouched(before, after[..|after| - 1], keys, k);
    }
  }

  lemma {:induction false} PassesGrow(before: seq<Op>, after: seq<Op>, k: Key)
    requires before <= after
    ensures Passes(before, k) <= Passes(after, k)
    decreases |after|
  {
    if |before| == |after| {
      assert before == after;
    } else {
      PassesGrow(before, after[..|after| - 1], k);
    }
  }

  /** A gate was passed in between only if there was cause to, and surely if there was and the gate
      was open at the given instant. */
  ghost predicate Served(before: seq<Op>, after: seq<Op>, k: Key, cause: bool, now: int)
  {
    && (|Passes(after, k)| > |Passes(before, k)| ==> cause)
    && (cause && Open(k, Last(before, k), now) ==> |Passes(after, k)| > |Passes(before, k)|)
  }

  /** What a stretch does for a key, the whole does of which the rest leaves the key alone. */
  lemma ServedWithin(a: seq<Op>, b: seq<Op>, c: seq<Op>, d: seq<Op>, earlier: set<Key>, later: set<Key>,
                     k: Key, cause: bool, now: int, since: int)
    requires Touches(a, b, earlier) && Served(b, c, k, cause, since) && Touches(c, d, later)
    requires k !in earlier && k !in later && !k.Notice? && now <= since
    ensures Served(a, d, k, cause, now)
  {
    Untouched(a, b, earlier, k);
    Untouched(c, d, later, k);
  }

  // ---------- the metrics check and the analysis ----------

  lemma MetricsTouch(ops: seq<Op>, gate: Key, cpu: bool, cpuLength: nat, mem: bool, memLength: nat,
                     cpuAt: Stamps, memAt: Stamps)
    ensures Touches(ops, MetricsTrace(ops, gate, cpu, cpuLength, mem, memLength, cpuAt, memAt), {gate})
  {
    var notice := Notice(TitleText(HighCpu), cpuLength);
    var pass := Passed(gate, cpuAt.store);
    var afterCpu := if cpu then Alerted(ops, pass, HighCpu, cpuLength, cpuAt.notice) else ops;
    GateTouches(ops, afterCpu, pass, notice, cpuAt.notice);
    if mem {
      var again := if cpu then Refreshed(gate, memAt.store) else Passed(gate, memAt.store);
      var memNotice := Notice(TitleText(HighMemory), memLength);
      var afterMem := Alerted(afterCpu, again, HighMemory, memLength, memAt.notice);
      GateTouches(afterCpu, afterMem, again, memNotice, memAt.notice);
      TouchesBoth(ops, afterCpu, afterMem, {gate}, {gate});
    }
  }

  /** Turns concern the analysis gate alone, and add to the trace of the turns before them. */
  lemma {:induction false} TurnsTouch(p: Subject, asked: bool, ops: seq<Op>, rs: seq<Report>, at: seq<Stamps>, m: nat)
    requires |rs| == |at| && m <= |rs|
    ensures Touches(Turns(p, asked, ops, rs[..m], at[..m]).0, Turns(p, asked, ops, rs, at).0, {Gate(p)})
  {
    if m < |rs| {
      var n := |rs| - 1;
      TurnsTouch(p, asked, ops, rs[..n], at[..n], m);
      assert rs[..n][..m] == rs[..m] && at[..n][..m] == at[..m];
      var before := Turns(p, asked, ops, rs[..n], at[..n]);
      if before.1.None? {
        assert Touches(before.0, Turn(p, asked, before.0, rs[n], at[n]).0, {Gate(p)});
        TouchesBoth(Turns(p, asked, ops, rs[..m], at[..m]).0, before.0, Turns(p, asked, ops, rs, at).0,
                    {Gate(p)}, {Gate(p)});
        assert {Gate(p)} + {Gate(p)} == {Gate(p)};
      }
    } else {
      assert rs[..m] == rs && at[..m] == at;
    }
  }

  /** The first container in trouble. */
  function FirstTrouble(rs: seq<Report>): (r: Option<Report>)
    ensures r.None? ==> forall x <- rs :: !InTrouble(x)
    ensures r.Some? ==> InTrouble(r.value)
  {
    if rs == [] then None else if InTrouble(rs[0]) then Some(rs[0]) else FirstTrouble(rs[1..])
  }

  lemma {:induction false} FirstTroubleAt(rs: seq<Report>) returns (i: nat)
    requires FirstTrouble(rs).Some?
    ensures i < |rs| && rs[i] == FirstTrouble(rs).value && InTrouble(rs[i])
    ensures forall j :: 0 <= j < i ==> !InTrouble(rs[j])
  {
    if InTrouble(rs[0]) {
      i := 0;
    } else {
      var k := FirstTroubleAt(rs[1..]);
      i := k + 1;
      forall j | 0 < j < i ensures !InTrouble(rs[j]) {
        assert rs[j] == rs[1..][j - 1];
      }
    }
  }

  predicate BrokenFirst(rs: seq<Report>)
  {
    FirstTrouble(rs).Some? && !FirstTrouble(rs).value.oomKilled
  }

  predicate KilledFirst(rs: seq<Report>)
  {
    FirstTrouble(rs).Some? && FirstTrouble(rs).value.oomKilled
  }

  /** The analysis gate is passed for a broken container if no kill comes before it, and the
      first kill is handed over if no broken container comes before it. */
  lemma AnalysisServes(p: Subject, asked: bool, before: seq<Op>, rs: seq<Report>, at: seq<Stamps>, after: seq<Op>,
                       outcome: Outcome, now: int, end: int)
    requires Analyzed(p, asked, before, rs, at, after, outcome) && Ordered(at, now, end)
    ensures Touches(before, after, {Gate(p)})
    ensures Served(before, after, Gate(p), BrokenFirst(rs), now)
    ensures KilledFirst(rs) ==> outcome == ToOom
    ensures outcome == ToOom ==> exists r <- rs :: r.oomKilled
  {
    TurnsTouch(p, asked, before, rs[..|at|], at, 0);
    assert Turns(p, asked, before, rs[..|at|][..0], at[..0]).0 == before;
    if FirstTrouble(rs).Some? {
      var i := FirstTroubleAt(rs);
      FirstTroubleDecides(p, asked, before, rs, at, after, outcome, i);
      if !rs[i].oomKilled && Open(Gate(p), Last(before, Gate(p)), at[i].check) {
        TurnExact(p, asked, before, rs[i], at[i]);
        TurnsTouch(p, asked, before, rs[..|at|], at, i + 1);
        assert rs[..|at|][..i + 1] == rs[..i + 1];
        PassesGrow(Turns(p, asked, before, rs[..i + 1], at[..i + 1]).0, after, Gate(p));
      }
    } else {
      NoTrouble(p, asked, before, rs, at, after, outcome);
    }
    if outcome == ToOom {
      LastEnds(p, asked, before, rs, at, after, outcome);
    }
  }

  lemma LastEnds(p: Subject, asked: bool, before: seq<Op>, rs: seq<Report>, at: seq<Stamps>, after: seq<Op>,
                 outcome: Outcome)
    requires Analyzed(p, asked, before, rs, at, after, outcome) && outcome == ToOom
    ensures exists r <- rs :: r.oomKilled
  {
    var n := |at| - 1;
    assert rs[..|at|][..n] == rs[..n];
    TurnExact(p, asked, Turns(p, asked, before, rs[..n], at[..n]).0, rs[n], at[n]);
    assert rs[n] in rs;
  }
}
