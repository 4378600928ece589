/** What the pod reconciler makes of one pod's container statuses and metric readings, as functions
    from the trace of cache operations to the trace afterwards. */
module Incidents {
  import opened Wrappers
  import opened AlertCache
  import opened Rollback
  import Actions
  import Autoscaler

  /** The model's verdict on an incident. */
  datatype Advice = Advice(shouldAutoFix: bool, action: string)

  /** A container status as analyzePod reads it, with the model's answer if it is asked and answers,
      and the length of the message that would be sent about it. */
  datatype Report = Report(
    oomKilled: bool, waiting: Option<string>, restarts: int, advice: Option<Advice>, length: nat)

  /** The pod a report is about, with the deployment that controls it if one is found. */
  datatype Subject = Subject(namespace: string, name: string, deployment: Option<string>)

  /** What analyzePod does in the end: nothing more, hand over to handleOOM, call for a rollback of
      the deployment itself (which may fail), or offer a button that does. */
  datatype Outcome = Quietly | ToOom | Healed(deployment: string) | Offer(action: Actions.Action)

  /** The clock at the three points where one turn of the loop reads it. */
  datatype Stamps = Stamps(check: int, store: int, notice: int)

  predicate Broken(r: Report)
  {
    r.waiting.Some? && r.waiting.value in WAITING_REASONS
  }

  /** The model is asked about configuration errors and crash loops, not about image pulls. */
  predicate Answered(r: Report, asked: bool)
    requires Broken(r)
  {
    asked && r.waiting.value != "ImagePullBackOff" && r.waiting.value != "ErrImagePull" && r.advice.Some?
  }

  predicate FixesItself(p: Subject, r: Report)
    requires r.advice.Some?
  {
    r.advice.value.shouldAutoFix && r.advice.value.action == "rollback" && p.deployment.Some?
  }

  predicate Offers(p: Subject, r: Report)
    requires Broken(r)
  {
    r.waiting.value == "CrashLoopBackOff" && r.restarts >= 2 && p.deployment.Some?
  }

  function Gate(p: Subject): Key
  {
    Analyze(p.namespace, p.name)
  }

  /** What the model's answer leads to: the trace after it, and the outcome if it ends the loop. */
  ghost function Acted(p: Subject, ops: seq<Op>, r: Report, noticeAt: int): (seq<Op>, Option<Outcome>)
    requires Broken(r) && r.advice.Some?
  {
    if FixesItself(p, r) then
      (Attempted(ops, Notice(TitleText(Autonomous), r.length), noticeAt), Some(Healed(p.deployment.value)))
    else if Offers(p, r) then
      (ops, Some(Offer(Actions.Rollback(p.namespace, p.deployment.value))))
    else
      (Attempted(ops, Notice(TitleText(IssueDetected(r.waiting.value)), r.length), noticeAt), None)
  }

  /** One turn of the loop, likewise. */
  ghost function Turn(p: Subject, asked: bool, ops: seq<Op>, r: Report, at: Stamps): (seq<Op>, Option<Outcome>)
  {
    if r.oomKilled then (ops, Some(ToOom))
    else if !Broken(r) then (ops, None)
    else if !Open(Gate(p), Last(ops, Gate(p)), at.check) then (ops, Some(Quietly))
    else
      var passed := ops + [Passed(Gate(p), at.store)];
      if Answered(r, asked) then Acted(p, passed, r, at.notice) else (passed, None)
  }

  /** The loop up to its first outcome. */
  ghost function Turns(p: Subject, asked: bool, ops: seq<Op>, rs: seq<Report>, at: seq<Stamps>)
    : (seq<Op>, Option<Outcome>)
    requires |rs| == |at|
  {
    if rs == [] then (ops, None)
    else
      var n := |rs| - 1;
      var before := Turns(p, asked, ops, rs[..n], at[..n]);
      if before.1.Some? then before else Turn(p, asked, before.0, rs[n], at[n])
  }

  /** The readings of one call never go back, and lie between its start and its end. */
  ghost predicate Ordered(at: seq<Stamps>, lo: int, hi: int)
  {
    && (forall i :: 0 <= i < |at| ==> lo <= at[i].check <= at[i].store <= at[i].notice <= hi)
    && (forall i, j :: 0 <= i < j < |at| ==> at[i].notice <= at[j].check)
  }

  /** What a call with these readings comes to: the outcome of the turn that ends the loop, after
      which nothing is read, or nothing once every status has been seen. */
  ghost predicate Analyzed(p: Subject, asked: bool, before: seq<Op>, rs: seq<Report>, at: seq<Stamps>,
                           after: seq<Op>, outcome: Outcome)
  {
    && |at| <= |rs|
    && (at != [] ==> Turns(p, asked, before, rs[..|at| - 1], at[..|at| - 1]).1.None?)
    && var (trace, decided) := Turns(p, asked, before, rs[..|at|], at);
       && after == trace
       && (if decided.Some? then outcome == decided.value else outcome == Quietly && |at| == |rs|)
  }

  lemma OrderedAppend(at: seq<Stamps>, s: Stamps, lo: int, mid: int, hi: int)
    requires Ordered(at, lo, mid) && lo <= mid <= s.check <= s.store <= s.notice <= hi
    ensures Ordered(at + [s], lo, hi)
  {
  }

  lemma NextTurn(p: Subject, asked: bool, ops: seq<Op>, rs: seq<Report>, at: seq<Stamps>, s: Stamps)
    requires |at| < |rs| && Turns(p, asked, ops, rs[..|at|], at).1.None?
    ensures Turns(p, asked, ops, rs[..|at| + 1], at + [s])
            == Turn(p, asked, Turns(p, asked, ops, rs[..|at|], at).0, rs[|at|], s)
    ensures Turn(p, asked, Turns(p, asked, ops, rs[..|at|], at).0, rs[|at|], s).1.Some? ==>
              var (after, decided) := Turns(p, asked, ops, rs[..|at| + 1], at + [s]);
              Analyzed(p, asked, ops, rs, at + [s], after, decided.value)
  {
    assert rs[..|at| + 1][..|at|] == rs[..|at|] && (at + [s])[..|at|] == at;
  }

  lemma NoTurnLeft(p: Subject, asked: bool, ops: seq<Op>, rs: seq<Report>, at: seq<Stamps>)
    requires |at| == |rs| && Turns(p, asked, ops, rs, at).1.None?
    ensures Analyzed(p, asked, ops, rs, at, Turns(p, asked, ops, rs, at).0, Quietly)
  {
    assert rs[..|at|] == rs;
  }

  /** A rollback is called for or offered only on the model's answer about a broken container, the
      last one read, with the gate open and no container before it killed for memory; it is of the
      pod's own deployment, and is called for rather than offered exactly when the model asks for
      it. An offered button's id decodes, on either platform, to that operation if no name holds a
      bar and to nothing otherwise. */
  lemma RollbackGrounds(p: Subject, asked: bool, before: seq<Op>, rs: seq<Report>, at: seq<Stamps>,
                        after: seq<Op>, outcome: Outcome)
    requires Analyzed(p, asked, before, rs, at, after, outcome)
    requires outcome.Healed? || outcome.Offer?
    ensures at != [] && forall i :: 0 <= i < |at| ==> !rs[i].oomKilled
    ensures var (n, k) := (|at| - 1, Gate(p));
            var r := rs[n];
            && Open(k, Last(Turns(p, asked, before, rs[..n], at[..n]).0, k), at[n].check)
            && Broken(r) && Answered(r, asked) && p.deployment.Some?
            && (outcome.Healed? <==> r.advice.value.shouldAutoFix && r.advice.value.action == "rollback")
            && (outcome.Healed? ==> outcome.deployment == p.deployment.value)
            && (outcome.Offer? ==>
                  && r.waiting.value == "CrashLoopBackOff" && r.restarts >= 2
                  && Decodes(outcome.action, Actions.Rollback(p.namespace, p.deployment.value)))
  {
    var n := |at| - 1;
    TurnsClean(p, asked, before, rs[..n], at[..n]);
    assert rs[..|at|][..n] == rs[..n];
    if outcome.Offer? {
      Actions.NoConfusion(outcome.action);
    }
  }

  /** What pressing the printed action's button selects. */
  predicate Decodes(printed: Actions.Action, a: Actions.Action)
  {
    var id := Actions.ActionId(printed);
    && Actions.TelegramDecode(id) == Actions.SlackDecode(id)
    && Actions.TelegramDecode(id) == if Actions.BarFree(a) then Some(a) else None
  }

  /** The two rollbacks of one incident compared. Whatever the deployment's template and whichever
      ReplicaSets are listed: approving an offered rollback on either platform keeps labels and
      spec, so where the reconciler's own rollback would have sent the predecessor's template, the
      button ends with its labels and spec exactly when they were never lost. */
  lemma OfferedButton(p: Subject, asked: bool, before: seq<Op>, rs: seq<Report>, at: seq<Stamps>, after: seq<Op>,
                      outcome: Outcome, t: Template, stamp: string, deployment: map<string, string>,
                      listed: seq<Revised>, accepted: bool, own: Rollback.Outcome)
    requires Analyzed(p, asked, before, rs, at, after, outcome) && outcome.Offer?
    requires Answers(Some(deployment), Some(listed), accepted, own)
    ensures var pressed := Actions.TelegramDecode(Actions.ActionId(outcome.action));
            && pressed == Actions.SlackDecode(Actions.ActionId(outcome.action))
            && (pressed.Some? ==>
                  && pressed.value.Rollback?
                  && var t' := Annotated(pressed.value, t, stamp);
                     && t'.labels == t.labels && t'.spec == t.spec
                     && (own.Sent? ==>
                           && (exists r <- listed :: own.patch == r.patch)
                           && ((t'.labels, t'.spec) == (own.patch.labels, own.patch.spec)
                               <==> (t.labels, t.spec) == (own.patch.labels, own.patch.spec))))
  {
    RollbackGrounds(p, asked, before, rs, at, after, outcome);
    var a := Actions.Rollback(p.namespace, p.deployment.value);
    if own.Sent? {
      ButtonRestoresNothing(a.namespace, a.deployment, t, stamp, own.patch);
    }
  }

  lemma {:induction false} TurnsClean(p: Subject, asked: bool, ops: seq<Op>, rs: seq<Report>, at: seq<Stamps>)
    requires |rs| == |at| && Turns(p, asked, ops, rs, at).1.None?
    ensures forall r <- rs :: !r.oomKilled
  {
    if rs != [] {
      var n := |rs| - 1;
      TurnsClean(p, asked, ops, rs[..n], at[..n]);
      assert rs == rs[..n] + [rs[n]];
    }
  }

  /** A call that takes less than the gate's cooldown passes the gate at most once: whatever the
      model answers about the first broken container, it is not asked about a second. */
  lemma {:induction false} OneQuestion(
    p: Subject, asked: bool, ops: seq<Op>, rs: seq<Report>, at: seq<Stamps>, lo: int, hi: int)
    requires |rs| == |at| && Ordered(at, lo, hi) && hi - lo < Ttl(Gate(p))
    ensures var (after, k) := (Turns(p, asked, ops, rs, at).0, Gate(p));
            && |Passes(after, k)| <= |Passes(ops, k)| + 1
            && (after == ops || (Last(after, k).Some? && lo <= Last(after, k).value <= hi))
  {
    if rs != [] {
      var n := |rs| - 1;
      OneQuestion(p, asked, ops, rs[..n], at[..n], lo, hi);
      var before := Turns(p, asked, ops, rs[..n], at[..n]);
      if before.1.None? {
        TurnPasses(p, asked, before.0, rs[n], at[n]);
      }
    }
  }

  /** One turn leaves the trace alone or passes the gate once. */
  lemma TurnPasses(p: Subject, asked: bool, ops: seq<Op>, r: Report, at: Stamps)
    ensures var (after, k) := (Turn(p, asked, ops, r, at).0, Gate(p));
            || after == ops
            || (&& Open(k, Last(ops, k), at.check)
                && Passes(after, k) == Passes(ops, k) + [at.store]
                && Last(after, k) == Some(at.store))
  {
    var k := Gate(p);
    var passed := ops + [Passed(k, at.store)];
    PassAppend(ops, Passed(k, at.store), k);
    LastAppend(ops, Passed(k, at.store), k);
    if !r.oomKilled && Broken(r) {
      AttemptExact(passed, Notice(TitleText(Autonomous), r.length), at.notice, k);
      AttemptExact(passed, Notice(TitleText(IssueDetected(r.waiting.value)), r.length), at.notice, k);
    }
  }

  // ---------- what each turn comes to ----------

  /** A notice has gone out in between exactly if it was due and its cooldown allowed. */
  ghost predicate Sent(before: seq<Op>, after: seq<Op>, notice: Key, due: bool, now: int)
  {
    Passes(after, notice)
    == Passes(before, notice) + if due && Open(notice, Last(before, notice), now) then [now] else []
  }

  predicate InTrouble(r: Report)
  {
    r.oomKilled || (r.waiting.Some? && r.waiting.value in
      {"ErrImagePull", "ImagePullBackOff", "CrashLoopBackOff", "CreateContainerConfigError"})
  }

  /** The model has been asked about the container, and has answered. */
  predicate Judged(r: Report, asked: bool)
  {
    && asked && r.advice.Some? && r.waiting.Some?
    && (r.waiting.value == "CrashLoopBackOff" || r.waiting.value == "CreateContainerConfigError")
  }

  /** What follows the answer, if it ends the loop. */
  function Sentence(p: Subject, r: Report, asked: bool): Option<Outcome>
  {
    if !Judged(r, asked) || p.deployment.None? then None
    else if r.advice.value == Advice(true, "rollback") then Some(Healed(p.deployment.value))
    else if r.waiting.value == "CrashLoopBackOff" && r.restarts >= 2 then
      Some(Offer(Actions.Rollback(p.namespace, p.deployment.value)))
    else None
  }

  /** One turn, by the report: a kill is handed over; a healthy container is passed by; a broken one
      ends the loop if the gate is shut, and passes it otherwise. Then the answer may end the loop,
      a rollback being noticed, or else an answered issue is: exactly these, as cooldowns allow. */
  lemma TurnExact(p: Subject, asked: bool, ops: seq<Op>, r: Report, at: Stamps)
    ensures var (after, end) := Turn(p, asked, ops, r, at);
            var open := Open(Gate(p), Last(ops, Gate(p)), at.check);
            var sentence := Sentence(p, r, asked);
            if r.oomKilled then after == ops && end == Some(ToOom)
            else if !InTrouble(r) then after == ops && end == None
            else if !open then after == ops && end == Some(Quietly)
            else
              && end == sentence && Passes(after, Gate(p)) == Passes(ops, Gate(p)) + [at.store]
              && Sent(ops, after, Notice(TitleText(Autonomous), r.length),
                      sentence.Some? && sentence.value.Healed?, at.notice)
              && Sent(ops, after, Notice(TitleText(IssueDetected(r.waiting.value)), r.length),
                      sentence.None? && Judged(r, asked), at.notice)
  {
    TroubleIs(r);
    if !r.oomKilled && Broken(r) {
      SentenceIs(p, r, asked);
      var passed := ops + [Passed(Gate(p), at.store)];
      AlertsUntouched(ops, Passed(Gate(p), at.store), Notice(TitleText(Autonomous), r.length));
      AlertsUntouched(ops, Passed(Gate(p), at.store), Notice(TitleText(IssueDetected(r.waiting.value)), r.length));
      if Answered(r, asked) {
        ActedExact(p, passed, r, at.notice);
      }
    }
  }

  lemma TroubleIs(r: Report)
    ensures InTrouble(r) <==> r.oomKilled || Broken(r)
  {
  }

  lemma SentenceIs(p: Subject, r: Report, asked: bool)
    requires Broken(r)
    ensures Judged(r, asked) <==> Answered(r, asked)
    ensures Answered(r, asked) ==>
              Sentence(p, r, asked) == if FixesItself(p, r) then Some(Healed(p.deployment.value))
                                       else if Offers(p, r) then
                                         Some(Offer(Actions.Rollback(p.namespace, p.deployment.value)))
                                       else None
    ensures !Answered(r, asked) ==> Sentence(p, r, asked).None?
  {
  }

  /** A gate passed is passed once, and no notice with it. */
  lemma AlertsUntouched(ops: seq<Op>, pass: Op, notice: Key)
    requires pass.Passed? && !pass.key.Notice? && notice.Notice?
    ensures Passes(ops + [pass], pass.key) == Passes(ops, pass.key) + [pass.at]
    ensures Passes(ops + [pass], notice) == Passes(ops, notice) && Last(ops + [pass], notice) == Last(ops, notice)
  {
    PassAppend(ops, pass, pass.key);
    PassAppend(ops, pass, notice);
    LastAppend(ops, pass, notice);
  }

  lemma ActedExact(p: Subject, ops: seq<Op>, r: Report, now: int)
    requires Broken(r) && r.advice.Some?
    ensures var (after, end) := Acted(p, ops, r, now);
            && Passes(after, Gate(p)) == Passes(ops, Gate(p))
            && Sent(ops, after, Notice(TitleText(Autonomous), r.length), FixesItself(p, r), now)
            && Sent(ops, after, Notice(TitleText(IssueDetected(r.waiting.value)), r.length),
                    !FixesItself(p, r) && !Offers(p, r), now)
  {
    OnlyIssuesLookIt(Autonomous);
    var k1 := Notice(TitleText(Autonomous), r.length);
    var k2 := Notice(TitleText(IssueDetected(r.waiting.value)), r.length);
    assert k1 != k2 by { assert ISSUE <= k2.title; }
    var tried := if FixesItself(p, r) then k1 else k2;
    AttemptExact(ops, tried, now, Gate(p));
    AttemptExact(ops, tried, now, k1);
    AttemptExact(ops, tried, now, k2);
  }

  lemma {:induction false} QuietTurns(p: Subject, asked: bool, ops: seq<Op>, rs: seq<Report>, at: seq<Stamps>)
    requires |rs| == |at| && forall r <- rs :: !InTrouble(r)
    ensures Turns(p, asked, ops, rs, at) == (ops, None)
  {
    if rs != [] {
      var n := |rs| - 1;
      QuietTurns(p, asked, ops, rs[..n], at[..n]);
      assert rs[n] in rs;
      TurnExact(p, asked, ops, rs[n], at[n]);
    }
  }

  lemma {:induction false} EndedStays(p: Subject, asked: bool, ops: seq<Op>, rs: seq<Report>, at: seq<Stamps>, m: nat)
    requires |rs| == |at| && m <= |rs| && Turns(p, asked, ops, rs[..m], at[..m]).1.Some?
    ensures Turns(p, asked, ops, rs, at).1.Some?
  {
    if m < |rs| {
      var n := |rs| - 1;
      assert rs[..n][..m] == rs[..m] && at[..n][..m] == at[..m];
      EndedStays(p, asked, ops, rs[..n], at[..n], m);
    } else {
      assert rs[..m] == rs && at[..m] == at;
    }
  }

  /** A call over healthy containers does nothing. */
  lemma NoTrouble(p: Subject, asked: bool, before: seq<Op>, rs: seq<Report>, at: seq<Stamps>, after: seq<Op>,
                  outcome: Outcome)
    requires Analyzed(p, asked, before, rs, at, after, outcome) && forall r <- rs :: !InTrouble(r)
    ensures after == before && outcome == Quietly && |at| == |rs|
  {
    QuietTurns(p, asked, before, rs[..|at|], at);
  }

  /** The first container in trouble decides: a kill is handed over at once; a broken one with the
      gate shut ends the call quietly, having done nothing; with the gate open the gate is passed at
      that turn, and the call ends there if the answer says so. */
  lemma FirstTroubleDecides(p: Subject, asked: bool, before: seq<Op>, rs: seq<Report>, at: seq<Stamps>,
                            after: seq<Op>, outcome: Outcome, i: nat)
    requires Analyzed(p, asked, before, rs, at, after, outcome)
    requires i < |rs| && InTrouble(rs[i]) && forall j :: 0 <= j < i ==> !InTrouble(rs[j])
    ensures i < |at|
    ensures var open := Open(Gate(p), Last(before, Gate(p)), at[i].check);
            if rs[i].oomKilled then outcome == ToOom && after == before
            else if !open then outcome == Quietly && after == before
            else
              && Turns(p, asked, before, rs[..i + 1], at[..i + 1]) == Turn(p, asked, before, rs[i], at[i])
              && (Sentence(p, rs[i], asked).Some? ==>
                    |at| == i + 1 && outcome == Sentence(p, rs[i], asked).value
                    && Passes(after, Gate(p)) == Passes(before, Gate(p)) + [at[i].store])
  {
    var m := if |at| < i then |at| else i;
    QuietTurns(p, asked, before, rs[..m], at[..m]);
    assert at[..|at|] == at;
    assert m == i && i < |at|;
    OneTurn(p, asked, before, rs, at, i);
    TurnExact(p, asked, before, rs[i], at[i]);
    if Turn(p, asked, before, rs[i], at[i]).1.Some? {
      EndsThere(p, asked, before, rs, at, after, outcome, i);
    }
  }

  lemma OneTurn(p: Subject, asked: bool, ops: seq<Op>, rs: seq<Report>, at: seq<Stamps>, i: nat)
    requires i < |rs| && i < |at| && Turns(p, asked, ops, rs[..i], at[..i]) == (ops, None)
    ensures Turns(p, asked, ops, rs[..i + 1], at[..i + 1]) == Turn(p, asked, ops, rs[i], at[i])
  {
    assert rs[..i + 1][..i] == rs[..i] && at[..i + 1][..i] == at[..i];
  }

  /** The turn that ends the loop is the last one taken. */
  lemma EndsThere(p: Subject, asked: bool, before: seq<Op>, rs: seq<Report>, at: seq<Stamps>, after: seq<Op>,
                  outcome: Outcome, i: nat)
    requires Analyzed(p, asked, before, rs, at, after, outcome) && i < |at|
    requires Turns(p, asked, before, rs[..i + 1], at[..i + 1]).1.Some?
    ensures |at| == i + 1 && (after, Some(outcome)) == Turns(p, asked, before, rs[..i + 1], at[..i + 1])
  {
    var n := |at| - 1;
    if n > i {
      assert rs[..n][..i + 1] == rs[..i + 1] && at[..n][..i + 1] == at[..i + 1];
      EndedStays(p, asked, before, rs[..n], at[..n], i + 1);
    }
    assert at[..i + 1] == at;
  }

  // ---------- metric alerts ----------

  /** A metric that could be read and exceeds its threshold. */
  predicate Over(reading: Option<Autoscaler.Cpu>, threshold: real)
  {
    reading.Some? && reading.value.Usage? && reading.value.cores > threshold
  }

  /** The time stored, then the notice tried. */
  ghost function Alerted(ops: seq<Op>, op: Op, title: Title, length: nat, now: int): seq<Op>
  {
    Attempted(ops + [op], Notice(TitleText(title), length), now)
  }

  /** The trace after a metrics pass whose gate was open: each exceeded threshold stores the time
      (the second of two stores it again) and tries its own notice. */
  ghost function MetricsTrace(ops: seq<Op>, gate: Key, cpu: bool, cpuLength: nat, mem: bool, memLength: nat,
                              cpuAt: Stamps, memAt: Stamps): seq<Op>
  {
    var afterCpu := if cpu then Alerted(ops, Passed(gate, cpuAt.store), HighCpu, cpuLength, cpuAt.notice) else ops;
    var again := if cpu then Refreshed(gate, memAt.store) else Passed(gate, memAt.store);
    if mem then Alerted(afterCpu, again, HighMemory, memLength, memAt.notice) else afterCpu
  }

  lemma AlertedPasses(ops: seq<Op>, op: Op, title: Title, length: nat, now: int, k: Key)
    requires !op.key.Notice?
    ensures var (after, notice) := (Alerted(ops, op, title, length, now), Notice(TitleText(title), length));
            && (k.Notice? ==>
                  Passes(after, k) == Passes(ops, k) + if k == notice && Open(k, Last(ops, k), now) then [now] else [])
            && (!k.Notice? ==>
                  Passes(after, k) == Passes(ops, k) + if op.Passed? && op.key == k then [op.at] else [])
            && (k.Notice? && k != notice ==> Last(after, k) == Last(ops, k))
  {
    PassAppend(ops, op, k);
    LastAppend(ops, op, k);
    AttemptExact(ops + [op], Notice(TitleText(title), length), now, k);
  }

  /** What a metrics pass comes to, by its readings: it counts once against its gate if the CPU is
      above 0.90 cores or the memory above 800 megabytes, and not at all otherwise -- a reading that
      failed or is no number is above nothing; and each of the two notices is sent exactly if its own
      reading is above and its own cooldown allows. */
  lemma MetricsExact(ops: seq<Op>, gate: Key, cpu: Option<Autoscaler.Cpu>, cpuLength: nat,
                     mem: Option<Autoscaler.Cpu>, memLength: nat, cpuAt: Stamps, memAt: Stamps)
    requires gate.Metrics?
    ensures var after := MetricsTrace(ops, gate, Over(cpu, 0.90), cpuLength, Over(mem, 800.0), memLength, cpuAt, memAt);
            var hot := cpu.Some? && !cpu.value.NaN? && cpu.value.cores > 0.90;
            var full := mem.Some? && !mem.value.NaN? && mem.value.cores > 800.0;
            var (k1, k2) := (Notice(TitleText(HighCpu), cpuLength), Notice(TitleText(HighMemory), memLength));
            && Passes(after, gate)
               == Passes(ops, gate) + (if hot then [cpuAt.store] else if full then [memAt.store] else [])
            && Sent(ops, after, k1, hot, cpuAt.notice) && Sent(ops, after, k2, full, memAt.notice)
  {
    MetricsPasses(ops, gate, Over(cpu, 0.90), cpuLength, Over(mem, 800.0), memLength, cpuAt, memAt);
  }

  lemma MetricsPasses(ops: seq<Op>, gate: Key, cpu: bool, cpuLength: nat, mem: bool, memLength: nat,
                      cpuAt: Stamps, memAt: Stamps)
    requires gate.Metrics?
    ensures var after := MetricsTrace(ops, gate, cpu, cpuLength, mem, memLength, cpuAt, memAt);
            var (k1, k2) := (Notice(TitleText(HighCpu), cpuLength), Notice(TitleText(HighMemory), memLength));
            && Passes(after, gate)
               == Passes(ops, gate) + (if cpu then [cpuAt.store] else if mem then [memAt.store] else [])
            && Sent(ops, after, k1, cpu, cpuAt.notice) && Sent(ops, after, k2, mem, memAt.notice)
  {
    var (k1, k2) := (Notice(TitleText(HighCpu), cpuLength), Notice(TitleText(HighMemory), memLength));
    TitlesDiffer();
    var pass := Passed(gate, cpuAt.store);
    var afterCpu := if cpu then Alerted(ops, pass, HighCpu, cpuLength, cpuAt.notice) else ops;
    var again := if cpu then Refreshed(gate, memAt.store) else Passed(gate, memAt.store);
    AlertBoth(ops, pass, HighCpu, cpuLength, cpuAt.notice, gate, k1, k2);
    AlertBoth(afterCpu, again, HighMemory, memLength, memAt.notice, gate, k1, k2);
  }

  lemma TitlesDiffer()
    ensures TitleText(HighCpu) != TitleText(HighMemory)
  {
    assert TitleText(HighCpu)[5] != TitleText(HighMemory)[5];
  }

  lemma AlertBoth(ops: seq<Op>, op: Op, title: Title, length: nat, now: int, gate: Key, k1: Key, k2: Key)
    requires op.key == gate && !gate.Notice? && k1.Notice? && k2.Notice?
    ensures var (after, notice) := (Alerted(ops, op, title, length, now), Notice(TitleText(title), length));
            && Passes(after, gate) == Passes(ops, gate) + (if op.Passed? then [op.at] else [])
            && Sent(ops, after, k1, k1 == notice, now) && Sent(ops, after, k2, k2 == notice, now)
            && (k2 != notice ==> Last(after, k2) == Last(ops, k2))
  {
    AlertedPasses(ops, op, title, length, now, gate);
    AlertedPasses(ops, op, title, length, now, k1);
    AlertedPasses(ops, op, title, length, now, k2);
  }
}
