/** The pod reconciler as the object the source has: two concurrent maps read, stored and
    deleted step by step. Its invariant ties the cooldown cache to a legal trace of operations
    and the state cache to the observations made, so the bounds of AlertCache, Lifecycle, Oom and
    Autoscaler hold of every sequence of calls. */
module Reconciler {
  import opened Wrappers
  import opened Text
  import opened Rates
  import opened AlertCache
  import opened Lifecycle
  import opened Incidents
  import opened Footprints
  import Autoscaler
  import Oom
  import Cost
  import Actions
  import Rollback

  /** A pod as a pass sees it. The controlling deployment is what following the owner references
      through a ReplicaSet finds, if it finds one. */
  datatype PodView = PodView(
    namespace: string, name: string, phase: string, states: seq<ContainerState>, deployment: Option<string>)

  predicate SlashFree(pod: PodView)
  {
    && '/' !in pod.namespace && '/' !in pod.name
    && (pod.deployment.Some? ==> '/' !in pod.deployment.value)
  }

  /** What the cluster would answer a rollback of the pod's deployment: its annotations, the listed
      ReplicaSets, and whether a patch is accepted. */
  datatype Revisions = Revisions(
    deployment: Option<map<string, string>>, items: Option<array<Rollback.ReplicaSet>>, accepted: bool)

  function Listing(revisions: Revisions): set<object>
  {
    if revisions.items.Some? then {revisions.items.value} else {}
  }

  ghost function Listed(revisions: Revisions): Option<seq<Rollback.Revised>>
    reads Listing(revisions)
    reads if revisions.items.Some? then set rs | rs in revisions.items.value[..] :: rs.template else {}
  {
    if revisions.items.Some? then Some(Rollback.View(revisions.items.value[..])) else None
  }

  /** What a pass of the autoscaler's gate meets, from the annotations and the reading. */
  function Met(minAnnotation: Option<string>, maxAnnotation: Option<string>, cpu: Option<Autoscaler.Cpu>,
               patched: bool): Autoscaler.Reading
  {
    Autoscaler.Reading(Autoscaler.Bound(minAnnotation, 1), Autoscaler.Bound(maxAnnotation, 10), cpu, patched)
  }

  /** The bounds default to 1 and 10; a 32-bit numeral in an annotation replaces them. */
  lemma MetExact(minAnnotation: Option<string>, maxAnnotation: Option<string>, cpu: Option<Autoscaler.Cpu>,
                 patched: bool)
    ensures var m := Met(minAnnotation, maxAnnotation, cpu, patched);
            && m.cpu == cpu && m.patched == patched
            && m.min == ReadOr(minAnnotation, 1) && m.max == ReadOr(maxAnnotation, 10)
  {
    Autoscaler.BoundExact(minAnnotation, 1);
    Autoscaler.BoundExact(maxAnnotation, 10);
  }

  function ReadOr(annotation: Option<string>, default: int): int
  {
    if && annotation.Some? && IsNumeral(annotation.value)
       && -0x8000_0000 <= Numeral(annotation.value) < 0x8000_0000
    then Numeral(annotation.value) else default
  }

  /** One activity check of a deployment's pod: what it reads of the deployment and the metrics. */
  datatype Activity = Activity(
    pod: string, minAnnotation: Option<string>, maxAnnotation: Option<string>, cpu: Option<Autoscaler.Cpu>,
    patched: bool, length: nat)

  function Pods(calls: seq<Activity>): set<string>
  {
    set c | c in calls :: c.pod
  }

  /** Everything else a pass over a pod learns from outside. */
  datatype Inputs = Inputs(
    newLength: nat, recoveryLength: nat,
    reports: seq<Report>, asked: bool, revisions: Revisions,
    containers: Option<seq<Oom.Container>>, kills: seq<Oom.Status>, bots: bool, guardLength: nat, manualLength: nat,
    policies: Option<nat>, created: bool, healLength: nat,
    replicas: Option<int32>, minAnnotation: Option<string>, maxAnnotation: Option<string>,
    usage: Option<Autoscaler.Cpu>, patched: bool, scaleLength: nat,
    prometheus: bool, cpu: Option<Autoscaler.Cpu>, cpuLength: nat, mem: Option<Autoscaler.Cpu>, memLength: nat,
    metricsRead: bool, deployment: Option<(int, int32)>, answer: Option<(bool, int32)>)

  const IGNORED := ["kube-system", "local-path-storage", "ingress-nginx", "monitoring"]

  /** The keys a pass over a pod may use, beside those of notices: the pod's own, its namespace's and
      its deployment's; the autoscaler's, the metrics' and the cost optimiser's only while it runs. */
  function AnalysisKeys(pod: PodView): set<Key>
  {
    {Analyze(pod.namespace, pod.name), Key.Oom(pod.namespace, pod.name)}
    + if pod.deployment.Some? then {OomPending(pod.namespace, pod.deployment.value)} else {}
  }

  function UsageKeys(pod: PodView): set<Key>
  {
    {Metrics(pod.namespace, pod.name)}
    + if pod.deployment.Some? then {Key.Cost(pod.namespace, pod.deployment.value)} else {}
  }

  function KeysOf(pod: PodView): set<Key>
  {
    AnalysisKeys(pod) + {Sec(pod.namespace)}
    + if pod.phase == "Running" then {Scale(pod.namespace, pod.name)} + UsageKeys(pod) else {}
  }

  /** There is cause for a metrics alert, and for a cost proposal. */
  predicate Excessive(given: Inputs)
  {
    || (given.cpu.Some? && given.cpu.value.Usage? && given.cpu.value.cores > 0.90)
    || (given.mem.Some? && given.mem.value.Usage? && given.mem.value.cores > 800.0)
  }

  predicate Wasteful(given: Inputs)
  {
    && given.metricsRead && given.deployment.Some? && given.deployment.value.0 >= 2 * MINUTE
    && given.answer.Some? && given.answer.value.0
    && given.deployment.value.1 > 1 && given.answer.value.1 < given.deployment.value.1
  }

  /** No check is skipped: each gate is passed only for cause, and surely if there is cause and it is
      open when the request comes in. */
  ghost predicate Inspected(before: seq<Op>, after: seq<Op>, pod: PodView, given: Inputs, now: int)
  {
    var (ns, running) := (pod.namespace, pod.phase == "Running");
    && Served(before, after, Analyze(ns, pod.name), BrokenFirst(given.reports), now)
    && (KilledFirst(given.reports) && Open(Key.Oom(ns, pod.name), Last(before, Key.Oom(ns, pod.name)), now) ==>
          |Passes(after, Key.Oom(ns, pod.name))| > |Passes(before, Key.Oom(ns, pod.name))|)
    && Served(before, after, Sec(ns), given.policies == Some(0), now)
    && (running ==> Served(before, after, Scale(ns, pod.name), true, now))
    && (running && given.prometheus ==>
          && Served(before, after, Metrics(ns, pod.name), Excessive(given), now)
          && (pod.deployment.Some? ==>
                Served(before, after, Key.Cost(ns, pod.deployment.value), Wasteful(given), now)))
  }

  class KubeSolvConfigReconciler {
    var alertCache: map<string, int>
    var stateCache: map<string, string>
    var clock: int
    ghost var ops: seq<Op>
    ghost var seen: seq<Observation>
    ghost var attempts: seq<Attempt>

    ghost predicate CacheOk()
      reads this`alertCache, this`ops
    {
      Legal(ops) && Agrees(alertCache, ops)
    }

    ghost predicate Valid()
      reads this
    {
      && CacheOk()
      && Named(seen) && stateCache == CacheAfter(seen) && attempts == AttemptsAfter(seen)
    }

    constructor ()
      ensures Valid() && ops == [] && seen == []
    {
      alertCache, stateCache, clock := map[], map[], 0;
      ops, seen, attempts := [], [], [];
    }

    /** time.Now: some reading no earlier than the last. */
    method Now() returns (t: int)
      modifies this`clock
      ensures t == clock >= old(clock)
    {
      var elapsed: int :| elapsed >= 0;
      clock := clock + elapsed;
      t := clock;
    }

    /** The gate at the head of the checks: Load, then time.Since against the cooldown. */
    method Cooling(k: Key) returns (cooling: bool)
      requires CacheOk() && Clean(k) && !k.Oom? && !k.Notice?
      modifies this`clock
      ensures clock >= old(clock)
      ensures cooling == !Open(k, Last(ops, k), clock)
    {
      assert Last(ops, k) == if Render(k) in alertCache then Some(alertCache[Render(k)]) else None;
      if Render(k) !in alertCache {
        return false;
      }
      var now := Now();
      cooling := now - alertCache[Render(k)] < Ttl(k);
    }

    method StoreTime(k: Key)
      requires CacheOk() && Clean(k) && Open(k, Last(ops, k), clock)
      modifies this`alertCache, this`clock, this`ops
      ensures CacheOk() && clock >= old(clock) && ops == old(ops) + [Passed(k, clock)]
    {
      var now := Now();
      StoreAgrees(alertCache, ops, Passed(k, now));
      LegalAppend(ops, Passed(k, now));
      alertCache := alertCache[Render(k) := now];
      ops := ops + [Passed(k, now)];
    }

    method NotifyUser(title: Title, length: nat) returns (sent: bool)
      requires CacheOk() && Used(title)
      modifies this`alertCache, this`clock, this`ops
      ensures CacheOk() && clock >= old(clock)
      ensures var k := Notice(TitleText(title), length);
              sent == Open(k, Last(old(ops), k), clock) && ops == Attempted(old(ops), k, clock)
    {
      var k := Notice(TitleText(title), length);
      TitlesClean(title, length);
      assert Last(ops, k) == if Render(k) in alertCache then Some(alertCache[Render(k)]) else None;
      if Render(k) in alertCache {
        var now := Now();
        if now - alertCache[Render(k)] < Ttl(k) {
          if !Contains(TitleText(title), "Recovered") && !Contains(TitleText(title), "New Pod") {
            return false;
          }
        }
      }
      StoreTime(k);
      return true;
    }

    /** trackLifecycle. The lengths are those of the new-pod and recovery messages. */
    method TrackLifecycle(pod: PodView, newLength: nat, recoveryLength: nat)
      requires Valid() && SlashFree(pod)
      modifies this
      ensures Valid() && clock >= old(clock)
      ensures seen == old(seen) + [Observation(Pod(pod.namespace, pod.name), StatusOf(pod.phase, pod.states))]
      ensures var tried := Track(old(stateCache), seen[|seen| - 1]).1;
              && attempts == old(attempts) + tried
              && ops == if tried == [] then old(ops)
                        else if tried[0].NewPod? then
                          Attempted(old(ops), Notice(TitleText(NewActivity), newLength), clock)
                        else
                          Attempted(old(ops), Notice(TitleText(IssueResolved), recoveryLength), clock)
                          + [Deleted(Notice(ISSUE + old(stateCache)[PodKey(tried[0].pod)], recoveryLength))]
    {
      var currentStatus := CurrentStatus(pod.phase, pod.states);
      ghost var o := Observation(Pod(pod.namespace, pod.name), currentStatus);
      Observe(o);
      var podKey := pod.namespace + "/" + pod.name;
      if podKey !in stateCache {
        var _ := NotifyUser(NewActivity, newLength);
        stateCache := stateCache[podKey := currentStatus];
        return;
      }
      var lastStatus := stateCache[podKey];
      if Heals(lastStatus, currentStatus) {
        var _ := NotifyUser(IssueResolved, recoveryLength);
        ForgetIssue(lastStatus, recoveryLength);
      }
      if lastStatus != currentStatus {
        stateCache := stateCache[podKey := currentStatus];
      }
    }

    ghost method Observe(o: Observation)
      requires Named(seen) && '/' !in o.pod.namespace
      requires stateCache == CacheAfter(seen) && attempts == AttemptsAfter(seen)
      modifies this`seen, this`attempts
      ensures seen == old(seen) + [o] && Named(seen)
      ensures CacheAfter(seen) == Track(stateCache, o).0
      ensures attempts == old(attempts) + Track(stateCache, o).1 == AttemptsAfter(seen)
    {
      assert (seen + [o])[..|seen|] == seen;
      attempts := attempts + Track(stateCache, o).1;
      seen := seen + [o];
    }

    /** The deletion of an issue notice's hash when its pod recovers. */
    method ForgetIssue(status: string, length: nat)
      requires CacheOk() && IsBad(status)
      modifies this`alertCache, this`ops
      ensures CacheOk() && ops == old(ops) + [Deleted(Notice(ISSUE + status, length))]
    {
      var k := Notice(ISSUE + status, length);
      BadStatusClean(status, length);
      DeleteAgrees(alertCache, ops, Deleted(k));
      LegalAppend(ops, Deleted(k));
      alertCache := alertCache - {Render(k)};
      ops := ops + [Deleted(k)];
    }

    /** checkSecurity: at most one look per namespace and hour that finds no policy. */
    method CheckSecurity(pod: PodView, policies: Option<nat>, created: bool, length: nat)
      returns (healed: bool, ghost t: int)
      requires CacheOk() && SlashFree(pod)
      modifies this`alertCache, this`clock, this`ops
      ensures CacheOk() && clock >= old(clock)
      ensures var k := Sec(pod.namespace);
              if policies == Some(0) && Open(k, Last(old(ops), k), clock) then
                && healed == created && old(clock) <= t <= clock
                && ops == if created then
                            Attempted(old(ops) + [Passed(k, t)], Notice(TitleText(SecurityHeal), length), clock)
                          else old(ops) + [Passed(k, t)]
              else !healed && ops == old(ops)
    {
      var k := Sec(pod.namespace);
      var cooling := Cooling(k);
      if cooling {
        return false, clock;
      }
      if policies != Some(0) {
        return false, clock;
      }
      StoreTime(k);
      t := clock;
      if created {
        var _ := NotifyUser(SecurityHeal, length);
      }
      return created, t;
    }

    /** checkActivity: a patch is one autoscaler step, behind the pod's 15-second gate. */
    method CheckActivity(pod: PodView, replicas: Option<int32>, minAnnotation: Option<string>,
                         maxAnnotation: Option<string>, cpu: Option<Autoscaler.Cpu>, patched: bool, length: nat)
      returns (patch: Option<int32>, ghost t: int)
      requires CacheOk() && SlashFree(pod)
      modifies this`alertCache, this`clock, this`ops
      ensures CacheOk() && clock >= old(clock)
      ensures var k := Scale(pod.namespace, pod.name);
              if Open(k, Last(old(ops), k), clock) then
                && patch == (if pod.deployment.None? || replicas.None? then None
                             else Autoscaler.Asked(replicas.value, Met(minAnnotation, maxAnnotation, cpu, patched)))
                && old(clock) <= t <= clock
                && ops == if patch.Some? && patched then
                            Attempted(old(ops) + [Passed(k, t)], Notice(TitleText(SmartScaling), length), clock)
                          else old(ops) + [Passed(k, t)]
              else patch.None? && ops == old(ops)
    {
      var k := Scale(pod.namespace, pod.name);
      var cooling := Cooling(k);
      if cooling {
        return None, clock;
      }
      StoreTime(k);
      t := clock;
      if pod.deployment.None? || replicas.None? || cpu.None? {
        return None, t;
      }
      patch := Autoscaler.Desired(replicas.value, Autoscaler.Bound(minAnnotation, 1),
                                  Autoscaler.Bound(maxAnnotation, 10), cpu.value);
      if patch.Some? && patched {
        var _ := NotifyUser(SmartScaling, length);
      }
    }

    /** Any sequence of activity checks of one deployment's pods with nobody else editing it: each
        reads the count the last one left. However often the pods come round and whatever is read,
        P pods move the count by at most P * (T / 15s + 1) in the time T the sequence takes. */
    method WatchActivity(namespace: string, deployment: string, start: int32, calls: seq<Activity>)
      returns (count: int32)
      requires CacheOk() && '/' !in namespace && '/' !in deployment && forall c <- calls :: '/' !in c.pod
      modifies this`alertCache, this`clock, this`ops
      ensures CacheOk() && clock >= old(clock)
      ensures var bound := |Pods(calls)| * ((clock - old(clock)) / (15 * SECOND) + 1);
              0 - bound <= count - start <= bound
    {
      count := start;
      ghost var n := |ops|;
      ghost var pods := Pods(calls);
      ghost var readings := seq(n, _ => Autoscaler.Reading(0, 0, None, false));
      Autoscaler.ReplicasUnread(start, ops, readings, namespace, pods);
      assert ops[..n] == ops && readings[..n] == readings;
      for i := 0 to |calls|
        invariant CacheOk() && clock >= old(clock) && old(ops) <= ops && n == |old(ops)|
        invariant |readings| == |ops|
        invariant Autoscaler.Replicas(start, ops[..n], readings[..n], namespace, pods) == start
        invariant count == Autoscaler.Replicas(start, ops, readings, namespace, pods)
        invariant MovedWithin(ops, n, namespace, pods, old(clock), clock)
      {
        ghost var (ops0, readings0) := (ops, readings);
        count, readings := CheckOnce(namespace, deployment, start, count, calls[i], pods, readings);
        assert ops[..n] == ops0[..n] && readings[..n] == readings0[..n];
      }
      Autoscaler.DriftBound(start, ops, readings, namespace, pods, n, |ops|, old(clock), clock - old(clock));
      assert ops[..|ops|] == ops && readings[..|readings|] == readings;
    }

    static ghost predicate MovedWithin(ops: seq<Op>, n: nat, namespace: string, pods: set<string>, lo: int, hi: int)
    {
      forall k :: n <= k < |ops| && Autoscaler.IsMove(ops[k], namespace, pods) ==> lo <= ops[k].at <= hi
    }

    /** One check, and what it adds to the account of passes. */
    method CheckOnce(namespace: string, deployment: string, ghost start: int32, current: int32, c: Activity,
                     ghost pods: set<string>, ghost readings: seq<Autoscaler.Reading>)
      returns (count: int32, ghost more: seq<Autoscaler.Reading>)
      requires CacheOk() && '/' !in namespace && '/' !in deployment && '/' !in c.pod && c.pod in pods
      requires |readings| == |ops| && current == Autoscaler.Replicas(start, ops, readings, namespace, pods)
      modifies this`alertCache, this`clock, this`ops
      ensures CacheOk() && clock >= old(clock) && old(ops) <= ops && readings <= more
      ensures |more| == |ops| && count == Autoscaler.Replicas(start, ops, more, namespace, pods)
      ensures MovedWithin(ops, |old(ops)|, namespace, pods, old(clock), clock)
    {
      var pod := PodView(namespace, c.pod, "Running", [], Some(deployment));
      var patch, t := CheckActivity(pod, Some(current), c.minAnnotation, c.maxAnnotation, c.cpu, c.patched, c.length);
      count := Autoscaler.Taken(current, patch, c.patched);
      more := readings;
      if ops != old(ops) {
        more := PassAccount(start, old(ops), readings, namespace, pods, c, t, Notice(TitleText(SmartScaling), c.length),
                            clock, ops);
      }
    }

    static lemma PassAccount(start: int32, before: seq<Op>, readings: seq<Autoscaler.Reading>, namespace: string,
                             pods: set<string>, c: Activity, t: int, notice: Key, now: int, after: seq<Op>)
      returns (more: seq<Autoscaler.Reading>)
      requires |readings| == |before| && c.pod in pods && notice.Notice?
      requires var passed := before + [Passed(Scale(namespace, c.pod), t)];
               after == passed || after == Attempted(passed, notice, now)
      ensures readings <= more && |more| == |after|
      ensures var r := Met(c.minAnnotation, c.maxAnnotation, c.cpu, c.patched);
              var current := Autoscaler.Replicas(start, before, readings, namespace, pods);
              Autoscaler.Replicas(start, after, more, namespace, pods)
              == Autoscaler.Taken(current, Autoscaler.Asked(current, r), c.patched)
      ensures forall lo, hi :: lo <= t <= hi ==> MovedWithin(after, |before|, namespace, pods, lo, hi)
    {
      var r := Met(c.minAnnotation, c.maxAnnotation, c.cpu, c.patched);
      var pass := Passed(Scale(namespace, c.pod), t);
      Autoscaler.ReplicasAppend(start, before, readings, namespace, pods, pass, r);
      more := readings + [r];
      if after != before + [pass] {
        Autoscaler.ReplicasAppend(start, before + [pass], more, namespace, pods, Passed(notice, now), r);
        more := more + [r];
      }
    }

    /** analyzePod's loop over the container statuses; the clock readings are those it took. A
        rollback the model asks for is tried there and then, and ends the loop either way. */
    method AnalyzePod(pod: PodView, reports: seq<Report>, asked: bool, revisions: Revisions)
      returns (outcome: Outcome, rolled: Option<Rollback.Outcome>, ghost at: seq<Stamps>)
      requires CacheOk() && SlashFree(pod)
      modifies this`alertCache, this`clock, this`ops, Listing(revisions)
      ensures CacheOk() && clock >= old(clock) && Ordered(at, old(clock), clock)
      ensures Analyzed(Subject(pod.namespace, pod.name, pod.deployment), asked, old(ops), reports, at, ops, outcome)
      ensures rolled.Some? <==> outcome.Healed?
      ensures rolled.Some? ==>
                Rollback.Answers(revisions.deployment, old(Listed(revisions)), revisions.accepted, rolled.value)
    {
      ghost var p := Subject(pod.namespace, pod.name, pod.deployment);
      at := [];
      for i := 0 to |reports|
        invariant CacheOk() && clock >= old(clock) && |at| == i && Ordered(at, old(clock), clock)
        invariant Turns(p, asked, old(ops), reports[..i], at) == (ops, None)
        invariant Listed(revisions) == old(Listed(revisions))
      {
        ghost var (prior, mid) := (at, clock);
        var decided, stamps := AnalyzeStatus(pod, reports[i], asked);
        rolled := None;
        if decided.Some? && decided.value.Healed? {
          var answer := Heal(revisions, reports[i].length);
          rolled, stamps := Some(answer), stamps.(notice := clock);
        }
        NextTurn(p, asked, old(ops), reports, prior, stamps);
        OrderedAppend(prior, stamps, old(clock), mid, clock);
        at := prior + [stamps];
        if decided.Some? {
          return decided.value, rolled, at;
        }
      }
      assert reports[..|reports|] == reports;
      NoTurnLeft(p, asked, old(ops), reports, at);
      return Quietly, None, at;
    }

    /** One container status, up to the rollback the model may ask for. */
    method AnalyzeStatus(pod: PodView, r: Report, asked: bool) returns (decided: Option<Outcome>, ghost at: Stamps)
      requires CacheOk() && SlashFree(pod)
      modifies this`alertCache, this`clock, this`ops
      ensures CacheOk() && old(clock) <= at.check <= at.store <= at.notice <= clock
      ensures var p := Subject(pod.namespace, pod.name, pod.deployment);
              if decided.Some? && decided.value.Healed? then
                forall t :: Turn(p, asked, old(ops), r, at.(notice := t))
                            == (Attempted(ops, Notice(TitleText(Autonomous), r.length), t), decided)
              else (ops, decided) == Turn(p, asked, old(ops), r, at)
    {
      var k := Analyze(pod.namespace, pod.name);
      at := Stamps(clock, clock, clock);
      if r.oomKilled {
        return Some(ToOom), at;
      }
      if r.waiting.None? || r.waiting.value !in WAITING_REASONS {
        return None, at;
      }
      var cooling := Cooling(k);
      at := Stamps(clock, clock, clock);
      if cooling {
        return Some(Quietly), at;
      }
      StoreTime(k);
      at := at.(store := clock, notice := clock);
      if asked && r.waiting.value != "ImagePullBackOff" && r.waiting.value != "ErrImagePull" && r.advice.Some? {
        if r.advice.value.shouldAutoFix && r.advice.value.action == "rollback" && pod.deployment.Some? {
          return Some(Healed(pod.deployment.value)), at;
        }
        if r.waiting.value == "CrashLoopBackOff" && r.restarts >= 2 && pod.deployment.Some? {
          return Some(Offer(Actions.Rollback(pod.namespace, pod.deployment.value))), at;
        }
        var _ := NotifyUser(IssueDetected(r.waiting.value), r.length);
        return None, at.(notice := clock);
      }
      return None, at;
    }

    /** The rollback the model asked for, and the notice of how it went. */
    method Heal(revisions: Revisions, length: nat) returns (answer: Rollback.Outcome)
      requires CacheOk()
      modifies this`alertCache, this`clock, this`ops, Listing(revisions)
      ensures CacheOk() && clock >= old(clock)
      ensures ops == Attempted(old(ops), Notice(TitleText(Autonomous), length), clock)
      ensures Rollback.Answers(revisions.deployment, old(Listed(revisions)), revisions.accepted, answer)
    {
      answer := TryRollback(revisions);
      var _ := NotifyUser(Autonomous, length);
    }

    static method TryRollback(revisions: Revisions) returns (answer: Rollback.Outcome)
      modifies Listing(revisions)
      ensures Rollback.Answers(revisions.deployment, old(Listed(revisions)), revisions.accepted, answer)
    {
      answer := Rollback.RollbackDeployment(revisions.deployment, revisions.items, revisions.accepted);
    }

    /** handleOOM. The deployment's containers are those of its template; it has at least one. The
        lengths are those of the guardrail notice and of the one sent when no bot is configured. */
    method HandleOOM(pod: PodView, containers: Option<seq<Oom.Container>>, statuses: seq<Oom.Status>, bots: bool,
                     guardLength: nat, manualLength: nat)
      returns (decision: Option<Oom.Decision>, ghost t: int, ghost pendingAt: int)
      requires CacheOk() && SlashFree(pod)
      requires containers.Some? ==> containers.value != []
      modifies this`alertCache, this`clock, this`ops
      ensures CacheOk() && clock >= old(clock)
      ensures Last(old(ops), Key.Oom(pod.namespace, pod.name)).Some? ==> decision.None? && ops == old(ops)
      ensures Last(old(ops), Key.Oom(pod.namespace, pod.name)).None? ==>
                && old(clock) <= t <= pendingAt <= clock
                && (decision, ops) == Handled(old(ops) + [Passed(Key.Oom(pod.namespace, pod.name), t)], pod, containers,
                                              statuses, bots, guardLength, manualLength, pendingAt, clock)
    {
      var k := Key.Oom(pod.namespace, pod.name);
      assert Last(ops, k) == if Render(k) in alertCache then Some(alertCache[Render(k)]) else None;
      if Render(k) in alertCache {
        return None, clock, clock;
      }
      StoreTime(k);
      t := clock;
      decision, pendingAt := HandleKill(pod, containers, statuses, bots, guardLength, manualLength);
    }

    /** The rest of handleOOM, once the pod's own gate has been passed. */
    method HandleKill(pod: PodView, containers: Option<seq<Oom.Container>>, statuses: seq<Oom.Status>, bots: bool,
                      guardLength: nat, manualLength: nat)
      returns (decision: Option<Oom.Decision>, ghost pendingAt: int)
      requires CacheOk() && SlashFree(pod)
      requires containers.Some? ==> containers.value != []
      modifies this`alertCache, this`clock, this`ops
      ensures CacheOk() && old(clock) <= pendingAt <= clock
      ensures (decision, ops)
              == Handled(old(ops), pod, containers, statuses, bots, guardLength, manualLength, pendingAt, clock)
    {
      pendingAt := clock;
      if pod.deployment.None? || containers.None? {
        return None, pendingAt;
      }
      var pending := OomPending(pod.namespace, pod.deployment.value);
      var cooling := Cooling(pending);
      pendingAt := clock;
      if cooling {
        return None, pendingAt;
      }
      var idx := Oom.FindContainer(containers.value, statuses);
      var newLimit := Oom.NewLimit(containers.value[idx].limit);
      if newLimit > Oom.GI1 {
        var _ := NotifyUser(Guardrail, guardLength);
        return Some(Oom.Blocked), pendingAt;
      }
      StoreTime(pending);
      pendingAt := clock;
      if !bots {
        var _ := NotifyUser(VerticalScaling, manualLength);
      }
      return Some(Oom.Propose(containers.value[idx].name, newLimit)), pendingAt;
    }

    /** What that comes to: nothing without a deployment or while a proposal for it is pending; else
        a guardrail notice, or a proposal made pending, shown as a notice if there are no buttons. */
    static ghost function Handled(
      before: seq<Op>, pod: PodView, containers: Option<seq<Oom.Container>>, statuses: seq<Oom.Status>, bots: bool,
      guardLength: nat, manualLength: nat, pendingAt: int, now: int) : (Option<Oom.Decision>, seq<Op>)
      requires containers.Some? ==> containers.value != []
    {
      if pod.deployment.None? || containers.None? then (None, before)
      else
        var pending := OomPending(pod.namespace, pod.deployment.value);
        if !Open(pending, Last(before, pending), pendingAt) then (None, before)
        else
          var decision := Oom.Decide(containers.value, statuses);
          var stored := before + [Passed(pending, pendingAt)];
          (Some(decision),
           if decision.Blocked? then Attempted(before, Notice(TitleText(Guardrail), guardLength), now)
           else if bots then stored
           else Attempted(stored, Notice(TitleText(VerticalScaling), manualLength), now))
    }

    /** checkPrometheusMetrics: both thresholds behind one five-minute gate. */
    method CheckPrometheusMetrics(pod: PodView, cpu: Option<Autoscaler.Cpu>, cpuLength: nat,
                                  mem: Option<Autoscaler.Cpu>, memLength: nat)
      returns (ghost cpuAt: Stamps, ghost memAt: Stamps)
      requires CacheOk() && SlashFree(pod)
      modifies this`alertCache, this`clock, this`ops
      ensures CacheOk() && Ordered([cpuAt, memAt], old(clock), clock)
      ensures var k := Metrics(pod.namespace, pod.name);
              ops == if Open(k, Last(old(ops), k), cpuAt.check) then
                       MetricsTrace(old(ops), k, Over(cpu, 0.90), cpuLength, Over(mem, 800.0), memLength, cpuAt, memAt)
                     else old(ops)
    {
      var k := Metrics(pod.namespace, pod.name);
      var cooling := Cooling(k);
      cpuAt := Stamps(clock, clock, clock);
      memAt := cpuAt;
      if cooling {
        return;
      }
      if Over(cpu, 0.90) {
        cpuAt := AlertCpu(k, cpuLength);
      }
      memAt := Stamps(clock, clock, clock);
      if Over(mem, 800.0) {
        memAt := AlertMemory(k, Over(cpu, 0.90), memLength);
      }
    }

    method AlertCpu(k: Key, length: nat) returns (ghost at: Stamps)
      requires CacheOk() && Clean(k) && k.Metrics? && Open(k, Last(ops, k), clock)
      modifies this`alertCache, this`clock, this`ops
      ensures CacheOk() && old(clock) == at.check <= at.store <= at.notice == clock
      ensures ops == Attempted(old(ops) + [Passed(k, at.store)], Notice(TitleText(HighCpu), length), at.notice)
      ensures Last(ops, k) == Some(at.store)
    {
      StoreTime(k);
      ghost var stored := clock;
      LastAppend(old(ops), Passed(k, stored), k);
      NotifyBeside(k, HighCpu, length);
      at := Stamps(old(clock), stored, clock);
    }

    /** The memory alert stores the time again when the CPU alert already has. */
    method AlertMemory(k: Key, again: bool, length: nat) returns (ghost at: Stamps)
      requires CacheOk() && Clean(k) && k.Metrics?
      requires if again then Last(ops, k).Some? && Last(ops, k).value <= clock else Open(k, Last(ops, k), clock)
      modifies this`alertCache, this`clock, this`ops
      ensures CacheOk() && old(clock) == at.check <= at.store <= at.notice == clock
      ensures ops == Attempted(old(ops) + [if again then Refreshed(k, at.store) else Passed(k, at.store)],
                               Notice(TitleText(HighMemory), length), at.notice)
    {
      if again {
        StoreAgain(k);
      } else {
        StoreTime(k);
      }
      ghost var stored := clock;
      var _ := NotifyUser(HighMemory, length);
      at := Stamps(old(clock), stored, clock);
    }

    /** A notice leaves the time stored under another family's key as it was. */
    method NotifyBeside(k: Key, title: Title, length: nat)
      requires CacheOk() && Used(title) && !k.Notice?
      modifies this`alertCache, this`clock, this`ops
      ensures CacheOk() && clock >= old(clock)
      ensures ops == Attempted(old(ops), Notice(TitleText(title), length), clock)
      ensures Last(ops, k) == Last(old(ops), k)
    {
      var _ := NotifyUser(title, length);
      AttemptExact(old(ops), Notice(TitleText(title), length), clock, k);
    }

    method StoreAgain(k: Key)
      requires CacheOk() && Clean(k) && k.Metrics? && Last(ops, k).Some? && Last(ops, k).value <= clock
      modifies this`alertCache, this`clock, this`ops
      ensures CacheOk() && clock >= old(clock) && ops == old(ops) + [Refreshed(k, clock)]
    {
      var now := Now();
      StoreAgrees(alertCache, ops, Refreshed(k, now));
      LegalAppend(ops, Refreshed(k, now));
      alertCache := alertCache[Render(k) := now];
      ops := ops + [Refreshed(k, now)];
    }

    /** checkCostOptimization, with the deployment's age and replicas and the model's answer. */
    method CheckCost(pod: PodView, metricsRead: bool, deployment: Option<(int, int32)>,
                     answer: Option<(bool, int32)>)
      returns (offer: Option<Actions.Action>)
      requires CacheOk() && SlashFree(pod)
      modifies this`alertCache, this`clock, this`ops
      ensures CacheOk() && clock >= old(clock)
      ensures offer ==
              if pod.deployment.None? || !metricsRead || deployment.None? || answer.None? then None
              else
                var k := Key.Cost(pod.namespace, pod.deployment.value);
                if Open(k, Last(old(ops), k), clock) && deployment.value.0 >= 2 * MINUTE then
                  Cost.Propose(pod.namespace, pod.deployment.value, deployment.value.1, answer.value.0, answer.value.1)
                else None
      ensures ops == if offer.None? then old(ops)
                     else old(ops) + [Passed(Key.Cost(pod.namespace, pod.deployment.value), clock)]
    {
      if pod.deployment.None? {
        return None;
      }
      var k := Key.Cost(pod.namespace, pod.deployment.value);
      var cooling := Cooling(k);
      if cooling || !metricsRead || deployment.None? {
        return None;
      }
      if deployment.value.0 < 2 * MINUTE { // too young
        return None;
      }
      if answer.None? {
        return None;
      }
      offer := Cost.Propose(pod.namespace, pod.deployment.value, deployment.value.1,
                            answer.value.0, answer.value.1);
      if offer.Some? {
        StoreTime(k);
      }
    }

    /** One request: nothing in the ignored namespaces or without the pod; else its lifecycle is
        tracked, its containers analysed, its namespace checked, and, if it is running, its activity,
        metrics and cost. It comes round again exactly if it is running. */
    method Reconcile(namespace: string, pod: Option<PodView>, given: Inputs) returns (again: bool)
      requires Valid()
      requires pod.Some? ==> SlashFree(pod.value)
      requires given.containers.Some? ==> given.containers.value != []
      modifies this, Listing(given.revisions)
      ensures Valid() && clock >= old(clock)
      ensures if namespace in IGNORED || pod.None? then !again && ops == old(ops) && seen == old(seen)
              else
                && again == (pod.value.phase == "Running")
                && Touches(old(ops), ops, KeysOf(pod.value)) && Inspected(old(ops), ops, pod.value, given, old(clock))
                && seen == old(seen) + [Observation(Pod(pod.value.namespace, pod.value.name),
                                                    StatusOf(pod.value.phase, pod.value.states))]
    {
      if namespace in IGNORED || pod.None? {
        return false;
      }
      TrackPod(pod.value, given);
      ghost var (tracked, since) := (ops, clock);
      Examine(pod.value, given);
      TouchesBoth(old(ops), tracked, ops, {}, KeysOf(pod.value));
      assert {} + KeysOf(pod.value) == KeysOf(pod.value);
      InspectedLater(old(ops), tracked, ops, pod.value, given, old(clock), since);
      return pod.value.phase == "Running";
    }

    method TrackPod(pod: PodView, given: Inputs)
      requires Valid() && SlashFree(pod)
      modifies this
      ensures Valid() && clock >= old(clock) && Touches(old(ops), ops, {})
      ensures seen == old(seen) + [Observation(Pod(pod.namespace, pod.name), StatusOf(pod.phase, pod.states))]
    {
      TrackLifecycle(pod, given.newLength, given.recoveryLength);
    }

    /** What follows the tracking. */
    method Examine(pod: PodView, given: Inputs)
      requires CacheOk() && SlashFree(pod)
      requires given.containers.Some? ==> given.containers.value != []
      modifies this`alertCache, this`clock, this`ops, Listing(given.revisions)
      ensures CacheOk() && clock >= old(clock) && Touches(old(ops), ops, KeysOf(pod))
      ensures Inspected(old(ops), ops, pod, given, old(clock))
    {
      Analysis(pod, given);
      ghost var (analysed, t1) := (ops, clock);
      Security(pod, given);
      ghost var (checked, t2) := (ops, clock);
      if pod.phase == "Running" {
        WhileRunning(pod, given);
      }
      Assemble(old(ops), analysed, checked, ops, pod, given, old(clock), t1, t2);
    }

    method WhileRunning(pod: PodView, given: Inputs)
      requires CacheOk() && SlashFree(pod)
      modifies this`alertCache, this`clock, this`ops
      ensures CacheOk() && clock >= old(clock) && RunningPart(old(ops), ops, pod, given, old(clock))
    {
      Activity(pod, given);
      ghost var (scaled, t1) := (ops, clock);
      if given.prometheus {
        Usage(pod, given);
      }
      AssembleRunning(old(ops), scaled, ops, pod, given, old(clock), t1);
    }

    /** analyzePod with the handler it may end in. */
    method Analysis(pod: PodView, given: Inputs)
      requires CacheOk() && SlashFree(pod)
      requires given.containers.Some? ==> given.containers.value != []
      modifies this`alertCache, this`clock, this`ops, Listing(given.revisions)
      ensures CacheOk() && clock >= old(clock) && AnalysisPart(old(ops), ops, pod, given, old(clock))
    {
      var outcome, _, at := AnalyzePod(pod, given.reports, given.asked, given.revisions);
      ghost var (analysed, t1) := (ops, clock);
      AnalysisServes(Subject(pod.namespace, pod.name, pod.deployment), given.asked, old(ops), given.reports, at, ops,
                     outcome, old(clock), clock);
      if outcome.ToOom? {
        Kill(pod, given);
      }
      AssembleAnalysis(old(ops), analysed, ops, pod, given, outcome, old(clock), t1);
    }

    method Kill(pod: PodView, given: Inputs)
      requires CacheOk() && SlashFree(pod)
      requires given.containers.Some? ==> given.containers.value != []
      modifies this`alertCache, this`clock, this`ops
      ensures CacheOk() && clock >= old(clock) && KillPart(old(ops), ops, pod, old(clock))
    {
      var k := Key.Oom(pod.namespace, pod.name);
      var _, t, pendingAt :=
        HandleOOM(pod, given.containers, given.kills, given.bots, given.guardLength, given.manualLength);
      ghost var passed := old(ops) + [Passed(k, t)];
      HandledTouches(passed, pod, given, pendingAt, clock);
      if ops != old(ops) {
        GateTouches(old(ops), passed, Passed(k, t), Notice("", 0), clock);
        TouchesBoth(old(ops), passed, ops, {k}, PendingKey(pod));
        PassesGrow(passed, ops, k);
      }
    }

    method Security(pod: PodView, given: Inputs)
      requires CacheOk() && SlashFree(pod)
      modifies this`alertCache, this`clock, this`ops
      ensures CacheOk() && clock >= old(clock) && Touches(old(ops), ops, {Sec(pod.namespace)})
      ensures Served(old(ops), ops, Sec(pod.namespace), given.policies == Some(0), old(clock))
    {
      var _, t := CheckSecurity(pod, given.policies, given.created, given.healLength);
      GateTouches(old(ops), ops, Passed(Sec(pod.namespace), t), Notice(TitleText(SecurityHeal), given.healLength),
                  clock);
    }

    method Activity(pod: PodView, given: Inputs)
      requires CacheOk() && SlashFree(pod)
      modifies this`alertCache, this`clock, this`ops
      ensures CacheOk() && clock >= old(clock) && Touches(old(ops), ops, {Scale(pod.namespace, pod.name)})
      ensures Served(old(ops), ops, Scale(pod.namespace, pod.name), true, old(clock))
    {
      var _, t := CheckActivity(pod, given.replicas, given.minAnnotation, given.maxAnnotation, given.usage,
                                given.patched, given.scaleLength);
      GateTouches(old(ops), ops, Passed(Scale(pod.namespace, pod.name), t),
                  Notice(TitleText(SmartScaling), given.scaleLength), clock);
    }

    /** The two checks that need Prometheus. */
    method Usage(pod: PodView, given: Inputs)
      requires CacheOk() && SlashFree(pod)
      modifies this`alertCache, this`clock, this`ops
      ensures CacheOk() && clock >= old(clock) && UsagePart(old(ops), ops, pod, given, old(clock))
    {
      Measure(pod, given);
      ghost var (measured, t1) := (ops, clock);
      Economise(pod, given);
      AssembleUsage(old(ops), measured, ops, pod, given, old(clock), t1);
    }

    method Measure(pod: PodView, given: Inputs)
      requires CacheOk() && SlashFree(pod)
      modifies this`alertCache, this`clock, this`ops
      ensures CacheOk() && clock >= old(clock) && Touches(old(ops), ops, {Metrics(pod.namespace, pod.name)})
      ensures Served(old(ops), ops, Metrics(pod.namespace, pod.name), Excessive(given), old(clock))
    {
      var gate := Metrics(pod.namespace, pod.name);
      var cpuAt, memAt := CheckPrometheusMetrics(pod, given.cpu, given.cpuLength, given.mem, given.memLength);
      assert [cpuAt, memAt][0] == cpuAt && [cpuAt, memAt][1] == memAt;
      MetricsTouch(old(ops), gate, Over(given.cpu, 0.90), given.cpuLength, Over(given.mem, 800.0), given.memLength,
                   cpuAt, memAt);
      MetricsExact(old(ops), gate, given.cpu, given.cpuLength, given.mem, given.memLength, cpuAt, memAt);
    }

    method Economise(pod: PodView, given: Inputs)
      requires CacheOk() && SlashFree(pod)
      modifies this`alertCache, this`clock, this`ops
      ensures CacheOk() && clock >= old(clock)
      ensures pod.deployment.None? ==> ops == old(ops)
      ensures pod.deployment.Some? ==>
                var k := Key.Cost(pod.namespace, pod.deployment.value);
                Touches(old(ops), ops, {k}) && Served(old(ops), ops, k, Wasteful(given), old(clock))
    {
      var _ := CheckCost(pod, given.metricsRead, given.deployment, given.answer);
      if pod.deployment.Some? {
        var k := Key.Cost(pod.namespace, pod.deployment.value);
        if given.deployment.Some? && given.answer.Some? {
          var (replicas, answer) := (given.deployment.value.1, given.answer.value);
          Cost.OfferedExactly(k.namespace, k.name, replicas, answer.0, answer.1);
        }
        GateTouches(old(ops), ops, Passed(k, clock), Notice("", 0), clock);
      }
    }
  }

  // ---------- what handling a kill comes to ----------

  /** After the pod's own gate: a decision is taken exactly if the deployment and its containers are
      found and nothing is pending for it; a proposal, and only that, passes the pending gate, at its
      own instant; the guardrail notice goes out exactly for a blocked decision, and the one with the
      new limit exactly for a proposal that no bot can show, as cooldowns allow. */
  lemma HandledExact(before: seq<Op>, pod: PodView, given: Inputs, pendingAt: int, now: int)
    requires given.containers.Some? ==> given.containers.value != []
    ensures var (decision, after) := Outcomes(before, pod, given, pendingAt, now);
            var known := pod.deployment.Some? && given.containers.Some?;
            var proposed := decision.Some? && decision.value.Propose?;
            && (known ==>
                  var pending := OomPending(pod.namespace, pod.deployment.value);
                  && (decision.Some? <==> Open(pending, Last(before, pending), pendingAt))
                  && Passes(after, pending) == Passes(before, pending) + if proposed then [pendingAt] else [])
            && (!known ==> decision.None?)
            && (decision.None? ==> after == before)
            && (decision.Some? ==> decision.value == Oom.Decide(given.containers.value, given.kills))
            && Sent(before, after, Notice(TitleText(Guardrail), given.guardLength),
                    decision.Some? && decision.value.Blocked?, now)
            && Sent(before, after, Notice(TitleText(VerticalScaling), given.manualLength), proposed && !given.bots, now)
  {
    if pod.deployment.Some? && given.containers.Some? {
      var pending := OomPending(pod.namespace, pod.deployment.value);
      var pass := Passed(pending, pendingAt);
      var k1 := Notice(TitleText(Guardrail), given.guardLength);
      var k2 := Notice(TitleText(VerticalScaling), given.manualLength);
      assert k1 != k2 by { assert TitleText(Guardrail)[0] != TitleText(VerticalScaling)[0]; }
      AlertsUntouched(before, pass, k1);
      AlertsUntouched(before, pass, k2);
      TriedExact(before, k1, now, pending, k2);
      TriedExact(before + [pass], k2, now, pending, k1);
    }
  }

  lemma TriedExact(ops: seq<Op>, notice: Key, now: int, gate: Key, other: Key)
    requires notice.Notice? && !gate.Notice? && other != notice
    ensures Passes(Attempted(ops, notice, now), gate) == Passes(ops, gate)
    ensures Passes(Attempted(ops, notice, now), other) == Passes(ops, other)
    ensures Sent(ops, Attempted(ops, notice, now), notice, true, now)
  {
    AttemptExact(ops, notice, now, gate);
    AttemptExact(ops, notice, now, other);
    AttemptExact(ops, notice, now, notice);
  }

  ghost function Outcomes(before: seq<Op>, pod: PodView, given: Inputs, pendingAt: int, now: int)
    : (Option<Oom.Decision>, seq<Op>)
    requires given.containers.Some? ==> given.containers.value != []
  {
    KubeSolvConfigReconciler.Handled(before, pod, given.containers, given.kills, given.bots, given.guardLength,
                                     given.manualLength, pendingAt, now)
  }

  /** Any two proposals for one deployment, whichever of its pods were killed and whatever else
      happened in between, are at least ten minutes apart. */
  lemma ProposalsApart(ops1: seq<Op>, pod1: PodView, given1: Inputs, at1: int, now1: int,
                       ops2: seq<Op>, pod2: PodView, given2: Inputs, at2: int, now2: int)
    requires given1.containers.Some? ==> given1.containers.value != []
    requires given2.containers.Some? ==> given2.containers.value != []
    requires pod1.namespace == pod2.namespace && pod1.deployment == pod2.deployment
    requires Outcomes(ops1, pod1, given1, at1, now1).1 <= ops2
    requires Legal(Outcomes(ops2, pod2, given2, at2, now2).1)
    requires var d := Outcomes(ops1, pod1, given1, at1, now1).0; d.Some? && d.value.Propose?
    requires var d := Outcomes(ops2, pod2, given2, at2, now2).0; d.Some? && d.value.Propose?
    ensures at2 - at1 >= 10 * MINUTE
  {
    HandledExact(ops1, pod1, given1, at1, now1);
    HandledExact(ops2, pod2, given2, at2, now2);
    var pending := OomPending(pod1.namespace, pod1.deployment.value);
    var after1 := Outcomes(ops1, pod1, given1, at1, now1).1;
    var after2 := Outcomes(ops2, pod2, given2, at2, now2).1;
    PassesGrow(after1, ops2, pending);
    PassesSpaced(after2, pending);
    var (i, j) := (|Passes(ops1, pending)|, |Passes(ops2, pending)|);
    var all := Passes(after2, pending);
    assert all[i] == Passes(after1, pending)[i] == at1 && all[j] == at2;
    SpacedSpan(all, Ttl(pending), i, j - i);
  }

  // ---------- a request put together from its checks ----------

  function PendingKey(pod: PodView): set<Key>
  {
    if pod.deployment.Some? then {OomPending(pod.namespace, pod.deployment.value)} else {}
  }

  ghost predicate KillPart(before: seq<Op>, after: seq<Op>, pod: PodView, now: int)
  {
    var k := Key.Oom(pod.namespace, pod.name);
    && Touches(before, after, {k} + PendingKey(pod))
    && (Open(k, Last(before, k), now) ==> |Passes(after, k)| > |Passes(before, k)|)
  }

  ghost predicate AnalysisPart(before: seq<Op>, after: seq<Op>, pod: PodView, given: Inputs, now: int)
  {
    var (gate, k) := (Analyze(pod.namespace, pod.name), Key.Oom(pod.namespace, pod.name));
    && Touches(before, after, AnalysisKeys(pod))
    && Served(before, after, gate, BrokenFirst(given.reports), now)
    && (KilledFirst(given.reports) && Open(k, Last(before, k), now) ==> |Passes(after, k)| > |Passes(before, k)|)
  }

  lemma HandledTouches(before: seq<Op>, pod: PodView, given: Inputs, pendingAt: int, now: int)
    requires given.containers.Some? ==> given.containers.value != []
    ensures Touches(before, KubeSolvConfigReconciler.Handled(before, pod, given.containers, given.kills, given.bots,
                                                             given.guardLength, given.manualLength, pendingAt, now).1,
                    PendingKey(pod))
  {
  }

  lemma AssembleAnalysis(a: seq<Op>, b: seq<Op>, c: seq<Op>, pod: PodView, given: Inputs, outcome: Outcome,
                         now: int, since: int)
    requires var gate := Analyze(pod.namespace, pod.name);
             Touches(a, b, {gate}) && Served(a, b, gate, BrokenFirst(given.reports), now)
    requires KilledFirst(given.reports) ==> outcome == ToOom
    requires now <= since && if outcome == ToOom then KillPart(b, c, pod, since) else c == b
    ensures AnalysisPart(a, c, pod, given, now)
  {
    var (gate, k) := (Analyze(pod.namespace, pod.name), Key.Oom(pod.namespace, pod.name));
    Untouched(a, b, {gate}, k);
    if outcome == ToOom {
      Untouched(b, c, {k} + PendingKey(pod), gate);
      TouchesBoth(a, b, c, {gate}, {k} + PendingKey(pod));
      assert {gate} + ({k} + PendingKey(pod)) == AnalysisKeys(pod);
    }
  }

  ghost predicate UsagePart(before: seq<Op>, after: seq<Op>, pod: PodView, given: Inputs, now: int)
  {
    && Touches(before, after, UsageKeys(pod))
    && Served(before, after, Metrics(pod.namespace, pod.name), Excessive(given), now)
    && (pod.deployment.Some? ==>
          Served(before, after, Key.Cost(pod.namespace, pod.deployment.value), Wasteful(given), now))
  }

  lemma AssembleUsage(a: seq<Op>, b: seq<Op>, c: seq<Op>, pod: PodView, given: Inputs, now: int, since: int)
    requires var gate := Metrics(pod.namespace, pod.name);
             Touches(a, b, {gate}) && Served(a, b, gate, Excessive(given), now)
    requires now <= since
    requires if pod.deployment.None? then c == b
             else
               var k := Key.Cost(pod.namespace, pod.deployment.value);
               Touches(b, c, {k}) && Served(b, c, k, Wasteful(given), since)
    ensures UsagePart(a, c, pod, given, now)
  {
    var gate := Metrics(pod.namespace, pod.name);
    if pod.deployment.Some? {
      var k := Key.Cost(pod.namespace, pod.deployment.value);
      Untouched(a, b, {gate}, k);
      Untouched(b, c, {k}, gate);
      TouchesBoth(a, b, c, {gate}, {k});
    }
  }

  ghost predicate RunningPart(before: seq<Op>, after: seq<Op>, pod: PodView, given: Inputs, now: int)
  {
    && Touches(before, after, {Scale(pod.namespace, pod.name)} + UsageKeys(pod))
    && Served(before, after, Scale(pod.namespace, pod.name), true, now)
    && (given.prometheus ==>
          && Served(before, after, Metrics(pod.namespace, pod.name), Excessive(given), now)
          && (pod.deployment.Some? ==>
                Served(before, after, Key.Cost(pod.namespace, pod.deployment.value), Wasteful(given), now)))
  }

  lemma AssembleRunning(a: seq<Op>, b: seq<Op>, c: seq<Op>, pod: PodView, given: Inputs, now: int, since: int)
    requires var gate := Scale(pod.namespace, pod.name);
             Touches(a, b, {gate}) && Served(a, b, gate, true, now)
    requires now <= since && if given.prometheus then UsagePart(b, c, pod, given, since) else c == b
    ensures RunningPart(a, c, pod, given, now)
  {
    var gate := Scale(pod.namespace, pod.name);
    if given.prometheus {
      Untouched(b, c, UsageKeys(pod), gate);
      Untouched(a, b, {gate}, Metrics(pod.namespace, pod.name));
      if pod.deployment.Some? {
        Untouched(a, b, {gate}, Key.Cost(pod.namespace, pod.deployment.value));
      }
      TouchesBoth(a, b, c, {gate}, UsageKeys(pod));
    }
  }

  lemma Assemble(a: seq<Op>, b: seq<Op>, c: seq<Op>, d: seq<Op>, pod: PodView, given: Inputs,
                 now: int, t1: int, t2: int)
    requires now <= t1 <= t2
    requires AnalysisPart(a, b, pod, given, now)
    requires Touches(b, c, {Sec(pod.namespace)})
    requires Served(b, c, Sec(pod.namespace), given.policies == Some(0), t1)
    requires if pod.phase == "Running" then RunningPart(c, d, pod, given, t2) else d == c
    ensures Touches(a, d, KeysOf(pod)) && Inspected(a, d, pod, given, now)
  {
    var ns := pod.namespace;
    var late := if pod.phase == "Running" then {Scale(ns, pod.name)} + UsageKeys(pod) else {};
    TouchesBoth(a, b, c, AnalysisKeys(pod), {Sec(ns)});
    TouchesBoth(a, c, d, AnalysisKeys(pod) + {Sec(ns)}, late);
    TouchesBoth(b, c, d, {Sec(ns)}, late);
    Untouched(b, d, {Sec(ns)} + late, Analyze(ns, pod.name));
    Untouched(b, d, {Sec(ns)} + late, Key.Oom(ns, pod.name));
    ServedWithin(a, b, c, d, AnalysisKeys(pod), late, Sec(ns), given.policies == Some(0), now, t1);
    if pod.phase == "Running" {
      var early := AnalysisKeys(pod) + {Sec(ns)};
      Untouched(a, c, early, Scale(ns, pod.name));
      Untouched(a, c, early, Metrics(ns, pod.name));
      if pod.deployment.Some? {
        Untouched(a, c, early, Key.Cost(ns, pod.deployment.value));
      }
    }
  }

  /** Nothing but notices came before. */
  lemma InspectedLater(a: seq<Op>, b: seq<Op>, c: seq<Op>, pod: PodView, given: Inputs, now: int, since: int)
    requires Touches(a, b, {}) && Inspected(b, c, pod, given, since) && now <= since
    ensures Inspected(a, c, pod, given, now)
  {
    var ns := pod.namespace;
    Untouched(a, b, {}, Analyze(ns, pod.name));
    Untouched(a, b, {}, Key.Oom(ns, pod.name));
    Untouched(a, b, {}, Sec(ns));
    Untouched(a, b, {}, Scale(ns, pod.name));
    Untouched(a, b, {}, Metrics(ns, pod.name));
    if pod.deployment.Some? {
      Untouched(a, b, {}, Key.Cost(ns, pod.deployment.value));
    }
  }

  lemma BadStatusClean(status: string, length: nat)
    requires IsBad(status)
    ensures Clean(Notice(ISSUE + status, length))
  {
    BadLetters(status);
    assert forall c <- ISSUE :: c != '/';
    assert forall c <- Decimal(length) :: IsDigit(c);
  }

  lemma BadLetters(status: string)
    requires IsBad(status)
    ensures forall c <- status :: c != '/'
  {
    assert status == "CrashLoopBackOff" || status == "ImagePullBackOff" || status == "ErrImagePull"
        || status == "Error" || status == "OOMKilled" || status == "CreateContainerConfigError";
  }
}
