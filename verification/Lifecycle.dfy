/** Pod lifecycle tracking: the cached status of each pod, and the new-pod and recovery notices
    drawn from it, against each pod's own sequence of observed statuses. */
module Lifecycle {
  import opened Wrappers
  import opened Text

  /** What a container's state contributes. */
  datatype ContainerState = Quiet | Waiting(reason: string) | Terminated(exitCode: int)

  function Signal(c: ContainerState): Option<string>
  {
    match c
    case Quiet => None
    case Waiting(reason) => Some(reason)
    case Terminated(exitCode) => if exitCode != 0 then Some("Error") else None
  }

  /** The pod's status: its phase unless a container waits or failed; the last such one decides. */
  function StatusOf(phase: string, containers: seq<ContainerState>): string
  {
    if containers == [] then phase
    else
      var signal := Signal(containers[|containers| - 1]);
      if signal.Some? then signal.value else StatusOf(phase, containers[..|containers| - 1])
  }

  method CurrentStatus(phase: string, containers: seq<ContainerState>) returns (status: string)
    ensures status == StatusOf(phase, containers)
  {
    status := phase;
    for k := 0 to |containers|
      invariant status == StatusOf(phase, containers[..k])
    {
      assert containers[..k + 1][..k] == containers[..k];
      match containers[k] {
        case Waiting(reason) => status := reason;
        case Terminated(exitCode) => if exitCode != 0 { status := "Error"; }
        case Quiet =>
      }
    }
    assert containers[..|containers|] == containers;
  }

  /** A container that waits, or has failed. */
  predicate Speaks(c: ContainerState)
  {
    c.Waiting? || (c.Terminated? && c.exitCode != 0)
  }

  /** Whatever comes before it, the last container that waits or has failed gives the status, its
      reason or "Error"; if there is none the status is the phase. */
  lemma {:induction false} LastSignalDecides(phase: string, containers: seq<ContainerState>, n: nat)
    requires n <= |containers| && (n > 0 ==> Speaks(containers[n - 1]))
    requires forall j :: n <= j < |containers| ==> !Speaks(containers[j])
    ensures StatusOf(phase, containers)
            == if n == 0 then phase
               else if containers[n - 1].Waiting? then containers[n - 1].reason else "Error"
  {
    if n < |containers| {
      LastSignalDecides(phase, containers[..|containers| - 1], n);
    }
  }

  predicate IsBad(s: string)
  {
    s in ["CrashLoopBackOff", "ImagePullBackOff", "ErrImagePull", "Error", "OOMKilled", "CreateContainerConfigError"]
  }

  predicate Heals(before: string, after: string)
  {
    IsBad(before) && after == "Running"
  }

  /** A recovery is one of six statuses followed by Running. */
  lemma HealsExact(before: string, after: string)
    ensures Heals(before, after)
            <==> && after == "Running"
                 && (|| before == "CrashLoopBackOff" || before == "ImagePullBackOff" || before == "ErrImagePull"
                     || before == "Error" || before == "OOMKilled" || before == "CreateContainerConfigError")
  {
  }

  // ---------- tracking ----------

  datatype Pod = Pod(namespace: string, name: string)

  function PodKey(p: Pod): string
  {
    p.namespace + "/" + p.name
  }

  datatype Observation = Observation(pod: Pod, status: string)

  /** A notice handed to notifyUser, which may still ration it. */
  datatype Attempt = NewPod(pod: Pod) | Recovery(pod: Pod)

  /** trackLifecycle on one observation: the new cache and the notices attempted. */
  function Track(cache: map<string, string>, o: Observation): (map<string, string>, seq<Attempt>)
  {
    var key := PodKey(o.pod);
    if key !in cache then (cache[key := o.status], [NewPod(o.pod)])
    else
      (if cache[key] != o.status then cache[key := o.status] else cache,
       if Heals(cache[key], o.status) then [Recovery(o.pod)] else [])
  }

  function CacheAfter(seen: seq<Observation>): map<string, string>
  {
    if seen == [] then map[] else Track(CacheAfter(seen[..|seen| - 1]), seen[|seen| - 1]).0
  }

  function AttemptsAfter(seen: seq<Observation>): seq<Attempt>
  {
    if seen == [] then []
    else AttemptsAfter(seen[..|seen| - 1]) + Track(CacheAfter(seen[..|seen| - 1]), seen[|seen| - 1]).1
  }

  // ---------- the per-pod reference ----------

  /** The statuses observed of one pod, in order. */
  ghost function Project(seen: seq<Observation>, pod: Pod): seq<string>
  {
    if seen == [] then []
    else
      var last := seen[|seen| - 1];
      Project(seen[..|seen| - 1], pod) + if last.pod == pod then [last.status] else []
  }

  /** How often a bad status is directly followed by Running. */
  ghost function Recoveries(statuses: seq<string>): nat
  {
    if |statuses| < 2 then 0
    else
      Recoveries(statuses[..|statuses| - 1])
      + if Heals(statuses[|statuses| - 2], statuses[|statuses| - 1]) then 1 else 0
  }

  ghost function Occurrences(attempts: seq<Attempt>, a: Attempt): nat
  {
    if attempts == [] then 0
    else Occurrences(attempts[..|attempts| - 1], a) + if attempts[|attempts| - 1] == a then 1 else 0
  }

  lemma OccurrencesAppend(attempts: seq<Attempt>, more: seq<Attempt>, a: Attempt)
    requires |more| <= 1
    ensures Occurrences(attempts + more, a) == Occurrences(attempts, a) + if more == [a] then 1 else 0
  {
    if more == [] {
      assert attempts + more == attempts;
    } else {
      assert (attempts + more)[..|attempts|] == attempts;
    }
  }

  /** Namespaces hold no slash. */
  ghost predicate Named(seen: seq<Observation>)
  {
    forall o <- seen :: '/' !in o.pod.namespace
  }

  lemma PodKeyInjective(p: Pod, q: Pod)
    requires '/' !in p.namespace && '/' !in q.namespace && PodKey(p) == PodKey(q)
    ensures p == q
  {
    SplitN2First(p.namespace, p.name, '/');
    SplitN2First(q.namespace, q.name, '/');
  }

  lemma {:induction false} CacheIsLatest(seen: seq<Observation>, pod: Pod)
    requires Named(seen) && '/' !in pod.namespace
    ensures var own := Project(seen, pod);
            && (PodKey(pod) in CacheAfter(seen) <==> own != [])
            && (own != [] ==> CacheAfter(seen)[PodKey(pod)] == own[|own| - 1])
  {
    if seen != [] {
      var (rest, last) := (seen[..|seen| - 1], seen[|seen| - 1]);
      CacheIsLatest(rest, pod);
      if last.pod != pod && PodKey(last.pod) == PodKey(pod) {
        PodKeyInjective(last.pod, pod);
      }
    }
  }

  lemma RecoveriesAppend(own: seq<string>, status: string)
    ensures Recoveries(own + [status])
            == Recoveries(own) + if own != [] && Heals(own[|own| - 1], status) then 1 else 0
  {
    assert (own + [status])[..|own|] == own;
  }

  lemma TrackAttempts(cache: map<string, string>, o: Observation, pod: Pod)
    ensures var attempts := Track(cache, o).1;
            && |attempts| <= 1
            && (attempts == [NewPod(pod)] <==> o.pod == pod && PodKey(pod) !in cache)
            && (attempts == [Recovery(pod)] <==>
                  o.pod == pod && PodKey(pod) in cache && Heals(cache[PodKey(pod)], o.status))
  {
  }

  lemma {:induction false} NoticesMatch(seen: seq<Observation>, pod: Pod)
    requires Named(seen) && '/' !in pod.namespace
    ensures var own := Project(seen, pod);
            && Occurrences(AttemptsAfter(seen), NewPod(pod)) == (if own == [] then 0 else 1)
            && Occurrences(AttemptsAfter(seen), Recovery(pod)) == Recoveries(own)
  {
    if seen != [] {
      var (rest, last) := (seen[..|seen| - 1], seen[|seen| - 1]);
      NoticesMatch(rest, pod);
      CacheIsLatest(rest, pod);
      TrackAttempts(CacheAfter(rest), last, pod);
      var attempts := Track(CacheAfter(rest), last).1;
      OccurrencesAppend(AttemptsAfter(rest), attempts, NewPod(pod));
      OccurrencesAppend(AttemptsAfter(rest), attempts, Recovery(pod));
      if last.pod == pod {
        RecoveriesAppend(Project(rest, pod), last.status);
      } else {
        assert Project(seen, pod) == Project(rest, pod);
      }
    }
  }

  /** Tracking equals its per-pod projection: for every interleaving of observations, a pod's
      cached status is its latest observed one, its new-pod notice is attempted exactly once, and
      its recovery notice exactly as often as a bad status was directly followed by Running in
      that pod's own sequence. */
  lemma {:induction false} TrackingIsProjection(seen: seq<Observation>, pod: Pod)
    requires Named(seen) && '/' !in pod.namespace
    ensures var own := Project(seen, pod);
            && (PodKey(pod) in CacheAfter(seen) <==> own != [])
            && (own != [] ==> CacheAfter(seen)[PodKey(pod)] == own[|own| - 1])
            && Occurrences(AttemptsAfter(seen), NewPod(pod)) == (if own == [] then 0 else 1)
            && Occurrences(AttemptsAfter(seen), Recovery(pod)) == Recoveries(own)
  {
    CacheIsLatest(seen, pod);
    NoticesMatch(seen, pod);
  }
}
