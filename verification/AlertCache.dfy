/** The cooldown cache the reconcilers share among many purposes through string keys, and what
    separates those keys; then the trace of cache operations and the rate bounds it obeys. */
module AlertCache {
  import opened Wrappers
  import opened Text
  import opened Rates

  // ---------- keys ----------

  /** What a cache key stands for. */
  datatype Key =
    | Sec(namespace: string)
    | Scale(namespace: string, name: string)
    | Analyze(namespace: string, name: string)
    | Oom(namespace: string, name: string)
    | OomPending(namespace: string, name: string)
    | Metrics(namespace: string, name: string)
    | Cost(namespace: string, name: string)
    | Node(name: string, issue: string)
    | Notice(title: string, length: nat)

  /** The string under which the source files it. */
  function Render(k: Key): string
  {
    match k
    case Sec(ns) => "sec/" + ns
    case Scale(ns, name) => "scale/" + ns + "/" + name
    case Analyze(ns, name) => "analyze/" + ns + "/" + name
    case Oom(ns, name) => "oom/" + ns + "/" + name
    case OomPending(ns, name) => "oom_pending/" + ns + "/" + name
    case Metrics(ns, name) => "metrics/" + ns + "/" + name
    case Cost(ns, name) => "cost/" + ns + "/" + name
    case Node(name, issue) => "node/" + name + "/" + issue
    case Notice(title, length) => title + "-" + Decimal(length)
  }

  function Parts(k: Key): (parts: seq<string>)
    ensures 1 <= |parts| <= 3
  {
    match k
    case Sec(ns) => ["sec", ns]
    case Scale(ns, name) => ["scale", ns, name]
    case Analyze(ns, name) => ["analyze", ns, name]
    case Oom(ns, name) => ["oom", ns, name]
    case OomPending(ns, name) => ["oom_pending", ns, name]
    case Metrics(ns, name) => ["metrics", ns, name]
    case Cost(ns, name) => ["cost", ns, name]
    case Node(name, issue) => ["node", name, issue]
    case Notice(title, length) => [title + "-" + Decimal(length)]
  }

  /** Kubernetes names hold no slash, and neither does any title the reconcilers use. */
  predicate Clean(k: Key)
  {
    forall p <- Parts(k) :: '/' !in p
  }

  lemma RenderTwo(prefix: string, a: string)
    requires '/' !in prefix && '/' !in a
    ensures Split(prefix + "/" + a, '/') == [prefix, a]
  {
    SplitFree(prefix, '/');
    SplitFree(a, '/');
    SplitConcat(prefix, a, '/');
  }

  lemma RenderThree(prefix: string, a: string, b: string)
    requires '/' !in prefix && '/' !in a && '/' !in b
    ensures Split(prefix + "/" + a + "/" + b, '/') == [prefix, a, b]
  {
    RenderTwo(prefix, a);
    SplitFree(b, '/');
    SplitConcat(prefix + "/" + a, b, '/');
  }

  lemma CleanParts(k: Key)
    requires Clean(k)
    ensures '/' !in Parts(k)[|Parts(k)| - 1]
    ensures |Parts(k)| > 1 ==> '/' !in Parts(k)[1]
  {
  }

  lemma SplitRender(k: Key)
    requires Clean(k)
    ensures Split(Render(k), '/') == Parts(k)
  {
    CleanParts(k);
    match k
    case Sec(ns) =>
      assert "sec" + "/" == "sec/";
      RenderTwo("sec", ns);
    case Scale(ns, name) =>
      assert "scale" + "/" == "scale/";
      RenderThree("scale", ns, name);
    case Analyze(ns, name) =>
      assert "analyze" + "/" == "analyze/";
      RenderThree("analyze", ns, name);
    case Oom(ns, name) =>
      assert "oom" + "/" == "oom/";
      RenderThree("oom", ns, name);
    case OomPending(ns, name) =>
      assert "oom_pending" + "/" == "oom_pending/";
      RenderThree("oom_pending", ns, name);
    case Metrics(ns, name) =>
      assert "metrics" + "/" == "metrics/";
      RenderThree("metrics", ns, name);
    case Cost(ns, name) =>
      assert "cost" + "/" == "cost/";
      RenderThree("cost", ns, name);
    case Node(name, issue) =>
      assert "node" + "/" == "node/";
      RenderThree("node", name, issue);
    case Notice(title, length) => SplitFree(Parts(k)[0], '/');
  }

  /** A title and a message length can be read back from "title-length": the last '-' separates them. */
  lemma TitleLengthInjective(t: string, m: nat, u: string, n: nat)
    requires t + "-" + Decimal(m) == u + "-" + Decimal(n)
    ensures t == u && m == n
  {
    var s := t + "-" + Decimal(m);
    LastDash(t, m);
    LastDash(u, n);
    assert |t| == |u|;
    assert t == s[..|t|] == u;
    assert Decimal(m) == s[|t| + 1..] == Decimal(n);
    DecimalInjective(m, n);
  }

  lemma LastDash(t: string, m: nat)
    ensures var s := t + "-" + Decimal(m);
            s[|t|] == '-' && forall i :: |t| < i < |s| ==> s[i] != '-'
  {
    var s := t + "-" + Decimal(m);
    forall i | |t| < i < |s| ensures s[i] != '-' {
      assert s[i] == Decimal(m)[i - |t| - 1];
      assert IsDigit(Decimal(m)[i - |t| - 1]);
    }
  }

  /** Key separation: the prefixed families and the title-length hashes are injective and
      pairwise disjoint, so one cache serves them all without interference. */
  lemma KeysSeparate(a: Key, b: Key)
    requires Clean(a) && Clean(b)
    ensures Render(a) == Render(b) <==> a == b
  {
    if Render(a) == Render(b) {
      SplitRender(a);
      SplitRender(b);
      if a.Notice? {
        TitleLengthInjective(a.title, a.length, b.title, b.length);
      }
    }
  }

  /** Slashes in names would break it. */
  lemma SlashesCollide()
    ensures Render(Oom("a/b", "c")) == Render(Oom("a", "b/c"))
  {
    assert Render(Oom("a/b", "c")) == "oom/a/b/c";
  }

  // ---------- the trace of cache operations ----------

  /** Passing a gate and storing the time; storing again in the same pass (only the metrics check
      does); deleting a notice's hash on recovery. */
  datatype Op = Passed(key: Key, at: int) | Refreshed(key: Key, at: int) | Deleted(key: Key)

  /** The cooldown of a key's gate. An Oom key has none: once stored it never passes again. */
  function Ttl(k: Key): nat
  {
    match k
    case Sec(_) => HOUR
    case Scale(_, _) => 15_000_000_000 // 15 seconds
    case Analyze(_, _) => 120_000_000_000 // 2 minutes
    case Oom(_, _) => 0
    case OomPending(_, _) => 600_000_000_000 // 10 minutes
    case Metrics(_, _) => 300_000_000_000 // 5 minutes
    case Cost(_, _) => 86_400_000_000_000 // 24 hours
    case Node(_, _) => 1_800_000_000_000 // 30 minutes
    case Notice(_, _) => 300_000_000_000 // 5 minutes
  }

  /** Titles that notifyUser lets through regardless of the cooldown. */
  predicate Bypasses(title: string)
  {
    Contains(title, "Recovered") || Contains(title, "New Pod")
  }

  /** The time stored under a key, according to the trace. */
  ghost function Last(ops: seq<Op>, k: Key): Option<int>
  {
    if ops == [] then None
    else
      var op := ops[|ops| - 1];
      if op.key != k then Last(ops[..|ops| - 1], k)
      else if op.Deleted? then None else Some(op.at)
  }

  /** The gate of a key against its stored time. */
  predicate Open(k: Key, last: Option<int>, now: int)
  {
    last.None? || (!k.Oom? && now - last.value >= Ttl(k)) || (k.Notice? && Bypasses(k.title))
  }

  /** The only hashes ever deleted are those of issue notices. */
  const ISSUE := "Issue Detected: "

  ghost predicate Fits(ops: seq<Op>, op: Op)
  {
    match op
    case Passed(k, at) => Open(k, Last(ops, k), at)
    case Refreshed(k, at) =>
      k.Metrics? && Last(ops, k).Some? && Last(ops, k).value <= at
    case Deleted(k) => k.Notice? && ISSUE <= k.title
  }

  /** The trace after an attempt to pass a key's gate. */
  ghost function Attempted(ops: seq<Op>, k: Key, now: int): seq<Op>
  {
    if Open(k, Last(ops, k), now) then ops + [Passed(k, now)] else ops
  }

  ghost predicate Legal(ops: seq<Op>)
  {
    ops != [] ==> Legal(ops[..|ops| - 1]) && Fits(ops[..|ops| - 1], ops[|ops| - 1])
  }

  lemma LegalAppend(ops: seq<Op>, op: Op)
    requires Legal(ops) && Fits(ops, op)
    ensures Legal(ops + [op])
  {
    assert (ops + [op])[..|ops|] == ops;
  }

  lemma LastAppend(ops: seq<Op>, op: Op, k: Key)
    ensures Last(ops + [op], k)
            == if op.key != k then Last(ops, k) else if op.Deleted? then None else Some(op.at)
  {
    assert (ops + [op])[..|ops|] == ops;
  }

  /** The cache holds, under every key the code can form, what the trace says. */
  ghost predicate Agrees(cache: map<string, int>, ops: seq<Op>)
  {
    forall k: Key :: Clean(k) ==>
      Last(ops, k) == if Render(k) in cache then Some(cache[Render(k)]) else None
  }

  lemma StoreAgrees(cache: map<string, int>, ops: seq<Op>, op: Op)
    requires Agrees(cache, ops) && Clean(op.key) && !op.Deleted?
    ensures Agrees(cache[Render(op.key) := op.at], ops + [op])
  {
    forall k: Key | Clean(k)
      ensures Last(ops + [op], k) == var c := cache[Render(op.key) := op.at];
                                     if Render(k) in c then Some(c[Render(k)]) else None
    {
      LastAppend(ops, op, k);
      KeysSeparate(k, op.key);
    }
  }

  lemma DeleteAgrees(cache: map<string, int>, ops: seq<Op>, op: Op)
    requires Agrees(cache, ops) && Clean(op.key) && op.Deleted?
    ensures Agrees(cache - {Render(op.key)}, ops + [op])
  {
    forall k: Key | Clean(k)
      ensures Last(ops + [op], k) == var c := cache - {Render(op.key)};
                                     if Render(k) in c then Some(c[Render(k)]) else None
    {
      LastAppend(ops, op, k);
      KeysSeparate(k, op.key);
    }
  }

  // ---------- when a gate is open ----------

  /** The times stored under a key since it was last deleted, oldest first. */
  ghost function Stores(ops: seq<Op>, k: Key): seq<int>
  {
    if ops == [] then []
    else
      var (before, op) := (ops[..|ops| - 1], ops[|ops| - 1]);
      if op.key != k then Stores(before, k)
      else if op.Deleted? then [] else Stores(before, k) + [op.at]
  }

  /** How long each family of keys keeps its gate shut; a handled kill keeps it shut for good. */
  predicate CooledDown(k: Key, elapsed: int)
  {
    match k
    case Sec(_) => elapsed >= HOUR
    case Scale(_, _) => elapsed >= 15 * SECOND
    case Analyze(_, _) => elapsed >= 2 * MINUTE
    case Oom(_, _) => false
    case OomPending(_, _) => elapsed >= 10 * MINUTE
    case Metrics(_, _) => elapsed >= 5 * MINUTE
    case Cost(_, _) => elapsed >= 24 * HOUR
    case Node(_, _) => elapsed >= 30 * MINUTE
    case Notice(_, _) => elapsed >= 5 * MINUTE
  }

  /** The gate of a key is open exactly if nothing has been stored under the key since it was last
      deleted, or its family's cooldown has gone by since the latest store, or it is a notice whose
      title speaks of "Recovered" or of a "New Pod". */
  lemma {:induction false} GateExact(ops: seq<Op>, k: Key, now: int)
    ensures Open(k, Last(ops, k), now)
            <==> || Stores(ops, k) == []
                 || CooledDown(k, now - Stores(ops, k)[|Stores(ops, k)| - 1])
                 || (k.Notice? && (Contains(k.title, "Recovered") || Contains(k.title, "New Pod")))
  {
    LastIsStored(ops, k);
  }

  lemma {:induction false} LastIsStored(ops: seq<Op>, k: Key)
    ensures Last(ops, k) == if Stores(ops, k) == [] then None else Some(Stores(ops, k)[|Stores(ops, k)| - 1])
  {
    if ops != [] {
      LastIsStored(ops[..|ops| - 1], k);
    }
  }

  // ---------- rate bounds over every legal trace ----------

  /** The times at which a key's gate was passed. */
  ghost function Passes(ops: seq<Op>, k: Key): seq<int>
  {
    if ops == [] then []
    else
      var op := ops[|ops| - 1];
      Passes(ops[..|ops| - 1], k) + if op.Passed? && op.key == k then [op.at] else []
  }

  /** Keys whose gate cannot be got round: everything but notices that bypass, and issue notices,
      whose hash a recovery may delete. */
  predicate Firm(k: Key)
  {
    k.Notice? ==> !Bypasses(k.title) && !(ISSUE <= k.title)
  }

  ghost predicate NoDelete(ops: seq<Op>, k: Key)
  {
    forall op <- ops :: op.key == k ==> !op.Deleted?
  }

  lemma {:induction false} FirmNotDeleted(ops: seq<Op>, k: Key)
    requires Legal(ops) && Firm(k)
    ensures NoDelete(ops, k)
  {
    if ops != [] {
      var (before, op) := (ops[..|ops| - 1], ops[|ops| - 1]);
      FirmNotDeleted(before, k);
      assert ops == before + [op];
    }
  }

  lemma PassAppend(ops: seq<Op>, op: Op, k: Key)
    ensures Passes(ops + [op], k) == Passes(ops, k) + if op.Passed? && op.key == k then [op.at] else []
  {
    assert (ops + [op])[..|ops|] == ops;
  }

  /** An attempt passes its own gate if that is open, and no other. */
  lemma AttemptExact(ops: seq<Op>, k: Key, now: int, k': Key)
    ensures Passes(Attempted(ops, k, now), k')
            == Passes(ops, k') + if k' == k && Open(k, Last(ops, k), now) then [now] else []
    ensures k' != k ==> Last(Attempted(ops, k, now), k') == Last(ops, k')
  {
    PassAppend(ops, Passed(k, now), k');
    LastAppend(ops, Passed(k, now), k');
  }

  /** Where nothing is stored again and nothing deleted, what has been stored are the passes. */
  lemma {:induction false} StoresArePasses(ops: seq<Op>, k: Key)
    requires Legal(ops) && NoDelete(ops, k) && !k.Metrics?
    ensures Stores(ops, k) == Passes(ops, k)
  {
    if ops != [] {
      var (before, op) := (ops[..|ops| - 1], ops[|ops| - 1]);
      assert ops == before + [op] && op in ops;
      StoresArePasses(before, k);
    }
  }

  /** The passes of a gate are a cooldown apart, and the last is no later than the time stored. */
  ghost predicate Rationed(passes: seq<int>, last: Option<int>, k: Key)
  {
    && Spaced(passes, Ttl(k))
    && (passes != [] ==> last.Some? && passes[|passes| - 1] <= last.value)
    && (k.Oom? ==> |passes| <= 1)
  }

  lemma StepRationed(ops: seq<Op>, op: Op, k: Key)
    requires Rationed(Passes(ops, k), Last(ops, k), k) && Fits(ops, op)
    requires (k.Notice? ==> !Bypasses(k.title)) && (op.key == k ==> !op.Deleted?)
    ensures Rationed(Passes(ops + [op], k), Last(ops + [op], k), k)
  {
    PassAppend(ops, op, k);
    LastAppend(ops, op, k);
    if op.key == k && op.Passed? {
      SpacedAppend(Passes(ops, k), Ttl(k), op.at);
    }
  }

  /** So it is of every gate that cannot be bypassed, while its hash is not deleted. */
  lemma {:induction false} UndeletedSpaced(ops: seq<Op>, k: Key)
    requires Legal(ops) && NoDelete(ops, k) && (k.Notice? ==> !Bypasses(k.title))
    ensures Rationed(Passes(ops, k), Last(ops, k), k)
  {
    if ops != [] {
      var (before, op) := (ops[..|ops| - 1], ops[|ops| - 1]);
      assert ops == before + [op] && op in ops;
      UndeletedSpaced(before, k);
      StepRationed(before, op, k);
    }
  }

  lemma PassesSpaced(ops: seq<Op>, k: Key)
    requires Legal(ops) && Firm(k)
    ensures Spaced(Passes(ops, k), Ttl(k))
    ensures k.Oom? ==> |Passes(ops, k)| <= 1
  {
    FirmNotDeleted(ops, k);
    UndeletedSpaced(ops, k);
  }

  /** The rate bound: in every run, any interval of length T sees at most T / TTL + 1 passes of a
      firm key's gate -- notices of one hash, alerts of one node and issue, proposals for one
      deployment, and so on. */
  lemma RateBound(ops: seq<Op>, k: Key, lo: int, T: nat)
    requires Legal(ops) && Firm(k) && !k.Oom?
    ensures Count(Passes(ops, k), lo, lo + T) <= T / Ttl(k) + 1
  {
    PassesSpaced(ops, k);
    CooldownBound(Passes(ops, k), Ttl(k), lo, T);
  }

  /** Out-of-memory proposals are rationed in every run: a pod's kills are handled at most once in
      the life of the process, and two proposals for one deployment are at least ten minutes apart. */
  lemma OomRationed(ops: seq<Op>, namespace: string, pod: string, deployment: string)
    requires Legal(ops)
    ensures |Passes(ops, Oom(namespace, pod))| <= 1
    ensures Spaced(Passes(ops, OomPending(namespace, deployment)), 10 * MINUTE)
  {
    PassesSpaced(ops, Oom(namespace, pod));
    PassesSpaced(ops, OomPending(namespace, deployment));
  }

  lemma {:induction false} LegalPrefix(ops: seq<Op>, j: nat)
    requires Legal(ops) && j <= |ops|
    ensures Legal(ops[..j])
  {
    if j < |ops| {
      LegalPrefix(ops[..|ops| - 1], j);
      assert ops[..|ops| - 1][..j] == ops[..j];
    } else {
      assert ops[..j] == ops;
    }
  }

  lemma LegalFits(ops: seq<Op>, j: nat)
    requires Legal(ops) && j < |ops|
    ensures Fits(ops[..j], ops[j])
  {
    LegalPrefix(ops, j + 1);
    assert ops[..j + 1][..j] == ops[..j] && ops[..j + 1][j] == ops[j];
  }

  /** Until its key is deleted the time stored under it is no earlier than any pass of its gate. */
  lemma {:induction false} StoredSince(ops: seq<Op>, k: Key, i: nat, j: nat)
    requires Legal(ops) && i < j <= |ops| && (k.Notice? ==> !Bypasses(k.title))
    requires ops[i].Passed? && ops[i].key == k
    requires forall d :: i < d < j && ops[d].key == k ==> !ops[d].Deleted?
    ensures Last(ops[..j], k).Some? && ops[i].at <= Last(ops[..j], k).value
    decreases j
  {
    LegalPrefix(ops, j);
    var (before, op) := (ops[..j - 1], ops[j - 1]);
    assert ops[..j] == before + [op] && ops[..j][..j - 1] == before;
    LastAppend(before, op, k);
    if i < j - 1 {
      StoredSince(ops, k, i, j - 1);
    }
  }

  /** The spacing of notices that a recovery may let through again: in every run, two passes of one
      gate that cannot be bypassed, with no deletion of its key between them, are a cooldown apart. */
  lemma SpacedBetweenDeletions(ops: seq<Op>, k: Key, i: nat, j: nat)
    requires Legal(ops) && i < j < |ops| && (k.Notice? ==> !Bypasses(k.title))
    requires ops[i].Passed? && ops[i].key == k && ops[j].Passed? && ops[j].key == k
    requires forall d :: i < d < j && ops[d].key == k ==> !ops[d].Deleted?
    ensures ops[j].at - ops[i].at >= Ttl(k) && !k.Oom?
  {
    StoredSince(ops, k, i, j);
    LegalFits(ops, j);
  }

  // ---------- the titles in use ----------

  /** Every notice the reconciler sends. */
  datatype Title =
    | NewActivity | IssueResolved | SecurityHeal | SmartScaling | Autonomous
    | IssueDetected(reason: string) | Guardrail | VerticalScaling | HighCpu | HighMemory

  const WAITING_REASONS := ["ErrImagePull", "ImagePullBackOff", "CrashLoopBackOff", "CreateContainerConfigError"]

  function TitleText(t: Title): string
  {
    match t
    case NewActivity => "🆕 New Activity"
    case IssueResolved => "✅ Issue Resolved"
    case SecurityHeal => "🛡️ Security Auto-Heal"
    case SmartScaling => "Smart Scaling Triggered"
    case Autonomous => "✅ Autonomous Action"
    case IssueDetected(reason) => ISSUE + reason
    case Guardrail => "Guardrail Blocked Scaling"
    case VerticalScaling => "Vertical Scaling Required"
    case HighCpu => "High CPU Usage Detected"
    case HighMemory => "High Memory Usage Detected"
  }

  predicate Used(t: Title)
  {
    t.IssueDetected? ==> t.reason in WAITING_REASONS
  }

  lemma ContainsAll(s: string, sub: string)
    requires Contains(s, sub)
    ensures forall c <- sub :: c in s
  {
    var i :| 0 <= i <= |s| && sub <= s[i..];
    forall c | c in sub ensures c in s {
      assert c in s[i..];
    }
  }

  /** Each title lacks a letter of "Recovered" and a letter of "New Pod", and holds no slash. */
  function Lacks(t: Title): (char, char)
  {
    match t
    case NewActivity => ('R', 'P')
    case IssueResolved => ('c', 'N')
    case VerticalScaling => ('v', 'N')
    case _ => ('R', 'N')
  }

  lemma ReasonLetters(reason: string)
    requires reason in WAITING_REASONS
    ensures forall c <- reason :: c != 'R' && c != 'N' && c != '/'
  {
    assert reason == WAITING_REASONS[0] || reason == WAITING_REASONS[1]
        || reason == WAITING_REASONS[2] || reason == WAITING_REASONS[3];
  }

  lemma NewsLetters(t: Title)
    requires t.NewActivity? || t.IssueResolved?
    ensures forall c <- TitleText(t) :: c != Lacks(t).0 && c != Lacks(t).1 && c != '/'
  {
  }

  lemma HealLetters(t: Title)
    requires t.SecurityHeal?
    ensures forall c <- TitleText(t) :: c != Lacks(t).0 && c != Lacks(t).1 && c != '/'
  {
  }

  lemma SmartLetters(t: Title)
    requires t.SmartScaling?
    ensures forall c <- TitleText(t) :: c != Lacks(t).0 && c != Lacks(t).1 && c != '/'
  {
  }

  lemma GuardLetters(t: Title)
    requires t.Guardrail?
    ensures forall c <- TitleText(t) :: c != Lacks(t).0 && c != Lacks(t).1 && c != '/'
  {
  }

  lemma ActionLetters(t: Title)
    requires t.Autonomous? || t.VerticalScaling?
    ensures forall c <- TitleText(t) :: c != Lacks(t).0 && c != Lacks(t).1 && c != '/'
  {
  }

  lemma CpuLetters(t: Title)
    requires t.HighCpu?
    ensures forall c <- TitleText(t) :: c != Lacks(t).0 && c != Lacks(t).1 && c != '/'
  {
  }

  lemma MemoryLetters(t: Title)
    requires t.HighMemory?
    ensures forall c <- TitleText(t) :: c != Lacks(t).0 && c != Lacks(t).1 && c != '/'
  {
  }

  lemma IssueLetters(reason: string)
    requires reason in WAITING_REASONS
    ensures forall c <- ISSUE + reason :: c != 'R' && c != 'N' && c != '/'
  {
    ReasonLetters(reason);
    assert forall c <- ISSUE :: c != 'R' && c != 'N' && c != '/';
  }

  lemma TitleLetters(t: Title)
    requires Used(t)
    ensures forall c <- TitleText(t) :: c != Lacks(t).0 && c != Lacks(t).1 && c != '/'
  {
    match t
    case IssueDetected(reason) => IssueLetters(reason);
    case NewActivity => NewsLetters(t);
    case IssueResolved => NewsLetters(t);
    case SecurityHeal => HealLetters(t);
    case SmartScaling => SmartLetters(t);
    case Guardrail => GuardLetters(t);
    case Autonomous => ActionLetters(t);
    case VerticalScaling => ActionLetters(t);
    case HighCpu => CpuLetters(t);
    case HighMemory => MemoryLetters(t);
  }

  /** The bypass is never taken: no title the reconciler uses mentions "Recovered" or "New Pod",
      so recovery and new-pod notices are rationed like all others. */
  lemma NoTitleBypasses(t: Title)
    requires Used(t)
    ensures !Bypasses(TitleText(t))
  {
    var s := TitleText(t);
    TitleLetters(t);
    assert "Recovered"[0] == 'R' && "Recovered"[2] == 'c' && "Recovered"[4] == 'v';
    assert "New Pod"[0] == 'N' && "New Pod"[4] == 'P';
    assert Lacks(t).0 in "Recovered" && Lacks(t).1 in "New Pod";
    if Contains(s, "Recovered") {
      ContainsAll(s, "Recovered");
    }
    if Contains(s, "New Pod") {
      ContainsAll(s, "New Pod");
    }
  }

  lemma TitlesClean(t: Title, length: nat)
    requires Used(t)
    ensures Clean(Notice(TitleText(t), length))
  {
    TitleLetters(t);
    assert forall c <- Decimal(length) :: IsDigit(c);
  }

  lemma OnlyIssuesLookIt(t: Title)
    requires !t.IssueDetected?
    ensures !(ISSUE <= TitleText(t))
  {
    assert ISSUE[0] == 'I';
    assert TitleText(t)[0] != 'I';
  }

  /** The rate of notices that users get: in every run, at most T / 5min + 1 notices of one title
      and message length in any interval of length T -- for an issue notice, as long as no recovery
      has deleted its hash. */
  lemma NoticeRate(ops: seq<Op>, t: Title, length: nat, lo: int, T: nat)
    requires Legal(ops) && Used(t)
    requires t.IssueDetected? ==> NoDelete(ops, Notice(TitleText(t), length))
    ensures Count(Passes(ops, Notice(TitleText(t), length)), lo, lo + T) <= T / (5 * MINUTE) + 1
  {
    var k := Notice(TitleText(t), length);
    NoTitleBypasses(t);
    if t.IssueDetected? {
      UndeletedSpaced(ops, k);
      CooldownBound(Passes(ops, k), Ttl(k), lo, T);
    } else {
      OnlyIssuesLookIt(t);
      RateBound(ops, k, lo, T);
    }
  }
}
