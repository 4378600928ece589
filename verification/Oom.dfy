/** The out-of-memory guardrail: which container a proposal names, the doubled limit, and how
    far a chain of approved proposals can go. */
module Oom {
  import opened Wrappers

  /** Bytes. */
  const MI128 := 134_217_728
  const GI1 := 1_073_741_824

  /** A container of the deployment's template; a limit of 0 is an unset one. */
  datatype Container = Container(name: string, limit: nat)

  /** A container status of the pod: its name and whether its last termination was an OOM kill. */
  datatype Status = Status(name: string, oomKilled: bool)

  function FirstKilled(statuses: seq<Status>): Option<string>
  {
    if statuses == [] then None
    else if statuses[0].oomKilled then Some(statuses[0].name)
    else FirstKilled(statuses[1..])
  }

  /** The index of the container the proposal is about: the first one called like the first
      killed status, or else the first of all. */
  method FindContainer(containers: seq<Container>, statuses: seq<Status>) returns (idx: nat)
    requires containers != []
    ensures idx == Target(containers, statuses) < |containers|
  {
    var name: Option<string> := None;
    for k := 0 to |statuses|
      invariant name.None? && FirstKilled(statuses[k..]) == FirstKilled(statuses)
    {
      if statuses[k].oomKilled {
        name := Some(statuses[k].name);
        break;
      }
    }
    assert name == FirstKilled(statuses);
    if name.Some? && name.value != "" {
      for i := 0 to |containers|
        invariant forall j :: 0 <= j < i ==> containers[j].name != name.value
      {
        if containers[i].name == name.value {
          IndexExact(containers, name.value, i);
          return i;
        }
      }
      IndexNone(containers, name.value);
    }
    return 0;
  }

  function IndexOf(containers: seq<Container>, name: string): (i: nat)
    ensures i <= |containers|
  {
    if containers == [] then 0
    else if containers[0].name == name then 0
    else 1 + IndexOf(containers[1..], name)
  }

  lemma {:induction false} IndexExact(containers: seq<Container>, name: string, i: nat)
    requires i < |containers| && containers[i].name == name
    requires forall j :: 0 <= j < i ==> containers[j].name != name
    ensures IndexOf(containers, name) == i
  {
    if i > 0 {
      assert containers[0].name != name;
      forall j | 0 <= j < i - 1 ensures containers[1..][j].name != name {
        assert containers[1..][j] == containers[j + 1];
      }
      IndexExact(containers[1..], name, i - 1);
    }
  }

  lemma {:induction false} IndexNone(containers: seq<Container>, name: string)
    requires forall j :: 0 <= j < |containers| ==> containers[j].name != name
    ensures IndexOf(containers, name) == |containers|
  {
    if containers != [] {
      assert containers[0].name != name;
      forall j | 0 <= j < |containers[1..]| ensures containers[1..][j].name != name {
        assert containers[1..][j] == containers[j + 1];
      }
      IndexNone(containers[1..], name);
    }
  }

  function Target(containers: seq<Container>, statuses: seq<Status>): nat
  {
    var name := FirstKilled(statuses);
    if name.None? || name.value == "" || IndexOf(containers, name.value) == |containers| then 0
    else IndexOf(containers, name.value)
  }

  ghost predicate FirstKill(statuses: seq<Status>, k: nat)
  {
    k < |statuses| && statuses[k].oomKilled && forall j :: 0 <= j < k ==> !statuses[j].oomKilled
  }

  ghost predicate FirstNamed(containers: seq<Container>, name: string, i: nat)
  {
    i < |containers| && containers[i].name == name && forall j :: 0 <= j < i ==> containers[j].name != name
  }

  lemma {:induction false} FirstKilledIs(statuses: seq<Status>, k: nat)
    requires FirstKill(statuses, k)
    ensures FirstKilled(statuses) == Some(statuses[k].name)
  {
    if k > 0 {
      assert !statuses[0].oomKilled;
      forall j | 0 <= j < k - 1 ensures !statuses[1..][j].oomKilled {
        assert statuses[1..][j] == statuses[j + 1];
      }
      FirstKilledIs(statuses[1..], k - 1);
    }
  }

  lemma {:induction false} FirstKilledAt(statuses: seq<Status>) returns (k: nat)
    requires FirstKilled(statuses).Some?
    ensures FirstKill(statuses, k)
  {
    if statuses[0].oomKilled {
      k := 0;
    } else {
      var later := FirstKilledAt(statuses[1..]);
      k := later + 1;
      forall j | 0 < j < k ensures !statuses[j].oomKilled {
        assert statuses[j] == statuses[1..][j - 1];
      }
    }
  }

  lemma {:induction false} IndexFirst(containers: seq<Container>, name: string)
    requires IndexOf(containers, name) < |containers|
    ensures FirstNamed(containers, name, IndexOf(containers, name))
  {
    if containers[0].name != name {
      IndexFirst(containers[1..], name);
      forall j | 0 < j < IndexOf(containers, name) ensures containers[j].name != name {
        assert containers[j] == containers[1..][j - 1];
      }
    }
  }

  /** Which container a proposal is about, by position: the first that bears the name of the first
      killed status, and the very first if there is no such status, it has no name, or none bears it. */
  lemma TargetExact(containers: seq<Container>, statuses: seq<Status>)
    ensures forall k: nat, i: nat ::
              FirstKill(statuses, k) && statuses[k].name != "" && FirstNamed(containers, statuses[k].name, i) ==>
                Target(containers, statuses) == i
    ensures (forall k: nat, i: nat ::
               !(FirstKill(statuses, k) && statuses[k].name != "" && FirstNamed(containers, statuses[k].name, i)))
            ==> Target(containers, statuses) == 0
  {
    forall k: nat, i: nat
      | FirstKill(statuses, k) && statuses[k].name != "" && FirstNamed(containers, statuses[k].name, i)
      ensures Target(containers, statuses) == i
    {
      FirstKilledIs(statuses, k);
      IndexExact(containers, statuses[k].name, i);
    }
    if Target(containers, statuses) != 0 {
      var k := FirstKilledAt(statuses);
      FirstKilledIs(statuses, k);
      IndexFirst(containers, statuses[k].name);
    }
  }

  /** Doubled, or 128Mi when there was no limit. */
  function NewLimit(current: nat): nat
  {
    if current == 0 then MI128 else current + current
  }

  datatype Decision = Blocked | Propose(container: string, limit: nat)

  function Decide(containers: seq<Container>, statuses: seq<Status>): Decision
    requires containers != []
  {
    var c := containers[var i := Target(containers, statuses); if i < |containers| then i else 0];
    if NewLimit(c.limit) > GI1 then Blocked else Propose(c.name, NewLimit(c.limit))
  }

  // ---------- chains of approved proposals ----------

  ghost predicate Distinct(containers: seq<Container>)
  {
    forall i, j :: 0 <= i < j < |containers| ==> containers[i].name != containers[j].name
  }

  /** PatchMemoryLimit: a merge by container name. */
  function Patch(containers: seq<Container>, name: string, limit: nat): (patched: seq<Container>)
    ensures |patched| == |containers|
  {
    if containers == [] then []
    else
      [if containers[0].name == name then containers[0].(limit := limit) else containers[0]]
      + Patch(containers[1..], name, limit)
  }

  lemma {:induction false} PatchAt(containers: seq<Container>, name: string, limit: nat, i: nat)
    requires i < |containers|
    ensures Patch(containers, name, limit)[i]
            == if containers[i].name == name then containers[i].(limit := limit) else containers[i]
  {
    if i > 0 {
      PatchAt(containers[1..], name, limit, i - 1);
    }
  }

  /** One kill whose proposal, if there is one, gets approved. */
  function Handle(containers: seq<Container>, statuses: seq<Status>): (after: seq<Container>)
    requires containers != []
    ensures |after| == |containers|
  {
    match Decide(containers, statuses)
    case Blocked => containers
    case Propose(name, limit) => Patch(containers, name, limit)
  }

  function Run(containers: seq<Container>, kills: seq<seq<Status>>): (after: seq<Container>)
    requires containers != []
    ensures |after| == |containers|
  {
    if kills == [] then containers
    else Handle(Run(containers, kills[..|kills| - 1]), kills[|kills| - 1])
  }

  /** How often the run bumped the i-th container. */
  ghost function Bumps(containers: seq<Container>, kills: seq<seq<Status>>, i: nat): nat
    requires containers != [] && i < |containers|
  {
    if kills == [] then 0
    else
      var before := Run(containers, kills[..|kills| - 1]);
      var d := Decide(before, kills[|kills| - 1]);
      Bumps(containers, kills[..|kills| - 1], i) + if d.Propose? && d.container == before[i].name then 1 else 0
  }

  function Pow2(n: nat): nat
  {
    if n == 0 then 1 else 2 * Pow2(n - 1)
  }

  lemma {:induction false} NamesKept(containers: seq<Container>, kills: seq<seq<Status>>, i: nat)
    requires containers != [] && i < |containers|
    ensures Run(containers, kills)[i].name == containers[i].name
  {
    if kills != [] {
      NamesKept(containers, kills[..|kills| - 1], i);
      var before := Run(containers, kills[..|kills| - 1]);
      var d := Decide(before, kills[|kills| - 1]);
      if d.Propose? {
        PatchAt(before, d.container, d.limit, i);
      }
    }
  }

  /** The doubling chain, along every run of approved proposals with no outside edits: a container
      that starts with limit L > 0 and has been bumped n times is at exactly L * 2^n, and at most
      1Gi if n > 0 -- so it gets at most log2(1Gi / L) bumps; an unset one is at 128Mi * 2^(n-1),
      gets at most four, and the fourth ends at exactly 1Gi. */
  lemma {:induction false} DoublingChain(containers: seq<Container>, kills: seq<seq<Status>>, i: nat)
    requires containers != [] && Distinct(containers) && i < |containers|
    ensures var (start, n) := (containers[i].limit, Bumps(containers, kills, i));
            var limit := Run(containers, kills)[i].limit;
            Doubled(start, n, limit)
  {
    if kills != [] {
      var rest := kills[..|kills| - 1];
      DoublingChain(containers, rest, i);
      BumpEffect(containers, kills, i);
      if Bumps(containers, kills, i) > Bumps(containers, rest, i) {
        DoublingStep(containers[i].limit, Bumps(containers, rest, i), Run(containers, rest)[i].limit);
      }
    }
  }

  /** What the last kill of a run did to the i-th container. */
  lemma BumpEffect(containers: seq<Container>, kills: seq<seq<Status>>, i: nat)
    requires containers != [] && Distinct(containers) && i < |containers| && kills != []
    ensures var rest := kills[..|kills| - 1];
            var (limit, limit') := (Run(containers, rest)[i].limit, Run(containers, kills)[i].limit);
            || (Bumps(containers, kills, i) == Bumps(containers, rest, i) && limit' == limit)
            || (Bumps(containers, kills, i) == Bumps(containers, rest, i) + 1
                && limit' == NewLimit(limit) && limit' <= GI1)
  {
    var rest := kills[..|kills| - 1];
    var before := Run(containers, rest);
    var d := Decide(before, kills[|kills| - 1]);
    if d.Propose? {
      PatchAt(before, d.container, d.limit, i);
      var t := Target(before, kills[|kills| - 1]);
      NamesKept(containers, rest, i);
      NamesKept(containers, rest, t);
      if d.container == before[i].name {
        assert t == i;
      }
    }
  }

  /** Where n bumps take a container that started at the given limit. */
  ghost predicate Doubled(start: nat, n: nat, limit: nat)
  {
    && limit == (if n == 0 then start else if start > 0 then start * Pow2(n) else MI128 * Pow2(n - 1))
    && (n > 0 ==> limit <= GI1)
    && (start == 0 ==> n <= 4 && (n == 4 ==> limit == GI1))
  }

  lemma DoublingStep(start: nat, n: nat, limit: nat)
    requires Doubled(start, n, limit) && NewLimit(limit) <= GI1
    ensures Doubled(start, n + 1, NewLimit(limit))
  {
    assert start * Pow2(n + 1) == 2 * (start * Pow2(n));
    SmallPowers(n);
    if start == 0 && n > 0 {
      assert MI128 * Pow2(n) == 2 * (MI128 * Pow2(n - 1));
    }
  }

  lemma SmallPowers(n: nat)
    ensures Pow2(0) == 1 && Pow2(1) == 2 && Pow2(2) == 4 && Pow2(3) == 8
    ensures n >= 4 ==> Pow2(n) >= 16
  {
    assert Pow2(3) == 2 * Pow2(2) && Pow2(2) == 2 * Pow2(1) && Pow2(1) == 2 * Pow2(0);
    if n >= 4 {
      PowerAtLeast(n);
    }
  }

  lemma {:induction false} PowerAtLeast(n: nat)
    requires n >= 4
    ensures Pow2(n) >= 16
  {
    if n == 4 {
      assert Pow2(4) == 2 * Pow2(3) && Pow2(3) == 2 * Pow2(2) && Pow2(2) == 2 * Pow2(1) && Pow2(1) == 2 * Pow2(0);
    } else {
      PowerAtLeast(n - 1);
    }
  }

  /** The end of the chain: once doubling a container's limit would pass 1Gi, neither its limit nor
      its bump count ever changes again, and every kill that targets it is blocked. */
  lemma {:induction false} GuardrailForGood(containers: seq<Container>, kills: seq<seq<Status>>, i: nat, k: nat)
    requires containers != [] && Distinct(containers) && i < |containers| && k <= |kills|
    requires NewLimit(Run(containers, kills[..k])[i].limit) > GI1
    ensures Bumps(containers, kills, i) == Bumps(containers, kills[..k], i)
    ensures Run(containers, kills)[i].limit == Run(containers, kills[..k])[i].limit
    ensures forall statuses ::
              Target(Run(containers, kills), statuses) == i ==> Decide(Run(containers, kills), statuses).Blocked?
  {
    if k < |kills| {
      var rest := kills[..|kills| - 1];
      assert rest[..k] == kills[..k];
      GuardrailForGood(containers, rest, i, k);
      BumpEffect(containers, kills, i);
    } else {
      assert kills[..k] == kills;
    }
  }

  /** Every proposal names a container of the deployment and exactly doubles its limit, staying
      within 1Gi; the guardrail blocks exactly when doubling would pass 1Gi; and the container named
      is the killed one whenever the deployment has one of that name. */
  lemma ProposalExact(containers: seq<Container>, statuses: seq<Status>)
    requires containers != []
    ensures var t := Target(containers, statuses);
            && t < |containers|
            && (Decide(containers, statuses).Blocked? <==> 2 * containers[t].limit > GI1)
            && (Decide(containers, statuses).Propose? ==>
                  && Decide(containers, statuses).container == containers[t].name
                  && Decide(containers, statuses).limit
                     == (if containers[t].limit == 0 then MI128 else 2 * containers[t].limit) <= GI1)
            && var killed := FirstKilled(statuses);
               (killed.Some? && killed.value != "" && (exists c <- containers :: c.name == killed.value) ==>
                  containers[t].name == killed.value)
  {
    var killed := FirstKilled(statuses);
    if killed.Some? {
      IndexFinds(containers, killed.value);
    }
  }

  lemma {:induction false} IndexFinds(containers: seq<Container>, name: string)
    ensures IndexOf(containers, name) < |containers| <==> exists c <- containers :: c.name == name
    ensures IndexOf(containers, name) < |containers| ==> containers[IndexOf(containers, name)].name == name
  {
    if containers != [] {
      IndexFinds(containers[1..], name);
      assert containers == [containers[0]] + containers[1..];
    }
  }
}
