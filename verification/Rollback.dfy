/** The two rollbacks. The reconciler's own lists the ReplicaSets, sorts them by revision in place,
    scans for the revision before the deployment's, and patches the deployment with that template
    less its hash. The one behind the approval button only writes an annotation. */
module Rollback {
  import opened Wrappers
  import opened Text
  import Actions

  const REVISION := "deployment.kubernetes.io/revision"
  const HASH_LABEL := "pod-template-hash"

  /** What a pod template holds: labels, annotations, and all the rest. */
  datatype Template = Template(labels: map<string, string>, annotations: map<string, string>, spec: string)

  /** A pod template as an object; its maps are shared by whoever holds it. */
  class PodTemplate {
    var labels: map<string, string>
    var annotations: map<string, string>
    var spec: string

    constructor (labels: map<string, string>, annotations: map<string, string>, spec: string)
      ensures this.labels == labels && this.annotations == annotations && this.spec == spec
    {
      this.labels, this.annotations, this.spec := labels, annotations, spec;
    }

    method DeepCopy() returns (copy: PodTemplate)
      ensures fresh(copy) && copy.labels == labels && copy.annotations == annotations && copy.spec == spec
    {
      copy := new PodTemplate(labels, annotations, spec);
    }
  }

  class ReplicaSet {
    const annotations: map<string, string>
    const template: PodTemplate

    constructor (annotations: map<string, string>, template: PodTemplate)
      ensures this.annotations == annotations && this.template == template
    {
      this.annotations, this.template := annotations, template;
    }
  }

  /** How a call ends: with one of its errors, or with a patch sent, which the API may reject. */
  datatype Outcome = NoDeployment | NotEnoughHistory | PreviousMissing | Sent(patch: Template, accepted: bool)

  /** A revision annotation as an integer; errors are ignored, so a missing or malformed one is 0
      and one out of range is the nearest bound. */
  function Revision(annotations: map<string, string>): (r: int)
    ensures -HALF64 <= r < HALF64
    ensures REVISION !in annotations ==> r == 0
  {
    ParseInt(if REVISION in annotations then annotations[REVISION] else "", HALF64).value
  }

  /** int64 subtraction wraps. */
  function Previous(current: int): int
  {
    if current == -HALF64 then HALF64 - 1 else current - 1
  }

  function Rev(rs: ReplicaSet): int
  {
    Revision(rs.annotations)
  }

  ghost predicate Descending(items: seq<ReplicaSet>)
  {
    forall i, j :: 0 <= i < j < |items| ==> Rev(items[i]) >= Rev(items[j])
  }

  ghost predicate Permutes(a: seq<ReplicaSet>, b: seq<ReplicaSet>)
  {
    multiset(a) == multiset(b)
  }

  lemma TailDescending(items: seq<ReplicaSet>)
    requires Descending(items) && items != []
    ensures Descending(items[1..]) && items == [items[0]] + items[1..]
  {
  }

  function Insert(rs: ReplicaSet, items: seq<ReplicaSet>): seq<ReplicaSet>
  {
    if items == [] || Rev(rs) >= Rev(items[0]) then [rs] + items else [items[0]] + Insert(rs, items[1..])
  }

  lemma {:induction false} InsertPermutes(rs: ReplicaSet, items: seq<ReplicaSet>)
    ensures Permutes(Insert(rs, items), items + [rs])
  {
    if items != [] && Rev(rs) < Rev(items[0]) {
      var (head, tail) := ([items[0]], items[1..]);
      InsertPermutes(rs, tail);
      assert items + [rs] == head + (tail + [rs]);
    }
  }

  lemma {:induction false} InsertDescends(rs: ReplicaSet, items: seq<ReplicaSet>)
    requires Descending(items)
    ensures Descending(Insert(rs, items))
    ensures Insert(rs, items) != []
    ensures Insert(rs, items)[0] == rs || (items != [] && Insert(rs, items)[0] == items[0])
  {
    if items != [] && Rev(rs) < Rev(items[0]) {
      TailDescending(items);
      InsertDescends(rs, items[1..]);
      HeadOnTop(items[0], Insert(rs, items[1..]));
    }
  }

  lemma HeadOnTop(head: ReplicaSet, rest: seq<ReplicaSet>)
    requires Descending(rest) && rest != [] && Rev(head) >= Rev(rest[0])
    ensures Descending([head] + rest)
  {
    forall i | 0 <= i < |rest| ensures Rev(head) >= Rev(rest[i]) {
      assert Rev(rest[0]) >= Rev(rest[i]);
    }
  }

  function Sort(items: seq<ReplicaSet>): seq<ReplicaSet>
  {
    if items == [] then [] else Insert(items[0], Sort(items[1..]))
  }

  lemma {:induction false} SortSorts(items: seq<ReplicaSet>)
    ensures Descending(Sort(items)) && Permutes(Sort(items), items)
  {
    if items != [] {
      var (head, tail) := ([items[0]], items[1..]);
      SortSorts(tail);
      InsertDescends(items[0], Sort(tail));
      InsertPermutes(items[0], Sort(tail));
      assert items == head + tail;
    }
  }

  /** sort.Slice by descending revision, in place; it is not stable, so callers learn only that
      the array is now a descending permutation of what it was. */
  method SortByRevision(items: array<ReplicaSet>)
    modifies items
    ensures Descending(items[..]) && Permutes(items[..], old(items[..]))
  {
    var sorted := Sort(items[..]);
    SortSorts(items[..]);
    PermutedLength(sorted, items[..]);
    CopyInto(sorted, items);
  }

  method CopyInto(source: seq<ReplicaSet>, target: array<ReplicaSet>)
    requires |source| == target.Length
    modifies target
    ensures target[..] == source
  {
    for i := 0 to target.Length
      invariant target[..i] == source[..i]
    {
      target[i] := source[i];
    }
  }

  lemma PermutedLength(a: seq<ReplicaSet>, b: seq<ReplicaSet>)
    requires Permutes(a, b)
    ensures |a| == |b|
  {
    assert |multiset(a)| == |a| && |multiset(b)| == |b|;
  }

  /** The scan: the first item with the revision. */
  function Find(items: seq<ReplicaSet>, target: int): (r: Option<ReplicaSet>)
    ensures r.Some? ==> r.value in items && Rev(r.value) == target
    ensures r.None? ==> forall rs <- items :: Rev(rs) != target
  {
    if items == [] then None
    else if Rev(items[0]) == target then Some(items[0])
    else Find(items[1..], target)
  }

  /** No two different ReplicaSets carry the revision. */
  ghost predicate Unambiguous(items: seq<ReplicaSet>, target: int)
  {
    forall i, j :: 0 <= i < |items| && 0 <= j < |items| && Rev(items[i]) == target == Rev(items[j]) ==>
      items[i] == items[j]
  }

  /** The patch a ReplicaSet's template becomes. */
  ghost function CleanTemplate(t: PodTemplate): Template
    reads t
  {
    Template(t.labels - {HASH_LABEL}, t.annotations, t.spec)
  }

  /** A ReplicaSet as a value: its annotations and the patch its template becomes. */
  datatype Revised = Revised(annotations: map<string, string>, patch: Template)

  ghost function View(items: seq<ReplicaSet>): (view: seq<Revised>)
    reads set rs | rs in items :: rs.template
    ensures |view| == |items|
  {
    seq(|items|, i requires 0 <= i < |items| reads set rs | rs in items :: rs.template =>
                   Revised(items[i].annotations, CleanTemplate(items[i].template)))
  }

  /** How a rollback of a deployment with these annotations ends, given the ReplicaSets listed and
      whether the API accepts a patch: a patch is sent exactly when one listed carries the revision
      before the deployment's, and it is that one's. */
  ghost predicate Answers(
    deployment: Option<map<string, string>>, listed: Option<seq<Revised>>, accepted: bool, outcome: Outcome)
  {
    if deployment.None? then outcome.NoDeployment?
    else if listed.None? || |listed.value| < 2 then outcome.NotEnoughHistory?
    else
      var target := Previous(Revision(deployment.value));
      if exists r <- listed.value :: Revision(r.annotations) == target then
        && outcome.Sent? && outcome.accepted == accepted
        && exists r <- listed.value :: Revision(r.annotations) == target && outcome.patch == r.patch
      else outcome.PreviousMissing?
  }

  method RollbackDeployment(deployment: Option<map<string, string>>, items: Option<array<ReplicaSet>>, accepted: bool)
    returns (outcome: Outcome)
    modifies if items.Some? then {items.value} else {}
    ensures Answers(deployment, if items.Some? then Some(old(View(items.value[..]))) else None, accepted, outcome)
  {
    if deployment.None? {
      return NoDeployment;
    }
    if items.None? || items.value.Length < 2 {
      return NotEnoughHistory;
    }
    var list := items.value;
    ghost var listed := list[..];
    ghost var view := View(listed);
    var target := Previous(Revision(deployment.value));
    SortByRevision(list);
    PermutedMembers(list[..], listed);
    var prevRS := FindPrevious(list, target);
    if prevRS.None? {
      assert forall r <- view :: Revision(r.annotations) != target by {
        forall k | 0 <= k < |view| ensures Revision(view[k].annotations) != target {
          assert listed[k] in list[..];
        }
      }
      return PreviousMissing;
    }
    ghost var k :| 0 <= k < |listed| && listed[k] == prevRS.value;
    assert view[k] == Revised(prevRS.value.annotations, CleanTemplate(prevRS.value.template));
    var cleanTemplate := prevRS.value.template.DeepCopy();
    cleanTemplate.labels := cleanTemplate.labels - {HASH_LABEL};
    outcome := Sent(Template(cleanTemplate.labels, cleanTemplate.annotations, cleanTemplate.spec), accepted);
    assert outcome.patch == view[k].patch;
  }

  /** The search loop. */
  method FindPrevious(list: array<ReplicaSet>, target: int) returns (found: Option<ReplicaSet>)
    ensures found == Find(list[..], target)
  {
    for i := 0 to list.Length
      invariant Find(list[i..], target) == Find(list[..], target)
    {
      assert list[i..][0] == list[i] && list[i..][1..] == list[i + 1..];
      if Rev(list[i]) == target {
        return Some(list[i]);
      }
    }
    return None;
  }

  lemma PermutedMembers(a: seq<ReplicaSet>, b: seq<ReplicaSet>)
    requires Permutes(a, b)
    ensures forall rs: ReplicaSet :: rs in a <==> rs in b
  {
    forall rs: ReplicaSet ensures rs in a <==> rs in b {
      assert rs in a <==> rs in multiset(a);
      assert rs in b <==> rs in multiset(b);
    }
  }

  /** The sort decides nothing: the scan picks the same ReplicaSet from every descending
      permutation of the list as from the list itself exactly when no two different ones carry the
      target revision. */
  lemma {:induction false} SortIrrelevant(items: seq<ReplicaSet>, target: int)
    ensures (forall p: seq<ReplicaSet> :: Permutes(p, items) && Descending(p) ==>
               Find(p, target) == Find(items, target))
            <==> Unambiguous(items, target)
  {
    if Unambiguous(items, target) {
      forall p: seq<ReplicaSet> | Permutes(p, items) && Descending(p)
        ensures Find(p, target) == Find(items, target)
      {
        PermutedMembers(p, items);
      }
    } else {
      var i, j :| 0 <= i < |items| && 0 <= j < |items| && Rev(items[i]) == target == Rev(items[j])
                  && items[i] != items[j];
      var p := Sort(items);
      SortSorts(items);
      PermutedMembers(p, items);
      var x := if Find(p, target) == Some(items[i]) then items[j] else items[i];
      var q := TieSwapped(p, target, x);
      assert Find(q, target) != Find(p, target);
      assert Permutes(p, items) && Permutes(q, items);
    }
  }

  lemma SwapTie(p: seq<ReplicaSet>, i: nat, k: nat)
    requires i < |p| && k < |p| && Rev(p[i]) == Rev(p[k]) && Descending(p)
    ensures Descending(p[i := p[k]][k := p[i]])
  {
  }

  lemma SwapPermutes(p: seq<ReplicaSet>, i: nat, k: nat)
    requires i < |p| && k < |p|
    ensures Permutes(p[i := p[k]][k := p[i]], p)
  {
  }

  /** Among ties any candidate can be the first. */
  lemma {:induction false} TieSwapped(p: seq<ReplicaSet>, target: int, x: ReplicaSet) returns (q: seq<ReplicaSet>)
    requires Descending(p) && x in p && Rev(x) == target && Find(p, target) != Some(x)
    ensures Descending(q) && Permutes(q, p) && Find(q, target) == Some(x)
  {
    var first := FirstAt(p, target);
    var k :| 0 <= k < |p| && p[k] == x;
    q := p[first := p[k]][k := p[first]];
    SwapTie(p, first, k);
    SwapPermutes(p, first, k);
    FindFirst(q, target, first);
  }

  lemma {:induction false} FirstAt(p: seq<ReplicaSet>, target: int) returns (i: nat)
    requires Find(p, target).Some?
    ensures i < |p| && Find(p, target) == Some(p[i]) && Rev(p[i]) == target
    ensures forall j :: 0 <= j < i ==> Rev(p[j]) != target
  {
    if Rev(p[0]) == target {
      i := 0;
    } else {
      var k := FirstAt(p[1..], target);
      i := k + 1;
      forall j | 0 < j < i ensures Rev(p[j]) != target {
        assert p[j] == p[1..][j - 1];
      }
    }
  }

  lemma {:induction false} FindFirst(p: seq<ReplicaSet>, target: int, i: nat)
    requires i < |p| && Rev(p[i]) == target && forall j :: 0 <= j < i ==> Rev(p[j]) != target
    ensures Find(p, target) == Some(p[i])
  {
    if i > 0 {
      assert Rev(p[0]) != target;
      forall j | 0 <= j < i - 1 ensures Rev(p[1..][j]) != target {
        assert p[1..][j] == p[j + 1];
      }
      FindFirst(p[1..], target, i - 1);
    }
  }

  /** What a revision annotation reads as: a numeral as its number, cut to 64 bits; none as nought. */
  lemma RevisionExact(annotations: map<string, string>)
    ensures REVISION !in annotations ==> Revision(annotations) == 0
    ensures REVISION in annotations && IsNumeral(annotations[REVISION]) ==>
              var n := Numeral(annotations[REVISION]);
              Revision(annotations) == if n < -HALF64 then -HALF64 else if n >= HALF64 then HALF64 - 1 else n
    ensures REVISION in annotations && !IsNumeral(annotations[REVISION]) ==>
              Revision(annotations) in {0, -HALF64, HALF64 - 1}
  {
    ParseIntExact(if REVISION in annotations then annotations[REVISION] else "", HALF64);
  }

  /** One revision before the other; before the least 64-bit number comes the greatest. */
  predicate Precedes(previous: int, current: int)
  {
    previous + 1 == current || (current == -0x8000_0000_0000_0000 && previous == 0x7FFF_FFFF_FFFF_FFFF)
  }

  /** A template without the label that the Deployment controller adds. */
  ghost predicate Unhashed(patch: Template, t: PodTemplate)
    reads t
  {
    && patch.spec == t.spec && patch.annotations == t.annotations
    && (forall k :: k in patch.labels <==> k in t.labels && k != "pod-template-hash")
    && (forall k <- patch.labels :: patch.labels[k] == t.labels[k])
  }

  /** What the reconciler's rollback sends: with at least two ReplicaSets listed, in whatever order,
      a patch goes out exactly when one of them is at the revision before the deployment's, and it is
      such a one's template, whole but for the hash label; otherwise the rollback is aborted. */
  lemma SendsPredecessor(deployment: map<string, string>, items: seq<ReplicaSet>, accepted: bool, outcome: Outcome)
    requires |items| >= 2 && Answers(Some(deployment), Some(View(items)), accepted, outcome)
    ensures outcome.Sent?
            <==> exists rs <- items :: Precedes(Revision(rs.annotations), Revision(deployment))
    ensures outcome.Sent? ==>
              && outcome.accepted == accepted
              && exists rs <- items ::
                   Precedes(Revision(rs.annotations), Revision(deployment)) && Unhashed(outcome.patch, rs.template)
    ensures !outcome.Sent? ==> outcome.PreviousMissing?
  {
    var (view, target) := (View(items), Previous(Revision(deployment)));
    assert forall n :: -HALF64 <= n < HALF64 ==> (n == target <==> Precedes(n, Revision(deployment)));
    forall r | r in view && Revision(r.annotations) == target
      ensures exists rs <- items ::
                Precedes(Revision(rs.annotations), Revision(deployment)) && Unhashed(r.patch, rs.template)
    {
      var i :| 0 <= i < |view| && view[i] == r;
      ViewShows(items, i);
      assert items[i] in items;
    }
    if rs :| rs in items && Precedes(Revision(rs.annotations), Revision(deployment)) {
      var i :| 0 <= i < |items| && items[i] == rs;
      ViewShows(items, i);
      assert view[i] in view;
    }
  }

  /** The other two errors: no deployment, and no list or fewer than two ReplicaSets on it. */
  lemma RefusedEarly(deployment: Option<map<string, string>>, listed: Option<seq<Revised>>, accepted: bool,
                     outcome: Outcome)
    requires Answers(deployment, listed, accepted, outcome)
    ensures outcome.NoDeployment? <==> deployment.None?
    ensures outcome.NotEnoughHistory? <==> deployment.Some? && (listed.None? || |listed.value| <= 1)
  {
  }

  lemma ViewShows(items: seq<ReplicaSet>, i: nat)
    requires i < |items|
    ensures View(items)[i].annotations == items[i].annotations
    ensures Unhashed(View(items)[i].patch, items[i].template)
  {
  }

  /** No number, or zero: the annotation is absent, is no integer, or says 0. */
  predicate Unnumbered(annotations: map<string, string>)
  {
    || REVISION !in annotations
    || ParseInt(annotations[REVISION], HALF64).err.SyntaxError?
    || ParseInt(annotations[REVISION], HALF64) == Parsed(0, NoError)
  }

  lemma ZeroIsUnnumbered(annotations: map<string, string>)
    ensures Revision(annotations) == 0 <==> Unnumbered(annotations)
  {
  }

  /** A deployment at its first revision has no predecessor; but a revision that is missing or
      unreadable counts as 0, so a patch is sent exactly when some listed ReplicaSet is unnumbered. */
  lemma UnannotatedPredecessor(deployment: map<string, string>, listed: seq<Revised>, accepted: bool,
                               outcome: Outcome)
    requires Answers(Some(deployment), Some(listed), accepted, outcome)
    requires Revision(deployment) == 1 && |listed| >= 2
    ensures outcome.Sent? <==> exists r <- listed :: Unnumbered(r.annotations)
    ensures outcome.Sent? ==> exists r <- listed :: Unnumbered(r.annotations) && outcome.patch == r.patch
    ensures !outcome.Sent? ==> outcome.PreviousMissing?
  {
    forall r | r in listed ensures Revision(r.annotations) == 0 <==> Unnumbered(r.annotations) {
      ZeroIsUnnumbered(r.annotations);
    }
  }

  // ---------- the rollback behind the button ----------

  const TRIGGERED := "kubesolv.io/rollbackTriggeredAt"
  const RESTARTED := "kubesolv.io/restartedAt"

  /** What the two operations that annotate a template make of it. */
  function Annotated(a: Actions.Action, t: Template, stamp: string): Template
    requires a.Rollback? || a.RestartDep?
  {
    t.(annotations := t.annotations[(if a.Rollback? then TRIGGERED else RESTARTED) := stamp])
  }

  /** An approved rollback restores nothing: for every template and time it keeps labels, spec and
      all other annotations, as a restart does. So it agrees with the labels and spec of whatever
      template was meant exactly when the deployment already did, and with the whole of it exactly
      when that also carries the deployment's annotations and this very mark. */
  lemma ButtonRestoresNothing(namespace: string, deployment: string, t: Template, stamp: string, meant: Template)
    ensures var after := Annotated(Actions.Rollback(namespace, deployment), t, stamp);
            var restarted := Annotated(Actions.RestartDep(namespace, deployment), t, stamp);
            && after.labels == t.labels == restarted.labels && after.spec == t.spec == restarted.spec
            && after.annotations - {TRIGGERED} == t.annotations - {TRIGGERED}
            && TRIGGERED in after.annotations
            && ((after.labels, after.spec) == (meant.labels, meant.spec)
                <==> (t.labels, t.spec) == (meant.labels, meant.spec))
            && (after == meant
                <==> && (t.labels, t.spec) == (meant.labels, meant.spec)
                     && meant.annotations - {TRIGGERED} == t.annotations - {TRIGGERED}
                     && TRIGGERED in meant.annotations && meant.annotations[TRIGGERED] == stamp)
  {
    var after := Annotated(Actions.Rollback(namespace, deployment), t, stamp);
    if TRIGGERED in meant.annotations && meant.annotations - {TRIGGERED} == t.annotations - {TRIGGERED} {
      forall k | k in meant.annotations && k != TRIGGERED
        ensures k in t.annotations && t.annotations[k] == meant.annotations[k]
      {
        assert k in meant.annotations - {TRIGGERED};
      }
      forall k | k in t.annotations && k != TRIGGERED ensures k in meant.annotations {
        assert k in t.annotations - {TRIGGERED};
      }
      assert meant.annotations == t.annotations[TRIGGERED := meant.annotations[TRIGGERED]];
    }
  }
}
