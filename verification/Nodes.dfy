/** The node reconciler: its own cooldown cache, one alert per node and issue and half hour, and
    the loop over a node's conditions. */
module Nodes {
  import opened Wrappers
  import opened Rates
  import opened AlertCache
  import Actions

  datatype ConditionType = Ready | MemoryPressure | DiskPressure | PIDPressure | OtherCondition
  datatype Status = True | False | Unknown
  datatype Condition = Condition(kind: ConditionType, status: Status)

  /** The issue a condition raises, if any. */
  function Issue(c: Condition): (issue: Option<string>)
    ensures issue.Some? ==> forall ch <- issue.value :: ch != '/'
  {
    if c.kind.Ready? && !c.status.True? then Some("Node Not Ready")
    else if c.kind.MemoryPressure? && c.status.True? then Some("MemoryPressure")
    else if c.kind.DiskPressure? && c.status.True? then Some("DiskPressure")
    else if c.kind.PIDPressure? && c.status.True? then Some("PIDPressure")
    else None
  }

  /** Which condition raises which issue: a node that is not known to be ready, and the three
      pressures when they are known to be on. */
  lemma IssueExact(c: Condition)
    ensures Issue(c) == Some("Node Not Ready") <==> c.kind == Ready && (c.status == False || c.status == Unknown)
    ensures Issue(c) == Some("MemoryPressure") <==> c == Condition(MemoryPressure, True)
    ensures Issue(c) == Some("DiskPressure") <==> c == Condition(DiskPressure, True)
    ensures Issue(c) == Some("PIDPressure") <==> c == Condition(PIDPressure, True)
    ensures Issue(c).Some? ==> Issue(c).value in {"Node Not Ready", "MemoryPressure", "DiskPressure", "PIDPressure"}
  {
    assert "Node Not Ready"[0] == 'N' && "MemoryPressure"[0] == 'M' && "DiskPressure"[0] == 'D'
        && "PIDPressure"[0] == 'P';
  }

  class NodeReconciler {
    var alertCache: map<string, int>
    var clock: int
    ghost var ops: seq<Op>

    ghost predicate Valid()
      reads this
    {
      Legal(ops) && Agrees(alertCache, ops)
    }

    constructor ()
      ensures Valid() && ops == []
    {
      alertCache, clock, ops := map[], 0, [];
    }

    method Now() returns (t: int)
      modifies this`clock
      ensures t == clock >= old(clock)
    {
      var elapsed: int :| elapsed >= 0;
      clock := clock + elapsed;
      t := clock;
    }

    /** alertNode: the button's id when an alert goes out. */
    method AlertNode(node: string, issue: string) returns (button: Option<string>)
      requires Valid() && Clean(Node(node, issue))
      modifies this
      ensures Valid() && clock >= old(clock)
      ensures button == if Open(Node(node, issue), Last(old(ops), Node(node, issue)), clock)
                        then Some(Actions.NodeAlertId(node)) else None
      ensures ops == old(ops) + if button.Some? then [Passed(Node(node, issue), clock)] else []
    {
      var k := Node(node, issue);
      assert Last(ops, k) == if Render(k) in alertCache then Some(alertCache[Render(k)]) else None;
      if Render(k) in alertCache {
        var now := Now();
        if now - alertCache[Render(k)] < Ttl(k) {
          return None;
        }
      }
      var stored := Now();
      StoreAgrees(alertCache, ops, Passed(k, stored));
      LegalAppend(ops, Passed(k, stored));
      alertCache := alertCache[Render(k) := stored];
      ops := ops + [Passed(k, stored)];
      button := Some("cordon_node|" + node);
    }

    /** Reconcile's loop over the conditions; the instants are the clock after each. */
    method Scan(node: string, conditions: seq<Condition>) returns (buttons: seq<string>, ghost at: seq<int>)
      requires Valid() && '/' !in node
      modifies this
      ensures Valid() && |at| == |conditions| && Within(at, old(clock), clock)
      ensures ops == Scanned(old(ops), node, conditions, at)
      ensures |buttons| == |ops| - |old(ops)| && forall b <- buttons :: b == Actions.NodeAlertId(node)
    {
      buttons, at := [], [];
      for i := 0 to |conditions|
        invariant Valid() && |at| == i && Within(at, old(clock), clock)
        invariant ops == Scanned(old(ops), node, conditions[..i], at)
        invariant |buttons| == |ops| - |old(ops)| && forall b <- buttons :: b == Actions.NodeAlertId(node)
      {
        ghost var mid := clock;
        var issue := Issue(conditions[i]);
        if issue.Some? {
          NodeClean(node, conditions[i]);
          var button := AlertNode(node, issue.value);
          if button.Some? {
            buttons := buttons + [button.value];
          }
        }
        ScanNext(old(ops), node, conditions, at, clock);
        WithinAppend(at, old(clock), mid, clock);
        at := at + [clock];
      }
      assert conditions[..|conditions|] == conditions;
    }

    /** Reconcile: the test label short-circuits to a simulated disk alert. */
    method Reconcile(node: string, testCordon: bool, conditions: seq<Condition>)
      returns (buttons: seq<string>, ghost at: seq<int>)
      requires Valid() && '/' !in node
      modifies this
      ensures Valid() && Within(at, old(clock), clock)
      ensures testCordon ==> |at| == 1 && ops == Scanned(old(ops), node, [Condition(DiskPressure, True)], at)
      ensures !testCordon ==> |at| == |conditions| && ops == Scanned(old(ops), node, conditions, at)
      ensures |buttons| == |ops| - |old(ops)| && forall b <- buttons :: b == Actions.NodeAlertId(node)
    {
      if testCordon {
        buttons, at := Scan(node, [Condition(DiskPressure, True)]);
      } else {
        buttons, at := Scan(node, conditions);
      }
    }
  }

  ghost predicate Within(at: seq<int>, lo: int, hi: int)
  {
    lo <= hi && Sorted(at) && forall t <- at :: lo <= t <= hi
  }

  lemma WithinAppend(at: seq<int>, lo: int, mid: int, hi: int)
    requires Within(at, lo, mid) && mid <= hi
    ensures Within(at + [hi], lo, hi)
  {
    forall i | 0 <= i < |at| ensures at[i] <= mid {
      assert at[i] in at;
    }
  }

  /** The trace after a pass over conditions at the given instants. */
  ghost function Scanned(ops: seq<Op>, node: string, conditions: seq<Condition>, at: seq<int>): seq<Op>
    requires |at| == |conditions|
  {
    if conditions == [] then ops
    else
      var n := |conditions| - 1;
      var before := Scanned(ops, node, conditions[..n], at[..n]);
      match Issue(conditions[n])
      case None => before
      case Some(issue) => Attempted(before, Node(node, issue), at[n])
  }

  lemma ScanNext(ops: seq<Op>, node: string, conditions: seq<Condition>, at: seq<int>, t: int)
    requires |at| < |conditions|
    ensures var before := Scanned(ops, node, conditions[..|at|], at);
            Scanned(ops, node, conditions[..|at| + 1], at + [t])
            == match Issue(conditions[|at|])
               case None => before
               case Some(issue) => Attempted(before, Node(node, issue), t)
  {
    assert conditions[..|at| + 1][..|at|] == conditions[..|at|] && (at + [t])[..|at|] == at;
  }

  /** Every issue among the conditions has been alerted at some time. */
  ghost predicate OnRecord(ops: seq<Op>, node: string, conditions: seq<Condition>)
  {
    forall c <- conditions :: Issue(c).Some? ==> Last(ops, Node(node, Issue(c).value)).Some?
  }

  /** Every operation is an alert of the node for an issue among the conditions. */
  ghost predicate AllRaised(ops: seq<Op>, node: string, conditions: seq<Condition>)
  {
    forall op <- ops :: op.Passed? && exists c <- conditions :: Issue(c).Some? && op.key == Node(node, Issue(c).value)
  }

  /** What a pass means: earlier history stands, whatever is added is an alert for an issue the node
      has, and afterwards each issue it has is on record. */
  lemma {:induction false} PassAlertsIssues(ops: seq<Op>, node: string, conditions: seq<Condition>, at: seq<int>)
    requires |at| == |conditions|
    ensures ops <= Scanned(ops, node, conditions, at)
    ensures AllRaised(Scanned(ops, node, conditions, at)[|ops|..], node, conditions)
    ensures OnRecord(Scanned(ops, node, conditions, at), node, conditions)
  {
    if conditions != [] {
      var n := |conditions| - 1;
      var (earlier, c) := (conditions[..n], conditions[n]);
      var before := Scanned(ops, node, earlier, at[..n]);
      PassAlertsIssues(ops, node, earlier, at[..n]);
      assert conditions == earlier + [c];
      if Issue(c).Some? {
        AttemptRecorded(before, node, earlier, Issue(c).value, at[n]);
        assert c in conditions;
        var after := Attempted(before, Node(node, Issue(c).value), at[n]);
        assert after == before || after[|ops|..] == before[|ops|..] + [Passed(Node(node, Issue(c).value), at[n])];
      }
    }
  }

  /** And no alert that is due is left out: an issue the node has is alerted in the pass if its gate
      was open when the pass began. */
  lemma {:induction false} PassAlertsDue(ops: seq<Op>, node: string, conditions: seq<Condition>, at: seq<int>,
                                         issue: string, lo: int)
    requires |at| == |conditions| && forall t <- at :: lo <= t
    requires Open(Node(node, issue), Last(ops, Node(node, issue)), lo)
    ensures var (after, k) := (Scanned(ops, node, conditions, at), Node(node, issue));
            if exists c <- conditions :: Issue(c) == Some(issue) then |Passes(after, k)| > |Passes(ops, k)|
            else Passes(after, k) == Passes(ops, k)
    ensures var (after, k) := (Scanned(ops, node, conditions, at), Node(node, issue));
            || |Passes(after, k)| > |Passes(ops, k)|
            || (Passes(after, k) == Passes(ops, k) && Last(after, k) == Last(ops, k))
  {
    if conditions != [] {
      var n := |conditions| - 1;
      forall t | t in at[..n] ensures lo <= t { assert t in at; }
      PassAlertsDue(ops, node, conditions[..n], at[..n], issue, lo);
      assert conditions == conditions[..n] + [conditions[n]];
      assert at[n] in at;
      if Issue(conditions[n]).Some? {
        AttemptExact(Scanned(ops, node, conditions[..n], at[..n]), Node(node, Issue(conditions[n]).value), at[n],
                     Node(node, issue));
      }
    }
  }

  lemma AttemptRecorded(ops: seq<Op>, node: string, conditions: seq<Condition>, issue: string, t: int)
    requires OnRecord(ops, node, conditions)
    ensures var after := Attempted(ops, Node(node, issue), t);
            OnRecord(after, node, conditions) && Last(after, Node(node, issue)).Some?
  {
    forall k { LastAppend(ops, Passed(Node(node, issue), t), k); }
  }

  lemma NodeClean(node: string, c: Condition)
    requires '/' !in node && Issue(c).Some?
    ensures Clean(Node(node, Issue(c).value))
  {
    assert Parts(Node(node, Issue(c).value)) == ["node", node, Issue(c).value];
  }
}
