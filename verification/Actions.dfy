/** The action-id language: the strings hidden behind approval buttons, printed by the
    chat tools and the reconciler and decoded by each chat platform's own if-chain. */
module Actions {
  import opened Text
  import opened Wrappers

  datatype Action =
    | PatchMem(namespace: string, deployment: string, container: string, limit: string)
    | Rollback(namespace: string, deployment: string)
    | Cordon(node: string)
    | Uncordon(node: string)
    | Scale(namespace: string, deployment: string, replicas: string)
    | DelPod(namespace: string, pod: string)
    | RestartDep(namespace: string, deployment: string)

  /** The id a button carries, as the producers format it. */
  function ActionId(a: Action): string
  {
    match a
    case PatchMem(ns, dep, con, lim) => "patch_mem|" + ns + "|" + dep + "|" + con + "|" + lim
    case Rollback(ns, dep) => "rollback|" + ns + "|" + dep
    case Cordon(node) => "cordon|" + node
    case Uncordon(node) => "uncordon|" + node
    case Scale(ns, dep, replicas) => "scale|" + ns + "|" + dep + "|" + replicas
    case DelPod(ns, pod) => "del_pod|" + ns + "|" + pod
    case RestartDep(ns, dep) => "restart_dep|" + ns + "|" + dep
  }

  /** The chat tools' arguments: an argument that is missing or not a string reads as "". */
  function Arg(args: map<string, string>, name: string): (arg: string)
    ensures name in args ==> arg == args[name]
    ensures name !in args ==> arg == ""
  {
    if name in args then args[name] else ""
  }

  /** The operation a chat tool call proposes, in both bots; other tools only read. */
  function ToolProposal(tool: string, args: map<string, string>): Option<Action>
  {
    var ns, dep := Arg(args, "namespace"), Arg(args, "deployment_name");
    if tool == "scale_deployment" then Some(Scale(ns, dep, Arg(args, "replicas")))
    else if tool == "delete_pod" then Some(DelPod(ns, Arg(args, "pod_name")))
    else if tool == "restart_deployment" then Some(RestartDep(ns, dep))
    else if tool == "cordon_node" then Some(Cordon(Arg(args, "node_name")))
    else if tool == "uncordon_node" then Some(Uncordon(Arg(args, "node_name")))
    else None
  }

  /** The Telegram handler's dispatch. */
  function TelegramDecode(id: string): Option<Action>
  {
    var parts := Split(id, '|');
    if |parts| == 5 && parts[0] == "patch_mem" then Some(PatchMem(parts[1], parts[2], parts[3], parts[4]))
    else if |parts| == 3 && parts[0] == "rollback" then Some(Rollback(parts[1], parts[2]))
    else if |parts| == 2 && parts[0] == "cordon" then Some(Cordon(parts[1]))
    else if |parts| == 2 && parts[0] == "uncordon" then Some(Uncordon(parts[1]))
    else if |parts| == 4 && parts[0] == "scale" then Some(Scale(parts[1], parts[2], parts[3]))
    else if |parts| == 3 && parts[0] == "del_pod" then Some(DelPod(parts[1], parts[2]))
    else if |parts| == 3 && parts[0] == "restart_dep" then Some(RestartDep(parts[1], parts[2]))
    else None
  }

  /** The Slack handler's dispatch, written separately in the source. */
  function SlackDecode(id: string): Option<Action>
  {
    var parts := Split(id, '|');
    if |parts| == 5 && parts[0] == "patch_mem" then Some(PatchMem(parts[1], parts[2], parts[3], parts[4]))
    else if |parts| == 3 && parts[0] == "rollback" then Some(Rollback(parts[1], parts[2]))
    else if |parts| == 2 && parts[0] == "cordon" then Some(Cordon(parts[1]))
    else if |parts| == 2 && parts[0] == "uncordon" then Some(Uncordon(parts[1]))
    else if |parts| == 4 && parts[0] == "scale" then Some(Scale(parts[1], parts[2], parts[3]))
    else if |parts| == 3 && parts[0] == "del_pod" then Some(DelPod(parts[1], parts[2]))
    else if |parts| == 3 && parts[0] == "restart_dep" then Some(RestartDep(parts[1], parts[2]))
    else None
  }

  // ---------- the id as a list of parts ----------

  function Parts(a: Action): (parts: seq<string>)
    ensures 2 <= |parts| <= 5
    ensures '|' !in parts[0]
  {
    match a
    case PatchMem(ns, dep, con, lim) => ["patch_mem", ns, dep, con, lim]
    case Rollback(ns, dep) => ["rollback", ns, dep]
    case Cordon(node) => ["cordon", node]
    case Uncordon(node) => ["uncordon", node]
    case Scale(ns, dep, replicas) => ["scale", ns, dep, replicas]
    case DelPod(ns, pod) => ["del_pod", ns, pod]
    case RestartDep(ns, dep) => ["restart_dep", ns, dep]
  }

  /** No field of the action holds the separator. */
  predicate BarFree(a: Action)
  {
    forall p <- Parts(a) :: '|' !in p
  }

  lemma Join2(a: string, b: string)
    ensures Join([a, b], '|') == a + "|" + b
  {
    assert [a, b][1..] == [b];
  }

  lemma Join3(a: string, b: string, c: string)
    ensures Join([a, b, c], '|') == a + "|" + b + "|" + c
  {
    assert [a, b, c][1..] == [b, c];
    Join2(b, c);
  }

  lemma Join4(a: string, b: string, c: string, d: string)
    ensures Join([a, b, c, d], '|') == a + "|" + b + "|" + c + "|" + d
  {
    assert [a, b, c, d][1..] == [b, c, d];
    Join3(b, c, d);
  }

  lemma Join5(a: string, b: string, c: string, d: string, e: string)
    ensures Join([a, b, c, d, e], '|') == a + "|" + b + "|" + c + "|" + d + "|" + e
  {
    assert [a, b, c, d, e][1..] == [b, c, d, e];
    Join4(b, c, d, e);
  }

  lemma ActionIdIsJoin(a: Action)
    ensures ActionId(a) == Join(Parts(a), '|')
  {
    match a
    case PatchMem(ns, dep, con, lim) =>
      Join5("patch_mem", ns, dep, con, lim);
      assert "patch_mem" + "|" == "patch_mem|";
    case Rollback(ns, dep) =>
      Join3("rollback", ns, dep);
      assert "rollback" + "|" == "rollback|";
    case Cordon(node) =>
      Join2("cordon", node);
      assert "cordon" + "|" == "cordon|";
    case Uncordon(node) =>
      Join2("uncordon", node);
      assert "uncordon" + "|" == "uncordon|";
    case Scale(ns, dep, replicas) =>
      Join4("scale", ns, dep, replicas);
      assert "scale" + "|" == "scale|";
    case DelPod(ns, pod) =>
      Join3("del_pod", ns, pod);
      assert "del_pod" + "|" == "del_pod|";
    case RestartDep(ns, dep) =>
      Join3("restart_dep", ns, dep);
      assert "restart_dep" + "|" == "restart_dep|";
  }

  /** An id splits into its parts if no field holds the separator, into more parts otherwise,
      and always starts with its keyword. */
  lemma SplitActionId(a: Action)
    ensures BarFree(a) ==> Split(ActionId(a), '|') == Parts(a)
    ensures !BarFree(a) ==> |Split(ActionId(a), '|')| > |Parts(a)|
    ensures Split(ActionId(a), '|')[0] == Parts(a)[0]
  {
    ActionIdIsJoin(a);
    SplitJoinCount(Parts(a), '|');
    if BarFree(a) {
      SplitJoin(Parts(a), '|');
    }
    SplitFree(Parts(a)[0], '|');
    SplitConcat(Parts(a)[0], Join(Parts(a)[1..], '|'), '|');
  }

  // ---------- main results ----------

  /** For all field strings, bars included: an id decodes to exactly the action it was printed
      from when no field holds a bar, and to nothing otherwise -- never to another operation. */
  lemma NoConfusion(a: Action)
    ensures TelegramDecode(ActionId(a)) == if BarFree(a) then Some(a) else None
    ensures SlackDecode(ActionId(a)) == if BarFree(a) then Some(a) else None
  {
    SplitActionId(a);
  }

  /** What a dispatcher selects carries the very parts it read. */
  lemma DecodedParts(id: string)
    ensures TelegramDecode(id) == SlackDecode(id)
    ensures TelegramDecode(id).Some? ==> Parts(TelegramDecode(id).value) == Split(id, '|')
  {
  }

  /** Both platforms select the same operation with the same arguments on every string, and
      an operation is selected only by its own id. */
  lemma DecodersAgree(id: string)
    ensures TelegramDecode(id) == SlackDecode(id)
    ensures TelegramDecode(id).Some? ==>
              ActionId(TelegramDecode(id).value) == id && BarFree(TelegramDecode(id).value)
  {
    DecodedParts(id);
    SplitPieces(id, '|');
    JoinSplit(id, '|');
    if TelegramDecode(id).Some? {
      ActionIdIsJoin(TelegramDecode(id).value);
    }
  }

  /** Claiming an id claims one operation: bar-free actions share an id only when equal. */
  lemma ActionIdInjective(a: Action, b: Action)
    requires BarFree(a)
    ensures ActionId(a) == ActionId(b) && BarFree(b) <==> a == b
  {
    NoConfusion(a);
    NoConfusion(b);
  }

  /** With bars in the fields two different operations can print the same id; it decodes to nothing. */
  lemma BarsCollide()
    ensures ActionId(Rollback("a|b", "c")) == ActionId(Rollback("a", "b|c"))
    ensures TelegramDecode(ActionId(Rollback("a|b", "c"))) == None
  {
    var a := Rollback("a|b", "c");
    assert ActionId(a) == "rollback|a|b|c";
    assert '|' in Parts(a)[1];
    NoConfusion(a);
  }

  /** The argument values a tool's operation depends on. */
  function Given(tool: string, args: map<string, string>): seq<string>
  {
    var (ns, dep) := (Arg(args, "namespace"), Arg(args, "deployment_name"));
    if tool == "scale_deployment" then [ns, dep, Arg(args, "replicas")]
    else if tool == "delete_pod" then [ns, Arg(args, "pod_name")]
    else if tool == "restart_deployment" then [ns, dep]
    else if tool == "cordon_node" || tool == "uncordon_node" then [Arg(args, "node_name")]
    else []
  }

  /** The keyword a tool's button carries. */
  function Keyword(tool: string): string
  {
    if tool == "scale_deployment" then "scale" else if tool == "delete_pod" then "del_pod"
    else if tool == "restart_deployment" then "restart_dep" else if tool == "cordon_node" then "cordon" else "uncordon"
  }

  /** Pressing the button of a chat tool call, on either platform, runs the operation of that tool
      on exactly the arguments the call gave if none of them holds a bar, and nothing otherwise. Two
      calls whose buttons do the same thing were calls of one tool with the same arguments. */
  lemma ToolButtonFaithful(tool: string, args: map<string, string>, tool': string, args': map<string, string>)
    requires ToolProposal(tool, args).Some? && ToolProposal(tool', args').Some?
    ensures var d := TelegramDecode(ActionId(ToolProposal(tool, args).value));
            var d' := TelegramDecode(ActionId(ToolProposal(tool', args').value));
            && d == SlackDecode(ActionId(ToolProposal(tool, args).value))
            && (d.Some? <==> forall v <- Given(tool, args) :: '|' !in v)
            && (d.Some? ==> Parts(d.value) == [Keyword(tool)] + Given(tool, args))
            && (d.Some? && d == d' ==> tool == tool' && Given(tool, args) == Given(tool', args'))
  {
    ToolParts(tool, args);
    ToolParts(tool', args');
    var (a, a') := (ToolProposal(tool, args).value, ToolProposal(tool', args').value);
    NoConfusion(a);
    NoConfusion(a');
    BarFreeFields(a, Keyword(tool), Given(tool, args));
    if TelegramDecode(ActionId(a)).Some? && TelegramDecode(ActionId(a)) == TelegramDecode(ActionId(a')) {
      assert a == a';
      assert Parts(a)[1..] == Given(tool, args) && Parts(a')[1..] == Given(tool', args');
      assert Keyword(tool) == Parts(a)[0] == Keyword(tool');
      KeywordInjective(tool, args, tool', args');
    }
  }

  lemma KeywordInjective(tool: string, args: map<string, string>, tool': string, args': map<string, string>)
    requires ToolProposal(tool, args).Some? && ToolProposal(tool', args').Some? && Keyword(tool) == Keyword(tool')
    ensures tool == tool'
  {
    assert "scale"[0] == 's' && "del_pod"[0] == 'd' && "restart_dep"[0] == 'r' && "cordon"[0] == 'c'
        && "uncordon"[0] == 'u';
  }

  lemma ToolParts(tool: string, args: map<string, string>)
    requires ToolProposal(tool, args).Some?
    ensures Parts(ToolProposal(tool, args).value) == [Keyword(tool)] + Given(tool, args)
  {
  }

  lemma BarFreeFields(a: Action, keyword: string, fields: seq<string>)
    requires Parts(a) == [keyword] + fields
    ensures BarFree(a) <==> forall v <- fields :: '|' !in v
  {
    assert Parts(a)[0] == keyword;
    forall v | v in fields ensures v in Parts(a) {}
  }

  /** The id under a node alert's button. */
  function NodeAlertId(node: string): string
  {
    "cordon_node|" + node
  }

  /** A node alert's button does nothing on either platform, whatever the node is called:
      no dispatcher knows the keyword it prints. */
  lemma NodeAlertInert(node: string)
    ensures TelegramDecode(NodeAlertId(node)) == None && SlackDecode(NodeAlertId(node)) == None
  {
    var keyword := "cordon_node";
    assert NodeAlertId(node) == keyword + ['|'] + node;
    SplitFree(keyword, '|');
    SplitConcat(keyword, node, '|');
    assert Split(NodeAlertId(node), '|')[0] == keyword;
    assert |keyword| == 11 && keyword[6] == '_';
  }
}
