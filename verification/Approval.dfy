/** First approver wins: any number of Telegram button presses, each split at the
    authorisation check, the LoadOrStore claim and the dispatch, interleaved with one another,
    with changes of the team and with Slack presses, which never consult the claims. */
module Approval {
  import opened Wrappers
  import opened Subscribers
  import opened Actions

  datatype Verdict = Refused | AlreadyExecuted | Dispatched(action: Option<Action>)

  /** How far a press has come. */
  datatype Phase = Arrived | Checked | Claimed | Done(verdict: Verdict)

  /** A press and, once it has passed the check, what the check found. */
  datatype Press = Press(id: string, chat: ChatID, phase: Phase, authorised: bool)

  /** A mutation the dispatchers asked the cluster for, and who asked. */
  datatype Via = ViaTelegram(press: nat) | ViaSlack
  datatype Mutation = Mutation(via: Via, id: string, action: Action)

  datatype System = System(
    admin: ChatID, members: set<ChatID>, executed: set<string>, presses: seq<Press>, log: seq<Mutation>)

  datatype Event =
    | Arrive(id: string, chat: ChatID)
    | Check(p: nat)
    | Claim(p: nat)
    | Dispatch(p: nat)
    | SlackPress(id: string)
    | Membership(members: set<ChatID>)

  predicate Enabled(s: System, e: Event)
  {
    match e
    case Check(p) => p < |s.presses| && s.presses[p].phase == Arrived
    case Claim(p) => p < |s.presses| && s.presses[p].phase == Checked
    case Dispatch(p) => p < |s.presses| && s.presses[p].phase == Claimed
    case _ => true
  }

  function At(s: System, p: nat, phase: Phase): System
    requires p < |s.presses|
  {
    s.(presses := s.presses[p := s.presses[p].(phase := phase)])
  }

  function Record(decoded: Option<Action>, via: Via, id: string): seq<Mutation>
  {
    if decoded.Some? then [Mutation(via, id, decoded.value)] else []
  }

  function Step(s: System, e: Event): System
    requires Enabled(s, e)
  {
    match e
    case Arrive(id, chat) => s.(presses := s.presses + [Press(id, chat, Arrived, false)])
    case Check(p) =>
      var authorised := s.presses[p].chat == s.admin || s.presses[p].chat in s.members;
      s.(presses := s.presses[p := s.presses[p].(phase := if authorised then Checked else Done(Refused),
                                                 authorised := authorised)])
    case Claim(p) =>
      var id := s.presses[p].id;
      if id in s.executed then At(s, p, Done(AlreadyExecuted))
      else At(s, p, Claimed).(executed := s.executed + {id})
    case Dispatch(p) =>
      var decoded := TelegramDecode(s.presses[p].id);
      At(s, p, Done(Dispatched(decoded))).(log := s.log + Record(decoded, ViaTelegram(p), s.presses[p].id))
    case SlackPress(id) => s.(log := s.log + Record(SlackDecode(id), ViaSlack, id))
    case Membership(members) => s.(members := members)
  }

  function Start(admin: ChatID, members: set<ChatID>): System
  {
    System(admin, members, {}, [], [])
  }

  function Run(s: System, es: seq<Event>): System
    requires Legal(s, es)
    decreases es
  {
    if es == [] then s else Run(Step(s, es[0]), es[1..])
  }

  predicate Legal(s: System, es: seq<Event>)
    decreases es
  {
    es != [] ==> Enabled(s, es[0]) && Legal(Step(s, es[0]), es[1..])
  }

  // ---------- the invariant ----------

  /** The press that made the claim on its id. */
  predicate Holds(p: Press)
  {
    p.phase == Claimed || (p.phase.Done? && p.phase.verdict.Dispatched?)
  }

  /** A press's own story is consistent with the claims. */
  predicate PressOk(p: Press, executed: set<string>)
  {
    && (p.phase == Arrived || p.phase == Done(Refused) ==> !p.authorised)
    && (p.phase != Arrived && p.phase != Done(Refused) ==> p.authorised)
    && (Holds(p) || p.phase == Done(AlreadyExecuted) ==> p.id in executed)
  }

  ghost predicate ClaimsOk(presses: seq<Press>, executed: set<string>)
  {
    && (forall p :: 0 <= p < |presses| ==> PressOk(presses[p], executed))
    && (forall p, q :: 0 <= p < q < |presses| && Holds(presses[p]) && Holds(presses[q]) ==>
          presses[p].id != presses[q].id)
    && (forall id <- executed :: exists p :: 0 <= p < |presses| && presses[p].id == id && Holds(presses[p]))
  }

  /** Every Telegram entry of the log is the dispatch of a press that holds its claim. */
  ghost predicate LogOk(presses: seq<Press>, log: seq<Mutation>)
  {
    && (forall i :: 0 <= i < |log| && log[i].via.ViaTelegram? ==>
          && log[i].via.press < |presses|
          && presses[log[i].via.press].id == log[i].id
          && presses[log[i].via.press].phase == Done(Dispatched(Some(log[i].action)))
          && TelegramDecode(log[i].id) == Some(log[i].action))
    && (forall i, j :: 0 <= i < j < |log| && log[i].via.ViaTelegram? && log[j].via.ViaTelegram? ==>
          log[i].via.press != log[j].via.press)
  }

  ghost predicate Inv(s: System)
  {
    ClaimsOk(s.presses, s.executed) && LogOk(s.presses, s.log)
  }

  /** Moving one press on without making it a new holder keeps the claims in order. */
  lemma MoveKeepsClaims(presses: seq<Press>, executed: set<string>, p: nat, moved: Press)
    requires ClaimsOk(presses, executed) && p < |presses|
    requires moved.id == presses[p].id && Holds(moved) == Holds(presses[p]) && PressOk(moved, executed)
    ensures ClaimsOk(presses[p := moved], executed)
  {
    var presses' := presses[p := moved];
    forall id | id in executed
      ensures exists q :: 0 <= q < |presses'| && presses'[q].id == id && Holds(presses'[q])
    {
      var q :| 0 <= q < |presses| && presses[q].id == id && Holds(presses[q]);
      assert presses'[q].id == id && Holds(presses'[q]);
    }
  }

  lemma ClaimKeepsClaims(presses: seq<Press>, executed: set<string>, p: nat)
    requires ClaimsOk(presses, executed) && p < |presses|
    requires presses[p].phase == Checked && presses[p].id !in executed
    ensures ClaimsOk(presses[p := presses[p].(phase := Claimed)], executed + {presses[p].id})
  {
    var presses' := presses[p := presses[p].(phase := Claimed)];
    forall id | id in executed + {presses[p].id}
      ensures exists q :: 0 <= q < |presses'| && presses'[q].id == id && Holds(presses'[q])
    {
      if id == presses[p].id {
        assert Holds(presses'[p]);
      } else {
        var q :| 0 <= q < |presses| && presses[q].id == id && Holds(presses[q]);
        assert presses'[q].id == id && Holds(presses'[q]);
      }
    }
    forall q | 0 <= q < |presses'| ensures PressOk(presses'[q], executed + {presses[p].id}) {
      assert PressOk(presses[q], executed);
    }
  }

  lemma StepKeepsClaims(s: System, e: Event)
    requires ClaimsOk(s.presses, s.executed) && Enabled(s, e)
    ensures var s' := Step(s, e); ClaimsOk(s'.presses, s'.executed)
  {
    var s' := Step(s, e);
    match e
    case Arrive(id, chat) =>
      forall i | i in s'.executed
        ensures exists q :: 0 <= q < |s'.presses| && s'.presses[q].id == i && Holds(s'.presses[q])
      {
        var q :| 0 <= q < |s.presses| && s.presses[q].id == i && Holds(s.presses[q]);
        assert s'.presses[q].id == i && Holds(s'.presses[q]);
      }
    case Check(p) => MoveKeepsClaims(s.presses, s.executed, p, s'.presses[p]);
    case Claim(p) =>
      assert PressOk(s.presses[p], s.executed);
      if s.presses[p].id in s.executed {
        MoveKeepsClaims(s.presses, s.executed, p, s'.presses[p]);
      } else {
        ClaimKeepsClaims(s.presses, s.executed, p);
      }
    case Dispatch(p) =>
      assert PressOk(s.presses[p], s.executed);
      MoveKeepsClaims(s.presses, s.executed, p, s'.presses[p]);
    case SlackPress(_) =>
    case Membership(_) =>
  }

  lemma DispatchKeepsLog(s: System, p: nat)
    requires LogOk(s.presses, s.log) && Enabled(s, Dispatch(p))
    ensures var s' := Step(s, Dispatch(p)); LogOk(s'.presses, s'.log)
  {
    var s' := Step(s, Dispatch(p));
    forall i | 0 <= i < |s.log| && s.log[i].via.ViaTelegram?
      ensures s.log[i].via.press != p && s'.presses[s.log[i].via.press] == s.presses[s.log[i].via.press]
    {
    }
  }

  lemma StepKeepsLog(s: System, e: Event)
    requires LogOk(s.presses, s.log) && Enabled(s, e)
    ensures var s' := Step(s, e); LogOk(s'.presses, s'.log)
  {
    match e
    case Arrive(_, _) =>
    case Check(_) =>
    case Claim(_) =>
    case Dispatch(p) => DispatchKeepsLog(s, p);
    case SlackPress(_) =>
    case Membership(_) =>
  }

  lemma {:induction false} RunKeepsInv(s: System, es: seq<Event>)
    requires Inv(s) && Legal(s, es)
    ensures Inv(Run(s, es))
    decreases es
  {
    if es != [] {
      StepKeepsClaims(s, es[0]);
      StepKeepsLog(s, es[0]);
      RunKeepsInv(Step(s, es[0]), es[1..]);
    }
  }

  /** A press keeps its id and chat; what its check found stands; a verdict stands; and once it
      holds its claim it holds it for ever. */
  predicate Follows(later: Press, earlier: Press)
  {
    && later.id == earlier.id && later.chat == earlier.chat
    && (earlier.phase != Arrived ==> later.phase != Arrived && later.authorised == earlier.authorised)
    && (earlier.phase.Done? ==> later.phase == earlier.phase)
    && (Holds(earlier) ==> Holds(later))
  }

  lemma {:induction false} RunFollows(s: System, es: seq<Event>)
    requires Legal(s, es)
    ensures var e := Run(s, es);
            && |s.presses| <= |e.presses| && e.admin == s.admin && s.executed <= e.executed
            && forall p :: 0 <= p < |s.presses| ==> Follows(e.presses[p], s.presses[p])
    decreases es
  {
    if es != [] {
      RunFollows(Step(s, es[0]), es[1..]);
      var e := Run(s, es);
      forall p | 0 <= p < |s.presses| ensures Follows(e.presses[p], s.presses[p]) {
        assert Follows(Step(s, es[0]).presses[p], s.presses[p]);
      }
    }
  }

  lemma {:induction false} RunSplit(s: System, es: seq<Event>, k: nat)
    requires Legal(s, es) && k <= |es|
    ensures Legal(s, es[..k]) && Legal(Run(s, es[..k]), es[k..])
    ensures Run(s, es) == Run(Run(s, es[..k]), es[k..])
    decreases es
  {
    if k > 0 {
      RunSplit(Step(s, es[0]), es[1..], k - 1);
      assert es[..k][1..] == es[1..][..k - 1] && es[k..] == es[1..][k - 1..];
    } else {
      assert es[..k] == [] && es[k..] == es;
    }
  }

  // ---------- the schedule's own account ----------

  /** The team after a schedule: what the latest change of it said. */
  ghost function TeamAfter(members: set<ChatID>, es: seq<Event>): set<ChatID>
    decreases es
  {
    if es == [] then members
    else TeamAfter(if es[0].Membership? then es[0].members else members, es[1..])
  }

  /** The presses of a schedule, in the order they arrive. */
  ghost function Arrivals(es: seq<Event>): seq<(string, ChatID)>
  {
    if es == [] then []
    else (if es[0].Arrive? then [(es[0].id, es[0].chat)] else []) + Arrivals(es[1..])
  }

  ghost function Pressed(presses: seq<Press>): seq<(string, ChatID)>
  {
    seq(|presses|, p requires 0 <= p < |presses| => (presses[p].id, presses[p].chat))
  }

  lemma {:induction false} RunAccount(s: System, es: seq<Event>)
    requires Legal(s, es)
    ensures Run(s, es).members == TeamAfter(s.members, es)
    ensures Pressed(Run(s, es).presses) == Pressed(s.presses) + Arrivals(es)
    decreases es
  {
    if es != [] {
      var s' := Step(s, es[0]);
      RunAccount(s', es[1..]);
      assert Pressed(s'.presses) == Pressed(s.presses) + if es[0].Arrive? then [(es[0].id, es[0].chat)] else [];
    }
  }

  /** The k-th event checks press p, whose presser was then the admin or on the team. */
  ghost predicate ChecksMember(admin: ChatID, members: set<ChatID>, es: seq<Event>, p: nat, k: nat)
  {
    && k < |es| && es[k] == Check(p)
    && p < |Arrivals(es)|
    && (Arrivals(es)[p].1 == admin || Arrivals(es)[p].1 in TeamAfter(members, es[..k]))
  }

  /** A press that ends up authorised, and did not start so, was checked on the way. */
  lemma {:induction false} AuthorisedMeansChecked(s: System, es: seq<Event>, p: nat) returns (k: nat)
    requires Legal(s, es)
    requires p < |s.presses| ==> !s.presses[p].authorised
    requires p < |Run(s, es).presses| && Run(s, es).presses[p].authorised
    ensures k < |es| && es[k] == Check(p)
    decreases es
  {
    var s' := Step(s, es[0]);
    if p < |s'.presses| && s'.presses[p].authorised {
      k := 0;
    } else {
      var later := AuthorisedMeansChecked(s', es[1..], p);
      k := later + 1;
    }
  }

  // ---------- main results ----------

  /** The check decides, on the team of that very moment: a press that gets checked is authorised if
      and only if its presser is the admin or on the team then, and refused for good otherwise. */
  lemma {:induction false} CheckDecides(admin: ChatID, members: set<ChatID>, es: seq<Event>, p: nat, k: nat)
    requires Legal(Start(admin, members), es) && k < |es| && es[k] == Check(p)
    ensures var presses := Run(Start(admin, members), es).presses;
            && p < |presses| && Pressed(presses) == Arrivals(es)
            && (presses[p].authorised <==> ChecksMember(admin, members, es, p, k))
            && (presses[p].phase == Done(Refused) <==> !ChecksMember(admin, members, es, p, k))
  {
    var start := Start(admin, members);
    RunSplit(start, es, k);
    var before := Run(start, es[..k]);
    RunAccount(start, es[..k]);
    RunFollows(start, es[..k]);
    RunAccount(start, es);
    var after := Step(before, es[k]);
    assert es[k..][0] == es[k];
    RunFollows(after, es[k..][1..]);
    var presses := Run(start, es).presses;
    assert Follows(presses[p], after.presses[p]);
    assert Pressed(presses) == Arrivals(es) && Pressed(presses)[p] == (presses[p].id, presses[p].chat);
    RunKeepsInv(start, es);
    assert PressOk(presses[p], Run(start, es).executed);
  }

  /** A Telegram entry is what its id decodes to, of a press whose presser was the admin or on the
      team at the event that checked it. */
  ghost predicate Vetted(admin: ChatID, members: set<ChatID>, es: seq<Event>, m: Mutation)
  {
    m.via.ViaTelegram? ==>
      && TelegramDecode(m.id) == Some(m.action)
      && m.via.press < |Arrivals(es)| && Arrivals(es)[m.via.press].0 == m.id
      && exists k :: ChecksMember(admin, members, es, m.via.press, k)
  }

  /** In every interleaving: the mutations driven from Telegram never hold the same id twice,
      each is what its id decodes to, and each presser was the admin or on the team at the event
      that checked the press. */
  lemma {:induction false} AtMostOnce(admin: ChatID, members: set<ChatID>, es: seq<Event>)
    requires Legal(Start(admin, members), es)
    ensures var log := Run(Start(admin, members), es).log;
            && (forall i, j :: 0 <= i < j < |log| && log[i].via.ViaTelegram? && log[j].via.ViaTelegram? ==>
                  log[i].id != log[j].id)
            && (forall m <- log :: Vetted(admin, members, es, m))
  {
    RunKeepsInv(Start(admin, members), es);
    RunAccount(Start(admin, members), es);
    var e := Run(Start(admin, members), es);
    forall m | m in e.log ensures Vetted(admin, members, es, m) {
      if m.via.ViaTelegram? {
        var p := m.via.press;
        assert PressOk(e.presses[p], e.executed);
        var k := AuthorisedMeansChecked(Start(admin, members), es, p);
        CheckDecides(admin, members, es, p, k);
        assert Pressed(e.presses)[p] == (e.presses[p].id, e.presses[p].chat);
      }
    }
  }

  /** Whatever runs, from either platform, is exactly the operation its id was printed from. */
  lemma {:induction false} RunsWhatItSays(s: System, es: seq<Event>)
    requires Legal(s, es) && forall m <- s.log :: ActionId(m.action) == m.id && BarFree(m.action)
    ensures forall m <- Run(s, es).log :: ActionId(m.action) == m.id && BarFree(m.action)
    decreases es
  {
    if es != [] {
      match es[0] {
        case SlackPress(id) => DecodersAgree(id);
        case Dispatch(p) => DecodersAgree(s.presses[p].id);
        case _ =>
      }
      RunsWhatItSays(Step(s, es[0]), es[1..]);
    }
  }

  /** Claims are never given up: once an id has been claimed, no later press of it can ever run,
      although the reconciler may print the same id again for a new incident. */
  lemma {:induction false} LaterOffersDead(admin: ChatID, members: set<ChatID>, es: seq<Event>, more: seq<Event>,
                                           p: nat)
    requires Legal(Start(admin, members), es)
    requires Legal(Run(Start(admin, members), es), more)
    requires var s := Run(Start(admin, members), es);
             var e := Run(s, more);
             |s.presses| <= p < |e.presses| && e.presses[p].id in s.executed
    ensures var e := Run(Run(Start(admin, members), es), more);
            && !Holds(e.presses[p])
            && forall i :: 0 <= i < |e.log| ==> e.log[i].via != ViaTelegram(p)
  {
    var s := Run(Start(admin, members), es);
    var e := Run(s, more);
    RunKeepsInv(Start(admin, members), es);
    RunKeepsInv(s, more);
    RunFollows(s, more);
    var q :| 0 <= q < |s.presses| && s.presses[q].id == e.presses[p].id && Holds(s.presses[q]);
    assert Follows(e.presses[q], s.presses[q]);
  }

  /** If winner won the id, the other press of it was turned away or told it came too late. */
  predicate TooLate(other: Press, winner: Press, id: string)
  {
    other.id == id == winner.id && other.authorised && Holds(winner) ==> other.phase == Done(AlreadyExecuted)
  }

  /** When every press has been answered, an id has exactly one winner if anyone authorised
      pressed it and none otherwise: an unauthorised press never consumes the claim, and every
      authorised press but the winner's is told it came too late. */
  lemma {:induction false} ExactlyOneWinner(admin: ChatID, members: set<ChatID>, es: seq<Event>, id: string)
    requires Legal(Start(admin, members), es)
    requires forall p <- Run(Start(admin, members), es).presses :: p.phase.Done?
    ensures var ps := Run(Start(admin, members), es).presses;
            && ((exists p :: 0 <= p < |ps| && ps[p].id == id && ps[p].authorised)
                <==> exists w :: 0 <= w < |ps| && ps[w].id == id && ps[w].phase == Done(Dispatched(TelegramDecode(id))))
            && (forall p, w :: 0 <= p < |ps| && 0 <= w < |ps| && p != w ==> TooLate(ps[p], ps[w], id))
  {
    RunKeepsInv(Start(admin, members), es);
    RunKeepsVerdicts(Start(admin, members), es);
    var e := Run(Start(admin, members), es);
    var ps := e.presses;
    forall p | 0 <= p < |ps| ensures ps[p].phase.Done? && PressOk(ps[p], e.executed) {
      assert ps[p] in ps;
    }
    if p :| 0 <= p < |ps| && ps[p].id == id && ps[p].authorised {
      assert id in e.executed;
      var w :| 0 <= w < |ps| && ps[w].id == id && Holds(ps[w]);
      assert ps[w].phase == Done(Dispatched(TelegramDecode(id)));
    }
  }

  ghost predicate VerdictsFollowIds(presses: seq<Press>)
  {
    forall p :: 0 <= p < |presses| && presses[p].phase.Done? && presses[p].phase.verdict.Dispatched? ==>
      presses[p].phase.verdict.action == TelegramDecode(presses[p].id)
  }

  lemma {:induction false} RunKeepsVerdicts(s: System, es: seq<Event>)
    requires VerdictsFollowIds(s.presses) && Legal(s, es)
    ensures VerdictsFollowIds(Run(s, es).presses)
    decreases es
  {
    if es != [] {
      RunKeepsVerdicts(Step(s, es[0]), es[1..]);
    }
  }

  // ---------- how often an id runs ----------

  predicate RunsId(m: Mutation, id: string, slack: bool)
  {
    m.id == id && m.via.ViaSlack? == slack
  }

  /** How often the log runs the id from one of the platforms. */
  ghost function Runs(log: seq<Mutation>, id: string, slack: bool): nat
  {
    if log == [] then 0
    else Runs(log[..|log| - 1], id, slack) + if RunsId(log[|log| - 1], id, slack) then 1 else 0
  }

  ghost function SlackPresses(es: seq<Event>, id: string): nat
  {
    if es == [] then 0 else (if es[0] == SlackPress(id) then 1 else 0) + SlackPresses(es[1..], id)
  }

  lemma RunsAppend(log: seq<Mutation>, more: seq<Mutation>, id: string, slack: bool)
    requires |more| <= 1
    ensures Runs(log + more, id, slack)
            == Runs(log, id, slack) + if more != [] && RunsId(more[0], id, slack) then 1 else 0
  {
    if more == [] {
      assert log + more == log;
    } else {
      assert (log + more)[..|log|] == log;
    }
  }

  lemma {:induction false} SlackCount(s: System, es: seq<Event>, id: string)
    requires Legal(s, es)
    ensures Runs(Run(s, es).log, id, true)
            == Runs(s.log, id, true) + if SlackDecode(id).Some? then SlackPresses(es, id) else 0
    decreases es
  {
    if es != [] {
      SlackCount(Step(s, es[0]), es[1..], id);
      match es[0] {
        case SlackPress(pressed) => RunsAppend(s.log, Record(SlackDecode(pressed), ViaSlack, pressed), id, true);
        case Dispatch(p) =>
          var pressed := s.presses[p].id;
          RunsAppend(s.log, Record(TelegramDecode(pressed), ViaTelegram(p), pressed), id, true);
        case _ =>
      }
    }
  }

  /** Some press of the id was dispatched. */
  ghost predicate Won(presses: seq<Press>, id: string)
  {
    exists p :: 0 <= p < |presses| && presses[p].id == id && presses[p].phase.Done?
                && presses[p].phase.verdict.Dispatched?
  }

  /** The Telegram count before the dispatch of a press: none, since the press still holds the claim. */
  lemma {:induction false} NoneBeforeDispatch(presses: seq<Press>, log: seq<Mutation>, p: nat)
    requires LogOk(presses, log) && p < |presses| && presses[p].phase == Claimed
    requires forall q :: 0 <= q < |presses| && q != p && Holds(presses[q]) ==> presses[q].id != presses[p].id
    ensures Runs(log, presses[p].id, false) == 0
  {
    if log != [] {
      var (rest, last) := (log[..|log| - 1], log[|log| - 1]);
      assert forall i :: 0 <= i < |rest| ==> rest[i] == log[i];
      NoneBeforeDispatch(presses, rest, p);
    }
  }

  /** The Telegram count against the verdicts given. */
  ghost predicate Counted(s: System, id: string)
  {
    Runs(s.log, id, false) == if Won(s.presses, id) && TelegramDecode(id).Some? then 1 else 0
  }

  /** A press that moves on without being dispatched wins nothing. */
  lemma WonKept(before: seq<Press>, after: seq<Press>, p: nat, id: string)
    requires p < |before| && |after| == |before| && after == before[p := after[p]]
    requires after[p].id == before[p].id
    requires !(before[p].phase.Done? && before[p].phase.verdict.Dispatched?)
    requires !(after[p].phase.Done? && after[p].phase.verdict.Dispatched?)
    ensures Won(after, id) == Won(before, id)
  {
    if Won(before, id) {
      var q :| 0 <= q < |before| && before[q].id == id && before[q].phase.Done?
               && before[q].phase.verdict.Dispatched?;
      assert after[q] == before[q];
    }
  }

  lemma WonArrives(presses: seq<Press>, press: Press, id: string)
    requires press.phase == Arrived
    ensures Won(presses + [press], id) == Won(presses, id)
  {
    if Won(presses, id) {
      var q :| 0 <= q < |presses| && presses[q].id == id && presses[q].phase.Done?
               && presses[q].phase.verdict.Dispatched?;
      assert (presses + [press])[q] == presses[q];
    }
  }

  lemma DispatchCounted(s: System, p: nat, id: string)
    requires Inv(s) && Enabled(s, Dispatch(p)) && Counted(s, id)
    ensures Counted(Step(s, Dispatch(p)), id)
  {
    var s' := Step(s, Dispatch(p));
    var pressed := s.presses[p].id;
    RunsAppend(s.log, Record(TelegramDecode(pressed), ViaTelegram(p), pressed), id, false);
    if pressed == id {
      NoneBeforeDispatch(s.presses, s.log, p);
      assert s'.presses[p].id == id;
      assert Won(s'.presses, id);
    } else if Won(s.presses, id) {
      var q :| 0 <= q < |s.presses| && s.presses[q].id == id && s.presses[q].phase.Done?
               && s.presses[q].phase.verdict.Dispatched?;
      assert s'.presses[q] == s.presses[q];
      assert Won(s'.presses, id);
    }
  }

  lemma StepCounted(s: System, e: Event, id: string)
    requires Inv(s) && Enabled(s, e) && Counted(s, id)
    ensures Counted(Step(s, e), id)
  {
    var s' := Step(s, e);
    match e
    case Arrive(pressed, chat) => WonArrives(s.presses, Press(pressed, chat, Arrived, false), id);
    case Check(p) => WonKept(s.presses, s'.presses, p, id);
    case Claim(p) => WonKept(s.presses, s'.presses, p, id);
    case Dispatch(p) => DispatchCounted(s, p, id);
    case SlackPress(pressed) => RunsAppend(s.log, Record(SlackDecode(pressed), ViaSlack, pressed), id, false);
    case Membership(_) =>
  }

  lemma {:induction false} RunCounted(s: System, es: seq<Event>, id: string)
    requires Inv(s) && Legal(s, es) && Counted(s, id)
    ensures Counted(Run(s, es), id)
    decreases es
  {
    if es != [] {
      StepKeepsClaims(s, es[0]);
      StepKeepsLog(s, es[0]);
      StepCounted(s, es[0], id);
      RunCounted(Step(s, es[0]), es[1..], id);
    }
  }

  /** How often an id runs, in every interleaving: from Slack once for each of its presses, from
      Telegram once if a press of it has been dispatched, and from neither if it decodes to
      nothing. So "at most once" is a promise of the Telegram path alone: an id that decodes runs
      at most once overall exactly when its Slack presses and Telegram dispatches come to at most one. */
  lemma {:induction false} SlackRepeats(admin: ChatID, members: set<ChatID>, es: seq<Event>, id: string)
    requires Legal(Start(admin, members), es)
    ensures var e := Run(Start(admin, members), es);
            var (slack, telegram) := (Runs(e.log, id, true), Runs(e.log, id, false));
            && slack == (if SlackDecode(id).Some? then SlackPresses(es, id) else 0)
            && telegram == (if Won(e.presses, id) && TelegramDecode(id).Some? then 1 else 0)
            && (slack <= 1 <==> SlackDecode(id).None? || SlackPresses(es, id) <= 1)
            && (slack + telegram <= 1 <==>
                  SlackDecode(id).None? || SlackPresses(es, id) + (if Won(e.presses, id) then 1 else 0) <= 1)
  {
    SlackCount(Start(admin, members), es, id);
    RunCounted(Start(admin, members), es, id);
    DecodersAgree(id);
  }

  // ---------- one press handled without interruption ----------

  /** handleInteraction start to finish: the new claims and the verdict. */
  function Handle(admin: ChatID, members: set<ChatID>, executed: set<string>, id: string, chat: ChatID)
    : (set<string>, Verdict)
  {
    if chat != admin && chat !in members then (executed, Refused)
    else if id in executed then (executed, AlreadyExecuted)
    else (executed + {id}, Dispatched(TelegramDecode(id)))
  }

  /** The uninterrupted handler is the machine's own steps in a row. */
  lemma HandleIsSteps(s: System, id: string, chat: ChatID)
    ensures var p := |s.presses|;
            var (executed, verdict) := Handle(s.admin, s.members, s.executed, id, chat);
            var checked := Step(Step(s, Arrive(id, chat)), Check(p));
            if verdict.Refused? then
              checked.presses == s.presses + [Press(id, chat, Done(verdict), false)] && checked.executed == executed
            else
              && Enabled(checked, Claim(p))
              && var claimed := Step(checked, Claim(p));
                 && claimed.executed == executed
                 && if verdict.AlreadyExecuted? then
                      claimed.presses == s.presses + [Press(id, chat, Done(verdict), true)]
                    else
                      && Enabled(claimed, Dispatch(p))
                      && Step(claimed, Dispatch(p)).executed == executed
                      && Step(claimed, Dispatch(p)).presses == s.presses + [Press(id, chat, Done(verdict), true)]
                      && Step(claimed, Dispatch(p)).log == s.log + Record(verdict.action, ViaTelegram(p), id)
  {
    var p := |s.presses|;
    var arrived := Step(s, Arrive(id, chat));
    assert arrived.presses[p] == Press(id, chat, Arrived, false);
  }
}
