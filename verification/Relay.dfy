/** The cross-platform relay: both chat bots push approval messages into one channel of capacity
    100, and a single goroutine forwards each to the platform it did not come from. */
module Relay {
  import opened Text
  import Actions

  const CAPACITY := 100

  datatype Platform = Slack | Telegram

  /** What a bot announces after an approved action succeeded. */
  function Detail(a: Actions.Action): string
  {
    match a
    case PatchMem(_, dep, _, _) => "Patch Memory for " + dep
    case Rollback(_, dep) => "Rollback for " + dep
    case Cordon(node) => "Cordon Node " + node
    case Uncordon(node) => "Uncordon Node " + node
    case Scale(_, dep, replicas) => "Scale " + dep + " to " + replicas
    case DelPod(_, pod) => "Delete Pod " + pod
    case RestartDep(_, dep) => "Restart " + dep
  }

  function Announcement(from: Platform, a: Actions.Action): string
  {
    (if from.Slack? then "Slack" else "Telegram") + (" User Approved: " + Detail(a))
  }

  /** Where the relay sends a message; a bot that is not configured is nil and gets nothing. */
  predicate ToTelegram(msg: string, telegramUp: bool)
  {
    telegramUp && HasPrefix(msg, "Slack")
  }

  predicate ToSlack(msg: string, slackUp: bool)
  {
    slackUp && HasPrefix(msg, "Telegram")
  }

  /** The channel, what has gone in and come out of it, and what each platform received. */
  datatype Net = Net(
    telegramUp: bool, slackUp: bool,
    buffer: seq<string>, sent: seq<string>, taken: seq<string>,
    telegram: seq<string>, slack: seq<string>)

  datatype Event = Push(from: Platform, action: Actions.Action) | Take

  /** A send blocks while the buffer is full, a receive while it is empty. */
  predicate Enabled(n: Net, e: Event)
  {
    match e
    case Push(_, _) => |n.buffer| < CAPACITY
    case Take => n.buffer != []
  }

  function Step(n: Net, e: Event): Net
    requires Enabled(n, e)
  {
    match e
    case Push(from, a) =>
      n.(buffer := n.buffer + [Announcement(from, a)], sent := n.sent + [Announcement(from, a)])
    case Take =>
      var msg := n.buffer[0];
      n.(buffer := n.buffer[1..], taken := n.taken + [msg],
         telegram := if ToTelegram(msg, n.telegramUp) then n.telegram + [msg] else n.telegram,
         slack := if ToSlack(msg, n.slackUp) then n.slack + [msg] else n.slack)
  }

  predicate Legal(n: Net, es: seq<Event>)
    decreases es
  {
    es != [] ==> Enabled(n, es[0]) && Legal(Step(n, es[0]), es[1..])
  }

  function Run(n: Net, es: seq<Event>): Net
    requires Legal(n, es)
    decreases es
  {
    if es == [] then n else Run(Step(n, es[0]), es[1..])
  }

  function Start(telegramUp: bool, slackUp: bool): Net
  {
    Net(telegramUp, slackUp, [], [], [], [], [])
  }

  // ---------- the independent account ----------

  /** What was pushed, read off the schedule alone: after the pushes before it, those in es. */
  ghost function Pushed(before: seq<(Platform, Actions.Action)>, es: seq<Event>): seq<(Platform, Actions.Action)>
    decreases es
  {
    if es == [] then before
    else Pushed(if es[0].Push? then before + [(es[0].from, es[0].action)] else before, es[1..])
  }

  /** The announcements among them that came from one platform, in order. */
  ghost function From(pushes: seq<(Platform, Actions.Action)>, from: Platform): seq<string>
  {
    if pushes == [] then []
    else
      var last := pushes[|pushes| - 1];
      From(pushes[..|pushes| - 1], from) + if last.0 == from then [Announcement(last.0, last.1)] else []
  }

  /** The messages behind a list of pushes. */
  ghost function Texts(pushes: seq<(Platform, Actions.Action)>): seq<string>
  {
    seq(|pushes|, i requires 0 <= i < |pushes| => Announcement(pushes[i].0, pushes[i].1))
  }

  lemma OriginPrefix(from: Platform, a: Actions.Action)
    ensures HasPrefix(Announcement(from, a), "Slack") <==> from.Slack?
    ensures HasPrefix(Announcement(from, a), "Telegram") <==> from.Telegram?
  {
    var m := Announcement(from, a);
    var rest := " User Approved: " + Detail(a);
    if from.Slack? {
      assert m == "Slack" + rest && m[0] == 'S';
    } else {
      assert m == "Telegram" + rest && m[0] == 'T';
    }
  }

  /** The channel after the pushes so far: some taken, the rest still buffered. */
  ghost predicate Flows(n: Net, pushes: seq<(Platform, Actions.Action)>)
  {
    && |n.buffer| <= CAPACITY && |n.taken| <= |pushes|
    && n.sent == Texts(pushes)
    && n.taken == Texts(pushes[..|n.taken|]) && n.buffer == Texts(pushes[|n.taken|..])
  }

  /** What the platforms have received when k pushes have been taken. */
  ghost predicate Received(n: Net, pushes: seq<(Platform, Actions.Action)>, k: nat)
    requires k <= |pushes|
  {
    && n.telegram == (if n.telegramUp then From(pushes[..k], Slack) else [])
    && n.slack == (if n.slackUp then From(pushes[..k], Telegram) else [])
  }

  ghost predicate Relayed(n: Net, pushes: seq<(Platform, Actions.Action)>)
  {
    Flows(n, pushes) && Received(n, pushes, |n.taken|)
  }

  lemma PushKeepsRelayed(n: Net, pushes: seq<(Platform, Actions.Action)>, from: Platform, a: Actions.Action)
    requires Relayed(n, pushes) && Enabled(n, Push(from, a))
    ensures Relayed(Step(n, Push(from, a)), pushes + [(from, a)])
  {
    var pushes' := pushes + [(from, a)];
    assert pushes'[..|n.taken|] == pushes[..|n.taken|];
    assert pushes'[|n.taken|..] == pushes[|n.taken|..] + [(from, a)];
  }

  lemma FromNext(pushes: seq<(Platform, Actions.Action)>, k: nat, from: Platform)
    requires k < |pushes|
    ensures From(pushes[..k + 1], from)
            == From(pushes[..k], from)
               + if pushes[k].0 == from then [Announcement(pushes[k].0, pushes[k].1)] else []
  {
    assert pushes[..k + 1][..k] == pushes[..k] && pushes[..k + 1][k] == pushes[k];
  }

  lemma TakeKeepsFlows(n: Net, pushes: seq<(Platform, Actions.Action)>)
    requires Flows(n, pushes) && Enabled(n, Take)
    ensures Flows(Step(n, Take), pushes)
    ensures n.buffer[0] == Announcement(pushes[|n.taken|].0, pushes[|n.taken|].1)
  {
    var k := |n.taken|;
    assert pushes[..k + 1] == pushes[..k] + [pushes[k]];
    assert pushes[k..][1..] == pushes[k + 1..];
  }

  lemma TakeKeepsReceived(n: Net, pushes: seq<(Platform, Actions.Action)>, k: nat)
    requires k < |pushes| && Received(n, pushes, k) && Enabled(n, Take)
    requires n.buffer[0] == Announcement(pushes[k].0, pushes[k].1)
    ensures Received(Step(n, Take), pushes, k + 1)
  {
    OriginPrefix(pushes[k].0, pushes[k].1);
    FromNext(pushes, k, Slack);
    FromNext(pushes, k, Telegram);
  }

  lemma TakeKeepsRelayed(n: Net, pushes: seq<(Platform, Actions.Action)>)
    requires Relayed(n, pushes) && Enabled(n, Take)
    ensures Relayed(Step(n, Take), pushes)
  {
    TakeKeepsFlows(n, pushes);
    TakeKeepsReceived(n, pushes, |n.taken|);
  }

  lemma {:induction false} RunRelayed(n: Net, es: seq<Event>, pushes: seq<(Platform, Actions.Action)>)
    requires Relayed(n, pushes) && Legal(n, es)
    ensures Relayed(Run(n, es), Pushed(pushes, es))
    decreases es
  {
    if es != [] {
      match es[0] {
        case Push(from, a) =>
          PushKeepsRelayed(n, pushes, from, a);
          RunRelayed(Step(n, es[0]), es[1..], pushes + [(from, a)]);
        case Take =>
          TakeKeepsRelayed(n, pushes);
          RunRelayed(Step(n, es[0]), es[1..], pushes);
      }
    }
  }

  lemma TextsSplit(pushes: seq<(Platform, Actions.Action)>, k: nat)
    requires k <= |pushes|
    ensures Texts(pushes) == Texts(pushes[..k]) + Texts(pushes[k..])
  {
  }

  /** In every interleaving: the buffer never exceeds 100; messages leave in the order they came,
      each either taken or still buffered; of those taken, Telegram has received exactly Slack's
      and Slack exactly Telegram's, in order (none if the receiver is not configured); and relaying
      adds nothing to the channel, since everything sent was pushed by a handler. */
  lemma Delivery(telegramUp: bool, slackUp: bool, es: seq<Event>)
    requires Legal(Start(telegramUp, slackUp), es)
    ensures var e := Run(Start(telegramUp, slackUp), es);
            var pushed := Pushed([], es);
            && |e.buffer| <= CAPACITY
            && e.sent == Texts(pushed) == e.taken + e.buffer
            && |e.taken| <= |pushed|
            && e.telegram == (if telegramUp then From(pushed[..|e.taken|], Slack) else [])
            && e.slack == (if slackUp then From(pushed[..|e.taken|], Telegram) else [])
  {
    var n := Start(telegramUp, slackUp);
    RunRelayed(n, es, []);
    TextsSplit(Pushed([], es), |Run(n, es).taken|);
    RunKeepsConfig(n, es);
  }

  lemma {:induction false} RunKeepsConfig(n: Net, es: seq<Event>)
    requires Legal(n, es)
    ensures Run(n, es).telegramUp == n.telegramUp && Run(n, es).slackUp == n.slackUp
    decreases es
  {
    if es != [] {
      RunKeepsConfig(Step(n, es[0]), es[1..]);
    }
  }

  /** The relay taking messages until there are none. */
  function Drained(n: Net): Net
    decreases |n.buffer|
  {
    if n.buffer == [] then n else Drained(Step(n, Take))
  }

  /** Left to itself the relay empties the channel, pushes nothing, and brings every announcement
      made on one platform to the other, in order. */
  lemma {:induction false} DrainDelivers(n: Net, pushes: seq<(Platform, Actions.Action)>)
    requires Relayed(n, pushes)
    ensures var d := Drained(n);
            && d.buffer == [] && d.sent == n.sent && d.taken == n.sent
            && d.telegram == (if n.telegramUp then From(pushes, Slack) else [])
            && d.slack == (if n.slackUp then From(pushes, Telegram) else [])
    decreases |n.buffer|
  {
    if n.buffer == [] {
      assert pushes[..|n.taken|] == pushes;
    } else {
      TakeKeepsRelayed(n, pushes);
      DrainDelivers(Step(n, Take), pushes);
    }
  }

  /** A blocked producer can always be unblocked: when a push has to wait, the relay has something
      to take, and after taking it the push goes through. */
  lemma NeverStuck(n: Net, from: Platform, a: Actions.Action)
    requires |n.buffer| <= CAPACITY && !Enabled(n, Push(from, a))
    ensures Enabled(n, Take) && Enabled(Step(n, Take), Push(from, a))
  {
  }

  // ---------- the channel as the source has it ----------

  class CrossPlatformSync {
    const telegramUp: bool
    const slackUp: bool
    var buffer: seq<string>
    var telegram: seq<string>
    var slack: seq<string>
    ghost var sent: seq<string>
    ghost var taken: seq<string>

    ghost function Abs(): Net
      reads this
    {
      Net(telegramUp, slackUp, buffer, sent, taken, telegram, slack)
    }

    constructor (telegramUp: bool, slackUp: bool)
      ensures Abs() == Start(telegramUp, slackUp)
    {
      this.telegramUp, this.slackUp := telegramUp, slackUp;
      buffer, telegram, slack, sent, taken := [], [], [], [], [];
    }

    /** A send that would block is refused and left to be tried again. */
    method Push(from: Platform, a: Actions.Action) returns (done: bool)
      modifies this
      ensures done == old(Enabled(Abs(), Event.Push(from, a)))
      ensures Abs() == if done then Step(old(Abs()), Event.Push(from, a)) else old(Abs())
    {
      if |buffer| >= CAPACITY {
        return false;
      }
      var msg := Announcement(from, a);
      buffer, sent := buffer + [msg], sent + [msg];
      return true;
    }

    /** One turn of the relay goroutine's loop. */
    method RelayNext()
      requires buffer != []
      modifies this
      ensures Abs() == Step(old(Abs()), Take)
    {
      var msg := buffer[0];
      buffer, taken := buffer[1..], taken + [msg];
      if telegramUp && HasPrefix(msg, "Slack") {
        telegram := telegram + [msg];
      }
      if slackUp && HasPrefix(msg, "Telegram") {
        slack := slack + [msg];
      }
    }

    /** The goroutine left to itself. */
    method Drain()
      modifies this
      ensures Abs() == Drained(old(Abs()))
    {
      while buffer != []
        invariant Drained(Abs()) == Drained(old(Abs()))
        decreases |buffer|
      {
        RelayNext();
      }
    }
  }
}
