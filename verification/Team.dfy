/** The Telegram team as a state machine on values: invite codes, the failed-attempt
    windows, the member map and its stored text, with one step per incoming message.
    The class in TelegramBot.dfy is proved to take exactly these steps; this module proves
    what every run of them keeps. */
module Team {
  import opened Wrappers
  import opened Text
  import opened Rates
  import opened Subscribers

  datatype Invite = Invite(expiresAt: int, maxUses: int, usedCount: int)
  datatype Window = Window(count: int, start: int)

  /** The kubesolv-subscribers ConfigMap; one without the chat_ids key reads as "". */
  datatype ConfigMap = Absent | Present(chatIds: string)

  const BLOCK_WINDOW := 600_000_000_000 // ten minutes
  const MAX_FAILURES := 5
  const INVITE_TTL := 86_400_000_000_000 // a day
  const MAX_USES := 10

  /** What the history records: a counted failure and the window it fell in, a registration
      and the code it used, a departure. */
  datatype Fact =
    | Failed(chat: ChatID, at: int, windowStart: int)
    | Joined(chat: ChatID, code: string, at: int, expiresAt: int)
    | Left(chat: ChatID)

  /** The bot's state. The clock (the latest reading) and the history only observe. */
  datatype State = State(
    admin: ChatID,
    members: Members,
    invites: map<string, Invite>,
    failures: map<ChatID, Window>,
    stored: ConfigMap,
    clock: int,
    history: seq<Fact>)

  /** One incoming text message. */
  datatype Update = Update(chat: ChatID, username: string, text: string)

  /** Everything a handler learns from outside: its clock readings in the order they are taken,
      a freshly drawn invite code, the order in which Range visits the members in a search by name,
      the order in which it lists them for saving, and whether the ConfigMap write succeeds. */
  datatype Env = Env(
    blockAt: int, validateAt: int, windowAt: int, stampAt: int,
    code: string, visit: seq<ChatID>, order: seq<ChatID>, saved: bool)

  // ---------- start-up ----------

  function TextOf(stored: ConfigMap): string
  {
    if stored.Present? then stored.chatIds else ""
  }

  /** The state after loadSubscribers. If the Get fails, for a missing ConfigMap or for any
      other reason, the bot tries to create an empty one and starts with no members. */
  function Boot(admin: ChatID, stored: ConfigMap, reachable: bool, created: bool, now: int): State
  {
    if reachable && stored.Present? then
      State(admin, Decode(stored.chatIds), map[], map[], stored, now, [])
    else
      State(admin, map[], map[], map[], if stored.Absent? && created then Present("") else stored, now, [])
  }

  // ---------- the handlers ----------

  predicate IsAuthorized(s: State, chat: ChatID)
  {
    chat == s.admin || chat in s.members
  }

  type Windows = map<ChatID, Window>

  /** checkBruteForce's answer: a live window blocks from its fifth failure on. */
  predicate Blocked(failures: Windows, chat: ChatID, now: int)
  {
    && chat in failures
    && now - failures[chat].start <= BLOCK_WINDOW
    && failures[chat].count >= MAX_FAILURES
  }

  /** checkBruteForce's effect: an expired window is dropped. */
  function DropExpired(failures: Windows, chat: ChatID, now: int): Windows
  {
    if chat in failures && now - failures[chat].start > BLOCK_WINDOW then failures - {chat} else failures
  }

  /** The window a failure lands in, and when: recordFailedAttempt reads the clock once to test
      the current window and again to open a new one. */
  function FailureFact(failures: Windows, chat: ChatID, windowAt: int, stampAt: int): (f: Fact)
    ensures f.Failed? && f.chat == chat
  {
    if chat !in failures || windowAt - failures[chat].start > BLOCK_WINDOW then Failed(chat, stampAt, stampAt)
    else Failed(chat, windowAt, failures[chat].start)
  }

  /** recordFailedAttempt's effect. */
  function CountedFailure(failures: Windows, chat: ChatID, windowAt: int, stampAt: int): Windows
  {
    if chat !in failures || windowAt - failures[chat].start > BLOCK_WINDOW then
      failures[chat := Window(1, stampAt)]
    else
      failures[chat := Window(failures[chat].count + 1, failures[chat].start)]
  }

  function RecordFailedAttempt(s: State, chat: ChatID, windowAt: int, stampAt: int): State
  {
    s.(failures := CountedFailure(s.failures, chat, windowAt, stampAt),
       history := s.history + [FailureFact(s.failures, chat, windowAt, stampAt)])
  }

  function Save(s: State, env: Env): State
  {
    if env.saved then s.(stored := Present(Encode(s.members, env.order))) else s
  }

  function GenerateInvite(s: State, env: Env): State
  {
    s.(invites := s.invites[env.code := Invite(env.stampAt + INVITE_TTL, MAX_USES, 0)])
  }

  function Admit(s: State, chat: ChatID, username: string, code: string, env: Env): State
    requires code in s.invites
  {
    var inv := s.invites[code];
    Save(s.(invites := s.invites[code := inv.(usedCount := inv.usedCount + 1)],
            members := s.members[chat := username],
            history := s.history + [Joined(chat, code, env.validateAt, inv.expiresAt)]), env)
  }

  function InviteIn(text: string): string
  {
    TrimSpace(TrimPrefix(text, "/register"))
  }

  /** The second half of handleRegister: what the presented code is worth. */
  function Redeem(s: State, chat: ChatID, username: string, code: string, env: Env): State
  {
    if code == "" || code !in s.invites || env.validateAt > s.invites[code].expiresAt then
      RecordFailedAttempt(s, chat, env.windowAt, env.stampAt)
    else if s.invites[code].usedCount >= s.invites[code].maxUses then s
    else Admit(s, chat, username, code, env)
  }

  /** What handleRegister does for a chat that is not blocked. */
  function RegisterUnblocked(s: State, chat: ChatID, username: string, text: string, env: Env): State
  {
    if IsAuthorized(s, chat) then s else Redeem(s, chat, username, InviteIn(text), env)
  }

  function Register(s0: State, chat: ChatID, username: string, text: string, env: Env): State
  {
    var s := s0.(failures := DropExpired(s0.failures, chat, env.blockAt));
    if Blocked(s0.failures, chat, env.blockAt) then s else RegisterUnblocked(s, chat, username, text, env)
  }

  function Leave(s: State, chat: ChatID, env: Env): State
  {
    Save(s.(members := s.members - {chat}, history := s.history + [Left(chat)]), env)
  }

  function Unregister(s: State, chat: ChatID, env: Env): State
  {
    if chat == s.admin || chat !in s.members then s else Leave(s, chat, env)
  }

  function RemovalTarget(text: string): string
  {
    TrimPrefix(TrimSpace(TrimPrefix(text, "/remove")), "@")
  }

  /** The first visited member with the name. */
  function FindNamed(m: Members, visit: seq<ChatID>, name: string): (found: Option<ChatID>)
    ensures found.Some? ==> found.value in visit && NameOf(m, found.value) == name
    ensures found.None? ==> forall k <- visit :: NameOf(m, k) != name
  {
    if visit == [] then None
    else if NameOf(m, visit[0]) == name then Some(visit[0])
    else FindNamed(m, visit[1..], name)
  }

  function RemoveUser(s: State, text: string, env: Env): State
  {
    var target := RemovalTarget(text);
    var found := FindNamed(s.members, env.visit, target);
    if target == "" || found.None? then s else Leave(s, found.value, env)
  }

  /** The commands open to authorised chats; every other text goes to the chat assistant. */
  function Command(s: State, chat: ChatID, text: string, env: Env): State
  {
    if text == "/invite" then if chat == s.admin then GenerateInvite(s, env) else s
    else if text == "/unregister" then Unregister(s, chat, env)
    else if HasPrefix(text, "/remove ") then if chat == s.admin then RemoveUser(s, text, env) else s
    else s
  }

  /** The main loop's routing of one text message. */
  function Route(s: State, chat: ChatID, username: string, text: string, env: Env): State
  {
    if HasPrefix(text, "/register") then Register(s, chat, username, text, env)
    else if !IsAuthorized(s, chat) then s
    else Command(s, chat, text, env)
  }

  function Step(s: State, u: Update, env: Env): State
  {
    Route(s, u.chat, u.username, TrimSpace(u.text), env).(clock := env.stampAt)
  }

  /** What can be assumed of the outside: the clock never runs backwards, invite codes are
      fresh, and Range visits every member once, in any order. */
  ghost predicate Allowed(s: State, u: Update, env: Env)
  {
    && s.clock <= env.blockAt <= env.validateAt <= env.windowAt <= env.stampAt
    && env.code !in s.invites
    && Enumerates(env.visit, s.members.Keys)
    && Enumerates(env.order, Step(s, u, env).members.Keys)
  }

  // ---------- the effect of a step ----------

  /** What a message amounts to once its text has been read. */
  datatype Effect =
    | Idle
    | Turned(chat: ChatID)
    | Failure(chat: ChatID)
    | Admission(chat: ChatID, username: string, code: string)
    | Generate
    | Departure(chat: ChatID)

  ghost predicate Enabled(s: State, e: Effect, env: Env)
  {
    match e
    case Idle => true
    case Turned(_) => true
    case Failure(chat) => !Blocked(s.failures, chat, env.blockAt)
    case Admission(chat, _, code) =>
      && !Blocked(s.failures, chat, env.blockAt) && !IsAuthorized(s, chat)
      && code in s.invites && env.validateAt <= s.invites[code].expiresAt
      && s.invites[code].usedCount < s.invites[code].maxUses
    case Generate => env.code !in s.invites
    case Departure(chat) => chat in s.members
  }

  ghost function Turn(s: State, chat: ChatID, env: Env): State
  {
    s.(failures := DropExpired(s.failures, chat, env.blockAt))
  }

  ghost function Apply(s: State, e: Effect, env: Env): State
    requires Enabled(s, e, env)
  {
    match e
    case Idle => s
    case Turned(chat) => Turn(s, chat, env)
    case Failure(chat) => RecordFailedAttempt(Turn(s, chat, env), chat, env.windowAt, env.stampAt)
    case Admission(chat, username, code) => Admit(Turn(s, chat, env), chat, username, code, env)
    case Generate => GenerateInvite(s, env)
    case Departure(chat) => Leave(s, chat, env)
  }

  lemma RegisterEffect(s: State, chat: ChatID, username: string, text: string, env: Env) returns (e: Effect)
    ensures Enabled(s, e, env) && Register(s, chat, username, text, env) == Apply(s, e, env)
    ensures (e.Turned? || e.Failure? || e.Admission?) && e.chat == chat
    ensures e.Admission? ==> e.code == InviteIn(text)
  {
    var code := InviteIn(text);
    e := if Blocked(s.failures, chat, env.blockAt) || IsAuthorized(s, chat) then Turned(chat)
         else if code == "" || code !in s.invites || env.validateAt > s.invites[code].expiresAt then Failure(chat)
         else if s.invites[code].usedCount >= s.invites[code].maxUses then Turned(chat)
         else Admission(chat, username, code);
  }

  /** Every step has one of these effects, and only the admin's own messages create a code or
      remove somebody else. */
  lemma StepEffect(s: State, u: Update, env: Env) returns (e: Effect)
    requires env.code !in s.invites
    requires forall k <- env.visit :: k in s.members
    ensures Enabled(s, e, env) && Step(s, u, env) == Apply(s, e, env).(clock := env.stampAt)
    ensures e.Turned? || e.Failure? || e.Admission? ==> e.chat == u.chat
    ensures e.Admission? ==> e.code == InviteIn(TrimSpace(u.text))
    ensures e.Generate? ==> u.chat == s.admin
    ensures e.Departure? ==> u.chat == s.admin || e.chat == u.chat
  {
    var text := TrimSpace(u.text);
    if HasPrefix(text, "/register") {
      e := RegisterEffect(s, u.chat, u.username, text, env);
    } else if IsAuthorized(s, u.chat) && text == "/invite" && u.chat == s.admin {
      e := Generate;
    } else if text == "/unregister" && u.chat != s.admin && u.chat in s.members {
      e := Departure(u.chat);
    } else if HasPrefix(text, "/remove ") && u.chat == s.admin && RemovalTarget(text) != ""
              && FindNamed(s.members, env.visit, RemovalTarget(text)).Some? {
      e := Departure(FindNamed(s.members, env.visit, RemovalTarget(text)).value);
    } else {
      e := Idle;
    }
  }

  // ---------- runs ----------

  datatype Message = Message(update: Update, env: Env)

  function Run(s: State, ms: seq<Message>): State
    decreases ms
  {
    if ms == [] then s else Run(Step(s, ms[0].update, ms[0].env), ms[1..])
  }

  ghost predicate Legal(s: State, ms: seq<Message>)
    decreases ms
  {
    ms != [] ==>
      && Allowed(s, ms[0].update, ms[0].env)
      && Legal(Step(s, ms[0].update, ms[0].env), ms[1..])
  }

  // ---------- durability ----------

  /** The stored text is what the members were loaded from, or what they were last saved as. */
  ghost predicate Settled(s: State)
  {
    || Decode(TextOf(s.stored)) == s.members
    || exists order :: Enumerates(order, s.members.Keys) && s.stored == Present(Encode(s.members, order))
  }

  lemma ChangeSettles(s: State, e: Effect, env: Env)
    requires Enabled(s, e, env) && env.saved
    requires Enumerates(env.order, Apply(s, e, env).members.Keys)
    requires Apply(s, e, env).members != s.members
    ensures Settled(Apply(s, e, env).(clock := env.stampAt))
  {
  }

  /** The latest change of the membership in the run, if there is one, was saved. */
  ghost predicate LastChangeSaved(s: State, ms: seq<Message>, savedSoFar: bool)
    decreases ms
  {
    if ms == [] then savedSoFar
    else
      var s' := Step(s, ms[0].update, ms[0].env);
      LastChangeSaved(s', ms[1..], if s'.members != s.members then ms[0].env.saved else savedSoFar)
  }

  /** A step that leaves the members alone leaves the stored text alone. */
  lemma UnchangedKeepsStored(s: State, e: Effect, env: Env)
    requires Enabled(s, e, env)
    ensures Apply(s, e, env).members == s.members ==> Apply(s, e, env).stored == s.stored
  {
    match e
    case Admission(chat, username, code) => assert chat in Apply(s, e, env).members;
    case Departure(chat) => assert chat !in Apply(s, e, env).members;
    case _ =>
  }

  lemma {:induction false} RunSettles(s: State, ms: seq<Message>, savedSoFar: bool)
    requires Legal(s, ms) && LastChangeSaved(s, ms, savedSoFar)
    requires savedSoFar ==> Settled(s)
    ensures Settled(Run(s, ms))
    decreases ms
  {
    if ms != [] {
      var (u, env) := (ms[0].update, ms[0].env);
      var s' := Step(s, u, env);
      var e := StepEffect(s, u, env);
      if s'.members != s.members {
        if env.saved {
          ChangeSettles(s, e, env);
        }
        RunSettles(s', ms[1..], env.saved);
      } else {
        UnchangedKeepsStored(s, e, env);
        RunSettles(s', ms[1..], savedSoFar);
      }
    }
  }

  /** Restart durability over every run: if the latest change of the membership was saved -- in
      particular if all were, or if there was none -- the stored text decodes to exactly the members
      in memory, so that a crash and a reload restore the team, if and only if every member's
      username is well formed; and with any usernames at all the reload forgets nobody. */
  lemma {:induction false} DurableRun(s: State, ms: seq<Message>, now: int)
    requires Decode(TextOf(s.stored)) == s.members
    requires Legal(s, ms) && LastChangeSaved(s, ms, true)
    ensures var e := Run(s, ms);
            var reloaded := Boot(e.admin, e.stored, true, true, now).members;
            && (reloaded == e.members <==> AllWellFormed(e.members))
            && e.members.Keys <= reloaded.Keys
  {
    var e := Run(s, ms);
    RunSettles(s, ms, true);
    DecodeWellFormed(TextOf(e.stored));
    if Decode(TextOf(e.stored)) != e.members {
      var order :| Enumerates(order, e.members.Keys) && e.stored == Present(Encode(e.members, order));
      RoundTrip(e.members, order);
      NoMemberLost(e.members, order);
    }
  }

  /** Start-up never changes a ConfigMap that exists, and gives a missing one an empty text if it
      can; it loads the team exactly if it can read it. So it leaves memory and store in agreement
      exactly when the ConfigMap could be read, did not exist, or held nobody: a Get that fails on
      an existing ConfigMap starts an empty team beside it. */
  lemma BootAgrees(admin: ChatID, stored: ConfigMap, reachable: bool, created: bool, now: int)
    ensures var s := Boot(admin, stored, reachable, created, now);
            && (stored.Present? ==> s.stored == stored)
            && (stored.Absent? ==> TextOf(s.stored) == "" && (s.stored.Present? <==> created))
            && s.members == (if reachable then Decode(TextOf(stored)) else map[])
            && s.invites == map[] && s.failures == map[]
            && (Decode(TextOf(s.stored)) == s.members
                <==> reachable || stored.Absent? || Decode(stored.chatIds) == map[])
  {
  }

  /** The chats whose registration the history records. */
  ghost predicate Registered(history: seq<Fact>, chat: ChatID)
  {
    exists f <- history :: f.Joined? && f.chat == chat
  }

  /** Who is on a team that started empty beside an unread ConfigMap, and what is stored: the old
      text as long as nothing has been saved, from then on a team of new registrations only. */
  ghost predicate Forgotten(s: State, original: ConfigMap)
  {
    && (forall k <- s.members :: Registered(s.history, k))
    && (s.stored == original || exists m: Members, order ::
          && Enumerates(order, m.Keys) && s.stored == Present(Encode(m, order))
          && forall k <- m :: Registered(s.history, k))
  }

  lemma StepKeepsForgotten(s: State, e: Effect, env: Env, original: ConfigMap)
    requires Forgotten(s, original) && Enabled(s, e, env)
    requires Enumerates(env.order, Apply(s, e, env).members.Keys)
    ensures Forgotten(Apply(s, e, env), original)
    ensures Apply(s, e, env).members != s.members && env.saved ==>
              Apply(s, e, env).stored == Present(Encode(Apply(s, e, env).members, env.order))
  {
    var s' := Apply(s, e, env);
    assert s.history <= s'.history;
    forall k | Registered(s.history, k) ensures Registered(s'.history, k) {
      var f :| f in s.history && f.Joined? && f.chat == k;
      assert f in s'.history;
    }
    if e.Admission? {
      assert s'.history[|s.history|].chat == e.chat;
      assert Registered(s'.history, e.chat);
    }
  }

  lemma {:induction false} RunKeepsForgotten(s: State, ms: seq<Message>, original: ConfigMap)
    requires Forgotten(s, original) && Legal(s, ms)
    ensures Forgotten(Run(s, ms), original)
    decreases ms
  {
    if ms != [] {
      var e := StepEffect(s, ms[0].update, ms[0].env);
      StepKeepsForgotten(s, e, ms[0].env, original);
      RunKeepsForgotten(Step(s, ms[0].update, ms[0].env), ms[1..], original);
    }
  }

  /** A start-up that cannot read an existing ConfigMap loses the team at the first save. In every
      run after it the stored text is the old one or lists only chats that have registered since;
      and the very next message that changes the membership and saves it overwrites the old text
      with the new team. */
  lemma {:induction false} UnreadBootWipes(admin: ChatID, original: ConfigMap, created: bool, now: int,
                                           ms: seq<Message>, next: Message)
    requires original.Present?
    requires Legal(Boot(admin, original, false, created, now), ms)
    requires Allowed(Run(Boot(admin, original, false, created, now), ms), next.update, next.env)
    ensures var s := Run(Boot(admin, original, false, created, now), ms);
            var s' := Step(s, next.update, next.env);
            && Forgotten(s, original)
            && (s'.members != s.members && next.env.saved ==>
                  && s'.stored == Present(Encode(s'.members, next.env.order))
                  && forall k <- s'.members :: Registered(s'.history, k))
  {
    var b := Boot(admin, original, false, created, now);
    RunKeepsForgotten(b, ms, original);
    var s := Run(b, ms);
    var e := StepEffect(s, next.update, next.env);
    StepKeepsForgotten(s, e, next.env, original);
  }

  // ---------- the failure counter ----------

  ghost function FailuresOf(history: seq<Fact>, chat: ChatID): (fs: seq<Fact>)
    ensures forall f <- fs :: f.Failed?
  {
    if history == [] then []
    else
      var last := history[|history| - 1];
      FailuresOf(history[..|history| - 1], chat) + if last.Failed? && last.chat == chat then [last] else []
  }

  /** One chat's recorded failures: in order of time, each within its window, windows more than
      ten minutes apart, and never six in a row in one window. */
  ghost predicate Spread(fs: seq<Fact>, clock: int)
    requires forall f <- fs :: f.Failed?
  {
    && (forall i :: 0 <= i < |fs| ==> fs[i].windowStart <= fs[i].at <= clock)
    && (forall i, j :: 0 <= i < j < |fs| ==> fs[i].at <= fs[j].at)
    && (forall i, j :: 0 <= i < j < |fs| ==>
          fs[i].windowStart == fs[j].windowStart || fs[i].windowStart + BLOCK_WINDOW < fs[j].windowStart)
    && (forall i, j :: 0 <= i && j == i + MAX_FAILURES && j < |fs| ==>
          fs[i].windowStart + BLOCK_WINDOW < fs[j].windowStart && fs[i].at <= fs[j].windowStart)
  }

  /** One chat's recorded failures against its current window. */
  ghost predicate Windowed(fs: seq<Fact>, w: Option<Window>, clock: int)
    requires forall f <- fs :: f.Failed?
  {
    && Spread(fs, clock)
    && match w
       case None => forall i :: 0 <= i < |fs| ==> fs[i].windowStart + BLOCK_WINDOW < clock
       case Some(Window(count, start)) =>
         && 1 <= count <= MAX_FAILURES && count <= |fs| && start <= clock
         && (forall i :: |fs| - count <= i < |fs| ==> fs[i].windowStart == start)
         && (forall i :: 0 <= i < |fs| - count ==>
               fs[i].windowStart + BLOCK_WINDOW < start && fs[i].at <= start)
  }

  lemma SpreadAppend(fs: seq<Fact>, clock: int, f: Fact, later: int)
    requires (forall g <- fs :: g.Failed?) && f.Failed?
    requires Spread(fs, clock) && clock <= f.at <= later && f.windowStart <= f.at
    requires forall i :: 0 <= i < |fs| ==>
               fs[i].windowStart == f.windowStart || fs[i].windowStart + BLOCK_WINDOW < f.windowStart
    requires |fs| >= MAX_FAILURES ==>
               var g := fs[|fs| - MAX_FAILURES];
               g.windowStart + BLOCK_WINDOW < f.windowStart && g.at <= f.windowStart
    ensures Spread(fs + [f], later)
  {
  }

  function WindowOf(failures: Windows, chat: ChatID): Option<Window>
  {
    if chat in failures then Some(failures[chat]) else None
  }

  ghost predicate FailuresInv(s: State, chat: ChatID)
  {
    Windowed(FailuresOf(s.history, chat), WindowOf(s.failures, chat), s.clock)
  }

  lemma FailuresOfAppend(history: seq<Fact>, f: Fact, chat: ChatID)
    ensures FailuresOf(history + [f], chat)
            == FailuresOf(history, chat) + if f.Failed? && f.chat == chat then [f] else []
  {
    assert (history + [f])[..|history|] == history;
  }

  lemma OpenWindow(fs: seq<Fact>, w: Option<Window>, clock: int, chat: ChatID, windowAt: int, stampAt: int)
    requires forall f <- fs :: f.Failed?
    requires Windowed(fs, w, clock) && clock <= windowAt <= stampAt
    requires w.None? || windowAt - w.value.start > BLOCK_WINDOW
    ensures Windowed(fs + [Failed(chat, stampAt, stampAt)], Some(Window(1, stampAt)), stampAt)
  {
    forall i | 0 <= i < |fs| ensures fs[i].windowStart + BLOCK_WINDOW < stampAt && fs[i].at <= stampAt {
      if w.Some? {
        assert fs[i].windowStart <= w.value.start;
      }
    }
    SpreadAppend(fs, clock, Failed(chat, stampAt, stampAt), stampAt);
  }

  lemma CountFailure(fs: seq<Fact>, w: Window, clock: int, chat: ChatID, windowAt: int, stampAt: int)
    requires forall f <- fs :: f.Failed?
    requires Windowed(fs, Some(w), clock) && clock <= windowAt <= stampAt
    requires w.count < MAX_FAILURES
    ensures Windowed(fs + [Failed(chat, windowAt, w.start)], Some(w.(count := w.count + 1)), stampAt)
  {
    forall i | 0 <= i < |fs|
      ensures fs[i].windowStart == w.start || fs[i].windowStart + BLOCK_WINDOW < w.start
    {
      if i >= |fs| - w.count {
        assert fs[i].windowStart == w.start;
      }
    }
    SpreadAppend(fs, clock, Failed(chat, windowAt, w.start), stampAt);
  }

  lemma LaterClock(fs: seq<Fact>, w: Option<Window>, clock: int, later: int)
    requires forall f <- fs :: f.Failed?
    requires Windowed(fs, w, clock) && clock <= later
    ensures Windowed(fs, w, later)
    ensures w.Some? && later - w.value.start > BLOCK_WINDOW ==> Windowed(fs, None, later)
  {
    if w.Some? && later - w.value.start > BLOCK_WINDOW {
      forall i | 0 <= i < |fs| ensures fs[i].windowStart + BLOCK_WINDOW < later {
        assert fs[i].windowStart <= w.value.start;
      }
    }
  }

  /** What each effect does to one chat's failures and window. */
  lemma EffectOnFailures(s: State, e: Effect, env: Env, chat: ChatID)
    requires Enabled(s, e, env)
    ensures var s' := Apply(s, e, env);
            var turned := DropExpired(s.failures, chat, env.blockAt);
            if e.Failure? && e.chat == chat then
              && WindowOf(s'.failures, chat)
                 == WindowOf(CountedFailure(turned, chat, env.windowAt, env.stampAt), chat)
              && FailuresOf(s'.history, chat)
                 == FailuresOf(s.history, chat) + [FailureFact(turned, chat, env.windowAt, env.stampAt)]
            else
              && FailuresOf(s'.history, chat) == FailuresOf(s.history, chat)
              && (s'.failures == s.failures || WindowOf(s'.failures, chat) == WindowOf(s.failures, chat)
                  || WindowOf(s'.failures, chat) == WindowOf(turned, chat))
  {
    match e
    case Idle =>
    case Turned(_) =>
    case Failure(c) =>
      FailuresOfAppend(s.history,
                       FailureFact(DropExpired(s.failures, c, env.blockAt), c, env.windowAt, env.stampAt), chat);
    case Admission(c, _, code) =>
      FailuresOfAppend(s.history, Joined(c, code, env.validateAt, s.invites[code].expiresAt), chat);
    case Generate =>
    case Departure(c) =>
      FailuresOfAppend(s.history, Left(c), chat);
  }

  lemma TurnKeepsWindowed(fs: seq<Fact>, failures: Windows, clock: int, blockAt: int, later: int, chat: ChatID)
    requires forall f <- fs :: f.Failed?
    requires Windowed(fs, WindowOf(failures, chat), clock)
    requires clock <= blockAt <= later
    ensures Windowed(fs, WindowOf(failures, chat), later)
    ensures Windowed(fs, WindowOf(DropExpired(failures, chat, blockAt), chat), later)
  {
    LaterClock(fs, WindowOf(failures, chat), clock, later);
  }

  lemma AttemptKeepsWindowed(fs: seq<Fact>, turned: Windows, clock: int, windowAt: int, stampAt: int, chat: ChatID)
    requires forall f <- fs :: f.Failed?
    requires Windowed(fs, WindowOf(turned, chat), clock)
    requires chat in turned ==> turned[chat].count < MAX_FAILURES
    requires clock <= windowAt <= stampAt
    ensures Windowed(fs + [FailureFact(turned, chat, windowAt, stampAt)],
                     WindowOf(CountedFailure(turned, chat, windowAt, stampAt), chat), stampAt)
  {
    var w := WindowOf(turned, chat);
    if w.None? || windowAt - w.value.start > BLOCK_WINDOW {
      OpenWindow(fs, w, clock, chat, windowAt, stampAt);
    } else {
      CountFailure(fs, w.value, clock, chat, windowAt, stampAt);
    }
  }

  lemma StepKeepsFailures(s: State, e: Effect, env: Env, chat: ChatID)
    requires FailuresInv(s, chat) && Enabled(s, e, env)
    requires s.clock <= env.blockAt <= env.windowAt <= env.stampAt
    ensures FailuresInv(Apply(s, e, env).(clock := env.stampAt), chat)
  {
    var fs := FailuresOf(s.history, chat);
    EffectOnFailures(s, e, env, chat);
    if e.Failure? && e.chat == chat {
      TurnKeepsWindowed(fs, s.failures, s.clock, env.blockAt, env.blockAt, chat);
      AttemptKeepsWindowed(fs, DropExpired(s.failures, chat, env.blockAt), env.blockAt,
                           env.windowAt, env.stampAt, chat);
    } else {
      TurnKeepsWindowed(fs, s.failures, s.clock, env.blockAt, env.stampAt, chat);
    }
  }

  lemma {:induction false} RunKeepsFailures(s: State, ms: seq<Message>, chat: ChatID)
    requires FailuresInv(s, chat) && Legal(s, ms)
    ensures FailuresInv(Run(s, ms), chat)
    decreases ms
  {
    if ms != [] {
      var e := StepEffect(s, ms[0].update, ms[0].env);
      StepKeepsFailures(s, e, ms[0].env, chat);
      RunKeepsFailures(Step(s, ms[0].update, ms[0].env), ms[1..], chat);
    }
  }

  ghost function FailureTimes(s: State, chat: ChatID): seq<int>
  {
    var fs := FailuresOf(s.history, chat);
    seq(|fs|, i requires 0 <= i < |fs| => fs[i].at)
  }

  lemma {:induction false} StartSpan(fs: seq<Fact>, w: Option<Window>, clock: int, i: nat, k: nat)
    requires forall f <- fs :: f.Failed?
    requires Windowed(fs, w, clock) && i + MAX_FAILURES * k < |fs|
    ensures fs[i + MAX_FAILURES * k].windowStart - fs[i].windowStart >= k * BLOCK_WINDOW
    decreases k
  {
    if k > 0 {
      StartSpan(fs, w, clock, i, k - 1);
      var j := i + MAX_FAILURES * (k - 1);
      assert fs[j].windowStart + BLOCK_WINDOW < fs[j + MAX_FAILURES].windowStart;
    }
  }

  lemma WindowedBound(fs: seq<Fact>, w: Option<Window>, clock: int, times: seq<int>, lo: int, T: nat)
    requires forall f <- fs :: f.Failed?
    requires Windowed(fs, w, clock)
    requires |times| == |fs| && forall i :: 0 <= i < |fs| ==> times[i] == fs[i].at
    ensures Count(times, lo, lo + T) <= MAX_FAILURES * (T / BLOCK_WINDOW + 2)
  {
    var m := T / BLOCK_WINDOW + 1;
    var n := MAX_FAILURES * (m + 1);
    assert m * BLOCK_WINDOW > T by { QuotientSpan(T, BLOCK_WINDOW); }
    forall i | 0 <= i && i + n < |times| ensures times[i + n] - times[i] > T {
      StartSpan(fs, w, clock, i + MAX_FAILURES, m);
      assert i + MAX_FAILURES + MAX_FAILURES * m == i + n;
      assert fs[i].at <= fs[i + MAX_FAILURES].windowStart;
      assert fs[i + n].windowStart <= fs[i + n].at;
    }
    SlidingBound(times, lo, T, n);
  }

  /** The rate bound over every run: a chat's counter never exceeds five, its successive windows
      start more than ten minutes apart, and in any interval of length T it gets at most
      5 * (T / 10min + 2) failed registrations recorded. */
  lemma {:induction false} FailureBound(admin: ChatID, stored: ConfigMap, reachable: bool, created: bool, now: int,
                     ms: seq<Message>, chat: ChatID, lo: int, T: nat)
    requires Legal(Boot(admin, stored, reachable, created, now), ms)
    ensures var e := Run(Boot(admin, stored, reachable, created, now), ms);
            && (chat in e.failures ==> e.failures[chat].count <= MAX_FAILURES)
            && (forall i, j :: 0 <= i < j < |FailuresOf(e.history, chat)| ==>
                  var (f, g) := (FailuresOf(e.history, chat)[i], FailuresOf(e.history, chat)[j]);
                  f.windowStart == g.windowStart || g.windowStart - f.windowStart > BLOCK_WINDOW)
            && Count(FailureTimes(e, chat), lo, lo + T) <= MAX_FAILURES * (T / BLOCK_WINDOW + 2)
  {
    var b := Boot(admin, stored, reachable, created, now);
    RunKeepsFailures(b, ms, chat);
    var e := Run(b, ms);
    var fs, times := FailuresOf(e.history, chat), FailureTimes(e, chat);
    WindowedBound(fs, WindowOf(e.failures, chat), e.clock, times, lo, T);
  }

  /** The guard, read off the history alone: a chat is blocked exactly while its five latest
      recorded failures share one window that started at most ten minutes ago. */
  lemma BlockedExactly(s: State, chat: ChatID, now: int)
    requires FailuresInv(s, chat) && s.clock <= now
    ensures var fs := FailuresOf(s.history, chat);
            Blocked(s.failures, chat, now)
            <==> && |fs| >= MAX_FAILURES
                 && fs[|fs| - MAX_FAILURES].windowStart == fs[|fs| - 1].windowStart
                 && now - fs[|fs| - 1].windowStart <= BLOCK_WINDOW
  {
    var fs := FailuresOf(s.history, chat);
    if chat in s.failures && |fs| >= MAX_FAILURES {
      var w := s.failures[chat];
      assert fs[|fs| - 1].windowStart == w.start;
      if w.count < MAX_FAILURES {
        assert fs[|fs| - MAX_FAILURES].windowStart + BLOCK_WINDOW < w.start;
      }
    }
  }

  // ---------- invites and membership ----------

  ghost function JoinsWith(history: seq<Fact>, code: string): nat
  {
    if history == [] then 0
    else
      var last := history[|history| - 1];
      JoinsWith(history[..|history| - 1], code) + if last.Joined? && last.code == code then 1 else 0
  }

  ghost function Leaves(history: seq<Fact>): nat
  {
    if history == [] then 0
    else Leaves(history[..|history| - 1]) + if history[|history| - 1].Left? then 1 else 0
  }

  ghost function SumOver(codes: set<string>, invites: map<string, Invite>): int
    requires codes <= invites.Keys
  {
    if codes == {} then 0
    else
      var code :| code in codes;
      invites[code].usedCount + SumOver(codes - {code}, invites)
  }

  /** The sum of all codes' use counts. */
  ghost function SumUsed(invites: map<string, Invite>): int
  {
    SumOver(invites.Keys, invites)
  }

  lemma {:induction false} SumOverPick(codes: set<string>, invites: map<string, Invite>, code: string)
    requires code in codes && codes <= invites.Keys
    ensures SumOver(codes, invites) == invites[code].usedCount + SumOver(codes - {code}, invites)
  {
    var c :| c in codes && SumOver(codes, invites) == invites[c].usedCount + SumOver(codes - {c}, invites);
    if c != code {
      SumOverPick(codes - {c}, invites, code);
      SumOverPick(codes - {code}, invites, c);
      assert codes - {c} - {code} == codes - {code} - {c};
    }
  }

  lemma {:induction false} SumOverAgree(codes: set<string>, a: map<string, Invite>, b: map<string, Invite>)
    requires codes <= a.Keys && codes <= b.Keys
    requires forall c <- codes :: a[c] == b[c]
    ensures SumOver(codes, a) == SumOver(codes, b)
  {
    if codes != {} {
      var c :| c in codes;
      SumOverPick(codes, a, c);
      SumOverPick(codes, b, c);
      SumOverAgree(codes - {c}, a, b);
    }
  }

  lemma SumUsedUpdate(invites: map<string, Invite>, code: string, inv: Invite)
    ensures SumUsed(invites[code := inv])
            == SumUsed(invites) + inv.usedCount - if code in invites then invites[code].usedCount else 0
  {
    var updated := invites[code := inv];
    SumOverPick(updated.Keys, updated, code);
    SumOverAgree(invites.Keys - {code}, invites, updated);
    assert updated.Keys - {code} == invites.Keys - {code};
    if code in invites {
      SumOverPick(invites.Keys, invites, code);
    } else {
      assert invites.Keys - {code} == invites.Keys;
    }
  }

  /** Every code's use count is in range and counts the registrations made with it. */
  ghost predicate UsesMatch(invites: map<string, Invite>, history: seq<Fact>)
  {
    && (forall code <- invites :: 0 <= invites[code].usedCount <= invites[code].maxUses)
    && (forall code :: JoinsWith(history, code) == if code in invites then invites[code].usedCount else 0)
  }

  /** Every recorded registration used a known code before its expiry, and was not the admin's. */
  ghost predicate JoinsFair(admin: ChatID, invites: map<string, Invite>, history: seq<Fact>)
  {
    forall f <- history :: f.Joined? ==>
      f.chat != admin && f.code in invites && f.at <= f.expiresAt == invites[f.code].expiresAt
  }

  ghost predicate InvitesInv(s: State, loaded: Members)
  {
    && UsesMatch(s.invites, s.history)
    && JoinsFair(s.admin, s.invites, s.history)
    && |s.members| == |loaded| + SumUsed(s.invites) - Leaves(s.history)
    && (s.admin in s.members ==> s.admin in loaded)
  }

  lemma HistoryAppend(history: seq<Fact>, f: Fact, code: string)
    ensures JoinsWith(history + [f], code)
            == JoinsWith(history, code) + if f.Joined? && f.code == code then 1 else 0
    ensures Leaves(history + [f]) == Leaves(history) + if f.Left? then 1 else 0
  {
    assert (history + [f])[..|history|] == history;
  }

  lemma LeaveKeepsInvites(s: State, loaded: Members, chat: ChatID, env: Env)
    requires InvitesInv(s, loaded) && chat in s.members
    ensures InvitesInv(Leave(s, chat, env), loaded)
  {
    assert UsesMatch(s.invites, s.history + [Left(chat)]) by {
      forall code { HistoryAppend(s.history, Left(chat), code); }
    }
    assert |s.members| == |s.members - {chat}| + 1 by {
      assert s.members.Keys == (s.members - {chat}).Keys + {chat};
    }
    HistoryAppend(s.history, Left(chat), "");
  }

  lemma FailureKeepsInvites(s: State, loaded: Members, chat: ChatID, windowAt: int, stampAt: int)
    requires InvitesInv(s, loaded)
    ensures InvitesInv(RecordFailedAttempt(s, chat, windowAt, stampAt), loaded)
  {
    var f := FailureFact(s.failures, chat, windowAt, stampAt);
    forall code { HistoryAppend(s.history, f, code); }
    HistoryAppend(s.history, f, "");
  }

  lemma UseKeepsMatch(invites: map<string, Invite>, history: seq<Fact>, f: Fact)
    requires UsesMatch(invites, history) && f.Joined?
    requires f.code in invites && invites[f.code].usedCount < invites[f.code].maxUses
    ensures var inv := invites[f.code];
            UsesMatch(invites[f.code := inv.(usedCount := inv.usedCount + 1)], history + [f])
  {
    forall c { HistoryAppend(history, f, c); }
  }

  lemma UseKeepsFair(admin: ChatID, invites: map<string, Invite>, history: seq<Fact>, f: Fact)
    requires JoinsFair(admin, invites, history) && f.Joined? && f.chat != admin
    requires f.code in invites && f.at <= f.expiresAt == invites[f.code].expiresAt
    ensures var inv := invites[f.code];
            JoinsFair(admin, invites[f.code := inv.(usedCount := inv.usedCount + 1)], history + [f])
  {
  }

  lemma OneMore(members: Members, chat: ChatID, username: string)
    requires chat !in members
    ensures |members[chat := username]| == |members| + 1
  {
    assert members[chat := username].Keys == members.Keys + {chat};
  }

  lemma AdmitKeepsInvites(s: State, loaded: Members, chat: ChatID, username: string, code: string, env: Env)
    requires InvitesInv(s, loaded) && !IsAuthorized(s, chat)
    requires code in s.invites && s.invites[code].usedCount < s.invites[code].maxUses
    requires env.validateAt <= s.invites[code].expiresAt
    ensures InvitesInv(Admit(s, chat, username, code, env), loaded)
  {
    var inv := s.invites[code];
    var f := Joined(chat, code, env.validateAt, inv.expiresAt);
    UseKeepsMatch(s.invites, s.history, f);
    UseKeepsFair(s.admin, s.invites, s.history, f);
    OneMore(s.members, chat, username);
    SumUsedUpdate(s.invites, code, inv.(usedCount := inv.usedCount + 1));
    HistoryAppend(s.history, f, code);
    var s' := Admit(s, chat, username, code, env);
    assert s'.history == s.history + [f];
    assert s'.invites == s.invites[code := inv.(usedCount := inv.usedCount + 1)];
    assert s'.members == s.members[chat := username];
  }

  lemma StepKeepsInvites(s: State, loaded: Members, e: Effect, env: Env)
    requires InvitesInv(s, loaded) && Enabled(s, e, env)
    ensures InvitesInv(Apply(s, e, env), loaded)
  {
    match e
    case Idle =>
    case Turned(_) =>
    case Failure(chat) =>
      FailureKeepsInvites(Turn(s, chat, env), loaded, chat, env.windowAt, env.stampAt);
    case Admission(chat, username, code) =>
      AdmitKeepsInvites(Turn(s, chat, env), loaded, chat, username, code, env);
    case Generate =>
      SumUsedUpdate(s.invites, env.code, Invite(env.stampAt + INVITE_TTL, MAX_USES, 0));
    case Departure(chat) => LeaveKeepsInvites(s, loaded, chat, env);
  }

  lemma {:induction false} RunKeepsInvites(s: State, loaded: Members, ms: seq<Message>)
    requires InvitesInv(s, loaded) && Legal(s, ms)
    ensures InvitesInv(Run(s, ms), loaded)
    decreases ms
  {
    if ms != [] {
      var e := StepEffect(s, ms[0].update, ms[0].env);
      StepKeepsInvites(s, loaded, e, ms[0].env);
      RunKeepsInvites(Step(s, ms[0].update, ms[0].env), loaded, ms[1..]);
    }
  }

  /** Conservation over every run: a code's use count is the number of registrations made with
      it, never above its maximum and never raised after its expiry; registering never adds the
      admin; and the team is the loaded members plus all uses of all codes minus all departures. */
  lemma {:induction false} Conservation(admin: ChatID, stored: ConfigMap, reachable: bool, created: bool, now: int,
                     ms: seq<Message>)
    requires Legal(Boot(admin, stored, reachable, created, now), ms)
    ensures var b := Boot(admin, stored, reachable, created, now);
            var e := Run(b, ms);
            && (forall code <- e.invites ::
                  e.invites[code].usedCount == JoinsWith(e.history, code) <= e.invites[code].maxUses)
            && (forall f <- e.history :: f.Joined? ==>
                  f.chat != admin && f.code in e.invites && f.at <= f.expiresAt == e.invites[f.code].expiresAt)
            && (admin in e.members ==> admin in b.members)
            && |e.members| == |b.members| + SumUsed(e.invites) - Leaves(e.history)
  {
    var b := Boot(admin, stored, reachable, created, now);
    RunKeepsInvites(b, b.members, ms);
    RunKeepsAdmin(b, ms);
  }

  lemma {:induction false} RunKeepsAdmin(s: State, ms: seq<Message>)
    ensures Run(s, ms).admin == s.admin
    decreases ms
  {
    if ms != [] {
      RunKeepsAdmin(Step(s, ms[0].update, ms[0].env), ms[1..]);
    }
  }

  lemma EffectPower(s: State, e: Effect, env: Env, sender: ChatID)
    requires Enabled(s, e, env) && !e.Generate?
    requires e.Turned? || e.Failure? || e.Admission? || e.Departure? ==> e.chat == sender
    ensures var s' := Apply(s, e, env);
            && (forall k :: k != sender ==> (k in s'.members <==> k in s.members))
            && (forall k <- s'.members :: k in s.members ==> s'.members[k] == s.members[k])
            && s'.invites.Keys == s.invites.Keys
            && (forall k :: k != sender ==> WindowOf(s'.failures, k) == WindowOf(s.failures, k))
            && (sender !in s.members && sender in s'.members ==>
                  e.Admission? && s'.invites[e.code].usedCount == s.invites[e.code].usedCount + 1)
  {
    var s' := Apply(s, e, env);
    assert s'.invites.Keys == s.invites.Keys;
  }

  /** The admin's /remove takes out one member bearing the name, or nobody if nobody bears it. */
  lemma RemovalExact(s: State, text: string, env: Env)
    requires Enumerates(env.visit, s.members.Keys)
    ensures var target := RemovalTarget(text);
            var m := RemoveUser(s, text, env).members;
            if target != "" && target in s.members.Values then
              exists k <- s.members :: s.members[k] == target && m == s.members - {k}
            else m == s.members
  {
    var target := RemovalTarget(text);
    var found := FindNamed(s.members, env.visit, target);
    if found.Some? {
      assert found.value in s.members && s.members[found.value] == target;
    } else {
      forall k | k in s.members ensures s.members[k] != target {
        assert k in env.visit;
        assert NameOf(s.members, k) != target;
      }
    }
  }

  /** What one message from anyone but the admin can do: it adds or removes nobody but its own
      sender, creates no code, touches no other chat's counter, and raises at most one use count. */
  lemma {:induction false} NonAdminPower(s: State, u: Update, env: Env)
    requires u.chat != s.admin && Allowed(s, u, env)
    ensures var s' := Step(s, u, env);
            && (forall k :: k != u.chat ==> (k in s'.members <==> k in s.members))
            && (forall k <- s'.members :: k in s.members ==> s'.members[k] == s.members[k])
            && s'.invites.Keys == s.invites.Keys
            && (forall k :: k != u.chat ==> WindowOf(s'.failures, k) == WindowOf(s.failures, k))
            && (u.chat !in s.members && u.chat in s'.members ==>
                  var code := InviteIn(TrimSpace(u.text));
                  code in s.invites && s'.invites[code].usedCount == s.invites[code].usedCount + 1)
  {
    var e := StepEffect(s, u, env);
    EffectPower(s, e, env, u.chat);
  }
}
