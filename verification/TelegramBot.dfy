/** The Telegram bot as the object the source has: four concurrent maps, two of them holding
    pointers to records updated in place. Every handler is proved to take the matching step of
    Team, so what Team proves of every run holds of this object. */
module TelegramBot {
  import opened Wrappers
  import opened Text
  import opened Subscribers
  import opened Team
  import Actions
  import Approval

  class InviteCode {
    const code: string
    const expiresAt: int
    const maxUses: int
    var usedCount: int

    constructor (code: string, expiresAt: int, maxUses: int)
      ensures this.code == code && this.expiresAt == expiresAt && this.maxUses == maxUses && usedCount == 0
    {
      this.code, this.expiresAt, this.maxUses, this.usedCount := code, expiresAt, maxUses, 0;
    }
  }

  class RateEntry {
    var count: int
    const windowStart: int

    constructor (windowStart: int)
      ensures this.windowStart == windowStart && count == 1
    {
      this.count, this.windowStart := 1, windowStart;
    }
  }

  /** A message handed to the transport, with the action id of its button if it has one. */
  datatype Delivery = Delivery(chat: ChatID, text: string, actionId: Option<string>)

  class Bot {
    const adminChatID: ChatID
    var chatIDs: Members
    var inviteCodes: map<string, InviteCode>
    var failedAttempts: map<ChatID, RateEntry>
    var executedActions: set<string>
    var configMap: ConfigMap
    ghost var clock: int
    ghost var history: seq<Fact>

    /** No two keys share a record. */
    ghost predicate Valid()
      reads this`inviteCodes, this`failedAttempts
    {
      && (forall c, d :: c in inviteCodes && d in inviteCodes && c != d ==> inviteCodes[c] != inviteCodes[d])
      && (forall c, d :: c in failedAttempts && d in failedAttempts && c != d ==>
            failedAttempts[c] != failedAttempts[d])
    }

    ghost function Invites(): map<string, Invite>
      reads this`inviteCodes, inviteCodes.Values
    {
      map c | c in inviteCodes ::
        Invite(inviteCodes[c].expiresAt, inviteCodes[c].maxUses, inviteCodes[c].usedCount)
    }

    ghost function Failures(): Windows
      reads this`failedAttempts, failedAttempts.Values
    {
      map c | c in failedAttempts :: Window(failedAttempts[c].count, failedAttempts[c].windowStart)
    }

    ghost function Abs(): State
      reads this, inviteCodes.Values, failedAttempts.Values
    {
      State(adminChatID, chatIDs, Invites(), Failures(), configMap, clock, history)
    }

    /** NewTelegramBot, beside a cluster that holds the given ConfigMap. */
    constructor (admin: ChatID, stored: ConfigMap, ghost now: int)
      ensures Valid() && Abs() == State(admin, map[], map[], map[], stored, now, [])
      ensures executedActions == {}
    {
      adminChatID := admin;
      chatIDs, inviteCodes, failedAttempts, executedActions := map[], map[], map[], {};
      configMap := stored;
      clock, history := now, [];
    }

    /** loadSubscribers, the first thing Start does. */
    method LoadSubscribers(reachable: bool, created: bool)
      requires Valid() && Abs() == State(adminChatID, map[], map[], map[], configMap, clock, [])
      modifies this`chatIDs, this`configMap
      ensures Valid() && Abs() == Boot(adminChatID, old(configMap), reachable, created, clock)
    {
      if !reachable || configMap.Absent? {
        // The Get failed: create the ConfigMap, which fails if it exists after all.
        if configMap.Absent? && created {
          configMap := Present("");
        }
        return;
      }
      chatIDs := ParseMembers(configMap.chatIds);
    }

    method SaveSubscribers(env: Env)
      requires Valid() && Enumerates(env.order, chatIDs.Keys)
      modifies this`configMap
      ensures Valid() && Abs() == Save(old(Abs()), env)
    {
      var data := PrintMembers(chatIDs, env.order);
      if env.saved {
        configMap := Present(data);
      }
    }

    method Authorized(chat: ChatID) returns (r: bool)
      requires Valid()
      ensures r == IsAuthorized(Abs(), chat)
    {
      if chat == adminChatID {
        return true;
      }
      r := chat in chatIDs;
    }

    /** checkBruteForce. */
    method CheckBruteForce(chat: ChatID, now: int) returns (blocked: bool)
      requires Valid()
      modifies this`failedAttempts
      ensures Valid() && failedAttempts.Values <= old(failedAttempts.Values)
      ensures blocked == Blocked(old(Failures()), chat, now)
      ensures Abs() == old(Abs()).(failures := DropExpired(old(Failures()), chat, now))
    {
      if chat !in failedAttempts {
        return false;
      }
      var entry := failedAttempts[chat];
      if now - entry.windowStart > BLOCK_WINDOW {
        failedAttempts := failedAttempts - {chat};
        return false;
      }
      return entry.count >= MAX_FAILURES;
    }

    method RecordFailedAttempt(chat: ChatID, windowAt: int, stampAt: int)
      requires Valid()
      modifies this`failedAttempts, this`history, failedAttempts.Values
      ensures Valid() && fresh(failedAttempts.Values - old(failedAttempts.Values))
      ensures Failures() == CountedFailure(old(Failures()), chat, windowAt, stampAt)
      ensures history == old(history) + [FailureFact(old(Failures()), chat, windowAt, stampAt)]
    {
      ghost var before := Failures();
      history := history + [FailureFact(before, chat, windowAt, stampAt)];
      if chat !in failedAttempts || windowAt - failedAttempts[chat].windowStart > BLOCK_WINDOW {
        var entry := new RateEntry(stampAt);
        failedAttempts := failedAttempts[chat := entry];
        assert Failures() == before[chat := Window(1, stampAt)];
        return;
      }
      var entry := failedAttempts[chat];
      entry.count := entry.count + 1;
      assert Failures() == before[chat := Window(before[chat].count + 1, before[chat].start)];
    }

    method HandleGenerateInvite(env: Env)
      requires Valid()
      modifies this`inviteCodes
      ensures Valid() && fresh(inviteCodes.Values - old(inviteCodes.Values))
      ensures Abs() == GenerateInvite(old(Abs()), env)
    {
      var code := new InviteCode(env.code, env.stampAt + INVITE_TTL, MAX_USES);
      inviteCodes := inviteCodes[env.code := code];
      assert Invites() == old(Invites())[env.code := Invite(env.stampAt + INVITE_TTL, MAX_USES, 0)];
    }

    method CountUse(code: string)
      requires Valid() && code in inviteCodes
      modifies inviteCodes[code]
      ensures Valid()
      ensures var inv := old(Invites())[code];
              Abs() == old(Abs()).(invites := old(Invites())[code := inv.(usedCount := inv.usedCount + 1)])
    {
      var inv := inviteCodes[code];
      inv.usedCount := inv.usedCount + 1;
    }

    method SetMembers(members: Members, ghost fact: Fact)
      requires Valid()
      modifies this`chatIDs, this`history
      ensures Valid() && Abs() == old(Abs()).(members := members, history := old(history) + [fact])
    {
      chatIDs := members;
      history := history + [fact];
    }

    /** The successful end of handleRegister. */
    method AdmitMember(chat: ChatID, username: string, code: string, env: Env)
      requires Valid() && code in inviteCodes
      requires Enumerates(env.order, chatIDs[chat := username].Keys)
      modifies this`chatIDs, this`configMap, this`history, inviteCodes[code]
      ensures Valid() && Abs() == Admit(old(Abs()), chat, username, code, env)
    {
      CountUse(code);
      SetMembers(chatIDs[chat := username], Joined(chat, code, env.validateAt, inviteCodes[code].expiresAt));
      SaveSubscribers(env);
    }

    method RedeemCode(chat: ChatID, username: string, code: string, env: Env)
      requires Valid()
      requires Enumerates(env.order, Redeem(Abs(), chat, username, code, env).members.Keys)
      modifies this`chatIDs, this`failedAttempts, this`configMap, this`history
      modifies inviteCodes.Values, failedAttempts.Values
      ensures Valid() && fresh(failedAttempts.Values - old(failedAttempts.Values))
      ensures Abs() == Redeem(old(Abs()), chat, username, code, env)
    {
      if code == "" || code !in inviteCodes || env.validateAt > inviteCodes[code].expiresAt {
        RecordFailedAttempt(chat, env.windowAt, env.stampAt);
      } else if inviteCodes[code].usedCount < inviteCodes[code].maxUses {
        AdmitMember(chat, username, code, env);
      }
    }

    method RegisterUnblocked(chat: ChatID, username: string, rawText: string, env: Env)
      requires Valid()
      requires Enumerates(env.order, Team.RegisterUnblocked(Abs(), chat, username, rawText, env).members.Keys)
      modifies this`chatIDs, this`failedAttempts, this`configMap, this`history
      modifies inviteCodes.Values, failedAttempts.Values
      ensures Valid() && fresh(failedAttempts.Values - old(failedAttempts.Values))
      ensures Abs() == Team.RegisterUnblocked(old(Abs()), chat, username, rawText, env)
    {
      if chat == adminChatID {
        return;
      }
      var registered := Authorized(chat);
      if registered {
        return;
      }
      var code := InviteIn(rawText);
      RedeemCode(chat, username, code, env);
    }

    method HandleRegister(chat: ChatID, username: string, rawText: string, env: Env)
      requires Valid()
      requires Enumerates(env.order, Register(Abs(), chat, username, rawText, env).members.Keys)
      modifies this`chatIDs, this`failedAttempts, this`configMap, this`history
      modifies inviteCodes.Values, failedAttempts.Values
      ensures Valid() && fresh(failedAttempts.Values - old(failedAttempts.Values))
      ensures Abs() == Register(old(Abs()), chat, username, rawText, env)
    {
      var blocked := CheckBruteForce(chat, env.blockAt);
      if !blocked {
        RegisterUnblocked(chat, username, rawText, env);
      }
    }

    /** What leaving and removal share: delete the member and save. */
    method Depart(chat: ChatID, env: Env)
      requires Valid() && Enumerates(env.order, chatIDs.Keys - {chat})
      modifies this`chatIDs, this`configMap, this`history
      ensures Valid() && Abs() == Leave(old(Abs()), chat, env)
    {
      SetMembers(chatIDs - {chat}, Left(chat));
      SaveSubscribers(env);
    }

    method HandleUnregister(chat: ChatID, env: Env)
      requires Valid()
      requires Enumerates(env.order, Unregister(Abs(), chat, env).members.Keys)
      modifies this`chatIDs, this`configMap, this`history
      ensures Valid() && Abs() == Unregister(old(Abs()), chat, env)
    {
      if chat == adminChatID {
        return;
      }
      var registered := Authorized(chat);
      if registered {
        Depart(chat, env);
      }
    }

    /** The search of handleRemoveUser: Range until the name matches. */
    method FindByName(target: string, visit: seq<ChatID>) returns (found: Option<ChatID>)
      requires forall k <- visit :: k in chatIDs
      ensures found == FindNamed(chatIDs, visit, target)
    {
      for i := 0 to |visit|
        invariant FindNamed(chatIDs, visit[i..], target) == FindNamed(chatIDs, visit, target)
      {
        if chatIDs[visit[i]] == target {
          return Some(visit[i]);
        }
      }
      return None;
    }

    method HandleRemoveUser(rawText: string, env: Env)
      requires Valid() && Enumerates(env.visit, chatIDs.Keys)
      requires Enumerates(env.order, RemoveUser(Abs(), rawText, env).members.Keys)
      modifies this`chatIDs, this`configMap, this`history
      ensures Valid() && Abs() == RemoveUser(old(Abs()), rawText, env)
    {
      var target := RemovalTarget(rawText);
      if target == "" {
        return;
      }
      var found := FindByName(target, env.visit);
      if found.Some? {
        assert RemoveUser(Abs(), rawText, env) == Leave(Abs(), found.value, env);
        Depart(found.value, env);
      }
    }

    method HandleCommand(chat: ChatID, text: string, env: Env)
      requires Valid() && Enumerates(env.visit, chatIDs.Keys)
      requires Enumerates(env.order, Command(Abs(), chat, text, env).members.Keys)
      modifies this`chatIDs, this`inviteCodes, this`configMap, this`history
      ensures Valid() && fresh(inviteCodes.Values - old(inviteCodes.Values))
      ensures Abs() == Command(old(Abs()), chat, text, env)
    {
      if text == "/invite" {
        if chat == adminChatID {
          HandleGenerateInvite(env);
        }
      } else if text == "/unregister" {
        HandleUnregister(chat, env);
      } else if HasPrefix(text, "/remove ") {
        if chat == adminChatID {
          HandleRemoveUser(text, env);
        }
      }
    }

    method HandleText(chat: ChatID, username: string, text: string, env: Env)
      requires Valid() && Enumerates(env.visit, chatIDs.Keys)
      requires Enumerates(env.order, Route(Abs(), chat, username, text, env).members.Keys)
      modifies this`chatIDs, this`inviteCodes, this`failedAttempts, this`configMap, this`history
      modifies inviteCodes.Values, failedAttempts.Values
      ensures Valid()
      ensures fresh(inviteCodes.Values - old(inviteCodes.Values))
      ensures fresh(failedAttempts.Values - old(failedAttempts.Values))
      ensures Abs() == Route(old(Abs()), chat, username, text, env)
    {
      if HasPrefix(text, "/register") {
        HandleRegister(chat, username, text, env);
      } else {
        var authorised := Authorized(chat);
        if authorised {
          HandleCommand(chat, text, env);
        }
      }
    }

    ghost method Tick(now: int)
      requires Valid()
      modifies this`clock
      ensures Valid() && Abs() == old(Abs()).(clock := now)
    {
      clock := now;
    }

    /** One turn of the main loop on a text message. */
    method HandleMessage(u: Update, env: Env)
      requires Valid() && Allowed(Abs(), u, env)
      modifies this`chatIDs, this`inviteCodes, this`failedAttempts, this`configMap, this`history, this`clock
      modifies inviteCodes.Values, failedAttempts.Values
      ensures Valid()
      ensures fresh(inviteCodes.Values - old(inviteCodes.Values))
      ensures fresh(failedAttempts.Values - old(failedAttempts.Values))
      ensures Abs() == Step(old(Abs()), u, env)
    {
      HandleText(u.chat, u.username, TrimSpace(u.text), env);
      Tick(env.stampAt);
    }

    /** Start's update loop over the text messages of a run. */
    method Serve(ms: seq<Message>)
      requires Valid() && Legal(Abs(), ms)
      modifies this`chatIDs, this`inviteCodes, this`failedAttempts, this`configMap, this`history, this`clock
      modifies inviteCodes.Values, failedAttempts.Values
      ensures Valid() && Abs() == Run(old(Abs()), ms)
    {
      for i := 0 to |ms|
        invariant Valid() && Legal(Abs(), ms[i..]) && Run(Abs(), ms[i..]) == Run(old(Abs()), ms)
        invariant fresh(inviteCodes.Values - old(inviteCodes.Values))
        invariant fresh(failedAttempts.Values - old(failedAttempts.Values))
      {
        assert ms[i..][0] == ms[i] && ms[i..][1..] == ms[i + 1..];
        HandleMessage(ms[i].update, ms[i].env);
      }
    }

    /** Broadcast reaches the admin first and then every member, in any order, each chat once. */
    method Broadcast(text: string, order: seq<ChatID>) returns (sent: seq<Delivery>)
      requires Enumerates(order, chatIDs.Keys)
      ensures Reaches(sent, text, None)
    {
      sent := [];
      var seen: set<ChatID> := {};
      if adminChatID != 0 {
        sent := sent + [Delivery(adminChatID, text, None)];
        seen := seen + {adminChatID};
      }
      for i := 0 to |order|
        invariant OneEach(sent, text, None)
        invariant seen == Chats(sent) == AdminSet() + Visited(order[..i])
        invariant adminChatID != 0 ==> sent != [] && sent[0].chat == adminChatID
      {
        VisitedNext(order, i);
        if order[i] !in seen {
          sent := sent + [Delivery(order[i], text, None)];
          seen := seen + {order[i]};
        }
      }
      assert order[..|order|] == order;
    }

    /** BroadcastWithAction does the same with an approval button. */
    method BroadcastWithAction(text: string, actionId: string, order: seq<ChatID>) returns (sent: seq<Delivery>)
      requires Enumerates(order, chatIDs.Keys)
      ensures Reaches(sent, text, Some(actionId))
    {
      sent := [];
      var seen: set<ChatID> := {};
      if adminChatID != 0 {
        sent, seen := SendOne(sent, seen, adminChatID, text, actionId);
      }
      for i := 0 to |order|
        invariant OneEach(sent, text, Some(actionId))
        invariant seen == Chats(sent) == AdminSet() + Visited(order[..i])
        invariant adminChatID != 0 ==> sent != [] && sent[0].chat == adminChatID
      {
        VisitedNext(order, i);
        sent, seen := SendOne(sent, seen, order[i], text, actionId);
      }
      assert order[..|order|] == order;
    }

    static method SendOne(sent: seq<Delivery>, seen: set<ChatID>, chat: ChatID, text: string, actionId: string)
      returns (sent': seq<Delivery>, seen': set<ChatID>)
      ensures sent' == if chat in seen then sent else sent + [Delivery(chat, text, Some(actionId))]
      ensures seen' == seen + {chat}
    {
      if chat in seen {
        return sent, seen;
      }
      return sent + [Delivery(chat, text, Some(actionId))], seen + {chat};
    }

    ghost function AdminSet(): set<ChatID>
    {
      if adminChatID != 0 then {adminChatID} else {}
    }

    static ghost function Visited(order: seq<ChatID>): set<ChatID>
    {
      set k | k in order
    }

    static lemma VisitedNext(order: seq<ChatID>, i: nat)
      requires i < |order|
      ensures Visited(order[..i + 1]) == Visited(order[..i]) + {order[i]}
    {
      assert order[..i + 1] == order[..i] + [order[i]];
    }

    static ghost function Chats(sent: seq<Delivery>): set<ChatID>
    {
      set d | d in sent :: d.chat
    }

    static ghost predicate OneEach(sent: seq<Delivery>, text: string, actionId: Option<string>)
    {
      && (forall d <- sent :: d.text == text && d.actionId == actionId)
      && (forall i, j :: 0 <= i < j < |sent| ==> sent[i].chat != sent[j].chat)
    }

    ghost predicate Reaches(sent: seq<Delivery>, text: string, actionId: Option<string>)
      reads this
    {
      && OneEach(sent, text, actionId)
      && Chats(sent) == AdminSet() + chatIDs.Keys
      && (adminChatID != 0 ==> sent != [] && sent[0].chat == adminChatID)
    }

    /** handleInteraction up to the call of the operation: check, claim, decode. */
    method HandleInteraction(actionID: string, chat: ChatID) returns (verdict: Approval.Verdict)
      requires Valid()
      modifies this`executedActions
      ensures (executedActions, verdict)
              == Approval.Handle(adminChatID, chatIDs.Keys, old(executedActions), actionID, chat)
      ensures Abs() == old(Abs())
    {
      var authorised := Authorized(chat);
      if !authorised {
        return Approval.Refused;
      }
      if actionID in executedActions {
        return Approval.AlreadyExecuted;
      }
      executedActions := executedActions + {actionID};
      verdict := Approval.Dispatched(Actions.TelegramDecode(actionID));
    }
  }
}
