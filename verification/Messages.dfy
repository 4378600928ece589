/** What each message does to the team, read off its text: which registrations are counted as
    failures and which succeed, what the commands change, and that everything else changes nothing. */
module Messages {
  import opened Wrappers
  import opened Text
  import opened Rates
  import opened Subscribers
  import opened Team

  // ---------- readings of a message ----------

  predicate Registers(u: Update)
  {
    "/register" <= TrimSpace(u.text)
  }

  /** What follows the word, without surrounding spaces. */
  function CodeIn(u: Update): string
    requires Registers(u)
  {
    TrimSpace(TrimSpace(u.text)[|"/register"|..])
  }

  predicate Outsider(s: State, chat: ChatID)
  {
    chat != s.admin && chat !in s.members
  }

  /** A registration with no code, an unknown code or an expired one. */
  predicate WrongCode(s: State, u: Update, env: Env)
  {
    && Registers(u) && Outsider(s, u.chat)
    && (CodeIn(u) == "" || CodeIn(u) !in s.invites || s.invites[CodeIn(u)].expiresAt < env.validateAt)
  }

  /** A registration with a code in force that has uses left. */
  predicate GoodCode(s: State, u: Update, env: Env)
  {
    && Registers(u) && Outsider(s, u.chat)
    && CodeIn(u) != "" && CodeIn(u) in s.invites && env.validateAt <= s.invites[CodeIn(u)].expiresAt
    && s.invites[CodeIn(u)].usedCount < s.invites[CodeIn(u)].maxUses
  }

  predicate AsksInvite(s: State, u: Update)
  {
    u.chat == s.admin && TrimSpace(u.text) == "/invite"
  }

  predicate Quits(s: State, u: Update)
  {
    u.chat != s.admin && u.chat in s.members && TrimSpace(u.text) == "/unregister"
  }

  /** The name after "/remove", without an "@" before it. */
  function NameIn(u: Update): string
    requires "/remove " <= TrimSpace(u.text)
  {
    var name := TrimSpace(TrimSpace(u.text)[|"/remove"|..]);
    if name != "" && name[0] == '@' then name[1..] else name
  }

  predicate Removes(s: State, u: Update)
  {
    && u.chat == s.admin && "/remove " <= TrimSpace(u.text)
    && NameIn(u) != "" && NameIn(u) in s.members.Values
  }

  /** What a change of the team does to the stored text. */
  predicate SavedIf(s: State, s': State, env: Env)
  {
    s'.stored == if env.saved then Present(Encode(s'.members, env.order)) else s.stored
  }

  /** Nothing but failure counts, the clock and the record may differ. */
  predicate SameTeam(s: State, s': State)
  {
    s'.admin == s.admin && s'.members == s.members && s'.invites == s.invites && s'.stored == s.stored
  }

  lemma KeywordsApart(text: string)
    ensures "/register" <= text ==> text != "/invite" && text != "/unregister" && !("/remove " <= text)
    ensures text == "/invite" || text == "/unregister" ==> !("/remove " <= text)
  {
    if "/register" <= text {
      assert text[2] == 'e' && text[3] == 'g';
    }
    if "/remove " <= text {
      assert text[3] == 'm';
    }
    assert "/invite"[1] == 'i' && "/unregister"[1] == 'u';
  }

  // ---------- one message at a time ----------

  /** Every wrong code is counted: an outsider who is not blocked gets exactly one failure recorded,
      in the chat's window if that is still open and in a new one otherwise, and nothing else happens. */
  lemma WrongCodeCounted(s: State, u: Update, env: Env)
    requires Allowed(s, u, env) && WrongCode(s, u, env) && !Blocked(s.failures, u.chat, env.blockAt)
    ensures var s' := Step(s, u, env);
            && SameTeam(s, s')
            && |FailuresOf(s'.history, u.chat)| == |FailuresOf(s.history, u.chat)| + 1
            && FailuresOf(s.history, u.chat) <= FailuresOf(s'.history, u.chat)
            && env.windowAt <= FailuresOf(s'.history, u.chat)[|FailuresOf(s.history, u.chat)|].at <= env.stampAt
            && s'.failures - {u.chat} == s.failures - {u.chat}
            && WindowOf(s'.failures, u.chat)
               == if u.chat in s.failures && env.windowAt - s.failures[u.chat].start <= 10 * MINUTE
                  then Some(Window(s.failures[u.chat].count + 1, s.failures[u.chat].start))
                  else Some(Window(1, env.stampAt))
  {
    var s1 := s.(failures := DropExpired(s.failures, u.chat, env.blockAt));
    var f := FailureFact(s1.failures, u.chat, env.windowAt, env.stampAt);
    assert Step(s, u, env) == RecordFailedAttempt(s1, u.chat, env.windowAt, env.stampAt).(clock := env.stampAt);
    FailuresOfAppend(s.history, f, u.chat);
  }

  /** A blocked chat's registration does nothing, whatever its code. */
  lemma BlockedIgnored(s: State, u: Update, env: Env)
    requires Registers(u) && Blocked(s.failures, u.chat, env.blockAt)
    ensures Step(s, u, env) == s.(clock := env.stampAt)
  {
  }

  /** A good code puts the chat on the team under its username, uses up one use of that code, and
      is saved; no failure count but the chat's own expired one is touched. */
  lemma GoodCodeAdmits(s: State, u: Update, env: Env)
    requires GoodCode(s, u, env) && !Blocked(s.failures, u.chat, env.blockAt)
    ensures var s' := Step(s, u, env);
            && s'.members == s.members[u.chat := u.username]
            && s'.invites.Keys == s.invites.Keys
            && (forall c <- s.invites ::
                  s'.invites[c] == if c == CodeIn(u) then s.invites[c].(usedCount := s.invites[c].usedCount + 1)
                                   else s.invites[c])
            && SavedIf(s, s', env) && s'.admin == s.admin
            && s'.history == s.history + [Joined(u.chat, CodeIn(u), env.validateAt, s.invites[CodeIn(u)].expiresAt)]
            && s'.failures - {u.chat} == s.failures - {u.chat}
  {
  }

  lemma InviteCreates(s: State, u: Update, env: Env)
    requires AsksInvite(s, u)
    ensures var s' := Step(s, u, env);
            s' == s.(invites := s.invites[env.code := Invite(env.stampAt + 24 * HOUR, 10, 0)], clock := env.stampAt)
  {
    KeywordsApart(TrimSpace(u.text));
  }

  /** Leaving takes the chat itself off the team, and removal one member of the name. */
  lemma LeavingTakesEffect(s: State, u: Update, env: Env)
    requires Allowed(s, u, env) && (Quits(s, u) || Removes(s, u))
    ensures var s' := Step(s, u, env);
            && SavedIf(s, s', env)
            && (exists k <- s.members ::
                  && s'.members == s.members - {k} && s'.history == s.history + [Left(k)]
                  && if Quits(s, u) then k == u.chat else s.members[k] == NameIn(u))
            && s'.invites == s.invites && s'.failures == s.failures && s'.admin == s.admin
  {
    KeywordsApart(TrimSpace(u.text));
    if Removes(s, u) {
      var text := TrimSpace(u.text);
      RemovalTargetIs(text, u);
      var found := FindNamed(s.members, env.visit, NameIn(u));
      assert found.value in s.members && s.members[found.value] == NameIn(u);
      assert Step(s, u, env) == Leave(s, found.value, env).(clock := env.stampAt);
    }
  }

  lemma RemovalTargetIs(text: string, u: Update)
    requires text == TrimSpace(u.text) && "/remove " <= text
    ensures RemovalTarget(text) == NameIn(u)
  {
    assert text[..8] == "/remove ";
    assert text[..7] == "/remove";
    assert "/remove" <= text;
  }

  /** A message that is none of these changes nothing: a registration can at most drop the sender's
      own expired window. In particular a code that is used up is refused without being counted. */
  lemma NothingElse(s: State, u: Update, env: Env)
    requires Allowed(s, u, env)
    requires !Blocked(s.failures, u.chat, env.blockAt) ==> !WrongCode(s, u, env) && !GoodCode(s, u, env)
    requires !AsksInvite(s, u) && !Quits(s, u) && !Removes(s, u)
    ensures var s' := Step(s, u, env);
            && SameTeam(s, s') && s'.history == s.history
            && (if u.chat in s.failures && Registers(u) && env.blockAt - s.failures[u.chat].start > 10 * MINUTE
                then s'.failures == s.failures - {u.chat} else s'.failures == s.failures)
  {
    var text := TrimSpace(u.text);
    KeywordsApart(text);
    if !Registers(u) && "/remove " <= text && u.chat == s.admin {
      RemovalTargetIs(text, u);
      RemovalExact(s, text, env);
      var found := FindNamed(s.members, env.visit, NameIn(u));
      if found.Some? {
        assert found.value in s.members && s.members[found.value] == NameIn(u);
      }
    }
  }

  // ---------- five strikes ----------

  /** How many messages of a run are a chat's wrong codes, each judged when it arrives. */
  ghost function Wrongs(s: State, ms: seq<Message>, chat: ChatID): nat
    decreases ms
  {
    if ms == [] then 0
    else
      var (u, env) := (ms[0].update, ms[0].env);
      (if u.chat == chat && WrongCode(s, u, env) then 1 else 0) + Wrongs(Step(s, u, env), ms[1..], chat)
  }

  /** A chat's window after n wrong codes since the given moment. */
  ghost predicate Struck(s: State, chat: ChatID, n: nat, since: int)
  {
    if n == 0 then chat in s.failures ==> since - s.failures[chat].start > 10 * MINUTE
    else
      && chat in s.failures && since <= s.failures[chat].start <= s.clock
      && s.failures[chat].count == if n < 5 then n else 5
  }

  lemma StrikeStep(s: State, m: Message, chat: ChatID, n: nat, since: int)
    requires Allowed(s, m.update, m.env) && Struck(s, chat, n, since)
    requires since <= s.clock && m.env.stampAt - since <= 10 * MINUTE
    ensures var wrong := m.update.chat == chat && WrongCode(s, m.update, m.env);
            Struck(Step(s, m.update, m.env), chat, if wrong then n + 1 else n, since)
  {
    var (u, env) := (m.update, m.env);
    var s' := Step(s, u, env);
    KeywordsApart(TrimSpace(u.text));
    if Registers(u) && Blocked(s.failures, u.chat, env.blockAt) {
      BlockedIgnored(s, u, env);
    } else if WrongCode(s, u, env) {
      WrongCodeCounted(s, u, env);
      OthersKept(s, s', u.chat, chat);
    } else if GoodCode(s, u, env) {
      GoodCodeAdmits(s, u, env);
      OthersKept(s, s', u.chat, chat);
    } else if AsksInvite(s, u) {
      InviteCreates(s, u, env);
    } else if Quits(s, u) || Removes(s, u) {
      LeavingTakesEffect(s, u, env);
    } else {
      NothingElse(s, u, env);
    }
  }

  lemma OthersKept(s: State, s': State, sender: ChatID, chat: ChatID)
    requires s'.failures - {sender} == s.failures - {sender}
    ensures chat != sender ==> WindowOf(s'.failures, chat) == WindowOf(s.failures, chat)
  {
    if chat != sender {
      assert chat in s.failures <==> chat in s.failures - {sender};
      assert chat in s'.failures <==> chat in s'.failures - {sender};
    }
  }

  lemma {:induction false} RunStruck(s: State, ms: seq<Message>, chat: ChatID, n: nat, since: int)
    requires Legal(s, ms) && Struck(s, chat, n, since)
    requires since <= s.clock && Run(s, ms).clock - since <= 10 * MINUTE
    ensures Struck(Run(s, ms), chat, n + Wrongs(s, ms, chat), since)
    decreases ms
  {
    if ms != [] {
      var s' := Step(s, ms[0].update, ms[0].env);
      RunClock(s', ms[1..]);
      StrikeStep(s, ms[0], chat, n, since);
      var wrong := ms[0].update.chat == chat && WrongCode(s, ms[0].update, ms[0].env);
      RunStruck(s', ms[1..], chat, if wrong then n + 1 else n, since);
    }
  }

  lemma {:induction false} RunClock(s: State, ms: seq<Message>)
    requires Legal(s, ms)
    ensures s.clock <= Run(s, ms).clock
    decreases ms
  {
    if ms != [] {
      RunClock(Step(s, ms[0].update, ms[0].env), ms[1..]);
    }
  }

  /** The brute-force check bites: over any ten minutes that a chat enters with no window open,
      whoever else sends whatever in between, it ends up blocked exactly if it sent five or more
      wrong codes, and its count is their number up to five. */
  lemma {:induction false} FiveStrikes(s: State, ms: seq<Message>, chat: ChatID, now: int)
    requires Legal(s, ms) && (chat in s.failures ==> s.clock - s.failures[chat].start > 10 * MINUTE)
    requires Run(s, ms).clock <= now <= s.clock + 10 * MINUTE
    ensures var (e, n) := (Run(s, ms), Wrongs(s, ms, chat));
            && (n > 0 ==> chat in e.failures && e.failures[chat].count == if n < 5 then n else 5)
            && (Blocked(e.failures, chat, now) <==> n >= 5)
  {
    RunClock(s, ms);
    RunStruck(s, ms, chat, 0, s.clock);
  }
}
