/** Chat sessions against their reaper: a mutex-guarded map of sessions with the time each was
    last used, and a ticker that evicts those idle for more than the TTL. */
module Sessions {
  import opened Wrappers

  const SESSION_TTL := 1_800_000_000_000 // 30 minutes
  const REAP_PERIOD := 300_000_000_000 // 5 minutes

  /** A session handed out: sessions are numbered in the order they are started. */
  datatype Entry = Entry(session: nat, lastUsed: int)
  datatype Call = Call(chat: string, at: int, session: nat)

  /** The map, the next session number, the latest clock reading, the latest reaper pass (or the
      start), and the calls so far. */
  datatype State = State(
    entries: map<string, Entry>, next: nat, clock: int, lastReap: int, calls: seq<Call>)

  datatype Event = Get(chat: string, now: int) | Reap(now: int)

  function Start(now: int): State
  {
    State(map[], 0, now, now, [])
  }

  function Survivors(entries: map<string, Entry>, now: int): map<string, Entry>
  {
    map id | id in entries && now - entries[id].lastUsed <= SESSION_TTL :: entries[id]
  }

  function Step(s: State, e: Event): State
  {
    match e
    case Get(chat, now) =>
      var session := if chat in s.entries then s.entries[chat].session else s.next;
      State(s.entries[chat := Entry(session, now)], if chat in s.entries then s.next else s.next + 1,
            now, s.lastReap, s.calls + [Call(chat, now, session)])
    case Reap(now) => State(Survivors(s.entries, now), s.next, now, now, s.calls)
  }

  /** The lock makes each event one step; the clock never runs backwards. */
  predicate Legal(s: State, es: seq<Event>)
    decreases es
  {
    es != [] ==> s.clock <= es[0].now && Legal(Step(s, es[0]), es[1..])
  }

  function Run(s: State, es: seq<Event>): State
    decreases es
  {
    if es == [] then s else Run(Step(s, es[0]), es[1..])
  }

  // ---------- the cache as the source has it ----------

  class SessionEntry {
    const session: nat
    var lastUsed: int

    constructor (session: nat, lastUsed: int)
      ensures this.session == session && this.lastUsed == lastUsed
    {
      this.session, this.lastUsed := session, lastUsed;
    }
  }

  class SessionCache {
    var chatSessions: map<string, SessionEntry>
    var next: nat
    ghost var clock: int
    ghost var lastReap: int
    ghost var calls: seq<Call>

    ghost predicate Valid()
      reads this`chatSessions
    {
      forall c, d :: c in chatSessions && d in chatSessions && c != d ==> chatSessions[c] != chatSessions[d]
    }

    ghost function Entries(): map<string, Entry>
      reads this`chatSessions, chatSessions.Values
    {
      map id | id in chatSessions :: Entry(chatSessions[id].session, chatSessions[id].lastUsed)
    }

    ghost function Abs(): State
      reads this, chatSessions.Values
    {
      State(Entries(), next, clock, lastReap, calls)
    }

    constructor (ghost now: int)
      ensures Valid() && Abs() == Start(now)
    {
      chatSessions, next, clock, lastReap, calls := map[], 0, now, now, [];
    }

    method GetOrCreateSession(chat: string, now: int) returns (session: nat)
      requires Valid()
      modifies this, chatSessions.Values
      ensures Valid() && fresh(chatSessions.Values - old(chatSessions.Values))
      ensures Abs() == Step(old(Abs()), Get(chat, now)) && calls == old(calls) + [Call(chat, now, session)]
    {
      ghost var before := Entries();
      if chat in chatSessions {
        var entry := chatSessions[chat];
        entry.lastUsed := now;
        session := entry.session;
      } else {
        session := next;
        var entry := new SessionEntry(session, now);
        chatSessions := chatSessions[chat := entry];
        next := next + 1;
      }
      assert Entries() == before[chat := Entry(session, now)];
      clock, calls := now, calls + [Call(chat, now, session)];
    }

    /** One tick of the reaper: Range in any order, deleting as it goes. */
    method ReapIdle(now: int)
      requires Valid()
      modifies this
      ensures Valid() && chatSessions.Values <= old(chatSessions.Values)
      ensures Abs() == Step(old(Abs()), Reap(now))
    {
      Evict(now);
      clock, lastReap := now, now;
    }

    method Evict(now: int)
      requires Valid()
      modifies this`chatSessions
      ensures Valid() && chatSessions.Values <= old(chatSessions.Values)
      ensures Entries() == Survivors(old(Entries()), now)
    {
      var todo := chatSessions.Keys;
      while todo != {}
        invariant Valid() && todo <= chatSessions.Keys <= old(chatSessions.Keys)
        invariant forall id <- chatSessions :: chatSessions[id] == old(chatSessions)[id]
        invariant forall id <- old(chatSessions) ::
                    id in chatSessions <==>
                    id in todo || now - old(chatSessions)[id].lastUsed <= SESSION_TTL
        decreases |todo|
      {
        var id :| id in todo;
        if now - chatSessions[id].lastUsed > SESSION_TTL {
          chatSessions := chatSessions - {id};
        }
        todo := todo - {id};
      }
    }
  }

  // ---------- invariants over every interleaving ----------

  ghost function CallsOf(calls: seq<Call>, chat: string): (own: seq<Call>)
    ensures forall c <- own :: c in calls && c.chat == chat
  {
    if calls == [] then []
    else
      var last := calls[|calls| - 1];
      CallsOf(calls[..|calls| - 1], chat) + if last.chat == chat then [last] else []
  }

  lemma CallsOfAppend(calls: seq<Call>, c: Call, chat: string)
    ensures CallsOf(calls + [c], chat) == CallsOf(calls, chat) + if c.chat == chat then [c] else []
  {
    assert (calls + [c])[..|calls|] == calls;
  }

  /** A chat's entry carries its latest call, and is gone only when that call has become stale. */
  ghost predicate Tracks(own: seq<Call>, entry: Option<Entry>, clock: int)
  {
    && (forall i, j :: 0 <= i && j == i + 1 && j < |own| && own[j].at - own[i].at <= SESSION_TTL ==>
          own[j].session == own[i].session)
    && match entry
       case Some(Entry(session, lastUsed)) =>
         own != [] && own[|own| - 1].session == session && own[|own| - 1].at == lastUsed
       case None => own != [] ==> clock - own[|own| - 1].at > SESSION_TTL
  }

  function EntryOf(entries: map<string, Entry>, chat: string): Option<Entry>
  {
    if chat in entries then Some(entries[chat]) else None
  }

  /** Sessions are fresh when started and belong to one chat for ever. */
  ghost predicate Owned(s: State)
  {
    && (forall c <- s.calls :: c.session < s.next)
    && (forall c, d :: c in s.calls && d in s.calls && c.session == d.session ==> c.chat == d.chat)
  }

  ghost predicate Fresh(s: State)
  {
    forall id <- s.entries :: s.entries[id].lastUsed >= s.lastReap - SESSION_TTL
  }

  lemma CallTracks(own: seq<Call>, entry: Option<Entry>, clock: int, c: Call)
    requires Tracks(own, entry, clock) && clock <= c.at
    requires entry.Some? ==> c.session == entry.value.session
    ensures Tracks(own + [c], Some(Entry(c.session, c.at)), c.at)
  {
  }

  lemma StepTracks(s: State, e: Event, chat: string)
    requires Tracks(CallsOf(s.calls, chat), EntryOf(s.entries, chat), s.clock) && s.clock <= e.now
    ensures var s' := Step(s, e); Tracks(CallsOf(s'.calls, chat), EntryOf(s'.entries, chat), s'.clock)
  {
    match e
    case Get(caller, now) =>
      var c := Step(s, e).calls[|s.calls|];
      CallsOfAppend(s.calls, c, chat);
      if caller == chat {
        CallTracks(CallsOf(s.calls, chat), EntryOf(s.entries, chat), s.clock, c);
      } else {
        assert CallsOf(Step(s, e).calls, chat) == CallsOf(s.calls, chat);
      }
    case Reap(now) =>
  }

  lemma {:induction false} RunTracks(s: State, es: seq<Event>, chat: string)
    requires Tracks(CallsOf(s.calls, chat), EntryOf(s.entries, chat), s.clock) && Legal(s, es)
    ensures var e := Run(s, es); Tracks(CallsOf(e.calls, chat), EntryOf(e.entries, chat), e.clock)
    decreases es
  {
    if es != [] {
      StepTracks(s, es[0], chat);
      RunTracks(Step(s, es[0]), es[1..], chat);
    }
  }

  lemma {:induction false} RunOwned(s: State, es: seq<Event>)
    requires Owned(s) && (forall id <- s.entries :: Call(id, s.entries[id].lastUsed, s.entries[id].session) in s.calls)
    ensures Owned(Run(s, es))
    decreases es
  {
    if es != [] {
      RunOwned(Step(s, es[0]), es[1..]);
    }
  }

  lemma {:induction false} RunFresh(s: State, es: seq<Event>)
    requires Fresh(s) && s.lastReap <= s.clock && Legal(s, es)
    ensures Fresh(Run(s, es)) && Run(s, es).lastReap <= Run(s, es).clock
    decreases es
  {
    if es != [] {
      RunFresh(Step(s, es[0]), es[1..]);
    }
  }

  // ---------- main results ----------

  lemma {:induction false} SameSessionChain(own: seq<Call>, entry: Option<Entry>, clock: int, i: nat, j: nat)
    requires Tracks(own, entry, clock) && i <= j < |own|
    requires forall k, l :: i <= k && l == k + 1 && l <= j ==> own[l].at - own[k].at <= SESSION_TTL
    ensures own[i].session == own[j].session
    decreases j
  {
    if i < j {
      SameSessionChain(own, entry, clock, i, j - 1);
      assert own[j].at - own[j - 1].at <= SESSION_TTL;
    }
  }

  /** In every interleaving with the reaper: calls of one chat whose consecutive gaps are at most
      30 minutes all return the same session. */
  lemma {:induction false} SameSession(now: int, es: seq<Event>, chat: string, i: nat, j: nat)
    requires Legal(Start(now), es)
    requires var own := CallsOf(Run(Start(now), es).calls, chat);
             i <= j < |own| && forall k, l :: i <= k && l == k + 1 && l <= j ==> own[l].at - own[k].at <= SESSION_TTL
    ensures var own := CallsOf(Run(Start(now), es).calls, chat); own[i].session == own[j].session
  {
    RunTracks(Start(now), es, chat);
    var e := Run(Start(now), es);
    SameSessionChain(CallsOf(e.calls, chat), EntryOf(e.entries, chat), e.clock, i, j);
  }

  /** Distinct chats never share a session. */
  lemma {:induction false} NeverShared(now: int, es: seq<Event>)
    ensures forall c, d :: c in Run(Start(now), es).calls && d in Run(Start(now), es).calls && c.chat != d.chat ==>
              c.session != d.session
  {
    RunOwned(Start(now), es);
  }

  /** Right after a reaper pass every entry was used within 30 minutes; and at any moment at most
      five minutes after the latest pass none has been idle for more than 35. */
  lemma {:induction false} IdleBound(now: int, es: seq<Event>, at: int)
    requires Legal(Start(now), es)
    ensures var e := Run(Start(now), es);
            && (es != [] && es[|es| - 1].Reap? ==>
                  forall id <- e.entries :: e.clock - e.entries[id].lastUsed <= SESSION_TTL)
            && (e.clock <= at && at - e.lastReap <= REAP_PERIOD ==>
                  forall id <- e.entries :: at - e.entries[id].lastUsed <= SESSION_TTL + REAP_PERIOD)
  {
    RunFresh(Start(now), es);
    if es != [] && es[|es| - 1].Reap? {
      LastStep(Start(now), es);
    }
  }

  lemma {:induction false} LastStep(s: State, es: seq<Event>)
    requires es != []
    ensures Run(s, es) == Step(Run(s, es[..|es| - 1]), es[|es| - 1])
    decreases es
  {
    if |es| > 1 {
      LastStep(Step(s, es[0]), es[1..]);
      assert es[1..][..|es[1..]| - 1] == es[..|es| - 1][1..];
    } else {
      assert es[1..] == [] && es[..0] == [];
    }
  }
}
