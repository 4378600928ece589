/** The team's persistent form: the text the bot keeps under "chat_ids" in the
    kubesolv-subscribers ConfigMap, written by saveSubscribers and read by loadSubscribers. */
module Subscribers {
  import opened Wrappers
  import opened Text

  /** Telegram chat ids are int64. */
  type ChatID = x: int | -0x8000_0000_0000_0000 <= x < 0x8000_0000_0000_0000

  type Members = map<ChatID, string>

  // ---------- printing ----------

  function Entry(id: ChatID, name: string): (e: string)
    ensures e != ""
  {
    Decimal(id) + ":" + name
  }

  /** An order in which sync.Map's Range may visit the keys: any order, each key once. */
  ghost predicate Enumerates(order: seq<ChatID>, keys: set<ChatID>)
  {
    && (forall k :: k in order <==> k in keys)
    && (forall i, j :: 0 <= i < j < |order| ==> order[i] != order[j])
  }

  function NameOf(m: Members, id: ChatID): string
  {
    if id in m then m[id] else ""
  }

  function Entries(m: Members, order: seq<ChatID>): (es: seq<string>)
    ensures |es| == |order|
  {
    if order == [] then [] else [Entry(order[0], NameOf(m, order[0]))] + Entries(m, order[1..])
  }

  /** One turn of the saving loop. */
  lemma EntriesStep(done: seq<string>, m: Members, order: seq<ChatID>, i: nat)
    requires i < |order|
    ensures done + Entries(m, order[i..])
            == done + [Entry(order[i], NameOf(m, order[i]))] + Entries(m, order[i + 1..])
  {
    assert order[i..][1..] == order[i + 1..];
  }

  /** The text saveSubscribers stores when Range lists the members in the given order. */
  function Encode(m: Members, order: seq<ChatID>): string
  {
    Join(Entries(m, order), ',')
  }

  /** The saving loop: Range lists the members, each is printed, and the pieces are joined. */
  method PrintMembers(m: Members, order: seq<ChatID>) returns (data: string)
    requires forall k <- order :: k in m
    ensures data == Encode(m, order)
  {
    var entries := [];
    for i := 0 to |order|
      invariant entries + Entries(m, order[i..]) == Entries(m, order)
    {
      EntriesStep(entries, m, order, i);
      entries := entries + [Entry(order[i], m[order[i]])];
    }
    assert order[|order|..] == [] && entries + [] == entries;
    data := Join(entries, ',');
  }

  // ---------- parsing ----------

  /** One turn of the loading loop: a piece that is blank, lacks ':' or starts with no int64 is skipped. */
  function LoadEntry(m: Members, raw: string): Members
  {
    var e := TrimSpace(raw);
    if e == "" then m
    else
      var parts := SplitN2(e, ':');
      if |parts| != 2 then m
      else
        var id := ParseInt(parts[0], HALF64);
        if id.err.NoError? then m[id.value := parts[1]] else m
  }

  function LoadEntries(m: Members, raws: seq<string>): Members
    decreases raws
  {
    if raws == [] then m else LoadEntries(LoadEntry(m, raws[0]), raws[1..])
  }

  function Decode(ids: string): Members
  {
    if ids == "" then map[] else LoadEntries(map[], Split(ids, ','))
  }

  /** The loading loop. */
  method ParseMembers(ids: string) returns (m: Members)
    ensures m == Decode(ids)
  {
    m := map[];
    if ids == "" {
      return;
    }
    var raws := Split(ids, ',');
    for i := 0 to |raws|
      invariant LoadEntries(m, raws[i..]) == Decode(ids)
    {
      var entry := TrimSpace(raws[i]);
      if entry != "" {
        var parts := SplitN2(entry, ':');
        if |parts| == 2 {
          var id := ParseInt(parts[0], HALF64);
          if id.err.NoError? {
            m := m[id.value := parts[1]];
          }
        }
      }
    }
  }

  // ---------- what is read, without the loop ----------

  /** A piece that lists the chat under the name: spaces around it aside, a numeral for the chat,
      the first ':', and the name. */
  ghost predicate Lists(raw: string, k: ChatID, name: string)
  {
    exists id: string :: ':' !in id && TrimSpace(raw) == id + ":" + name && IsNumeral(id) && Numeral(id) == k
  }

  lemma LoadEntryExact(m: Members, raw: string, k: ChatID)
    ensures forall name :: Lists(raw, k, name) ==> k in LoadEntry(m, raw) && LoadEntry(m, raw)[k] == name
    ensures (forall name :: !Lists(raw, k, name)) ==>
              (k in LoadEntry(m, raw) <==> k in m) && (k in m ==> LoadEntry(m, raw)[k] == m[k])
  {
    var e := TrimSpace(raw);
    var parts := SplitN2(e, ':');
    ParseIntExact(parts[0], HALF64);
    forall name | Lists(raw, k, name) ensures k in LoadEntry(m, raw) && LoadEntry(m, raw)[k] == name {
      var id: string :| ':' !in id && e == id + ":" + name && IsNumeral(id) && Numeral(id) == k;
      SplitN2First(id, name, ':');
    }
    if |parts| == 2 && ParseInt(parts[0], HALF64) == Parsed(k, NoError) {
      assert e == parts[0] + ":" + parts[1];
      assert Lists(raw, k, parts[1]);
    }
  }

  /** The name under which a piece lists the chat, and that of the last piece which does. */
  ghost function Listed(raw: string, k: ChatID): Option<string>
  {
    if exists name :: Lists(raw, k, name) then
      var name :| Lists(raw, k, name);
      Some(name)
    else None
  }

  ghost function LastListed(raws: seq<string>, k: ChatID): Option<string>
  {
    if raws == [] then None
    else
      var last := Listed(raws[|raws| - 1], k);
      if last.Some? then last else LastListed(raws[..|raws| - 1], k)
  }

  function Lookup(m: Members, k: ChatID): Option<string>
  {
    if k in m then Some(m[k]) else None
  }

  lemma {:induction false} LoadEntriesExact(raws: seq<string>, k: ChatID)
    ensures Lookup(LoadEntries(map[], raws), k) == LastListed(raws, k)
  {
    if raws != [] {
      var n := |raws| - 1;
      assert raws == raws[..n] + [raws[n]];
      var before := LoadEntries(map[], raws[..n]);
      LoadEntriesAppend(map[], raws[..n], [raws[n]]);
      assert LoadEntries(map[], raws) == LoadEntry(before, raws[n]);
      LoadEntriesExact(raws[..n], k);
      LoadEntryExact(before, raws[n], k);
    }
  }

  /** Loading, for any text whatever: a chat is on the team exactly if some comma-separated piece
      lists it, under the name that the last such piece gives it. Blank pieces, pieces without ':'
      and pieces whose number is bad or too wide list nobody. */
  lemma DecodeExact(ids: string, k: ChatID)
    ensures Lookup(Decode(ids), k) == LastListed(Split(ids, ','), k)
  {
    LoadEntriesExact(Split(ids, ','), k);
    if ids == "" {
      assert LoadEntries(map[], [""]) == map[];
    }
  }

  // ---------- the round trip ----------

  /** A username the codec can carry: no ',' anywhere and no space at its end. */
  predicate WellFormed(name: string)
  {
    ',' !in name && (name == "" || !IsSpace(name[|name| - 1]))
  }

  predicate AllWellFormed(m: Members)
  {
    forall k <- m :: WellFormed(m[k])
  }

  /** Every name that comes out of the stored text is one the codec can carry. */
  lemma {:induction false} LoadEntriesWellFormed(m: Members, raws: seq<string>)
    requires AllWellFormed(m)
    requires forall r <- raws :: ',' !in r
    ensures AllWellFormed(LoadEntries(m, raws))
    decreases raws
  {
    if raws != [] {
      TrimSpaceKeepsFree(raws[0], ',');
      var e := TrimSpace(raws[0]);
      var parts := SplitN2(e, ':');
      if |parts| == 2 {
        assert forall c <- parts[1] :: c in e;
        assert parts[1] == "" || parts[1][|parts[1]| - 1] == e[|e| - 1];
      }
      LoadEntriesWellFormed(LoadEntry(m, raws[0]), raws[1..]);
    }
  }

  lemma TrimSpaceKeepsFree(s: string, sep: char)
    requires sep !in s
    ensures sep !in TrimSpace(s)
  {
    TrimLeftKeepsFree(s, sep);
    assert TrimRight(TrimLeft(s)) <= TrimLeft(s);
  }

  lemma {:induction false} TrimLeftKeepsFree(s: string, sep: char)
    requires sep !in s
    ensures sep !in TrimLeft(s)
  {
    if s != "" && IsSpace(s[0]) {
      TrimLeftKeepsFree(s[1..], sep);
    }
  }

  lemma DecodeWellFormed(ids: string)
    ensures AllWellFormed(Decode(ids))
  {
    if ids != "" {
      SplitPieces(ids, ',');
      LoadEntriesWellFormed(map[], Split(ids, ','));
    }
  }

  lemma PrintedIdFree(id: ChatID)
    ensures ':' !in Decimal(id) && ',' !in Decimal(id) && !IsSpace(Decimal(id)[0])
  {
    forall c | c in Decimal(id) ensures c != ':' && c != ',' && !IsSpace(c) {
      assert IsDigit(c) || c == '-';
    }
  }

  /** Reading back one printed entry, untrimmed tail permitting. */
  lemma LoadPrintedEntry(m: Members, id: ChatID, name: string)
    requires name == "" || !IsSpace(name[|name| - 1])
    ensures LoadEntry(m, Entry(id, name)) == m[id := name]
  {
    var e := Entry(id, name);
    PrintedIdFree(id);
    assert e[0] == Decimal(id)[0];
    assert e[|e| - 1] == if name == "" then ':' else name[|name| - 1];
    assert TrimSpace(e) == e;
    SplitN2First(Decimal(id), name, ':');
    assert Decimal(id) + [':'] + name == e;
    ParsePrinted(id, HALF64);
  }

  lemma EntryFree(id: ChatID, name: string)
    requires ',' !in name
    ensures ',' !in Entry(id, name)
  {
    PrintedIdFree(id);
  }

  lemma {:induction false} EntriesFree(m: Members, order: seq<ChatID>)
    requires forall k <- order :: k in m && ',' !in m[k]
    ensures forall e <- Entries(m, order) :: ',' !in e
  {
    if order != [] {
      EntryFree(order[0], m[order[0]]);
      EntriesFree(m, order[1..]);
    }
  }

  lemma {:induction false} LoadPrintedEntries(acc: Members, m: Members, order: seq<ChatID>)
    requires forall k <- order :: k in m && WellFormed(m[k])
    ensures var r := LoadEntries(acc, Entries(m, order));
            && (forall k :: k in r <==> k in acc || k in order)
            && (forall k <- r :: r[k] == if k in order then m[k] else acc[k])
    decreases order
  {
    if order != [] {
      var k := order[0];
      assert order == [k] + order[1..];
      LoadPrintedEntry(acc, k, m[k]);
      assert Entries(m, order)[0] == Entry(k, m[k]) && Entries(m, order)[1..] == Entries(m, order[1..]);
      LoadPrintedEntries(acc[k := m[k]], m, order[1..]);
    }
  }

  lemma JoinNonempty(parts: seq<string>, sep: char)
    requires parts != [] && parts[0] != ""
    ensures Join(parts, sep) != ""
  {
    assert Join(parts, sep)[..|parts[0]|] == parts[0];
  }

  /** The codec law, with its exact condition: for every member map and every order in which
      Range may list it, saving and loading gives the map back if and only if every username is
      well formed. Ids may be negative or extreme, names may hold ':', and the map may be empty. */
  lemma RoundTrip(m: Members, order: seq<ChatID>)
    requires Enumerates(order, m.Keys)
    ensures Decode(Encode(m, order)) == m <==> AllWellFormed(m)
  {
    if AllWellFormed(m) {
      if order != [] {
        EntriesFree(m, order);
        JoinNonempty(Entries(m, order), ',');
        SplitJoin(Entries(m, order), ',');
        LoadPrintedEntries(map[], m, order);
      }
    }
    DecodeWellFormed(Encode(m, order));
  }

  /** Two ways the round trip fails: a comma cuts a name short, a trailing space is trimmed off. */
  lemma RoundTripCanFail()
    ensures Decode(Encode(map[7 := "a,b"], [7])) != map[7 := "a,b"]
    ensures Decode(Encode(map[7 := "a "], [7])) != map[7 := "a "]
  {
    var m, n := map[7 := "a,b"], map[7 := "a "];
    assert ',' == m[7][1];
    RoundTrip(m, [7]);
    RoundTrip(n, [7]);
  }

  // ---------- no member is ever lost, whatever the names ----------

  lemma {:induction false} LoadEntriesAppend(m: Members, xs: seq<string>, ys: seq<string>)
    ensures LoadEntries(m, xs + ys) == LoadEntries(LoadEntries(m, xs), ys)
    decreases xs
  {
    if xs == [] {
      assert xs + ys == ys;
    } else {
      assert (xs + ys)[1..] == xs[1..] + ys;
      LoadEntriesAppend(LoadEntry(m, xs[0]), xs[1..], ys);
    }
  }

  lemma {:induction false} LoadEntriesKeeps(m: Members, raws: seq<string>)
    ensures m.Keys <= LoadEntries(m, raws).Keys
    decreases raws
  {
    if raws != [] {
      LoadEntriesKeeps(LoadEntry(m, raws[0]), raws[1..]);
    }
  }

  lemma {:induction false} TrimRightKeepsPrefix(s: string, n: nat)
    requires 0 < n <= |s| && !IsSpace(s[n - 1])
    ensures n <= |TrimRight(s)| && TrimRight(s)[..n] == s[..n]
  {
    if IsSpace(s[|s| - 1]) {
      TrimRightKeepsPrefix(s[..|s| - 1], n);
    }
  }

  /** Even a mangled entry yields its own chat id. */
  lemma LoadEntryKeepsId(m: Members, id: ChatID, name: string)
    ensures id in LoadEntry(m, Entry(id, name))
  {
    var e := Entry(id, name);
    var n := |Decimal(id)| + 1;
    PrintedIdFree(id);
    assert e[0] == Decimal(id)[0];
    assert TrimLeft(e) == e;
    assert e[n - 1] == ':';
    TrimRightKeepsPrefix(e, n);
    var t := TrimSpace(e);
    assert t == Decimal(id) + [':'] + t[n..] by {
      assert t[..n] == e[..n] == Decimal(id) + [':'];
    }
    SplitN2First(Decimal(id), t[n..], ':');
    ParsePrinted(id, HALF64);
  }

  lemma EntrySplit(id: ChatID, name: string)
    ensures Split(Entry(id, name), ',')[0] == Entry(id, Split(name, ',')[0])
  {
    PrintedIdFree(id);
    SplitPrefix(Decimal(id) + ":", name, ',');
  }

  lemma {:induction false} SplitPrefix(a: string, b: string, sep: char)
    requires sep !in a
    ensures Split(a + b, sep)[0] == a + Split(b, sep)[0]
  {
    if a == "" {
      assert a + b == b;
    } else {
      assert (a + b)[1..] == a[1..] + b;
      SplitPrefix(a[1..], b, sep);
      assert a == [a[0]] + a[1..];
    }
  }

  /** One entry, split where its own username holds a comma, still yields its chat id. */
  lemma OwnPiecesKeep(acc: Members, k: ChatID, name: string)
    ensures acc.Keys + {k} <= LoadEntries(acc, Split(Entry(k, name), ',')).Keys
  {
    var own := Split(Entry(k, name), ',');
    EntrySplit(k, name);
    LoadEntryKeepsId(acc, k, Split(name, ',')[0]);
    LoadEntriesKeeps(LoadEntry(acc, own[0]), own[1..]);
  }

  lemma {:induction false} SplitEntriesKeep(acc: Members, m: Members, order: seq<ChatID>)
    requires order != [] && forall k <- order :: k in m
    ensures forall k :: k in acc || k in order ==> k in LoadEntries(acc, Split(Encode(m, order), ','))
    decreases order
  {
    var (k, rest) := (order[0], order[1..]);
    var own := Split(Entry(k, m[k]), ',');
    OwnPiecesKeep(acc, k, m[k]);
    assert Entries(m, order)[1..] == Entries(m, rest);
    assert order == [k] + rest;
    if rest == [] {
      assert Encode(m, order) == Entry(k, m[k]);
    } else {
      SplitConcat(Entry(k, m[k]), Encode(m, rest), ',');
      LoadEntriesAppend(acc, own, Split(Encode(m, rest), ','));
      SplitEntriesKeep(LoadEntries(acc, own), m, rest);
    }
  }

  /** A reload never forgets a member, whatever the usernames contain. */
  lemma NoMemberLost(m: Members, order: seq<ChatID>)
    requires Enumerates(order, m.Keys)
    ensures m.Keys <= Decode(Encode(m, order)).Keys
  {
    if order != [] {
      JoinNonempty(Entries(m, order), ',');
      SplitEntriesKeep(map[], m, order);
    }
  }
}
