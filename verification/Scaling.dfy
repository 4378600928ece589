/** ScaleDeployment: a read-modify-write against a versioned store that other writers share,
    retried on conflict. The store rejects an update whose version is not current. */
module Scaling {
  import opened Wrappers
  import opened Text

  datatype Key = Key(namespace: string, name: string)

  /** A stored deployment: its resource version, its replica count, and everything else. */
  datatype Object = Object(version: nat, replicas: int, rest: string)

  datatype Author = Self | Other

  /** The store's history: what each write replaced and with what. */
  datatype Commit =
    | Written(author: Author, key: Key, before: Option<Object>, after: Object)
    | Removed(key: Key)

  datatype World = World(objects: map<Key, Object>, next: nat, commits: seq<Commit>)

  datatype ApiError = NotFound | Conflict | Failure

  /** What another writer may do at any moment. */
  datatype Write = Put(key: Key, replicas: int, rest: string) | Remove(key: Key)

  /** One attempt's surroundings: the writes others get in before its Get and between its Get
      and its Update, and the faults, if any, that the API answers with instead of acting. */
  datatype Attempt = Attempt(
    before: seq<Write>, getFault: Option<ApiError>, between: seq<Write>, updateFault: Option<ApiError>)

  /** client-go's retry.DefaultRetry makes five attempts. */
  const ATTEMPTS := 5

  // ---------- the store ----------

  function Lookup(objects: map<Key, Object>, key: Key): Option<Object>
  {
    if key in objects then Some(objects[key]) else None
  }

  function Commits(w: World, author: Author, key: Key, replicas: int, rest: string): World
  {
    var after := Object(w.next, replicas, rest);
    World(w.objects[key := after], w.next + 1,
          w.commits + [Written(author, key, Lookup(w.objects, key), after)])
  }

  function OtherWrite(w: World, write: Write): World
  {
    match write
    case Put(key, replicas, rest) => Commits(w, Other, key, replicas, rest)
    case Remove(key) =>
      if key in w.objects then World(w.objects - {key}, w.next, w.commits + [Removed(key)]) else w
  }

  function OtherWrites(w: World, writes: seq<Write>): World
    decreases writes
  {
    if writes == [] then w else OtherWrites(OtherWrite(w, writes[0]), writes[1..])
  }

  /** Update: committed only if the version it carries is still the current one. */
  function Update(w: World, key: Key, obj: Object, fault: Option<ApiError>): (World, Option<ApiError>)
  {
    if fault.Some? then (w, fault)
    else if key !in w.objects then (w, Some(NotFound))
    else if w.objects[key].version != obj.version then (w, Some(Conflict))
    else (Commits(w, Self, key, obj.replicas, obj.rest), None)
  }

  // ---------- the operation ----------

  function ScaleOnce(w: World, key: Key, replicas: int, a: Attempt): (World, Option<ApiError>)
  {
    var w1 := OtherWrites(w, a.before);
    if a.getFault.Some? then (w1, a.getFault)
    else if key !in w1.objects then (w1, Some(NotFound))
    else Update(OtherWrites(w1, a.between), key, w1.objects[key].(replicas := replicas), a.updateFault)
  }

  function ScaleLoop(w: World, key: Key, replicas: int, attempts: seq<Attempt>): (World, Option<ApiError>)
    requires attempts != []
    decreases attempts
  {
    var (w', err) := ScaleOnce(w, key, replicas, attempts[0]);
    if err == Some(Conflict) && |attempts| > 1 then ScaleLoop(w', key, replicas, attempts[1..]) else (w', err)
  }

  datatype ScaleError = BadNumber | Api(err: ApiError)

  function Scale(w: World, key: Key, text: string, attempts: seq<Attempt>): (World, Option<ScaleError>)
    requires |attempts| == ATTEMPTS
  {
    var parsed := ParseInt(text, HALF32);
    if !parsed.err.NoError? then (w, Some(BadNumber))
    else
      var (w', err) := ScaleLoop(w, key, parsed.value, attempts);
      (w', if err.Some? then Some(Api(err.value)) else None)
  }

  // ---------- the store as the source sees it ----------

  class ApiServer {
    var objects: map<Key, Object>
    var next: nat
    ghost var commits: seq<Commit>

    ghost function Abs(): World
      reads this
    {
      World(objects, next, commits)
    }

    method Others(writes: seq<Write>)
      modifies this
      ensures Abs() == OtherWrites(old(Abs()), writes)
    {
      for i := 0 to |writes|
        invariant OtherWrites(Abs(), writes[i..]) == OtherWrites(old(Abs()), writes)
      {
        match writes[i] {
          case Put(key, replicas, rest) =>
            commits := commits + [Written(Other, key, Lookup(objects, key), Object(next, replicas, rest))];
            objects := objects[key := Object(next, replicas, rest)];
            next := next + 1;
          case Remove(key) =>
            if key in objects {
              commits := commits + [Removed(key)];
              objects := objects - {key};
            }
        }
      }
    }

    method Get(key: Key, fault: Option<ApiError>) returns (obj: Option<Object>, err: Option<ApiError>)
      ensures err == if fault.Some? then fault else if key in objects then None else Some(NotFound)
      ensures obj == if err.None? then Some(objects[key]) else None
    {
      if fault.Some? {
        return None, fault;
      }
      if key !in objects {
        return None, Some(NotFound);
      }
      return Some(objects[key]), None;
    }

    method Put(key: Key, obj: Object, fault: Option<ApiError>) returns (err: Option<ApiError>)
      modifies this
      ensures (Abs(), err) == Update(old(Abs()), key, obj, fault)
    {
      if fault.Some? {
        return fault;
      }
      if key !in objects {
        return Some(NotFound);
      }
      if objects[key].version != obj.version {
        return Some(Conflict);
      }
      var after := Object(next, obj.replicas, obj.rest);
      commits := commits + [Written(Self, key, Some(objects[key]), after)];
      objects := objects[key := after];
      next := next + 1;
      err := None;
    }
  }

  /** ScaleDeployment with client-go's RetryOnConflict around it. */
  method ScaleDeployment(server: ApiServer, key: Key, text: string, attempts: seq<Attempt>)
    returns (err: Option<ScaleError>)
    requires |attempts| == ATTEMPTS
    modifies server
    ensures (server.Abs(), err) == Scale(old(server.Abs()), key, text, attempts)
  {
    var parsed := ParseInt(text, HALF32);
    if !parsed.err.NoError? {
      return Some(BadNumber);
    }
    for i := 0 to ATTEMPTS
      invariant i < ATTEMPTS ==>
                  ScaleLoop(server.Abs(), key, parsed.value, attempts[i..])
                  == ScaleLoop(old(server.Abs()), key, parsed.value, attempts)
      invariant i == ATTEMPTS ==>
                  (server.Abs(), Some(Conflict)) == ScaleLoop(old(server.Abs()), key, parsed.value, attempts)
    {
      assert attempts[i..][1..] == attempts[i + 1..];
      server.Others(attempts[i].before);
      var result, getErr := server.Get(key, attempts[i].getFault);
      var attemptErr := getErr;
      if getErr.None? {
        server.Others(attempts[i].between);
        attemptErr := server.Put(key, result.value.(replicas := parsed.value), attempts[i].updateFault);
      }
      if attemptErr != Some(Conflict) {
        return if attemptErr.Some? then Some(Api(attemptErr.value)) else None;
      }
    }
    return Some(Api(Conflict));
  }

  // ---------- the history explains the store ----------

  ghost function Replay(init: map<Key, Object>, commits: seq<Commit>): map<Key, Object>
  {
    if commits == [] then init
    else
      var (rest, last) := (Replay(init, commits[..|commits| - 1]), commits[|commits| - 1]);
      match last
      case Written(_, key, _, after) => rest[key := after]
      case Removed(key) => rest - {key}
  }

  /** The store is the replay of its history, and versions in use are below the next one. */
  ghost predicate Explained(init: map<Key, Object>, w: World)
  {
    && Replay(init, w.commits) == w.objects
    && (forall key <- w.objects :: w.objects[key].version < w.next)
  }

  ghost function OwnWrites(commits: seq<Commit>): seq<Commit>
  {
    if commits == [] then []
    else
      var last := commits[|commits| - 1];
      OwnWrites(commits[..|commits| - 1]) + if last.Written? && last.author.Self? then [last] else []
  }

  lemma Append(init: map<Key, Object>, commits: seq<Commit>, c: Commit)
    ensures OwnWrites(commits + [c]) == OwnWrites(commits) + if c.Written? && c.author.Self? then [c] else []
    ensures Replay(init, commits + [c])
            == if c.Written? then Replay(init, commits)[c.key := c.after] else Replay(init, commits) - {c.key}
  {
    assert (commits + [c])[..|commits|] == commits;
  }

  /** A later world of the same store: no own writes in between, and a key that still carries
      the version it had holds the object it held. */
  ghost predicate Extends(w: World, w': World)
  {
    && w.commits <= w'.commits && w.next <= w'.next
    && OwnWrites(w'.commits) == OwnWrites(w.commits)
    && forall key :: key in w'.objects && w'.objects[key].version < w.next ==>
         key in w.objects && w'.objects[key] == w.objects[key]
  }

  lemma OtherWriteExtends(init: map<Key, Object>, w: World, write: Write)
    requires Explained(init, w)
    ensures Explained(init, OtherWrite(w, write)) && Extends(w, OtherWrite(w, write))
  {
    var w' := OtherWrite(w, write);
    match write
    case Put(key, replicas, rest) =>
      Append(init, w.commits, Written(Other, key, Lookup(w.objects, key), Object(w.next, replicas, rest)));
    case Remove(key) =>
      if key in w.objects {
        Append(init, w.commits, Removed(key));
      }
  }

  lemma ExtendsTransitive(a: World, b: World, c: World)
    requires Extends(a, b) && Extends(b, c)
    ensures Extends(a, c)
  {
  }

  lemma {:induction false} OtherWritesExtend(init: map<Key, Object>, w: World, writes: seq<Write>)
    requires Explained(init, w)
    ensures Explained(init, OtherWrites(w, writes)) && Extends(w, OtherWrites(w, writes))
    decreases writes
  {
    if writes != [] {
      var w1 := OtherWrite(w, writes[0]);
      OtherWriteExtends(init, w, writes[0]);
      OtherWritesExtend(init, w1, writes[1..]);
      ExtendsTransitive(w, w1, OtherWrites(w, writes));
    }
  }

  /** What a call that committed did: its one write is the latest in the history, sets the
      replicas, keeps everything else, and replaced exactly what the history before it left there. */
  ghost predicate CommittedOnce(init: map<Key, Object>, w: World, w': World, key: Key, replicas: int)
  {
    && |w.commits| < |w'.commits| && w'.next > 0
    && var (earlier, last) := (w'.commits[..|w'.commits| - 1], w'.commits[|w'.commits| - 1]);
       var before := Lookup(Replay(init, earlier), key);
       && before.Some?
       && last == Written(Self, key, before, Object(w'.next - 1, replicas, before.value.rest))
       && w'.objects == Replay(init, earlier)[key := last.after]
       && OwnWrites(w'.commits) == OwnWrites(w.commits) + [last]
  }

  lemma OnceNoLostUpdate(init: map<Key, Object>, w: World, key: Key, replicas: int, a: Attempt)
    requires Explained(init, w)
    ensures var (w', err) := ScaleOnce(w, key, replicas, a);
            && Explained(init, w') && w.commits <= w'.commits
            && (err.None? ==> CommittedOnce(init, w, w', key, replicas))
            && (err.Some? ==> OwnWrites(w'.commits) == OwnWrites(w.commits))
  {
    var w1 := OtherWrites(w, a.before);
    OtherWritesExtend(init, w, a.before);
    var w2 := OtherWrites(w1, a.between);
    OtherWritesExtend(init, w1, a.between);
    var (w', err) := ScaleOnce(w, key, replicas, a);
    if err.None? {
      assert w2.objects[key] == w1.objects[key];
      var c := w'.commits[|w2.commits|];
      Append(init, w2.commits, c);
      assert w'.commits == w2.commits + [c];
      assert w'.commits[..|w'.commits| - 1] == w2.commits;
    }
  }

  lemma {:induction false} LoopNoLostUpdate(
    init: map<Key, Object>, w: World, key: Key, replicas: int, attempts: seq<Attempt>)
    requires Explained(init, w) && attempts != []
    ensures var (w', err) := ScaleLoop(w, key, replicas, attempts);
            && Explained(init, w') && w.commits <= w'.commits
            && (err.None? ==> CommittedOnce(init, w, w', key, replicas))
            && (err.Some? ==> OwnWrites(w'.commits) == OwnWrites(w.commits))
    decreases attempts
  {
    OnceNoLostUpdate(init, w, key, replicas, attempts[0]);
    var (w1, err) := ScaleOnce(w, key, replicas, attempts[0]);
    if err == Some(Conflict) && |attempts| > 1 {
      LoopNoLostUpdate(init, w1, key, replicas, attempts[1..]);
    }
  }

  /** No lost update, whatever the other writers do and whichever faults the API answers with:
      a nil return means exactly one committed write, of the parsed count over the immediately
      preceding version's other fields; an error return means this call committed nothing; and
      text that is not a 32-bit integer never reaches the store. */
  lemma NoLostUpdate(init: map<Key, Object>, w: World, key: Key, text: string, attempts: seq<Attempt>)
    requires Explained(init, w) && |attempts| == ATTEMPTS
    ensures var (w', err) := Scale(w, key, text, attempts);
            var parsed := ParseInt(text, HALF32);
            && Explained(init, w') && w.commits <= w'.commits
            && (err.None? ==> parsed.err.NoError? && CommittedOnce(init, w, w', key, parsed.value))
            && (err.Some? ==> OwnWrites(w'.commits) == OwnWrites(w.commits))
            && (err == Some(BadNumber) <==> !parsed.err.NoError?)
            && (err == Some(BadNumber) ==> w' == w)
  {
    var parsed := ParseInt(text, HALF32);
    if parsed.err.NoError? {
      LoopNoLostUpdate(init, w, key, parsed.value, attempts);
      var (w', err) := ScaleLoop(w, key, parsed.value, attempts);
      assert Scale(w, key, text, attempts) == (w', if err.Some? then Some(Api(err.value)) else None);
      assert err.None? ==> CommittedOnce(init, w, w', key, parsed.value);
    }
  }

  /** Every attempt, run after those before it, meets a conflict. */
  ghost predicate AllConflict(w: World, key: Key, replicas: int, attempts: seq<Attempt>)
    decreases attempts
  {
    attempts != [] ==>
      && ScaleOnce(w, key, replicas, attempts[0]).1 == Some(Conflict)
      && AllConflict(ScaleOnce(w, key, replicas, attempts[0]).0, key, replicas, attempts[1..])
  }

  /** A conflict is reported exactly when every one of the attempts met one. */
  lemma {:induction false} ConflictMeansExhausted(w: World, key: Key, replicas: int, attempts: seq<Attempt>)
    requires attempts != []
    ensures ScaleLoop(w, key, replicas, attempts).1 == Some(Conflict) <==> AllConflict(w, key, replicas, attempts)
    decreases attempts
  {
    if |attempts| > 1 {
      ConflictMeansExhausted(ScaleOnce(w, key, replicas, attempts[0]).0, key, replicas, attempts[1..]);
    }
  }

  // ---------- when it succeeds ----------

  /** What one attempt meets, told from its surroundings alone: the first thing that goes wrong. */
  function Meets(w: World, key: Key, a: Attempt): Option<ApiError>
  {
    var w1 := OtherWrites(w, a.before);
    var w2 := OtherWrites(w1, a.between);
    if a.getFault.Some? then a.getFault
    else if key !in w1.objects then Some(NotFound)
    else if a.updateFault.Some? then a.updateFault
    else if key !in w2.objects then Some(NotFound)
    else if w2.objects[key].version != w1.objects[key].version then Some(Conflict)
    else None
  }

  /** What others have made of the store by the time of the n-th attempt, if none before it wrote. */
  function Meanwhile(w: World, attempts: seq<Attempt>, n: nat): World
    requires n <= |attempts|
  {
    if n == 0 then w
    else
      var a := attempts[n - 1];
      var w1 := OtherWrites(Meanwhile(w, attempts, n - 1), a.before);
      if a.getFault.Some? then w1 else OtherWrites(w1, a.between)
  }

  lemma MeanwhileTail(w: World, key: Key, attempts: seq<Attempt>, n: nat)
    requires attempts != [] && n < |attempts|
    requires Meets(w, key, attempts[0]) == Some(Conflict)
    ensures Meanwhile(w, attempts, n + 1) == Meanwhile(Meanwhile(w, attempts, 1), attempts[1..], n)
  {
    if n > 0 {
      MeanwhileTail(w, key, attempts, n - 1);
      assert attempts[1..][n - 1] == attempts[n];
    }
  }

  /** What the n-th attempt meets, run on what others have made of the store. */
  function MeetsAt(w: World, key: Key, attempts: seq<Attempt>, n: nat): Option<ApiError>
    requires n < |attempts|
  {
    Meets(Meanwhile(w, attempts, n), key, attempts[n])
  }

  predicate OnlyConflicts(w: World, key: Key, attempts: seq<Attempt>, n: nat)
    requires n <= |attempts|
  {
    forall i :: 0 <= i < n ==> MeetsAt(w, key, attempts, i) == Some(Conflict)
  }

  /** The n-th attempt is the first not to meet a conflict. */
  predicate Settles(w: World, key: Key, attempts: seq<Attempt>, n: nat)
  {
    n < |attempts| && OnlyConflicts(w, key, attempts, n) && MeetsAt(w, key, attempts, n) != Some(Conflict)
  }

  lemma OnceMeets(w: World, key: Key, replicas: int, a: Attempt)
    ensures var (w', err) := ScaleOnce(w, key, replicas, a);
            && err == Meets(w, key, a)
            && (err == Some(Conflict) ==> w' == Meanwhile(w, [a], 1))
            && (err.None? ==>
                  var w2 := OtherWrites(OtherWrites(w, a.before), a.between);
                  var rest := OtherWrites(w, a.before).objects[key].rest;
                  w'.objects == w2.objects[key := Object(w2.next, replicas, rest)])
  {
    assert Meanwhile(w, [a], 0) == w;
  }

  lemma MeanwhileFirst(w: World, attempts: seq<Attempt>)
    requires attempts != []
    ensures Meanwhile(w, attempts, 0) == w && Meanwhile(w, attempts, 1) == Meanwhile(w, [attempts[0]], 1)
  {
    assert Meanwhile(w, [attempts[0]], 0) == w;
  }

  /** The loop ends with what the first attempt not to meet a conflict meets, and having written, if
      that is nothing, the count over what others left; or with the last of its conflicts. */
  lemma {:induction false} LoopExact(w: World, key: Key, replicas: int, attempts: seq<Attempt>, n: nat)
    requires n < |attempts|
    requires Settles(w, key, attempts, n)
             || (n == |attempts| - 1 && OnlyConflicts(w, key, attempts, |attempts|))
    ensures var (w', err) := ScaleLoop(w, key, replicas, attempts);
            && err == MeetsAt(w, key, attempts, n)
            && (w', err) == ScaleOnce(Meanwhile(w, attempts, n), key, replicas, attempts[n])
    decreases attempts
  {
    OnceMeets(w, key, replicas, attempts[0]);
    MeanwhileFirst(w, attempts);
    if n > 0 {
      var (rest, w1) := (attempts[1..], Meanwhile(w, attempts, 1));
      assert MeetsAt(w, key, attempts, 0) == Some(Conflict);
      forall i | 0 <= i < |rest|
        ensures Meanwhile(w1, rest, i) == Meanwhile(w, attempts, i + 1)
        ensures MeetsAt(w1, key, rest, i) == MeetsAt(w, key, attempts, i + 1)
      {
        MeanwhileTail(w, key, attempts, i);
      }
      LoopExact(w1, key, replicas, rest, n - 1);
    } else {
      OnceMeets(w, key, replicas, attempts[0]);
    }
  }

  /** The first attempt from the m-th on that meets no conflict, or their number. */
  lemma {:induction false} SettlesOrNot(w: World, key: Key, attempts: seq<Attempt>, m: nat) returns (n: nat)
    requires m <= |attempts| && OnlyConflicts(w, key, attempts, m)
    ensures n <= |attempts| && OnlyConflicts(w, key, attempts, n)
    ensures n < |attempts| ==> Settles(w, key, attempts, n)
    decreases |attempts| - m
  {
    if m == |attempts| || MeetsAt(w, key, attempts, m) != Some(Conflict) {
      n := m;
    } else {
      n := SettlesOrNot(w, key, attempts, m + 1);
    }
  }

  /** The store after an attempt that meets nothing: the key's count, and all else as the other
      writers had left it. */
  ghost predicate WroteOver(w: World, a: Attempt, key: Key, replicas: int, w': World)
  {
    var w2 := OtherWrites(OtherWrites(w, a.before), a.between);
    && key in w2.objects && key in w'.objects && w'.objects - {key} == w2.objects - {key}
    && w'.objects[key].replicas == replicas && w'.objects[key].rest == w2.objects[key].rest
  }

  lemma AttemptWrites(init: map<Key, Object>, w: World, key: Key, replicas: int, a: Attempt)
    requires Explained(init, w) && Meets(w, key, a).None?
    ensures WroteOver(w, a, key, replicas, ScaleOnce(w, key, replicas, a).0)
  {
    OnceMeets(w, key, replicas, a);
    OtherWritesExtend(init, w, a.before);
    OtherWritesExtend(init, OtherWrites(w, a.before), a.between);
  }

  lemma {:induction false} MeanwhileExplained(init: map<Key, Object>, w: World, attempts: seq<Attempt>, n: nat)
    requires Explained(init, w) && n <= |attempts|
    ensures Explained(init, Meanwhile(w, attempts, n))
  {
    if n > 0 {
      MeanwhileExplained(init, w, attempts, n - 1);
      OtherWritesExtend(init, Meanwhile(w, attempts, n - 1), attempts[n - 1].before);
      var w1 := OtherWrites(Meanwhile(w, attempts, n - 1), attempts[n - 1].before);
      OtherWritesExtend(init, w1, attempts[n - 1].between);
    }
  }

  /** Exactly when scaling succeeds. With n the number of attempts that meet a conflict before one
      does not: bad text is refused; if n is all of them the answer is a conflict; otherwise it is
      what the n-th attempt meets -- nil if it finds the deployment, gets no fault, and sees it
      unchanged between its two calls. With nil the stored count is the number the text stands for,
      and everything else in the store is as the others had left it. */
  lemma {:induction false} SucceedsExactly(init: map<Key, Object>, w: World, key: Key, text: string,
                                           attempts: seq<Attempt>)
    returns (n: nat)
    requires Explained(init, w) && |attempts| == ATTEMPTS
    ensures n <= 5 && OnlyConflicts(w, key, attempts, n) && (n < 5 ==> MeetsAt(w, key, attempts, n) != Some(Conflict))
    ensures var (w', err) := Scale(w, key, text, attempts);
            if !IsNumeral(text) || Numeral(text) < -0x8000_0000 || Numeral(text) >= 0x8000_0000 then
              err == Some(BadNumber)
            else if n == 5 then err == Some(Api(Conflict))
            else
              var met := MeetsAt(w, key, attempts, n);
              if met.Some? then err == Some(Api(met.value))
              else err.None? && WroteOver(Meanwhile(w, attempts, n), attempts[n], key, Numeral(text), w')
  {
    ParseIntExact(text, HALF32);
    n := SettlesOrNot(w, key, attempts, 0);
    if ParseInt(text, HALF32).err.NoError? {
      LoopExact(w, key, Numeral(text), attempts, if n < |attempts| then n else |attempts| - 1);
      MeanwhileExplained(init, w, attempts, n);
      if n < |attempts| && MeetsAt(w, key, attempts, n).None? {
        AttemptWrites(init, Meanwhile(w, attempts, n), key, Numeral(text), attempts[n]);
      }
    }
  }
}
