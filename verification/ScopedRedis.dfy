/**
 The key space shared by several simulations: a proxy that prefixes every key with its simulation.
 What a command does to the value at its key is Redis's affair, and a parameter here.
 */
module ScopedRedis {
  import opened Wrappers
  import opened PyText

  const LIVE_SIMULATION_ID := "00000000-0000-0000-0000-000000000001"
  const UUID_LENGTH := 36

  /** The text form of a UUID (section 4 of RFC 9562): hexadecimal digits and hyphens, always 36 of them. */
  predicate IsUuid(id: string) {
    |id| == UUID_LENGTH && forall i :: 0 <= i < |id| ==> '0' <= id[i] <= '9' || 'a' <= id[i] <= 'f' || id[i] == '-'
  }

  function Prefix(id: string): string {
    if id == LIVE_SIMULATION_ID then "live" else "sim:" + id
  }

  function Key(id: string, raw: string): string {
    Prefix(id) + ":" + raw
  }

  /** The live simulation's keys begin with `live:`, any other's with `sim:`, its id and a colon. */
  lemma KeyForms(id: string, raw: string)
    ensures id == LIVE_SIMULATION_ID ==> Key(id, raw) == "live:" + raw
    ensures id != LIVE_SIMULATION_ID ==> Key(id, raw) == "sim:" + id + ":" + raw
  {
    assert "live" + ":" == "live:";
  }

  lemma SuffixesEqual(front: string, x: string, y: string)
    requires front + x == front + y
    ensures x == y
  {
    assert (front + x)[|front|..] == x && (front + y)[|front|..] == y;
  }

  lemma PiecesEqual(front: string, a: string, b: string, x: string, y: string)
    requires |a| == |b| && front + a + ":" + x == front + b + ":" + y
    ensures a == b && x == y
  {
    var key, n := front + a + ":" + x, |front| + |a|;
    assert key[|front|..n] == a && key[|front|..n] == b;
    assert key[n + 1..] == x && key[n + 1..] == y;
  }

  lemma FirstOfPrefix(id: string, raw: string)
    ensures Key(id, raw)[0] == if id == LIVE_SIMULATION_ID then 'l' else 's'
  {
  }

  /** Keys of different simulations, or of different raw keys, are different. */
  lemma KeyIsInjective(a: string, b: string, x: string, y: string)
    requires IsUuid(a) && IsUuid(b) && Key(a, x) == Key(b, y)
    ensures a == b && x == y
  {
    FirstOfPrefix(a, x);
    FirstOfPrefix(b, y);
    if a == LIVE_SIMULATION_ID {
      SuffixesEqual(Prefix(a) + ":", x, y);
    } else {
      PiecesEqual("sim:", a, b, x, y);
    }
  }

  // ---- Commands ----

  /** The single-key commands of the proxy, with their arguments. */
  datatype Op =
    | Get | Set(value: string, ex: Option<int>, nx: bool) | Incr | Expire(seconds: int)
    | RPush(values: seq<string>) | LTrim(start: int, stop: int) | LRange(start: int, stop: int)
    | HSet(field: string, value: string) | HGet(field: string) | HGetAll | HDel(fields: seq<string>)

  datatype Command = On(op: Op, key: string) | Delete(keys: seq<string>)

  datatype Reply<R> = Answer(answer: R) | Deleted(count: nat)

  /**
   What Redis does at a key at a given time: the value afterwards, if any, and the reply; and whether a
   value is still there at a time, or has expired.
   */
  datatype Server<!V, !R> = Server(act: (int, Op, Option<V>) -> (Option<V>, R), live: (int, V) -> bool)

  function At<V>(store: map<string, V>, key: string): Option<V> {
    if key in store then Some(store[key]) else None
  }

  function Put<V>(store: map<string, V>, key: string, value: Option<V>): map<string, V> {
    if value.Some? then store[key := value.value] else store - {key}
  }

  /** What a command finds: an expired value is not there any more. */
  function Shown<V, R>(server: Server<V, R>, now: int, value: Option<V>): Option<V> {
    if value.Some? && server.live(now, value.value) then value else None
  }

  /** Deleting in turn counts each key that is still there. */
  function DeleteAll<V, R>(server: Server<V, R>, now: int, store: map<string, V>, keys: seq<string>)
    : (map<string, V>, nat)
  {
    if keys == [] then (store, 0)
    else
      var (rest, n) := DeleteAll(server, now, store - {keys[0]}, keys[1..]);
      (rest, n + if Shown(server, now, At(store, keys[0])).Some? then 1 else 0)
  }

  function KeysOf(keys: seq<string>): set<string> {
    set key | key in keys
  }

  /** Those of the keys that are there and have not expired. */
  function Live<V, R>(server: Server<V, R>, now: int, store: map<string, V>, keys: set<string>): set<string> {
    set key | key in keys && key in store && server.live(now, store[key])
  }

  lemma LiveSplit<V, R>(server: Server<V, R>, now: int, store: map<string, V>, k: string, rest: set<string>)
    ensures |Live(server, now, store, {k} + rest)|
            == |Live(server, now, store - {k}, rest)| + if k in store && server.live(now, store[k]) then 1 else 0
  {
    var all, later := Live(server, now, store, {k} + rest), Live(server, now, store - {k}, rest);
    if k in store && server.live(now, store[k]) {
      assert all == later + {k} && k !in later;
    } else {
      assert all == later;
    }
  }

  lemma KeysCons(k: string, rest: seq<string>)
    ensures KeysOf([k] + rest) == {k} + KeysOf(rest)
  {
  }

  /** What is left after a deletion. */
  lemma {:induction false} DeletedAreGone<V, R>(server: Server<V, R>, now: int, store: map<string, V>,
                                                keys: seq<string>)
    ensures DeleteAll(server, now, store, keys).0 == store - KeysOf(keys)
  {
    if keys == [] {
      assert KeysOf(keys) == {};
    } else {
      DeletedAreGone(server, now, store - {keys[0]}, keys[1..]);
      assert keys == [keys[0]] + keys[1..];
      KeysCons(keys[0], keys[1..]);
      assert store - {keys[0]} - KeysOf(keys[1..]) == store - ({keys[0]} + KeysOf(keys[1..]));
    }
  }

  /** The count of a deletion. */
  lemma {:induction false} LiveAreCounted<V, R>(server: Server<V, R>, now: int, store: map<string, V>,
                                                keys: seq<string>)
    ensures DeleteAll(server, now, store, keys).1 == |Live(server, now, store, KeysOf(keys))|
  {
    if keys == [] {
      assert Live(server, now, store, KeysOf(keys)) == {};
    } else {
      LiveAreCounted(server, now, store - {keys[0]}, keys[1..]);
      assert keys == [keys[0]] + keys[1..];
      KeysCons(keys[0], keys[1..]);
      LiveSplit(server, now, store, keys[0], KeysOf(keys[1..]));
    }
  }

  function Execute<V, R>(server: Server<V, R>, now: int, store: map<string, V>, c: Command)
    : (map<string, V>, Reply<R>)
  {
    match c
    case On(op, key) =>
      var (value, answer) := server.act(now, op, Shown(server, now, At(store, key)));
      (Put(store, key, value), Answer(answer))
    case Delete(keys) =>
      var (rest, n) := DeleteAll(server, now, store, keys);
      (rest, Deleted(n))
  }

  function Prefixed(id: string, keys: seq<string>): seq<string> {
    seq(|keys|, i requires 0 <= i < |keys| => Key(id, keys[i]))
  }

  /** The command the proxy sends. */
  function Scoped(id: string, c: Command): Command {
    match c
    case On(op, key) => On(op, Key(id, key))
    case Delete(keys) => Delete(Prefixed(id, keys))
  }

  // ---- Each simulation has a store of its own ----

  /** A private store holds exactly what the shared one holds under the simulation's keys. */
  ghost predicate Sees<V(!new)>(shared: map<string, V>, id: string, own: map<string, V>) {
    forall raw :: At(shared, Key(id, raw)) == At(own, raw)
  }

  lemma RemoveInScope<V(!new)>(shared: map<string, V>, id: string, own: map<string, V>, k: string)
    requires IsUuid(id) && Sees(shared, id, own)
    ensures Sees(shared - {Key(id, k)}, id, own - {k})
  {
    forall raw ensures At(shared - {Key(id, k)}, Key(id, raw)) == At(own - {k}, raw) {
      assert At(shared, Key(id, raw)) == At(own, raw);
      if Key(id, raw) == Key(id, k) {
        KeyIsInjective(id, id, raw, k);
      }
    }
  }

  lemma {:induction false} DeleteInScope<V(!new), R>(server: Server<V, R>, now: int, shared: map<string, V>, id: string,
                                                     own: map<string, V>, keys: seq<string>)
    requires IsUuid(id) && Sees(shared, id, own)
    ensures var (s, n) := DeleteAll(server, now, shared, Prefixed(id, keys));
            var (o, m) := DeleteAll(server, now, own, keys);
            n == m && Sees(s, id, o)
  {
    if keys != [] {
      var k, all := keys[0], Prefixed(id, keys);
      assert all != [] && all[0] == Key(id, k) && all[1..] == Prefixed(id, keys[1..]);
      assert At(shared, Key(id, k)) == At(own, k);
      RemoveInScope(shared, id, own, k);
      DeleteInScope(server, now, shared - {Key(id, k)}, id, own - {k}, keys[1..]);
    }
  }

  /** A command through the proxy acts and answers as the same command on the private store. */
  lemma CommandInScope<V(!new), R>(server: Server<V, R>, now: int, shared: map<string, V>, id: string,
                                   own: map<string, V>, c: Command)
    requires IsUuid(id) && Sees(shared, id, own)
    ensures var (s, r) := Execute(server, now, shared, Scoped(id, c));
            var (o, q) := Execute(server, now, own, c);
            r == q && Sees(s, id, o)
  {
    match c
    case Delete(keys) => DeleteInScope(server, now, shared, id, own, keys);
    case On(op, key) =>
      assert At(shared, Key(id, key)) == At(own, key);
      var value := server.act(now, op, Shown(server, now, At(own, key))).0;
      forall raw ensures At(Put(shared, Key(id, key), value), Key(id, raw)) == At(Put(own, key, value), raw) {
        assert At(shared, Key(id, raw)) == At(own, raw);
        if Key(id, raw) == Key(id, key) {
          KeyIsInjective(id, id, raw, key);
        }
      }
  }

  lemma {:induction false} DeleteOutside<V, R>(server: Server<V, R>, now: int, shared: map<string, V>, id: string,
                                               keys: seq<string>, key: string)
    requires forall raw :: key != Key(id, raw)
    ensures At(DeleteAll(server, now, shared, Prefixed(id, keys)).0, key) == At(shared, key)
  {
    if keys != [] {
      assert Prefixed(id, keys)[1..] == Prefixed(id, keys[1..]);
      DeleteOutside(server, now, shared - {Key(id, keys[0])}, id, keys[1..], key);
    }
  }

  /** A key outside the simulation is untouched. */
  lemma CommandOutside<V, R>(server: Server<V, R>, now: int, shared: map<string, V>, id: string, c: Command,
                             key: string)
    requires forall raw :: key != Key(id, raw)
    ensures At(Execute(server, now, shared, Scoped(id, c)).0, key) == At(shared, key)
  {
    if c.Delete? {
      DeleteOutside(server, now, shared, id, c.keys, key);
    }
  }

  /** Commands of several simulations in any order and at any times, last first. */
  datatype Run = Start | Then(earlier: Run, id: string, command: Command, at: int)

  predicate Genuine(run: Run) {
    run.Then? ==> IsUuid(run.id) && Genuine(run.earlier)
  }

  function After<V, R>(server: Server<V, R>, shared: map<string, V>, run: Run): map<string, V> {
    match run
    case Start => shared
    case Then(earlier, id, c, at) => Execute(server, at, After(server, shared, earlier), Scoped(id, c)).0
  }

  /** The private store of one simulation after its own commands alone. */
  function OwnAfter<V, R>(server: Server<V, R>, own: map<string, V>, me: string, run: Run): map<string, V> {
    match run
    case Start => own
    case Then(earlier, id, c, at) =>
      var before := OwnAfter(server, own, me, earlier);
      if id == me then Execute(server, at, before, c).0 else before
  }

  /** The reply to the last command of a run. */
  function LastReply<V, R>(server: Server<V, R>, shared: map<string, V>, run: Run): Reply<R>
    requires run.Then?
  {
    Execute(server, run.at, After(server, shared, run.earlier), Scoped(run.id, run.command)).1
  }

  /**
   Whatever the interleaving, a simulation's part of the shared store, and every reply it gets, is that
   of a store it has to itself.
   */
  lemma {:induction false} Isolation<V(!new), R>(server: Server<V, R>, shared: map<string, V>, own: map<string, V>,
                                                 me: string, run: Run)
    requires IsUuid(me) && Genuine(run) && Sees(shared, me, own)
    ensures Sees(After(server, shared, run), me, OwnAfter(server, own, me, run))
    ensures run.Then? && run.id == me ==>
              LastReply(server, shared, run)
                == Execute(server, run.at, OwnAfter(server, own, me, run.earlier), run.command).1
  {
    if run.Then? {
      Isolation(server, shared, own, me, run.earlier);
      var s, o := After(server, shared, run.earlier), OwnAfter(server, own, me, run.earlier);
      if run.id == me {
        CommandInScope(server, run.at, s, me, o, run.command);
      } else {
        forall raw ensures At(After(server, shared, run), Key(me, raw)) == At(o, raw) {
          assert At(s, Key(me, raw)) == At(o, raw);
          forall other ensures Key(me, raw) != Key(run.id, other) {
            if Key(me, raw) == Key(run.id, other) {
              KeyIsInjective(me, run.id, raw, other);
            }
          }
          CommandOutside(server, run.at, s, run.id, run.command, Key(me, raw));
        }
      }
    }
  }

  /** Keys outside every simulation, such as the global ones, are untouched by any run. */
  lemma {:induction false} GlobalKeysUntouched<V, R>(server: Server<V, R>, shared: map<string, V>, run: Run,
                                                     key: string)
    requires Genuine(run) && forall id, raw :: IsUuid(id) ==> key != Key(id, raw)
    ensures At(After(server, shared, run), key) == At(shared, key)
  {
    if run.Then? {
      GlobalKeysUntouched(server, shared, run.earlier, key);
      CommandOutside(server, run.at, After(server, shared, run.earlier), run.id, run.command, key);
    }
  }

  // ---- Scanning ----

  predicate Literal(c: char) {
    c != '*' && c != '?' && c != '[' && c != '\\'
  }

  /** Redis's glob match; `special` says how patterns that start with a bracket or a backslash match. */
  predicate Glob(special: (string, string) -> bool, pattern: string, s: string)
    decreases |pattern| + |s|
  {
    if pattern == "" then s == ""
    else if pattern[0] == '*' then Glob(special, pattern[1..], s) || (s != "" && Glob(special, pattern, s[1..]))
    else if pattern[0] == '?' then s != "" && Glob(special, pattern[1..], s[1..])
    else if !Literal(pattern[0]) then special(pattern, s)
    else s != "" && s[0] == pattern[0] && Glob(special, pattern[1..], s[1..])
  }

  lemma PrefixStep(s: string, prefix: string)
    requires s != "" && prefix != "" && s[0] == prefix[0]
    ensures HasPrefix(s, prefix) <==> HasPrefix(s[1..], prefix[1..])
    ensures HasPrefix(s, prefix) ==> s[1..][|prefix[1..]|..] == s[|prefix|..]
  {
    if |prefix| <= |s| {
      assert s[1..][..|prefix| - 1] == s[..|prefix|][1..];
      assert s[..|prefix|] == [s[0]] + s[..|prefix|][1..];
      assert prefix == [prefix[0]] + prefix[1..];
    }
  }

  lemma {:induction false} GlobOfLiteral(special: (string, string) -> bool, prefix: string, pattern: string, s: string)
    requires forall i :: 0 <= i < |prefix| ==> Literal(prefix[i])
    ensures Glob(special, prefix + pattern, s) <==> HasPrefix(s, prefix) && Glob(special, pattern, s[|prefix|..])
  {
    if prefix == "" {
      assert prefix + pattern == pattern && s[0..] == s;
    } else {
      assert (prefix + pattern)[1..] == prefix[1..] + pattern;
      if s != "" && s[0] == prefix[0] {
        GlobOfLiteral(special, prefix[1..], pattern, s[1..]);
        PrefixStep(s, prefix);
      }
    }
  }

  /** A text without special characters matches itself only, and with an asterisk all that begins with it. */
  lemma {:induction false} GlobOfPlain(special: (string, string) -> bool, text: string, s: string)
    requires forall i :: 0 <= i < |text| ==> Literal(text[i])
    ensures Glob(special, text, s) <==> s == text
    ensures Glob(special, text + "*", s) <==> HasPrefix(s, text)
  {
    GlobOfLiteral(special, text, "", s);
    GlobOfLiteral(special, text, "*", s);
    assert text + "" == text;
    if HasPrefix(s, text) {
      StarMatches(special, s[|text|..]);
    }
  }

  lemma {:induction false} StarMatches(special: (string, string) -> bool, s: string)
    ensures Glob(special, "*", s)
  {
    assert "*"[1..] == "";
    if s != "" {
      StarMatches(special, s[1..]);
    }
  }

  /** What the proxy makes of a key the server returns: its own prefix taken off. */
  function Unprefixed(id: string, key: string): (raw: string)
    ensures key == Key(id, raw) || key == raw
  {
    if HasPrefix(key, Prefix(id) + ":") then key[|Prefix(id)| + 1..] else key
  }

  lemma UnprefixedKey(id: string, raw: string)
    ensures Unprefixed(id, Key(id, raw)) == raw
  {
    var p := Prefix(id) + ":";
    assert Key(id, raw) == p + raw;
    assert (p + raw)[..|p|] == p && (p + raw)[|p|..] == raw;
  }

  /** The keys a scan covers: those matching the prefixed pattern, or all keys without a pattern. */
  predicate Covered(special: (string, string) -> bool, id: string, pattern: Option<string>, key: string) {
    Truthy(pattern) ==> Glob(special, Key(id, pattern.value), key)
  }

  lemma PrefixIsLiteral(id: string)
    requires IsUuid(id)
    ensures forall i :: 0 <= i < |Prefix(id) + ":"| ==> Literal((Prefix(id) + ":")[i])
  {
  }

  /** With a pattern, a scan covers exactly the simulation's own keys whose raw form matches it. */
  lemma ScanWithPattern(special: (string, string) -> bool, id: string, pattern: string, key: string)
    requires IsUuid(id) && pattern != ""
    ensures Covered(special, id, Some(pattern), key) <==>
            exists raw :: key == Key(id, raw) && Glob(special, pattern, raw)
    ensures Covered(special, id, Some(pattern), key) ==>
              key == Key(id, Unprefixed(id, key)) && Glob(special, pattern, Unprefixed(id, key))
  {
    var p := Prefix(id) + ":";
    PrefixIsLiteral(id);
    GlobOfLiteral(special, p, pattern, key);
    assert Key(id, pattern) == p + pattern;
    if HasPrefix(key, p) {
      assert key == p + key[|p|..];
      assert key == Key(id, key[|p|..]);
    }
    forall raw | key == Key(id, raw) && Glob(special, pattern, raw) ensures Covered(special, id, Some(pattern), key) {
      assert key == p + raw;
      assert key[..|p|] == p && key[|p|..] == raw;
    }
  }

  /** The key is one of the simulation's own. */
  predicate Own(id: string, key: string) {
    HasPrefix(key, Prefix(id) + ":")
  }

  lemma OwnIsKey(id: string, key: string)
    ensures Own(id, key) <==> key == Key(id, Unprefixed(id, key))
    ensures Own(id, Key(id, key))
    ensures !Own(id, key) ==> Unprefixed(id, key) == key
  {
    var p := Prefix(id) + ":";
    if Own(id, key) {
      assert key == p + key[|p|..];
    }
    assert Key(id, key) == p + key;
    assert |Key(id, key)| > |key|;
  }

  /** Two keys of the store look alike to the caller: one of its own, and one that reads like its raw form. */
  predicate Masks(id: string, keys: set<string>, raw: string) {
    raw in keys && !Own(id, raw) && Key(id, raw) in keys
  }

  /**
   Without a pattern a scan covers every key there is, foreign ones whole. Reading what it shows leads
   back to what was scanned exactly when all keys are the simulation's own; and the names shown are all
   different exactly when none of its keys has a raw form that is itself a foreign key.
   */
  lemma ScanWithoutPattern(special: (string, string) -> bool, id: string, pattern: Option<string>, keys: set<string>)
    requires !Truthy(pattern)
    ensures (forall key :: key in keys && Covered(special, id, pattern, key) ==> Key(id, Unprefixed(id, key)) == key)
            <==> forall key :: key in keys ==> Own(id, key)
    ensures (forall j, k :: j in keys && k in keys && Unprefixed(id, j) == Unprefixed(id, k) ==> j == k)
            <==> forall raw :: raw in keys ==> !Masks(id, keys, raw)
  {
    forall key | key in keys ensures Covered(special, id, pattern, key) {
    }
    forall key ensures Own(id, key) <==> Key(id, Unprefixed(id, key)) == key {
      OwnIsKey(id, key);
    }
    NamesDiffer(id, keys);
  }

  lemma NamesDiffer(id: string, keys: set<string>)
    ensures (forall j, k :: j in keys && k in keys && Unprefixed(id, j) == Unprefixed(id, k) ==> j == k)
            <==> forall raw :: raw in keys ==> !Masks(id, keys, raw)
  {
    forall raw | raw in keys && Masks(id, keys, raw)
      ensures Unprefixed(id, raw) == Unprefixed(id, Key(id, raw)) && raw != Key(id, raw)
    {
      OwnIsKey(id, raw);
      UnprefixedKey(id, raw);
    }
    forall j, k | j in keys && k in keys && Unprefixed(id, j) == Unprefixed(id, k) && j != k
      ensures Masks(id, keys, j) || Masks(id, keys, k)
    {
      OwnIsKey(id, j);
      OwnIsKey(id, k);
    }
  }

  /** One client of the shared store. */
  class RedisClient<V, R> {
    const server: Server<V, R>
    var store: map<string, V>

    constructor (server: Server<V, R>, store: map<string, V>)
      ensures this.server == server && this.store == store
    {
      this.server, this.store := server, store;
    }

    method Run(c: Command, now: int) returns (reply: Reply<R>)
      modifies this
      ensures (store, reply) == Execute(server, now, old(store), c)
      ensures match c
              case On(op, key) =>
                var shown := if key in old(store) && server.live(now, old(store)[key]) then Some(old(store)[key])
                             else None;
                var (value, answer) := server.act(now, op, shown);
                && reply == Answer(answer)
                && store == if value.Some? then old(store)[key := value.value] else old(store) - {key}
              case Delete(keys) =>
                && store == old(store) - KeysOf(keys)
                && reply == Deleted(|Live(server, now, old(store), KeysOf(keys))|)
    {
      match c
      case On(op, key) =>
        var (value, answer) := server.act(now, op, Shown(server, now, At(store, key)));
        store, reply := Put(store, key, value), Answer(answer);
      case Delete(keys) =>
        var i, n: nat := 0, 0;
        while i < |keys|
          invariant 0 <= i <= |keys|
          invariant DeleteAll(server, now, old(store), keys)
                    == (DeleteAll(server, now, store, keys[i..]).0, n + DeleteAll(server, now, store, keys[i..]).1)
        {
          assert keys[i..][1..] == keys[i + 1..];
          if Shown(server, now, At(store, keys[i])).Some? {
            n := n + 1;
          }
          store := store - {keys[i]};
          i := i + 1;
        }
        reply := Deleted(n);
        DeletedAreGone(server, now, old(store), keys);
        LiveAreCounted(server, now, old(store), keys);
    }
  }

  class ScopedRedis<V, R> {
    const redis: RedisClient<V, R>
    const simulationId: string

    constructor (redis: RedisClient<V, R>, simulationId: string)
      requires IsUuid(simulationId)
      ensures this.redis == redis && this.simulationId == simulationId
    {
      this.redis, this.simulationId := redis, simulationId;
    }

    method Run(c: Command, now: int) returns (reply: Reply<R>)
      modifies redis
      ensures (redis.store, reply) == Execute(redis.server, now, old(redis.store), Scoped(simulationId, c))
    {
      reply := redis.Run(Scoped(simulationId, c), now);
    }

    /** A page of keys as the caller sees it; `page` is what the server returns for the prefixed pattern. */
    method Scan(page: seq<string>) returns (keys: seq<string>)
      ensures |keys| == |page| && forall i :: 0 <= i < |page| ==> keys[i] == Unprefixed(simulationId, page[i])
    {
      keys := [];
      var i := 0;
      while i < |page|
        invariant 0 <= i <= |page| && |keys| == i
        invariant forall k :: 0 <= k < i ==> keys[k] == Unprefixed(simulationId, page[k])
      {
        keys := keys + [Unprefixed(simulationId, page[i])];
        i := i + 1;
      }
    }
  }
}
