/**
 The SQL migration runner: `up` and `down`, each migration in a transaction of its own. The database
 schema is any type, and a script any partial function on it.
 */
module Migrations {
  import opened Wrappers
  import opened MigrationFiles

  // ---- The commands ----

  /**
   `up` is a script's effect, None when it fails; `down` the same for the script that belongs to a
   version and a name, and `downs` the down files there are.
   */
  datatype Scripts<!S> = Scripts(up: (Migration, S) -> Option<S>, down: (nat, string, S) -> Option<S>,
                                 downs: set<(nat, string)>)

  datatype State<S> = State(schema: S, applied: map<nat, string>)

  datatype Rollback = NothingApplied | NoUpFile | NoDownFile | ScriptFailed | RolledBack(version: nat)

  function Pending(files: seq<Migration>, applied: set<nat>): seq<Migration> {
    if files == [] then []
    else (if files[0].version in applied then [] else [files[0]]) + Pending(files[1..], applied)
  }

  /** Applies migrations in turn up to the first that fails, by its script or as a version already there. */
  function ApplyAll<S>(scripts: Scripts<S>, files: seq<Migration>, s: State<S>): (State<S>, bool) {
    if files == [] then (s, true)
    else
      var next := scripts.up(files[0], s.schema);
      if next.None? || files[0].version in s.applied then (s, false)
      else ApplyAll(scripts, files[1..], State(next.value, s.applied[files[0].version := files[0].name]))
  }

  function UpOn<S>(scripts: Scripts<S>, files: seq<Migration>, s: State<S>): (State<S>, bool) {
    ApplyAll(scripts, Pending(files, s.applied.Keys), s)
  }

  predicate IsLatest(versions: set<nat>, v: nat) {
    v in versions && forall w :: w in versions ==> w <= v
  }

  lemma {:induction false} LatestExists(versions: set<nat>)
    requires versions != {}
    ensures exists v :: IsLatest(versions, v)
  {
    var v :| v in versions;
    if versions != {v} {
      var rest := versions - {v};
      assert versions == rest + {v};
      LatestExists(rest);
      var w :| IsLatest(rest, w);
      assert IsLatest(versions, if v < w then w else v);
    } else {
      assert IsLatest(versions, v);
    }
  }

  /** The first migration of that version. */
  function FileOf(files: seq<Migration>, v: nat): (file: Option<Migration>)
    ensures file.None? <==> forall i :: 0 <= i < |files| ==> files[i].version != v
    ensures file.Some? ==> file.value in files && file.value.version == v
  {
    if files == [] then None else if files[0].version == v then Some(files[0]) else FileOf(files[1..], v)
  }

  /** The effect of rolling back version `latest`. */
  function RollBack<S>(scripts: Scripts<S>, files: seq<Migration>, s: State<S>, latest: nat): (State<S>, Rollback) {
    var file := FileOf(files, latest);
    if file.None? then (s, NoUpFile)
    else if (latest, file.value.name) !in scripts.downs then (s, NoDownFile)
    else
      var next := scripts.down(latest, file.value.name, s.schema);
      if next.None? then (s, ScriptFailed) else (State(next.value, s.applied - {latest}), RolledBack(latest))
  }

  class Runner<S> {
    var schema: S
    var applied: map<nat, string>

    constructor (schema: S)
      ensures Current() == State(schema, map[])
    {
      this.schema, applied := schema, map[];
    }

    function Current(): State<S>
      reads this
    {
      State(schema, applied)
    }

    /** Applies what is pending; stops at the first failure, whose transaction leaves nothing behind. */
    method Up(scripts: Scripts<S>, directory: seq<File>) returns (done: bool)
      modifies this
      ensures (Current(), done) == UpOn(scripts, Discover(directory), old(Current()))
    {
      var pending, i := Pending(Discover(directory), applied.Keys), 0;
      ghost var start := Current();
      while i < |pending|
        invariant 0 <= i <= |pending|
        invariant ApplyAll(scripts, pending, start) == ApplyAll(scripts, pending[i..], Current())
      {
        var file := pending[i];
        var next := scripts.up(file, schema);
        assert pending[i..][1..] == pending[i + 1..];
        if next.None? || file.version in applied {
          return false;
        }
        schema := next.value;
        applied := applied[file.version := file.name];
        i := i + 1;
      }
      done := true;
    }

    /** Rolls back the highest version applied. */
    method Down(scripts: Scripts<S>, directory: seq<File>) returns (outcome: Rollback)
      modifies this
      ensures old(applied) == map[] ==> Current() == old(Current()) && outcome == NothingApplied
      ensures old(applied) != map[] ==>
                exists latest :: IsLatest(old(applied).Keys, latest)
                  && (Current(), outcome) == RollBack(scripts, Discover(directory), old(Current()), latest)
                  && match FileOf(Discover(directory), latest)
                     case None => outcome == NoUpFile && Current() == old(Current())
                     case Some(file) =>
                       if (latest, file.name) !in scripts.downs then
                         outcome == NoDownFile && Current() == old(Current())
                       else
                         match scripts.down(latest, file.name, old(schema))
                         case None => outcome == ScriptFailed && Current() == old(Current())
                         case Some(rolled) =>
                           outcome == RolledBack(latest) && schema == rolled && applied == old(applied) - {latest}
    {
      if applied == map[] {
        return NothingApplied;
      }
      LatestExists(applied.Keys);
      var latest: nat :| latest in applied.Keys && IsLatest(applied.Keys, latest);
      var file := FileOf(Discover(directory), latest);
      if file.None? {
        return NoUpFile;
      }
      if (latest, file.value.name) !in scripts.downs {
        return NoDownFile;
      }
      var next := scripts.down(latest, file.value.name, schema);
      if next.None? {
        return ScriptFailed;
      }
      schema := next.value;
      applied := applied - {latest};
      outcome := RolledBack(latest);
    }
  }

  // ---- The schema is the replay of what is recorded ----

  /** The schema after the first `n` migrations, run from the empty database. */
  function Replay<S>(scripts: Scripts<S>, empty: S, files: seq<Migration>, n: nat): Option<S>
    requires n <= |files|
  {
    if n == 0 then Some(empty)
    else
      var before := Replay(scripts, empty, files, n - 1);
      if before.None? then None else scripts.up(files[n - 1], before.value)
  }

  /** The versions of the first `n` migrations. */
  function VersionsOf(files: seq<Migration>, n: nat): set<nat>
    requires n <= |files|
  {
    if n == 0 then {} else VersionsOf(files, n - 1) + {files[n - 1].version}
  }

  lemma {:induction false} VersionsOfAre(files: seq<Migration>, n: nat, v: nat)
    requires n <= |files|
    ensures v in VersionsOf(files, n) <==> exists i :: 0 <= i < n && files[i].version == v
  {
    if n > 0 {
      VersionsOfAre(files, n - 1, v);
      assert v == files[n - 1].version ==> 0 <= n - 1 < n && files[n - 1].version == v;
    }
  }

  /** Exactly the first `n` migrations are recorded, and the schema is their replay. */
  ghost predicate AtStep<S>(scripts: Scripts<S>, empty: S, files: seq<Migration>, s: State<S>, n: nat) {
    && n <= |files| && s.applied.Keys == VersionsOf(files, n) && Replay(scripts, empty, files, n) == Some(s.schema)
    && Names(files, n, s.applied)
  }

  /** Each of the first `n` migrations is recorded under its name. */
  ghost predicate Names(files: seq<Migration>, n: nat, applied: map<nat, string>)
    requires n <= |files|
  {
    forall i :: 0 <= i < n ==> files[i].version in applied && applied[files[i].version] == files[i].name
  }

  lemma {:induction false} PendingAfter(files: seq<Migration>, n: nat, k: nat)
    requires Increasing(files) && k <= |files| && n <= |files|
    ensures Pending(files[k..], VersionsOf(files, n)) == files[if k < n then n else k..]
    decreases |files| - k
  {
    if k < |files| {
      assert files[k..][1..] == files[k + 1..];
      PendingAfter(files, n, k + 1);
      VersionsOfAre(files, n, files[k].version);
      assert files[k].version in VersionsOf(files, n) <==> k < n;
      if k >= n {
        assert [files[k]] + files[k + 1..] == files[k..];
      }
    }
  }

  lemma {:induction false} ApplyingKeepsStep<S>(scripts: Scripts<S>, empty: S, files: seq<Migration>, s: State<S>,
                                                n: nat)
    returns (m: nat)
    requires Increasing(files) && AtStep(scripts, empty, files, s, n)
    ensures n <= m <= |files| && AtStep(scripts, empty, files, ApplyAll(scripts, files[n..], s).0, m)
    ensures ApplyAll(scripts, files[n..], s).1 <==> m == |files|
    ensures m < |files| ==> scripts.up(files[m], ApplyAll(scripts, files[n..], s).0.schema).None?
    decreases |files| - n
  {
    m := n;
    if n < |files| {
      var file := files[n];
      var next := scripts.up(file, s.schema);
      assert files[n..][0] == file && files[n..][1..] == files[n + 1..];
      VersionsOfAre(files, n, file.version);
      if next.Some? {
        var t := State(next.value, s.applied[file.version := file.name]);
        assert t.applied.Keys == s.applied.Keys + {file.version};
        m := ApplyingKeepsStep(scripts, empty, files, t, n + 1);
      }
    }
  }

  /**
   `up` goes from the first n migrations to the first m; it succeeds exactly when m is all of them, and else
   the next one fails on the schema it leaves.
   */
  lemma UpKeepsStep<S>(scripts: Scripts<S>, empty: S, files: seq<Migration>, s: State<S>, n: nat) returns (m: nat)
    requires Increasing(files) && AtStep(scripts, empty, files, s, n)
    ensures n <= m <= |files| && AtStep(scripts, empty, files, UpOn(scripts, files, s).0, m)
    ensures UpOn(scripts, files, s).1 <==> m == |files|
    ensures m < |files| ==> scripts.up(files[m], UpOn(scripts, files, s).0.schema).None?
  {
    PendingAfter(files, n, 0);
    assert files[0..] == files;
    m := ApplyingKeepsStep(scripts, empty, files, s, n);
  }

  /** After an `up`, whether it went through or stopped at a failure, another changes nothing and ends the same way. */
  lemma SecondUpChangesNothing<S>(scripts: Scripts<S>, empty: S, files: seq<Migration>, s: State<S>, n: nat)
    requires Increasing(files) && AtStep(scripts, empty, files, s, n)
    ensures UpOn(scripts, files, UpOn(scripts, files, s).0) == UpOn(scripts, files, s)
  {
    var m := UpKeepsStep(scripts, empty, files, s, n);
    PendingAfter(files, m, 0);
    assert files[0..] == files;
    if m < |files| {
      assert files[m..][0] == files[m];
    }
  }

  /** Each down script that runs undoes its up script. */
  ghost predicate Undoes<S(!new)>(scripts: Scripts<S>) {
    forall f: Migration, s :: scripts.up(f, s).Some? ==>
      scripts.down(f.version, f.name, scripts.up(f, s).value) in {None, Some(s)}
  }

  lemma {:induction false} FileOfIs(files: seq<Migration>, i: nat)
    requires Increasing(files) && i < |files|
    ensures FileOf(files, files[i].version) == Some(files[i])
  {
    if i > 0 {
      FileOfIs(files[1..], i - 1);
    }
  }

  lemma NamesWithoutLast(files: seq<Migration>, n: nat, applied: map<nat, string>)
    requires Increasing(files) && 0 < n <= |files| && Names(files, n, applied)
    ensures Names(files, n - 1, applied - {files[n - 1].version})
  {
  }

  /** `down` goes back by one migration or not at all. */
  lemma DownKeepsStep<S(!new)>(scripts: Scripts<S>, empty: S, files: seq<Migration>, s: State<S>, n: nat, latest: nat)
    requires Increasing(files) && Undoes(scripts) && AtStep(scripts, empty, files, s, n)
    requires IsLatest(s.applied.Keys, latest)
    ensures n > 0 && latest == files[n - 1].version
    ensures var (t, outcome) := RollBack(scripts, files, s, latest);
            if outcome.RolledBack? then AtStep(scripts, empty, files, t, n - 1) else t == s
  {
    VersionsOfAre(files, n, latest);
    var i :| 0 <= i < n && files[i].version == latest;
    assert files[n - 1].version in s.applied.Keys;
    assert i == n - 1;
    FileOfIs(files, n - 1);
    var (t, outcome) := RollBack(scripts, files, s, latest);
    if outcome.RolledBack? {
      LastIsUndone(scripts, empty, files, s, n, t);
    }
  }

  lemma LastIsUndone<S(!new)>(scripts: Scripts<S>, empty: S, files: seq<Migration>, s: State<S>, n: nat, t: State<S>)
    requires Increasing(files) && Undoes(scripts) && n > 0 && AtStep(scripts, empty, files, s, n)
    requires t.applied == s.applied - {files[n - 1].version}
    requires scripts.down(files[n - 1].version, files[n - 1].name, s.schema) == Some(t.schema)
    ensures AtStep(scripts, empty, files, t, n - 1)
  {
    var before := Replay(scripts, empty, files, n - 1);
    assert scripts.up(files[n - 1], before.value) == Some(s.schema);
    VersionsOfAre(files, n - 1, files[n - 1].version);
    NamesWithoutLast(files, n, s.applied);
    assert t.applied.Keys == VersionsOf(files, n - 1);
  }

  lemma {:induction false} ReplayOfPrefix<S>(scripts: Scripts<S>, empty: S, files: seq<Migration>,
                                             more: seq<Migration>, n: nat)
    requires files <= more && n <= |files|
    ensures VersionsOf(more, n) == VersionsOf(files, n)
    ensures Replay(scripts, empty, more, n) == Replay(scripts, empty, files, n)
  {
    if n > 0 {
      ReplayOfPrefix(scripts, empty, files, more, n - 1);
    }
  }

  /** At stage `n` the latest version is that of the migration applied last, and of no other. */
  ghost predicate LastIsLatest(files: seq<Migration>, n: nat)
    requires 0 < n <= |files|
  {
    IsLatest(VersionsOf(files, n), files[n - 1].version) && files[n - 1].version !in VersionsOf(files, n - 1)
  }

  /**
   Rolling back the highest version takes the migration applied last, at every stage, exactly when
   discovery lists the versions in increasing order.
   */
  lemma LastIsLatestExactlyWhen(files: seq<Migration>)
    ensures (forall n :: 0 < n <= |files| ==> LastIsLatest(files, n)) <==> Increasing(files)
  {
    if forall n :: 0 < n <= |files| ==> LastIsLatest(files, n) {
      forall i, j | 0 <= i < j < |files| ensures files[i].version < files[j].version {
        assert LastIsLatest(files, j + 1);
        VersionsOfAre(files, j, files[i].version);
      }
    }
    if Increasing(files) {
      forall n | 0 < n <= |files| ensures LastIsLatest(files, n) {
        VersionsOfAre(files, n - 1, files[n - 1].version);
        forall v | v in VersionsOf(files, n) ensures v <= files[n - 1].version {
          VersionsOfAre(files, n, v);
        }
      }
    }
  }

  // ---- Every run ----

  datatype Command = UpCommand | DownCommand(latest: nat) | AddFiles(files: seq<Migration>)

  datatype Run<S> = Start | Then(earlier: Run<S>, command: Command)

  /** The discovered list and the database after a run. */
  function After<S>(scripts: Scripts<S>, empty: S, run: Run<S>): (seq<Migration>, State<S>) {
    match run
    case Start => ([], State(empty, map[]))
    case Then(earlier, command) =>
      var (files, s) := After(scripts, empty, earlier);
      match command
      case UpCommand => (files, UpOn(scripts, files, s).0)
      case DownCommand(latest) => (files, RollBack(scripts, files, s, latest).0)
      case AddFiles(more) => (files + more, s)
  }

  /** `down` takes the latest version, if any, and new migrations are appended in version order. */
  ghost predicate Proper<S>(scripts: Scripts<S>, empty: S, run: Run<S>) {
    match run
    case Start => true
    case Then(earlier, command) =>
      var (files, s) := After(scripts, empty, earlier);
      && Proper(scripts, empty, earlier)
      && (command.DownCommand? ==> IsLatest(s.applied.Keys, command.latest))
      && (command.AddFiles? ==> Increasing(files + command.files))
  }

  /**
   After any run of `up`, which may fail at any migration, `down`, and new migrations, exactly a prefix
   of the discovered list is recorded and the schema is its replay, in order.
   */
  lemma {:induction false} SchemaIsTheReplay<S(!new)>(scripts: Scripts<S>, empty: S, run: Run<S>) returns (n: nat)
    requires Undoes(scripts) && Proper(scripts, empty, run)
    ensures Increasing(After(scripts, empty, run).0)
    ensures AtStep(scripts, empty, After(scripts, empty, run).0, After(scripts, empty, run).1, n)
  {
    if run.Start? {
      n := 0;
    } else {
      n := SchemaIsTheReplay(scripts, empty, run.earlier);
      var (files, s) := After(scripts, empty, run.earlier);
      match run.command
      case UpCommand => n := UpKeepsStep(scripts, empty, files, s, n);
      case DownCommand(latest) =>
        DownKeepsStep(scripts, empty, files, s, n, latest);
        if RollBack(scripts, files, s, latest).1.RolledBack? {
          n := n - 1;
        }
      case AddFiles(more) =>
        ReplayOfPrefix(scripts, empty, files, files + more, n);
    }
  }
}
