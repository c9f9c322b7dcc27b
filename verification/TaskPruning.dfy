/** Which finished tasks `prune_completed_tasks` removes. */
module TaskPruning {
  import opened Ordering
  import opened TaskClaims

  const COMPLETED_TASK_TTL := 3600.0
  const MAX_COMPLETED_TASKS := 10

  datatype Entry = Entry(id: TaskId, created: real)

  predicate NotNewer(a: Entry, b: Entry) {
    a.created <= b.created
  }

  /** `order` lists the fields of the hash, each once, in whatever order Redis returns them. */
  ghost predicate Enumerates(order: seq<TaskId>, tasks: map<TaskId, Task>) {
    && (forall i :: 0 <= i < |order| ==> order[i] in tasks)
    && (forall id :: id in tasks ==> id in order)
    && (forall i, j :: 0 <= i < j < |order| ==> order[i] != order[j])
  }

  function DoneEntries(order: seq<TaskId>, tasks: map<TaskId, Task>): seq<Entry>
    requires forall i :: 0 <= i < |order| ==> order[i] in tasks
  {
    if order == [] then []
    else
      (if tasks[order[0]].status == "done" then [Entry(order[0], tasks[order[0]].created)] else [])
      + DoneEntries(order[1..], tasks)
  }

  /** The done tasks, oldest first. */
  function DoneByAge(order: seq<TaskId>, tasks: map<TaskId, Task>): seq<Entry>
    requires forall i :: 0 <= i < |order| ==> order[i] in tasks
  {
    SortBy(DoneEntries(order, tasks), NotNewer)
  }

  predicate Expired(e: Entry, now: real) {
    now - e.created > COMPLETED_TASK_TTL
  }

  function ExpiredCount(done: seq<Entry>, now: real): nat {
    if done == [] then 0 else (if Expired(done[0], now) then 1 else 0) + ExpiredCount(done[1..], now)
  }

  /** The larger of the number of expired tasks and the number of tasks over the limit. */
  function PruneCount(done: seq<Entry>, now: real): nat {
    var expired, excess := ExpiredCount(done, now), |done| - MAX_COMPLETED_TASKS;
    if expired >= excess then expired else excess
  }

  function IdsOf(es: seq<Entry>): set<TaskId> {
    set e | e in es :: e.id
  }

  /** Expired tasks come first when tasks are ordered by age. */
  lemma {:induction false} ExpiredComeFirst(done: seq<Entry>, now: real)
    requires Sorted(done, NotNewer)
    ensures ExpiredCount(done, now) <= |done|
    ensures forall i :: 0 <= i < |done| ==> (Expired(done[i], now) <==> i < ExpiredCount(done, now))
  {
    if done != [] {
      ExpiredComeFirst(done[1..], now);
      forall i | 0 < i < |done|
        ensures Expired(done[i], now) == Expired(done[1..][i - 1], now) && NotNewer(done[0], done[i])
      {
      }
    }
  }

  lemma {:induction false} DoneEntriesAre(order: seq<TaskId>, tasks: map<TaskId, Task>)
    requires forall i :: 0 <= i < |order| ==> order[i] in tasks
    requires forall i, j :: 0 <= i < j < |order| ==> order[i] != order[j]
    ensures forall e :: e in DoneEntries(order, tasks) <==>
                        e.id in order && tasks[e.id].status == "done" && e.created == tasks[e.id].created
    ensures forall i, j :: 0 <= i < j < |DoneEntries(order, tasks)| ==>
                        DoneEntries(order, tasks)[i].id != DoneEntries(order, tasks)[j].id
  {
    if order != [] {
      DoneEntriesAre(order[1..], tasks);
      assert order == [order[0]] + order[1..];
      var rest := DoneEntries(order[1..], tasks);
      forall j | 0 <= j < |rest| ensures rest[j].id != order[0] {
        assert rest[j] in rest;
      }
    }
  }

  predicate IsDone(tasks: map<TaskId, Task>, id: TaskId) {
    id in tasks && tasks[id].status == "done"
  }

  /** `done` lists the done tasks, each once, oldest first. */
  ghost predicate ListsDone(done: seq<Entry>, tasks: map<TaskId, Task>) {
    && Sorted(done, NotNewer)
    && (forall e :: e in done <==> IsDone(tasks, e.id) && e.created == tasks[e.id].created)
    && (forall i, j :: 0 <= i < j < |done| ==> done[i].id != done[j].id)
  }

  /** Sorting keeps the entries and their ids distinct. */
  lemma DoneByAgeAre(order: seq<TaskId>, tasks: map<TaskId, Task>)
    requires Enumerates(order, tasks)
    ensures ListsDone(DoneByAge(order, tasks), tasks)
  {
    var entries, done := DoneEntries(order, tasks), DoneByAge(order, tasks);
    DoneEntriesAre(order, tasks);
    SortBySorts(entries, NotNewer);
    SortByPermutes(entries, NotNewer);
    forall e ensures e in done <==> e in entries {
      assert e in multiset(done) <==> e in multiset(entries);
    }
    DistinctAsMultiset(entries, done);
  }

  lemma {:induction false} Occurrences(es: seq<Entry>, i: nat, j: nat)
    requires i < j < |es| && es[i] == es[j]
    ensures multiset(es)[es[i]] >= 2
  {
    assert es == es[..j] + [es[j]] + es[j + 1..];
    assert es[i] in es[..j];
  }

  lemma {:induction false} OnceEach(es: seq<Entry>, e: Entry)
    requires forall i, j :: 0 <= i < j < |es| ==> es[i] != es[j]
    ensures multiset(es)[e] <= 1
  {
    if es != [] {
      assert es == [es[0]] + es[1..];
      OnceEach(es[1..], e);
      if es[0] == e {
        assert e !in es[1..];
      }
    }
  }

  lemma DistinctAsMultiset(xs: seq<Entry>, ys: seq<Entry>)
    requires multiset(xs) == multiset(ys)
    requires forall i, j :: 0 <= i < j < |xs| ==> xs[i].id != xs[j].id
    ensures forall i, j :: 0 <= i < j < |ys| ==> ys[i].id != ys[j].id
  {
    forall i, j | 0 <= i < j < |ys| ensures ys[i].id != ys[j].id {
      assert ys[i] in multiset(xs) && ys[j] in multiset(xs);
      if ys[i] == ys[j] {
        Occurrences(ys, i, j);
        OnceEach(xs, ys[i]);
      }
    }
  }

  lemma {:induction false} IdsOfDistinct(es: seq<Entry>)
    requires forall i, j :: 0 <= i < j < |es| ==> es[i].id != es[j].id
    ensures |IdsOf(es)| == |es|
  {
    if es != [] {
      IdsOfDistinct(es[1..]);
      assert es == [es[0]] + es[1..];
      assert IdsOf(es) == {es[0].id} + IdsOf(es[1..]);
    }
  }

  lemma IdsOfNext(es: seq<Entry>, n: nat)
    requires n < |es|
    ensures IdsOf(es[..n + 1]) == IdsOf(es[..n]) + {es[n].id}
  {
    assert es[..n + 1] == es[..n] + [es[n]];
  }

  /** The tasks that remain when the oldest `n` done ones are removed. */
  function Pruned(order: seq<TaskId>, tasks: map<TaskId, Task>, now: real): map<TaskId, Task>
    requires forall i :: 0 <= i < |order| ==> order[i] in tasks
  {
    var done := DoneByAge(order, tasks);
    var n := PruneCount(done, now);
    tasks - IdsOf(if n <= |done| then done[..n] else done)
  }

  /** Removing the first `n` entries leaves exactly the done tasks listed after them. */
  lemma KeptAreTheRest(done: seq<Entry>, tasks: map<TaskId, Task>, n: nat, id: TaskId)
    requires ListsDone(done, tasks) && n <= |done| && IsDone(tasks, id)
    ensures id !in IdsOf(done[..n]) ==> Entry(id, tasks[id].created) in done[n..]
  {
    var e := Entry(id, tasks[id].created);
    assert e in done;
    var i :| 0 <= i < |done| && done[i] == e;
    if i < n {
      assert done[..n][i] == e;
    } else {
      assert done[n..][i - n] == e;
    }
  }

  lemma RemovedAreDone(done: seq<Entry>, tasks: map<TaskId, Task>, n: nat)
    requires ListsDone(done, tasks) && n <= |done|
    ensures IdsOf(done[..n]) <= tasks.Keys && |IdsOf(done[..n])| == n
    ensures forall id :: id in IdsOf(done[..n]) ==> IsDone(tasks, id) && Entry(id, tasks[id].created) in done[..n]
  {
    IdsOfDistinct(done[..n]);
    forall e | e in done[..n] ensures IsDone(tasks, e.id) && e == Entry(e.id, tasks[e.id].created) {
      assert e in done;
    }
  }

  lemma OlderThanTheRest(done: seq<Entry>, n: nat, a: Entry, b: Entry)
    requires Sorted(done, NotNewer) && n <= |done| && a in done[..n] && b in done[n..]
    ensures a.created <= b.created
  {
    var i :| 0 <= i < n && done[..n][i] == a;
    var j :| 0 <= j < |done| - n && done[n..][j] == b;
    assert NotNewer(done[i], done[n + j]);
  }

  lemma RestIsFresh(done: seq<Entry>, now: real, n: nat, e: Entry)
    requires Sorted(done, NotNewer) && ExpiredCount(done, now) <= n <= |done| && e in done[n..]
    ensures !Expired(e, now)
  {
    ExpiredComeFirst(done, now);
    var j :| 0 <= j < |done| - n && done[n..][j] == e;
    assert done[n + j] == e;
  }

  lemma FewAreKept(done: seq<Entry>, tasks: map<TaskId, Task>, n: nat, keptDone: set<TaskId>)
    requires ListsDone(done, tasks) && n <= |done| <= n + MAX_COMPLETED_TASKS
    requires forall id :: id in keptDone ==> IsDone(tasks, id) && id !in IdsOf(done[..n])
    ensures |keptDone| <= MAX_COMPLETED_TASKS
  {
    IdsOfDistinct(done[n..]);
    forall id | id in keptDone ensures id in IdsOf(done[n..]) {
      KeptAreTheRest(done, tasks, n, id);
    }
    SubsetCard(keptDone, IdsOf(done[n..]));
  }

  lemma PruneCountFits(done: seq<Entry>, now: real)
    requires Sorted(done, NotNewer)
    ensures ExpiredCount(done, now) <= PruneCount(done, now) <= |done| <= PruneCount(done, now) + MAX_COMPLETED_TASKS
  {
    ExpiredComeFirst(done, now);
  }

  /** The test of the pruning loop, with as many removed as were seen or else all that go, picks those that go. */
  lemma GoesExactlyWhen(done: seq<Entry>, now: real, i: nat, pruned: nat)
    requires Sorted(done, NotNewer) && i < |done|
    requires pruned == if i < PruneCount(done, now) then i else PruneCount(done, now)
    ensures now - done[i].created > COMPLETED_TASK_TTL || |done| - pruned > MAX_COMPLETED_TASKS
            <==> i < PruneCount(done, now)
  {
    ExpiredComeFirst(done, now);
    PruneCountFits(done, now);
  }

  lemma WithoutNext(tasks: map<TaskId, Task>, done: seq<Entry>, n: nat)
    requires n < |done|
    ensures tasks - IdsOf(done[..n]) - {done[n].id} == tasks - IdsOf(done[..n + 1])
  {
    IdsOfNext(done, n);
  }

  /** Nothing unfinished goes, nothing kept changes, and the count is exact. */
  lemma PruningRemovesDoneOnly(order: seq<TaskId>, tasks: map<TaskId, Task>, now: real)
    requires Enumerates(order, tasks)
    ensures var kept, n := Pruned(order, tasks, now), PruneCount(DoneByAge(order, tasks), now);
            && (forall id :: id in kept ==> id in tasks && kept[id] == tasks[id])
            && (forall id :: id in tasks && id !in kept ==> IsDone(tasks, id))
            && |tasks.Keys - kept.Keys| == n
  {
    var done := DoneByAge(order, tasks);
    DoneByAgeAre(order, tasks);
    PruneCountFits(done, now);
    var n := PruneCount(done, now);
    RemovedAreDone(done, tasks, n);
    assert tasks.Keys - Pruned(order, tasks, now).Keys == IdsOf(done[..n]);
  }

  /** Nothing goes needlessly: a task is removed because it has expired, or because ten others are kept. */
  lemma NothingGoesNeedlessly(order: seq<TaskId>, tasks: map<TaskId, Task>, now: real, gone: TaskId)
    requires Enumerates(order, tasks) && gone in tasks && gone !in Pruned(order, tasks, now)
    ensures var kept := Pruned(order, tasks, now);
            now - tasks[gone].created > 3600.0 || |set id | id in kept && IsDone(kept, id)| == 10
  {
    var done := DoneByAge(order, tasks);
    DoneByAgeAre(order, tasks);
    PruneCountFits(done, now);
    ExpiredComeFirst(done, now);
    var n := PruneCount(done, now);
    RemovedAreDone(done, tasks, n);
    var kept := Pruned(order, tasks, now);
    if n > ExpiredCount(done, now) {
      KeptDoneAre(done, tasks, kept, n);
    } else {
      var e := Entry(gone, tasks[gone].created);
      var i :| 0 <= i < n && done[..n][i] == e;
      assert Expired(done[i], now);
    }
  }

  lemma LaterIsKept(done: seq<Entry>, tasks: map<TaskId, Task>, n: nat, e: Entry)
    requires ListsDone(done, tasks) && n <= |done| && e in done[n..]
    ensures IsDone(tasks, e.id) && e.id !in IdsOf(done[..n])
  {
    var j :| 0 <= j < |done| - n && done[n..][j] == e;
    assert done[n + j] == e && e in done;
    forall f | f in done[..n] ensures f.id != e.id {
      var i :| 0 <= i < n && done[..n][i] == f;
      assert done[i] == f;
    }
  }

  /** The done tasks that are kept are those listed after the first `n`. */
  lemma KeptDoneAre(done: seq<Entry>, tasks: map<TaskId, Task>, kept: map<TaskId, Task>, n: nat)
    requires ListsDone(done, tasks) && n <= |done| && kept == tasks - IdsOf(done[..n])
    ensures |set id | id in kept && IsDone(kept, id)| == |done| - n
  {
    var keptDone := set id | id in kept && IsDone(kept, id);
    IdsOfDistinct(done[n..]);
    forall id | id in keptDone ensures id in IdsOf(done[n..]) {
      KeptAreTheRest(done, tasks, n, id);
    }
    forall e | e in done[n..] ensures e.id in keptDone {
      LaterIsKept(done, tasks, n, e);
    }
    assert keptDone == IdsOf(done[n..]);
  }

  /** What stays done is fresh, at most ten tasks, and no older than anything that went. */
  lemma PruningKeepsTheNewest(order: seq<TaskId>, tasks: map<TaskId, Task>, now: real)
    requires Enumerates(order, tasks)
    ensures var kept := Pruned(order, tasks, now);
            && (forall id :: IsDone(kept, id) ==> now - kept[id].created <= 3600.0)
            && |set id | id in kept && IsDone(kept, id)| <= 10
            && (forall gone, stays :: gone in tasks && gone !in kept && IsDone(kept, stays) ==>
                  tasks[gone].created <= kept[stays].created)
  {
    var done := DoneByAge(order, tasks);
    DoneByAgeAre(order, tasks);
    PruneCountFits(done, now);
    var n := PruneCount(done, now);
    RemovedAreDone(done, tasks, n);
    var kept := Pruned(order, tasks, now);
    FewAreKept(done, tasks, n, set id | id in kept && IsDone(kept, id));
    forall id | IsDone(kept, id) ensures now - kept[id].created <= COMPLETED_TASK_TTL {
      KeptAreTheRest(done, tasks, n, id);
      RestIsFresh(done, now, n, Entry(id, tasks[id].created));
    }
    forall gone, stays | gone in tasks && gone !in kept && IsDone(kept, stays)
      ensures tasks[gone].created <= kept[stays].created
    {
      KeptAreTheRest(done, tasks, n, stays);
      OlderThanTheRest(done, n, Entry(gone, tasks[gone].created), Entry(stays, tasks[stays].created));
    }
  }
}
