/**
 The claim protocol of the shared task board (`SharedWorkingState.claim_task`, `update_task_status`,
 `prune_completed_tasks`), split at every `await`.

 Redis holds a hash of task records, rewritten whole by whoever read them last, and one marker per
 task that only `SET NX` ever writes.
 */
module TaskClaims {
  import opened Wrappers
  import opened PyText

  type TaskId = string
  type Agent = string

  /** `created` is the record's `created_at`; the id is the hash field it is stored under. */
  datatype Task = Task(owner: Option<Agent>, status: string, created: real, blockedReason: Option<string>)

  datatype Outcome =
    | Claimed(agent: Agent)
    | AlreadyClaimed(holder: Option<Agent>)
    | NotFound

  /** Where an answer comes from: the record that was read, the race won, or the marker of a race lost. */
  datatype Path = OnRecord | OnWin | OnMarker

  datatype Verdict = Verdict(task: TaskId, agent: Agent, outcome: Outcome, path: Path)

  /** What a coroutine does next; records it carries were read earlier and may be stale. */
  datatype Point =
    | ClaimRead                       // hget of the record
    | ClaimRace                       // SET NX of the marker
    | ClaimReread                     // winner's hget, inside update_task_status
    | ClaimWrite(copy: Task)          // winner's hset of its copy, or nothing when the record vanished
    | ClaimDone                       // winner reports
    | ClaimLost                       // loser's get of the marker
    | ClaimFallback                   // loser's hget when the marker is gone
    | EditRead(status: string, reason: string, owner: Option<Agent>)
    | EditWrite(edited: Task)
    | PruneRead
    | PruneDelete(victims: seq<TaskId>)

  datatype Proc = Proc(task: TaskId, agent: Agent, point: Point)

  datatype Board = Board(tasks: map<TaskId, Task>, markers: map<TaskId, Agent>, procs: map<nat, Proc>,
                         verdicts: seq<Verdict>)

  datatype Step =
    | Add(task: TaskId, owner: Option<Agent>, status: string, created: real)
    | Spawn(pid: nat, proc: Proc)
    | Run(pid: nat, victims: seq<TaskId>)

  predicate Finished(status: string) {
    status == "done" || status == "completed"
  }

  function Edited(t: Task, status: string, reason: string, owner: Option<Agent>): Task {
    Task(if Truthy(owner) then owner else t.owner,
         status,
         t.created,
         if reason != "" then Some(reason) else t.blockedReason)
  }

  function Goto(b: Board, pid: nat, p: Proc, point: Point): Board {
    b.(procs := b.procs[pid := p.(point := point)])
  }

  function Halt(b: Board, pid: nat): Board {
    b.(procs := b.procs - {pid})
  }

  function Report(b: Board, pid: nat, p: Proc, outcome: Outcome, path: Path): Board {
    Halt(b, pid).(verdicts := b.verdicts + [Verdict(p.task, p.agent, outcome, path)])
  }

  /** The branches of `claim_task` on the record it read; `None` means: race for the marker. */
  function Judge(t: Task, agent: Agent): Option<Outcome> {
    if Finished(t.status) then Some(AlreadyClaimed(t.owner))
    else if t.owner == Some(agent) then Some(Claimed(agent))
    else if Truthy(t.owner) && t.status in {"in_progress", "blocked"} then Some(AlreadyClaimed(t.owner))
    else None
  }

  /** `victims` is what the pruner chose from its snapshot: any done tasks it saw. */
  predicate MayPrune(b: Board, victims: seq<TaskId>) {
    forall i :: 0 <= i < |victims| ==> victims[i] in b.tasks && b.tasks[victims[i]].status == "done"
  }

  function RunProc(b: Board, pid: nat, p: Proc, victims: seq<TaskId>): Option<Board> {
    match p.point
    case ClaimRead =>
      if p.task !in b.tasks then Some(Report(b, pid, p, NotFound, OnRecord))
      else (match Judge(b.tasks[p.task], p.agent)
            case Some(outcome) => Some(Report(b, pid, p, outcome, OnRecord))
            case None => Some(Goto(b, pid, p, ClaimRace)))
    case ClaimRace =>
      if p.task in b.markers then Some(Goto(b, pid, p, ClaimLost))
      else Some(Goto(b.(markers := b.markers[p.task := p.agent]), pid, p, ClaimReread))
    case ClaimReread =>
      if p.task !in b.tasks then Some(Goto(b, pid, p, ClaimDone))
      else Some(Goto(b, pid, p, ClaimWrite(Edited(b.tasks[p.task], "in_progress", "", Some(p.agent)))))
    case ClaimWrite(copy) => Some(Goto(b.(tasks := b.tasks[p.task := copy]), pid, p, ClaimDone))
    case ClaimDone => Some(Report(b, pid, p, Claimed(p.agent), OnWin))
    case ClaimLost =>
      if p.task in b.markers then Some(Report(b, pid, p, AlreadyClaimed(Some(b.markers[p.task])), OnMarker))
      else Some(Goto(b, pid, p, ClaimFallback))
    case ClaimFallback =>
      Some(Report(b, pid, p, AlreadyClaimed(if p.task in b.tasks then b.tasks[p.task].owner else None), OnRecord))
    case EditRead(status, reason, owner) =>
      if p.task !in b.tasks then Some(Halt(b, pid))
      else Some(Goto(b, pid, p, EditWrite(Edited(b.tasks[p.task], status, reason, owner))))
    case EditWrite(edited) =>
      var written := b.(tasks := b.tasks[p.task := edited]);
      Some(if edited.status == "done" then Goto(written, pid, p, PruneRead) else Halt(written, pid))
    case PruneRead => if MayPrune(b, victims) then Some(Goto(b, pid, p, PruneDelete(victims))) else None
    case PruneDelete(vs) =>
      Some(if vs == [] then Halt(b, pid)
           else Goto(b.(tasks := b.tasks - {vs[0]}), pid, p, PruneDelete(vs[1..])))
  }

  /** Coroutines start at a claim, an edit, or a prune of their own. */
  predicate Entry(point: Point) {
    point.ClaimRead? || point.EditRead? || point.PruneRead?
  }

  function Next(b: Board, step: Step): Option<Board> {
    match step
    case Add(task, owner, status, created) => Some(b.(tasks := b.tasks[task := Task(owner, status, created, None)]))
    case Spawn(pid, proc) =>
      if pid in b.procs || !Entry(proc.point) then None else Some(b.(procs := b.procs[pid := proc]))
    case Run(pid, victims) => if pid in b.procs then RunProc(b, pid, b.procs[pid], victims) else None
  }

  const Empty := Board(map[], map[], map[], [])

  function Exec(b: Board, steps: seq<Step>): Option<Board> {
    if steps == [] then Some(b)
    else
      var before := Exec(b, steps[..|steps| - 1]);
      if before.None? then None else Next(before.value, steps[|steps| - 1])
  }

  /** The step adds no owned record of the task and starts no edit of it that passes an owner. */
  predicate Unowned(step: Step, task: TaskId) {
    match step
    case Add(t, owner, _, _) => t == task ==> owner.None?
    case Spawn(_, p) => p.task == task && p.point.EditRead? ==> !Truthy(p.point.owner)
    case Run(_, _) => true
  }

  // ---- The invariant ----

  /** An owner field says nothing, or names the holder of the marker. */
  predicate Agrees(b: Board, task: TaskId, owner: Option<Agent>) {
    owner.None? || (task in b.markers && owner.value == b.markers[task])
  }

  predicate ProcAgrees(b: Board, p: Proc) {
    match p.point
    case ClaimReread => p.task in b.markers && b.markers[p.task] == p.agent
    case ClaimWrite(copy) => p.task in b.markers && b.markers[p.task] == p.agent && Agrees(b, p.task, copy.owner)
    case ClaimDone => p.task in b.markers && b.markers[p.task] == p.agent
    case ClaimLost => p.task in b.markers
    case ClaimFallback => false
    case EditRead(_, _, owner) => !Truthy(owner)
    case EditWrite(edited) => Agrees(b, p.task, edited.owner)
    case _ => true
  }

  /** Whoever is told it holds the task holds the marker; whoever is told a holder is told that one. */
  predicate VerdictAgrees(b: Board, v: Verdict) {
    match v.outcome
    case Claimed(agent) => agent == v.agent && v.task in b.markers && b.markers[v.task] == agent
    case AlreadyClaimed(holder) => Agrees(b, v.task, holder)
    case NotFound => true
  }

  ghost predicate Inv(b: Board, task: TaskId) {
    && (task in b.tasks ==> Agrees(b, task, b.tasks[task].owner))
    && (forall pid :: pid in b.procs && b.procs[pid].task == task ==> ProcAgrees(b, b.procs[pid]))
    && (forall i :: 0 <= i < |b.verdicts| && b.verdicts[i].task == task ==> VerdictAgrees(b, b.verdicts[i]))
  }

  /** The new board differs from the old one in one coroutine, possibly the record and one verdict. */
  ghost predicate OneProcMoved(b: Board, b': Board, pid: nat) {
    && (forall t :: t in b.markers ==> t in b'.markers && b'.markers[t] == b.markers[t])
    && (forall q :: q in b'.procs && q != pid ==> q in b.procs && b'.procs[q] == b.procs[q])
    && |b.verdicts| <= |b'.verdicts| <= |b.verdicts| + 1
    && b'.verdicts[..|b.verdicts|] == b.verdicts
  }

  lemma OneMoveKeepsInv(b: Board, b': Board, pid: nat, task: TaskId)
    requires Inv(b, task) && OneProcMoved(b, b', pid)
    requires task in b'.tasks ==> Agrees(b', task, b'.tasks[task].owner)
    requires pid in b'.procs && b'.procs[pid].task == task ==> ProcAgrees(b', b'.procs[pid])
    requires |b'.verdicts| > |b.verdicts| && b'.verdicts[|b.verdicts|].task == task ==>
               VerdictAgrees(b', b'.verdicts[|b.verdicts|])
    ensures Inv(b', task)
  {
    forall q | q in b'.procs && b'.procs[q].task == task ensures ProcAgrees(b', b'.procs[q]) {
      if q != pid {
        assert ProcAgrees(b, b.procs[q]);
      }
    }
    forall i | 0 <= i < |b'.verdicts| && b'.verdicts[i].task == task ensures VerdictAgrees(b', b'.verdicts[i]) {
      if i < |b.verdicts| {
        assert b'.verdicts[i] == b'.verdicts[..|b.verdicts|][i] == b.verdicts[i];
        assert VerdictAgrees(b, b.verdicts[i]);
      }
    }
  }

  lemma OneRunMovesOneProc(b: Board, pid: nat, victims: seq<TaskId>)
    requires pid in b.procs && RunProc(b, pid, b.procs[pid], victims).Some?
    ensures OneProcMoved(b, RunProc(b, pid, b.procs[pid], victims).value, pid)
  {
    var p := b.procs[pid];
    var b' := RunProc(b, pid, p, victims).value;
    match p.point {
      case ClaimRead =>
        if p.task in b.tasks && Judge(b.tasks[p.task], p.agent).None? {
          assert b' == Goto(b, pid, p, ClaimRace);
        }
      case PruneDelete(vs) =>
      case _ =>
    }
  }

  lemma RunKeepsInv(b: Board, pid: nat, victims: seq<TaskId>, task: TaskId)
    requires Inv(b, task) && pid in b.procs && RunProc(b, pid, b.procs[pid], victims).Some?
    ensures Inv(RunProc(b, pid, b.procs[pid], victims).value, task)
  {
    var p := b.procs[pid];
    var b' := RunProc(b, pid, p, victims).value;
    OneRunMovesOneProc(b, pid, victims);
    if p.task == task {
      assert ProcAgrees(b, p);
      match p.point
      case ClaimRead =>
        if task in b.tasks && Judge(b.tasks[task], p.agent).None? {
          assert b' == Goto(b, pid, p, ClaimRace);
        }
      case ClaimRace =>
      case ClaimReread =>
      case ClaimWrite(copy) =>
      case ClaimDone =>
      case ClaimLost =>
      case ClaimFallback =>
      case EditRead(_, _, _) =>
      case EditWrite(_) =>
      case PruneRead =>
      case PruneDelete(vs) =>
    }
    OneMoveKeepsInv(b, b', pid, task);
  }

  lemma StepKeepsInv(b: Board, step: Step, task: TaskId)
    requires Inv(b, task) && Unowned(step, task) && Next(b, step).Some?
    ensures Inv(Next(b, step).value, task)
  {
    match step
    case Run(pid, victims) => RunKeepsInv(b, pid, victims, task);
    case Add(_, _, _, _) =>
      var b' := Next(b, step).value;
      assert forall pid :: pid in b'.procs && b'.procs[pid].task == task ==>
               ProcAgrees(b, b'.procs[pid]) && ProcAgrees(b', b'.procs[pid]);
    case Spawn(pid, proc) =>
      var b' := Next(b, step).value;
      forall q | q in b'.procs && b'.procs[q].task == task ensures ProcAgrees(b', b'.procs[q]) {
        if q != pid {
          assert ProcAgrees(b, b.procs[q]);
        }
      }
  }

  ghost predicate Discipline(steps: seq<Step>, task: TaskId) {
    forall i :: 0 <= i < |steps| ==> Unowned(steps[i], task)
  }

  lemma {:induction false} RunInv(steps: seq<Step>, task: TaskId)
    requires Discipline(steps, task) && Exec(Empty, steps).Some?
    ensures Inv(Exec(Empty, steps).value, task)
    decreases |steps|
  {
    if steps != [] {
      var init, last := steps[..|steps| - 1], steps[|steps| - 1];
      RunInv(init, task);
      assert Unowned(last, task);
      StepKeepsInv(Exec(Empty, init).value, last, task);
    }
  }

  /**
   First claim wins. For a task whose records are always added unowned and never edited with an
   owner, no interleaving of claims, edits, re-proposals and prunes tells two agents that they hold
   it, however stale the records they write back; and whoever else is told a holder is told that one.
   */
  lemma AtMostOneHolder(steps: seq<Step>, i: nat, j: nat, task: TaskId)
    requires Discipline(steps, task) && Exec(Empty, steps).Some?
    requires var vs := Exec(Empty, steps).value.verdicts;
             i < |vs| && j < |vs| && vs[i].task == vs[j].task == task && vs[i].outcome.Claimed?
    ensures var vs := Exec(Empty, steps).value.verdicts;
            && (vs[j].outcome.Claimed? ==> vs[j].agent == vs[i].agent)
            && (vs[j].outcome.AlreadyClaimed? && vs[j].outcome.holder.Some? ==>
                vs[j].outcome.holder.value == vs[i].agent)
            && (vs[j].path == OnMarker ==> vs[j].outcome == AlreadyClaimed(Some(vs[i].agent)))
  {
    RunInv(steps, task);
    RunLost(steps);
    TwoVerdicts(Exec(Empty, steps).value, task, i, j);
  }

  lemma TwoVerdicts(b: Board, task: TaskId, i: nat, j: nat)
    requires Inv(b, task) && LosersKnow(b) && i < |b.verdicts| && j < |b.verdicts|
    requires b.verdicts[i].task == b.verdicts[j].task == task && b.verdicts[i].outcome.Claimed?
    ensures task in b.markers && b.verdicts[i].agent == b.markers[task]
    ensures b.verdicts[j].outcome.Claimed? ==> b.verdicts[j].agent == b.markers[task]
    ensures b.verdicts[j].outcome.AlreadyClaimed? && b.verdicts[j].outcome.holder.Some? ==>
              b.verdicts[j].outcome.holder.value == b.markers[task]
    ensures b.verdicts[j].path == OnMarker ==> b.verdicts[j].outcome == AlreadyClaimed(Some(b.markers[task]))
  {
    assert VerdictAgrees(b, b.verdicts[i]);
    assert VerdictAgrees(b, b.verdicts[j]);
    assert LoserKnows(b, b.verdicts[j]);
  }

  // ---- Losers are told the winner ----

  /** A loser of the race was told exactly the agent of the marker. */
  predicate LoserKnows(b: Board, v: Verdict) {
    v.path == OnMarker ==> v.task in b.markers && v.outcome == AlreadyClaimed(Some(b.markers[v.task]))
  }

  ghost predicate LosersKnow(b: Board) {
    forall i :: 0 <= i < |b.verdicts| ==> LoserKnows(b, b.verdicts[i])
  }

  /** A marker is written once: no step changes or removes it. */
  lemma StepKeepsMarkers(b: Board, step: Step)
    requires Next(b, step).Some?
    ensures var b' := Next(b, step).value;
            forall t :: t in b.markers ==> t in b'.markers && b'.markers[t] == b.markers[t]
  {
    match step
    case Run(pid, victims) => OneRunMovesOneProc(b, pid, victims);
    case _ =>
  }

  lemma {:induction false} MarkersAreWriteOnce(b: Board, steps: seq<Step>, more: seq<Step>, task: TaskId)
    requires Exec(b, steps).Some? && task in Exec(b, steps).value.markers && Exec(b, steps + more).Some?
    ensures task in Exec(b, steps + more).value.markers
    ensures Exec(b, steps + more).value.markers[task] == Exec(b, steps).value.markers[task]
    decreases |more|
  {
    if more == [] {
      assert steps + more == steps;
    } else {
      var all := steps + more;
      assert all[..|all| - 1] == steps + more[..|more| - 1];
      MarkersAreWriteOnce(b, steps, more[..|more| - 1], task);
      StepKeepsMarkers(Exec(b, all[..|all| - 1]).value, all[|all| - 1]);
    }
  }

  lemma RunKeepsLosers(b: Board, pid: nat, victims: seq<TaskId>)
    requires LosersKnow(b) && pid in b.procs && RunProc(b, pid, b.procs[pid], victims).Some?
    ensures LosersKnow(RunProc(b, pid, b.procs[pid], victims).value)
  {
    var b' := RunProc(b, pid, b.procs[pid], victims).value;
    OneRunMovesOneProc(b, pid, victims);
    forall i | 0 <= i < |b'.verdicts| ensures LoserKnows(b', b'.verdicts[i]) {
      if i < |b.verdicts| {
        assert b'.verdicts[i] == b'.verdicts[..|b.verdicts|][i];
        assert LoserKnows(b, b.verdicts[i]);
      }
    }
  }

  /** In every run, disciplined or not, a loser of the race has been told exactly the marker's agent. */
  lemma {:induction false} RunLost(steps: seq<Step>)
    requires Exec(Empty, steps).Some?
    ensures LosersKnow(Exec(Empty, steps).value)
    decreases |steps|
  {
    if steps != [] {
      RunLost(steps[..|steps| - 1]);
      var b := Exec(Empty, steps[..|steps| - 1]).value;
      var last := steps[|steps| - 1];
      if last.Run? {
        RunKeepsLosers(b, last.pid, last.victims);
      } else {
        var b' := Next(b, last).value;
        forall i | 0 <= i < |b'.verdicts| ensures LoserKnows(b', b'.verdicts[i]) {
          assert LoserKnows(b, b.verdicts[i]);
        }
      }
    }
  }

  // ---- Somebody wins ----

  predicate Winning(p: Proc, task: TaskId, agent: Agent) {
    p.task == task && p.agent == agent && (p.point.ClaimReread? || p.point.ClaimWrite? || p.point.ClaimDone?)
  }

  ghost predicate Told(b: Board, task: TaskId, agent: Agent) {
    exists i :: 0 <= i < |b.verdicts| && b.verdicts[i].task == task && b.verdicts[i].outcome == Claimed(agent)
  }

  ghost predicate OnItsWay(b: Board, task: TaskId, agent: Agent) {
    exists pid :: pid in b.procs && Winning(b.procs[pid], task, agent)
  }

  ghost predicate WinnerKnown(b: Board, task: TaskId) {
    task in b.markers ==> Told(b, task, b.markers[task]) || OnItsWay(b, task, b.markers[task])
  }

  lemma RunKeepsWinner(b: Board, pid: nat, victims: seq<TaskId>, task: TaskId)
    requires WinnerKnown(b, task) && pid in b.procs && RunProc(b, pid, b.procs[pid], victims).Some?
    ensures WinnerKnown(RunProc(b, pid, b.procs[pid], victims).value, task)
  {
    var p := b.procs[pid];
    var b' := RunProc(b, pid, p, victims).value;
    OneRunMovesOneProc(b, pid, victims);
    if task in b.markers {
      var agent := b.markers[task];
      if Told(b, task, agent) {
        var i :| 0 <= i < |b.verdicts| && b.verdicts[i].task == task && b.verdicts[i].outcome == Claimed(agent);
        assert b'.verdicts[i] == b'.verdicts[..|b.verdicts|][i];
      } else {
        var q :| q in b.procs && Winning(b.procs[q], task, agent);
        if q == pid {
          if p.point.ClaimDone? {
            assert b'.verdicts[|b.verdicts|].task == task && b'.verdicts[|b.verdicts|].outcome == Claimed(agent);
          } else {
            assert Winning(b'.procs[pid], task, agent);
          }
        } else {
          OthersStay(b, pid, victims, q);
          assert Winning(b'.procs[q], task, agent);
        }
      }
    } else if task in b'.markers {
      assert Winning(b'.procs[pid], task, b'.markers[task]);
    }
  }

  lemma OthersStay(b: Board, pid: nat, victims: seq<TaskId>, q: nat)
    requires pid in b.procs && RunProc(b, pid, b.procs[pid], victims).Some?
    requires q in b.procs && q != pid
    ensures var b' := RunProc(b, pid, b.procs[pid], victims).value; q in b'.procs && b'.procs[q] == b.procs[q]
  {
    var p := b.procs[pid];
    match p.point {
      case ClaimRead =>
        if p.task in b.tasks && Judge(b.tasks[p.task], p.agent).None? {
          assert RunProc(b, pid, p, victims).value == Goto(b, pid, p, ClaimRace);
        }
      case _ =>
    }
  }

  lemma {:induction false} RunWinner(steps: seq<Step>, task: TaskId)
    requires Exec(Empty, steps).Some?
    ensures WinnerKnown(Exec(Empty, steps).value, task)
    decreases |steps|
  {
    if steps != [] {
      var init, last := steps[..|steps| - 1], steps[|steps| - 1];
      RunWinner(init, task);
      var b := Exec(Empty, init).value;
      match last
      case Run(pid, victims) => RunKeepsWinner(b, pid, victims, task);
      case Add(_, _, _, _) =>
      case Spawn(pid, proc) =>
        if task in b.markers && !Told(b, task, b.markers[task]) {
          var q :| q in b.procs && Winning(b.procs[q], task, b.markers[task]);
          assert q in Next(b, last).value.procs;
        }
    }
  }

  /** A race that has run to its end, no coroutine left on the task, has told exactly its winner. */
  lemma FinishedRaceHasItsWinner(steps: seq<Step>, task: TaskId)
    requires Discipline(steps, task) && Exec(Empty, steps).Some?
    requires var b := Exec(Empty, steps).value;
             task in b.markers && forall pid :: pid in b.procs ==> b.procs[pid].task != task
    ensures var b := Exec(Empty, steps).value;
            && Told(b, task, b.markers[task])
            && forall agent :: Told(b, task, agent) ==> agent == b.markers[task]
  {
    RunInv(steps, task);
    RunWinner(steps, task);
    var b := Exec(Empty, steps).value;
    forall agent | Told(b, task, agent) ensures agent == b.markers[task] {
      var i :| 0 <= i < |b.verdicts| && b.verdicts[i].task == task && b.verdicts[i].outcome == Claimed(agent);
      assert VerdictAgrees(b, b.verdicts[i]);
    }
  }

  // ---- Where exclusivity ends ----

  lemma {:induction false} ExecTogether(b: Board, steps: seq<Step>, more: seq<Step>)
    requires Exec(b, steps).Some?
    ensures Exec(b, steps + more) == Exec(Exec(b, steps).value, more)
    decreases |more|
  {
    if more == [] {
      assert steps + more == steps;
    } else {
      var all := steps + more;
      assert all[..|all| - 1] == steps + more[..|more| - 1];
      ExecTogether(b, steps, more[..|more| - 1]);
    }
  }

  /** A coroutine that starts and takes `k` steps in a row. */
  function Alone(pid: nat, p: Proc, k: nat): seq<Step> {
    if k == 0 then [Spawn(pid, p)] else Alone(pid, p, k - 1) + [Run(pid, [])]
  }

  lemma {:induction false} AloneIsUnowned(pid: nat, p: Proc, k: nat, task: TaskId)
    requires Unowned(Spawn(pid, p), task)
    ensures Discipline(Alone(pid, p, k), task)
  {
    if k > 0 {
      AloneIsUnowned(pid, p, k - 1, task);
    }
  }

  lemma AloneStarts(b: Board, pid: nat, p: Proc)
    requires pid !in b.procs && Entry(p.point)
    ensures Exec(b, Alone(pid, p, 0)) == Some(b.(procs := b.procs[pid := p]))
  {
    assert Alone(pid, p, 0)[..0] == [];
  }

  lemma AloneGoesOn(b: Board, pid: nat, p: Proc, k: nat, mid: Board, next: Board)
    requires Exec(b, Alone(pid, p, k)) == Some(mid) && Next(mid, Run(pid, [])) == Some(next)
    ensures Exec(b, Alone(pid, p, k + 1)) == Some(next)
  {
    var all := Alone(pid, p, k + 1);
    assert all[..|all| - 1] == Alone(pid, p, k);
  }

  lemma NoneLeft(procs: map<nat, Proc>, p: Proc)
    requires procs == map[]
    ensures procs[0 := p] - {0} == map[]
  {
  }

  /** An edit of the status alone, run from its start to its end, leaves the owner. */
  lemma StatusEdit(b: Board, task: TaskId, agent: Agent, status: string)
    requires b.procs == map[] && task in b.tasks && status != "done"
    ensures Exec(b, Alone(0, Proc(task, agent, EditRead(status, "", None)), 2))
            == Some(b.(tasks := b.tasks[task := b.tasks[task].(status := status)]))
  {
    var p := Proc(task, agent, EditRead(status, "", None));
    var edited := b.tasks[task].(status := status);
    var b1 := b.(procs := b.procs[0 := p]);
    var b2 := Goto(b1, 0, p, EditWrite(edited));
    var b3 := b.(tasks := b.tasks[task := edited]);
    AloneStarts(b, 0, p);
    AloneGoesOn(b, 0, p, 0, b1, b2);
    assert b2.procs - {0} == map[];
    assert Next(b2, Run(0, [])) == Some(b3);
    AloneGoesOn(b, 0, p, 1, b2, b3);
  }

  lemma OwnerReclaims(b: Board, task: TaskId, owner: Agent)
    requires task in b.tasks && b.tasks[task].owner == Some(owner) && !Finished(b.tasks[task].status)
    requires b.procs == map[]
    ensures Exec(b, Alone(0, Proc(task, owner, ClaimRead), 1))
            == Some(b.(verdicts := b.verdicts + [Verdict(task, owner, Claimed(owner), OnRecord)]))
  {
    var p := Proc(task, owner, ClaimRead);
    var b1 := b.(procs := b.procs[0 := p]);
    AloneStarts(b, 0, p);
    NoneLeft(b.procs, p);
    AloneGoesOn(b, 0, p, 0, b1, b.(verdicts := b.verdicts + [Verdict(task, owner, Claimed(owner), OnRecord)]));
  }

  /** A claim that races alone ends with the winner on record, and nothing else of the board changed. */
  lemma RivalWins(b: Board, task: TaskId, rival: Agent)
    requires task in b.tasks && task !in b.markers && Judge(b.tasks[task], rival).None?
    requires b.procs == map[]
    ensures var t := b.tasks[task];
            var won := Task(if rival == "" then t.owner else Some(rival), "in_progress", t.created, t.blockedReason);
            Exec(b, Alone(0, Proc(task, rival, ClaimRead), 5))
            == Some(Board(b.tasks[task := won], b.markers[task := rival], map[],
                          b.verdicts + [Verdict(task, rival, Claimed(rival), OnWin)]))
  {
    var p := Proc(task, rival, ClaimRead);
    var b1 := b.(procs := b.procs[0 := p]);
    var b2 := Goto(b1, 0, p, ClaimRace);
    var b3 := Goto(b2.(markers := b.markers[task := rival]), 0, p, ClaimReread);
    var copy := Edited(b.tasks[task], "in_progress", "", Some(rival));
    var b4 := Goto(b3, 0, p, ClaimWrite(copy));
    var b5 := Goto(b4.(tasks := b.tasks[task := copy]), 0, p, ClaimDone);
    AloneStarts(b, 0, p);
    AloneGoesOn(b, 0, p, 0, b1, b2);
    AloneGoesOn(b, 0, p, 1, b2, b3);
    AloneGoesOn(b, 0, p, 2, b3, b4);
    AloneGoesOn(b, 0, p, 3, b4, b5);
    AloneGoesOn(b, 0, p, 4, b5, Report(b5, 0, p, Claimed(rival), OnWin));
  }

  /** The winner on record is told so again: a second claim of the same agent is answered from the record. */
  lemma WinnerReclaims(b: Board, task: TaskId, agent: Agent)
    requires task in b.tasks && task !in b.markers && Judge(b.tasks[task], agent).None?
    requires b.procs == map[] && agent != ""
    ensures var p := Proc(task, agent, ClaimRead);
            var b' := Exec(b, Alone(0, p, 5) + Alone(0, p, 1));
            && b'.Some? && task in b'.value.tasks && b'.value.tasks[task].owner == Some(agent)
            && b'.value.verdicts == b.verdicts + [Verdict(task, agent, Claimed(agent), OnWin),
                                                  Verdict(task, agent, Claimed(agent), OnRecord)]
  {
    var p := Proc(task, agent, ClaimRead);
    RivalWins(b, task, agent);
    OwnerReclaims(Exec(b, Alone(0, p, 5)).value, task, agent);
    ExecTogether(b, Alone(0, p, 5), Alone(0, p, 1));
  }

  /** One coroutine after the other. */
  function Two(task: TaskId, owner: Agent, rival: Agent): seq<Step> {
    Alone(0, Proc(task, owner, ClaimRead), 1) + Alone(0, Proc(task, rival, ClaimRead), 5)
  }

  /**
   The discipline is needed. On any idle board where a pending task carries an owner and nobody has
   raced for it, the owner and any rival can both be told that they hold it.
   */
  lemma OwnedPendingTaskHasTwoHolders(b: Board, task: TaskId, owner: Agent, rival: Agent)
    requires b.procs == map[] && task in b.tasks && task !in b.markers && rival != owner
    requires b.tasks[task].owner == Some(owner) && b.tasks[task].status == "pending"
    ensures Discipline(Two(task, owner, rival), task) && Exec(b, Two(task, owner, rival)).Some?
    ensures Exec(b, Two(task, owner, rival)).value.verdicts
            == b.verdicts + [Verdict(task, owner, Claimed(owner), OnRecord),
                             Verdict(task, rival, Claimed(rival), OnWin)]
  {
    OwnerReclaims(b, task, owner);
    var mid := Exec(b, Alone(0, Proc(task, owner, ClaimRead), 1)).value;
    RivalWins(mid, task, rival);
    ExecTogether(b, Alone(0, Proc(task, owner, ClaimRead), 1), Alone(0, Proc(task, rival, ClaimRead), 5));
    AloneIsUnowned(0, Proc(task, owner, ClaimRead), 1, task);
    AloneIsUnowned(0, Proc(task, rival, ClaimRead), 5, task);
  }

  // ---- Exactly when first claim wins ----

  ghost predicate AtMostOneTold(b: Board, task: TaskId) {
    forall i, j :: 0 <= i < |b.verdicts| && 0 <= j < |b.verdicts| && b.verdicts[i].task == b.verdicts[j].task == task
                   && b.verdicts[i].outcome.Claimed? && b.verdicts[j].outcome.Claimed? ==>
                     b.verdicts[i].agent == b.verdicts[j].agent
  }

  /** Whatever happens from here on, at most one agent is told that it holds the task. */
  ghost predicate Exclusive(b: Board, task: TaskId) {
    forall steps :: Discipline(steps, task) && Exec(b, steps).Some? ==> AtMostOneTold(Exec(b, steps).value, task)
  }

  ghost predicate Idle(b: Board, task: TaskId) {
    b.procs == map[] && forall i :: 0 <= i < |b.verdicts| ==> b.verdicts[i].task != task
  }

  lemma {:induction false} RunInvFrom(b: Board, steps: seq<Step>, task: TaskId)
    requires Inv(b, task) && Discipline(steps, task) && Exec(b, steps).Some?
    ensures Inv(Exec(b, steps).value, task)
    decreases |steps|
  {
    if steps != [] {
      var init, last := steps[..|steps| - 1], steps[|steps| - 1];
      RunInvFrom(b, init, task);
      assert Unowned(last, task);
      StepKeepsInv(Exec(b, init).value, last, task);
    }
  }

  lemma InvTellsOne(b: Board, task: TaskId)
    requires Inv(b, task)
    ensures AtMostOneTold(b, task)
  {
    forall i | 0 <= i < |b.verdicts| && b.verdicts[i].task == task && b.verdicts[i].outcome.Claimed?
      ensures task in b.markers && b.verdicts[i].agent == b.markers[task]
    {
      assert VerdictAgrees(b, b.verdicts[i]);
    }
  }

  /** The marker is set, and every record, stored or carried, names no owner but `owner`. */
  predicate Kept(name: Option<Agent>, owner: Agent) {
    name.None? || name.value == owner
  }

  predicate ProcKeeps(p: Proc, owner: Agent) {
    match p.point
    case ClaimReread => false
    case ClaimWrite(_) => false
    case ClaimDone => false
    case ClaimFallback => false
    case EditRead(_, _, name) => !Truthy(name)
    case EditWrite(edited) => Kept(edited.owner, owner)
    case _ => true
  }

  ghost predicate Settled(b: Board, task: TaskId, owner: Agent) {
    && task in b.markers
    && (task in b.tasks ==> Kept(b.tasks[task].owner, owner))
    && (forall pid :: pid in b.procs && b.procs[pid].task == task ==> ProcKeeps(b.procs[pid], owner))
    && (forall i :: 0 <= i < |b.verdicts| && b.verdicts[i].task == task && b.verdicts[i].outcome.Claimed? ==>
          b.verdicts[i].agent == owner)
  }

  lemma RunKeepsSettled(b: Board, pid: nat, victims: seq<TaskId>, task: TaskId, owner: Agent)
    requires Settled(b, task, owner) && pid in b.procs && RunProc(b, pid, b.procs[pid], victims).Some?
    ensures Settled(RunProc(b, pid, b.procs[pid], victims).value, task, owner)
  {
    var p := b.procs[pid];
    var b' := RunProc(b, pid, p, victims).value;
    OneRunMovesOneProc(b, pid, victims);
    assert p.task == task ==> ProcKeeps(p, owner);
    forall q | q in b'.procs && b'.procs[q].task == task ensures ProcKeeps(b'.procs[q], owner) {
      if q != pid {
        assert ProcKeeps(b.procs[q], owner);
      }
    }
    forall i | 0 <= i < |b'.verdicts| && b'.verdicts[i].task == task && b'.verdicts[i].outcome.Claimed?
      ensures b'.verdicts[i].agent == owner
    {
      if i < |b.verdicts| {
        assert b'.verdicts[i] == b'.verdicts[..|b.verdicts|][i];
      }
    }
  }

  lemma {:induction false} RunSettledFrom(b: Board, steps: seq<Step>, task: TaskId, owner: Agent)
    requires Settled(b, task, owner) && Discipline(steps, task) && Exec(b, steps).Some?
    ensures Settled(Exec(b, steps).value, task, owner)
    decreases |steps|
  {
    if steps != [] {
      var init, last := steps[..|steps| - 1], steps[|steps| - 1];
      RunSettledFrom(b, init, task, owner);
      assert Unowned(last, task);
      if last.Run? {
        RunKeepsSettled(Exec(b, init).value, last.pid, last.victims, task, owner);
      }
    }
  }

  /** A task with an owner and no marker, whatever its status, is told to two agents by some continuation. */
  lemma OwnedUnmarkedIsNotExclusive(b: Board, task: TaskId)
    requires Idle(b, task) && task in b.tasks && b.tasks[task].owner.Some? && task !in b.markers
    ensures !Exclusive(b, task)
  {
    var owner := b.tasks[task].owner.value;
    var rival := owner + "'";
    var p := Proc(task, owner, EditRead("pending", "", None));
    var reopen := Alone(0, p, 2);
    StatusEdit(b, task, owner, "pending");
    AloneIsUnowned(0, p, 2, task);
    var mid := Exec(b, reopen).value;
    OwnedPendingTaskHasTwoHolders(mid, task, owner, rival);
    var steps := reopen + Two(task, owner, rival);
    ExecTogether(b, reopen, Two(task, owner, rival));
    var end := Exec(b, steps).value;
    var n := |b.verdicts|;
    assert end.verdicts[n].agent == owner && end.verdicts[n + 1].agent == rival;
    assert !AtMostOneTold(end, task);
    assert Discipline(steps, task);
  }

  /**
   First claim wins from an idle board on, for a task nobody was told to hold yet, exactly unless the
   task has an owner on record and no marker.
   */
  lemma ExclusiveExactlyWhen(b: Board, task: TaskId)
    requires Idle(b, task)
    ensures Exclusive(b, task) <==> !(task in b.tasks && b.tasks[task].owner.Some? && task !in b.markers)
  {
    if task in b.tasks && b.tasks[task].owner.Some? && task !in b.markers {
      OwnedUnmarkedIsNotExclusive(b, task);
    } else {
      forall steps | Discipline(steps, task) && Exec(b, steps).Some?
        ensures AtMostOneTold(Exec(b, steps).value, task)
      {
        if task in b.tasks && b.tasks[task].owner.Some? {
          RunSettledFrom(b, steps, task, b.tasks[task].owner.value);
        } else {
          RunInvFrom(b, steps, task);
          InvTellsOne(Exec(b, steps).value, task);
        }
      }
    }
  }
}
