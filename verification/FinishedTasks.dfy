/**
 Whether a finished task stays finished: a claim that begins after the end is refused, but one that is
 past its reading of the record, or an edit that is, writes back what it read before.
 */
module FinishedTasks {
  import opened Wrappers
  import opened TaskClaims

  /** The step neither proposes the task again as unfinished nor starts an edit that reopens it. */
  predicate Closes(step: Step, task: TaskId) {
    match step
    case Add(t, _, status, _) => t == task ==> Finished(status)
    case Spawn(_, p) => p.task == task && p.point.EditRead? ==> Finished(p.point.status)
    case Run(_, _) => true
  }

  ghost predicate Closing(steps: seq<Step>, task: TaskId) {
    forall i :: 0 <= i < |steps| ==> Closes(steps[i], task)
  }

  predicate FinishedOrGone(b: Board, task: TaskId) {
    task in b.tasks ==> Finished(b.tasks[task].status)
  }

  /** The coroutine cannot write the task back as unfinished. */
  predicate Harmless(b: Board, p: Proc) {
    match p.point
    case ClaimRace => p.task in b.markers
    case ClaimReread => false
    case ClaimWrite(copy) => Finished(copy.status)
    case EditRead(status, _, _) => Finished(status)
    case EditWrite(edited) => Finished(edited.status)
    case _ => true
  }

  ghost predicate AllHarmless(b: Board, task: TaskId) {
    forall pid :: pid in b.procs && b.procs[pid].task == task ==> Harmless(b, b.procs[pid])
  }

  /** Whatever claims, finishing edits and prunes come, the task is finished as long as it is there. */
  ghost predicate StaysFinished(b: Board, task: TaskId) {
    forall steps :: Closing(steps, task) && Exec(b, steps).Some? ==> FinishedOrGone(Exec(b, steps).value, task)
  }

  /** What one move of a coroutine makes of the task: nothing, a finished record, or its absence. */
  lemma MoveKeepsFinished(b: Board, pid: nat, victims: seq<TaskId>, task: TaskId)
    requires FinishedOrGone(b, task) && pid in b.procs && RunProc(b, pid, b.procs[pid], victims).Some?
    requires b.procs[pid].task == task ==> Harmless(b, b.procs[pid])
    ensures FinishedOrGone(RunProc(b, pid, b.procs[pid], victims).value, task)
  {
  }

  lemma MoverStaysHarmless(b: Board, pid: nat, victims: seq<TaskId>, task: TaskId)
    requires FinishedOrGone(b, task) && pid in b.procs && RunProc(b, pid, b.procs[pid], victims).Some?
    requires b.procs[pid].task == task && Harmless(b, b.procs[pid])
    ensures var b' := RunProc(b, pid, b.procs[pid], victims).value;
            pid in b'.procs ==> b'.procs[pid].task == task && Harmless(b', b'.procs[pid])
  {
  }

  lemma RunKeepsClosed(b: Board, pid: nat, victims: seq<TaskId>, task: TaskId)
    requires FinishedOrGone(b, task) && AllHarmless(b, task)
    requires pid in b.procs && RunProc(b, pid, b.procs[pid], victims).Some?
    ensures var b' := RunProc(b, pid, b.procs[pid], victims).value; FinishedOrGone(b', task) && AllHarmless(b', task)
  {
    var b' := RunProc(b, pid, b.procs[pid], victims).value;
    OneRunMovesOneProc(b, pid, victims);
    MoveKeepsFinished(b, pid, victims, task);
    forall q | q in b'.procs && b'.procs[q].task == task ensures Harmless(b', b'.procs[q]) {
      if q != pid {
        assert Harmless(b, b.procs[q]);
      } else {
        MoverStaysHarmless(b, pid, victims, task);
      }
    }
  }

  lemma StepKeepsClosed(b: Board, step: Step, task: TaskId)
    requires FinishedOrGone(b, task) && AllHarmless(b, task) && Closes(step, task) && Next(b, step).Some?
    ensures FinishedOrGone(Next(b, step).value, task) && AllHarmless(Next(b, step).value, task)
  {
    match step
    case Run(pid, victims) => RunKeepsClosed(b, pid, victims, task);
    case Add(_, _, _, _) =>
      var b' := Next(b, step).value;
      forall q | q in b'.procs && b'.procs[q].task == task ensures Harmless(b', b'.procs[q]) {
        assert Harmless(b, b.procs[q]);
      }
    case Spawn(pid, _) =>
      var b' := Next(b, step).value;
      forall q | q in b'.procs && b'.procs[q].task == task ensures Harmless(b', b'.procs[q]) {
        assert q != pid ==> Harmless(b, b.procs[q]);
      }
  }

  lemma {:induction false} RunStaysClosed(b: Board, steps: seq<Step>, task: TaskId)
    requires FinishedOrGone(b, task) && AllHarmless(b, task) && Closing(steps, task) && Exec(b, steps).Some?
    ensures FinishedOrGone(Exec(b, steps).value, task) && AllHarmless(Exec(b, steps).value, task)
    decreases |steps|
  {
    if steps != [] {
      var init, last := steps[..|steps| - 1], steps[|steps| - 1];
      RunStaysClosed(b, init, task);
      assert Closes(last, task);
      StepKeepsClosed(Exec(b, init).value, last, task);
    }
  }

  // ---- A coroutine on its way reopens it ----

  lemma FirstThenRest(b: Board, step: Step, next: Board, rest: seq<Step>)
    requires Next(b, step) == Some(next)
    ensures Exec(b, [step] + rest) == Exec(next, rest)
  {
    assert [step][..0] == [];
    ExecTogether(b, [step], rest);
  }

  /** The steps lead to a board on which the task is there and not finished. */
  ghost predicate Reopens(b: Board, steps: seq<Step>, task: TaskId) {
    Closing(steps, task) && Exec(b, steps).Some? && !FinishedOrGone(Exec(b, steps).value, task)
  }

  lemma ReopensLater(b: Board, pid: nat, next: Board, rest: seq<Step>, task: TaskId)
    requires Next(b, Run(pid, [])) == Some(next) && Reopens(next, rest, task)
    ensures Reopens(b, [Run(pid, [])] + rest, task)
  {
    FirstThenRest(b, Run(pid, []), next, rest);
  }

  /** How many of its own steps the coroutine needs to write an unfinished record. */
  function StepsToWrite(point: Point): nat {
    match point
    case ClaimRace => 3
    case ClaimReread => 2
    case EditRead(_, _, _) => 2
    case _ => 1
  }

  /** One step nearer to the write, the task still there and the coroutine still not harmless. */
  lemma OneStepNearer(b: Board, pid: nat, task: TaskId) returns (next: Board)
    requires pid in b.procs && b.procs[pid].task == task && task in b.tasks && !Harmless(b, b.procs[pid])
    requires StepsToWrite(b.procs[pid].point) > 1
    ensures Next(b, Run(pid, [])) == Some(next)
    ensures pid in next.procs && next.procs[pid].task == task && task in next.tasks && !Harmless(next, next.procs[pid])
    ensures StepsToWrite(next.procs[pid].point) == StepsToWrite(b.procs[pid].point) - 1
  {
    next := Next(b, Run(pid, [])).value;
  }

  lemma LastStepWrites(b: Board, pid: nat, task: TaskId) returns (next: Board)
    requires pid in b.procs && b.procs[pid].task == task && task in b.tasks && !Harmless(b, b.procs[pid])
    requires StepsToWrite(b.procs[pid].point) == 1
    ensures Next(b, Run(pid, [])) == Some(next) && !FinishedOrGone(next, task)
  {
    next := Next(b, Run(pid, [])).value;
  }

  /** The coroutine is on its way, `steps` steps from writing an unfinished record. */
  predicate OnTheWay(b: Board, pid: nat, task: TaskId, steps: nat) {
    && pid in b.procs && b.procs[pid].task == task && task in b.tasks && !Harmless(b, b.procs[pid])
    && StepsToWrite(b.procs[pid].point) == steps
  }

  lemma {:induction false} RunAloneReopens(b: Board, pid: nat, task: TaskId, left: nat) returns (steps: seq<Step>)
    requires OnTheWay(b, pid, task, left) && left > 0
    ensures Reopens(b, steps, task)
    decreases left
  {
    if left > 1 {
      var next := OneStepNearer(b, pid, task);
      var rest := RunAloneReopens(next, pid, task, left - 1);
      ReopensLater(b, pid, next, rest, task);
      steps := [Run(pid, [])] + rest;
    } else {
      var next := LastStepWrites(b, pid, task);
      assert Exec(next, []) == Some(next);
      ReopensLater(b, pid, next, [], task);
      steps := [Run(pid, [])] + [];
    }
  }

  /**
   A finished task stays finished, whatever claims, finishing edits and prunes come, exactly if nobody is
   on the way to writing it: no claim past its read that has won the race or still can, and no edit under
   way that reopens it.
   */
  lemma StaysFinishedExactlyWhen(b: Board, task: TaskId)
    requires task in b.tasks && Finished(b.tasks[task].status)
    ensures StaysFinished(b, task) <==> AllHarmless(b, task)
  {
    if AllHarmless(b, task) {
      forall steps | Closing(steps, task) && Exec(b, steps).Some? ensures FinishedOrGone(Exec(b, steps).value, task) {
        RunStaysClosed(b, steps, task);
      }
    } else {
      var pid :| pid in b.procs && b.procs[pid].task == task && !Harmless(b, b.procs[pid]);
      var steps := RunAloneReopens(b, pid, task, StepsToWrite(b.procs[pid].point));
      assert Reopens(b, steps, task);
    }
  }
}
