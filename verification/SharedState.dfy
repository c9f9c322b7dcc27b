/**
 `SharedWorkingState`: the Redis-backed board that agents read and write. Each method runs here
 without interruption; what interleaving does to claims is the subject of `TaskClaims`.
 */
module SharedState {
  import opened Wrappers
  import opened PyText
  import opened Ordering
  import opened TaskClaims
  import opened TaskPruning
  import D = Dangers
  import S = Settlement

  class SharedWorkingState {
    var tasks: map<TaskId, Task>
    var markers: map<TaskId, Agent>
    var dangers: seq<D.Danger>
    var objectives: seq<S.Objective>

    constructor ()
      ensures tasks == map[] && markers == map[] && dangers == [] && objectives == []
    {
      tasks, markers, dangers, objectives := map[], map[], [], [];
    }

    // ---- Tasks ----

    /** What an uncontended claim of `agent` on the task would be answered now. */
    function Answer(id: TaskId, agent: Agent): Outcome
      reads this
    {
      if id !in tasks then NotFound
      else match Judge(tasks[id], agent)
           case Some(outcome) => outcome
           case None => if id in markers then AlreadyClaimed(Some(markers[id])) else Claimed(agent)
    }

    /**
     Stores the record. An unowned, unfinished task is free for everybody unless its id was ever raced
     for: proposing a claimed task again leaves it with the winner. Other tasks answer as before.
     */
    method AddTask(id: TaskId, task: Task)
      modifies `tasks
      ensures tasks == old(tasks)[id := task]
      ensures task.owner.None? && !Finished(task.status) ==>
                forall agent :: Answer(id, agent)
                                == if id in markers then AlreadyClaimed(Some(markers[id])) else Claimed(agent)
      ensures forall other, agent :: other != id ==> Answer(other, agent) == old(Answer(other, agent))
    {
      tasks := tasks[id := task];
    }

    /** `order` is the order in which Redis lists the hash, should the edit finish the task. */
    method UpdateTaskStatus(id: TaskId, status: string, reason: string, owner: Option<Agent>,
                            order: seq<TaskId>, now: real) returns (found: bool)
      requires Enumerates(order, tasks)
      modifies `tasks
      ensures found <==> id in old(tasks)
      ensures !found ==> tasks == old(tasks)
      ensures found ==>
                var t := old(tasks)[id];
                var edited := old(tasks)[id := Task(if owner.Some? && owner.value != "" then owner else t.owner, status,
                                                    t.created, if reason != "" then Some(reason) else t.blockedReason)];
                && (forall i :: 0 <= i < |order| ==> order[i] in edited)
                && tasks == if status == "done" then Pruned(order, edited, now) else edited
    {
      if id !in tasks {
        return false;
      }
      tasks := tasks[id := Edited(tasks[id], status, reason, owner)];
      if status == "done" {
        var _ := PruneCompletedTasks(order, now);
      }
      found := true;
    }

    method ClaimTask(id: TaskId, agent: Agent) returns (outcome: Outcome)
      modifies `tasks, `markers
      ensures outcome == old(Answer(id, agent))
      ensures id !in old(tasks) ==> outcome == NotFound
      ensures id in old(tasks) ==>
                var t := old(tasks)[id];
                if t.status == "done" || t.status == "completed" then outcome == AlreadyClaimed(t.owner)
                else if t.owner == Some(agent) then outcome == Claimed(agent)
                else if t.owner.Some? && t.owner.value != ""
                        && (t.status == "in_progress" || t.status == "blocked") then
                  outcome == AlreadyClaimed(t.owner)
                else if id in old(markers) then outcome == AlreadyClaimed(Some(old(markers)[id]))
                else
                  && outcome == Claimed(agent) && markers == old(markers)[id := agent]
                  && tasks == old(tasks)[id := Task(if agent == "" then t.owner else Some(agent), "in_progress",
                                                    t.created, t.blockedReason)]
      ensures id !in old(tasks) || id in old(markers) || old(tasks)[id].owner == Some(agent) || !outcome.Claimed? ==>
                tasks == old(tasks) && markers == old(markers)
      ensures outcome == Claimed(agent) && agent != "" ==>
                id in tasks && tasks[id].owner == Some(agent) && Answer(id, agent) == Claimed(agent)
    {
      if id !in tasks {
        return NotFound;
      }
      var data := tasks[id];
      if Finished(data.status) {
        return AlreadyClaimed(data.owner);
      }
      if data.owner == Some(agent) {
        return Claimed(agent);
      }
      if Truthy(data.owner) && data.status in {"in_progress", "blocked"} {
        return AlreadyClaimed(data.owner);
      }
      if id !in markers {
        markers := markers[id := agent];
        tasks := tasks[id := Edited(tasks[id], "in_progress", "", Some(agent))];
        return Claimed(agent);
      }
      outcome := AlreadyClaimed(Some(markers[id]));
    }

    method PruneCompletedTasks(order: seq<TaskId>, now: real) returns (pruned: nat)
      requires Enumerates(order, tasks)
      modifies `tasks
      ensures pruned == PruneCount(DoneByAge(order, old(tasks)), now)
      ensures tasks == Pruned(order, old(tasks), now)
    {
      var done := DoneByAge(order, tasks);
      ghost var n := PruneCount(done, now);
      DoneByAgeAre(order, tasks);
      PruneCountFits(done, now);
      pruned := 0;
      for i := 0 to |done|
        invariant pruned == if i < n then i else n
        invariant tasks == old(tasks) - IdsOf(done[..pruned])
      {
        var age := now - done[i].created;
        var excess := |done| - pruned > MAX_COMPLETED_TASKS;
        GoesExactlyWhen(done, now, i, pruned);
        if age > COMPLETED_TASK_TTL || excess {
          WithoutNext(old(tasks), done, pruned);
          tasks := tasks - {done[i].id};
          pruned := pruned + 1;
        }
      }
    }

    // ---- Dangers ----

    method ReportDanger(report: D.Danger)
      modifies `dangers
      ensures dangers == D.Step(old(dangers), D.Report(report))
    {
      dangers := dangers + [D.Normalize(report)];
      dangers := D.Recent(dangers);
    }

    /** The scan from the newest report back. */
    method ScanBack(ds: seq<D.Danger>, test: D.Danger -> bool) returns (found: Option<nat>)
      ensures found == D.LastWhere(ds, test)
    {
      var i := |ds|;
      while i > 0 && !test(ds[i - 1])
        invariant 0 <= i <= |ds|
        invariant forall j :: i <= j < |ds| ==> !test(ds[j])
      {
        i := i - 1;
      }
      assert i > 0 ==> test(ds[i - 1]);
      found := if i == 0 then None else Some(i - 1);
    }

    method UpdateDanger(e: D.Edit) returns (updated: Option<D.Danger>)
      modifies `dangers
      ensures dangers == D.Update(old(dangers), e)
      ensures var found := D.Newest(old(dangers), e);
              updated == if found.None? then None else Some(D.Apply(old(dangers)[found.value], e))
      ensures updated.None? <==>
                if e.dangerId.Some? && e.dangerId.value != "" then
                  forall i :: 0 <= i < |old(dangers)| ==> old(dangers)[i].dangerId != e.dangerId.value
                else if e.agent.Some? && e.agent.value != "" then
                  forall i :: 0 <= i < |old(dangers)| ==>
                    old(dangers)[i].agent != e.agent.value || !D.Unresolved(old(dangers)[i])
                else old(dangers) == []
      ensures updated.None? ==> dangers == old(dangers)
      ensures updated.Some? ==>
                exists i :: 0 <= i < |old(dangers)| &&
                  var was := old(dangers)[i];
                  && updated.value == was.(
                       rescuer := if e.rescuer.Some? && e.rescuer.value != "" then e.rescuer else was.rescuer,
                       resolvedAt := if e.resolvedAt.Some? then e.resolvedAt else was.resolvedAt,
                       status := if e.status.Some? && e.status.value != "" then e.status.value else was.status)
                  && (e.dangerId.Some? && e.dangerId.value != "" ==> was.dangerId == e.dangerId.value)
                  && (|old(dangers)| <= 25 ==> dangers == old(dangers)[i := updated.value])
    {
      var ds := dangers;
      var found := ScanBack(ds, D.Test(e));
      if found.None? {
        return None;
      }
      var danger := D.Apply(ds[found.value], e);
      dangers := D.Recent(ds[found.value := danger]);
      updated := Some(danger);
    }

    method MarkDangerResolved(dangerId: Option<string>, agent: Option<string>, rescuer: Option<string>,
                              status: string, now: real) returns (updated: Option<D.Danger>)
      modifies `dangers
      ensures dangers == D.Update(old(dangers), D.Edit(dangerId, agent, rescuer, Some(now), Some(status)))
      ensures updated.Some? ==> !D.Unresolved(updated.value)
      ensures updated.None? <==> D.Newest(old(dangers), D.Edit(dangerId, agent, rescuer, Some(now), Some(status))).None?
    {
      updated := UpdateDanger(D.Edit(dangerId, agent, rescuer, Some(now), Some(status)));
    }

    method DispatchRescueTask(dangerId: string, rescuer: string, now: real) returns (task: Option<TaskId>)
      modifies `dangers, `tasks
      ensures var e := D.Edit(Some(dangerId), None, Some(rescuer), None, Some("rescue_dispatched"));
              var found := D.Newest(old(dangers), e);
              && dangers == D.Update(old(dangers), e)
              && (found.None? ==> task == None && tasks == old(tasks))
              && (found.Some? ==>
                    && task == Some("rescue-" + old(dangers)[found.value].dangerId)
                    && tasks == old(tasks)[task.value := Task(Some(rescuer), "pending", now, None)])
    {
      var updated := UpdateDanger(D.Edit(Some(dangerId), None, Some(rescuer), None, Some("rescue_dispatched")));
      if updated.None? {
        return None;
      }
      var id := "rescue-" + updated.value.dangerId;
      AddTask(id, Task(Some(rescuer), "pending", now, None));
      task := Some(id);
    }

    // ---- Settlement objectives ----

    method SetSettlementObjectives(os: seq<S.Objective>)
      modifies `objectives
      ensures objectives == S.Stored(os)
    {
      var first := if |os| > S.MAX_SETTLEMENT_OBJECTIVES then os[..S.MAX_SETTLEMENT_OBJECTIVES] else os;
      var ordered := SortBy(first, S.Before);
      ghost var sorted := ordered;
      for i := 0 to |ordered|
        invariant |ordered| == |sorted|
        invariant forall j :: 0 <= j < i ==> ordered[j] == S.Normalize(sorted[j])
        invariant forall j :: i <= j < |ordered| ==> ordered[j] == sorted[j]
      {
        ordered := ordered[i := S.Normalize(ordered[i])];
      }
      objectives := ordered;
      assert ordered == S.NormalizeAll(sorted);
    }

    method Locate(os: seq<S.Objective>, id: string) returns (found: Option<nat>)
      ensures found == S.Find(os, id)
    {
      for i := 0 to |os|
        invariant forall j :: 0 <= j < i ==> os[j].id != id
      {
        if os[i].id == id {
          return Some(i);
        }
      }
      found := None;
    }

    method AssignSettlementObjectiveOwner(id: string, owner: string, reason: Option<string>,
                                          startedAtMs: Option<int>, bar: real, now: real)
      returns (result: Option<S.Objective>)
      modifies `objectives
      ensures objectives == S.Step(old(objectives), S.Assign(id, owner, reason, startedAtMs), bar, now)
      ensures var os := S.Read(old(objectives));
              result == match S.Find(os, id)
                        case None => None
                        case Some(i) => if os[i].status == S.Completed then Some(os[i])
                                        else Some(S.Assigned(os[i], S.Assign(id, owner, reason, startedAtMs), now))
    {
      result := ApplyAssign(S.Assign(id, owner, reason, startedAtMs), bar, now);
    }

    method ApplyAssign(op: S.Op, bar: real, now: real) returns (result: Option<S.Objective>)
      requires op.Assign?
      modifies `objectives
      ensures objectives == S.Step(old(objectives), op, bar, now)
      ensures var os := S.Read(old(objectives));
              result == match S.Find(os, op.id)
                        case None => None
                        case Some(i) => if os[i].status == S.Completed then Some(os[i])
                                        else Some(S.Assigned(os[i], op, now))
    {
      var os := S.Read(objectives);
      var found := Locate(os, op.id);
      if found.None? {
        return None;
      }
      var objective := os[found.value];
      if objective.status == S.Completed {
        return Some(objective);
      }
      objective := S.Assigned(objective, op, now);
      SetSettlementObjectives(os[found.value := objective]);
      result := Some(objective);
    }

    method AdvanceSettlementObjective(id: string, status: string, planId: Option<string>, intended: Option<int>,
                                      verified: Option<int>, ratio: Option<real>, evidence: map<string, string>,
                                      configuredBar: Option<real>, now: real) returns (result: Option<S.Objective>)
      modifies `objectives
      ensures var op := S.Advance(id, S.ParseStatus(status), planId, intended, verified, ratio, evidence);
              objectives == S.Step(old(objectives), op, S.CompleteRatio(configuredBar), now)
      ensures var op := S.Advance(id, S.ParseStatus(status), planId, intended, verified, ratio, evidence);
              var os := S.Read(old(objectives));
              result == match S.Find(os, id)
                        case None => None
                        case Some(i) => if os[i].status == S.Completed && op.status != S.Completed then Some(os[i])
                                        else Some(S.Advanced(os[i], op, S.CompleteRatio(configuredBar), now))
    {
      var op := S.Advance(id, S.ParseStatus(status), planId, intended, verified, ratio, evidence);
      result := ApplyAdvance(op, S.CompleteRatio(configuredBar), now);
    }

    method ApplyAdvance(op: S.Op, bar: real, now: real) returns (result: Option<S.Objective>)
      requires op.Advance?
      modifies `objectives
      ensures objectives == S.Step(old(objectives), op, bar, now)
      ensures var os := S.Read(old(objectives));
              result == match S.Find(os, op.id)
                        case None => None
                        case Some(i) => if os[i].status == S.Completed && op.status != S.Completed then Some(os[i])
                                        else Some(S.Advanced(os[i], op, bar, now))
    {
      var os := S.Read(objectives);
      var found := Locate(os, op.id);
      if found.None? {
        return None;
      }
      var objective := os[found.value];
      if objective.status == S.Completed && op.status != S.Completed {
        return Some(objective);
      }
      objective := S.Advanced(objective, op, bar, now);
      SetSettlementObjectives(os[found.value := objective]);
      result := Some(objective);
    }
  }
}
