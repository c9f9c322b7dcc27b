/**
 The per-agent spend cap: `CostGovernor` and the three places where an LLM call meets it
 (admission, cost logging, the re-check after logging).

 Every `await` is a separate step, so any number of calls may sit between the query that admits
 them and the row that records what they cost. Money is exact (`Decimal` becomes `real`) and time
 counts the clock's smallest unit.
 */
module SpendGovernor {
  import opened Ordering
  import opened Wrappers

  type Agent = string

  /** A `cost_events` row; `gated` tells whether an admitted LLM call wrote it. */
  datatype Row = Row(agent: Agent, amount: real, at: int, gated: bool)

  datatype Config = Config(window: int, caps: map<Agent, Option<real>>, defaultCap: Option<real>)

  ghost predicate ValidConfig(c: Config) {
    c.window > 0
  }

  predicate Positive(cap: Option<real>) {
    cap.Some? && cap.value > 0.0
  }

  /** The agent's own entry decides, and only without one the default; a cap that is not positive is none. */
  function CapFor(c: Config, agent: Agent): (cap: Option<real>)
    ensures agent in c.caps && Positive(c.caps[agent]) ==> cap == c.caps[agent]
    ensures agent !in c.caps && Positive(c.defaultCap) ==> cap == c.defaultCap
    ensures cap.Some? ==> if agent in c.caps then Positive(c.caps[agent]) else Positive(c.defaultCap)
  {
    var cap := if agent in c.caps then c.caps[agent] else c.defaultCap;
    if cap.None? || cap.value <= 0.0 then None else cap
  }

  // ---- Sums over the event log ----

  datatype Filter = Filter(agent: Agent, since: int, until: Option<int>, gatedOnly: bool)

  predicate Selects(f: Filter, row: Row) {
    && row.agent == f.agent
    && f.since <= row.at
    && (f.until.Some? ==> row.at <= f.until.value)
    && (f.gatedOnly ==> row.gated)
  }

  function Spend(rows: seq<Row>, f: Filter): real {
    if rows == [] then 0.0
    else
      var last := rows[|rows| - 1];
      Spend(rows[..|rows| - 1], f) + if Selects(f, last) then last.amount else 0.0
  }

  /** What the repository query returns: all rows of the agent from `since` on. */
  function SpendSince(rows: seq<Row>, agent: Agent, since: int): real {
    Spend(rows, Filter(agent, since, None, false))
  }

  ghost predicate NonNegative(rows: seq<Row>) {
    forall i :: 0 <= i < |rows| ==> rows[i].amount >= 0.0
  }

  lemma SpendAppend(rows: seq<Row>, row: Row, f: Filter)
    ensures Spend(rows + [row], f) == Spend(rows, f) + if Selects(f, row) then row.amount else 0.0
  {
    assert (rows + [row])[..|rows|] == rows;
  }

  /** A filter that selects fewer rows never sums to more. */
  lemma {:induction false} SpendMonotone(rows: seq<Row>, f: Filter, g: Filter)
    requires NonNegative(rows)
    requires forall i :: 0 <= i < |rows| && Selects(f, rows[i]) ==> Selects(g, rows[i])
    ensures 0.0 <= Spend(rows, f) <= Spend(rows, g)
  {
    if rows != [] {
      SpendMonotone(rows[..|rows| - 1], f, g);
    }
  }

  /**
   Every row counts, gated or not, with its whole amount, exactly if it is the agent's and not older
   than `since`: raising the amount of one row by `more` raises the sum by `more`, or not at all.
   */
  lemma {:induction false} EachRowCounts(rows: seq<Row>, i: nat, more: real, agent: Agent, since: int)
    requires i < |rows|
    ensures SpendSince(rows[i := rows[i].(amount := rows[i].amount + more)], agent, since)
            == SpendSince(rows, agent, since) + if rows[i].agent == agent && since <= rows[i].at then more else 0.0
  {
    var last := |rows| - 1;
    var raised := rows[i := rows[i].(amount := rows[i].amount + more)];
    if i < last {
      EachRowCounts(rows[..last], i, more, agent, since);
      assert raised[..last] == rows[..last][i := rows[i].(amount := rows[i].amount + more)];
    } else {
      assert raised[..last] == rows[..last];
    }
  }

  /** Rows of no amount sum to nothing, so that the sum is fixed by what each row counts. */
  lemma {:induction false} NothingSpent(rows: seq<Row>, agent: Agent, since: int)
    requires forall i :: 0 <= i < |rows| ==> rows[i].amount == 0.0
    ensures SpendSince(rows, agent, since) == 0.0
  {
    if rows != [] {
      NothingSpent(rows[..|rows| - 1], agent, since);
    }
  }

  // ---- The protocol ----

  /** Where a call stands; the `Recording` points belong to `record_and_check`. */
  datatype Point =
    | AskFlag
    | ReadClock
    | Query(since: int)
    | Trip
    | InFlight
    | RecordAskFlag
    | RecordReadClock
    | RecordQuery(from: int)
    | RecordTrip

  datatype Call = Call(agent: Agent, point: Point)

  datatype State = State(now: int, rows: seq<Row>, flags: map<Agent, int>, calls: map<nat, Call>)

  /** `Finish` ends the provider request: a row is recorded, or nothing is (failure or lost row). */
  datatype Step =
    | Tick(to: int)
    | Begin(id: nat, agent: Agent)
    | Proceed(id: nat)
    | Finish(id: nat, cost: Option<real>)
    | Ungated(agent: Agent, amount: real)
    | Reset(agent: Agent)

  predicate FlagLive(s: State, agent: Agent) {
    agent in s.flags && s.now < s.flags[agent]
  }

  function Without(s: State, id: nat): State {
    s.(calls := s.calls - {id})
  }

  function At(s: State, id: nat, agent: Agent, point: Point): State {
    s.(calls := s.calls[id := Call(agent, point)])
  }

  function SetFlag(c: Config, s: State, agent: Agent): State {
    s.(flags := s.flags[agent := s.now + c.window])
  }

  function ProceedCall(c: Config, s: State, id: nat): Option<State>
    requires id in s.calls
  {
    var Call(agent, point) := s.calls[id];
    var cap := CapFor(c, agent);
    if cap.None? then None else
    match point
    case AskFlag => Some(if FlagLive(s, agent) then Without(s, id) else At(s, id, agent, ReadClock))
    case ReadClock => Some(At(s, id, agent, Query(s.now - c.window)))
    case Query(since) =>
      Some(At(s, id, agent, if SpendSince(s.rows, agent, since) >= cap.value then Trip else InFlight))
    case Trip => Some(Without(SetFlag(c, s, agent), id))
    case InFlight => None
    case RecordAskFlag => Some(if FlagLive(s, agent) then Without(s, id) else At(s, id, agent, RecordReadClock))
    case RecordReadClock => Some(At(s, id, agent, RecordQuery(s.now - c.window)))
    case RecordQuery(from) =>
      Some(if SpendSince(s.rows, agent, from) >= cap.value then At(s, id, agent, RecordTrip) else Without(s, id))
    case RecordTrip => Some(Without(SetFlag(c, s, agent), id))
  }

  /** The successor state, or `None` when the step is not enabled. */
  function Next(c: Config, s: State, step: Step): Option<State> {
    match step
    case Tick(to) => if to < s.now then None else Some(s.(now := to))
    case Begin(id, agent) =>
      if id in s.calls then None
      else Some(At(s, id, agent, if CapFor(c, agent).None? then InFlight else AskFlag))
    case Proceed(id) => if id in s.calls then ProceedCall(c, s, id) else None
    case Finish(id, cost) =>
      if id !in s.calls || !s.calls[id].point.InFlight? then None
      else if cost.None? then Some(Without(s, id))
      else if cost.value < 0.0 then None
      else
        var agent := s.calls[id].agent;
        var logged := s.(rows := s.rows + [Row(agent, cost.value, s.now, true)]);
        Some(if CapFor(c, agent).None? then Without(logged, id) else At(logged, id, agent, RecordAskFlag))
    case Ungated(agent, amount) =>
      if amount < 0.0 then None else Some(s.(rows := s.rows + [Row(agent, amount, s.now, false)]))
    case Reset(agent) => Some(s.(flags := s.flags - {agent}))
  }

  function Initial(now: int, flags: map<Agent, int>): State {
    State(now, [], flags, map[])
  }

  /** A run from an empty event log; flags may be left over from before. */
  datatype Run = Start(now: int, flags: map<Agent, int>) | Then(before: Run, step: Step)

  function Exec(c: Config, run: Run): Option<State> {
    match run
    case Start(now, flags) => Some(Initial(now, flags))
    case Then(before, step) => (match Exec(c, before) case None => None case Some(s) => Next(c, s, step))
  }

  function InFlightOf(s: State, agent: Agent): set<nat> {
    set id | id in s.calls && s.calls[id] == Call(agent, InFlight)
  }

  /** If a call of `agent` ends in this step, it costs at most `most`. */
  predicate Affordable(s: State, step: Step, agent: Agent, most: real) {
    step.Finish? && step.cost.Some? && step.id in s.calls && s.calls[step.id].agent == agent ==> step.cost.value <= most
  }

  /** The run is possible, keeps at most `n` calls of `agent` in flight, and none of them costs more than `most`. */
  ghost predicate Bounded(c: Config, run: Run, agent: Agent, n: nat, most: real) {
    && Exec(c, run).Some?
    && |InFlightOf(Exec(c, run).value, agent)| <= n
    && (run.Then? ==>
          Bounded(c, run.before, agent, n, most) && Affordable(Exec(c, run.before).value, run.step, agent, most))
  }

  // ---- The overshoot bound ----

  function GatedSince(s: State, agent: Agent, since: int): real {
    Spend(s.rows, Filter(agent, since, None, true))
  }

  /** Recorded gated spend of the window of the given length that starts at `since`. */
  function GatedWindow(s: State, agent: Agent, since: int, length: int): real {
    Spend(s.rows, Filter(agent, since, Some(since + length), true))
  }

  ghost predicate Sane(c: Config, s: State) {
    && NonNegative(s.rows)
    && (forall i :: 0 <= i < |s.rows| ==> s.rows[i].at <= s.now)
    && (forall id :: id in s.calls && s.calls[id].point.Query? ==> s.calls[id].point.since <= s.now - c.window)
  }

  /** `k` calls at `most` each, by repeated addition. */
  function Scale(k: nat, most: real): real {
    if k == 0 then 0.0 else Scale(k - 1, most) + most
  }

  /** What the calls still in flight may add is already paid for in every window that is still open. */
  ghost predicate Headroom(c: Config, s: State, agent: Agent, cap: real, n: nat, most: real) {
    forall since :: since >= s.now - c.window ==>
      GatedSince(s, agent, since) + Scale(|InFlightOf(s, agent)|, most) < cap + Scale(n, most)
  }

  ghost predicate WindowsBounded(c: Config, s: State, agent: Agent, limit: real) {
    forall since :: GatedWindow(s, agent, since, c.window) < limit
  }

  ghost predicate Inv(c: Config, s: State, agent: Agent, cap: real, n: nat, most: real) {
    && Sane(c, s)
    && Headroom(c, s, agent, cap, n, most)
    && WindowsBounded(c, s, agent, cap + Scale(n, most))
  }

  lemma {:induction false} ScaleMonotone(k: nat, n: nat, most: real)
    requires k <= n && most >= 0.0
    ensures 0.0 <= Scale(k, most) <= Scale(n, most)
    decreases n
  {
    if k < n {
      ScaleMonotone(k, n - 1, most);
    } else if k > 0 {
      ScaleMonotone(k - 1, n - 1, most);
    }
  }

  lemma {:induction false} ScaleIsProduct(k: nat, most: real)
    ensures Scale(k, most) == k as real * most
  {
    if k > 0 {
      ScaleIsProduct(k - 1, most);
      assert k as real * most == (k - 1) as real * most + most;
    }
  }

  /** Admission re-establishes the headroom, whatever was still in flight. */
  lemma AdmitKeepsHeadroom(c: Config, s: State, s': State, id: nat, agent: Agent, cap: real, n: nat, most: real)
    requires ValidConfig(c) && most >= 0.0 && Sane(c, s)
    requires id in s.calls && s.calls[id].agent == agent && s.calls[id].point.Query?
    requires SpendSince(s.rows, agent, s.calls[id].point.since) < cap
    requires s' == At(s, id, agent, InFlight)
    requires |InFlightOf(s', agent)| <= n
    ensures Headroom(c, s', agent, cap, n, most)
  {
    var asked := s.calls[id].point.since;
    ScaleMonotone(|InFlightOf(s', agent)|, n, most);
    forall since | since >= s'.now - c.window
      ensures GatedSince(s', agent, since) + Scale(|InFlightOf(s', agent)|, most) < cap + Scale(n, most)
    {
      SpendMonotone(s.rows, Filter(agent, since, None, true), Filter(agent, asked, None, false));
    }
  }

  /** Recording a row moves its cost from the headroom into the log. */
  lemma LogKeepsInv(c: Config, s: State, s': State, row: Row, agent: Agent, cap: real, n: nat, most: real)
    requires ValidConfig(c) && most >= 0.0 && Inv(c, s, agent, cap, n, most)
    requires row.at == s.now && row.amount >= 0.0
    requires s'.rows == s.rows + [row] && s'.now == s.now && Sane(c, s')
    requires row.gated && row.agent == agent ==>
               row.amount <= most && |InFlightOf(s', agent)| + 1 == |InFlightOf(s, agent)|
    requires !(row.gated && row.agent == agent) ==> |InFlightOf(s', agent)| <= |InFlightOf(s, agent)|
    ensures Inv(c, s', agent, cap, n, most)
  {
    var k, k' := |InFlightOf(s, agent)|, |InFlightOf(s', agent)|;
    ScaleMonotone(k', k, most);
    forall since | since >= s'.now - c.window
      ensures GatedSince(s', agent, since) + Scale(k', most) < cap + Scale(n, most)
    {
      SpendAppend(s.rows, row, Filter(agent, since, None, true));
      assert GatedSince(s, agent, since) + Scale(k, most) < cap + Scale(n, most);
    }
    forall since ensures GatedWindow(s', agent, since, c.window) < cap + Scale(n, most) {
      SpendAppend(s.rows, row, Filter(agent, since, Some(since + c.window), true));
      assert GatedWindow(s, agent, since, c.window) < cap + Scale(n, most);
      if since >= s'.now - c.window {
        SpendMonotone(s'.rows, Filter(agent, since, Some(since + c.window), true), Filter(agent, since, None, true));
        assert GatedSince(s', agent, since) + Scale(k', most) < cap + Scale(n, most);
      }
    }
  }

  /** Steps that write no row and admit no call. */
  lemma QuietKeepsInv(c: Config, s: State, s': State, agent: Agent, cap: real, n: nat, most: real)
    requires ValidConfig(c) && most >= 0.0 && Inv(c, s, agent, cap, n, most)
    requires s'.rows == s.rows && s'.now >= s.now && Sane(c, s')
    requires InFlightOf(s', agent) <= InFlightOf(s, agent)
    ensures Inv(c, s', agent, cap, n, most)
  {
    SubsetCard(InFlightOf(s', agent), InFlightOf(s, agent));
    ScaleMonotone(|InFlightOf(s', agent)|, |InFlightOf(s, agent)|, most);
    forall since | since >= s'.now - c.window
      ensures GatedSince(s', agent, since) + Scale(|InFlightOf(s', agent)|, most) < cap + Scale(n, most)
    {
      assert GatedSince(s, agent, since) + Scale(|InFlightOf(s, agent)|, most) < cap + Scale(n, most);
    }
    forall since ensures GatedWindow(s', agent, since, c.window) < cap + Scale(n, most) {
      assert GatedWindow(s, agent, since, c.window) < cap + Scale(n, most);
    }
  }

  lemma FinishLogs(c: Config, s: State, id: nat, cost: real, agent: Agent)
    requires ValidConfig(c) && Sane(c, s) && Next(c, s, Finish(id, Some(cost))).Some?
    ensures var s' := Next(c, s, Finish(id, Some(cost))).value;
            && s'.now == s.now && s'.rows == s.rows + [Row(s.calls[id].agent, cost, s.now, true)] && Sane(c, s')
            && InFlightOf(s', agent) == InFlightOf(s, agent) - {id}
  {
  }

  lemma FinishKeepsInv(c: Config, s: State, id: nat, cost: Option<real>, agent: Agent, cap: real, n: nat, most: real)
    requires ValidConfig(c) && most >= 0.0 && Inv(c, s, agent, cap, n, most)
    requires Next(c, s, Finish(id, cost)).Some? && Affordable(s, Finish(id, cost), agent, most)
    ensures Inv(c, Next(c, s, Finish(id, cost)).value, agent, cap, n, most)
  {
    var s' := Next(c, s, Finish(id, cost)).value;
    if cost.None? {
      QuietKeepsInv(c, s, s', agent, cap, n, most);
    } else {
      FinishLogs(c, s, id, cost.value, agent);
      LogKeepsInv(c, s, s', Row(s.calls[id].agent, cost.value, s.now, true), agent, cap, n, most);
    }
  }

  lemma UngatedKeepsInv(c: Config, s: State, a: Agent, amount: real, agent: Agent, cap: real, n: nat, most: real)
    requires ValidConfig(c) && most >= 0.0 && Inv(c, s, agent, cap, n, most)
    requires amount >= 0.0
    ensures Inv(c, Next(c, s, Ungated(a, amount)).value, agent, cap, n, most)
  {
    var s' := Next(c, s, Ungated(a, amount)).value;
    assert InFlightOf(s', agent) == InFlightOf(s, agent);
    LogKeepsInv(c, s, s', Row(a, amount, s.now, false), agent, cap, n, most);
  }

  lemma ProceedKeepsInv(c: Config, s: State, id: nat, agent: Agent, cap: real, n: nat, most: real)
    requires ValidConfig(c) && most >= 0.0 && CapFor(c, agent) == Some(cap)
    requires Inv(c, s, agent, cap, n, most)
    requires Next(c, s, Proceed(id)).Some?
    requires |InFlightOf(Next(c, s, Proceed(id)).value, agent)| <= n
    ensures Inv(c, Next(c, s, Proceed(id)).value, agent, cap, n, most)
  {
    var s' := Next(c, s, Proceed(id)).value;
    var call := s.calls[id];
    if call.agent == agent && call.point.Query? && SpendSince(s.rows, agent, call.point.since) < cap {
      AdmitKeepsHeadroom(c, s, s', id, agent, cap, n, most);
      forall since ensures GatedWindow(s', agent, since, c.window) < cap + Scale(n, most) {
        assert GatedWindow(s, agent, since, c.window) < cap + Scale(n, most);
      }
    } else {
      QuietKeepsInv(c, s, s', agent, cap, n, most);
    }
  }

  lemma StepKeepsInv(c: Config, s: State, step: Step, agent: Agent, cap: real, n: nat, most: real)
    requires ValidConfig(c) && most >= 0.0 && CapFor(c, agent) == Some(cap)
    requires Inv(c, s, agent, cap, n, most)
    requires Next(c, s, step).Some? && Affordable(s, step, agent, most)
    requires |InFlightOf(Next(c, s, step).value, agent)| <= n
    ensures Inv(c, Next(c, s, step).value, agent, cap, n, most)
  {
    match step
    case Ungated(a, amount) => UngatedKeepsInv(c, s, a, amount, agent, cap, n, most);
    case Finish(id, cost) => FinishKeepsInv(c, s, id, cost, agent, cap, n, most);
    case Proceed(id) => ProceedKeepsInv(c, s, id, agent, cap, n, most);
    case _ => QuietKeepsInv(c, s, Next(c, s, step).value, agent, cap, n, most);
  }

  lemma {:induction false} RunKeepsInv(c: Config, run: Run, agent: Agent, cap: real, n: nat, most: real)
    requires ValidConfig(c) && most >= 0.0 && CapFor(c, agent) == Some(cap)
    requires Bounded(c, run, agent, n, most)
    ensures Inv(c, Exec(c, run).value, agent, cap, n, most)
  {
    match run
    case Start(now, flags) =>
      ScaleMonotone(0, n, most);
      assert InFlightOf(Initial(now, flags), agent) == {};
    case Then(before, step) =>
      RunKeepsInv(c, before, agent, cap, n, most);
      StepKeepsInv(c, Exec(c, before).value, step, agent, cap, n, most);
  }

  /**
   The overshoot bound. With at most `n` calls of the agent in flight at any moment, each costing at
   most `most`, the rows of admitted calls in every window of the configured length sum to strictly
   less than `cap + n * most`. Nothing is assumed about ungated rows, lost rows, failures, flag
   expiry, resets or the passing of time.
   */
  lemma OvershootBound(c: Config, run: Run, agent: Agent, cap: real, n: nat, most: real, since: int)
    requires ValidConfig(c) && most >= 0.0 && CapFor(c, agent) == Some(cap)
    requires Bounded(c, run, agent, n, most)
    ensures GatedWindow(Exec(c, run).value, agent, since, c.window) < cap + n as real * most
  {
    RunKeepsInv(c, run, agent, cap, n, most);
    ScaleIsProduct(n, most);
  }

  /** A listed agent is bounded by its own cap, whatever the default is. */
  lemma ListedCapBounds(c: Config, run: Run, agent: Agent, n: nat, most: real, since: int)
    requires ValidConfig(c) && most >= 0.0
    requires agent in c.caps && c.caps[agent].Some? && c.caps[agent].value > 0.0
    requires Bounded(c, run, agent, n, most)
    ensures GatedWindow(Exec(c, run).value, agent, since, c.window) < c.caps[agent].value + n as real * most
  {
    OvershootBound(c, run, agent, c.caps[agent].value, n, most, since);
  }

  /** An agent that is not listed is bounded by the default. */
  lemma DefaultCapBounds(c: Config, run: Run, agent: Agent, n: nat, most: real, since: int)
    requires ValidConfig(c) && most >= 0.0
    requires agent !in c.caps && c.defaultCap.Some? && c.defaultCap.value > 0.0
    requires Bounded(c, run, agent, n, most)
    ensures GatedWindow(Exec(c, run).value, agent, since, c.window) < c.defaultCap.value + n as real * most
  {
    OvershootBound(c, run, agent, c.defaultCap.value, n, most, since);
  }

  /** A listed agent without a positive cap of its own is bounded by nothing, the default included. */
  lemma UncappedSpendsAnything(c: Config, now: int, agent: Agent, cost: real) returns (run: Run)
    requires agent in c.caps && (c.caps[agent].Some? ==> c.caps[agent].value <= 0.0)
    requires c.window >= 0 && cost >= 0.0
    ensures Bounded(c, run, agent, 1, cost)
    ensures GatedWindow(Exec(c, run).value, agent, now, c.window) == cost
  {
    var start, s := Start(now, map[]), Initial(now, map[]);
    var admitted := Then(start, Begin(0, agent));
    var s' := At(s, 0, agent, InFlight);
    assert InFlightOf(s, agent) == {};
    assert Exec(c, admitted) == Some(s') && InFlightOf(s', agent) == {0};
    run := Then(admitted, Finish(0, Some(cost)));
    var row := Row(agent, cost, now, true);
    assert Exec(c, run) == Next(c, s', Finish(0, Some(cost)));
    var end := Next(c, s', Finish(0, Some(cost))).value;
    assert end.rows == [] + [row] && InFlightOf(end, agent) == {};
    SpendAppend([], row, Filter(agent, now, Some(now + c.window), true));
  }

  // ---- The bound is attained ----

  lemma InFlightAt(s: State, id: nat, agent: Agent, point: Point)
    requires id !in s.calls
    ensures InFlightOf(At(s, id, agent, point), agent)
            == if point.InFlight? then InFlightOf(s, agent) + {id} else InFlightOf(s, agent)
  {
  }

  lemma AtOverwrites(s: State, id: nat, agent: Agent, from: Point, to: Point)
    ensures At(At(s, id, agent, from), id, agent, to) == At(s, id, agent, to)
  {
  }

  /** The moves of a call from its start to its admission decision. */
  lemma GateMoves(c: Config, s: State, id: nat, agent: Agent, cap: real)
    requires CapFor(c, agent) == Some(cap) && !FlagLive(s, agent)
    ensures var asked := Query(s.now - c.window);
            var over := SpendSince(s.rows, agent, s.now - c.window) >= cap;
            && ProceedCall(c, At(s, id, agent, AskFlag), id) == Some(At(s, id, agent, ReadClock))
            && ProceedCall(c, At(s, id, agent, ReadClock), id) == Some(At(s, id, agent, asked))
            && ProceedCall(c, At(s, id, agent, asked), id) == Some(At(s, id, agent, if over then Trip else InFlight))
  {
    var asked := Query(s.now - c.window);
    AtOverwrites(s, id, agent, AskFlag, ReadClock);
    AtOverwrites(s, id, agent, ReadClock, asked);
    AtOverwrites(s, id, agent, asked, Trip);
    AtOverwrites(s, id, agent, asked, InFlight);
  }

  lemma TripMove(c: Config, s: State, id: nat, agent: Agent)
    requires CapFor(c, agent).Some? && id !in s.calls
    ensures ProceedCall(c, At(s, id, agent, Trip), id) == Some(SetFlag(c, s, agent))
  {
    assert Without(SetFlag(c, At(s, id, agent, Trip), agent), id) == SetFlag(c, s, agent);
  }

  /** One move of a call on its way through the gate. */
  lemma Move(c: Config, run: Run, s: State, id: nat, agent: Agent, from: Point, to: Point, n: nat, most: real)
    requires Bounded(c, run, agent, n, most)
    requires Exec(c, run) == Some(At(s, id, agent, from))
    requires ProceedCall(c, At(s, id, agent, from), id) == Some(At(s, id, agent, to))
    requires id !in s.calls && |InFlightOf(s, agent)| < n
    ensures Bounded(c, Then(run, Proceed(id)), agent, n, most)
    ensures Exec(c, Then(run, Proceed(id))) == Some(At(s, id, agent, to))
  {
    InFlightAt(s, id, agent, to);
  }

  /** A fresh call passes the gate when no flag is set and the window is below the cap. */
  lemma Admit(c: Config, run: Run, s: State, id: nat, agent: Agent, cap: real, n: nat, most: real)
    returns (more: Run)
    requires Bounded(c, run, agent, n, most) && Exec(c, run) == Some(s) && CapFor(c, agent) == Some(cap)
    requires id !in s.calls && !FlagLive(s, agent) && |InFlightOf(s, agent)| < n
    requires SpendSince(s.rows, agent, s.now - c.window) < cap
    ensures Bounded(c, more, agent, n, most)
    ensures Exec(c, more) == Some(At(s, id, agent, InFlight))
  {
    var asked := Query(s.now - c.window);
    GateMoves(c, s, id, agent, cap);
    InFlightAt(s, id, agent, AskFlag);
    more := Then(run, Begin(id, agent));
    Move(c, more, s, id, agent, AskFlag, ReadClock, n, most);
    more := Then(more, Proceed(id));
    Move(c, more, s, id, agent, ReadClock, asked, n, most);
    more := Then(more, Proceed(id));
    Move(c, more, s, id, agent, asked, InFlight, n, most);
    more := Then(more, Proceed(id));
  }

  function Sum(costs: seq<real>): real {
    if costs == [] then 0.0 else Sum(costs[..|costs| - 1]) + costs[|costs| - 1]
  }

  /** Every row so far belongs to an admitted call of the agent and was written now. */
  ghost predicate AllGatedNow(s: State, agent: Agent) {
    forall i :: 0 <= i < |s.rows| ==> s.rows[i].agent == agent && s.rows[i].gated && s.rows[i].at == s.now
  }

  lemma {:induction false} SpendOfAll(rows: seq<Row>, f: Filter, g: Filter)
    requires forall i :: 0 <= i < |rows| ==> Selects(f, rows[i]) && Selects(g, rows[i])
    ensures Spend(rows, f) == Spend(rows, g)
  {
    if rows != [] {
      SpendOfAll(rows[..|rows| - 1], f, g);
    }
  }

  function Now(s: State, agent: Agent): Filter {
    Filter(agent, s.now, None, true)
  }

  /** The state of a run in which every call so far has used ids below `ids` and spent `spent`. */
  ghost predicate Stage(s: State, now: int, agent: Agent, ids: nat, spent: real) {
    && s.now == now && s.flags == map[]
    && (forall id :: id in s.calls ==> id < ids)
    && AllGatedNow(s, agent)
    && Spend(s.rows, Now(s, agent)) == spent
  }

  lemma FinishOne(c: Config, run: Run, s: State, id: nat, now: int, agent: Agent, ids: nat, spent: real,
                  n: nat, most: real, cost: real) returns (more: Run, s': State)
    requires Bounded(c, run, agent, n, most) && Exec(c, run) == Some(s) && CapFor(c, agent).Some?
    requires Stage(s, now, agent, ids, spent)
    requires id in InFlightOf(s, agent) && 0.0 <= cost <= most
    ensures Bounded(c, more, agent, n, most) && Exec(c, more) == Some(s')
    ensures Stage(s', now, agent, ids, spent + cost)
    ensures InFlightOf(s', agent) == InFlightOf(s, agent) - {id}
    ensures |InFlightOf(s', agent)| == |InFlightOf(s, agent)| - 1
  {
    more := Then(run, Finish(id, Some(cost)));
    s' := Next(c, s, Finish(id, Some(cost))).value;
    assert InFlightOf(s', agent) == InFlightOf(s, agent) - {id};
    SpendAppend(s.rows, Row(agent, cost, s.now, true), Now(s, agent));
  }

  lemma AdmitAtStage(c: Config, run: Run, s: State, now: int, agent: Agent, cap: real, id: nat, spent: real,
                     n: nat, most: real) returns (more: Run, s': State)
    requires ValidConfig(c) && CapFor(c, agent) == Some(cap) && spent < cap
    requires Bounded(c, run, agent, n, most) && Exec(c, run) == Some(s)
    requires Stage(s, now, agent, id, spent) && |InFlightOf(s, agent)| < n
    ensures Bounded(c, more, agent, n, most) && Exec(c, more) == Some(s')
    ensures Stage(s', now, agent, id + 1, spent)
    ensures InFlightOf(s', agent) == InFlightOf(s, agent) + {id}
    ensures |InFlightOf(s', agent)| == |InFlightOf(s, agent)| + 1
  {
    SpendOfAll(s.rows, Now(s, agent), Filter(agent, s.now - c.window, None, false));
    more := Admit(c, run, s, id, agent, cap, n, most);
    s' := At(s, id, agent, InFlight);
    InFlightAt(s, id, agent, InFlight);
  }

  /** One call after the other, while the total stays below the cap. */
  lemma {:induction false} SpendInTurn(c: Config, now: int, agent: Agent, cap: real, n: nat, most: real,
                                       costs: seq<real>)
    returns (run: Run, s: State)
    requires ValidConfig(c) && CapFor(c, agent) == Some(cap) && n >= 1
    requires forall i :: 0 <= i < |costs| ==> 0.0 <= costs[i] <= most
    requires Sum(costs) < cap
    ensures Bounded(c, run, agent, n, most) && Exec(c, run) == Some(s)
    ensures Stage(s, now, agent, |costs|, Sum(costs)) && InFlightOf(s, agent) == {}
    decreases |costs|
  {
    if costs == [] {
      run, s := Start(now, map[]), Initial(now, map[]);
      assert InFlightOf(s, agent) == {};
    } else {
      var id := |costs| - 1;
      run, s := SpendInTurn(c, now, agent, cap, n, most, costs[..id]);
      run, s := AdmitAtStage(c, run, s, now, agent, cap, id, Sum(costs[..id]), n, most);
      run, s := FinishOne(c, run, s, id, now, agent, |costs|, Sum(costs[..id]), n, most, costs[id]);
    }
  }

  /** `k` calls admitted on the same total, none of them recorded yet. */
  lemma {:induction false} AdmitTogether(c: Config, start: Run, s0: State, now: int, agent: Agent, cap: real,
                                         first: nat, spent: real, n: nat, most: real, k: nat)
    returns (run: Run, s: State)
    requires ValidConfig(c) && CapFor(c, agent) == Some(cap) && k <= n && spent < cap
    requires Bounded(c, start, agent, n, most) && Exec(c, start) == Some(s0)
    requires Stage(s0, now, agent, first, spent) && InFlightOf(s0, agent) == {}
    ensures Bounded(c, run, agent, n, most) && Exec(c, run) == Some(s)
    ensures Stage(s, now, agent, first + k, spent) && |InFlightOf(s, agent)| == k
    decreases k
  {
    if k == 0 {
      run, s := start, s0;
    } else {
      run, s := AdmitTogether(c, start, s0, now, agent, cap, first, spent, n, most, k - 1);
      run, s := AdmitAtStage(c, run, s, now, agent, cap, first + k - 1, spent, n, most);
    }
  }

  lemma {:induction false} RecordAll(c: Config, start: Run, s0: State, now: int, agent: Agent,
                                     ids: nat, spent: real, n: nat, most: real, k: nat)
    returns (run: Run, s: State)
    requires CapFor(c, agent).Some? && most >= 0.0
    requires Bounded(c, start, agent, n, most) && Exec(c, start) == Some(s0)
    requires Stage(s0, now, agent, ids, spent) && |InFlightOf(s0, agent)| == k
    ensures Bounded(c, run, agent, n, most) && Exec(c, run) == Some(s)
    ensures Stage(s, now, agent, ids, spent + Scale(k, most))
    decreases k
  {
    if k == 0 {
      run, s := start, s0;
    } else {
      var id :| id in InFlightOf(s0, agent);
      run, s := FinishOne(c, start, s0, id, now, agent, ids, spent, n, most, most);
      run, s := RecordAll(c, run, s, now, agent, ids, spent + most, n, most, k - 1);
    }
  }

  lemma OvershootRun(c: Config, now: int, agent: Agent, cap: real, n: nat, most: real, costs: seq<real>)
    returns (run: Run, s: State)
    requires ValidConfig(c) && CapFor(c, agent) == Some(cap) && n >= 1 && most >= 0.0
    requires forall i :: 0 <= i < |costs| ==> 0.0 <= costs[i] <= most
    requires Sum(costs) < cap
    ensures Bounded(c, run, agent, n, most) && Exec(c, run) == Some(s)
    ensures Stage(s, now, agent, |costs| + n, Sum(costs) + Scale(n, most))
  {
    run, s := SpendInTurn(c, now, agent, cap, n, most, costs);
    run, s := AdmitTogether(c, run, s, now, agent, cap, |costs|, Sum(costs), n, most, n);
    run, s := RecordAll(c, run, s, now, agent, |costs| + n, Sum(costs), n, most, n);
  }

  /**
   The bound cannot be improved: whatever costs of at most `most` sum to less than the cap, some run
   records those in one window and `n * most` on top.
   */
  lemma OvershootIsAttained(c: Config, now: int, agent: Agent, cap: real, n: nat, most: real, costs: seq<real>)
    returns (run: Run)
    requires ValidConfig(c) && CapFor(c, agent) == Some(cap) && n >= 1 && most >= 0.0
    requires forall i :: 0 <= i < |costs| ==> 0.0 <= costs[i] <= most
    requires Sum(costs) < cap
    ensures Bounded(c, run, agent, n, most)
    ensures GatedWindow(Exec(c, run).value, agent, now, c.window) == Sum(costs) + n as real * most
  {
    var s;
    run, s := OvershootRun(c, now, agent, cap, n, most, costs);
    ScaleIsProduct(n, most);
    SpendOfAll(s.rows, Now(s, agent), Filter(agent, now, Some(now + c.window), true));
  }

  // ---- The coroutines, run without interruption ----

  /** What one uninterrupted admission check leaves behind. */
  function Checked(c: Config, s: State, agent: Agent): State {
    var cap := CapFor(c, agent);
    if cap.None? || FlagLive(s, agent) || SpendSince(s.rows, agent, s.now - c.window) < cap.value
    then s
    else SetFlag(c, s, agent)
  }

  function Walk(c: Config, s: State, id: nat, k: nat): Option<State>
    decreases k
  {
    if k == 0 then Some(s)
    else if id !in s.calls then None
    else match ProceedCall(c, s, id) case None => None case Some(s') => Walk(c, s', id, k - 1)
  }

  /** The protocol's own steps, taken in a row by a fresh call, end in `Checked`. */
  lemma CheckedIsTheProtocol(c: Config, s: State, agent: Agent, id: nat) returns (k: nat)
    requires id !in s.calls
    ensures Walk(c, Next(c, s, Begin(id, agent)).value, id, k).Some?
    ensures var cap, end := CapFor(c, agent), Walk(c, Next(c, s, Begin(id, agent)).value, id, k).value;
            var admitted := cap.None?
              || (!FlagLive(s, agent) && SpendSince(s.rows, agent, s.now - c.window) < cap.value);
            end == if admitted then At(s, id, agent, InFlight) else Checked(c, s, agent)
  {
    var cap := CapFor(c, agent);
    if cap.None? {
      k := 0;
    } else if FlagLive(s, agent) {
      k := 1;
      assert Without(At(s, id, agent, AskFlag), id) == s;
      assert Walk(c, At(s, id, agent, AskFlag), id, 1) == Walk(c, s, id, 0);
    } else {
      k := WalkThroughGate(c, s, agent, id, cap.value);
    }
  }

  lemma WalkThroughGate(c: Config, s: State, agent: Agent, id: nat, cap: real) returns (k: nat)
    requires id !in s.calls && CapFor(c, agent) == Some(cap) && !FlagLive(s, agent)
    ensures Walk(c, At(s, id, agent, AskFlag), id, k)
            == Some(if SpendSince(s.rows, agent, s.now - c.window) < cap then At(s, id, agent, InFlight)
                    else SetFlag(c, s, agent))
  {
    var s1, s2, s3 := At(s, id, agent, AskFlag), At(s, id, agent, ReadClock), At(s, id, agent, Query(s.now - c.window));
    GateMoves(c, s, id, agent, cap);
    if SpendSince(s.rows, agent, s.now - c.window) < cap {
      k := 3;
      assert Walk(c, s3, id, 1) == Walk(c, At(s, id, agent, InFlight), id, 0);
    } else {
      k := 4;
      TripMove(c, s, id, agent);
      assert Walk(c, At(s, id, agent, Trip), id, 1) == Walk(c, SetFlag(c, s, agent), id, 0);
      assert Walk(c, s3, id, 2) == Walk(c, At(s, id, agent, Trip), id, 1);
    }
    assert Walk(c, s2, id, k - 1) == Walk(c, s3, id, k - 2);
    assert Walk(c, s1, id, k) == Walk(c, s2, id, k - 1);
  }

  /** The moves of a call from its recorded row to the end of the re-check. */
  lemma RecheckMoves(c: Config, s: State, id: nat, agent: Agent, cap: real)
    requires id !in s.calls && CapFor(c, agent) == Some(cap) && !FlagLive(s, agent)
    ensures var from := s.now - c.window;
            var over := SpendSince(s.rows, agent, from) >= cap;
            && ProceedCall(c, At(s, id, agent, RecordAskFlag), id) == Some(At(s, id, agent, RecordReadClock))
            && ProceedCall(c, At(s, id, agent, RecordReadClock), id) == Some(At(s, id, agent, RecordQuery(from)))
            && ProceedCall(c, At(s, id, agent, RecordQuery(from)), id)
               == Some(if over then At(s, id, agent, RecordTrip) else s)
            && ProceedCall(c, At(s, id, agent, RecordTrip), id) == Some(SetFlag(c, s, agent))
  {
    var from := s.now - c.window;
    AtOverwrites(s, id, agent, RecordAskFlag, RecordReadClock);
    AtOverwrites(s, id, agent, RecordReadClock, RecordQuery(from));
    AtOverwrites(s, id, agent, RecordQuery(from), RecordTrip);
    assert Without(At(s, id, agent, RecordQuery(from)), id) == s;
    assert Without(SetFlag(c, At(s, id, agent, RecordTrip), agent), id) == SetFlag(c, s, agent);
  }

  /** The re-check that follows a recorded cost takes the same decision, and then the call is over. */
  lemma RecheckIsTheProtocol(c: Config, s: State, agent: Agent, id: nat) returns (k: nat)
    requires id !in s.calls && CapFor(c, agent).Some?
    ensures Walk(c, At(s, id, agent, RecordAskFlag), id, k) == Some(Checked(c, s, agent))
  {
    if FlagLive(s, agent) {
      k := 1;
      assert Without(At(s, id, agent, RecordAskFlag), id) == s;
      assert Walk(c, At(s, id, agent, RecordAskFlag), id, 1) == Walk(c, s, id, 0);
    } else {
      k := WalkThroughRecheck(c, s, agent, id, CapFor(c, agent).value);
    }
  }

  lemma WalkThroughRecheck(c: Config, s: State, agent: Agent, id: nat, cap: real) returns (k: nat)
    requires id !in s.calls && CapFor(c, agent) == Some(cap) && !FlagLive(s, agent)
    ensures Walk(c, At(s, id, agent, RecordAskFlag), id, k)
            == Some(if SpendSince(s.rows, agent, s.now - c.window) < cap then s else SetFlag(c, s, agent))
  {
    var s1, s2 := At(s, id, agent, RecordAskFlag), At(s, id, agent, RecordReadClock);
    var s3, s4 := At(s, id, agent, RecordQuery(s.now - c.window)), At(s, id, agent, RecordTrip);
    RecheckMoves(c, s, id, agent, cap);
    if SpendSince(s.rows, agent, s.now - c.window) < cap {
      k := 3;
      assert Walk(c, s3, id, 1) == Walk(c, s, id, 0);
    } else {
      k := 4;
      assert Walk(c, s4, id, 1) == Walk(c, SetFlag(c, s, agent), id, 0);
      assert Walk(c, s3, id, 2) == Walk(c, s4, id, 1);
    }
    assert Walk(c, s2, id, k - 1) == Walk(c, s3, id, k - 2);
    assert Walk(c, s1, id, k) == Walk(c, s2, id, k - 1);
  }

  // ---- Blocks are temporary ----

  /** Every flag expires within one window, and every row lies in the past. */
  ghost predicate Timely(c: Config, s: State) {
    && (forall agent :: agent in s.flags ==> s.flags[agent] <= s.now + c.window)
    && (forall i :: 0 <= i < |s.rows| ==> s.rows[i].at <= s.now)
  }

  lemma StepKeepsTimely(c: Config, s: State, step: Step)
    requires ValidConfig(c) && Timely(c, s) && Next(c, s, step).Some?
    ensures Timely(c, Next(c, s, step).value)
  {
  }

  lemma {:induction false} SpendNothing(rows: seq<Row>, f: Filter)
    requires forall i :: 0 <= i < |rows| ==> !Selects(f, rows[i])
    ensures Spend(rows, f) == 0.0
  {
    if rows != [] {
      SpendNothing(rows[..|rows| - 1], f);
    }
  }

  /**
   No block outlives its cause: from every timely state, once more than one window passes with
   nothing recorded and nothing tripped, the next call of any agent is admitted.
   */
  lemma QuietWindowReadmits(c: Config, s: State, later: int, id: nat, agent: Agent) returns (k: nat)
    requires ValidConfig(c) && Timely(c, s)
    requires later > s.now + c.window && id !in s.calls
    ensures var s' := Next(c, s, Tick(later)).value;
            Walk(c, Next(c, s', Begin(id, agent)).value, id, k) == Some(At(s', id, agent, InFlight))
  {
    var s' := s.(now := later);
    SpendNothing(s.rows, Filter(agent, later - c.window, None, false));
    k := CheckedIsTheProtocol(c, s', agent, id);
  }

  datatype Alert = Alert(agent: Agent, spend: real, cap: real, tripped: bool)

  /** What a check of `agent` in state `s` answers if `configured` is what the configuration says of it. */
  ghost predicate AnswersFor(configured: Option<real>, s: State, window: int, agent: Agent,
                             allowed: bool, spend: real, cap: real)
  {
    var blocked, spent := agent in s.flags && s.now < s.flags[agent], SpendSince(s.rows, agent, s.now - window);
    if configured.Some? && configured.value > 0.0 then
      && (allowed <==> !blocked && spent < configured.value)
      && cap == configured.value && spend == if blocked then configured.value else spent
    else
      allowed && spend == cap == 0.0
  }

  /** The flags afterwards: a block of one window if the agent has reached the cap and is not blocked yet. */
  ghost predicate TripsFor(configured: Option<real>, s: State, window: int, agent: Agent, flags: map<Agent, int>) {
    var blocked, spent := agent in s.flags && s.now < s.flags[agent], SpendSince(s.rows, agent, s.now - window);
    flags == if configured.Some? && configured.value > 0.0 && !blocked && spent >= configured.value
             then s.flags[agent := s.now + window] else s.flags
  }

  class CostGovernor {
    const config: Config
    const alertThreshold: Option<real>
    var now: int
    var rows: seq<Row>
    var flags: map<Agent, int>
    var alerts: seq<Alert>

    constructor (config: Config, alertThreshold: Option<real>, now: int)
      ensures this.config == config && this.alertThreshold == alertThreshold
      ensures View() == Initial(now, map[]) && alerts == []
    {
      this.config, this.alertThreshold, this.now := config, alertThreshold, now;
      rows, flags, alerts := [], map[], [];
    }

    ghost function View(): State
      reads this
    {
      State(now, rows, flags, map[])
    }

    method IsAllowed(agent: Agent) returns (allowed: bool, spend: real, cap: real)
      modifies `flags, `alerts
      ensures View() == Checked(config, old(View()), agent)
      ensures agent in config.caps ==>
                && AnswersFor(config.caps[agent], old(View()), config.window, agent, allowed, spend, cap)
                && TripsFor(config.caps[agent], old(View()), config.window, agent, flags)
      ensures agent !in config.caps ==>
                && AnswersFor(config.defaultCap, old(View()), config.window, agent, allowed, spend, cap)
                && TripsFor(config.defaultCap, old(View()), config.window, agent, flags)
      ensures alerts == if allowed || FlagLive(old(View()), agent) then old(alerts)
                        else old(alerts) + [Alert(agent, spend, cap, true)]
    {
      var configured := CapFor(config, agent);
      if configured.None? {
        return true, 0.0, 0.0;
      }
      cap := configured.value;
      if agent in flags && now < flags[agent] {
        return false, cap, cap;
      }
      var since := now - config.window;
      spend := SpendSince(rows, agent, since);
      if spend >= cap {
        TripFlag(agent, spend, cap);
        return false, spend, cap;
      }
      allowed := true;
    }

    method RecordAndCheck(agent: Agent)
      modifies `flags, `alerts
      ensures View() == Checked(config, old(View()), agent)
      ensures agent in config.caps ==> TripsFor(config.caps[agent], old(View()), config.window, agent, flags)
      ensures agent !in config.caps ==> TripsFor(config.defaultCap, old(View()), config.window, agent, flags)
      ensures var cap, spend := CapFor(config, agent), SpendSince(rows, agent, now - config.window);
              alerts == if cap.None? || FlagLive(old(View()), agent) then old(alerts)
                        else if spend >= cap.value then old(alerts) + [Alert(agent, spend, cap.value, true)]
                        else if alertThreshold.Some? && alertThreshold.value > 0.0
                          && spend / cap.value >= alertThreshold.value
                        then old(alerts) + [Alert(agent, spend, cap.value, false)]
                        else old(alerts)
    {
      var configured := CapFor(config, agent);
      if configured.None? {
        return;
      }
      var cap := configured.value;
      if agent in flags && now < flags[agent] {
        return;
      }
      var since := now - config.window;
      var spend := SpendSince(rows, agent, since);
      if spend >= cap {
        TripFlag(agent, spend, cap);
        return;
      }
      if alertThreshold.Some? && alertThreshold.value > 0.0 && spend / cap >= alertThreshold.value {
        alerts := alerts + [Alert(agent, spend, cap, false)];
      }
    }

    method ResetFlag(agent: Agent)
      modifies `flags
      ensures View() == Next(config, old(View()), Reset(agent)).value
      ensures agent !in flags && forall other :: other != agent ==>
                (other in flags <==> other in old(flags)) && (other in flags ==> flags[other] == old(flags)[other])
    {
      flags := flags - {agent};
    }

    method TripFlag(agent: Agent, spend: real, cap: real)
      modifies `flags, `alerts
      ensures View() == SetFlag(config, old(View()), agent)
      ensures alerts == old(alerts) + [Alert(agent, spend, cap, true)]
    {
      flags := flags[agent := now + config.window];
      alerts := alerts + [Alert(agent, spend, cap, true)];
    }
  }
}
