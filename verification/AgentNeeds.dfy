/** Decaying needs with two thresholds each, and events that fire once per crossing. */
module AgentNeeds {
  import opened Wrappers

  type Agent = string

  datatype Need = Hunger | Sleep | Energy | Safety | Social

  datatype Config = Config(decay: real, critical: real, warning: Option<real>)

  datatype Kind = Critical | Warning

  datatype Event = Event(agent: Agent, need: Need, kind: Kind, value: real, threshold: real)

  /** One need: its value and whether its thresholds are known to be passed. */
  datatype Cell = Cell(value: real, belowCritical: bool, belowWarning: bool)

  function Clamp(value: real): real {
    if value < 0.0 then 0.0 else if value > 100.0 then 100.0 else value
  }

  predicate InRange(c: Cell) {
    0.0 <= c.value <= 100.0
  }

  function Decayed(cfg: Config, c: Cell, ticks: nat): Cell {
    if cfg.decay <= 0.0 then c else c.(value := Clamp(c.value - cfg.decay * ticks as real))
  }

  /** The threshold test on a need: its flags afterwards and the event, if any. */
  function Tested(cfg: Config, c: Cell): (Cell, Option<Kind>) {
    if c.value <= cfg.critical && !c.belowCritical then (c.(belowCritical := true), Some(Critical))
    else if cfg.warning.Some? && c.value <= cfg.warning.value && !c.belowWarning && !c.belowCritical then
      (c.(belowWarning := true), Some(Warning))
    else (c, None)
  }

  function Ticked(cfg: Config, c: Cell, ticks: nat): (Cell, Option<Kind>) {
    Tested(cfg, Decayed(cfg, c, ticks))
  }

  /** An action's effect; a value strictly above a threshold clears its flag. */
  function Affected(cfg: Option<Config>, c: Cell, delta: real): Cell {
    var value := Clamp(c.value + delta);
    if cfg.None? then c.(value := value)
    else Cell(value, c.belowCritical && !(value > cfg.value.critical),
              c.belowWarning && !(cfg.value.warning.Some? && value > cfg.value.warning.value))
  }

  /** `ticks` lower a need by the rate for each of them, down to zero and no further; flags stay. */
  lemma DecayIsLinear(cfg: Config, c: Cell, ticks: nat)
    requires InRange(c)
    ensures var after := Decayed(cfg, c, ticks);
            && after == c.(value := after.value)
            && (cfg.decay > 0.0 && c.value >= cfg.decay * ticks as real ==>
                  after.value == c.value - cfg.decay * ticks as real)
            && (cfg.decay > 0.0 && c.value < cfg.decay * ticks as real ==> after.value == 0.0)
            && (cfg.decay <= 0.0 ==> after == c)
  {
    if cfg.decay > 0.0 {
      DecayAdds(cfg.decay, ticks, 0);
    }
  }

  /** An effect moves the value by `delta` within the range; a flag stays unless the value is above its threshold. */
  lemma EffectSays(cfg: Option<Config>, c: Cell, delta: real)
    ensures var after := Affected(cfg, c, delta);
            && (0.0 <= c.value + delta <= 100.0 ==> after.value == c.value + delta)
            && (c.value + delta < 0.0 ==> after.value == 0.0) && (c.value + delta > 100.0 ==> after.value == 100.0)
            && (cfg.None? ==> after == c.(value := after.value))
            && (cfg.Some? ==>
                  && after.belowCritical == (c.belowCritical && after.value <= cfg.value.critical)
                  && after.belowWarning
                     == (c.belowWarning && (cfg.value.warning.Some? ==> after.value <= cfg.value.warning.value)))
  {
  }

  // ---- Ticking in parts ----

  lemma DecayAdds(d: real, m: nat, n: nat)
    requires d >= 0.0
    ensures d * (m + n) as real == d * m as real + d * n as real
    ensures d * m as real >= 0.0 && d * n as real >= 0.0
  {
  }

  lemma DecaysCompose(cfg: Config, c: Cell, m: nat, n: nat)
    requires InRange(c)
    ensures Decayed(cfg, c, m + n).value == Decayed(cfg, Decayed(cfg, c, m), n).value
    ensures Decayed(cfg, c, m + n).value <= Decayed(cfg, c, m).value <= c.value
  {
    if cfg.decay > 0.0 {
      DecayAdds(cfg.decay, m, n);
    }
  }

  function Fires(e: Option<Kind>, kind: Kind): nat {
    if e == Some(kind) then 1 else 0
  }

  /** The need is unflagged, passes only its warning line in `m` ticks, and its critical one in `n` more. */
  predicate PassesBothLines(cfg: Config, c: Cell, m: nat, n: nat) {
    && !c.belowCritical && !c.belowWarning && cfg.warning.Some?
    && cfg.critical < Decayed(cfg, c, m).value <= cfg.warning.value
    && Decayed(cfg, c, m + n).value <= cfg.critical
  }

  /**
   Ticking m and then n is ticking m + n: the same value, critical flag and number of critical events.
   The warning events differ exactly when the two lines are passed one after the other.
   */
  lemma TicksCompose(cfg: Config, c: Cell, m: nat, n: nat)
    requires InRange(c)
    ensures var (first, e1) := Ticked(cfg, c, m);
            var (second, e2) := Ticked(cfg, first, n);
            var (whole, e) := Ticked(cfg, c, m + n);
            && second.value == whole.value && second.belowCritical == whole.belowCritical
            && Fires(e1, Critical) + Fires(e2, Critical) == Fires(e, Critical)
            && (Fires(e1, Warning) + Fires(e2, Warning) != Fires(e, Warning) <==> PassesBothLines(cfg, c, m, n))
  {
    DecaysCompose(cfg, c, m, n);
    DecaysCompose(cfg, Ticked(cfg, c, m).0, n, 0);
  }

  /** Such a pair of ticks: down through the warning line, then through the critical one. */
  lemma WarningCanBeSkipped()
    ensures var cfg := Config(10.0, 25.0, Some(50.0));
            var c := Cell(60.0, false, false);
            var (first, e1) := Ticked(cfg, c, 1);
            && e1 == Some(Warning) && Ticked(cfg, first, 3).1 == Some(Critical) && Ticked(cfg, c, 4).1 == Some(Critical)
  {
  }

  /** Coming back from critical into the warning band can fire a warning, on the way up. */
  lemma RecoveryCanWarn()
    ensures var cfg := Config(0.0, 25.0, Some(50.0));
            var (low, e1) := Ticked(cfg, Cell(20.0, false, false), 1);
            e1 == Some(Critical) && Ticked(cfg, Affected(Some(cfg), low, 10.0), 1).1 == Some(Warning)
  {
  }

  // ---- When a warning is no downward crossing ----

  /** What a row of effects makes of a need. */
  function AfterEffects(cfg: Config, c: Cell, deltas: seq<real>): Cell {
    if deltas == [] then c
    else Affected(Some(cfg), AfterEffects(cfg, c, deltas[..|deltas| - 1]), deltas[|deltas| - 1])
  }

  /** The need is never above `line`, at first or after any of the effects. */
  predicate StaysUnder(cfg: Config, c: Cell, deltas: seq<real>, line: real) {
    && AfterEffects(cfg, c, deltas).value <= line
    && (deltas == [] || StaysUnder(cfg, c, deltas[..|deltas| - 1], line))
  }

  /** Effects that do not lift a need above its warning line keep its warning flag, and can only clear the other. */
  lemma {:induction false} FlagsUnder(cfg: Config, c: Cell, deltas: seq<real>)
    requires cfg.warning.Some? && StaysUnder(cfg, c, deltas, cfg.warning.value) && InRange(c)
    requires c.belowCritical ==> c.value <= cfg.critical
    ensures var c' := AfterEffects(cfg, c, deltas);
            && InRange(c') && c'.value <= cfg.warning.value && c'.belowWarning == c.belowWarning
            && (c'.belowCritical ==> c.belowCritical && c'.value <= cfg.critical)
  {
    if deltas != [] {
      FlagsUnder(cfg, c, deltas[..|deltas| - 1]);
    }
  }

  lemma {:induction false} StartsUnder(cfg: Config, c: Cell, deltas: seq<real>, line: real)
    requires StaysUnder(cfg, c, deltas, line)
    ensures c.value <= line
  {
    if deltas != [] {
      StartsUnder(cfg, c, deltas[..|deltas| - 1], line);
    }
  }

  /** A need that stays under its warning line gives a warning exactly when it is not flagged and not critical. */
  lemma WarningUnderLine(cfg: Config, c: Cell, deltas: seq<real>, n: nat)
    requires cfg.warning.Some? && InRange(c) && (c.belowCritical ==> c.value <= cfg.critical)
    requires StaysUnder(cfg, c, deltas, cfg.warning.value)
    ensures var c' := AfterEffects(cfg, c, deltas);
            Ticked(cfg, c', n).1 == Some(Warning) <==> !c.belowWarning && Decayed(cfg, c', n).value > cfg.critical
  {
    FlagsUnder(cfg, c, deltas);
    DecaysCompose(cfg, AfterEffects(cfg, c, deltas), n, 0);
  }

  /**
   A need that is not lifted above its warning line between two ticks gives a warning at the second exactly
   when the first left it flagged as critical but not as warned, and it now stands above its critical
   threshold. All other warnings after a tick are downward crossings.
   */
  lemma UpwardWarningExactlyWhen(cfg: Config, c: Cell, m: nat, deltas: seq<real>, n: nat)
    requires cfg.warning.Some? && InRange(c) && (c.belowCritical ==> c.value <= cfg.critical)
    requires StaysUnder(cfg, Ticked(cfg, c, m).0, deltas, cfg.warning.value)
    ensures var first := Ticked(cfg, c, m).0;
            var c' := AfterEffects(cfg, first, deltas);
            Ticked(cfg, c', n).1 == Some(Warning)
            <==> first.belowCritical && !first.belowWarning && Decayed(cfg, c', n).value > cfg.critical
  {
    var first := Ticked(cfg, c, m).0;
    DecaysCompose(cfg, c, m, 0);
    StartsUnder(cfg, first, deltas, cfg.warning.value);
    WarningUnderLine(cfg, first, deltas, n);
  }

  const FULL := Cell(100.0, false, false)

  /** Effects leave a full need in range and unflagged, and so under any line from 100 up. */
  lemma {:induction false} FullStays(cfg: Config, deltas: seq<real>, line: real)
    ensures var c := AfterEffects(cfg, FULL, deltas); InRange(c) && !c.belowCritical && !c.belowWarning
    ensures line >= 100.0 ==> StaysUnder(cfg, FULL, deltas, line)
  {
    if deltas != [] {
      FullStays(cfg, deltas[..|deltas| - 1], line);
    }
  }

  /**
   Before the first tick a need is full. Its first tick gives an event without any crossing exactly if
   the threshold is not below 100; for a warning the need must then still stand above its critical one.
   */
  lemma FirstEventExactlyWhen(cfg: Config, deltas: seq<real>, n: nat)
    ensures var c := AfterEffects(cfg, FULL, deltas);
            && (StaysUnder(cfg, FULL, deltas, cfg.critical) && Ticked(cfg, c, n).1 == Some(Critical)
                <==> cfg.critical >= 100.0)
            && (cfg.warning.Some? ==>
                  (StaysUnder(cfg, FULL, deltas, cfg.warning.value) && Ticked(cfg, c, n).1 == Some(Warning)
                   <==> cfg.warning.value >= 100.0 && Decayed(cfg, c, n).value > cfg.critical))
  {
    var c := AfterEffects(cfg, FULL, deltas);
    FullStays(cfg, deltas, cfg.critical);
    DecaysCompose(cfg, c, n, 0);
    if StaysUnder(cfg, FULL, deltas, cfg.critical) {
      StartsUnder(cfg, FULL, deltas, cfg.critical);
    }
    if cfg.warning.Some? {
      FullStays(cfg, deltas, cfg.warning.value);
      if StaysUnder(cfg, FULL, deltas, cfg.warning.value) {
        StartsUnder(cfg, FULL, deltas, cfg.warning.value);
        WarningUnderLine(cfg, FULL, deltas, n);
      }
    }
  }

  // ---- Critical events over a run ----

  datatype Op = Tick(ticks: nat) | Effect(delta: real)

  /** A run of one need from a given cell. */
  datatype Run = Start(cell: Cell) | Then(earlier: Run, op: Op)

  function After(cfg: Config, run: Run): Cell {
    match run
    case Start(cell) => cell
    case Then(earlier, Tick(ticks)) => Ticked(cfg, After(cfg, earlier), ticks).0
    case Then(earlier, Effect(delta)) => Affected(Some(cfg), After(cfg, earlier), delta)
  }

  function First(run: Run): Cell {
    match run
    case Start(cell) => cell
    case Then(earlier, _) => First(earlier)
  }

  function CriticalEvents(cfg: Config, run: Run): nat {
    match run
    case Start(_) => 0
    case Then(earlier, Tick(ticks)) =>
      CriticalEvents(cfg, earlier) + Fires(Ticked(cfg, After(cfg, earlier), ticks).1, Critical)
    case Then(earlier, Effect(_)) => CriticalEvents(cfg, earlier)
  }

  /** Effects that lift the need strictly above its critical threshold while it is flagged. */
  function Lifts(cfg: Config, run: Run): nat {
    match run
    case Start(_) => 0
    case Then(earlier, Tick(_)) => Lifts(cfg, earlier)
    case Then(earlier, Effect(delta)) =>
      var c := After(cfg, earlier);
      Lifts(cfg, earlier) + if c.belowCritical && Clamp(c.value + delta) > cfg.critical then 1 else 0
  }

  function Count(b: bool): nat {
    if b then 1 else 0
  }

  /**
   Hysteresis: over any run the critical events are exactly as many as the lifts, corrected by the flag
   at its two ends. So between two critical events there is always a lift.
   */
  lemma {:induction false} CriticalsAreLifts(cfg: Config, run: Run)
    ensures CriticalEvents(cfg, run) + Count(First(run).belowCritical)
            == Lifts(cfg, run) + Count(After(cfg, run).belowCritical)
  {
    if run.Then? {
      CriticalsAreLifts(cfg, run.earlier);
    }
  }

  /** From a critical event on, nothing critical fires until a lift. */
  lemma NoCriticalWithoutLift(cfg: Config, c: Cell, ticks: nat, run: Run)
    requires Ticked(cfg, c, ticks).1 == Some(Critical) && First(run) == Ticked(cfg, c, ticks).0 && Lifts(cfg, run) == 0
    ensures CriticalEvents(cfg, run) == 0 && After(cfg, run).belowCritical
  {
    CriticalsAreLifts(cfg, run);
  }

  /** A flagged need is at or below its threshold, and a tick leaves every need at or below it flagged. */
  lemma {:induction false} FlagIsTrue(cfg: Config, run: Run)
    requires InRange(First(run)) && (First(run).belowCritical ==> First(run).value <= cfg.critical)
    ensures InRange(After(cfg, run)) && (After(cfg, run).belowCritical ==> After(cfg, run).value <= cfg.critical)
    ensures run.Then? && run.op.Tick? ==> (After(cfg, run).belowCritical <==> After(cfg, run).value <= cfg.critical)
  {
    if run.Then? {
      FlagIsTrue(cfg, run.earlier);
      if run.op.Tick? {
        DecaysCompose(cfg, After(cfg, run.earlier), run.op.ticks, 0);
      }
    }
  }

  // ---- The manager ----

  datatype State = State(lastTick: int, cells: map<Need, Cell>)

  /** A dictionary's items in order. */
  type Configs = seq<(Need, Config)>

  predicate IsDict(configs: Configs) {
    forall i, j :: 0 <= i < j < |configs| ==> configs[i].0 != configs[j].0
  }

  ghost predicate Complete(s: State) {
    forall need: Need :: need in s.cells && InRange(s.cells[need])
  }

  function AllFull(): map<Need, Cell> {
    map[Hunger := FULL, Sleep := FULL, Energy := FULL, Safety := FULL, Social := FULL]
  }

  lemma AllFullIsComplete()
    ensures forall need: Need :: need in AllFull() && AllFull()[need] == FULL
  {
    forall need: Need ensures need in AllFull() && AllFull()[need] == FULL {
      match need
      case Hunger =>
      case Sleep =>
      case Energy =>
      case Safety =>
      case Social =>
    }
  }

  /** An agent not met yet starts with every need full. */
  function NewState(): (s: State)
    ensures Complete(s) && s.lastTick == 0 && forall need: Need :: s.cells[need] == FULL
  {
    AllFullIsComplete();
    State(0, AllFull())
  }

  function ConfigOf(configs: Configs, need: Need): Option<Config> {
    if configs == [] then None else if configs[0].0 == need then Some(configs[0].1) else ConfigOf(configs[1..], need)
  }

  lemma {:induction false} ConfigAt(configs: Configs, i: nat)
    requires IsDict(configs) && i < |configs|
    ensures ConfigOf(configs, configs[i].0) == Some(configs[i].1)
  {
    if i > 0 {
      ConfigAt(configs[1..], i - 1);
    }
  }

  /** What `ticks` do to the need of a state. */
  function TickedCell(configs: Configs, s: State, need: Need, ticks: nat): (Cell, Option<Kind>)
    requires need in s.cells
  {
    var cfg := ConfigOf(configs, need);
    if cfg.None? then (s.cells[need], None) else Ticked(cfg.value, s.cells[need], ticks)
  }

  function TickState(configs: Configs, s: State, ticks: nat): State {
    State(s.lastTick + ticks, map need | need in s.cells :: TickedCell(configs, s, need, ticks).0)
  }

  function DecayedCell(configs: Configs, cells: map<Need, Cell>, need: Need, ticks: nat): Cell
    requires need in cells
  {
    var cfg := ConfigOf(configs, need);
    if cfg.None? then cells[need] else Decayed(cfg.value, cells[need], ticks)
  }

  function DecayedCells(configs: Configs, cells: map<Need, Cell>, ticks: nat): map<Need, Cell> {
    map need | need in cells :: DecayedCell(configs, cells, need, ticks)
  }

  function TestedCell(configs: Configs, cells: map<Need, Cell>, need: Need): Cell
    requires need in cells
  {
    var cfg := ConfigOf(configs, need);
    if cfg.None? then cells[need] else Tested(cfg.value, cells[need]).0
  }

  /** The event of a threshold test, if any. */
  function EventOf(agent: Agent, need: Need, cfg: Config, c: Cell): seq<Event> {
    match Tested(cfg, c).1
    case None => []
    case Some(Critical) => [Event(agent, need, Critical, c.value, cfg.critical)]
    case Some(Warning) => [Event(agent, need, Warning, c.value, cfg.warning.value)]
  }

  /** The events of the first `n` configured needs, in order. */
  function EventsOf(configs: Configs, agent: Agent, cells: map<Need, Cell>, n: nat): seq<Event>
    requires n <= |configs| && forall i :: 0 <= i < |configs| ==> configs[i].0 in cells
  {
    if n == 0 then []
    else
      var (need, cfg) := configs[n - 1];
      EventsOf(configs, agent, cells, n - 1) + EventOf(agent, need, cfg, cells[need])
  }

  /** The events of a configured need come after those of the needs configured before it. */
  lemma {:induction false} EventsInOrder(configs: Configs, agent: Agent, cells: map<Need, Cell>, n: nat, i: nat)
    requires i < n <= |configs| && forall k :: 0 <= k < |configs| ==> configs[k].0 in cells
    ensures EventsOf(configs, agent, cells, i) + EventOf(agent, configs[i].0, configs[i].1, cells[configs[i].0])
            <= EventsOf(configs, agent, cells, n)
    decreases n
  {
    if i < n - 1 {
      EventsInOrder(configs, agent, cells, n - 1, i);
    }
  }

  /** The events of a tick: at most one for each configured need. */
  function TickEvents(configs: Configs, agent: Agent, s: State, ticks: nat): seq<Event>
    requires Complete(s)
  {
    EventsOf(configs, agent, DecayedCells(configs, s.cells, ticks), |configs|)
  }

  /** Ticking an agent m and then n is ticking it m + n, in every need. */
  lemma StateTicksCompose(configs: Configs, s: State, m: nat, n: nat)
    requires Complete(s)
    ensures var twice, once := TickState(configs, TickState(configs, s, m), n), TickState(configs, s, m + n);
            && twice.lastTick == once.lastTick && twice.cells.Keys == once.cells.Keys
            && forall need :: need in s.cells ==>
                 && twice.cells[need].value == once.cells[need].value
                 && twice.cells[need].belowCritical == once.cells[need].belowCritical
                 && Fires(TickedCell(configs, s, need, m).1, Critical)
                    + Fires(TickedCell(configs, TickState(configs, s, m), need, n).1, Critical)
                    == Fires(TickedCell(configs, s, need, m + n).1, Critical)
  {
    forall need | need in s.cells
      ensures var twice, once := TickState(configs, TickState(configs, s, m), n), TickState(configs, s, m + n);
              && twice.cells[need].value == once.cells[need].value
              && twice.cells[need].belowCritical == once.cells[need].belowCritical
              && Fires(TickedCell(configs, s, need, m).1, Critical)
                 + Fires(TickedCell(configs, TickState(configs, s, m), need, n).1, Critical)
                 == Fires(TickedCell(configs, s, need, m + n).1, Critical)
    {
      var cfg := ConfigOf(configs, need);
      if cfg.Some? {
        TicksCompose(cfg.value, s.cells[need], m, n);
      }
    }
  }

  /** The need is among the first `n` configured. */
  predicate Done(configs: Configs, n: nat, need: Need)
    requires n <= |configs|
  {
    n > 0 && (configs[n - 1].0 == need || Done(configs, n - 1, need))
  }

  lemma {:induction false} DoneIs(configs: Configs, n: nat, need: Need)
    requires n <= |configs|
    ensures Done(configs, n, need) <==> exists k :: 0 <= k < n && configs[k].0 == need
  {
    if n > 0 {
      DoneIs(configs, n - 1, need);
      assert configs[n - 1].0 == need ==> 0 <= n - 1 < n && configs[n - 1].0 == need;
    }
  }

  /** All configured needs are done exactly if they have a configuration. */
  lemma AllDone(configs: Configs, need: Need)
    ensures Done(configs, |configs|, need) <==> ConfigOf(configs, need).Some?
  {
    DoneIs(configs, |configs|, need);
    ConfigWhere(configs, need);
  }

  /** A need not done yet is none of those before. */
  lemma NotDoneYet(configs: Configs, i: nat)
    requires IsDict(configs) && i < |configs|
    ensures !Done(configs, i, configs[i].0)
  {
    DoneIs(configs, i, configs[i].0);
  }

  ghost predicate AllComplete(states: map<Agent, State>) {
    forall a :: a in states ==> Complete(states[a])
  }

  /** An agent's state; one not met yet starts full. */
  function StateIn(states: map<Agent, State>, agent: Agent): (s: State)
    requires AllComplete(states)
    ensures Complete(s)
  {
    if agent in states then states[agent] else NewState()
  }

  lemma TickKeepsComplete(configs: Configs, s: State, ticks: nat)
    requires Complete(s)
    ensures Complete(TickState(configs, s, ticks))
  {
    forall need: Need ensures InRange(TickedCell(configs, s, need, ticks).0) {
      var cfg := ConfigOf(configs, need);
    }
  }

  /** Ticking agents one after the other. */
  function TickedAll(configs: Configs, states: map<Agent, State>, agents: seq<Agent>, ticks: nat)
    : (r: (map<Agent, State>, seq<Event>))
    requires AllComplete(states)
    ensures AllComplete(r.0)
  {
    if agents == [] || ticks == 0 then (states, [])
    else
      var (before, events) := TickedAll(configs, states, agents[..|agents| - 1], ticks);
      var agent := agents[|agents| - 1];
      var s := StateIn(before, agent);
      TickKeepsComplete(configs, s, ticks);
      (before[agent := TickState(configs, s, ticks)], events + TickEvents(configs, agent, s, ticks))
  }

  lemma TickedAllStep(configs: Configs, states: map<Agent, State>, agents: seq<Agent>, ticks: nat, i: nat,
                      before: map<Agent, State>, events: seq<Event>)
    requires AllComplete(states) && i < |agents| && TickedAll(configs, states, agents[..i], ticks) == (before, events)
    ensures AllComplete(before)
    ensures TickedAll(configs, states, agents[..i + 1], ticks)
            == if ticks == 0 then (before, events)
               else (before[agents[i] := TickState(configs, StateIn(before, agents[i]), ticks)],
                     events + TickEvents(configs, agents[i], StateIn(before, agents[i]), ticks))
  {
    var upTo := agents[..i + 1];
    assert upTo[..|upTo| - 1] == agents[..i] && upTo[|upTo| - 1] == agents[i];
  }

  /** An agent that is not listed keeps its state. */
  lemma {:induction false} OthersStay(configs: Configs, states: map<Agent, State>, agents: seq<Agent>, ticks: nat,
                                      a: Agent)
    requires AllComplete(states) && a !in agents
    ensures var after := TickedAll(configs, states, agents, ticks).0;
            (a in after <==> a in states) && (a in states ==> after[a] == states[a])
  {
    if agents != [] && ticks > 0 {
      OthersStay(configs, states, agents[..|agents| - 1], ticks, a);
    }
  }

  /** An agent listed once is ticked once, from its own state, whoever is listed beside it. */
  lemma {:induction false} ListedIsTicked(configs: Configs, states: map<Agent, State>, agents: seq<Agent>,
                                          ticks: nat, i: nat)
    requires AllComplete(states) && ticks > 0 && i < |agents|
    requires forall j, k :: 0 <= j < k < |agents| ==> agents[j] != agents[k]
    ensures var after := TickedAll(configs, states, agents, ticks).0;
            agents[i] in after && after[agents[i]] == TickState(configs, StateIn(states, agents[i]), ticks)
    decreases |agents|
  {
    var last := |agents| - 1;
    if i == last {
      OthersStay(configs, states, agents[..last], ticks, agents[last]);
    } else {
      ListedIsTicked(configs, states, agents[..last], ticks, i);
    }
  }

  class NeedsManager {
    const configs: Configs
    var states: map<Agent, State>

    constructor (configs: Configs)
      requires IsDict(configs)
      ensures this.configs == configs && states == map[] && Valid()
    {
      this.configs, states := configs, map[];
    }

    ghost predicate Valid()
      reads this
    {
      IsDict(configs) && AllComplete(states)
    }

    function StateOf(agent: Agent): (s: State)
      reads this
      requires Valid()
      ensures Complete(s)
    {
      StateIn(states, agent)
    }

    method Tick(agent: Agent, ticks: int) returns (events: seq<Event>)
      requires Valid()
      modifies this
      ensures Valid()
      ensures ticks <= 0 ==> events == [] && states == old(states)
      ensures ticks > 0 ==> states == old(states)[agent := TickState(configs, old(StateOf(agent)), ticks)]
      ensures ticks > 0 ==> events == TickEvents(configs, agent, old(StateOf(agent)), ticks)
      ensures ticks > 0 ==>
                states[agent].lastTick == (if agent in old(states) then old(states)[agent].lastTick else 0) + ticks
    {
      if ticks <= 0 {
        return [];
      }
      var s := StateOf(agent);
      var decayed := Decay(s.cells, ticks);
      var cells;
      cells, events := ThresholdEvents(agent, decayed);
      assert decayed == DecayedCells(configs, s.cells, ticks);
      assert cells == TickState(configs, s, ticks).cells;
      TickKeepsComplete(configs, s, ticks);
      states := states[agent := State(s.lastTick + ticks, cells)];
    }

    method TickAll(agents: seq<Agent>, ticks: int) returns (events: seq<Event>)
      requires Valid()
      modifies this
      ensures Valid()
      ensures (states, events) == TickedAll(configs, old(states), agents, if ticks <= 0 then 0 else ticks)
    {
      events := [];
      var i := 0;
      ghost var start, n: nat := states, if ticks <= 0 then 0 else ticks;
      while i < |agents|
        invariant 0 <= i <= |agents| && Valid()
        invariant TickedAll(configs, start, agents[..i], n) == (states, events)
      {
        ghost var before := states;
        var more := Tick(agents[i], ticks);
        TickedAllStep(configs, start, agents, n, i, before, events);
        assert ticks <= 0 ==> events + more == events;
        events := events + more;
        i := i + 1;
      }
      assert agents[..i] == agents;
    }

    /** The decay loop of `tick`. */
    method Decay(start: map<Need, Cell>, ticks: nat) returns (cells: map<Need, Cell>)
      requires IsDict(configs) && forall need: Need :: need in start
      ensures forall need: Need :: need in cells && cells[need] == DecayedCell(configs, start, need, ticks)
    {
      cells := start;
      var i := 0;
      while i < |configs|
        invariant 0 <= i <= |configs|
        invariant forall need: Need :: need in cells
        invariant forall need: Need ::
                    cells[need] == if Done(configs, i, need) then DecayedCell(configs, start, need, ticks)
                      else start[need]
      {
        var (need, cfg) := configs[i];
        ConfigAt(configs, i);
        NotDoneYet(configs, i);
        if cfg.decay > 0.0 {
          cells := cells[need := cells[need].(value := Clamp(cells[need].value - cfg.decay * ticks as real))];
        }
        i := i + 1;
      }
      forall need: Need ensures cells[need] == DecayedCell(configs, start, need, ticks) {
        AllDone(configs, need);
      }
    }

    /** The threshold loop of `tick`. */
    method ThresholdEvents(agent: Agent, start: map<Need, Cell>) returns (cells: map<Need, Cell>, events: seq<Event>)
      requires IsDict(configs) && forall need: Need :: need in start
      ensures forall need: Need :: need in cells && cells[need] == TestedCell(configs, start, need)
      ensures events == EventsOf(configs, agent, start, |configs|)
    {
      cells, events := start, [];
      var i := 0;
      while i < |configs|
        invariant 0 <= i <= |configs|
        invariant forall need: Need :: need in cells
        invariant forall need: Need ::
                    cells[need] == if Done(configs, i, need) then TestedCell(configs, start, need) else start[need]
        invariant events == EventsOf(configs, agent, start, i)
      {
        var (need, cfg) := configs[i];
        ConfigAt(configs, i);
        NotDoneYet(configs, i);
        var c, fired := TestThresholds(agent, need, cfg, cells[need]);
        cells, events := cells[need := c], events + fired;
        i := i + 1;
      }
      forall need: Need ensures cells[need] == TestedCell(configs, start, need) {
        AllDone(configs, need);
      }
    }

    /** The body of the threshold loop. */
    method TestThresholds(agent: Agent, need: Need, cfg: Config, c: Cell) returns (after: Cell, events: seq<Event>)
      ensures after == Tested(cfg, c).0 && events == EventOf(agent, need, cfg, c)
      ensures c.value <= cfg.critical && !c.belowCritical ==>
                && after == Cell(c.value, true, c.belowWarning)
                && events == [Event(agent, need, Critical, c.value, cfg.critical)]
      ensures var warned := cfg.warning.Some? && c.value <= cfg.warning.value && !c.belowWarning && !c.belowCritical;
              c.value > cfg.critical || c.belowCritical ==>
                && after == Cell(c.value, c.belowCritical, c.belowWarning || warned)
                && events == if warned then [Event(agent, need, Warning, c.value, cfg.warning.value)] else []
    {
      after, events := c, [];
      if c.value <= cfg.critical && !c.belowCritical {
        after := c.(belowCritical := true);
        events := [Event(agent, need, Critical, c.value, cfg.critical)];
      } else if cfg.warning.Some? && c.value <= cfg.warning.value && !c.belowWarning && !c.belowCritical {
        after := c.(belowWarning := true);
        events := [Event(agent, need, Warning, c.value, cfg.warning.value)];
      }
    }

    method ApplyEffect(agent: Agent, need: Need, delta: real)
      requires Valid()
      modifies this
      ensures Valid()
      ensures var s := old(StateOf(agent));
              var changed := Affected(ConfigOf(configs, need), s.cells[need], delta);
              states == old(states)[agent := s.(cells := s.cells[need := changed])]
    {
      var s := StateOf(agent);
      var c := s.cells[need].(value := Clamp(s.cells[need].value + delta));
      var cfg := ConfigOf(configs, need);
      if cfg.Some? {
        if c.value > cfg.value.critical {
          c := c.(belowCritical := false);
        }
        if cfg.value.warning.Some? && c.value > cfg.value.warning.value {
          c := c.(belowWarning := false);
        }
      }
      states := states[agent := s.(cells := s.cells[need := c])];
    }
  }

  lemma {:induction false} ConfigWhere(configs: Configs, need: Need)
    ensures ConfigOf(configs, need).Some? ==>
              exists k :: 0 <= k < |configs| && configs[k] == (need, ConfigOf(configs, need).value)
    ensures ConfigOf(configs, need).None? ==> forall k :: 0 <= k < |configs| ==> configs[k].0 != need
  {
    if configs != [] && configs[0].0 != need {
      ConfigWhere(configs[1..], need);
      if ConfigOf(configs, need).Some? {
        var k :| 0 <= k < |configs[1..]| && configs[1..][k] == (need, ConfigOf(configs, need).value);
        assert configs[k + 1] == (need, ConfigOf(configs, need).value);
      }
    } else if configs != [] {
      assert configs[0] == (need, configs[0].1);
    }
  }
}
