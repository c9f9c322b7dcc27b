/**
 When a cycle report is right: how a chase of model references can go on for ever. What matters is not
 only which reference is met but, for the two that speak of the asking agent's own models, who asks.
 */
module ModelCycles {
  import opened Wrappers
  import opened PyText
  import opened ReferenceChase
  import opened ModelConfig

  /** A reference as it was met; `asker` is only kept for a reference to the asking agent's own models. */
  datatype Mark = Mark(ref: string, asker: Option<string>)

  function MarkOf(ref: string, wanted: Wanted, asker: Option<string>): Mark {
    Mark(ref, if wanted.OwnTier? then asker else None)
  }

  /** The resolver's moves, with the marks of the references met. */
  function MarkedMove(rules: Rules, goal: Goal): Move<Goal, Answer, Mark> {
    match MoveOf(rules, goal)
    case Done(answer) => Done(answer)
    case Then(next, None) => Then(next, None)
    case Then(next, Some(_)) => Then(next, if next.Ask? then Some(MarkOf(next.ref, next.wanted, next.asker)) else None)
  }

  function MarkedMoves(rules: Rules): Goal -> Move<Goal, Answer, Mark> {
    goal => MarkedMove(rules, goal)
  }

  function RefsOf(marks: seq<Mark>): (refs: seq<string>)
    ensures |refs| == |marks| && forall i :: 0 <= i < |marks| ==> refs[i] == marks[i].ref
  {
    seq(|marks|, i requires 0 <= i < |marks| => marks[i].ref)
  }

  lemma MarkedMoveIs(rules: Rules, goal: Goal)
    ensures MarkedMoves(rules)(goal).Then? <==> MoveOf(rules, goal).Then?
    ensures MarkedMoves(rules)(goal).Done? ==> MarkedMoves(rules)(goal).answer == MoveOf(rules, goal).answer
    ensures MarkedMoves(rules)(goal).Then? ==>
              && MarkedMoves(rules)(goal).goal == MoveOf(rules, goal).goal
              && MoveOf(rules, goal).met
                 == if MarkedMoves(rules)(goal).met.None? then None else Some(MarkedMoves(rules)(goal).met.value.ref)
  {
  }

  /** Marking changes neither the answers nor the references. */
  lemma {:induction false} MarkingChangesNothing(rules: Rules, goal: Goal, n: nat)
    ensures Chase(MarkedMoves(rules), goal, n).0 == Chase(Moves(rules), goal, n).0
    ensures RefsOf(Chase(MarkedMoves(rules), goal, n).1) == Chase(Moves(rules), goal, n).1
    decreases n
  {
    if n > 0 {
      MarkedMoveIs(rules, goal);
      if MoveOf(rules, goal).Then? {
        MarkingChangesNothing(rules, MoveOf(rules, goal).goal, n - 1);
      }
    }
  }

  // ---- The finitely many marks of an environment ----

  function RefIn(rules: Rules, value: string): set<string> {
    if rules.parse(value).Reference? then {rules.parse(value).ref} else {}
  }

  function RefInConfigured(rules: Rules, configured: Option<string>): set<string> {
    if configured.Some? then RefIn(rules, configured.value) else {}
  }

  /** What a goal brings along besides the environment. */
  function OwnRefs(rules: Rules, goal: Goal): set<string> {
    match goal
    case Value(value, _, _, _) => RefIn(rules, value)
    case Ask(ref, _, _, _) => {ref}
    case RoleGoal(_, configured) => RefInConfigured(rules, configured)
    case AgentGoal(_, _, configured) => RefInConfigured(rules, configured)
  }

  function OwnAskers(goal: Goal): set<Option<string>> {
    match goal
    case Value(_, agent, _, _) => {agent}
    case Ask(_, _, asker, _) => {asker}
    case RoleGoal(_, _) => {}
    case AgentGoal(id, _, _) => {Some(id)}
  }

  function AgentWanted(wanted: Wanted): Option<string> {
    if wanted.OfAgent? then Some(wanted.agent) else None
  }

  /** All references and all askers that a chase can come to, and what a reference asks for. */
  datatype Bounds = Bounds(refs: set<string>, askers: set<Option<string>>, wants: string -> Wanted)

  function BoundsFor(rules: Rules, wants: string -> Wanted, goal: Goal): Bounds {
    var refs := rules.known + OwnRefs(rules, goal);
    Bounds(refs, (set ref | ref in refs :: AgentWanted(wants(ref))) + OwnAskers(goal) + {None}, wants)
  }

  predicate Within(rules: Rules, b: Bounds, value: string) {
    rules.parse(value).Reference? ==> rules.parse(value).ref in b.refs
  }

  predicate ConfiguredWithin(rules: Rules, b: Bounds, configured: Option<string>) {
    configured.Some? ==> Within(rules, b, configured.value)
  }

  /** The goal speaks of those only, and reads its reference as the text says. */
  predicate Inside(rules: Rules, b: Bounds, goal: Goal) {
    match goal
    case Value(value, agent, _, _) => Within(rules, b, value) && agent in b.askers
    case Ask(ref, wanted, asker, _) => ref in b.refs && asker in b.askers && wanted == b.wants(ref)
    case RoleGoal(_, configured) => ConfiguredWithin(rules, b, configured)
    case AgentGoal(id, _, configured) => Some(id) in b.askers && ConfiguredWithin(rules, b, configured)
  }

  function InsideOf(rules: Rules, b: Bounds): Goal -> bool {
    goal => Inside(rules, b, goal)
  }

  /** What a reference asks for is in its text, and never the asker's model of its own tier. */
  ghost predicate Textual(rules: Rules, wants: string -> Wanted) {
    && (forall value :: rules.parse(value).Reference? ==> rules.parse(value).wanted == wants(rules.parse(value).ref))
    && (forall ref :: wants(ref) != OwnAgent)
  }

  /** Bounds that hold everything the environment can add. */
  ghost predicate Covers(rules: Rules, b: Bounds) {
    && Valid(rules) && Textual(rules, b.wants) && rules.known <= b.refs && None in b.askers
    && forall ref :: ref in b.refs ==> AgentWanted(b.wants(ref)) in b.askers
  }

  lemma BoundsCover(rules: Rules, wants: string -> Wanted, goal: Goal)
    requires Valid(rules) && Textual(rules, wants) && !goal.Ask?
    ensures Covers(rules, BoundsFor(rules, wants, goal)) && Inside(rules, BoundsFor(rules, wants, goal), goal)
  {
    var b := BoundsFor(rules, wants, goal);
    forall ref | ref in b.refs ensures AgentWanted(wants(ref)) in b.askers {
    }
  }

  lemma ListedIsWithin(rules: Rules, b: Bounds, value: string)
    requires Covers(rules, b) && Listed(rules, value)
    ensures Within(rules, b, value)
  {
  }

  lemma AskStaysInside(rules: Rules, b: Bounds, goal: Goal)
    requires Covers(rules, b) && Inside(rules, b, goal) && goal.Ask? && MoveOf(rules, goal).Then?
    ensures Inside(rules, b, MoveOf(rules, goal).goal)
  {
    assert AgentWanted(b.wants(goal.ref)) in b.askers;
  }

  lemma LookupStaysInside(rules: Rules, b: Bounds, goal: Goal)
    requires Covers(rules, b) && Inside(rules, b, goal) && (goal.RoleGoal? || goal.AgentGoal?)
    requires MoveOf(rules, goal).Then?
    ensures Inside(rules, b, MoveOf(rules, goal).goal)
  {
    var found := if goal.RoleGoal? then rules.roleValue(goal.role) else rules.agentValue(goal.id, goal.of);
    if found.Some? {
      ListedIsWithin(rules, b, found.value);
    }
  }

  lemma StaysInside(rules: Rules, b: Bounds, goal: Goal)
    requires Covers(rules, b) && Inside(rules, b, goal) && MoveOf(rules, goal).Then?
    ensures Inside(rules, b, MoveOf(rules, goal).goal)
  {
    if goal.Ask? {
      AskStaysInside(rules, b, goal);
    } else if !goal.Value? {
      LookupStaysInside(rules, b, goal);
    }
  }

  lemma InsideIsClosed(rules: Rules, b: Bounds)
    requires Covers(rules, b)
    ensures Closed(MarkedMoves(rules), InsideOf(rules, b))
  {
    forall goal | InsideOf(rules, b)(goal) && MarkedMoves(rules)(goal).Then?
      ensures InsideOf(rules, b)(MarkedMoves(rules)(goal).goal)
    {
      MarkedMoveIs(rules, goal);
      StaysInside(rules, b, goal);
    }
  }

  lemma MarkMet(rules: Rules, goal: Goal)
    requires MarkedMoves(rules)(goal).Then? && MarkedMoves(rules)(goal).met.Some?
    ensures var next := MarkedMoves(rules)(goal).goal;
            next.Ask? && MarkedMoves(rules)(goal).met == Some(MarkOf(next.ref, next.wanted, next.asker))
  {
  }

  lemma SameMarkSameMove(rules: Rules, x: Goal, y: Goal)
    requires x.Ask? && y.Ask? && x.ref == y.ref && x.wanted == y.wanted != OwnAgent
    requires MarkOf(x.ref, x.wanted, x.asker) == MarkOf(y.ref, y.wanted, y.asker)
    ensures MarkedMove(rules, x) == MarkedMove(rules, y)
  {
  }

  /** A mark says how the chase goes on. */
  lemma MarksDetermine(rules: Rules, b: Bounds)
    requires Covers(rules, b)
    ensures Determined(MarkedMoves(rules), InsideOf(rules, b))
  {
    var moves := MarkedMoves(rules);
    InsideIsClosed(rules, b);
    forall g, h | InsideOf(rules, b)(g) && InsideOf(rules, b)(h) && SameMet(moves, g, h)
      ensures moves(moves(g).goal) == moves(moves(h).goal)
    {
      var x, y := moves(g).goal, moves(h).goal;
      MarkMet(rules, g);
      MarkMet(rules, h);
      assert InsideOf(rules, b)(x) && InsideOf(rules, b)(y);
      SameMarkSameMove(rules, x, y);
    }
  }

  // ---- Ranks ----

  function AllMarks(b: Bounds): set<Mark> {
    set ref, asker | ref in b.refs && asker in b.askers :: Mark(ref, asker)
  }

  ghost function MarksLeft(b: Bounds, seen: set<Mark>): nat {
    |AllMarks(b) - seen|
  }

  lemma FewerLeft(b: Bounds, seen: set<Mark>, mark: Mark)
    requires mark.ref in b.refs && mark.asker in b.askers && mark !in seen
    ensures MarksLeft(b, seen + {mark}) < MarksLeft(b, seen)
  {
    assert AllMarks(b) - seen == (AllMarks(b) - (seen + {mark})) + {mark};
  }

  ghost function MarkRank(rules: Rules, b: Bounds): (Goal, set<Mark>) -> (nat, nat) {
    (goal, seen) => (MarksLeft(b, seen), GoalRank(rules, goal))
  }

  lemma MarkRankIs(rules: Rules, b: Bounds, goal: Goal, seen: set<Mark>)
    ensures MarkRank(rules, b)(goal, seen) == (MarksLeft(b, seen), GoalRank(rules, goal))
  {
  }

  lemma GoalRankFalls(rules: Rules, goal: Goal)
    requires Valid(rules) && MoveOf(rules, goal).Then? && MoveOf(rules, goal).met.None?
    ensures GoalRank(rules, MoveOf(rules, goal).goal) < GoalRank(rules, goal)
  {
    GoalDescends(rules, goal, {});
    RankIs(rules, goal, {});
    RankIs(rules, MoveOf(rules, goal).goal, {});
  }

  lemma MarkRankDescends(rules: Rules, b: Bounds, goal: Goal, seen: set<Mark>)
    requires Covers(rules, b) && Inside(rules, b, goal)
    ensures Descends(MarkedMoves(rules), MarkRank(rules, b), goal, seen)
  {
    var move := MarkedMoves(rules)(goal);
    MarkedMoveIs(rules, goal);
    MarkRankIs(rules, b, goal, seen);
    if move.Then? {
      StaysInside(rules, b, goal);
      if move.met.None? {
        MarkRankIs(rules, b, move.goal, seen);
        GoalRankFalls(rules, goal);
      } else if move.met.value !in seen {
        MarkMet(rules, goal);
        MarkRankIs(rules, b, move.goal, seen + {move.met.value});
        FewerLeft(b, seen, move.met.value);
      }
    }
  }

  // ---- When a report is right ----

  /** Some reference is met twice, by the same asker if it speaks of the asker's own models. */
  ghost predicate MarkMetTwice(rules: Rules, goal: Goal) {
    exists n :: MeetsAgain(MarkedMoves(rules), goal, {}, n)
  }

  /** The plain chase never ends exactly if it meets a mark twice. */
  lemma NeverEndsExactlyWhen(rules: Rules, wants: string -> Wanted, goal: Goal)
    requires Valid(rules) && Textual(rules, wants) && !goal.Ask?
    ensures Endless(Moves(rules), goal) <==> MarkMetTwice(rules, goal)
  {
    var b := BoundsFor(rules, wants, goal);
    BoundsCover(rules, wants, goal);
    InsideIsClosed(rules, b);
    MarksDetermine(rules, b);
    forall g, seen | InsideOf(rules, b)(g) ensures Descends(MarkedMoves(rules), MarkRank(rules, b), g, seen) {
      MarkRankDescends(rules, b, g, seen);
    }
    EndlessExactlyWhen(MarkedMoves(rules), InsideOf(rules, b), MarkRank(rules, b), goal);
    forall n ensures Chase(MarkedMoves(rules), goal, n).0 == Chase(Moves(rules), goal, n).0 {
      MarkingChangesNothing(rules, goal, n);
    }
  }

  /** The resolver reports a cycle. */
  predicate Reported(rules: Rules, goal: Goal)
    requires Valid(rules)
  {
    var answer := Resolve(rules, goal, {});
    answer.Err? && answer.error.Cyclic?
  }

  lemma MarkTwiceIsRefTwice(rules: Rules, goal: Goal, n: nat)
    requires MeetsAgain(MarkedMoves(rules), goal, {}, n)
    ensures MeetsAgain(Moves(rules), goal, {}, n)
  {
    MarkingChangesNothing(rules, goal, n);
    var marks := Chase(MarkedMoves(rules), goal, n).1;
    var i, j :| 0 <= i < j < |marks| && marks[i] == marks[j];
    assert RefsOf(marks)[i] == RefsOf(marks)[j];
  }

  lemma MarkTwiceIsReported(rules: Rules, goal: Goal)
    requires Valid(rules) && MarkMetTwice(rules, goal)
    ensures Reported(rules, goal)
  {
    var n :| MeetsAgain(MarkedMoves(rules), goal, {}, n);
    MarkTwiceIsRefTwice(rules, goal, n);
    ResolutionIsExact(rules, goal, {});
  }

  function InText(): string -> Wanted {
    ref => Wants(ref)
  }

  lemma EnvironmentIsTextual(w: World)
    ensures Valid(RulesOf(w)) && Textual(RulesOf(w), InText())
  {
    RulesAreValid(w);
    forall ref ensures InText()(ref) == Wants(ref) != OwnAgent {
      BareAgentIsRejected(ref);
    }
    forall value ensures RulesOf(w).parse(value) == Parse(value) {
    }
  }

  /**
   In every environment each endless chase is reported, and a report is right exactly if a reference is
   met twice by the same asker, where the asker counts only for references to its own models.
   */
  lemma ReportIsRightExactlyWhen(w: World, goal: Goal)
    requires !goal.Ask?
    ensures Valid(RulesOf(w))
    ensures Endless(Moves(RulesOf(w)), goal) ==> Reported(RulesOf(w), goal)
    ensures Endless(Moves(RulesOf(w)), goal) <==> MarkMetTwice(RulesOf(w), goal)
  {
    EnvironmentIsTextual(w);
    NeverEndsExactlyWhen(RulesOf(w), InText(), goal);
    if MarkMetTwice(RulesOf(w), goal) {
      MarkTwiceIsReported(RulesOf(w), goal);
    }
  }

  // ---- Environments in which every report is right ----

  /** The value is no reference to the asking agent's own models. */
  predicate NamesItsOwner(parsed: Parsed) {
    parsed.Reference? ==> !parsed.wanted.OwnTier?
  }

  predicate ConfiguredNamesOwner(rules: Rules, configured: Option<string>) {
    configured.Some? ==> NamesItsOwner(rules.parse(configured.value))
  }

  predicate GoalNamesOwner(rules: Rules, goal: Goal) {
    match goal
    case Value(value, _, _, _) => NamesItsOwner(rules.parse(value))
    case Ask(_, wanted, _, _) => !wanted.OwnTier?
    case RoleGoal(_, configured) => ConfiguredNamesOwner(rules, configured)
    case AgentGoal(_, _, configured) => ConfiguredNamesOwner(rules, configured)
  }

  ghost predicate RulesNameOwners(rules: Rules) {
    && (forall role :: ConfiguredNamesOwner(rules, rules.roleValue(role)))
    && (forall a, t :: ConfiguredNamesOwner(rules, rules.agentValue(a, t)))
  }

  lemma StaysNamed(rules: Rules, goal: Goal)
    requires RulesNameOwners(rules) && GoalNamesOwner(rules, goal) && MoveOf(rules, goal).Then?
    ensures GoalNamesOwner(rules, MoveOf(rules, goal).goal)
  {
    match goal
    case RoleGoal(role, _) => assert ConfiguredNamesOwner(rules, rules.roleValue(role));
    case AgentGoal(id, tier, _) => assert ConfiguredNamesOwner(rules, rules.agentValue(id, tier));
    case _ =>
  }

  ghost predicate Nobodys(marks: seq<Mark>) {
    forall i :: 0 <= i < |marks| ==> marks[i].asker.None?
  }

  lemma {:induction false} NobodyCounts(rules: Rules, goal: Goal, n: nat)
    requires RulesNameOwners(rules) && GoalNamesOwner(rules, goal)
    ensures Nobodys(Chase(MarkedMoves(rules), goal, n).1)
    decreases n
  {
    if n > 0 && MoveOf(rules, goal).Then? {
      MarkedMoveIs(rules, goal);
      StaysNamed(rules, goal);
      NobodyCounts(rules, MoveOf(rules, goal).goal, n - 1);
      var rest := Chase(MarkedMoves(rules), MoveOf(rules, goal).goal, n - 1).1;
      var met := MarkedMoves(rules)(goal).met;
      if met.Some? {
        MarkMet(rules, goal);
        assert Chase(MarkedMoves(rules), goal, n).1 == [met.value] + rest;
        assert Nobodys([met.value] + rest);
      } else {
        assert Chase(MarkedMoves(rules), goal, n).1 == rest;
      }
    }
  }

  lemma RefTwiceIsMarkTwice(rules: Rules, goal: Goal, n: nat)
    requires RulesNameOwners(rules) && GoalNamesOwner(rules, goal) && MeetsAgain(Moves(rules), goal, {}, n)
    ensures MeetsAgain(MarkedMoves(rules), goal, {}, n)
  {
    MarkingChangesNothing(rules, goal, n);
    NobodyCounts(rules, goal, n);
    var marks := Chase(MarkedMoves(rules), goal, n).1;
    var i, j :| 0 <= i < j < |marks| && RefsOf(marks)[i] == RefsOf(marks)[j];
    assert marks[i] == marks[j];
  }

  /** No variable that is set refers to an asking agent's own models. */
  predicate AllNameOwners(w: World) {
    forall key :: key in SetVariables(w.env) ==> NamesItsOwner(Parse(SetVariables(w.env)[key]))
  }

  lemma VariablesNameOwners(w: World)
    requires AllNameOwners(w)
    ensures RulesNameOwners(RulesOf(w))
  {
    var rules, variables := RulesOf(w), SetVariables(w.env);
    forall value ensures rules.parse(value) == Parse(value) {
    }
    forall role ensures ConfiguredNamesOwner(rules, rules.roleValue(role)) {
      assert rules.roleValue(role) == FirstOf(variables, RoleKeys(w, role));
    }
    forall a, t ensures ConfiguredNamesOwner(rules, rules.agentValue(a, t)) {
      assert rules.agentValue(a, t) == FirstOf(variables, AgentKeys(a, t));
    }
  }

  /** In such an environment the resolver reports a cycle if and only if the plain chase never ends. */
  lemma ReportsAreRight(w: World, goal: Goal)
    ensures Valid(RulesOf(w))
    ensures !goal.Ask? && AllNameOwners(w) && GoalNamesOwner(RulesOf(w), goal) ==>
              (Reported(RulesOf(w), goal) <==> Endless(Moves(RulesOf(w)), goal))
  {
    RulesAreValid(w);
    if !goal.Ask? && AllNameOwners(w) && GoalNamesOwner(RulesOf(w), goal) {
      ReportIsRightExactlyWhen(w, goal);
      VariablesNameOwners(w);
      if Reported(RulesOf(w), goal) {
        ResolutionIsExact(RulesOf(w), goal, {});
        var n :| MeetsAgain(Moves(RulesOf(w)), goal, {}, n);
        RefTwiceIsMarkTwice(RulesOf(w), goal, n);
      }
    }
  }
}
