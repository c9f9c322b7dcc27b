/**
 Resolution of logical model names: `model:` references chased through the environment by three
 mutually recursive functions that carry the set of references already seen.

 What the text of a value, the environment and the tables say is collected in `Rules`; `RulesOf`
 builds it from the process environment. The resolver and everything proved about it use only that.
 */
module ModelConfig {
  import opened Wrappers
  import opened PyText
  import opened ReferenceChase

  datatype Tier = Conversation | Building

  datatype Error =
    | EmptyValue
    | EmptyReference
    | Cyclic(ref: string)
    | InvalidAgentReference
    | UnknownTier
    | NeedsAgent

  type Answer = Result<string, Error>

  /** What a reference asks for, in the order of the source's tests. */
  datatype Wanted =
    | OfAgent(agent: string, tier: Tier)
    | OwnTier(tier: Tier)
    | OwnAgent
    | OfRole(role: string)
    | Malformed(tierUnknown: bool)

  datatype Parsed = Blank | Model(text: string) | BareReference | Reference(ref: string, wanted: Wanted)

  /**
   `roleValue` and `agentValue` are the first environment candidate that is set, `roleModel` and
   `agentModel` the fallbacks; `known` holds every reference written anywhere in the environment.
   */
  datatype Rules = Rules(
    parse: string -> Parsed, normalize: string -> string,
    roleValue: string -> Option<string>, agentValue: (string, Tier) -> Option<string>,
    roleModel: string -> string, agentModel: (string, Tier) -> string,
    known: set<string>)

  /** An environment value is never blank, and its reference is known. */
  predicate Listed(rules: Rules, value: string) {
    var parsed := rules.parse(value);
    !parsed.Blank? && (parsed.Reference? ==> parsed.ref in rules.known)
  }

  ghost predicate Valid(rules: Rules) {
    && (forall role :: rules.roleValue(role).Some? ==> Listed(rules, rules.roleValue(role).value))
    && (forall a, t :: rules.agentValue(a, t).Some? ==> Listed(rules, rules.agentValue(a, t).value))
  }

  /** Known references still to be met. */
  ghost function Unseen(rules: Rules, seen: set<string>): nat {
    |rules.known - seen|
  }

  lemma SeeingHelps(rules: Rules, seen: set<string>, ref: string)
    ensures Unseen(rules, seen + {ref}) <= Unseen(rules, seen)
    ensures ref in rules.known && ref !in seen ==> Unseen(rules, seen + {ref}) < Unseen(rules, seen)
  {
    var before, after := rules.known - seen, rules.known - (seen + {ref});
    assert before == after + (before - after);
    if ref in rules.known && ref !in seen {
      assert ref in before - after;
    }
  }

  /** A value from outside the environment may come once before the chase goes on. */
  ghost function ValueRank(rules: Rules, value: string): nat {
    if Listed(rules, value) then 0 else 6
  }

  ghost function ConfiguredRank(configured: Option<string>): nat {
    if configured.Some? then 7 else 4
  }

  // ---- The resolver ----

  function ResolveValue(rules: Rules, value: string, agent: Option<string>, tier: Option<Tier>,
                        defaultRole: Option<string>, seen: set<string>): Answer
    requires Valid(rules)
    decreases Unseen(rules, seen), ValueRank(rules, value)
  {
    match rules.parse(value)
    case Blank =>
      if defaultRole.Some? then ResolveInternal(rules, rules.normalize(defaultRole.value), None, seen)
        else Err(EmptyValue)
    case Model(text) => Ok(text)
    case BareReference => Err(EmptyReference)
    case Reference(ref, wanted) =>
      if ref in seen then Err(Cyclic(ref))
      else
        SeeingHelps(rules, seen, ref);
        match wanted
        case Malformed(tierUnknown) => Err(if tierUnknown then UnknownTier else InvalidAgentReference)
        case OfAgent(a, t) => ResolveAgent(rules, a, t, None, seen + {ref})
        case OwnTier(t) => if agent.Some? then ResolveAgent(rules, agent.value, t, None, seen + {ref})
          else Err(NeedsAgent)
        case OwnAgent =>
          if agent.Some? && tier.Some? then ResolveAgent(rules, agent.value, tier.value, None, seen + {ref})
          else ResolveInternal(rules, rules.normalize(ref), None, seen + {ref})
        case OfRole(role) => ResolveInternal(rules, role, None, seen + {ref})
  }

  function ResolveInternal(rules: Rules, role: string, configured: Option<string>, seen: set<string>): Answer
    requires Valid(rules)
    decreases Unseen(rules, seen), ConfiguredRank(configured)
  {
    var found := rules.roleValue(role);
    if found.Some? then ResolveValue(rules, found.value, None, None, Some(role), seen)
    else if configured.Some? then ResolveValue(rules, configured.value, None, None, Some(role), seen)
    else Ok(rules.roleModel(role))
  }

  function ResolveAgent(rules: Rules, agent: string, tier: Tier, configured: Option<string>, seen: set<string>): Answer
    requires Valid(rules)
    decreases Unseen(rules, seen), ConfiguredRank(configured)
  {
    var found := rules.agentValue(agent, tier);
    if found.Some? then ResolveValue(rules, found.value, Some(agent), Some(tier), None, seen)
    else if configured.Some? then ResolveValue(rules, configured.value, Some(agent), Some(tier), None, seen)
    else Ok(rules.agentModel(agent, tier))
  }

  // ---- The same rules as a chase without a record ----

  datatype Goal =
    | Value(value: string, agent: Option<string>, tier: Option<Tier>, defaultRole: Option<string>)
    | Ask(ref: string, wanted: Wanted, asker: Option<string>, askerTier: Option<Tier>)
    | RoleGoal(role: string, configured: Option<string>)
    | AgentGoal(id: string, of: Tier, given: Option<string>)

  function MoveOf(rules: Rules, goal: Goal): Move<Goal, Answer, string> {
    match goal
    case Value(value, agent, tier, defaultRole) =>
      (match rules.parse(value)
       case Blank =>
         if defaultRole.Some? then Then(RoleGoal(rules.normalize(defaultRole.value), None), None)
           else Done(Err(EmptyValue))
       case Model(text) => Done(Ok(text))
       case BareReference => Done(Err(EmptyReference))
       case Reference(ref, wanted) => Then(Ask(ref, wanted, agent, tier), Some(ref)))
    case Ask(ref, wanted, agent, tier) =>
      (match wanted
       case Malformed(tierUnknown) => Done(Err(if tierUnknown then UnknownTier else InvalidAgentReference))
       case OfAgent(a, t) => Then(AgentGoal(a, t, None), None)
       case OwnTier(t) => if agent.Some? then Then(AgentGoal(agent.value, t, None), None) else Done(Err(NeedsAgent))
       case OwnAgent =>
         if agent.Some? && tier.Some? then Then(AgentGoal(agent.value, tier.value, None), None)
         else Then(RoleGoal(rules.normalize(ref), None), None)
       case OfRole(role) => Then(RoleGoal(role, None), None))
    case RoleGoal(role, configured) =>
      var found := rules.roleValue(role);
      if found.Some? then Then(Value(found.value, None, None, Some(role)), None)
      else if configured.Some? then Then(Value(configured.value, None, None, Some(role)), None)
      else Done(Ok(rules.roleModel(role)))
    case AgentGoal(a, t, configured) =>
      var found := rules.agentValue(a, t);
      if found.Some? then Then(Value(found.value, Some(a), Some(t), None), None)
      else if configured.Some? then Then(Value(configured.value, Some(a), Some(t), None), None)
      else Done(Ok(rules.agentModel(a, t)))
  }

  /** What the resolver's functions return for a goal. */
  function Resolve(rules: Rules, goal: Goal, seen: set<string>): Answer
    requires Valid(rules)
  {
    match goal
    case Value(value, agent, tier, defaultRole) => ResolveValue(rules, value, agent, tier, defaultRole, seen)
    case Ask(ref, wanted, agent, tier) =>
      (match wanted
       case Malformed(tierUnknown) => Err(if tierUnknown then UnknownTier else InvalidAgentReference)
       case OfAgent(a, t) => ResolveAgent(rules, a, t, None, seen)
       case OwnTier(t) => if agent.Some? then ResolveAgent(rules, agent.value, t, None, seen) else Err(NeedsAgent)
       case OwnAgent =>
         if agent.Some? && tier.Some? then ResolveAgent(rules, agent.value, tier.value, None, seen)
         else ResolveInternal(rules, rules.normalize(ref), None, seen)
       case OfRole(role) => ResolveInternal(rules, role, None, seen))
    case RoleGoal(role, configured) => ResolveInternal(rules, role, configured, seen)
    case AgentGoal(a, t, configured) => ResolveAgent(rules, a, t, configured, seen)
  }

  function EndOf(answer: Answer): End<Answer, string> {
    if answer.Err? && answer.error.Cyclic? then Repeated(answer.error.ref) else Answered(answer)
  }

  ghost function GoalRank(rules: Rules, goal: Goal): nat {
    match goal
    case Value(value, _, _, _) => ValueRank(rules, value)
    case Ask(_, _, _, _) => 5
    case RoleGoal(_, configured) => ConfiguredRank(configured)
    case AgentGoal(_, _, configured) => ConfiguredRank(configured)
  }

  function Moves(rules: Rules): Goal -> Move<Goal, Answer, string> {
    goal => MoveOf(rules, goal)
  }

  ghost function ResolverOf(rules: Rules): (Goal, set<string>) -> End<Answer, string>
    requires Valid(rules)
  {
    (goal, seen) => if Valid(rules) then EndOf(Resolve(rules, goal, seen)) else Repeated("")
  }

  ghost function Rank(rules: Rules): (Goal, set<string>) -> (nat, nat) {
    (goal, seen) => (Unseen(rules, seen), GoalRank(rules, goal))
  }

  lemma GoalFollows(rules: Rules, goal: Goal, seen: set<string>)
    requires Valid(rules)
    ensures Follows(Moves(rules), ResolverOf(rules), goal, seen)
  {
  }

  lemma RankIs(rules: Rules, goal: Goal, seen: set<string>)
    ensures Rank(rules)(goal, seen) == (Unseen(rules, seen), GoalRank(rules, goal))
  {
  }

  lemma ValueDescends(rules: Rules, goal: Goal, seen: set<string>)
    requires Valid(rules) && goal.Value?
    ensures Descends(Moves(rules), Rank(rules), goal, seen)
  {
    RankIs(rules, goal, seen);
    var move := MoveOf(rules, goal);
    if rules.parse(goal.value).Reference? {
      SeeingHelps(rules, seen, rules.parse(goal.value).ref);
      RankIs(rules, move.goal, seen + {rules.parse(goal.value).ref});
    } else if move.Then? {
      RankIs(rules, move.goal, seen);
    }
  }

  lemma GoalDescends(rules: Rules, goal: Goal, seen: set<string>)
    requires Valid(rules)
    ensures Descends(Moves(rules), Rank(rules), goal, seen)
  {
    if goal.Value? {
      ValueDescends(rules, goal, seen);
    } else {
      RankIs(rules, goal, seen);
      if MoveOf(rules, goal).Then? {
        RankIs(rules, MoveOf(rules, goal).goal, seen);
      }
    }
  }

  lemma IsResolver(rules: Rules)
    requires Valid(rules)
    ensures Resolver(Moves(rules), ResolverOf(rules), Rank(rules))
  {
    forall goal, seen
      ensures Follows(Moves(rules), ResolverOf(rules), goal, seen) && Descends(Moves(rules), Rank(rules), goal, seen)
    {
      GoalFollows(rules, goal, seen);
      GoalDescends(rules, goal, seen);
    }
  }

  /**
   Cycle detection, exactly. Resolution returns the answer of the plain chase when the chase reaches
   one without meeting a reference twice, or one in `seen`; it reports a cycle exactly when some
   reference is met again. In particular it always ends, whatever the environment.
   */
  lemma ResolutionIsExact(rules: Rules, goal: Goal, seen: set<string>)
    requires Valid(rules)
    ensures forall answer :: (exists n :: Reaches(Moves(rules), goal, seen, answer, n))
                             <==> EndOf(Resolve(rules, goal, seen)) == Answered(answer)
    ensures (exists n :: MeetsAgain(Moves(rules), goal, seen, n))
            <==> Resolve(rules, goal, seen).Err? && Resolve(rules, goal, seen).error.Cyclic?
  {
    IsResolver(rules);
    DetectionIsExact(Moves(rules), ResolverOf(rules), Rank(rules), goal, seen);
    assert ResolverOf(rules)(goal, seen) == EndOf(Resolve(rules, goal, seen));
  }

  /** A smaller record never changes an answer. */
  lemma FewerSeenSameAnswer(rules: Rules, goal: Goal, seen: set<string>, fewer: set<string>)
    requires Valid(rules) && fewer <= seen && Resolve(rules, goal, seen).Ok?
    ensures Resolve(rules, goal, fewer) == Resolve(rules, goal, seen)
  {
    IsResolver(rules);
    assert ResolverOf(rules)(goal, seen) == EndOf(Resolve(rules, goal, seen));
    assert ResolverOf(rules)(goal, fewer) == EndOf(Resolve(rules, goal, fewer));
    ForgettingIsHarmless(Moves(rules), ResolverOf(rules), Rank(rules), goal, seen, fewer);
  }

  const PREFIX := "model:"

  /** A model name that stands for itself. */
  predicate Concrete(model: string) {
    model != "" && !HasPrefix(model, PREFIX)
  }

  ghost predicate Sound(rules: Rules) {
    && (forall value :: rules.parse(value).Model? ==> Concrete(rules.parse(value).text))
    && (forall role :: Concrete(rules.roleModel(role)))
    && (forall a, t :: Concrete(rules.agentModel(a, t)))
  }

  lemma {:induction false} ChaseIsConcrete(rules: Rules, goal: Goal, n: nat)
    requires Sound(rules)
    ensures var answer := Chase(Moves(rules), goal, n).0;
            answer.Some? && answer.value.Ok? ==> Concrete(answer.value.value)
    decreases n
  {
    if n > 0 && MoveOf(rules, goal).Then? {
      ChaseIsConcrete(rules, MoveOf(rules, goal).goal, n - 1);
    }
  }

  /** Whatever resolution returns is a non-empty name and no reference itself. */
  lemma AnswersAreConcrete(rules: Rules, goal: Goal, seen: set<string>)
    requires Valid(rules) && Sound(rules) && Resolve(rules, goal, seen).Ok?
    ensures Concrete(Resolve(rules, goal, seen).value)
  {
    var answer := Resolve(rules, goal, seen);
    ResolutionIsExact(rules, goal, seen);
    assert EndOf(answer) == Answered(answer);
    var n :| Reaches(Moves(rules), goal, seen, answer, n);
    ChaseIsConcrete(rules, goal, n);
  }

  // ---- The rules of an environment ----

  const LEGACY_FAST_MODEL := "anthropic/claude-haiku-4.5"
  const LEGACY_BUILDING_MODEL := "anthropic/claude-sonnet-4.6"

  datatype Role = Role(envVar: string, building: bool)

  /** The process environment and the two tables of the module. */
  datatype World = World(env: map<string, string>, roles: map<string, Role>, defaults: map<(string, Tier), string>)

  function NormalizeRole(role: string): string {
    Replace(Lower(Strip(role)), '-', '_')
  }

  function TierNamed(name: string): Option<Tier> {
    if name == "conversation" then Some(Conversation) else if name == "building" then Some(Building) else None
  }

  function ParseTier(text: string): Option<Tier> {
    TierNamed(Lower(Strip(text)))
  }

  function Wants(ref: string): Wanted {
    var parts := Split(ref, ':');
    if parts[0] == "agent" then
      if |parts| != 3 then Malformed(false)
      else if ParseTier(parts[2]).None? then Malformed(true)
      else OfAgent(parts[1], ParseTier(parts[2]).value)
    else if ref == "conversation" then OwnTier(Conversation)
    else if ref == "building" then OwnTier(Building)
    else if ref == "agent" then OwnAgent
    else OfRole(NormalizeRole(ref))
  }

  function ParseText(text: string): Parsed {
    if text == "" then Blank
    else if !HasPrefix(text, PREFIX) then Model(text)
    else
      var ref := Strip(text[|PREFIX|..]);
      if ref == "" then BareReference else Reference(ref, Wants(ref))
  }

  function Parse(value: string): Parsed {
    ParseText(Strip(value))
  }

  function SafeUpper(s: string): string {
    if s == "" then ""
    else
      var c := if 'a' <= s[0] <= 'z' then s[0] - 32 as char else s[0];
      [if 'A' <= c <= 'Z' || '0' <= c <= '9' then c else '_'] + SafeUpper(s[1..])
  }

  function TierName(tier: Tier): string {
    if tier.Conversation? then "CONVERSATION" else "BUILDING"
  }

  function AgentKey(agent: string, tier: Tier): string {
    "LTAG_MODEL_AGENT_" + SafeUpper(agent) + "_" + TierName(tier)
  }

  function AgentKeys(agent: string, tier: Tier): seq<string> {
    [AgentKey(agent, tier), "LTAG_MODEL_AGENT_DEFAULT_" + TierName(tier)]
    + if tier.Conversation? then ["LTAG_MODEL_CONVERSATION", "LTAG_MODEL_FAST"] else ["LTAG_MODEL_BUILDING"]
  }

  predicate RoleBuilds(w: World, role: string) {
    role in w.roles && w.roles[role].building
  }

  function RoleKeys(w: World, role: string): seq<string> {
    (if role in w.roles then [w.roles[role].envVar] else [])
    + [if RoleBuilds(w, role) then "LTAG_MODEL_BUILDING" else "LTAG_MODEL_FAST"]
  }

  /** The variables `_env_model` finds: set to something but blanks, stripped. */
  function SetVariables(env: map<string, string>): map<string, string> {
    map key | key in env && Strip(env[key]) != "" :: Strip(env[key])
  }

  function FirstOf(variables: map<string, string>, keys: seq<string>): (r: Option<string>)
    ensures r.Some? ==> exists key :: key in variables && variables[key] == r.value
  {
    if keys == [] then None
    else if keys[0] in variables then Some(variables[keys[0]])
    else FirstOf(variables, keys[1..])
  }

  /** The first candidate that is set wins. */
  lemma {:induction false} FirstSetWins(variables: map<string, string>, keys: seq<string>, i: nat)
    requires i < |keys| && keys[i] in variables && forall j :: 0 <= j < i ==> keys[j] !in variables
    ensures FirstOf(variables, keys) == Some(variables[keys[i]])
  {
    if i > 0 {
      FirstSetWins(variables, keys[1..], i - 1);
    }
  }

  lemma {:induction false} NoneSet(variables: map<string, string>, keys: seq<string>)
    ensures FirstOf(variables, keys).None? <==> forall i :: 0 <= i < |keys| ==> keys[i] !in variables
  {
    if keys != [] {
      NoneSet(variables, keys[1..]);
    }
  }

  function Legacy(building: bool): string {
    if building then LEGACY_BUILDING_MODEL else LEGACY_FAST_MODEL
  }

  function AgentDefault(w: World, agent: string, tier: Tier): string {
    if (Lower(agent), tier) in w.defaults then w.defaults[(Lower(agent), tier)] else Legacy(tier.Building?)
  }

  function KnownRefs(variables: map<string, string>): set<string> {
    set key | key in variables && Parse(variables[key]).Reference? :: Parse(variables[key]).ref
  }

  function RulesOf(w: World): Rules {
    var variables := SetVariables(w.env);
    Rules(value => Parse(value), role => NormalizeRole(role),
          role => FirstOf(variables, RoleKeys(w, role)), (a, t) => FirstOf(variables, AgentKeys(a, t)),
          role => Legacy(RoleBuilds(w, role)), (a, t) => AgentDefault(w, a, t),
          KnownRefs(variables))
  }

  lemma VariableIsNotBlank(env: map<string, string>, key: string)
    requires key in SetVariables(env)
    ensures Strip(SetVariables(env)[key]) == SetVariables(env)[key] != ""
  {
    StripOfStripped(Strip(env[key]));
  }

  lemma NotBlank(value: string)
    requires Strip(value) != ""
    ensures !Parse(value).Blank?
  {
  }

  lemma VariableIsListed(w: World, value: string)
    requires exists key :: key in SetVariables(w.env) && SetVariables(w.env)[key] == value
    ensures Listed(RulesOf(w), value) && Stripped(value)
  {
    var variables := SetVariables(w.env);
    var key :| key in variables && variables[key] == value;
    VariableIsNotBlank(w.env, key);
    NotBlank(value);
    assert Parse(variables[key]).Reference? ==> Parse(variables[key]).ref in KnownRefs(variables);
    assert RulesOf(w).parse(value) == Parse(value);
  }

  /** Every environment yields rules the resolver accepts, and values without outer space. */
  lemma RulesAreValid(w: World)
    ensures Valid(RulesOf(w))
    ensures forall role :: RulesOf(w).roleValue(role).Some? ==> Stripped(RulesOf(w).roleValue(role).value)
    ensures forall a, t :: RulesOf(w).agentValue(a, t).Some? ==> Stripped(RulesOf(w).agentValue(a, t).value)
  {
    var rules := RulesOf(w);
    forall role | rules.roleValue(role).Some?
      ensures Listed(rules, rules.roleValue(role).value) && Stripped(rules.roleValue(role).value)
    {
      VariableIsListed(w, rules.roleValue(role).value);
    }
    forall a, t | rules.agentValue(a, t).Some?
      ensures Listed(rules, rules.agentValue(a, t).value) && Stripped(rules.agentValue(a, t).value)
    {
      VariableIsListed(w, rules.agentValue(a, t).value);
    }
  }

  lemma LegacyIsConcrete(building: bool)
    ensures Concrete(Legacy(building))
  {
    assert Legacy(building)[..6][0] == 'a';
  }

  /** With concrete table entries, every answer is concrete. */
  lemma RulesAreSound(w: World)
    requires forall key :: key in w.defaults ==> Concrete(w.defaults[key])
    ensures Sound(RulesOf(w))
  {
    var rules := RulesOf(w);
    LegacyIsConcrete(true);
    LegacyIsConcrete(false);
    forall role ensures Concrete(rules.roleModel(role)) {
      assert rules.roleModel(role) == Legacy(RoleBuilds(w, role));
    }
    forall a, t ensures Concrete(rules.agentModel(a, t)) {
      assert rules.agentModel(a, t) == AgentDefault(w, a, t);
    }
    forall value | rules.parse(value).Model? ensures Concrete(rules.parse(value).text) {
      assert rules.parse(value) == Parse(value);
    }
  }

  // ---- What decides ----

  /** The environment sets the variable to a model name, with any space around it. */
  predicate SetsModel(w: World, key: string, model: string) {
    key in w.env && Strip(w.env[key]) == model && Concrete(model)
  }

  predicate Unset(w: World, key: string) {
    key !in w.env || Strip(w.env[key]) == ""
  }

  lemma StrippedModelIs(w: World, value: string, model: string)
    requires Strip(value) == model && Concrete(model)
    ensures RulesOf(w).parse(value) == Model(model)
  {
    assert RulesOf(w).parse(value) == Parse(value);
  }

  lemma ModelOfKey(w: World, keys: seq<string>, i: nat, model: string)
    requires i < |keys| && SetsModel(w, keys[i], model) && forall j :: 0 <= j < i ==> Unset(w, keys[j])
    ensures FirstOf(SetVariables(w.env), keys) == Some(model) && RulesOf(w).parse(model) == Model(model)
  {
    FirstSetWins(SetVariables(w.env), keys, i);
    StrippedModelIs(w, w.env[keys[i]], model);
    StrippedTwice(w.env[keys[i]]);
    StrippedModelIs(w, model, model);
  }

  lemma StrippedTwice(value: string)
    ensures Strip(Strip(value)) == Strip(value)
  {
    StripOfStripped(Strip(value));
  }

  lemma NoModelOfKeys(w: World, keys: seq<string>)
    requires forall i :: 0 <= i < |keys| ==> Unset(w, keys[i])
    ensures FirstOf(SetVariables(w.env), keys) == None
  {
    NoneSet(SetVariables(w.env), keys);
  }

  /** The variables that can name an agent's model, in the order in which they are tried. */
  ghost predicate AgentVariables(agent: string, tier: Tier, keys: seq<string>) {
    && |keys| == (if tier.Conversation? then 4 else 3)
    && keys[0] == "LTAG_MODEL_AGENT_" + SafeUpper(agent) + (if tier.Conversation? then "_CONVERSATION" else "_BUILDING")
    && keys[1] == (if tier.Conversation? then "LTAG_MODEL_AGENT_DEFAULT_CONVERSATION"
                   else "LTAG_MODEL_AGENT_DEFAULT_BUILDING")
    && keys[2] == (if tier.Conversation? then "LTAG_MODEL_CONVERSATION" else "LTAG_MODEL_BUILDING")
    && (tier.Conversation? ==> keys[3] == "LTAG_MODEL_FAST")
  }

  lemma KeyOfTier(agent: string, tier: Tier, name: string)
    requires name == if tier.Conversation? then "_CONVERSATION" else "_BUILDING"
    ensures AgentKey(agent, tier) == "LTAG_MODEL_AGENT_" + SafeUpper(agent) + name
  {
    assert name == "_" + TierName(tier);
  }

  lemma AgentKeysAre(agent: string, tier: Tier)
    ensures AgentVariables(agent, tier, AgentKeys(agent, tier))
  {
    KeyOfTier(agent, tier, if tier.Conversation? then "_CONVERSATION" else "_BUILDING");
    assert "LTAG_MODEL_AGENT_DEFAULT_" + TierName(tier)
           == if tier.Conversation? then "LTAG_MODEL_AGENT_DEFAULT_CONVERSATION"
              else "LTAG_MODEL_AGENT_DEFAULT_BUILDING";
  }

  /** The variables that can name a role's model: its own if it has one, then that of its tier. */
  ghost predicate RoleVariables(w: World, role: string, keys: seq<string>) {
    if role in w.roles then
      && |keys| == 2 && keys[0] == w.roles[role].envVar
      && keys[1] == if w.roles[role].building then "LTAG_MODEL_BUILDING" else "LTAG_MODEL_FAST"
    else |keys| == 1 && keys[0] == "LTAG_MODEL_FAST"
  }

  /** Where a reference leads: to a model of the agent it names or of the asker, or to a role; a repeated one fails. */
  lemma ReferenceLeadsTo(rules: Rules, value: string, agent: Option<string>, tier: Option<Tier>,
                         defaultRole: Option<string>, seen: set<string>, ref: string, wanted: Wanted)
    requires Valid(rules) && rules.parse(value) == Reference(ref, wanted)
    ensures var answer, further := Resolve(rules, Value(value, agent, tier, defaultRole), seen), seen + {ref};
            && (ref in seen ==> answer == Err(Cyclic(ref)))
            && (ref !in seen ==>
                  match wanted
                  case Malformed(tierUnknown) =>
                    answer == Err(if tierUnknown then UnknownTier else InvalidAgentReference)
                  case OfAgent(a, t) => answer == Resolve(rules, AgentGoal(a, t, None), further)
                  case OwnTier(t) =>
                    if agent.Some? then answer == Resolve(rules, AgentGoal(agent.value, t, None), further)
                    else answer == Err(NeedsAgent)
                  case OwnAgent => true
                  case OfRole(role) => answer == Resolve(rules, RoleGoal(role, None), further))
  {
  }

  /** A blank value stands for its default role, if there is one; a reference without a name is an error. */
  lemma BlankLeadsTo(rules: Rules, value: string, agent: Option<string>, tier: Option<Tier>,
                     defaultRole: Option<string>, seen: set<string>)
    requires Valid(rules)
    ensures var answer := Resolve(rules, Value(value, agent, tier, defaultRole), seen);
            && (rules.parse(value).Blank? ==>
                  if defaultRole.Some? then
                    answer == Resolve(rules, RoleGoal(rules.normalize(defaultRole.value), None), seen)
                  else answer == Err(EmptyValue))
            && (rules.parse(value).BareReference? ==> answer == Err(EmptyReference))
  {
  }

  /** How a value is read: blank, a model, or a reference with any space around it. */
  lemma ValueIsRead(value: string)
    ensures Strip(value) == "" <==> Parse(value).Blank?
    ensures Parse(value).Model? <==> Concrete(Strip(value))
    ensures Parse(value).Model? ==> Parse(value).text == Strip(value)
    ensures HasPrefix(Strip(value), PREFIX) ==>
              var ref := Strip(Strip(value)[|PREFIX|..]);
              Parse(value) == if ref == "" then BareReference else Reference(ref, Wants(ref))
  {
  }

  /** Capitals and digits stand in a variable's name as they are, small letters as capitals, all else as underscores. */
  lemma {:induction false} SafeUpperEach(s: string, i: nat)
    requires i < |s|
    ensures |SafeUpper(s)| == |s|
    ensures SafeUpper(s)[i] == if 'a' <= s[i] <= 'z' then s[i] - 32 as char
                               else if 'A' <= s[i] <= 'Z' || '0' <= s[i] <= '9' then s[i] else '_'
  {
    if |s| > 1 {
      SafeUpperEach(s[1..], if i > 0 then i - 1 else 0);
    }
  }

  /** A role is read without outer space, in small letters and with underscores for hyphens. */
  lemma NormalizedRoleSays(role: string, stripped: string, i: nat)
    requires stripped == Strip(role) && i < |stripped|
    ensures |NormalizeRole(role)| == |stripped|
    ensures NormalizeRole(role)[i] == if LowerChar(stripped[i]) == '-' then '_' else LowerChar(stripped[i])
  {
    LowerEach(stripped, i);
    ReplaceEach(Lower(stripped), '-', '_', i);
  }

  /** A value found wins, then the configured one, then the fallback. */
  predicate Decides(rules: Rules, found: Option<string>, configured: Option<string>, fallback: string, model: string) {
    if found.Some? then rules.parse(found.value) == Model(model)
    else if configured.Some? then rules.parse(configured.value) == Model(model)
    else fallback == model
  }

  lemma AgentDecided(rules: Rules, agent: string, tier: Tier, configured: Option<string>, seen: set<string>,
                     model: string)
    requires Valid(rules)
    requires Decides(rules, rules.agentValue(agent, tier), configured, rules.agentModel(agent, tier), model)
    ensures Resolve(rules, AgentGoal(agent, tier, configured), seen) == Ok(model)
  {
    var found := rules.agentValue(agent, tier);
    if found.Some? {
      assert ResolveValue(rules, found.value, Some(agent), Some(tier), None, seen) == Ok(model);
    } else if configured.Some? {
      assert ResolveValue(rules, configured.value, Some(agent), Some(tier), None, seen) == Ok(model);
    }
  }

  lemma RoleDecided(rules: Rules, role: string, configured: Option<string>, seen: set<string>, model: string)
    requires Valid(rules) && Decides(rules, rules.roleValue(role), configured, rules.roleModel(role), model)
    ensures Resolve(rules, RoleGoal(role, configured), seen) == Ok(model)
  {
    var found := rules.roleValue(role);
    if found.Some? {
      assert ResolveValue(rules, found.value, None, None, Some(role), seen) == Ok(model);
    } else if configured.Some? {
      assert ResolveValue(rules, configured.value, None, None, Some(role), seen) == Ok(model);
    }
  }

  lemma LegacyIs(building: bool, model: string)
    requires model == if building then "anthropic/claude-sonnet-4.6" else "anthropic/claude-haiku-4.5"
    ensures Legacy(building) == model
  {
  }

  lemma AgentRulesAre(w: World, agent: string, tier: Tier, keys: seq<string>)
    requires AgentVariables(agent, tier, keys)
    ensures RulesOf(w).agentValue(agent, tier) == FirstOf(SetVariables(w.env), keys)
    ensures RulesOf(w).agentModel(agent, tier) == AgentDefault(w, agent, tier)
  {
    AgentKeysAre(agent, tier);
    assert keys == AgentKeys(agent, tier);
  }

  /**
   What decides an agent's model when no reference is involved: the first variable that is set; else what the
   agent is configured with; else its entry in the table, or the model of the tier.
   */
  lemma AgentModelIs(w: World, agent: string, tier: Tier, configured: Option<string>, seen: set<string>,
                     keys: seq<string>, i: nat, model: string)
    requires AgentVariables(agent, tier, keys) && i <= |keys| && forall j :: 0 <= j < i ==> Unset(w, keys[j])
    requires if i < |keys| then SetsModel(w, keys[i], model)
             else if configured.Some? then Strip(configured.value) == model && Concrete(model)
             else if (Lower(agent), tier) in w.defaults then model == w.defaults[(Lower(agent), tier)]
             else model == if tier.Building? then "anthropic/claude-sonnet-4.6" else "anthropic/claude-haiku-4.5"
    ensures Valid(RulesOf(w)) && Resolve(RulesOf(w), AgentGoal(agent, tier, configured), seen) == Ok(model)
  {
    RulesAreValid(w);
    AgentRulesAre(w, agent, tier, keys);
    var rules := RulesOf(w);
    if i < |keys| {
      ModelOfKey(w, keys, i, model);
    } else {
      NoModelOfKeys(w, keys);
      if configured.Some? {
        StrippedModelIs(w, configured.value, model);
      } else if (Lower(agent), tier) !in w.defaults {
        LegacyIs(tier.Building?, model);
      }
    }
    AgentDecided(rules, agent, tier, configured, seen, model);
  }

  lemma RoleRulesAre(w: World, role: string, keys: seq<string>)
    requires RoleVariables(w, role, keys)
    ensures RulesOf(w).roleValue(role) == FirstOf(SetVariables(w.env), keys)
    ensures RulesOf(w).roleModel(role) == Legacy(RoleBuilds(w, role))
  {
    assert keys == RoleKeys(w, role);
  }

  /** The same for a role. */
  lemma RoleModelIs(w: World, role: string, configured: Option<string>, seen: set<string>, keys: seq<string>, i: nat,
                    model: string)
    requires RoleVariables(w, role, keys) && i <= |keys| && forall j :: 0 <= j < i ==> Unset(w, keys[j])
    requires if i < |keys| then SetsModel(w, keys[i], model)
             else if configured.Some? then Strip(configured.value) == model && Concrete(model)
             else model == if role in w.roles && w.roles[role].building then "anthropic/claude-sonnet-4.6"
                           else "anthropic/claude-haiku-4.5"
    ensures Valid(RulesOf(w)) && Resolve(RulesOf(w), RoleGoal(role, configured), seen) == Ok(model)
  {
    RulesAreValid(w);
    RoleRulesAre(w, role, keys);
    var rules := RulesOf(w);
    if i < |keys| {
      ModelOfKey(w, keys, i, model);
    } else {
      NoModelOfKeys(w, keys);
      if configured.Some? {
        StrippedModelIs(w, configured.value, model);
      } else {
        LegacyIs(RoleBuilds(w, role), model);
      }
    }
    RoleDecided(rules, role, configured, seen, model);
  }

  // ---- Two findings ----

  /** The branch for the bare reference `model:agent` is never taken: the test before it rejects it. */
  lemma BareAgentIsRejected(ref: string)
    ensures Wants(ref) != OwnAgent
    ensures Wants("agent") == Malformed(false)
  {
    SplitOfPart("agent", ':');
  }

  /** The goals of the detour, in the order in which they are met. */
  function DetourGoals(a: string, b: string, r: string, r2: string, v: string, v2: string, v3: string): seq<Goal> {
    [Value(v, Some(a), Some(Conversation), None),
     Ask(r, OwnTier(Conversation), Some(a), Some(Conversation)),
     AgentGoal(a, Conversation, None),
     Value(v2, Some(a), Some(Conversation), None),
     Ask(r2, OfAgent(b, Building), Some(a), Some(Conversation)),
     AgentGoal(b, Building, None),
     Value(v, Some(b), Some(Building), None),
     Ask(r, OwnTier(Conversation), Some(b), Some(Building)),
     AgentGoal(b, Conversation, None),
     Value(v3, Some(b), Some(Conversation), None)]
  }

  /**
   Detection is not only for real cycles. Let a's talk be looked up as b's building, b's building as
   one's own talk, and b's talk be a model: the plain chase of `model:conversation` for a ends in that
   model, yet the resolver calls it cyclic, because b meets the same reference text.
   */
  lemma SpuriousCycle(rules: Rules, a: string, b: string, r: string, r2: string, v: string, v2: string, v3: string)
    requires Valid(rules)
    requires rules.parse(v) == Reference(r, OwnTier(Conversation)) && rules.agentValue(a, Conversation) == Some(v2)
    requires rules.parse(v2) == Reference(r2, OfAgent(b, Building)) && rules.agentValue(b, Building) == Some(v)
    requires rules.parse(v3) == Model(v3) && rules.agentValue(b, Conversation) == Some(v3)
    ensures var goal := Value(v, Some(a), Some(Conversation), None);
            && Resolve(rules, goal, {}).Err? && Resolve(rules, goal, {}).error.Cyclic?
            && Chase(Moves(rules), goal, 10).0 == Some(Ok(v3))
  {
    var m, g := Moves(rules), DetourGoals(a, b, r, r2, v, v2, v3);
    var end := Some(Ok(v3));
    assert Chase(m, g[9], 1) == (end, []);
    Pass(m, g[8], g[9], 1);
    Pass(m, g[7], g[8], 2);
    Meet(m, g[6], g[7], r, 3);
    Pass(m, g[5], g[6], 4);
    Pass(m, g[4], g[5], 5);
    Meet(m, g[3], g[4], r2, 6);
    Pass(m, g[2], g[3], 7);
    Pass(m, g[1], g[2], 8);
    Meet(m, g[0], g[1], r, 9);
    var refs := Chase(m, g[0], 10).1;
    assert refs[0] == refs[2];
    assert MeetsAgain(m, g[0], {}, 10);
    ResolutionIsExact(rules, g[0], {});
  }

  lemma Pass(m: Goal -> Move<Goal, Answer, string>, goal: Goal, next: Goal, n: nat)
    requires m(goal) == Then(next, None)
    ensures Chase(m, goal, n + 1) == Chase(m, next, n)
  {
    assert [] + Chase(m, next, n).1 == Chase(m, next, n).1;
  }

  lemma Meet(m: Goal -> Move<Goal, Answer, string>, goal: Goal, next: Goal, ref: string, n: nat)
    requires m(goal) == Then(next, Some(ref))
    ensures Chase(m, goal, n + 1) == (Chase(m, next, n).0, [ref] + Chase(m, next, n).1)
  {
  }

  // ---- An environment with the detour ----

  lemma {:induction false} SplitAtFirst(part: string, rest: string, sep: char)
    requires sep !in part
    ensures Split(part + [sep] + rest, sep) == [part] + Split(rest, sep)
  {
    var all := part + [sep] + rest;
    if part == "" {
      assert all[1..] == rest;
    } else {
      SplitAtFirst(part[1..], rest, sep);
      assert all[1..] == part[1..] + [sep] + rest;
      assert part == [part[0]] + part[1..];
    }
  }

  lemma ParseStripped(text: string, ref: string)
    ensures Strip(text) == text && HasPrefix(text, PREFIX) && text[|PREFIX|..] == ref && Strip(ref) == ref != "" ==>
              Parse(text) == Reference(ref, Wants(ref))
  {
  }

  /** A reference is read as what it asks for. */
  lemma ParseReference(ref: string)
    requires ref != "" && 'a' <= ref[0] <= 'z' && 'a' <= ref[|ref| - 1] <= 'z'
    ensures Parse(PREFIX + ref) == Reference(ref, Wants(ref))
  {
    LettersStay(ref);
    PrefixedStays(ref, PREFIX);
    ParseStripped(PREFIX + ref, ref);
  }

  lemma PrefixedIsStripped(ref: string, prefix: string)
    requires prefix == PREFIX && ref != "" && 'a' <= ref[|ref| - 1] <= 'z'
    ensures prefix + ref != "" && Stripped(prefix + ref)
  {
    assert prefix[0] == 'm' && (prefix + ref)[0] == prefix[0];
    assert (prefix + ref)[|prefix + ref| - 1] == ref[|ref| - 1];
    LettersStay(prefix + ref);
  }

  lemma PrefixedStays(ref: string, prefix: string)
    requires prefix == PREFIX && ref != "" && 'a' <= ref[|ref| - 1] <= 'z'
    ensures Strip(prefix + ref) == prefix + ref && HasPrefix(prefix + ref, prefix) && (prefix + ref)[|prefix|..] == ref
  {
    PrefixedIsStripped(ref, prefix);
    StripOfStripped(prefix + ref);
  }

  /** A reference without a colon: one of the asker's own models, or a role. */
  lemma WantsOneWord(ref: string)
    requires ':' !in ref
    ensures ref == "conversation" ==> Wants(ref) == OwnTier(Conversation)
    ensures ref == "building" ==> Wants(ref) == OwnTier(Building)
    ensures ref == "agent" ==> Wants(ref) == Malformed(false)
    ensures ref != "conversation" && ref != "building" && ref != "agent" ==> Wants(ref) == OfRole(NormalizeRole(ref))
  {
    SplitOfPart(ref, ':');
  }

  lemma TierOfName(name: string, tier: Tier)
    requires name == if tier.Conversation? then "conversation" else "building"
    ensures ParseTier(name) == Some(tier)
  {
    LettersStay(name);
    LowerOfLower(name);
    NamedTier(name, tier);
  }

  lemma NamedTier(name: string, tier: Tier)
    requires name == if tier.Conversation? then "conversation" else "building"
    ensures TierNamed(name) == Some(tier)
  {
  }

  lemma ThreeParts(x: string, y: string, z: string, sep: char)
    requires sep !in x && sep !in y && sep !in z
    ensures Split(x + [sep] + (y + [sep] + z), sep) == [x, y, z]
  {
    SplitAtFirst(x, y + [sep] + z, sep);
    SplitAtFirst(y, z, sep);
    SplitOfPart(z, sep);
  }

  lemma WantsFromParts(ref: string, word: string, b: string, name: string, tier: Tier)
    requires word == "agent" && Split(ref, ':') == [word, b, name] && ParseTier(name) == Some(tier)
    ensures Wants(ref) == OfAgent(b, tier)
  {
  }

  /** `agent:<b>:conversation` and `agent:<b>:building`. */
  lemma WantsModelOf(b: string, tier: Tier, word: string, name: string)
    requires ':' !in b && word == "agent" && name == if tier.Conversation? then "conversation" else "building"
    ensures Wants(word + [':'] + (b + [':'] + name)) == OfAgent(b, tier)
  {
    var ref := word + [':'] + (b + [':'] + name);
    TierOfName(name, tier);
    NoColon(word, name, tier);
    ThreeParts(word, b, name, ':');
    WantsFromParts(ref, word, b, name, tier);
  }

  lemma NoColon(word: string, name: string, tier: Tier)
    requires word == "agent" && name == if tier.Conversation? then "conversation" else "building"
    ensures ':' !in word && ':' !in name
  {
  }

  /** The value of a variable that is set. */
  predicate Holds(w: World, key: string, value: string) {
    key in w.env && w.env[key] == value
  }

  /** An agent's own variable wins. */
  lemma OwnVariableWins(w: World, agent: string, tier: Tier, value: string)
    requires Holds(w, AgentKey(agent, tier), value) && value != "" && Stripped(value)
    ensures RulesOf(w).agentValue(agent, tier) == Some(value)
  {
    StripOfStripped(value);
    var variables := SetVariables(w.env);
    assert AgentKey(agent, tier) in variables && AgentKeys(agent, tier)[0] == AgentKey(agent, tier);
    FirstSetWins(variables, AgentKeys(agent, tier), 0);
  }

  /** `model:agent:<b>:building`. */
  function BuildingOf(b: string): string {
    "agent" + [':'] + (b + [':'] + "building")
  }

  const OWN_TALK := "conversation"

  /** The three variables of the detour; there may be others. */
  predicate HasDetour(w: World, a: string, b: string, model: string) {
    && Holds(w, AgentKey(a, Conversation), PREFIX + BuildingOf(b))
    && Holds(w, AgentKey(b, Building), PREFIX + OWN_TALK)
    && Holds(w, AgentKey(b, Conversation), model)
  }

  lemma OwnTalkIs(w: World, talk: string)
    requires talk == OWN_TALK
    ensures RulesOf(w).parse(PREFIX + talk) == Reference(talk, OwnTier(Conversation))
  {
    WantsOneWord(talk);
    ParseReference(talk);
    assert RulesOf(w).parse(PREFIX + talk) == Parse(PREFIX + talk);
  }

  lemma BuildingIs(w: World, b: string)
    requires ':' !in b
    ensures RulesOf(w).parse(PREFIX + BuildingOf(b)) == Reference(BuildingOf(b), OfAgent(b, Building))
  {
    var ref, name := BuildingOf(b), "building";
    WantsModelOf(b, Building, "agent", name);
    assert ref[|ref| - 1] == name[|name| - 1];
    ParseReference(ref);
    assert RulesOf(w).parse(PREFIX + ref) == Parse(PREFIX + ref);
  }

  lemma ModelIs(w: World, model: string)
    requires Concrete(model) && Stripped(model)
    ensures RulesOf(w).parse(model) == Model(model)
  {
    StripOfStripped(model);
    assert RulesOf(w).parse(model) == Parse(model);
  }

  lemma DetourVariables(w: World, a: string, b: string, model: string, talk: string, building: string)
    requires HasDetour(w, a, b, model) && model != "" && Stripped(model)
    requires talk == OWN_TALK && building == BuildingOf(b)
    ensures RulesOf(w).agentValue(a, Conversation) == Some(PREFIX + building)
    ensures RulesOf(w).agentValue(b, Building) == Some(PREFIX + talk)
    ensures RulesOf(w).agentValue(b, Conversation) == Some(model)
  {
    var name := "building";
    assert building[|building| - 1] == name[|name| - 1];
    PrefixedIsStripped(building, PREFIX);
    PrefixedIsStripped(talk, PREFIX);
    OwnVariableWins(w, a, Conversation, PREFIX + building);
    OwnVariableWins(w, b, Building, PREFIX + talk);
    OwnVariableWins(w, b, Conversation, model);
  }

  /** Every environment with such variables has the spurious cycle, whatever else is set. */
  lemma SpuriousCycleIn(w: World, a: string, b: string, model: string)
    requires ':' !in b && Concrete(model) && Stripped(model) && HasDetour(w, a, b, model)
    ensures Valid(RulesOf(w))
    ensures var goal := Value(PREFIX + OWN_TALK, Some(a), Some(Conversation), None);
            && Resolve(RulesOf(w), goal, {}).Err? && Resolve(RulesOf(w), goal, {}).error.Cyclic?
            && Chase(Moves(RulesOf(w)), goal, 10).0 == Some(Ok(model))
  {
    RulesAreValid(w);
    OwnTalkIs(w, OWN_TALK);
    BuildingIs(w, b);
    ModelIs(w, model);
    DetourVariables(w, a, b, model, OWN_TALK, BuildingOf(b));
    SpuriousCycle(RulesOf(w), a, b, OWN_TALK, BuildingOf(b), PREFIX + OWN_TALK, PREFIX + BuildingOf(b), model);
  }

  lemma FramedDiffer(front: string, x: string, y: string, mid: string, back: string)
    requires front + x + mid + back == front + y + mid + back
    ensures x == y
  {
    var text := front + x + mid + back;
    assert |x| == |y|;
    assert text[|front|..|front| + |x|] == x && text[|front|..|front| + |x|] == y;
  }

  lemma TiersDiffer(x: string, s: Tier, y: string, t: Tier)
    requires x + TierName(s) == y + TierName(t)
    ensures s == t
  {
    var name, other := TierName(s), TierName(t);
    assert (x + name)[|x + name| - 1] == name[|name| - 1] && (y + other)[|y + other| - 1] == other[|other| - 1];
  }

  lemma KeysDiffer(a: string, s: Tier, b: string, t: Tier)
    requires AgentKey(a, s) == AgentKey(b, t)
    ensures s == t && SafeUpper(a) == SafeUpper(b)
  {
    var front := "LTAG_MODEL_AGENT_";
    TiersDiffer(front + SafeUpper(a) + "_", s, front + SafeUpper(b) + "_", t);
    FramedDiffer(front, SafeUpper(a), SafeUpper(b), "_", TierName(s));
  }

  /** Any two agents with variables of their own can get into it. */
  lemma DetourExists(a: string, b: string, model: string, roles: map<string, Role>,
                     defaults: map<(string, Tier), string>)
    returns (w: World)
    requires SafeUpper(a) != SafeUpper(b)
    ensures w.roles == roles && w.defaults == defaults && |w.env| == 3 && HasDetour(w, a, b, model)
  {
    var k1, k2, k3 := AgentKey(a, Conversation), AgentKey(b, Building), AgentKey(b, Conversation);
    if k1 == k2 { KeysDiffer(a, Conversation, b, Building); }
    if k1 == k3 { KeysDiffer(a, Conversation, b, Conversation); }
    if k2 == k3 { KeysDiffer(b, Building, b, Conversation); }
    w := World(map[k1 := PREFIX + BuildingOf(b)][k2 := PREFIX + OWN_TALK][k3 := model], roles, defaults);
    assert w.env.Keys == {k1, k2, k3};
  }
}
