/**
 The bounded tool-call loop of a turn. What the LLM and the tools do is given by two functions of the
 call's place in the run and its input, so nothing is assumed about them.
 */
module ToolRounds {
  import opened Wrappers
  import opened Utterances

  const MAX_TOOL_ROUNDS := 5
  const SEND_MESSAGE := "send_message"

  datatype ToolCall = ToolCall(id: string, name: string, arguments: string)

  datatype Content = Json(text: string) | UnknownTool(name: string) | Failure(reason: string)

  datatype Message =
    | Text(role: string, content: string)
    | Assistant(text: string, calls: seq<ToolCall>)
    | ToolResult(callId: string, result: Content)

  datatype Response = Response(content: string, calls: seq<ToolCall>, inputTokens: nat, outputTokens: nat,
                               cost: real, latency: nat)

  /** `toolChoice` is the tool the model is told to call. */
  datatype Request = Request(messages: seq<Message>, toolChoice: Option<string>)

  /** An exception: of the kinds `_generate_turn` catches, or another. */
  datatype Fault = Caught | Escaping

  /** A tool run: its value, an exception, or a cancellation; `sent` if a message went out on the bus. */
  datatype Ran = Ran(ended: Ending, sent: bool)
  datatype Ending = Value(text: string) | Exception(reason: string) | Cancellation

  datatype Totals = Totals(inputTokens: nat, outputTokens: nat, cost: real, latency: nat)

  // ---- What the chat API accepts ----

  function Ids(calls: seq<ToolCall>): seq<string> {
    seq(|calls|, i requires 0 <= i < |calls| => calls[i].id)
  }

  /**
   The tool results still owed after a message list, or None if it is malformed: results must follow
   the assistant message that asks for them, at once, one for each call, in the order of the calls.
   */
  function Owed(messages: seq<Message>): Option<seq<string>> {
    if messages == [] then Some([])
    else
      var owed, last := Owed(messages[..|messages| - 1]), messages[|messages| - 1];
      if owed.None? then None
      else if last.ToolResult? then
        if owed.value != [] && owed.value[0] == last.callId then Some(owed.value[1..]) else None
      else if owed.value != [] then None
      else Some(if last.Assistant? then Ids(last.calls) else [])
  }

  predicate WellFormed(messages: seq<Message>) {
    Owed(messages) == Some([])
  }

  /** One result for each call, in order. */
  predicate Answers(calls: seq<ToolCall>, results: seq<Message>) {
    |results| == |calls| && forall i :: 0 <= i < |calls| ==> results[i].ToolResult? && results[i].callId == calls[i].id
  }

  datatype Block = Block(text: string, calls: seq<ToolCall>, results: seq<Message>)

  predicate GoodBlock(b: Block) {
    b.calls != [] && Answers(b.calls, b.results)
  }

  function WithBlock(messages: seq<Message>, b: Block): seq<Message> {
    messages + [Assistant(b.text, b.calls)] + b.results
  }

  lemma OwedAfter(messages: seq<Message>, m: Message)
    ensures Owed(messages + [m]) ==
            if Owed(messages).None? then None
            else if m.ToolResult? then
              if Owed(messages).value != [] && Owed(messages).value[0] == m.callId then Some(Owed(messages).value[1..])
              else None
            else if Owed(messages).value != [] then None
            else Some(if m.Assistant? then Ids(m.calls) else [])
  {
    assert (messages + [m])[..|messages|] == messages;
  }

  lemma {:induction false} OwedWithin(messages: seq<Message>, b: Block, k: nat)
    requires WellFormed(messages) && GoodBlock(b) && k <= |b.calls|
    ensures Owed(messages + [Assistant(b.text, b.calls)] + b.results[..k]) == Some(Ids(b.calls)[k..])
  {
    var start := messages + [Assistant(b.text, b.calls)];
    if k == 0 {
      OwedAfter(messages, Assistant(b.text, b.calls));
      assert start + b.results[..0] == start;
    } else {
      OwedWithin(messages, b, k - 1);
      assert b.results[..k] == b.results[..k - 1] + [b.results[k - 1]];
      assert start + b.results[..k] == (start + b.results[..k - 1]) + [b.results[k - 1]];
      OwedAfter(start + b.results[..k - 1], b.results[k - 1]);
      assert Ids(b.calls)[k - 1..][1..] == Ids(b.calls)[k..];
    }
  }

  /** A block leaves a well-formed list well formed. */
  lemma BlockKeepsForm(messages: seq<Message>, b: Block)
    requires WellFormed(messages) && GoodBlock(b)
    ensures WellFormed(WithBlock(messages, b))
  {
    OwedWithin(messages, b, |b.calls|);
    assert b.results[..|b.calls|] == b.results;
    assert Ids(b.calls)[|b.calls|..] == [];
  }

  // ---- Running tools ----

  /** The calls that name a tool the agent has: those that run. */
  function Known(tools: set<string>, calls: seq<ToolCall>): seq<ToolCall> {
    if calls == [] then []
    else
      var rest, last := Known(tools, calls[..|calls| - 1]), calls[|calls| - 1];
      if last.name in tools then rest + [last] else rest
  }

  /** Each of them as often as it is called. */
  lemma {:induction false} KnownAsOften(tools: set<string>, calls: seq<ToolCall>, c: ToolCall)
    ensures multiset(Known(tools, calls))[c] == if c.name in tools then multiset(calls)[c] else 0
  {
    if calls != [] {
      var last := |calls| - 1;
      KnownAsOften(tools, calls[..last], c);
      assert calls == calls[..last] + [calls[last]];
    }
  }

  /** And in the order of the calls. */
  lemma {:induction false} KnownInOrder(tools: set<string>, calls: seq<ToolCall>, i: nat)
    requires i < |calls| && calls[i].name in tools
    ensures Known(tools, calls[..i]) + [calls[i]] <= Known(tools, calls)
    decreases |calls|
  {
    var last := |calls| - 1;
    if i < last {
      KnownInOrder(tools, calls[..last], i);
      assert calls[..last][..i] == calls[..i];
    }
  }

  function ResultOf(ended: Ending): Content
    requires !ended.Cancellation?
  {
    match ended
    case Value(text) => Json(text)
    case Exception(reason) => Failure(reason)
  }

  function RanNth(run: (nat, ToolCall) -> Ran, before: nat, tools: set<string>, calls: seq<ToolCall>, i: nat): Ran
    requires i < |calls|
  {
    run(before + |Known(tools, calls[..i])|, calls[i])
  }

  /** The result message of the i-th call, unless its run is cancelled. */
  function ResultNth(run: (nat, ToolCall) -> Ran, before: nat, tools: set<string>, calls: seq<ToolCall>,
                     i: nat): Option<Message>
    requires i < |calls|
  {
    if calls[i].name !in tools then Some(ToolResult(calls[i].id, UnknownTool(calls[i].name)))
    else
      var ran := RanNth(run, before, tools, calls, i);
      if ran.ended.Cancellation? then None else Some(ToolResult(calls[i].id, ResultOf(ran.ended)))
  }

  /** The result messages of the first `n` calls, unless one is cancelled. */
  function Results(run: (nat, ToolCall) -> Ran, before: nat, tools: set<string>, calls: seq<ToolCall>,
                   n: nat): Option<seq<Message>>
    requires n <= |calls|
  {
    if n == 0 then Some([])
    else
      var rest, last := Results(run, before, tools, calls, n - 1), ResultNth(run, before, tools, calls, n - 1);
      if rest.None? || last.None? then None else Some(rest.value + [last.value])
  }

  lemma {:induction false} ResultsAnswer(run: (nat, ToolCall) -> Ran, before: nat, tools: set<string>,
                                         calls: seq<ToolCall>, n: nat)
    requires n <= |calls| && Results(run, before, tools, calls, n).Some?
    ensures Answers(calls[..n], Results(run, before, tools, calls, n).value)
  {
    if n > 0 {
      ResultsAnswer(run, before, tools, calls, n - 1);
    }
  }

  /**
   What the model is told of a call: its tool's value, what the tool raised, or that there is no such tool.
   `nth` is the number of the tool run.
   */
  predicate Told(run: (nat, ToolCall) -> Ran, nth: nat, tools: set<string>, call: ToolCall, m: Message) {
    if call.name !in tools then m == ToolResult(call.id, UnknownTool(call.name))
    else match run(nth, call).ended
         case Value(text) => m == ToolResult(call.id, Json(text))
         case Exception(reason) => m == ToolResult(call.id, Failure(reason))
         case Cancellation => false
  }

  /** What the model is told of the i-th call when the calls run in order, `before` tools having run by then. */
  predicate ToldOf(run: (nat, ToolCall) -> Ran, before: nat, tools: set<string>, calls: seq<ToolCall>, i: nat,
                   m: Message)
    requires i < |calls|
  {
    Told(run, before + |Known(tools, calls[..i])|, tools, calls[i], m)
  }

  predicate CancelledAt(run: (nat, ToolCall) -> Ran, before: nat, tools: set<string>, calls: seq<ToolCall>, i: nat)
    requires i < |calls|
  {
    calls[i].name in tools && run(before + |Known(tools, calls[..i])|, calls[i]).ended.Cancellation?
  }

  lemma {:induction false} ResultTells(run: (nat, ToolCall) -> Ran, before: nat, tools: set<string>,
                                       calls: seq<ToolCall>, n: nat, i: nat)
    requires i < n <= |calls| && Results(run, before, tools, calls, n).Some?
    ensures |Results(run, before, tools, calls, n).value| == n
    ensures ToldOf(run, before, tools, calls, i, Results(run, before, tools, calls, n).value[i])
    decreases n
  {
    ResultsAnswer(run, before, tools, calls, n);
    ResultsAnswer(run, before, tools, calls, n - 1);
    if i < n - 1 {
      ResultTells(run, before, tools, calls, n - 1, i);
    }
  }

  lemma ResultsTell(run: (nat, ToolCall) -> Ran, before: nat, tools: set<string>, calls: seq<ToolCall>,
                    results: seq<Message>)
    requires Results(run, before, tools, calls, |calls|) == Some(results)
    ensures |results| == |calls|
    ensures forall i :: 0 <= i < |calls| ==> ToldOf(run, before, tools, calls, i, results[i])
    ensures forall i :: 0 <= i < |calls| ==> !CancelledAt(run, before, tools, calls, i)
  {
    ResultsAnswer(run, before, tools, calls, |calls|);
    forall i | 0 <= i < |calls| ensures ToldOf(run, before, tools, calls, i, results[i]) {
      ResultTells(run, before, tools, calls, |calls|, i);
    }
  }

  lemma {:induction false} CancelledForGood(run: (nat, ToolCall) -> Ran, before: nat, tools: set<string>,
                                            calls: seq<ToolCall>, n: nat, m: nat)
    requires n <= m <= |calls| && Results(run, before, tools, calls, n).None?
    ensures Results(run, before, tools, calls, m).None?
  {
    if n < m {
      CancelledForGood(run, before, tools, calls, n, m - 1);
    }
  }

  /** The call is a message that went out. */
  predicate GoesOut(run: (nat, ToolCall) -> Ran, before: nat, tools: set<string>, calls: seq<ToolCall>, i: nat)
    requires i < |calls|
  {
    calls[i].name == SEND_MESSAGE && SEND_MESSAGE in tools && RanNth(run, before, tools, calls, i).sent
  }

  /** The messages `send_message` puts on the bus while the first `n` calls run. */
  function Sends(run: (nat, ToolCall) -> Ran, before: nat, tools: set<string>, agent: Agent, calls: seq<ToolCall>,
                 n: nat): seq<Happening>
    requires n <= |calls|
  {
    if n == 0 then []
    else Sends(run, before, tools, agent, calls, n - 1)
         + if GoesOut(run, before, tools, calls, n - 1) then [Sent(agent, calls[n - 1].arguments)] else []
  }

  /** What the first `n` calls put on the bus, seen from the outside. */
  predicate SentBy(run: (nat, ToolCall) -> Ran, before: nat, tools: set<string>, agent: Agent, calls: seq<ToolCall>,
                   n: nat, start: seq<Happening>, now: seq<Happening>)
    requires n <= |calls|
  {
    && now == start + Sends(run, before, tools, agent, calls, n)
    && OnlySent(start, now, agent, SEND_MESSAGE in tools)
    && (n > 0 && GoesOut(run, before, tools, calls, 0) ==> OpensSent(start, now))
  }

  /** Each message that goes out is heard once, with its own arguments, in the order of the calls. */
  lemma {:induction false} SendsInOrder(run: (nat, ToolCall) -> Ran, before: nat, tools: set<string>, agent: Agent,
                                        calls: seq<ToolCall>, n: nat, i: nat)
    requires i < n <= |calls|
    ensures var sends := Sends(run, before, tools, agent, calls, n);
            var place := |Sends(run, before, tools, agent, calls, i)|;
            if GoesOut(run, before, tools, calls, i) then
              place < |sends| && sends[place] == Sent(agent, calls[i].arguments)
              && |Sends(run, before, tools, agent, calls, i + 1)| == place + 1
            else |Sends(run, before, tools, agent, calls, i + 1)| == place
    decreases n
  {
    if i < n - 1 {
      SendsInOrder(run, before, tools, agent, calls, n - 1, i);
    }
  }

  lemma SentNext(run: (nat, ToolCall) -> Ran, before: nat, tools: set<string>, agent: Agent, calls: seq<ToolCall>,
                 n: nat, start: seq<Happening>, now: seq<Happening>)
    requires n < |calls| && SentBy(run, before, tools, agent, calls, n, start, now)
    ensures var sent := if GoesOut(run, before, tools, calls, n) then [Sent(agent, calls[n].arguments)] else [];
            SentBy(run, before, tools, agent, calls, n + 1, start, now + sent)
  {
    var sent := if GoesOut(run, before, tools, calls, n) then [Sent(agent, calls[n].arguments)] else [];
    var sends := Sends(run, before, tools, agent, calls, n);
    assert start + sends + sent == start + (sends + sent);
    assert Sends(run, before, tools, agent, calls, n + 1) == sends + sent;
  }

  // ---- The rounds of a turn ----

  predicate Calls(calls: seq<ToolCall>, name: string) {
    exists i :: 0 <= i < |calls| && calls[i].name == name
  }

  /** The calls acted on in a round: in the first, the forced tool is put in front if the model left it out. */
  function Acted(defaults: string -> string, forced: Option<string>, round: nat, calls: seq<ToolCall>): seq<ToolCall> {
    if round == 0 && forced.Some? && !Calls(calls, forced.value)
    then [ToolCall("forced_" + forced.value, forced.value, defaults(forced.value))] + calls
    else calls
  }

  lemma ForcedIsCalled(defaults: string -> string, forced: string, calls: seq<ToolCall>)
    ensures Calls(Acted(defaults, Some(forced), 0, calls), forced)
  {
    var acted := Acted(defaults, Some(forced), 0, calls);
    if !Calls(calls, forced) {
      assert acted[0].name == forced;
    }
  }

  /** What a turn starts from: `before` and `ranBefore` count the model calls and tool runs made by then. */
  datatype Setup = Setup(complete: (nat, Request) -> Result<Response, Fault>, run: (nat, ToolCall) -> Ran,
                         defaults: string -> string, tools: set<string>, base: seq<Message>, forced: Option<string>,
                         before: nat, ranBefore: nat)

  /** The rounds in which tools ran, last first. */
  datatype History = Fresh | Round(earlier: History, reply: Response, results: seq<Message>)

  function Plus(t: Totals, r: Response): Totals {
    Totals(t.inputTokens + r.inputTokens, t.outputTokens + r.outputTokens, t.cost + r.cost, t.latency + r.latency)
  }

  /**
   Where a turn stands: its message list, what was asked and run so far, the sums over the replies, the last
   response.
   */
  datatype Progress = Progress(messages: seq<Message>, asked: seq<Request>, ran: seq<ToolCall>, totals: Totals,
                               rounds: nat, response: Response)

  const NO_RESPONSE := Response("", [], 0, 0, 0.0, 0)

  function Beginning(s: Setup): Progress {
    Progress(s.base, [], [], Totals(0, 0, 0.0, 0), 0, NO_RESPONSE)
  }

  function Next(s: Setup, p: Progress): Request {
    Request(p.messages, if p.rounds == 0 then s.forced else None)
  }

  function CallsOf(s: Setup, p: Progress, reply: Response): seq<ToolCall> {
    Acted(s.defaults, s.forced, p.rounds, reply.calls)
  }

  predicate Replied(s: Setup, p: Progress, reply: Response) {
    s.complete(s.before + p.rounds, Next(s, p)) == Ok(reply)
  }

  /** The reply calls tools, and each call has its tool's result. */
  predicate ToolsRan(s: Setup, p: Progress, reply: Response, results: seq<Message>) {
    var calls := CallsOf(s, p, reply);
    && calls != [] && s.tools != {}
    && Results(s.run, s.ranBefore + |p.ran|, s.tools, calls, |calls|) == Some(results)
  }

  /** One round further: a block more, a request more, the tools run, the totals increased. */
  function Further(s: Setup, p: Progress, reply: Response, results: seq<Message>): Progress {
    var calls := CallsOf(s, p, reply);
    Progress(WithBlock(p.messages, Block(reply.content, calls, results)), p.asked + [Next(s, p)],
             p.ran + Known(s.tools, calls), Plus(p.totals, reply), p.rounds + 1, reply.(calls := calls))
  }

  function Track(s: Setup, h: History): Progress {
    if h.Fresh? then Beginning(s) else Further(s, Track(s, h.earlier), h.reply, h.results)
  }

  /** The rounds happened: each reply is the model's, and each call in it has its tool's result. */
  predicate Genuine(s: Setup, h: History) {
    h.Round? ==>
      && Genuine(s, h.earlier) && Replied(s, Track(s, h.earlier), h.reply)
      && ToolsRan(s, Track(s, h.earlier), h.reply, h.results)
  }

  lemma RoundDone(s: Setup, h: History, p: Progress, reply: Response, results: seq<Message>)
    requires Genuine(s, h) && p == Track(s, h) && Replied(s, p, reply) && ToolsRan(s, p, reply, results)
    ensures Genuine(s, Round(h, reply, results)) && Track(s, Round(h, reply, results)) == Further(s, p, reply, results)
  {
  }

  lemma {:induction false} OnlyFirstForces(s: Setup, h: History)
    ensures var p := Track(s, h);
            && |p.asked| == p.rounds && (p.rounds > 0 ==> p.asked[0].toolChoice == s.forced)
            && (forall i :: 0 < i < |p.asked| ==> p.asked[i].toolChoice == None)
  {
    if h.Round? {
      OnlyFirstForces(s, h.earlier);
    }
  }

  predicate Sound(s: Setup, messages: seq<Message>) {
    WellFormed(messages) && s.base <= messages
  }

  lemma FurtherIsSound(s: Setup, p: Progress, reply: Response, results: seq<Message>)
    requires Sound(s, p.messages) && ToolsRan(s, p, reply, results)
    ensures Sound(s, Further(s, p, reply, results).messages)
  {
    var calls := CallsOf(s, p, reply);
    ResultsAnswer(s.run, s.ranBefore + |p.ran|, s.tools, calls, |calls|);
    assert calls[..|calls|] == calls;
    BlockKeepsForm(p.messages, Block(reply.content, calls, results));
  }

  /**
   Every message list the model is shown is well formed and extends the one the turn began with, and
   only the first request of the turn forces a tool.
   */
  lemma {:induction false} RequestsWellFormed(s: Setup, h: History)
    requires WellFormed(s.base) && Genuine(s, h)
    ensures var p := Track(s, h);
            && WellFormed(p.messages) && s.base <= p.messages && |p.asked| == p.rounds
            && (forall i :: 0 <= i < |p.asked| ==> WellFormed(p.asked[i].messages) && s.base <= p.asked[i].messages)
            && (forall i :: 0 < i < |p.asked| ==> p.asked[i].toolChoice == None)
            && (p.rounds > 0 ==> p.asked[0].toolChoice == s.forced)
  {
    OnlyFirstForces(s, h);
    if h.Round? {
      RequestsWellFormed(s, h.earlier);
      FurtherIsSound(s, Track(s, h.earlier), h.reply, h.results);
    }
  }

  /** The first block calls the forced tool, whatever the model answered. */
  lemma {:induction false} ForcedToolIsInFirstBlock(s: Setup, h: History)
    requires s.forced.Some? && h.Round?
    ensures |s.base| < |Track(s, h).messages| && Track(s, h).rounds > 0
    ensures var first := Track(s, h).messages[|s.base|];
            first.Assistant? && Calls(first.calls, s.forced.value)
  {
    if h.earlier.Fresh? {
      ForcedIsCalled(s.defaults, s.forced.value, h.reply.calls);
    } else {
      ForcedToolIsInFirstBlock(s, h.earlier);
    }
  }

  /** The replies to the rounds in which tools ran, first to last. */
  function Replies(h: History): seq<Response> {
    if h.Fresh? then [] else Replies(h.earlier) + [h.reply]
  }

  function SumOf(replies: seq<Response>, of: Response -> real): real {
    if replies == [] then 0.0 else SumOf(replies[..|replies| - 1], of) + of(replies[|replies| - 1])
  }

  predicate Sums(totals: Totals, replies: seq<Response>) {
    && totals.inputTokens as real == SumOf(replies, (r: Response) => r.inputTokens as real)
    && totals.outputTokens as real == SumOf(replies, (r: Response) => r.outputTokens as real)
    && totals.cost == SumOf(replies, (r: Response) => r.cost)
    && totals.latency as real == SumOf(replies, (r: Response) => r.latency as real)
  }

  lemma PlusSums(totals: Totals, replies: seq<Response>, reply: Response)
    requires Sums(totals, replies)
    ensures Sums(Plus(totals, reply), replies + [reply])
  {
    assert (replies + [reply])[..|replies|] == replies;
  }

  lemma {:induction false} TrackSums(s: Setup, h: History)
    ensures Sums(Track(s, h).totals, Replies(h))
  {
    if h.Round? {
      TrackSums(s, h.earlier);
      PlusSums(Track(s, h.earlier).totals, Replies(h.earlier), h.reply);
    }
  }

  /** The totals of a turn are the sums over all its replies, and what it ends with says what the last one said. */
  lemma TotalsAreSums(s: Setup, h: History, last: Option<Response>, r: Rounds)
    requires Ended(s, Track(s, h), last, r)
    ensures var replies := Replies(h) + if last.Some? then [last.value] else [];
            && Sums(r.totals, replies)
            && replies != [] && r.response.content == replies[|replies| - 1].content
  {
    TrackSums(s, h);
    if last.Some? {
      PlusSums(Track(s, h).totals, Replies(h), last.value);
    } else {
      assert Replies(h) + [] == Replies(h);
    }
  }

  /** How one round ends: by an exception, with the last reply, or with its tools run. */
  datatype RoundEnd =
    | Failed(fault: Fault)
    | Final(reply: Response, response: Response)
    | Went(reply: Response, response: Response, results: seq<Message>)

  /** What came of the rounds. */
  datatype Rounds = Rounds(response: Response, totals: Totals, usedTools: bool)

  /**
   How the rounds can end after the rounds in which tools ran: with a last reply that leaves no calls to
   act on, or by the limit, with the reply of the last round.
   */
  predicate Ended(s: Setup, p: Progress, last: Option<Response>, r: Rounds) {
    && r.usedTools == (p.rounds > 0)
    && match last
       case Some(reply) =>
         && p.rounds <= MAX_TOOL_ROUNDS && Replied(s, p, reply) && r.response == reply.(calls := CallsOf(s, p, reply))
         && (r.response.calls == [] || s.tools == {}) && r.totals == Plus(p.totals, reply)
       case None => p.rounds == MAX_TOOL_ROUNDS + 1 && r.totals == p.totals && r.response == p.response
  }

  /** How the rounds can fail: the next request is answered with an exception, or a tool it asks for is cancelled. */
  predicate Fails(s: Setup, p: Progress, fault: Fault) {
    match s.complete(s.before + p.rounds, Next(s, p))
    case Err(raised) => fault == raised
    case Ok(reply) =>
      var calls := CallsOf(s, p, reply);
      && calls != [] && s.tools != {} && fault == Escaping
      && Results(s.run, s.ranBefore + |p.ran|, s.tools, calls, |calls|) == None
  }

  /** What came of a turn's rounds, given those in which tools ran and the last reply if it was another. */
  predicate CameOf(s: Setup, h: History, last: Option<Response>, came: Result<Rounds, Fault>) {
    Genuine(s, h) && if came.Ok? then Ended(s, Track(s, h), last, came.value) else Fails(s, Track(s, h), came.error)
  }

  /** What was asked: a request for each round, and one more unless the tools stopped the turn or the limit did. */
  predicate RequestsMade(s: Setup, p: Progress, before: seq<Request>, after: seq<Request>) {
    || (after == before + p.asked && p.rounds <= MAX_TOOL_ROUNDS + 1)
    || (after == before + (p.asked + [Next(s, p)]) && p.rounds <= MAX_TOOL_ROUNDS)
  }

  /** A turn makes at most `MAX_TOOL_ROUNDS + 1` calls of the model, each with a well-formed list. */
  lemma RoundsAreBounded(s: Setup, h: History, before: seq<Request>, after: seq<Request>)
    requires RequestsMade(s, Track(s, h), before, after) && WellFormed(s.base) && Genuine(s, h)
    ensures before <= after && |after| <= |before| + MAX_TOOL_ROUNDS + 1
    ensures forall i :: |before| <= i < |after| ==> WellFormed(after[i].messages) && s.base <= after[i].messages
    ensures forall i :: |before| < i < |after| ==> after[i].toolChoice == None
  {
    RequestsWellFormed(s, h);
    var p := Track(s, h);
    forall i | |before| <= i < |after| ensures after[i] == (p.asked + [Next(s, p)])[i - |before|] {
    }
  }

  /**
   The constant bounds the calls of the model, not the rounds of tools: the rounds come out above it
   exactly when the last request it allows is answered with calls to act on.
   */
  lemma LimitExceededExactlyWhen(s: Setup, h: History, before: seq<Request>, after: seq<Request>,
                                 last: Option<Response>, r: Rounds)
    requires Genuine(s, h) && |Track(s, h).asked| == Track(s, h).rounds
    requires RequestsMade(s, Track(s, h), before, after) && Ended(s, Track(s, h), last, r)
    ensures Track(s, h).rounds > MAX_TOOL_ROUNDS
            <==> |after| == |before| + MAX_TOOL_ROUNDS + 1 && r.response.calls != []
  {
    if h.Round? {
      assert ToolsRan(s, Track(s, h.earlier), h.reply, h.results);
    }
  }

  /** A model that always calls the same tool, and a tool that always answers. */
  function Insistent(call: ToolCall, base: seq<Message>): Setup {
    Setup((_, _) => Ok(Response("", [call], 0, 0, 0.0, 0)), (_, _) => Ran(Value(""), false), _ => "",
          {call.name}, base, None, 0, 0)
  }

  function Insisting(call: ToolCall, n: nat): History {
    if n == 0 then Fresh
    else Round(Insisting(call, n - 1), Response("", [call], 0, 0, 0.0, 0), [ToolResult(call.id, Json(""))])
  }

  lemma OneResult(run: (nat, ToolCall) -> Ran, before: nat, tools: set<string>, call: ToolCall)
    requires call.name in tools && run(before, call) == Ran(Value(""), false)
    ensures Results(run, before, tools, [call], 1) == Some([ToolResult(call.id, Json(""))])
  {
    var calls := [call];
    assert calls[..0] == [];
    assert RanNth(run, before, tools, calls, 0) == run(before, call);
    assert Results(run, before, tools, calls, 0) == Some([]);
    var none: seq<Message> := [];
    assert none + [ToolResult(call.id, Json(""))] == [ToolResult(call.id, Json(""))];
  }

  lemma {:induction false} InsistingIsGenuine(call: ToolCall, base: seq<Message>, n: nat)
    ensures var s, h := Insistent(call, base), Insisting(call, n);
            Genuine(s, h) && Track(s, h).rounds == n && |Track(s, h).asked| == n
  {
    if n > 0 {
      InsistingIsGenuine(call, base, n - 1);
      var s, p := Insistent(call, base), Track(Insistent(call, base), Insisting(call, n - 1));
      OneResult(s.run, s.ranBefore + |p.ran|, s.tools, call);
      assert CallsOf(s, p, Response("", [call], 0, 0, 0.0, 0)) == [call];
    }
  }

  /** So there are turns with one round of tools more than the constant says. */
  lemma LimitCanBeExceeded(call: ToolCall, base: seq<Message>) returns (s: Setup, h: History)
    ensures s.base == base && s.tools == {call.name}
    ensures Genuine(s, h) && Track(s, h).rounds == MAX_TOOL_ROUNDS + 1
    ensures var p := Track(s, h);
            RequestsMade(s, p, [], p.asked) && Ended(s, p, None, Rounds(p.response, p.totals, true))
  {
    s, h := Insistent(call, base), Insisting(call, MAX_TOOL_ROUNDS + 1);
    InsistingIsGenuine(call, base, MAX_TOOL_ROUNDS + 1);
    assert Track(s, h).asked == [] + Track(s, h).asked;
  }

  // ---- How a turn begins ----

  /** The first request that a turn makes. */
  predicate AskedFirst(s: Setup, before: seq<Request>, after: seq<Request>) {
    |before| < |after| && before <= after && after[|before|] == Next(s, Beginning(s))
  }

  lemma FirstStays(s: Setup, p: Progress, before: seq<Request>, after: seq<Request>)
    requires after == before + (p.asked + [Next(s, p)])
    requires p == Beginning(s) || AskedFirst(s, before, before + p.asked)
    ensures AskedFirst(s, before, after)
  {
    assert p != Beginning(s) ==> after[|before|] == (before + p.asked)[|before|];
  }

  /** The model's next answer begins with a message that goes out. */
  predicate SendsNext(s: Setup, p: Progress) {
    var reply := s.complete(s.before + p.rounds, Next(s, p));
    reply.Ok? &&
    var calls := CallsOf(s, p, reply.value);
    calls != [] && GoesOut(s.run, s.ranBefore + |p.ran|, s.tools, calls, 0)
  }

  /** The model's first answer begins with such a message. */
  predicate OpensWithMessage(s: Setup) {
    SendsNext(s, Beginning(s))
  }

  /** What is heard of a turn in its first rounds: messages by its agent, and one at once if the model begins so. */
  predicate Heard(s: Setup, rounds: nat, before: seq<Happening>, after: seq<Happening>, agent: Agent) {
    && OnlySent(before, after, agent, SEND_MESSAGE in s.tools)
    && if rounds == 0 then after == before else OpensWithMessage(s) ==> OpensSent(before, after)
  }

  lemma HeardFurther(s: Setup, p: Progress, a: seq<Happening>, b: seq<Happening>, c: seq<Happening>, agent: Agent)
    requires Heard(s, p.rounds, a, b, agent) && OnlySent(b, c, agent, SEND_MESSAGE in s.tools)
    requires SendsNext(s, p) ==> OpensSent(b, c)
    requires p.rounds == 0 ==> p == Beginning(s)
    ensures Heard(s, p.rounds + 1, a, c, agent)
  {
    OnlySentTwice(a, b, c, agent, SEND_MESSAGE in s.tools);
    if p.rounds > 0 && OpensWithMessage(s) {
      OpenedSent(a, b, c);
    }
  }

  /** The message list of a turn, which the rounds extend in place. */
  class Transcript {
    var messages: seq<Message>

    constructor (messages: seq<Message>)
      ensures this.messages == messages
    {
      this.messages := messages;
    }
  }

  /** The LLM client, the tools and the bus, with a log of what was asked of them. */
  class Outside {
    const complete: (nat, Request) -> Result<Response, Fault>
    const run: (nat, ToolCall) -> Ran
    const defaults: string -> string
    var requests: seq<Request>
    var ran: seq<ToolCall>
    var timeline: seq<Happening>

    constructor (complete: (nat, Request) -> Result<Response, Fault>, run: (nat, ToolCall) -> Ran,
                 defaults: string -> string)
      ensures this.complete == complete && this.run == run && this.defaults == defaults
      ensures requests == [] && ran == [] && timeline == []
    {
      this.complete, this.run, this.defaults := complete, run, defaults;
      requests, ran, timeline := [], [], [];
    }

    method Complete(request: Request) returns (reply: Result<Response, Fault>)
      modifies `requests
      ensures requests == old(requests) + [request]
      ensures reply == complete(|old(requests)|, request)
    {
      reply := complete(|requests|, request);
      requests := requests + [request];
    }

    /** One result message for each call, whether the tool is unknown, raises or returns; a cancellation ends it. */
    method ExecuteToolCalls(calls: seq<ToolCall>, tools: set<string>, agent: Agent)
      returns (results: Result<seq<Message>, Fault>)
      modifies `ran, `timeline
      ensures results == match Results(run, |old(ran)|, tools, calls, |calls|)
                         case Some(ms) => Ok(ms)
                         case None => Err(Escaping)
      ensures results.Err? <==> exists i :: 0 <= i < |calls| && CancelledAt(run, |old(ran)|, tools, calls, i)
      ensures results.Ok? ==>
                && |results.value| == |calls|
                && forall i :: 0 <= i < |calls| ==> ToldOf(run, |old(ran)|, tools, calls, i, results.value[i])
      ensures results.Ok? ==>
                && ran == old(ran) + Known(tools, calls)
                && timeline == old(timeline) + Sends(run, |old(ran)|, tools, agent, calls, |calls|)
      ensures OnlySent(old(timeline), timeline, agent, SEND_MESSAGE in tools)
      ensures calls != [] && GoesOut(run, |old(ran)|, tools, calls, 0) ==> OpensSent(old(timeline), timeline)
    {
      var messages, i := [], 0;
      ghost var before, start := |ran|, timeline;
      while i < |calls|
        invariant 0 <= i <= |calls| && Results(run, before, tools, calls, i) == Some(messages)
        invariant ran == old(ran) + Known(tools, calls[..i])
        invariant SentBy(run, before, tools, agent, calls, i, start, timeline)
      {
        var call := calls[i];
        SentNext(run, before, tools, agent, calls, i, start, timeline);
        assert calls[..i + 1][..i] == calls[..i];
        if call.name !in tools {
          messages := messages + [ToolResult(call.id, UnknownTool(call.name))];
        } else {
          var outcome := run(|ran|, call);
          assert outcome == RanNth(run, before, tools, calls, i);
          ran := ran + [call];
          if call.name == SEND_MESSAGE && outcome.sent {
            timeline := timeline + [Sent(agent, call.arguments)];
          }
          if outcome.ended.Cancellation? {
            assert CancelledAt(run, before, tools, calls, i);
            CancelledForGood(run, before, tools, calls, i + 1, |calls|);
            return Err(Escaping);
          }
          messages := messages + [ToolResult(call.id, ResultOf(outcome.ended))];
        }
        i := i + 1;
      }
      assert calls[..i] == calls;
      ResultsTell(run, before, tools, calls, messages);
      results := Ok(messages);
    }

    /** If a tool was forced and the model left it out, its call is put in front. */
    method EnsureForced(reply: Response, forced: Option<string>, round: nat) returns (response: Response)
      ensures response == reply.(calls := Acted(defaults, forced, round, reply.calls))
      ensures round == 0 && forced.Some? ==> response.calls != []
      ensures if round == 0 && forced.Some?
                 && forall i :: 0 <= i < |reply.calls| ==> reply.calls[i].name != forced.value
              then
                var call := ToolCall("forced_" + forced.value, forced.value, defaults(forced.value));
                response == reply.(calls := [call] + reply.calls)
              else response == reply
    {
      response := reply;
      if round == 0 && forced.Some? {
        ForcedIsCalled(defaults, forced.value, reply.calls);
        if !Calls(reply.calls, forced.value) {
          var call := ToolCall("forced_" + forced.value, forced.value, defaults(forced.value));
          response := reply.(calls := [call] + reply.calls);
        }
      }
    }

    /** The tool phase of a round: the assistant message goes on the transcript, then its results. */
    method AppendBlock(agent: Agent, transcript: Transcript, tools: set<string>, text: string, calls: seq<ToolCall>)
      returns (results: Result<seq<Message>, Fault>)
      modifies `ran, `timeline, transcript
      ensures results.Err? ==>
                results.error == Escaping && Results(run, |old(ran)|, tools, calls, |calls|) == None
      ensures results.Ok? ==>
                && Results(run, |old(ran)|, tools, calls, |calls|) == Some(results.value)
                && ran == old(ran) + Known(tools, calls)
                && transcript.messages == WithBlock(old(transcript.messages), Block(text, calls, results.value))
                && transcript.messages == old(transcript.messages) + [Assistant(text, calls)] + results.value
      ensures OnlySent(old(timeline), timeline, agent, SEND_MESSAGE in tools)
      ensures calls != [] && GoesOut(run, |old(ran)|, tools, calls, 0) ==> OpensSent(old(timeline), timeline)
    {
      transcript.messages := transcript.messages + [Assistant(text, calls)];
      results := ExecuteToolCalls(calls, tools, agent);
      if results.Ok? {
        transcript.messages := transcript.messages + results.value;
      }
    }

    /** The logs and the transcript stand where the progress says, counted from the turn's start. */
    ghost predicate InStep(s: Setup, p: Progress, asked: seq<Request>, ranFirst: seq<ToolCall>, transcript: Transcript)
      reads `requests, `ran, transcript
    {
      && s.complete == complete && s.run == run && s.defaults == defaults
      && s.before == |asked| && s.ranBefore == |ranFirst|
      && |p.asked| == p.rounds && requests == asked + p.asked && ran == ranFirst + p.ran
      && transcript.messages == p.messages
    }

    /** The request of a round, and the reply with the forced call if it is the first. */
    method Ask(transcript: Transcript, forced: Option<string>, round: nat,
               ghost s: Setup, ghost p: Progress, ghost asked: seq<Request>, ghost ranFirst: seq<ToolCall>)
      returns (reply: Result<Response, Fault>, response: Response)
      requires InStep(s, p, asked, ranFirst, transcript) && s.forced == forced && p.rounds == round
      modifies `requests
      ensures requests == asked + (p.asked + [Next(s, p)])
      ensures requests == old(requests) + [Request(transcript.messages, if round == 0 then forced else None)]
      ensures reply == s.complete(s.before + p.rounds, Next(s, p))
      ensures reply.Ok? ==> response == reply.value.(calls := CallsOf(s, p, reply.value))
      ensures reply.Ok? && round == 0 && forced.Some? ==> response.calls != []
    {
      reply := Complete(Request(transcript.messages, if round == 0 then forced else None));
      response := NO_RESPONSE;
      if reply.Ok? {
        response := EnsureForced(reply.value, forced, round);
      }
    }

    /**
     One round: a request, the forced call if it is the first, and the tool phase unless the reply leaves
     nothing to call. The ghost parameters say where the turn stands.
     */
    method OneRound(agent: Agent, transcript: Transcript, tools: set<string>, forced: Option<string>, round: nat,
                    ghost s: Setup, ghost p: Progress, ghost asked: seq<Request>, ghost ranFirst: seq<ToolCall>)
      returns (end: RoundEnd)
      requires InStep(s, p, asked, ranFirst, transcript) && s.tools == tools && s.forced == forced && p.rounds == round
      modifies `requests, `ran, `timeline, transcript
      ensures requests == asked + (p.asked + [Next(s, p)])
      ensures end.Failed? ==> Fails(s, p, end.fault)
      ensures !end.Failed? ==> Replied(s, p, end.reply) && end.response == end.reply.(calls := CallsOf(s, p, end.reply))
      ensures end.Final? ==>
                && (end.response.calls == [] || tools == {})
                && transcript.messages == p.messages && ran == ranFirst + p.ran
      ensures end.Went? ==>
                && ToolsRan(s, p, end.reply, end.results)
                && InStep(s, Further(s, p, end.reply, end.results), asked, ranFirst, transcript)
      ensures round == 0 && forced.Some? && tools != {} ==> !end.Final?
      ensures OnlySent(old(timeline), timeline, agent, SEND_MESSAGE in tools)
      ensures SendsNext(s, p) ==> OpensSent(old(timeline), timeline)
    {
      var reply, response := Ask(transcript, forced, round, s, p, asked, ranFirst);
      if reply.Err? {
        return Failed(reply.error);
      }
      if response.calls == [] || tools == {} {
        return Final(reply.value, response);
      }
      var results := AppendBlock(agent, transcript, tools, response.content, response.calls);
      end := if results.Err? then Failed(results.error) else Went(reply.value, response, results.value);
    }

    /**
     The rounds of a turn. `history` holds those in which tools ran: at most `MAX_TOOL_ROUNDS + 1`,
     so at most as many calls of the model. The transcript has grown by exactly their blocks, and the
     totals are the sums over all replies.
     */
    method ExecuteToolRounds(agent: Agent, transcript: Transcript, tools: set<string>, wanted: Option<string>)
      returns (rounds: Result<Rounds, Fault>, ghost history: History, ghost last: Option<Response>)
      modifies `requests, `ran, `timeline, transcript
      ensures var s := Setup(complete, run, defaults, tools, old(transcript.messages),
                             if wanted.Some? && wanted.value in tools then wanted else None,
                             |old(requests)|, |old(ran)|);
              var p := Track(s, history);
              && Genuine(s, history) && RequestsMade(s, p, old(requests), requests) && |p.asked| == p.rounds
              && (rounds.Ok? ==>
                    && Ended(s, p, last, rounds.value)
                    && transcript.messages == p.messages && ran == old(ran) + p.ran
                    && (s.forced.Some? ==> p.rounds > 0))
              && CameOf(s, history, last, rounds)
              && AskedFirst(s, old(requests), requests) && Heard(s, 1, old(timeline), timeline, agent)
    {
      history, last := Fresh, None;
      var usedTools, totals := false, Totals(0, 0, 0.0, 0);
      var forced := if wanted.Some? && wanted.value in tools then wanted else None;
      var response := NO_RESPONSE;
      ghost var s := Setup(complete, run, defaults, tools, transcript.messages, forced, |requests|, |ran|);
      ghost var asked, ranFirst, p := requests, ran, Beginning(s);
      var round := 0;
      while round < MAX_TOOL_ROUNDS + 1
        invariant 0 <= round <= MAX_TOOL_ROUNDS + 1 && round == p.rounds
        invariant Genuine(s, history) && p == Track(s, history) && InStep(s, p, asked, ranFirst, transcript)
        invariant totals == p.totals && response == p.response && usedTools == (round > 0)
        invariant if round == 0 then p == Beginning(s) else AskedFirst(s, asked, asked + p.asked)
        invariant Heard(s, round, old(timeline), timeline, agent)
      {
        ghost var heard := timeline;
        var end := OneRound(agent, transcript, tools, forced, round, s, p, asked, ranFirst);
        HeardFurther(s, p, old(timeline), heard, timeline, agent);
        FirstStays(s, p, asked, requests);
        match end {
          case Failed(fault) =>
            return Err(fault), history, None;
          case Final(reply, final) =>
            return Ok(Rounds(final, Plus(totals, reply), usedTools)), history, Some(reply);
          case Went(reply, acted, results) =>
            response, totals, usedTools := acted, Plus(totals, reply), true;
            RoundDone(s, history, p, reply, results);
            history, p := Round(history, reply, results), Further(s, p, reply, results);
        }
        round := round + 1;
      }
      rounds := Ok(Rounds(response, totals, usedTools));
    }
  }
}
