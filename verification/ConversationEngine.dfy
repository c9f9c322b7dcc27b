/**
 The turn engine: opening, middle and closing lines of a conversation, each generated, checked for
 repetition, put to Management and only then spoken. What the outside answers (prompt assembly, the
 reviewing LLM, speaker selection, exceptions) is an input of each call.
 */
module ConversationEngine {
  import opened Wrappers
  import opened PyText
  import opened Utterances
  import opened ToolRounds
  import opened TurnRecord
  import M = Management

  const MAX_GENERATE_RETRIES := 3
  const NUDGE_EVERY := 4
  const REPETITION_NUDGE := Text("user",
    "[SYSTEM: Your response is very similar to something said recently. Take a completely different angle, "
    + "bring up a new topic, or ask someone a question.]")

  /** What happens around one attempt at a line: the prompt, the time until review, the review's LLM, and exceptions. */
  datatype Attempt = Attempt(prompt: Result<seq<Message>, Fault>, meanwhile: M.Meanwhile,
                             reply: M.Reply, elapsed: M.Seconds,
                             reviewFault: Option<Fault>, interveneFault: Option<Fault>, memo: string)

  /** The attempts a turn may need, in order. */
  type Attempts = nat -> Attempt

  /** A new conversation: an exception before it exists, who can speak, a preferred starter, a tool to force. */
  datatype Trigger = Trigger(fault: Option<Fault>, eligible: seq<Agent>, starter: Option<Agent>, wanted: Option<string>,
                             attempts: Attempts)

  /**
   A middle turn: an exception on the way to it, whether the conversation's energy lasts until then,
   the eligible agents and the one selected, an exception after the line, and whether it goes on.
   */
  datatype Scene = Scene(fault: Option<Fault>, lasts: bool, eligible: seq<Agent>, selected: Agent,
                         attempts: Attempts, lateFault: Option<Fault>, goesOn: bool)

  /** An end: the closer, if there is one, and an exception while the conversation is being wrapped up. */
  datatype Finish = Finish(closer: Option<Agent>, attempts: Attempts, fault: Option<Fault>)

  /** One turn of the main loop, and what happened since the last. */
  datatype Beat = Beat(meanwhile: M.Meanwhile, trigger: Option<Trigger>, scene: Scene, finish: Finish)

  /** A text put to Management, and when. */
  datatype Put = Put(text: string, at: real)

  /**
   One attempt at a line as it went: its outcome, its tool rounds and what came of them, what was put to
   Management, and all requests made by its end.
   */
  datatype Try = Try(outcome: Result<Option<string>, Fault>, talk: Option<Talk>, rounds: Result<Rounds, Fault>,
                     put: Option<Put>, asked: seq<Request>)

  /** What the tool rounds of an attempt started from, those in which tools ran, and the last reply if another. */
  datatype Talk = Talk(setup: Setup, history: History, last: Option<Response>)

  class ConversationEngine {
    const management: M.Management
    const outside: Outside
    const enabled: bool
    const toolsOf: Agent -> set<string>
    const similar: (string, string) -> bool
    var active: Option<Conversation>
    var recentOutputs: seq<string>
    var lastTurnHadTools: bool
    var streak: nat
    var productive: nat
    var total: nat

    constructor (management: M.Management, outside: Outside, enabled: bool, toolsOf: Agent -> set<string>,
                 similar: (string, string) -> bool, recentOutputs: seq<string>)
      requires outside.timeline == []
      ensures this.management == management && this.outside == outside && this.enabled == enabled
      ensures this.toolsOf == toolsOf && this.similar == similar && active == None
      ensures this.recentOutputs == Latest(recentOutputs)
      ensures Valid()
    {
      this.management, this.outside, this.enabled := management, outside, enabled;
      this.toolsOf, this.similar := toolsOf, similar;
      this.recentOutputs := Latest(recentOutputs);
      active, lastTurnHadTools, streak, productive, total := None, false, 0, 0, 0;
    }

    predicate Enforced() {
      enabled && management.policy == M.Enforce
    }

    /** Nothing is due: every line spoken so far, and nothing else, has passed review. */
    ghost predicate Settled()
      reads outside`timeline
    {
      && (Enforced() ==> Governed(management.words, outside.timeline))
      && SendersAble(toolsOf, outside.timeline)
    }

    /** Exactly `line` is due. */
    ghost predicate Awaits(line: Option<Line>)
      reads outside`timeline
    {
      && (Enforced() ==> Due(management.words, outside.timeline) == Some(line))
      && SendersAble(toolsOf, outside.timeline)
    }

    ghost predicate Valid()
      reads this, outside
    {
      && Settled()
      && (active.Some? ==> Recorded(outside.timeline, active.value))
      && |recentOutputs| <= RECENT_OUTPUTS && productive <= total
    }

    method IsRepetitive(content: string) returns (found: bool)
      ensures found <==> exists i :: 0 <= i < |recentOutputs| && Repeats(similar, content, recentOutputs[i])
      ensures found <==> |content| >= 20
                         && exists i :: 0 <= i < |recentOutputs| && |recentOutputs[i]| >= 20
                                        && similar(content, recentOutputs[i])
      ensures found <==> !Fresh(content)
    {
      var outputs, i := recentOutputs, 0;
      UnlikeEach(similar, content, outputs);
      while i < |outputs|
        invariant 0 <= i <= |outputs|
        invariant forall k :: 0 <= k < i ==> !Repeats(similar, content, outputs[k])
      {
        if Repeats(similar, content, outputs[i]) {
          return true;
        }
        i := i + 1;
      }
      found := false;
    }

    function VerdictOn(agent: Agent, content: string, reply: M.Reply): M.Result
      reads management
    {
      M.Judged(management.policy, management.words, management.IsMuted(agent), management.breaker, management.now,
               reply, content)
    }

    /**
     The text that goes to review: the content, or what one regeneration makes of a repetition; nothing
     if that repeats a recent output too.
     */
    function Candidate(content: string, messages: seq<Message>): Result<Option<string>, Fault>
      reads `recentOutputs, outside`requests
    {
      if Fresh(content) then Ok(Some(content))
      else
        var again := outside.complete(|outside.requests|, Request(messages + [REPETITION_NUDGE], None));
        if again.Err? then Err(again.error)
        else
          var text := if Strip(again.value.content) != "" then Strip(again.value.content) else content;
          Ok(if Fresh(text) then Some(text) else None)
    }

    /** The reviewing LLM gets to see the text: its author is not muted, no word is blocked, the breaker is closed. */
    predicate Reaches(agent: Agent, text: string, mutedUntil: map<Agent, real>, breaker: M.Breaker, at: real) {
      && !(agent in mutedUntil && at < mutedUntil[agent])
      && M.BlockedKeyword(management.words, text).None?
      && !(breaker.openUntil.Some? && at < breaker.openUntil.value)
    }

    /**
     What becomes of a text put to Management: it is the line, or nothing skips the turn, or "" asks for
     another attempt, or an exception ends this one. `reached` tells whether the reviewing LLM sees it.
     */
    predicate ReviewedAs(attempt: Attempt, reached: bool, text: string, outcome: Result<Option<string>, Fault>) {
      if !enabled then outcome == Ok(Some(text))
      else if attempt.reviewFault.Some? then outcome == Err(attempt.reviewFault.value)
      else if management.policy != M.Enforce || (reached && attempt.reply.Json? && attempt.reply.approved) then
        outcome == Ok(Some(text))
      else if attempt.interveneFault.Some? then outcome == Err(attempt.interveneFault.value)
      else if reached && attempt.reply.Json? && attempt.reply.severity >= 4 then outcome == Ok(None)
      else outcome == Ok(Some(""))
    }

    /** A review, entered in the timeline with what it was based on. */
    method Review(agent: Agent, content: string, attempt: Attempt) returns (result: Result<M.Result, Fault>)
      requires Settled()
      modifies management, outside`timeline
      ensures Quiet(old(outside.timeline), outside.timeline) && |outside.timeline| <= |old(outside.timeline)| + 1
      ensures Awaits(if result.Ok? && result.value.approved then Some(Line(agent, content)) else None)
      ensures result == if attempt.reviewFault.Some? then Err(attempt.reviewFault.value)
                        else Ok(old(VerdictOn(agent, content, attempt.reply)))
      ensures result.Ok? ==> result.value.replacement == None
      ensures management.mutedUntil == old(management.mutedUntil)
      ensures management.policy == M.Enforce ==> management.events == old(management.events)
    {
      if attempt.reviewFault.Some? {
        return Err(attempt.reviewFault.value);
      }
      var basis := Basis(management.IsMuted(agent), M.Blocks(management.breaker, management.now), attempt.reply);
      var verdict := management.Review(agent, content, attempt.reply, attempt.elapsed);
      DueAfter(management.words, outside.timeline, Happening.Reviewed(agent, content, basis));
      outside.timeline := outside.timeline + [Happening.Reviewed(agent, content, basis)];
      result := Ok(verdict);
    }

    /** The repetition check: one regeneration, after a nudge, for a text that repeats a recent output. */
    method Regenerate(content: string, transcript: Transcript) returns (candidate: Result<Option<string>, Fault>)
      requires content != ""
      modifies outside`requests, transcript
      ensures candidate == old(Candidate(content, transcript.messages))
      ensures old(Fresh(content)) ==> candidate == Ok(Some(content)) && outside.requests == old(outside.requests)
      ensures !old(Fresh(content)) ==>
                var request := Request(old(transcript.messages) + [REPETITION_NUDGE], None);
                var again := outside.complete(|old(outside.requests)|, request);
                && outside.requests == old(outside.requests) + [request]
                && match again
                   case Err(fault) => candidate == Err(fault)
                   case Ok(reply) =>
                     var text := if Strip(reply.content) == "" then content else Strip(reply.content);
                     candidate == Ok(if Fresh(text) then Some(text) else None)
      ensures candidate.Ok? && candidate.value.Some? ==> candidate.value.value != "" && Fresh(candidate.value.value)
      ensures |outside.requests| == |old(outside.requests)| + if old(Fresh(content)) then 0 else 1
      ensures old(outside.requests) <= outside.requests
    {
      var repetitive := IsRepetitive(content);
      if !repetitive {
        return Ok(Some(content));
      }
      transcript.messages := transcript.messages + [REPETITION_NUDGE];
      var again := outside.Complete(Request(transcript.messages, None));
      if again.Err? {
        return Err(again.error);
      }
      var text := content;
      if Strip(again.value.content) != "" {
        text := Strip(again.value.content);
      }
      repetitive := IsRepetitive(text);
      candidate := Ok(if repetitive then None else Some(text));
    }

    /** The review of a text and what follows from a rejection. */
    method PutToReview(agent: Agent, text: string, attempt: Attempt) returns (line: Result<Option<string>, Fault>)
      requires Settled() && text != ""
      modifies management, outside`timeline
      ensures Quiet(old(outside.timeline), outside.timeline)
      ensures Awaits(Passing(agent, line))
      ensures ReviewedAs(attempt, Reaches(agent, text, old(management.mutedUntil), old(management.breaker),
                                          old(management.now)), text, line)
      ensures Passing(agent, line).Some? ==> line.value.value == text
      ensures var reached := Reaches(agent, text, old(management.mutedUntil), old(management.breaker),
                                     old(management.now));
              var severity := if reached && attempt.reply.Json? then M.Clamp(attempt.reply.severity) else 3;
              enabled && attempt.reviewFault.None? && management.policy == M.Enforce
              && !(reached && attempt.reply.Json? && attempt.reply.approved) ==>
                && management.events == old(management.events) + [
                  if severity <= 2 then M.Warning(agent, severity, severity == 2)
                  else M.Intervention(agent, severity, if severity == 3 then Some(attempt.memo) else None,
                                      severity == 4, severity == 5)]
                && management.mutedUntil
                   == (if severity == 5 then old(management.mutedUntil)[agent := management.now + 300.0]
                       else old(management.mutedUntil))
    {
      if !enabled {
        return Ok(Some(text));
      }
      var result := Review(agent, text, attempt);
      if result.Err? {
        return Err(result.error);
      }
      if result.value.approved {
        return Ok(Some(text));
      }
      management.Intervene(result.value.severity, agent, attempt.memo);
      if attempt.interveneFault.Some? {
        return Err(attempt.interveneFault.value);
      }
      line := if result.value.severity >= 4 then Ok(result.value.replacement) else Ok(Some(""));
    }

    /**
     Repetition check and review: the line to speak, nothing to skip the turn, or "" to try again. A
     line it returns has just passed review and repeats no recent output.
     */
    method ApplyPostProcessing(agent: Agent, content: string, transcript: Transcript, attempt: Attempt)
      returns (line: Result<Option<string>, Fault>, ghost put: Option<Put>)
      requires Settled() && content != ""
      modifies management, outside`timeline, outside`requests, transcript
      ensures Quiet(old(outside.timeline), outside.timeline)
      ensures Awaits(Passing(agent, line))
      ensures match old(Candidate(content, transcript.messages))
              case Ok(Some(text)) =>
                && put == Some(Put(text, old(management.now))) && Fresh(text)
                && ReviewedAs(attempt, Reaches(agent, text, old(management.mutedUntil), old(management.breaker),
                                               old(management.now)), text, line)
              case none => put == None && line == none
      ensures |outside.requests| == |old(outside.requests)| + if old(Fresh(content)) then 0 else 1
      ensures old(outside.requests) <= outside.requests
      ensures Passing(agent, line).Some? ==> Fresh(line.value.value)
    {
      put := None;
      var candidate := Regenerate(content, transcript);
      if candidate.Err? || candidate.value.None? {
        return candidate, put;
      }
      put := Some(Put(candidate.value.value, management.now));
      line := PutToReview(agent, candidate.value.value, attempt);
    }

    /** The line that a returned text stands for. */
    function Passing(agent: Agent, line: Result<Option<string>, Fault>): Option<Line> {
      if line.Ok? && line.value.Some? && line.value.value != "" then Some(Line(agent, line.value.value)) else None
    }

    /** If no recent output repeated an earlier one, none does now. */
    ghost predicate KeptFresh(before: seq<string>)
      reads `recentOutputs
    {
      NoRepeats(similar, before) ==> NoRepeats(similar, recentOutputs)
    }

    predicate Fresh(content: string)
      reads `recentOutputs
    {
      Unlike(similar, content, recentOutputs)
    }

    /** How an attempt goes, given the recent outputs. */
    ghost predicate TriedAs(agent: Agent, attempt: Attempt, wanted: Option<string>, outputs: seq<string>, t: Try) {
      && (match attempt.prompt
          case Err(fault) => t.rounds == Err(fault)
          case Ok(messages) => t.talk.Some? && TalkedAs(agent, messages, wanted, t.talk.value, t.rounds))
      && match t.rounds
         case Err(fault) => t.outcome == Err(fault) && t.put == None
         case Ok(rounds) =>
           if Strip(rounds.response.content) == "" then t.outcome == Ok(Some("")) && t.put == None
           else ProcessedAs(agent, attempt, Strip(rounds.response.content), outputs, t.put, t.outcome)
    }

    /** The tool rounds of an attempt, from its prompt on and with the agent's own tools. */
    ghost predicate TalkedAs(agent: Agent, messages: seq<Message>, wanted: Option<string>, talk: Talk,
                             came: Result<Rounds, Fault>)
    {
      && talk.setup == Setup(outside.complete, outside.run, outside.defaults, toolsOf(agent), messages,
                             ForcedOn(agent, wanted), talk.setup.before, talk.setup.ranBefore)
      && CameOf(talk.setup, talk.history, talk.last, came)
    }

    /** How an attempt goes that has come to a text. */
    ghost predicate ProcessedAs(agent: Agent, attempt: Attempt, content: string, outputs: seq<string>,
                                put: Option<Put>, outcome: Result<Option<string>, Fault>)
    {
      match put
      case None => !Unlike(similar, content, outputs) && (outcome.Err? || outcome == Ok(None))
      case Some(p) =>
        && Unlike(similar, p.text, outputs) && (Unlike(similar, content, outputs) ==> p.text == content)
        && ReviewedAs(attempt, Seen(agent, attempt, p), p.text, outcome)
    }

    /** The reviewing LLM gets to see the text of the attempt. */
    predicate Seen(agent: Agent, attempt: Attempt, put: Put) {
      Reaches(agent, put.text, attempt.meanwhile.mutedUntil, attempt.meanwhile.breaker, put.at)
    }

    /** A text was put to Management, which enforces, and nothing raised. */
    predicate Decided(attempt: Attempt, t: Try) {
      Enforced() && t.put.Some? && attempt.reviewFault.None? && attempt.interveneFault.None?
    }

    /** The LLM saw the text and rejected it as a broadcast interrupt or an emergency. */
    predicate RejectedForGood(agent: Agent, attempt: Attempt, t: Try) {
      && Decided(attempt, t) && Seen(agent, attempt, t.put.value)
      && attempt.reply.Json? && !attempt.reply.approved && attempt.reply.severity >= 4
    }

    /** The LLM rejected the text mildly, or gave no verdict: mute, keyword, open breaker, failure, no JSON. */
    predicate RejectedMildly(agent: Agent, attempt: Attempt, t: Try) {
      && Decided(attempt, t)
      && (Seen(agent, attempt, t.put.value) && attempt.reply.Json? ==>
            !attempt.reply.approved && attempt.reply.severity < 4)
    }

    /** A caught exception, an empty reply or a mild rejection asks for another attempt. */
    static predicate Retried(outcome: Result<Option<string>, Fault>) {
      outcome == Err(Caught) || outcome == Ok(Some(""))
    }

    static predicate AllRetried(tries: seq<Try>) {
      forall i :: 0 <= i < |tries| ==> Retried(tries[i].outcome)
    }

    /** The outcome of a turn is its first attempt that does not ask for another, or nothing after three that do. */
    static predicate TurnOf(tries: seq<Try>, line: Result<Option<string>, Fault>) {
      && 1 <= |tries| <= MAX_GENERATE_RETRIES && AllRetried(tries[..|tries| - 1])
      && var last := tries[|tries| - 1].outcome;
         if Retried(last) then |tries| == MAX_GENERATE_RETRIES && line == Ok(None) else line == last
    }

    ghost predicate AllTriedAs(agent: Agent, attempts: Attempts, wanted: Option<string>, outputs: seq<string>,
                               tries: seq<Try>)
    {
      forall i {:trigger TriedAs(agent, attempts(i), wanted, outputs, tries[i])} ::
        0 <= i < |tries| ==> TriedAs(agent, attempts(i), wanted, outputs, tries[i])
    }

    lemma TriedNext(agent: Agent, attempts: Attempts, wanted: Option<string>, outputs: seq<string>, tries: seq<Try>,
                    t: Try)
      requires AllTriedAs(agent, attempts, wanted, outputs, tries)
      requires TriedAs(agent, attempts(|tries|), wanted, outputs, t)
      ensures AllTriedAs(agent, attempts, wanted, outputs, tries + [t])
    {
    }

    static lemma TurnEnds(tries: seq<Try>, t: Try)
      requires AllRetried(tries) && |tries| < MAX_GENERATE_RETRIES
      ensures if Retried(t.outcome) then AllRetried(tries + [t]) else TurnOf(tries + [t], t.outcome)
    {
      assert (tries + [t])[..|tries|] == tries;
    }

    /** What a turn makes of the verdicts on its attempts, and of exceptions: a caught one leads to another attempt. */
    ghost predicate VerdictsDecide(agent: Agent, attempts: Attempts, tries: seq<Try>,
                                   line: Result<Option<string>, Fault>)
    {
      && (forall i :: 0 <= i < |tries| && RejectedForGood(agent, attempts(i), tries[i]) ==>
            i == |tries| - 1 && line == Ok(None))
      && (forall i :: 0 <= i < |tries| && RejectedMildly(agent, attempts(i), tries[i]) ==>
            i < |tries| - 1 || (i == 2 && line == Ok(None)))
      && (forall i :: 0 <= i < |tries| && tries[i].outcome == Err(Escaping) ==>
            i == |tries| - 1 && line == Err(Escaping))
      && (forall i :: 0 <= i < |tries| && tries[i].outcome == Err(Caught) ==>
            i < |tries| - 1 || (i == 2 && line == Ok(None)))
    }

    lemma SevereSkips(agent: Agent, attempt: Attempt, wanted: Option<string>, outputs: seq<string>, t: Try)
      requires TriedAs(agent, attempt, wanted, outputs, t) && RejectedForGood(agent, attempt, t)
      ensures t.outcome == Ok(None)
    {
    }

    lemma MildRetries(agent: Agent, attempt: Attempt, wanted: Option<string>, outputs: seq<string>, t: Try)
      ensures TriedAs(agent, attempt, wanted, outputs, t) && RejectedMildly(agent, attempt, t) ==>
                t.outcome == Ok(Some(""))
    {
    }

    static lemma RetriedUnlessLast(tries: seq<Try>, line: Result<Option<string>, Fault>, i: nat)
      requires TurnOf(tries, line) && i < |tries|
      ensures Retried(tries[i].outcome) ==> i < |tries| - 1 || (i == 2 && line == Ok(None))
      ensures !Retried(tries[i].outcome) ==> i == |tries| - 1 && line == tries[i].outcome
    {
      var init := tries[..|tries| - 1];
      if i < |init| {
        assert Retried(init[i].outcome);
      }
    }

    /** A severe rejection ends the turn at once, without a line; after a mild one it goes on, up to three attempts. */
    lemma RejectionsDecide(agent: Agent, attempts: Attempts, wanted: Option<string>, outputs: seq<string>,
                           tries: seq<Try>, line: Result<Option<string>, Fault>)
      requires AllTriedAs(agent, attempts, wanted, outputs, tries) && TurnOf(tries, line)
      ensures VerdictsDecide(agent, attempts, tries, line)
    {
      forall i | 0 <= i < |tries| && RejectedForGood(agent, attempts(i), tries[i])
        ensures i == |tries| - 1 && line == Ok(None)
      {
        SevereSkips(agent, attempts(i), wanted, outputs, tries[i]);
        RetriedUnlessLast(tries, line, i);
      }
      forall i | 0 <= i < |tries| && RejectedMildly(agent, attempts(i), tries[i])
        ensures i < |tries| - 1 || (i == 2 && line == Ok(None))
      {
        MildRetries(agent, attempts(i), wanted, outputs, tries[i]);
        RetriedUnlessLast(tries, line, i);
      }
      forall i | 0 <= i < |tries| && tries[i].outcome.Err?
        ensures if tries[i].outcome.error.Escaping? then i == |tries| - 1 && line == Err(Escaping)
                else i < |tries| - 1 || (i == 2 && line == Ok(None))
      {
        RetriedUnlessLast(tries, line, i);
      }
    }

    /** The tool that the conversation's trigger forces. */
    function Wanted(): Option<string>
      reads `active
    {
      if active.Some? then active.value.wanted else None
    }

    /** A wanted tool is forced on an agent that has it. */
    function ForcedOn(agent: Agent, wanted: Option<string>): Option<string> {
      if wanted.Some? && wanted.value in toolsOf(agent) then wanted else None
    }

    /** What a turn of `agent` would start from now. */
    function TurnSetup(agent: Agent, messages: seq<Message>, wanted: Option<string>): Setup
      reads outside
    {
      Setup(outside.complete, outside.run, outside.defaults, toolsOf(agent), messages, ForcedOn(agent, wanted),
            |outside.requests|, |outside.ran|)
    }

    function DawnOf(agent: Agent, prompt: Result<seq<Message>, Fault>, wanted: Option<string>): Dawn
      reads outside
    {
      Dawn(TurnSetup(agent, if prompt.Ok? then prompt.value else [], wanted), prompt.Ok?, outside.requests,
           outside.timeline)
    }

    /** The model's answer to a prompt, tool rounds included. */
    method AskModel(agent: Agent, transcript: Transcript)
      returns (rounds: Result<Rounds, Fault>, ghost talk: Talk)
      requires Settled()
      modifies outside, transcript
      ensures Settled() && Quiet(old(outside.timeline), outside.timeline)
      ensures |outside.requests| <= |old(outside.requests)| + MAX_TOOL_ROUNDS + 1
      ensures var messages := old(transcript.messages);
              Follows(old(DawnOf(agent, Ok(messages), Wanted())), outside.requests, outside.timeline)
      ensures talk.setup == old(TurnSetup(agent, transcript.messages, Wanted()))
      ensures TalkedAs(agent, old(transcript.messages), Wanted(), talk, rounds)
    {
      ghost var setup := TurnSetup(agent, transcript.messages, Wanted());
      ghost var started := outside.timeline;
      var wanted := if active.Some? then active.value.wanted else None;
      ghost var history, last;
      rounds, history, last := outside.ExecuteToolRounds(agent, transcript, toolsOf(agent), wanted);
      talk := Talk(setup, history, last);
      SendingIsQuiet(toolsOf, started, outside.timeline, agent);
      if Enforced() {
        SendingKeepsGoverned(management.words, started, outside.timeline, agent, SEND_MESSAGE in toolsOf(agent));
      }
    }

    /** Post-processing in the course of a turn that began at `dawn`. */
    method PostProcessInTurn(agent: Agent, content: string, transcript: Transcript, attempt: Attempt, ghost dawn: Dawn)
      returns (line: Result<Option<string>, Fault>, ghost put: Option<Put>)
      requires Settled() && content != "" && Quiet(dawn.heard, outside.timeline)
      requires Follows(dawn, outside.requests, outside.timeline)
      requires management.mutedUntil == attempt.meanwhile.mutedUntil && management.breaker == attempt.meanwhile.breaker
      modifies management, outside`timeline, outside`requests, transcript
      ensures Quiet(dawn.heard, outside.timeline) && Follows(dawn, outside.requests, outside.timeline)
      ensures Awaits(Passing(agent, line))
      ensures Passing(agent, line).Some? ==> Fresh(line.value.value)
      ensures |outside.requests| <= |old(outside.requests)| + 1
      ensures ProcessedAs(agent, attempt, content, recentOutputs, put, line)
    {
      ghost var heard, asked := outside.timeline, outside.requests;
      line, put := ApplyPostProcessing(agent, content, transcript, attempt);
      QuietTwice(dawn.heard, heard, outside.timeline);
      FollowsOn(dawn, asked, heard, outside.requests, outside.timeline);
    }

    /** One pass through the body of the retry loop: prompt, tool rounds, post-processing; "" to try again. */
    method OneAttempt(agent: Agent, attempt: Attempt)
      returns (line: Result<Option<string>, Fault>, ghost t: Try)
      requires Settled()
      modifies `lastTurnHadTools, management, outside
      ensures Quiet(old(outside.timeline), outside.timeline)
      ensures Awaits(Passing(agent, line))
      ensures Passing(agent, line).Some? ==> Fresh(line.value.value)
      ensures |outside.requests| <= |old(outside.requests)| + MAX_TOOL_ROUNDS + 2
      ensures Follows(old(DawnOf(agent, attempt.prompt, Wanted())), outside.requests, outside.timeline)
      ensures t.outcome == line && t.asked == outside.requests && TriedAs(agent, attempt, Wanted(), recentOutputs, t)
      ensures lastTurnHadTools
              == if t.rounds.Ok? && Strip(t.rounds.value.response.content) != "" then t.rounds.value.usedTools
                 else old(lastTurnHadTools)
    {
      if attempt.prompt.Err? {
        var fault := attempt.prompt.error;
        return Err(fault), Try(Err(fault), None, Err(fault), None, outside.requests);
      }
      line, t := Prompted(agent, attempt.prompt.value, attempt);
    }

    /** The rest of an attempt that has its prompt. */
    method Prompted(agent: Agent, messages: seq<Message>, attempt: Attempt)
      returns (line: Result<Option<string>, Fault>, ghost t: Try)
      requires Settled() && attempt.prompt == Ok(messages)
      modifies `lastTurnHadTools, management, outside
      ensures Quiet(old(outside.timeline), outside.timeline)
      ensures Awaits(Passing(agent, line))
      ensures Passing(agent, line).Some? ==> Fresh(line.value.value)
      ensures |outside.requests| <= |old(outside.requests)| + MAX_TOOL_ROUNDS + 2
      ensures Follows(old(DawnOf(agent, Ok(messages), Wanted())), outside.requests, outside.timeline)
      ensures t.outcome == line && t.asked == outside.requests && TriedAs(agent, attempt, Wanted(), recentOutputs, t)
      ensures lastTurnHadTools
              == if t.rounds.Ok? && Strip(t.rounds.value.response.content) != "" then t.rounds.value.usedTools
                 else old(lastTurnHadTools)
    {
      var transcript := new Transcript(messages);
      ghost var dawn := DawnOf(agent, Ok(messages), Wanted());
      var came;
      ghost var talk;
      came, talk := AskModel(agent, transcript);
      if came.Err? {
        return Err(came.error), Try(Err(came.error), Some(talk), came, None, outside.requests);
      }
      var content := Strip(came.value.response.content);
      if content == "" {
        return Ok(Some("")), Try(Ok(Some("")), Some(talk), came, None, outside.requests);
      }
      lastTurnHadTools := came.value.usedTools;
      management.Elapse(attempt.meanwhile);
      ghost var put;
      line, put := PostProcessInTurn(agent, content, transcript, attempt, dawn);
      t := Try(line, Some(talk), came, put, outside.requests);
    }

    /** The next attempt in the course of a turn that began at `dawn`, after those made `before`. */
    method TryOnce(agent: Agent, attempts: Attempts, n: nat, ghost dawn: Dawn, ghost before: seq<Try>)
      returns (line: Result<Option<string>, Fault>, ghost tries: seq<Try>)
      requires Settled() && Quiet(dawn.heard, outside.timeline)
      requires if n == 0 then dawn == DawnOf(agent, attempts(0).prompt, Wanted())
               else Follows(dawn, outside.requests, outside.timeline)
      requires |before| == n < MAX_GENERATE_RETRIES && AllRetried(before)
      requires AllTriedAs(agent, attempts, Wanted(), recentOutputs, before)
      modifies `lastTurnHadTools, management, outside
      ensures Quiet(dawn.heard, outside.timeline) && Follows(dawn, outside.requests, outside.timeline)
      ensures Awaits(Passing(agent, line))
      ensures Passing(agent, line).Some? ==> Fresh(line.value.value)
      ensures |outside.requests| <= |old(outside.requests)| + MAX_TOOL_ROUNDS + 2
      ensures |tries| == n + 1 && tries[n].asked == outside.requests
      ensures AllTriedAs(agent, attempts, Wanted(), recentOutputs, tries)
      ensures if Retried(line) then AllRetried(tries) else TurnOf(tries, line)
    {
      ghost var heard, asked := outside.timeline, outside.requests;
      ghost var t;
      line, t := OneAttempt(agent, attempts(n));
      tries := before + [t];
      TriedNext(agent, attempts, Wanted(), recentOutputs, before, t);
      TurnEnds(before, t);
      QuietTwice(dawn.heard, heard, outside.timeline);
      if n > 0 {
        FollowsOn(dawn, asked, heard, outside.requests, outside.timeline);
      }
    }

    /** A text that repeats none of the recent outputs joins them. */
    method Remember(text: string)
      requires Fresh(text)
      modifies `recentOutputs
      ensures recentOutputs == Push(old(recentOutputs), text) && KeptFresh(old(recentOutputs))
    {
      if NoRepeats(similar, recentOutputs) {
        PushKeepsNoRepeats(similar, recentOutputs, text);
      }
      recentOutputs := Push(recentOutputs, text);
    }

    /** The retry loop: attempts until one does not ask for another, at most three. */
    method TryInTurn(agent: Agent, attempts: Attempts)
      returns (line: Result<Option<string>, Fault>, ghost tries: seq<Try>)
      requires Settled()
      modifies `lastTurnHadTools, management, outside
      ensures line.Ok? && line.value.Some? ==> line.value.value != ""
      ensures TurnOf(tries, line) && outside.requests == tries[|tries| - 1].asked
      ensures AllTriedAs(agent, attempts, Wanted(), recentOutputs, tries)
      ensures Quiet(old(outside.timeline), outside.timeline)
      ensures Awaits(Passing(agent, line))
      ensures Passing(agent, line).Some? ==> Fresh(line.value.value)
      ensures |outside.requests| <= |old(outside.requests)| + MAX_GENERATE_RETRIES * (MAX_TOOL_ROUNDS + 2)
      ensures Follows(old(DawnOf(agent, attempts(0).prompt, Wanted())), outside.requests, outside.timeline)
    {
      ghost var dawn := DawnOf(agent, attempts(0).prompt, Wanted());
      tries := [];
      var attempt := 0;
      while attempt < MAX_GENERATE_RETRIES
        invariant 0 <= attempt <= MAX_GENERATE_RETRIES && |tries| == attempt && AllRetried(tries)
        invariant AllTriedAs(agent, attempts, Wanted(), recentOutputs, tries)
        invariant attempt > 0 ==> outside.requests == tries[attempt - 1].asked
        invariant Settled() && Quiet(dawn.heard, outside.timeline)
        invariant |outside.requests| <= |dawn.asked| + attempt * (MAX_TOOL_ROUNDS + 2)
        invariant if attempt == 0 then dawn == DawnOf(agent, attempts(0).prompt, Wanted())
                  else Follows(dawn, outside.requests, outside.timeline)
      {
        var one;
        one, tries := TryOnce(agent, attempts, attempt, dawn, tries);
        if one.Err? {
          if one.error.Escaping? {
            return one, tries;
          }
        } else if one.value != Some("") {
          return one, tries;
        }
        attempt := attempt + 1;
      }
      line := Ok(None);
    }

    /**
     A line, nothing when the turn is skipped or every attempt fails, or an exception that is not
     caught. Nothing is spoken meanwhile; a line returned has just passed review, repeats none of the
     recent outputs and joins them. `tries` are the attempts made: all but the last, or all three, asked
     for another. A severe rejection is the last of them, with no request after it; a mild one is followed
     by another attempt while fewer than three were made. A turn calls the model at most 21 times.
     */
    method GenerateTurn(agent: Agent, attempts: Attempts)
      returns (line: Result<Option<string>, Fault>, ghost tries: seq<Try>)
      requires Settled()
      modifies `recentOutputs, `lastTurnHadTools, management, outside
      ensures line.Ok? && line.value.Some? ==> line.value.value != ""
      ensures TurnOf(tries, line) && outside.requests == tries[|tries| - 1].asked
      ensures AllTriedAs(agent, attempts, Wanted(), old(recentOutputs), tries)
      ensures VerdictsDecide(agent, attempts, tries, line)
      ensures Quiet(old(outside.timeline), outside.timeline)
      ensures Awaits(Passing(agent, line))
      ensures recentOutputs == if Passing(agent, line).Some? then Push(old(recentOutputs), line.value.value)
                               else old(recentOutputs)
      ensures Passing(agent, line).Some? ==> old(Fresh(line.value.value))
      ensures KeptFresh(old(recentOutputs))
      ensures |outside.requests| <= |old(outside.requests)| + MAX_GENERATE_RETRIES * (MAX_TOOL_ROUNDS + 2)
      ensures Follows(old(DawnOf(agent, attempts(0).prompt, Wanted())), outside.requests, outside.timeline)
    {
      line, tries := TryInTurn(agent, attempts);
      RejectionsDecide(agent, attempts, Wanted(), recentOutputs, tries, line);
      if line.Ok? && line.value.Some? {
        Remember(line.value.value);
      }
    }

    /** A turn in the conversation: what `GenerateTurn` yields leaves the record as it is. */
    method Voice(agent: Agent, attempts: Attempts, ghost conv: Conversation)
      returns (line: Result<Option<string>, Fault>)
      requires Settled() && Recorded(outside.timeline, conv) && |recentOutputs| <= RECENT_OUTPUTS
      modifies `recentOutputs, `lastTurnHadTools, management, outside
      ensures Recorded(outside.timeline, conv) && |recentOutputs| <= RECENT_OUTPUTS
      ensures line.Ok? && line.value.Some? ==> line.value.value != ""
      ensures Quiet(old(outside.timeline), outside.timeline) && Awaits(Passing(agent, line))
      ensures KeptFresh(old(recentOutputs))
      ensures Follows(old(DawnOf(agent, attempts(0).prompt, Wanted())), outside.requests, outside.timeline)
    {
      ghost var heard := outside.timeline;
      ghost var tries;
      line, tries := GenerateTurn(agent, attempts);
      QuietKeepsRecord(heard, outside.timeline, conv);
    }

    /** Writes a line down and speaks it; `heard` is what was heard before its turn. */
    method Say(conv: Conversation, line: Line, place: Place, ghost heard: seq<Happening>)
      requires active == Some(conv) && Awaits(Some(line)) && conv.turn >= 1
      requires Recorded(outside.timeline, conv.(turn := conv.turn - 1)) && Quiet(heard, outside.timeline)
      modifies `active, outside`timeline
      ensures outside.timeline == old(outside.timeline) + [Spoke(line.agent, line.content, conv.turn, place)]
      ensures EndsWith(heard, outside.timeline, Spoke(line.agent, line.content, conv.turn, place))
      ensures active == Some(conv.(history := conv.history + [Said(line)]))
      ensures Settled() && Recorded(outside.timeline, active.value)
    {
      active := Some(conv.(history := conv.history + [Said(line)]));
      var spoken := Spoke(line.agent, line.content, conv.turn, place);
      DueAfter(management.words, outside.timeline, spoken);
      SpeakingKeepsRecord(outside.timeline, conv, line, place);
      QuietThenSpoken(heard, outside.timeline, spoken);
      outside.timeline := outside.timeline + [spoken];
    }

    /** The trigger's starter if eligible, or else the first eligible agent. */
    static function Opener(trigger: Trigger): (agent: Agent)
      requires trigger.eligible != []
      ensures agent in trigger.eligible
      ensures trigger.starter.Some? && trigger.starter.value in trigger.eligible ==> agent == trigger.starter.value
      ensures trigger.starter.None? || trigger.starter.value !in trigger.eligible ==> agent == trigger.eligible[0]
    {
      if trigger.starter.Some? && trigger.starter.value in trigger.eligible then trigger.starter.value
      else trigger.eligible[0]
    }

    /** The opening turn of a conversation just created. */
    method Open(conv: Conversation, opener: Agent, attempts: Attempts) returns (line: Result<Option<string>, Fault>)
      requires active == Some(conv) && conv.turn == 0 && conv.history == [] && conv.start == |outside.timeline|
      requires Settled() && |recentOutputs| <= RECENT_OUTPUTS
      modifies `recentOutputs, `lastTurnHadTools, `active, management, outside
      ensures Settled() && |recentOutputs| <= RECENT_OUTPUTS && KeptFresh(old(recentOutputs))
      ensures active.Some? && Recorded(outside.timeline, active.value)
      ensures line.Ok? && line.value.Some? ==>
                && active == Some(conv.(turn := 1, history := [Said(Line(opener, line.value.value))]))
                && EndsWith(old(outside.timeline), outside.timeline, Spoke(opener, line.value.value, 1, Opening))
      ensures !(line.Ok? && line.value.Some?) ==> active == Some(conv) && Quiet(old(outside.timeline), outside.timeline)
      ensures Follows(old(DawnOf(opener, attempts(0).prompt, conv.wanted)), outside.requests, outside.timeline)
    {
      ghost var dawn, heard := DawnOf(opener, attempts(0).prompt, conv.wanted), outside.timeline;
      line := Voice(opener, attempts, conv);
      if line.Ok? && line.value.Some? {
        ghost var heard' := outside.timeline;
        active := Some(conv.(turn := 1));
        Say(conv.(turn := 1), Line(opener, line.value.value), Opening, heard);
        FollowsOn(dawn, outside.requests, heard', outside.requests, outside.timeline);
      }
    }

    /** The new conversation has spoken its opening line, or does not exist; an exception can leave it silent. */
    method StartConversation(trigger: Trigger) returns (fault: Option<Fault>)
      requires Valid() && active.None?
      modifies this, management, outside
      ensures Valid() && KeptFresh(old(recentOutputs))
      ensures trigger.fault.Some? || trigger.eligible == [] ==>
                outside.timeline == old(outside.timeline) && active.None? && fault == trigger.fault
      ensures if fault.None? && active.Some? then
                && trigger.fault.None? && trigger.eligible != []
                && active.value.turn == 1 && |active.value.history| == 1 && active.value.history[0].Said?
                && var line := active.value.history[0].line;
                   && line.agent == Opener(trigger)
                   && EndsWith(old(outside.timeline), outside.timeline, Spoke(line.agent, line.content, 1, Opening))
              else Quiet(old(outside.timeline), outside.timeline)
      ensures fault.Some? && trigger.fault.None? ==> active.Some? && active.value.history == []
      ensures active.Some? ==> active.value.wanted == trigger.wanted
      ensures trigger.fault.None? && trigger.eligible != [] ==>
                Follows(old(DawnOf(Opener(trigger), trigger.attempts(0).prompt, trigger.wanted)),
                        outside.requests, outside.timeline)
      ensures var spoke := if fault.None? && active.Some? then 1 else 0;
              && total == old(total) + spoke
              && productive == old(productive) + (if lastTurnHadTools then spoke else 0)
              && streak == old(streak) + if lastTurnHadTools then 0 else spoke
    {
      fault := trigger.fault;
      if fault.Some? || trigger.eligible == [] {
        return;
      }
      var conv := Conversation(|outside.timeline|, trigger.wanted, 0, []);
      active := Some(conv);
      var line := Open(conv, Opener(trigger), trigger.attempts);
      if line.Err? {
        return Some(line.error);
      }
      if line.value.None? {
        active := None;
        return;
      }
      total := total + 1;
      if lastTurnHadTools {
        productive := productive + 1;
      } else {
        streak := streak + 1;
      }
    }

    /** After four turns of talk alone, and after every four more, the history gets a nudge to act. */
    method PostTurnUpdates(conv: Conversation, line: Line, ghost heard: seq<Happening>)
      requires active == Some(conv) && Awaits(Some(line)) && conv.turn >= 1 && productive <= total
      requires Recorded(outside.timeline, conv.(turn := conv.turn - 1)) && Quiet(heard, outside.timeline)
      modifies `active, `streak, `productive, `total, outside`timeline
      ensures EndsWith(heard, outside.timeline, Spoke(line.agent, line.content, conv.turn, Middle))
      ensures outside.timeline == old(outside.timeline) + [Spoke(line.agent, line.content, conv.turn, Middle)]
      ensures Settled() && active.Some? && Recorded(outside.timeline, active.value)
      ensures total == old(total) + 1 && productive == old(productive) + if lastTurnHadTools then 1 else 0
      ensures streak == if lastTurnHadTools then 0 else old(streak) + 1
      ensures active.value == conv.(history := conv.history + [Said(line)]
                                         + if streak >= NUDGE_EVERY && streak % NUDGE_EVERY == 0 then [Nudge] else [])
    {
      Say(conv, line, Middle, heard);
      CountTurn();
      if streak >= NUDGE_EVERY && streak % NUDGE_EVERY == 0 {
        NudgeKeepsRecord(outside.timeline, active.value);
        active := Some(active.value.(history := active.value.history + [Nudge]));
      }
    }

    /** The productivity counters after a line. */
    method CountTurn()
      modifies `streak, `productive, `total
      ensures total == old(total) + 1 && productive == old(productive) + if lastTurnHadTools then 1 else 0
      ensures streak == if lastTurnHadTools then 0 else old(streak) + 1
    {
      total := total + 1;
      if lastTurnHadTools {
        productive := productive + 1;
        streak := 0;
      } else {
        streak := streak + 1;
      }
    }

    /** The conversation after a middle turn, given what was generated and the streak. */
    static function AfterTurn(agent: Agent, line: Result<Option<string>, Fault>, conv: Conversation, streak: nat)
      : Conversation
    {
      match line
      case Err(_) => conv.(turn := conv.turn + 1)
      case Ok(None) => conv
      case Ok(Some(text)) =>
        conv.(turn := conv.turn + 1,
              history := conv.history + [Said(Line(agent, text))]
                         + if streak >= NUDGE_EVERY && streak % NUDGE_EVERY == 0 then [Nudge] else [])
    }

    /** What was heard of a middle turn: its line, or none. */
    ghost predicate HeardTurn(agent: Agent, line: Result<Option<string>, Fault>, turn: int, heard: seq<Happening>)
      reads outside`timeline
    {
      if line.Ok? && line.value.Some? then
        EndsWith(heard, outside.timeline, Spoke(agent, line.value.value, turn, Middle))
      else Quiet(heard, outside.timeline)
    }

    /** A turn in the middle of a conversation. A skipped one gives its number back. */
    method TakeTurn(conv: Conversation, agent: Agent, attempts: Attempts) returns (line: Result<Option<string>, Fault>)
      requires Valid() && active == Some(conv)
      modifies this, management, outside
      ensures Valid() && KeptFresh(old(recentOutputs))
      ensures HeardTurn(agent, line, conv.turn + 1, old(outside.timeline))
      ensures active == Some(AfterTurn(agent, line, conv, streak))
      ensures Follows(old(DawnOf(agent, attempts(0).prompt, conv.wanted)), outside.requests, outside.timeline)
    {
      active := Some(conv.(turn := conv.turn + 1));
      ghost var dawn, heard := DawnOf(agent, attempts(0).prompt, conv.wanted), outside.timeline;
      line := Voice(agent, attempts, conv);
      if line.Err? {
        TurnsUpTo(outside.timeline, conv.start, conv.turn, conv.turn + 1);
      } else if line.value.None? {
        active := Some(conv);
      } else {
        ghost var heard' := outside.timeline;
        PostTurnUpdates(conv.(turn := conv.turn + 1), Line(agent, line.value.value), heard);
        FollowsOn(dawn, outside.requests, heard', outside.requests, outside.timeline);
      }
    }

    /** A middle turn, if it comes to one, and whether the conversation goes on. */
    method ContinueConversation(scene: Scene)
      returns (goesOn: Result<bool, Fault>, ghost generated: Option<Result<Option<string>, Fault>>)
      requires Valid()
      modifies this, management, outside
      ensures Valid() && KeptFresh(old(recentOutputs))
      ensures active.Some? <==> old(active).Some?
      ensures generated.Some? <==> old(active).Some? && scene.fault.None?
                                   && scene.lasts && scene.selected in scene.eligible
      ensures generated.None? ==>
                && active == old(active) && total == old(total)
                && outside.timeline == old(outside.timeline) && outside.requests == old(outside.requests)
      ensures generated.None? ==>
                goesOn == if old(active).Some? && scene.fault.Some? then Err(scene.fault.value) else Ok(false)
      ensures generated.Some? ==>
                && active.value == AfterTurn(scene.selected, generated.value, old(active).value, streak)
                && (match generated.value
                    case Err(fault) => goesOn == Err(fault) && active.value.turn == old(active).value.turn + 1
                                       && active.value.history == old(active).value.history
                    case Ok(None) => goesOn == Ok(true) && active == old(active)
                    case Ok(Some(text)) =>
                      && goesOn == (if scene.lateFault.Some? then Err(scene.lateFault.value) else Ok(scene.goesOn))
                      && active.value.turn == old(active).value.turn + 1
                      && active.value.history
                         == old(active).value.history + [Said(Line(scene.selected, text))]
                            + if streak > 0 && streak % 4 == 0 then [Nudge] else [])
                && HeardTurn(scene.selected, generated.value, old(active).value.turn + 1, old(outside.timeline))
                && Follows(old(DawnOf(scene.selected, scene.attempts(0).prompt, Wanted())), outside.requests,
                           outside.timeline)
    {
      generated := None;
      if active.None? {
        return Ok(false), None;
      }
      if scene.fault.Some? {
        return Err(scene.fault.value), None;
      }
      if !scene.lasts || scene.eligible == [] || scene.selected !in scene.eligible {
        return Ok(false), None;
      }
      var line := TakeTurn(active.value, scene.selected, scene.attempts);
      generated := Some(line);
      if line.Err? {
        return Err(line.error), generated;
      }
      if line.value.None? {
        return Ok(true), generated;
      }
      if scene.lateFault.Some? {
        return Err(scene.lateFault.value), generated;
      }
      return Ok(scene.goesOn), generated;
    }

    /** The closing line, if one can be had, and the end of the conversation unless wrapping up fails. */
    method EndConversation(finish: Finish) returns (fault: Option<Fault>)
      requires Valid()
      modifies this, management, outside
      ensures Valid() && KeptFresh(old(recentOutputs))
      ensures if old(active).Some? && finish.closer.Some? then
                AtMostOneLine(old(outside.timeline), outside.timeline,
                              finish.closer.value, old(active).value.turn + 1, Closing)
              else outside.timeline == old(outside.timeline)
      ensures fault.None? ==> active.None?
      ensures old(active).None? ==> fault == None
      ensures old(active).Some? && finish.closer.None? ==> fault == finish.fault
      ensures fault.None? && old(active).Some? ==> finish.fault.None?
      ensures fault.Some? ==> active.Some? && old(active).Some? && active.value.turn >= old(active).value.turn
      ensures streak == old(streak) && total == old(total) && productive == old(productive)
    {
      fault := None;
      if active.None? {
        return;
      }
      var conv := active.value;
      if finish.closer.Some? {
        ghost var heard := outside.timeline;
        var line := Voice(finish.closer.value, finish.attempts, conv);
        if line.Err? {
          return Some(line.error);
        }
        if line.value.Some? {
          active := Some(conv.(turn := conv.turn + 1));
          Say(conv.(turn := conv.turn + 1), Line(finish.closer.value, line.value.value), Closing, heard);
        }
      }
      if finish.fault.Some? {
        return finish.fault;
      }
      active := None;
    }

    /**
     The main loop over any number of beats, exceptions included: nothing heard is lost, and under
     `enforce` every line the engine speaks, and nothing else, comes straight after the review that
     passed it. That is every utterance if no agent has the messaging tool.
     */
    method Run(beats: seq<Beat>)
      requires Valid()
      modifies this, management, outside
      ensures Valid() && KeptFresh(old(recentOutputs))
      ensures old(outside.timeline) <= outside.timeline
      ensures Enforced() ==>
                forall i :: 0 <= i < |outside.timeline| ==>
                  (outside.timeline[i].Spoke? <==> JustPassed(management.words, outside.timeline, i))
      ensures Enforced() && NobodySends(toolsOf) ==> FullyReviewed(management.words, outside.timeline)
    {
      var n := 0;
      while n < |beats|
        invariant 0 <= n <= |beats| && Valid() && KeptFresh(old(recentOutputs))
        invariant old(outside.timeline) <= outside.timeline
      {
        OneBeat(beats[n]);
        n := n + 1;
      }
      if Enforced() {
        forall i | 0 <= i < |outside.timeline|
          ensures outside.timeline[i].Spoke? <==> JustPassed(management.words, outside.timeline, i)
        {
          SpokenExactlyWhenJustPassed(management.words, outside.timeline, i);
        }
        if NobodySends(toolsOf) {
          WithoutMessagesAllIsReviewed(management.words, toolsOf, outside.timeline);
        }
      }
    }

    /** One pass of the main loop: a conversation is started, or goes on, or ends. */
    method OneBeat(beat: Beat)
      requires Valid()
      modifies this, management, outside
      ensures Valid() && KeptFresh(old(recentOutputs)) && old(outside.timeline) <= outside.timeline
    {
      ghost var heard := outside.timeline;
      management.Elapse(beat.meanwhile);
      if active.None? {
        if beat.trigger.Some? {
          var fault := StartConversation(beat.trigger.value);
          if fault.None? && active.Some? {
            EndsWithPrefix(heard, outside.timeline, outside.timeline[|outside.timeline| - 1]);
          }
        }
      } else {
        var goesOn;
        ghost var generated;
        goesOn, generated := ContinueConversation(beat.scene);
        if generated.Some? && generated.value.Ok? && generated.value.value.Some? {
          EndsWithPrefix(heard, outside.timeline, outside.timeline[|outside.timeline| - 1]);
        }
        if goesOn == Ok(false) {
          ghost var heard' := outside.timeline;
          ghost var closer, turn := beat.finish.closer, active.value.turn + 1;
          var fault := EndConversation(beat.finish);
          if closer.Some? {
            LinePrefix(heard', outside.timeline, closer.value, turn, Closing);
          }
        }
      }
    }
  }

  // ---- What the contracts allow to happen ----

  /**
   A trigger's tool is forced on the opener, and forced again in the first request of the turn that
   follows, on whoever takes it, each exactly if the agent has the tool. `second` is where that request
   stands in the log, if such a turn comes.
   */
  method OpenAndGoOn(engine: ConversationEngine, trigger: Trigger, scene: Scene) returns (ghost second: Option<nat>)
    requires engine.Valid() && engine.active.None? && trigger.fault.None? && trigger.eligible != []
    requires trigger.attempts(0).prompt.Ok? && scene.attempts(0).prompt.Ok?
    modifies engine, engine.management, engine.outside
    ensures var first := |old(engine.outside.requests)|;
            var opener := if trigger.starter.Some? && trigger.starter.value in trigger.eligible
                          then trigger.starter.value else trigger.eligible[0];
            && first < |engine.outside.requests|
            && engine.outside.requests[first].toolChoice
               == (if trigger.wanted.Some? && trigger.wanted.value in engine.toolsOf(opener) then trigger.wanted
                   else None)
            && (second.Some? ==>
                  && first < second.value < |engine.outside.requests|
                  && engine.outside.requests[second.value].toolChoice
                     == if trigger.wanted.Some? && trigger.wanted.value in engine.toolsOf(scene.selected)
                        then trigger.wanted else None)
    ensures second.None? <==> engine.active.None? || scene.fault.Some?
                              || !scene.lasts || scene.selected !in scene.eligible
  {
    second := None;
    var fault := engine.StartConversation(trigger);
    ghost var asked := engine.outside.requests;
    var goesOn;
    ghost var generated;
    goesOn, generated := engine.ContinueConversation(scene);
    if generated.Some? {
      second := Some(|asked|);
    }
  }

  /**
   Whoever has the messaging tool can be heard without review: under `enforce`, with any blocklist, in a
   run of one turn whose model calls the tool.
   */
  method UnreviewedRun(rules: seq<string>, toolsOf: Agent -> set<string>, similar: (string, string) -> bool,
                       agent: Agent)
    returns (engine: ConversationEngine)
    requires SEND_MESSAGE in toolsOf(agent)
    ensures engine.Valid() && engine.Enforced() && engine.toolsOf == toolsOf
            && engine.management.words == M.LowerAll(rules)
    ensures !FullyReviewed(engine.management.words, engine.outside.timeline)
  {
    var call := ToolCall("1", SEND_MESSAGE, "");
    var management := new M.Management(M.Enforce, rules, 0.0);
    var outside := new Outside((_, _) => Ok(Response("Hello.", [call], 0, 0, 0.0, 0)),
                               (_, _) => Ran(Value(""), true), _ => "");
    engine := new ConversationEngine(management, outside, true, toolsOf, similar, []);
    var meanwhile := M.Meanwhile(0.0, map[], M.Closed);
    var attempt := Attempt(Ok([]), meanwhile, M.Json(true, 1), 0.0, None, None, "");
    var trigger := Trigger(None, [agent], None, None, _ => attempt);
    ghost var dawn := engine.DawnOf(agent, Ok([]), None);
    assert OpensWithMessage(dawn.setup) by {
      assert CallsOf(dawn.setup, Beginning(dawn.setup), Response("Hello.", [call], 0, 0, 0.0, 0)) == [call];
    }
    var fault := engine.StartConversation(trigger);
    assert OpensSent([], outside.timeline);
    assert !JustPassed(management.words, outside.timeline, 0);
  }
}
