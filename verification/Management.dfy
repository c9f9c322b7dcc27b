/**
 The content-review pipeline `Management`: mute check, keyword blocklist, LLM verdict behind a
 circuit breaker, and severity-based intervention. What the LLM answers, and how long it takes, is
 an input of each review.
 */
module Management {
  import opened Wrappers
  import opened PyText

  type Agent = string

  type Seconds = r: real | r >= 0.0

  const DEFAULT_MUTE_TTL := 300.0
  const KILL_SWITCH_TTL := 14400.0
  const THRESHOLD := 3
  const COOLDOWN := 60.0

  datatype Policy = Enforce | Shadow | Off

  /** The LLM's side of a review: a JSON verdict, text without one, or an exception anywhere in the call. */
  datatype Reply = Json(approved: bool, severity: int) | Unparseable | Raised

  datatype Reason = PolicyOff | PolicyShadow | Muted | Keyword(word: string) | BreakerOpen | LlmFailure | Verdict

  datatype Result = Result(approved: bool, severity: int, reason: Reason, replacement: Option<string>)

  function Clamp(severity: int): int {
    if severity < 1 then 1 else if severity > 5 then 5 else severity
  }

  function Parsed(reply: Reply): Result
    requires !reply.Raised?
  {
    match reply
    case Json(approved, severity) => Result(approved, Clamp(severity), Verdict, None)
    case Unparseable => Result(false, 3, Verdict, None)
  }

  // ---- The circuit breaker ----

  datatype Breaker = Breaker(failures: nat, openUntil: Option<real>)

  const Closed := Breaker(0, None)

  predicate Blocks(b: Breaker, at: real) {
    b.openUntil.Some? && at < b.openUntil.value
  }

  /** One review that reaches the breaker: it starts and ends at given times, and the LLM would answer `reply`. */
  datatype Attempt = Attempt(start: real, end: real, reply: Reply)

  /** The breaker afterwards: untouched when open, reset by any answer, one failure further by an exception. */
  function After(b: Breaker, a: Attempt): Breaker {
    if Blocks(b, a.start) then b
    else if !a.reply.Raised? then Closed
    else Breaker(b.failures + 1, if b.failures + 1 >= THRESHOLD then Some(a.end + COOLDOWN) else None)
  }

  function LlmVerdict(b: Breaker, a: Attempt): Result {
    if Blocks(b, a.start) then Result(false, 3, BreakerOpen, None)
    else if a.reply.Raised? then Result(false, 3, LlmFailure, None)
    else Parsed(a.reply)
  }

  // ---- How many failing calls a run can make ----

  /** Reviews one after the other, none before `t0`. */
  ghost predicate Sequential(t0: real, attempts: seq<Attempt>) {
    && (forall i :: 0 <= i < |attempts| ==> t0 <= attempts[i].start <= attempts[i].end)
    && (forall i :: 0 < i < |attempts| ==> attempts[i - 1].end <= attempts[i].start)
  }

  function BreakerAfter(attempts: seq<Attempt>): Breaker {
    if attempts == [] then Closed
    else After(BreakerAfter(attempts[..|attempts| - 1]), attempts[|attempts| - 1])
  }

  /** LLM calls that raised. */
  function FailedCalls(attempts: seq<Attempt>): nat {
    if attempts == [] then 0
    else
      var init, last := attempts[..|attempts| - 1], attempts[|attempts| - 1];
      FailedCalls(init) + if !Blocks(BreakerAfter(init), last.start) && last.reply.Raised? then 1 else 0
  }

  /** LLM calls that were answered. */
  function AnsweredCalls(attempts: seq<Attempt>): nat {
    if attempts == [] then 0
    else
      var init, last := attempts[..|attempts| - 1], attempts[|attempts| - 1];
      AnsweredCalls(init) + if !Blocks(BreakerAfter(init), last.start) && !last.reply.Raised? then 1 else 0
  }

  /** The time of the last review to end, or `t0`. */
  function LastEnd(t0: real, attempts: seq<Attempt>): real {
    if attempts == [] then t0 else attempts[|attempts| - 1].end
  }

  /** Whole cooldowns in a span of time. */
  function Cooldowns(span: real): int {
    (span / COOLDOWN).Floor
  }

  lemma CooldownsMonotone(a: real, b: real)
    requires a <= b
    ensures Cooldowns(a) <= Cooldowns(b)
  {
    assert a / COOLDOWN <= b / COOLDOWN;
  }

  lemma CooldownsStep(a: real)
    ensures Cooldowns(a + COOLDOWN) == Cooldowns(a) + 1
  {
    assert (a + COOLDOWN) / COOLDOWN == a / COOLDOWN + 1.0;
  }

  /**
   While fewer than three failures are pending the breaker is closed; from three on it is open for a
   cooldown after the last failure, and every further failure has cost at least one cooldown.
   */
  ghost predicate BreakerInv(t0: real, end: real, b: Breaker, failed: nat, answered: nat) {
    if b.failures < THRESHOLD then
      b.openUntil.None? && failed <= 3 * answered + b.failures + Cooldowns(end - t0)
    else
      && b.openUntil.Some? && t0 <= b.openUntil.value - COOLDOWN <= end
      && failed <= 3 * answered + 3 + Cooldowns(b.openUntil.value - COOLDOWN - t0)
  }

  lemma AttemptKeepsInv(t0: real, end: real, b: Breaker, failed: nat, answered: nat, a: Attempt)
    requires t0 <= end <= a.start <= a.end && BreakerInv(t0, end, b, failed, answered)
    ensures var called := !Blocks(b, a.start);
            BreakerInv(t0, a.end, After(b, a),
                       failed + if called && a.reply.Raised? then 1 else 0,
                       answered + if called && !a.reply.Raised? then 1 else 0)
  {
    CooldownsMonotone(0.0, end - t0);
    CooldownsMonotone(end - t0, a.end - t0);
    if b.openUntil.Some? && b.failures >= THRESHOLD {
      var last := b.openUntil.value - COOLDOWN;
      CooldownsMonotone(last - t0, a.end - t0);
      if !Blocks(b, a.start) {
        CooldownsStep(last - t0);
        CooldownsMonotone(last - t0 + COOLDOWN, a.end - t0);
      }
    }
  }

  lemma {:induction false} RunInv(t0: real, attempts: seq<Attempt>)
    requires Sequential(t0, attempts)
    ensures t0 <= LastEnd(t0, attempts)
    ensures BreakerInv(t0, LastEnd(t0, attempts), BreakerAfter(attempts), FailedCalls(attempts),
                       AnsweredCalls(attempts))
    decreases |attempts|
  {
    if attempts == [] {
      assert (0.0 / COOLDOWN).Floor == 0;
    } else {
      var init, last := attempts[..|attempts| - 1], attempts[|attempts| - 1];
      RunInv(t0, init);
      assert LastEnd(t0, init) <= last.start;
      AttemptKeepsInv(t0, LastEnd(t0, init), BreakerAfter(init), FailedCalls(init), AnsweredCalls(init), last);
    }
  }

  /**
   Over any sequential run of reviews, the LLM calls that fail number at most three more than three
   per answered call, plus one per whole minute the run has taken.
   */
  lemma FailingCallsAreBounded(t0: real, attempts: seq<Attempt>)
    requires Sequential(t0, attempts)
    ensures FailedCalls(attempts)
            <= 3 * (AnsweredCalls(attempts) + 1) + Cooldowns(LastEnd(t0, attempts) - t0)
  {
    RunInv(t0, attempts);
    var b := BreakerAfter(attempts);
    if b.failures >= THRESHOLD {
      CooldownsMonotone(b.openUntil.value - COOLDOWN - t0, LastEnd(t0, attempts) - t0);
    }
  }

  /** Nothing passes while the breaker is open or when the call fails: approval needs an approving answer. */
  lemma ApprovalNeedsAnAnswer(b: Breaker, a: Attempt)
    ensures LlmVerdict(b, a).approved <==> !Blocks(b, a.start) && a.reply.Json? && a.reply.approved
    ensures LlmVerdict(b, a).approved ==> After(b, a) == Closed
    ensures 1 <= LlmVerdict(b, a).severity <= 5 && LlmVerdict(b, a).replacement == None
  {
  }

  // ---- The pipeline ----

  datatype Event =
    | Warning(agent: Agent, severity: int, escalation: bool)
    | Intervention(agent: Agent, severity: int, replacement: Option<string>, interrupt: bool, killSwitch: bool)
    | ShadowLog(agent: Agent, layer: nat, severity: int)

  /** The first blocklist word found in the lower-cased content. */
  function BlockedKeyword(words: seq<string>, content: string): (r: Option<string>)
    ensures r.None? <==> forall i :: 0 <= i < |words| ==> !Contains(Lower(content), words[i])
    ensures r.Some? ==> r.value in words && Contains(Lower(content), r.value)
  {
    if words == [] then None
    else if Contains(Lower(content), words[0]) then Some(words[0])
    else BlockedKeyword(words[1..], content)
  }

  function LowerAll(ws: seq<string>): (lowered: seq<string>)
    ensures |lowered| == |ws| && forall i :: 0 <= i < |ws| ==> lowered[i] == Lower(ws[i])
  {
    if ws == [] then [] else [Lower(ws[0])] + LowerAll(ws[1..])
  }

  /** The result of a review under each policy. */
  function Judged(policy: Policy, words: seq<string>, muted: bool, b: Breaker, at: real, reply: Reply, content: string)
    : Result
  {
    match policy
    case Off => Result(true, 1, PolicyOff, None)
    case Shadow => Result(true, 1, PolicyShadow, None)
    case Enforce =>
      var word := BlockedKeyword(words, content);
      if muted then Result(false, 3, Muted, None)
      else if word.Some? then Result(false, 3, Keyword(word.value), None)
      else LlmVerdict(b, Attempt(at, at, reply))
  }

  /** Time that passes, and what others who use the same Management and Redis make of mutes and breaker in it. */
  datatype Meanwhile = Meanwhile(pause: Seconds, mutedUntil: map<Agent, real>, breaker: Breaker)

  class Management {
    const policy: Policy
    const words: seq<string>
    var now: real
    var mutedUntil: map<Agent, real>
    var killSwitchUntil: Option<real>
    var breaker: Breaker
    var events: seq<Event>

    constructor (policy: Policy, rules: seq<string>, now: real)
      ensures this.policy == policy && words == LowerAll(rules) && this.now == now
      ensures mutedUntil == map[] && killSwitchUntil == None && breaker == Closed && events == []
    {
      this.policy, words, this.now := policy, LowerAll(rules), now;
      mutedUntil, killSwitchUntil, breaker, events := map[], None, Closed, [];
    }

    method Elapse(meanwhile: Meanwhile)
      modifies `now, `mutedUntil, `breaker
      ensures now == old(now) + meanwhile.pause
      ensures mutedUntil == meanwhile.mutedUntil && breaker == meanwhile.breaker
    {
      now, mutedUntil, breaker := now + meanwhile.pause, meanwhile.mutedUntil, meanwhile.breaker;
    }

    predicate MutedAt(agent: Agent, at: real)
      reads this
    {
      agent in mutedUntil && at < mutedUntil[agent]
    }

    predicate IsMuted(agent: Agent)
      reads this
    {
      MutedAt(agent, now)
    }

    /**
     A review. Under `enforce`, content is approved exactly when the agent is not muted, no blocklist
     word occurs in it, the breaker lets the call through, and the LLM answers with an approval.
     */
    method Review(agent: Agent, content: string, reply: Reply, elapsed: real) returns (result: Result)
      requires elapsed >= 0.0
      modifies `now, `breaker, `events
      ensures policy == Enforce ==>
                (result.approved <==> !old(IsMuted(agent)) && BlockedKeyword(words, content).None?
                                      && !Blocks(old(breaker), old(now)) && reply.Json? && reply.approved)
      ensures policy == Enforce && reply.Json? && !old(IsMuted(agent)) && BlockedKeyword(words, content).None?
              && old(breaker.openUntil.Some? ==> now >= breaker.openUntil.value) ==>
                && result.approved == reply.approved && result.reason == Verdict
                && (1 <= reply.severity <= 5 ==> result.severity == reply.severity)
                && (reply.severity < 1 ==> result.severity == 1)
                && (reply.severity > 5 ==> result.severity == 5)
      ensures var word := BlockedKeyword(words, content);
              policy == Enforce ==>
                && (old(agent in mutedUntil && now < mutedUntil[agent]) ==> result == Result(false, 3, Muted, None))
                && (!old(IsMuted(agent)) && word.Some? ==> result == Result(false, 3, Keyword(word.value), None))
                && (!old(IsMuted(agent)) && word.None?
                    && old(breaker.openUntil.Some? && now < breaker.openUntil.value) ==>
                      result == Result(false, 3, BreakerOpen, None))
                && (!reply.Json? ==> !result.approved && result.severity == 3)
      ensures policy != Enforce ==> result.approved && result.severity == 1
      ensures 1 <= result.severity <= 5 && result.replacement == None
      ensures result == Judged(policy, words, old(IsMuted(agent)), old(breaker), old(now), reply, content)
      ensures var word := BlockedKeyword(words, content);
              var verdict := LlmVerdict(old(breaker), Attempt(old(now), now, reply));
              var answeredAt := if Blocks(old(breaker), old(now)) then old(now) else old(now) + elapsed;
              match policy
              case Off => now == old(now) && breaker == old(breaker) && events == old(events) + [ShadowLog(agent, 0, 1)]
              case Enforce =>
                && events == old(events)
                && if old(IsMuted(agent)) || word.Some? then now == old(now) && breaker == old(breaker)
                   else now == answeredAt && breaker == After(old(breaker), Attempt(old(now), now, reply))
              case Shadow =>
                && now == answeredAt && breaker == After(old(breaker), Attempt(old(now), now, reply))
                && events == old(events) + (if word.Some? then [ShadowLog(agent, 1, 3)] else [])
                             + (if verdict.approved then [] else [ShadowLog(agent, 2, verdict.severity)])
    {
      match policy
      case Off =>
        events := events + [ShadowLog(agent, 0, 1)];
        result := Result(true, 1, PolicyOff, None);
      case Enforce =>
        if IsMuted(agent) {
          return Result(false, 3, Muted, None);
        }
        var word := BlockedKeyword(words, content);
        if word.Some? {
          return Result(false, 3, Keyword(word.value), None);
        }
        result := LlmReview(reply, elapsed);
      case Shadow =>
        var word := BlockedKeyword(words, content);
        if word.Some? {
          events := events + [ShadowLog(agent, 1, 3)];
        }
        var verdict := LlmReview(reply, elapsed);
        if !verdict.approved {
          events := events + [ShadowLog(agent, 2, verdict.severity)];
        }
        result := Result(true, 1, PolicyShadow, None);
    }

    method LlmReview(reply: Reply, elapsed: real) returns (result: Result)
      requires elapsed >= 0.0
      modifies `now, `breaker
      ensures now == if Blocks(old(breaker), old(now)) then old(now) else old(now) + elapsed
      ensures breaker == After(old(breaker), Attempt(old(now), now, reply))
      ensures result == LlmVerdict(old(breaker), Attempt(old(now), now, reply))
      ensures old(breaker.openUntil.Some? && now < breaker.openUntil.value) ==>
                now == old(now) && breaker == old(breaker) && result == Result(false, 3, BreakerOpen, None)
      ensures old(breaker.openUntil.Some? ==> now >= breaker.openUntil.value) ==>
                && now == old(now) + elapsed
                && match reply
                   case Json(approved, severity) =>
                     && breaker == Breaker(0, None) && result.approved == approved && result.reason == Verdict
                     && (1 <= severity <= 5 ==> result.severity == severity)
                     && (severity < 1 ==> result.severity == 1) && (severity > 5 ==> result.severity == 5)
                   case Unparseable => breaker == Breaker(0, None) && result == Result(false, 3, Verdict, None)
                   case Raised =>
                     && result == Result(false, 3, LlmFailure, None) && breaker.failures == old(breaker.failures) + 1
                     && breaker.openUntil == if breaker.failures >= 3 then Some(now + 60.0) else None
    {
      if breaker.openUntil.Some? {
        if now < breaker.openUntil.value {
          return Result(false, 3, BreakerOpen, None);
        }
        breaker := breaker.(openUntil := None);
      }
      now := now + elapsed;
      if !reply.Raised? {
        result := Parsed(reply);
        breaker := Closed;
      } else {
        breaker := breaker.(failures := breaker.failures + 1);
        if breaker.failures >= THRESHOLD {
          breaker := breaker.(openUntil := Some(now + COOLDOWN));
        }
        result := Result(false, 3, LlmFailure, None);
      }
    }

    /** A mute lasts for its duration from now, whatever mute it replaces, and concerns nobody else. */
    method Mute(agent: Agent, duration: real)
      modifies `mutedUntil
      ensures forall at :: MutedAt(agent, at) <==> at < now + duration
      ensures forall other, at :: other != agent ==> MutedAt(other, at) == old(MutedAt(other, at))
      ensures mutedUntil == old(mutedUntil)[agent := now + duration]
    {
      mutedUntil := mutedUntil[agent := now + duration];
    }

    method Unmute(agent: Agent)
      modifies `mutedUntil
      ensures forall at :: !MutedAt(agent, at)
      ensures forall other, at :: other != agent ==> MutedAt(other, at) == old(MutedAt(other, at))
      ensures mutedUntil == old(mutedUntil) - {agent}
    {
      mutedUntil := mutedUntil - {agent};
    }

    /** `replacement` is the text the memo writer would produce at severity 3. */
    method Intervene(severity: int, agent: Agent, replacement: string)
      modifies `mutedUntil, `killSwitchUntil, `events
      ensures severity < 5 ==> mutedUntil == old(mutedUntil) && killSwitchUntil == old(killSwitchUntil)
      ensures severity >= 5 ==> IsMuted(agent) && mutedUntil == old(mutedUntil)[agent := now + DEFAULT_MUTE_TTL]
                                && killSwitchUntil == Some(now + KILL_SWITCH_TTL)
      ensures events == old(events) + [
                if severity <= 2 then Warning(agent, severity, severity == 2)
                else Intervention(agent, severity, if severity == 3 then Some(replacement) else None,
                                  severity == 4, severity >= 5)]
    {
      if severity <= 2 {
        events := events + [Warning(agent, severity, severity == 2)];
      } else if severity == 3 {
        events := events + [Intervention(agent, severity, Some(replacement), false, false)];
      } else if severity == 4 {
        events := events + [Intervention(agent, severity, None, true, false)];
      } else {
        Mute(agent, DEFAULT_MUTE_TTL);
        killSwitchUntil := Some(now + KILL_SWITCH_TTL);
        events := events + [Intervention(agent, severity, None, false, true)];
      }
    }
  }
}
