/** What is heard and what was reviewed, in order. */
module Utterances {
  import opened Wrappers
  import M = Management

  type Agent = string

  /** The line that opens a conversation, one in its course, or the one that closes it. */
  datatype Place = Opening | Middle | Closing

  /**
   A review with what it was based on, an AGENT_SPEAK event of the engine, or an AGENT_SPEAK event of
   the `send_message` tool.
   */
  datatype Happening =
    | Reviewed(agent: Agent, content: string, basis: Basis)
    | Spoke(agent: Agent, content: string, turn: int, place: Place)
    | Sent(agent: Agent, text: string)

  /** Whether the agent was muted, whether the breaker was open, and the LLM's side of the review. */
  datatype Basis = Basis(muted: bool, breakerOpen: bool, reply: M.Reply)

  /** A review that let the content pass for good: no mute, no blocklist word, and an approving verdict. */
  predicate Passed(words: seq<string>, h: Happening) {
    h.Reviewed? && !h.basis.muted && !h.basis.breakerOpen && M.BlockedKeyword(words, h.content).None?
    && h.basis.reply.Json? && h.basis.reply.approved
  }

  /** A line that has passed review and is not spoken yet. */
  datatype Line = Line(agent: Agent, content: string)

  /**
   Reads the timeline: None when a line is spoken that has not just passed review, or when something
   else happens before a line that has; otherwise the line that is due, if any.
   */
  function Due(words: seq<string>, timeline: seq<Happening>): Option<Option<Line>> {
    if timeline == [] then Some(None)
    else
      var due, h := Due(words, timeline[..|timeline| - 1]), timeline[|timeline| - 1];
      if due.None? then None else DueNext(words, due.value, h)
  }

  function DueNext(words: seq<string>, due: Option<Line>, h: Happening): Option<Option<Line>> {
    match h
    case Spoke(agent, content, _, _) => if due == Some(Line(agent, content)) then Some(None) else None
    case Sent(_, _) => if due.Some? then None else Some(None)
    case Reviewed(agent, content, _) =>
      if due.Some? then None else Some(if Passed(words, h) then Some(Line(agent, content)) else None)
  }

  predicate Governed(words: seq<string>, timeline: seq<Happening>) {
    Due(words, timeline) == Some(None)
  }

  lemma DueAfter(words: seq<string>, timeline: seq<Happening>, h: Happening)
    ensures Due(words, timeline + [h]) ==
            if Due(words, timeline).None? then None else DueNext(words, Due(words, timeline).value, h)
  {
    assert (timeline + [h])[..|timeline|] == timeline;
  }

  lemma {:induction false} DueOfPrefix(words: seq<string>, timeline: seq<Happening>, n: nat)
    requires Due(words, timeline).Some? && n <= |timeline|
    ensures Due(words, timeline[..n]).Some?
    decreases |timeline|
  {
    if n < |timeline| {
      DueOfPrefix(words, timeline[..|timeline| - 1], n);
      assert timeline[..|timeline| - 1][..n] == timeline[..n];
    } else {
      assert timeline[..n] == timeline;
    }
  }

  lemma DueStep(words: seq<string>, timeline: seq<Happening>, i: nat)
    requires Due(words, timeline).Some? && i < |timeline|
    ensures Due(words, timeline[..i]).Some?
    ensures Due(words, timeline[..i + 1]) == DueNext(words, Due(words, timeline[..i]).value, timeline[i])
    ensures Due(words, timeline[..i + 1]).Some?
  {
    DueOfPrefix(words, timeline, i);
    DueOfPrefix(words, timeline, i + 1);
    assert timeline[..i + 1] == timeline[..i] + [timeline[i]];
    DueAfter(words, timeline[..i], timeline[i]);
  }

  /** The event at `i` comes straight after the review that passed exactly its words for its speaker. */
  predicate JustPassed(words: seq<string>, timeline: seq<Happening>, i: nat)
    requires i < |timeline|
  {
    i > 0 && !timeline[i].Reviewed? && Passed(words, timeline[i - 1]) && timeline[i - 1].agent == timeline[i].agent
    && timeline[i - 1].content == if timeline[i].Spoke? then timeline[i].content else timeline[i].text
  }

  /**
   In a governed timeline every line the engine speaks, and nothing else, comes straight after its own
   review; so no review serves two lines.
   */
  lemma SpokenExactlyWhenJustPassed(words: seq<string>, timeline: seq<Happening>, i: nat)
    requires Governed(words, timeline) && i < |timeline|
    ensures timeline[i].Spoke? <==> JustPassed(words, timeline, i)
  {
    DueStep(words, timeline, i);
    if i > 0 {
      DueStep(words, timeline, i - 1);
    }
  }

  /** Every line that passed review is spoken next. */
  lemma PassedIsSpoken(words: seq<string>, timeline: seq<Happening>, i: nat)
    requires Governed(words, timeline) && i < |timeline| && Passed(words, timeline[i])
    ensures i + 1 < |timeline| && timeline[i + 1].Spoke? && JustPassed(words, timeline, i + 1)
  {
    assert timeline[..|timeline|] == timeline;
    DueStep(words, timeline, i);
    if i + 1 < |timeline| {
      DueStep(words, timeline, i + 1);
    }
  }

  /** What the documentation promises of every utterance: each comes straight after the review that passed it. */
  predicate FullyReviewed(words: seq<string>, timeline: seq<Happening>) {
    forall i :: 0 <= i < |timeline| && !timeline[i].Reviewed? ==> JustPassed(words, timeline, i)
  }

  /** In a governed timeline that holds if and only if no agent has sent a message with a tool. */
  lemma EveryUtteranceReviewedExactlyWhen(words: seq<string>, timeline: seq<Happening>)
    requires Governed(words, timeline)
    ensures FullyReviewed(words, timeline) <==> forall i :: 0 <= i < |timeline| ==> !timeline[i].Sent?
  {
    forall i | 0 <= i < |timeline| ensures timeline[i].Spoke? <==> JustPassed(words, timeline, i) {
      SpokenExactlyWhenJustPassed(words, timeline, i);
    }
  }

  // ---- Stretches of the timeline ----

  /** From one time to another only messages by one agent, who must have the tool for it. */
  predicate OnlySent(before: seq<Happening>, after: seq<Happening>, agent: Agent, able: bool) {
    && |before| <= |after| && after[..|before|] == before
    && forall i :: |before| <= i < |after| ==> after[i].Sent? && after[i].agent == agent && able
  }

  lemma OnlySentTwice(a: seq<Happening>, b: seq<Happening>, c: seq<Happening>, agent: Agent, able: bool)
    requires OnlySent(a, b, agent, able) && OnlySent(b, c, agent, able)
    ensures OnlySent(a, c, agent, able)
  {
    assert c[..|a|] == b[..|a|];
    forall i | |a| <= i < |c| ensures c[i].Sent? && c[i].agent == agent && able {
      if i < |b| {
        assert c[i] == b[i];
      }
    }
  }

  /** The first thing that happened since `before` is a message. */
  predicate OpensSent(before: seq<Happening>, after: seq<Happening>) {
    |before| < |after| && after[..|before|] == before && after[|before|].Sent?
  }

  lemma OpenedSent(a: seq<Happening>, b: seq<Happening>, c: seq<Happening>)
    requires OpensSent(a, b) && |b| <= |c| && c[..|b|] == b
    ensures OpensSent(a, c)
  {
    assert c[|a|] == b[|a|] && c[..|a|] == b[..|a|];
  }

  lemma {:induction false} SendingKeepsGoverned(words: seq<string>, before: seq<Happening>, after: seq<Happening>,
                                                agent: Agent, able: bool)
    requires Governed(words, before) && OnlySent(before, after, agent, able)
    ensures Governed(words, after)
    decreases |after|
  {
    if |after| == |before| {
      assert after == before;
    } else {
      var init := after[..|after| - 1];
      assert init[..|before|] == before;
      SendingKeepsGoverned(words, before, init, agent, able);
    }
  }
}
