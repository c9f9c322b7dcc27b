/** The record of a conversation: its history, its turn numbers and the outputs kept against repetition. */
module TurnRecord {
  import opened Wrappers
  import opened Utterances
  import opened ToolRounds

  const RECENT_OUTPUTS := 50
  const MIN_COMPARED := 20

  datatype Entry = Said(line: Line) | Nudge

  /** `start` is the length of the timeline when the conversation began, `wanted` the tool its trigger forces. */
  datatype Conversation = Conversation(start: nat, wanted: Option<string>, turn: int, history: seq<Entry>)

  // ---- Repetition ----

  /** `similar` is the similarity test of the source on texts long enough to compare. */
  predicate Repeats(similar: (string, string) -> bool, content: string, earlier: string) {
    |content| >= MIN_COMPARED && |earlier| >= MIN_COMPARED && similar(content, earlier)
  }

  /** What a bounded queue keeps of the entries put into it. */
  function Latest(outputs: seq<string>): seq<string> {
    if |outputs| > RECENT_OUTPUTS then outputs[|outputs| - RECENT_OUTPUTS..] else outputs
  }

  function Push(outputs: seq<string>, content: string): (pushed: seq<string>)
    ensures |outputs| < 50 ==> pushed == outputs + [content]
    ensures |outputs| == 50 ==> pushed == outputs[1..] + [content]
  {
    Latest(outputs + [content])
  }

  /** The text repeats none of the outputs. */
  predicate Unlike(similar: (string, string) -> bool, content: string, outputs: seq<string>) {
    outputs != [] ==>
      var last := |outputs| - 1;
      Unlike(similar, content, outputs[..last]) && !Repeats(similar, content, outputs[last])
  }

  /** No output repeats an earlier one. */
  predicate NoRepeats(similar: (string, string) -> bool, outputs: seq<string>) {
    outputs != [] ==>
      var last := |outputs| - 1;
      NoRepeats(similar, outputs[..last]) && Unlike(similar, outputs[last], outputs[..last])
  }

  lemma {:induction false} UnlikeEach(similar: (string, string) -> bool, content: string, outputs: seq<string>)
    ensures Unlike(similar, content, outputs)
            <==> forall i :: 0 <= i < |outputs| ==> !Repeats(similar, content, outputs[i])
  {
    if outputs != [] {
      UnlikeEach(similar, content, outputs[..|outputs| - 1]);
    }
  }

  lemma {:induction false} NoRepeatsInside(similar: (string, string) -> bool, outputs: seq<string>, k: nat)
    requires NoRepeats(similar, outputs) && k <= |outputs|
    ensures NoRepeats(similar, outputs[k..])
    decreases |outputs|
  {
    if k < |outputs| {
      var last := |outputs| - 1;
      NoRepeatsInside(similar, outputs[..last], k);
      assert outputs[k..][..last - k] == outputs[..last][k..];
      UnlikeEach(similar, outputs[last], outputs[..last]);
      UnlikeEach(similar, outputs[last], outputs[..last][k..]);
    }
  }

  lemma OneMoreUnlike(similar: (string, string) -> bool, outputs: seq<string>, content: string)
    requires NoRepeats(similar, outputs) && Unlike(similar, content, outputs)
    ensures NoRepeats(similar, outputs + [content])
  {
    assert (outputs + [content])[..|outputs|] == outputs;
  }

  lemma LatestKeepsNoRepeats(similar: (string, string) -> bool, outputs: seq<string>)
    requires NoRepeats(similar, outputs)
    ensures NoRepeats(similar, Latest(outputs))
  {
    if |outputs| > RECENT_OUTPUTS {
      NoRepeatsInside(similar, outputs, |outputs| - RECENT_OUTPUTS);
    }
  }

  lemma PushKeepsNoRepeats(similar: (string, string) -> bool, outputs: seq<string>, content: string)
    requires NoRepeats(similar, outputs) && Unlike(similar, content, outputs)
    ensures NoRepeats(similar, Push(outputs, content))
  {
    OneMoreUnlike(similar, outputs, content);
    LatestKeepsNoRepeats(similar, outputs + [content]);
  }

  // ---- How a turn begins ----

  /** What a turn starts from, whether its first attempt gets a prompt, and what was asked and heard by then. */
  datatype Dawn = Dawn(setup: Setup, prompted: bool, asked: seq<Request>, heard: seq<Happening>)

  /**
   What was asked and heard since, as far as it is known from the start: with a prompt the turn's first
   request is made, and if the model's answer begins with a message, that is heard first.
   */
  predicate Follows(d: Dawn, asked: seq<Request>, heard: seq<Happening>) {
    && d.asked <= asked && d.heard <= heard
    && (d.prompted ==> AskedFirst(d.setup, d.asked, asked) && (OpensWithMessage(d.setup) ==> OpensSent(d.heard, heard)))
  }

  lemma FollowsOn(d: Dawn, asked: seq<Request>, heard: seq<Happening>, asked': seq<Request>, heard': seq<Happening>)
    requires Follows(d, asked, heard) && asked <= asked' && heard <= heard'
    ensures Follows(d, asked', heard')
  {
    if d.prompted && OpensWithMessage(d.setup) {
      OpenedSent(d.heard, heard, heard');
    }
  }

  // ---- The record of a conversation ----

  function Lines(history: seq<Entry>): seq<Line> {
    if history == [] then []
    else
      var rest, last := Lines(history[..|history| - 1]), history[|history| - 1];
      if last.Said? then rest + [last.line] else rest
  }

  /** Each line said is in the list once, after those said before it. */
  lemma {:induction false} LinesInOrder(history: seq<Entry>, i: nat)
    requires i < |history|
    ensures Lines(history[..i + 1]) == Lines(history[..i]) + if history[i].Said? then [history[i].line] else []
    ensures Lines(history[..i + 1]) <= Lines(history)
    decreases |history|
  {
    var last := |history| - 1;
    assert history[..i + 1][..i] == history[..i];
    if i < last {
      LinesInOrder(history[..last], i);
      assert history[..last][..i + 1] == history[..i + 1];
    } else {
      assert history[..i + 1] == history;
    }
  }

  /** The lines the engine has spoken since `start`. */
  function SpokenFrom(timeline: seq<Happening>, start: nat): seq<Line> {
    if |timeline| <= start then []
    else
      var rest, last := SpokenFrom(timeline[..|timeline| - 1], start), timeline[|timeline| - 1];
      if last.Spoke? then rest + [Line(last.agent, last.content)] else rest
  }

  /** Each line spoken since `start` is in the list once, after those spoken before it. */
  lemma {:induction false} SpokenInOrder(timeline: seq<Happening>, start: nat, i: nat)
    requires start <= i < |timeline|
    ensures var h := timeline[i];
            SpokenFrom(timeline[..i + 1], start)
            == SpokenFrom(timeline[..i], start) + if h.Spoke? then [Line(h.agent, h.content)] else []
    ensures SpokenFrom(timeline[..i + 1], start) <= SpokenFrom(timeline, start)
    decreases |timeline|
  {
    var last := |timeline| - 1;
    assert timeline[..i + 1][..i] == timeline[..i];
    if i < last {
      SpokenInOrder(timeline[..last], start, i);
      assert timeline[..last][..i + 1] == timeline[..i + 1];
    } else {
      assert timeline[..i + 1] == timeline;
    }
  }

  /** The lines spoken since `start` carry rising turn numbers between 1 and `turn`. */
  predicate TurnsRise(timeline: seq<Happening>, start: nat, turn: int) {
    |timeline| > start ==>
      var init, last := timeline[..|timeline| - 1], timeline[|timeline| - 1];
      if last.Spoke? then 1 <= last.turn <= turn && TurnsRise(init, start, last.turn - 1)
      else TurnsRise(init, start, turn)
  }

  /** The conversation's history holds exactly the lines spoken in it, in order, with rising turns. */
  predicate Recorded(timeline: seq<Happening>, conv: Conversation) {
    conv.start <= |timeline| && conv.turn >= 0
    && Lines(conv.history) == SpokenFrom(timeline, conv.start) && TurnsRise(timeline, conv.start, conv.turn)
  }

  /** The timeline grows, and no line is spoken. */
  predicate Quiet(before: seq<Happening>, after: seq<Happening>) {
    |before| <= |after| && after[..|before|] == before && forall i :: |before| <= i < |after| ==> !after[i].Spoke?
  }

  /** The timeline grows, and the one line that is spoken comes last. */
  predicate EndsWith(before: seq<Happening>, after: seq<Happening>, line: Happening) {
    after != [] && after[|after| - 1] == line && Quiet(before, after[..|after| - 1])
  }

  lemma QuietThenSpoken(before: seq<Happening>, after: seq<Happening>, line: Happening)
    requires Quiet(before, after)
    ensures EndsWith(before, after + [line], line)
  {
    assert (after + [line])[..|after|] == after;
  }

  lemma EndsWithPrefix(before: seq<Happening>, after: seq<Happening>, line: Happening)
    requires EndsWith(before, after, line)
    ensures before <= after
  {
    assert after[..|before|] == after[..|after| - 1][..|before|];
  }

  /** At most one line, of this speaker, at this turn and place, and if there is one it comes last. */
  predicate AtMostOneLine(before: seq<Happening>, after: seq<Happening>, agent: Agent, turn: int, place: Place) {
    Quiet(before, after)
    || (after != [] &&
        var last := after[|after| - 1];
        last.Spoke? && last.agent == agent && last.turn == turn && last.place == place && EndsWith(before, after, last))
  }

  lemma LinePrefix(before: seq<Happening>, after: seq<Happening>, agent: Agent, turn: int, place: Place)
    requires AtMostOneLine(before, after, agent, turn, place)
    ensures before <= after
  {
    if !Quiet(before, after) {
      EndsWithPrefix(before, after, after[|after| - 1]);
    }
  }

  lemma QuietTwice(a: seq<Happening>, b: seq<Happening>, c: seq<Happening>)
    requires Quiet(a, b) && Quiet(b, c)
    ensures Quiet(a, c)
  {
    assert c[..|a|] == b[..|a|];
    forall i | |a| <= i < |c| ensures !c[i].Spoke? {
      if i < |b| {
        assert c[i] == b[i];
      }
    }
  }

  lemma {:induction false} TurnsUpTo(timeline: seq<Happening>, start: nat, turn: int, more: int)
    requires TurnsRise(timeline, start, turn) && turn <= more
    ensures TurnsRise(timeline, start, more)
    decreases |timeline|
  {
    if |timeline| > start && !timeline[|timeline| - 1].Spoke? {
      TurnsUpTo(timeline[..|timeline| - 1], start, turn, more);
    }
  }

  lemma {:induction false} QuietKeepsRecord(before: seq<Happening>, after: seq<Happening>, conv: Conversation)
    requires Quiet(before, after) && Recorded(before, conv)
    ensures Recorded(after, conv)
    decreases |after|
  {
    if |after| == |before| {
      assert after == before;
    } else {
      var init := after[..|after| - 1];
      assert init[..|before|] == before;
      QuietKeepsRecord(before, init, conv);
    }
  }

  /** Writing a line down and speaking it at the next turn keeps the record. */
  lemma SpeakingKeepsRecord(timeline: seq<Happening>, conv: Conversation, line: Line, place: Place)
    requires conv.turn >= 1 && Recorded(timeline, conv.(turn := conv.turn - 1))
    ensures Recorded(timeline + [Spoke(line.agent, line.content, conv.turn, place)],
                     conv.(history := conv.history + [Said(line)]))
  {
    var all, history := timeline + [Spoke(line.agent, line.content, conv.turn, place)], conv.history + [Said(line)];
    assert all[..|all| - 1] == timeline && history[..|history| - 1] == conv.history;
  }

  lemma NudgeKeepsRecord(timeline: seq<Happening>, conv: Conversation)
    requires Recorded(timeline, conv)
    ensures Recorded(timeline, conv.(history := conv.history + [Nudge]))
  {
    assert (conv.history + [Nudge])[..|conv.history|] == conv.history;
  }

  /** In one conversation no two lines carry the same turn number, and later lines carry later ones. */
  lemma {:induction false} LaterLinesHaveLaterTurns(timeline: seq<Happening>, start: nat, turn: int, i: nat, j: nat)
    requires TurnsRise(timeline, start, turn) && start <= i < j < |timeline| && timeline[i].Spoke? && timeline[j].Spoke?
    ensures 1 <= timeline[i].turn < timeline[j].turn <= turn
    decreases |timeline|
  {
    var last := |timeline| - 1;
    if j < last {
      var least := if timeline[last].Spoke? then timeline[last].turn - 1 else turn;
      LaterLinesHaveLaterTurns(timeline[..last], start, least, i, j);
    } else {
      LineTurn(timeline[..last], start, timeline[j].turn - 1, i);
    }
  }

  lemma {:induction false} LineTurn(timeline: seq<Happening>, start: nat, turn: int, i: nat)
    requires TurnsRise(timeline, start, turn) && start <= i < |timeline| && timeline[i].Spoke?
    ensures 1 <= timeline[i].turn <= turn
    decreases |timeline|
  {
    var last := |timeline| - 1;
    if i < last {
      LineTurn(timeline[..last], start, if timeline[last].Spoke? then timeline[last].turn - 1 else turn, i);
    }
  }

  /** Messages only come from agents that have the tool. */
  predicate SendersAble(toolsOf: Agent -> set<string>, timeline: seq<Happening>) {
    forall i :: 0 <= i < |timeline| && timeline[i].Sent? ==> SEND_MESSAGE in toolsOf(timeline[i].agent)
  }

  lemma SendingIsQuiet(toolsOf: Agent -> set<string>, before: seq<Happening>, after: seq<Happening>, agent: Agent)
    requires OnlySent(before, after, agent, SEND_MESSAGE in toolsOf(agent)) && SendersAble(toolsOf, before)
    ensures Quiet(before, after) && SendersAble(toolsOf, after)
  {
    forall i | 0 <= i < |after| && after[i].Sent? ensures SEND_MESSAGE in toolsOf(after[i].agent) {
      if i < |before| {
        assert after[i] == before[i];
      }
    }
  }

  predicate Silent(toolsOf: Agent -> set<string>, agent: Agent) {
    SEND_MESSAGE !in toolsOf(agent)
  }

  /** No agent has the messaging tool. */
  ghost predicate NobodySends(toolsOf: Agent -> set<string>) {
    forall agent :: Silent(toolsOf, agent)
  }

  /** If those whose events are there lack the messaging tool, every utterance is reviewed. */
  lemma WithoutMessagesAllIsReviewed(words: seq<string>, toolsOf: Agent -> set<string>, timeline: seq<Happening>)
    requires Governed(words, timeline) && SendersAble(toolsOf, timeline)
    requires forall i :: 0 <= i < |timeline| ==> Silent(toolsOf, timeline[i].agent)
    ensures FullyReviewed(words, timeline)
  {
    EveryUtteranceReviewedExactlyWhen(words, timeline);
  }

  /**
   The documentation's promise, exactly: the rules of the engine guarantee full review, on every timeline
   that keeps them, if and only if no agent has the messaging tool.
   */
  lemma FullReviewExactlyWhen(words: seq<string>, toolsOf: Agent -> set<string>)
    ensures (forall timeline :: Governed(words, timeline) && SendersAble(toolsOf, timeline) ==>
             FullyReviewed(words, timeline))
            <==> NobodySends(toolsOf)
  {
    if !NobodySends(toolsOf) {
      var agent :| !Silent(toolsOf, agent);
      var timeline := [Sent(agent, "")];
      DueAfter(words, [], Sent(agent, ""));
      assert [] + [Sent(agent, "")] == timeline;
      assert Governed(words, timeline) && SendersAble(toolsOf, timeline);
      assert !JustPassed(words, timeline, 0);
    }
    forall timeline | NobodySends(toolsOf) && Governed(words, timeline) && SendersAble(toolsOf, timeline)
      ensures FullyReviewed(words, timeline)
    {
      WithoutMessagesAllIsReviewed(words, toolsOf, timeline);
    }
  }
}
