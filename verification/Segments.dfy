/**
 Dialogue segments and the actions before them: cleaning, splitting, and rendering back to tagged text.
 The tags and the removal of markdown are parameters; `SpeechParser` supplies them.
 */
module Segments {
  import opened Wrappers
  import opened PyText
  import opened TextScan

  /** A stretch of dialogue and the action that comes right before it. */
  datatype Segment = Segment(text: string, action: Option<string>)

  // ---- Cleaning ----

  /** `re.sub(r"\s+", " ", text)`. */
  function Collapse(s: string): string
    decreases |s|
  {
    if s == "" then ""
    else if IsSpace(s[0]) then " " + Collapse(StripLeft(s[1..]))
    else [s[0]] + Collapse(s[1..])
  }

  function Cleaned(strip: string -> string, part: string): string {
    Strip(Collapse(strip(Strip(part))))
  }

  /** Only single blanks separate what is not space. */
  predicate SingleSpaced(s: string) {
    s != "" ==> (IsSpace(s[0]) ==> s[0] == ' ' && (|s| > 1 ==> !IsSpace(s[1]))) && SingleSpaced(s[1..])
  }

  lemma {:induction false} CollapseSpaces(s: string)
    ensures SingleSpaced(Collapse(s)) && |Collapse(s)| <= |s|
    ensures Collapse(s) == s <==> SingleSpaced(s)
    ensures Collapse(s) != "" ==> s != "" && (Collapse(s)[0] == s[0] || (IsSpace(s[0]) && Collapse(s)[0] == ' '))
    decreases |s|
  {
    if s != "" {
      assert s == [s[0]] + s[1..];
      if IsSpace(s[0]) {
        var rest := StripLeft(s[1..]);
        CollapseSpaces(rest);
        assert Collapse(s)[1..] == Collapse(rest);
        if SingleSpaced(s) {
          assert rest == s[1..];
        }
      } else {
        CollapseSpaces(s[1..]);
        assert Collapse(s)[1..] == Collapse(s[1..]);
      }
    }
  }

  lemma OnlyCons(c: char, s: string, p: char -> bool)
    requires p(c) && Only(s, p)
    ensures Only([c] + s, p)
  {
  }

  lemma {:induction false} StripLeftKeeps(s: string, p: char -> bool)
    requires Only(s, p)
    ensures Only(StripLeft(s), p)
  {
    if s != "" && IsSpace(s[0]) {
      StripLeftKeeps(s[1..], p);
    }
  }

  /** Collapsing adds no character but blanks. */
  lemma {:induction false} CollapseKeeps(s: string, p: char -> bool)
    requires p(' ') && Only(s, p)
    ensures Only(Collapse(s), p)
    decreases |s|
  {
    if s != "" {
      assert Only(s[1..], p) && s[0] in s;
      if IsSpace(s[0]) {
        StripLeftKeeps(s[1..], p);
        CollapseKeeps(StripLeft(s[1..]), p);
        OnlyCons(' ', Collapse(StripLeft(s[1..])), p);
      } else {
        CollapseKeeps(s[1..], p);
        OnlyCons(s[0], Collapse(s[1..]), p);
      }
    }
  }

  lemma {:induction false} PrefixSingleSpaced(s: string, n: nat)
    requires SingleSpaced(s) && n <= |s|
    ensures SingleSpaced(s[..n])
  {
    if n > 0 {
      PrefixSingleSpaced(s[1..], n - 1);
      assert s[..n][1..] == s[1..][..n - 1];
    }
  }

  lemma {:induction false} LeftSingleSpaced(s: string)
    requires SingleSpaced(s)
    ensures SingleSpaced(StripLeft(s))
  {
    if s != "" && IsSpace(s[0]) {
      LeftSingleSpaced(s[1..]);
    }
  }

  lemma {:induction false} RightSingleSpaced(s: string)
    requires SingleSpaced(s)
    ensures SingleSpaced(StripRight(s))
  {
    if s != "" && IsSpace(s[|s| - 1]) {
      PrefixSingleSpaced(s, |s| - 1);
      RightSingleSpaced(s[..|s| - 1]);
    }
  }

  lemma StripSingleSpaced(s: string)
    requires SingleSpaced(s)
    ensures SingleSpaced(Strip(s))
  {
    LeftSingleSpaced(s);
    RightSingleSpaced(StripLeft(s));
  }

  /** What is fit to be spoken: no space at the ends, single blanks inside, and only permitted characters. */
  ghost predicate Speakable(text: string, permitted: char -> bool) {
    text != "" && Stripped(text) && SingleSpaced(text) && Only(text, permitted)
  }

  /** Stripping markdown leaves only permitted characters. */
  ghost predicate Tidies(strip: string -> string, permitted: char -> bool) {
    permitted(' ') && forall s :: Only(strip(s), permitted)
  }

  lemma StrippedIsSpeakable(s: string, permitted: char -> bool)
    requires SingleSpaced(s) && Only(s, permitted)
    ensures Strip(s) != "" ==> Speakable(Strip(s), permitted)
  {
    StripSingleSpaced(s);
    StripKeeps(s, permitted);
  }

  lemma CollapsedIsSpeakable(s: string, permitted: char -> bool)
    requires permitted(' ') && Only(s, permitted)
    ensures Strip(Collapse(s)) != "" ==> Speakable(Strip(Collapse(s)), permitted)
  {
    CollapseSpaces(s);
    CollapseKeeps(s, permitted);
    StrippedIsSpeakable(Collapse(s), permitted);
  }

  lemma CleanedIsSpeakable(strip: string -> string, permitted: char -> bool, part: string)
    requires Tidies(strip, permitted)
    ensures Cleaned(strip, part) != "" ==> Speakable(Cleaned(strip, part), permitted)
  {
    CollapsedIsSpeakable(strip(Strip(part)), permitted);
  }

  /** Stripping markdown shortens a text or leaves it alone. */
  ghost predicate Shortens(strip: string -> string) {
    forall s :: strip(s) == s || |strip(s)| < |s|
  }

  /** A text comes through cleaning unchanged exactly when it is stripped, single-spaced and free of markdown. */
  lemma CleanedExactlyWhen(strip: string -> string, s: string)
    requires Shortens(strip)
    ensures Cleaned(strip, s) == s <==> Stripped(s) && SingleSpaced(s) && strip(s) == s
  {
    var a := Strip(s);
    StripShortens(s);
    assert strip(a) == a || |strip(a)| < |a|;
    AfterStrip(s, a, strip(a));
  }

  /** Steps none of which lengthens a text give it back exactly when each leaves it alone. */
  lemma AfterStrip(s: string, a: string, b: string)
    requires a == s || |a| < |s|
    requires b == a || |b| < |a|
    ensures Strip(Collapse(b)) == s <==> a == s && b == s && SingleSpaced(s) && Stripped(s)
  {
    CollapseSpaces(b);
    StripShortens(Collapse(b));
    if Strip(Collapse(b)) == s {
      assert |Collapse(b)| == |s| && b == s;
    }
  }

  // ---- Splitting ----

  /** `part.strip() or None`. */
  function ActionOf(inner: string): Option<string> {
    if Strip(inner) == "" then None else Some(Strip(inner))
  }

  /** How a reader cleans dialogue and takes actions. */
  datatype Reader = Reader(clean: string -> string, act: string -> Option<string>)

  function Dialogue(r: Reader, part: string, pending: Option<string>): seq<Segment> {
    if r.clean(part) == "" then [] else [Segment(r.clean(part), pending)]
  }

  /** The segments of a cut text; `pending` is the action before it. Of several actions in a row the last counts. */
  function SegmentsOf(r: Reader, p: Pieces, pending: Option<string>): seq<Segment> {
    match p
    case Rest(text) => Dialogue(r, text, pending)
    case Cut(before, _, inner, _, rest) => Dialogue(r, before, pending) + SegmentsOf(r, rest, r.act(inner))
  }

  /** The same over a split list, dialogue and actions in turn. */
  function FromParts(r: Reader, parts: seq<string>, spoken: bool, pending: Option<string>): seq<Segment> {
    if parts == [] then []
    else if spoken then
      Dialogue(r, parts[0], pending)
        + FromParts(r, parts[1..], false, if r.clean(parts[0]) == "" then pending else None)
    else FromParts(r, parts[1..], true, r.act(parts[0]))
  }

  lemma {:induction false} FromPartsOfCut(r: Reader, p: Pieces, pending: Option<string>)
    ensures FromParts(r, Parts(p), true, pending) == SegmentsOf(r, p, pending)
  {
    match p
    case Rest(text) =>
      assert [text][1..] == [];
    case Cut(before, _, inner, _, rest) =>
      FromPartsOfCut(r, rest, r.act(inner));
      var parts := Parts(p);
      assert parts[1..] == [inner] + Parts(rest) && parts[1..][1..] == Parts(rest);
      assert FromParts(r, parts[1..], false, None) == FromParts(r, Parts(rest), true, r.act(inner));
  }

  /** What part `2 * k` of a split list gives: its dialogue, if any, with the action of the part right before it. */
  function SegmentAt(r: Reader, parts: seq<string>, k: nat): seq<Segment>
    requires 2 * k < |parts|
  {
    var text := r.clean(parts[2 * k]);
    if text == "" then [] else [Segment(text, if k == 0 then None else r.act(parts[2 * k - 1]))]
  }

  function SegmentsFrom(r: Reader, parts: seq<string>, k: nat): seq<Segment>
    decreases |parts| - 2 * k
  {
    if 2 * k >= |parts| then [] else SegmentAt(r, parts, k) + SegmentsFrom(r, parts, k + 1)
  }

  lemma {:induction false} SegmentsLater(r: Reader, parts: seq<string>, k: nat, p: Pieces, pending: Option<string>)
    requires 2 * k < |parts| && parts[2 * k..] == Parts(p)
    requires pending == if k == 0 then None else r.act(parts[2 * k - 1])
    ensures SegmentsOf(r, p, pending) == SegmentsFrom(r, parts, k)
    decreases p
  {
    assert parts[2 * k] == Parts(p)[0];
    match p
    case Rest(text) =>
      assert |parts| == 2 * k + 1;
      assert SegmentsFrom(r, parts, k + 1) == [];
    case Cut(before, _, inner, _, rest) =>
      assert parts[2 * k + 1] == Parts(p)[1];
      assert parts[2 * (k + 1)..] == Parts(p)[2..] == Parts(rest);
      SegmentsLater(r, parts, k + 1, rest, r.act(inner));
  }

  /** Part by part: each stretch of dialogue that is left after cleaning, with the action right before it. */
  lemma SegmentsByPart(r: Reader, p: Pieces)
    ensures SegmentsOf(r, p, None) == SegmentsFrom(r, Parts(p), 0)
  {
    assert Parts(p)[0..] == Parts(p);
    SegmentsLater(r, Parts(p), 0, p, None);
  }

  /** The loop over a split list: an action waits for the next stretch of dialogue. */
  method SegmentParts(r: Reader, parts: seq<string>) returns (segments: seq<Segment>)
    ensures segments == FromParts(r, parts, true, None)
  {
    var pending := None;
    segments := [];
    var i := 0;
    while i < |parts|
      invariant 0 <= i <= |parts|
      invariant FromParts(r, parts, true, None) == segments + FromParts(r, parts[i..], i % 2 == 0, pending)
    {
      assert parts[i..][1..] == parts[i + 1..];
      if i % 2 == 0 {
        var text := r.clean(parts[i]);
        if text != "" {
          segments := segments + [Segment(text, pending)];
          pending := None;
        }
      } else {
        pending := r.act(parts[i]);
      }
      i := i + 1;
    }
    assert parts[i..] == [];
  }

  function Spoken(parts: seq<string>): string {
    if parts == [] then "" else parts[0] + if |parts| == 1 then "" else Spoken(parts[2..])
  }

  function Acted(parts: seq<string>): seq<string> {
    if |parts| < 2 then [] else [parts[1]] + Acted(parts[2..])
  }

  /** The split list agrees with what is extracted as actions and what is left when the matches are removed. */
  lemma {:induction false} PartsAgree(p: Pieces)
    ensures Spoken(Parts(p)) == Outside(p) && Acted(Parts(p)) == Inners(p)
  {
    if p.Cut? {
      PartsAgree(p.rest);
      assert Parts(p)[2..] == Parts(p.rest);
    }
  }

  ghost predicate GoodAction(action: Option<string>) {
    action.Some? ==> action.value != "" && Stripped(action.value)
  }

  ghost predicate GoodSegment(s: Segment, permitted: char -> bool) {
    Speakable(s.text, permitted) && GoodAction(s.action)
  }

  ghost predicate AllGood(segments: seq<Segment>, permitted: char -> bool) {
    forall i :: 0 <= i < |segments| ==> GoodSegment(segments[i], permitted)
  }

  lemma AllGoodTogether(a: seq<Segment>, b: seq<Segment>, permitted: char -> bool)
    requires AllGood(a, permitted) && AllGood(b, permitted)
    ensures AllGood(a + b, permitted)
  {
  }

  /** What a reader of speakable texts and good actions yields. */
  ghost predicate GoodReader(r: Reader, permitted: char -> bool) {
    && (forall part :: r.clean(part) != "" ==> Speakable(r.clean(part), permitted))
    && (forall inner :: GoodAction(r.act(inner)))
  }

  lemma DialogueIsGood(r: Reader, permitted: char -> bool, part: string, pending: Option<string>)
    requires GoodReader(r, permitted) && GoodAction(pending)
    ensures AllGood(Dialogue(r, part, pending), permitted)
  {
  }

  /** Every segment is speakable; actions are stripped and not empty. */
  lemma {:induction false} SegmentsAreGood(r: Reader, permitted: char -> bool, p: Pieces, pending: Option<string>)
    requires GoodReader(r, permitted) && GoodAction(pending)
    ensures AllGood(SegmentsOf(r, p, pending), permitted)
  {
    match p
    case Rest(text) => DialogueIsGood(r, permitted, text, pending);
    case Cut(before, _, inner, _, rest) =>
      DialogueIsGood(r, permitted, before, pending);
      SegmentsAreGood(r, permitted, rest, r.act(inner));
      AllGoodTogether(Dialogue(r, before, pending), SegmentsOf(r, rest, r.act(inner)), permitted);
  }

  // ---- Rendering and parsing ----

  function RenderOne(open: string, close: string, s: Segment): string {
    (if s.action.Some? then open + s.action.value + close else "") + s.text
  }

  function Render(open: string, close: string, segments: seq<Segment>): string {
    if segments == [] then "" else RenderOne(open, close, segments[0]) + Render(open, close, segments[1..])
  }

  /** Nothing in the segment is touched by cleaning or taken for a tag. */
  predicate Clean(open: string, close: string, r: Reader, s: Segment) {
    && s.text != "" && r.clean(s.text) == s.text && Without(s.text, open)
    && (s.action.Some? ==>
          Stripped(s.action.value) && r.act(s.action.value) == s.action && Without(s.action.value, close))
  }

  /** Clean segments that each begin with an action. */
  predicate ActedList(open: string, close: string, r: Reader, segments: seq<Segment>) {
    forall i :: 0 <= i < |segments| ==> Clean(open, close, r, segments[i]) && segments[i].action.Some?
  }

  /** The pieces of a text followed by rendered segments. */
  function Tree(open: string, close: string, x: string, segments: seq<Segment>): Pieces
    decreases |segments|
  {
    if segments == [] || segments[0].action.None? then Rest(x)
    else Cut(x, open, segments[0].action.value, close, Tree(open, close, segments[0].text, segments[1..]))
  }

  lemma RenderFirst(open: string, close: string, x: string, segments: seq<Segment>)
    requires segments != [] && segments[0].action.Some?
    ensures x + Render(open, close, segments)
            == x + open + segments[0].action.value + close + (segments[0].text + Render(open, close, segments[1..]))
  {
  }

  lemma {:induction false} CutsOfRendered(open: string, close: string, r: Reader, x: string, segments: seq<Segment>)
    requires IsLiteral(open) && IsLiteral(close) && Without(x, open) && ActedList(open, close, r, segments)
    ensures Cuts(x + Render(open, close, segments), open, close, 0) == Tree(open, close, x, segments)
    decreases |segments|
  {
    if segments == [] {
      assert x + Render(open, close, segments) == x;
      CutOfPlainText(x, open, close);
    } else {
      var s, rest := segments[0], segments[1..];
      CutsOfRendered(open, close, r, s.text, rest);
      CutOfJoined(x, open, s.action.value, close, s.text + Render(open, close, rest));
      RenderFirst(open, close, x, segments);
    }
  }

  function Each<T, U>(f: T -> U, xs: seq<T>): (ys: seq<U>)
    ensures |ys| == |xs|
  {
    if xs == [] then [] else [f(xs[0])] + Each(f, xs[1..])
  }

  lemma {:induction false} EachAt<T, U>(f: T -> U, xs: seq<T>, i: nat)
    requires i < |xs|
    ensures Each(f, xs)[i] == f(xs[i])
  {
    if i > 0 {
      EachAt(f, xs[1..], i - 1);
    }
  }

  /** `strip` as a value. */
  function Stripping(): string -> string {
    text => Strip(text)
  }

  function StripAll(texts: seq<string>): seq<string> {
    Each(Stripping(), texts)
  }

  lemma StrippedEach(texts: seq<string>, i: nat)
    requires i < |texts|
    ensures |StripAll(texts)| == |texts| && StripAll(texts)[i] == Strip(texts[i])
  {
    EachAt(Stripping(), texts, i);
    assert Stripping()(texts[i]) == Strip(texts[i]);
  }

  function Actions(segments: seq<Segment>): seq<string> {
    if segments == [] then []
    else (if segments[0].action.Some? then [segments[0].action.value] else []) + Actions(segments[1..])
  }

  lemma {:induction false} SegmentsOfTree(open: string, close: string, r: Reader, x: string, segments: seq<Segment>,
                                          pending: Option<string>)
    requires ActedList(open, close, r, segments)
    ensures SegmentsOf(r, Tree(open, close, x, segments), pending) == Dialogue(r, x, pending) + segments
    decreases |segments|
  {
    if segments != [] {
      var s := segments[0];
      assert Clean(open, close, r, s);
      SegmentsOfTree(open, close, r, s.text, segments[1..], s.action);
      assert Dialogue(r, s.text, s.action) == [s];
      assert segments == [s] + segments[1..];
    }
  }

  lemma {:induction false} ActionsOfTree(open: string, close: string, r: Reader, x: string, segments: seq<Segment>)
    requires ActedList(open, close, r, segments)
    ensures Inners(Tree(open, close, x, segments)) == Actions(segments)
    decreases |segments|
  {
    if segments != [] {
      ActionsOfTree(open, close, r, segments[0].text, segments[1..]);
    }
  }

  lemma {:induction false} StrippedActions(open: string, close: string, r: Reader, segments: seq<Segment>)
    requires ActedList(open, close, r, segments)
    ensures StripAll(Actions(segments)) == Actions(segments)
  {
    if segments != [] {
      assert Clean(open, close, r, segments[0]);
      StrippedActions(open, close, r, segments[1..]);
      StripOfStripped(segments[0].action.value);
      assert Stripping()(segments[0].action.value) == segments[0].action.value;
      assert Actions(segments)[1..] == Actions(segments[1..]);
    }
  }

  lemma ParseOfRendered(open: string, close: string, r: Reader, x: string, segments: seq<Segment>, text: string)
    requires IsLiteral(open) && IsLiteral(close) && Without(x, open) && ActedList(open, close, r, segments)
    requires text == x + Render(open, close, segments)
    ensures SegmentsOf(r, Cuts(text, open, close, 0), None) == Dialogue(r, x, None) + segments
    ensures StripAll(Inners(Cuts(text, open, close, 0))) == Actions(segments)
  {
    CutsOfRendered(open, close, r, x, segments);
    SegmentsOfTree(open, close, r, x, segments, None);
    ActionsOfTree(open, close, r, x, segments);
    StrippedActions(open, close, r, segments);
  }

  /** The case of a first segment without an action. */
  lemma TalkFirst(open: string, close: string, r: Reader, first: Segment, rest: seq<Segment>)
    requires IsLiteral(open) && IsLiteral(close) && Clean(open, close, r, first) && first.action.None?
    requires forall i :: 0 <= i < |rest| ==> Clean(open, close, r, rest[i]) && rest[i].action.Some?
    ensures var text := first.text + Render(open, close, rest);
            && SegmentsOf(r, Cuts(text, open, close, 0), None) == [first] + rest
            && StripAll(Inners(Cuts(text, open, close, 0))) == Actions(rest)
  {
    ParseOfRendered(open, close, r, first.text, rest, first.text + Render(open, close, rest));
    assert Dialogue(r, first.text, None) == [first];
  }

  lemma RenderTalk(open: string, close: string, segments: seq<Segment>)
    requires segments != [] && segments[0].action.None?
    ensures Render(open, close, segments) == segments[0].text + Render(open, close, segments[1..])
  {
    assert "" + segments[0].text == segments[0].text;
  }

  lemma TalkHasNoAction(segments: seq<Segment>)
    requires segments != [] && segments[0].action.None?
    ensures segments == [segments[0]] + segments[1..] && Actions(segments) == Actions(segments[1..])
  {
    assert [] + Actions(segments[1..]) == Actions(segments[1..]);
  }

  /**
   Rendering clean segments, of which only the first may lack an action, and parsing the text gives
   back the same list, and its actions in the same order.
   */
  lemma RoundTrip(open: string, close: string, r: Reader, segments: seq<Segment>, text: string)
    requires IsLiteral(open) && IsLiteral(close) && r.clean("") == ""
    requires forall i :: 0 <= i < |segments| ==> Clean(open, close, r, segments[i])
    requires forall i :: 0 < i < |segments| ==> segments[i].action.Some?
    requires text == Render(open, close, segments)
    ensures SegmentsOf(r, Cuts(text, open, close, 0), None) == segments
    ensures StripAll(Inners(Cuts(text, open, close, 0))) == Actions(segments)
  {
    if segments == [] || segments[0].action.Some? {
      assert text == "" + text;
      ParseOfRendered(open, close, r, "", segments, text);
    } else {
      RenderTalk(open, close, segments);
      TalkFirst(open, close, r, segments[0], segments[1..]);
      TalkHasNoAction(segments);
    }
  }
}
