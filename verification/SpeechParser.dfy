/** Splitting an agent's output into spoken dialogue and `[action]` stage directions. */
module SpeechParser {
  import opened Wrappers
  import opened PyText
  import opened TextScan
  import opened Segments
  import Markdown
  import opened Wording

  const OPEN := "[action]"
  const CLOSE := "[/action]"

  datatype ParsedSpeech = ParsedSpeech(raw: string, dialogue: string, actions: seq<string>)

  function Tagged(text: string): Pieces {
    Cuts(text, OPEN, CLOSE, 0)
  }

  /** Removal of markdown as a value. */
  function Stripper(): string -> string {
    text => Markdown.Stripdown(text)
  }

  /** The cleaning of a segment as a value. */
  function Cleaner(): string -> string {
    part => Cleaned(Stripper(), part)
  }

  function TheReader(): Reader {
    Reader(Cleaner(), inner => ActionOf(inner))
  }

  /** `re.sub(r"  +", " ", text)`. */
  function CollapseBlanks(s: string): string
    decreases |s|
  {
    if s == "" then ""
    else if s[0] == ' ' then " " + CollapseBlanks(s[Markdown.Span(s, c => c == ' ')..])
    else [s[0]] + CollapseBlanks(s[1..])
  }

  function ParseSpeech(text: string): ParsedSpeech {
    ParsedSpeech(text, Markdown.Stripdown(CollapseBlanks(Strip(Outside(Tagged(text))))), StripAll(Inners(Tagged(text))))
  }

  lemma CleanerKeepsWords(part: string)
    ensures Words(Cleaner()(part)) == Words(part)
  {
    forall s ensures Words(Stripper()(s)) == Words(s) {
      Markdown.KeptExactlyWhen(s);
      MarkdownKeepsWords(s);
      assert Stripper()(s) == Markdown.Stripdown(s);
    }
    CleaningKeepsWords(Stripper(), part);
    assert Cleaner()(part) == Cleaned(Stripper(), part);
  }

  /** Splitting loses no word: spoken one after the other, the segments say all that is outside the tags. */
  lemma NothingUnsaid(text: string)
    ensures Words(Speech(SegmentsOf(TheReader(), Tagged(text), None))) == Words(Outside(Tagged(text)))
  {
    forall part ensures Words(TheReader().clean(part)) == Words(part) {
      CleanerKeepsWords(part);
    }
    SegmentsKeepWords(TheReader(), Tagged(text), None);
  }

  lemma {:induction false} BlanksKeepWords(s: string)
    ensures Words(CollapseBlanks(s)) == Words(s)
    decreases |s|
  {
    if s != "" {
      if s[0] == ' ' {
        var n := Markdown.Span(s, c => c == ' ');
        BlanksKeepWords(s[n..]);
        WordsAfter(s, n);
        WordsTogether(" ", CollapseBlanks(s[n..]));
      } else {
        BlanksKeepWords(s[1..]);
        WordsTogether([s[0]], CollapseBlanks(s[1..]));
      }
    }
  }

  /** `parse_speech` keeps the text, all words outside the tags, and the stripped inside of every tag. */
  lemma ParsedSays(text: string)
    ensures var parsed, p := ParseSpeech(text), Tagged(text);
            && parsed.raw == text && Words(parsed.dialogue) == Words(Outside(p))
            && |parsed.actions| == |Inners(p)|
            && forall i :: 0 <= i < |parsed.actions| ==> parsed.actions[i] == Strip(Inners(p)[i])
  {
    var outside := Outside(Tagged(text));
    StripKeepsWords(outside);
    BlanksKeepWords(Strip(outside));
    MarkdownKeepsWords(CollapseBlanks(Strip(outside)));
    var inners := Inners(Tagged(text));
    forall i | 0 <= i < |inners| ensures StripAll(inners)[i] == Strip(inners[i]) {
      StrippedEach(inners, i);
    }
  }

  lemma StripperTidies()
    ensures Tidies(Stripper(), Markdown.Unmarked()) && Shortens(Stripper())
  {
    forall s ensures Only(Stripper()(s), Markdown.Unmarked()) {
      Markdown.NoStraysLeft(s);
      assert Stripper()(s) == Markdown.Stripdown(s);
    }
    forall s ensures Stripper()(s) == s || |Stripper()(s)| < |s| {
      Markdown.KeptExactlyWhen(s);
      assert Stripper()(s) == Markdown.Stripdown(s);
    }
  }

  method CleanPart(part: string) returns (clean: string)
    ensures clean == Cleaner()(part)
  {
    var stripped := Strip(part);
    clean := Markdown.StripMarkdown(stripped);
    assert clean == Stripper()(stripped);
    clean := Strip(Collapse(clean));
  }

  /** Splits at the tags; every segment is speakable, and its action is stripped and not empty. */
  method ParseSpeechSegments(text: string) returns (segments: seq<Segment>)
    ensures segments == SegmentsOf(TheReader(), Tagged(text), None)
    ensures AllGood(segments, Markdown.Unmarked())
  {
    segments := SegmentParts(TheReader(), Parts(Tagged(text)));
    FromPartsOfCut(TheReader(), Tagged(text), None);
    SegmentsAreSpeakable(Tagged(text));
  }

  /** For arbitrary text, the tags as they stand, put back between the pieces, restore it. */
  lemma TaggedReassembles(text: string)
    ensures Reassembled(Tagged(text)) == text
  {
    CutsReassemble(text, OPEN, CLOSE, 0);
  }

  lemma SegmentsAreSpeakable(p: Pieces)
    ensures AllGood(SegmentsOf(TheReader(), p, None), Markdown.Unmarked())
  {
    StripperTidies();
    forall part ensures Cleaner()(part) != "" ==> Speakable(Cleaner()(part), Markdown.Unmarked()) {
      CleanedIsSpeakable(Stripper(), Markdown.Unmarked(), part);
      assert Cleaner()(part) == Cleaned(Stripper(), part);
    }
    forall inner ensures GoodAction(TheReader().act(inner)) {
      assert TheReader().act(inner) == ActionOf(inner);
    }
    SegmentsAreGood(TheReader(), Markdown.Unmarked(), p, None);
  }

  /** A text comes through cleaning unchanged exactly when it is stripped, single-spaced and free of markdown. */
  lemma KeptExactlyWhen(s: string)
    ensures Cleaner()(s) == s <==> Stripped(s) && SingleSpaced(s) && Markdown.NoneOccurs(Markdown.PATTERNS, s)
  {
    StripperTidies();
    CleanedExactlyWhen(Stripper(), s);
    Markdown.KeptExactlyWhen(s);
    assert Stripper()(s) == Markdown.Stripdown(s);
    assert Cleaner()(s) == Cleaned(Stripper(), s);
  }

  lemma TagsAreLiteral()
    ensures IsLiteral(OPEN) && IsLiteral(CLOSE)
  {
  }

  /** Nothing in the segment is touched by cleaning or taken for a tag. */
  predicate CleanSegment(open: string, close: string, s: Segment) {
    && s.text != "" && Stripped(s.text) && SingleSpaced(s.text) && Markdown.NoneOccurs(Markdown.PATTERNS, s.text)
    && Without(s.text, open)
    && (s.action.Some? ==> s.action.value != "" && Stripped(s.action.value) && Without(s.action.value, close))
  }

  lemma CleanSegmentIsClean(open: string, close: string, s: Segment)
    requires CleanSegment(open, close, s)
    ensures Clean(open, close, TheReader(), s)
  {
    KeptExactlyWhen(s.text);
    if s.action.Some? {
      StripOfStripped(s.action.value);
      assert TheReader().act(s.action.value) == ActionOf(s.action.value);
    }
  }

  lemma AllAreClean(open: string, close: string, segments: seq<Segment>)
    requires forall i :: 0 <= i < |segments| ==> CleanSegment(open, close, segments[i])
    ensures forall i :: 0 <= i < |segments| ==> Clean(open, close, TheReader(), segments[i])
  {
    forall i | 0 <= i < |segments| ensures Clean(open, close, TheReader(), segments[i]) {
      CleanSegmentIsClean(open, close, segments[i]);
    }
  }

  lemma NothingStaysNothing()
    ensures TheReader().clean("") == ""
  {
    KeptExactlyWhen("");
  }

  lemma ParsesBack(open: string, close: string, segments: seq<Segment>, text: string)
    requires IsLiteral(open) && IsLiteral(close)
    requires forall i :: 0 <= i < |segments| ==> CleanSegment(open, close, segments[i])
    requires forall i :: 0 < i < |segments| ==> segments[i].action.Some?
    requires text == Render(open, close, segments)
    ensures SegmentsOf(TheReader(), Cuts(text, open, close, 0), None) == segments
    ensures StripAll(Inners(Cuts(text, open, close, 0))) == Actions(segments)
  {
    NothingStaysNothing();
    AllAreClean(open, close, segments);
    RoundTrip(open, close, TheReader(), segments, text);
  }

  /**
   Rendering clean segments, of which only the first may lack an action, and parsing the text gives
   back the same list; `parse_speech` finds the same actions in the same order.
   */
  lemma RenderedParsesBack(segments: seq<Segment>)
    requires forall i :: 0 <= i < |segments| ==> CleanSegment(OPEN, CLOSE, segments[i])
    requires forall i :: 0 < i < |segments| ==> segments[i].action.Some?
    ensures SegmentsOf(TheReader(), Tagged(Render(OPEN, CLOSE, segments)), None) == segments
    ensures ParseSpeech(Render(OPEN, CLOSE, segments)).actions == Actions(segments)
  {
    TagsAreLiteral();
    ParsesBack(OPEN, CLOSE, segments, Render(OPEN, CLOSE, segments));
  }
}
