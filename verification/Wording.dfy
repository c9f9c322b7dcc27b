/** What the removal of markdown and tags cannot touch: every character but space and marks, in its order. */
module Wording {
  import opened Wrappers
  import opened PyText
  import opened TextScan
  import opened Markdown
  import opened Segments

  /** Neither space nor a character that markdown is made of. */
  predicate IsWord(c: char) {
    !IsSpace(c) && c != '*' && c != '_' && c != '`' && c != '#' && c != '-'
  }

  /** The characters that count, in order. */
  function Words(s: string): string {
    if s == "" then "" else (if IsWord(s[0]) then [s[0]] else "") + Words(s[1..])
  }

  lemma {:induction false} WordsTogether(a: string, b: string)
    ensures Words(a + b) == Words(a) + Words(b)
  {
    if a == "" {
      assert a + b == b;
    } else {
      WordsTogether(a[1..], b);
      assert (a + b)[1..] == a[1..] + b;
      var first := if IsWord(a[0]) then [a[0]] else "";
      assert Words(a + b) == first + (Words(a[1..]) + Words(b));
      assert Words(a) == first + Words(a[1..]);
    }
  }

  lemma {:induction false} NoWords(s: string)
    requires forall i :: 0 <= i < |s| ==> !IsWord(s[i])
    ensures Words(s) == ""
  {
    if s != "" {
      NoWords(s[1..]);
    }
  }

  /** What stands before a text and has no words in it can go. */
  lemma WordsAfter(s: string, n: nat)
    requires n <= |s| && forall i :: 0 <= i < n ==> !IsWord(s[i])
    ensures Words(s[n..]) == Words(s)
  {
    assert s == s[..n] + s[n..];
    NoWords(s[..n]);
    WordsTogether(s[..n], s[n..]);
  }

  lemma StripKeepsWords(s: string)
    ensures Words(Strip(s)) == Words(s)
  {
    var front, back := StripRemovesSpace(s);
    NoWords(front);
    NoWords(back);
    WordsTogether(front, Strip(s));
    WordsTogether(front + Strip(s), back);
  }

  // ---- The patterns ----

  /** The pattern is made of marks. */
  predicate OfMarks(p: Pattern) {
    p.Pair? ==> forall i :: 0 <= i < |p.mark| ==> p.mark[i] == '*' || p.mark[i] == '_' || p.mark[i] == '`'
  }

  lemma TagHasNoWords(text: string, mark: string)
    requires OfMarks(Pair(mark)) && IsTag(text, mark)
    ensures Words(text) == ""
  {
    forall i | 0 <= i < |text| ensures !IsWord(text[i]) {
      assert SameLetter(text[i], mark[i]);
    }
    NoWords(text);
  }

  lemma FiveWords(a: string, b: string, c: string, d: string, e: string)
    requires Words(b) == "" && Words(d) == ""
    ensures Words(a + b + c + d + e) == Words(a) + Words(c) + Words(e)
  {
    WordsTogether(a, b);
    WordsTogether(a + b, c);
    WordsTogether(a + b + c, d);
    WordsTogether(a + b + c + d, e);
  }

  /** No tag of the cut text has words in it. */
  predicate WordlessTags(p: Pieces) {
    p.Cut? ==> Words(p.open) == "" && Words(p.close) == "" && WordlessTags(p.rest)
  }

  lemma {:induction false} MarksAreWordless(s: string, mark: string)
    requires mark != "" && OfMarks(Pair(mark))
    ensures WordlessTags(Cuts(s, mark, mark, 1))
    decreases |s|
  {
    var m := FirstMatch(s, mark, mark, 1);
    if m.Some? {
      var (i, j) := m.value;
      TagHasNoWords(s[i..i + |mark|], mark);
      TagHasNoWords(s[j..j + |mark|], mark);
      MarksAreWordless(s[j + |mark|..], mark);
      CutsFrom(s, mark, mark, 1, i, j);
    }
  }

  lemma {:induction false} UnwrappedWords(p: Pieces)
    requires WordlessTags(p)
    ensures Words(Unwrapped(p)) == Words(Reassembled(p))
  {
    if p.Cut? {
      UnwrappedWords(p.rest);
      FiveWords(p.before, p.open, p.inner, p.close, Reassembled(p.rest));
      ThreeWords(p.before, p.inner, Unwrapped(p.rest));
    }
  }

  lemma UnwrappingKeepsWords(s: string, mark: string)
    requires mark != "" && OfMarks(Pair(mark))
    ensures Words(Unwrapped(Cuts(s, mark, mark, 1))) == Words(s)
  {
    MarksAreWordless(s, mark);
    UnwrappedWords(Cuts(s, mark, mark, 1));
    CutsReassemble(s, mark, mark, 1);
  }

  lemma ThreeWords(a: string, b: string, c: string)
    ensures Words(a + b + c) == Words(a) + Words(b) + Words(c)
  {
    WordsTogether(a, b);
    WordsTogether(a + b, c);
  }

  lemma HeaderHasNoWords(s: string)
    requires HeaderHere(s)
    ensures forall i :: 0 <= i < HeaderLength(s) ==> !IsWord(s[i])
  {
    var hashes := Span(s, IsHash);
    var spaces := Span(s[hashes + 1..], IsSpace);
    forall i | 0 <= i < HeaderLength(s) ensures !IsWord(s[i]) {
      if i > hashes {
        assert IsSpace(s[hashes + 1..][i - hashes - 1]);
      } else if i < hashes {
        assert IsHash(s[i]);
      }
    }
  }

  lemma WordsCons(c: char, s: string, t: string)
    requires Words(s) == Words(t)
    ensures Words([c] + s) == Words([c] + t)
  {
    WordsTogether([c], s);
    WordsTogether([c], t);
  }

  lemma {:induction false} HeadersKeepWords(s: string, lineStart: bool)
    ensures Words(SubHeaders(s, lineStart)) == Words(s)
    decreases |s|
  {
    if s != "" {
      if lineStart && HeaderHere(s) {
        var n := HeaderLength(s);
        HeadersKeepWords(s[n..], s[n - 1] == '\n');
        HeaderHasNoWords(s);
        WordsAfter(s, n);
      } else {
        HeadersKeepWords(s[1..], s[0] == '\n');
        WordsCons(s[0], SubHeaders(s[1..], s[0] == '\n'), s[1..]);
        assert s == [s[0]] + s[1..];
      }
    }
  }

  lemma {:induction false} RulesKeepWords(s: string, lineStart: bool)
    ensures Words(SubRules(s, lineStart)) == Words(s)
    decreases |s|
  {
    if s != "" {
      if lineStart && RuleHere(s) {
        var n := Span(s, IsRuleMark);
        RulesKeepWords(s[n..], false);
        assert forall i :: 0 <= i < n ==> IsRuleMark(s[i]);
        WordsAfter(s, n);
      } else {
        RulesKeepWords(s[1..], s[0] == '\n');
        WordsCons(s[0], SubRules(s[1..], s[0] == '\n'), s[1..]);
        assert s == [s[0]] + s[1..];
      }
    }
  }

  lemma {:induction false} StraysKeepWords(s: string)
    ensures Words(SubStrays(s)) == Words(s)
  {
    if s != "" {
      StraysKeepWords(s[1..]);
      WordsTogether(if IsStray(s[0]) then "" else [s[0]], SubStrays(s[1..]));
    }
  }

  lemma SubKeepsWords(p: Pattern, s: string)
    requires OfMarks(p)
    ensures Words(Sub(p, s)) == Words(s)
  {
    match p
    case Pair(mark) =>
      if mark != "" {
        UnwrappingKeepsWords(s, mark);
      }
    case Headers => HeadersKeepWords(s, true);
    case Rules => RulesKeepWords(s, true);
    case Strays => StraysKeepWords(s);
  }

  lemma {:induction false} SubAllKeepsWords(patterns: seq<Pattern>, s: string)
    requires forall i :: 0 <= i < |patterns| ==> OfMarks(patterns[i])
    ensures Words(SubAll(patterns, s)) == Words(s)
  {
    if patterns != [] {
      SubKeepsWords(patterns[0], s);
      SubAllKeepsWords(patterns[1..], Sub(patterns[0], s));
    }
  }

  lemma PatternsAreOfMarks()
    ensures forall i :: 0 <= i < |PATTERNS| ==> OfMarks(PATTERNS[i])
  {
  }

  /** Removing markdown takes nothing but marks and space, and leaves the rest in order. */
  lemma MarkdownKeepsWords(s: string)
    ensures Words(Stripdown(s)) == Words(s)
  {
    PatternsAreOfMarks();
    SubAllKeepsWords(PATTERNS, s);
    StripKeepsWords(SubAll(PATTERNS, s));
  }

  // ---- Cleaning ----

  lemma SkipSpace(s: string)
    ensures Words(StripLeft(s)) == Words(s)
  {
    var n := |s| - |StripLeft(s)|;
    LeftRemovesSpace(s);
    WordsAfter(s, n);
  }

  lemma {:induction false} CollapseKeepsWords(s: string)
    ensures Words(Collapse(s)) == Words(s)
    decreases |s|
  {
    if s != "" {
      if IsSpace(s[0]) {
        SkipSpace(s[1..]);
        CollapseKeepsWords(StripLeft(s[1..]));
        WordsTogether(" ", Collapse(StripLeft(s[1..])));
      } else {
        CollapseKeepsWords(s[1..]);
        WordsTogether([s[0]], Collapse(s[1..]));
      }
    }
  }

  lemma CleaningKeepsWords(strip: string -> string, part: string)
    requires forall s :: Words(strip(s)) == Words(s)
    ensures Words(Cleaned(strip, part)) == Words(part)
  {
    StripKeepsWords(part);
    CollapseKeepsWords(strip(Strip(part)));
    StripKeepsWords(Collapse(strip(Strip(part))));
  }

  // ---- Segments ----

  /** All that is spoken. */
  function Speech(segments: seq<Segment>): string {
    if segments == [] then "" else segments[0].text + Speech(segments[1..])
  }

  lemma SpeechCons(s: Segment, rest: seq<Segment>)
    ensures Speech([s] + rest) == s.text + Speech(rest)
  {
    assert ([s] + rest)[1..] == rest;
  }

  lemma JoinThree(x: string, y: string, z: string)
    ensures x + (y + z) == (x + y) + z
  {
  }

  lemma {:induction false} SpeechTogether(a: seq<Segment>, b: seq<Segment>)
    ensures Speech(a + b) == Speech(a) + Speech(b)
  {
    if a == [] {
      assert a + b == b;
    } else {
      var s, rest := a[0], a[1..];
      assert a == [s] + rest && a + b == [s] + (rest + b);
      SpeechTogether(rest, b);
      SpeechCons(s, rest);
      SpeechCons(s, rest + b);
      JoinThree(s.text, Speech(rest), Speech(b));
    }
  }

  ghost predicate KeepsWords(r: Reader) {
    forall part :: Words(r.clean(part)) == Words(part)
  }

  lemma DialogueKeepsWords(r: Reader, part: string, pending: Option<string>)
    requires KeepsWords(r)
    ensures Words(Speech(Dialogue(r, part, pending))) == Words(part)
  {
    assert Words(r.clean(part)) == Words(part);
    if r.clean(part) != "" {
      var one := [Segment(r.clean(part), pending)];
      assert one[1..] == [];
      assert Speech(one) == r.clean(part) + "" == r.clean(part);
      assert Dialogue(r, part, pending) == one;
    } else {
      assert Dialogue(r, part, pending) == [];
    }
  }

  /** Nothing outside the tags is lost between the segments, and its order is kept. */
  lemma {:induction false} SegmentsKeepWords(r: Reader, p: Pieces, pending: Option<string>)
    requires KeepsWords(r)
    ensures Words(Speech(SegmentsOf(r, p, pending))) == Words(Outside(p))
  {
    match p
    case Rest(text) => DialogueKeepsWords(r, text, pending);
    case Cut(before, _, inner, _, rest) =>
      DialogueKeepsWords(r, before, pending);
      SegmentsKeepWords(r, rest, r.act(inner));
      SpeechTogether(Dialogue(r, before, pending), SegmentsOf(r, rest, r.act(inner)));
      WordsTogether(Speech(Dialogue(r, before, pending)), Speech(SegmentsOf(r, rest, r.act(inner))));
      WordsTogether(before, Outside(rest));
  }
}
