/** Removal of markdown marks, pattern by pattern, so that text reads clean aloud. */
module Markdown {
  import opened Wrappers
  import opened PyText
  import opened TextScan

  /** The patterns: text between two delimiters, header marks, horizontal rules, stray marks. */
  datatype Pattern = Pair(mark: string) | Headers | Rules | Strays

  const PATTERNS := [Pair("**"), Pair("__"), Pair("*"), Pair("_"), Pair("`"), Headers, Rules, Strays]

  const MAX_HASHES := 6
  const MIN_RULE := 3

  /** How many characters from the front satisfy `p`. */
  function Span(s: string, p: char -> bool): (n: nat)
    ensures n <= |s| && forall i :: 0 <= i < n ==> p(s[i])
    ensures n < |s| ==> !p(s[n])
  {
    if s == "" || !p(s[0]) then 0 else 1 + Span(s[1..], p)
  }

  predicate IsHash(c: char) {
    c == '#'
  }

  predicate IsRuleMark(c: char) {
    c == '-' || c == '*' || c == '_'
  }

  predicate IsStray(c: char) {
    c == '*' || c == '_'
  }

  /** One to six hashes and a space begin the text. */
  predicate HeaderHere(s: string) {
    var n := Span(s, IsHash);
    1 <= n <= MAX_HASHES && n < |s| && IsSpace(s[n])
  }

  lemma {:induction false} SpanIs(s: string, p: char -> bool, n: nat)
    requires n <= |s| && (forall i :: 0 <= i < n ==> p(s[i])) && (n < |s| ==> !p(s[n]))
    ensures Span(s, p) == n
  {
    if n > 0 {
      SpanIs(s[1..], p, n - 1);
    }
  }

  /** `n` hashes and a space. */
  predicate HeaderOf(s: string, n: nat) {
    n < |s| && IsSpace(s[n]) && forall i :: 0 <= i < n ==> s[i] == '#'
  }

  /** `n` rule marks, and then the end of the line. */
  predicate RuleOf(s: string, n: nat) {
    n <= |s| && (n == |s| || s[n] == '\n') && forall i :: 0 <= i < n ==> s[i] == '-' || s[i] == '*' || s[i] == '_'
  }

  /** A header mark is one to six hashes and a space; a rule three or more marks up to the end of the line. */
  lemma LineMarksAre(s: string)
    ensures HeaderHere(s) <==> exists n :: 1 <= n <= 6 && HeaderOf(s, n)
    ensures RuleHere(s) <==> exists n :: 3 <= n && RuleOf(s, n)
  {
    forall n: nat | 1 <= n <= 6 && HeaderOf(s, n) ensures HeaderHere(s) {
      SpanIs(s, IsHash, n);
    }
    forall n: nat | 3 <= n && RuleOf(s, n) ensures RuleHere(s) {
      SpanIs(s, IsRuleMark, n);
    }
    if HeaderHere(s) {
      var n := Span(s, IsHash);
      forall i | 0 <= i < n ensures s[i] == '#' {
        assert IsHash(s[i]);
      }
      assert HeaderOf(s, n);
    }
    if RuleHere(s) {
      var n := Span(s, IsRuleMark);
      forall i | 0 <= i < n ensures s[i] == '-' || s[i] == '*' || s[i] == '_' {
        assert IsRuleMark(s[i]);
      }
      assert RuleOf(s, n);
    }
  }

  /** The length of a header mark: the hashes and all the space after them. */
  function HeaderLength(s: string): (n: nat)
    requires HeaderHere(s)
    ensures 2 <= n <= |s|
  {
    var hashes := Span(s, IsHash);
    hashes + 1 + Span(s[hashes + 1..], IsSpace)
  }

  /** The text begins with a line of nothing but three or more rule marks. */
  predicate RuleHere(s: string) {
    var n := Span(s, IsRuleMark);
    n >= MIN_RULE && (n == |s| || s[n] == '\n')
  }

  function SubHeaders(s: string, lineStart: bool): string
    decreases |s|
  {
    if s == "" then ""
    else if lineStart && HeaderHere(s) then
      var n := HeaderLength(s);
      SubHeaders(s[n..], s[n - 1] == '\n')
    else [s[0]] + SubHeaders(s[1..], s[0] == '\n')
  }

  function SubRules(s: string, lineStart: bool): string
    decreases |s|
  {
    if s == "" then ""
    else if lineStart && RuleHere(s) then SubRules(s[Span(s, IsRuleMark)..], false)
    else [s[0]] + SubRules(s[1..], s[0] == '\n')
  }

  function SubStrays(s: string): string {
    if s == "" then "" else (if IsStray(s[0]) then "" else [s[0]]) + SubStrays(s[1..])
  }

  /** `pattern.sub(replacement, text)`. */
  function Sub(p: Pattern, text: string): string {
    match p
    case Pair(mark) => if mark == "" then text else Unwrapped(Cuts(text, mark, mark, 1))
    case Headers => SubHeaders(text, true)
    case Rules => SubRules(text, true)
    case Strays => SubStrays(text)
  }

  function SubAll(patterns: seq<Pattern>, text: string): string {
    if patterns == [] then text else SubAll(patterns[1..], Sub(patterns[0], text))
  }

  /** The patterns in order, then `strip`. */
  function Stripdown(text: string): string {
    Strip(SubAll(PATTERNS, text))
  }

  method StripMarkdown(text: string) returns (clean: string)
    ensures clean == Stripdown(text)
    ensures Stripped(clean) && NoStrays(clean)
  {
    clean := text;
    var i := 0;
    while i < |PATTERNS|
      invariant 0 <= i <= |PATTERNS|
      invariant SubAll(PATTERNS, text) == SubAll(PATTERNS[i..], clean)
    {
      assert PATTERNS[i..][1..] == PATTERNS[i + 1..];
      clean := Sub(PATTERNS[i], clean);
      i := i + 1;
    }
    assert PATTERNS[i..] == [];
    clean := Strip(clean);
    NoStraysLeft(text);
  }

  // ---- What is removed ----

  /** The pattern has a match in the text; line patterns only at the start of a line. */
  predicate Occurs(p: Pattern, s: string, lineStart: bool) {
    match p
    case Pair(mark) => mark != "" && FirstMatch(s, mark, mark, 1).Some?
    case Headers => s != "" && ((lineStart && HeaderHere(s)) || Occurs(p, s[1..], s[0] == '\n'))
    case Rules => s != "" && ((lineStart && RuleHere(s)) || Occurs(p, s[1..], s[0] == '\n'))
    case Strays => exists i :: 0 <= i < |s| && IsStray(s[i])
  }

  lemma {:induction false} HeadersShorten(s: string, lineStart: bool)
    ensures if Occurs(Headers, s, lineStart) then |SubHeaders(s, lineStart)| < |s| else SubHeaders(s, lineStart) == s
    decreases |s|
  {
    if s != "" {
      if lineStart && HeaderHere(s) {
        HeadersShorten(s[HeaderLength(s)..], s[HeaderLength(s) - 1] == '\n');
      } else {
        HeadersShorten(s[1..], s[0] == '\n');
      }
    }
  }

  lemma {:induction false} RulesShorten(s: string, lineStart: bool)
    ensures if Occurs(Rules, s, lineStart) then |SubRules(s, lineStart)| < |s| else SubRules(s, lineStart) == s
    decreases |s|
  {
    if s != "" {
      if lineStart && RuleHere(s) {
        RulesShorten(s[Span(s, IsRuleMark)..], false);
      } else {
        RulesShorten(s[1..], s[0] == '\n');
      }
    }
  }

  lemma {:induction false} StraysShorten(s: string)
    ensures if Occurs(Strays, s, true) then |SubStrays(s)| < |s| else SubStrays(s) == s
    ensures NoStrays(SubStrays(s))
  {
    if s != "" {
      StraysShorten(s[1..]);
      assert s == [s[0]] + s[1..];
    }
  }

  /** A pattern shortens a text, unless it does not occur in it. */
  lemma SubShortens(p: Pattern, s: string)
    ensures if Occurs(p, s, true) then |Sub(p, s)| < |s| else Sub(p, s) == s
  {
    match p
    case Pair(mark) =>
      if mark != "" {
        UnwrappingShortens(s, mark, mark, 1);
      }
    case Headers => HeadersShorten(s, true);
    case Rules => RulesShorten(s, true);
    case Strays => StraysShorten(s);
  }

  predicate NoneOccurs(patterns: seq<Pattern>, s: string) {
    forall i :: 0 <= i < |patterns| ==> !Occurs(patterns[i], s, true)
  }

  lemma {:induction false} SubAllShortens(patterns: seq<Pattern>, s: string)
    ensures if NoneOccurs(patterns, s) then SubAll(patterns, s) == s else |SubAll(patterns, s)| < |s|
  {
    if patterns != [] {
      SubShortens(patterns[0], s);
      SubAllShortens(patterns[1..], Sub(patterns[0], s));
      if NoneOccurs(patterns, s) {
        assert forall i :: 0 <= i < |patterns[1..]| ==> patterns[1..][i] == patterns[i + 1];
      } else if !Occurs(patterns[0], s, true) {
        var i :| 0 <= i < |patterns| && Occurs(patterns[i], s, true);
        assert patterns[1..][i - 1] == patterns[i];
      }
    }
  }

  lemma {:induction false} SubAllLast(patterns: seq<Pattern>, p: Pattern, s: string)
    ensures SubAll(patterns + [p], s) == Sub(p, SubAll(patterns, s))
  {
    if patterns == [] {
      assert patterns + [p] == [p] && [p][1..] == [];
    } else {
      SubAllLast(patterns[1..], p, Sub(patterns[0], s));
      assert (patterns + [p])[1..] == patterns[1..] + [p];
    }
  }

  /** Any character but an asterisk or an underscore. */
  function Unmarked(): char -> bool {
    c => !IsStray(c)
  }

  predicate NoStrays(s: string) {
    Only(s, Unmarked())
  }

  lemma StraysLeaveNone(s: string)
    ensures NoStrays(Sub(Strays, s))
  {
    StraysShorten(s);
  }

  lemma StraysGoLast(patterns: seq<Pattern>, before: seq<Pattern>, text: string)
    requires patterns == before + [Strays]
    ensures NoStrays(SubAll(patterns, text))
  {
    SubAllLast(before, Strays, text);
    StraysLeaveNone(SubAll(before, text));
  }

  /** Whatever the text, no asterisk or underscore is left, nor space at either end. */
  lemma NoStraysLeft(text: string)
    ensures Stripped(Stripdown(text)) && NoStrays(Stripdown(text))
  {
    assert PATTERNS == PATTERNS[..7] + [Strays];
    StraysGoLast(PATTERNS, PATTERNS[..7], text);
    StripKeeps(SubAll(PATTERNS, text), Unmarked());
  }

  /** A text is left as it is exactly when it is stripped and no pattern occurs in it. */
  lemma KeptExactlyWhen(s: string)
    ensures Stripdown(s) == s <==> Stripped(s) && NoneOccurs(PATTERNS, s)
    ensures Stripdown(s) == s || |Stripdown(s)| < |s|
  {
    SubAllShortens(PATTERNS, s);
    StripShortens(SubAll(PATTERNS, s));
  }

  /** None of the eight patterns is left out: a text in which one of them occurs gets shorter. */
  lemma EachPatternCounts(p: Pattern, s: string)
    requires p.Pair? ==> p.mark == "**" || p.mark == "__" || p.mark == "*" || p.mark == "_" || p.mark == "`"
    requires Occurs(p, s, true)
    ensures |Stripdown(s)| < |s|
  {
    var ps := PATTERNS;
    assert p in ps by {
      assert ps[0] == Pair("**") && ps[1] == Pair("__") && ps[2] == Pair("*") && ps[3] == Pair("_")
             && ps[4] == Pair("`") && ps[5] == Headers && ps[6] == Rules && ps[7] == Strays;
    }
    var i :| 0 <= i < |ps| && ps[i] == p;
    assert !NoneOccurs(ps, s);
    KeptExactlyWhen(s);
  }
}
