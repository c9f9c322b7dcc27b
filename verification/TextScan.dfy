/** Leftmost, shortest matches of text between two delimiters, as Python's `re` finds them. */
module TextScan {
  import opened Wrappers

  /** A letter of a pattern under IGNORECASE; `i` also matches the dotted capital and dotless small i. */
  predicate SameLetter(c: char, t: char) {
    c == t || ('a' <= t <= 'z' && c == t - 32 as char) || (t == 'i' && (c as int == 0x130 || c as int == 0x131))
  }

  predicate IsTag(text: string, tag: string) {
    |text| == |tag| && forall k :: 0 <= k < |tag| ==> SameLetter(text[k], tag[k])
  }

  predicate TagAt(s: string, tag: string, i: nat) {
    i + |tag| <= |s| && IsTag(s[i..i + |tag|], tag)
  }

  /** The first place from `i` on where the tag occurs. */
  function Find(s: string, tag: string, i: nat): (r: Option<nat>)
    ensures r.Some? ==> i <= r.value && TagAt(s, tag, r.value) && forall k :: i <= k < r.value ==> !TagAt(s, tag, k)
    ensures r.None? ==> forall k :: i <= k ==> !TagAt(s, tag, k)
    decreases |s| - i
  {
    if i >= |s| then if TagAt(s, tag, i) then Some(i) else None
    else if TagAt(s, tag, i) then Some(i)
    else Find(s, tag, i + 1)
  }

  /** Text cut at the matches; `open` and `close` are the delimiters as they stand in the text. */
  datatype Pieces = Rest(text: string) | Cut(before: string, open: string, inner: string, close: string, rest: Pieces)

  /** The leftmost match: the first opening delimiter, and the first closing one after `min` characters. */
  function FirstMatch(s: string, open: string, close: string, min: nat): (r: Option<(nat, nat)>)
    ensures r.Some? ==> TagAt(s, open, r.value.0) && TagAt(s, close, r.value.1) && r.value.0 + |open| + min <= r.value.1
  {
    var i := Find(s, open, 0);
    if i.None? then None
    else
      var j := Find(s, close, i.value + |open| + min);
      if j.None? then None else Some((i.value, j.value))
  }

  function Cuts(s: string, open: string, close: string, min: nat): Pieces
    requires close != ""
    decreases |s|
  {
    var m := FirstMatch(s, open, close, min);
    if m.None? then Rest(s)
    else
      var (i, j) := m.value;
      Cut(s[..i], s[i..i + |open|], s[i + |open|..j], s[j..j + |close|], Cuts(s[j + |close|..], open, close, min))
  }

  /** The match found is the leftmost: nothing matches from an earlier start, nor a shorter text from it. */
  lemma FirstMatchIsLeftmost(s: string, open: string, close: string, min: nat, i: nat, j: nat)
    requires TagAt(s, open, i) && TagAt(s, close, j) && i + |open| + min <= j
    ensures FirstMatch(s, open, close, min).Some?
    ensures var (a, b) := FirstMatch(s, open, close, min).value; a <= i && b <= j
  {
  }

  /** The text with the delimiters put back between the pieces. */
  function Reassembled(p: Pieces): string {
    match p
    case Rest(text) => text
    case Cut(before, open, inner, close, rest) => before + open + inner + close + Reassembled(rest)
  }

  /** The matches removed: `re.sub` with nothing. */
  function Outside(p: Pieces): string {
    match p
    case Rest(text) => text
    case Cut(before, _, _, _, rest) => before + Outside(rest)
  }

  /** The delimiters removed: `re.sub` with the group. */
  function Unwrapped(p: Pieces): string {
    match p
    case Rest(text) => text
    case Cut(before, _, inner, _, rest) => before + inner + Unwrapped(rest)
  }

  /** The groups: `re.findall`. */
  function Inners(p: Pieces): seq<string> {
    match p
    case Rest(_) => []
    case Cut(_, _, inner, _, rest) => [inner] + Inners(rest)
  }

  /** Texts and groups in turn, texts first and last: `re.split` with the group. */
  function Parts(p: Pieces): (parts: seq<string>)
    ensures |parts| % 2 == 1
  {
    match p
    case Rest(text) => [text]
    case Cut(before, _, inner, _, rest) => [before, inner] + Parts(rest)
  }

  lemma FiveSlices(s: string, i: nat, n: nat, j: nat, m: nat)
    requires i <= n <= j <= m <= |s|
    ensures s == s[..i] + s[i..n] + s[n..j] + s[j..m] + s[m..]
  {
  }

  /** Putting the matched tags back between the pieces restores any text. */
  lemma {:induction false} CutsReassemble(s: string, open: string, close: string, min: nat)
    requires close != ""
    ensures Reassembled(Cuts(s, open, close, min)) == s
    decreases |s|
  {
    var m := FirstMatch(s, open, close, min);
    if m.Some? {
      var (i, j) := m.value;
      CutsReassemble(s[j + |close|..], open, close, min);
      FiveSlices(s, i, i + |open|, j, j + |close|);
    }
  }

  lemma {:induction false} UnwrappedIsShorter(p: Pieces)
    ensures |Unwrapped(p)| <= |Reassembled(p)|
    ensures p.Cut? && p.open != "" ==> |Unwrapped(p)| < |Reassembled(p)|
  {
    if p.Cut? {
      UnwrappedIsShorter(p.rest);
    }
  }

  /** Unwrapping shortens the text, unless there is no match. */
  lemma UnwrappingShortens(s: string, open: string, close: string, min: nat)
    requires open != "" && close != ""
    ensures Cuts(s, open, close, min).Rest? ==> Unwrapped(Cuts(s, open, close, min)) == s
    ensures Cuts(s, open, close, min).Cut? ==> |Unwrapped(Cuts(s, open, close, min))| < |s|
  {
    var p := Cuts(s, open, close, min);
    CutsReassemble(s, open, close, min);
    UnwrappedIsShorter(p);
    if p.Cut? {
      assert |p.open| == |open|;
    }
  }

  // ---- Cutting what was put together ----

  /** The tag's first character occurs in it only once, under any case. */
  predicate Leads(tag: string) {
    tag != "" && forall k :: 0 < k < |tag| ==> !SameLetter(tag[0], tag[k])
  }

  /** Every character of the tag matches itself. */
  predicate Plain(tag: string) {
    forall k :: 0 <= k < |tag| ==> SameLetter(tag[k], tag[k])
  }

  predicate IsLiteral(tag: string) {
    Leads(tag) && Plain(tag)
  }

  predicate Without(x: string, tag: string) {
    forall k :: 0 <= k < |x| ==> !TagAt(x, tag, k)
  }

  /** A tag cannot start in a text and end in a tag of the same lead put after it. */
  lemma NoTagAcross(x: string, tag: string, literal: string, rest: string, i: nat)
    requires Leads(tag) && literal != "" && literal[0] == tag[0]
    requires i < |x| && Without(x, tag)
    ensures !TagAt(x + literal + rest, tag, i)
  {
    var s := x + literal + rest;
    assert !TagAt(x, tag, i);
    if i + |tag| <= |x| {
      assert s[i..i + |tag|] == x[i..i + |tag|];
    } else if i + |tag| <= |s| {
      assert s[i..i + |tag|][|x| - i] == literal[0];
    }
  }

  predicate NoneIn(s: string, tag: string, i: nat, j: nat) {
    forall k :: i <= k < j ==> !TagAt(s, tag, k)
  }

  /** The first place from `i` on where the tag occurs is `j`. */
  predicate FirstAt(s: string, tag: string, i: nat, j: nat) {
    i <= j && TagAt(s, tag, j) && NoneIn(s, tag, i, j)
  }

  lemma FindIs(s: string, tag: string, i: nat, j: nat)
    requires FirstAt(s, tag, i, j)
    ensures Find(s, tag, i) == Some(j)
  {
  }

  lemma TagShift(s: string, tag: string, n: nat, k: nat)
    requires n <= |s|
    ensures TagAt(s, tag, n + k) <==> TagAt(s[n..], tag, k)
  {
    if n + k + |tag| <= |s| {
      assert s[n + k..n + k + |tag|] == s[n..][k..k + |tag|];
    }
  }

  lemma TagOfSelf(x: string, tag: string, rest: string)
    requires Plain(tag)
    ensures TagAt(x + tag + rest, tag, |x|)
  {
    assert (x + tag + rest)[|x|..|x| + |tag|] == tag;
  }

  /** A tag put after a text without it is found right there. */
  lemma FoundAfter(x: string, tag: string, rest: string)
    requires IsLiteral(tag) && Without(x, tag)
    ensures FirstAt(x + tag + rest, tag, 0, |x|)
  {
    forall k | 0 <= k < |x| ensures !TagAt(x + tag + rest, tag, k) {
      NoTagAcross(x, tag, tag, rest, k);
    }
    TagOfSelf(x, tag, rest);
  }

  lemma Slices(x: string, o: string, a: string, c: string, r: string)
    ensures var s := x + o + a + c + r;
            var n := |x| + |o|;
            && s == x + o + (a + c + r) && s[n..] == a + c + r
            && s[..|x|] == x && s[|x|..n] == o && s[n..n + |a|] == a
            && s[n + |a|..n + |a| + |c|] == c && s[n + |a| + |c|..] == r
  {
  }

  lemma FoundInTail(s: string, tag: string, n: nat, k: nat)
    requires n <= |s| && FirstAt(s[n..], tag, 0, k)
    ensures FirstAt(s, tag, n, n + k)
  {
    forall j | n <= j < n + k ensures !TagAt(s, tag, j) {
      TagShift(s, tag, n, j - n);
    }
    TagShift(s, tag, n, k);
  }

  lemma MatchIs(s: string, open: string, close: string, i: nat, j: nat)
    requires FirstAt(s, open, 0, i) && FirstAt(s, close, i + |open|, j)
    ensures FirstMatch(s, open, close, 0) == Some((i, j))
  {
    FindIs(s, open, 0, i);
    FindIs(s, close, i + |open|, j);
  }

  lemma JoinedClose(s: string, n: nat, a: string, close: string, rest: string)
    requires n <= |s| && s[n..] == a + close + rest && IsLiteral(close) && Without(a, close)
    ensures FirstAt(s, close, n, n + |a|)
  {
    FoundAfter(a, close, rest);
    FoundInTail(s, close, n, |a|);
  }

  lemma CutsFrom(s: string, open: string, close: string, min: nat, i: nat, j: nat)
    requires close != "" && FirstMatch(s, open, close, min) == Some((i, j))
    ensures i + |open| <= j <= j + |close| <= |s|
    ensures Cuts(s, open, close, min)
            == Cut(s[..i], s[i..i + |open|], s[i + |open|..j], s[j..j + |close|],
                   Cuts(s[j + |close|..], open, close, min))
  {
  }

  lemma CutsAt(s: string, open: string, close: string, i: nat, j: nat)
    requires close != "" && FirstAt(s, open, 0, i) && FirstAt(s, close, i + |open|, j)
    ensures i + |open| <= j <= j + |close| <= |s|
    ensures Cuts(s, open, close, 0)
            == Cut(s[..i], s[i..i + |open|], s[i + |open|..j], s[j..j + |close|],
                   Cuts(s[j + |close|..], open, close, 0))
  {
    MatchIs(s, open, close, i, j);
    CutsFrom(s, open, close, 0, i, j);
  }

  lemma JoinedFinds(s: string, x: string, open: string, a: string, close: string, rest: string)
    requires s == x + open + (a + close + rest) && s[|x| + |open|..] == a + close + rest
    requires IsLiteral(open) && IsLiteral(close) && Without(x, open) && Without(a, close)
    ensures FirstAt(s, open, 0, |x|) && FirstAt(s, close, |x| + |open|, |x| + |open| + |a|)
  {
    FoundAfter(x, open, a + close + rest);
    JoinedClose(s, |x| + |open|, a, close, rest);
  }

  /** A text without the opening tag, then a group without the closing one between its tags, is cut just there. */
  lemma CutOfJoined(x: string, open: string, a: string, close: string, rest: string)
    requires IsLiteral(open) && IsLiteral(close) && Without(x, open) && Without(a, close)
    ensures Cuts(x + open + a + close + rest, open, close, 0) == Cut(x, open, a, close, Cuts(rest, open, close, 0))
  {
    var s, n := x + open + a + close + rest, |x| + |open|;
    Slices(x, open, a, close, rest);
    JoinedFinds(s, x, open, a, close, rest);
    CutsAt(s, open, close, |x|, n + |a|);
  }

  lemma CutOfPlainText(x: string, open: string, close: string)
    requires open != "" && close != "" && Without(x, open)
    ensures Cuts(x, open, close, 0) == Rest(x)
  {
    assert !TagAt(x, open, |x|);
  }
}
