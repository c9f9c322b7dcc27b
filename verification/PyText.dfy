/** The few Python string operations the modelled code relies on. */
module PyText {
  import opened Wrappers

  /** `str.isspace` for one character, which is also what `\s` matches. */
  predicate IsSpace(c: char) {
    var n := c as int;
    || 0x9 <= n <= 0xD || 0x1C <= n <= 0x20 || n in {0x85, 0xA0, 0x1680, 0x2028, 0x2029, 0x202F, 0x205F, 0x3000}
    || 0x2000 <= n <= 0x200A
  }

  function StripLeft(s: string): (r: string)
    ensures r == "" || !IsSpace(r[0])
    ensures |r| <= |s| && r == s[|s| - |r|..]
  {
    if s != "" && IsSpace(s[0]) then StripLeft(s[1..]) else s
  }

  function StripRight(s: string): (r: string)
    ensures r == "" || !IsSpace(r[|r| - 1])
    ensures r <= s
  {
    if s != "" && IsSpace(s[|s| - 1]) then StripRight(s[..|s| - 1]) else s
  }

  /** `str.strip()`. */
  function Strip(s: string): (r: string)
    ensures r == "" || (!IsSpace(r[0]) && !IsSpace(r[|r| - 1]))
  {
    StripRight(StripLeft(s))
  }

  lemma {:induction false} LeftRemovesSpace(s: string)
    ensures forall i :: 0 <= i < |s| - |StripLeft(s)| ==> IsSpace(s[i])
  {
    if s != "" && IsSpace(s[0]) {
      LeftRemovesSpace(s[1..]);
      forall i | 0 < i < |s| - |StripLeft(s)| ensures IsSpace(s[i]) {
        assert s[i] == s[1..][i - 1];
      }
    }
  }

  lemma {:induction false} RightRemovesSpace(s: string)
    ensures forall i :: |StripRight(s)| <= i < |s| ==> IsSpace(s[i])
  {
    if s != "" && IsSpace(s[|s| - 1]) {
      RightRemovesSpace(s[..|s| - 1]);
    }
  }

  lemma LeftAndRest(s: string) returns (front: string)
    ensures s == front + StripLeft(s) && forall i :: 0 <= i < |front| ==> IsSpace(front[i])
  {
    front := s[..|s| - |StripLeft(s)|];
    LeftRemovesSpace(s);
  }

  lemma RestAndRight(s: string) returns (back: string)
    ensures s == StripRight(s) + back && forall i :: 0 <= i < |back| ==> IsSpace(back[i])
  {
    back := s[|StripRight(s)|..];
    RightRemovesSpace(s);
  }

  /** Stripping takes nothing but space off the ends. */
  lemma StripRemovesSpace(s: string) returns (front: string, back: string)
    ensures s == front + Strip(s) + back
    ensures forall i :: 0 <= i < |front| ==> IsSpace(front[i])
    ensures forall i :: 0 <= i < |back| ==> IsSpace(back[i])
  {
    front := LeftAndRest(s);
    back := RestAndRight(StripLeft(s));
    Threefold(front, Strip(s), back, StripLeft(s), s);
  }

  lemma Threefold(a: string, b: string, c: string, bc: string, abc: string)
    requires bc == b + c && abc == a + bc
    ensures abc == a + b + c
  {
  }

  /** Text with no space at either end. */
  predicate Stripped(s: string) {
    s == "" || (!IsSpace(s[0]) && !IsSpace(s[|s| - 1]))
  }

  lemma StripOfStripped(s: string)
    requires Stripped(s)
    ensures Strip(s) == s
  {
  }

  /** A text between two small letters is stripped. */
  lemma LettersStay(s: string)
    requires s != "" && 'a' <= s[0] <= 'z' && 'a' <= s[|s| - 1] <= 'z'
    ensures Stripped(s) && Strip(s) == s
  {
    LetterIsNoSpace(s[0]);
    LetterIsNoSpace(s[|s| - 1]);
    StripOfStripped(s);
  }

  lemma LetterIsNoSpace(c: char)
    requires 'a' <= c <= 'z'
    ensures !IsSpace(c)
  {
  }

  /** Stripping shortens a text unless there is nothing to strip. */
  lemma StripShortens(s: string)
    ensures Strip(s) == s <==> Stripped(s)
    ensures Strip(s) == s || |Strip(s)| < |s|
  {
    var left := StripLeft(s);
    if Stripped(s) {
      StripOfStripped(s);
    } else if |left| == |s| {
      assert left == s;
    }
  }

  /** All characters of the text satisfy the test. */
  predicate Only(s: string, p: char -> bool) {
    forall c :: c in s ==> p(c)
  }

  lemma PartKeeps(s: string, p: char -> bool, i: nat, j: nat)
    requires i <= j <= |s| && Only(s, p)
    ensures Only(s[i..j], p)
  {
  }

  /** What holds of all characters of a text holds of those left by stripping. */
  lemma StripKeeps(s: string, p: char -> bool)
    requires Only(s, p)
    ensures Only(Strip(s), p)
  {
    var left := StripLeft(s);
    PartKeeps(s, p, |s| - |left|, |s|);
    assert left == s[|s| - |left|..|s|];
    PartKeeps(left, p, 0, |Strip(s)|);
    assert Strip(s) == left[0..|Strip(s)|];
  }

  function LowerChar(c: char): (d: char)
    ensures if 'A' <= c <= 'Z' then d as int == c as int + 32 else d == c
  {
    if 'A' <= c <= 'Z' then c + 32 as char else c
  }

  /** `str.lower()` on ASCII. */
  function Lower(s: string): (r: string)
    ensures |r| == |s|
  {
    if s == "" then "" else [LowerChar(s[0])] + Lower(s[1..])
  }

  lemma {:induction false} LowerEach(s: string, i: nat)
    requires i < |s|
    ensures Lower(s)[i] == LowerChar(s[i])
  {
    if i > 0 {
      LowerEach(s[1..], i - 1);
    }
  }

  /** A text without capitals is left alone. */
  lemma LowerOfLower(s: string)
    requires forall i :: 0 <= i < |s| ==> LowerChar(s[i]) == s[i]
    ensures Lower(s) == s
  {
    forall i | 0 <= i < |s| ensures Lower(s)[i] == s[i] {
      LowerEach(s, i);
    }
  }

  function Replace(s: string, from: char, to: char): (r: string)
    ensures |r| == |s|
  {
    if s == "" then "" else [if s[0] == from then to else s[0]] + Replace(s[1..], from, to)
  }

  lemma {:induction false} ReplaceEach(s: string, from: char, to: char, i: nat)
    requires i < |s|
    ensures Replace(s, from, to)[i] == if s[i] == from then to else s[i]
  {
    if i > 0 {
      ReplaceEach(s[1..], from, to, i - 1);
    }
  }

  lemma ReplaceNothing(s: string, from: char, to: char)
    requires forall i :: 0 <= i < |s| ==> s[i] != from
    ensures Replace(s, from, to) == s
  {
    forall i | 0 <= i < |s| ensures Replace(s, from, to)[i] == s[i] {
      ReplaceEach(s, from, to, i);
    }
  }

  /** `text.strip().lower().replace("-", "_").replace(" ", "_")`. */
  function Slug(s: string): string {
    Replace(Replace(Lower(Strip(s)), '-', '_'), ' ', '_')
  }

  /** The stripped text in small letters, with underscores for hyphens and blanks. */
  lemma SlugSays(text: string, stripped: string, i: nat)
    requires stripped == Strip(text) && i < |stripped|
    ensures |Slug(text)| == |stripped|
    ensures Slug(text)[i] == if LowerChar(stripped[i]) == '-' || LowerChar(stripped[i]) == ' ' then '_'
                             else LowerChar(stripped[i])
  {
    LowerEach(stripped, i);
    ReplaceEach(Lower(stripped), '-', '_', i);
    ReplaceEach(Replace(Lower(stripped), '-', '_'), ' ', '_', i);
  }

  /** A word of small letters and underscores, letters at both ends. */
  predicate IsSlug(s: string) {
    && s != "" && 'a' <= s[0] <= 'z' && 'a' <= s[|s| - 1] <= 'z'
    && forall i :: 0 <= i < |s| ==> 'a' <= s[i] <= 'z' || s[i] == '_'
  }

  /** Such a word stays as it is. */
  lemma SlugStays(s: string)
    requires IsSlug(s)
    ensures Slug(s) == s && Lower(Strip(s)) == s
  {
    LettersStay(s);
    LowerOfLower(s);
    ReplaceNothing(s, '-', '_');
    ReplaceNothing(s, ' ', '_');
  }

  /** Python truthiness of an optional string. */
  predicate Truthy(s: Option<string>) {
    s.Some? && s.value != ""
  }

  predicate HasPrefix(s: string, p: string) {
    |p| <= |s| && s[..|p|] == p
  }

  /** `part in s`. */
  predicate Contains(s: string, part: string) {
    exists i :: 0 <= i <= |s| && HasPrefix(s[i..], part)
  }

  /** `s.split(sep)` for a one-character separator. */
  function Split(s: string, sep: char): (parts: seq<string>)
    ensures |parts| > 0
  {
    if s == "" then [""]
    else
      var rest := Split(s[1..], sep);
      if s[0] == sep then [""] + rest else [[s[0]] + rest[0]] + rest[1..]
  }

  lemma {:induction false} SplitOfPart(part: string, sep: char)
    requires sep !in part
    ensures Split(part, sep) == [part]
  {
    if part != "" {
      SplitOfPart(part[1..], sep);
      assert part == [part[0]] + part[1..];
    }
  }
}
