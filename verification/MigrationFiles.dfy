/** Discovery of the up files of the migrations directory, sorted by file name. */
module MigrationFiles {
  import opened Ordering

  /** Any file of the directory. */
  datatype File = File(name: string)

  datatype Migration = Migration(version: nat, name: string)

  predicate AllDigits(digits: string) {
    forall i :: 0 <= i < |digits| ==> '0' <= digits[i] <= '9'
  }

  function Pow10(n: nat): (p: nat)
    ensures p > 0
  {
    if n == 0 then 1 else 10 * Pow10(n - 1)
  }

  function Digit(c: char): nat
    requires '0' <= c <= '9'
  {
    c as int - '0' as int
  }

  /** `int` of a string of digits. */
  function Value(digits: string): nat
    requires AllDigits(digits)
  {
    if digits == "" then 0 else Digit(digits[0]) * Pow10(|digits| - 1) + Value(digits[1..])
  }

  const MIDDLE := "_"
  const SUFFIX := ".up.sql"

  /** The digits a name begins with, as many as there are. */
  function LeadingDigits(name: string): (digits: string)
    ensures AllDigits(digits) && digits <= name
    ensures |digits| < |name| ==> !('0' <= name[|digits|] <= '9')
  {
    if name != "" && '0' <= name[0] <= '9' then [name[0]] + LeadingDigits(name[1..]) else ""
  }

  function Digits(f: File): (digits: string)
    ensures AllDigits(digits)
  {
    LeadingDigits(f.name)
  }

  /** What comes after the digits. */
  function Tail(f: File): string {
    f.name[|Digits(f)|..]
  }

  /** A tail has the form of the pattern: an underscore, a title, and the suffix. */
  predicate WellFormed(tail: string) {
    |tail| > |MIDDLE| + |SUFFIX| && tail[..|MIDDLE|] == MIDDLE && tail[|tail| - |SUFFIX|..] == SUFFIX
    && '\n' !in TitleIn(tail)
  }

  function TitleIn(tail: string): string
    requires |tail| > |MIDDLE| + |SUFFIX|
  {
    tail[|MIDDLE|..|tail| - |SUFFIX|]
  }

  /** The name matches `<digits>_<title>.up.sql`. */
  predicate Named(f: File) {
    Digits(f) != "" && WellFormed(Tail(f))
  }

  function Version(f: File): nat
    requires Named(f)
  {
    Value(Digits(f))
  }

  function Title(f: File): string
    requires Named(f)
  {
    TitleIn(Tail(f))
  }

  predicate NameLe(f: File, g: File) {
    StringLe(f.name, g.name)
  }

  function Sorted(directory: seq<File>): seq<File> {
    SortBy(directory, NameLe)
  }

  /** The files whose names match, in order. */
  function Matching(files: seq<File>): (r: seq<File>)
    ensures forall i :: 0 <= i < |r| ==> Named(r[i])
  {
    if files == [] then [] else (if Named(files[0]) then [files[0]] else []) + Matching(files[1..])
  }

  function Tuple(f: File): Migration
    requires Named(f)
  {
    Migration(Version(f), Title(f))
  }

  function Tuples(files: seq<File>): (migrations: seq<Migration>)
    requires forall i :: 0 <= i < |files| ==> Named(files[i])
    ensures |migrations| == |files|
    ensures forall i :: 0 <= i < |files| ==> migrations[i] == Tuple(files[i])
  {
    seq(|files|, i requires 0 <= i < |files| => Tuple(files[i]))
  }

  /** The migrations of a directory, in the order of their file names. */
  function Discover(directory: seq<File>): seq<Migration> {
    Tuples(Matching(Sorted(directory)))
  }

  ghost predicate Increasing(migrations: seq<Migration>) {
    forall i, j :: 0 <= i < j < |migrations| ==> migrations[i].version < migrations[j].version
  }

  lemma {:induction false} ValueIsSmall(digits: string)
    requires AllDigits(digits)
    ensures Value(digits) < Pow10(|digits|)
  {
    if digits != "" {
      ValueIsSmall(digits[1..]);
      AtMostNine(Digit(digits[0]), Pow10(|digits| - 1));
    }
  }

  lemma AtMostNine(d: nat, p: nat)
    requires d <= 9
    ensures d * p <= 9 * p
  {
  }

  lemma HigherDigitWins(a: nat, b: nat, p: nat, x: nat, y: nat)
    requires a < b && x < p
    ensures a * p + x < b * p + y
  {
    assert (a + 1) * p <= b * p;
  }

  /** For numbers of one width the string order is the order of the values. */
  lemma {:induction false} WidthOrder(a: string, b: string)
    requires |a| == |b| && AllDigits(a) && AllDigits(b)
    ensures StringLe(a, b) <==> Value(a) <= Value(b)
    ensures Value(a) == Value(b) ==> a == b
  {
    if a != "" {
      WidthOrder(a[1..], b[1..]);
      ValueIsSmall(a[1..]);
      ValueIsSmall(b[1..]);
      var p, da, db := Pow10(|a| - 1), Digit(a[0]), Digit(b[0]);
      if da < db {
        HigherDigitWins(da, db, p, Value(a[1..]), Value(b[1..]));
      } else if db < da {
        HigherDigitWins(db, da, p, Value(b[1..]), Value(a[1..]));
      } else {
        assert a == [a[0]] + a[1..] && b == [b[0]] + b[1..];
      }
    }
  }

  lemma {:induction false} PrefixOrder(a: string, b: string, x: string, y: string)
    requires |a| == |b| && a != b
    ensures StringLe(a + x, b + y) <==> StringLe(a, b)
  {
    if a != "" {
      assert (a + x)[1..] == a[1..] + x && (b + y)[1..] == b[1..] + y;
      if a[0] == b[0] {
        assert a == [a[0]] + a[1..] && b == [b[0]] + b[1..];
        PrefixOrder(a[1..], b[1..], x, y);
      }
    }
  }

  lemma NamesFollowVersions(f: File, g: File)
    requires Named(f) && Named(g) && |Digits(f)| == |Digits(g)| && Version(f) != Version(g)
    ensures NameLe(f, g) <==> Version(f) < Version(g)
  {
    WidthOrder(Digits(f), Digits(g));
    PrefixOrder(Digits(f), Digits(g), Tail(f), Tail(g));
    assert f.name == Digits(f) + Tail(f) && g.name == Digits(g) + Tail(g);
  }

  /** The files that count have numbers of one width; other files may lie beside them. */
  ghost predicate OneWidth(files: seq<File>, width: nat) {
    forall f :: f in files && Named(f) ==> |Digits(f)| == width
  }

  ghost predicate DistinctVersions(files: seq<File>) {
    forall i, j :: 0 <= i < j < |files| && Named(files[i]) && Named(files[j]) ==> Version(files[i]) != Version(files[j])
  }

  ghost predicate AllNamed(files: seq<File>) {
    forall i :: 0 <= i < |files| ==> Named(files[i])
  }

  ghost predicate InOrder(files: seq<File>) {
    AllNamed(files) && forall i, j :: 0 <= i < j < |files| ==> Version(files[i]) < Version(files[j])
  }

  lemma NameLeIsTotal()
    ensures TotalPreorder(NameLe)
  {
    forall f, g ensures NameLe(f, g) || NameLe(g, f) {
      StringLeTotal(f.name, g.name);
    }
    forall f, g, h | NameLe(f, g) && NameLe(g, h) ensures NameLe(f, h) {
      StringLeTransitive(f.name, g.name, h.name);
    }
  }

  lemma {:induction false} MatchingAre(files: seq<File>, f: File)
    ensures f in Matching(files) <==> f in files && Named(f)
  {
    if files != [] {
      MatchingAre(files[1..], f);
      assert files == [files[0]] + files[1..];
    }
  }

  lemma SortedAre(directory: seq<File>, f: File)
    ensures f in Matching(Sorted(directory)) <==> f in directory && Named(f)
  {
    SortByPermutes(directory, NameLe);
    assert f in Sorted(directory) <==> f in multiset(Sorted(directory));
    assert f in directory <==> f in multiset(directory);
    MatchingAre(Sorted(directory), f);
  }

  lemma MatchingCons(f: File, files: seq<File>)
    ensures Matching([f] + files) == if Named(f) then [f] + Matching(files) else Matching(files)
  {
    assert ([f] + files)[1..] == files;
  }

  lemma InsertFirst(f: File, files: seq<File>)
    requires files == [] || NameLe(f, files[0])
    ensures Insert(f, files, NameLe) == [f] + files
  {
  }

  lemma InsertAfter(f: File, x: File, files: seq<File>)
    requires !NameLe(f, x)
    ensures Insert(f, [x] + files, NameLe) == [x] + Insert(f, files, NameLe)
  {
    assert ([x] + files)[1..] == files;
  }

  /** Nothing that follows a file in order has a lower name. */
  lemma FirstIsLowest(f: File, files: seq<File>)
    requires Ordering.Sorted(files, NameLe) && files != [] && NameLe(f, files[0])
    ensures Matching(files) == [] || NameLe(f, Matching(files)[0])
  {
    if Matching(files) != [] {
      var first := Matching(files)[0];
      MatchingAre(files, first);
      var i :| 0 <= i < |files| && files[i] == first;
      assert i > 0 ==> NameLe(files[0], files[i]);
      NameLeIsTotal();
    }
  }

  /** Where a file goes among the matching ones does not depend on the others. */
  lemma {:induction false} MatchingOfInsert(f: File, files: seq<File>)
    requires Ordering.Sorted(files, NameLe)
    ensures Matching(Insert(f, files, NameLe))
            == if Named(f) then Insert(f, Matching(files), NameLe) else Matching(files)
  {
    if files == [] || NameLe(f, files[0]) {
      if files != [] {
        FirstIsLowest(f, files);
      }
      InsertFirst(f, files);
      InsertFirst(f, Matching(files));
      MatchingCons(f, files);
    } else {
      var x, rest := files[0], files[1..];
      assert files == [x] + rest;
      MatchingOfInsert(f, rest);
      MatchingCons(x, rest);
      MatchingCons(x, Insert(f, rest, NameLe));
      InsertAfter(f, x, rest);
      InsertAfter(f, x, Matching(rest));
    }
  }

  lemma MatchingOfSorted(f: File, directory: seq<File>)
    ensures Matching(Sorted([f] + directory))
            == if Named(f) then Insert(f, Matching(Sorted(directory)), NameLe) else Matching(Sorted(directory))
  {
    NameLeIsTotal();
    SortBySorts(directory, NameLe);
    MatchingOfInsert(f, Sorted(directory));
    assert ([f] + directory)[1..] == directory;
  }

  lemma {:induction false} InsertBefore(x: File, files: seq<File>, f: File)
    requires NameLe(x, f)
    ensures Insert(x, files + [f], NameLe) == Insert(x, files, NameLe) + [f]
  {
    if files == [] {
      assert [] + [f] == [f];
    } else {
      InsertBefore(x, files[1..], f);
      assert (files + [f])[1..] == files[1..] + [f];
    }
  }

  lemma {:induction false} InsertLast(f: File, files: seq<File>)
    requires forall i :: 0 <= i < |files| ==> !NameLe(f, files[i])
    ensures Insert(f, files, NameLe) == files + [f]
  {
    if files != [] {
      InsertLast(f, files[1..]);
      assert files == [files[0]] + files[1..];
    }
  }

  /** Every file of the directory that counts has a lower version. */
  ghost predicate Highest(directory: seq<File>, f: File)
    requires Named(f)
  {
    forall g :: g in directory && Named(g) ==> Version(g) < Version(f)
  }

  lemma HighestGoesLast(f: File, directory: seq<File>)
    requires Named(f) && OneWidth(directory, |Digits(f)|) && Highest(directory, f)
    ensures Matching(Sorted([f] + directory)) == Matching(Sorted(directory)) + [f]
  {
    MatchingOfSorted(f, directory);
    var files := Matching(Sorted(directory));
    forall i | 0 <= i < |files| ensures !NameLe(f, files[i]) {
      SortedAre(directory, files[i]);
      NamesFollowVersions(f, files[i]);
    }
    InsertLast(f, files);
  }

  lemma {:induction false} HighestIsLast(before: seq<File>, f: File, after: seq<File>)
    requires Named(f) && OneWidth(before + after, |Digits(f)|) && Highest(before + after, f)
    ensures Matching(Sorted(before + [f] + after)) == Matching(Sorted(before + after)) + [f]
  {
    if before == [] {
      assert before + [f] + after == [f] + after && before + after == after;
      HighestGoesLast(f, after);
    } else {
      var x, rest := before[0], before[1..];
      assert before + [f] + after == [x] + (rest + [f] + after);
      assert before + after == [x] + (rest + after);
      assert x in before + after;
      HighestIsLast(rest, f, after);
      MatchingOfSorted(x, rest + [f] + after);
      MatchingOfSorted(x, rest + after);
      if Named(x) {
        NamesFollowVersions(x, f);
        InsertBefore(x, Matching(Sorted(rest + after)), f);
      }
    }
  }

  /** A new migration of the same width and a higher version is discovered last, wherever the directory lists it. */
  lemma AppendedIsLast(before: seq<File>, f: File, after: seq<File>)
    requires Named(f) && OneWidth(before + after, |Digits(f)|) && Highest(before + after, f)
    ensures Discover(before + [f] + after) == Discover(before + after) + [Migration(Version(f), Title(f))]
  {
    HighestIsLast(before, f, after);
  }

  lemma InsertedAre(f: File, files: seq<File>, g: File)
    ensures g in Insert(f, files, NameLe) <==> g == f || g in files
  {
    InsertPermutes(f, files, NameLe);
    assert g in Insert(f, files, NameLe) <==> g in multiset(Insert(f, files, NameLe));
    assert g in files <==> g in multiset(files);
  }

  lemma InOrderCons(f: File, files: seq<File>)
    requires Named(f) && InOrder(files) && forall g :: g in files && Named(g) ==> Version(f) < Version(g)
    ensures InOrder([f] + files)
  {
    forall j | 0 <= j < |files| ensures Version(f) < Version(files[j]) {
    }
  }

  /** All files that count have a higher version. */
  ghost predicate Lowest(f: File, files: seq<File>)
    requires Named(f)
  {
    forall g :: g in files && Named(g) ==> Version(f) < Version(g)
  }

  lemma FirstHasLowest(f: File, files: seq<File>)
    requires Named(f) && InOrder([f] + files)
    ensures Lowest(f, files)
  {
    forall g | g in files && Named(g) ensures Version(f) < Version(g) {
      var i :| 0 <= i < |files| && files[i] == g;
      assert ([f] + files)[0] == f && ([f] + files)[i + 1] == g;
    }
  }

  lemma StaysLowest(f: File, x: File, files: seq<File>)
    requires Named(f) && Named(x) && Lowest(x, files) && Version(x) < Version(f)
    ensures Lowest(x, Insert(f, files, NameLe))
  {
    forall g | g in Insert(f, files, NameLe) && Named(g) ensures Version(x) < Version(g) {
      InsertedAre(f, files, g);
    }
  }

  /** A file goes where its version belongs. */
  lemma {:induction false} InsertInOrder(f: File, files: seq<File>)
    requires InOrder(files) && Named(f)
    requires forall g :: g in files && Named(g) ==> |Digits(g)| == |Digits(f)| && Version(g) != Version(f)
    ensures InOrder(Insert(f, files, NameLe))
  {
    if files == [] {
      InsertFirst(f, files);
    } else {
      var x, rest := files[0], files[1..];
      assert files == [x] + rest;
      NamesFollowVersions(f, x);
      if NameLe(f, x) {
        InsertFirst(f, files);
        InOrderCons(f, files);
      } else {
        InsertInOrder(f, rest);
        InsertAfter(f, x, rest);
        FirstHasLowest(x, rest);
        StaysLowest(f, x, rest);
        InOrderCons(x, Insert(f, rest, NameLe));
      }
    }
  }

  lemma {:induction false} MatchingInOrder(directory: seq<File>, width: nat)
    requires OneWidth(directory, width) && DistinctVersions(directory)
    ensures InOrder(Matching(Sorted(directory)))
  {
    if directory != [] {
      var f, rest := directory[0], directory[1..];
      assert directory == [f] + rest;
      MatchingInOrder(rest, width);
      MatchingOfSorted(f, rest);
      if Named(f) {
        var files := Matching(Sorted(rest));
        forall g | g in files && Named(g) ensures |Digits(g)| == |Digits(f)| && Version(g) != Version(f) {
          SortedAre(rest, g);
          var i :| 0 <= i < |rest| && rest[i] == g;
          assert directory[i + 1] == g;
        }
        InsertInOrder(f, files);
      }
    }
  }

  /**
   With numbers of one width, all different, a directory is discovered in version order and completely,
   however it is listed and whatever else lies in it.
   */
  lemma SameWidthIsInOrder(directory: seq<File>, width: nat)
    requires OneWidth(directory, width) && DistinctVersions(directory)
    ensures Increasing(Discover(directory))
    ensures forall f :: f in directory && Named(f) ==> Migration(Version(f), Title(f)) in Discover(directory)
  {
    MatchingInOrder(directory, width);
    forall f | f in directory && Named(f) ensures Migration(Version(f), Title(f)) in Discover(directory) {
      SortedAre(directory, f);
      var i :| 0 <= i < |Matching(Sorted(directory))| && Matching(Sorted(directory))[i] == f;
      assert Discover(directory)[i] == Tuple(f);
    }
  }

  lemma ThousandAfterNine(nine: string, thousand: string)
    requires nine == "999" && thousand == "1000"
    ensures AllDigits(nine) && AllDigits(thousand) && Value(nine) == 999 && Value(thousand) == 1000
  {
    assert nine[1..] == "99" && "99"[1..] == "9" && "9"[1..] == "";
    assert thousand[1..] == "000" && "000"[1..] == "00" && "00"[1..] == "0" && "0"[1..] == "";
    assert Pow10(0) == 1 && Pow10(1) == 10 && Pow10(2) == 100 && Pow10(3) == 1000;
  }

  lemma {:induction false} DigitsLead(digits: string, tail: string)
    requires AllDigits(digits) && (tail == "" || !('0' <= tail[0] <= '9'))
    ensures LeadingDigits(digits + tail) == digits
  {
    if digits == "" {
      assert digits + tail == tail;
    } else {
      DigitsLead(digits[1..], tail);
      assert (digits + tail)[1..] == digits[1..] + tail;
    }
  }

  /** The file with these digits and this title. */
  function UpFile(digits: string, title: string): File {
    File(digits + (MIDDLE + title + SUFFIX))
  }

  lemma TailIs(middle: string, title: string, suffix: string)
    requires middle == MIDDLE && suffix == SUFFIX && title != "" && '\n' !in title
    ensures WellFormed(middle + title + suffix) && TitleIn(middle + title + suffix) == title
  {
    var tail := middle + title + suffix;
    assert tail[..|middle|] == middle && tail[|tail| - |suffix|..] == suffix;
    assert tail[|middle|..|tail| - |suffix|] == title;
  }

  /** Such a file is read as it was named. */
  lemma NamedIsRead(digits: string, title: string)
    requires digits != "" && AllDigits(digits) && title != "" && '\n' !in title
    ensures var f := UpFile(digits, title); Named(f) && Digits(f) == digits && Title(f) == title
  {
    var tail := MIDDLE + title + SUFFIX;
    assert tail[0] == MIDDLE[0];
    DigitsLead(digits, tail);
    assert (digits + tail)[|digits|..] == tail;
    TailIs(MIDDLE, title, SUFFIX);
  }

  lemma TailOfTitle(middle: string, suffix: string, tail: string)
    requires middle == MIDDLE && suffix == SUFFIX && WellFormed(tail)
    ensures tail == middle + TitleIn(tail) + suffix
  {
    assert tail == tail[..|middle|] + tail[|middle|..|tail| - |suffix|] + tail[|tail| - |suffix|..];
  }

  /** And only files named like that count. */
  lemma ReadIsNamed(f: File)
    requires Named(f)
    ensures f.name == Digits(f) + ("_" + Title(f) + ".up.sql")
    ensures Digits(f) != "" && Title(f) != "" && '\n' !in Title(f)
  {
    TailOfTitle(MIDDLE, SUFFIX, Tail(f));
    assert f.name == Digits(f) + Tail(f);
  }

  /** Another digit: ten times the number, and the digit. */
  lemma {:induction false} ValueOfOneMore(digits: string, c: char)
    requires AllDigits(digits) && '0' <= c <= '9'
    ensures AllDigits(digits + [c])
    ensures Value(digits + [c]) == 10 * Value(digits) + (c as int - '0' as int)
  {
    if digits == "" {
      assert [] + [c] == [c] && [c][1..] == "";
      assert Pow10(0) == 1 && Value("") == 0;
    } else {
      ValueOfOneMore(digits[1..], c);
      assert (digits + [c])[1..] == digits[1..] + [c];
      TenTimes(Digit(digits[0]), |digits| - 1);
    }
  }

  lemma TenTimes(d: nat, n: nat)
    ensures d * Pow10(n + 1) == 10 * (d * Pow10(n))
  {
    var p := Pow10(n);
    assert d * (10 * p) == 10 * (d * p);
  }

  /** With numbers of different widths, discovery can put the higher version first. */
  lemma WiderNumberComesFirst(nine: string, thousand: string, title: string)
    requires nine == "999" && thousand == "1000" && title != "" && '\n' !in title
    ensures AllDigits(nine) && AllDigits(thousand)
    ensures Discover([UpFile(nine, title), UpFile(thousand, title)]) == [Migration(1000, title), Migration(999, title)]
  {
    ThousandAfterNine(nine, thousand);
    NamedIsRead(nine, title);
    NamedIsRead(thousand, title);
    HigherFirst(UpFile(nine, title), UpFile(thousand, title));
  }

  lemma HigherFirst(f: File, g: File)
    requires Named(f) && Named(g) && f.name != "" && g.name != "" && g.name[0] < f.name[0]
    ensures Discover([f, g]) == [Tuple(g), Tuple(f)]
  {
    TwoSorted(f, g);
    MatchingTwo(g, f);
  }

  lemma MatchingTwo(f: File, g: File)
    requires Named(f) && Named(g)
    ensures Matching([f, g]) == [f, g]
  {
    MatchingCons(f, [g]);
    MatchingCons(g, []);
    assert [f] + [g] == [f, g] && [g] + [] == [g];
  }

  lemma TwoSorted(f: File, g: File)
    requires !NameLe(f, g)
    ensures Sorted([f, g]) == [g, f]
  {
    assert [f, g][1..] == [g];
    SortOfOne(g, NameLe);
    assert Insert(f, [g], NameLe) == [g] + Insert(f, [g][1..], NameLe);
    assert Insert(f, [], NameLe) == [f] + [];
  }
}
