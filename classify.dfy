/** The side-effect-free part of the sorter: the extension of a file name
    (os.path.splitext), the categories an extension belongs to, and the name of
    a year folder (str(year)). */
module Classify {

  /** The parsed extension map: category names with their extension lists, in
      the order the JSON object lists them (Python dicts keep insertion order). */
  type ExtensionMap = seq<(string, seq<string>)>

  /** Index of the last `c` in `s`, or -1 (str.rfind). */
  function LastIndexOf(s: string, c: char): (i: int)
    ensures -1 <= i < |s|
    ensures i >= 0 ==> s[i] == c
    ensures forall k :: i < k < |s| ==> s[k] != c
  {
    if s == [] then -1
    else if s[|s| - 1] == c then |s| - 1
    else LastIndexOf(s[..|s| - 1], c)
  }

  lemma LastIndexOfAt(s: string, c: char, j: int)
    requires -1 <= j < |s| && (j >= 0 ==> s[j] == c)
    requires forall k :: j < k < |s| ==> s[k] != c
    ensures LastIndexOf(s, c) == j
  {
  }

  /** os.path.splitext(name)[1] on POSIX: the suffix from the last dot, provided
      that dot follows some character other than a dot in the last path
      component (so ".bashrc" gives "" and "archive." gives "."); otherwise "". */
  function Extension(name: string): (e: string)
    ensures |e| <= |name|
  {
    var sep := LastIndexOf(name, '/');
    var dot := LastIndexOf(name, '.');
    if dot > sep && exists k :: sep < k < dot && name[k] != '.' then name[dot..] else ""
  }

  /** The extension is a suffix of the name that is empty or is one dot followed
      by no other dot and no separator; a plain file name has one exactly when
      a dot follows some character other than a dot. */
  lemma ExtensionShape(name: string)
    ensures var e := Extension(name);
      && e == name[|name| - |e|..]
      && (e != "" ==> e[0] == '.' && forall k :: 1 <= k < |e| ==> e[k] != '.' && e[k] != '/')
      && ('/' !in name ==>
           (e != "" <==> exists k, i :: 0 <= k < i < |name| && name[k] != '.' && name[i] == '.'))
  {
  }

  /** Entry `i` of `m` is the first whose list holds `e`. */
  ghost predicate FirstListing(m: ExtensionMap, e: string, i: int) {
    0 <= i < |m| && e in m[i].1 && forall j :: 0 <= j < i ==> e !in m[j].1
  }

  /** The categories whose list holds `e`, in map order: the categories the
      sorter's loop `for category, extensions in ...: if extension in extensions`
      acts on. Membership is exact and case-sensitive. */
  function Matches(m: ExtensionMap, e: string): (cats: seq<string>)
    ensures |cats| <= |m|
  {
    if m == [] then []
    else if e in m[0].1 then [m[0].0] + Matches(m[1..], e)
    else Matches(m[1..], e)
  }

  /** A category is matched exactly when its list holds the extension. */
  lemma {:induction false} MatchesMembers(m: ExtensionMap, e: string)
    ensures forall c :: c in Matches(m, e) <==> exists i :: 0 <= i < |m| && m[i].0 == c && e in m[i].1
    decreases |m|
  {
    if m != [] {
      var rest := Matches(m[1..], e);
      MatchesMembers(m[1..], e);
      forall c | c in rest ensures exists i :: 1 <= i < |m| && m[i].0 == c && e in m[i].1 {
        var i :| 0 <= i < |m[1..]| && m[1..][i].0 == c && e in m[1..][i].1;
        assert m[i + 1] == m[1..][i];
      }
      forall c | exists i :: 1 <= i < |m| && m[i].0 == c && e in m[i].1 ensures c in rest {
        var i :| 1 <= i < |m| && m[i].0 == c && e in m[i].1;
        assert m[1..][i - 1] == m[i];
      }
    }
  }

  /** The first category matched is the first entry whose list holds the extension. */
  lemma {:induction false} MatchesFirst(m: ExtensionMap, e: string)
    ensures Matches(m, e) != [] ==> exists i :: FirstListing(m, e, i) && Matches(m, e)[0] == m[i].0
    decreases |m|
  {
    if m != [] && e !in m[0].1 && Matches(m, e) != [] {
      var rest := Matches(m[1..], e);
      MatchesFirst(m[1..], e);
      var i :| FirstListing(m[1..], e, i) && rest[0] == m[1..][i].0;
      assert m[i + 1] == m[1..][i];
      forall j | 0 <= j < i + 1 ensures e !in m[j].1 {
        if j > 0 { assert m[j] == m[1..][j - 1]; }
      }
      assert FirstListing(m, e, i + 1);
    } else if m != [] && e in m[0].1 {
      assert FirstListing(m, e, 0);
    }
  }

  function Digit(n: nat): (c: char)
    requires n < 10
    ensures '0' <= c <= '9'
  {
    "0123456789"[n]
  }

  /** str(year): the decimal digits of `y`, without leading zeros. */
  function YearName(y: nat): (s: string)
    ensures |s| >= 1 && (|s| == 1 <==> y < 10)
    ensures forall i :: 0 <= i < |s| ==> '0' <= s[i] <= '9'
  {
    if y < 10 then [Digit(y)] else YearName(y / 10) + [Digit(y % 10)]
  }

  /** Distinct years get distinct folders. */
  lemma {:induction false} YearNameInjective(a: nat, b: nat)
    requires YearName(a) == YearName(b)
    ensures a == b
    decreases a
  {
    var s := YearName(a);
    if a >= 10 {
      assert b >= 10;
      assert YearName(a / 10) == s[..|s| - 1] == YearName(b / 10);
      YearNameInjective(a / 10, b / 10);
      assert Digit(a % 10) == s[|s| - 1] == Digit(b % 10);
    } else {
      assert b < 10;
      assert Digit(a) == Digit(b);
    }
  }

  /** Worked examples of str() on a year: its decimal digits, most significant first. */
  lemma YearNameExamples()
    ensures YearName(7) == "7"
    ensures YearName(2022) == "2022"
  {
    assert YearName(2) == "2";
    assert YearName(20) == "20";
    assert YearName(202) == "202";
  }

  /** Worked examples of os.path.splitext: the last dot wins, a leading dot
      does not start an extension, and case is kept. */
  lemma ExtensionExamples()
    ensures Extension("x.png") == ".png"
    ensures Extension("archive.tar.gz") == ".gz"
    ensures Extension(".bashrc") == ""
    ensures Extension("README") == ""
  {
    var a, b, c, d := "x.png", "archive.tar.gz", ".bashrc", "README";
    LastIndexOfAt(a, '/', -1);
    LastIndexOfAt(a, '.', 1);
    assert a[0] != '.' && a[1..] == ".png";
    LastIndexOfAt(b, '/', -1);
    LastIndexOfAt(b, '.', 11);
    assert b[0] != '.' && b[11..] == ".gz";
    LastIndexOfAt(c, '/', -1);
    LastIndexOfAt(c, '.', 0);
    LastIndexOfAt(d, '/', -1);
    LastIndexOfAt(d, '.', -1);
  }
}
