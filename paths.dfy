/** The POSIX path helpers of Python's `os.path` that the renderer uses to
    name its outputs: `splitext`, `basename` and `join` (two arguments). */
module Paths {

  /** `s.rfind(c)`: the last position of `c` in `s`, or -1. */
  function LastIndex(s: string, c: char): (r: int)
    ensures -1 <= r < |s|
    ensures r >= 0 ==> s[r] == c
    ensures forall j :: r < j < |s| ==> s[j] != c
  {
    if s == [] then -1
    else if s[|s| - 1] == c then |s| - 1
    else LastIndex(s[..|s| - 1], c)
  }

  /** Some character of `p[lo..hi]` is not a dot. */
  predicate HasNonDot(p: string, lo: int, hi: int)
    requires 0 <= lo && hi <= |p|
  {
    exists i :: lo <= i < hi && p[i] != '.'
  }

  /** The last path component holds a dot somewhere after a non-dot. */
  predicate HasExtension(p: string)
  {
    exists i, j :: LastIndex(p, '/') < i < j < |p| && p[i] != '.' && p[j] == '.'
  }

  /** `os.path.splitext(p)`: the extension is everything from the last dot
      of the last path component, unless that component is only dots up to
      that dot (so ".bashrc" and "a/..." have no extension). */
  function SplitExt(p: string): (r: (string, string))
    ensures r.0 + r.1 == p
    ensures r.1 == "" || r.1[0] == '.'
    ensures '/' !in r.1
    ensures r.1 != "" ==> '.' !in r.1[1..]
    ensures r.1 != "" ==> r.0 != "" && r.0[|r.0| - 1] != '/'
    ensures r.1 != "" ==> HasNonDot(r.0, LastIndex(r.0, '/') + 1, |r.0|)
    ensures r.1 != "" <==> HasExtension(p)
  {
    var sep, dot := LastIndex(p, '/'), LastIndex(p, '.');
    if dot > sep && HasNonDot(p, sep + 1, dot) then
      SplitAtDot(p, sep, dot);
      (p[..dot], p[dot..])
    else
      DotAfterNonDot(p, sep, dot);
      (p, "")
  }

  /** Cutting at the last dot of the last component, behind a non-dot. */
  lemma SplitAtDot(p: string, sep: int, dot: int)
    requires sep == LastIndex(p, '/') && dot == LastIndex(p, '.')
    requires dot > sep && HasNonDot(p, sep + 1, dot)
    ensures p[..dot] + p[dot..] == p && p[dot..][0] == '.'
    ensures '/' !in p[dot..] && '.' !in p[dot..][1..]
    ensures p[..dot] != "" && p[..dot][dot - 1] != '/'
    ensures HasNonDot(p[..dot], LastIndex(p[..dot], '/') + 1, dot)
    ensures HasExtension(p)
  {
    ExtensionPart(p, sep, dot);
    RootPart(p, sep, dot);
  }

  /** What follows the last dot holds no slash and no other dot. */
  lemma ExtensionPart(p: string, sep: int, dot: int)
    requires sep == LastIndex(p, '/') && dot == LastIndex(p, '.') && dot > sep
    ensures p[..dot] + p[dot..] == p && p[dot..][0] == '.'
    ensures '/' !in p[dot..] && '.' !in p[dot..][1..]
  {
    var ext := p[dot..];
    assert forall j :: 0 <= j < |ext| ==> ext[j] == p[dot + j] && ext[j] != '/';
    assert forall j :: 0 <= j < |ext| - 1 ==> ext[1..][j] == p[dot + 1 + j] && ext[1..][j] != '.';
  }

  /** What precedes the last dot ends in a non-slash and keeps the non-dot
      of the last component. */
  lemma RootPart(p: string, sep: int, dot: int)
    requires sep == LastIndex(p, '/') && dot == LastIndex(p, '.')
    requires dot > sep && HasNonDot(p, sep + 1, dot)
    ensures p[..dot] != "" && p[..dot][dot - 1] != '/'
    ensures HasNonDot(p[..dot], LastIndex(p[..dot], '/') + 1, dot)
    ensures HasExtension(p)
  {
    var root := p[..dot];
    var i :| sep + 1 <= i < dot && p[i] != '.';
    assert root[dot - 1] == p[dot - 1];
    LastIndexPrefix(p, dot, '/');
    assert root[i] == p[i];
    assert p[i] != '.' && p[dot] == '.';
  }

  /** A dot behind a non-dot in the last component makes the last dot one
      that `SplitExt` cuts at. */
  lemma DotAfterNonDot(p: string, sep: int, dot: int)
    requires sep == LastIndex(p, '/') && dot == LastIndex(p, '.')
    ensures HasExtension(p) ==> dot > sep && HasNonDot(p, sep + 1, dot)
  {
    forall i, j | sep < i < j < |p| && p[i] != '.' && p[j] == '.'
      ensures dot > sep && HasNonDot(p, sep + 1, dot)
    {
      assert dot >= j;
      assert p[i] != '.';
    }
  }

  /** `os.path.basename(p)`: what follows the last slash. */
  function Basename(p: string): (r: string)
    ensures '/' !in r
    ensures |r| <= |p| && r == p[|p| - |r|..]
    ensures r == p || p[|p| - |r| - 1] == '/'
  {
    var k := LastIndex(p, '/');
    var r := p[k + 1..];
    assert forall j :: 0 <= j < |r| ==> r[j] != '/' by {
      forall j | 0 <= j < |r| ensures r[j] != '/' {
        assert r[j] == p[k + 1 + j];
      }
    }
    r
  }

  /** The last `c` before position `k` is the last `c` of `s[..k]`, when
      `s` has none from `k` on. */
  lemma LastIndexPrefix(s: string, k: nat, c: char)
    requires k <= |s| && forall j :: k <= j < |s| ==> s[j] != c
    ensures LastIndex(s[..k], c) == LastIndex(s, c)
    decreases |s|
  {
    if k < |s| {
      assert s[..|s| - 1][..k] == s[..k];
      LastIndexPrefix(s[..|s| - 1], k, c);
    } else {
      assert s[..k] == s;
    }
  }

  /** `LastIndex` is determined by where `c` occurs. */
  lemma LastIndexIs(s: string, c: char, k: int)
    requires -1 <= k < |s| && (k >= 0 ==> s[k] == c)
    requires forall j :: k < j < |s| ==> s[j] != c
    ensures LastIndex(s, c) == k
  {
  }

  /** A document in a sub-folder loses only its last suffix. */
  lemma SplitExtExample()
    ensures SplitExt("a/report.pdf") == ("a/report", ".pdf")
  {
    var p := "a/report.pdf";
    LastIndexIs(p, '/', 1);
    LastIndexIs(p, '.', 8);
    assert p[..8] == "a/report" && p[8..] == ".pdf";
    assert p[2] != '.';
  }

  /** A name that starts with its only dot has no extension. */
  lemma SplitExtDotfile()
    ensures SplitExt(".bashrc") == (".bashrc", "")
  {
    var p := ".bashrc";
    LastIndexIs(p, '/', -1);
    LastIndexIs(p, '.', 0);
  }

  /** The folder part of a path is dropped. */
  lemma BasenameExample()
    ensures Basename("a/report") == "report"
  {
    LastIndexIs("a/report", '/', 1);
    assert "a/report"[2..] == "report";
  }

  /** `os.path.join(a, b)`. */
  function PathJoin(a: string, b: string): string
  {
    if b != "" && b[0] == '/' then b
    else if a == "" || a[|a| - 1] == '/' then a + b
    else a + "/" + b
  }

  /** A joined path ends with the joined name. */
  lemma JoinEndsWith(a: string, b: string)
    ensures var r := PathJoin(a, b); |r| >= |b| && r[|r| - |b|..] == b
  {
    var r := PathJoin(a, b);
    if !(b != "" && b[0] == '/') {
      if a == "" || a[|a| - 1] == '/' {
        assert r == a + b;
      } else {
        assert r == (a + "/") + b;
      }
    }
  }

  /** Relative names joined to the same folder give the same path only when
      they are the same name. */
  lemma JoinInjective(a: string, b1: string, b2: string)
    requires b1 != "" && b1[0] != '/' && b2 != "" && b2[0] != '/'
    requires PathJoin(a, b1) == PathJoin(a, b2)
    ensures b1 == b2
  {
    var r := PathJoin(a, b1);
    var k := if a == "" || a[|a| - 1] == '/' then |a| else |a| + 1;
    assert r[k..] == b1;
    assert r[k..] == b2;
  }

  /** A relative name joined to a folder never gives the folder itself. */
  lemma JoinNotFolder(a: string, b: string)
    requires b != "" && b[0] != '/'
    ensures PathJoin(a, b) != a
  {
  }
}
