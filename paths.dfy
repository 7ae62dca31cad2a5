/** The display name of a playlist entry: the last component of a file
    path, as Python's posixpath.basename gives it (everything after the last
    '/', empty when the path ends in '/'). */
module Paths {

  const Separator: char := '/'

  /** The final path component of p: its longest suffix holding no
      separator. */
  function BaseName(p: string): (b: string)
    ensures |b| <= |p|
    decreases |p|
  {
    if p == [] || p[|p| - 1] == Separator then []
    else BaseName(p[..|p| - 1]) + [p[|p| - 1]]
  }

  /** BaseName(p) is a suffix of p without a separator, and it is preceded
      by a separator unless it is all of p: so it is the longest such. */
  lemma {:induction false} BaseNameIsLastComponent(p: string)
    ensures |BaseName(p)| <= |p| && p[|p| - |BaseName(p)|..] == BaseName(p)
    ensures forall i :: 0 <= i < |BaseName(p)| ==> BaseName(p)[i] != Separator
    ensures |BaseName(p)| < |p| ==> p[|p| - |BaseName(p)| - 1] == Separator
    decreases |p|
  {
    if p != [] && p[|p| - 1] != Separator {
      var q := p[..|p| - 1];
      BaseNameIsLastComponent(q);
      assert p[|p| - |BaseName(p)|..] == q[|q| - |BaseName(q)|..] + [p[|p| - 1]];
    }
  }

  /** What BaseName leaves in front of it, with the trailing separator
      kept (so unlike posixpath.dirname, "a/b" gives "a/"): empty or ending in
      the separator. */
  function DirPrefix(p: string): (d: string)
    ensures d == [] || d[|d| - 1] == Separator
  {
    BaseNameIsLastComponent(p);
    p[..|p| - |BaseName(p)|]
  }

  /** A path is its prefix followed by its base name. */
  lemma SplitPath(p: string)
    ensures p == DirPrefix(p) + BaseName(p)
  {
    BaseNameIsLastComponent(p);
  }

  /** A path with no separator is its own base name, and the base name of
      a path ending in the separator is empty. */
  lemma {:induction false} BaseNameCases(p: string)
    ensures (forall i :: 0 <= i < |p| ==> p[i] != Separator) ==> BaseName(p) == p
    ensures p != [] && p[|p| - 1] == Separator ==> BaseName(p) == []
  {
    BaseNameIsRFindSlice(p);
  }

  /** Whatever directory is put in front (ending in a separator), the base
      name of the result is the name put after it. */
  lemma {:induction false} BaseNameOfJoin(dir: string, name: string)
    requires forall i :: 0 <= i < |name| ==> name[i] != Separator
    ensures BaseName(dir + [Separator] + name) == name
    decreases |name|
  {
    var p := dir + [Separator] + name;
    if name != [] {
      assert p[..|p| - 1] == dir + [Separator] + name[..|name| - 1];
      BaseNameOfJoin(dir, name[..|name| - 1]);
    }
  }

  /** Index of the last occurrence of c in p, or -1 when there is none, as
      Python's str.rfind gives it. */
  function RFind(p: string, c: char): (k: int)
    ensures -1 <= k < |p|
    ensures k >= 0 ==> p[k] == c
    ensures forall i :: k < i < |p| ==> p[i] != c
    decreases |p|
  {
    if p == [] then -1
    else if p[|p| - 1] == c then |p| - 1
    else RFind(p[..|p| - 1], c)
  }

  /** BaseName agrees with the library's own definition of basename:
      the slice of p after the last separator, p[p.rfind('/') + 1:]. */
  lemma {:induction false} BaseNameIsRFindSlice(p: string)
    ensures BaseName(p) == p[RFind(p, Separator) + 1..]
    decreases |p|
  {
    if p != [] && p[|p| - 1] != Separator {
      var q := p[..|p| - 1];
      BaseNameIsRFindSlice(q);
      assert RFind(p, Separator) == RFind(q, Separator);
      assert p[RFind(p, Separator) + 1..] == q[RFind(q, Separator) + 1..] + [p[|p| - 1]];
    }
  }
}
