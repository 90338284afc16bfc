/** Slash-separated relative paths as plain character sequences, and the
    string searches the conflict-name rules are built from. */
module Paths {

  type Path = string

  /** `w` occurs in `s` starting at index `i`. */
  predicate OccursAt(s: string, w: string, i: int) {
    0 <= i && i + |w| <= |s| && s[i..i + |w|] == w
  }

  /** `w` occurs somewhere in `s` (a substring test). */
  predicate Contains(s: string, w: string) {
    exists i :: 0 <= i <= |s| - |w| && OccursAt(s, w, i)
  }

  predicate StartsWith(s: string, prefix: string) {
    |prefix| <= |s| && s[..|prefix|] == prefix
  }

  /** Index of the last `c` in `s`, or -1 when `s` has none. */
  function LastIndexOf(s: string, c: char): (r: int)
    ensures -1 <= r < |s|
    ensures 0 <= r ==> s[r] == c
    ensures forall j :: r < j < |s| ==> s[j] != c
  {
    if |s| == 0 then -1
    else if s[|s| - 1] == c then |s| - 1
    else LastIndexOf(s[..|s| - 1], c)
  }

  /** The last-occurrence contract pins the index down uniquely. */
  lemma LastIndexOfIs(s: string, c: char, k: int)
    requires -1 <= k < |s|
    requires 0 <= k ==> s[k] == c
    requires forall j :: k < j < |s| ==> s[j] != c
    ensures LastIndexOf(s, c) == k
  {
  }

  /** Where the final path component (the file name) starts. */
  function BaseStart(p: Path): (b: nat)
    ensures b <= |p|
    ensures forall j :: b <= j < |p| ==> p[j] != '/'
    ensures '/' !in p[b..]
    ensures 0 < b ==> p[b - 1] == '/'
  {
    var b := LastIndexOf(p, '/') + 1;
    assert forall c :: c in p[b..] ==> c != '/' by {
      forall c | c in p[b..] ensures c != '/' {
        var j :| 0 <= j < |p[b..]| && p[b..][j] == c;
        assert p[b + j] == c;
      }
    }
    b
  }

  /** The last path component. */
  function FileName(p: Path): Path {
    p[BaseStart(p)..]
  }

  /** Everything before the last `/`; empty for a top-level name. */
  function DirName(p: Path): Path {
    var b := BaseStart(p);
    if b == 0 then "" else p[..b - 1]
  }

  /** `dir` and `name` joined with a `/`, as a child's path is formed from
      its parent's. */
  function Join(dir: Path, name: string): Path {
    if dir == "" then name else dir + "/" + name
  }

  /** A file name is taken apart again by the same split. */
  lemma JoinSplits(dir: Path, name: string)
    requires '/' !in name
    requires dir != "" || name != ""
    ensures BaseStart(Join(dir, name)) == |Join(dir, name)| - |name|
    ensures FileName(Join(dir, name)) == name
    ensures dir != "" ==> DirName(Join(dir, name)) == dir
  {
    var p := Join(dir, name);
    var k := if dir == "" then -1 else |dir|;
    forall j | k < j < |p| ensures p[j] != '/' {
      assert p[j] == name[j - (|p| - |name|)];
    }
    LastIndexOfIs(p, '/', k);
  }

  /** Index of the last `.` of the file name, or the path's length when
      the file name has no `.`: the end of the stem. */
  function StemEnd(p: Path): (e: nat)
    ensures BaseStart(p) <= e <= |p|
    ensures e == |p| ==> forall j :: BaseStart(p) <= j < |p| ==> p[j] != '.'
    ensures e < |p| ==> p[e] == '.'
    ensures forall j :: e < j < |p| ==> p[j] != '.'
  {
    var b := BaseStart(p);
    var d := LastIndexOf(p[b..], '.');
    if d < 0 then
      assert forall j :: b <= j < |p| ==> p[j] == p[b..][j - b];
      |p|
    else
      assert forall j :: b + d < j < |p| ==> p[j] == p[b..][j - b];
      b + d
  }

  /** A word found in a piece is found in anything built around it. */
  lemma ContainsInfix(a: string, x: string, b: string, w: string)
    requires Contains(x, w)
    ensures Contains(a + x + b, w)
  {
    var i :| 0 <= i <= |x| - |w| && OccursAt(x, w, i);
    assert (a + x + b)[|a| + i..|a| + i + |w|] == x[i..i + |w|];
    assert OccursAt(a + x + b, w, |a| + i);
  }

  /** A word found in a prefix is found in the whole. */
  lemma ContainsPrefix(q: string, x: string, w: string)
    requires StartsWith(q, x)
    requires Contains(x, w)
    ensures Contains(q, w)
  {
    assert q == "" + x + q[|x|..];
    ContainsInfix("", x, q[|x|..], w);
  }

  /** A word occurs in itself. */
  lemma ContainsSelf(w: string)
    ensures Contains(w, w)
  {
    assert OccursAt(w, w, 0);
  }

  lemma StartsWithTrans(q: string, x: string, y: string)
    requires StartsWith(q, x) && StartsWith(x, y)
    ensures StartsWith(q, y)
  {
    assert q[..|y|] == x[..|x|][..|y|];
  }

  /** Joining to the same directory keeps a prefix relation between names. */
  lemma JoinStartsWith(dir: Path, m: string, f: string)
    requires StartsWith(m, f)
    ensures StartsWith(Join(dir, m), Join(dir, f))
  {
    if dir != "" {
      assert Join(dir, m) == dir + "/" + m;
      assert Join(dir, m)[..|dir| + 1 + |f|] == dir + "/" + m[..|f|];
    }
  }

  lemma StartsWithSelf(s: string)
    ensures StartsWith(s, s)
  {
  }

  /** A word in a name is in the name joined to any directory. */
  lemma ContainsJoin(dir: Path, name: string, w: string)
    requires Contains(name, w)
    ensures Contains(Join(dir, name), w)
  {
    var lead := if dir == "" then "" else dir + "/";
    assert Join(dir, name) == lead + name + "";
    ContainsInfix(lead, name, "", w);
  }
}
