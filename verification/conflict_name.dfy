/** Conflict-copy file names: making a copy's name from the name of the
    file it stands in for, and recovering that name from the copy's.

    A name is taken apart as  dir-prefix + stem + extension : the
    dir-prefix runs up to and including the last `/`, the extension starts
    at the last `.` of the file name (empty when it has none), and the stem
    is what lies between. A conflict copy carries the marker `_conflict` in
    its stem followed by a non-empty tail. */
module ConflictName {
  import opened Wrappers
  import opened Paths

  const Marker: string := "_conflict"

  predicate MarkerAt(s: string, i: int) {
    OccursAt(s, Marker, i)
  }

  predicate MarkerFree(s: string) {
    forall i :: 0 <= i <= |s| - |Marker| ==> !MarkerAt(s, i)
  }

  predicate EndsWithMarker(s: string) {
    |Marker| <= |s| && MarkerAt(s, |s| - |Marker|)
  }

  /** Start of the rightmost marker in `s`, or -1 when `s` has none. */
  function LastMarker(s: string): (r: int)
    ensures r == -1 || MarkerAt(s, r)
    ensures forall i :: r < i ==> !MarkerAt(s, i)
  {
    if |s| < |Marker| then -1
    else if MarkerAt(s, |s| - |Marker|) then |s| - |Marker|
    else
      var r := LastMarker(s[..|s| - 1]);
      assert forall i :: MarkerAt(s, i) && i + |Marker| < |s| ==> MarkerAt(s[..|s| - 1], i) by {
        forall i | MarkerAt(s, i) && i + |Marker| < |s| ensures MarkerAt(s[..|s| - 1], i) {
          assert s[..|s| - 1][i..i + |Marker|] == s[i..i + |Marker|];
        }
      }
      r
  }

  /** Number of (necessarily disjoint) marker occurrences in `s`. */
  function MarkerCount(s: string): (n: nat)
    ensures n == 0 <==> MarkerFree(s)
  {
    if |s| < |Marker| then 0
    else
      var n := MarkerCount(s[..|s| - 1]) + if MarkerAt(s, |s| - |Marker|) then 1 else 0;
      assert MarkerFree(s[..|s| - 1]) && !MarkerAt(s, |s| - |Marker|) ==> MarkerFree(s) by {
        if MarkerFree(s[..|s| - 1]) && !MarkerAt(s, |s| - |Marker|) {
          forall i | MarkerAt(s, i) ensures false {
            assert s[..|s| - 1][i..i + |Marker|] == s[i..i + |Marker|];
            assert MarkerAt(s[..|s| - 1], i);
          }
        }
      }
      assert MarkerFree(s) ==> MarkerFree(s[..|s| - 1]) by {
        if MarkerFree(s) {
          var t := s[..|s| - 1];
          forall i | MarkerAt(t, i) ensures false {
            assert t[i..i + |Marker|] == s[i..i + |Marker|];
            assert MarkerAt(s, i);
          }
        }
      }
      n
  }

  // ---------------------------------------------------------------------
  // Splitting a path into dir-prefix, stem and extension

  /** The path up to and including its last `/`. */
  function DirPrefix(p: Path): Path {
    p[..BaseStart(p)]
  }

  function Stem(p: Path): string {
    p[BaseStart(p)..StemEnd(p)]
  }

  function Extension(p: Path): string {
    p[StemEnd(p)..]
  }

  /** `d`, `st`, `e` are a dir-prefix, a stem and an extension that a path
      built from them splits back into. */
  predicate WellSplit(d: string, st: string, e: string) {
    && (d == "" || d[|d| - 1] == '/')
    && '/' !in st && '/' !in e
    && (e == "" ==> '.' !in st)
    && (e != "" ==> e[0] == '.' && '.' !in e[1..])
  }

  lemma SplitOfParts(d: string, st: string, e: string)
    requires WellSplit(d, st, e)
    ensures BaseStart(d + st + e) == |d|
    ensures StemEnd(d + st + e) == |d| + |st|
    ensures DirPrefix(d + st + e) == d
    ensures Stem(d + st + e) == st
    ensures Extension(d + st + e) == e
  {
    var p := d + st + e;
    BaseStartOfParts(d, st + e);
    assert p == d + (st + e);
    StemEndOfParts(st, e);
    assert p[|d|..] == st + e;
    assert p[..|d|] == d;
    assert p[|d|..|d| + |st|] == st;
    assert p[|d| + |st|..] == e;
  }

  /** The file name starts right after a dir-prefix followed by a
      slash-free name. */
  lemma BaseStartOfParts(d: string, f: string)
    requires d == "" || d[|d| - 1] == '/'
    requires '/' !in f
    ensures BaseStart(d + f) == |d|
  {
    var p := d + f;
    forall j | |d| <= j < |p| ensures p[j] != '/' {
      assert p[j] == f[j - |d|];
    }
    LastIndexOfIs(p, '/', |d| - 1);
  }

  /** Inside a file name `st + e`, the last `.` is where `e` starts. */
  lemma StemEndOfParts(st: string, e: string)
    requires e == "" ==> '.' !in st
    requires e != "" ==> e[0] == '.' && '.' !in e[1..]
    ensures LastIndexOf(st + e, '.') == if e == "" then -1 else |st|
  {
    var f := st + e;
    if e == "" {
      forall j | 0 <= j < |f| ensures f[j] != '.' {
        assert f[j] == st[j];
      }
      LastIndexOfIs(f, '.', -1);
    } else {
      forall j | |st| < j < |f| ensures f[j] != '.' {
        assert f[j] == e[1..][j - |st| - 1];
      }
      LastIndexOfIs(f, '.', |st|);
    }
  }

  lemma PartsOfPath(p: Path)
    ensures WellSplit(DirPrefix(p), Stem(p), Extension(p))
    ensures p == DirPrefix(p) + Stem(p) + Extension(p)
  {
    var b, e := BaseStart(p), StemEnd(p);
    assert p == p[..b] + p[b..e] + p[e..];
    NoneInSlice(p, b, e, '/');
    NoneInSlice(p, e, |p|, '/');
    if e == |p| {
      NoneInSlice(p, b, e, '.');
    } else {
      NoneInSlice(p, e + 1, |p|, '.');
      assert p[e..][1..] == p[e + 1..];
    }
  }

  /** A slice holds no `c` when none of its positions does. */
  lemma NoneInSlice(s: string, lo: nat, hi: nat, c: char)
    requires lo <= hi <= |s|
    requires forall j :: lo <= j < hi ==> s[j] != c
    ensures c !in s[lo..hi]
  {
    forall x | x in s[lo..hi] ensures x != c {
      var j :| 0 <= j < hi - lo && s[lo..hi][j] == x;
      assert s[lo + j] == x;
    }
  }

  // ---------------------------------------------------------------------
  // Facts about marker occurrences

  /** The marker's `_` appears only at its first position, so two marker
      occurrences never overlap. */
  lemma MarkersDisjoint(s: string, i: int, j: int)
    requires MarkerAt(s, i) && MarkerAt(s, j) && i < j
    ensures i + |Marker| <= j
  {
    MarkerStartsWithUnderscore(s, j);
    NoUnderscoreInsideMarker(s, i);
  }

  lemma MarkerStartsWithUnderscore(s: string, i: int)
    requires MarkerAt(s, i)
    ensures s[i] == '_'
  {
    assert s[i] == s[i..i + |Marker|][0];
  }

  lemma NoUnderscoreInsideMarker(s: string, i: int)
    requires MarkerAt(s, i)
    ensures forall k :: i < k < i + |Marker| ==> s[k] != '_'
  {
    assert Marker[1..] == "conflict";
    forall k | i < k < i + |Marker| ensures s[k] != '_' {
      assert s[k] == s[i..i + |Marker|][k - i];
      assert Marker[k - i] == Marker[1..][k - i - 1];
      assert Marker[1..][k - i - 1] in "conflict";
    }
  }

  lemma LastMarkerIs(s: string, m: int)
    requires m == -1 || MarkerAt(s, m)
    requires forall i :: m < i ==> !MarkerAt(s, i)
    ensures LastMarker(s) == m
  {
  }

  lemma ShortIsMarkerFree(s: string)
    requires |s| < |Marker|
    ensures MarkerFree(s)
  {
  }

  lemma NoUnderscoreIsMarkerFree(s: string)
    requires '_' !in s
    ensures MarkerFree(s)
  {
    forall i | 0 <= i <= |s| - |Marker| ensures !MarkerAt(s, i) {
      assert s[i] in s;
      assert s[i] == s[i..i + |Marker|][0];
    }
  }

  /** The rightmost marker of `x + Marker + rest` is the one spelled out,
      whatever `x` holds, when `rest` spells none. */
  lemma LastMarkerOfAppended(x: string, rest: string)
    requires MarkerFree(rest)
    ensures LastMarker(x + Marker + rest) == |x|
  {
    var s := x + (Marker + rest);
    assert x + Marker + rest == s;
    MarkerAfterPrefix(x, rest);
    NoMarkerAfterPrefix(x, rest);
    LastMarkerIs(s, |x|);
  }

  lemma MarkerAfterPrefix(x: string, rest: string)
    ensures MarkerAt(x + (Marker + rest), |x|)
  {
    var tail := Marker + rest;
    assert tail[..|Marker|] == Marker;
    MarkerInSuffix(x, tail, 0);
  }

  lemma NoMarkerAfterPrefix(x: string, rest: string)
    requires MarkerFree(rest)
    ensures forall i :: |x| < i ==> !MarkerAt(x + (Marker + rest), i)
  {
    var tail := Marker + rest;
    var s := x + tail;
    MarkerAfterPrefix(x, rest);
    forall i | |x| < i && MarkerAt(s, i) ensures false {
      MarkersDisjoint(s, |x|, i);
      MarkerInSuffix(x, tail, i - |x|);
      MarkerInSuffix(Marker, rest, i - |x| - |Marker|);
    }
  }

  /** A marker lying wholly inside the suffix `b` of `a + b`. */
  lemma MarkerInSuffix(a: string, b: string, i: int)
    requires 0 <= i
    ensures MarkerAt(a + b, |a| + i) <==> MarkerAt(b, i)
  {
    if i + |Marker| <= |b| {
      assert (a + b)[|a| + i..|a| + i + |Marker|] == b[i..i + |Marker|];
    }
  }

  /** Cutting `s` at `k` loses no marker when no marker ends after `k`. */
  lemma {:induction false} MarkerCountPrefix(s: string, k: nat)
    requires k <= |s|
    requires forall i :: MarkerAt(s, i) ==> i + |Marker| <= k
    ensures MarkerCount(s) == MarkerCount(s[..k])
    decreases |s| - k
  {
    if k < |s| {
      var t := s[..|s| - 1];
      assert !MarkerAt(s, |s| - |Marker|);
      forall i | MarkerAt(t, i) ensures i + |Marker| <= k {
        assert t[i..i + |Marker|] == s[i..i + |Marker|];
        assert MarkerAt(s, i);
      }
      MarkerCountPrefix(t, k);
      assert t[..k] == s[..k];
    } else {
      assert s[..k] == s;
    }
  }

  /** A marker inside a prefix of `s` is a marker of `s`. */
  lemma MarkerOfPrefix(s: string, k: nat, i: int)
    requires k <= |s|
    requires MarkerAt(s[..k], i)
    ensures MarkerAt(s, i)
  {
    assert s[..k][i..i + |Marker|] == s[i..i + |Marker|];
  }

  /** Cutting `s` just before its rightmost marker removes exactly one. */
  lemma StripLastMarkerCount(s: string, m: int)
    requires MarkerAt(s, m)
    requires forall i :: m < i ==> !MarkerAt(s, i)
    ensures MarkerCount(s[..m]) + 1 == MarkerCount(s)
  {
    var end := m + |Marker|;
    MarkerCountPrefix(s, end);
    var u := s[..end];
    assert u[..end - 1] == s[..end - 1];
    assert u[m..end] == s[m..end];
    assert MarkerCount(u) == MarkerCount(s[..end - 1]) + 1;
    CountBeforeLastMarker(s, m);
  }

  lemma CountBeforeLastMarker(s: string, m: int)
    requires MarkerAt(s, m)
    ensures MarkerCount(s[..m + |Marker| - 1]) == MarkerCount(s[..m])
  {
    var v := s[..m + |Marker| - 1];
    forall i | MarkerAt(v, i) ensures i + |Marker| <= m {
      MarkerOfPrefix(s, m + |Marker| - 1, i);
      if i < m {
        MarkersDisjoint(s, i, m);
      }
    }
    MarkerCountPrefix(v, m);
    assert v[..m] == s[..m];
  }

  // ---------------------------------------------------------------------
  // Parsing a conflict copy's name

  /** The path of the file the conflict copy `p` stands in for, or None
      when `p` is not a conflict copy's name. The rightmost marker of the
      stem is removed together with the rest of the stem after it; the
      dir-prefix and extension stay. A marker that ends the stem marks
      nothing, and neither does a name that would leave an empty base
      (the empty result that stands for "no base"). */
  function ConflictFileBaseName(p: Path): (r: Option<Path>)
    ensures r.Some? ==> r.value != "" && |r.value| + |Marker| < |p|
  {
    var st := Stem(p);
    var m := LastMarker(st);
    if m < 0 || m + |Marker| == |st| then None
    else
      var b := DirPrefix(p) + st[..m] + Extension(p);
      if b == "" then None else Some(b)
  }

  /** A top-level name without extension whose stem starts with its only
      marker: stripping the marker would leave nothing. */
  ghost predicate EmptyBase(p: Path) {
    && DirPrefix(p) == "" && Extension(p) == ""
    && MarkerAt(Stem(p), 0)
    && forall i :: 0 < i ==> !MarkerAt(Stem(p), i)
  }

  /** A name is a conflict copy's exactly when the rightmost marker of its
      stem is followed by something and something is left once the marker
      and what follows it are cut off. */
  lemma NoBaseIff(p: Path)
    ensures ConflictFileBaseName(p).None?
        <==> MarkerFree(Stem(p)) || EndsWithMarker(Stem(p)) || EmptyBase(p)
  {
    var st := Stem(p);
    var m := LastMarker(st);
    if EndsWithMarker(st) {
      LastMarkerIs(st, |st| - |Marker|);
    }
    if EmptyBase(p) {
      LastMarkerIs(st, 0);
    }
  }

  /** What the parse keeps: the dir-prefix, the extension, and the stem up
      to the rightmost marker, no marker lying after it. */
  lemma BaseNameParts(p: Path)
    requires ConflictFileBaseName(p).Some?
    ensures var q := ConflictFileBaseName(p).value;
      && DirPrefix(q) == DirPrefix(p)
      && Extension(q) == Extension(p)
      && |Stem(q)| + |Marker| < |Stem(p)|
      && Stem(q) == Stem(p)[..|Stem(q)|]
      && MarkerAt(Stem(p), |Stem(q)|)
      && (forall i :: |Stem(q)| < i ==> !MarkerAt(Stem(p), i))
  {
    var st := Stem(p);
    var m := LastMarker(st);
    PartsOfPath(p);
    var d, e := DirPrefix(p), Extension(p);
    assert '/' !in st[..m] by {
      assert forall c :: c in st[..m] ==> c in st;
    }
    assert e == "" ==> '.' !in st[..m] by {
      assert forall c :: c in st[..m] ==> c in st;
    }
    SplitOfParts(d, st[..m], e);
  }

  /** One parse removes exactly one marker from the stem. */
  lemma BaseNameDropsOneMarker(p: Path)
    requires ConflictFileBaseName(p).Some?
    ensures MarkerCount(Stem(ConflictFileBaseName(p).value)) + 1 == MarkerCount(Stem(p))
  {
    var q := ConflictFileBaseName(p).value;
    BaseNameParts(p);
    StripLastMarkerCount(Stem(p), |Stem(q)|);
  }

  /** A name is never a conflict copy's when its stem has no marker. */
  lemma MarkerFreeHasNoBase(p: Path)
    requires MarkerFree(Stem(p))
    ensures ConflictFileBaseName(p) == None
  {
    NoBaseIff(p);
  }

  // ---------------------------------------------------------------------
  // Making a conflict copy's name

  /** What follows the marker in a generated name: `_<actor>` when an
      actor tag is given, then `-<discriminator>`. */
  function TagTail(actor: string, disc: string): string {
    (if actor == "" then "" else "_" + actor) + "-" + disc
  }

  /** Tags that keep the generated name parseable: no path or extension
      separator, and no marker spelled by the tags themselves. */
  predicate TagsOk(actor: string, disc: string) {
    && '/' !in actor && '.' !in actor
    && '/' !in disc && '.' !in disc
    && MarkerFree(TagTail(actor, disc))
  }

  /** The conflict copy's name for `base`:
      stem + `_conflict` + [`_` actor] + `-` discriminator + extension.
      Parsing it gives `base` back. */
  function MakeConflictName(base: Path, actor: string, disc: string): (c: Path)
    ensures |c| > |base| + |Marker|
    ensures TagsOk(actor, disc) && base != "" ==> ConflictFileBaseName(c) == Some(base)
  {
    PartsOfPath(base);
    var c := DirPrefix(base) + (Stem(base) + Marker + TagTail(actor, disc)) + Extension(base);
    if TagsOk(actor, disc) && base != "" then
      MadeNameParses(base, actor, disc, c);
      c
    else c
  }

  /** How a generated name splits into dir-prefix, stem and extension. */
  lemma MadeSplit(base: Path, actor: string, disc: string, c: Path)
    requires TagsOk(actor, disc)
    requires c == DirPrefix(base) + (Stem(base) + Marker + TagTail(actor, disc)) + Extension(base)
    ensures DirPrefix(c) == DirPrefix(base)
    ensures Stem(c) == Stem(base) + Marker + TagTail(actor, disc)
    ensures Extension(c) == Extension(base)
  {
    PartsOfPath(base);
    var tail := TagTail(actor, disc);
    assert '/' !in Marker && '.' !in Marker;
    assert '/' !in tail && '.' !in tail;
    SplitOfParts(DirPrefix(base), Stem(base) + Marker + tail, Extension(base));
  }

  lemma MadeNameParses(base: Path, actor: string, disc: string, c: Path)
    requires TagsOk(actor, disc) && base != ""
    requires c == DirPrefix(base) + (Stem(base) + Marker + TagTail(actor, disc)) + Extension(base)
    ensures ConflictFileBaseName(c) == Some(base)
  {
    var tail := TagTail(actor, disc);
    MadeSplit(base, actor, disc, c);
    LastMarkerOfAppended(Stem(base), tail);
    assert (Stem(base) + Marker + tail)[..|Stem(base)|] == Stem(base);
    PartsOfPath(base);
  }

  lemma MakeConflictNameParts(base: Path, actor: string, disc: string)
    requires TagsOk(actor, disc)
    ensures var c := MakeConflictName(base, actor, disc);
      && DirPrefix(c) == DirPrefix(base)
      && Stem(c) == Stem(base) + Marker + TagTail(actor, disc)
      && Extension(c) == Extension(base)
  {
    MadeSplit(base, actor, disc, MakeConflictName(base, actor, disc));
  }

  /** Copies made for different names, with the same tags, differ. */
  lemma MadeNamesDistinct(p: Path, q: Path, actor: string, disc: string)
    requires TagsOk(actor, disc)
    requires p != q
    ensures MakeConflictName(p, actor, disc) != MakeConflictName(q, actor, disc)
  {
    MakeConflictNameParts(p, actor, disc);
    MakeConflictNameParts(q, actor, disc);
    PartsOfPath(p);
    PartsOfPath(q);
  }

  // ---------------------------------------------------------------------
  // Conflict copies of conflict copies

  datatype Tags = Tags(actor: string, disc: string)

  /** The copy of the copy of ... of `base`, one level per entry. */
  function Nest(base: Path, tags: seq<Tags>): Path {
    if |tags| == 0 then base
    else
      var t := tags[|tags| - 1];
      MakeConflictName(Nest(base, tags[..|tags| - 1]), t.actor, t.disc)
  }

  /** `k` successive parses of `p`, or None once one of them finds no base. */
  function Unwind(p: Path, k: nat): Option<Path> {
    Iterate(ConflictFileBaseName, p, k)
  }

  function Iterate(f: Path -> Option<Path>, p: Path, k: nat): Option<Path>
    decreases k
  {
    if k == 0 then Some(p)
    else if f(p).None? then None
    else Iterate(f, f(p).value, k - 1)
  }

  lemma {:induction false} IterateBound(f: Path -> Option<Path>, size: Path -> nat, p: Path, k: nat)
    requires forall x :: f(x).Some? ==> size(f(x).value) + 1 == size(x)
    requires Iterate(f, p, k).Some?
    ensures k <= size(p)
    decreases k
  {
    if k > 0 {
      IterateBound(f, size, f(p).value, k - 1);
    }
  }

  lemma IterateStep(f: Path -> Option<Path>, p: Path, q: Path, k: nat)
    requires f(p) == Some(q)
    ensures Iterate(f, p, k + 1) == Iterate(f, q, k)
  {
  }

  lemma {:induction false} IterateThenOne(f: Path -> Option<Path>, p: Path, k: nat)
    requires Iterate(f, p, k).Some?
    ensures Iterate(f, p, k + 1) == f(Iterate(f, p, k).value)
    decreases k
  {
    if k > 0 {
      IterateThenOne(f, f(p).value, k - 1);
    }
  }

  function StemMarkers(p: Path): nat {
    MarkerCount(Stem(p))
  }

  lemma UnwindBound(p: Path, k: nat)
    requires Unwind(p, k).Some?
    ensures k <= MarkerCount(Stem(p))
  {
    forall x | ConflictFileBaseName(x).Some?
      ensures StemMarkers(ConflictFileBaseName(x).value) + 1 == StemMarkers(x)
    {
      BaseNameDropsOneMarker(x);
    }
    IterateBound(ConflictFileBaseName, StemMarkers, p, k);
  }

  /** A copy nested `|tags|` levels deep over a marker-free base takes
      exactly `|tags|` parses to get back to the base: every intermediate
      name is still a conflict copy, and the base is not. */
  lemma {:induction false} NestedCopiesUnwind(base: Path, tags: seq<Tags>)
    requires base != ""
    requires forall i :: 0 <= i < |tags| ==> TagsOk(tags[i].actor, tags[i].disc)
    ensures Unwind(Nest(base, tags), |tags|) == Some(base)
  {
    if |tags| > 0 {
      var init := tags[..|tags| - 1];
      NestedCopiesUnwind(base, init);
      NestStep(base, tags);
      IterateStep(ConflictFileBaseName, Nest(base, tags), Nest(base, init), |init|);
    }
  }

  /** ... carries one marker more per level ... */
  lemma {:induction false} NestedCopiesMarkers(base: Path, tags: seq<Tags>)
    requires base != ""
    requires forall i :: 0 <= i < |tags| ==> TagsOk(tags[i].actor, tags[i].disc)
    ensures MarkerCount(Stem(Nest(base, tags))) == MarkerCount(Stem(base)) + |tags|
  {
    if |tags| > 0 {
      NestedCopiesMarkers(base, tags[..|tags| - 1]);
      NestStep(base, tags);
    }
  }

  /** ... and every level of it is itself a conflict copy. */
  lemma NestedCopiesAreCopies(base: Path, tags: seq<Tags>)
    requires base != ""
    requires forall i :: 0 <= i < |tags| ==> TagsOk(tags[i].actor, tags[i].disc)
    ensures forall j :: 0 < j <= |tags| ==> ConflictFileBaseName(Nest(base, tags[..j])).Some?
  {
    forall j | 0 < j <= |tags|
      ensures ConflictFileBaseName(Nest(base, tags[..j])).Some?
    {
      NestStep(base, tags[..j]);
    }
  }

  /** One level of nesting is one parse and one marker. */
  lemma NestStep(base: Path, tags: seq<Tags>)
    requires base != ""
    requires |tags| > 0
    requires TagsOk(tags[|tags| - 1].actor, tags[|tags| - 1].disc)
    ensures ConflictFileBaseName(Nest(base, tags)) == Some(Nest(base, tags[..|tags| - 1]))
    ensures MarkerCount(Stem(Nest(base, tags))) == MarkerCount(Stem(Nest(base, tags[..|tags| - 1]))) + 1
  {
    BaseNameDropsOneMarker(Nest(base, tags));
  }

  /** ... and one parse more finds no base. */
  lemma NestedCopiesNeedExactlyK(base: Path, tags: seq<Tags>)
    requires base != ""
    requires MarkerFree(Stem(base))
    requires forall i :: 0 <= i < |tags| ==> TagsOk(tags[i].actor, tags[i].disc)
    ensures Unwind(Nest(base, tags), |tags|) == Some(base)
    ensures Unwind(Nest(base, tags), |tags| + 1) == None
  {
    NestedCopiesUnwind(base, tags);
    MarkerFreeHasNoBase(base);
    IterateThenOne(ConflictFileBaseName, Nest(base, tags), |tags|);
  }

}
