/** The helpers the conflict tests use to inspect a run: looking up the
    item reported for a path, listing a directory's conflict files, and
    removing the conflict copy of a file from the local replica. */
module TestHelpers {
  import opened Wrappers
  import opened Paths
  import opened Sync

  // ---------------------------------------------------------------------
  // First match in a sequence

  /** Index of the first element satisfying `f`, or -1 when none does. */
  function FirstIndex<T>(xs: seq<T>, f: T -> bool): (k: int)
    ensures -1 <= k < |xs|
    ensures 0 <= k ==> f(xs[k])
    ensures forall j :: 0 <= j < |xs| && (k < 0 || j < k) ==> !f(xs[j])
  {
    if |xs| == 0 then -1
    else if f(xs[0]) then 0
    else
      var k := FirstIndex(xs[1..], f);
      assert forall j :: 1 <= j < |xs| ==> xs[j] == xs[1..][j - 1];
      if k < 0 then -1 else k + 1
  }

  function First<T>(xs: seq<T>, f: T -> bool): Option<T> {
    var k := FirstIndex(xs, f);
    if k < 0 then None else Some(xs[k])
  }

  // ---------------------------------------------------------------------
  // Reported items

  /** The first item reported for `path`. Where the source hands back a
      blank item when nothing matches, this returns None. */
  function FindItem(items: seq<SyncFileItem>, path: Path): (r: Option<SyncFileItem>)
    ensures r.None? <==> forall i :: 0 <= i < |items| ==> items[i].destination != path
    ensures r.Some? ==> r.value in items && r.value.destination == path
    ensures r.Some? ==> exists k :: FirstFor(items, path, k) && items[k] == r.value
  {
    First(items, (x: SyncFileItem) => x.destination == path)
  }

  /** `k` is the position of the first item reported for `path`. */
  predicate FirstFor(items: seq<SyncFileItem>, path: Path, k: int) {
    && 0 <= k < |items| && items[k].destination == path
    && forall j :: 0 <= j < k ==> items[j].destination != path
  }

  /** The first item for `path` succeeded with instruction `instr`; false
      when there is no item for `path`, as a blank item has no status. */
  function ItemSuccessful(items: seq<SyncFileItem>, path: Path, instr: Instruction): (b: bool)
    ensures b <==> exists k :: FirstFor(items, path, k)
                     && items[k].status == Success && items[k].instruction == instr
  {
    match FindItem(items, path)
    case None => false
    case Some(x) => FirstIsUnique(items, path); x.status == Success && x.instruction == instr
  }

  /** The first item for `path` is a conflict; false when there is none. */
  function ItemConflict(items: seq<SyncFileItem>, path: Path): (b: bool)
    ensures b <==> exists k :: FirstFor(items, path, k)
                     && items[k].status == ConflictStatus && items[k].instruction == InstructionConflict
  {
    match FindItem(items, path)
    case None => false
    case Some(x) => FirstIsUnique(items, path); x.status == ConflictStatus && x.instruction == InstructionConflict
  }

  /** There is at most one first item for a path. */
  lemma FirstIsUnique(items: seq<SyncFileItem>, path: Path)
    ensures forall k, k' :: FirstFor(items, path, k) && FirstFor(items, path, k') ==> k == k'
  {
  }

  /** `items` lists exactly what the run reports, in some order. */
  predicate Enumerates(items: seq<SyncFileItem>, s: Replicas, upload: bool) {
    && (forall i :: 0 <= i < |items| ==> items[i] in Items(s, upload))
    && (forall x :: x in Items(s, upload) ==> x in items)
  }

  /** Looking the run's items up by path finds the item the run reports
      for that path. */
  lemma FindItemOfRun(items: seq<SyncFileItem>, s: Replicas, upload: bool, p: Path)
    requires Enumerates(items, s, upload)
    ensures FindItem(items, p) == ItemOf(s, upload, p)
  {
    var r := FindItem(items, p);
    ReportedIsListed(items, s, upload, p);
    if r.Some? {
      ItemsByPath(s, upload, r.value);
    }
  }

  /** The item the run reports for `p`, if any, is in the listing. */
  lemma ReportedIsListed(items: seq<SyncFileItem>, s: Replicas, upload: bool, p: Path)
    requires Enumerates(items, s, upload)
    ensures ItemOf(s, upload, p).Some? ==>
      && ItemOf(s, upload, p).value.destination == p
      && exists i :: 0 <= i < |items| && items[i] == ItemOf(s, upload, p).value
  {
    ItemOfKnown(s, upload, p);
    if ItemOf(s, upload, p).Some? {
      assert ItemOf(s, upload, p).value in Items(s, upload);
    }
  }

  /** The conflict check holds exactly for the paths in conflict. */
  lemma ItemConflictIff(items: seq<SyncFileItem>, s: Replicas, upload: bool, p: Path)
    requires Enumerates(items, s, upload)
    ensures ItemConflict(items, p) <==> p in Conflicts(s, upload)
  {
    FindItemOfRun(items, s, upload, p);
    ConflictItemOf(s, upload, p);
  }

  /** A path reported successful was propagated or found converged, and
      a propagated path is reported successful with its instruction. */
  lemma ItemSuccessfulIff(items: seq<SyncFileItem>, s: Replicas, upload: bool, p: Path)
    requires Enumerates(items, s, upload)
    ensures (exists instr :: ItemSuccessful(items, p, instr))
        <==> Decide(s, upload, p) in {Converged, ToRemote, ToLocal}
  {
    FindItemOfRun(items, s, upload, p);
    if Decide(s, upload, p) in {Converged, ToRemote, ToLocal} {
      assert ItemSuccessful(items, p, ItemOf(s, upload, p).value.instruction);
    }
  }

  // ---------------------------------------------------------------------
  // Directory listings

  /** A node of a listed tree: its name, its parent's path and its
      children in listing order. */
  datatype FileInfo = FileInfo(name: string, parentPath: Path, children: seq<FileInfo>)

  function PathOf(x: FileInfo): Path {
    Join(x.parentPath, x.name)
  }

  /** The non-empty components of a path, outermost first. */
  function Components(p: Path): seq<string>
    decreases |p|
  {
    if p == "" then []
    else
      var rest := Components(DirName(p));
      if FileName(p) == "" then rest else rest + [FileName(p)]
  }

  /** A child's components are its parent's followed by its own name. */
  lemma ComponentsOfJoin(dir: Path, name: string)
    requires '/' !in name && name != ""
    ensures Components(Join(dir, name)) == Components(dir) + [name]
  {
    JoinSplits(dir, name);
    if dir == "" {
      assert DirName(Join(dir, name)) == "";
    }
  }

  /** The node reached from `node` by following `comps`, if any. */
  function Find(node: FileInfo, comps: seq<string>): Option<FileInfo>
    decreases |comps|
  {
    if |comps| == 0 then Some(node)
    else
      match First(node.children, (c: FileInfo) => c.name == comps[0])
      case None => None
      case Some(c) => Find(c, comps[1..])
  }

  /** The paths of `dir`'s children whose name contains "conflict", in
      listing order. */
  function FindConflicts(dir: FileInfo): (r: seq<Path>)
    ensures |r| <= |dir.children|
    ensures forall x :: x in r <==>
      exists c :: c in dir.children && Contains(c.name, "conflict") && x == PathOf(c)
  {
    ConflictsAmong(dir.children)
  }

  function ConflictsAmong(kids: seq<FileInfo>): (r: seq<Path>)
    ensures |r| <= |kids|
    ensures forall x :: x in r ==> exists c :: c in kids && Contains(c.name, "conflict") && x == PathOf(c)
    ensures forall c :: c in kids && Contains(c.name, "conflict") ==> PathOf(c) in r
  {
    if |kids| == 0 then []
    else
      var c := kids[0];
      var rest := ConflictsAmong(kids[1..]);
      assert forall d :: d in kids[1..] ==> d in kids;
      assert forall d :: d in kids ==> d == c || d in kids[1..];
      (if Contains(c.name, "conflict") then [PathOf(c)] else []) + rest
  }

  /** Listing two runs of children one after the other lists their
      conflict files one after the other. */
  lemma {:induction false} ConflictsAmongAppend(a: seq<FileInfo>, b: seq<FileInfo>)
    ensures ConflictsAmong(a + b) == ConflictsAmong(a) + ConflictsAmong(b)
  {
    if |a| > 0 {
      assert (a + b)[1..] == a[1..] + b;
      ConflictsAmongAppend(a[1..], b);
    } else {
      assert a + b == b;
    }
  }

  // ---------------------------------------------------------------------
  // Wiping a conflict copy

  /** `path` or a descendant of it is in `t`. */
  predicate InTree(t: Tree, path: Path) {
    path in t || exists q :: q in t && StartsWith(q, path + "/")
  }

  /** The local tree without `path` and everything below it. */
  function RemovePath(t: Tree, path: Path): Tree {
    map q | q in t && q != path && !StartsWith(q, path + "/") :: t[q]
  }

  /** `dir` lists the directory `dirPath` of `t`: each child is a path of
      `t` (or a directory of paths of `t`) right below `dirPath`, and each
      file right below `dirPath` appears among the children. */
  predicate ListsDir(dir: FileInfo, dirPath: Path, t: Tree) {
    && (forall c :: c in dir.children ==>
          && c.parentPath == dirPath && '/' !in c.name && c.name != ""
          && InTree(t, Join(dirPath, c.name)))
    && (forall q :: q in t && q == Join(dirPath, FileName(q)) ==>
          exists c :: c in dir.children && c.name == FileName(q))
  }

  /** The name of a conflict copy of the file called `fileName`, as the
      wipe recognises it. */
  predicate CopyNameOf(name: string, fileName: string) {
    StartsWith(name, fileName) && Contains(name, "_conflict")
  }

  /** `k` is the position of the first child of `kids` that is a conflict
      copy of the file called `f`. */
  predicate FirstCopy(kids: seq<FileInfo>, f: string, k: int) {
    && 0 <= k < |kids| && CopyNameOf(kids[k].name, f)
    && forall j :: 0 <= j < k ==> !CopyNameOf(kids[j].name, f)
  }

  /** Removes the first conflict copy of `path` listed in `state` from
      `local`; false, and nothing removed, when the parent directory is
      not listed or holds no such copy. */
  function ExpectAndWipeConflict(local: Tree, state: FileInfo, path: Path): (r: (bool, Tree))
    ensures !r.0 ==> r.1 == local
    ensures var d := Find(state, Components(DirName(path)));
      r.0 <==> d.Some? && exists c :: c in d.value.children && CopyNameOf(c.name, FileName(path))
    ensures r.0 ==> var kids := Find(state, Components(DirName(path))).value.children;
      exists k :: FirstCopy(kids, FileName(path), k) && r.1 == RemovePath(local, PathOf(kids[k]))
  {
    match Find(state, Components(DirName(path)))
    case None => (false, local)
    case Some(dir) =>
      var k := FirstIndex(dir.children, (c: FileInfo) => CopyNameOf(c.name, FileName(path)));
      if k < 0 then (false, local)
      else
        assert FirstCopy(dir.children, FileName(path), k);
        (true, RemovePath(local, PathOf(dir.children[k])))
  }

  /** After the removal nothing is left at or below `path`, and removing
      a path the tree does not hold changes nothing. */
  lemma RemovePathGone(t: Tree, path: Path)
    ensures !InTree(RemovePath(t, path), path)
    ensures !InTree(t, path) ==> RemovePath(t, path) == t
  {
  }

  /** The children of a listing, without those called `name`. */
  function DropNamed(kids: seq<FileInfo>, name: string): (r: seq<FileInfo>)
    ensures |r| <= |kids|
    ensures forall c :: c in r <==> c in kids && c.name != name
  {
    if |kids| == 0 then []
    else
      var rest := DropNamed(kids[1..], name);
      assert forall c :: c in kids <==> c == kids[0] || c in kids[1..];
      (if kids[0].name == name then [] else [kids[0]]) + rest
  }

  /** Wiping a listed child keeps the listing true: the directory listed
      before, without the wiped child, lists the directory afterwards. */
  lemma WipeKeepsListing(dir: FileInfo, d: Path, t: Tree, c: FileInfo)
    requires ListsDir(dir, d, t)
    requires c in dir.children
    ensures ListsDir(FileInfo(dir.name, dir.parentPath, DropNamed(dir.children, c.name)),
                     d, RemovePath(t, Join(d, c.name)))
  {
    var gone := Join(d, c.name);
    var u := RemovePath(t, gone);
    var kids := DropNamed(dir.children, c.name);
    forall c' | c' in kids ensures InTree(u, Join(d, c'.name)) {
      var w := Join(d, c'.name);
      var q :| q in t && (q == w || StartsWith(q, w + "/"));
      SiblingsApart(d, c.name, c'.name, q);
      assert q in u;
    }
    forall q | q in u && q == Join(d, FileName(q))
      ensures exists c' :: c' in kids && c'.name == FileName(q)
    {
      var c' :| c' in dir.children && c'.name == FileName(q);
      assert c'.name != c.name;
      assert c' in kids;
    }
  }

  /** What lies at or below one child of `d` is neither another child nor
      below it. */
  lemma SiblingsApart(d: Path, m: string, m': string, q: Path)
    requires '/' !in m && '/' !in m' && m != "" && m' != "" && m != m'
    requires q == Join(d, m') || StartsWith(q, Join(d, m') + "/")
    ensures q != Join(d, m) && !StartsWith(q, Join(d, m) + "/")
  {
    var lead := if d == "" then "" else d + "/";
    var k := |lead|;
    assert Join(d, m) == lead + m && Join(d, m') == lead + m';
    if q == Join(d, m') {
      assert q[k..] == m';
      BelowIsNotSibling(d, m, m');
    } else {
      BelowIsNotSibling(d, m', m);
      assert q[..k + |m'| + 1] == lead + m' + "/";
      if |m| < |m'| {
        assert q[k + |m|] == m'[|m|] && m'[|m|] in m';
        assert (lead + m + "/")[k + |m|] == '/';
      } else if |m'| < |m| {
        assert q[k + |m'|] == '/' && m[|m'|] in m;
        assert (lead + m + "/")[k + |m'|] == m[|m'|];
      } else {
        assert q[k..k + |m'|] == m';
        assert (lead + m + "/")[k..k + |m|] == m;
      }
    }
  }

  /** When `copy` is the only path of `local` at or below `path` whose
      name carries the marker, and the directory listing shows it, the wipe
      succeeds and removes exactly it. */
  lemma WipeFindsOnlyCopy(local: Tree, state: FileInfo, dir: FileInfo, path: Path, copy: Path)
    requires Find(state, Components(DirName(path))) == Some(dir)
    requires ListsDir(dir, DirName(path), local)
    requires path == Join(DirName(path), FileName(path))
    requires copy in local && copy == Join(DirName(path), FileName(copy))
    requires '/' !in FileName(copy)
    requires CopyNameOf(FileName(copy), FileName(path))
    requires forall q :: q in local && StartsWith(q, path) && Contains(q, "_conflict") ==> q == copy
    ensures ExpectAndWipeConflict(local, state, path) == (true, RemovePath(local, copy))
  {
    var d, f := DirName(path), FileName(path);
    var match_ := (c: FileInfo) => CopyNameOf(c.name, f);
    var listed :| listed in dir.children && listed.name == FileName(copy);
    forall c | c in dir.children && match_(c) ensures PathOf(c) == copy {
      MatchIsCopy(local, dir, d, f, path, copy, c);
    }
    var k := FirstIndex(dir.children, match_);
    assert k >= 0 by {
      var i :| 0 <= i < |dir.children| && dir.children[i] == listed;
      assert match_(dir.children[i]);
    }
    assert dir.children[k] in dir.children;
  }

  lemma MatchIsCopy(local: Tree, dir: FileInfo, d: Path, f: string, path: Path, copy: Path, c: FileInfo)
    requires ListsDir(dir, d, local)
    requires path == Join(d, f)
    requires copy == Join(d, FileName(copy)) && '/' !in FileName(copy)
    requires forall q :: q in local && StartsWith(q, path) && Contains(q, "_conflict") ==> q == copy
    requires c in dir.children && CopyNameOf(c.name, f)
    ensures PathOf(c) == copy
  {
    var cp := Join(d, c.name);
    JoinStartsWith(d, c.name, f);
    ContainsJoin(d, c.name, "_conflict");
    if cp in local {
      StartsWithSelf(cp);
      ContainsPrefix(cp, cp, "_conflict");
    } else {
      var q :| q in local && StartsWith(q, cp + "/");
      BelowMarked(q, cp, path);
      BelowIsNotSibling(d, c.name, FileName(copy));
    }
  }

  lemma BelowMarked(q: Path, cp: Path, path: Path)
    requires StartsWith(q, cp + "/")
    requires StartsWith(cp, path)
    requires Contains(cp, "_conflict")
    ensures StartsWith(q, path) && Contains(q, "_conflict")
  {
    StartsWithTrans(q, cp + "/", cp);
    StartsWithTrans(q, cp, path);
    ContainsPrefix(q, cp, "_conflict");
  }

  /** A file right below `d` is never strictly below a sibling `d/m`. */
  lemma BelowIsNotSibling(d: Path, m: string, g: string)
    requires '/' !in g
    requires m != ""
    ensures !StartsWith(Join(d, g), Join(d, m) + "/")
  {
    var lead := |Join(d, m)| - |m|;
    var k := |Join(d, m)|;
    assert Join(d, g)[lead..] == g;
    if k < |Join(d, g)| {
      assert Join(d, g)[k] == g[k - lead];
    }
  }
}
