/** The three conflict scenarios, run on the model: both sides edit the
    same files without and with the upload capability, and a conflict copy
    that reaches the remote in a later run than the one that made it.

    The starting tree `T` is the test fixture, kept abstract: it holds
    `A/a1` and `A/a2` and no path of it carries the marker. */
module Scenarios {
  import opened Wrappers
  import opened Paths
  import opened ConflictName
  import opened Sync
  import opened TestHelpers
  import ConflictNameTable

  // ---------------------------------------------------------------------
  // The fixture and the edits the tests make

  const A1: Path := "A/a1"
  const A2: Path := "A/a2"

  predicate Fixture(t: Tree) {
    && A1 in t && A2 in t && "" !in t
    && forall q :: q in t ==> !Contains(q, "_conflict")
  }

  /** Overwrite every byte of the file with `ch`, keeping its size. */
  function SetContents(t: Tree, p: Path, ch: char): Tree
    requires p in t
  {
    t[p := Content(ch, t[p].size)]
  }

  /** Append one byte to the file. */
  function AppendByte(t: Tree, p: Path): Tree
    requires p in t
  {
    t[p := Content(t[p].ch, t[p].size + 1)]
  }

  /** Create the file with `size` bytes of `ch`. */
  function Insert(t: Tree, p: Path, size: nat, ch: char): Tree {
    t[p := Content(ch, size)]
  }

  function Synced(t: Tree): Replicas {
    Replicas(t, t, t)
  }

  /** A path without the marker is no conflict copy. */
  lemma UnmarkedHasNoBase(q: Path)
    requires !Contains(q, "_conflict")
    ensures ConflictFileBaseName(q).None?
  {
    if !MarkerFree(Stem(q)) {
      var i :| 0 <= i <= |Stem(q)| - |Marker| && MarkerAt(Stem(q), i);
      var st := Stem(q);
      assert st == st[..i] + Marker + st[i + |Marker|..];
      ContainsSelf(Marker);
      ContainsInfix(st[..i], Marker, st[i + |Marker|..], Marker);
      PartsOfPath(q);
      ContainsInfix(DirPrefix(q), st, Extension(q), Marker);
      assert false;
    }
    NoBaseIff(q);
  }

  /** Every conflict copy carries the marker. */
  lemma CopyIsMarked(p: Path, n: Tags)
    ensures Contains(Copy(p, n), "_conflict")
  {
    ContainsSelf(Marker);
    ContainsInfix(Stem(p), Marker, TagTail(n.actor, n.disc), Marker);
    ContainsInfix(DirPrefix(p), Stem(p) + Marker + TagTail(n.actor, n.disc), Extension(p), Marker);
  }

  // ---------------------------------------------------------------------
  // Both sides edit two files

  /** Locally `a` is overwritten with `L` and `b` grows by one byte;
      remotely `a` is overwritten with `R` and `b` grows by two. The tests
      do this to A/a1 and A/a2. */
  function Diverged(t: Tree, a: Path, b: Path): Replicas
    requires a in t && b in t
  {
    Replicas(
      AppendByte(SetContents(t, a, 'L'), b),
      AppendByte(AppendByte(SetContents(t, a, 'R'), b), b),
      t)
  }

  /** The edit of two files with nothing conflict-named around them. */
  predicate DivergedOk(t: Tree, a: Path, b: Path) {
    && a in t && b in t && a != b && "" !in t
    && t[a].ch != 'L' && t[a].ch != 'R'
    && forall q :: q in t ==> !Contains(q, "_conflict")
  }

  /** The edits leave `a` and `b`, and nothing else, in conflict. */
  lemma DivergedConflicts(t: Tree, a: Path, b: Path, upload: bool)
    requires DivergedOk(t, a, b)
    ensures AllPaths(Diverged(t, a, b)) == t.Keys
    ensures Conflicts(Diverged(t, a, b), upload) == {a, b}
  {
    DivergedPaths(t, a, b);
    DivergedDecide(t, a, b, upload);
    ConflictsArePair(Diverged(t, a, b), upload, a, b);
  }

  lemma DivergedDecide(t: Tree, a: Path, b: Path, upload: bool)
    requires DivergedOk(t, a, b)
    ensures forall q :: q in t ==>
      (Decide(Diverged(t, a, b), upload, q) == Conflict <==> q == a || q == b)
  {
    forall q | q in t
      ensures Decide(Diverged(t, a, b), upload, q) == Conflict <==> q == a || q == b
    {
      DivergedAt(t, a, b, upload, q);
    }
  }

  lemma DivergedAt(t: Tree, a: Path, b: Path, upload: bool, q: Path)
    requires a in t && b in t && a != b
    requires t[a].ch != 'L' && t[a].ch != 'R'
    requires q in t && !Contains(q, "_conflict")
    ensures Decide(Diverged(t, a, b), upload, q) == Conflict <==> q == a || q == b
  {
    var s := Diverged(t, a, b);
    UnmarkedHasNoBase(q);
    if q != a && q != b {
      assert Get(s.local, q) == Get(t, q) && Get(s.remote, q) == Get(t, q);
    }
  }

  lemma DivergedPaths(t: Tree, a: Path, b: Path)
    requires a in t && b in t
    ensures AllPaths(Diverged(t, a, b)) == t.Keys
  {
  }

  /** The run's copies are fresh when the fixture carries no marker. */
  lemma FixtureCopiesFresh(s: Replicas, upload: bool, n: Tags)
    requires forall q :: q in AllPaths(s) ==> !Contains(q, "_conflict")
    requires "" !in AllPaths(s)
    requires TagsOk(n.actor, n.disc)
    ensures Fresh(s, upload, n)
  {
    forall p | p in Conflicts(s, upload) ensures Copy(p, n) !in AllPaths(s) {
      CopyIsMarked(p, n);
    }
  }

  /** No path of the edited replicas is conflict-named. */
  lemma DivergedUnmarked(t: Tree, a: Path, b: Path)
    requires DivergedOk(t, a, b)
    ensures forall q :: q in AllPaths(Diverged(t, a, b)) ==> !Contains(q, "_conflict")
    ensures forall q :: q in AllPaths(Diverged(t, a, b)) ==> ConflictFileBaseName(q).None?
  {
    DivergedPaths(t, a, b);
    forall q | q in AllPaths(Diverged(t, a, b)) ensures ConflictFileBaseName(q).None? {
      UnmarkedHasNoBase(q);
    }
  }

  /** With the capability: both replicas end up equal, and exactly two
      uploads are tagged, one per conflicting file with its copy. */
  lemma UploadAfterDownloadTags(t: Tree, a: Path, b: Path, n: Tags)
    requires DivergedOk(t, a, b)
    requires TagsOk(n.actor, n.disc)
    ensures Run(Diverged(t, a, b), true, n).after.local == Run(Diverged(t, a, b), true, n).after.remote
    ensures TaggedPuts(Run(Diverged(t, a, b), true, n).puts)
         == {Put(Copy(a, n), Some(a)), Put(Copy(b, n), Some(b))}
    ensures ConflictFileBaseName(Copy(a, n)) == Some(a)
  {
    var s := Diverged(t, a, b);
    DivergedConflicts(t, a, b, true);
    DivergedUnmarked(t, a, b);
    FixtureCopiesFresh(s, true, n);
    UploadConverges(s, n);
    OnlyCopiesTagged(s, n);
    CopyPutsOfPair(a, b, n);
  }

  lemma CopyPutsOfPair(a: Path, b: Path, n: Tags)
    ensures CopyPuts({a, b}, n) == {Put(Copy(a, n), Some(a)), Put(Copy(b, n), Some(b))}
  {
  }

  /** ... the copies hold the local edits and the original paths the
      remote ones. */
  lemma UploadAfterDownloadContents(t: Tree, a: Path, b: Path, n: Tags)
    requires DivergedOk(t, a, b)
    requires TagsOk(n.actor, n.disc)
    ensures var remote := Run(Diverged(t, a, b), true, n).after.remote;
      && Copy(a, n) in remote && remote[Copy(a, n)].ch == 'L'
      && a in remote && remote[a].ch == 'R'
      && Copy(b, n) in remote && remote[Copy(b, n)].size == t[b].size + 1
      && b in remote && remote[b].size == t[b].size + 2
  {
    var s := Diverged(t, a, b);
    DivergedConflicts(t, a, b, true);
    DivergedUnmarked(t, a, b);
    FixtureCopiesFresh(s, true, n);
    ConflictResolution(s, true, n, a);
    ConflictResolution(s, true, n, b);
  }

  /** The upload-after-download test on the fixture. */
  lemma TestUploadAfterDownload(t: Tree, n: Tags)
    requires Fixture(t)
    requires t[A1].ch != 'L' && t[A1].ch != 'R'
    requires TagsOk(n.actor, n.disc)
    ensures var r := Run(Diverged(t, A1, A2), true, n);
      && r.after.local == r.after.remote
      && TaggedPuts(r.puts) == {Put(Copy(A1, n), Some(A1)), Put(Copy(A2, n), Some(A2))}
      && ConflictFileBaseName(Copy(A1, n)) == Some(A1)
      && Copy(A1, n) in r.after.remote && r.after.remote[Copy(A1, n)].ch == 'L'
      && A1 in r.after.remote && r.after.remote[A1].ch == 'R'
      && Copy(A2, n) in r.after.remote && r.after.remote[Copy(A2, n)].size == t[A2].size + 1
      && A2 in r.after.remote && r.after.remote[A2].size == t[A2].size + 2
  {
    assert A1 != A2 by {
      assert A1[3] != A2[3];
    }
    UploadAfterDownloadTags(t, A1, A2, n);
    UploadAfterDownloadContents(t, A1, A2, n);
  }

  // ---------------------------------------------------------------------
  // Without the capability

  /** A copy made by the run carries the marker. */
  lemma SourcedIsMarked(s: Replicas, upload: bool, n: Tags, q: Path)
    ensures CopySource(s, upload, n, q).Some? ==> Contains(q, "_conflict")
  {
    if CopySource(s, upload, n, q).Some? {
      CopyIsMarked(CopySource(s, upload, n, q).value, n);
    }
  }

  /** Path by path, a run without the capability over replicas where
      only `a` and `b` conflict and nothing carries the marker: the marked
      local paths are the two copies, the remote has no marked path, and
      elsewhere the replicas agree. */
  lemma NoUploadAt(s: Replicas, a: Path, b: Path, n: Tags, q: Path)
    requires Conflicts(s, false) == {a, b}
    requires forall p :: p in AllPaths(s) ==> !Contains(p, "_conflict")
    ensures var r := Run(s, false, n).after;
      && (q in r.local && Contains(q, "_conflict") ==> q == Copy(a, n) || q == Copy(b, n))
      && (q in r.remote ==> !Contains(q, "_conflict"))
      && (!Contains(q, "_conflict") ==> Get(r.local, q) == Get(r.remote, q))
  {
    RunAt(s, false, n, q);
    NoUploadMarkedAt(s, a, b, n, q);
    if !Contains(q, "_conflict") {
      NoUploadUnmarkedAt(s, n, q);
    }
  }

  lemma NoUploadMarkedAt(s: Replicas, a: Path, b: Path, n: Tags, q: Path)
    requires Conflicts(s, false) == {a, b}
    requires forall p :: p in AllPaths(s) ==> !Contains(p, "_conflict")
    ensures LocalAfter(s, false, n, q).Some? && Contains(q, "_conflict") ==> q == Copy(a, n) || q == Copy(b, n)
    ensures RemoteAfter(s, false, n, q).Some? ==> !Contains(q, "_conflict")
  {
    if q !in AllPaths(s) {
      CopiedFrom(s, a, b, n, q);
    }
  }

  lemma CopiedFrom(s: Replicas, a: Path, b: Path, n: Tags, q: Path)
    requires Conflicts(s, false) == {a, b}
    requires q !in AllPaths(s)
    ensures LocalAfter(s, false, n, q).Some? ==> q == Copy(a, n) || q == Copy(b, n)
    ensures RemoteAfter(s, false, n, q).None?
  {
    var src := CopySource(s, false, n, q);
    if src.Some? {
      assert src.value in Conflicts(s, false);
    }
  }

  lemma NoUploadUnmarkedAt(s: Replicas, n: Tags, q: Path)
    requires forall p :: p in AllPaths(s) ==> !Contains(p, "_conflict")
    requires !Contains(q, "_conflict")
    ensures LocalAfter(s, false, n, q) == RemoteAfter(s, false, n, q)
  {
    SourcedIsMarked(s, false, n, q);
    if q in AllPaths(s) {
      UnmarkedHasNoBase(q);
      AgreeAt(s, false, n, q);
    }
  }

  lemma NoUploadRun(t: Tree, a: Path, b: Path, n: Tags)
    requires DivergedOk(t, a, b)
    requires TagsOk(n.actor, n.disc)
    ensures var r := Run(Diverged(t, a, b), false, n).after;
      && Copy(a, n) in r.local && Copy(b, n) in r.local
      && (forall q :: q in r.local && Contains(q, "_conflict") ==> q == Copy(a, n) || q == Copy(b, n))
      && (forall q :: q in r.remote ==> !Contains(q, "_conflict"))
      && (forall q :: !Contains(q, "_conflict") ==> Get(r.local, q) == Get(r.remote, q))
  {
    var s := Diverged(t, a, b);
    DivergedConflicts(t, a, b, false);
    DivergedUnmarked(t, a, b);
    FixtureCopiesFresh(s, false, n);
    ConflictResolution(s, false, n, a);
    ConflictResolution(s, false, n, b);
    forall q ensures var r := Run(s, false, n).after;
      && (q in r.local && Contains(q, "_conflict") ==> q == Copy(a, n) || q == Copy(b, n))
      && (q in r.remote ==> !Contains(q, "_conflict"))
      && (!Contains(q, "_conflict") ==> Get(r.local, q) == Get(r.remote, q))
    {
      NoUploadAt(s, a, b, n, q);
    }
  }

  /** Whatever order the listings give, wiping the two copies of the
      test's two files leaves exactly the remote tree. */
  lemma WipeTwoCopies(local: Tree, remote: Tree, p1: Path, c1: Path, p2: Path, c2: Path,
                      state1: FileInfo, dir1: FileInfo, state2: FileInfo, dir2: FileInfo)
    requires c1 in local && c2 in local
    requires Contains(c1, "_conflict") && Contains(c2, "_conflict")
    requires forall q :: q in local && Contains(q, "_conflict") ==> q == c1 || q == c2
    requires forall q :: q in remote ==> !Contains(q, "_conflict")
    requires forall q :: !Contains(q, "_conflict") ==> Get(local, q) == Get(remote, q)
    requires !StartsWith(c2, p1) && c1 != c2 && !StartsWith(c2, c1 + "/")
    requires p1 == Join(DirName(p1), FileName(p1)) && p2 == Join(DirName(p2), FileName(p2))
    requires c1 == Join(DirName(p1), FileName(c1)) && '/' !in FileName(c1)
    requires c2 == Join(DirName(p2), FileName(c2)) && '/' !in FileName(c2)
    requires CopyNameOf(FileName(c1), FileName(p1)) && CopyNameOf(FileName(c2), FileName(p2))
    requires Find(state1, Components(DirName(p1))) == Some(dir1)
    requires ListsDir(dir1, DirName(p1), local)
    requires Find(state2, Components(DirName(p2))) == Some(dir2)
    requires ListsDir(dir2, DirName(p2), RemovePath(local, c1))
    ensures ExpectAndWipeConflict(local, state1, p1) == (true, RemovePath(local, c1))
    ensures ExpectAndWipeConflict(RemovePath(local, c1), state2, p2) == (true, RemovePath(RemovePath(local, c1), c2))
    ensures RemovePath(RemovePath(local, c1), c2) == remote
  {
    WipeFindsOnlyCopy(local, state1, dir1, p1, c1);
    var local3 := RemovePath(local, c1);
    assert c2 in local3;
    WipeFindsOnlyCopy(local3, state2, dir2, p2, c2);
    WipedIsRemote(local, remote, c1, c2);
  }

  /** Removing the two marked paths leaves what the remote holds. */
  lemma WipedIsRemote(local: Tree, remote: Tree, c1: Path, c2: Path)
    requires Contains(c1, "_conflict") && Contains(c2, "_conflict")
    requires forall q :: q in local && Contains(q, "_conflict") ==> q == c1 || q == c2
    requires forall q :: q in remote ==> !Contains(q, "_conflict")
    requires forall q :: !Contains(q, "_conflict") ==> Get(local, q) == Get(remote, q)
    ensures RemovePath(RemovePath(local, c1), c2) == remote
  {
    var last := RemovePath(RemovePath(local, c1), c2);
    forall q ensures Get(last, q) == Get(remote, q) {
      if !Contains(q, "_conflict") {
        NotBelowMarked(q, c1);
        NotBelowMarked(q, c2);
      }
    }
    TreeExt(last, remote);
  }

  /** An unmarked path lies below no marked one. */
  lemma NotBelowMarked(q: Path, c: Path)
    requires !Contains(q, "_conflict")
    requires Contains(c, "_conflict")
    ensures q != c && !StartsWith(q, c + "/")
  {
    ContainsInfix("", c, "/", "_conflict");
    assert "" + c + "/" == c + "/";
    if StartsWith(q, c + "/") {
      ContainsPrefix(q, c + "/", "_conflict");
    }
  }

  // ---------------------------------------------------------------------
  // The fixture's names

  /** `A/a1` and `A/a2` split into the directory `A` and their own name,
      with an empty extension. */
  lemma FileInA(x: string)
    requires x == "a1" || x == "a2"
    ensures "A/" + x == Join("A", x)
    ensures DirName("A/" + x) == "A" && FileName("A/" + x) == x
    ensures DirPrefix("A/" + x) == "A/" && Stem("A/" + x) == x && Extension("A/" + x) == ""
  {
    JoinSplits("A", x);
    assert "A/" + x == "A/" + x + "";
    SplitOfParts("A/", x, "");
  }

  /** The copy of `A/x` sits next to it, under a name the wipe recognises
      as a copy of `x`. */
  lemma CopyInA(x: string, n: Tags)
    requires x == "a1" || x == "a2"
    requires TagsOk(n.actor, n.disc)
    ensures var f := x + Marker + TagTail(n.actor, n.disc);
      && Copy("A/" + x, n) == Join("A", f)
      && DirName(Copy("A/" + x, n)) == "A" && FileName(Copy("A/" + x, n)) == f
      && '/' !in f && CopyNameOf(f, x)
  {
    CopyOfAIs(x, n);
    NameInA(x, x + Marker + TagTail(n.actor, n.disc), TagTail(n.actor, n.disc));
  }

  /** The copy of `A/x` spelled out. */
  lemma CopyOfAIs(x: string, n: Tags)
    requires x == "a1" || x == "a2"
    ensures Copy("A/" + x, n) == "A/" + (x + Marker + TagTail(n.actor, n.disc))
  {
    FileInA(x);
    assert Copy("A/" + x, n) == "A/" + (x + Marker + TagTail(n.actor, n.disc)) + "";
  }

  lemma NameInA(x: string, f: string, tt: string)
    requires f == x + Marker + tt
    requires '/' !in x && '/' !in tt
    ensures "A/" + f == Join("A", f)
    ensures DirName("A/" + f) == "A" && FileName("A/" + f) == f
    ensures '/' !in f && CopyNameOf(f, x)
  {
    assert '/' !in Marker;
    JoinSplits("A", f);
    assert f[..|x|] == x;
    ContainsSelf(Marker);
    ContainsInfix(x, Marker, tt, Marker);
  }

  /** The directory `A` is reached by one step from the root. */
  lemma ComponentsOfA()
    ensures Components("A") == ["A"]
  {
    JoinSplits("", "A");
    assert Join("", "A") == "A";
  }

  /** The fourth character of the copy of `A/x` is the digit of `x`. */
  lemma CopyDigit(x: string, n: Tags)
    requires x == "a1" || x == "a2"
    requires TagsOk(n.actor, n.disc)
    ensures |Copy("A/" + x, n)| > 3 && Copy("A/" + x, n)[3] == x[1]
  {
    CopyInA(x, n);
    var f := x + Marker + TagTail(n.actor, n.disc);
    assert Copy("A/" + x, n) == "A/" + f;
    assert f[1] == x[1];
  }

  /** A string agrees with each of its prefixes index by index. */
  lemma PrefixAgrees(s: string, w: string, i: nat)
    requires i < |w|
    ensures StartsWith(s, w) ==> s[i] == w[i]
  {
    if StartsWith(s, w) {
      assert s[..|w|][i] == w[i];
    }
  }

  /** The two copies differ from each other and from the other file in
      the digit of the file name. */
  lemma CopiesApart(n: Tags)
    requires TagsOk(n.actor, n.disc)
    ensures Copy(A1, n) != Copy(A2, n)
    ensures !StartsWith(Copy(A2, n), A1)
    ensures !StartsWith(Copy(A2, n), Copy(A1, n) + "/")
  {
    assert A1 == "A/" + "a1" && A2 == "A/" + "a2";
    CopyDigit("a1", n);
    CopyDigit("a2", n);
    var c1, c2 := Copy(A1, n), Copy(A2, n);
    assert c1[3] == '1' && c2[3] == '2' && A1[3] == '1';
    PrefixAgrees(c2, A1, 3);
    assert (c1 + "/")[3] == '1';
    PrefixAgrees(c2, c1 + "/", 3);
  }

  // ---------------------------------------------------------------------
  // The no-upload test on the fixture

  /** Without the capability, after the run each of `a` and `b` has its
      copy locally; wiping the first copy listed for each leaves the local
      tree equal to the remote one. */
  lemma NoUploadWipes(t: Tree, a: Path, b: Path, n: Tags,
                      state1: FileInfo, dir1: FileInfo, state2: FileInfo, dir2: FileInfo)
    requires DivergedOk(t, a, b)
    requires TagsOk(n.actor, n.disc)
    requires !StartsWith(Copy(b, n), a) && Copy(a, n) != Copy(b, n) && !StartsWith(Copy(b, n), Copy(a, n) + "/")
    requires a == Join(DirName(a), FileName(a)) && b == Join(DirName(b), FileName(b))
    requires Copy(a, n) == Join(DirName(a), FileName(Copy(a, n))) && '/' !in FileName(Copy(a, n))
    requires Copy(b, n) == Join(DirName(b), FileName(Copy(b, n))) && '/' !in FileName(Copy(b, n))
    requires CopyNameOf(FileName(Copy(a, n)), FileName(a)) && CopyNameOf(FileName(Copy(b, n)), FileName(b))
    requires Find(state1, Components(DirName(a))) == Some(dir1)
    requires ListsDir(dir1, DirName(a), Run(Diverged(t, a, b), false, n).after.local)
    requires Find(state2, Components(DirName(b))) == Some(dir2)
    requires ListsDir(dir2, DirName(b), RemovePath(Run(Diverged(t, a, b), false, n).after.local, Copy(a, n)))
    ensures var r := Run(Diverged(t, a, b), false, n).after;
      var w1 := ExpectAndWipeConflict(r.local, state1, a);
      var w2 := ExpectAndWipeConflict(w1.1, state2, b);
      && w1.0 && w2.0 && w2.1 == r.remote
  {
    NoUploadRun(t, a, b, n);
    var r := Run(Diverged(t, a, b), false, n).after;
    CopyIsMarked(a, n);
    CopyIsMarked(b, n);
    WipeTwoCopies(r.local, r.remote, a, Copy(a, n), b, Copy(b, n), state1, dir1, state2, dir2);
  }

  /** The no-upload test on the fixture: both wipes succeed and leave the
      local tree equal to the remote one. */
  lemma TestNoUpload(t: Tree, n: Tags, state1: FileInfo, dir1: FileInfo, state2: FileInfo, dir2: FileInfo)
    requires Fixture(t)
    requires t[A1].ch != 'L' && t[A1].ch != 'R'
    requires TagsOk(n.actor, n.disc)
    requires Find(state1, ["A"]) == Some(dir1)
    requires ListsDir(dir1, "A", Run(Diverged(t, A1, A2), false, n).after.local)
    requires Find(state2, ["A"]) == Some(dir2)
    requires ListsDir(dir2, "A", RemovePath(Run(Diverged(t, A1, A2), false, n).after.local, Copy(A1, n)))
    ensures var r := Run(Diverged(t, A1, A2), false, n).after;
      var w1 := ExpectAndWipeConflict(r.local, state1, A1);
      var w2 := ExpectAndWipeConflict(w1.1, state2, A2);
      && w1.0 && w2.0 && w2.1 == r.remote
  {
    FixtureNames(n);
    assert A1 != A2 by {
      assert A1[3] != A2[3];
    }
    NoUploadWipes(t, A1, A2, n, state1, dir1, state2, dir2);
  }

  /** The name facts the wipes need, for the fixture's two files. */
  lemma FixtureNames(n: Tags)
    requires TagsOk(n.actor, n.disc)
    ensures !StartsWith(Copy(A2, n), A1) && Copy(A1, n) != Copy(A2, n) && !StartsWith(Copy(A2, n), Copy(A1, n) + "/")
    ensures A1 == Join(DirName(A1), FileName(A1)) && A2 == Join(DirName(A2), FileName(A2))
    ensures DirName(A1) == "A" && DirName(A2) == "A" && Components("A") == ["A"]
    ensures Copy(A1, n) == Join(DirName(A1), FileName(Copy(A1, n))) && '/' !in FileName(Copy(A1, n))
    ensures Copy(A2, n) == Join(DirName(A2), FileName(Copy(A2, n))) && '/' !in FileName(Copy(A2, n))
    ensures CopyNameOf(FileName(Copy(A1, n)), FileName(A1)) && CopyNameOf(FileName(Copy(A2, n)), FileName(A2))
  {
    assert A1 == "A/" + "a1" && A2 == "A/" + "a2";
    FileInA("a1");
    FileInA("a2");
    CopyInA("a1", n);
    CopyInA("a2", n);
    CopiesApart(n);
    ComponentsOfA();
  }

  // ---------------------------------------------------------------------
  // Runs that move changes one way only

  /** Only the local side changed: nothing is in conflict and the run
      leaves all three trees equal to the local one. */
  lemma UploadOnly(s: Replicas, n: Tags)
    requires s.remote == s.base
    ensures Conflicts(s, true) == {}
    ensures Run(s, true, n).after == Synced(s.local)
  {
    forall q | q in Conflicts(s, true) ensures false {
      ConflictsMember(s, true, q);
    }
    var a := Run(s, true, n).after;
    forall q ensures Get(a.local, q) == Get(s.local, q) {
      RunAt(s, true, n, q);
    }
    TreeExt(a.local, s.local);
    UploadConverges(s, n);
  }

  /** Only the remote side changed: nothing is uploaded and the run leaves
      all three trees equal to the remote one. */
  lemma DownloadOnly(s: Replicas, n: Tags)
    requires s.local == s.base
    ensures Run(s, true, n).puts == {}
    ensures Run(s, true, n).after == Synced(s.remote)
  {
    forall q | q in Conflicts(s, true) ensures false {
      ConflictsMember(s, true, q);
    }
    var r := Run(s, true, n);
    forall q ensures Get(r.after.remote, q) == Get(s.remote, q) {
      RunAt(s, true, n, q);
    }
    TreeExt(r.after.remote, s.remote);
    UploadConverges(s, n);
    forall x | x in r.puts ensures false {
      PutsAreTagged(s, true, n, x);
    }
  }

  /** When the local side changed one conflict-named file and nothing else,
      the run's only tagged upload is that file, tagged with its base. */
  lemma UploadOnlyTags(s: Replicas, n: Tags, c: Path)
    requires s.remote == s.base
    requires c in s.local && Get(s.local, c) != Get(s.base, c)
    requires ConflictFileBaseName(c).Some?
    requires forall q :: q != c ==> Get(s.local, q) == Get(s.base, q)
    ensures TaggedPuts(Run(s, true, n).puts) == {Put(c, ConflictFileBaseName(c))}
  {
    var r := Run(s, true, n);
    RunAt(s, true, n, c);
    forall x | x in TaggedPuts(r.puts) ensures x == Put(c, ConflictFileBaseName(c)) {
      PutsAreTagged(s, true, n, x);
      UploadOnly(s, n);
    }
  }

  // ---------------------------------------------------------------------
  // A conflict on one file

  /** Both sides changed `c`, differently, and nothing else: the remote
      content stays at `c`, the local content lands in its copy on both
      sides, and the copy's upload is the run's only tagged one. */
  lemma SingleConflict(s: Replicas, n: Tags, c: Path)
    requires c != ""
    requires TagsOk(n.actor, n.disc)
    requires c in s.local && c in s.remote && c in s.base
    requires s.local[c] != s.remote[c] && s.local[c] != s.base[c] && s.remote[c] != s.base[c]
    requires forall q :: q != c ==> Get(s.local, q) == Get(s.base, q) && Get(s.remote, q) == Get(s.base, q)
    requires Copy(c, n) !in AllPaths(s)
    ensures Conflicts(s, true) == {c}
    ensures Run(s, true, n).after.local == Run(s, true, n).after.remote
    ensures Run(s, true, n).after.remote == s.remote[Copy(c, n) := s.local[c]]
    ensures TaggedPuts(Run(s, true, n).puts) == {Put(Copy(c, n), Some(c))}
  {
    SingleConflictIs(s, c);
    UploadConverges(s, n);
    SingleConflictRemote(s, n, c);
    SingleConflictTags(s, n, c);
  }

  lemma SingleConflictIs(s: Replicas, c: Path)
    requires c in s.local && c in s.remote && c in s.base
    requires s.local[c] != s.remote[c] && s.local[c] != s.base[c] && s.remote[c] != s.base[c]
    requires forall q :: q != c ==> Get(s.local, q) == Get(s.base, q) && Get(s.remote, q) == Get(s.base, q)
    ensures Conflicts(s, true) == {c}
  {
    forall q ensures q in Conflicts(s, true) <==> q == c {
      ConflictsMember(s, true, q);
    }
  }

  /** Only `c` changed, on both sides, and it is the run's one conflict;
      its copy's name is free. */
  ghost predicate OneConflict(s: Replicas, n: Tags, c: Path) {
    && TagsOk(n.actor, n.disc) && c != ""
    && Conflicts(s, true) == {c}
    && c in s.local
    && (forall q :: q != c ==> Get(s.local, q) == Get(s.base, q) && Get(s.remote, q) == Get(s.base, q))
    && Copy(c, n) !in AllPaths(s)
  }

  lemma SingleConflictRemote(s: Replicas, n: Tags, c: Path)
    requires OneConflict(s, n, c)
    ensures Run(s, true, n).after.remote == s.remote[Copy(c, n) := s.local[c]]
  {
    var a := Run(s, true, n).after;
    var want := s.remote[Copy(c, n) := s.local[c]];
    forall q ensures Get(a.remote, q) == Get(want, q) {
      SingleRemoteAt(s, n, c, q);
    }
    TreeExt(a.remote, want);
  }

  lemma SingleRemoteAt(s: Replicas, n: Tags, c: Path, q: Path)
    requires OneConflict(s, n, c)
    ensures Get(Run(s, true, n).after.remote, q) == Get(s.remote[Copy(c, n) := s.local[c]], q)
  {
    if q == c || q == Copy(c, n) {
      SingleRemoteAtConflict(s, n, c, q);
    } else if q in AllPaths(s) {
      SingleRemoteAtKnown(s, n, c, q);
    } else {
      SingleRemoteAtNew(s, n, c, q);
    }
  }

  lemma SingleRemoteAtConflict(s: Replicas, n: Tags, c: Path, q: Path)
    requires OneConflict(s, n, c)
    requires q == c || q == Copy(c, n)
    ensures Get(Run(s, true, n).after.remote, q) == Get(s.remote[Copy(c, n) := s.local[c]], q)
  {
    SingleFresh(s, n, c);
    ConflictResolution(s, true, n, c);
  }

  lemma SingleRemoteAtKnown(s: Replicas, n: Tags, c: Path, q: Path)
    requires OneConflict(s, n, c)
    requires q != c && q in AllPaths(s)
    ensures Get(Run(s, true, n).after.remote, q) == Get(s.remote[Copy(c, n) := s.local[c]], q)
  {
    RunAt(s, true, n, q);
    ConflictsMember(s, true, q);
    assert Get(s.local, q) == Get(s.base, q);
  }

  lemma SingleRemoteAtNew(s: Replicas, n: Tags, c: Path, q: Path)
    requires OneConflict(s, n, c)
    requires q != Copy(c, n) && q !in AllPaths(s)
    ensures Get(Run(s, true, n).after.remote, q) == Get(s.remote[Copy(c, n) := s.local[c]], q)
  {
    RunAt(s, true, n, q);
    SourcedIsCopy(s, true, n, q);
  }

  lemma SingleConflictTags(s: Replicas, n: Tags, c: Path)
    requires c != ""
    requires TagsOk(n.actor, n.disc)
    requires Conflicts(s, true) == {c}
    requires forall q :: q != c ==> Get(s.local, q) == Get(s.base, q) && Get(s.remote, q) == Get(s.base, q)
    requires Copy(c, n) !in AllPaths(s)
    ensures TaggedPuts(Run(s, true, n).puts) == {Put(Copy(c, n), Some(c))}
  {
    SingleFresh(s, n, c);
    TaggedPutsWithUpload(s, n);
    CopyPutsOfPair(c, c, n);
    SingleNoUpload(s, c);
  }

  lemma SingleFresh(s: Replicas, n: Tags, c: Path)
    requires TagsOk(n.actor, n.disc) && c != ""
    requires Conflicts(s, true) == {c}
    requires Copy(c, n) !in AllPaths(s)
    ensures Fresh(s, true, n)
  {
    forall p | p in Conflicts(s, true) ensures p != "" && Copy(p, n) !in AllPaths(s) {
      assert p == c;
    }
  }

  /** With one conflict and nothing else changed, nothing is an ordinary
      upload. */
  lemma SingleNoUpload(s: Replicas, c: Path)
    requires Conflicts(s, true) == {c}
    requires forall q :: q != c ==> Get(s.local, q) == Get(s.base, q) && Get(s.remote, q) == Get(s.base, q)
    ensures forall q :: q in s.local ==> Decide(s, true, q) != ToRemote
  {
    forall q | q in s.local && Decide(s, true, q) == ToRemote ensures false {
      if q == c {
        ConflictsMember(s, true, c);
      }
    }
  }

  // ---------------------------------------------------------------------
  // The separate-upload test

  /** The conflict copy the test plants by hand, as if an earlier run had
      made it but not uploaded it. */
  const C: Path := "A/a1_conflict_me-1234"

  /** The planted copy names A/a1 as its base. */
  lemma PlantedCopyBase()
    ensures ConflictFileBaseName(C) == Some(A1)
  {
    assert C == "A/" + "a1" + Marker + "_me-1234" + "";
    assert A1 == "A/" + "a1" + "";
    ConflictNameTable.Strips("A/", "a1", "_me-1234", "", C, A1);
  }

  /** The planted copy carries the marker, so the fixture does not hold it. */
  lemma PlantedCopyMarked()
    ensures Contains(C, "_conflict")
  {
    assert C == "A/a1" + Marker + "_me-1234";
    ContainsSelf(Marker);
    ContainsInfix("A/a1", Marker, "_me-1234", Marker);
  }

  /** A local change to the planted copy alone is uploaded, tagged with
      A/a1, and leaves the trees equal. */
  lemma PlantedCopyUploaded(t: Tree, t2: Tree, n: Tags)
    requires C in t2 && Get(t2, C) != Get(t, C)
    requires forall q :: q != C ==> Get(t2, q) == Get(t, q)
    ensures Run(Replicas(t2, t, t), true, n).after == Synced(t2)
    ensures TaggedPuts(Run(Replicas(t2, t, t), true, n).puts) == {Put(C, Some(A1))}
  {
    PlantedCopyBase();
    UploadOnly(Replicas(t2, t, t), n);
    UploadOnlyTags(Replicas(t2, t, t), n, C);
  }

  /** The tree after the planted copy is written. */
  function Planted(t0: Tree): Tree {
    Insert(t0, C, 64, 'L')
  }

  /** The tree after the planted copy is overwritten locally. */
  function Edited(t0: Tree): Tree {
    SetContents(Planted(t0), C, 'P')
  }

  /** The tree after the planted copy is overwritten remotely. */
  function EditedRemotely(t0: Tree): Tree {
    SetContents(Edited(t0), C, 'Q')
  }

  /** Separate upload, step 1: the planted copy is uploaded, tagged with
      A/a1, with its content. */
  lemma SeparateUploadPlant(t0: Tree, n: Tags)
    requires Fixture(t0)
    ensures var r := Run(Replicas(Planted(t0), t0, t0), true, n);
      && r.after == Synced(Planted(t0))
      && TaggedPuts(r.puts) == {Put(C, Some(A1))}
      && r.after.remote[C].ch == 'L'
  {
    PlantedCopyMarked();
    assert C !in t0;
    PlantedCopyUploaded(t0, Planted(t0), n);
  }

  /** Step 2: a local edit of the copy is uploaded, tagged again. */
  lemma SeparateUploadLocalEdit(t0: Tree, n: Tags)
    ensures var r := Run(Replicas(Edited(t0), Planted(t0), Planted(t0)), true, n);
      && r.after == Synced(Edited(t0))
      && TaggedPuts(r.puts) == {Put(C, Some(A1))}
  {
    PlantedCopyUploaded(Planted(t0), Edited(t0), n);
  }

  /** Step 3: a remote edit of the copy comes down; nothing is uploaded. */
  lemma SeparateUploadRemoteEdit(t0: Tree, n: Tags)
    ensures var r := Run(Replicas(Edited(t0), EditedRemotely(t0), Edited(t0)), true, n);
      && r.after == Synced(EditedRemotely(t0))
      && TaggedPuts(r.puts) == {}
  {
    DownloadOnly(Replicas(Edited(t0), EditedRemotely(t0), Edited(t0)), n);
  }

  /** Step 4: both sides grow the copy, by one and by two bytes. The
      copy gets a copy of its own, tagged with the planted name; the remote
      content stays at the planted name. */
  lemma SeparateUploadNestedConflict(t0: Tree, n: Tags)
    requires Fixture(t0)
    requires TagsOk(n.actor, n.disc)
    ensures var t3 := EditedRemotely(t0);
      var r := Run(Replicas(AppendByte(t3, C), AppendByte(AppendByte(t3, C), C), t3), true, n);
      && r.after.local == r.after.remote
      && TaggedPuts(r.puts) == {Put(Copy(C, n), Some(C))}
      && C in r.after.remote && r.after.remote[C].size == 66
      && Copy(C, n) in r.after.remote && r.after.remote[Copy(C, n)].size == 65
  {
    CopyOfPlantedIsNew(t0, n);
    GrowConflict(EditedRemotely(t0), C, n);
  }

  /** The separate-upload test as one chain of runs: each step edits the
      trees the previous run left, as the test does. */
  lemma TestSeparateUpload(t0: Tree, n: Tags)
    requires Fixture(t0)
    requires TagsOk(n.actor, n.disc)
    ensures
      var a1 := Run(Replicas(Insert(t0, C, 64, 'L'), t0, t0), true, n);
      && a1.after.local == a1.after.remote
      && TaggedPuts(a1.puts) == {Put(C, Some(A1))}
      && C in a1.after.local && a1.after.remote[C].ch == 'L'
      && var s2 := Replicas(SetContents(a1.after.local, C, 'P'), a1.after.remote, a1.after.base);
      && Run(s2, true, n).after.local == Run(s2, true, n).after.remote
      && TaggedPuts(Run(s2, true, n).puts) == {Put(C, Some(A1))}
      && C in Run(s2, true, n).after.remote
      && var a2 := Run(s2, true, n).after;
      && var s3 := Replicas(a2.local, SetContents(a2.remote, C, 'Q'), a2.base);
      && Run(s3, true, n).after.local == Run(s3, true, n).after.remote
      && TaggedPuts(Run(s3, true, n).puts) == {}
      && C in Run(s3, true, n).after.local
      && var a3 := Run(s3, true, n).after;
      && var s4 := Replicas(AppendByte(a3.local, C), AppendByte(AppendByte(a3.remote, C), C), a3.base);
      && Run(s4, true, n).after.local == Run(s4, true, n).after.remote
      && TaggedPuts(Run(s4, true, n).puts) == {Put(Copy(C, n), Some(C))}
      && C in Run(s4, true, n).after.remote && Run(s4, true, n).after.remote[C].size == 66
      && Copy(C, n) in Run(s4, true, n).after.remote
      && Run(s4, true, n).after.remote[Copy(C, n)].size == 65
  {
    SeparateUploadPlant(t0, n);
    SeparateUploadLocalEdit(t0, n);
    SeparateUploadRemoteEdit(t0, n);
    SeparateUploadNestedConflict(t0, n);
  }

  /** Both sides grow `c`, the local side by one byte and the remote side
      by two: a conflict on `c` alone. */
  lemma GrowConflict(t: Tree, c: Path, n: Tags)
    requires TagsOk(n.actor, n.disc) && c != ""
    requires c in t && Copy(c, n) !in t
    ensures var r := Run(Replicas(AppendByte(t, c), AppendByte(AppendByte(t, c), c), t), true, n);
      && r.after.local == r.after.remote
      && TaggedPuts(r.puts) == {Put(Copy(c, n), Some(c))}
      && c in r.after.remote && r.after.remote[c].size == t[c].size + 2
      && Copy(c, n) in r.after.remote && r.after.remote[Copy(c, n)].size == t[c].size + 1
  {
    var s := Grown(t, c);
    GrowIsSingle(t, c, n);
    SingleConflict(s, n, c);
    assert Copy(c, n) != c;
  }

  function Grown(t: Tree, c: Path): Replicas
    requires c in t
  {
    Replicas(AppendByte(t, c), AppendByte(AppendByte(t, c), c), t)
  }

  /** Growing `c` on both sides changes `c` three ways and nothing else. */
  lemma GrowIsSingle(t: Tree, c: Path, n: Tags)
    requires c in t && Copy(c, n) !in t
    ensures var s := Grown(t, c);
      && c in s.local && c in s.remote && c in s.base
      && s.local[c] != s.remote[c] && s.local[c] != s.base[c] && s.remote[c] != s.base[c]
      && (forall q :: q != c ==> Get(s.local, q) == Get(s.base, q) && Get(s.remote, q) == Get(s.base, q))
      && Copy(c, n) !in AllPaths(s)
  {
    var s := Grown(t, c);
    assert AllPaths(s) == t.Keys;
  }

  /** Before step 4 the planted copy holds 64 bytes of `Q`, and its own
      copy's name is not yet taken. */
  lemma CopyOfPlantedIsNew(t0: Tree, n: Tags)
    requires Fixture(t0)
    ensures C in EditedRemotely(t0) && EditedRemotely(t0)[C] == Content('Q', 64)
    ensures Copy(C, n) !in EditedRemotely(t0)
  {
    CopyIsMarked(C, n);
    assert Copy(C, n) !in t0;
  }
}
