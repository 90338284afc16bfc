/** One reconciliation run over two replicas and their common baseline,
    reduced to what the conflict tests observe: per path, which side's
    content wins, where a conflict copy goes, and which uploads carry the
    conflict tag (the `OC-ConflictFileFor` header).

    The upload of conflict copies is gated by the server capability
    `uploadConflictFiles`. Without it, conflict-named paths are excluded
    from the run altogether (the exclusion reason `CSYNC_FILE_EXCLUDE_CONFLICT`),
    so a copy made locally stays local until a run with the capability
    uploads it as an ordinary new file. */
module Sync {
  import opened Wrappers
  import opened Paths
  import opened ConflictName

  /** A file's content: the fill character and the number of bytes. */
  datatype Content = Content(ch: char, size: nat)

  /** A replica: the files it holds, by path. */
  type Tree = map<Path, Content>

  datatype Replicas = Replicas(local: Tree, remote: Tree, base: Tree)

  function Get(t: Tree, p: Path): Option<Content> {
    if p in t then Some(t[p]) else None
  }

  /** Every path any of the three trees knows. */
  function AllPaths(s: Replicas): set<Path> {
    s.local.Keys + s.remote.Keys + s.base.Keys
  }

  /** What a run does with one path. */
  datatype Outcome =
    | Unchanged   // neither side moved away from the baseline
    | Converged   // both sides made the same change
    | ToRemote    // only the local side changed (or it changed a file the remote deleted)
    | ToLocal     // only the remote side changed (or it changed a file the local side deleted)
    | Conflict    // both sides hold different new contents
    | Excluded    // a conflict-named path while uploading conflict copies is off

  /** The per-path classification from the local, remote and baseline
      contents (None: absent). A modification beats a deletion. */
  function Classify(l: Option<Content>, r: Option<Content>, b: Option<Content>): (o: Outcome)
    ensures o != Excluded
    ensures o == Unchanged <==> l == b && r == b
    ensures o == Converged <==> l == r && l != b
    ensures o == ToRemote <==> l != r && l != b && (r == b || r.None?)
    ensures o == ToLocal <==> l != r && r != b && (l == b || l.None?)
    ensures o == Conflict <==> l.Some? && r.Some? && l != r && l != b && r != b
  {
    if l == r then (if l == b then Unchanged else Converged)
    else if l == b then ToLocal
    else if r == b then ToRemote
    else if l.None? then ToLocal
    else if r.None? then ToRemote
    else Conflict
  }

  /** The outcome for `p`: excluded exactly when uploading conflict copies
      is off and `p` is conflict-named, else as its contents dictate; in
      particular a conflict is two different new contents on both sides. */
  function Decide(s: Replicas, upload: bool, p: Path): (o: Outcome)
    ensures o == Excluded <==> !upload && ConflictFileBaseName(p).Some?
    ensures o == Conflict <==>
      && (upload || ConflictFileBaseName(p).None?)
      && p in s.local && p in s.remote && s.local[p] != s.remote[p]
      && Get(s.base, p) != Some(s.local[p]) && Get(s.base, p) != Some(s.remote[p])
  {
    if !upload && ConflictFileBaseName(p).Some? then Excluded
    else Classify(Get(s.local, p), Get(s.remote, p), Get(s.base, p))
  }

  /** The paths the run finds in conflict. */
  function Conflicts(s: Replicas, upload: bool): set<Path> {
    set p | p in AllPaths(s) && Decide(s, upload, p) == Conflict
  }

  lemma ConflictsMember(s: Replicas, upload: bool, p: Path)
    ensures p in Conflicts(s, upload) <==> p in AllPaths(s) && Decide(s, upload, p) == Conflict
  {
  }

  /** Exactly two known paths in conflict. */
  lemma ConflictsArePair(s: Replicas, upload: bool, a: Path, b: Path)
    requires a in AllPaths(s) && b in AllPaths(s)
    requires forall q :: q in AllPaths(s) ==> (Decide(s, upload, q) == Conflict <==> q == a || q == b)
    ensures Conflicts(s, upload) == {a, b}
  {
    ConflictsMember(s, upload, a);
    ConflictsMember(s, upload, b);
    forall q | q in Conflicts(s, upload) ensures q == a || q == b {
      ConflictsMember(s, upload, q);
    }
  }

  /** The conflict copy of `p` made in a run whose copies are tagged `n`. */
  function Copy(p: Path, n: Tags): Path {
    MakeConflictName(p, n.actor, n.disc)
  }

  function Copies(s: Replicas, upload: bool, n: Tags): set<Path> {
    set p | p in Conflicts(s, upload) :: Copy(p, n)
  }

  /** The run's copy names are well formed and clash with no known path;
      no conflict is at the empty path, which names no file. */
  predicate Fresh(s: Replicas, upload: bool, n: Tags) {
    && TagsOk(n.actor, n.disc)
    && "" !in Conflicts(s, upload)
    && forall p :: p in Conflicts(s, upload) ==> Copy(p, n) !in AllPaths(s)
  }

  /** The conflicting path whose copy `q` is, if it is one. */
  function CopySource(s: Replicas, upload: bool, n: Tags, q: Path): Option<Path> {
    var b := ConflictFileBaseName(q);
    if b.Some? && b.value in Conflicts(s, upload) && Copy(b.value, n) == q then b else None
  }

  /** Per-path contents after the run. */
  function LocalAfter(s: Replicas, upload: bool, n: Tags, q: Path): Option<Content> {
    if q in AllPaths(s) then
      match Decide(s, upload, q)
      case ToLocal => Get(s.remote, q)
      case Conflict => Get(s.remote, q)
      case _ => Get(s.local, q)
    else
      match CopySource(s, upload, n, q)
      case Some(p) => Get(s.local, p)
      case None => None
  }

  function RemoteAfter(s: Replicas, upload: bool, n: Tags, q: Path): Option<Content> {
    if q in AllPaths(s) then
      match Decide(s, upload, q)
      case ToRemote => Get(s.local, q)
      case _ => Get(s.remote, q)
    else
      match CopySource(s, upload, n, q)
      case Some(p) => if upload then Get(s.local, p) else None
      case None => None
  }

  function BaseAfter(s: Replicas, upload: bool, n: Tags, q: Path): Option<Content> {
    if q in AllPaths(s) then
      match Decide(s, upload, q)
      case Unchanged => Get(s.base, q)
      case Excluded => Get(s.base, q)
      case Converged => Get(s.local, q)
      case ToRemote => Get(s.local, q)
      case _ => Get(s.remote, q)
    else RemoteAfter(s, upload, n, q)
  }

  /** An upload, with the base path it carries as conflict tag, if any. */
  datatype Put = Put(path: Path, tag: Option<Path>)

  /** Whether the run uploads the file at `q`. */
  predicate Uploads(s: Replicas, upload: bool, n: Tags, q: Path) {
    if q in AllPaths(s) then Decide(s, upload, q) == ToRemote && q in s.local
    else upload && CopySource(s, upload, n, q).Some?
  }

  datatype RunResult = RunResult(after: Replicas, puts: set<Put>)

  /** One run with the capability `upload`, naming its copies with `n`.
      Every upload is tagged with the base its own name parses to. The run
      touches nothing but the known paths and the copies of its conflicts. */
  function Run(s: Replicas, upload: bool, n: Tags): (r: RunResult)
    ensures r.after.local.Keys + r.after.remote.Keys + r.after.base.Keys
            <= AllPaths(s) + Copies(s, upload, n)
    ensures forall x :: x in r.puts ==> x.path in AllPaths(s) + Copies(s, upload, n)
  {
    var dom := AllPaths(s) + Copies(s, upload, n);
    RunResult(
      Replicas(
        map q | q in dom && LocalAfter(s, upload, n, q).Some? :: LocalAfter(s, upload, n, q).value,
        map q | q in dom && RemoteAfter(s, upload, n, q).Some? :: RemoteAfter(s, upload, n, q).value,
        map q | q in dom && BaseAfter(s, upload, n, q).Some? :: BaseAfter(s, upload, n, q).value),
      set q | q in dom && Uploads(s, upload, n, q) :: Put(q, ConflictFileBaseName(q)))
  }

  function TaggedPuts(puts: set<Put>): set<Put> {
    set x | x in puts && x.tag.Some?
  }

  // ---------------------------------------------------------------------
  // Reading the run's result path by path

  /** A path outside the known ones and the copies has no content after
      the run and is not uploaded. */
  lemma OutsideIsEmpty(s: Replicas, upload: bool, n: Tags, q: Path)
    requires q !in AllPaths(s) + Copies(s, upload, n)
    ensures CopySource(s, upload, n, q).None?
    ensures LocalAfter(s, upload, n, q).None?
    ensures RemoteAfter(s, upload, n, q).None?
    ensures BaseAfter(s, upload, n, q).None?
    ensures !Uploads(s, upload, n, q)
  {
    SourcedIsCopy(s, upload, n, q);
  }

  lemma SourcedIsCopy(s: Replicas, upload: bool, n: Tags, q: Path)
    ensures CopySource(s, upload, n, q).Some? ==> q in Copies(s, upload, n)
  {
    var b := ConflictFileBaseName(q);
    if b.Some? && b.value in Conflicts(s, upload) && Copy(b.value, n) == q {
      assert q == Copy(b.value, n);
    }
  }

  /** The run's trees and uploads agree with the per-path rules. */
  lemma RunAt(s: Replicas, upload: bool, n: Tags, q: Path)
    ensures Get(Run(s, upload, n).after.local, q) == LocalAfter(s, upload, n, q)
    ensures Get(Run(s, upload, n).after.remote, q) == RemoteAfter(s, upload, n, q)
    ensures Get(Run(s, upload, n).after.base, q) == BaseAfter(s, upload, n, q)
    ensures Put(q, ConflictFileBaseName(q)) in Run(s, upload, n).puts <==> Uploads(s, upload, n, q)
  {
    if q !in AllPaths(s) + Copies(s, upload, n) {
      OutsideIsEmpty(s, upload, n, q);
    }
  }

  /** Every upload is of a path the run uploads, tagged with the base its
      own name parses to. */
  lemma PutsAreTagged(s: Replicas, upload: bool, n: Tags, x: Put)
    requires x in Run(s, upload, n).puts
    ensures x.tag == ConflictFileBaseName(x.path)
    ensures Uploads(s, upload, n, x.path)
  {
  }

  /** A copy is not a known path, and it is the copy of exactly the path
      its name parses to. */
  lemma CopyIsCopy(s: Replicas, upload: bool, n: Tags, p: Path)
    requires Fresh(s, upload, n)
    requires p in Conflicts(s, upload)
    ensures Copy(p, n) !in AllPaths(s)
    ensures ConflictFileBaseName(Copy(p, n)) == Some(p)
    ensures CopySource(s, upload, n, Copy(p, n)) == Some(p)
  {
  }

  /** Two trees with the same content at every path are equal. */
  lemma TreeExt(t: Tree, u: Tree)
    requires forall q :: Get(t, q) == Get(u, q)
    ensures t == u
  {
    assert t.Keys == u.Keys by {
      forall q ensures q in t <==> q in u {
        assert Get(t, q) == Get(u, q);
      }
    }
    forall q | q in t ensures t[q] == u[q] {
      assert Get(t, q) == Get(u, q);
    }
  }

  // ---------------------------------------------------------------------
  // What a run promises

  /** On a conflict the remote content stays at the path, the local
      content moves to the copy, whose name parses back to the path, and
      the copy reaches the remote, tagged with the path, exactly when
      uploading conflict copies is on. */
  lemma ConflictResolution(s: Replicas, upload: bool, n: Tags, p: Path)
    requires Fresh(s, upload, n)
    requires p in Conflicts(s, upload)
    ensures var r := Run(s, upload, n);
      && p in r.after.local && p in r.after.remote
      && r.after.local[p] == s.remote[p] && r.after.remote[p] == s.remote[p]
      && Copy(p, n) in r.after.local && r.after.local[Copy(p, n)] == s.local[p]
      && ConflictFileBaseName(Copy(p, n)) == Some(p)
      && (upload ==> Copy(p, n) in r.after.remote && r.after.remote[Copy(p, n)] == s.local[p])
      && (upload ==> Put(Copy(p, n), Some(p)) in r.puts)
      && (!upload ==> Copy(p, n) !in r.after.remote)
  {
    var c := Copy(p, n);
    CopyIsCopy(s, upload, n, p);
    RunAt(s, upload, n, p);
    RunAt(s, upload, n, c);
  }

  /** After a run every path holds the same content on both sides and in
      the baseline, apart from conflict copies left local-only. */
  lemma AgreeAt(s: Replicas, upload: bool, n: Tags, q: Path)
    requires upload || ConflictFileBaseName(q).None?
    ensures LocalAfter(s, upload, n, q) == RemoteAfter(s, upload, n, q)
    ensures BaseAfter(s, upload, n, q) == RemoteAfter(s, upload, n, q)
  {
  }

  /** With uploading conflict copies on, a run leaves the local tree, the
      remote tree and the baseline identical. */
  lemma UploadConverges(s: Replicas, n: Tags)
    ensures Run(s, true, n).after.local == Run(s, true, n).after.remote
    ensures Run(s, true, n).after.base == Run(s, true, n).after.remote
  {
    var a := Run(s, true, n).after;
    forall q ensures Get(a.local, q) == Get(a.remote, q) && Get(a.base, q) == Get(a.remote, q) {
      RunAt(s, true, n, q);
      AgreeAt(s, true, n, q);
    }
    TreeExt(a.local, a.remote);
    TreeExt(a.base, a.remote);
  }

  /** The tree without its conflict-named paths. */
  function Strip(t: Tree): Tree {
    map q | q in t && ConflictFileBaseName(q).None? :: t[q]
  }

  /** Either way, the trees agree once conflict-named paths are set aside:
      without the capability those are the only difference. */
  lemma ConvergesOutsideCopies(s: Replicas, upload: bool, n: Tags)
    ensures Strip(Run(s, upload, n).after.local) == Strip(Run(s, upload, n).after.remote)
    ensures Strip(Run(s, upload, n).after.base) == Strip(Run(s, upload, n).after.remote)
  {
    var a := Run(s, upload, n).after;
    forall q
      ensures Get(Strip(a.local), q) == Get(Strip(a.remote), q)
      ensures Get(Strip(a.base), q) == Get(Strip(a.remote), q)
    {
      RunAt(s, upload, n, q);
      if ConflictFileBaseName(q).None? {
        AgreeAt(s, upload, n, q);
      }
    }
    TreeExt(Strip(a.local), Strip(a.remote));
    TreeExt(Strip(a.base), Strip(a.remote));
  }

  /** Without the capability no upload carries a conflict tag. */
  lemma NoTagWithoutUpload(s: Replicas, n: Tags)
    ensures TaggedPuts(Run(s, false, n).puts) == {}
  {
    forall x | x in Run(s, false, n).puts ensures x.tag.None? {
      PutsAreTagged(s, false, n, x);
    }
  }

  /** The tagged uploads of a run with the capability: one per conflict,
      its copy tagged with the conflicting path, plus every conflict-named
      file uploaded as an ordinary change, tagged with its own base. */
  function ExpectedTagged(s: Replicas, n: Tags): set<Put> {
    CopyPuts(Conflicts(s, true), n)
    + (set q | q in s.local && Decide(s, true, q) == ToRemote && ConflictFileBaseName(q).Some?
         :: Put(q, ConflictFileBaseName(q)))
  }

  /** The uploads of the copies of the paths in `k`, each tagged with the
      path its copy stands in for. */
  function CopyPuts(k: set<Path>, n: Tags): set<Put> {
    set p | p in k :: Put(Copy(p, n), Some(p))
  }

  lemma TaggedPutsWithUpload(s: Replicas, n: Tags)
    requires Fresh(s, true, n)
    ensures TaggedPuts(Run(s, true, n).puts) == ExpectedTagged(s, n)
  {
    forall x ensures x in TaggedPuts(Run(s, true, n).puts) <==> x in ExpectedTagged(s, n) {
      if x in TaggedPuts(Run(s, true, n).puts) {
        TaggedPutIsExpected(s, n, x);
      }
      if x in ExpectedTagged(s, n) {
        ExpectedPutIsTagged(s, n, x);
      }
    }
  }

  lemma TaggedPutIsExpected(s: Replicas, n: Tags, x: Put)
    requires Fresh(s, true, n)
    requires x in TaggedPuts(Run(s, true, n).puts)
    ensures x in ExpectedTagged(s, n)
  {
    PutsAreTagged(s, true, n, x);
    if x.path !in AllPaths(s) {
      var p := CopySource(s, true, n, x.path).value;
      assert x == Put(Copy(p, n), Some(p));
    }
  }

  lemma ExpectedPutIsTagged(s: Replicas, n: Tags, x: Put)
    requires Fresh(s, true, n)
    requires x in ExpectedTagged(s, n)
    ensures x in TaggedPuts(Run(s, true, n).puts)
  {
    if q :| q in s.local && Decide(s, true, q) == ToRemote && ConflictFileBaseName(q).Some?
             && x == Put(q, ConflictFileBaseName(q)) {
      RunAt(s, true, n, q);
    } else {
      var p :| p in Conflicts(s, true) && x == Put(Copy(p, n), Some(p));
      ConflictResolution(s, true, n, p);
    }
  }

  /** A copy withheld from the remote for lack of the capability is
      uploaded, tagged with the path it stands in for, by the next run that
      has it. */
  lemma DeferredUpload(s: Replicas, n: Tags, p: Path, n2: Tags)
    requires Fresh(s, false, n)
    requires p in Conflicts(s, false)
    ensures var s2 := Run(s, false, n).after;
      && Copy(p, n) in s2.local && Copy(p, n) !in s2.remote
      && Decide(s2, true, Copy(p, n)) == ToRemote
      && Put(Copy(p, n), Some(p)) in Run(s2, true, n2).puts
  {
    var s2 := Run(s, false, n).after;
    var c := Copy(p, n);
    ConflictResolution(s, false, n, p);
    RunAt(s, false, n, c);
    RunAt(s2, true, n2, c);
  }

  // ---------------------------------------------------------------------
  // The per-file items a run reports

  datatype Status = NoStatus | Success | ConflictStatus

  /** The instructions a reported item can carry (the source's
      `csync_instructions_e`, as far as the conflict tests use it). */
  datatype Instruction =
    | InstructionNone | InstructionNew | InstructionRemove | InstructionSync
    | InstructionUpdateMetadata | InstructionConflict | InstructionRename

  datatype SyncFileItem = SyncFileItem(destination: Path, status: Status, instruction: Instruction)

  /** What to do to the side that receives a propagated change. */
  function Propagation(from: Option<Content>, to: Option<Content>): Instruction {
    if from.None? then InstructionRemove
    else if to.None? then InstructionNew
    else InstructionSync
  }

  /** The item the run reports for `q`, if it reports one. */
  function ItemOf(s: Replicas, upload: bool, q: Path): Option<SyncFileItem> {
    match Decide(s, upload, q)
    case Unchanged => None
    case Excluded => None
    case Converged => Some(SyncFileItem(q, Success, InstructionUpdateMetadata))
    case ToRemote => Some(SyncFileItem(q, Success, Propagation(Get(s.local, q), Get(s.remote, q))))
    case ToLocal => Some(SyncFileItem(q, Success, Propagation(Get(s.remote, q), Get(s.local, q))))
    case Conflict => Some(SyncFileItem(q, ConflictStatus, InstructionConflict))
  }

  function Items(s: Replicas, upload: bool): set<SyncFileItem> {
    set q | q in AllPaths(s) && ItemOf(s, upload, q).Some? :: ItemOf(s, upload, q).value
  }

  /** A run reports at most one item per path, and reports a conflict
      exactly for the paths it finds in conflict. */
  lemma ItemsByPath(s: Replicas, upload: bool, x: SyncFileItem)
    requires x in Items(s, upload)
    ensures x.destination in AllPaths(s)
    ensures ItemOf(s, upload, x.destination) == Some(x)
    ensures x.status == ConflictStatus <==> x.destination in Conflicts(s, upload)
  {
  }

  /** The run reports items only for known paths, each under its path. */
  lemma ItemOfKnown(s: Replicas, upload: bool, q: Path)
    ensures ItemOf(s, upload, q).Some? ==> q in AllPaths(s) && ItemOf(s, upload, q).value.destination == q
  {
    if q !in AllPaths(s) {
      assert Get(s.local, q).None? && Get(s.remote, q).None? && Get(s.base, q).None?;
    }
  }

  /** The run reports a conflict for `q` exactly when `q` is in conflict,
      and a conflict item always carries the conflict instruction. */
  lemma ConflictItemOf(s: Replicas, upload: bool, q: Path)
    ensures ItemOf(s, upload, q).Some? ==> ItemOf(s, upload, q).value.destination == q
    ensures (ItemOf(s, upload, q).Some? && ItemOf(s, upload, q).value.status == ConflictStatus)
        <==> q in Conflicts(s, upload)
    ensures ItemOf(s, upload, q).Some? && ItemOf(s, upload, q).value.status == ConflictStatus
        ==> ItemOf(s, upload, q).value.instruction == InstructionConflict
  {
    ConflictsMember(s, upload, q);
    if q !in AllPaths(s) {
      assert Get(s.local, q).None? && Get(s.remote, q).None? && Get(s.base, q).None?;
    }
  }

  /** When no local path is conflict-named, the tagged uploads are exactly
      the copies, each tagged with the path it stands in for. */
  lemma OnlyCopiesTagged(s: Replicas, n: Tags)
    requires Fresh(s, true, n)
    requires forall q :: q in s.local ==> ConflictFileBaseName(q).None?
    ensures TaggedPuts(Run(s, true, n).puts) == CopyPuts(Conflicts(s, true), n)
  {
    TaggedPutsWithUpload(s, n);
    assert ExpectedTagged(s, n) == CopyPuts(Conflicts(s, true), n);
  }
}
