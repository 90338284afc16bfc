# Conflict copies in the sync engine, as its conflict tests pin them down

This project models what `test/testsyncconflict.cpp` of the desktop sync
client asserts about conflicts, and proves it.

When a file changes differently on the local and the remote side, a sync run
does three things:

- it keeps the remote content at the file's path;
- it moves the local content to a *conflict copy*, whose name is the file's
  stem, then `_conflict`, then a tag, then the extension;
- if the server offers the capability `uploadConflictFiles`, it uploads the copy
  with the header `OC-ConflictFileFor` naming the original file.

`conflictFileBaseName` reverses the naming. It turns a copy's path back into the
path of the file it stands for, or into the empty string when there is none.

The project has six modules.

- `Paths` (paths.dfy) holds the path vocabulary:
  - the file name after the last `/`, the directory before it, and joining a
    directory and a name;
  - prefix and infix tests on strings.
- `ConflictName` (conflict_name.dfy) holds the naming rule.
  - `ConflictFileBaseName` is the parser. It takes the stem (the file name up to
    its last `.`), finds the rightmost `_conflict` in it, and answers None when
    there is none or when nothing follows it. Otherwise it answers the directory,
    then the stem up to that marker, then the extension, or None when that is
    empty (the empty result that means "no base").
  - `MakeConflictName` is a right inverse of the parser: parsing a made name
    gives the base back. Not every name the parser accepts is a made name.
    `Nest` and `Unwind` cover copies of copies.
- `ConflictNameTable` (conflict_name_table.dfy) holds the thirteen rows of the
  test's table, one lemma per row.
- `Sync` (sync.dfy) models one run over the local, remote and baseline trees.
  - `Classify` decides each path. `Run` produces the trees after the run and
    the set of uploads with their conflict tags.
  - Without the capability, conflict-named paths are excluded from the run
    (`CSYNC_FILE_EXCLUDE_CONFLICT`). So a copy stays local until a run that has
    the capability uploads it.
  - The items the run reports (status and instruction per path) are modelled
    too.
- `TestHelpers` (test_helpers.dfy) holds the test's helpers:
  - looking up an item;
  - the successful and conflict checks;
  - listing a directory's conflict files;
  - removing the first conflict copy of a file from the local tree.
- `Scenarios` (scenarios.dfy) runs the three scenario tests on the model:
  - without the capability;
  - upload after download;
  - a separately uploaded copy, in four steps.

  The fixture tree is kept abstract. It holds `A/a1` and `A/a2` and nothing
  conflict-named.

## Model

| member | source | states |
|---|---|---|
| ConflictName.ConflictFileBaseName | test/testsyncconflict.cpp:186-240 | a base name, when there is one, is not empty and is shorter than the copy's name by more than a marker |
| ConflictName.NoBaseIff | test/testsyncconflict.cpp:191-202 | a name has no base exactly when its stem has no marker, or ends with one, or nothing would be left once the marker and its tail are cut off |
| ConflictName.MarkerFreeHasNoBase | test/testsyncconflict.cpp:191-196 | a stem without the marker parses to no base |
| ConflictName.BaseNameParts | test/testsyncconflict.cpp:204-233 | the base keeps the directory and the extension; its stem is the copy's stem cut at the rightmost marker, and no marker lies after the cut |
| ConflictName.BaseNameDropsOneMarker | test/testsyncconflict.cpp:224-233 | one parse removes exactly one marker from the stem |
| ConflictName.MakeConflictName | test/testsyncconflict.cpp:117-120 | a copy's name is longer than its base's by more than the marker, and with well-formed tags the copy made for any non-empty path parses back to that path |
| ConflictName.MakeConflictNameParts | test/testsyncconflict.cpp:150 | a generated copy's name has the base's directory and extension; its stem is the base's stem, the marker and the tag |
| ConflictName.MadeNamesDistinct | test/testsyncconflict.cpp:117-119 | two different files get two different copies in the same run |
| ConflictName.NestedCopiesUnwind | test/testsyncconflict.cpp:224-233 | k parses of a k-fold copy give back the base |
| ConflictName.NestedCopiesMarkers | test/testsyncconflict.cpp:224-233 | a k-fold copy carries k more markers than its base |
| ConflictName.NestedCopiesAreCopies | test/testsyncconflict.cpp:174-182 | every level of a nested copy is itself a copy |
| ConflictName.NestStep | test/testsyncconflict.cpp:224-233 | one parse of a nested copy peels exactly its last level |
| ConflictName.NestedCopiesNeedExactlyK | test/testsyncconflict.cpp:224-233 | from a marker-free base, a k-fold copy parses exactly k times, and the (k+1)-th parse finds no base |
| ConflictName.UnwindBound | test/testsyncconflict.cpp:224-233 | a name parses successively at most as often as its stem carries markers |
| ConflictName.LastMarkerOfAppended | test/testsyncconflict.cpp:224-233 | after a marker followed by a marker-free tail, the rightmost marker is that one |
| ConflictNameTable.TableRow | test/testsyncconflict.cpp:186-240 | every row of the table holds |
| ConflictNameTable.PlainName | test/testsyncconflict.cpp:191-193 | `a/b/foo` has no base |
| ConflictNameTable.PlainNameWithExtension | test/testsyncconflict.cpp:194-196 | `a/b/foo.txt` has no base |
| ConflictNameTable.BareMarker | test/testsyncconflict.cpp:197-199 | `a/b/foo_conflict` has no base |
| ConflictNameTable.BareMarkerWithExtension | test/testsyncconflict.cpp:200-202 | `a/b/foo_conflict.txt` has no base |
| ConflictNameTable.DashTail | test/testsyncconflict.cpp:204-206 | `a/b/foo_conflict-123.txt` parses to `a/b/foo.txt` |
| ConflictNameTable.UnderscoreTail | test/testsyncconflict.cpp:207-209 | `a/b/foo_conflict_123.txt` parses to `a/b/foo.txt` |
| ConflictNameTable.ActorDashTail | test/testsyncconflict.cpp:210-212 | `a/b/foo_conflict_foo-123.txt` parses to `a/b/foo.txt` |
| ConflictNameTable.DashTailNoExtension | test/testsyncconflict.cpp:214-216 | `a/b/foo_conflict-123` parses to `a/b/foo` |
| ConflictNameTable.UnderscoreTailNoExtension | test/testsyncconflict.cpp:217-219 | `a/b/foo_conflict_123` parses to `a/b/foo` |
| ConflictNameTable.ActorDashTailNoExtension | test/testsyncconflict.cpp:220-222 | `a/b/foo_conflict_foo-123` parses to `a/b/foo` |
| ConflictNameTable.DoubleDashTails | test/testsyncconflict.cpp:225-227 | `a/b/foo_conflict-123_conflict-456.txt` parses to `a/b/foo_conflict-123.txt` |
| ConflictNameTable.DoubleUnderscoreTails | test/testsyncconflict.cpp:228-230 | `a/b/foo_conflict_123_conflict_456.txt` parses to `a/b/foo_conflict_123.txt` |
| ConflictNameTable.DoubleActorDashTails | test/testsyncconflict.cpp:231-233 | `a/b/foo_conflict_foo-123_conflict_bar-456.txt` parses to `a/b/foo_conflict_foo-123.txt` |
| ConflictNameTable.Strips | test/testsyncconflict.cpp:204-233 | a name whose last marker has a short tail parses to the name without marker and tail |
| ConflictNameTable.NoBaseBareMarker | test/testsyncconflict.cpp:197-202 | a stem that ends with its only marker has no base |
| Sync.Classify | test/testsyncconflict.cpp:77-82 | each outcome holds exactly under its condition on local, remote and baseline content; a conflict is two different new contents on both sides |
| Sync.Decide | src/csync/csync_exclude.h:43 | a path is excluded exactly when the capability is off and its name is a conflict copy's; it is a conflict exactly when it is not excluded and both sides hold different contents that both differ from the baseline |
| Sync.Run | test/testsyncconflict.cpp:82 | a run creates, changes and uploads nothing outside the known paths and the copies of its conflicts |
| Sync.ConflictsArePair | test/testsyncconflict.cpp:77-82 | when exactly two known paths are classified as conflicts, the run's conflict set is those two |
| Sync.ConflictResolution | test/testsyncconflict.cpp:122-126 | at a conflicting path the remote content wins on both sides; the local content lands in the copy, which parses back to the path; with the capability the copy reaches the remote with a tagged upload, and without it the copy stays off the remote |
| Sync.CopyIsCopy | test/testsyncconflict.cpp:120 | a copy is a new path, and it is the copy of exactly the path its name parses to |
| Sync.AgreeAt | src/csync/csync_exclude.h:43 | at every path the run does not exclude, the local tree, the remote tree and the baseline end equal |
| Sync.UploadConverges | test/testsyncconflict.cpp:112-115 | with the capability, the run leaves local, remote and baseline identical |
| Sync.ConvergesOutsideCopies | test/testsyncconflict.cpp:83-85 | either way, the trees agree once conflict-named paths are set aside |
| Sync.NoTagWithoutUpload | test/testsyncconflict.cpp:72-82 | without the capability, no upload carries a conflict tag |
| Sync.TaggedPutsWithUpload | test/testsyncconflict.cpp:117-119 | with the capability, the tagged uploads are exactly one per conflict (its copy, tagged with the conflicting path) plus the conflict-named files uploaded as ordinary changes |
| Sync.OnlyCopiesTagged | test/testsyncconflict.cpp:117-119 | when the copy names are fresh and no local file is conflict-named, the tagged uploads of a run with the capability are exactly the copies, each tagged with its conflicting path |
| Sync.DeferredUpload | test/testsyncconflict.cpp:148-154 | a copy withheld for lack of the capability is local-only after the run, and the next run that has the capability uploads it tagged with its base |
| Sync.ItemsByPath | test/testsyncconflict.cpp:30-34 | a reported item belongs to a known path, is the one item for it, and has conflict status exactly when the path is in conflict |
| Sync.ConflictItemOf | test/testsyncconflict.cpp:30-34 | a conflict item is reported for a path exactly when the path is in conflict, and it carries the conflict instruction |
| TestHelpers.FirstIndex | test/testsyncconflict.cpp:16-19 | the index found is the first whose element matches, or -1 when none does |
| TestHelpers.FindItem | test/testsyncconflict.cpp:14-22 | no item is found exactly when none has the path; a found item is the first item in the list that has the path |
| TestHelpers.ItemSuccessful | test/testsyncconflict.cpp:24-28 | the check holds exactly when the first item for the path has success status and the given instruction; with no item for the path it fails |
| TestHelpers.ItemConflict | test/testsyncconflict.cpp:30-34 | the check holds exactly when the first item for the path has conflict status and the conflict instruction; with no item for the path it fails |
| TestHelpers.FindItemOfRun | test/testsyncconflict.cpp:14-22 | over a listing of a run's items, the lookup finds the item the run reports for the path |
| TestHelpers.ItemConflictIff | test/testsyncconflict.cpp:30-34 | the conflict check holds exactly for the paths in conflict |
| TestHelpers.ItemSuccessfulIff | test/testsyncconflict.cpp:24-28 | some successful check holds exactly for the paths the run propagated or found converged |
| TestHelpers.FindConflicts | test/testsyncconflict.cpp:41-50 | the listing of a directory holds exactly the paths of its children whose name contains `conflict`, and no more entries than it has children |
| TestHelpers.ConflictsAmong | test/testsyncconflict.cpp:41-50 | the listed conflicts are the paths of exactly the children whose name contains `conflict` |
| TestHelpers.ConflictsAmongAppend | test/testsyncconflict.cpp:41-50 | the listing keeps the children's order |
| TestHelpers.ComponentsOfJoin | test/testsyncconflict.cpp:54-55 | a child path's components are its parent's followed by its name |
| TestHelpers.ExpectAndWipeConflict | test/testsyncconflict.cpp:52-65 | the wipe succeeds exactly when the parent directory is listed and holds a child named as a copy of the file; on success it removes the first such child, and on failure nothing |
| TestHelpers.RemovePathGone | test/testsyncconflict.cpp:60 | after the wipe nothing is left at or below the wiped path, and wiping a path the tree does not hold leaves the tree unchanged |
| TestHelpers.WipeKeepsListing | test/testsyncconflict.cpp:54-61 | once a listed child is wiped, the directory listing without that child is a correct listing of the directory in the tree that remains, so the later checks of the test can rely on it |
| TestHelpers.WipeFindsOnlyCopy | test/testsyncconflict.cpp:52-65 | when the listing shows the file's copy and the local tree has no other marked path whose path starts with the file's path, the wipe succeeds and removes exactly that copy |
| Scenarios.DivergedConflicts | test/testsyncconflict.cpp:77-82 | the edits put `a` and `b`, and nothing else, in conflict |
| Scenarios.UploadAfterDownloadTags | test/testsyncconflict.cpp:112-120 | with the capability the trees end equal; there are exactly two tagged uploads, one per file, each tagged with the file; the first copy parses back to its file |
| Scenarios.UploadAfterDownloadContents | test/testsyncconflict.cpp:122-126 | on the remote, each copy holds the local edit and each file the remote edit |
| Scenarios.TestUploadAfterDownload | test/testsyncconflict.cpp:88-126 | the upload-after-download test on the fixture |
| Scenarios.NoUploadRun | test/testsyncconflict.cpp:77-85 | without the capability, both copies are local; they are the only marked local paths; the remote has none; the replicas agree elsewhere |
| Scenarios.WipeTwoCopies | test/testsyncconflict.cpp:83-85 | wiping the two copies in turn succeeds twice and leaves exactly the remote tree |
| Scenarios.NoUploadWipes | test/testsyncconflict.cpp:77-85 | after a run without the capability, the two wipes succeed and the local tree then equals the remote one |
| Scenarios.TestNoUpload | test/testsyncconflict.cpp:72-85 | the no-upload test on the fixture |
| Scenarios.UploadOnly | test/testsyncconflict.cpp:150-152 | when only the local side changed, nothing conflicts and all three trees end equal to the local one |
| Scenarios.UploadOnlyTags | test/testsyncconflict.cpp:150-154 | a local change to one conflict-named file is the run's only tagged upload, tagged with its base |
| Scenarios.DownloadOnly | test/testsyncconflict.cpp:168-171 | when only the remote side changed, nothing is uploaded and all three trees end equal to the remote one |
| Scenarios.SingleConflict | test/testsyncconflict.cpp:174-182 | a conflict on one file: the remote content stays, the local content goes to the copy on both sides, and the copy's upload is the only tagged one |
| Scenarios.GrowConflict | test/testsyncconflict.cpp:174-182 | growing a file by one byte locally and two remotely is a conflict on it alone: the trees end equal, the remote keeps the +2 content, the copy holds the +1 content, and the copy's upload is the one tagged upload |
| Scenarios.PlantedCopyBase | test/testsyncconflict.cpp:150-154 | `A/a1_conflict_me-1234` parses to `A/a1` |
| Scenarios.PlantedCopyUploaded | test/testsyncconflict.cpp:150-164 | a local change to the planted copy alone is uploaded, tagged with `A/a1`, and the trees end equal |
| Scenarios.SeparateUploadPlant | test/testsyncconflict.cpp:150-155 | step 1: the planted copy is uploaded, tagged with `A/a1`, and its content reaches the remote |
| Scenarios.SeparateUploadLocalEdit | test/testsyncconflict.cpp:160-164 | step 2: a local edit of the copy is uploaded, tagged again |
| Scenarios.SeparateUploadRemoteEdit | test/testsyncconflict.cpp:168-171 | step 3: a remote edit of the copy comes down, with no tagged upload |
| Scenarios.SeparateUploadNestedConflict | test/testsyncconflict.cpp:174-182 | step 4: the copy gets a copy of its own, tagged with the planted name; the planted name keeps the remote's 66 bytes and the new copy the local 65 |
| Scenarios.TestSeparateUpload | test/testsyncconflict.cpp:129-184 | the four runs chained, each on the trees the previous run left after the test's edit: one tagged upload for `A/a1` with content `L`, the same after the local `P` edit, no tagged upload after the remote `Q` edit, and a nested copy tagged with the planted name at 65 bytes beside 66 |

## Left out

- The sync engine itself, including discovery, the journal, propagation jobs,
  concurrency and the network, is not part of this model. One run is a pure
  function from the three trees to the trees after the run and the set of
  uploads.
- Classify: no test here settles a deletion on one side against a modification
  on the other. The model lets the modification win.
- The `QSignalSpy` and the server override are abstracted away.
  - The spy's item list is the run's set of items, in any order.
  - The override's `conflictMap` becomes the set of tagged uploads. Its
    splitting of the upload URL is left out.
- `itemSuccessfulMove` (lines 36-39) is not modelled: the model does not detect
  renames.
- Which items a run reports is decided by the engine, which is not part of this
  model, so three choices are the model's own:
  - an excluded path gets no item;
  - a conflict copy the run creates or uploads gets no item of its own;
  - a path both sides changed the same way gets an item with the
    update-metadata instruction.
- ItemSuccessful and ItemConflict use an explicit Option. Where nothing
  matches, `findItem` returns a blank item; the model returns None, and both
  checks are false for it, as they are for the blank item.
- The exclusion patterns of `csync_exclude.h` are left out. Only the reason for
  excluding conflict files is modelled: without the capability, a path is
  excluded when the parser finds a base for it. The engine's own test for a
  conflict file is not part of this model.
- The tag that a run puts into a copy's name (user name and a time stamp) is a
  parameter (`Tags`). Freshness of the copy's name is required, not derived
  from a clock. The lemmas about a run also require that no conflict is at the
  empty path, which names no file and whose copy would have no base.
- Files are modelled by a fill character and a size, which is what the tests
  compare. Byte contents are left out.
- The fixture's file contents are kept abstract. Lines 125-126 expect 5 and 6 bytes after
  appending one and two, which means a 4-byte `A/a2`. The model keeps the size
  symbolic and proves the sizes +1 and +2.
- ConflictFileBaseName looks for the marker only in the file name, and splits
  the extension at the last `.` of the file name. The tests never put a marker
  or a `.` in a directory name, so this choice is unconstrained.
- ConflictFileBaseName does not demand `-<digits>` after the marker: a rule
  demanding it would reject the row at lines 207-209, where
  `foo_conflict_123.txt` parses to `foo.txt`. Any non-empty tail is accepted,
  so an ordinary name such as `a/b/report_conflicts.txt` parses to
  `a/b/report.txt`. Without the capability such a file is then excluded and
  never synced.
- TaggedPutsWithUpload: a single run can tag more than one upload per conflict.
  A conflict-named file changed locally is uploaded again with its own tag, as
  lines 160-164 show. So "exactly one tagged upload per conflict" holds only
  when no such file changed (OnlyCopiesTagged).
