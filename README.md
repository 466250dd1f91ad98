# GitCodeChange diff export, modelled in Dafny

GitCodeChange takes a commit of a git repository and copies every file the
commit changed into two trees: `<sha1>/mod` holds the new side of each
change and `<sha1>/org` the old side. `export_uncommitted_changes` does the
same for the index-to-working-tree diff, into a directory named after a timestamp. A
small PyQt window collects one or more SHA-1s, checks them all, and runs one
export per SHA-1.

The model covers:

- the SHA-1 check `is_valid_sha1`. It appears twice, identically, in
  `Git_lib.py` and `Git_code_change.py`, and is modelled once (`sha1.dfy`).
- the two exports (`diffexport.dfy`). `export_diff_files` is also in both
  files verbatim, and is modelled once. Both exports are imperative methods
  over a `FileSystem` class (`filestore.dfy`) whose fields are the set of
  directories and the map from file paths to bytes.
  - Each method is proved equal to running its list of file-system calls
    through an interpreter, `Trace.Exec` (`trace.dfy`). A raised exception
    stops the run and keeps what the earlier calls did; git's answers are
    inputs.
  - The theorems about what the exports leave on disk are lemmas about those
    call lists.
- the window's `change_num_sha1` and `start` (`gitcodechange.dfy`), over a
  class holding the list of input boxes.
- the reason the threads of `start` can be modelled one after the other
  (`locality.dfy`): call lists inside different top-level directories
  commute.

Paths are lists of components:

- `os.path.join(d, p)` is `d + p`;
- `os.path.dirname` drops the last component;
- the empty path is the working directory;
- a SHA-1 or timestamp label is a single component.

## Model

| member | source | states |
|---|---|---|
| Sha1.IsValidSha1Exactly | Git_lib.py:87-92 | `is_valid_sha1(s)` holds exactly when `s` has 40 characters and each is in `0-9`, `a-f` or `A-F` |
| Sha1.MatchesHexRunMeans | Git_lib.py:90 | `re.match("[0-9a-fA-F]{n}", s)` succeeds exactly when the first `n` characters of `s` exist and are hex digits; nothing is required of the rest |
| Sha1.RegexAloneAcceptsLongerStrings | Git_lib.py:88-90 | the regex alone accepts a 41-character string that starts with 40 hex digits; the length check is what rejects it |
| Sha1.Sha1Rejections | Git_code_change.py:62-67 | a 39-character string, a 41-character string, the empty string and a 40-character string containing `g` are all rejected |
| Sha1.Sha1AcceptsUpperCase | Git_code_change.py:62-67 | 40 upper-case hex digits are accepted |
| FileStore.Dirname | Git_lib.py:27 | `os.path.dirname(p)` followed by the last component of `p` gives back `p` |
| FileStore.MakeDirsKeepsWf | Git_lib.py:17-18 | `os.makedirs(d, exist_ok=True)` keeps the tree well formed (every file and directory sits in an existing directory, no path is both) and changes no file |
| FileStore.WriteFileKeepsWf | Git_lib.py:30-31 | `open(p, "wb").write(b)` keeps the tree well formed and creates no directory |
| FileStore.FileSystem.MakeDirs | Git_lib.py:17 | creates `d` and all its ancestors, or raises and changes nothing when a file is in the way; an existing directory is no error (`exist_ok=True`) |
| FileStore.FileSystem.WriteFile | Git_lib.py:30-31 | creates or truncates the file `p` with bytes `b`; raises and changes nothing when `p` is a directory or its parent is missing |
| Trace.ExecAppend | Git_lib.py:4-51 | running two call lists in a row is running the first, then the second from where the first left off unless the first raised |
| Trace.ExecFiles | Git_lib.py:30-33 | after a run that returns normally, each file holds what the last write to it wrote ("wb" overwrites) and every other file is as before |
| Trace.ExecFrame | Git_lib.py:4-51 | whether or not it raises, a run changes no file it does not write and no directory it does not create |
| Trace.ExecErrors | Git_lib.py:4-51 | a run raises a file-system error or the error of one of its own raise steps, nothing else |
| Trace.ExecKeepsWf | Git_lib.py:17-51 | every run keeps the tree well formed |
| Trace.ExecDirsGrow | Git_lib.py:17-51 | no run removes a directory |
| DiffExport.MakeTrees | Git_lib.py:15-18 | makes `<sha1>/mod` then `<sha1>/org`, as the first two calls of the export |
| DiffExport.CopyBlob | Git_lib.py:37-42 | makes the parent of `<tree>/<path>`, then writes the blob's bytes there |
| DiffExport.ExportModifiedEntry | Git_lib.py:20-33 | for one Modified entry: both parents made, then the new bytes written under mod and the old under org; an absent blob raises before any call |
| DiffExport.ExportIndexEntry | Git_lib.py:68-84 | for one entry of the index-to-working-tree diff: each side is written only when its blob is present with a non-empty path |
| DiffExport.ExportEntry | Git_lib.py:20-51 | one iteration of whichever of the four loops is running |
| DiffExport.ExportEntries | Git_lib.py:20-51 | one loop over a list of entries, stopping at the first exception |
| DiffExport.ExportDiffFiles | Git_lib.py:4-51 | `export_diff_files` makes the calls of a failed lookup, of a root commit, or of the two trees followed by the Modified, Added and Deleted loops, and ends in the state and with the error that call list gives |
| DiffExport.ExportUncommittedChanges | Git_lib.py:54-84 | `export_uncommitted_changes` makes the two trees and then runs the guarded loop over the index-to-working-tree diff, ending as that call list gives |
| DiffExportProperties.ExportDiffFilesModTree | Git_lib.py:20-42 | after a normal return, `mod/<rel>` holds the new bytes of the last Modified-or-Added entry whose new blob is at `rel`, else what it held before |
| DiffExportProperties.ExportDiffFilesOrgTree | Git_lib.py:20-51 | after a normal return, `org/<rel>` holds the old bytes of the last Modified-or-Deleted entry whose old blob is at `rel`, else what it held before; Added entries never reach org |
| DiffExportProperties.ExportDiffFilesWrittenPaths | Git_code_change.py:28-59 | the files written are exactly the b-paths of Modified and Added entries under mod and the a-paths of Modified and Deleted entries under org |
| DiffExportProperties.ExportDiffFilesModParents | Git_lib.py:26-42 | after a normal return, each Modified or Added entry's file exists under mod, in a directory that exists |
| DiffExportProperties.ExportDiffFilesOrgParents | Git_lib.py:44-51 | after a normal return, each Modified or Deleted entry's file exists under org, in a directory that exists |
| DiffExportProperties.ExportDiffFilesTrees | Git_lib.py:15-18 | after a normal return, `<sha1>/mod` and `<sha1>/org` exist, whatever the three lists hold |
| DiffExportProperties.EmptyDiffMakesTrees | Git_lib.py:15-18 | with three empty lists the export returns exactly when none of `<sha1>`, mod and org is an existing file, and then adds exactly those three directories and writes nothing |
| DiffExportProperties.ExportDiffFilesTreesFirst | Git_code_change.py:23-26 | once any file has changed, both trees exist: they are made before any write |
| DiffExportProperties.ExportUncommittedTreesFirst | Git_lib.py:63-66 | the same for the uncommitted export |
| DiffExportProperties.ExportDiffFilesFrame | Git_lib.py:15-51 | whether it returns or raises, the export changes no file outside mod and org and no directory outside `<sha1>` |
| DiffExportProperties.ExportUncommittedFrame | Git_lib.py:63-84 | the same for the uncommitted export and its timestamp directory |
| DiffExportProperties.NoFirstParentNoOutput | Git_lib.py:5-7 | a revision git cannot resolve, or a root commit (`parents[0]` raises IndexError), raises before any directory is made: the store is unchanged |
| DiffExportProperties.ExportDiffFilesErrors | Git_lib.py:5-51 | the export raises only for a failed lookup, a root commit, a missing blob or a file-system error, and only the last two once the diff is known |
| DiffExportProperties.ExportDiffFilesNeedsBlobs | Git_lib.py:20-51 | an entry without the blob its loop reads (`b_blob` for Modified and Added, `a_blob` for Modified and Deleted) makes the export raise |
| DiffExportProperties.ExportUncommittedErrors | Git_lib.py:68-84 | the guards keep the uncommitted export from raising by itself: only a file-system error can stop it |
| DiffExportProperties.ExportUncommittedModTree | Git_lib.py:72-77 | after a normal return, `mod/<rel>` holds the last guarded new-side bytes at `rel` |
| DiffExportProperties.ExportUncommittedOrgTree | Git_lib.py:79-84 | after a normal return, `org/<rel>` holds the last guarded old-side bytes at `rel` |
| DiffExportProperties.UncommittedEntryGuards | Git_lib.py:68-84 | one entry of the index-to-working-tree diff writes `mod/<b.path>` exactly when its new blob is present with a non-empty path, `org/<a.path>` exactly when its old blob is, and nothing else |
| DiffExportProperties.CommitOpsWithin | Git_code_change.py:23-59 | every call of `export_diff_files(repo, sha1)` stays inside the directory `sha1` |
| Locality.ExecCommute | Git_code_change.py:116-123 | call lists inside two different top-level directories commute: either order gives the same store, and each raises what it raises alone |
| GitCodeChange.LineEdit.constructor | Git_code_change.py:97 | a new input box is empty |
| GitCodeChange.GitDiffExportApp.constructor | Git_code_change.py:79 | the list of input boxes starts as just the designer's box |
| GitCodeChange.GitDiffExportApp.ChangeNumSha1 | Git_code_change.py:93-104 | the list becomes `index + 1` long: growing appends fresh, distinct, empty boxes and keeps the old ones; shrinking pops from the end; for `index < -1` it empties the list and then raises (`pop` from an empty list) |
| GitCodeChange.Texts | Git_code_change.py:108 | `sha1_list` holds the text of each box, in order |
| GitCodeChange.FirstInvalid | Git_code_change.py:110-113 | the position of the first invalid SHA-1, every earlier one valid, or the list length when all are valid |
| GitCodeChange.FirstInvalidAt | Git_code_change.py:110-113 | an invalid SHA-1 with only valid ones before it is the first invalid one |
| GitCodeChange.FirstInvalidMeans | Git_code_change.py:110-113 | the list is accepted exactly when every SHA-1 in it is valid |
| GitCodeChange.CheckSha1s | Git_code_change.py:110-113 | the check loop returns the first invalid position |
| GitCodeChange.RunExports | Git_code_change.py:116-123 | one `export_diff_files(repo_path, sha1)` per list element, in list order, each ending normally or with its exception |
| GitCodeChange.GitDiffExportApp.Start | Git_code_change.py:106-125 | with an invalid SHA-1 in the list, the first is reported and nothing is exported; otherwise each SHA-1 is exported once, in order, with the same repo path, and completion is reported |
| GitCodeChange.ExportAllFrame | Git_code_change.py:117-120 | the batch changes nothing outside the directories the list names |
| GitCodeChange.ExportAllKeepsWf | Git_code_change.py:117-120 | the batch keeps the tree well formed |
| GitCodeChange.ExportAllIsolated | Git_code_change.py:116-123 | with distinct SHA-1s, each commit's directory ends exactly as if its export had run alone |
| GitCodeChange.ExportAllOrderFree | Git_code_change.py:116-123 | with distinct SHA-1s, the final store does not depend on the order the exports ran in |

## Left out

- GitPython is not modelled: `Repo`, `repo.commit`, `parents[0]`, `diff`, `iter_change_type`, `index.diff` and `data_stream.read`. What they answer is an input:
  - `CommitLookup` is an unresolved revision, a root commit, or the Modified, Added and Deleted lists;
  - `export_uncommitted_changes` takes the index-to-working-tree diff (`repo.index.diff(None)`, Git_lib.py:60) as a list;
  - each `Blob` carries its path and the bytes `data_stream.read()` returns.
- Which entries git puts in which of the three lists (`iter_change_type` with `"M"`, `"A"` and `"D"`) is not modelled: the model takes the three lists as given, so an edited rename or a type change that git files under Modified is exported like any Modified entry. An entry's change type is not part of `DiffEntry`.
- `hasattr(blob, 'data_stream')` (Git_lib.py:72, 79) always holds for a git blob, so only the presence and path tests are modelled.
- `repo.git.add('-A')` (Git_lib.py:58) changes the repository's index, not the output, and is not modelled.
- `datetime.now()` (Git_lib.py:62) is not modelled: the timestamp label is the `dest` parameter.
- The threads of `start` (Git_code_change.py:116-123) run one after another in the model. This is justified by `ExecCommute`, `ExportAllIsolated` and `ExportAllOrderFree` for distinct SHA-1s. Two things are not modelled:
  - interleavings finer than a whole export;
  - the same SHA-1 entered twice. Two threads would then race on one directory; the model runs the export twice.
  - case-insensitive file systems. `is_valid_sha1` accepts both `abc…` and `ABC…`, which name the same commit; the model's paths compare case-sensitively, so on a case-insensitive file system two such strings share a directory and `ExportAllIsolated` and `ExportAllOrderFree` do not apply to them.
- The traceback a failing thread prints is not modelled.
- The UI is not modelled:
  - the `QMessageBox` dialogs; only which one appears is modelled, as `StartOutcome`;
  - `browse` and `closeEvent`;
  - the window setup in `__init__`, apart from `sha1_inputs`;
  - the `insertRow`, `removeWidget` and `deleteLater` layout calls in `change_num_sha1`;
  - the JSON config file;
  - TEST.py.
- The repository path is the `repoPath` parameter of `Start`: the model assumes `repo_path_input.text()` (Git_code_change.py:107) returns the path. The widget's class is declared in the UI file, which is not part of this model. The source also calls `setPlainText` on it (Git_code_change.py:91, 141), and no single Qt widget class has both methods, so one of those calls raises AttributeError as written; if it is a plain-text box, `start` raises at line 107 before validating anything.
- The operating system is reduced to directories and files:
  - permissions, free space, symbolic links, path separators and absolute paths are not modelled (git's blob paths are relative);
  - `open(p, "wb")` and the `write` after it are one step, so a write that fails after truncating the file is not modelled.
- GitCodeChange.GitDiffExportApp.Start: its postcondition is stated over the texts of the boxes when `start` is called.
- GitCodeChange.GitDiffExportApp.ChangeNumSha1: does not state the form-layout effects, which are UI calls.

Behaviour of the code worth knowing:

- `is_valid_sha1` rejects the empty string.
- `start` shows the completion dialog even when an export raised: the exception stays in its thread.
- `export_diff_files` raises AttributeError on an entry without the blob its loop reads, leaving the files written before it in place.
- `export_diff_files` raises IndexError on a root commit (`NoParent`), and nothing is written.
- The exports write only the copied files: no manifest or summary file.
