/**
 * The diff export of Git_lib.py (`export_diff_files`, duplicated verbatim
 * in Git_code_change.py, and `export_uncommitted_changes`). What git
 * answers (the commit, its first parent, the diff and its classification by
 * `iter_change_type`, the bytes of each blob) is taken as input; the output
 * goes through a `FileSystem`.
 */
module DiffExport {
  import opened Wrappers
  import opened FileStore
  import opened Trace

  /** One side of a diff entry: the blob's path in its tree and the bytes `data_stream.read()` returns. */
  datatype Blob = Blob(path: Path, data: Bytes)

  /**
   * A `git.Diff`: `oldBlob` is its a_blob, `newBlob` its b_blob; either may be
   * absent. Its change type is not kept: the exports read it only through the
   * list an entry arrives in.
   */
  datatype DiffEntry = DiffEntry(oldBlob: Option<Blob>, newBlob: Option<Blob>)

  /**
   * What `git.Repo(repo_path).commit(sha1)` and `commit.parents[0].diff(commit)`
   * give: no such repository or revision, a root commit, or the diff against
   * the first parent as `iter_change_type` splits it into M, A and D.
   */
  datatype CommitLookup =
    | Unresolved
    | RootCommit
    | FirstParentDiff(modified: seq<DiffEntry>, added: seq<DiffEntry>, deleted: seq<DiffEntry>)

  /** `os.path.join(dest, "mod")`: the tree of new-side contents. */
  function ModDir(dest: string): Path { [dest, "mod"] }

  /** `os.path.join(dest, "org")`: the tree of old-side contents. */
  function OrgDir(dest: string): Path { [dest, "org"] }

  /** The two calls that open every export: `os.makedirs` of mod and of org. */
  function TreeOps(dest: string): seq<Op> {
    [MakeDirsOp(ModDir(dest)), MakeDirsOp(OrgDir(dest))]
  }

  /** Create the parent of `dir + b.path`, then write the blob's bytes there. */
  function CopyOps(dir: Path, b: Blob): seq<Op> {
    var p := dir + b.path;
    [MakeDirsOp(Dirname(p)), WriteOp(p, b.data)]
  }

  /** The body of each of the four export loops. */
  datatype Loop = ModifiedLoop | AddedLoop | DeletedLoop | UncommittedLoop

  /** Whether `export_uncommitted_changes` exports this side: present, with a non-empty path. */
  predicate Exported(b: Option<Blob>) {
    b.Some? && b.value.path != []
  }

  function EntryOps(dest: string, loop: Loop, e: DiffEntry): seq<Op> {
    match loop
    case ModifiedLoop =>
      // new_blob.path, then old_blob.path; an absent blob raises before any call
      if e.newBlob.None? || e.oldBlob.None? then [RaiseOp(MissingBlob)]
      else
        var newPath := ModDir(dest) + e.newBlob.value.path;
        var oldPath := OrgDir(dest) + e.oldBlob.value.path;
        [MakeDirsOp(Dirname(newPath)), MakeDirsOp(Dirname(oldPath)),
         WriteOp(newPath, e.newBlob.value.data), WriteOp(oldPath, e.oldBlob.value.data)]
    case AddedLoop =>
      if e.newBlob.None? then [RaiseOp(MissingBlob)] else CopyOps(ModDir(dest), e.newBlob.value)
    case DeletedLoop =>
      if e.oldBlob.None? then [RaiseOp(MissingBlob)] else CopyOps(OrgDir(dest), e.oldBlob.value)
    case UncommittedLoop =>
      GuardedCopy(ModDir(dest), e.newBlob) + GuardedCopy(OrgDir(dest), e.oldBlob)
  }

  /** One guarded copy of `export_uncommitted_changes`: nothing unless the blob is exported. */
  function GuardedCopy(dir: Path, b: Option<Blob>): seq<Op> {
    if Exported(b) then CopyOps(dir, b.value) else []
  }

  /** One loop over `es`, entry by entry. */
  function LoopOps(dest: string, loop: Loop, es: seq<DiffEntry>): seq<Op>
    decreases |es|
  {
    if es == [] then [] else EntryOps(dest, loop, es[0]) + LoopOps(dest, loop, es[1..])
  }

  /** Every call `export_diff_files(repo_path, dest)` makes, in order. */
  function CommitOps(dest: string, lookup: CommitLookup): seq<Op> {
    match lookup
    case Unresolved => [RaiseOp(LookupFailed)]
    case RootCommit => [RaiseOp(NoParent)]
    case FirstParentDiff(m, a, d) => TreeOps(dest) + DiffOps(dest, m, a, d)
  }

  /** The three loops of `export_diff_files`: Modified, then Added, then Deleted. */
  function DiffOps(dest: string, m: seq<DiffEntry>, a: seq<DiffEntry>, d: seq<DiffEntry>): seq<Op> {
    LoopOps(dest, ModifiedLoop, m) + (LoopOps(dest, AddedLoop, a) + LoopOps(dest, DeletedLoop, d))
  }

  /** Every call `export_uncommitted_changes` makes, in order, for the index diff `diff`. */
  function UncommittedOps(dest: string, diff: seq<DiffEntry>): seq<Op> {
    TreeOps(dest) + LoopOps(dest, UncommittedLoop, diff)
  }

  /** `os.makedirs(mod_dir)` then `os.makedirs(org_dir)`. */
  method MakeTrees(fs: FileSystem, dest: string) returns (error: Option<ExportError>)
    requires fs.Valid()
    modifies fs
    ensures fs.Valid()
    ensures Exec(old(fs.State()), TreeOps(dest)) == Run(fs.State(), error)
  {
    ghost var ops := TreeOps(dest);
    var r := fs.MakeDirs(ModDir(dest));
    if r.Fail? {
      return Some(FsFailed(r.error));
    }
    assert Exec(old(fs.State()), ops) == Exec(fs.State(), ops[1..]);
    r := fs.MakeDirs(OrgDir(dest));
    if r.Fail? {
      return Some(FsFailed(r.error));
    }
    assert Exec(old(fs.State()), ops) == Exec(fs.State(), ops[2..]);
    error := None;
  }

  /** `os.makedirs(os.path.dirname(p))` then `open(p, "wb").write(b.data)`, for `p` = `dir + b.path`. */
  method CopyBlob(fs: FileSystem, dir: Path, b: Blob) returns (error: Option<ExportError>)
    requires fs.Valid()
    modifies fs
    ensures fs.Valid()
    ensures Exec(old(fs.State()), CopyOps(dir, b)) == Run(fs.State(), error)
  {
    var path := dir + b.path;
    ghost var st0 := fs.State();
    ghost var ops := CopyOps(dir, b);
    assert ops[0] == MakeDirsOp(Dirname(path)) && ops[1..] == [WriteOp(path, b.data)];
    var r := fs.MakeDirs(Dirname(path));
    if r.Fail? {
      assert Apply(st0, ops[0]) == Stop(FsFailed(r.error));
      assert Exec(st0, ops) == Run(st0, Some(FsFailed(r.error)));
      return Some(FsFailed(r.error));
    }
    ghost var st1 := fs.State();
    assert Apply(st0, ops[0]) == Next(st1);
    assert Exec(st0, ops) == Exec(st1, ops[1..]);
    r := fs.WriteFile(path, b.data);
    if r.Fail? {
      assert Apply(st1, WriteOp(path, b.data)) == Stop(FsFailed(r.error));
      assert Exec(st1, [WriteOp(path, b.data)]) == Run(st1, Some(FsFailed(r.error)));
      return Some(FsFailed(r.error));
    }
    assert Apply(st1, WriteOp(path, b.data)) == Next(fs.State());
    assert [WriteOp(path, b.data)][1..] == [];
    assert Exec(st1, [WriteOp(path, b.data)]) == Run(fs.State(), None);
    error := None;
  }

  /** One pass of the Modified loop of `export_diff_files`: both parents, then the new side, then the old side. */
  method ExportModifiedEntry(fs: FileSystem, dest: string, diffFile: DiffEntry) returns (error: Option<ExportError>)
    requires fs.Valid()
    modifies fs
    ensures fs.Valid()
    ensures Exec(old(fs.State()), EntryOps(dest, ModifiedLoop, diffFile)) == Run(fs.State(), error)
  {
    if diffFile.newBlob.None? || diffFile.oldBlob.None? {
      return Some(MissingBlob);
    }
    var newBlob, oldBlob := diffFile.newBlob.value, diffFile.oldBlob.value;
    var newFilePath := ModDir(dest) + newBlob.path;
    var oldFilePath := OrgDir(dest) + oldBlob.path;
    ghost var todo := EntryOps(dest, ModifiedLoop, diffFile);
    var r := fs.MakeDirs(Dirname(newFilePath));
    if r.Fail? {
      return Some(FsFailed(r.error));
    }
    assert Exec(old(fs.State()), todo) == Exec(fs.State(), todo[1..]);
    r := fs.MakeDirs(Dirname(oldFilePath));
    if r.Fail? {
      return Some(FsFailed(r.error));
    }
    assert Exec(old(fs.State()), todo) == Exec(fs.State(), todo[2..]);
    r := fs.WriteFile(newFilePath, newBlob.data);
    if r.Fail? {
      return Some(FsFailed(r.error));
    }
    assert Exec(old(fs.State()), todo) == Exec(fs.State(), todo[3..]);
    r := fs.WriteFile(oldFilePath, oldBlob.data);
    if r.Fail? {
      return Some(FsFailed(r.error));
    }
    assert Exec(old(fs.State()), todo) == Exec(fs.State(), todo[4..]);
    error := None;
  }

  /** One pass of the loop of `export_uncommitted_changes`: each side is written only when present with a path. */
  method ExportIndexEntry(fs: FileSystem, dest: string, diffFile: DiffEntry) returns (error: Option<ExportError>)
    requires fs.Valid()
    modifies fs
    ensures fs.Valid()
    ensures Exec(old(fs.State()), EntryOps(dest, UncommittedLoop, diffFile)) == Run(fs.State(), error)
  {
    ghost var st0 := fs.State();
    ghost var newOps := GuardedCopy(ModDir(dest), diffFile.newBlob);
    ghost var oldOps := GuardedCopy(OrgDir(dest), diffFile.oldBlob);
    assert EntryOps(dest, UncommittedLoop, diffFile) == newOps + oldOps;
    ExecAppend(st0, newOps, oldOps);
    if Exported(diffFile.newBlob) {
      error := CopyBlob(fs, ModDir(dest), diffFile.newBlob.value);
      if error.Some? {
        return;
      }
    }
    ghost var st1 := fs.State();
    assert Exec(st0, newOps) == Run(st1, None);
    if Exported(diffFile.oldBlob) {
      error := CopyBlob(fs, OrgDir(dest), diffFile.oldBlob.value);
    } else {
      error := None;
      assert Exec(st1, oldOps) == Run(st1, None);
    }
  }

  /** One pass of the body of loop `loop` on `diffFile`. */
  method ExportEntry(fs: FileSystem, dest: string, loop: Loop, diffFile: DiffEntry) returns (error: Option<ExportError>)
    requires fs.Valid()
    modifies fs
    ensures fs.Valid()
    ensures Exec(old(fs.State()), EntryOps(dest, loop, diffFile)) == Run(fs.State(), error)
  {
    match loop
    case ModifiedLoop =>
      error := ExportModifiedEntry(fs, dest, diffFile);
    case AddedLoop =>
      if diffFile.newBlob.None? {
        return Some(MissingBlob);
      }
      error := CopyBlob(fs, ModDir(dest), diffFile.newBlob.value);
    case DeletedLoop =>
      if diffFile.oldBlob.None? {
        return Some(MissingBlob);
      }
      error := CopyBlob(fs, OrgDir(dest), diffFile.oldBlob.value);
    case UncommittedLoop =>
      error := ExportIndexEntry(fs, dest, diffFile);
  }

  /** `for diff_file in es: ...`, stopping at the first exception. */
  method ExportEntries(fs: FileSystem, dest: string, loop: Loop, es: seq<DiffEntry>) returns (error: Option<ExportError>)
    requires fs.Valid()
    modifies fs
    ensures fs.Valid()
    ensures Exec(old(fs.State()), LoopOps(dest, loop, es)) == Run(fs.State(), error)
  {
    ghost var st0 := fs.State();
    assert es[0..] == es;
    for i := 0 to |es|
      invariant fs.Valid()
      invariant Exec(st0, LoopOps(dest, loop, es)) == Exec(fs.State(), LoopOps(dest, loop, es[i..]))
    {
      assert es[i..][1..] == es[i + 1..];
      ExecAppend(fs.State(), EntryOps(dest, loop, es[i]), LoopOps(dest, loop, es[i + 1..]));
      error := ExportEntry(fs, dest, loop, es[i]);
      if error.Some? {
        return;
      }
    }
    error := None;
  }

  /** `export_diff_files`: the result is that of running `CommitOps` from the initial store. */
  method ExportDiffFiles(fs: FileSystem, dest: string, lookup: CommitLookup) returns (error: Option<ExportError>)
    requires fs.Valid()
    modifies fs
    ensures fs.Valid()
    ensures Exec(old(fs.State()), CommitOps(dest, lookup)) == Run(fs.State(), error)
  {
    if lookup.Unresolved? {
      return Some(LookupFailed);
    }
    if lookup.RootCommit? {
      return Some(NoParent);
    }
    var modifiedFiles, addedFiles, deletedFiles := lookup.modified, lookup.added, lookup.deleted;
    ghost var st0 := fs.State();
    ghost var modifiedOps := LoopOps(dest, ModifiedLoop, modifiedFiles);
    ghost var addedOps := LoopOps(dest, AddedLoop, addedFiles);
    ghost var deletedOps := LoopOps(dest, DeletedLoop, deletedFiles);
    ExecAppend(st0, TreeOps(dest), modifiedOps + (addedOps + deletedOps));
    error := MakeTrees(fs, dest);
    if error.Some? {
      return;
    }
    ExecAppend(fs.State(), modifiedOps, addedOps + deletedOps);
    error := ExportEntries(fs, dest, ModifiedLoop, modifiedFiles);
    if error.Some? {
      return;
    }
    ExecAppend(fs.State(), addedOps, deletedOps);
    error := ExportEntries(fs, dest, AddedLoop, addedFiles);
    if error.Some? {
      return;
    }
    error := ExportEntries(fs, dest, DeletedLoop, deletedFiles);
  }

  /**
   * `export_uncommitted_changes` for the index diff `diff` (what
   * `repo.index.diff(None)` returns after `git add -A`) into the directory
   * `dest` (the timestamp label).
   */
  method ExportUncommittedChanges(fs: FileSystem, dest: string, diff: seq<DiffEntry>) returns (error: Option<ExportError>)
    requires fs.Valid()
    modifies fs
    ensures fs.Valid()
    ensures Exec(old(fs.State()), UncommittedOps(dest, diff)) == Run(fs.State(), error)
  {
    ExecAppend(fs.State(), TreeOps(dest), LoopOps(dest, UncommittedLoop, diff));
    error := MakeTrees(fs, dest);
    if error.Some? {
      return;
    }
    error := ExportEntries(fs, dest, UncommittedLoop, diff);
  }
}

/** What the two exports leave on disk, proved about their call sequences. */
module DiffExportProperties {
  import opened Wrappers
  import opened FileStore
  import opened Trace
  import opened DiffExport
  import opened Locality

  datatype Side = OldSide | NewSide

  function SideBlob(e: DiffEntry, side: Side): Option<Blob> {
    if side == OldSide then e.oldBlob else e.newBlob
  }

  /** The tree a side is exported to: the new side to mod, the old side to org. */
  function TreeDir(dest: string, side: Side): Path {
    if side == NewSide then ModDir(dest) else OrgDir(dest)
  }

  /** The bytes of side `side` of the last entry in `es` whose blob on that side has path `rel`. */
  function LastAt(es: seq<DiffEntry>, side: Side, rel: Path): Option<Bytes>
    decreases |es|
  {
    if es == [] then None
    else
      var b := SideBlob(es[0], side);
      LastAt(es[1..], side, rel).Or(if b.Some? && b.value.path == rel then Some(b.value.data) else None)
  }

  lemma {:induction false} LastAtAppend(a: seq<DiffEntry>, b: seq<DiffEntry>, side: Side, rel: Path)
    ensures LastAt(a + b, side, rel) == LastAt(b, side, rel).Or(LastAt(a, side, rel))
    decreases |a|
  {
    if a != [] {
      assert (a + b)[0] == a[0];
      assert (a + b)[1..] == a[1..] + b;
      LastAtAppend(a[1..], b, side, rel);
    } else {
      assert a + b == b;
    }
  }

  /** The blobs loop `loop` reads: both for Modified, the new one for Added, the old one for Deleted. */
  predicate HasBlobs(loop: Loop, e: DiffEntry) {
    match loop
    case ModifiedLoop => e.oldBlob.Some? && e.newBlob.Some?
    case AddedLoop => e.newBlob.Some?
    case DeletedLoop => e.oldBlob.Some?
    case UncommittedLoop => true
  }

  /** Whether loop `loop` exports side `side` at all. */
  predicate ExportsSide(loop: Loop, side: Side) {
    match loop
    case ModifiedLoop => true
    case AddedLoop => side == NewSide
    case DeletedLoop => side == OldSide
    case UncommittedLoop => true
  }

  lemma TreesDiffer(dest: string, x: Path, y: Path)
    ensures ModDir(dest) + x != OrgDir(dest) + y
  {
    assert (ModDir(dest) + x)[1] == "mod";
    assert (OrgDir(dest) + y)[1] == "org";
  }

  lemma SameTree(dir: Path, x: Path, y: Path)
    ensures dir + x == dir + y <==> x == y
  {
    if dir + x == dir + y {
      assert x == (dir + x)[|dir|..];
      assert y == (dir + y)[|dir|..];
    }
  }

  /** What one write of `(dir + b.path, b.data)` contributes at `TreeDir(dest, side) + rel`. */
  function WriteAt(dir: Path, b: Blob, at: Path): Option<Bytes> {
    if dir + b.path == at then Some(b.data) else None
  }

  lemma CopyWriteAt(dir: Path, b: Blob, at: Path)
    ensures LastWrite(Writes(CopyOps(dir, b)), at) == WriteAt(dir, b, at)
  {
    var ops := CopyOps(dir, b);
    assert Writes(ops) == [(dir + b.path, b.data)] by {
      assert Writes(ops[2..]) == [];
      assert Writes(ops[1..]) == [(dir + b.path, b.data)] + Writes(ops[2..]);
    }
  }

  /** A write into tree `wside` lands at `TreeDir(dest, side) + rel` only for the same tree and the same relative path. */
  lemma WriteAtTree(dest: string, wside: Side, b: Blob, side: Side, rel: Path)
    ensures WriteAt(TreeDir(dest, wside), b, TreeDir(dest, side) + rel) ==
      if wside == side && b.path == rel then Some(b.data) else None
  {
    if wside == side {
      SameTree(TreeDir(dest, side), b.path, rel);
    } else if wside == NewSide {
      TreesDiffer(dest, b.path, rel);
    } else {
      TreesDiffer(dest, rel, b.path);
    }
  }

  /** The value one entry is expected to leave in tree `side` at `rel`. */
  function EntryAt(loop: Loop, e: DiffEntry, side: Side, rel: Path): Option<Bytes> {
    var b := SideBlob(e, side);
    if ExportsSide(loop, side) && b.Some? && b.value.path == rel then Some(b.value.data) else None
  }

  lemma ModifiedWriteAt(dest: string, e: DiffEntry, side: Side, rel: Path)
    requires HasBlobs(ModifiedLoop, e)
    ensures LastWrite(Writes(EntryOps(dest, ModifiedLoop, e)), TreeDir(dest, side) + rel) == EntryAt(ModifiedLoop, e, side, rel)
  {
    var at := TreeDir(dest, side) + rel;
    var n, o := e.newBlob.value, e.oldBlob.value;
    var ops := EntryOps(dest, ModifiedLoop, e);
    var ws := [(ModDir(dest) + n.path, n.data), (OrgDir(dest) + o.path, o.data)];
    assert Writes(ops) == ws by {
      assert Writes(ops[4..]) == [];
      assert Writes(ops[3..]) == [(OrgDir(dest) + o.path, o.data)] + Writes(ops[4..]);
      assert Writes(ops[2..]) == [(ModDir(dest) + n.path, n.data)] + Writes(ops[3..]);
      assert Writes(ops[1..]) == Writes(ops[2..]);
    }
    assert ws[1..][1..] == [];
    assert LastWrite(ws[1..], at) == WriteAt(OrgDir(dest), o, at);
    assert LastWrite(ws, at) == LastWrite(ws[1..], at).Or(WriteAt(ModDir(dest), n, at));
    WriteAtTree(dest, NewSide, n, side, rel);
    WriteAtTree(dest, OldSide, o, side, rel);
  }

  lemma GuardedWriteAt(dest: string, wside: Side, b: Option<Blob>, side: Side, rel: Path)
    requires rel != []
    ensures LastWrite(Writes(GuardedCopy(TreeDir(dest, wside), b)), TreeDir(dest, side) + rel) ==
      if wside == side && b.Some? && b.value.path == rel then Some(b.value.data) else None
  {
    if Exported(b) {
      CopyWriteAt(TreeDir(dest, wside), b.value, TreeDir(dest, side) + rel);
      WriteAtTree(dest, wside, b.value, side, rel);
    } else {
      assert Writes(GuardedCopy(TreeDir(dest, wside), b)) == [];
    }
  }

  lemma UncommittedWriteAt(dest: string, e: DiffEntry, side: Side, rel: Path)
    requires rel != []
    ensures LastWrite(Writes(EntryOps(dest, UncommittedLoop, e)), TreeDir(dest, side) + rel) == EntryAt(UncommittedLoop, e, side, rel)
  {
    var at := TreeDir(dest, side) + rel;
    var newOps, oldOps := GuardedCopy(ModDir(dest), e.newBlob), GuardedCopy(OrgDir(dest), e.oldBlob);
    assert EntryOps(dest, UncommittedLoop, e) == newOps + oldOps;
    WritesAppend(newOps, oldOps);
    LastWriteAppend(Writes(newOps), Writes(oldOps), at);
    GuardedWriteAt(dest, NewSide, e.newBlob, side, rel);
    GuardedWriteAt(dest, OldSide, e.oldBlob, side, rel);
  }

  /** The last write one entry makes in tree `side` at `rel` is that side's blob, when the loop exports it. */
  lemma EntryWriteAt(dest: string, loop: Loop, e: DiffEntry, side: Side, rel: Path)
    requires HasBlobs(loop, e)
    requires loop == UncommittedLoop ==> rel != []
    ensures LastWrite(Writes(EntryOps(dest, loop, e)), TreeDir(dest, side) + rel) == EntryAt(loop, e, side, rel)
  {
    var at := TreeDir(dest, side) + rel;
    match loop
    case ModifiedLoop =>
      ModifiedWriteAt(dest, e, side, rel);
    case AddedLoop =>
      CopyWriteAt(ModDir(dest), e.newBlob.value, at);
      WriteAtTree(dest, NewSide, e.newBlob.value, side, rel);
    case DeletedLoop =>
      CopyWriteAt(OrgDir(dest), e.oldBlob.value, at);
      WriteAtTree(dest, OldSide, e.oldBlob.value, side, rel);
    case UncommittedLoop =>
      UncommittedWriteAt(dest, e, side, rel);
  }

  /** Over a whole loop, the last write in tree `side` at `rel` comes from the last entry with a blob there. */
  lemma {:induction false} LoopWriteAt(dest: string, loop: Loop, es: seq<DiffEntry>, side: Side, rel: Path)
    requires forall e :: e in es ==> HasBlobs(loop, e)
    requires loop == UncommittedLoop ==> rel != []
    ensures LastWrite(Writes(LoopOps(dest, loop, es)), TreeDir(dest, side) + rel) ==
      if ExportsSide(loop, side) then LastAt(es, side, rel) else None
    decreases |es|
  {
    if es != [] {
      var at := TreeDir(dest, side) + rel;
      var first := EntryOps(dest, loop, es[0]);
      var rest := LoopOps(dest, loop, es[1..]);
      WritesAppend(first, rest);
      LastWriteAppend(Writes(first), Writes(rest), at);
      EntryWriteAt(dest, loop, es[0], side, rel);
      LoopWriteAt(dest, loop, es[1..], side, rel);
    }
  }

  /** An entry without the blob its loop reads puts an AttributeError into the loop. */
  lemma {:induction false} MissingBlobRaises(dest: string, loop: Loop, es: seq<DiffEntry>, e: DiffEntry)
    requires e in es && !HasBlobs(loop, e)
    ensures RaiseOp(MissingBlob) in LoopOps(dest, loop, es)
    decreases |es|
  {
    if es[0] == e {
      assert EntryOps(dest, loop, e) == [RaiseOp(MissingBlob)];
    } else {
      MissingBlobRaises(dest, loop, es[1..], e);
    }
  }

  /** A run of `p + q` that finishes normally finishes `p` and then `q` normally. */
  lemma ExecAppendOk(st: Store, p: seq<Op>, q: seq<Op>)
    requires Exec(st, p + q).error.None?
    ensures Exec(st, p).error.None? && Exec(Exec(st, p).store, q) == Exec(st, p + q)
  {
    ExecAppend(st, p, q);
  }

  /** A normal run of `export_diff_files` leaves the files as its writes, in order, make them. */
  lemma CommitRunFiles(st: Store, dest: string, m: seq<DiffEntry>, a: seq<DiffEntry>, d: seq<DiffEntry>)
    requires Exec(st, CommitOps(dest, FirstParentDiff(m, a, d))).error.None?
    ensures Exec(st, CommitOps(dest, FirstParentDiff(m, a, d))).store.files
      == Overwrite(st.files, Writes(LoopOps(dest, ModifiedLoop, m)) + (Writes(LoopOps(dest, AddedLoop, a)) + Writes(LoopOps(dest, DeletedLoop, d))))
  {
    var mOps, aOps, dOps := LoopOps(dest, ModifiedLoop, m), LoopOps(dest, AddedLoop, a), LoopOps(dest, DeletedLoop, d);
    ExecFiles(st, CommitOps(dest, FirstParentDiff(m, a, d)));
    WritesAppend(TreeOps(dest), mOps + (aOps + dOps));
    WritesAppend(mOps, aOps + dOps);
    WritesAppend(aOps, dOps);
    assert Writes(TreeOps(dest)) == [] by {
      assert Writes(TreeOps(dest)[1..]) == Writes(TreeOps(dest)[2..]) == [];
    }
    assert [] + (Writes(mOps) + (Writes(aOps) + Writes(dOps))) == Writes(mOps) + (Writes(aOps) + Writes(dOps));
  }

  /** A normal run of `export_diff_files` found every blob its loops read. */
  lemma CommitRunBlobs(st: Store, dest: string, m: seq<DiffEntry>, a: seq<DiffEntry>, d: seq<DiffEntry>)
    requires Exec(st, CommitOps(dest, FirstParentDiff(m, a, d))).error.None?
    ensures forall e :: e in m ==> HasBlobs(ModifiedLoop, e)
    ensures forall e :: e in a ==> HasBlobs(AddedLoop, e)
    ensures forall e :: e in d ==> HasBlobs(DeletedLoop, e)
  {
    var mOps, aOps, dOps := LoopOps(dest, ModifiedLoop, m), LoopOps(dest, AddedLoop, a), LoopOps(dest, DeletedLoop, d);
    ExecAppendOk(st, TreeOps(dest), mOps + (aOps + dOps));
    var s1 := Exec(st, TreeOps(dest)).store;
    ExecAppendOk(s1, mOps, aOps + dOps);
    var s2 := Exec(s1, mOps).store;
    ExecAppendOk(s2, aOps, dOps);
    var s3 := Exec(s2, aOps).store;
    forall e | e in m ensures HasBlobs(ModifiedLoop, e) {
      if !HasBlobs(ModifiedLoop, e) {
        MissingBlobRaises(dest, ModifiedLoop, m, e);
        RaiseFails(s1, mOps, MissingBlob);
      }
    }
    forall e | e in a ensures HasBlobs(AddedLoop, e) {
      if !HasBlobs(AddedLoop, e) {
        MissingBlobRaises(dest, AddedLoop, a, e);
        RaiseFails(s2, aOps, MissingBlob);
      }
    }
    forall e | e in d ensures HasBlobs(DeletedLoop, e) {
      if !HasBlobs(DeletedLoop, e) {
        MissingBlobRaises(dest, DeletedLoop, d, e);
        RaiseFails(s3, dOps, MissingBlob);
      }
    }
  }

  /**
   * After a normal return of `export_diff_files`, `mod/<rel>` holds the new
   * bytes of the last Modified-or-Added entry whose new blob is at `rel`, and
   * what it held before when there is none: every such entry was written
   * there, in order, each write replacing the previous one.
   */
  lemma ExportDiffFilesModTree(st: Store, dest: string, m: seq<DiffEntry>, a: seq<DiffEntry>, d: seq<DiffEntry>, rel: Path)
    requires Exec(st, CommitOps(dest, FirstParentDiff(m, a, d))).error.None?
    ensures Get(Exec(st, CommitOps(dest, FirstParentDiff(m, a, d))).store.files, ModDir(dest) + rel)
      == LastAt(m + a, NewSide, rel).Or(Get(st.files, ModDir(dest) + rel))
  {
    CommitRunFiles(st, dest, m, a, d);
    CommitRunBlobs(st, dest, m, a, d);
    var wm, wa, wd := Writes(LoopOps(dest, ModifiedLoop, m)), Writes(LoopOps(dest, AddedLoop, a)), Writes(LoopOps(dest, DeletedLoop, d));
    var at := TreeDir(dest, NewSide) + rel;
    OverwriteGet(st.files, wm + (wa + wd), at);
    LastWriteAppend(wm, wa + wd, at);
    LastWriteAppend(wa, wd, at);
    LoopWriteAt(dest, ModifiedLoop, m, NewSide, rel);
    LoopWriteAt(dest, AddedLoop, a, NewSide, rel);
    LoopWriteAt(dest, DeletedLoop, d, NewSide, rel);
    LastAtAppend(m, a, NewSide, rel);
  }

  /**
   * After a normal return of `export_diff_files`, `org/<rel>` holds the old
   * bytes of the last Modified-or-Deleted entry whose old blob is at `rel`;
   * Added entries never reach org.
   */
  lemma ExportDiffFilesOrgTree(st: Store, dest: string, m: seq<DiffEntry>, a: seq<DiffEntry>, d: seq<DiffEntry>, rel: Path)
    requires Exec(st, CommitOps(dest, FirstParentDiff(m, a, d))).error.None?
    ensures Get(Exec(st, CommitOps(dest, FirstParentDiff(m, a, d))).store.files, OrgDir(dest) + rel)
      == LastAt(m + d, OldSide, rel).Or(Get(st.files, OrgDir(dest) + rel))
  {
    CommitRunFiles(st, dest, m, a, d);
    CommitRunBlobs(st, dest, m, a, d);
    var wm, wa, wd := Writes(LoopOps(dest, ModifiedLoop, m)), Writes(LoopOps(dest, AddedLoop, a)), Writes(LoopOps(dest, DeletedLoop, d));
    var at := TreeDir(dest, OldSide) + rel;
    OverwriteGet(st.files, wm + (wa + wd), at);
    LastWriteAppend(wm, wa + wd, at);
    LastWriteAppend(wa, wd, at);
    LoopWriteAt(dest, ModifiedLoop, m, OldSide, rel);
    LoopWriteAt(dest, AddedLoop, a, OldSide, rel);
    LoopWriteAt(dest, DeletedLoop, d, OldSide, rel);
    LastAtAppend(m, d, OldSide, rel);
  }

  /** `q` lies in mod or in org. */
  predicate InTrees(dest: string, q: Path) {
    ModDir(dest) <= q || OrgDir(dest) <= q
  }

  /** Copying one blob writes exactly its path and creates exactly the ancestors of its parent. */
  lemma CopySets(dir: Path, b: Blob)
    ensures WrittenPaths(CopyOps(dir, b)) == {dir + b.path}
    ensures CreatedDirs(CopyOps(dir, b)) == Ancestors(Dirname(dir + b.path))
  {
    var ops := CopyOps(dir, b);
    assert WrittenPaths(ops[1..][1..]) == {};
    assert CreatedDirs(ops[1..]) == CreatedDirs(ops[1..][1..]) == {};
  }

  /** A Modified entry writes exactly its two paths and creates exactly the ancestors of their parents. */
  lemma ModifiedSets(dest: string, e: DiffEntry)
    requires HasBlobs(ModifiedLoop, e)
    ensures var n, o := ModDir(dest) + e.newBlob.value.path, OrgDir(dest) + e.oldBlob.value.path;
      && WrittenPaths(EntryOps(dest, ModifiedLoop, e)) == {n, o}
      && CreatedDirs(EntryOps(dest, ModifiedLoop, e)) == Ancestors(Dirname(n)) + Ancestors(Dirname(o))
  {
    var ops := EntryOps(dest, ModifiedLoop, e);
    var n := ModDir(dest) + e.newBlob.value.path;
    var o := OrgDir(dest) + e.oldBlob.value.path;
    assert WrittenPaths(ops) == {n, o} by {
      assert WrittenPaths(ops[3..]) == {o} by { assert ops[3..][1..] == []; }
      assert WrittenPaths(ops[2..]) == {n} + WrittenPaths(ops[3..]);
      assert WrittenPaths(ops[1..]) == WrittenPaths(ops[2..]);
    }
    assert CreatedDirs(ops) == Ancestors(Dirname(n)) + Ancestors(Dirname(o)) by {
      assert CreatedDirs(ops[2..]) == {} by {
        assert CreatedDirs(ops[3..]) == CreatedDirs(ops[3..][1..]) == {};
      }
      assert CreatedDirs(ops[1..]) == Ancestors(Dirname(o)) + CreatedDirs(ops[2..]);
    }
  }

  lemma CopyUnder(dest: string, side: Side, b: Blob)
    ensures forall q :: q in WrittenPaths(CopyOps(TreeDir(dest, side), b)) ==> InTrees(dest, q)
    ensures forall q :: q in CreatedDirs(CopyOps(TreeDir(dest, side), b)) ==> Within(dest, q)
  {
    var p := TreeDir(dest, side) + b.path;
    CopySets(TreeDir(dest, side), b);
    assert TreeDir(dest, side) <= p;
    forall q | q in Ancestors(Dirname(p)) ensures Within(dest, q) {
      AncestorsMeans(Dirname(p), q);
      assert q[0] == Dirname(p)[0] == p[0];
    }
  }

  lemma ModifiedUnder(dest: string, e: DiffEntry)
    requires HasBlobs(ModifiedLoop, e)
    ensures forall q :: q in WrittenPaths(EntryOps(dest, ModifiedLoop, e)) ==> InTrees(dest, q)
    ensures forall q :: q in CreatedDirs(EntryOps(dest, ModifiedLoop, e)) ==> Within(dest, q)
  {
    var n := ModDir(dest) + e.newBlob.value.path;
    var o := OrgDir(dest) + e.oldBlob.value.path;
    ModifiedSets(dest, e);
    assert ModDir(dest) <= n && OrgDir(dest) <= o;
    forall q | q in Ancestors(Dirname(n)) ensures Within(dest, q) {
      AncestorsMeans(Dirname(n), q);
      assert q[0] == Dirname(n)[0] == n[0];
    }
    forall q | q in Ancestors(Dirname(o)) ensures Within(dest, q) {
      AncestorsMeans(Dirname(o), q);
      assert q[0] == Dirname(o)[0] == o[0];
    }
  }

  /** Every path an entry writes is in mod or org, and every directory it creates is inside `dest`. */
  lemma EntryUnder(dest: string, loop: Loop, e: DiffEntry)
    ensures forall q :: q in WrittenPaths(EntryOps(dest, loop, e)) ==> InTrees(dest, q)
    ensures forall q :: q in CreatedDirs(EntryOps(dest, loop, e)) ==> Within(dest, q)
  {
    var ops := EntryOps(dest, loop, e);
    if !HasBlobs(loop, e) {
      assert ops == [RaiseOp(MissingBlob)];
      assert WrittenPaths(ops) == {} && CreatedDirs(ops) == {} by {
        assert ops[1..] == [];
      }
    } else {
      match loop
      case ModifiedLoop => ModifiedUnder(dest, e);
      case AddedLoop => CopyUnder(dest, NewSide, e.newBlob.value);
      case DeletedLoop => CopyUnder(dest, OldSide, e.oldBlob.value);
      case UncommittedLoop => UncommittedUnder(dest, e);
    }
  }

  lemma UncommittedUnder(dest: string, e: DiffEntry)
    ensures forall q :: q in WrittenPaths(EntryOps(dest, UncommittedLoop, e)) ==> InTrees(dest, q)
    ensures forall q :: q in CreatedDirs(EntryOps(dest, UncommittedLoop, e)) ==> Within(dest, q)
  {
    var newOps := GuardedCopy(ModDir(dest), e.newBlob);
    var oldOps := GuardedCopy(OrgDir(dest), e.oldBlob);
    assert EntryOps(dest, UncommittedLoop, e) == newOps + oldOps;
    WrittenPathsAppend(newOps, oldOps);
    if Exported(e.newBlob) { CopyUnder(dest, NewSide, e.newBlob.value); }
    if Exported(e.oldBlob) { CopyUnder(dest, OldSide, e.oldBlob.value); }
  }

  lemma {:induction false} LoopUnder(dest: string, loop: Loop, es: seq<DiffEntry>)
    ensures forall q :: q in WrittenPaths(LoopOps(dest, loop, es)) ==> InTrees(dest, q)
    ensures forall q :: q in CreatedDirs(LoopOps(dest, loop, es)) ==> Within(dest, q)
    decreases |es|
  {
    if es != [] {
      WrittenPathsAppend(EntryOps(dest, loop, es[0]), LoopOps(dest, loop, es[1..]));
      EntryUnder(dest, loop, es[0]);
      LoopUnder(dest, loop, es[1..]);
    }
  }

  lemma TreeOpsUnder(dest: string)
    ensures WrittenPaths(TreeOps(dest)) == {}
    ensures forall q :: q in CreatedDirs(TreeOps(dest)) ==> Within(dest, q)
  {
    var ops := TreeOps(dest);
    assert CreatedDirs(ops) == Ancestors(ModDir(dest)) + Ancestors(OrgDir(dest)) by {
      assert CreatedDirs(ops[1..]) == Ancestors(OrgDir(dest)) + CreatedDirs(ops[1..][1..]);
    }
    assert WrittenPaths(ops) == {} by {
      assert WrittenPaths(ops[1..]) == WrittenPaths(ops[1..][1..]);
    }
    forall q | q in CreatedDirs(ops) ensures Within(dest, q) {
      AncestorsMeans(ModDir(dest), q);
      AncestorsMeans(OrgDir(dest), q);
    }
  }

  /**
   * Whether it returns or raises, `export_diff_files` changes no file outside
   * mod and org and no directory outside `dest`.
   */
  lemma ExportDiffFilesFrame(st: Store, dest: string, lookup: CommitLookup, q: Path)
    ensures !InTrees(dest, q) ==> Get(Exec(st, CommitOps(dest, lookup)).store.files, q) == Get(st.files, q)
    ensures !Within(dest, q) ==> (q in Exec(st, CommitOps(dest, lookup)).store.dirs <==> q in st.dirs)
  {
    var ops := CommitOps(dest, lookup);
    ExecFrame(st, ops, q);
    match lookup
    case Unresolved =>
      assert WrittenPaths(ops) == {} && CreatedDirs(ops) == {} by { assert ops[1..] == []; }
    case RootCommit =>
      assert WrittenPaths(ops) == {} && CreatedDirs(ops) == {} by { assert ops[1..] == []; }
    case FirstParentDiff(m, a, d) =>
      var mOps, aOps, dOps := LoopOps(dest, ModifiedLoop, m), LoopOps(dest, AddedLoop, a), LoopOps(dest, DeletedLoop, d);
      WrittenPathsAppend(TreeOps(dest), mOps + (aOps + dOps));
      WrittenPathsAppend(mOps, aOps + dOps);
      WrittenPathsAppend(aOps, dOps);
      TreeOpsUnder(dest);
      LoopUnder(dest, ModifiedLoop, m);
      LoopUnder(dest, AddedLoop, a);
      LoopUnder(dest, DeletedLoop, d);
  }

  /** Whether it returns or raises, `export_uncommitted_changes` changes nothing outside mod, org and `dest`. */
  lemma ExportUncommittedFrame(st: Store, dest: string, diff: seq<DiffEntry>, q: Path)
    ensures !InTrees(dest, q) ==> Get(Exec(st, UncommittedOps(dest, diff)).store.files, q) == Get(st.files, q)
    ensures !Within(dest, q) ==> (q in Exec(st, UncommittedOps(dest, diff)).store.dirs <==> q in st.dirs)
  {
    ExecFrame(st, UncommittedOps(dest, diff), q);
    WrittenPathsAppend(TreeOps(dest), LoopOps(dest, UncommittedLoop, diff));
    TreeOpsUnder(dest);
    LoopUnder(dest, UncommittedLoop, diff);
  }

  /**
   * Both trees are created before anything is written: once a run of
   * `export_diff_files` has changed any file, mod and org exist.
   */
  lemma ExportDiffFilesTreesFirst(st: Store, dest: string, lookup: CommitLookup, q: Path)
    requires Get(Exec(st, CommitOps(dest, lookup)).store.files, q) != Get(st.files, q)
    ensures ModDir(dest) in Exec(st, CommitOps(dest, lookup)).store.dirs
    ensures OrgDir(dest) in Exec(st, CommitOps(dest, lookup)).store.dirs
  {
    match lookup
    case Unresolved =>
      ExportDiffFilesFrame(st, dest, lookup, q);
      assert false;
    case RootCommit =>
      ExportDiffFilesFrame(st, dest, lookup, q);
      assert false;
    case FirstParentDiff(m, a, d) =>
      TreesFirst(st, dest, DiffOps(dest, m, a, d), q);
  }

  /** The same for `export_uncommitted_changes`. */
  lemma ExportUncommittedTreesFirst(st: Store, dest: string, diff: seq<DiffEntry>, q: Path)
    requires Get(Exec(st, UncommittedOps(dest, diff)).store.files, q) != Get(st.files, q)
    ensures ModDir(dest) in Exec(st, UncommittedOps(dest, diff)).store.dirs
    ensures OrgDir(dest) in Exec(st, UncommittedOps(dest, diff)).store.dirs
  {
    TreesFirst(st, dest, LoopOps(dest, UncommittedLoop, diff), q);
  }

  lemma AncestorsOfPair(a: string, b: string)
    ensures Ancestors([a, b]) == {[a], [a, b]}
  {
    var d := [a, b];
    assert d[..1] == [a] && d[..2] == d;
    forall q ensures q in Ancestors(d) <==> q in {[a], d} {
      AncestorsMeans(d, q);
      if q != [] && q <= d {
        assert q == d[..|q|];
      }
    }
  }

  /** The two `os.makedirs` calls: each either creates `dest` and its tree, or raises because a file is in the way. */
  lemma TreeOpsExec(st: Store, dest: string)
    ensures Exec(st, TreeOps(dest)) ==
      if [dest] in st.files || ModDir(dest) in st.files then Run(st, Some(FsFailed(FileInTheWay(ModDir(dest)))))
      else if OrgDir(dest) in st.files then Run(st.(dirs := st.dirs + {[dest], ModDir(dest)}), Some(FsFailed(FileInTheWay(OrgDir(dest)))))
      else Run(st.(dirs := st.dirs + {[dest], ModDir(dest), OrgDir(dest)}), None)
  {
    var ops := TreeOps(dest);
    assert ops[1..][1..] == [];
    AncestorsOfPair(dest, "mod");
    AncestorsOfPair(dest, "org");
    var s1 := st.(dirs := st.dirs + {[dest], ModDir(dest)});
    assert st.dirs + {[dest], ModDir(dest)} + {[dest], OrgDir(dest)} == st.dirs + {[dest], ModDir(dest), OrgDir(dest)};
    if !([dest] in st.files || ModDir(dest) in st.files) {
      assert Ancestors(ModDir(dest)) !! st.files.Keys;
      assert Apply(st, ops[0]) == Next(s1);
      assert Exec(st, ops) == Exec(s1, ops[1..]);
      if OrgDir(dest) in st.files {
        assert Apply(s1, ops[1]) == Stop(FsFailed(FileInTheWay(OrgDir(dest))));
      } else {
        assert Ancestors(OrgDir(dest)) !! s1.files.Keys;
        var s2 := s1.(dirs := s1.dirs + Ancestors(OrgDir(dest)));
        assert Apply(s1, ops[1]) == Next(s2);
        assert Exec(s1, ops[1..]) == Exec(s2, ops[1..][1..]) == Run(s2, None);
        assert s2 == st.(dirs := st.dirs + {[dest], ModDir(dest), OrgDir(dest)});
      }
    }
  }

  lemma TreesFirst(st: Store, dest: string, rest: seq<Op>, q: Path)
    requires Get(Exec(st, TreeOps(dest) + rest).store.files, q) != Get(st.files, q)
    ensures ModDir(dest) in Exec(st, TreeOps(dest) + rest).store.dirs
    ensures OrgDir(dest) in Exec(st, TreeOps(dest) + rest).store.dirs
  {
    ExecAppend(st, TreeOps(dest), rest);
    TreeOpsExec(st, dest);
    ExecDirsGrow(Exec(st, TreeOps(dest)).store, rest);
  }

  /**
   * With nothing Modified, Added or Deleted, `export_diff_files` returns
   * exactly when neither `dest`, mod nor org is an existing file; it then
   * creates just those three directories and writes nothing.
   */
  lemma EmptyDiffMakesTrees(st: Store, dest: string)
    ensures var r := Exec(st, CommitOps(dest, FirstParentDiff([], [], [])));
      && (r.error.None? <==> [dest] !in st.files && ModDir(dest) !in st.files && OrgDir(dest) !in st.files)
      && r.store.files == st.files
      && (r.error.None? ==> r.store.dirs == st.dirs + {[dest], ModDir(dest), OrgDir(dest)})
  {
    assert CommitOps(dest, FirstParentDiff([], [], [])) == TreeOps(dest);
    TreeOpsExec(st, dest);
  }

  /** `export_diff_files` on a root commit, or one git cannot resolve, raises before touching the disk. */
  lemma NoFirstParentNoOutput(st: Store, dest: string, lookup: CommitLookup)
    requires !lookup.FirstParentDiff?
    ensures Exec(st, CommitOps(dest, lookup)) == Run(st, Some(if lookup.RootCommit? then NoParent else LookupFailed))
  {
  }

  /** The only step of a loop that raises by itself is the AttributeError of a missing blob, and the uncommitted loop has none. */
  lemma {:induction false} LoopRaises(dest: string, loop: Loop, es: seq<DiffEntry>, e: ExportError)
    requires RaiseOp(e) in LoopOps(dest, loop, es)
    ensures e == MissingBlob && loop != UncommittedLoop
    decreases |es|
  {
    var first := EntryOps(dest, loop, es[0]);
    var rest := LoopOps(dest, loop, es[1..]);
    if RaiseOp(e) in rest {
      LoopRaises(dest, loop, es[1..], e);
    } else {
      assert RaiseOp(e) in first;
    }
  }

  /**
   * `export_diff_files` raises only because git has no such commit, because
   * the commit has no parent, because an entry lacks a blob its loop reads,
   * or because the filesystem refused a call.
   */
  lemma ExportDiffFilesErrors(st: Store, dest: string, lookup: CommitLookup)
    ensures var r := Exec(st, CommitOps(dest, lookup));
      r.error.Some? ==> r.error.value in {LookupFailed, NoParent, MissingBlob} || r.error.value.FsFailed?
    ensures lookup.FirstParentDiff? && Exec(st, CommitOps(dest, lookup)).error.Some? ==>
      Exec(st, CommitOps(dest, lookup)).error.value in {MissingBlob} || Exec(st, CommitOps(dest, lookup)).error.value.FsFailed?
  {
    var ops := CommitOps(dest, lookup);
    ExecErrors(st, ops);
    if lookup.FirstParentDiff? {
      var mOps, aOps, dOps := LoopOps(dest, ModifiedLoop, lookup.modified), LoopOps(dest, AddedLoop, lookup.added), LoopOps(dest, DeletedLoop, lookup.deleted);
      var r := Exec(st, ops);
      if r.error.Some? && !r.error.value.FsFailed? {
        var e := r.error.value;
        assert ops == TreeOps(dest) + (mOps + (aOps + dOps));
        if RaiseOp(e) in mOps {
          LoopRaises(dest, ModifiedLoop, lookup.modified, e);
        } else if RaiseOp(e) in aOps {
          LoopRaises(dest, AddedLoop, lookup.added, e);
        } else {
          LoopRaises(dest, DeletedLoop, lookup.deleted, e);
        }
      }
    }
  }

  /** An entry lacking a blob its loop reads makes `export_diff_files` raise. */
  lemma ExportDiffFilesNeedsBlobs(st: Store, dest: string, m: seq<DiffEntry>, a: seq<DiffEntry>, d: seq<DiffEntry>, e: DiffEntry)
    requires (e in m && !HasBlobs(ModifiedLoop, e)) || (e in a && !HasBlobs(AddedLoop, e)) || (e in d && !HasBlobs(DeletedLoop, e))
    ensures Exec(st, CommitOps(dest, FirstParentDiff(m, a, d))).error.Some?
  {
    if Exec(st, CommitOps(dest, FirstParentDiff(m, a, d))).error.None? {
      CommitRunBlobs(st, dest, m, a, d);
    }
  }

  /** Its guards keep `export_uncommitted_changes` from raising by itself: only the filesystem can make it fail. */
  lemma ExportUncommittedErrors(st: Store, dest: string, diff: seq<DiffEntry>)
    ensures var r := Exec(st, UncommittedOps(dest, diff));
      r.error.Some? ==> r.error.value.FsFailed?
  {
    var ops := UncommittedOps(dest, diff);
    ExecErrors(st, ops);
    var r := Exec(st, ops);
    if r.error.Some? && !r.error.value.FsFailed? {
      LoopRaises(dest, UncommittedLoop, diff, r.error.value);
    }
  }

  /** The pieces of a normal run of `export_uncommitted_changes`. */
  lemma UncommittedFiles(st: Store, dest: string, diff: seq<DiffEntry>)
    requires Exec(st, UncommittedOps(dest, diff)).error.None?
    ensures Exec(st, UncommittedOps(dest, diff)).store.files
      == Overwrite(st.files, Writes(LoopOps(dest, UncommittedLoop, diff)))
  {
    ExecFiles(st, UncommittedOps(dest, diff));
    WritesAppend(TreeOps(dest), LoopOps(dest, UncommittedLoop, diff));
    assert Writes(TreeOps(dest)) == [] by {
      assert Writes(TreeOps(dest)[1..]) == Writes(TreeOps(dest)[2..]) == [];
    }
    assert [] + Writes(LoopOps(dest, UncommittedLoop, diff)) == Writes(LoopOps(dest, UncommittedLoop, diff));
  }

  /**
   * After a normal return of `export_uncommitted_changes`, `mod/<rel>` holds
   * the last new-side blob at `rel` in the index-to-working-tree diff, entries without one (deletions)
   * contributing nothing.
   */
  lemma ExportUncommittedModTree(st: Store, dest: string, diff: seq<DiffEntry>, rel: Path)
    requires Exec(st, UncommittedOps(dest, diff)).error.None?
    requires rel != []
    ensures Get(Exec(st, UncommittedOps(dest, diff)).store.files, ModDir(dest) + rel)
      == LastAt(diff, NewSide, rel).Or(Get(st.files, ModDir(dest) + rel))
  {
    UncommittedFiles(st, dest, diff);
    OverwriteGet(st.files, Writes(LoopOps(dest, UncommittedLoop, diff)), ModDir(dest) + rel);
    LoopWriteAt(dest, UncommittedLoop, diff, NewSide, rel);
  }

  /**
   * After a normal return of `export_uncommitted_changes`, `org/<rel>` holds
   * the last old-side blob at `rel`, entries without one (additions)
   * contributing nothing.
   */
  lemma ExportUncommittedOrgTree(st: Store, dest: string, diff: seq<DiffEntry>, rel: Path)
    requires Exec(st, UncommittedOps(dest, diff)).error.None?
    requires rel != []
    ensures Get(Exec(st, UncommittedOps(dest, diff)).store.files, OrgDir(dest) + rel)
      == LastAt(diff, OldSide, rel).Or(Get(st.files, OrgDir(dest) + rel))
  {
    UncommittedFiles(st, dest, diff);
    OverwriteGet(st.files, Writes(LoopOps(dest, UncommittedLoop, diff)), OrgDir(dest) + rel);
    LoopWriteAt(dest, UncommittedLoop, diff, OldSide, rel);
  }

  /**
   * One entry of `export_uncommitted_changes` writes `mod/<new path>` exactly
   * when its new blob is there with a non-empty path, `org/<old path>`
   * exactly when its old blob is, and nothing else.
   */
  lemma UncommittedEntryGuards(dest: string, e: DiffEntry)
    ensures WrittenPaths(EntryOps(dest, UncommittedLoop, e)) ==
      (if Exported(e.newBlob) then {ModDir(dest) + e.newBlob.value.path} else {})
      + (if Exported(e.oldBlob) then {OrgDir(dest) + e.oldBlob.value.path} else {})
  {
    var newOps := GuardedCopy(ModDir(dest), e.newBlob);
    var oldOps := GuardedCopy(OrgDir(dest), e.oldBlob);
    WrittenPathsAppend(newOps, oldOps);
    if Exported(e.newBlob) { CopySets(ModDir(dest), e.newBlob.value); }
    if Exported(e.oldBlob) { CopySets(OrgDir(dest), e.oldBlob.value); }
  }

  lemma CopyWithin(dest: string, side: Side, b: Blob)
    ensures OpsWithin(dest, CopyOps(TreeDir(dest, side), b))
  {
    var dir := TreeDir(dest, side);
    var p := dir + b.path;
    assert |dir| == 2 && dir[0] == dest;
    assert p[0] == dest && |p| >= 2;
    var ops := CopyOps(dir, b);
    forall i | 0 <= i < |ops| ensures OpWithin(dest, ops[i]) {
      if i == 0 {
        assert ops[0] == MakeDirsOp(Dirname(p));
        assert Dirname(p)[0] == p[0];
      } else {
        assert ops[1] == WriteOp(p, b.data);
      }
    }
  }

  lemma ModifiedEntryWithin(dest: string, e: DiffEntry)
    requires e.newBlob.Some? && e.oldBlob.Some?
    ensures OpsWithin(dest, EntryOps(dest, ModifiedLoop, e))
  {
    var n := ModDir(dest) + e.newBlob.value.path;
    var o := OrgDir(dest) + e.oldBlob.value.path;
    assert n[0] == dest && o[0] == dest && |n| > 1 && |o| > 1;
    assert Dirname(n)[0] == n[0] && Dirname(o)[0] == o[0];
    var ops := EntryOps(dest, ModifiedLoop, e);
    assert ops == [MakeDirsOp(Dirname(n)), MakeDirsOp(Dirname(o)), WriteOp(n, e.newBlob.value.data), WriteOp(o, e.oldBlob.value.data)];
    assert OpWithin(dest, ops[0]) && OpWithin(dest, ops[1]) && OpWithin(dest, ops[2]) && OpWithin(dest, ops[3]);
  }

  lemma UncommittedEntryWithin(dest: string, e: DiffEntry)
    ensures OpsWithin(dest, EntryOps(dest, UncommittedLoop, e))
  {
    var newOps := GuardedCopy(ModDir(dest), e.newBlob);
    var oldOps := GuardedCopy(OrgDir(dest), e.oldBlob);
    if Exported(e.newBlob) { CopyWithin(dest, NewSide, e.newBlob.value); }
    if Exported(e.oldBlob) { CopyWithin(dest, OldSide, e.oldBlob.value); }
    OpsWithinAppend(dest, newOps, oldOps);
    assert EntryOps(dest, UncommittedLoop, e) == newOps + oldOps;
  }

  lemma EntryWithin(dest: string, loop: Loop, e: DiffEntry)
    ensures OpsWithin(dest, EntryOps(dest, loop, e))
  {
    match loop
    case ModifiedLoop =>
      if e.newBlob.None? || e.oldBlob.None? {
        assert OpWithin(dest, RaiseOp(MissingBlob));
      } else {
        ModifiedEntryWithin(dest, e);
      }
    case AddedLoop =>
      if e.newBlob.Some? { CopyWithin(dest, NewSide, e.newBlob.value); }
      else { assert OpWithin(dest, RaiseOp(MissingBlob)); }
    case DeletedLoop =>
      if e.oldBlob.Some? { CopyWithin(dest, OldSide, e.oldBlob.value); }
      else { assert OpWithin(dest, RaiseOp(MissingBlob)); }
    case UncommittedLoop => UncommittedEntryWithin(dest, e);
  }

  lemma {:induction false} LoopWithin(dest: string, loop: Loop, es: seq<DiffEntry>)
    ensures OpsWithin(dest, LoopOps(dest, loop, es))
    decreases |es|
  {
    if es != [] {
      EntryWithin(dest, loop, es[0]);
      LoopWithin(dest, loop, es[1..]);
      OpsWithinAppend(dest, EntryOps(dest, loop, es[0]), LoopOps(dest, loop, es[1..]));
    }
  }

  /** Every call `export_diff_files(repo_path, sha1)` makes stays inside the directory `sha1`. */
  lemma CommitOpsWithin(dest: string, lookup: CommitLookup)
    ensures OpsWithin(dest, CommitOps(dest, lookup))
  {
    if lookup.FirstParentDiff? {
      LoopWithin(dest, ModifiedLoop, lookup.modified);
      LoopWithin(dest, AddedLoop, lookup.added);
      LoopWithin(dest, DeletedLoop, lookup.deleted);
      OpsWithinAppend(dest, LoopOps(dest, AddedLoop, lookup.added), LoopOps(dest, DeletedLoop, lookup.deleted));
      OpsWithinAppend(dest, LoopOps(dest, ModifiedLoop, lookup.modified), LoopOps(dest, AddedLoop, lookup.added) + LoopOps(dest, DeletedLoop, lookup.deleted));
      OpsWithinAppend(dest, TreeOps(dest), DiffOps(dest, lookup.modified, lookup.added, lookup.deleted));
    }
  }

  /** The paths in tree `side` that the blobs on that side of `es` name. */
  function TreePaths(dest: string, side: Side, es: seq<DiffEntry>): set<Path>
    decreases |es|
  {
    if es == [] then {}
    else
      var b := SideBlob(es[0], side);
      (if b.Some? then {TreeDir(dest, side) + b.value.path} else {}) + TreePaths(dest, side, es[1..])
  }

  lemma {:induction false} TreePathsAppend(dest: string, side: Side, a: seq<DiffEntry>, b: seq<DiffEntry>)
    ensures TreePaths(dest, side, a + b) == TreePaths(dest, side, a) + TreePaths(dest, side, b)
    decreases |a|
  {
    if a != [] {
      assert (a + b)[0] == a[0];
      assert (a + b)[1..] == a[1..] + b;
      TreePathsAppend(dest, side, a[1..], b);
    } else {
      assert a + b == b;
    }
  }

  /** The Modified loop writes the b-path of each entry under mod and its a-path under org. */
  lemma {:induction false} ModifiedLoopPaths(dest: string, es: seq<DiffEntry>)
    requires forall e :: e in es ==> HasBlobs(ModifiedLoop, e)
    ensures WrittenPaths(LoopOps(dest, ModifiedLoop, es)) ==
      TreePaths(dest, NewSide, es) + TreePaths(dest, OldSide, es)
    decreases |es|
  {
    if es != [] {
      var e := es[0];
      assert e in es;
      var rest := LoopOps(dest, ModifiedLoop, es[1..]);
      WrittenPathsAppend(EntryOps(dest, ModifiedLoop, e), rest);
      ModifiedLoopPaths(dest, es[1..]);
      ModifiedSets(dest, e);
      var n, o := ModDir(dest) + e.newBlob.value.path, OrgDir(dest) + e.oldBlob.value.path;
      var tn, to := TreePaths(dest, NewSide, es[1..]), TreePaths(dest, OldSide, es[1..]);
      assert TreePaths(dest, NewSide, es) == {n} + tn;
      assert TreePaths(dest, OldSide, es) == {o} + to;
      assert WrittenPaths(LoopOps(dest, ModifiedLoop, es)) == {n, o} + (tn + to);
    }
  }

  /** The Added or Deleted loop writes the path of each entry's one side under that side's tree. */
  lemma {:induction false} CopyLoopPaths(dest: string, loop: Loop, side: Side, es: seq<DiffEntry>)
    requires (loop, side) == (AddedLoop, NewSide) || (loop, side) == (DeletedLoop, OldSide)
    requires forall e :: e in es ==> HasBlobs(loop, e)
    ensures WrittenPaths(LoopOps(dest, loop, es)) == TreePaths(dest, side, es)
    decreases |es|
  {
    if es != [] {
      var e := es[0];
      assert e in es;
      WrittenPathsAppend(EntryOps(dest, loop, e), LoopOps(dest, loop, es[1..]));
      CopyLoopPaths(dest, loop, side, es[1..]);
      var b := SideBlob(e, side).value;
      assert EntryOps(dest, loop, e) == CopyOps(TreeDir(dest, side), b);
      CopySets(TreeDir(dest, side), b);
    }
  }

  /** Every path the commit export writes is written by one of its three loops. */
  lemma CommitPathsSplit(dest: string, m: seq<DiffEntry>, a: seq<DiffEntry>, d: seq<DiffEntry>)
    ensures WrittenPaths(CommitOps(dest, FirstParentDiff(m, a, d))) ==
      WrittenPaths(LoopOps(dest, ModifiedLoop, m))
      + (WrittenPaths(LoopOps(dest, AddedLoop, a)) + WrittenPaths(LoopOps(dest, DeletedLoop, d)))
  {
    var mOps, aOps, dOps := LoopOps(dest, ModifiedLoop, m), LoopOps(dest, AddedLoop, a), LoopOps(dest, DeletedLoop, d);
    WrittenPathsAppend(TreeOps(dest), mOps + (aOps + dOps));
    WrittenPathsAppend(mOps, aOps + dOps);
    WrittenPathsAppend(aOps, dOps);
    TreeOpsUnder(dest);
  }

  /**
   * `export_diff_files` with every blob it reads present writes exactly the
   * b-paths of the Modified and Added entries under mod and the a-paths of
   * the Modified and Deleted entries under org.
   */
  lemma ExportDiffFilesWrittenPaths(dest: string, m: seq<DiffEntry>, a: seq<DiffEntry>, d: seq<DiffEntry>)
    requires forall e :: e in m ==> HasBlobs(ModifiedLoop, e)
    requires forall e :: e in a ==> HasBlobs(AddedLoop, e)
    requires forall e :: e in d ==> HasBlobs(DeletedLoop, e)
    ensures WrittenPaths(CommitOps(dest, FirstParentDiff(m, a, d))) ==
      TreePaths(dest, NewSide, m + a) + TreePaths(dest, OldSide, m + d)
  {
    CommitPathsSplit(dest, m, a, d);
    ModifiedLoopPaths(dest, m);
    CopyLoopPaths(dest, AddedLoop, NewSide, a);
    CopyLoopPaths(dest, DeletedLoop, OldSide, d);
    TreePathsAppend(dest, NewSide, m, a);
    TreePathsAppend(dest, OldSide, m, d);
    var nm, om := TreePaths(dest, NewSide, m), TreePaths(dest, OldSide, m);
    var na, od := TreePaths(dest, NewSide, a), TreePaths(dest, OldSide, d);
    assert (nm + om) + (na + od) == (nm + na) + (om + od);
  }

  /** Some entry has a blob at `rel` on side `side` exactly when `LastAt` finds one. */
  lemma {:induction false} LastAtSome(es: seq<DiffEntry>, side: Side, rel: Path)
    ensures LastAt(es, side, rel).Some? <==>
      exists e :: e in es && SideBlob(e, side).Some? && SideBlob(e, side).value.path == rel
    decreases |es|
  {
    if es != [] {
      LastAtSome(es[1..], side, rel);
      if exists e :: e in es && SideBlob(e, side).Some? && SideBlob(e, side).value.path == rel {
        var e :| e in es && SideBlob(e, side).Some? && SideBlob(e, side).value.path == rel;
        if e != es[0] {
          assert e in es[1..];
        }
      }
      if exists e :: e in es[1..] && SideBlob(e, side).Some? && SideBlob(e, side).value.path == rel {
        var e :| e in es[1..] && SideBlob(e, side).Some? && SideBlob(e, side).value.path == rel;
        assert e in es;
      }
    }
  }

  /** After a normal return of `export_diff_files`, mod and org exist, even for an empty diff. */
  lemma ExportDiffFilesTrees(st: Store, dest: string, m: seq<DiffEntry>, a: seq<DiffEntry>, d: seq<DiffEntry>)
    requires Exec(st, CommitOps(dest, FirstParentDiff(m, a, d))).error.None?
    ensures ModDir(dest) in Exec(st, CommitOps(dest, FirstParentDiff(m, a, d))).store.dirs
    ensures OrgDir(dest) in Exec(st, CommitOps(dest, FirstParentDiff(m, a, d))).store.dirs
  {
    ExecAppendOk(st, TreeOps(dest), DiffOps(dest, m, a, d));
    TreeOpsExec(st, dest);
    ExecDirsGrow(Exec(st, TreeOps(dest)).store, DiffOps(dest, m, a, d));
  }

  /**
   * After a normal return of `export_diff_files`, each Modified or Added
   * entry's file is in mod, inside a directory that exists.
   */
  lemma ExportDiffFilesModParents(st: Store, dest: string, m: seq<DiffEntry>, a: seq<DiffEntry>, d: seq<DiffEntry>, e: DiffEntry)
    requires Wf(st)
    requires Exec(st, CommitOps(dest, FirstParentDiff(m, a, d))).error.None?
    requires e in m + a
    ensures e.newBlob.Some?
    ensures var out := Exec(st, CommitOps(dest, FirstParentDiff(m, a, d))).store;
      ModDir(dest) + e.newBlob.value.path in out.files && Dirname(ModDir(dest) + e.newBlob.value.path) in out.dirs
  {
    var out := Exec(st, CommitOps(dest, FirstParentDiff(m, a, d))).store;
    CommitRunBlobs(st, dest, m, a, d);
    assert e.newBlob.Some?;
    var rel := e.newBlob.value.path;
    ExportDiffFilesModTree(st, dest, m, a, d, rel);
    LastAtSome(m + a, NewSide, rel);
    assert ModDir(dest) + rel in out.files;
    ExecKeepsWf(st, CommitOps(dest, FirstParentDiff(m, a, d)));
    WfFileParent(out, ModDir(dest) + rel);
  }

  /**
   * After a normal return of `export_diff_files`, each Modified or Deleted
   * entry's file is in org, inside a directory that exists.
   */
  lemma ExportDiffFilesOrgParents(st: Store, dest: string, m: seq<DiffEntry>, a: seq<DiffEntry>, d: seq<DiffEntry>, e: DiffEntry)
    requires Wf(st)
    requires Exec(st, CommitOps(dest, FirstParentDiff(m, a, d))).error.None?
    requires e in m + d
    ensures e.oldBlob.Some?
    ensures var out := Exec(st, CommitOps(dest, FirstParentDiff(m, a, d))).store;
      OrgDir(dest) + e.oldBlob.value.path in out.files && Dirname(OrgDir(dest) + e.oldBlob.value.path) in out.dirs
  {
    var out := Exec(st, CommitOps(dest, FirstParentDiff(m, a, d))).store;
    CommitRunBlobs(st, dest, m, a, d);
    assert e.oldBlob.Some?;
    var rel := e.oldBlob.value.path;
    ExportDiffFilesOrgTree(st, dest, m, a, d, rel);
    LastAtSome(m + d, OldSide, rel);
    assert OrgDir(dest) + rel in out.files;
    ExecKeepsWf(st, CommitOps(dest, FirstParentDiff(m, a, d)));
    WfFileParent(out, OrgDir(dest) + rel);
  }
}
