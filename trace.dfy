/**
 * An export as the sequence of file-system calls it makes, and the
 * interpreter that runs such a sequence against a store. A raised error
 * stops the run and leaves the store as the calls before it made it, as a
 * Python exception does.
 */
module Trace {
  import opened Wrappers
  import opened FileStore

  /** Every way an export can end with an exception. */
  datatype ExportError =
    | LookupFailed              // git.Repo(repo_path) or repo.commit(sha1) raised
    | NoParent                  // commit.parents[0] on a root commit: IndexError
    | MissingBlob               // .path of an absent a_blob / b_blob: AttributeError
    | FsFailed(cause: FsError)  // os.makedirs or open raised

  datatype Op =
    | MakeDirsOp(dir: Path)
    | WriteOp(path: Path, data: Bytes)
    | RaiseOp(error: ExportError)

  datatype Step = Next(store: Store) | Stop(error: ExportError)

  /** The final store and, when the run raised, the error. */
  datatype Run = Run(store: Store, error: Option<ExportError>)

  function Apply(st: Store, op: Op): Step {
    match op
    case MakeDirsOp(d) =>
      (match AfterMakeDirs(st, d) case Ok(s) => Next(s) case Err(e) => Stop(FsFailed(e)))
    case WriteOp(p, data) =>
      (match AfterWrite(st, p, data) case Ok(s) => Next(s) case Err(e) => Stop(FsFailed(e)))
    case RaiseOp(e) => Stop(e)
  }

  function Exec(st: Store, ops: seq<Op>): Run
    decreases |ops|
  {
    if ops == [] then Run(st, None)
    else match Apply(st, ops[0])
      case Stop(e) => Run(st, Some(e))
      case Next(s) => Exec(s, ops[1..])
  }

  /** Running `p + q` runs `p`, then `q` from where `p` left off unless `p` raised. */
  lemma {:induction false} ExecAppend(st: Store, p: seq<Op>, q: seq<Op>)
    ensures Exec(st, p + q) ==
      (var r := Exec(st, p); if r.error.Some? then r else Exec(r.store, q))
    decreases |p|
  {
    if p != [] {
      assert (p + q)[0] == p[0];
      assert (p + q)[1..] == p[1..] + q;
      match Apply(st, p[0])
      case Stop(e) =>
      case Next(s) => ExecAppend(s, p[1..], q);
    } else {
      assert p + q == q;
    }
  }

  /** A run that reaches a raise does not finish normally. */
  lemma {:induction false} RaiseFails(st: Store, ops: seq<Op>, e: ExportError)
    requires RaiseOp(e) in ops
    ensures Exec(st, ops).error.Some?
    decreases |ops|
  {
    if ops[0] != RaiseOp(e) {
      match Apply(st, ops[0])
      case Stop(_) =>
      case Next(s) => RaiseFails(s, ops[1..], e);
    }
  }

  /** The file writes of `ops`, in order. */
  function Writes(ops: seq<Op>): seq<(Path, Bytes)>
    decreases |ops|
  {
    if ops == [] then []
    else (if ops[0].WriteOp? then [(ops[0].path, ops[0].data)] else []) + Writes(ops[1..])
  }

  lemma {:induction false} WritesAppend(p: seq<Op>, q: seq<Op>)
    ensures Writes(p + q) == Writes(p) + Writes(q)
    decreases |p|
  {
    if p != [] {
      assert (p + q)[0] == p[0];
      assert (p + q)[1..] == p[1..] + q;
      WritesAppend(p[1..], q);
    } else {
      assert p + q == q;
    }
  }

  /** The bytes of the last write to `p` in `ws`, if any. */
  function LastWrite(ws: seq<(Path, Bytes)>, p: Path): Option<Bytes>
    decreases |ws|
  {
    if ws == [] then None
    else LastWrite(ws[1..], p).Or(if ws[0].0 == p then Some(ws[0].1) else None)
  }

  lemma {:induction false} LastWriteAppend(a: seq<(Path, Bytes)>, b: seq<(Path, Bytes)>, p: Path)
    ensures LastWrite(a + b, p) == LastWrite(b, p).Or(LastWrite(a, p))
    decreases |a|
  {
    if a != [] {
      assert (a + b)[0] == a[0];
      assert (a + b)[1..] == a[1..] + b;
      LastWriteAppend(a[1..], b, p);
    } else {
      assert a + b == b;
    }
  }

  /** Writing `ws` in order into `f`, each write replacing what was there ("wb"). */
  function Overwrite(f: map<Path, Bytes>, ws: seq<(Path, Bytes)>): map<Path, Bytes>
    decreases |ws|
  {
    if ws == [] then f else Overwrite(f[ws[0].0 := ws[0].1], ws[1..])
  }

  /** Last write wins: a path holds the bytes of its last write, or what it held before. */
  lemma {:induction false} OverwriteGet(f: map<Path, Bytes>, ws: seq<(Path, Bytes)>, p: Path)
    ensures Get(Overwrite(f, ws), p) == LastWrite(ws, p).Or(Get(f, p))
    decreases |ws|
  {
    if ws != [] {
      OverwriteGet(f[ws[0].0 := ws[0].1], ws[1..], p);
    }
  }

  /** A run that finishes normally leaves the files its writes, in order, produce. */
  lemma {:induction false} ExecFiles(st: Store, ops: seq<Op>)
    requires Exec(st, ops).error.None?
    ensures Exec(st, ops).store.files == Overwrite(st.files, Writes(ops))
    decreases |ops|
  {
    if ops != [] {
      var s := Apply(st, ops[0]).store;
      ExecFiles(s, ops[1..]);
      match ops[0]
      case MakeDirsOp(d) =>
        assert s.files == st.files;
        assert Writes(ops) == Writes(ops[1..]);
      case WriteOp(p, data) =>
        assert s.files == st.files[p := data];
        assert Writes(ops) == [(p, data)] + Writes(ops[1..]);
    }
  }

  /** A run raises either a filesystem error or the error of one of its raise steps. */
  lemma {:induction false} ExecErrors(st: Store, ops: seq<Op>)
    ensures var r := Exec(st, ops);
      r.error.Some? ==> r.error.value.FsFailed? || RaiseOp(r.error.value) in ops
    decreases |ops|
  {
    if ops != [] {
      match Apply(st, ops[0])
      case Stop(_) =>
      case Next(s) =>
        ExecErrors(s, ops[1..]);
        assert forall o :: o in ops[1..] ==> o in ops;
    }
  }

  /** A run never removes a directory. */
  lemma {:induction false} ExecDirsGrow(st: Store, ops: seq<Op>)
    ensures st.dirs <= Exec(st, ops).store.dirs
    decreases |ops|
  {
    if ops != [] {
      match Apply(st, ops[0])
      case Stop(_) =>
      case Next(s) =>
        ExecDirsGrow(s, ops[1..]);
    }
  }

  /** Every run keeps the tree well formed. */
  lemma {:induction false} ExecKeepsWf(st: Store, ops: seq<Op>)
    requires Wf(st)
    ensures Wf(Exec(st, ops).store)
    decreases |ops|
  {
    if ops != [] {
      match Apply(st, ops[0])
      case Stop(_) =>
      case Next(s) =>
        if ops[0].MakeDirsOp? {
          MakeDirsKeepsWf(st, ops[0].dir);
        } else if ops[0].WriteOp? {
          WriteFileKeepsWf(st, ops[0].path, ops[0].data);
        }
        ExecKeepsWf(s, ops[1..]);
    }
  }

  /** The paths `ops` writes to. */
  function WrittenPaths(ops: seq<Op>): set<Path>
    decreases |ops|
  {
    if ops == [] then {}
    else (if ops[0].WriteOp? then {ops[0].path} else {}) + WrittenPaths(ops[1..])
  }

  /** The directories `ops` may create: every ancestor of a directory it makes. */
  function CreatedDirs(ops: seq<Op>): set<Path>
    decreases |ops|
  {
    if ops == [] then {}
    else (if ops[0].MakeDirsOp? then Ancestors(ops[0].dir) else {}) + CreatedDirs(ops[1..])
  }

  lemma {:induction false} WrittenPathsAppend(p: seq<Op>, q: seq<Op>)
    ensures WrittenPaths(p + q) == WrittenPaths(p) + WrittenPaths(q)
    ensures CreatedDirs(p + q) == CreatedDirs(p) + CreatedDirs(q)
    decreases |p|
  {
    if p != [] {
      assert (p + q)[0] == p[0];
      assert (p + q)[1..] == p[1..] + q;
      WrittenPathsAppend(p[1..], q);
    } else {
      assert p + q == q;
    }
  }

  /** Whether or not it raises, a run changes no file it does not write and no directory it does not create. */
  lemma {:induction false} ExecFrame(st: Store, ops: seq<Op>, q: Path)
    ensures q !in WrittenPaths(ops) ==> Get(Exec(st, ops).store.files, q) == Get(st.files, q)
    ensures q !in CreatedDirs(ops) ==> (q in Exec(st, ops).store.dirs <==> q in st.dirs)
    decreases |ops|
  {
    if ops != [] {
      match Apply(st, ops[0])
      case Stop(_) =>
      case Next(s) =>
        ExecFrame(s, ops[1..], q);
    }
  }
}
