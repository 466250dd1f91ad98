/**
 * The part of the operating system the exports touch: a set of directories
 * and a map from file paths to their bytes. A path is the list of its
 * components, so `os.path.join(d, p)` is `d + p` and `os.path.dirname(p)`
 * drops the last component; the empty path stands for the working
 * directory, which always exists.
 */
module FileStore {
  import opened Wrappers

  newtype byte = x: int | 0 <= x < 256
  type Bytes = seq<byte>
  type Path = seq<string>

  /** `os.path.dirname`: the path without its last component. */
  function Dirname(p: Path): (q: Path)
    ensures p != [] ==> q + [p[|p| - 1]] == p
    ensures p == [] ==> q == []
  {
    if p == [] then [] else p[..|p| - 1]
  }

  /** `q` lies in the directory `top` of the working directory. */
  predicate Within(top: string, q: Path) {
    q != [] && q[0] == top
  }

  /** The non-empty prefixes of `d`: what `os.makedirs(d)` walks through. */
  function Ancestors(d: Path): set<Path> {
    set k | 1 <= k <= |d| :: d[..k]
  }

  lemma AncestorsMeans(d: Path, q: Path)
    ensures q in Ancestors(d) <==> q != [] && q <= d
  {
    if q != [] && q <= d {
      assert d[..|q|] == q;
    }
  }

  datatype Store = Store(files: map<Path, Bytes>, dirs: set<Path>)

  /** What `open(p, "wb")` or `os.makedirs` raised. */
  datatype FsError =
    | FileInTheWay(dir: Path)          // os.makedirs(dir): an existing file is dir or one of its ancestors
    | IsADirectory(path: Path)         // open(path, "wb"): path names a directory
    | NoSuchDirectory(path: Path)      // open(path, "wb"): the parent directory is missing

  /**
   * The shape of a real file tree: a path is never both a file and a
   * directory, and every file and every directory sits in a directory.
   */
  ghost predicate Wf(st: Store) {
    && (forall p :: p in st.files ==> p != [] && p !in st.dirs && (|p| > 1 ==> Dirname(p) in st.dirs))
    && (forall d :: d in st.dirs ==> d != [])
    && (forall d {:trigger Dirname(d)} :: d in st.dirs && |d| > 1 ==> Dirname(d) in st.dirs)
  }

  function Get(files: map<Path, Bytes>, p: Path): Option<Bytes> {
    if p in files then Some(files[p]) else None
  }

  /** `os.makedirs(d, exist_ok=True)`: create `d` and its ancestors unless a file is in the way. */
  function AfterMakeDirs(st: Store, d: Path): Result<Store> {
    if Ancestors(d) !! st.files.Keys then Ok(st.(dirs := st.dirs + Ancestors(d)))
    else Err(FileInTheWay(d))
  }

  /** `open(p, "wb").write(data)`: create or truncate the file `p`. */
  function AfterWrite(st: Store, p: Path, data: Bytes): Result<Store> {
    if p == [] || p in st.dirs then Err(IsADirectory(p))
    else if |p| > 1 && Dirname(p) !in st.dirs then Err(NoSuchDirectory(p))
    else Ok(st.(files := st.files[p := data]))
  }

  datatype Result<T> = Ok(value: T) | Err(error: FsError)

  /** Creating directories keeps the tree well formed and changes no file. */
  lemma MakeDirsKeepsWf(st: Store, d: Path)
    requires Wf(st) && AfterMakeDirs(st, d).Ok?
    ensures Wf(AfterMakeDirs(st, d).value)
    ensures AfterMakeDirs(st, d).value.files == st.files
  {
    var st' := AfterMakeDirs(st, d).value;
    assert st'.files == st.files && st'.dirs == st.dirs + Ancestors(d);
    forall q | q in Ancestors(d) ensures q != [] {
      AncestorsMeans(d, q);
    }
    forall q | q in Ancestors(d) && |q| > 1 ensures Dirname(q) in st'.dirs {
      AncestorsMeans(d, q);
      AncestorsMeans(d, Dirname(q));
    }
  }

  /** In a well-formed tree, every file below the top level sits in an existing directory. */
  lemma WfFileParent(st: Store, p: Path)
    requires Wf(st) && p in st.files && |p| > 1
    ensures Dirname(p) in st.dirs
  {
  }

  /** Writing a file keeps the tree well formed and creates no directory. */
  lemma WriteFileKeepsWf(st: Store, p: Path, data: Bytes)
    requires Wf(st) && AfterWrite(st, p, data).Ok?
    ensures Wf(AfterWrite(st, p, data).value)
    ensures AfterWrite(st, p, data).value.dirs == st.dirs
  {
  }

  /** The process's view of the file system, updated in place by each call. */
  class FileSystem {
    var files: map<Path, Bytes>
    var dirs: set<Path>

    function State(): Store
      reads this
    {
      Store(files, dirs)
    }

    ghost predicate Valid()
      reads this
    {
      Wf(State())
    }

    constructor (initial: Store)
      requires Wf(initial)
      ensures Valid() && State() == initial
    {
      files, dirs := initial.files, initial.dirs;
    }

    method MakeDirs(d: Path) returns (r: Outcome<FsError>)
      requires Valid()
      modifies this
      ensures Valid()
      ensures r.Pass? ==> AfterMakeDirs(old(State()), d) == Ok(State())
      ensures r.Fail? ==> AfterMakeDirs(old(State()), d) == Err(r.error) && State() == old(State())
    {
      if Ancestors(d) !! files.Keys {
        MakeDirsKeepsWf(State(), d);
        dirs := dirs + Ancestors(d);
        r := Pass;
      } else {
        r := Fail(FileInTheWay(d));
      }
    }

    method WriteFile(p: Path, data: Bytes) returns (r: Outcome<FsError>)
      requires Valid()
      modifies this
      ensures Valid()
      ensures r.Pass? ==> AfterWrite(old(State()), p, data) == Ok(State())
      ensures r.Fail? ==> AfterWrite(old(State()), p, data) == Err(r.error) && State() == old(State())
    {
      if p == [] || p in dirs {
        r := Fail(IsADirectory(p));
      } else if |p| > 1 && Dirname(p) !in dirs {
        r := Fail(NoSuchDirectory(p));
      } else {
        files := files[p := data];
        r := Pass;
      }
    }
  }
}
