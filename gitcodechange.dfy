/**
 * The main window of Git_code_change.py: the list of SHA-1 input boxes
 * `change_num_sha1` grows and shrinks, and `start`, which checks every
 * SHA-1 and then exports each commit into the directory named after it.
 * The widgets are opaque objects whose only state is their text; the repo
 * path's text and git's answers are parameters.
 */
module GitCodeChange {
  import opened Wrappers
  import opened FileStore
  import opened Trace
  import opened DiffExport
  import opened DiffExportProperties
  import opened Locality
  import opened Sha1

  /** A `QLineEdit`: only its text matters here. */
  class LineEdit {
    var text: string

    constructor ()
      ensures text == ""
    {
      text := "";
    }
  }

  /** `[w.text() for w in inputs]`. */
  function Texts(inputs: seq<LineEdit>): (r: seq<string>)
    reads inputs
    ensures |r| == |inputs|
    ensures forall i :: 0 <= i < |inputs| ==> r[i] == inputs[i].text
    decreases |inputs|
  {
    if inputs == [] then [] else [inputs[0].text] + Texts(inputs[1..])
  }

  /** What git answers for `(repo_path, sha1)`: the commit's first-parent diff, or why there is none. */
  type Git = (string, string) -> CommitLookup

  /** How `start` ends: the warning naming an invalid SHA-1, or the completion dialog. */
  datatype StartOutcome = InvalidSha1(sha1: string) | Completed

  /** The position of the first SHA-1 `start` rejects, or `|shas|` when it accepts them all. */
  function FirstInvalid(shas: seq<string>): (k: nat)
    ensures k <= |shas|
    ensures forall j :: 0 <= j < k ==> IsValidSha1(shas[j])
    ensures k < |shas| ==> !IsValidSha1(shas[k])
    decreases |shas|
  {
    if shas == [] || !IsValidSha1(shas[0]) then 0 else 1 + FirstInvalid(shas[1..])
  }

  /** The store after `export_diff_files(repo_path, sha1)` for each of `shas` in turn, whatever each raised. */
  function ExportAll(st: Store, repoPath: string, git: Git, shas: seq<string>): Store
    decreases |shas|
  {
    if shas == [] then st
    else
      var last := shas[|shas| - 1];
      Exec(ExportAll(st, repoPath, git, shas[..|shas| - 1]), CommitOps(last, git(repoPath, last))).store
  }

  predicate Distinct(shas: seq<string>) {
    forall i, j :: 0 <= i < j < |shas| ==> shas[i] != shas[j]
  }

  class GitDiffExportApp {
    /** `self.sha1_inputs`: the input boxes, the one from the designer file first. */
    var sha1Inputs: seq<LineEdit>

    /** `__init__`: the list holds just the designer's `SHA1_input`. */
    constructor (first: LineEdit)
      ensures sha1Inputs == [first]
    {
      sha1Inputs := [first];
    }

    /**
     * `change_num_sha1(index)`: make the list `index + 1` boxes long, adding
     * new empty boxes at the end or dropping boxes from the end. For
     * `index < -1` it drops every box and then `pop` on the empty list
     * raises IndexError (`ok` is false).
     */
    method ChangeNumSha1(index: int) returns (ok: bool)
      modifies this
      ensures ok <==> index + 1 >= 0
      ensures |sha1Inputs| == if index + 1 >= 0 then index + 1 else 0
      ensures |sha1Inputs| <= |old(sha1Inputs)| ==> sha1Inputs == old(sha1Inputs)[..|sha1Inputs|]
      ensures |sha1Inputs| > |old(sha1Inputs)| ==> old(sha1Inputs) <= sha1Inputs
      ensures forall i :: |old(sha1Inputs)| <= i < |sha1Inputs| ==> fresh(sha1Inputs[i]) && sha1Inputs[i].text == ""
      ensures forall i, j :: |old(sha1Inputs)| <= i < j < |sha1Inputs| ==> sha1Inputs[i] != sha1Inputs[j]
    {
      var numSha1 := index + 1;
      ghost var before := sha1Inputs;
      while |sha1Inputs| < numSha1
        invariant before <= sha1Inputs
        invariant |sha1Inputs| <= if numSha1 > |before| then numSha1 else |before|
        invariant forall i :: |before| <= i < |sha1Inputs| ==> fresh(sha1Inputs[i]) && sha1Inputs[i].text == ""
        invariant forall i, j :: |before| <= i < j < |sha1Inputs| ==> sha1Inputs[i] != sha1Inputs[j]
        decreases numSha1 - |sha1Inputs|
      {
        var newSha1Input := new LineEdit();
        sha1Inputs := sha1Inputs + [newSha1Input];
      }
      while |sha1Inputs| > numSha1
        invariant |sha1Inputs| >= numSha1
        invariant |sha1Inputs| <= |before| ==> sha1Inputs == before[..|sha1Inputs|]
        invariant |sha1Inputs| > |before| ==> before <= sha1Inputs && |sha1Inputs| == numSha1
        invariant forall i :: |before| <= i < |sha1Inputs| ==> fresh(sha1Inputs[i]) && sha1Inputs[i].text == ""
        invariant forall i, j :: |before| <= i < j < |sha1Inputs| ==> sha1Inputs[i] != sha1Inputs[j]
        decreases |sha1Inputs|
      {
        if sha1Inputs == [] {
          return false;
        }
        sha1Inputs := sha1Inputs[..|sha1Inputs| - 1];
      }
      return true;
    }

    /**
     * `start()`: reject the first invalid SHA-1 before exporting anything;
     * otherwise export every SHA-1 into the directory of its name and report
     * completion. Each export runs in a thread whose exception Python only
     * prints, so a failed export still ends in the completion dialog.
     */
    method Start(fs: FileSystem, repoPath: string, git: Git) returns (r: StartOutcome)
      requires fs.Valid()
      modifies fs
      ensures fs.Valid()
      ensures var shas := old(Texts(sha1Inputs));
        && (r.InvalidSha1? <==> FirstInvalid(shas) < |shas|)
        && (r.InvalidSha1? ==> r.sha1 == shas[FirstInvalid(shas)] && fs.State() == old(fs.State()))
        && (r.Completed? ==> fs.State() == ExportAll(old(fs.State()), repoPath, git, shas))
    {
      var sha1List := Texts(sha1Inputs);
      var bad := CheckSha1s(sha1List);
      if bad < |sha1List| {
        return InvalidSha1(sha1List[bad]);
      }
      FirstInvalidMeans(sha1List);
      RunExports(fs, repoPath, git, sha1List);
      return Completed;
    }
  }

  /** The check loop of `start`: the position of the first invalid SHA-1, or `|shas|`. */
  method CheckSha1s(shas: seq<string>) returns (bad: nat)
    ensures bad == FirstInvalid(shas)
  {
    var i := 0;
    while i < |shas|
      invariant 0 <= i <= |shas|
      invariant forall j :: 0 <= j < i ==> IsValidSha1(shas[j])
    {
      if !IsValidSha1(shas[i]) {
        FirstInvalidAt(shas, i);
        return i;
      }
      i := i + 1;
    }
    FirstInvalidMeans(shas);
    return |shas|;
  }

  /**
   * The thread loops of `start`: one `export_diff_files(repo_path, sha1)`
   * per SHA-1, each running to its end or its exception, all joined.
   */
  method RunExports(fs: FileSystem, repoPath: string, git: Git, shas: seq<string>)
    requires fs.Valid()
    modifies fs
    ensures fs.Valid()
    ensures fs.State() == ExportAll(old(fs.State()), repoPath, git, shas)
  {
    for k := 0 to |shas|
      invariant fs.Valid()
      invariant fs.State() == ExportAll(old(fs.State()), repoPath, git, shas[..k])
    {
      assert shas[..k + 1][..k] == shas[..k];
      var _ := ExportDiffFiles(fs, shas[k], git(repoPath, shas[k]));
    }
    assert shas[..|shas|] == shas;
  }

  /** The first SHA-1 that fails the check is the one `start` names. */
  lemma FirstInvalidAt(shas: seq<string>, i: nat)
    requires i < |shas| && !IsValidSha1(shas[i])
    requires forall j :: 0 <= j < i ==> IsValidSha1(shas[j])
    ensures FirstInvalid(shas) == i
  {
  }

  /** `start` accepts a list exactly when each of its SHA-1s is valid. */
  lemma FirstInvalidMeans(shas: seq<string>)
    ensures FirstInvalid(shas) == |shas| <==> forall j :: 0 <= j < |shas| ==> IsValidSha1(shas[j])
  {
  }

  /** Exporting a list of commits changes nothing outside the directories named by the list. */
  lemma {:induction false} ExportAllFrame(st: Store, repoPath: string, git: Git, shas: seq<string>, q: Path)
    requires q == [] || q[0] !in shas
    ensures Get(ExportAll(st, repoPath, git, shas).files, q) == Get(st.files, q)
    ensures q in ExportAll(st, repoPath, git, shas).dirs <==> q in st.dirs
    decreases |shas|
  {
    if shas != [] {
      var last := shas[|shas| - 1];
      var init := shas[..|shas| - 1];
      assert forall s :: s in init ==> s in shas;
      ExportAllFrame(st, repoPath, git, init, q);
      CommitOpsWithin(last, git(repoPath, last));
      ExecOutside(last, CommitOps(last, git(repoPath, last)), ExportAll(st, repoPath, git, init));
    }
  }

  /** Exporting keeps the store well formed. */
  lemma {:induction false} ExportAllKeepsWf(st: Store, repoPath: string, git: Git, shas: seq<string>)
    requires Wf(st)
    ensures Wf(ExportAll(st, repoPath, git, shas))
    decreases |shas|
  {
    if shas != [] {
      var last := shas[|shas| - 1];
      ExportAllKeepsWf(st, repoPath, git, shas[..|shas| - 1]);
      ExecKeepsWf(ExportAll(st, repoPath, git, shas[..|shas| - 1]), CommitOps(last, git(repoPath, last)));
    }
  }

  /**
   * With distinct SHA-1s, each commit's directory ends up exactly as if its
   * export had run alone on the starting store: the exports, one thread
   * each in the source, do not see each other.
   */
  lemma {:induction false} ExportAllIsolated(st: Store, repoPath: string, git: Git, shas: seq<string>, k: nat)
    requires Distinct(shas) && k < |shas|
    ensures SameWithin(shas[k], ExportAll(st, repoPath, git, shas), Exec(st, CommitOps(shas[k], git(repoPath, shas[k]))).store)
    decreases |shas|
  {
    var last := shas[|shas| - 1];
    var init := shas[..|shas| - 1];
    var before := ExportAll(st, repoPath, git, init);
    var lastOps := CommitOps(last, git(repoPath, last));
    CommitOpsWithin(last, git(repoPath, last));
    if k == |shas| - 1 {
      forall q | Within(last, q) ensures Get(before.files, q) == Get(st.files, q) && (q in before.dirs <==> q in st.dirs) {
        forall j | 0 <= j < |init| ensures init[j] != q[0] {
          assert init[j] == shas[j];
        }
        ExportAllFrame(st, repoPath, git, init, q);
      }
      ExecLocal(last, lastOps, before, st);
    } else {
      assert init[k] == shas[k];
      assert Distinct(init) by {
        forall i, j | 0 <= i < j < |init| ensures init[i] != init[j] {
          assert init[i] == shas[i] && init[j] == shas[j];
        }
      }
      ExportAllIsolated(st, repoPath, git, init, k);
      ExecOutside(last, lastOps, before);
    }
  }

  /**
   * With distinct SHA-1s the final store does not depend on the order in
   * which the exports ran, so the order the threads happen to take does not
   * matter.
   */
  lemma ExportAllOrderFree(st: Store, repoPath: string, git: Git, shas: seq<string>, other: seq<string>)
    requires Distinct(shas) && Distinct(other)
    requires forall s :: s in shas <==> s in other
    ensures ExportAll(st, repoPath, git, shas) == ExportAll(st, repoPath, git, other)
  {
    var x := ExportAll(st, repoPath, git, shas);
    var y := ExportAll(st, repoPath, git, other);
    forall q ensures Get(x.files, q) == Get(y.files, q) && (q in x.dirs <==> q in y.dirs) {
      if q != [] && q[0] in shas {
        var k :| 0 <= k < |shas| && shas[k] == q[0];
        var l :| 0 <= l < |other| && other[l] == q[0];
        ExportAllIsolated(st, repoPath, git, shas, k);
        ExportAllIsolated(st, repoPath, git, other, l);
      } else {
        ExportAllFrame(st, repoPath, git, shas, q);
        ExportAllFrame(st, repoPath, git, other, q);
      }
    }
    StoreExt(x, y);
  }
}
