/**
 * Runs confined to different top-level directories do not interfere: each
 * sees and changes only its own directory, so running one after the other
 * in either order gives the same store and the same errors.
 */
module Locality {
  import opened Wrappers
  import opened FileStore
  import opened Trace

  /** Every call of `op` stays inside `top`; a write also names a file below it. */
  predicate OpWithin(top: string, op: Op) {
    match op
    case MakeDirsOp(d) => Within(top, d)
    case WriteOp(p, _) => Within(top, p) && |p| > 1
    case RaiseOp(_) => true
  }

  predicate OpsWithin(top: string, ops: seq<Op>) {
    forall i :: 0 <= i < |ops| ==> OpWithin(top, ops[i])
  }

  lemma OpsWithinAppend(top: string, p: seq<Op>, q: seq<Op>)
    requires OpsWithin(top, p) && OpsWithin(top, q)
    ensures OpsWithin(top, p + q)
  {
    forall i | 0 <= i < |p + q| ensures OpWithin(top, (p + q)[i]) {
      if i >= |p| {
        assert (p + q)[i] == q[i - |p|];
      }
    }
  }

  /** Two stores that agree on everything inside `top`. */
  ghost predicate SameWithin(top: string, s: Store, t: Store) {
    forall q :: Within(top, q) ==> Get(s.files, q) == Get(t.files, q) && (q in s.dirs <==> q in t.dirs)
  }

  /** Two stores that agree on everything outside `top`. */
  ghost predicate SameOutside(top: string, s: Store, t: Store) {
    forall q :: !Within(top, q) ==> Get(s.files, q) == Get(t.files, q) && (q in s.dirs <==> q in t.dirs)
  }

  /** Stores are equal when they agree at every path. */
  lemma StoreExt(s: Store, t: Store)
    requires forall q :: Get(s.files, q) == Get(t.files, q) && (q in s.dirs <==> q in t.dirs)
    ensures s == t
  {
    assert s.files.Keys == t.files.Keys by {
      forall q ensures q in s.files <==> q in t.files {
        assert Get(s.files, q) == Get(t.files, q);
      }
    }
    forall q | q in s.files ensures s.files[q] == t.files[q] {
      assert Get(s.files, q) == Get(t.files, q);
    }
    assert s.files == t.files;
  }

  /** A call inside `top` gives the same outcome on stores that agree inside `top`, and they still agree afterwards. */
  lemma ApplyLocal(top: string, op: Op, s: Store, t: Store)
    requires OpWithin(top, op) && SameWithin(top, s, t)
    ensures Apply(s, op).Stop? <==> Apply(t, op).Stop?
    ensures Apply(s, op).Stop? ==> Apply(s, op).error == Apply(t, op).error
    ensures Apply(s, op).Next? ==> SameWithin(top, Apply(s, op).store, Apply(t, op).store)
  {
    match op
    case MakeDirsOp(d) =>
      forall q | q in Ancestors(d) ensures Within(top, q) {
        AncestorsMeans(d, q);
        assert q[0] == d[0];
      }
      assert Ancestors(d) !! s.files.Keys <==> Ancestors(d) !! t.files.Keys by {
        forall q | q in Ancestors(d) ensures q in s.files <==> q in t.files {
          assert Get(s.files, q) == Get(t.files, q);
        }
      }
    case WriteOp(p, data) =>
      assert Within(top, Dirname(p));
      assert Get(s.files, p) == Get(t.files, p);
    case RaiseOp(_) =>
  }

  /** A run inside `top` gives the same error on stores that agree inside `top`, and leaves them agreeing there. */
  lemma {:induction false} ExecLocal(top: string, ops: seq<Op>, s: Store, t: Store)
    requires OpsWithin(top, ops) && SameWithin(top, s, t)
    ensures Exec(s, ops).error == Exec(t, ops).error
    ensures SameWithin(top, Exec(s, ops).store, Exec(t, ops).store)
    decreases |ops|
  {
    if ops != [] {
      ApplyLocal(top, ops[0], s, t);
      if Apply(s, ops[0]).Next? {
        assert OpsWithin(top, ops[1..]) by {
          forall i | 0 <= i < |ops[1..]| ensures OpWithin(top, ops[1..][i]) {
            assert ops[1..][i] == ops[i + 1];
          }
        }
        ExecLocal(top, ops[1..], Apply(s, ops[0]).store, Apply(t, ops[0]).store);
      }
    }
  }

  /** A run inside `top` changes nothing outside it. */
  lemma {:induction false} ExecOutside(top: string, ops: seq<Op>, s: Store)
    requires OpsWithin(top, ops)
    ensures SameOutside(top, s, Exec(s, ops).store)
    decreases |ops|
  {
    if ops != [] {
      match Apply(s, ops[0])
      case Stop(_) =>
      case Next(s1) =>
        forall q | !Within(top, q) ensures Get(s.files, q) == Get(s1.files, q) && (q in s.dirs <==> q in s1.dirs) {
          if ops[0].MakeDirsOp? {
            AncestorsMeans(ops[0].dir, q);
          }
        }
        assert OpsWithin(top, ops[1..]) by {
          forall i | 0 <= i < |ops[1..]| ensures OpWithin(top, ops[1..][i]) {
            assert ops[1..][i] == ops[i + 1];
          }
        }
        ExecOutside(top, ops[1..], s1);
    }
  }

  /**
   * Runs inside two different top-level directories commute: either order
   * ends in the same store, and each run raises what it raises alone.
   */
  lemma ExecCommute(a: string, p: seq<Op>, b: string, q: seq<Op>, st: Store)
    requires a != b && OpsWithin(a, p) && OpsWithin(b, q)
    ensures Exec(Exec(st, p).store, q).store == Exec(Exec(st, q).store, p).store
    ensures Exec(Exec(st, p).store, q).error == Exec(st, q).error
    ensures Exec(Exec(st, q).store, p).error == Exec(st, p).error
  {
    var sp, sq := Exec(st, p).store, Exec(st, q).store;
    var x, y := Exec(sp, q).store, Exec(sq, p).store;
    ExecOutside(a, p, st);
    ExecOutside(b, q, st);
    ExecOutside(b, q, sp);
    ExecOutside(a, p, sq);
    assert SameWithin(a, st, sq);
    assert SameWithin(b, st, sp);
    ExecLocal(a, p, st, sq);
    ExecLocal(b, q, sp, st);
    StoreExt(x, y);
  }
}
