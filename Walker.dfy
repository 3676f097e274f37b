/**
 * The residual filter both drivers share: the entries of an input directory whose name is not
 * already listed in the output directory, in listing order, each joined to the input directory.
 */
module Walker {
  import opened Paths
  import opened FileSystem

  /** `[f for f in entries if f not in done]`. */
  function Residual(entries: seq<string>, done: seq<string>): (r: seq<string>)
    ensures |r| <= |entries|
    ensures forall n :: n in r <==> n in entries && n !in done
  {
    if entries == [] then []
    else (if entries[0] in done then [] else [entries[0]]) + Residual(entries[1..], done)
  }

  /** `[os.path.join(dir, f) for f in entries if f not in done]`. */
  function ResidualPaths(dir: string, entries: seq<string>, done: seq<string>): (r: seq<string>)
    ensures |r| == |Residual(entries, done)|
    ensures forall i :: 0 <= i < |r| ==> r[i] == Join(dir, Residual(entries, done)[i])
  {
    if entries == [] then []
    else (if entries[0] in done then [] else [Join(dir, entries[0])]) + ResidualPaths(dir, entries[1..], done)
  }

  /** The residual keeps input order: filtering a concatenation filters each part. */
  lemma {:induction false} ResidualAppend(a: seq<string>, b: seq<string>, done: seq<string>)
    ensures Residual(a + b, done) == Residual(a, done) + Residual(b, done)
    decreases |a|
  {
    if a == [] {
      assert a + b == b;
    } else {
      assert (a + b)[0] == a[0];
      assert (a + b)[1..] == a[1..] + b;
      ResidualAppend(a[1..], b, done);
    }
  }

  /**
   * Outputs that appear in two batches filter like one batch and then the other: after `more`
   * outputs are added to the `done` listing, the residual is the old residual minus them.
   */
  lemma {:induction false} ResidualMoreDone(entries: seq<string>, done: seq<string>, more: seq<string>)
    ensures Residual(entries, done + more) == Residual(Residual(entries, done), more)
    decreases |entries|
  {
    if entries != [] {
      var e := entries[0];
      ResidualMoreDone(entries[1..], done, more);
      var rest := Residual(entries[1..], done);
      if e in done {
        assert Residual(entries, done) == rest;
      } else {
        assert Residual(entries, done) == [e] + rest;
        assert ([e] + rest)[1..] == rest;
      }
    }
  }

  /** The filter depends on the output listing only through which input names it holds. */
  lemma {:induction false} ResidualCongruent(entries: seq<string>, d1: seq<string>, d2: seq<string>)
    requires forall n :: n in entries ==> (n in d1 <==> n in d2)
    ensures Residual(entries, d1) == Residual(entries, d2)
    decreases |entries|
  {
    if entries != [] {
      assert entries[0] in entries;
      assert forall n :: n in entries[1..] ==> n in entries;
      ResidualCongruent(entries[1..], d1, d2);
    }
  }

  /** An output listing that holds none of the input names leaves every input to do. */
  lemma ResidualNoneDone(entries: seq<string>, done: seq<string>)
    requires forall n :: n in entries ==> n !in done
    ensures Residual(entries, done) == entries
  {
    ResidualCongruent(entries, done, []);
    ResidualOfNothing(entries);
  }

  lemma {:induction false} ResidualOfNothing(entries: seq<string>)
    ensures Residual(entries, []) == entries
    decreases |entries|
  {
    if entries != [] {
      ResidualOfNothing(entries[1..]);
      assert entries == [entries[0]] + entries[1..];
    }
  }

  /** Filtering twice by the same listing is filtering once. */
  lemma ResidualIdempotent(entries: seq<string>, done: seq<string>)
    ensures Residual(Residual(entries, done), done) == Residual(entries, done)
  {
    var r := Residual(entries, done);
    ResidualNoneDone(r, done);
  }

  /** The residual as a set is the input set minus the output set. */
  lemma ResidualAsSet(entries: seq<string>, done: seq<string>)
    ensures (set n | n in Residual(entries, done)) == (set n | n in entries) - (set n | n in done)
  {
  }

  /** Distinct listings give a residual without repeats, hence distinct submitted paths. */
  lemma {:induction false} ResidualDistinct(entries: seq<string>, done: seq<string>)
    requires Distinct(entries)
    ensures Distinct(Residual(entries, done))
    decreases |entries|
  {
    if entries != [] {
      var tail := entries[1..];
      assert Distinct(tail) by {
        forall i, j | 0 <= i < j < |tail| ensures tail[i] != tail[j] {
          assert tail[i] == entries[i + 1] && tail[j] == entries[j + 1];
        }
      }
      ResidualDistinct(tail, done);
      var rest := Residual(tail, done);
      if entries[0] !in done {
        assert entries[0] !in tail by {
          forall k | 0 <= k < |tail| ensures tail[k] != entries[0] {
            assert tail[k] == entries[k + 1];
          }
        }
        assert entries[0] !in rest;
        var r := [entries[0]] + rest;
        forall i, j | 0 <= i < j < |r| ensures r[i] != r[j] {
          if i == 0 { assert r[j] == rest[j - 1]; assert rest[j - 1] in rest; } else { assert r[i] == rest[i - 1] && r[j] == rest[j - 1]; }
        }
      }
    }
  }

  /**
   * Every submitted path is the input directory joined with a listed name not in the output
   * listing, and no name already in the output listing is ever submitted.
   */
  lemma ResidualPathsSound(dir: string, entries: seq<string>, done: seq<string>)
    requires Clean(entries)
    ensures forall i :: 0 <= i < |ResidualPaths(dir, entries, done)| ==>
      var f := Residual(entries, done)[i];
      f in entries && f !in done && ResidualPaths(dir, entries, done)[i] == Join(dir, f)
    ensures forall f :: f in done && IsEntryName(f) ==> Join(dir, f) !in ResidualPaths(dir, entries, done)
  {
    var r := Residual(entries, done);
    var ps := ResidualPaths(dir, entries, done);
    forall i | 0 <= i < |ps| ensures r[i] in entries && r[i] !in done {
      assert r[i] in r;
    }
    forall f | f in done && IsEntryName(f) ensures Join(dir, f) !in ps {
      forall i | 0 <= i < |ps| ensures ps[i] != Join(dir, f) {
        assert r[i] in r;
        assert IsEntryName(r[i]) && r[i] != f;
        assert !IsAbs(f) by { assert f[0] in f; }
        assert !IsAbs(r[i]) by { assert r[i][0] in r[i]; }
        JoinDistinct(dir, r[i], f);
      }
    }
  }

  /** `[os.path.join(dir, f) for f in names]`. */
  function JoinAll(dir: string, names: seq<string>): (r: seq<string>)
    ensures |r| == |names|
    ensures forall i :: 0 <= i < |r| ==> r[i] == Join(dir, names[i])
  {
    if names == [] then [] else [Join(dir, names[0])] + JoinAll(dir, names[1..])
  }

  /** Joining keeps concatenation. */
  lemma {:induction false} JoinAllAppend(dir: string, a: seq<string>, b: seq<string>)
    ensures JoinAll(dir, a + b) == JoinAll(dir, a) + JoinAll(dir, b)
  {
  }

  /** The residual paths are the residual names, each joined to the input directory. */
  lemma ResidualPathsJoinAll(dir: string, entries: seq<string>, done: seq<string>)
    ensures ResidualPaths(dir, entries, done) == JoinAll(dir, Residual(entries, done))
  {
  }
}
