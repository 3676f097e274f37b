/**
 * The part of the file system the two drivers see: the listing of each directory and what
 * each written file holds, both keyed by resolved path (absolute and normal, as `abspath`
 * makes it), with relative paths resolved against the working directory.
 */
module FileSystem {
  import opened Wrappers
  import opened Paths

  datatype OsError =
    | FileNotFound(path: string)
    | FileExists(path: string)
    | IsADirectory(path: string)

  datatype Fs<A> = Fs(cwd: string, dirs: map<string, seq<string>>, files: map<string, A>)

  function Resolve<A>(fs: Fs<A>, p: string): string {
    AbsPath(fs.cwd, p)
  }

  predicate IsDir<A>(fs: Fs<A>, p: string) {
    Resolve(fs, p) in fs.dirs
  }

  /** The entries of directory `p`, empty for a path that is not a directory. */
  function Listing<A>(fs: Fs<A>, p: string): seq<string> {
    if IsDir(fs, p) then fs.dirs[Resolve(fs, p)] else []
  }

  predicate Distinct(s: seq<string>) {
    forall i, j :: 0 <= i < j < |s| ==> s[i] != s[j]
  }

  /** What the operating system guarantees: an absolute working directory and listings of distinct plain names. */
  predicate WellFormed<A>(fs: Fs<A>) {
    IsAbs(fs.cwd) &&
    forall d :: d in fs.dirs ==> Clean(fs.dirs[d]) && Distinct(fs.dirs[d])
  }

  /** `os.listdir(p)`: the listing, or `FileNotFoundError` when `p` is no directory. */
  function ListDir<A>(fs: Fs<A>, p: string): (r: Result<seq<string>, OsError>)
    ensures r.Ok? <==> IsDir(fs, p)
    ensures r.Ok? ==> r.value == Listing(fs, p)
  {
    if IsDir(fs, p) then Ok(fs.dirs[Resolve(fs, p)]) else Err(FileNotFound(p))
  }

  /** `os.path.exists(p)`. */
  predicate Exists<A>(fs: Fs<A>, p: string) {
    Resolve(fs, p) in fs.dirs || Resolve(fs, p) in fs.files
  }

  /**
   * `os.makedirs(p, exist_ok=existOk)`: creates directory `p` empty; an existing file of that
   * name, or an existing directory when `existOk` is false, raises `FileExistsError`.
   */
  function MakeDirs<A>(fs: Fs<A>, p: string, existOk: bool): (r: Result<Fs<A>, OsError>)
    ensures r.Err? <==> Resolve(fs, p) in fs.files || (IsDir(fs, p) && !existOk)
    ensures r.Ok? ==> IsDir(r.value, p) && r.value.cwd == fs.cwd && r.value.files == fs.files
    ensures r.Ok? ==> r.value.dirs == if IsDir(fs, p) then fs.dirs else fs.dirs[Resolve(fs, p) := []]
  {
    var key := Resolve(fs, p);
    if key in fs.files then Err(FileExists(p))
    else if key in fs.dirs then (if existOk then Ok(fs) else Err(FileExists(p)))
    else Ok(fs.(dirs := fs.dirs[key := []]))
  }

  /** A directory listing after a file called `name` is written into it. */
  function AddEntry(listing: seq<string>, name: string): (r: seq<string>)
    ensures forall x :: x in r <==> x in listing || x == name
    ensures Distinct(listing) ==> Distinct(r)
    ensures |r| == if name in listing then |listing| else |listing| + 1
  {
    if name in listing then listing else listing + [name]
  }

  /**
   * Writing artifact `a` to file `p` (as `ants.image_write` and `sitk.WriteImage` do): the file's
   * name joins its directory's listing, unless the directory is missing (`FileNotFoundError`) or
   * `p` names the root (`IsADirectoryError`).
   */
  function WriteFile<A>(fs: Fs<A>, p: string, a: A): (r: Result<Fs<A>, OsError>)
    ensures r.Ok? ==> r.value.cwd == fs.cwd && r.value.files == fs.files[Resolve(fs, p) := a]
    ensures r.Ok? ==> var parent := Dirname(Resolve(fs, p));
      parent in fs.dirs && r.value.dirs == fs.dirs[parent := AddEntry(fs.dirs[parent], Basename(Resolve(fs, p)))]
  {
    var key := Resolve(fs, p);
    var parent := Dirname(key);
    var name := Basename(key);
    if name == "" then Err(IsADirectory(p))
    else if parent !in fs.dirs then Err(FileNotFound(p))
    else Ok(fs.(dirs := fs.dirs[parent := AddEntry(fs.dirs[parent], name)], files := fs.files[key := a]))
  }

  // ---------------------------------------------------------------- lemmas

  /** `makedirs(p, exist_ok=True)` a second time changes nothing. */
  lemma MakeDirsIdempotent<A>(fs: Fs<A>, p: string)
    requires MakeDirs(fs, p, true).Ok?
    ensures MakeDirs(MakeDirs(fs, p, true).value, p, true) == MakeDirs(fs, p, true)
  {
  }

  lemma MakeDirsWellFormed<A>(fs: Fs<A>, p: string, existOk: bool)
    requires WellFormed(fs) && MakeDirs(fs, p, existOk).Ok?
    ensures WellFormed(MakeDirs(fs, p, existOk).value)
  {
  }

  lemma WriteFileWellFormed<A>(fs: Fs<A>, p: string, a: A)
    requires WellFormed(fs) && WriteFile(fs, p, a).Ok?
    ensures WellFormed(WriteFile(fs, p, a).value)
  {
    var key := Resolve(fs, p);
    AbsPathIsNormalAbs(fs.cwd, p);
    var x := if IsAbs(p) then p else Join(fs.cwd, p);
    assert IsAbs(x) by {
      if !IsAbs(p) { assert Join(fs.cwd, p)[0] == fs.cwd[0]; }
    }
    BasenameOfNormal(x);
    assert IsEntryName(Basename(key));
  }

  /**
   * Writing `join(dir, n)` for a plain name `n` into an existing directory succeeds, adds `n` to
   * that directory's listing (once), stores the artifact under the resolved path, and changes no
   * other listing.
   */
  lemma WriteEntry<A>(fs: Fs<A>, dir: string, n: string, a: A)
    requires IsAbs(fs.cwd) && IsEntryName(n) && IsDir(fs, dir)
    ensures WriteFile(fs, Join(dir, n), a).Ok?
    ensures var fs' := WriteFile(fs, Join(dir, n), a).value;
      fs'.cwd == fs.cwd &&
      fs'.dirs == fs.dirs[Resolve(fs, dir) := AddEntry(fs.dirs[Resolve(fs, dir)], n)] &&
      fs'.files == fs.files[Join(Resolve(fs, dir), n) := a]
  {
    ResolvedEntry(fs.cwd, dir, n);
    AbsPathJoin(fs.cwd, dir, n);
  }

  /** `makedirs` never changes what listing a path reads. */
  lemma MakeDirsKeepsListing<A>(fs: Fs<A>, p: string, existOk: bool, q: string)
    requires MakeDirs(fs, p, existOk).Ok?
    ensures Listing(MakeDirs(fs, p, existOk).value, q) == Listing(fs, q)
  {
    var fs1 := MakeDirs(fs, p, existOk).value;
    var kq := Resolve(fs, q);
    assert Resolve(fs1, q) == kq;
    if !IsDir(fs, p) {
      var kp := Resolve(fs, p);
      assert fs1.dirs == fs.dirs[kp := []];
      if kq == kp {
        assert Listing(fs, q) == [];
      } else {
        assert (kq in fs1.dirs) == (kq in fs.dirs);
      }
    }
  }

  /** After `makedirs(p)`, a path is a directory when it was one or it resolves to `p`. */
  lemma MakeDirsIsDir<A>(fs: Fs<A>, p: string, existOk: bool, q: string)
    requires MakeDirs(fs, p, existOk).Ok?
    ensures IsDir(MakeDirs(fs, p, existOk).value, q) <==> IsDir(fs, q) || Resolve(fs, q) == Resolve(fs, p)
  {
    var fs1 := MakeDirs(fs, p, existOk).value;
    assert Resolve(fs1, q) == Resolve(fs, q);
  }

  // ---------------------------------------------------------------- batches of writes

  /** One file a batch of jobs writes: its resolved path and what it then holds. */
  datatype Write<A> = Write(path: string, content: A)

  /** The files after the writes of a batch, applied in order. */
  function ApplyWrites<A>(files: map<string, A>, ws: seq<Write<A>>): map<string, A>
    decreases |ws|
  {
    if ws == [] then files else ApplyWrites(files[ws[0].path := ws[0].content], ws[1..])
  }

  /** The paths a batch writes, in order. */
  function WrittenPaths<A>(ws: seq<Write<A>>): (r: seq<string>)
    ensures |r| == |ws| && forall i :: 0 <= i < |ws| ==> r[i] == ws[i].path
  {
    seq(|ws|, i requires 0 <= i < |ws| => ws[i].path)
  }

  lemma WrittenPathsAppend<A>(a: seq<Write<A>>, b: seq<Write<A>>)
    ensures WrittenPaths(a + b) == WrittenPaths(a) + WrittenPaths(b)
  {
    assert forall i :: 0 <= i < |a + b| ==> WrittenPaths(a + b)[i] == (WrittenPaths(a) + WrittenPaths(b))[i];
  }

  /** Two file maps that hold the same files outside the paths `ps`. */
  ghost predicate AgreeOutside<A>(f: map<string, A>, g: map<string, A>, ps: seq<string>) {
    forall k :: k !in ps ==> (k in f <==> k in g) && (k in f ==> f[k] == g[k])
  }

  /** A batch leaves every file it does not write as it was, and every path it writes holds a file. */
  lemma {:induction false} ApplyWritesFrame<A>(files: map<string, A>, ws: seq<Write<A>>)
    ensures AgreeOutside(ApplyWrites(files, ws), files, WrittenPaths(ws))
    ensures forall k :: k in WrittenPaths(ws) ==> k in ApplyWrites(files, ws)
    decreases |ws|
  {
    if ws != [] {
      var w := ws[0];
      ApplyWritesFrame(files[w.path := w.content], ws[1..]);
      assert forall k :: k in WrittenPaths(ws) <==> k == w.path || k in WrittenPaths(ws[1..]) by {
        assert WrittenPaths(ws) == [w.path] + WrittenPaths(ws[1..]);
      }
    }
  }

  /** A batch made of two parts is the first part followed by the second. */
  lemma {:induction false} ApplyWritesAppend<A>(files: map<string, A>, a: seq<Write<A>>, b: seq<Write<A>>)
    ensures ApplyWrites(files, a + b) == ApplyWrites(ApplyWrites(files, a), b)
    decreases |a|
  {
    if a == [] {
      assert a + b == b;
    } else {
      assert (a + b)[0] == a[0] && (a + b)[1..] == a[1..] + b;
      ApplyWritesAppend(files[a[0].path := a[0].content], a[1..], b);
    }
  }

  /** The outcome of a batch depends on the files it starts from only outside the paths it writes. */
  lemma {:induction false} ApplyWritesAgree<A>(f: map<string, A>, g: map<string, A>, ws: seq<Write<A>>)
    requires AgreeOutside(f, g, WrittenPaths(ws))
    ensures ApplyWrites(f, ws) == ApplyWrites(g, ws)
    decreases |ws|
  {
    if ws == [] {
      assert forall k :: k in f <==> k in g;
    } else {
      var w := ws[0];
      assert WrittenPaths(ws) == [w.path] + WrittenPaths(ws[1..]);
      ApplyWritesAgree(f[w.path := w.content], g[w.path := w.content], ws[1..]);
    }
  }

  /** Applying the same batch a second time leaves the files as the first time left them. */
  lemma ApplyWritesTwice<A>(files: map<string, A>, ws: seq<Write<A>>)
    ensures ApplyWrites(ApplyWrites(files, ws), ws) == ApplyWrites(files, ws)
  {
    ApplyWritesFrame(files, ws);
    ApplyWritesAgree(ApplyWrites(files, ws), files, ws);
  }

  /** A batch of one write. */
  lemma ApplyOneWrite<A>(files: map<string, A>, w: Write<A>)
    ensures ApplyWrites(files, [w]) == files[w.path := w.content]
  {
    assert [w][1..] == [];
  }
}
