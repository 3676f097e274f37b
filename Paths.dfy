/**
 * POSIX path arithmetic as Python's `posixpath` module does it: `join`, `basename`,
 * `dirname`, `normpath` and `abspath` (with the working directory passed in), plus the
 * facts the batch drivers rely on when they name an output after an input.
 */
module Paths {

  /** `posixpath.isabs`: the path starts with the separator. */
  predicate IsAbs(p: string) {
    |p| > 0 && p[0] == '/'
  }

  predicate EndsWithSep(p: string) {
    |p| > 0 && p[|p| - 1] == '/'
  }

  predicate AllSeps(s: string) {
    forall i :: 0 <= i < |s| ==> s[i] == '/'
  }

  /** A name as `os.listdir` reports it: not empty, not "." or "..", and free of separators. */
  predicate IsEntryName(n: string) {
    n != "" && n != "." && n != ".." && '/' !in n
  }

  /** What `join` puts in front of a relative second argument. */
  function JoinPrefix(a: string): (r: string)
    ensures a != "" ==> EndsWithSep(r)
    ensures |r| >= |a| && r[..|a|] == a
  {
    if a == "" || EndsWithSep(a) then a else a + "/"
  }

  /** `posixpath.join(a, b)`: an absolute `b` replaces `a`; otherwise one separator joins them. */
  function Join(a: string, b: string): (r: string)
    ensures IsAbs(b) ==> r == b
    ensures !IsAbs(b) ==> |r| >= |a| + |b| && r[..|a|] == a && r[|r| - |b|..] == b
    ensures !IsAbs(b) && a != "" ==> (IsAbs(r) <==> IsAbs(a))
  {
    if IsAbs(b) then b else JoinPrefix(a) + b
  }

  /** `p.rfind('/')`: the index of the last separator, or -1. */
  function LastSep(p: string): (k: int)
    ensures -1 <= k < |p|
    ensures 0 <= k ==> p[k] == '/'
    ensures forall i :: k < i < |p| ==> p[i] != '/'
  {
    if p == "" then -1
    else if p[|p| - 1] == '/' then |p| - 1
    else LastSep(p[..|p| - 1])
  }

  /** `posixpath.basename`: what follows the last separator. */
  function Basename(p: string): (r: string)
    ensures '/' !in r
    ensures |r| <= |p| && p[|p| - |r|..] == r
    ensures '/' !in p ==> r == p
  {
    p[LastSep(p) + 1..]
  }

  function RStripSeps(s: string): (r: string)
    ensures |r| <= |s| && s[..|r|] == r
    ensures !EndsWithSep(r)
    ensures AllSeps(s[|r|..])
  {
    if EndsWithSep(s) then RStripSeps(s[..|s| - 1]) else s
  }

  /** `posixpath.dirname`: up to the last separator, trailing separators stripped unless only separators are left. */
  function Dirname(p: string): (r: string)
    ensures |r| <= |p| && p[..|r|] == r
  {
    var head := p[..LastSep(p) + 1];
    if head != "" && !AllSeps(head) then RStripSeps(head) else head
  }

  /** `p.split('/')`. */
  function Split(p: string): (cs: seq<string>)
    ensures |cs| >= 1
    ensures forall c :: c in cs ==> '/' !in c
    decreases |p|
  {
    var k := LastSep(p);
    if k < 0 then [p] else Split(p[..k]) + [p[k + 1..]]
  }

  /** One step of `normpath`'s loop over the components. */
  function Push(stack: seq<string>, comp: string, rooted: bool): seq<string> {
    if comp == "" || comp == "." then stack
    else if comp != ".." || (!rooted && stack == []) || (stack != [] && stack[|stack| - 1] == "..") then stack + [comp]
    else if stack != [] then stack[..|stack| - 1]
    else stack
  }

  function Fold(comps: seq<string>, rooted: bool): seq<string>
    decreases |comps|
  {
    if comps == [] then [] else Push(Fold(comps[..|comps| - 1], rooted), comps[|comps| - 1], rooted)
  }

  /** `'/'.join(cs)`. */
  function JoinComps(cs: seq<string>): string
    decreases |cs|
  {
    if cs == [] then ""
    else if |cs| == 1 then cs[0]
    else JoinComps(cs[..|cs| - 1]) + "/" + cs[|cs| - 1]
  }

  /** The leading separators `normpath` keeps: two stay two, one or three and more become one. */
  function RootOf(p: string): (r: string)
    ensures IsAbs(p) <==> r != ""
    ensures r == "" || r == "/" || r == "//"
  {
    if !IsAbs(p) then ""
    else if |p| >= 2 && p[1] == '/' && !(|p| >= 3 && p[2] == '/') then "//"
    else "/"
  }

  /** `posixpath.normpath`. */
  function NormPath(p: string): string {
    if p == "" then "."
    else
      var q := RootOf(p) + JoinComps(Fold(Split(p), IsAbs(p)));
      if q == "" then "." else q
  }

  /** `posixpath.abspath`, with the process's working directory `cwd` passed in. */
  function AbsPath(cwd: string, p: string): string {
    NormPath(if IsAbs(p) then p else Join(cwd, p))
  }

  /** The shape of every path `normpath` returns for an absolute argument. */
  predicate IsNormalAbs(q: string) {
    IsAbs(q) && (EndsWithSep(q) ==> q == "/" || q == "//")
  }

  predicate Clean(cs: seq<string>) {
    forall c :: c in cs ==> IsEntryName(c)
  }

  // ---------------------------------------------------------------- join and basename

  /** A listed name is never an absolute path. */
  lemma NotAbsEntry(n: string)
    requires IsEntryName(n)
    ensures !IsAbs(n)
  {
    assert n[0] in n;
  }

  /** Two names joined to the same directory give the same path only if they are equal. */
  lemma JoinInjective(d: string, a: string, b: string)
    requires !IsAbs(a) && !IsAbs(b)
    requires Join(d, a) == Join(d, b)
    ensures a == b
  {
    var pre := JoinPrefix(d);
    assert Join(d, a) == pre + a && Join(d, b) == pre + b;
    assert a == (pre + a)[|pre|..];
    assert b == (pre + b)[|pre|..];
  }

  lemma JoinDistinct(d: string, a: string, b: string)
    requires !IsAbs(a) && !IsAbs(b) && a != b
    ensures Join(d, a) != Join(d, b)
  {
    var pre := JoinPrefix(d);
    assert Join(d, a)[|pre|..] == a && Join(d, b)[|pre|..] == b;
  }

  lemma {:induction false} LastSepAppend(x: string, c: string)
    requires '/' !in c
    ensures LastSep(x + c) == LastSep(x)
    decreases |c|
  {
    if c != "" {
      var c' := c[..|c| - 1];
      assert (x + c)[..|x + c| - 1] == x + c';
      assert c[|c| - 1] in c;
      LastSepAppend(x, c');
    } else {
      assert x + c == x;
    }
  }

  /** For a name without separators, the basename of the joined path is the name itself. */
  lemma BasenameOfJoin(d: string, n: string)
    requires '/' !in n
    ensures Basename(Join(d, n)) == n
  {
    var pre := JoinPrefix(d);
    assert !IsAbs(n) by { if n != "" { assert n[0] in n; } }
    assert Join(d, n) == pre + n;
    LastSepAppend(pre, n);
    if pre == "" {
      assert pre + n == n;
    } else {
      assert LastSep(pre) == |pre| - 1;
      assert (pre + n)[|pre|..] == n;
    }
  }

  /** Joining a name to a normal absolute directory and taking the directory part gives the directory back. */
  lemma DirnameOfJoin(q: string, n: string)
    requires IsNormalAbs(q) && '/' !in n
    ensures Dirname(Join(q, n)) == q
  {
    var pre := JoinPrefix(q);
    assert !IsAbs(n) by { if n != "" { assert n[0] in n; } }
    var p := pre + n;
    assert Join(q, n) == p;
    LastSepAppend(pre, n);
    assert LastSep(pre) == |pre| - 1;
    assert p[..|pre|] == pre;
    if EndsWithSep(q) {
      assert pre == q;
      assert AllSeps(q);
    } else {
      assert pre == q + "/";
      assert !AllSeps(pre) by { assert pre[|q| - 1] != '/'; }
      assert pre[..|pre| - 1] == q;
    }
  }

  // ---------------------------------------------------------------- split and the component fold

  lemma SplitAppend(x: string, c: string)
    requires EndsWithSep(x) && '/' !in c
    ensures Split(x + c) == Split(x[..|x| - 1]) + [c]
  {
    LastSepAppend(x, c);
    assert LastSep(x) == |x| - 1;
    assert (x + c)[..|x| - 1] == x[..|x| - 1];
    assert (x + c)[|x|..] == c;
  }

  lemma FoldSnoc(s: seq<string>, c: string, rooted: bool)
    ensures Fold(s + [c], rooted) == Push(Fold(s, rooted), c, rooted)
  {
    assert (s + [c])[..|s|] == s;
  }

  /** Folding separator-free components from the root never keeps "", "." or "..". */
  lemma {:induction false} FoldRootedClean(comps: seq<string>)
    requires forall c :: c in comps ==> '/' !in c
    ensures Clean(Fold(comps, true))
    decreases |comps|
  {
    if comps != [] {
      var init := comps[..|comps| - 1];
      assert forall c :: c in init ==> c in comps;
      FoldRootedClean(init);
      assert comps[|comps| - 1] in comps;
    }
  }

  lemma {:induction false} JoinCompsEnds(cs: seq<string>)
    requires Clean(cs) && cs != []
    ensures JoinComps(cs) != ""
    ensures JoinComps(cs)[0] != '/'
    ensures !EndsWithSep(JoinComps(cs))
    decreases |cs|
  {
    assert cs[0] in cs && cs[|cs| - 1] in cs;
    assert cs[0][0] in cs[0];
    var last := cs[|cs| - 1];
    assert last[|last| - 1] in last;
    if |cs| > 1 {
      var init := cs[..|cs| - 1];
      assert forall c :: c in init ==> c in cs;
      assert init[0] == cs[0];
      JoinCompsEnds(init);
    }
  }

  lemma JoinCompsSnoc(cs: seq<string>, c: string)
    requires cs != []
    ensures JoinComps(cs + [c]) == JoinComps(cs) + "/" + c
  {
    assert (cs + [c])[..|cs|] == cs;
  }

  /** What `normpath` makes of an absolute path: its root followed by clean components. */
  lemma NormAbsShape(p: string)
    requires IsAbs(p)
    ensures Clean(Fold(Split(p), true))
    ensures NormPath(p) == RootOf(p) + JoinComps(Fold(Split(p), true))
    ensures IsNormalAbs(NormPath(p))
  {
    var f := Fold(Split(p), true);
    FoldRootedClean(Split(p));
    var q := RootOf(p) + JoinComps(f);
    assert q[0] == '/';
    if f != [] {
      JoinCompsEnds(f);
      assert q[|q| - 1] == JoinComps(f)[|JoinComps(f)| - 1];
    } else {
      assert q == RootOf(p);
    }
  }

  lemma RootOfJoin(p: string, n: string)
    requires IsAbs(p) && IsEntryName(n)
    ensures RootOf(Join(p, n)) == RootOf(p)
  {
    assert n[0] in n;
    var j := Join(p, n);
    assert j == JoinPrefix(p) + n;
    assert j[0] == '/';
    if |p| >= 3 {
      assert j[..3] == p[..3];
    } else if |p| == 2 {
      assert j[..2] == p;
      if p[1] == '/' { assert j[2] == n[0]; }
    } else {
      assert j == "/" + n;
      assert j[1] == n[0];
    }
  }

  lemma FoldSplitJoin(p: string, n: string)
    requires IsAbs(p) && IsEntryName(n)
    ensures Fold(Split(Join(p, n)), true) == Fold(Split(p), true) + [n]
  {
    if EndsWithSep(p) {
      assert Join(p, n) == p + n;
      SplitAppend(p, n);
      SplitAppend(p, "");
      assert p + "" == p;
      FoldSnoc(Split(p[..|p| - 1]), n, true);
      FoldSnoc(Split(p[..|p| - 1]), "", true);
    } else {
      var x := p + "/";
      assert Join(p, n) == x + n;
      SplitAppend(x, n);
      assert x[..|x| - 1] == p;
      FoldSnoc(Split(p), n, true);
    }
  }

  /** `normpath` commutes with appending a plain name to an absolute path. */
  lemma NormPathJoin(p: string, n: string)
    requires IsAbs(p) && IsEntryName(n)
    ensures NormPath(Join(p, n)) == Join(NormPath(p), n)
  {
    assert n[0] in n;
    var j := Join(p, n);
    var f := Fold(Split(p), true);
    NormAbsShape(p);
    assert IsAbs(j);
    NormAbsShape(j);
    RootOfJoin(p, n);
    FoldSplitJoin(p, n);
    JoinRootComps(RootOf(p), f, n);
  }

  lemma JoinRootComps(r: string, f: seq<string>, n: string)
    requires r == "/" || r == "//"
    requires Clean(f) && IsEntryName(n)
    ensures Join(r + JoinComps(f), n) == r + JoinComps(f + [n])
  {
    assert !IsAbs(n) by { assert n[0] in n; }
    if f == [] {
      assert r + JoinComps(f) == r;
      assert JoinComps(f + [n]) == n by { assert f + [n] == [n]; }
      assert EndsWithSep(r);
    } else {
      JoinCompsEnds(f);
      var c := JoinComps(f);
      JoinAfterPlain(r, c, n);
      JoinCompsSnoc(f, n);
    }
  }

  /** After a path that does not end in a separator, `join` puts one in. */
  lemma JoinAfterPlain(r: string, c: string, n: string)
    requires c != "" && !EndsWithSep(c) && !IsAbs(n)
    ensures Join(r + c, n) == r + c + "/" + n
  {
    assert (r + c)[|r + c| - 1] == c[|c| - 1];
  }

  lemma {:induction false} FoldSplitSeps(r: string)
    requires r == "" || r == "/" || r == "//"
    ensures Fold(Split(r), true) == []
    decreases |r|
  {
    if r == "" {
      assert Split(r) == [""];
    } else {
      var x := r[..|r| - 1];
      SplitAppend(r, "");
      assert r + "" == r;
      FoldSplitSeps(x);
      FoldSnoc(Split(x), "", true);
    }
  }

  /** Splitting and refolding a normal absolute path gives its components back. */
  lemma {:induction false} FoldSplitNormal(r: string, f: seq<string>)
    requires r == "/" || r == "//"
    requires Clean(f)
    ensures Fold(Split(r + JoinComps(f)), true) == f
    decreases |f|
  {
    if f == [] {
      assert r + JoinComps(f) == r;
      FoldSplitSeps(r);
    } else if |f| == 1 {
      FoldSplitSingle(r, f[0]);
      assert f == [f[0]];
    } else {
      var g := f[..|f| - 1];
      var c := f[|f| - 1];
      assert f == g + [c];
      assert Clean(g) && IsEntryName(c);
      FoldSplitNormal(r, g);
      FoldSplitStep(r, g, c);
    }
  }

  lemma FoldSplitSingle(r: string, c: string)
    requires r == "/" || r == "//"
    requires IsEntryName(c)
    ensures Fold(Split(r + JoinComps([c])), true) == [c]
  {
    assert r + JoinComps([c]) == r + c;
    SplitAppend(r, c);
    var x := r[..|r| - 1];
    FoldSplitSeps(x);
    FoldSnoc(Split(x), c, true);
  }

  lemma FoldSplitStep(r: string, g: seq<string>, c: string)
    requires g != [] && IsEntryName(c)
    requires Fold(Split(r + JoinComps(g)), true) == g
    ensures Fold(Split(r + JoinComps(g + [c])), true) == g + [c]
  {
    JoinCompsSnoc(g, c);
    var y := r + JoinComps(g);
    var x := y + "/";
    assert r + JoinComps(g + [c]) == x + c;
    SplitAppend(x, c);
    assert x[..|x| - 1] == y;
    FoldSnoc(Split(y), c, true);
  }

  /** Normalising a normalised absolute path changes nothing. */
  lemma NormPathIdempotent(p: string)
    requires IsAbs(p)
    ensures NormPath(NormPath(p)) == NormPath(p)
  {
    NormAbsShape(p);
    var f := Fold(Split(p), true);
    var r := RootOf(p);
    var q := NormPath(p);
    assert q == r + JoinComps(f);
    FoldSplitNormal(r, f);
    assert IsAbs(q);
    assert RootOf(q) == r by {
      if f != [] {
        JoinCompsEnds(f);
        assert q[|r|] == JoinComps(f)[0];
      } else {
        assert q == r;
      }
    }
  }

  lemma BasenameRootComps(r: string, f: seq<string>)
    requires r == "/" || r == "//"
    requires Clean(f) && f != []
    ensures Basename(r + JoinComps(f)) == f[|f| - 1]
  {
    var c := f[|f| - 1];
    assert c in f;
    var x := if |f| == 1 then r else r + JoinComps(f[..|f| - 1]) + "/";
    JoinCompsLast(r, f);
    assert r + JoinComps(f) == x + c;
    assert EndsWithSep(x);
    BasenameAfterSep(x, c);
  }

  lemma JoinCompsLast(r: string, f: seq<string>)
    requires f != []
    ensures r + JoinComps(f) == (if |f| == 1 then r else r + JoinComps(f[..|f| - 1]) + "/") + f[|f| - 1]
  {
  }

  lemma BasenameAfterSep(x: string, c: string)
    requires EndsWithSep(x) && '/' !in c
    ensures Basename(x + c) == c
  {
    LastSepAppend(x, c);
    assert LastSep(x) == |x| - 1;
    assert (x + c)[|x|..] == c;
  }

  /** The last part of a normalised absolute path is empty (the root) or a plain name. */
  lemma BasenameOfNormal(p: string)
    requires IsAbs(p)
    ensures Basename(NormPath(p)) == "" || IsEntryName(Basename(NormPath(p)))
  {
    NormAbsShape(p);
    var f := Fold(Split(p), true);
    var r := RootOf(p);
    if f == [] {
      assert NormPath(p) == r;
      assert LastSep(r) == |r| - 1;
    } else {
      BasenameRootComps(r, f);
      assert f[|f| - 1] in f;
    }
  }

  // ---------------------------------------------------------------- abspath

  lemma JoinPrefixAppend(x: string, b: string)
    requires b != ""
    ensures JoinPrefix(x + b) == x + JoinPrefix(b)
  {
    assert (x + b)[|x + b| - 1] == b[|b| - 1];
  }

  /** `join(a, join(b, c)) == join(join(a, b), c)` when neither `b` nor `c` is absolute. */
  lemma JoinAssoc(a: string, b: string, c: string)
    requires a != "" && !IsAbs(b) && !IsAbs(c)
    ensures Join(a, Join(b, c)) == Join(Join(a, b), c)
  {
    if b == "" {
      JoinAssocEmpty(a, c);
    } else {
      JoinAssocName(a, b, c);
    }
  }

  lemma JoinAssocEmpty(a: string, c: string)
    requires a != "" && !IsAbs(c)
    ensures Join(a, Join("", c)) == Join(Join(a, ""), c)
  {
    var pa := JoinPrefix(a);
    assert Join("", c) == c;
    assert Join(a, "") == pa + "";
    assert pa + "" == pa;
    assert EndsWithSep(pa);
    assert JoinPrefix(pa) == pa;
  }

  lemma JoinAssocName(a: string, b: string, c: string)
    requires b != "" && !IsAbs(b) && !IsAbs(c)
    ensures Join(a, Join(b, c)) == Join(Join(a, b), c)
  {
    var pa := JoinPrefix(a);
    var pb := JoinPrefix(b);
    assert !IsAbs(pb + c) by {
      assert (pb + c)[0] == pb[0] == b[0];
    }
    calc {
      Join(a, Join(b, c));
      Join(a, pb + c);
      pa + (pb + c);
      { assert pa + (pb + c) == (pa + pb) + c; }
      (pa + pb) + c;
      { JoinPrefixAppend(pa, b); }
      JoinPrefix(pa + b) + c;
      Join(pa + b, c);
      Join(Join(a, b), c);
    }
  }

  /** Every `abspath` result is absolute and normal, whatever the argument. */
  lemma AbsPathIsNormalAbs(cwd: string, p: string)
    requires IsAbs(cwd)
    ensures IsNormalAbs(AbsPath(cwd, p))
  {
    var x := if IsAbs(p) then p else Join(cwd, p);
    assert IsAbs(x) by {
      if !IsAbs(p) { assert Join(cwd, p)[..|cwd|] == cwd; assert Join(cwd, p)[0] == cwd[0]; }
    }
    NormAbsShape(x);
  }

  lemma AbsPathIdempotent(cwd: string, p: string)
    requires IsAbs(cwd)
    ensures AbsPath(cwd, AbsPath(cwd, p)) == AbsPath(cwd, p)
  {
    var x := if IsAbs(p) then p else Join(cwd, p);
    AbsPathIsNormalAbs(cwd, p);
    assert IsAbs(x) by {
      if !IsAbs(p) { assert Join(cwd, p)[..|cwd|] == cwd; assert Join(cwd, p)[0] == cwd[0]; }
    }
    NormPathIdempotent(x);
  }

  /** Resolving `join(d, n)` is resolving `d` and putting `n` after it. */
  lemma AbsPathJoin(cwd: string, d: string, n: string)
    requires IsAbs(cwd) && IsEntryName(n)
    ensures AbsPath(cwd, Join(d, n)) == Join(AbsPath(cwd, d), n)
  {
    assert n[0] in n;
    if IsAbs(d) {
      assert IsAbs(Join(d, n));
      NormPathJoin(d, n);
    } else {
      assert !IsAbs(Join(d, n)) by {
        if d == "" { assert Join(d, n) == n; } else { assert Join(d, n)[0] == d[0]; }
      }
      JoinAssoc(cwd, d, n);
      assert IsAbs(Join(cwd, d)) by { assert Join(cwd, d)[0] == cwd[0]; }
      NormPathJoin(Join(cwd, d), n);
    }
  }

  /**
   * The file `join(dir, n)` for a plain name `n` resolves to a path whose directory part is the
   * resolved `dir` and whose last part is `n`: what the drivers rely on when they write an output.
   */
  lemma ResolvedEntry(cwd: string, dir: string, n: string)
    requires IsAbs(cwd) && IsEntryName(n)
    ensures Dirname(AbsPath(cwd, Join(dir, n))) == AbsPath(cwd, dir)
    ensures Basename(AbsPath(cwd, Join(dir, n))) == n
  {
    AbsPathJoin(cwd, dir, n);
    AbsPathIsNormalAbs(cwd, dir);
    DirnameOfJoin(AbsPath(cwd, dir), n);
    BasenameOfJoin(AbsPath(cwd, dir), n);
  }
}
