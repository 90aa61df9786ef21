/** Slash-separated paths and the three `path/filepath` helpers the drivers use.
    `Join` is the concatenation `filepath.Join` produces for a clean directory and a
    single entry name (the only way either driver calls it), with the root directory
    held as the empty path (see `AsDir`); `Base` is `filepath.Base` written out;
    `Clean` is left to the environment (see `FileSystem.Env`). */
module Paths {

  type Path = string

  const Sep: char := '/'

  /** The staging directory lives here, so it may not itself be copied up. */
  const TmpDir: Path := "/tmp"

  /** A single directory-entry name, as `os.ReadDir` reports one. */
  predicate IsName(n: string)
  {
    n != [] && Sep !in n && n != "." && n != ".."
  }

  /** The root directory, as `filepath.Clean` writes it. */
  const Root: Path := [Sep]

  function Join(dir: Path, name: string): Path
  {
    dir + [Sep] + name
  }

  /** A cleaned directory path in the form `Join` and `Below` take: the root is the
      empty path, every other path is itself. */
  function AsDir(p: Path): Path
  {
    if p == Root then [] else p
  }

  /** The entries of the root directory are `/name`, as `filepath.Join("/", name)`
      writes them. */
  lemma RootJoin(n: string)
    requires IsName(n)
    ensures Join(AsDir(Root), n) == Root + n
    ensures Base(Join(AsDir(Root), n)) == n
  {
    BaseOfJoin([], n);
  }

  /** Every absolute path other than `/` lies inside the root directory. */
  lemma BelowRoot(p: Path)
    requires |p| > 1 && p[0] == Sep
    ensures Below(p, AsDir(Root))
  {
    assert Join([], p[1..]) == p;
  }

  /** `p` lies strictly inside `root`. */
  predicate Below(p: Path, root: Path)
  {
    |root| + 1 < |p| && Join(root, p[|root| + 1..]) == p
  }

  /** `p` is `q` or lies inside it: removing `q` removes `p`. */
  predicate Touches(p: Path, q: Path)
  {
    p == q || Below(p, q)
  }

  lemma JoinBelow(root: Path, r: string)
    requires r != []
    ensures Join(root, r)[|root| + 1..] == r
    ensures Below(Join(root, r), root)
  {
    assert Join(root, r) == (root + [Sep]) + r;
  }

  lemma JoinInjective(d: Path, n: string, m: string)
    ensures Join(d, n) == Join(d, m) ==> n == m
  {
    if Join(d, n) == Join(d, m) {
      JoinBelowAny(d, n);
      JoinBelowAny(d, m);
    }
  }

  lemma JoinBelowAny(root: Path, r: string)
    ensures Join(root, r)[|root| + 1..] == r
  {
    assert Join(root, r) == (root + [Sep]) + r;
  }

  /** What `Touches` means character by character: `q` is a prefix of `p`, followed
      by nothing or by a separator. */
  lemma TouchesPrefix(p: Path, q: Path)
    ensures Touches(p, q) ==> |q| <= |p| && p[..|q|] == q && (|p| == |q| || p[|q|] == Sep)
  {
    if Below(p, q) {
      assert p == Join(q, p[|q| + 1..]);
    }
  }

  /** Two different entries of one directory are disjoint subtrees. */
  lemma SiblingsApart(d: Path, n: string, m: string)
    requires IsName(n) && IsName(m) && n != m
    ensures !Touches(Join(d, n), Join(d, m))
  {
    var p, q, o := Join(d, n), Join(d, m), |d| + 1;
    TouchesPrefix(p, q);
    if |n| == |m| {
      var i :| 0 <= i < |n| && n[i] != m[i];
      assert p[o + i] == n[i] && q[o + i] == m[i];
    } else if |m| < |n| {
      assert p[|q|] == n[|m|];
    }
  }

  /** Whatever lies inside entry `s` of `d` is untouched by removing a different entry `n`. */
  lemma NephewApart(d: Path, s: string, n: string, r: string)
    requires IsName(s) && IsName(n) && s != n
    ensures !Touches(Join(Join(d, s), r), Join(d, n))
  {
    var p, q, o := Join(Join(d, s), r), Join(d, n), |d| + 1;
    TouchesPrefix(p, q);
    if |n| == |s| {
      var i :| 0 <= i < |n| && n[i] != s[i];
      assert p[o + i] == s[i] && q[o + i] == n[i];
    } else if |n| < |s| {
      assert p[|q|] == s[|n|];
    } else {
      assert p[o + |s|] == Sep && q[o + |s|] == n[|s|];
    }
  }

  /** Touching is transitive: inside something inside `d` is inside `d`. */
  lemma TouchesTransitive(p: Path, q: Path, d: Path)
    ensures Touches(p, q) && Touches(q, d) ==> Touches(p, d)
  {
    if Below(p, q) && Below(q, d) {
      var r1, r2 := p[|q| + 1..], q[|d| + 1..];
      assert p == Join(d, r2 + [Sep] + r1);
      JoinBelow(d, r2 + [Sep] + r1);
    }
  }

  /** A path inside `d/n` is inside `d` but is no entry name of `d`. */
  lemma DeeperThanEntry(d: Path, n: string, p: Path)
    requires n != [] && Below(p, Join(d, n))
    ensures Below(p, d) && !IsName(p[|d| + 1..])
  {
    var q := Join(d, n);
    JoinBelow(d, n);
    TouchesTransitive(p, q, d);
    JoinBelowAny(q, p[|q| + 1..]);
    assert p[|d| + 1..][|n|] == p[|q|] == Sep;
  }

  /** Two paths that `p` both touches are one inside the other. */
  lemma CommonAncestor(p: Path, a: Path, b: Path)
    ensures Touches(p, a) && Touches(p, b) && |a| <= |b| ==> b == a || b == a + [Sep] || Below(b, a)
  {
    TouchesPrefix(p, a);
    TouchesPrefix(p, b);
    if Touches(p, a) && Touches(p, b) && |a| + 1 < |b| {
      assert b[..|a|] == a && b[|a|] == Sep;
      assert b == Join(a, b[|a| + 1..]);
    } else if Touches(p, a) && Touches(p, b) && |a| + 1 == |b| {
      assert b == b[..|a|] + [b[|a|]];
    }
  }

  /** Clean paths (no trailing separator) neither of which lies inside the other:
      the staging directory and a target directory. */
  predicate Apart(a: Path, b: Path)
  {
    && a != [] && a[|a| - 1] != Sep
    && b != [] && b[|b| - 1] != Sep
    && !Touches(a, b) && !Touches(b, a)
  }

  /** Nothing lies inside two apart paths at once. */
  lemma ApartDisjoint(a: Path, b: Path, p: Path)
    requires Apart(a, b)
    ensures !(Touches(p, a) && Touches(p, b))
  {
    CommonAncestor(p, a, b);
    CommonAncestor(p, b, a);
  }

  /** Entries of two apart directories neither contain nor equal each other. */
  lemma ApartEntries(a: Path, b: Path, n: string, m: string)
    requires Apart(a, b) && IsName(n) && IsName(m)
    ensures !Touches(Join(a, n), Join(b, m)) && !Touches(Join(b, m), Join(a, n))
  {
    JoinBelow(a, n);
    JoinBelow(b, m);
    TouchesTransitive(Join(a, n), Join(b, m), b);
    ApartDisjoint(a, b, Join(a, n));
    TouchesTransitive(Join(b, m), Join(a, n), a);
    ApartDisjoint(a, b, Join(b, m));
  }

  /** An entry of `d` is inside `d`, and apart from whatever `d` is apart from. */
  lemma EntryApart(a: Path, d: Path, n: string)
    requires Apart(a, d) && IsName(n)
    ensures Below(Join(d, n), d)
    ensures Apart(a, Join(d, n))
  {
    var e := Join(d, n);
    JoinBelow(d, n);
    assert e[|e| - 1] == n[|n| - 1];
    TouchesTransitive(a, e, d);
    ApartDisjoint(a, d, e);
  }

  /** `filepath.Base` on a Unix path: the last element, trailing slashes ignored;
      "." for the empty path and "/" for a path of slashes only. */
  function Base(p: Path): string
  {
    if p == [] then "."
    else
      var q := TrimTrailingSeps(p);
      if q == [] then [Sep] else AfterLastSep(q)
  }

  function TrimTrailingSeps(p: Path): Path
  {
    if p != [] && p[|p| - 1] == Sep then TrimTrailingSeps(p[..|p| - 1]) else p
  }

  function AfterLastSep(p: Path): string
  {
    if p == [] || p[|p| - 1] == Sep then [] else AfterLastSep(p[..|p| - 1]) + [p[|p| - 1]]
  }

  lemma {:induction false} AfterLastSepOfJoin(d: Path, n: string)
    requires Sep !in n
    ensures AfterLastSep(Join(d, n)) == n
    decreases |n|
  {
    var p := Join(d, n);
    if n == [] {
      assert p[|p| - 1] == Sep;
    } else {
      var n' := n[..|n| - 1];
      assert p[..|p| - 1] == Join(d, n');
      AfterLastSepOfJoin(d, n');
      assert n == n' + [n[|n| - 1]];
    }
  }

  /** The shadow directory's base name is the name it was created under. */
  lemma {:induction false} BaseOfJoin(d: Path, n: string)
    requires IsName(n)
    ensures Base(Join(d, n)) == n
  {
    var p := Join(d, n);
    assert p[|p| - 1] == n[|n| - 1];
    assert TrimTrailingSeps(p) == p;
    AfterLastSepOfJoin(d, n);
  }
}
