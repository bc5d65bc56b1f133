// The node_modules tree of an app bundle, which nested package copies duplicate
// the top-level one, and what a tree without those duplicates is.
module BundleTree {
  import opened Basics

  // A name in a path: node_modules itself, one that starts with @, or any other.
  datatype Name = NodeModules | Scope(id: string) | Plain(id: string)

  // Relative to the bundle's top node_modules directory.
  type Path = seq<Name>

  // version is what the directory's package.json gives, or empty.
  datatype Entry = Entry(isDir: bool, version: string)

  // What is present, and what each path is; contents never change.
  datatype Tree = Tree(live: set<Path>, info: Path -> Entry)

  predicate HasDir(t: Tree, p: Path) {
    p in t.live && t.info(p).isDir
  }

  function Version(t: Tree, p: Path): string {
    if HasDir(t, p) then t.info(p).version else ""
  }

  // Everything present but the root has its directory present.
  ghost predicate Rooted(t: Tree) {
    forall p :: p in t.live && p != [] ==> HasDir(t, Front(p))
  }

  lemma {:induction false} PrefixLive(t: Tree, p: Path, k: nat)
    requires Rooted(t) && p in t.live && k <= |p|
    ensures p[..k] in t.live && (k < |p| ==> HasDir(t, p[..k]))
    decreases |p| - k
  {
    if k < |p| {
      PrefixLive(t, p, k + 1);
      assert Front(p[..k + 1]) == p[..k];
    } else {
      assert p[..k] == p;
    }
  }

  // ---- Where the pass looks ----

  // A package directory of the top level, or a directory inside one that is not
  // under a nested node_modules.
  predicate Walked(d: Path) {
    && d != []
    && var top := if d[0].Scope? then 2 else 1;
    && top <= |d|
    && forall i :: top <= i < |d| ==> d[i] != NodeModules
  }

  predicate IsNested(n: Path) {
    n != [] && Last(n) == NodeModules && Walked(Front(n))
  }

  predicate IsPackage(q: Path) {
    q != [] && !Last(q).Scope? && IsNested(Front(q))
  }

  predicate IsScopeDir(s: Path) {
    s != [] && Last(s).Scope? && IsNested(Front(s))
  }

  predicate IsScopedPackage(q: Path) {
    q != [] && IsScopeDir(Front(q))
  }

  // The name a nested package is required by, which is also its top-level path.
  function NameOf(q: Path): Path {
    if IsPackage(q) then [Last(q)]
    else if IsScopedPackage(q) then [Last(Front(q)), Last(q)]
    else []
  }

  // A nested copy of a top-level package, at the same version.
  predicate Redundant(t: Tree, q: Path) {
    && (IsPackage(q) || IsScopedPackage(q))
    && HasDir(t, q)
    && Version(t, q) != ""
    && Version(t, NameOf(q)) == Version(t, q)
  }

  ghost predicate EmptiedScope(t: Tree, s: Path) {
    && IsScopeDir(s) && HasDir(t, s)
    && forall c :: s + [c] in t.live ==> Redundant(t, s + [c])
  }

  ghost predicate EmptiedNested(t: Tree, n: Path) {
    && IsNested(n) && HasDir(t, n)
    && forall c :: n + [c] in t.live ==> Redundant(t, n + [c]) || EmptiedScope(t, n + [c])
  }

  ghost predicate Doomed(t: Tree, q: Path) {
    Redundant(t, q) || EmptiedScope(t, q) || EmptiedNested(t, q)
  }

  ghost predicate Gone(t: Tree, p: Path) {
    exists k :: 0 <= k <= |p| && Doomed(t, p[..k])
  }

  // What is left when every redundant copy, and every scope and nested
  // node_modules directory with nothing else in it, is removed.
  ghost function Pruned(t: Tree): (r: Tree)
    ensures r.info == t.info && forall p :: p in r.live <==> p in t.live && !Gone(t, p)
  {
    Tree((set p | p in t.live && !Gone(t, p)), t.info)
  }

  // ---- Positions ----

  // A path has at most one prefix that is a nested node_modules directory.
  lemma OneNested(p: Path, j: nat, k: nat)
    requires j <= |p| && k <= |p| && IsNested(p[..j]) && IsNested(p[..k])
    ensures j == k
  {
    NestedFirst(p, j);
    NestedFirst(p, k);
  }

  lemma NestedFirst(p: Path, j: nat)
    requires j <= |p| && IsNested(p[..j])
    ensures j > 0 && p[j - 1] == NodeModules
    ensures var top := if p[0].Scope? then 2 else 1;
      top <= j - 1 && forall i :: top <= i < j - 1 ==> p[i] != NodeModules
  {
    assert Front(p[..j]) == p[..j - 1] && p[j - 1] == Last(p[..j]);
    assert forall i :: 0 <= i < j - 1 ==> p[..j - 1][i] == p[i];
  }

  lemma NotBoth(p: Path, j: nat, k: nat)
    requires j < k <= |p|
    ensures !(IsNested(p[..j]) && IsNested(p[..k]))
  {
    if IsNested(p[..j]) && IsNested(p[..k]) {
      OneNested(p, j, k);
    }
  }

  // A path is at most one of the things the pass looks for.
  lemma OneRole(q: Path)
    ensures IsNested(q) ==> !IsPackage(q) && !IsScopeDir(q) && !IsScopedPackage(q)
    ensures IsPackage(q) || IsScopeDir(q) ==> !IsScopedPackage(q)
  {
    var n := |q|;
    assert q[..n] == q;
    if n >= 1 {
      NotBoth(q, n - 1, n);
    }
    if n >= 2 {
      assert Front(Front(q)) == q[..n - 2];
      NotBoth(q, n - 2, n);
      NotBoth(q, n - 2, n - 1);
    }
  }

  // Where the doomed prefixes of a path can be, given its nested node_modules.
  lemma DoomedSpot(t: Tree, p: Path, j: nat, k: nat)
    requires j <= |p| && k <= |p| && IsNested(p[..j]) && Doomed(t, p[..k])
    ensures j <= k <= j + 2
    ensures k == j ==> EmptiedNested(t, p[..k])
    ensures k == j + 1 ==> if p[j].Scope? then EmptiedScope(t, p[..k]) else Redundant(t, p[..k])
    ensures k == j + 2 ==> p[j].Scope? && Redundant(t, p[..k])
  {
    hide Walked, HasDir, Version;
    var q := p[..k];
    OneRole(q);
    assert q != [];
    assert Front(q) == p[..k - 1] && Last(q) == p[k - 1];
    if IsNested(q) {
      OneNested(p, j, k);
    } else if IsPackage(q) || IsScopeDir(q) {
      OneNested(p, j, k - 1);
    } else {
      assert Front(Front(q)) == p[..k - 2] && Last(Front(q)) == p[k - 2];
      OneNested(p, j, k - 2);
    }
  }

  lemma DoomedIsBelow(t: Tree, q: Path) returns (j: nat)
    requires Doomed(t, q)
    ensures j <= |q| && IsNested(q[..j])
  {
    if IsNested(q) {
      assert q[..|q|] == q;
      return |q|;
    }
    if IsNested(Front(q)) {
      return |q| - 1;
    }
    assert Front(Front(q)) == q[..|q| - 2];
    return |q| - 2;
  }

  // ---- What is gone, region by region ----

  lemma GoneIntro(t: Tree, p: Path, q: Path)
    requires Doomed(t, q) && q <= p
    ensures Gone(t, p)
  {
    assert p[..|q|] == q;
  }

  lemma WalkedStays(t: Tree, d: Path)
    requires Walked(d)
    ensures !Gone(t, d)
  {
    forall j: nat | j <= |d| ensures !IsNested(d[..j]) {
      if IsNested(d[..j]) {
        NestedFirst(d, j);
      }
    }
    NoneNested(t, d);
  }

  lemma NoneNested(t: Tree, p: Path)
    requires forall j: nat :: j <= |p| ==> !IsNested(p[..j])
    ensures !Gone(t, p)
  {
    forall k: nat | k <= |p| ensures !Doomed(t, p[..k]) {
      if Doomed(t, p[..k]) {
        NestedInside(t, p, k);
      }
    }
  }

  lemma NestedInside(t: Tree, p: Path, k: nat)
    requires k <= |p| && Doomed(t, p[..k])
    ensures exists j: nat :: j <= |p| && IsNested(p[..j])
  {
    var j := DoomedIsBelow(t, p[..k]);
    assert p[..k][..j] == p[..j];
  }

  // A package directory and all below it stay or go together.
  lemma GoneAtPackage(t: Tree, q: Path, p: Path)
    requires IsPackage(q) && q in t.live && q <= p
    ensures Gone(t, p) <==> Redundant(t, q)
  {
    hide Walked, HasDir, Version, IsNested, NameOf;
    var j := |q| - 1;
    assert p[..j] == Front(q) && p[..j + 1] == q && p[j] == Last(q);
    if Redundant(t, q) {
      GoneIntro(t, p, q);
    }
    if k :| 0 <= k <= |p| && Doomed(t, p[..k]) {
      DoomedSpot(t, p, j, k);
      if k == j {
        assert p[..j] + [p[j]] == q;
      }
    }
  }

  lemma GoneAtScopedPackage(t: Tree, q: Path, p: Path)
    requires IsScopedPackage(q) && q in t.live && Front(q) in t.live && q <= p
    ensures Gone(t, p) <==> Redundant(t, q)
  {
    hide Walked, HasDir, Version, IsNested, NameOf;
    var j := |q| - 2;
    var s := Front(q);
    assert p[..j] == Front(s) && p[..j + 1] == s && p[..j + 2] == q && p[j] == Last(s) && p[j + 1] == Last(q);
    if Redundant(t, q) {
      GoneIntro(t, p, q);
    }
    if k :| 0 <= k <= |p| && Doomed(t, p[..k]) {
      DoomedSpot(t, p, j, k);
      OneRole(s);
      assert s + [p[j + 1]] == q;
      assert p[..j] + [p[j]] == s;
    }
  }

  lemma GoneAtScope(t: Tree, s: Path)
    requires IsScopeDir(s) && s in t.live
    ensures Gone(t, s) <==> EmptiedScope(t, s)
  {
    hide Walked, HasDir, Version, IsNested, NameOf;
    var j := |s| - 1;
    assert s[..j] == Front(s) && s[..j + 1] == s && s[j] == Last(s);
    if EmptiedScope(t, s) {
      GoneIntro(t, s, s);
    }
    if k :| 0 <= k <= |s| && Doomed(t, s[..k]) {
      DoomedSpot(t, s, j, k);
      OneRole(s);
      assert s[..j] + [s[j]] == s;
    }
  }

  lemma GoneAtNested(t: Tree, n: Path)
    requires IsNested(n) && n in t.live
    ensures Gone(t, n) <==> EmptiedNested(t, n)
  {
    hide Walked, HasDir, Version, NameOf;
    assert n[..|n|] == n;
    if EmptiedNested(t, n) {
      GoneIntro(t, n, n);
    }
    if k :| 0 <= k <= |n| && Doomed(t, n[..k]) {
      DoomedSpot(t, n, |n|, k);
    }
  }

  // The top-level copies are out of the pass's reach.
  lemma NamesStay(t: Tree, q: Path)
    requires IsPackage(q) || IsScopedPackage(q)
    ensures !Gone(t, NameOf(q))
  {
    ShortStays(t, NameOf(q));
  }

  lemma ShortStays(t: Tree, name: Path)
    requires |name| <= 1 || (|name| == 2 && name[0].Scope?)
    ensures !Gone(t, name)
  {
    forall j: nat | j <= |name| ensures !IsNested(name[..j]) {
      if IsNested(name[..j]) {
        NestedFirst(name, j);
      }
    }
    NoneNested(t, name);
  }

  lemma GoneDown(t: Tree, q: Path, p: Path)
    requires q <= p && Gone(t, q)
    ensures Gone(t, p)
  {
    var k :| 0 <= k <= |q| && Doomed(t, q[..k]);
    assert p[..k] == q[..k];
  }

  // What the pass counts: redundant copies and emptied node_modules.
  ghost predicate Counts(t: Tree, q: Path) {
    Redundant(t, q) || EmptiedNested(t, q)
  }

  lemma TopStays(t: Tree, p: Path)
    requires |p| <= 1
    ensures !Gone(t, p) && !Counts(t, p)
  {
    ShortStays(t, p);
    assert p[..|p|] == p;
  }
}
