// The pass that removes duplicate nested packages from an app bundle, working
// on the directories in place.
module PruneBundle {
  import opened Basics
  import opened BundleTree

  // ---- Regions of the tree during the pass ----

  // live is, from r down, still what it was; or already what it is to be.
  ghost predicate Untouched(t: Tree, live: set<Path>, r: Path) {
    forall p :: r <= p ==> (p in live <==> p in t.live)
  }

  ghost predicate Settled(t: Tree, live: set<Path>, r: Path) {
    forall p :: r <= p ==> (p in live <==> p in t.live && !Gone(t, p))
  }

  ghost predicate SameOutside(before: set<Path>, after: set<Path>, r: Path) {
    forall p :: !(r <= p) ==> (p in after <==> p in before)
  }

  // The names to visit still have their subtrees, the others are done.
  ghost predicate Underway(t: Tree, live: set<Path>, dir: Path, todo: set<Name>) {
    && (forall c :: c in todo ==> Untouched(t, live, dir + [c]))
    && (forall c :: c !in todo ==> Settled(t, live, dir + [c]))
  }

  // What rmSync leaves, recursively.
  function Cut(live: set<Path>, q: Path): (r: set<Path>)
    ensures r <= live && q !in r
  {
    set p | p in live && !(q <= p)
  }

  function Children(live: set<Path>, dir: Path): set<Name> {
    set p | p in live && |p| == |dir| + 1 && dir <= p :: p[|dir|]
  }

  lemma ChildrenAre(t: Tree, dir: Path, c: Name)
    ensures c in Children(t.live, dir) <==> dir + [c] in t.live
  {
    if dir + [c] in t.live {
      assert (dir + [c])[|dir|] == c;
    }
    if p :| p in t.live && |p| == |dir| + 1 && dir <= p && p[|dir|] == c {
      assert p == dir + [c];
    }
  }

  lemma RegionStart(t: Tree, live: set<Path>, dir: Path)
    requires Rooted(t) && Untouched(t, live, dir)
    ensures Underway(t, live, dir, Children(t.live, dir))
  {
    hide Rooted, Gone;
    forall c | c !in Children(t.live, dir) ensures Settled(t, live, dir + [c]) {
      ChildrenAre(t, dir, c);
      forall p | dir + [c] <= p ensures p !in live && p !in t.live {
        PrefixAbsent(t, dir + [c], p);
      }
    }
  }

  lemma PrefixAbsent(t: Tree, q: Path, p: Path)
    requires Rooted(t) && q <= p
    ensures p in t.live ==> q in t.live && (p != q ==> HasDir(t, q))
  {
    if p in t.live {
      PrefixLive(t, p, |q|);
      assert p[..|q|] == q;
    }
  }

  lemma RegionStep(t: Tree, before: set<Path>, after: set<Path>, dir: Path, todo: set<Name>, c: Name)
    requires Underway(t, before, dir, todo) && c in todo
    requires Settled(t, after, dir + [c]) && SameOutside(before, after, dir + [c])
    ensures Underway(t, after, dir, todo - {c})
  {
    hide Gone;
    forall d: Name | d != c ensures forall p :: dir + [d] <= p ==> (p in after <==> p in before) {
      forall p | dir + [d] <= p ensures p in after <==> p in before {
        assert p[|dir|] == d;
      }
    }
    forall d | d in todo - {c} ensures Untouched(t, after, dir + [d]) {
      assert Untouched(t, before, dir + [d]);
    }
    forall d | d !in todo - {c} ensures Settled(t, after, dir + [d]) {
      if d != c {
        assert Settled(t, before, dir + [d]);
      }
    }
  }

  lemma RegionEnd(t: Tree, live: set<Path>, dir: Path)
    requires Underway(t, live, dir, {}) && (dir in live <==> dir in t.live && !Gone(t, dir))
    ensures Settled(t, live, dir)
  {
    hide Gone;
    forall p | dir <= p ensures p in live <==> p in t.live && !Gone(t, p) {
      if |p| > |dir| {
        assert Settled(t, live, dir + [p[|dir|]]);
      } else {
        assert p == dir;
      }
    }
  }

  lemma OutsideWidens(a: set<Path>, b: set<Path>, c: set<Path>, dir: Path, n: Name)
    requires SameOutside(a, b, dir) && SameOutside(b, c, dir + [n])
    ensures SameOutside(a, c, dir)
  {
    forall p | !(dir <= p) ensures p in c <==> p in a {
      assert !(dir + [n] <= p);
    }
  }

  // Nothing has been removed that is not to go.
  ghost predicate Between(t: Tree, live: set<Path>) {
    live <= t.live && forall p :: p in t.live && !Gone(t, p) ==> p in live
  }

  lemma BetweenStep(t: Tree, before: set<Path>, after: set<Path>, r: Path)
    requires Between(t, before) && Settled(t, after, r) && SameOutside(before, after, r)
    ensures Between(t, after)
  {
    hide Gone;
    forall p | p in after ensures p in t.live {
      if !(r <= p) {
        assert p in before;
      }
    }
  }

  // The counter is the number of counted directories, which are all removed.
  ghost predicate Tallied(live: set<Path>, counted: set<Path>, n: nat) {
    n == |counted| && counted !! live
  }

  lemma TallyOne(live: set<Path>, after: set<Path>, counted: set<Path>, n: nat, q: Path)
    requires Tallied(live, counted, n) && after <= live && q in live && q !in after
    ensures Tallied(after, counted + {q}, n + 1) && Tallied(after, counted, n)
  {
  }

  lemma JoinCounts(a: set<Path>, b: set<Path>, c: set<Path>)
    ensures a + b + c == a + (b + c) && a + {} == a
  {
  }

  ghost function CountedUnder(t: Tree, r: Path): set<Path> {
    set q | q in t.live && r <= q && Counts(t, q)
  }

  ghost function CountedDone(t: Tree, dir: Path, todo: set<Name>): set<Path> {
    set q | q in t.live && |q| > |dir| && dir <= q && q[|dir|] !in todo && Counts(t, q)
  }

  lemma CountStart(t: Tree, dir: Path)
    requires Rooted(t)
    ensures CountedDone(t, dir, Children(t.live, dir)) == {}
  {
    hide Counts, Rooted;
    forall q | q in t.live && |q| > |dir| && dir <= q ensures q[|dir|] in Children(t.live, dir) {
      PrefixLive(t, q, |dir| + 1);
      assert q[..|dir| + 1] == dir + [q[|dir|]];
      ChildrenAre(t, dir, q[|dir|]);
    }
  }

  lemma CountStep(t: Tree, dir: Path, todo: set<Name>, c: Name)
    requires c in todo
    ensures CountedDone(t, dir, todo - {c}) == CountedDone(t, dir, todo) + CountedUnder(t, dir + [c])
  {
    hide Counts;
    forall q | dir + [c] <= q ensures q[|dir|] == c && dir <= q {
    }
    forall q: Path | |q| > |dir| && dir <= q && q[|dir|] == c ensures dir + [c] <= q {
      assert q[..|dir| + 1] == dir + [c];
    }
  }

  lemma CountEnd(t: Tree, dir: Path)
    ensures CountedUnder(t, dir) == CountedDone(t, dir, {}) + if dir in t.live && Counts(t, dir) then {dir} else {}
  {
    hide Counts;
    forall q: Path | dir <= q && |q| <= |dir| ensures q == dir {
    }
  }

  // ---- Single places ----

  // Below a nested package nothing more is counted.
  lemma CountPackage(t: Tree, q: Path)
    requires IsPackage(q) || IsScopedPackage(q)
    ensures CountedUnder(t, q) == if Redundant(t, q) then {q} else {}
  {
    hide Walked, HasDir, Version, NameOf;
    OneRole(q);
    forall p | p in CountedUnder(t, q) ensures p == q {
      var j := if IsPackage(q) then |q| - 1 else |q| - 2;
      assert p[..j] == q[..j] == if IsPackage(q) then Front(q) else Front(Front(q));
      assert p[..|p|] == p;
      DoomedSpot(t, p, j, |p|);
      assert p[j] == q[j];
      assert IsPackage(q) ==> q[j] == Last(q);
    }
    assert Redundant(t, q) ==> q in t.live by {
      if Redundant(t, q) {
        HasDirLive(t, q);
      }
    }
  }

  lemma HasDirLive(t: Tree, q: Path)
    requires HasDir(t, q)
    ensures q in t.live
  {
  }

  // A file stays where it is.
  lemma FileStays(t: Tree, live: set<Path>, q: Path)
    requires Rooted(t) && Untouched(t, live, q) && !HasDir(t, q) && q != []
    requires IsPackage(q) || IsScopeDir(q) || IsScopedPackage(q) || IsNested(q) || Walked(q) || |q| == 1
    ensures Settled(t, live, q) && CountedUnder(t, q) == {}
  {
    forall p | q <= p && p in t.live ensures p == q && !Gone(t, p) && !Counts(t, p) {
      PrefixAbsent(t, q, p);
      assert p[..|p|] == p;
      FileNotGone(t, q);
    }
  }

  lemma FileNotGone(t: Tree, q: Path)
    requires Rooted(t) && q in t.live && !HasDir(t, q) && q != []
    requires IsPackage(q) || IsScopeDir(q) || IsScopedPackage(q) || IsNested(q) || Walked(q) || |q| == 1
    ensures !Gone(t, q)
  {
    if IsPackage(q) {
      GoneAtPackage(t, q, q);
    } else if IsScopeDir(q) {
      GoneAtScope(t, q);
    } else if IsScopedPackage(q) {
      PrefixLive(t, q, |q| - 1);
      GoneAtScopedPackage(t, q, q);
    } else if IsNested(q) {
      GoneAtNested(t, q);
    } else if Walked(q) {
      WalkedStays(t, q);
    } else {
      TopStays(t, q);
    }
  }

  // ---- The pass on the disk ----

  class Bundle {
    const info: Path -> Entry
    var live: set<Path>
    var prunedDirs: nat
    // The tree the pass began with, and the directories it has counted.
    ghost const start: Tree
    ghost var counted: set<Path>

    constructor (t: Tree)
      requires Rooted(t)
      ensures live == t.live && start == t && counted == {} && Valid()
    {
      info, live, prunedDirs, counted, start := t.info, t.live, 0, {}, t;
    }

    ghost predicate Valid()
      reads this
    {
      start.info == info && Rooted(start) && Between(start, live) && Tallied(live, counted, prunedDirs)
    }

    method Remove(q: Path)
      modifies `live
      ensures live == Cut(old(live), q)
    {
      live := Cut(live, q);
    }

    // What getPackageVersion finds now.
    function VersionNow(p: Path): string
      reads this
    {
      Version(Tree(live, info), p)
    }

    method CheckPackage(q: Path)
      requires Valid() && (IsPackage(q) || IsScopedPackage(q)) && HasDir(start, q) && Front(q) in start.live
      requires Untouched(start, live, q)
      modifies this
      ensures Valid() && Settled(start, live, q) && SameOutside(old(live), live, q)
      ensures counted == old(counted) + CountedUnder(start, q)
    {
      VersionsKept(start, Tree(live, info), q);
      CountPackage(start, q);
      PackageSettles(start, live, q);
      hide Redundant, IsPackage, IsScopedPackage, Gone, NameOf, Version, Rooted, Between, Settled, SameOutside,
        Untouched, CountedUnder, Cut, Tallied;
      var nestedVer, topVer := VersionNow(q), VersionNow(NameOf(q));
      if nestedVer != "" && topVer != "" && nestedVer == topVer {
        TallyOne(live, Cut(live, q), counted, prunedDirs, q);
        Remove(q);
        prunedDirs := prunedDirs + 1;
        counted := counted + {q};
      }
      BetweenStep(start, old(live), live, q);
    }

    method ScopeEntry(s: Path, c: Name, ghost rest: set<Name>)
      requires Valid() && IsScopeDir(s) && HasDir(start, s)
      requires Underway(start, live, s, rest) && c in rest && rest <= Children(start.live, s)
      modifies this
      ensures Valid() && Settled(start, live, s + [c]) && SameOutside(old(live), live, s + [c])
      ensures counted == old(counted) + CountedUnder(start, s + [c])
    {
      hide IsScopeDir, Gone, Rooted, Counts, Untouched, Settled, SameOutside, Underway, CountedUnder, Between, HasDir,
        Children, Tallied;
      ScopeChild(start, live, s, rest, c);
      if info(s + [c]).isDir {
        CheckPackage(s + [c]);
      }
    }

    // Remove a directory that has nothing left in it.
    method LeaveEmptied(dir: Path, counts: bool, ghost first: set<Path>)
      requires Valid() && Underway(start, live, dir, {}) && SameOutside(first, live, dir)
      requires dir in live && (Gone(start, dir) <==> Children(live, dir) == {})
        && (Counts(start, dir) <==> counts && Gone(start, dir))
      requires dir in start.live
      modifies this
      ensures Valid() && Settled(start, live, dir) && SameOutside(first, live, dir)
      ensures counted == old(counted) + if Counts(start, dir) then {dir} else {}
      ensures CountedUnder(start, dir) == CountedDone(start, dir, {}) + if Counts(start, dir) then {dir} else {}
    {
      hide Gone, Rooted, Counts, Settled, SameOutside, Underway, CountedUnder, CountedDone, Between, Children,
        Cut, Tallied;
      EmptiedDone(start, first, live, dir);
      if Children(live, dir) == {} {
        TallyOne(live, Cut(live, dir), counted, prunedDirs, dir);
        Remove(dir);
        if counts {
          prunedDirs := prunedDirs + 1;
          counted := counted + {dir};
        }
      }
    }

    method StripScope(s: Path)
      requires Valid() && IsScopeDir(s) && HasDir(start, s) && Untouched(start, live, s)
      modifies this
      ensures Valid() && Settled(start, live, s) && SameOutside(old(live), live, s)
      ensures counted == old(counted) + CountedUnder(start, s)
    {
      hide IsScopeDir, Gone, Rooted, Counts, Untouched, Settled, SameOutside, Underway, CountedUnder, CountedDone,
        Between, HasDir, Children, Tallied;
      LoopStart(start, live, s);
      JoinCounts(counted, {}, {});
      var rest := Children(live, s);
      while rest != {}
        invariant rest <= Children(start.live, s)
        invariant Valid() && s in live && SameOutside(old(live), live, s)
        invariant Underway(start, live, s, rest)
        invariant counted == old(counted) + CountedDone(start, s, rest)
        decreases |rest|
      {
        var c :| c in rest;
        ghost var before := live;
        ScopeEntry(s, c, rest);
        ChildDone(start, old(live), before, live, s, rest, c);
        JoinCounts(old(counted), CountedDone(start, s, rest), CountedUnder(start, s + [c]));
        rest := rest - {c};
      }
      ScopeEmptied(start, live, s);
      LeaveEmptied(s, false, old(live));
      JoinCounts(old(counted), CountedDone(start, s, {}), if Counts(start, s) then {s} else {});
    }

    // One entry of a nested node_modules: a package, or a scope of packages.
    method NestedEntry(n: Path, c: Name, ghost rest: set<Name>)
      requires Valid() && IsNested(n) && HasDir(start, n)
      requires Underway(start, live, n, rest) && c in rest && rest <= Children(start.live, n)
      modifies this
      ensures Valid() && Settled(start, live, n + [c]) && SameOutside(old(live), live, n + [c])
      ensures counted == old(counted) + CountedUnder(start, n + [c])
    {
      hide IsNested, IsPackage, IsScopeDir, Gone, Rooted, Counts, Untouched, Settled, SameOutside, Underway,
        CountedUnder, Between, HasDir, Children, Tallied;
      NestedChild(start, live, n, rest, c);
      if info(n + [c]).isDir {
        if c.Scope? {
          StripScope(n + [c]);
        } else {
          CheckPackage(n + [c]);
        }
      }
    }

    method StripNested(n: Path)
      requires Valid() && IsNested(n) && HasDir(start, n) && Untouched(start, live, n)
      modifies this
      ensures Valid() && Settled(start, live, n) && SameOutside(old(live), live, n)
      ensures counted == old(counted) + CountedUnder(start, n)
    {
      hide IsNested, Gone, Rooted, Counts, Untouched, Settled, SameOutside, Underway, CountedUnder, CountedDone,
        Between, HasDir, Children, Tallied;
      LoopStart(start, live, n);
      JoinCounts(counted, {}, {});
      var rest := Children(live, n);
      while rest != {}
        invariant rest <= Children(start.live, n)
        invariant Valid() && n in live && SameOutside(old(live), live, n)
        invariant Underway(start, live, n, rest)
        invariant counted == old(counted) + CountedDone(start, n, rest)
        decreases |rest|
      {
        var c :| c in rest;
        ghost var before := live;
        NestedEntry(n, c, rest);
        ChildDone(start, old(live), before, live, n, rest, c);
        JoinCounts(old(counted), CountedDone(start, n, rest), CountedUnder(start, n + [c]));
        rest := rest - {c};
      }
      NestedEmptied(start, live, n);
      LeaveEmptied(n, true, old(live));
      JoinCounts(old(counted), CountedDone(start, n, {}), if Counts(start, n) then {n} else {});
    }

    method WalkEntry(dir: Path, c: Name, ghost rest: set<Name>)
      requires Valid() && Walked(dir) && HasDir(start, dir)
      requires Underway(start, live, dir, rest) && c in rest && rest <= Children(start.live, dir)
      modifies this
      ensures Valid() && Settled(start, live, dir + [c]) && SameOutside(old(live), live, dir + [c])
      ensures counted == old(counted) + CountedUnder(start, dir + [c])
      decreases Below(start, dir), 0
    {
      hide Walked, IsNested, Gone, Rooted, Counts, Untouched, Settled, SameOutside, Underway, CountedUnder, Between,
        HasDir, Children, Tallied, Below;
      WalkChild(start, live, dir, rest, c);
      if info(dir + [c]).isDir {
        if c == NodeModules {
          StripNested(dir + [c]);
        } else {
          Strip(dir + [c]);
        }
      }
    }

    // The recursive walk over a package's own directories.
    method Strip(dir: Path)
      requires Valid() && Walked(dir) && HasDir(start, dir) && Untouched(start, live, dir)
      modifies this
      ensures Valid() && Settled(start, live, dir) && SameOutside(old(live), live, dir)
      ensures counted == old(counted) + CountedUnder(start, dir)
      decreases Below(start, dir), 1
    {
      hide Walked, Gone, Rooted, Counts, Untouched, Settled, SameOutside, Underway, CountedUnder, CountedDone, Between,
        HasDir, Children, Tallied, Below;
      LoopStart(start, live, dir);
      JoinCounts(counted, {}, {});
      var rest := Children(live, dir);
      while rest != {}
        invariant rest <= Children(start.live, dir)
        invariant Valid() && dir in live && SameOutside(old(live), live, dir)
        invariant Underway(start, live, dir, rest)
        invariant counted == old(counted) + CountedDone(start, dir, rest)
        decreases |rest|
      {
        var c :| c in rest;
        ghost var before := live;
        WalkEntry(dir, c, rest);
        ChildDone(start, old(live), before, live, dir, rest, c);
        JoinCounts(old(counted), CountedDone(start, dir, rest), CountedUnder(start, dir + [c]));
        rest := rest - {c};
      }
      WalkedDone(start, live, dir);
    }

    // One top-level entry: a package, or a scope of packages.
    method TopEntry(e: Name, ghost rest: set<Name>)
      requires Valid()
      requires Underway(start, live, [], rest) && e in rest && rest <= Children(start.live, [])
      modifies this
      ensures Valid() && Settled(start, live, [e]) && SameOutside(old(live), live, [e])
      ensures counted == old(counted) + CountedUnder(start, [e])
    {
      hide Walked, Gone, Rooted, Counts, Untouched, Settled, SameOutside, Underway, CountedUnder, Between, HasDir,
        Children, Tallied;
      TopChild(start, live, rest, e);
      if info([e]).isDir {
        if e.Scope? {
          StripTopScope([e]);
        } else {
          Strip([e]);
        }
      }
    }

    method StripTopScope(s: Path)
      requires Valid() && |s| == 1 && s[0].Scope? && HasDir(start, s) && Untouched(start, live, s)
      modifies this
      ensures Valid() && Settled(start, live, s) && SameOutside(old(live), live, s)
      ensures counted == old(counted) + CountedUnder(start, s)
    {
      hide Walked, Gone, Rooted, Counts, Untouched, Settled, SameOutside, Underway, CountedUnder, CountedDone, Between,
        HasDir, Children, Tallied;
      LoopStart(start, live, s);
      JoinCounts(counted, {}, {});
      var rest := Children(live, s);
      while rest != {}
        invariant rest <= Children(start.live, s)
        invariant Valid() && s in live && SameOutside(old(live), live, s)
        invariant Underway(start, live, s, rest)
        invariant counted == old(counted) + CountedDone(start, s, rest)
        decreases |rest|
      {
        var sub :| sub in rest;
        ghost var before := live;
        TopScopeChild(start, live, s, rest, sub);
        if info(s + [sub]).isDir {
          Strip(s + [sub]);
        }
        ChildDone(start, old(live), before, live, s, rest, sub);
        JoinCounts(old(counted), CountedDone(start, s, rest), CountedUnder(start, s + [sub]));
        rest := rest - {sub};
      }
      TopDone(start, live, s);
    }

    // The driver: every entry of the bundle's node_modules.
    method Prune()
      requires Valid() && live == start.live && [] in live && info([]).isDir && counted == {}
      modifies this
      ensures live == Pruned(start).live
      ensures prunedDirs == |set q | q in start.live && Counts(start, q)|
    {
      hide Gone, Rooted, Counts, Untouched, Settled, SameOutside, Underway, CountedUnder, CountedDone,
        Between, Children;
      RootUntouched(start, live);
      LoopStart(start, live, []);
      var rest := Children(live, []);
      while rest != {}
        invariant rest <= Children(start.live, [])
        invariant Valid() && [] in live && SameOutside(old(live), live, [])
        invariant Underway(start, live, [], rest)
        invariant counted == CountedDone(start, [], rest)
        decreases |rest|
      {
        var e :| e in rest;
        ghost var before := live;
        assert [] + [e] == [e];
        TopEntry(e, rest);
        ChildDone(start, old(live), before, live, [], rest, e);
        rest := rest - {e};
      }
      TopDone(start, live, []);
      AllSettled(start, live);
    }
  }

  lemma VersionsKept(t: Tree, now: Tree, q: Path)
    requires now.info == t.info && Between(t, now.live) && Untouched(t, now.live, q)
    requires (IsPackage(q) || IsScopedPackage(q)) && HasDir(t, q)
    ensures Version(now, q) == Version(t, q) && Version(now, NameOf(q)) == Version(t, NameOf(q))
    ensures Redundant(t, q)
      <==> Version(now, q) != "" && Version(now, NameOf(q)) != "" && Version(now, q) == Version(now, NameOf(q))
  {
    hide Gone, Walked, IsNested;
    NamesStay(t, q);
  }

  // From a package directory down, all or nothing goes.
  lemma PackageSettles(t: Tree, live: set<Path>, q: Path)
    requires (IsPackage(q) || IsScopedPackage(q)) && HasDir(t, q) && Front(q) in t.live && Untouched(t, live, q)
    ensures q in live && SameOutside(live, live, q) && SameOutside(live, Cut(live, q), q)
    ensures Redundant(t, q) ==> Settled(t, Cut(live, q), q)
    ensures !Redundant(t, q) ==> Settled(t, live, q)
  {
    forall p | q <= p ensures Gone(t, p) <==> Redundant(t, q) {
      if IsPackage(q) {
        GoneAtPackage(t, q, p);
      } else {
        GoneAtScopedPackage(t, q, p);
      }
    }
    hide Gone, IsPackage, IsScopedPackage, Redundant;
  }

  // ---- One directory's loop ----

  lemma LoopStart(t: Tree, live: set<Path>, dir: Path)
    requires Rooted(t) && HasDir(t, dir) && Untouched(t, live, dir)
    ensures Children(live, dir) == Children(t.live, dir) && SameOutside(live, live, dir) && dir in live && dir in t.live
    ensures Underway(t, live, dir, Children(t.live, dir)) && CountedDone(t, dir, Children(t.live, dir)) == {}
  {
    RegionStart(t, live, dir);
    CountStart(t, dir);
  }

  lemma ChildDone(t: Tree, first: set<Path>, before: set<Path>, after: set<Path>, dir: Path, rest: set<Name>, c: Name)
    requires Underway(t, before, dir, rest) && c in rest
    requires Settled(t, after, dir + [c]) && SameOutside(before, after, dir + [c]) && SameOutside(first, before, dir)
      && dir in before
    ensures Underway(t, after, dir, rest - {c}) && SameOutside(first, after, dir) && dir in after
    ensures CountedDone(t, dir, rest - {c}) == CountedDone(t, dir, rest) + CountedUnder(t, dir + [c])
  {
    RegionStep(t, before, after, dir, rest, c);
    CountStep(t, dir, rest, c);
    OutsideWidens(first, before, after, dir, c);
    hide Underway, Settled, CountedDone, CountedUnder;
    assert !(dir + [c] <= dir);
  }

  // A child that is still to visit, and what a file among them needs: nothing.
  ghost predicate Fresh(t: Tree, live: set<Path>, q: Path) {
    && q in t.live && Untouched(t, live, q)
    && (HasDir(t, q) <==> t.info(q).isDir)
    && (!t.info(q).isDir ==> Settled(t, live, q) && SameOutside(live, live, q) && CountedUnder(t, q) == {})
  }

  lemma ChildFresh(t: Tree, live: set<Path>, dir: Path, rest: set<Name>, c: Name)
    requires Rooted(t) && Underway(t, live, dir, rest) && c in rest && rest <= Children(t.live, dir)
    requires var q := dir + [c];
      IsPackage(q) || IsScopeDir(q) || IsScopedPackage(q) || IsNested(q) || Walked(q) || |q| == 1
    ensures Fresh(t, live, dir + [c])
  {
    hide IsPackage, IsScopeDir, IsScopedPackage, IsNested, Walked, Gone, Rooted;
    ChildrenAre(t, dir, c);
    if !t.info(dir + [c]).isDir {
      FileStays(t, live, dir + [c]);
    }
  }

  // A child of a scope directory is a scoped package, or a file that stays.
  lemma ScopeChild(t: Tree, live: set<Path>, s: Path, rest: set<Name>, c: Name)
    requires Rooted(t) && IsScopeDir(s) && HasDir(t, s)
    requires Underway(t, live, s, rest) && c in rest && rest <= Children(t.live, s)
    ensures var q := s + [c];
      && IsScopedPackage(q) && Front(q) == s && s in t.live && Fresh(t, live, q)
  {
    var q := s + [c];
    assert Front(q) == s;
    ChildFresh(t, live, s, rest, c);
  }

  lemma LiveChildren(t: Tree, live: set<Path>, dir: Path, c: Name)
    requires Underway(t, live, dir, {})
    ensures c in Children(live, dir) <==> dir + [c] in t.live && !Gone(t, dir + [c])
  {
    hide Gone;
    ChildrenAre(Tree(live, t.info), dir, c);
    assert Settled(t, live, dir + [c]);
  }

  lemma EmptyBelow(t: Tree, live: set<Path>, dir: Path, p: Path)
    requires Rooted(t) && Underway(t, live, dir, {}) && dir <= p && p != dir && p in live
    ensures Children(live, dir) != {}
  {
    hide Gone, Rooted;
    var c := p[|dir|];
    assert p[..|dir| + 1] == dir + [c];
    assert Settled(t, live, dir + [c]);
    PrefixLive(t, p, |dir| + 1);
    if Gone(t, dir + [c]) {
      GoneDown(t, dir + [c], p);
    }
    LiveChildren(t, live, dir, c);
  }

  lemma ScopeEmptied(t: Tree, live: set<Path>, s: Path)
    requires Rooted(t) && IsScopeDir(s) && HasDir(t, s) && Underway(t, live, s, {})
    ensures Gone(t, s) <==> Children(live, s) == {}
    ensures Gone(t, s) <==> EmptiedScope(t, s)
    ensures !Counts(t, s)
  {
    GoneAtScope(t, s);
    OneRole(s);
    forall c ensures c in Children(live, s) <==> s + [c] in t.live && !Redundant(t, s + [c]) {
      LiveChildren(t, live, s, c);
      assert Front(s + [c]) == s;
      if s + [c] in t.live {
        GoneAtScopedPackage(t, s + [c], s + [c]);
      }
    }
    hide Gone, Redundant, Underway, Children;
    if Children(live, s) == {} {
      assert forall c :: c !in Children(live, s);
    }
  }

  // A directory whose children are done, removed itself if it was emptied.
  lemma EmptiedDone(t: Tree, first: set<Path>, full: set<Path>, dir: Path)
    requires Rooted(t) && Underway(t, full, dir, {}) && SameOutside(first, full, dir) && Between(t, full)
    requires dir in full && (Gone(t, dir) <==> Children(full, dir) == {})
    ensures var after := if Children(full, dir) == {} then Cut(full, dir) else full;
      Settled(t, after, dir) && SameOutside(first, after, dir) && Between(t, after)
    ensures CountedUnder(t, dir) == CountedDone(t, dir, {}) + if Counts(t, dir) then {dir} else {}
  {
    CountEnd(t, dir);
    var after := if Children(full, dir) == {} then Cut(full, dir) else full;
    hide Gone, Counts, CountedUnder, CountedDone, Rooted;
    if Children(full, dir) == {} {
      forall p ensures p in after <==> p in full && p != dir {
        if p in full && dir <= p && p != dir {
          EmptyBelow(t, full, dir, p);
        }
      }
      forall c ensures Settled(t, after, dir + [c]) {
        assert Settled(t, full, dir + [c]);
      }
    }
    RegionEnd(t, after, dir);
    hide Underway, Children;
    BetweenStep(t, full, after, dir);
  }

  // ---- What the entries of each kind of directory are ----

  ghost function Below(t: Tree, dir: Path): set<Path> {
    set p | p in t.live && dir <= p
  }

  lemma NestedChild(t: Tree, live: set<Path>, n: Path, rest: set<Name>, c: Name)
    requires Rooted(t) && IsNested(n) && HasDir(t, n)
    requires Underway(t, live, n, rest) && c in rest && rest <= Children(t.live, n)
    ensures var q := n + [c];
      && (if c.Scope? then IsScopeDir(q) else IsPackage(q)) && Front(q) == n && n in t.live && Fresh(t, live, q)
  {
    hide IsNested, Gone;
    assert Front(n + [c]) == n;
    ChildFresh(t, live, n, rest, c);
  }

  lemma WalkChild(t: Tree, live: set<Path>, dir: Path, rest: set<Name>, c: Name)
    requires Rooted(t) && Walked(dir) && HasDir(t, dir)
    requires Underway(t, live, dir, rest) && c in rest && rest <= Children(t.live, dir)
    ensures var q := dir + [c];
      && (if c == NodeModules then IsNested(q) else Walked(q)) && Fresh(t, live, q)
      && Below(t, q) < Below(t, dir)
  {
    hide Gone;
    assert Front(dir + [c]) == dir;
    ChildFresh(t, live, dir, rest, c);
    assert dir in Below(t, dir) && dir !in Below(t, dir + [c]);
    hide Underway, Fresh;
    forall p | p in Below(t, dir + [c]) ensures p in Below(t, dir) {
      assert dir <= dir + [c] <= p;
    }
  }

  lemma TopChild(t: Tree, live: set<Path>, rest: set<Name>, e: Name)
    requires Rooted(t) && Underway(t, live, [], rest) && e in rest && rest <= Children(t.live, [])
    ensures var q := [e];
      && (e.Scope? || Walked(q)) && Fresh(t, live, q)
  {
    hide Gone;
    assert [] + [e] == [e];
    ChildFresh(t, live, [], rest, e);
  }

  lemma TopScopeChild(t: Tree, live: set<Path>, s: Path, rest: set<Name>, sub: Name)
    requires Rooted(t) && |s| == 1 && s[0].Scope? && Underway(t, live, s, rest) && sub in rest
      && rest <= Children(t.live, s)
    ensures var q := s + [sub];
      && Walked(q) && Fresh(t, live, q)
  {
    hide Gone;
    ChildFresh(t, live, s, rest, sub);
  }

  // ---- When a directory's entries are done ----

  lemma NestedEmptied(t: Tree, live: set<Path>, n: Path)
    requires Rooted(t) && IsNested(n) && HasDir(t, n) && Underway(t, live, n, {})
    ensures Gone(t, n) <==> Children(live, n) == {}
    ensures Counts(t, n) <==> Gone(t, n)
  {
    GoneAtNested(t, n);
    OneRole(n);
    forall c ensures c in Children(live, n)
      <==> n + [c] in t.live && !(Redundant(t, n + [c]) || EmptiedScope(t, n + [c])) {
      LiveChildren(t, live, n, c);
      assert Front(n + [c]) == n;
      OneRole(n + [c]);
      if n + [c] in t.live {
        if c.Scope? {
          GoneAtScope(t, n + [c]);
        } else {
          GoneAtPackage(t, n + [c], n + [c]);
        }
      }
    }
    hide Gone, Redundant, Underway, Children, EmptiedScope;
    if Children(live, n) == {} {
      assert forall c :: c !in Children(live, n);
    }
  }

  lemma DirDone(t: Tree, live: set<Path>, dir: Path)
    requires Underway(t, live, dir, {}) && dir in live && dir in t.live && !Gone(t, dir) && !Counts(t, dir)
    ensures Settled(t, live, dir) && CountedUnder(t, dir) == CountedDone(t, dir, {})
  {
    hide Gone, Counts;
    RegionEnd(t, live, dir);
    CountEnd(t, dir);
  }

  lemma WalkedDone(t: Tree, live: set<Path>, dir: Path)
    requires Walked(dir) && Underway(t, live, dir, {}) && dir in live && dir in t.live
    ensures Settled(t, live, dir) && CountedUnder(t, dir) == CountedDone(t, dir, {})
  {
    WalkedStays(t, dir);
    assert dir[..|dir|] == dir;
    hide Underway;
    DirDone(t, live, dir);
  }

  lemma TopDone(t: Tree, live: set<Path>, dir: Path)
    requires |dir| <= 1 && Underway(t, live, dir, {}) && dir in live && dir in t.live
    ensures Settled(t, live, dir) && CountedUnder(t, dir) == CountedDone(t, dir, {})
  {
    TopStays(t, dir);
    hide Underway;
    DirDone(t, live, dir);
  }

  lemma RootUntouched(t: Tree, live: set<Path>)
    requires live == t.live
    ensures Untouched(t, live, [])
  {
  }

  lemma AllSettled(t: Tree, live: set<Path>)
    requires Settled(t, live, [])
    ensures live == Pruned(t).live
    ensures CountedUnder(t, []) == set q | q in t.live && Counts(t, q)
  {
    hide Gone, Counts;
    forall q ensures q in CountedUnder(t, []) <==> q in t.live && Counts(t, q) {
      assert [] <= q;
    }
    forall p ensures p in live <==> p in t.live && !Gone(t, p) {
      assert [] <= p;
    }
  }

  method PruneTree(t: Tree) returns (live: set<Path>, prunedDirs: nat)
    requires Rooted(t) && HasDir(t, [])
    ensures live == Pruned(t).live
    ensures prunedDirs == |set q | q in t.live && Counts(t, q)|
  {
    var bundle := new Bundle(t);
    bundle.Prune();
    live, prunedDirs := bundle.live, bundle.prunedDirs;
  }
}
