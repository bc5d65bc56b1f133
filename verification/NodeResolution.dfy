// How Node finds a package in the tree, and what the pruning pass does to it.
module NodeResolution {
  import opened Basics
  import opened BundleTree

  // foo, or @scope/foo.
  predicate Legal(name: Path) {
    || (|name| == 1 && name[0].Plain?)
    || (|name| == 2 && name[0].Scope? && name[1].Plain?)
  }

  // npm refuses node_modules as the name of a package.
  ghost predicate Named(t: Tree) {
    forall p: Path, i: int :: p in t.live && 0 <= i < |p| - 1 && p[i].Scope? ==> p[i + 1] != NodeModules
  }

  function Candidate(from: Path, k: nat, name: Path): Path
    requires k <= |from|
  {
    from[..k] + [NodeModules] + name
  }

  // The copy of name that code in the first k names of from gets: the nearest
  // enclosing node_modules that has one, and the top level last.
  function Lookup(t: Tree, from: Path, k: nat, name: Path): Option<Path>
    requires k <= |from|
  {
    if k == 0 then if HasDir(t, name) then Some(name) else None
    else if from[k - 1] != NodeModules && HasDir(t, Candidate(from, k, name)) then Some(Candidate(from, k, name))
    else Lookup(t, from, k - 1, name)
  }

  // The version it gets, if any.
  function Resolved(t: Tree, from: Path, name: Path): Option<string> {
    VersionOf(t, Lookup(t, from, |from|, name))
  }

  function VersionOf(t: Tree, found: Option<Path>): Option<string> {
    if found.None? then None else Some(Version(t, found.value))
  }

  // The same search, passing over redundant copies.
  function KeptLookup(t: Tree, from: Path, k: nat, name: Path): Option<Path>
    requires k <= |from|
  {
    if k == 0 then if HasDir(t, name) then Some(name) else None
    else if from[k - 1] != NodeModules && HasDir(t, Candidate(from, k, name))
      && !Redundant(t, Candidate(from, k, name)) then
      Some(Candidate(from, k, name))
    else KeptLookup(t, from, k - 1, name)
  }

  // Above every redundant copy the nearest one that is not redundant, if it is
  // not the top-level one itself, has the top level's version.
  ghost predicate Unshadowed(t: Tree) {
    forall d: Path, name: Path ::
      Shadows(t, d, name) ==> VersionOf(t, KeptLookup(t, d, |d|, name)) == Some(Version(t, name))
  }

  predicate Shadows(t: Tree, d: Path, name: Path) {
    d != [] && Last(d) != NodeModules && Legal(name) && Redundant(t, Candidate(d, |d|, name))
  }

  ghost predicate SameResolution(t: Tree) {
    forall from: Path, name: Path ::
      HasDir(Pruned(t), from) && Legal(name) ==> Resolved(Pruned(t), from, name) == Resolved(t, from, name)
  }

  // ---- Candidates ----

  lemma CandidateRole(t: Tree, from: Path, k: nat, name: Path)
    requires 0 < k <= |from| && from[k - 1] != NodeModules && Legal(name)
    ensures var q := Candidate(from, k, name);
      && (Walked(from[..k]) ==> IsPackage(q) || IsScopedPackage(q))
      && (Redundant(t, q) ==> Walked(from[..k]) && NameOf(q) == name)
  {
    var q, n := Candidate(from, k, name), from[..k] + [NodeModules];
    assert Front(n) == from[..k] && Last(n) == NodeModules;
    OneRole(q);
    if |name| == 1 {
      assert Front(q) == n && Last(q) == name[0];
      assert [Last(q)] == name;
      assert n[..|n|] == n;
      assert !IsScopeDir(Front(q));
    } else {
      assert Front(q) == n + [name[0]] && Last(q) == name[1];
      assert Front(Front(q)) == n && Last(Front(q)) == name[0];
      assert [Last(Front(q)), Last(q)] == name;
      assert !IsNested(Front(q));
    }
  }

  // Of the copies that code which survives could get, exactly the redundant ones go.
  lemma CandidateKept(t: Tree, from: Path, k: nat, name: Path)
    requires Rooted(t) && Named(t) && HasDir(Pruned(t), from) && Legal(name)
    requires 0 < k <= |from| && from[k - 1] != NodeModules
    ensures HasDir(Pruned(t), Candidate(from, k, name))
      <==> HasDir(t, Candidate(from, k, name)) && !Redundant(t, Candidate(from, k, name))
  {
    var q := Candidate(from, k, name);
    CandidateRole(t, from, k, name);
    if HasDir(t, q) {
      if Walked(from[..k]) {
        PackageGone(t, q);
      } else if Gone(t, q) {
        UnwalkedStays(t, from, k, name);
      }
    }
  }

  lemma PackageGone(t: Tree, q: Path)
    requires Rooted(t) && q in t.live && (IsPackage(q) || IsScopedPackage(q))
    ensures Gone(t, q) <==> Redundant(t, q)
  {
    if IsPackage(q) {
      GoneAtPackage(t, q, q);
    } else {
      PrefixLive(t, q, |q| - 1);
      GoneAtScopedPackage(t, q, q);
    }
  }

  lemma UnwalkedStays(t: Tree, from: Path, k: nat, name: Path)
    requires Rooted(t) && Named(t) && from in t.live && !Gone(t, from) && Legal(name)
    requires 0 < k <= |from| && from[k - 1] != NodeModules && !Walked(from[..k]) && Candidate(from, k, name) in t.live
    ensures !Gone(t, Candidate(from, k, name))
  {
    var q := Candidate(from, k, name);
    assert q[..k] == from[..k] && q[k] == NodeModules && q[k - 1] == from[k - 1];
    assert q[0].Scope? ==> q[1] != NodeModules;
    hide Walked, Redundant, EmptiedScope, EmptiedNested, HasDir, IsNested, Legal;
    forall m: nat | m <= |q| ensures !Doomed(t, q[..m]) {
      if m <= k {
        NotDoomed(t, from, m);
        assert q[..m] == from[..m];
      } else if Doomed(t, q[..m]) {
        DoomedPast(t, q, k, m);
      }
    }
  }

  lemma NotDoomed(t: Tree, p: Path, m: nat)
    requires !Gone(t, p) && m <= |p|
    ensures !Doomed(t, p[..m])
  {
  }

  // Nothing doomed starts past an unwalked prefix, unless a scope holds node_modules.
  lemma DoomedPast(t: Tree, q: Path, k: nat, m: nat)
    requires 0 < k < m <= |q| && q[k] == NodeModules && q[k - 1] != NodeModules && !Walked(q[..k])
    requires q[0].Scope? ==> q[1] != NodeModules
    requires Doomed(t, q[..m])
    ensures q[k - 1].Scope?
  {
    hide Walked, Redundant, EmptiedScope, EmptiedNested, IsNested;
    var j := DoomedIsBelow(t, q[..m]);
    assert q[..m][..j] == q[..j];
    DoomedSpot(t, q, j, m);
    SpotPastUnwalked(q, k, j);
    IsNestedEnds(q, j);
  }

  lemma IsNestedEnds(q: Path, j: nat)
    requires j <= |q| && IsNested(q[..j])
    ensures j > 0 && q[j - 1] == NodeModules
  {
    assert q[j - 1] == Last(q[..j]);
  }

  // A nested node_modules prefix cannot lie past a prefix that is not walked.
  lemma SpotPastUnwalked(q: Path, k: nat, j: nat)
    requires 0 < k < |q| && j <= |q| && q[k] == NodeModules && q[k - 1] != NodeModules && IsNested(q[..j])
      && !Walked(q[..k])
    requires q[0].Scope? ==> q[1] != NodeModules
    ensures j < k
  {
    assert Front(q[..j]) == q[..j - 1] && q[j - 1] == Last(q[..j]) == NodeModules;
    if j > k {
      var top := if q[0].Scope? then 2 else 1;
      assert top <= k;
      assert forall i :: top <= i < k ==> q[..j - 1][i] == q[i];
    }
  }

  lemma NameStays(t: Tree, name: Path)
    requires Legal(name)
    ensures !Gone(t, name)
  {
    if |name| == 1 {
      TopStays(t, name);
    } else {
      WalkedStays(t, name);
    }
  }

  // ---- The search before and after ----

  lemma {:induction false} LookupPruned(t: Tree, from: Path, k: nat, name: Path)
    requires Rooted(t) && Named(t) && HasDir(Pruned(t), from) && Legal(name) && k <= |from|
    ensures Lookup(Pruned(t), from, k, name) == KeptLookup(t, from, k, name)
    ensures VersionOf(Pruned(t), KeptLookup(t, from, k, name)) == VersionOf(t, KeptLookup(t, from, k, name))
  {
    hide Rooted, Named, Gone, Legal, Redundant;
    if k == 0 {
      NameStays(t, name);
    } else {
      LookupPruned(t, from, k - 1, name);
      if from[k - 1] != NodeModules {
        CandidateKept(t, from, k, name);
      }
    }
  }

  // The search looks only at the names before k.
  lemma {:induction false} KeptLookupPrefix(t: Tree, from: Path, m: nat, k: nat, name: Path)
    requires k <= m <= |from|
    ensures KeptLookup(t, from[..m], k, name) == KeptLookup(t, from, k, name)
  {
    if k > 0 {
      KeptLookupPrefix(t, from, m, k - 1, name);
      assert from[..m][..k] == from[..k];
      hide Redundant, HasDir;
    }
  }

  lemma {:induction false} SkippingKeepsVersion(t: Tree, from: Path, k: nat, name: Path)
    requires Unshadowed(t) && Legal(name) && k <= |from|
    ensures VersionOf(t, KeptLookup(t, from, k, name)) == VersionOf(t, Lookup(t, from, k, name))
  {
    hide Unshadowed, Redundant, Legal, HasDir, Version;
    if k > 0 {
      SkippingKeepsVersion(t, from, k - 1, name);
      if from[k - 1] != NodeModules && Redundant(t, Candidate(from, k, name)) {
        RedundantCopy(t, from, k, name);
        KeptLookupPrefix(t, from, k, k, name);
      }
    }
  }

  lemma RedundantCopy(t: Tree, from: Path, k: nat, name: Path)
    requires 0 < k <= |from| && from[k - 1] != NodeModules && Legal(name) && Redundant(t, Candidate(from, k, name))
    ensures HasDir(t, Candidate(from, k, name)) && Version(t, Candidate(from, k, name)) == Version(t, name)
    ensures Walked(from[..k])
    ensures Unshadowed(t) ==> VersionOf(t, KeptLookup(t, from[..k], k, name)) == Some(Version(t, name))
  {
    CandidateRole(t, from, k, name);
    hide KeptLookup, Legal, HasDir, Version;
    var d := from[..k];
    assert Last(d) == from[k - 1] && d[..k] == d;
    assert Shadows(t, d, name) by {
      assert Candidate(d, |d|, name) == Candidate(from, k, name);
    }
  }

  // Pruning changes what some surviving directory's code resolves exactly when
  // a redundant copy hides a kept copy with another version.
  lemma ResolutionKeptIff(t: Tree)
    requires Rooted(t) && Named(t)
    ensures SameResolution(t) <==> Unshadowed(t)
  {
    hide Rooted, Named, Gone, Legal, HasDir, KeptLookup, Lookup, Redundant, Version;
    if Unshadowed(t) {
      forall from: Path, name: Path | HasDir(Pruned(t), from) && Legal(name)
        ensures Resolved(Pruned(t), from, name) == Resolved(t, from, name)
      {
        LookupPruned(t, from, |from|, name);
        SkippingKeepsVersion(t, from, |from|, name);
      }
    }
    if SameResolution(t) {
      forall d: Path, name: Path | Shadows(t, d, name)
        ensures VersionOf(t, KeptLookup(t, d, |d|, name)) == Some(Version(t, name)) {
        ShadowResolves(t, d, name);
        LookupPruned(t, d, |d|, name);
      }
    }
  }

  // The directory over a redundant copy survives, and gets that copy.
  lemma ShadowResolves(t: Tree, d: Path, name: Path)
    requires Rooted(t) && Named(t) && Shadows(t, d, name)
    ensures HasDir(Pruned(t), d)
    ensures Resolved(t, d, name) == Some(Version(t, name))
  {
    hide Named, Gone, Legal, Version;
    var q := Candidate(d, |d|, name);
    RedundantCopy(t, d, |d|, name);
    assert d[..|d|] == d;
    assert q[..|d|] == d;
    PrefixLive(t, q, |d|);
    WalkedStays(t, d);
  }

  // When no package is nested twice on one way up, nothing resolves differently.
  lemma SingleNestingSafe(t: Tree)
    requires Rooted(t) && Named(t)
    requires forall d: Path, k: nat, name: Path ::
      Shadows(t, d, name) && 0 < k < |d| ==> !HasDir(t, Candidate(d, k, name))
    ensures SameResolution(t)
  {
    hide Rooted, Named, SameResolution, Redundant;
    forall d: Path, name: Path | Shadows(t, d, name)
      ensures VersionOf(t, KeptLookup(t, d, |d|, name)) == Some(Version(t, name)) {
      TopIsNext(t, d, |d| - 1, name);
      TopExists(t, d, name);
    }
    ResolutionKeptIff(t);
  }

  lemma {:induction false} TopIsNext(t: Tree, d: Path, k: nat, name: Path)
    requires k <= |d| && forall m: nat :: 0 < m <= k ==> !HasDir(t, Candidate(d, m, name))
    ensures KeptLookup(t, d, k, name) == if HasDir(t, name) then Some(name) else None
  {
    hide HasDir, Redundant;
    if k > 0 {
      TopIsNext(t, d, k - 1, name);
    }
  }

  lemma TopExists(t: Tree, d: Path, name: Path)
    requires Shadows(t, d, name)
    ensures HasDir(t, name)
  {
    RedundantCopy(t, d, |d|, name);
  }

  // ---- A tree where it goes wrong ----

  const FOO: Name := Plain("foo")
  const P: Name := Plain("p")
  const LIB: Name := Plain("lib")

  // p needs foo 2 and has it nested; p/lib has foo 1 nested below that, the same
  // as the top level's.
  function ShadowedTree(): Tree {
    Tree({[], [FOO], [P], [P, NodeModules], [P, NodeModules, FOO], [P, LIB], [P, LIB, NodeModules],
      [P, LIB, NodeModules, FOO]},
      (p: Path) => Entry(true,
        if p == [P, NodeModules, FOO] then "2" else if p != [] && Last(p) == FOO then "1" else ""))
  }

  lemma ShadowedPath(p: Path)
    requires p in ShadowedTree().live
    ensures p == [] || p == [FOO] || p == [P] || p == [P, NodeModules] || p == [P, NodeModules, FOO] || p == [P, LIB]
      || p == [P, LIB, NodeModules] || p == [P, LIB, NodeModules, FOO]
    ensures forall i :: 0 <= i < |p| ==> !p[i].Scope?
  {
  }

  lemma ShadowedParent(p: Path)
    requires p in ShadowedTree().live && p != []
    ensures HasDir(ShadowedTree(), Front(p))
  {
    ShadowedPath(p);
    if |p| == 1 {
      assert Front(p) == [];
    } else if |p| == 2 {
      assert Front(p) == [P];
    } else if p == [P, NodeModules, FOO] {
      assert Front(p) == [P, NodeModules];
    } else if |p| == 3 {
      assert Front(p) == [P, LIB];
    } else {
      assert Front(p) == [P, LIB, NodeModules];
    }
  }

  lemma ShadowedTreeShape()
    ensures var t := ShadowedTree(); Rooted(t) && Named(t)
  {
    hide ShadowedTree, HasDir;
    forall p | p in ShadowedTree().live ensures p != [] ==> HasDir(ShadowedTree(), Front(p)) {
      if p != [] {
        ShadowedParent(p);
      }
    }
    forall p: Path, i: int | p in ShadowedTree().live && 0 <= i < |p| - 1 ensures !p[i].Scope? {
      ShadowedPath(p);
    }
  }

  lemma ShadowedCopy()
    ensures Shadows(ShadowedTree(), [P, LIB], [FOO])
  {
    var copy := [P, LIB, NodeModules, FOO];
    assert Front([P, LIB, NodeModules]) == [P, LIB] && Front(copy) == [P, LIB, NodeModules];
    assert Candidate([P, LIB], 2, [FOO]) == copy;
  }

  lemma ShadowedTreeResolvesOtherwise()
    ensures var t := ShadowedTree();
      && Rooted(t) && Named(t) && HasDir(Pruned(t), [P, LIB])
      && Resolved(t, [P, LIB], [FOO]) == Some("1")
      && Resolved(Pruned(t), [P, LIB], [FOO]) == Some("2")
  {
    hide Rooted, Named, Gone;
    ShadowedTreeShape();
    ShadowedCopy();
    var t := ShadowedTree();
    ShadowResolves(t, [P, LIB], [FOO]);
    LookupPruned(t, [P, LIB], 2, [FOO]);
    KeptCopy();
    assert Version(t, [FOO]) == "1";
    hide Shadows, KeptLookup, Lookup, Legal;
  }

  lemma KeptCopy()
    ensures var t := ShadowedTree();
      VersionOf(t, KeptLookup(t, [P, LIB], 2, [FOO])) == Some("2")
  {
    var t := ShadowedTree();
    ShadowedCopy();
    assert Candidate([P, LIB], 1, [FOO]) == [P, NodeModules, FOO];
    hide Shadows;
    assert KeptLookup(t, [P, LIB], 1, [FOO]) == Some([P, NodeModules, FOO]) by {
      assert [P, LIB][0] == P;
      NotRedundant();
      hide Redundant;
    }
  }

  lemma NotRedundant()
    ensures !Redundant(ShadowedTree(), [P, NodeModules, FOO])
  {
    assert Front([P, NodeModules, FOO]) == [P, NodeModules] && Front([P, NodeModules]) == [P];
  }

  // ---- Pruning once is enough ----

  lemma PrunedRooted(t: Tree)
    requires Rooted(t)
    ensures Rooted(Pruned(t))
  {
    hide Gone;
    forall p | p in Pruned(t).live && p != [] ensures HasDir(Pruned(t), Front(p)) {
      assert HasDir(t, Front(p));
      if Gone(t, Front(p)) {
        GoneDown(t, Front(p), p);
      }
    }
  }

  lemma NoneRedundant(t: Tree, q: Path)
    requires Rooted(t)
    ensures !Redundant(Pruned(t), q)
  {
    if Redundant(Pruned(t), q) {
      NamesStay(t, q);
      assert Redundant(t, q);
      GoneIntro(t, q, q);
    }
  }

  lemma NoneEmptied(t: Tree, q: Path)
    requires Rooted(t)
    ensures !EmptiedScope(Pruned(t), q)
  {
    hide Gone, Redundant, Walked;
    forall c ensures !Redundant(Pruned(t), q + [c]) {
      NoneRedundant(t, q + [c]);
    }
    if EmptiedScope(Pruned(t), q) {
      forall c | q + [c] in t.live ensures Redundant(t, q + [c]) {
        assert Front(q + [c]) == q;
        assert q + [c] !in Pruned(t).live;
        GoneAtScopedPackage(t, q + [c], q + [c]);
      }
      assert EmptiedScope(t, q);
      GoneIntro(t, q, q);
    }
  }

  lemma NoNestedEmptied(t: Tree, n: Path)
    requires Rooted(t)
    ensures !EmptiedNested(Pruned(t), n)
  {
    hide Gone, Redundant, Walked, EmptiedScope;
    if EmptiedNested(Pruned(t), n) {
      forall c | n + [c] in t.live ensures Redundant(t, n + [c]) || EmptiedScope(t, n + [c]) {
        assert Front(n + [c]) == n;
        NoneRedundant(t, n + [c]);
        NoneEmptied(t, n + [c]);
        assert n + [c] !in Pruned(t).live;
        if c.Scope? {
          GoneAtScope(t, n + [c]);
        } else {
          GoneAtPackage(t, n + [c], n + [c]);
        }
      }
      assert EmptiedNested(t, n);
      GoneIntro(t, n, n);
    }
  }

  lemma PruneIdempotent(t: Tree)
    requires Rooted(t)
    ensures Pruned(Pruned(t)).live == Pruned(t).live
  {
    forall q ensures !Doomed(Pruned(t), q) {
      NoneRedundant(t, q);
      NoneEmptied(t, q);
      NoNestedEmptied(t, q);
    }
  }
}
