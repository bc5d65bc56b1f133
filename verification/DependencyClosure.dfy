// Collecting the packages an app bundle needs: the recursive walk over package
// manifests and nested copies, and the set it ends with.
module DependencyClosure {
  import opened Basics

  // A package directory inside another package's node_modules, scopes flattened
  // into names. One without a readable manifest is not looked into.
  datatype Nested = Nested(name: string, manifest: Option<seq<string>>, inner: seq<Nested>)

  // What the walk reads: the dependencies in each installed package's manifest,
  // the packages nested directly under it, and the names never to collect.
  datatype World = World(manifests: map<string, seq<string>>, nested: map<string, seq<Nested>>, blocked: set<string>)

  datatype Copy = Copy(parent: string, name: string)

  // ---- What a package needs ----

  function Names(deps: seq<string>): set<string> {
    set d | d in deps
  }

  function NestedNames(t: Nested): set<string>
    decreases t
  {
    if t.manifest.None? then {} else Names(t.manifest.value) + ForestNames(t.inner)
  }

  function ForestNames(ts: seq<Nested>): set<string>
    decreases ts
  {
    set t, d | t in ts && d in NestedNames(t) :: d
  }

  // The @keepkey packages' nested copies are left out of the walk.
  predicate SkipsNested(pkg: string) {
    "@keepkey/" <= pkg
  }

  function NestedUnder(w: World, pkg: string): seq<Nested> {
    if pkg !in w.manifests || SkipsNested(pkg) || pkg !in w.nested then [] else w.nested[pkg]
  }

  // Everything the walk finds that pkg depends on.
  function Needs(w: World, pkg: string): set<string> {
    (if pkg in w.manifests then Names(w.manifests[pkg]) + ForestNames(NestedUnder(w, pkg)) else {}) - w.blocked
  }

  function Universe(w: World): set<string> {
    set pkg, d | pkg in w.manifests && d in Needs(w, pkg) :: d
  }

  ghost predicate ClosedOver(w: World, s: set<string>, t: set<string>) {
    forall pkg :: pkg in s ==> Needs(w, pkg) <= t
  }

  ghost predicate Closed(w: World, s: set<string>) {
    ClosedOver(w, s, s)
  }

  ghost predicate Least(w: World, externals: set<string>, s: set<string>) {
    && externals <= s && Closed(w, s)
    && forall c: set<string> :: externals <= c && Closed(w, c) ==> s <= c
  }

  function CopiesOf(w: World, pkg: string): (r: seq<Copy>)
    ensures |r| == |NestedUnder(w, pkg)|
  {
    var ts := NestedUnder(w, pkg);
    seq(|ts|, i requires 0 <= i < |ts| => Copy(pkg, ts[i].name))
  }

  // after lists, beyond before, each nested copy under one of who once.
  ghost predicate CopiesGrew(w: World, before: seq<Copy>, after: seq<Copy>, who: set<string>) {
    forall c: Copy ::
      multiset(after)[c] == multiset(before)[c] + if c.parent in who then multiset(CopiesOf(w, c.parent))[c] else 0
  }

  lemma CopiesGrewTwice(w: World, a: seq<Copy>, b: seq<Copy>, c: seq<Copy>, first: set<string>, second: set<string>)
    requires CopiesGrew(w, a, b, first) && CopiesGrew(w, b, c, second) && first !! second
    ensures CopiesGrew(w, a, c, first + second)
  {
  }

  // What one call adds: everything new is needed by whatever needs its
  // argument, and nothing new is left with a need unmet.
  ghost predicate Grew(w: World, before: set<string>, after: set<string>, needed: set<string>) {
    && before <= after
    && ClosedOver(w, after - before, after)
    && forall c: set<string> :: needed <= c && Closed(w, c) ==> after - before <= c
  }

  lemma GrewTwice(w: World, a: set<string>, b: set<string>, c: set<string>, n: set<string>, m: set<string>)
    requires Grew(w, a, b, n) && Grew(w, b, c, m)
    ensures Grew(w, a, c, n + m)
  {
    forall pkg | pkg in c - a ensures Needs(w, pkg) <= c {
      if pkg in b {
        assert pkg in b - a;
      } else {
        assert pkg in c - b;
      }
    }
  }

  // Adding dep, and then everything it needs.
  lemma GrewFrom(w: World, a: set<string>, c: set<string>, dep: string)
    requires dep !in a && Grew(w, a + {dep}, c, Needs(w, dep)) && Needs(w, dep) <= c
    ensures Grew(w, a, c, {dep})
  {
    forall pkg | pkg in c - a ensures Needs(w, pkg) <= c {
      assert pkg == dep || pkg in c - (a + {dep});
    }
    forall s: set<string> | {dep} <= s && Closed(w, s) ensures c - a <= s {
      assert dep in s;
    }
  }

  lemma GrewMore(w: World, a: set<string>, b: set<string>, n: set<string>, m: set<string>)
    requires Grew(w, a, b, n) && n <= m
    ensures Grew(w, a, b, m)
  {
  }

  // The same part-way through pkg's own nested copies: the first i are listed.
  ghost predicate CopiesPart(w: World, before: seq<Copy>, after: seq<Copy>, who: set<string>, pkg: string, i: nat)
    requires i <= |CopiesOf(w, pkg)|
  {
    forall c: Copy :: multiset(after)[c] == multiset(before)[c]
      + if c.parent == pkg then multiset(CopiesOf(w, pkg)[..i])[c]
        else if c.parent in who then multiset(CopiesOf(w, c.parent))[c] else 0
  }

  lemma CopiesStart(w: World, before: seq<Copy>, after: seq<Copy>, who: set<string>, pkg: string)
    requires CopiesGrew(w, before, after, who) && pkg !in who
    ensures CopiesPart(w, before, after, who, pkg, 0)
  {
  }

  lemma CopiesEnd(w: World, before: seq<Copy>, after: seq<Copy>, who: set<string>, pkg: string)
    requires CopiesPart(w, before, after, who, pkg, |CopiesOf(w, pkg)|)
    ensures CopiesGrew(w, before, after, {pkg} + who)
  {
    assert CopiesOf(w, pkg)[..|CopiesOf(w, pkg)|] == CopiesOf(w, pkg);
  }

  // One copy pushed, and then a call that lists those under more.
  lemma CopiesStep(w: World, before: seq<Copy>, mid: seq<Copy>, after: seq<Copy>, who: set<string>, more: set<string>,
      pkg: string, i: nat)
    requires i < |CopiesOf(w, pkg)| && who !! more && pkg !in more
    requires CopiesPart(w, before, mid, who, pkg, i)
    requires CopiesGrew(w, mid + [CopiesOf(w, pkg)[i]], after, more)
    ensures CopiesPart(w, before, after, who + more, pkg, i + 1)
  {
    forall c: Copy ensures multiset(after)[c] == multiset(before)[c]
      + if c.parent == pkg then multiset(CopiesOf(w, pkg)[..i + 1])[c]
        else if c.parent in who + more then multiset(CopiesOf(w, c.parent))[c] else 0
    {
      hide CopiesOf;
      assert multiset(after)[c]
        == multiset(mid + [CopiesOf(w, pkg)[i]])[c]
        + if c.parent in more then multiset(CopiesOf(w, c.parent))[c] else 0;
      OneCopied(w, mid, pkg, i, c);
    }
  }

  lemma OneCopied(w: World, mid: seq<Copy>, pkg: string, i: nat, c: Copy)
    requires i < |CopiesOf(w, pkg)|
    ensures multiset(mid + [CopiesOf(w, pkg)[i]])[c] == multiset(mid)[c] + if c == CopiesOf(w, pkg)[i] then 1 else 0
    ensures multiset(CopiesOf(w, pkg)[..i + 1])[c]
      == multiset(CopiesOf(w, pkg)[..i])[c] + if c == CopiesOf(w, pkg)[i] then 1 else 0
    ensures CopiesOf(w, pkg)[i].parent == pkg
  {
    var copies := CopiesOf(w, pkg);
    assert copies[..i + 1] == copies[..i] + [copies[i]];
  }

  lemma NeedsInUniverse(w: World, pkg: string)
    ensures Needs(w, pkg) <= Universe(w)
  {
    hide Names, ForestNames, NestedUnder;
  }

  lemma NeedsParts(w: World, pkg: string)
    ensures pkg in w.manifests
      ==> Needs(w, pkg) == Names(w.manifests[pkg]) - w.blocked + (ForestNames(NestedUnder(w, pkg)) - w.blocked)
    ensures pkg !in w.manifests ==> Needs(w, pkg) == {} && CopiesOf(w, pkg) == []
  {
    hide Names, ForestNames;
  }

  lemma ForestAt(ts: seq<Nested>, i: nat)
    requires i <= |ts|
    ensures i == 0 ==> ForestNames(ts[..i]) == {}
    ensures i < |ts| ==> ForestNames(ts[..i + 1]) == ForestNames(ts[..i]) + NestedNames(ts[i])
    ensures i < |ts| ==> NestedNames(ts[i]) <= ForestNames(ts)
    ensures ForestNames(ts[..|ts|]) == ForestNames(ts)
  {
    ForestSnoc([], Nested("", None, []));
    hide NestedNames, ForestNames;
    assert ts[..0] == [] && ts[..|ts|] == ts;
    if i < |ts| {
      assert ts[..i + 1] == ts[..i] + [ts[i]];
      ForestSnoc(ts[..i], ts[i]);
      ForestPart(ts, i);
    }
  }

  lemma ForestPart(ts: seq<Nested>, i: nat)
    requires i < |ts|
    ensures NestedNames(ts[i]) <= ForestNames(ts)
  {
    hide NestedNames;
    assert ts[i] in ts;
  }

  lemma ForestSnoc(ts: seq<Nested>, t: Nested)
    ensures ForestNames(ts + [t]) == ForestNames(ts) + NestedNames(t)
    ensures ForestNames([]) == {}
  {
    hide NestedNames;
    forall d ensures d in ForestNames(ts + [t]) <==> d in ForestNames(ts) || d in NestedNames(t) {
      if d in NestedNames(t) {
        assert t in ts + [t];
      }
    }
  }

  lemma NothingYet(w: World, a: set<string>, copies: seq<Copy>, n: set<string>)
    ensures Grew(w, a, a, n) && CopiesGrew(w, copies, copies, a - a)
  {
    assert a - a == {};
  }

  lemma FollowStep(w: World, a: set<string>, b: set<string>, c: set<string>, dep: string, n: set<string>,
      first: seq<Copy>, second: seq<Copy>, third: seq<Copy>)
    requires Grew(w, a, b, n) && dep !in b && dep in n
    requires Grew(w, b + {dep}, c, Needs(w, dep)) && Needs(w, dep) <= c
    requires CopiesGrew(w, first, second, b - a) && CopiesGrew(w, second, third, {dep} + (c - (b + {dep})))
    ensures Grew(w, a, c, n) && CopiesGrew(w, first, third, c - a)
  {
    GrewFrom(w, b, c, dep);
    GrewTwice(w, a, b, c, n, {dep});
    assert n + {dep} == n;
    assert {dep} + (c - (b + {dep})) == c - b && (b - a) + (c - b) == c - a by {
      assert a <= b <= c;
    }
    CopiesGrewTwice(w, first, second, third, b - a, c - b);
  }

  lemma JoinStep(w: World, a: set<string>, b: set<string>, c: set<string>, n: set<string>, m: set<string>,
      first: seq<Copy>, second: seq<Copy>, third: seq<Copy>)
    requires Grew(w, a, b, n) && Grew(w, b, c, m) && m <= n
    requires CopiesGrew(w, first, second, b - a) && CopiesGrew(w, second, third, c - b)
    ensures Grew(w, a, c, n) && CopiesGrew(w, first, third, c - a)
  {
    GrewTwice(w, a, b, c, n, m);
    assert n + m == n;
    assert (b - a) + (c - b) == c - a by {
      assert a <= b <= c;
    }
    CopiesGrewTwice(w, first, second, third, b - a, c - b);
  }

  lemma PushStep(w: World, a: set<string>, b: set<string>, c: set<string>, n: set<string>, m: set<string>,
      first: seq<Copy>, second: seq<Copy>, third: seq<Copy>, pkg: string, i: nat)
    requires i < |CopiesOf(w, pkg)| && pkg in a
    requires Grew(w, a, b, n) && Grew(w, b, c, m) && m <= n
    requires CopiesPart(w, first, second, b - a, pkg, i) && CopiesGrew(w, second + [CopiesOf(w, pkg)[i]], third, c - b)
    ensures Grew(w, a, c, n) && CopiesPart(w, first, third, c - a, pkg, i + 1)
  {
    hide CopiesPart, CopiesGrew, CopiesOf;
    GrewTwice(w, a, b, c, n, m);
    assert n + m == n;
    assert (b - a) + (c - b) == c - a by {
      assert a <= b <= c;
    }
    CopiesStep(w, first, second, third, b - a, c - b, pkg, i);
  }

  lemma {:induction false} FewerLeft(u: set<string>, a: set<string>, b: set<string>)
    requires a <= b
    ensures |u - b| <= |u - a|
    ensures (exists d :: d in u && d in b && d !in a) ==> |u - b| < |u - a|
  {
    Subset(u - b, u - a);
    if d :| d in u && d in b && d !in a {
      assert d in u - a && d !in u - b;
    }
  }

  lemma {:induction false} Subset(a: set<string>, b: set<string>)
    requires a <= b
    ensures |a| <= |b| && (a != b ==> |a| < |b|)
  {
    if a != {} {
      var x :| x in a;
      Subset(a - {x}, b - {x});
      if a != b {
        assert a - {x} != b - {x};
      }
    } else if b != {} {
      assert |b| > 0;
    }
  }

  // ---- The walk ----

  class Collector {
    const world: World
    var allDeps: set<string>
    var nestedCopies: seq<Copy>

    constructor (w: World, externals: seq<string>)
      ensures world == w && allDeps == Names(externals) && nestedCopies == []
    {
      world := w;
      allDeps := Names(externals);
      nestedCopies := [];
    }

    ghost function Room(): nat
      reads this
    {
      |Universe(world) - allDeps|
    }

    method AddDeps(pkg: string)
      requires pkg in allDeps
      modifies this
      ensures old(allDeps) <= allDeps
      ensures Grew(world, old(allDeps), allDeps, Needs(world, pkg)) && Needs(world, pkg) <= allDeps
      ensures CopiesGrew(world, old(nestedCopies), nestedCopies, {pkg} + (allDeps - old(allDeps)))
      decreases Room(), 2
    {
      hide Names, NestedNames, ForestNames, Universe, Grew, CopiesGrew, CopiesPart, Needs, CopiesOf;
      NeedsInUniverse(world, pkg);
      NeedsParts(world, pkg);
      NothingYet(world, allDeps, nestedCopies, Needs(world, pkg));
      CopiesStart(world, nestedCopies, nestedCopies, allDeps - allDeps, pkg);
      if pkg !in world.manifests {
        CopiesEnd(world, nestedCopies, nestedCopies, allDeps - allDeps, pkg);
        return;
      }
      ghost var needs := Needs(world, pkg);
      AddAll(world.manifests[pkg]);
      GrewMore(world, old(allDeps), allDeps, Names(world.manifests[pkg]) - world.blocked, needs);
      CopiesStart(world, old(nestedCopies), nestedCopies, allDeps - old(allDeps), pkg);
      var ts := NestedUnder(world, pkg);
      ForestAt(ts, 0);
      for i := 0 to |ts|
        invariant Grew(world, old(allDeps), allDeps, needs)
        invariant old(allDeps) <= allDeps && Room() <= old(Room())
        invariant Names(world.manifests[pkg]) - world.blocked <= allDeps
        invariant ForestNames(ts[..i]) - world.blocked <= allDeps
        invariant CopiesPart(world, old(nestedCopies), nestedCopies, allDeps - old(allDeps), pkg, i)
      {
        ForestAt(ts, i);
        ghost var before, copies := allDeps, nestedCopies;
        nestedCopies := nestedCopies + [Copy(pkg, ts[i].name)];
        CopyAt(world, pkg, i);
        AddNestedDeps(ts[i]);
        PushStep(world, old(allDeps), before, allDeps, needs, NestedNames(ts[i]) - world.blocked,
          old(nestedCopies), copies, nestedCopies, pkg, i);
      }
      ForestAt(ts, |ts|);
      CopiesEnd(world, old(nestedCopies), nestedCopies, allDeps - old(allDeps), pkg);
    }

    // The loop both walks share: add and follow each dependency not seen or blocked.
    method AddAll(deps: seq<string>)
      requires Names(deps) - world.blocked <= Universe(world)
      modifies this
      ensures old(allDeps) <= allDeps && Room() <= old(Room())
      ensures Grew(world, old(allDeps), allDeps, Names(deps) - world.blocked) && Names(deps) - world.blocked <= allDeps
      ensures CopiesGrew(world, old(nestedCopies), nestedCopies, allDeps - old(allDeps))
      decreases Room(), 0
    {
      hide NestedNames, ForestNames, Universe, Grew, CopiesGrew, Needs, CopiesOf;
      ghost var needs := Names(deps) - world.blocked;
      NothingYet(world, allDeps, nestedCopies, needs);
      for i := 0 to |deps|
        invariant Grew(world, old(allDeps), allDeps, needs)
        invariant old(allDeps) <= allDeps && Room() <= old(Room())
        invariant Names(deps[..i]) - world.blocked <= allDeps
        invariant CopiesGrew(world, old(nestedCopies), nestedCopies, allDeps - old(allDeps))
      {
        var dep := deps[i];
        assert Names(deps[..i + 1]) == Names(deps[..i]) + {dep};
        if dep !in allDeps && dep !in world.blocked {
          ghost var before, copies := allDeps, nestedCopies;
          allDeps := allDeps + {dep};
          FewerLeft(Universe(world), before, allDeps);
          ghost var entered := allDeps;
          AddDeps(dep);
          FewerLeft(Universe(world), entered, allDeps);
          FollowStep(world, old(allDeps), before, allDeps, dep, needs, old(nestedCopies), copies, nestedCopies);
        }
      }
      assert deps[..|deps|] == deps;
    }

    method AddNestedDeps(t: Nested)
      requires NestedNames(t) - world.blocked <= Universe(world)
      modifies this
      ensures old(allDeps) <= allDeps && Room() <= old(Room())
      ensures Grew(world, old(allDeps), allDeps, NestedNames(t) - world.blocked)
        && NestedNames(t) - world.blocked <= allDeps
      ensures CopiesGrew(world, old(nestedCopies), nestedCopies, allDeps - old(allDeps))
      decreases Room(), 1, t
    {
      hide Names, ForestNames, Universe, Grew, CopiesGrew, Needs, CopiesOf;
      ghost var needs := NestedNames(t) - world.blocked;
      NothingYet(world, allDeps, nestedCopies, needs);
      if t.manifest.None? {
        return;
      }
      AddAll(t.manifest.value);
      GrewMore(world, old(allDeps), allDeps, Names(t.manifest.value) - world.blocked, needs);
      ForestAt(t.inner, 0);
      for i := 0 to |t.inner|
        invariant Grew(world, old(allDeps), allDeps, needs)
        invariant old(allDeps) <= allDeps && Room() <= old(Room())
        invariant Names(t.manifest.value) - world.blocked <= allDeps
        invariant ForestNames(t.inner[..i]) - world.blocked <= allDeps
        invariant CopiesGrew(world, old(nestedCopies), nestedCopies, allDeps - old(allDeps))
      {
        ForestAt(t.inner, i);
        ghost var before, copies := allDeps, nestedCopies;
        AddNestedDeps(t.inner[i]);
        JoinStep(world, old(allDeps), before, allDeps, needs, NestedNames(t.inner[i]) - world.blocked,
          old(nestedCopies), copies, nestedCopies);
      }
      ForestAt(t.inner, |t.inner|);
    }
  }

  lemma CopyAt(w: World, pkg: string, i: nat)
    requires i < |NestedUnder(w, pkg)|
    ensures CopiesOf(w, pkg)[i] == Copy(pkg, NestedUnder(w, pkg)[i].name)
  {
  }

  // The set the script ends with: the least one that has the externals and, with
  // each package, all it needs; on every dependency graph, cycles included. And
  // each nested copy under a collected package is listed, as often as it occurs.
  method Collect(w: World, externals: seq<string>) returns (allDeps: set<string>, nestedCopies: seq<Copy>)
    ensures Least(w, Names(externals), allDeps)
    ensures Distinct(externals) ==> CopiesGrew(w, [], nestedCopies, allDeps)
  {
    hide Needs, Grew, CopiesGrew;
    var c := new Collector(w, externals);
    ghost var start := Names(externals);
    NothingYet(w, start, [], start);
    ghost var visited: set<string> := {};
    assert visited + (start - start) == start - start;
    for i := 0 to |externals|
      invariant c.world == w && start <= c.allDeps
      invariant Grew(w, start, c.allDeps, start)
      invariant visited == Names(externals[..i]) && ClosedOver(w, visited, c.allDeps)
      invariant Distinct(externals) ==> CopiesGrew(w, [], c.nestedCopies, visited + (c.allDeps - start))
    {
      ghost var before, copies, pkg := c.allDeps, c.nestedCopies, externals[i];
      c.AddDeps(externals[i]);
      GrewExternal(w, start, before, c.allDeps, pkg);
      if Distinct(externals) {
        NewName(externals, i);
        CopiesGrewTwice(w, [], copies, c.nestedCopies, visited + (before - start), {pkg} + (c.allDeps - before));
        assert visited + (before - start) + ({pkg} + (c.allDeps - before)) == visited + {pkg} + (c.allDeps - start);
      }
      visited := visited + {pkg};
      assert Names(externals[..i + 1]) == Names(externals[..i]) + {pkg};
    }
    assert externals[..|externals|] == externals;
    allDeps, nestedCopies := c.allDeps, c.nestedCopies;
    GrewLeast(w, start, allDeps);
    assert start + (allDeps - start) == allDeps;
  }

  lemma NewName(names: seq<string>, i: nat)
    requires i < |names| && Distinct(names)
    ensures names[i] !in Names(names[..i])
  {
  }

  lemma GrewExternal(w: World, start: set<string>, b: set<string>, c: set<string>, pkg: string)
    requires Grew(w, start, b, start) && pkg in start && Grew(w, b, c, Needs(w, pkg))
    ensures Grew(w, start, c, start)
  {
    GrewTwice(w, start, b, c, start, Needs(w, pkg));
    forall s: set<string> | start <= s && Closed(w, s) ensures c - start <= s {
      assert Needs(w, pkg) <= s;
    }
  }

  lemma GrewLeast(w: World, start: set<string>, s: set<string>)
    requires Grew(w, start, s, start) && ClosedOver(w, start, s)
    ensures Least(w, start, s)
  {
    forall pkg | pkg in s ensures Needs(w, pkg) <= s {
      assert pkg in start || pkg in s - start;
    }
    forall c: set<string> | start <= c && Closed(w, c) ensures s <= c {
      assert s - start <= c;
    }
  }
}
