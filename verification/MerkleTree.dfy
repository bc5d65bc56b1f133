// A binary hash tree over a padded list of leaves: building it level by level,
// the sibling path of a leaf, and folding a path back to the root.
module MerkleTree {
  import opened Basics

  function Pow2(d: nat): (p: nat)
    ensures p > 0
  {
    if d == 0 then 1 else 2 * Pow2(d - 1)
  }

  // The depth of the least full tree with room for n leaves.
  function DepthFrom(d: nat, n: nat): (r: nat)
    ensures n <= Pow2(r) && d <= r
    decreases n - Pow2(d)
  {
    if n <= Pow2(d) then d else DepthFrom(d + 1, n)
  }

  function Depth(n: nat): (d: nat)
    ensures n <= Pow2(d)
  {
    DepthFrom(0, n)
  }

  lemma {:induction false} DepthFromLeast(d: nat, n: nat)
    requires d > 0 ==> Pow2(d - 1) < n
    ensures DepthFrom(d, n) > 0 ==> Pow2(DepthFrom(d, n) - 1) < n
    decreases n - Pow2(d)
  {
    if n > Pow2(d) {
      DepthFromLeast(d + 1, n);
    }
  }

  // The tree is the least full one with room for its leaves.
  lemma DepthIsLeast(n: nat)
    ensures n <= Pow2(Depth(n)) && (Depth(n) > 0 ==> Pow2(Depth(n) - 1) < n)
  {
    DepthFromLeast(0, n);
  }

  lemma SmallDepth(n: nat)
    requires n <= 16
    ensures Depth(n) <= 4
  {
    assert Pow2(0) == 1 && Pow2(1) == 2 && Pow2(2) == 4 && Pow2(3) == 8 && Pow2(4) == 16;
    assert DepthFrom(4, n) == 4;
    assert DepthFrom(3, n) <= 4;
    assert DepthFrom(2, n) <= 4;
    assert DepthFrom(1, n) <= 4;
  }

  // Leaves repeated at the end up to the tree's width.
  function Padded<D>(leaves: seq<D>): (r: seq<D>)
    requires leaves != []
    ensures |r| == Pow2(Depth(|leaves|))
    ensures forall i :: 0 <= i < |r| ==> r[i] == leaves[if i < |leaves| then i else |leaves| - 1]
  {
    seq(Pow2(Depth(|leaves|)), i requires 0 <= i < Pow2(Depth(|leaves|)) =>
      leaves[if i < |leaves| then i else |leaves| - 1])
  }

  function Next<D>(join: (D, D) -> D, level: seq<D>): (r: seq<D>)
    requires |level| % 2 == 0
    ensures |r| == |level| / 2
  {
    seq(|level| / 2, i requires 0 <= i < |level| / 2 => join(level[2 * i], level[2 * i + 1]))
  }

  // The k-th level above the leaves.
  function LevelAt<D>(join: (D, D) -> D, level: seq<D>, d: nat, k: nat): (r: seq<D>)
    requires |level| == Pow2(d) && k <= d
    ensures |r| == Pow2(d - k)
    decreases d
  {
    if k == 0 then level else LevelAt(join, Next(join, level), d - 1, k - 1)
  }

  function Levels<D>(join: (D, D) -> D, level: seq<D>, d: nat): (r: seq<seq<D>>)
    requires |level| == Pow2(d)
    ensures |r| == d + 1 && forall k :: 0 <= k <= d ==> r[k] == LevelAt(join, level, d, k)
  {
    seq(d + 1, k requires 0 <= k <= d => LevelAt(join, level, d, k))
  }

  function Root<D>(join: (D, D) -> D, level: seq<D>, d: nat): D
    requires |level| == Pow2(d)
    decreases d
  {
    if d == 0 then level[0] else Root(join, Next(join, level), d - 1)
  }

  // cursor ^ 1.
  function Sibling(cursor: nat): nat {
    if cursor % 2 == 0 then cursor + 1 else cursor - 1
  }

  // The siblings on the way from leaf index up to the root.
  function Path<D>(join: (D, D) -> D, level: seq<D>, d: nat, index: nat): (r: seq<D>)
    requires |level| == Pow2(d) && index < |level|
    ensures |r| == d
    decreases d
  {
    if d == 0 then []
    else [level[Sibling(index)]] + Path(join, Next(join, level), d - 1, index / 2)
  }

  // What a verifier computes: at each step the low bit of the index says on
  // which side the sibling goes.
  function Fold<D>(join: (D, D) -> D, node: D, index: nat, path: seq<D>): D {
    if path == [] then node
    else Fold(join, if index % 2 == 0 then join(node, path[0]) else join(path[0], node), index / 2, path[1..])
  }

  // ---- The source's loops ----

  method Widen<D>(leaves: seq<D>) returns (first: seq<D>)
    requires leaves != []
    ensures first == Padded(leaves)
  {
    var width := 1;
    ghost var d := 0;
    while width < |leaves|
      invariant width == Pow2(d)
      invariant DepthFrom(d, |leaves|) == Depth(|leaves|)
      decreases |leaves| - width
    {
      width := 2 * width;
      d := d + 1;
    }
    first := leaves;
    while |first| < width
      invariant |leaves| <= |first| <= width
      invariant first == Padded(leaves)[..|first|]
    {
      first := first + [Last(first)];
    }
  }

  method PairUp<D>(join: (D, D) -> D, current: seq<D>) returns (next: seq<D>)
    requires |current| % 2 == 0
    ensures next == Next(join, current)
  {
    next := [];
    var i := 0;
    while i < |current|
      invariant 0 <= i <= |current| && i % 2 == 0
      invariant next == Next(join, current)[..i / 2]
    {
      next := next + [join(current[i], current[i + 1])];
      i := i + 2;
    }
  }

  method BuildTree<D>(join: (D, D) -> D, leaves: seq<D>) returns (levels: seq<seq<D>>)
    requires leaves != []
    ensures levels == Levels(join, Padded(leaves), Depth(|leaves|))
  {
    hide Next, Depth, Padded;
    var first := Widen(leaves);
    ghost var d := Depth(|leaves|);
    levels := [first];
    var current := first;
    ghost var k := 0;
    while |current| > 1
      invariant k <= d && |levels| == k + 1
      invariant forall i :: 0 <= i <= k ==> levels[i] == LevelAt(join, first, d, i)
      invariant current == LevelAt(join, first, d, k)
      decreases d - k
    {
      LevelAbove(join, first, d, k);
      current := PairUp(join, current);
      levels := levels + [current];
      k := k + 1;
    }
  }

  method CollectSiblings<D>(join: (D, D) -> D, ghost first: seq<D>, levels: seq<seq<D>>, index: nat)
      returns (siblings: seq<D>)
    requires levels != [] && |first| == Pow2(|levels| - 1) && levels == Levels(join, first, |levels| - 1)
    requires index < |first|
    ensures siblings == Path(join, first, |levels| - 1, index)
  {
    hide Next, Path;
    siblings := [];
    var cursor: nat := index;
    var d := |levels| - 1;
    var level: nat := 0;
    while level < d
      invariant level <= d && |levels[level]| == Pow2(d - level) && cursor < |levels[level]|
      invariant siblings + Path(join, levels[level], d - level, cursor) == Path(join, first, d, index)
    {
      SiblingStep(join, first, levels, level, cursor, siblings);
      siblings := siblings + [levels[level][Sibling(cursor)]];
      cursor := cursor / 2;
      level := level + 1;
    }
  }

  lemma SiblingStep<D>(join: (D, D) -> D, first: seq<D>, levels: seq<seq<D>>, level: nat, cursor: nat, siblings: seq<D>)
    requires level + 1 < |levels| && |first| == Pow2(|levels| - 1) && levels == Levels(join, first, |levels| - 1)
    requires |levels[level]| == Pow2(|levels| - 1 - level) && cursor < |levels[level]|
    ensures |levels[level + 1]| == Pow2(|levels| - 2 - level) && cursor / 2 < |levels[level + 1]|
      && Sibling(cursor) < |levels[level]|
    ensures siblings + Path(join, levels[level], |levels| - 1 - level, cursor)
      == (siblings + [levels[level][Sibling(cursor)]]) + Path(join, levels[level + 1], |levels| - 2 - level, cursor / 2)
  {
    hide Next;
    hide Levels;
    LevelAbove(join, first, |levels| - 1, level);
    PathStep(join, levels[level], |levels| - 1 - level, cursor);
    hide Path;
  }

  lemma {:induction false} LevelAbove<D>(join: (D, D) -> D, level: seq<D>, d: nat, k: nat)
    requires |level| == Pow2(d) && k < d
    ensures |LevelAt(join, level, d, k)| % 2 == 0
    ensures LevelAt(join, level, d, k + 1) == Next(join, LevelAt(join, level, d, k))
    decreases d
  {
    hide Next;
    if k > 0 {
      LevelAbove(join, Next(join, level), d - 1, k - 1);
    }
  }

  // ---- Proofs ----

  lemma {:induction false} RootIsTop<D>(join: (D, D) -> D, level: seq<D>, d: nat)
    requires |level| == Pow2(d)
    ensures LevelAt(join, level, d, d)[0] == Root(join, level, d)
    decreases d
  {
    hide Next;
    if d > 0 {
      RootIsTop(join, Next(join, level), d - 1);
    }
  }

  lemma PathStep<D>(join: (D, D) -> D, level: seq<D>, d: nat, index: nat)
    requires d > 0 && |level| == Pow2(d) && index < |level|
    ensures |Next(join, level)| == Pow2(d - 1) && index / 2 < Pow2(d - 1) && Sibling(index) < |level|
    ensures Path(join, level, d, index) == [level[Sibling(index)]] + Path(join, Next(join, level), d - 1, index / 2)
  {
    hide Next;
  }

  lemma RootStep<D>(join: (D, D) -> D, level: seq<D>, d: nat)
    requires d > 0 && |level| == Pow2(d)
    ensures Root(join, level, d) == Root(join, Next(join, level), d - 1)
  {
    hide Next;
  }

  lemma NextAt<D>(join: (D, D) -> D, level: seq<D>, index: nat)
    requires |level| % 2 == 0 && index < |level|
    ensures Sibling(index) < |level| && index / 2 < |Next(join, level)|
    ensures Next(join, level)[index / 2]
      == if index % 2 == 0 then join(level[index], level[Sibling(index)]) else join(level[Sibling(index)], level[index])
  {
    var k := index / 2;
    assert index == if index % 2 == 0 then 2 * k else 2 * k + 1;
  }

  // Folding a leaf's own path gives the root.
  lemma {:induction false} PathFolds<D>(join: (D, D) -> D, level: seq<D>, d: nat, index: nat)
    requires |level| == Pow2(d) && index < |level|
    ensures Fold(join, level[index], index, Path(join, level, d, index)) == Root(join, level, d)
    decreases d
  {
    hide Next;
    if d > 0 {
      PathStep(join, level, d, index);
      RootStep(join, level, d);
      NextAt(join, level, index);
      hide Path, Root, Fold;
      var above, half := Next(join, level), index / 2;
      PathFolds(join, above, d - 1, half);
      FoldStep(join, level[index], index, level[Sibling(index)], Path(join, above, d - 1, half));
    }
  }

  lemma FoldStep<D>(join: (D, D) -> D, node: D, index: nat, sibling: D, path: seq<D>)
    ensures Fold(join, node, index, [sibling] + path)
      == Fold(join, if index % 2 == 0 then join(node, sibling) else join(sibling, node), index / 2, path)
  {
    assert ([sibling] + path)[1..] == path;
  }

  // Two different pairs that join to the same node.
  datatype Clash<D> = Clash(left: D, right: D, left': D, right': D)

  ghost predicate IsClash<D>(join: (D, D) -> D, c: Clash<D>) {
    join(c.left, c.right) == join(c.left', c.right') && (c.left != c.left' || c.right != c.right')
  }

  // Any node and path of the right length that fold to the root at some index
  // are that index's leaf and path, or else they exhibit a clash of join.
  lemma {:induction false} PathBinds<D>(join: (D, D) -> D, level: seq<D>, d: nat, index: nat, node: D, path: seq<D>)
      returns (clash: Option<Clash<D>>)
    requires |level| == Pow2(d) && index < |level| && |path| == d
    requires Fold(join, node, index, path) == Root(join, level, d)
    ensures clash.None? ==> node == level[index] && path == Path(join, level, d, index)
    ensures clash.Some? ==> IsClash(join, clash.value)
    decreases d
  {
    hide Next;
    clash := None;
    if d > 0 {
      var above, half := Next(join, level), index / 2;
      NextAt(join, level, index);
      var sibling := level[Sibling(index)];
      var up := if index % 2 == 0 then join(node, path[0]) else join(path[0], node);
      clash := PathBinds(join, above, d - 1, half, up, path[1..]);
      if clash.None? {
        var c := if index % 2 == 0 then Clash(node, path[0], level[index], sibling)
          else Clash(path[0], node, sibling, level[index]);
        if node != level[index] || path[0] != sibling {
          clash := Some(c);
        } else {
          assert path == [path[0]] + path[1..];
        }
      }
    }
  }
}
