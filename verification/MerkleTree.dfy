/**
 The sparse incremental depth-20 Merkle tree of tools/zkmsg/core/src/tree.rs,
 proved against the full tree over the zero-padded leaf sequence. The hash is
 any two-argument function; where its strength matters, a result names the two
 inputs that collide otherwise.
 */
module MerkleTree {

  const DEPTH: nat := 20

  function Pow2(n: nat): (r: nat)
    ensures r >= 1
  {
    if n == 0 then 1 else 2 * Pow2(n - 1)
  }

  function Sibling(index: nat): nat {
    if index % 2 == 0 then index + 1 else index - 1
  }

  /** The ancestor of leaf `index`, `level` levels up. */
  function Ancestor(index: nat, level: nat): nat {
    if level == 0 then index else Ancestor(index, level - 1) / 2
  }

  function LeafAt<F>(zero: F, leaves: seq<F>, index: nat): F {
    if index < |leaves| then leaves[index] else zero
  }

  /** The full tree: the hash of the subtree at (level, index) over `leaves`
      padded with zero leaves. */
  function NodeAt<F>(h: (F, F) -> F, zero: F, leaves: seq<F>, level: nat, index: nat): F {
    if level == 0 then LeafAt(zero, leaves, index)
    else h(NodeAt(h, zero, leaves, level - 1, 2 * index), NodeAt(h, zero, leaves, level - 1, 2 * index + 1))
  }

  function Root<F>(h: (F, F) -> F, zero: F, leaves: seq<F>): F {
    NodeAt(h, zero, leaves, DEPTH, 0)
  }

  function ZeroHash<F>(h: (F, F) -> F, zero: F, level: nat): F {
    if level == 0 then zero else h(ZeroHash(h, zero, level - 1), ZeroHash(h, zero, level - 1))
  }

  lemma {:induction false} EmptySubtree<F>(h: (F, F) -> F, zero: F, level: nat, index: nat)
    ensures NodeAt(h, zero, [], level, index) == ZeroHash(h, zero, level)
  {
    if level > 0 {
      EmptySubtree(h, zero, level - 1, 2 * index);
      EmptySubtree(h, zero, level - 1, 2 * index + 1);
    }
  }

  /** Appending a leaf changes no node but its ancestors. */
  lemma {:induction false} AppendElsewhere<F>(h: (F, F) -> F, zero: F, leaves: seq<F>, leaf: F, level: nat, index: nat)
    requires index != Ancestor(|leaves|, level)
    ensures NodeAt(h, zero, leaves + [leaf], level, index) == NodeAt(h, zero, leaves, level, index)
  {
    if level > 0 {
      AppendElsewhere(h, zero, leaves, leaf, level - 1, 2 * index);
      AppendElsewhere(h, zero, leaves, leaf, level - 1, 2 * index + 1);
    }
  }

  /** Hashing a node with its sibling, in index order, gives the parent. */
  lemma ParentOf<F>(h: (F, F) -> F, zero: F, leaves: seq<F>, level: nat, index: nat)
    ensures var c, s := NodeAt(h, zero, leaves, level, index), NodeAt(h, zero, leaves, level, Sibling(index));
            NodeAt(h, zero, leaves, level + 1, index / 2) == if index % 2 == 0 then h(c, s) else h(s, c)
  {
    if index % 2 == 0 {
      assert 2 * (index / 2) == index;
    } else {
      assert 2 * (index / 2) + 1 == index;
    }
  }

  // --- paths ------------------------------------------------------------------

  /** The siblings from `level` up for the node at `index` there. */
  function PathFrom<F>(h: (F, F) -> F, zero: F, leaves: seq<F>, level: nat, index: nat): (p: seq<F>)
    requires level <= DEPTH
    ensures |p| == DEPTH - level
    decreases DEPTH - level
  {
    if level == DEPTH then []
    else [NodeAt(h, zero, leaves, level, Sibling(index))] + PathFrom(h, zero, leaves, level + 1, index / 2)
  }

  /** `fold_path`, as a function. */
  function Fold<F>(h: (F, F) -> F, leaf: F, index: nat, path: seq<F>): F
    decreases path
  {
    if path == [] then leaf
    else Fold(h, if index % 2 == 0 then h(leaf, path[0]) else h(path[0], leaf), index / 2, path[1..])
  }

  method FoldPath<F>(h: (F, F) -> F, leaf: F, leafIndex: nat, path: seq<F>) returns (current: F)
    requires |path| == DEPTH
    ensures current == Fold(h, leaf, leafIndex, path)
  {
    current := leaf;
    var index := leafIndex;
    var i := 0;
    while i < |path|
      invariant 0 <= i <= |path|
      invariant Fold(h, current, index, path[i..]) == Fold(h, leaf, leafIndex, path)
    {
      assert path[i..][1..] == path[i + 1..];
      current := if index % 2 == 0 then h(current, path[i]) else h(path[i], current);
      index := index / 2;
      i := i + 1;
    }
  }

  lemma {:induction false} FoldFrom<F>(h: (F, F) -> F, zero: F, leaves: seq<F>, level: nat, index: nat)
    requires level <= DEPTH && index < Pow2(DEPTH - level)
    ensures Fold(h, NodeAt(h, zero, leaves, level, index), index, PathFrom(h, zero, leaves, level, index)) == Root(h, zero, leaves)
    decreases DEPTH - level
  {
    if level < DEPTH {
      ParentOf(h, zero, leaves, level, index);
      FoldFrom(h, zero, leaves, level + 1, index / 2);
    }
  }

  /** The path of every position, filled or not, folds to the root. */
  lemma PathFolds<F>(h: (F, F) -> F, zero: F, leaves: seq<F>, index: nat)
    requires index < Pow2(DEPTH)
    ensures Fold(h, LeafAt(zero, leaves, index), index, PathFrom(h, zero, leaves, 0, index)) == Root(h, zero, leaves)
  {
    FoldFrom(h, zero, leaves, 0, index);
  }

  // --- what a root binds -----------------------------------------------------------

  /** Two different inputs with one hash. */
  predicate Collision<F(==)>(h: (F, F) -> F, p: (F, F), q: (F, F)) {
    p != q && h(p.0, p.1) == h(q.0, q.1)
  }

  /** No two inputs have one hash; of a hash that shrinks its input this is only an
      idealization, so the results below name the inputs that collide instead. */
  ghost predicate Injective<F(!new)>(h: (F, F) -> F) {
    forall a, b, c, d :: h(a, b) == h(c, d) ==> a == c && b == d
  }

  /** What the parent at (level + 1, index) hashes. */
  function Children<F>(h: (F, F) -> F, zero: F, leaves: seq<F>, level: nat, index: nat): (F, F) {
    (NodeAt(h, zero, leaves, level, 2 * index), NodeAt(h, zero, leaves, level, 2 * index + 1))
  }

  /** The inputs of the hashes from `level` up to the root. */
  function Genuine<F>(h: (F, F) -> F, zero: F, leaves: seq<F>, level: nat, index: nat): (r: seq<(F, F)>)
    requires level <= DEPTH
    ensures |r| == DEPTH - level
    decreases DEPTH - level
  {
    if level == DEPTH then []
    else [Children(h, zero, leaves, level, index / 2)] + Genuine(h, zero, leaves, level + 1, index / 2)
  }

  /** The inputs of the hashes a fold computes. */
  function Hashed<F>(h: (F, F) -> F, node: F, index: nat, path: seq<F>): (r: seq<(F, F)>)
    ensures |r| == |path|
    decreases path
  {
    if path == [] then []
    else
      var p := if index % 2 == 0 then (node, path[0]) else (path[0], node);
      [p] + Hashed(h, h(p.0, p.1), index / 2, path[1..])
  }

  /** At some place the two rows' inputs collide. */
  ghost predicate SomeCollision<F>(h: (F, F) -> F, ps: seq<(F, F)>, qs: seq<(F, F)>) {
    exists l :: 0 <= l < |ps| && l < |qs| && Collision(h, ps[l], qs[l])
  }

  lemma CollisionLater<F>(h: (F, F) -> F, ps: seq<(F, F)>, qs: seq<(F, F)>)
    requires ps != [] && qs != [] && SomeCollision(h, ps[1..], qs[1..])
    ensures SomeCollision(h, ps, qs)
  {
    var l :| 0 <= l < |ps[1..]| && l < |qs[1..]| && Collision(h, ps[1..][l], qs[1..][l]);
    assert Collision(h, ps[l + 1], qs[l + 1]);
  }

  lemma SameNeverCollide<F>(h: (F, F) -> F, ps: seq<(F, F)>)
    ensures !SomeCollision(h, ps, ps)
  {
  }

  lemma InjectiveNeverCollides<F(!new)>(h: (F, F) -> F, ps: seq<(F, F)>, qs: seq<(F, F)>)
    requires Injective(h)
    ensures !SomeCollision(h, ps, qs)
  {
  }

  lemma {:induction false} FoldBindsFrom<F>(h: (F, F) -> F, zero: F, leaves: seq<F>, level: nat, index: nat, node: F, path: seq<F>)
    requires level <= DEPTH && index < Pow2(DEPTH - level) && |path| == DEPTH - level
    requires Fold(h, node, index, path) == Root(h, zero, leaves)
    ensures (node == NodeAt(h, zero, leaves, level, index) && path == PathFrom(h, zero, leaves, level, index))
            || SomeCollision(h, Hashed(h, node, index, path), Genuine(h, zero, leaves, level, index))
    decreases DEPTH - level
  {
    hide NodeAt, SomeCollision;
    if level < DEPTH {
      ParentOf(h, zero, leaves, level, index);
      var p, q := if index % 2 == 0 then (node, path[0]) else (path[0], node), Children(h, zero, leaves, level, index / 2);
      var ps, qs := Hashed(h, node, index, path), Genuine(h, zero, leaves, level, index);
      FoldBindsFrom(h, zero, leaves, level + 1, index / 2, h(p.0, p.1), path[1..]);
      assert ps[1..] == Hashed(h, h(p.0, p.1), index / 2, path[1..]) && qs[1..] == Genuine(h, zero, leaves, level + 1, index / 2);
      if SomeCollision(h, ps[1..], qs[1..]) {
        CollisionLater(h, ps, qs);
      } else {
        FirstRung(h, zero, leaves, level, index, node, path, p, q);
        CollisionFirst(h, ps, qs);
        assert path == [path[0]] + path[1..];
      }
    }
  }

  lemma CollisionFirst<F>(h: (F, F) -> F, ps: seq<(F, F)>, qs: seq<(F, F)>)
    requires ps != [] && qs != []
    ensures Collision(h, ps[0], qs[0]) ==> SomeCollision(h, ps, qs)
  {
  }

  /** The lowest hash of a fold whose parent is genuine: its inputs are, or collide. */
  lemma FirstRung<F>(h: (F, F) -> F, zero: F, leaves: seq<F>, level: nat, index: nat, node: F, path: seq<F>, p: (F, F), q: (F, F))
    requires path != [] && p == if index % 2 == 0 then (node, path[0]) else (path[0], node)
    requires q == Children(h, zero, leaves, level, index / 2) && h(p.0, p.1) == NodeAt(h, zero, leaves, level + 1, index / 2)
    ensures Collision(h, p, q)
            || (node == NodeAt(h, zero, leaves, level, index) && path[0] == NodeAt(h, zero, leaves, level, Sibling(index)))
  {
    if index % 2 == 0 {
      assert 2 * (index / 2) == index;
    } else {
      assert 2 * (index / 2) + 1 == index;
    }
  }

  /** The genuine path hashes the genuine inputs. */
  lemma {:induction false} HashedGenuine<F>(h: (F, F) -> F, zero: F, leaves: seq<F>, level: nat, index: nat)
    requires level <= DEPTH
    ensures Hashed(h, NodeAt(h, zero, leaves, level, index), index, PathFrom(h, zero, leaves, level, index))
            == Genuine(h, zero, leaves, level, index)
    decreases DEPTH - level
  {
    if level < DEPTH {
      ParentOf(h, zero, leaves, level, index);
      HashedGenuine(h, zero, leaves, level + 1, index / 2);
      if index % 2 == 0 {
        assert 2 * (index / 2) == index;
      } else {
        assert 2 * (index / 2) + 1 == index;
      }
    }
  }

  /** A path that folds to the root is the genuine one from the genuine leaf, if and
      only if none of the inputs it hashes collides with the genuine one of its
      level: a forger has such a collision in hand. */
  lemma FoldBinds<F>(h: (F, F) -> F, zero: F, leaves: seq<F>, index: nat, leaf: F, path: seq<F>)
    requires index < Pow2(DEPTH) && |path| == DEPTH
    requires Fold(h, leaf, index, path) == Root(h, zero, leaves)
    ensures (leaf == LeafAt(zero, leaves, index) && path == PathFrom(h, zero, leaves, 0, index))
            <==> !SomeCollision(h, Hashed(h, leaf, index, path), Genuine(h, zero, leaves, 0, index))
  {
    hide Hashed, Genuine, Fold, PathFrom, SomeCollision;
    FoldBindsFrom(h, zero, leaves, 0, index, leaf, path);
    HashedGenuine(h, zero, leaves, 0, index);
    SameNeverCollide(h, Genuine(h, zero, leaves, 0, index));
  }

  /** Equal roots of two trees mean equal leaves and siblings at every position,
      if and only if no two inputs on the way up from it collide. */
  lemma RootBinds<F>(h: (F, F) -> F, zero: F, a: seq<F>, b: seq<F>, leaf: nat)
    requires Root(h, zero, a) == Root(h, zero, b) && leaf < Pow2(DEPTH)
    ensures (LeafAt(zero, a, leaf) == LeafAt(zero, b, leaf) && PathFrom(h, zero, a, 0, leaf) == PathFrom(h, zero, b, 0, leaf))
            <==> !SomeCollision(h, Genuine(h, zero, a, 0, leaf), Genuine(h, zero, b, 0, leaf))
  {
    hide Hashed, Genuine, Fold, PathFrom, SomeCollision, Root;
    PathFolds(h, zero, a, leaf);
    FoldBinds(h, zero, b, leaf, LeafAt(zero, a, leaf), PathFrom(h, zero, a, 0, leaf));
    HashedGenuine(h, zero, a, 0, leaf);
  }

  /** For an injective hash a root has one path for each position, and one leaf. */
  lemma InjectiveBinds<F(!new)>(h: (F, F) -> F, zero: F, leaves: seq<F>, index: nat, leaf: F, path: seq<F>)
    requires Injective(h) && index < Pow2(DEPTH) && |path| == DEPTH
    ensures Fold(h, leaf, index, path) == Root(h, zero, leaves)
            <==> leaf == LeafAt(zero, leaves, index) && path == PathFrom(h, zero, leaves, 0, index)
  {
    hide Hashed, Genuine, Fold, PathFrom, SomeCollision, Root, Injective;
    InjectiveNeverCollides(h, Hashed(h, leaf, index, path), Genuine(h, zero, leaves, 0, index));
    PathFolds(h, zero, leaves, index);
    if Fold(h, leaf, index, path) == Root(h, zero, leaves) {
      FoldBinds(h, zero, leaves, index, leaf, path);
    }
  }

  // --- the sparse tree -----------------------------------------------------------------

  /** A stored node, or the zero hash of its level. */
  function Get<F>(nodes: map<(nat, nat), F>, zeros: seq<F>, level: nat, index: nat): F
    requires level < |zeros|
  {
    if (level, index) in nodes then nodes[(level, index)] else zeros[level]
  }

  /** Levels lo..hi-1 hold the nodes of the full tree over `leaves`. */
  ghost predicate Holds<F>(h: (F, F) -> F, nodes: map<(nat, nat), F>, zeros: seq<F>, leaves: seq<F>, lo: nat, hi: nat)
    requires 0 < |zeros| && hi <= |zeros|
  {
    forall l, i: nat :: lo <= l < hi ==> Get(nodes, zeros, l, i) == NodeAt(h, zeros[0], leaves, l, i)
  }

  /** Storing the new ancestor completes its level. */
  lemma LevelDone<F>(h: (F, F) -> F, nodes: map<(nat, nat), F>, zeros: seq<F>, before: seq<F>, leaf: F, level: nat)
    requires level < |zeros| && Holds(h, nodes, zeros, before, level, |zeros|)
    requires Holds(h, nodes, zeros, before + [leaf], 0, level)
    ensures var index := Ancestor(|before|, level);
            var stored := nodes[(level, index) := NodeAt(h, zeros[0], before + [leaf], level, index)];
            && Holds(h, stored, zeros, before + [leaf], 0, level + 1)
            && Holds(h, stored, zeros, before, level + 1, |zeros|)
  {
    var index := Ancestor(|before|, level);
    var stored := nodes[(level, index) := NodeAt(h, zeros[0], before + [leaf], level, index)];
    assert forall l: nat, i: nat :: l < |zeros| && (l, i) != (level, index) ==> Get(stored, zeros, l, i) == Get(nodes, zeros, l, i);
    forall l, i: nat | 0 <= l < level + 1
      ensures Get(stored, zeros, l, i) == NodeAt(h, zeros[0], before + [leaf], l, i)
    {
      if l == level && i != index {
        AppendElsewhere(h, zeros[0], before, leaf, level, i);
      }
    }
  }

  /** The walk of an insertion having reached `level`: the levels up to it hold
      the tree with the new leaf, those above still the tree without it. */
  ghost predicate Climbed<F>(h: (F, F) -> F, nodes: map<(nat, nat), F>, zeros: seq<F>, before: seq<F>, leaf: F,
                             level: nat, index: nat, current: F)
  {
    && |zeros| == DEPTH + 1 && level <= DEPTH
    && index == Ancestor(|before|, level)
    && current == NodeAt(h, zeros[0], before + [leaf], level, index)
    && Holds(h, nodes, zeros, before + [leaf], 0, level + 1)
    && Holds(h, nodes, zeros, before, level + 1, DEPTH + 1)
  }

  lemma ClimbStart<F>(h: (F, F) -> F, nodes: map<(nat, nat), F>, zeros: seq<F>, before: seq<F>, leaf: F)
    requires |zeros| == DEPTH + 1 && Holds(h, nodes, zeros, before, 0, DEPTH + 1)
    ensures Climbed(h, nodes[(0, |before|) := leaf], zeros, before, leaf, 0, |before|, leaf)
  {
    assert Ancestor(|before|, 0) == |before| && (before + [leaf])[|before|] == leaf;
    LevelDone(h, nodes, zeros, before, leaf, 0);
  }

  lemma ClimbStep<F>(h: (F, F) -> F, nodes: map<(nat, nat), F>, zeros: seq<F>, before: seq<F>, leaf: F,
                     level: nat, index: nat, current: F)
    requires level < DEPTH && Climbed(h, nodes, zeros, before, leaf, level, index, current)
    ensures var sibling := Get(nodes, zeros, level, Sibling(index));
            var up := if index % 2 == 0 then h(current, sibling) else h(sibling, current);
            Climbed(h, nodes[(level + 1, index / 2) := up], zeros, before, leaf, level + 1, index / 2, up)
  {
    var after := before + [leaf];
    assert Get(nodes, zeros, level, Sibling(index)) == NodeAt(h, zeros[0], after, level, Sibling(index));
    ParentOf(h, zeros[0], after, level, index);
    LevelDone(h, nodes, zeros, before, leaf, level + 1);
  }

  lemma ClimbEnds<F>(h: (F, F) -> F, nodes: map<(nat, nat), F>, zeros: seq<F>, before: seq<F>, leaf: F,
                     index: nat, current: F)
    requires Climbed(h, nodes, zeros, before, leaf, DEPTH, index, current)
    ensures |zeros| == DEPTH + 1 && Holds(h, nodes, zeros, before + [leaf], 0, DEPTH + 1)
  {
  }

  lemma HeldNode<F>(h: (F, F) -> F, nodes: map<(nat, nat), F>, zeros: seq<F>, leaves: seq<F>, level: nat, index: nat)
    requires |zeros| == DEPTH + 1 && Holds(h, nodes, zeros, leaves, 0, DEPTH + 1) && level <= DEPTH
    ensures Get(nodes, zeros, level, index) == NodeAt(h, zeros[0], leaves, level, index)
  {
  }

  lemma PathDone<F>(h: (F, F) -> F, zero: F, leaves: seq<F>, index: nat, path: seq<F>)
    ensures path + PathFrom(h, zero, leaves, DEPTH, index) == path
  {
  }

  lemma PathNext<F>(h: (F, F) -> F, zero: F, leaves: seq<F>, level: nat, index: nat, path: seq<F>)
    requires level < DEPTH
    ensures path + PathFrom(h, zero, leaves, level, index)
            == (path + [NodeAt(h, zero, leaves, level, Sibling(index))]) + PathFrom(h, zero, leaves, level + 1, index / 2)
  {
  }

  class MerkleTree<F> {
    const hash: (F, F) -> F
    const zeros: seq<F>
    var nodes: map<(nat, nat), F>
    var nextLeaf: nat
    ghost var leaves: seq<F>

    ghost predicate Valid()
      reads this
    {
      && |zeros| == DEPTH + 1
      && nextLeaf == |leaves| <= Pow2(DEPTH)
      && Holds(hash, nodes, zeros, leaves, 0, DEPTH + 1)
    }

    constructor (hash: (F, F) -> F, zero: F)
      ensures Valid() && leaves == [] && this.hash == hash && zeros[0] == zero
    {
      var zs := [zero];
      for level := 1 to DEPTH + 1
        invariant |zs| == level && zs[0] == zero
        invariant forall l :: 0 <= l < level ==> zs[l] == ZeroHash(hash, zero, l)
      {
        zs := zs + [hash(zs[level - 1], zs[level - 1])];
      }
      this.hash := hash;
      zeros := zs;
      nodes := map[];
      nextLeaf := 0;
      leaves := [];
      new;
      forall l, i: nat | 0 <= l <= DEPTH ensures Get(nodes, zeros, l, i) == NodeAt(hash, zeros[0], leaves, l, i) {
        EmptySubtree(hash, zero, l, i);
      }
    }

    /** Inserting past 2^20 leaves is a panic of the source. */
    method Insert(leaf: F) returns (leafIndex: nat)
      requires Valid() && nextLeaf < Pow2(DEPTH)
      modifies this
      ensures Valid() && leaves == old(leaves) + [leaf] && leafIndex == |old(leaves)|
    {
      hide Climbed, Holds, NodeAt, Ancestor, Get;
      leafIndex := nextLeaf;
      ClimbStart(hash, nodes, zeros, leaves, leaf);
      nodes := nodes[(0, leafIndex) := leaf];
      var index := leafIndex;
      var current := leaf;
      for level := 0 to DEPTH
        invariant Climbed(hash, nodes, zeros, leaves, leaf, level, index, current)
        invariant nextLeaf == leafIndex && leaves == old(leaves)
      {
        ClimbStep(hash, nodes, zeros, leaves, leaf, level, index, current);
        var sibling := Get(nodes, zeros, level, Sibling(index));
        current := if index % 2 == 0 then hash(current, sibling) else hash(sibling, current);
        index := index / 2;
        nodes := nodes[(level + 1, index) := current];
      }
      ClimbEnds(hash, nodes, zeros, leaves, leaf, index, current);
      nextLeaf := leafIndex + 1;
      leaves := leaves + [leaf];
    }

    method GetRoot() returns (r: F)
      requires Valid()
      ensures r == Root(hash, zeros[0], leaves)
    {
      r := Get(nodes, zeros, DEPTH, 0);
    }

    method Path(leafIndex: nat) returns (path: seq<F>)
      requires Valid()
      ensures |path| == 20
      ensures path == PathFrom(hash, zeros[0], leaves, 0, leafIndex)
    {
      hide Holds, NodeAt, Get, PathFrom;
      path := [];
      var index := leafIndex;
      for level := 0 to DEPTH
        invariant path + PathFrom(hash, zeros[0], leaves, level, index) == PathFrom(hash, zeros[0], leaves, 0, leafIndex)
      {
        HeldNode(hash, nodes, zeros, leaves, level, Sibling(index));
        PathNext(hash, zeros[0], leaves, level, index, path);
        path := path + [Get(nodes, zeros, level, Sibling(index))];
        index := index / 2;
      }
      PathDone(hash, zeros[0], leaves, index, path);
    }
  }
}
