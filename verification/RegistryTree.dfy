/**
 The local mirror of the store's registry (tools/zkmsg/core/src/registry.rs):
 rebuilt from the registration events, in whatever order they came.
 */
module RegistryTree {

  import opened Outcomes
  import opened EventOrder
  import opened MerkleTree

  datatype Keys<F> = Keys(scanPub: F, kemDigest: F, mCommit: F)

  datatype Registration<F> = Registration(leafIndex: nat, handle: F, keys: Keys<F>)

  datatype RebuildError<F> = NotContiguous(leafIndex: nat, expected: nat) | HandleTwice(handle: F)

  function LeafIndexOf<F>(r: Registration<F>): nat { r.leafIndex }

  function HandleOf<F>(r: Registration<F>): F { r.handle }

  /** The tree's leaves, by the hash of the three keys. */
  function Leaves<F>(leaf: Keys<F> -> F, s: seq<Registration<F>>): (r: seq<F>)
    ensures |r| == |s| && forall i :: 0 <= i < |s| ==> r[i] == leaf(s[i].keys)
  {
    seq(|s|, i requires 0 <= i < |s| => leaf(s[i].keys))
  }

  /** As many handles as registrations: none is registered twice. */
  ghost predicate HandlesDistinct<F(!new)>(s: seq<Registration<F>>) {
    |EventOrder.Keys(HandleOf<F>, s)| == |s|
  }

  /** The contract's history: leaf indices 0, ..., n-1 once each, one handle each. */
  ghost predicate Acceptable<F(!new)>(events: seq<Registration<F>>) {
    Contiguous(LeafIndexOf<F>, events) && HandlesDistinct(events)
  }

  /** The contract's history in the contract's order. */
  ghost predicate Orderly<F(!new)>(s: seq<Registration<F>>) {
    Indexed(LeafIndexOf<F>, s) && HandlesDistinct(s)
  }

  lemma {:induction false} FewerHandles<F(!new)>(s: seq<Registration<F>>, k: nat)
    requires k <= |s|
    ensures |EventOrder.Keys(HandleOf<F>, s)| <= |EventOrder.Keys(HandleOf<F>, s[..k])| + |s| - k
    decreases |s| - k
  {
    if k < |s| {
      var front, next := EventOrder.Keys(HandleOf<F>, s[..k]), s[k];
      assert s[..k + 1] == s[..k] + [next];
      KeysAppend(HandleOf<F>, s[..k], next);
      assert |front + {next.handle}| <= |front| + 1 by {
        if next.handle in front {
          assert front + {next.handle} == front;
        }
      }
      FewerHandles(s, k + 1);
    } else {
      assert s[..k] == s;
    }
  }

  class Registry<F(==, !new)> {
    const leaf: Keys<F> -> F
    const registrations: seq<Registration<F>>
    const byHandle: map<F, nat>
    const tree: MerkleTree<F>

    ghost predicate Valid()
      reads tree
    {
      && tree.Valid() && tree.leaves == Leaves(leaf, registrations)
      && Indexed(LeafIndexOf<F>, registrations)
      && HandleIndex(registrations, byHandle)
    }

    constructor (leaf: Keys<F> -> F, registrations: seq<Registration<F>>, byHandle: map<F, nat>, tree: MerkleTree<F>)
      requires tree.Valid() && tree.leaves == Leaves(leaf, registrations)
      requires Indexed(LeafIndexOf<F>, registrations) && HandleIndex(registrations, byHandle)
      ensures Valid() && this.leaf == leaf && this.registrations == registrations && this.tree == tree
    {
      this.leaf := leaf;
      this.registrations := registrations;
      this.byHandle := byHandle;
      this.tree := tree;
    }

    /** A registered handle finds its own registration, the only one it has; any
        other finds none. */
    method Get(handle: F) returns (r: Option<Registration<F>>)
      requires Valid()
      ensures r.Some? <==> handle in EventOrder.Keys(HandleOf<F>, registrations)
      ensures r.Some? ==> forall s :: s in registrations && s.handle == handle <==> s == r.value
    {
      if handle !in byHandle {
        return None;
      }
      return Some(registrations[byHandle[handle]]);
    }

    method Path(leafIndex: nat) returns (r: Option<seq<F>>)
      requires Valid()
      ensures r.Some? <==> leafIndex < |registrations|
      ensures r.Some? ==> r.value == PathFrom(tree.hash, tree.zeros[0], tree.leaves, 0, leafIndex)
    {
      if leafIndex >= |registrations| {
        return None;
      }
      var path := tree.Path(leafIndex);
      return Some(path);
    }
  }

  /** `byHandle` maps exactly the handles that occur, each to where it occurs. */
  ghost predicate HandleIndex<F(!new)>(s: seq<Registration<F>>, byHandle: map<F, nat>) {
    && byHandle.Keys == EventOrder.Keys(HandleOf<F>, s)
    && (forall hd :: hd in byHandle ==> byHandle[hd] < |s| && s[byHandle[hd]].handle == hd)
    && (forall i :: 0 <= i < |s| ==> s[i].handle in byHandle && byHandle[s[i].handle] == i)
  }

  lemma HandleIndexGrows<F(!new)>(front: seq<Registration<F>>, next: Registration<F>, byHandle: map<F, nat>)
    requires HandleIndex(front, byHandle) && next.handle !in byHandle
    ensures HandleIndex(front + [next], byHandle[next.handle := |front|])
  {
    var s, grown := front + [next], byHandle[next.handle := |front|];
    KeysAppend(HandleOf<F>, front, next);
    assert grown.Keys == byHandle.Keys + {next.handle};
    forall hd | hd in grown ensures grown[hd] < |s| && s[grown[hd]].handle == hd {
      if hd == next.handle {
        assert s[|front|] == next;
      } else {
        assert s[byHandle[hd]] == front[byHandle[hd]];
      }
    }
    forall i | 0 <= i < |s| ensures s[i].handle in grown && grown[s[i].handle] == i {
      if i < |front| {
        assert s[i] == front[i];
      }
    }
  }

  lemma AllHandlesFound<F(!new)>(s: seq<Registration<F>>, byHandle: map<F, nat>)
    requires HandleIndex(s, byHandle) && |byHandle| == |s|
    ensures HandlesDistinct(s)
  {
    assert |byHandle.Keys| == |s|;
  }

  /** The first i sorted registrations are in the tree and the handle index. */
  ghost predicate Filled<F(!new)>(leaf: Keys<F> -> F, s: seq<Registration<F>>, i: nat, leaves: seq<F>, byHandle: map<F, nat>) {
    && i <= |s| && leaves == Leaves(leaf, s[..i])
    && Indexed(LeafIndexOf<F>, s[..i])
    && HandleIndex(s[..i], byHandle) && |byHandle| == i
  }

  lemma FilledStart<F(!new)>(leaf: Keys<F> -> F, s: seq<Registration<F>>)
    ensures Filled(leaf, s, 0, [], map[])
  {
    assert EventOrder.Keys(HandleOf<F>, s[..0]) == {};
  }

  lemma FilledGrows<F(!new)>(leaf: Keys<F> -> F, s: seq<Registration<F>>, i: nat, leaves: seq<F>, byHandle: map<F, nat>)
    requires i < |s| && Filled(leaf, s, i, leaves, byHandle)
    requires s[i].leafIndex == i && s[i].handle !in byHandle
    ensures Filled(leaf, s, i + 1, leaves + [leaf(s[i].keys)], byHandle[s[i].handle := i])
  {
    hide HandleIndex;
    var front := s[..i];
    assert s[..i + 1] == front + [s[i]];
    HandleIndexGrows(front, s[i], byHandle);
    assert leaves + [leaf(s[i].keys)] == Leaves(leaf, front + [s[i]]);
    OneHandleMore(byHandle, s[i].handle, i);
  }

  lemma OneHandleMore<F(!new)>(byHandle: map<F, nat>, hd: F, i: nat)
    requires hd !in byHandle
    ensures |byHandle[hd := i]| == |byHandle| + 1
  {
    assert byHandle[hd := i].Keys == byHandle.Keys + {hd};
    assert |byHandle.Keys + {hd}| == |byHandle.Keys| + 1;
  }

  lemma TakenTwice<F(!new)>(s: seq<Registration<F>>, i: nat, taken: set<F>)
    requires i < |s| && taken == EventOrder.Keys(HandleOf<F>, s[..i]) && |taken| == i && s[i].handle in taken
    ensures !HandlesDistinct(s)
  {
    assert s[..i + 1] == s[..i] + [s[i]];
    KeysAppend(HandleOf<F>, s[..i], s[i]);
    assert taken + {s[i].handle} == taken;
    FewerHandles(s, i + 1);
  }

  lemma HandleTaken<F(!new)>(leaf: Keys<F> -> F, s: seq<Registration<F>>, i: nat, leaves: seq<F>, byHandle: map<F, nat>)
    requires i < |s| && Filled(leaf, s, i, leaves, byHandle) && s[i].handle in byHandle
    ensures !Orderly(s)
  {
    hide Indexed, HandlesDistinct;
    assert |byHandle.Keys| == i;
    TakenTwice(s, i, byHandle.Keys);
  }

  lemma FilledLength<F(!new)>(leaf: Keys<F> -> F, s: seq<Registration<F>>, i: nat, leaves: seq<F>, byHandle: map<F, nat>)
    requires Filled(leaf, s, i, leaves, byHandle)
    ensures |leaves| == i
  {
  }

  lemma FilledWhole<F(!new)>(leaf: Keys<F> -> F, s: seq<Registration<F>>, leaves: seq<F>, byHandle: map<F, nat>)
    requires Filled(leaf, s, |s|, leaves, byHandle)
    ensures leaves == Leaves(leaf, s) && HandleIndex(s, byHandle) && Orderly(s)
  {
    assert s[..|s|] == s;
    AllHandlesFound(s, byHandle);
  }

  lemma OutOfPlace<F(!new)>(s: seq<Registration<F>>, i: nat)
    requires i < |s| && s[i].leafIndex != i
    ensures !Orderly(s)
  {
    assert LeafIndexOf(s[i]) != i;
  }

  /** The error names the first registration that is out of place, or has a handle
      registered before it. */
  ghost predicate Explains<F(!new)>(s: seq<Registration<F>>, e: RebuildError<F>) {
    match e
    case NotContiguous(leafIndex, expected) =>
      expected < |s| && s[expected].leafIndex == leafIndex != expected && Indexed(LeafIndexOf<F>, s[..expected])
    case HandleTwice(handle) => exists j, i :: 0 <= j < i < |s| && s[j].handle == s[i].handle == handle
  }

  lemma HandleBefore<F(!new)>(leaf: Keys<F> -> F, s: seq<Registration<F>>, i: nat, leaves: seq<F>, byHandle: map<F, nat>)
    requires i < |s| && Filled(leaf, s, i, leaves, byHandle)
    ensures s[i].handle in byHandle ==> Explains(s, HandleTwice(s[i].handle))
    ensures s[i].leafIndex != i ==> Explains(s, NotContiguous(s[i].leafIndex, i))
  {
    if s[i].handle in byHandle {
      var j := byHandle[s[i].handle];
      assert s[..i][j].handle == s[i].handle;
    }
  }

  /** The loop over the sorted registrations. */
  method Fill<F(==, !new)>(leaf: Keys<F> -> F, registrations: seq<Registration<F>>, tree: MerkleTree<F>)
    returns (r: Result<map<F, nat>, RebuildError<F>>)
    requires |registrations| <= Pow2(DEPTH) && tree.Valid() && tree.leaves == []
    modifies tree
    ensures tree.Valid()
    ensures r.Ok? <==> Orderly(registrations)
    ensures r.Ok? ==> Filled(leaf, registrations, |registrations|, tree.leaves, r.value)
    ensures r.Err? ==> Explains(registrations, r.error)
  {
    hide Filled, Orderly, Explains;
    var byHandle: map<F, nat> := map[];
    FilledStart(leaf, registrations);
    for i := 0 to |registrations|
      invariant tree.Valid() && Filled(leaf, registrations, i, tree.leaves, byHandle)
    {
      var next := registrations[i];
      HandleBefore(leaf, registrations, i, tree.leaves, byHandle);
      if next.leafIndex != i {
        OutOfPlace(registrations, i);
        return Err(NotContiguous(next.leafIndex, i));
      }
      if next.handle in byHandle {
        HandleTaken(leaf, registrations, i, tree.leaves, byHandle);
        return Err(HandleTwice(next.handle));
      }
      FilledLength(leaf, registrations, i, tree.leaves, byHandle);
      FilledGrows(leaf, registrations, i, tree.leaves, byHandle);
      byHandle := byHandle[next.handle := i];
      var _ := tree.Insert(leaf(next.keys));
    }
    FilledWhole(leaf, registrations, tree.leaves, byHandle);
    return Ok(byHandle);
  }

  /** Rebuilds the registry, and accepts exactly the contract's history. A
      tree of more than 2^20 leaves is a panic of the source. */
  method FromRegistrations<F(==, !new)>(h: (F, F) -> F, zero: F, leaf: Keys<F> -> F, events: seq<Registration<F>>)
    returns (r: Result<Registry<F>, RebuildError<F>>)
    requires |events| <= Pow2(DEPTH)
    ensures r.Ok? <==> Acceptable(events)
    ensures r.Ok? ==> fresh(r.value) && fresh(r.value.tree) && r.value.Valid()
    ensures r.Ok? ==> r.value.leaf == leaf && r.value.tree.hash == h && r.value.tree.zeros[0] == zero
    ensures r.Ok? ==> r.value.registrations == SortBy(LeafIndexOf<F>, events)
    ensures r.Err? ==> Explains(SortBy(LeafIndexOf<F>, events), r.error)
  {
    var registrations := SortBy(LeafIndexOf<F>, events);
    SortedIsOrderly(events);
    var tree := new MerkleTree<F>(h, zero);
    var byHandle := Fill(leaf, registrations, tree);
    if byHandle.Err? {
      return Err(byHandle.error);
    }
    FilledWhole(leaf, registrations, tree.leaves, byHandle.value);
    var registry := new Registry<F>(leaf, registrations, byHandle.value, tree);
    return Ok(registry);
  }

  lemma SortedIsOrderly<F(!new)>(events: seq<Registration<F>>)
    ensures |SortBy(LeafIndexOf<F>, events)| == |events|
    ensures Orderly(SortBy(LeafIndexOf<F>, events)) <==> Acceptable(events)
  {
    SortIndexes(LeafIndexOf<F>, events);
    SortByIsSort(LeafIndexOf<F>, events);
    SameKeys(HandleOf<F>, events, SortBy(LeafIndexOf<F>, events));
  }

  /** What is rebuilt does not depend on the order the events came in. */
  lemma RebuildIgnoresOrder<F(!new)>(a: seq<Registration<F>>, b: seq<Registration<F>>)
    requires multiset(a) == multiset(b)
    ensures Acceptable(a) <==> Acceptable(b)
    ensures Acceptable(a) ==> SortBy(LeafIndexOf<F>, a) == SortBy(LeafIndexOf<F>, b)
  {
    SameKeys(LeafIndexOf<F>, a, b);
    SameKeys(HandleOf<F>, a, b);
    if Acceptable(a) {
      SortIgnoresOrder(LeafIndexOf<F>, a, b);
    }
  }
}
