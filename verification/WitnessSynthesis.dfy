/**
 Decommitment witnesses for a subset of the queried positions
 (tools/privacy-prove-cairo-bridge/src/main.rs): the synthesis, the bottom-up
 walk of a verifier that consumes it, and why the two fit together.
 */
module WitnessSynthesis {

  import opened Outcomes
  import opened MerkleTree
  import EventOrder

  ghost predicate Ascending(ps: seq<nat>) {
    |ps| > 1 ==> ps[0] < ps[1] && Ascending(ps[1..])
  }

  /** The first position has its sibling right behind it. */
  predicate Paired(ps: seq<nat>) {
    |ps| > 1 && ps[1] == Sibling(ps[0])
  }

  lemma {:induction false} AscendingAppend(ps: seq<nat>, p: nat)
    requires Ascending(ps) && (ps != [] ==> ps[|ps| - 1] < p)
    ensures Ascending(ps + [p])
  {
    if |ps| > 1 {
      AscendingAppend(ps[1..], p);
      assert (ps + [p])[1..] == ps[1..] + [p];
    }
  }

  function Identity(p: nat): nat { p }

  method SortedDedup(v: seq<nat>) returns (r: seq<nat>)
    ensures Ascending(r) && forall p :: p in r <==> p in v
  {
    var sorted := EventOrder.SortBy(Identity, v);
    EventOrder.SortByIsSort(Identity, v);
    r := [];
    for i := 0 to |sorted|
      invariant Ascending(r) && (r == [] <==> i == 0)
      invariant i > 0 ==> r[|r| - 1] == sorted[i - 1]
      invariant forall p :: p in r <==> p in sorted[..i]
    {
      assert sorted[..i + 1] == sorted[..i] + [sorted[i]];
      if i == 0 || r[|r| - 1] != sorted[i] {
        if i > 0 {
          assert Identity(sorted[i - 1]) <= Identity(sorted[i]);
        }
        AscendingAppend(r, sorted[i]);
        r := r + [sorted[i]];
      }
    }
    assert sorted[..|sorted|] == sorted;
    forall p ensures p in r <==> p in v {
      EventOrder.InBoth(sorted, v, p);
    }
  }

  /** The positions one layer up. */
  function Parents(ps: seq<nat>): (r: seq<nat>)
    ensures |r| <= |ps| && (ps != [] ==> r != [])
  {
    if ps == [] then [] else [ps[0] / 2] + Parents(if Paired(ps) then ps[2..] else ps[1..])
  }

  /** The siblings of the positions whose sibling is not among them, in order. */
  function LoneSiblings(ps: seq<nat>): seq<nat> {
    if ps == [] then []
    else if Paired(ps) then LoneSiblings(ps[2..])
    else [Sibling(ps[0])] + LoneSiblings(ps[1..])
  }

  // --- the synthesis --------------------------------------------------------------

  datatype WalkError = MissingSibling(sibling: nat, layer: nat) | NotConverged(positions: seq<nat>)

  function Prepend<F, E>(front: seq<F>, r: Result<seq<F>, E>): Result<seq<F>, E> {
    if r.Ok? then Ok(front + r.value) else r
  }

  lemma PrependNothing<F, E>(r: Result<seq<F>, E>)
    ensures Prepend([], r) == r
  {
    assert r.Ok? ==> [] + r.value == r.value;
  }

  lemma PrependBoth<F, E>(a: seq<F>, b: seq<F>, r: Result<seq<F>, E>)
    ensures Prepend(a + b, r) == Prepend(a, Prepend(b, r))
  {
    assert r.Ok? ==> (a + b) + r.value == a + (b + r.value);
  }

  /** The lone siblings' hashes of one layer, or the first that is missing. */
  function Pull<F>(layer: map<nat, F>, ps: seq<nat>): Result<seq<F>, nat> {
    if ps == [] then Ok([])
    else if Paired(ps) then Pull(layer, ps[2..])
    else if Sibling(ps[0]) !in layer then Err(Sibling(ps[0]))
    else Prepend([layer[Sibling(ps[0])]], Pull(layer, ps[1..]))
  }

  function Walk<F>(layers: seq<map<nat, F>>, ps: seq<nat>, d: nat): Result<seq<F>, WalkError>
    requires d <= |layers|
    decreases |layers| - d
  {
    if d == |layers| then
      if |ps| == 1 then Ok([]) else Err(NotConverged(ps))
    else match Pull(layers[d], ps)
      case Err(sibling) => Err(MissingSibling(sibling, d))
      case Ok(pulled) => Prepend(pulled, Walk(layers, Parents(ps), d + 1))
  }

  /** The inner loop: one layer. */
  lemma PrependAll<F, E>(hashes: seq<F>)
    ensures Prepend<F, E>(hashes, Ok([])) == Ok(hashes)
  {
    assert hashes + [] == hashes;
  }

  lemma PrependFails<F, E>(hashes: seq<F>, e: E)
    ensures Prepend<F, E>(hashes, Err(e)) == Err(e)
  {
  }

  lemma NoPositions<F>(layer: map<nat, F>, positions: seq<nat>)
    ensures Pull(layer, positions[|positions|..]) == Ok([]) && Parents(positions[|positions|..]) == []
    ensures [] + Parents(positions) == Parents(positions)
  {
  }

  /** One turn of the loop below. */
  lemma PositionStep<F>(layer: map<nat, F>, positions: seq<nat>, i: nat, before: seq<nat>)
    requires i < |positions|
    ensures var pos := positions[i];
            if i + 1 < |positions| && positions[i + 1] == Sibling(pos) then
              && before + Parents(positions[i..]) == (before + [pos / 2]) + Parents(positions[i + 2..])
              && Pull(layer, positions[i..]) == Pull(layer, positions[i + 2..])
            else
              && before + Parents(positions[i..]) == (before + [pos / 2]) + Parents(positions[i + 1..])
              && Pull(layer, positions[i..])
                 == if Sibling(pos) in layer then Prepend([layer[Sibling(pos)]], Pull(layer, positions[i + 1..])) else Err(Sibling(pos))
  {
    var rest := positions[i..];
    assert rest[1..] == positions[i + 1..];
    if i + 1 < |positions| {
      assert rest[2..] == positions[i + 2..];
    }
  }

  method SynthesizeLayer<F>(layer: map<nat, F>, positions: seq<nat>) returns (parents: seq<nat>, r: Result<seq<F>, nat>)
    ensures r == Pull(layer, positions)
    ensures r.Ok? ==> parents == Parents(positions)
  {
    hide Parents, Pull, Prepend;
    parents := [];
    var hashes: seq<F> := [];
    var i := 0;
    assert positions[0..] == positions;
    NoPositions(layer, positions);
    PrependNothing(Pull(layer, positions));
    while i < |positions|
      invariant 0 <= i <= |positions|
      invariant parents + Parents(positions[i..]) == Parents(positions)
      invariant Prepend(hashes, Pull(layer, positions[i..])) == Pull(layer, positions)
    {
      var pos := positions[i];
      PositionStep(layer, positions, i, parents);
      if i + 1 < |positions| && positions[i + 1] == Sibling(pos) {
        i := i + 2;
      } else {
        var sibling := Sibling(pos);
        if sibling !in layer {
          PrependFails<F, nat>(hashes, sibling);
          return parents, Err(sibling);
        }
        PrependBoth(hashes, [layer[sibling]], Pull(layer, positions[i + 1..]));
        hashes := hashes + [layer[sibling]];
        i := i + 1;
      }
      parents := parents + [pos / 2];
    }
    PrependAll<F, nat>(hashes);
    return parents, Ok(hashes);
  }

  method SynthesizeWitness<F>(positions: seq<nat>, layers: seq<map<nat, F>>) returns (r: Result<seq<F>, WalkError>)
    ensures r == Walk(layers, positions, 0)
  {
    var hashes: seq<F> := [];
    var layerPositions := positions;
    PrependNothing(Walk(layers, positions, 0));
    for d := 0 to |layers|
      invariant Prepend(hashes, Walk(layers, layerPositions, d)) == Walk(layers, positions, 0)
    {
      var parents, pulled := SynthesizeLayer(layers[d], layerPositions);
      if pulled.Err? {
        return Err(MissingSibling(pulled.error, d));
      }
      PrependBoth(hashes, pulled.value, Walk(layers, parents, d + 1));
      hashes := hashes + pulled.value;
      layerPositions := parents;
    }
    if |layerPositions| != 1 {
      return Err(NotConverged(layerPositions));
    }
    assert hashes + [] == hashes;
    return Ok(hashes);
  }

  // --- the verifier's walk -----------------------------------------------------------

  /** One layer up: the hashes of the parents, and the witness not yet used. */
  function Climb<F>(h: (F, F) -> F, ps: seq<nat>, vs: seq<F>, hashes: seq<F>): (r: Option<(seq<F>, seq<F>)>)
    requires |vs| == |ps|
    ensures r.Some? ==> |r.value.0| == |Parents(ps)|
    decreases |ps|
  {
    if ps == [] then Some(([], hashes))
    else if Paired(ps) then
      match Climb(h, ps[2..], vs[2..], hashes)
      case None => None
      case Some((up, rest)) => Some(([h(vs[0], vs[1])] + up, rest))
    else if hashes == [] then None
    else
      match Climb(h, ps[1..], vs[1..], hashes[1..])
      case None => None
      case Some((up, rest)) => Some(([if ps[0] % 2 == 0 then h(vs[0], hashes[0]) else h(hashes[0], vs[0])] + up, rest))
  }

  /** The root rebuilt from hashes `vs` at `ps`, consuming the witness exactly. */
  function Rebuild<F>(h: (F, F) -> F, height: nat, ps: seq<nat>, vs: seq<F>, hashes: seq<F>): Option<F>
    requires |vs| == |ps|
  {
    if height == 0 then
      if |ps| == 1 && hashes == [] then Some(vs[0]) else None
    else
      match Climb(h, ps, vs, hashes)
      case None => None
      case Some((up, rest)) => Rebuild(h, height - 1, Parents(ps), up, rest)
  }

  // --- the genuine tree -----------------------------------------------------------------

  function NodesAt<F>(h: (F, F) -> F, zero: F, leaves: seq<F>, level: nat, ps: seq<nat>): (r: seq<F>)
    ensures |r| == |ps|
  {
    if ps == [] then []
    else [NodeAt(h, zero, leaves, level, ps[0])] + NodesAt(h, zero, leaves, level, ps[1..])
  }

  /** The lone siblings of every layer from `level` up. */
  function GenuineWitness<F>(h: (F, F) -> F, zero: F, leaves: seq<F>, level: nat, height: nat, ps: seq<nat>): seq<F>
    decreases height
  {
    if height == 0 then []
    else NodesAt(h, zero, leaves, level, LoneSiblings(ps)) + GenuineWitness(h, zero, leaves, level + 1, height - 1, Parents(ps))
  }

  ghost predicate Below(ps: seq<nat>, bound: nat) {
    forall p :: p in ps ==> p < bound
  }

  /** Parents ascend. */
  lemma {:induction false} ParentsAscend(ps: seq<nat>)
    requires Ascending(ps)
    ensures Ascending(Parents(ps))
  {
    if ps != [] {
      TailAscends(ps);
      ParentsAscend(if Paired(ps) then ps[2..] else ps[1..]);
    }
  }

  lemma TailAscends(ps: seq<nat>)
    requires ps != [] && Ascending(ps)
    ensures Ascending(ps[1..]) && (Paired(ps) ==> ps[0] % 2 == 0 && Ascending(ps[2..]))
    ensures var rest := if Paired(ps) then ps[2..] else ps[1..]; rest != [] ==> ps[0] / 2 < rest[0] / 2
  {
    if |ps| > 2 {
      assert ps[1..][1..] == ps[2..];
    }
  }

  /** Parents are the halves of positions. */
  lemma {:induction false} ParentsFrom(ps: seq<nat>, q: nat)
    requires q in Parents(ps)
    ensures exists p :: p in ps && p / 2 == q
  {
    var rest := if Paired(ps) then ps[2..] else ps[1..];
    if q == ps[0] / 2 {
      assert ps[0] in ps;
    } else {
      ParentsFrom(rest, q);
      var p :| p in rest && p / 2 == q;
      assert p in ps;
    }
  }

  lemma HalvesBelow(ps: seq<nat>, height: nat)
    requires height > 0 && Below(ps, Pow2(height))
    ensures Below(Parents(ps), Pow2(height - 1))
  {
    forall q | q in Parents(ps) ensures q < Pow2(height - 1) {
      ParentsFrom(ps, q);
    }
  }

  /** A nonempty ascending list of positions below 1 is the root's. */
  lemma RootAlone(ps: seq<nat>)
    requires Ascending(ps) && Below(ps, 1) && ps != []
    ensures ps == [0]
  {
    forall i | 0 <= i < |ps| ensures ps[i] == 0 {
      assert ps[i] in ps;
    }
  }

  lemma NodesTail<F>(h: (F, F) -> F, zero: F, leaves: seq<F>, level: nat, ps: seq<nat>)
    requires ps != []
    ensures NodesAt(h, zero, leaves, level, ps)[0] == NodeAt(h, zero, leaves, level, ps[0])
    ensures NodesAt(h, zero, leaves, level, ps)[1..] == NodesAt(h, zero, leaves, level, ps[1..])
    ensures |ps| > 1 ==> NodesAt(h, zero, leaves, level, ps)[1] == NodeAt(h, zero, leaves, level, ps[1])
    ensures |ps| > 1 ==> NodesAt(h, zero, leaves, level, ps)[2..] == NodesAt(h, zero, leaves, level, ps[2..])
  {
    if |ps| > 1 {
      assert ps[1..][1..] == ps[2..] && ps[1..][0] == ps[1];
      assert NodesAt(h, zero, leaves, level, ps)[2..] == NodesAt(h, zero, leaves, level, ps)[1..][1..];
    }
  }

  lemma {:induction false} ClimbGenuine<F>(h: (F, F) -> F, zero: F, leaves: seq<F>, level: nat, ps: seq<nat>, rest: seq<F>)
    requires Ascending(ps)
    ensures Climb(h, ps, NodesAt(h, zero, leaves, level, ps), NodesAt(h, zero, leaves, level, LoneSiblings(ps)) + rest)
            == Some((NodesAt(h, zero, leaves, level + 1, Parents(ps)), rest))
  {
    hide NodeAt, NodesAt, Ascending, Sibling;
    var all := NodesAt(h, zero, leaves, level, LoneSiblings(ps)) + rest;
    if ps == [] {
      assert all == rest;
    } else {
      var vs, up := NodesAt(h, zero, leaves, level, ps), NodesAt(h, zero, leaves, level + 1, Parents(ps));
      ParentOf(h, zero, leaves, level, ps[0]);
      TailAscends(ps);
      NodesTail(h, zero, leaves, level, ps);
      NodesTail(h, zero, leaves, level + 1, Parents(ps));
      assert up == [up[0]] + up[1..];
      if Paired(ps) {
        ClimbGenuine(h, zero, leaves, level, ps[2..], rest);
      } else {
        assert LoneSiblings(ps)[1..] == LoneSiblings(ps[1..]);
        NodesTail(h, zero, leaves, level, LoneSiblings(ps));
        assert all[1..] == NodesAt(h, zero, leaves, level, LoneSiblings(ps[1..])) + rest;
        ClimbGenuine(h, zero, leaves, level, ps[1..], rest);
      }
    }
  }

  /** The verifier accepts the genuine leaves with the genuine witness. */
  lemma {:induction false} RebuildGenuine<F>(h: (F, F) -> F, zero: F, leaves: seq<F>, level: nat, height: nat, ps: seq<nat>)
    requires Ascending(ps) && ps != [] && Below(ps, Pow2(height))
    ensures Rebuild(h, height, ps, NodesAt(h, zero, leaves, level, ps), GenuineWitness(h, zero, leaves, level, height, ps))
            == Some(NodeAt(h, zero, leaves, level + height, 0))
    decreases height
  {
    if height == 0 {
      RootAlone(ps);
    } else {
      ParentsAscend(ps);
      HalvesBelow(ps, height);
      ClimbGenuine(h, zero, leaves, level, ps, GenuineWitness(h, zero, leaves, level + 1, height - 1, Parents(ps)));
      RebuildGenuine(h, zero, leaves, level + 1, height - 1, Parents(ps));
    }
  }

  // --- what the prover recorded ------------------------------------------------------------

  /** The nodes `height` the union walk visits, `d` layers up. */
  function Visited(union: set<nat>, d: nat): set<nat> {
    if d == 0 then union else set p | p in Visited(union, d - 1) :: p / 2
  }

  /** Both children of every visited node are recorded, with their hashes. */
  ghost predicate Recorded<F>(h: (F, F) -> F, zero: F, leaves: seq<F>, layers: seq<map<nat, F>>, union: set<nat>) {
    forall d, p: nat :: 0 <= d < |layers| && p in Visited(union, d) ==> Recorded1(h, zero, leaves, layers[d], d, p)
  }

  ghost predicate Recorded1<F>(h: (F, F) -> F, zero: F, leaves: seq<F>, layer: map<nat, F>, d: nat, p: nat) {
    && p in layer && layer[p] == NodeAt(h, zero, leaves, d, p)
    && Sibling(p) in layer && layer[Sibling(p)] == NodeAt(h, zero, leaves, d, Sibling(p))
  }

  ghost predicate Within(ps: seq<nat>, s: set<nat>) {
    forall p :: p in ps ==> p in s
  }

  lemma ParentsVisited(ps: seq<nat>, union: set<nat>, d: nat)
    requires Within(ps, Visited(union, d))
    ensures Within(Parents(ps), Visited(union, d + 1))
  {
    forall q | q in Parents(ps) ensures q in Visited(union, d + 1) {
      ParentsFrom(ps, q);
      var p :| p in ps && p / 2 == q;
      assert p in Visited(union, d);
    }
  }

  lemma {:induction false} PullRecorded<F>(h: (F, F) -> F, zero: F, leaves: seq<F>, layer: map<nat, F>, d: nat, ps: seq<nat>)
    requires forall p :: p in ps ==> Recorded1(h, zero, leaves, layer, d, p)
    ensures Pull(layer, ps) == Ok(NodesAt(h, zero, leaves, d, LoneSiblings(ps)))
  {
    if ps != [] {
      if Paired(ps) {
        PullRecorded(h, zero, leaves, layer, d, ps[2..]);
      } else {
        assert Recorded1(h, zero, leaves, layer, d, ps[0]);
        PullRecorded(h, zero, leaves, layer, d, ps[1..]);
        assert LoneSiblings(ps)[1..] == LoneSiblings(ps[1..]);
      }
    }
  }

  lemma {:induction false} WalkRecorded<F>(h: (F, F) -> F, zero: F, leaves: seq<F>, layers: seq<map<nat, F>>, union: set<nat>,
                                           ps: seq<nat>, d: nat)
    requires d <= |layers| && Ascending(ps) && Recorded(h, zero, leaves, layers, union)
    requires Within(ps, Visited(union, d)) && Below(ps, Pow2(|layers| - d))
    ensures Walk(layers, ps, d) == if ps == [] then Err(NotConverged([]))
                                   else Ok(GenuineWitness(h, zero, leaves, d, |layers| - d, ps))
    decreases |layers| - d
  {
    if d == |layers| {
      if ps != [] {
        RootAlone(ps);
      }
    } else {
      forall p | p in ps ensures Recorded1(h, zero, leaves, layers[d], d, p) {
        assert p in Visited(union, d);
      }
      PullRecorded(h, zero, leaves, layers[d], d, ps);
      ParentsAscend(ps);
      HalvesBelow(ps, |layers| - d);
      ParentsVisited(ps, union, d);
      WalkRecorded(h, zero, leaves, layers, union, Parents(ps), d + 1);
    }
  }

  /** Main result. For every subset of the union's positions the synthesis
      succeeds exactly when the subset is not empty, and then a verifier that is
      given the subset's leaves rebuilds the root, consuming the witness exactly. */
  lemma SubsetWitness<F>(h: (F, F) -> F, zero: F, leaves: seq<F>, layers: seq<map<nat, F>>, union: set<nat>, ps: seq<nat>)
    requires Recorded(h, zero, leaves, layers, union) && Ascending(ps) && Within(ps, union)
    requires Below(ps, Pow2(|layers|))
    ensures Walk(layers, ps, 0).Ok? <==> ps != []
    ensures ps != [] ==> Rebuild(h, |layers|, ps, NodesAt(h, zero, leaves, 0, ps), Walk(layers, ps, 0).value)
                         == Some(NodeAt(h, zero, leaves, |layers|, 0))
  {
    WalkRecorded(h, zero, leaves, layers, union, ps, 0);
    if ps != [] {
      RebuildGenuine(h, zero, leaves, 0, |layers|, ps);
    }
  }

  // --- exactly when the synthesis fails ----------------------------------------------------

  function Members(ps: seq<nat>): set<nat> {
    set p | p in ps
  }

  lemma {:induction false} FirstIsLeast(ps: seq<nat>, p: nat)
    requires ps != [] && Ascending(ps) && p in ps[1..]
    ensures ps[0] < p
  {
    if p != ps[1] {
      FirstIsLeast(ps[1..], p);
    }
  }

  lemma {:induction false} ParentsTo(ps: seq<nat>, p: nat)
    requires Ascending(ps) && p in ps
    ensures p / 2 in Parents(ps)
  {
    TailAscends(ps);
    if p != ps[0] && !(Paired(ps) && p == ps[1]) {
      ParentsTo(if Paired(ps) then ps[2..] else ps[1..], p);
    }
  }

  /** The position's sibling is walked too, or recorded. */
  predicate Covered<F>(layer: map<nat, F>, all: set<nat>, p: nat) {
    Sibling(p) in all || Sibling(p) in layer
  }

  ghost predicate AllCovered<F>(layer: map<nat, F>, all: set<nat>) {
    forall p :: p in all ==> Covered(layer, all, p)
  }

  /** `sibling` is what the first position that is not covered lacks. */
  ghost predicate FirstLack<F>(layer: map<nat, F>, all: set<nat>, sibling: nat) {
    exists p :: p in all && sibling == Sibling(p) && !Covered(layer, all, p) && forall q :: q in all && q < p ==> Covered(layer, all, q)
  }

  ghost predicate Positions(ps: seq<nat>, all: set<nat>) {
    Ascending(ps) && forall p :: p in ps <==> p in all
  }

  /** The first position has its sibling with it exactly if that is right behind it. */
  lemma PairedIs(ps: seq<nat>)
    requires ps != [] && Ascending(ps)
    ensures Paired(ps) <==> Sibling(ps[0]) in ps
    ensures forall p :: p in ps[1..] ==> ps[0] < p
  {
    forall p | p in ps[1..] ensures ps[0] < p {
      FirstIsLeast(ps, p);
    }
    if Sibling(ps[0]) in ps[1..] && !Paired(ps) {
      FirstIsLeast(ps[1..], Sibling(ps[0]));
    }
  }

  /** What is covered among the positions behind the first or the first two. */
  lemma RestCovered<F>(layer: map<nat, F>, ps: seq<nat>, n: nat, p: nat)
    requires Ascending(ps) && ps != [] && n == (if Paired(ps) then 2 else 1) && p in ps[n..]
    ensures Covered(layer, Members(ps[n..]), p) <==> Covered(layer, Members(ps), p)
    ensures forall i :: 0 <= i < n ==> ps[i] < p
  {
    PairedIs(ps);
    TailAscends(ps);
    if n == 2 {
      assert ps[2..] == ps[1..][1..];
      FirstIsLeast(ps[1..], p);
    }
    assert p in ps[1..];
    assert forall q :: q in ps <==> (exists i :: 0 <= i < n && ps[i] == q) || q in ps[n..];
  }

  lemma FirstCovered<F>(layer: map<nat, F>, ps: seq<nat>, n: nat)
    requires Ascending(ps) && ps != [] && n == (if Paired(ps) then 2 else 1)
    ensures Members(ps) == Members(ps[..n]) + Members(ps[n..])
    ensures n == 2 || Sibling(ps[0]) in layer ==> forall p :: p in ps[..n] ==> Covered(layer, Members(ps), p)
    ensures n == 1 && Sibling(ps[0]) !in layer ==> !Covered(layer, Members(ps), ps[0])
  {
    PairedIs(ps);
    TailAscends(ps);
    assert ps == ps[..n] + ps[n..];
    if n == 2 {
      assert ps[..n] == [ps[0], ps[1]];
    }
  }

  /** Positions that are covered change nothing. */
  lemma LackStep<F>(layer: map<nat, F>, all: set<nat>, first: set<nat>, rest: set<nat>, s: nat)
    requires all == first + rest && forall p :: p in first ==> Covered(layer, all, p)
    requires forall p :: p in rest ==> (Covered(layer, rest, p) <==> Covered(layer, all, p))
    ensures AllCovered(layer, rest) <==> AllCovered(layer, all)
    ensures FirstLack(layer, rest, s) ==> FirstLack(layer, all, s)
  {
    hide Covered;
    if FirstLack(layer, rest, s) {
      var p :| p in rest && s == Sibling(p) && !Covered(layer, rest, p) && forall q :: q in rest && q < p ==> Covered(layer, rest, q);
      assert p in all && !Covered(layer, all, p);
    }
  }

  lemma LackFirst<F>(layer: map<nat, F>, all: set<nat>, p: nat)
    requires p in all && !Covered(layer, all, p) && forall q :: q in all ==> p <= q
    ensures !AllCovered(layer, all) && FirstLack(layer, all, Sibling(p))
  {
  }

  lemma {:induction false} PullExactly<F>(layer: map<nat, F>, ps: seq<nat>)
    requires Ascending(ps)
    ensures Pull(layer, ps).Ok? <==> AllCovered(layer, Members(ps))
    ensures Pull(layer, ps).Err? ==> FirstLack(layer, Members(ps), Pull(layer, ps).error)
    decreases |ps|
  {
    hide AllCovered, FirstLack, Covered;
    if ps == [] {
      NothingToCover(layer);
    } else {
      var n := if Paired(ps) then 2 else 1;
      var all, rest := Members(ps), Members(ps[n..]);
      TailAscends(ps);
      PullExactly(layer, ps[n..]);
      FirstCovered(layer, ps, n);
      forall p | p in rest ensures (Covered(layer, rest, p) <==> Covered(layer, all, p)) && ps[0] < p {
        RestCovered(layer, ps, n, p);
      }
      if n == 2 || Sibling(ps[0]) in layer {
        LackStep(layer, all, Members(ps[..n]), rest, if Pull(layer, ps[n..]).Err? then Pull(layer, ps[n..]).error else 0);
      } else {
        LackFirst(layer, all, ps[0]);
      }
    }
  }

  lemma NothingToCover<F>(layer: map<nat, F>)
    ensures AllCovered(layer, Members([]))
  {
  }

  lemma LayerPositions(ps: seq<nat>, union: set<nat>, d: nat)
    requires Positions(ps, Visited(union, d))
    ensures Positions(Parents(ps), Visited(union, d + 1))
  {
    ParentsAscend(ps);
    ParentsVisited(ps, union, d);
    forall q | q in Visited(union, d + 1) ensures q in Parents(ps) {
      var p :| p in Visited(union, d) && p / 2 == q;
      ParentsTo(ps, p);
    }
  }

  /** The walk from layer d on ends as it must. */
  ghost predicate EndsAsItMust<F>(layers: seq<map<nat, F>>, all: set<nat>, d: nat, r: Result<seq<F>, WalkError>) {
    match r
    case Ok(_) =>
      (forall e :: d <= e < |layers| ==> AllCovered(layers[e], Visited(all, e))) && |Visited(all, |layers|)| == 1
    case Err(MissingSibling(sibling, layer)) =>
      && d <= layer < |layers| && FirstLack(layers[layer], Visited(all, layer), sibling)
      && forall e :: d <= e < layer ==> AllCovered(layers[e], Visited(all, e))
    case Err(NotConverged(rest)) =>
      && (forall e :: d <= e < |layers| ==> AllCovered(layers[e], Visited(all, e)))
      && Positions(rest, Visited(all, |layers|)) && |Visited(all, |layers|)| != 1
  }

  lemma {:induction false} AscendingCount(ps: seq<nat>, all: set<nat>)
    requires Positions(ps, all)
    ensures |all| == |ps|
  {
    if ps == [] {
      assert all == {};
    } else {
      TailAscends(ps);
      PairedIs(ps);
      assert ps[0] !in ps[1..] && all == {ps[0]} + (all - {ps[0]});
      AscendingCount(ps[1..], all - {ps[0]});
    }
  }

  lemma {:induction false} WalkFrom<F>(layers: seq<map<nat, F>>, all: set<nat>, ps: seq<nat>, d: nat)
    requires d <= |layers| && Positions(ps, Visited(all, d))
    ensures EndsAsItMust(layers, all, d, Walk(layers, ps, d))
    decreases |layers| - d
  {
    hide Visited;
    if d == |layers| {
      AscendingCount(ps, Visited(all, d));
    } else {
      PullExactly(layers[d], ps);
      assert Members(ps) == Visited(all, d);
      if Pull(layers[d], ps).Ok? {
        LayerPositions(ps, all, d);
        WalkFrom(layers, all, Parents(ps), d + 1);
      }
    }
  }

  /** On any recorded layers whatever: the synthesis gives a witness exactly when
      every position it walks has its sibling walked or recorded and one position
      is left; the first sibling that is missing, lowest layer first, or the
      positions left over are its error. */
  lemma WalkExactly<F>(layers: seq<map<nat, F>>, ps: seq<nat>)
    requires Ascending(ps)
    ensures EndsAsItMust(layers, Members(ps), 0, Walk(layers, ps, 0))
  {
    VisitedFirst(Members(ps));
    WalkFrom(layers, Members(ps), ps, 0);
  }

  // --- how long the witness is ------------------------------------------------------------

  /** The sum over the layers of 2 * parents - positions. */
  function LengthFrom(height: nat, ps: seq<nat>): int {
    if height == 0 then 0 else 2 * |Parents(ps)| - |ps| + LengthFrom(height - 1, Parents(ps))
  }

  lemma {:induction false} LoneCount(ps: seq<nat>)
    ensures |LoneSiblings(ps)| == 2 * |Parents(ps)| - |ps|
  {
    if ps != [] {
      LoneCount(if Paired(ps) then ps[2..] else ps[1..]);
    }
  }

  lemma {:induction false} PullLength<F>(layer: map<nat, F>, ps: seq<nat>)
    requires Pull(layer, ps).Ok?
    ensures |Pull(layer, ps).value| == |LoneSiblings(ps)|
  {
    if ps != [] {
      PullLength(layer, if Paired(ps) then ps[2..] else ps[1..]);
    }
  }

  lemma {:induction false} WitnessLength<F>(layers: seq<map<nat, F>>, ps: seq<nat>, d: nat)
    requires d <= |layers| && Walk(layers, ps, d).Ok?
    ensures |Walk(layers, ps, d).value| == LengthFrom(|layers| - d, ps)
    decreases |layers| - d
  {
    if d < |layers| {
      PullLength(layers[d], ps);
      LoneCount(ps);
      WitnessLength(layers, Parents(ps), d + 1);
    }
  }

  // --- soundness ---------------------------------------------------------------------------

  /** The inputs of the hashes of one layer of the verifier's walk. */
  function LayerInputs<F>(h: (F, F) -> F, ps: seq<nat>, vs: seq<F>, hashes: seq<F>): (r: seq<(F, F)>)
    requires |vs| == |ps| && Climb(h, ps, vs, hashes).Some?
    ensures |r| == |Parents(ps)|
    decreases |ps|
  {
    if ps == [] then []
    else if Paired(ps) then [(vs[0], vs[1])] + LayerInputs(h, ps[2..], vs[2..], hashes)
    else [if ps[0] % 2 == 0 then (vs[0], hashes[0]) else (hashes[0], vs[0])] + LayerInputs(h, ps[1..], vs[1..], hashes[1..])
  }

  /** The inputs of all the hashes of the walk, layer by layer. */
  function Inputs<F>(h: (F, F) -> F, height: nat, ps: seq<nat>, vs: seq<F>, hashes: seq<F>): seq<(F, F)>
    requires |vs| == |ps| && Rebuild(h, height, ps, vs, hashes).Some?
    decreases height
  {
    if height == 0 then []
    else
      var (up, rest) := Climb(h, ps, vs, hashes).value;
      LayerInputs(h, ps, vs, hashes) + Inputs(h, height - 1, Parents(ps), up, rest)
  }

  /** The genuine children of the parents `qs`. */
  function ChildrenAt<F>(h: (F, F) -> F, zero: F, leaves: seq<F>, level: nat, qs: seq<nat>): (r: seq<(F, F)>)
    ensures |r| == |qs|
  {
    if qs == [] then [] else [Children(h, zero, leaves, level, qs[0])] + ChildrenAt(h, zero, leaves, level, qs[1..])
  }

  function GenuineInputs<F>(h: (F, F) -> F, zero: F, leaves: seq<F>, level: nat, height: nat, ps: seq<nat>): seq<(F, F)>
    decreases height
  {
    if height == 0 then []
    else ChildrenAt(h, zero, leaves, level, Parents(ps)) + GenuineInputs(h, zero, leaves, level + 1, height - 1, Parents(ps))
  }

  lemma Glue<F>(a: seq<F>, b: seq<F>, n: nat)
    requires n <= |a| && n <= |b| && a[..n] == b[..n] && a[n..] == b[n..]
    ensures a == b
  {
    assert a == a[..n] + a[n..] && b == b[..n] + b[n..];
  }

  /** The hash of a lone first position and its sibling settle, given the rest. */
  lemma LoneBinds<F>(h: (F, F) -> F, zero: F, leaves: seq<F>, level: nat, ps: seq<nat>, vs: seq<F>, hashes: seq<F>, rest: seq<F>)
    requires ps != [] && !Paired(ps) && |vs| == |ps| && hashes != []
    requires vs[0] == NodeAt(h, zero, leaves, level, ps[0]) && hashes[0] == NodeAt(h, zero, leaves, level, Sibling(ps[0]))
    requires vs[1..] == NodesAt(h, zero, leaves, level, ps[1..])
    requires hashes[1..] == NodesAt(h, zero, leaves, level, LoneSiblings(ps[1..])) + rest
    ensures vs == NodesAt(h, zero, leaves, level, ps)
    ensures hashes == NodesAt(h, zero, leaves, level, LoneSiblings(ps)) + rest
  {
    hide NodeAt, NodesAt;
    NodesTail(h, zero, leaves, level, ps);
    Glue(vs, NodesAt(h, zero, leaves, level, ps), 1);
    assert LoneSiblings(ps)[1..] == LoneSiblings(ps[1..]);
    NodesTail(h, zero, leaves, level, LoneSiblings(ps));
    var lone := NodesAt(h, zero, leaves, level, LoneSiblings(ps));
    assert (lone + rest)[1..] == lone[1..] + rest;
    Glue(hashes, lone + rest, 1);
  }

  lemma ChildrenOf<F>(h: (F, F) -> F, zero: F, leaves: seq<F>, level: nat, index: nat)
    ensures var c, s := NodeAt(h, zero, leaves, level, index), NodeAt(h, zero, leaves, level, Sibling(index));
            Children(h, zero, leaves, level, index / 2) == if index % 2 == 0 then (c, s) else (s, c)
  {
    if index % 2 == 0 {
      assert 2 * (index / 2) == index;
    } else {
      assert 2 * (index / 2) + 1 == index;
    }
  }

  /** A layer that hashes the genuine inputs was given the genuine hashes. */
  lemma {:induction false} ClimbBinds<F>(h: (F, F) -> F, zero: F, leaves: seq<F>, level: nat, ps: seq<nat>,
                                         vs: seq<F>, hashes: seq<F>)
    requires Ascending(ps) && |vs| == |ps| && Climb(h, ps, vs, hashes).Some?
    requires LayerInputs(h, ps, vs, hashes) == ChildrenAt(h, zero, leaves, level, Parents(ps))
    ensures vs == NodesAt(h, zero, leaves, level, ps)
    ensures hashes == NodesAt(h, zero, leaves, level, LoneSiblings(ps)) + Climb(h, ps, vs, hashes).value.1
    decreases |ps|
  {
    hide NodeAt, NodesAt, Ascending, Children;
    var genuine, rest := NodesAt(h, zero, leaves, level, ps), Climb(h, ps, vs, hashes).value.1;
    if ps == [] {
      assert NodesAt(h, zero, leaves, level, LoneSiblings(ps)) + rest == rest;
    } else {
      var pairs, children := LayerInputs(h, ps, vs, hashes), ChildrenAt(h, zero, leaves, level, Parents(ps));
      ChildrenOf(h, zero, leaves, level, ps[0]);
      TailAscends(ps);
      NodesTail(h, zero, leaves, level, ps);
      assert pairs[0] == children[0] == Children(h, zero, leaves, level, ps[0] / 2);
      if Paired(ps) {
        assert pairs[1..] == LayerInputs(h, ps[2..], vs[2..], hashes);
        assert children[1..] == ChildrenAt(h, zero, leaves, level, Parents(ps[2..]));
        ClimbBinds(h, zero, leaves, level, ps[2..], vs[2..], hashes);
        Glue(vs, genuine, 2);
      } else {
        assert pairs[1..] == LayerInputs(h, ps[1..], vs[1..], hashes[1..]);
        assert children[1..] == ChildrenAt(h, zero, leaves, level, Parents(ps[1..]));
        ClimbBinds(h, zero, leaves, level, ps[1..], vs[1..], hashes[1..]);
        LoneBinds(h, zero, leaves, level, ps, vs, hashes, rest);
      }
    }
  }

  /** What a layer hands up are the hashes of its inputs. */
  lemma {:induction false} ClimbHashes<F>(h: (F, F) -> F, ps: seq<nat>, vs: seq<F>, hashes: seq<F>, i: nat)
    requires |vs| == |ps| && Climb(h, ps, vs, hashes).Some? && i < |Parents(ps)|
    ensures var p := LayerInputs(h, ps, vs, hashes)[i]; Climb(h, ps, vs, hashes).value.0[i] == h(p.0, p.1)
    decreases |ps|
  {
    if i > 0 {
      if Paired(ps) {
        ClimbHashes(h, ps[2..], vs[2..], hashes, i - 1);
      } else {
        ClimbHashes(h, ps[1..], vs[1..], hashes[1..], i - 1);
      }
    }
  }

  lemma {:induction false} NodesHash<F>(h: (F, F) -> F, zero: F, leaves: seq<F>, level: nat, qs: seq<nat>, i: nat)
    requires i < |qs|
    ensures var q := ChildrenAt(h, zero, leaves, level, qs)[i]; NodesAt(h, zero, leaves, level + 1, qs)[i] == h(q.0, q.1)
  {
    if i > 0 {
      NodesHash(h, zero, leaves, level, qs[1..], i - 1);
    }
  }

  /** With genuine parents, a layer's inputs are genuine or one pair collides. */
  lemma LayerBinds<F>(h: (F, F) -> F, zero: F, leaves: seq<F>, level: nat, ps: seq<nat>, vs: seq<F>, hashes: seq<F>)
    requires |vs| == |ps| && Climb(h, ps, vs, hashes).Some?
    requires Climb(h, ps, vs, hashes).value.0 == NodesAt(h, zero, leaves, level + 1, Parents(ps))
    ensures var pairs, children := LayerInputs(h, ps, vs, hashes), ChildrenAt(h, zero, leaves, level, Parents(ps));
            pairs == children || SomeCollision(h, pairs, children)
  {
    hide Climb, NodesAt, LayerInputs, ChildrenAt;
    var pairs, children := LayerInputs(h, ps, vs, hashes), ChildrenAt(h, zero, leaves, level, Parents(ps));
    if pairs != children {
      var i :| 0 <= i < |pairs| && pairs[i] != children[i];
      ClimbHashes(h, ps, vs, hashes, i);
      NodesHash(h, zero, leaves, level, Parents(ps), i);
      assert Collision(h, pairs[i], children[i]);
    }
  }

  lemma CollisionIn<F>(h: (F, F) -> F, a: seq<(F, F)>, b: seq<(F, F)>, c: seq<(F, F)>, d: seq<(F, F)>)
    requires |a| == |c| && (SomeCollision(h, a, c) || SomeCollision(h, b, d))
    ensures SomeCollision(h, a + b, c + d)
  {
    if SomeCollision(h, a, c) {
      var l :| 0 <= l < |a| && l < |c| && Collision(h, a[l], c[l]);
      assert Collision(h, (a + b)[l], (c + d)[l]);
    } else {
      var l :| 0 <= l < |b| && l < |d| && Collision(h, b[l], d[l]);
      assert Collision(h, (a + b)[|a| + l], (c + d)[|a| + l]);
    }
  }

  lemma {:induction false} RebuildBinds<F>(h: (F, F) -> F, zero: F, leaves: seq<F>, level: nat, height: nat, ps: seq<nat>,
                                           vs: seq<F>, hashes: seq<F>)
    requires Ascending(ps) && ps != [] && Below(ps, Pow2(height)) && |vs| == |ps|
    requires Rebuild(h, height, ps, vs, hashes) == Some(NodeAt(h, zero, leaves, level + height, 0))
    ensures (vs == NodesAt(h, zero, leaves, level, ps) && hashes == GenuineWitness(h, zero, leaves, level, height, ps))
            || SomeCollision(h, Inputs(h, height, ps, vs, hashes), GenuineInputs(h, zero, leaves, level, height, ps))
    decreases height
  {
    hide NodeAt, NodesAt, SomeCollision, Climb, LayerInputs, ChildrenAt, Ascending, Below;
    if height == 0 {
      RootAlone(ps);
      OneNode(h, zero, leaves, level, vs);
    } else {
      ParentsAscend(ps);
      HalvesBelow(ps, height);
      var (up, rest) := Climb(h, ps, vs, hashes).value;
      var upper, genuine := Inputs(h, height - 1, Parents(ps), up, rest), GenuineInputs(h, zero, leaves, level + 1, height - 1, Parents(ps));
      var pairs, children := LayerInputs(h, ps, vs, hashes), ChildrenAt(h, zero, leaves, level, Parents(ps));
      RebuildBinds(h, zero, leaves, level + 1, height - 1, Parents(ps), up, rest);
      if SomeCollision(h, upper, genuine) {
        CollisionIn(h, pairs, upper, children, genuine);
      } else {
        LayerBinds(h, zero, leaves, level, ps, vs, hashes);
        if SomeCollision(h, pairs, children) {
          CollisionIn(h, pairs, upper, children, genuine);
        } else {
          ClimbBinds(h, zero, leaves, level, ps, vs, hashes);
        }
      }
    }
  }

  lemma OneNode<F>(h: (F, F) -> F, zero: F, leaves: seq<F>, level: nat, vs: seq<F>)
    requires |vs| == 1
    ensures vs == NodesAt(h, zero, leaves, level, [0]) <==> vs[0] == NodeAt(h, zero, leaves, level, 0)
  {
  }

  lemma {:induction false} PairsGenuine<F>(h: (F, F) -> F, zero: F, leaves: seq<F>, level: nat, ps: seq<nat>, rest: seq<F>)
    requires Ascending(ps)
    ensures var vs, hashes := NodesAt(h, zero, leaves, level, ps), NodesAt(h, zero, leaves, level, LoneSiblings(ps)) + rest;
            && Climb(h, ps, vs, hashes) == Some((NodesAt(h, zero, leaves, level + 1, Parents(ps)), rest))
            && LayerInputs(h, ps, vs, hashes) == ChildrenAt(h, zero, leaves, level, Parents(ps))
    decreases |ps|
  {
    hide NodeAt, NodesAt, Ascending, Sibling, Children, Climb;
    var vs, hashes := NodesAt(h, zero, leaves, level, ps), NodesAt(h, zero, leaves, level, LoneSiblings(ps)) + rest;
    ClimbGenuine(h, zero, leaves, level, ps, rest);
    if ps != [] {
      ChildrenOf(h, zero, leaves, level, ps[0]);
      TailAscends(ps);
      NodesTail(h, zero, leaves, level, ps);
      if Paired(ps) {
        PairsGenuine(h, zero, leaves, level, ps[2..], rest);
      } else {
        assert LoneSiblings(ps)[1..] == LoneSiblings(ps[1..]);
        NodesTail(h, zero, leaves, level, LoneSiblings(ps));
        assert hashes[1..] == NodesAt(h, zero, leaves, level, LoneSiblings(ps[1..])) + rest;
        PairsGenuine(h, zero, leaves, level, ps[1..], rest);
      }
    }
  }

  lemma {:induction false} InputsGenuine<F>(h: (F, F) -> F, zero: F, leaves: seq<F>, level: nat, height: nat, ps: seq<nat>)
    requires Ascending(ps) && ps != [] && Below(ps, Pow2(height))
    ensures var vs, hashes := NodesAt(h, zero, leaves, level, ps), GenuineWitness(h, zero, leaves, level, height, ps);
            Rebuild(h, height, ps, vs, hashes).Some?
            && Inputs(h, height, ps, vs, hashes) == GenuineInputs(h, zero, leaves, level, height, ps)
    decreases height
  {
    hide NodeAt, NodesAt, Climb, LayerInputs, ChildrenAt, Ascending, Below;
    RebuildGenuine(h, zero, leaves, level, height, ps);
    if height > 0 {
      ParentsAscend(ps);
      HalvesBelow(ps, height);
      PairsGenuine(h, zero, leaves, level, ps, GenuineWitness(h, zero, leaves, level + 1, height - 1, Parents(ps)));
      InputsGenuine(h, zero, leaves, level + 1, height - 1, Parents(ps));
    }
  }

  lemma VisitedFirst(union: set<nat>)
    ensures Visited(union, 0) == union
  {
  }

  /** What the verifier accepts against the genuine root are the genuine leaves,
      with the synthesized witness and no other, if and only if none of the inputs
      its walk hashes collides with the genuine one in its place. */
  lemma OnlyGenuine<F>(h: (F, F) -> F, zero: F, leaves: seq<F>, layers: seq<map<nat, F>>, union: set<nat>,
                       ps: seq<nat>, vs: seq<F>, hashes: seq<F>)
    requires Recorded(h, zero, leaves, layers, union) && Ascending(ps) && Within(ps, union) && ps != []
    requires Below(ps, Pow2(|layers|)) && |vs| == |ps|
    requires Rebuild(h, |layers|, ps, vs, hashes) == Some(NodeAt(h, zero, leaves, |layers|, 0))
    ensures (vs == NodesAt(h, zero, leaves, 0, ps) && Walk(layers, ps, 0) == Ok(hashes))
            <==> !SomeCollision(h, Inputs(h, |layers|, ps, vs, hashes), GenuineInputs(h, zero, leaves, 0, |layers|, ps))
  {
    hide *;
    VisitedFirst(union);
    RebuildBinds(h, zero, leaves, 0, |layers|, ps, vs, hashes);
    WalkRecorded(h, zero, leaves, layers, union, ps, 0);
    InputsGenuine(h, zero, leaves, 0, |layers|, ps);
    SameNeverCollide(h, GenuineInputs(h, zero, leaves, 0, |layers|, ps));
  }

  /** For an injective hash it accepts nothing else. */
  lemma InjectiveGenuine<F(!new)>(h: (F, F) -> F, zero: F, leaves: seq<F>, layers: seq<map<nat, F>>, union: set<nat>,
                                  ps: seq<nat>, vs: seq<F>, hashes: seq<F>)
    requires Injective(h) && Recorded(h, zero, leaves, layers, union) && Ascending(ps) && Within(ps, union) && ps != []
    requires Below(ps, Pow2(|layers|)) && |vs| == |ps|
    requires Rebuild(h, |layers|, ps, vs, hashes) == Some(NodeAt(h, zero, leaves, |layers|, 0))
    ensures vs == NodesAt(h, zero, leaves, 0, ps) && Walk(layers, ps, 0) == Ok(hashes)
  {
    hide *;
    OnlyGenuine(h, zero, leaves, layers, union, ps, vs, hashes);
    InjectiveNeverCollides(h, Inputs(h, |layers|, ps, vs, hashes), GenuineInputs(h, zero, leaves, 0, |layers|, ps));
  }
}
