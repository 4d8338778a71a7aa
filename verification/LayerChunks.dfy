/**
 Cutting the FRI layers and the program into calldata chunks
 (tools/privacy-prove-cairo-bridge/src/main.rs). A chunk is serialized as its
 length followed by its elements' felts, and is charged its packed slots.
 */
module LayerChunks {

  import opened Outcomes
  import opened PackCodec

  const MAX_LAYER_CHUNK_SLOTS: nat := 4300

  /** A layer proof, serialized. */
  type Layer = seq<nat>

  function Flatten<T>(chunks: seq<seq<T>>): seq<T> {
    if chunks == [] then [] else chunks[0] + Flatten(chunks[1..])
  }

  function Serialize(chunk: seq<Layer>): seq<nat> {
    [|chunk|] + Flatten(chunk)
  }

  /** The packed slots of a chunk. */
  function Cost(chunk: seq<Layer>): nat {
    PacksExactly(Serialize(chunk), true);
    |Packed(Serialize(chunk), true).value|
  }

  // --- the cost only grows ----------------------------------------------------------

  function LimbCount(vs: seq<nat>): nat {
    if vs == [] then 0
    else (if vs[0] < FELT_ESCAPE then 1 else if vs[0] < TWO_64 then 3 else 9) + LimbCount(vs[1..])
  }

  lemma {:induction false} EncodedCount(vs: seq<nat>)
    ensures EncodeAll(vs, true).Some? && |EncodeAll(vs, true).value| == LimbCount(vs)
  {
    if vs != [] {
      EncodedCount(vs[1..]);
    }
  }

  lemma {:induction false} SlotCount(limbs: seq<nat>)
    ensures |Slots(limbs)| == (|limbs| + 6) / 7
    decreases |limbs|
  {
    if |limbs| > 7 {
      SlotCount(limbs[7..]);
    }
  }

  lemma {:induction false} LimbCountConcat(a: seq<nat>, b: seq<nat>)
    ensures LimbCount(a + b) == LimbCount(a) + LimbCount(b)
  {
    if a == [] {
      assert a + b == b;
    } else {
      assert (a + b)[1..] == a[1..] + b;
      LimbCountConcat(a[1..], b);
    }
  }

  lemma {:induction false} FlattenConcat<T>(a: seq<seq<T>>, b: seq<seq<T>>)
    ensures Flatten(a + b) == Flatten(a) + Flatten(b)
  {
    if a == [] {
      assert a + b == b;
    } else {
      assert (a + b)[1..] == a[1..] + b;
      FlattenConcat(a[1..], b);
    }
  }

  lemma CostOf(chunk: seq<Layer>)
    ensures Cost(chunk) == (LimbCount([|chunk|]) + LimbCount(Flatten(chunk)) + 6) / 7
  {
    EncodedCount(Serialize(chunk));
    SlotCount(EncodeAll(Serialize(chunk), true).value);
    LimbCountConcat([|chunk|], Flatten(chunk));
  }

  /** A stretch of a chunk costs no more than the chunk. */
  lemma CostGrows(a: seq<Layer>, chunk: seq<Layer>, b: seq<Layer>)
    ensures Cost(chunk) <= Cost(a + chunk + b)
  {
    CostOf(chunk);
    CostOf(a + chunk + b);
    FlattenConcat(a + chunk, b);
    FlattenConcat(a, chunk);
    LimbCountConcat(Flatten(a) + Flatten(chunk), Flatten(b));
    LimbCountConcat(Flatten(a), Flatten(chunk));
    var n, m := |chunk|, |a + chunk + b|;
    assert LimbCount([n]) <= LimbCount([m]) by {
      assert LimbCount([n][1..]) == 0 && LimbCount([m][1..]) == 0;
    }
  }

  // --- the greedy cut --------------------------------------------------------------------

  function Greedy(current: seq<Layer>, rest: seq<Layer>): seq<seq<Layer>>
    decreases rest
  {
    if rest == [] then [current]
    else if Cost(current + [rest[0]]) <= MAX_LAYER_CHUNK_SLOTS then Greedy(current + [rest[0]], rest[1..])
    else [current] + Greedy([rest[0]], rest[1..])
  }

  ghost predicate Fits(chunk: seq<Layer>) {
    Cost(chunk) <= MAX_LAYER_CHUNK_SLOTS
  }

  method ChunkLayers(layers: seq<Layer>) returns (chunks: seq<seq<Layer>>)
    requires layers != []
    ensures chunks == Greedy([layers[0]], layers[1..])
  {
    chunks := [];
    var current := [layers[0]];
    assert layers[1..] == layers[1..][0..];
    for i := 1 to |layers|
      invariant chunks + Greedy(current, layers[i..]) == Greedy([layers[0]], layers[1..])
    {
      var layer := layers[i];
      assert layers[i..][0] == layer && layers[i..][1..] == layers[i + 1..];
      var candidate := current + [layer];
      if Cost(candidate) <= MAX_LAYER_CHUNK_SLOTS {
        current := candidate;
      } else {
        assert chunks + ([current] + Greedy([layer], layers[i + 1..])) == (chunks + [current]) + Greedy([layer], layers[i + 1..]);
        chunks := chunks + [current];
        current := [layer];
      }
    }
    chunks := chunks + [current];
  }

  lemma FlattenCons<T>(first: seq<T>, rest: seq<seq<T>>)
    ensures Flatten([first] + rest) == first + Flatten(rest)
  {
    assert ([first] + rest)[1..] == rest;
  }

  /** All layers, in order. */
  lemma {:induction false} GreedyKeeps(current: seq<Layer>, rest: seq<Layer>)
    ensures Flatten(Greedy(current, rest)) == current + rest
    decreases rest
  {
    hide Cost, Flatten;
    if rest == [] {
      FlattenCons(current, []);
      assert [current] + [] == [current] && current + [] == current == current + rest;
      assert Flatten<Layer>([]) == [] by {
        FlattenNothing<Layer>();
      }
    } else if Cost(current + [rest[0]]) <= MAX_LAYER_CHUNK_SLOTS {
      GreedyKeeps(current + [rest[0]], rest[1..]);
      assert (current + [rest[0]]) + rest[1..] == current + rest;
    } else {
      GreedyKeeps([rest[0]], rest[1..]);
      FlattenCons(current, Greedy([rest[0]], rest[1..]));
      assert [rest[0]] + rest[1..] == rest;
    }
  }

  lemma FlattenNothing<T>()
    ensures Flatten<T>([]) == []
  {
  }

  /** Every chunk fits or is a single layer. */
  lemma {:induction false} GreedyFits(current: seq<Layer>, rest: seq<Layer>)
    requires current != [] && (Fits(current) || |current| == 1)
    ensures forall c :: c in Greedy(current, rest) ==> c != [] && (Fits(c) || |c| == 1)
    decreases rest
  {
    hide Cost;
    if rest != [] {
      if Cost(current + [rest[0]]) <= MAX_LAYER_CHUNK_SLOTS {
        GreedyFits(current + [rest[0]], rest[1..]);
      } else {
        GreedyFits([rest[0]], rest[1..]);
      }
    }
  }

  /** Greedy stays ahead: another partition that has cut no further than the
      greedy one needs at least as many chunks from here on. */
  lemma {:induction false} StaysAhead(current: seq<Layer>, rest: seq<Layer>, before: seq<Layer>, other: seq<seq<Layer>>)
    requires current != [] && Flatten(other) == before + current + rest && forall c :: c in other ==> Fits(c)
    ensures |Greedy(current, rest)| <= |other|
    decreases rest
  {
    assert other != [];
    if rest != [] {
      var next, tail := rest[0], rest[1..];
      if Cost(current + [next]) <= MAX_LAYER_CHUNK_SLOTS {
        assert before + (current + [next]) + tail == before + current + rest;
        StaysAhead(current + [next], tail, before, other);
      } else {
        ShortFirst(current, next, tail, before, other);
        var first := other[0];
        var left := (before + current)[|first|..];
        assert Flatten(other[1..]) == left + [next] + tail by {
          FirstOff(before + current, rest, other);
          assert left + rest == left + [next] + tail;
        }
        assert forall c :: c in other[1..] ==> c in other;
        StaysAhead([next], tail, left, other[1..]);
      }
    }
  }

  /** The first chunk of the other partition ends before `next`. */
  lemma ShortFirst(current: seq<Layer>, next: Layer, tail: seq<Layer>, before: seq<Layer>, other: seq<seq<Layer>>)
    requires other != [] && Flatten(other) == before + current + ([next] + tail) && Fits(other[0]) && !Fits(current + [next])
    ensures |other[0]| <= |before + current|
  {
    hide Cost, Greedy;
    var first := other[0];
    if |first| > |before + current| {
      var sub := current + [next];
      var cut := |first| - |before| - |sub|;
      assert before + sub + tail == before + current + ([next] + tail);
      assert first == Flatten(other)[..|first|];
      TakePast(before, sub, tail, |first|);
      CostGrows(before, sub, tail[..cut]);
    }
  }

  lemma TakePast<T>(a: seq<T>, b: seq<T>, c: seq<T>, n: nat)
    requires |a| + |b| <= n <= |a| + |b| + |c|
    ensures (a + b + c)[..n] == a + b + c[..n - |a| - |b|]
  {
  }

  lemma FirstOff(front: seq<Layer>, rest: seq<Layer>, other: seq<seq<Layer>>)
    requires other != [] && Flatten(other) == front + rest && |other[0]| <= |front|
    ensures Flatten(other[1..]) == front[|other[0]|..] + rest
  {
    assert Flatten(other)[|other[0]|..] == Flatten(other[1..]);
  }

  /** Main result. The greedy cut keeps all layers in order, every chunk fits the
      budget or is one layer, and no contiguous partition within the budget has
      fewer chunks. */
  lemma GreedyIsBest(layers: seq<Layer>, other: seq<seq<Layer>>)
    requires layers != []
    ensures var chunks := Greedy([layers[0]], layers[1..]);
            && Flatten(chunks) == layers
            && (forall c :: c in chunks ==> c != [] && (Cost(c) <= 4300 || |c| == 1))
            && (Flatten(other) == layers && (forall c :: c in other ==> Fits(c)) ==> |chunks| <= |other|)
  {
    assert [layers[0]] + layers[1..] == layers;
    GreedyKeeps([layers[0]], layers[1..]);
    GreedyFits([layers[0]], layers[1..]);
    if Flatten(other) == layers && forall c :: c in other ==> Fits(c) {
      assert [] + [layers[0]] + layers[1..] == layers;
      StaysAhead([layers[0]], layers[1..], [], other);
    }
  }

  /** When every single layer fits, the greedy cut is within the budget itself. */
  lemma GreedyWithinBudget(layers: seq<Layer>)
    requires layers != [] && forall l :: l in layers ==> Fits([l])
    ensures forall c :: c in Greedy([layers[0]], layers[1..]) ==> Fits(c)
  {
    GreedyIsBest(layers, []);
    var chunks := Greedy([layers[0]], layers[1..]);
    forall c | c in chunks ensures Fits(c) {
      if |c| == 1 {
        InFlatten(chunks, c, c[0]);
        assert c == [c[0]];
      }
    }
  }

  lemma {:induction false} InFlatten<T>(chunks: seq<seq<T>>, c: seq<T>, x: T)
    requires c in chunks && x in c
    ensures x in Flatten(chunks)
  {
    if c != chunks[0] {
      InFlatten(chunks[1..], c, x);
    }
  }

  // --- the program ------------------------------------------------------------------------

  lemma ChunkJoins(program: seq<Layer>, offset: nat, n: nat)
    requires offset + n <= |program|
    ensures var chunk := Serialize(program[offset..offset + n]);
            && chunk != [] && chunk[0] == n
            && Flatten(program[..offset + n]) == Flatten(program[..offset]) + chunk[1..]
  {
    assert program[..offset + n] == program[..offset] + program[offset..offset + n];
    FlattenConcat(program[..offset], program[offset..offset + n]);
  }

  lemma ProgramStarts(program: seq<Layer>)
    ensures Serialize(program) == [|program|] + Flatten(program)
    ensures Flatten<Layer>([]) == [] && Flatten(program[..0]) == [] && Flatten(Tails([])) == [] && [|program|] + Flatten(program[..0]) == [|program|]
  {
  }

  lemma FlattenSnoc<T>(parts: seq<seq<T>>, part: seq<T>)
    ensures Flatten(parts + [part]) == Flatten(parts) + part
  {
    FlattenConcat(parts, [part]);
    assert Flatten([part]) == part + Flatten<T>([]) == part;
  }

  /** The program's chunks reproduce the program section: the self-check passes. Each
      is the length and the entries of one of the program's `parts`, all of them full
      but the last. */
  method ChunkProgram(program: seq<Layer>, chunkEntries: nat) returns (r: Option<seq<seq<nat>>>, ghost parts: seq<seq<Layer>>)
    requires chunkEntries > 0
    ensures r.Some?
    ensures [|program|] + Flatten(Tails(r.value)) == Serialize(program)
    ensures Flatten(parts) == program && |parts| == |r.value|
    ensures forall i :: 0 <= i < |parts| ==> r.value[i] == Serialize(parts[i]) && 0 < |parts[i]| <= chunkEntries
    ensures forall i :: 0 <= i < |parts| - 1 ==> |parts[i]| == chunkEntries
  {
    hide Serialize, Flatten, Tails;
    ProgramStarts(program);
    var felts := Serialize(program);
    var replayed := [felts[0]];
    var streams: seq<seq<nat>> := [];
    var offset := 0;
    parts := [];
    while offset != |program|
      invariant 0 <= offset <= |program|
      invariant replayed == [|program|] + Flatten(program[..offset])
      invariant Flatten(parts) == program[..offset] && |parts| == |streams|
      invariant forall i :: 0 <= i < |parts| ==> streams[i] == Serialize(parts[i]) && 0 < |parts[i]| <= chunkEntries
      invariant forall i :: 0 <= i < (if offset < |program| then |parts| else |parts| - 1) ==> |parts[i]| == chunkEntries
      invariant Flatten(Tails(streams)) == Flatten(program[..offset])
      decreases |program| - offset
    {
      var n := if chunkEntries < |program| - offset then chunkEntries else |program| - offset;
      var chunk := Serialize(program[offset..offset + n]);
      ChunkJoins(program, offset, n);
      TailsSnoc(streams, chunk);
      replayed := replayed + chunk[1..];
      streams := streams + [chunk];
      FlattenSnoc(parts, program[offset..offset + n]);
      parts := parts + [program[offset..offset + n]];
      assert program[..offset + n] == program[..offset] + program[offset..offset + n];
      offset := offset + n;
    }
    assert program[..offset] == program;
    if replayed != felts {
      return None, parts;
    }
    return Some(streams), parts;
  }

  /** The chunks without their length prefixes. */
  function Tails(streams: seq<seq<nat>>): seq<seq<nat>> {
    if streams == [] then []
    else [if streams[0] == [] then [] else streams[0][1..]] + Tails(streams[1..])
  }

  lemma {:induction false} TailsConcat(a: seq<seq<nat>>, b: seq<seq<nat>>)
    ensures Tails(a + b) == Tails(a) + Tails(b)
  {
    if a == [] {
      assert a + b == b;
    } else {
      assert (a + b)[1..] == a[1..] + b;
      TailsConcat(a[1..], b);
    }
  }

  lemma TailsSnoc(streams: seq<seq<nat>>, chunk: seq<nat>)
    requires chunk != []
    ensures Flatten(Tails(streams + [chunk])) == Flatten(Tails(streams)) + chunk[1..]
  {
    TailsConcat(streams, [chunk]);
    assert Tails([chunk][1..]) == [] && Tails([chunk]) == [chunk[1..]];
    FlattenConcat(Tails(streams), Tails([chunk]));
    assert Flatten([chunk[1..]][1..]) == [];
  }
}
