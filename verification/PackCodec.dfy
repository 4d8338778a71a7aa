/**
 The packed calldata format: 7 little-endian 32-bit limbs a slot
 (scripts/pack_proof.py, and `pack_v2` of
 tools/privacy-prove-cairo-bridge/src/main.rs). On non-negative integers
 `& 0xFFFFFFFF` is % BASE and `>> 32` is / BASE.
 */
module PackCodec {

  import opened Outcomes

  const BASE: nat := 0x1_0000_0000
  const U32_MAX: nat := 0xFFFF_FFFF
  const FELT_ESCAPE: nat := 0xFFFF_FFFE
  const TWO_64: nat := 0x1_0000_0000_0000_0000

  /** The prime of the field the Rust packer adds slots up in. */
  const P: nat := 0x800000000000011000000000000000000000000000000000000000000000001

  /** BASE^k. */
  function Power(k: nat): (r: nat)
    ensures r > 0
  {
    if k == 0 then 1 else BASE * Power(k - 1)
  }

  /** k limbs of v, least first. */
  function Digits(v: nat, k: nat): (r: seq<nat>)
    ensures |r| == k && Limbs(r)
  {
    if k == 0 then [] else [v % BASE] + Digits(v / BASE, k - 1)
  }

  function Value(limbs: seq<nat>): nat {
    if limbs == [] then 0 else limbs[0] + BASE * Value(limbs[1..])
  }

  ghost predicate Limbs(limbs: seq<nat>) {
    forall l :: l in limbs ==> l < BASE
  }

  // --- the format --------------------------------------------------------------------

  /** The limbs of one value. Version 1 refuses what does not fit 64 bits. */
  function Encode(v: nat, v2: bool): Option<seq<nat>> {
    if v < (if v2 then FELT_ESCAPE else U32_MAX) then Some([v])
    else if v < TWO_64 then Some([U32_MAX] + Digits(v, 2))
    else if v2 then Some([FELT_ESCAPE] + Digits(v, 8))
    else None
  }

  lemma FirstLimbs(v: nat, k: nat)
    requires k >= 2
    ensures Digits(v, k)[0] == v % BASE && Digits(v, k)[1] == v / BASE % BASE
    ensures v < TWO_64 ==> Digits(v, 2) == [v % BASE, v / BASE]
  {
    assert Digits(v, k) == [v % BASE] + Digits(v / BASE, k - 1);
    assert Digits(v / BASE, k - 1) == [v / BASE % BASE] + Digits(v / BASE / BASE, k - 2);
    if v < TWO_64 {
      assert v / BASE < BASE;
      assert Digits(v, 2) == [v % BASE] + ([v / BASE] + []);
    }
  }

  /** One limb below the escapes, an escape and two limbs below 2^64, else, in version
      2 only, the other escape and eight limbs. */
  lemma EncodesAs(v: nat, v2: bool)
    ensures v < 0xFFFF_FFFE || (!v2 && v == 0xFFFF_FFFE) ==> Encode(v, v2) == Some([v])
    ensures v >= 0xFFFF_FFFF && v < 0x1_0000_0000_0000_0000 ==>
              Encode(v, v2) == Some([0xFFFF_FFFF, v % 0x1_0000_0000, v / 0x1_0000_0000])
    ensures v2 && v == 0xFFFF_FFFE ==> Encode(v, v2) == Some([0xFFFF_FFFF, 0xFFFF_FFFE, 0])
    ensures v >= 0x1_0000_0000_0000_0000 ==>
              (Encode(v, v2).Some? <==> v2)
              && (v2 ==> |Encode(v, v2).value| == 9 && Encode(v, v2).value[0] == 0xFFFF_FFFE
                         && Encode(v, v2).value[1] == v % 0x1_0000_0000 && Encode(v, v2).value[2] == v / 0x1_0000_0000 % 0x1_0000_0000)
  {
    hide Digits;
    FirstLimbs(v, 2);
    FirstLimbs(v, 8);
    assert [U32_MAX] + [v % BASE, v / BASE] == [U32_MAX, v % BASE, v / BASE];
  }

  function EncodeAll(vs: seq<nat>, v2: bool): Option<seq<nat>> {
    if vs == [] then Some([])
    else
      var first, rest := Encode(vs[0], v2), EncodeAll(vs[1..], v2);
      if first.None? || rest.None? then None else Some(first.value + rest.value)
  }

  function Slots(limbs: seq<nat>): seq<nat>
    decreases |limbs|
  {
    if limbs == [] then []
    else if |limbs| <= 7 then [Value(limbs)]
    else [Value(limbs[..7])] + Slots(limbs[7..])
  }

  function Packed(vs: seq<nat>, v2: bool): Option<seq<nat>> {
    var limbs := EncodeAll(vs, v2);
    if limbs.None? then None else Some(Slots(limbs.value))
  }

  function LimbsOf(slots: seq<nat>): seq<nat> {
    if slots == [] then [] else Digits(slots[0], 7) + LimbsOf(slots[1..])
  }

  /** The first n values the limbs spell; None where the source runs past them. */
  function Decode(limbs: seq<nat>, n: nat, v2: bool): Option<seq<nat>>
    decreases n
  {
    if n == 0 then Some([])
    else if limbs == [] then None
    else if limbs[0] == U32_MAX then
      if |limbs| < 3 then None else Cons(limbs[1] + BASE * limbs[2], Decode(limbs[3..], n - 1, v2))
    else if v2 && limbs[0] == FELT_ESCAPE then
      if |limbs| < 9 then None else Cons(Value(limbs[1..9]), Decode(limbs[9..], n - 1, v2))
    else Cons(limbs[0], Decode(limbs[1..], n - 1, v2))
  }

  function Cons(v: nat, rest: Option<seq<nat>>): Option<seq<nat>> {
    if rest.None? then None else Some([v] + rest.value)
  }

  // --- the Python packer ----------------------------------------------------------------

  lemma EncodeSnoc(vs: seq<nat>, v: nat, v2: bool)
    ensures EncodeAll(vs + [v], v2)
            == if EncodeAll(vs, v2).None? || Encode(v, v2).None? then None
               else Some(EncodeAll(vs, v2).value + Encode(v, v2).value)
  {
    if vs == [] {
      assert EncodeAll([v][1..], v2) == Some([]);
      assert vs + [v] == [v];
      if Encode(v, v2).Some? {
        assert Encode(v, v2).value + [] == Encode(v, v2).value == [] + Encode(v, v2).value;
      }
    } else {
      hide Encode;
      assert (vs + [v])[1..] == vs[1..] + [v];
      EncodeSnoc(vs[1..], v, v2);
      if EncodeAll(vs, v2).Some? && Encode(v, v2).Some? {
        var first, rest, last := Encode(vs[0], v2).value, EncodeAll(vs[1..], v2).value, Encode(v, v2).value;
        assert (first + rest) + last == first + (rest + last);
      }
    }
  }

  /** A refused value refuses the whole sequence. */
  lemma {:induction false} EncodeRefuses(vs: seq<nat>, i: nat, v2: bool)
    requires i < |vs| && Encode(vs[i], v2).None?
    ensures EncodeAll(vs, v2).None?
  {
    if i > 0 {
      EncodeRefuses(vs[1..], i - 1, v2);
    }
  }

  lemma DigitsStep(before: seq<nat>, rest: nat, k: nat)
    requires k > 0
    ensures before + Digits(rest, k) == (before + [rest % BASE]) + Digits(rest / BASE, k - 1)
  {
  }

  method TakeLimbs(v: nat, k: nat) returns (limbs: seq<nat>)
    ensures limbs == Digits(v, k)
  {
    hide Digits;
    limbs := [];
    var rest: nat := v;
    for i := 0 to k
      invariant limbs + Digits(rest, k - i) == Digits(v, k)
    {
      ghost var before := limbs;
      DigitsStep(before, rest, k - i);
      limbs := limbs + [rest % BASE];
      rest := rest / BASE;
    }
    assert Digits(rest, 0) == [];
  }

  method Pack(values: seq<nat>, v2: bool) returns (slots: Option<seq<nat>>)
    ensures slots == Packed(values, v2)
  {
    var bound := if v2 then FELT_ESCAPE else U32_MAX;
    var limbs: seq<nat> := [];
    for i := 0 to |values|
      invariant EncodeAll(values[..i], v2) == Some(limbs)
    {
      var v := values[i];
      assert values[..i + 1] == values[..i] + [v];
      EncodeSnoc(values[..i], v, v2);
      if v < bound {
        limbs := limbs + [v];
      } else if v < TWO_64 {
        var pair := TakeLimbs(v, 2);
        limbs := limbs + ([U32_MAX] + pair);
      } else {
        if !v2 {
          EncodeRefuses(values, i, v2);
          return None;
        }
        var felt := TakeLimbs(v, 8);
        limbs := limbs + ([FELT_ESCAPE] + felt);
      }
    }
    assert values[..|values|] == values;
    var packed := CutSlots(limbs);
    return Some(packed);
  }

  /** A slot before the last is full. */
  lemma SlotsStep(limbs: seq<nat>, j: nat)
    requires j < |limbs|
    ensures var end := if j + 7 <= |limbs| then j + 7 else |limbs|;
            Slots(limbs[j..]) == [Value(limbs[j..end])] + Slots(limbs[end..])
  {
    if j + 7 <= |limbs| {
      assert limbs[j..][..7] == limbs[j..j + 7] && limbs[j..][7..] == limbs[j + 7..];
      if |limbs| == j + 7 {
        assert limbs[j..j + 7] == limbs[j..];
      }
    } else {
      assert limbs[j..|limbs|] == limbs[j..];
    }
  }

  method CutSlots(limbs: seq<nat>) returns (slots: seq<nat>)
    ensures slots == Slots(limbs)
  {
    slots := [];
    var j := 0;
    assert limbs[0..] == limbs;
    while j < |limbs|
      invariant 0 <= j <= |limbs|
      invariant slots + Slots(limbs[j..]) == Slots(limbs)
    {
      SlotsStep(limbs, j);
      var end := if j + 7 <= |limbs| then j + 7 else |limbs|;
      var slot := ShiftedSum(limbs[j..end]);
      slots := slots + [slot];
      j := end;
    }
  }

  lemma {:induction false} ValueSnoc(limbs: seq<nat>, l: nat)
    ensures Value(limbs + [l]) == Value(limbs) + Power(|limbs|) * l
  {
    if limbs == [] {
      assert Value([l]) == l + BASE * Value([l][1..]);
    } else {
      assert (limbs + [l])[1..] == limbs[1..] + [l];
      ValueSnoc(limbs[1..], l);
      assert BASE * (Power(|limbs| - 1) * l) == Power(|limbs|) * l;
    }
  }

  /** `sum(l << (32 * i))`. */
  method ShiftedSum(chunk: seq<nat>) returns (slot: nat)
    ensures slot == Value(chunk)
  {
    slot := 0;
    var shift := 1;
    for i := 0 to |chunk|
      invariant slot == Value(chunk[..i]) && shift == Power(i)
    {
      assert chunk[..i + 1] == chunk[..i] + [chunk[i]];
      ValueSnoc(chunk[..i], chunk[i]);
      slot := slot + shift * chunk[i];
      shift := BASE * shift;
    }
    assert chunk[..|chunk|] == chunk;
  }

  /** The unpacking loop; an index past the limbs is an error of the source. */
  lemma LimbsStep(before: seq<nat>, slots: seq<nat>, j: nat)
    requires j < |slots|
    ensures before + LimbsOf(slots[j..]) == (before + Digits(slots[j], 7)) + LimbsOf(slots[j + 1..])
  {
    hide Digits;
    assert slots[j..][1..] == slots[j + 1..];
  }

  lemma LimbsStart(slots: seq<nat>)
    ensures [] + LimbsOf(slots[0..]) == LimbsOf(slots) && LimbsOf(slots[|slots|..]) == []
  {
    assert slots[0..] == slots;
  }

  method Unpack(slots: seq<nat>, n: nat, v2: bool) returns (values: Option<seq<nat>>)
    ensures values == Decode(LimbsOf(slots), n, v2)
  {
    hide LimbsOf, Digits, Decode;
    var limbs: seq<nat> := [];
    LimbsStart(slots);
    for j := 0 to |slots|
      invariant limbs + LimbsOf(slots[j..]) == LimbsOf(slots)
    {
      LimbsStep(limbs, slots, j);
      var seven := TakeLimbs(slots[j], 7);
      limbs := limbs + seven;
    }
    assert limbs == LimbsOf(slots);
    values := ReadValues(limbs, n, v2);
  }

  function Prefixed(out: seq<nat>, rest: Option<seq<nat>>): Option<seq<nat>> {
    if rest.None? then None else Some(out + rest.value)
  }

  lemma PrefixedCons(out: seq<nat>, v: nat, rest: Option<seq<nat>>)
    ensures Prefixed(out + [v], rest) == Prefixed(out, Cons(v, rest))
  {
    if rest.Some? {
      assert out + [v] + rest.value == out + ([v] + rest.value);
    }
  }

  lemma SliceTwice(limbs: seq<nat>, i: nat, from: nat, to: nat)
    requires i <= |limbs| && from <= to <= |limbs| - i
    ensures limbs[i..][from..to] == limbs[i + from..i + to]
    ensures limbs[i..][from..] == limbs[i + from..]
  {
  }

  method ReadValues(limbs: seq<nat>, n: nat, v2: bool) returns (values: Option<seq<nat>>)
    ensures values == Decode(limbs, n, v2)
  {
    var out: seq<nat> := [];
    var i := 0;
    assert limbs[0..] == limbs;
    assert Prefixed([], Decode(limbs, n, v2)) == Decode(limbs, n, v2) by {
      assert Decode(limbs, n, v2).Some? ==> [] + Decode(limbs, n, v2).value == Decode(limbs, n, v2).value;
    }
    while |out| != n
      invariant |out| <= n && 0 <= i <= |limbs|
      invariant Prefixed(out, Decode(limbs[i..], n - |out|, v2)) == Decode(limbs, n, v2)
      decreases n - |out|
    {
      if i >= |limbs| {
        return None;
      }
      var limb, v, used := limbs[i], limbs[i], 1;
      if limb == U32_MAX {
        if i + 2 >= |limbs| {
          return None;
        }
        v, used := limbs[i + 1] + BASE * limbs[i + 2], 3;
      } else if v2 && limb == FELT_ESCAPE {
        if i + 8 >= |limbs| {
          return None;
        }
        SliceTwice(limbs, i, 1, 9);
        v := ShiftedSum(limbs[i + 1..i + 9]);
        used := 9;
      }
      SliceTwice(limbs, i, used, |limbs| - i);
      PrefixedCons(out, v, Decode(limbs[i + used..], n - |out| - 1, v2));
      out := out + [v];
      i := i + used;
    }
    assert out + [] == out;
    return Some(out);
  }

  // --- round trips -------------------------------------------------------------------------

  lemma {:induction false} ValueOfDigits(v: nat, k: nat)
    ensures Value(Digits(v, k)) < Power(k)
    ensures v < Power(k) ==> Value(Digits(v, k)) == v
  {
    if k > 0 {
      ValueOfDigits(v / BASE, k - 1);
      assert Digits(v, k)[1..] == Digits(v / BASE, k - 1);
    }
  }

  lemma DivMod(low: nat, high: nat)
    requires low < BASE
    ensures (low + BASE * high) % BASE == low && (low + BASE * high) / BASE == high
  {
  }

  lemma {:induction false} DigitsOfValue(limbs: seq<nat>, k: nat)
    requires Limbs(limbs) && |limbs| <= k
    ensures Digits(Value(limbs), k) == limbs + Zeros(k - |limbs|)
    ensures Value(limbs) < Power(|limbs|)
    decreases k
  {
    if limbs == [] {
      ZeroDigits(k);
    } else {
      assert limbs[0] in limbs && forall l :: l in limbs[1..] ==> l in limbs;
      DigitsOfValue(limbs[1..], k - 1);
      DivMod(limbs[0], Value(limbs[1..]));
      assert limbs == [limbs[0]] + limbs[1..];
    }
  }

  function Zeros(n: nat): (r: seq<nat>)
    ensures |r| == n
  {
    if n == 0 then [] else [0] + Zeros(n - 1)
  }

  lemma {:induction false} ZeroDigits(k: nat)
    ensures Digits(0, k) == Zeros(k)
  {
    if k > 0 {
      ZeroDigits(k - 1);
    }
  }

  /** What the zero padding of the last slot adds. */
  function Padding(n: nat): nat {
    if n <= 7 then (if n == 0 then 0 else 7 - n) else Padding(n - 7)
  }

  lemma LimbsOfCons(slot: nat, rest: seq<nat>)
    ensures LimbsOf([slot] + rest) == Digits(slot, 7) + LimbsOf(rest)
  {
    assert ([slot] + rest)[1..] == rest;
  }

  lemma FullSlotPads(n: nat)
    requires n > 0
    ensures Padding(7 + n) == Padding(n)
  {
  }

  lemma FullSlotReads(front: seq<nat>)
    requires Limbs(front) && |front| == 7
    ensures Digits(Value(front), 7) == front
  {
    DigitsOfValue(front, 7);
    assert Zeros(0) == [] && front + [] == front;
  }

  lemma Associates(a: seq<nat>, b: seq<nat>, c: seq<nat>)
    ensures a + (b + c) == (a + b) + c
  {
  }

  /** One full slot in front. */
  lemma FullSlot(front: seq<nat>, rest: seq<nat>, slots: seq<nat>)
    requires Limbs(front) && |front| == 7 && LimbsOf(slots) == rest + Zeros(Padding(|rest|)) && rest != []
    ensures LimbsOf([Value(front)] + slots) == (front + rest) + Zeros(Padding(|front + rest|))
  {
    hide *;
    FullSlotReads(front);
    FullSlotPads(|rest|);
    LimbsOfCons(Value(front), slots);
    Associates(front, rest, Zeros(Padding(|rest|)));
    assert |front + rest| == 7 + |rest|;
  }

  /** Reading the slots back gives the limbs and the padding. */
  lemma {:induction false} SlotsRoundTrip(limbs: seq<nat>)
    requires Limbs(limbs)
    ensures LimbsOf(Slots(limbs)) == limbs + Zeros(Padding(|limbs|))
    decreases |limbs|
  {
    hide Digits, Value, Power;
    if limbs == [] {
    } else if |limbs| <= 7 {
      DigitsOfValue(limbs, 7);
      LimbsOfCons(Value(limbs), []);
    } else {
      var front, rest := limbs[..7], limbs[7..];
      assert forall l :: l in front || l in rest ==> l in limbs;
      SlotsRoundTrip(rest);
      FullSlot(front, rest, Slots(rest));
      assert limbs == front + rest;
    }
  }

  /** Every slot is below 2^224, so it fits a field element. */
  lemma {:induction false} SlotsFit(limbs: seq<nat>)
    requires Limbs(limbs)
    ensures forall s :: s in Slots(limbs) ==> s < Power(7)
    decreases |limbs|
  {
    if limbs == [] {
    } else if |limbs| <= 7 {
      DigitsOfValue(limbs, 7);
      PowerGrows(|limbs|, 7);
    } else {
      assert forall l :: l in limbs[..7] || l in limbs[7..] ==> l in limbs;
      DigitsOfValue(limbs[..7], 7);
      SlotsFit(limbs[7..]);
    }
  }

  lemma {:induction false} PowerGrows(a: nat, b: nat)
    requires a <= b
    ensures Power(a) <= Power(b)
    decreases b
  {
    if a < b {
      PowerGrows(a, b - 1);
    }
  }

  lemma {:induction false} EncodedLimbs(vs: seq<nat>, v2: bool)
    requires EncodeAll(vs, v2).Some?
    ensures Limbs(EncodeAll(vs, v2).value)
  {
    if vs != [] {
      EncodedLimbs(vs[1..], v2);
    }
  }

  /** What a value decodes to: version 2 keeps its 256 low bits. */
  function Carried(v: nat): nat {
    if v < TWO_64 then v else Value(Digits(v, 8))
  }

  function CarriedAll(vs: seq<nat>): (r: seq<nat>)
    ensures |r| == |vs| && forall i :: 0 <= i < |vs| ==> r[i] == Carried(vs[i])
  {
    if vs == [] then [] else [Carried(vs[0])] + CarriedAll(vs[1..])
  }

  /** A value's limbs, whatever follows, decode to it. */
  lemma DecodeOne(v: nat, v2: bool, rest: seq<nat>, n: nat)
    requires Encode(v, v2).Some?
    ensures Decode(Encode(v, v2).value + rest, n + 1, v2) == Cons(Carried(v), Decode(rest, n, v2))
  {
    var limbs := Encode(v, v2).value + rest;
    if v < (if v2 then FELT_ESCAPE else U32_MAX) {
      assert limbs[1..] == rest;
    } else if v < TWO_64 {
      assert limbs[3..] == rest && limbs[1] == v % BASE && limbs[2] == Digits(v, 2)[1] == Digits(v / BASE, 1)[0];
      assert v / BASE < BASE;
      assert limbs[1] + BASE * limbs[2] == v;
    } else {
      assert limbs[9..] == rest && limbs[1..9] == Digits(v, 8);
    }
  }

  lemma {:induction false} DecodeEncoded(vs: seq<nat>, v2: bool, rest: seq<nat>)
    requires EncodeAll(vs, v2).Some?
    ensures Decode(EncodeAll(vs, v2).value + rest, |vs|, v2) == Some(CarriedAll(vs))
  {
    if vs != [] {
      var first, tail := Encode(vs[0], v2).value, EncodeAll(vs[1..], v2).value;
      assert (first + tail) + rest == first + (tail + rest);
      DecodeOne(vs[0], v2, tail + rest, |vs| - 1);
      DecodeEncoded(vs[1..], v2, rest);
    }
  }

  lemma Powers()
    ensures Power(2) == TWO_64
    ensures Power(7) == 0x100000000000000000000000000000000000000000000000000000000
    ensures Power(8) == 0x10000000000000000000000000000000000000000000000000000000000000000
  {
    assert Power(1) == BASE * Power(0);
    assert Power(2) == BASE * Power(1);
    assert Power(3) == BASE * Power(2);
    assert Power(4) == BASE * Power(3);
    assert Power(5) == BASE * Power(4);
    assert Power(6) == BASE * Power(5);
    assert Power(7) == BASE * Power(6);
    assert Power(8) == BASE * Power(7);
  }

  /** Main result. Whatever packs unpacks to the same values exactly when they all
      fit 256 bits, across escapes that straddle slots and the zero padding. */
  lemma RoundTripExactly(vs: seq<nat>, v2: bool)
    requires Packed(vs, v2).Some?
    ensures Decode(LimbsOf(Packed(vs, v2).value), |vs|, v2) == Some(vs) <==> forall v :: v in vs ==> v < Power(8)
  {
    var limbs := EncodeAll(vs, v2).value;
    EncodedLimbs(vs, v2);
    SlotsRoundTrip(limbs);
    DecodeEncoded(vs, v2, Zeros(Padding(|limbs|)));
    Powers();
    PowerGrows(2, 8);
    forall v | v in vs ensures Carried(v) == v <==> v < Power(8) {
      ValueOfDigits(v, 8);
    }
    if CarriedAll(vs) == vs {
      forall v | v in vs ensures v < Power(8) {
        var i :| 0 <= i < |vs| && vs[i] == v;
        assert CarriedAll(vs)[i] == Carried(v);
      }
    }
  }

  /** Version 2 packs everything; version 1 exactly what fits 64 bits. */
  lemma {:induction false} PacksExactly(vs: seq<nat>, v2: bool)
    ensures Packed(vs, v2).Some? <==> v2 || forall v :: v in vs ==> v < TWO_64
  {
    if vs != [] {
      PacksExactly(vs[1..], v2);
      assert vs[0] in vs && forall v :: v in vs[1..] ==> v in vs;
      assert forall v :: v in vs ==> v == vs[0] || v in vs[1..];
    }
  }
}
