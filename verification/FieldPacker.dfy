/**
 `pack_v2` of tools/privacy-prove-cairo-bridge/src/main.rs: the same format
 from 64-bit words, summed up in a prime field, proved equal to the Python
 packer's.
 */
module FieldPacker {

  import opened Outcomes
  import opened PackCodec

  /** The little-endian 64-bit words of the big-endian bytes. */
  function Words(v: nat, k: nat): (r: seq<nat>)
    ensures |r| == k
  {
    if k == 0 then [] else [v % TWO_64] + Words(v / TWO_64, k - 1)
  }

  /** `(words[i / 2] >> (32 * (i % 2))) & 0xFFFFFFFF`. */
  function WordLimb(words: seq<nat>, i: nat): nat
    requires i / 2 < |words|
  {
    (if i % 2 == 0 then words[i / 2] else words[i / 2] / BASE) % BASE
  }

  lemma TwoLimbs(v: nat)
    ensures v % TWO_64 % BASE == v % BASE && v % TWO_64 / BASE % BASE == v / BASE % BASE && v / BASE / BASE == v / TWO_64
  {
    var q, r := v / TWO_64, v % TWO_64;
    assert v == BASE * (BASE * q) + r;
    assert v / BASE == BASE * q + r / BASE;
  }

  lemma {:induction false} WordsAreDigits(v: nat, k: nat, i: nat)
    requires i < 2 * k
    ensures Digits(v, 2 * k)[i] == WordLimb(Words(v, k), i)
  {
    hide Words, Digits;
    TwoLimbs(v);
    TwoDigits(v, 2 * k);
    FirstWord(v, k);
    if i >= 2 {
      WordsAreDigits(v / TWO_64, k - 1, i - 2);
    }
  }

  lemma TwoDigits(v: nat, k: nat)
    requires k >= 2
    ensures var d := Digits(v, k);
            && |d| == k && d[0] == v % BASE && d[1] == v / BASE % BASE && d[2..] == Digits(v / BASE / BASE, k - 2)
  {
    assert Digits(v, k)[1..] == Digits(v / BASE, k - 1);
    assert Digits(v / BASE, k - 1)[1..] == Digits(v / BASE / BASE, k - 2);
  }

  lemma FirstWord(v: nat, k: nat)
    requires k > 0
    ensures Words(v, k)[0] == v % TWO_64 && Words(v, k)[1..] == Words(v / TWO_64, k - 1)
  {
  }

  /** The upper words vanish exactly below 2^64. */
  lemma SmallWords(v: nat)
    requires v < Power(8)
    ensures var w := Words(v, 4); (w[1] == 0 && w[2] == 0 && w[3] == 0 <==> v < TWO_64) && w[0] == v % TWO_64
  {
    var a := v / TWO_64;
    var b := a / TWO_64;
    var c := b / TWO_64;
    assert Words(c, 1) == [c % TWO_64] + Words(c / TWO_64, 0);
    assert Words(b, 2) == [b % TWO_64] + Words(c, 1);
    assert Words(a, 3) == [a % TWO_64] + Words(b, 2);
    assert Words(v, 4) == [v % TWO_64] + Words(a, 3);
    Powers();
  }

  lemma WordsStep(before: seq<nat>, rest: nat, k: nat)
    requires k > 0
    ensures before + Words(rest, k) == (before + [rest % TWO_64]) + Words(rest / TWO_64, k - 1)
  {
  }

  method SplitWords(v: nat) returns (words: seq<nat>)
    ensures words == Words(v, 4)
  {
    hide Words;
    words := [];
    var rest: nat := v;
    for i := 0 to 4
      invariant words + Words(rest, 4 - i) == Words(v, 4)
    {
      WordsStep(words, rest, 4 - i);
      words := words + [rest % TWO_64];
      rest := rest / TWO_64;
    }
    assert Words(rest, 0) == [];
  }

  /** The limbs of one value. */
  method Limbs8(value: nat) returns (limbs: seq<nat>)
    requires value < P
    ensures Some(limbs) == Encode(value, true)
  {
    Powers();
    var words := SplitWords(value);
    SmallWords(value);
    if words[1] == 0 && words[2] == 0 && words[3] == 0 {
      var v := words[0];
      if v < FELT_ESCAPE {
        return [v];
      }
      assert v / BASE < BASE && v == value;
      assert Digits(v / BASE, 1) == [v / BASE % BASE] + Digits(v / BASE / BASE, 0);
      assert Digits(v, 2) == [v % BASE, v / BASE];
      assert [U32_MAX, v % BASE, v / BASE] == [U32_MAX] + [v % BASE, v / BASE];
      return [U32_MAX, v % BASE, v / BASE];
    }
    limbs := [FELT_ESCAPE];
    for k := 0 to 8
      invariant limbs == [FELT_ESCAPE] + Digits(value, 8)[..k]
    {
      WordsAreDigits(value, 4, k);
      limbs := limbs + [(if k % 2 == 0 then words[k / 2] else words[k / 2] / BASE) % BASE];
    }
    assert Digits(value, 8)[..8] == Digits(value, 8);
  }

  lemma Monotone(p: nat, a: nat, b: nat)
    requires a <= b
    ensures p * a <= p * b
  {
  }

  /** Up to seven limbs never wrap round the field. */
  lemma FieldStep(front: seq<nat>, limb: nat, power: nat, sum: nat)
    requires PackCodec.Limbs(front) && |front| < 7 && limb < BASE && power == Power(|front|) && sum == Value(front)
    ensures (power * BASE) % P == Power(|front| + 1)
    ensures (sum + (limb * power) % P) % P == Value(front + [limb])
  {
    DigitsOfValue(front, 7);
    PowerGrows(|front| + 1, 7);
    Powers();
    ValueSnoc(front, limb);
    NoWrap(power, limb, sum);
  }

  lemma ProductBound(power: nat, limb: nat)
    requires limb < BASE
    ensures limb * power == power * limb && 0 <= power * limb <= BASE * power - power
  {
    Monotone(power, 0, limb);
    Monotone(power, limb, BASE - 1);
  }

  lemma SumReduced(sum: nat, product: nat)
    requires sum + product < P
    ensures (sum + product % P) % P == sum + product
  {
    Small(product);
    Small(sum + product);
  }

  lemma NoWrap(power: nat, limb: nat, sum: nat)
    requires limb < BASE && sum < power && BASE * power < P
    ensures (power * BASE) % P == power * BASE
    ensures (sum + (limb * power) % P) % P == sum + power * limb
  {
    ProductBound(power, limb);
    SumReduced(sum, limb * power);
    Small(power * BASE);
  }

  lemma Small(x: nat)
    requires x < P
    ensures x % P == x
  {
  }

  /** One slot, in field arithmetic. */
  method FieldSum(chunk: seq<nat>) returns (slot: nat)
    requires PackCodec.Limbs(chunk) && |chunk| <= 7
    ensures slot == Value(chunk)
  {
    slot := 0;
    var shift := 1;
    for i := 0 to |chunk|
      invariant slot == Value(chunk[..i]) && shift == Power(i)
    {
      var front := chunk[..i];
      assert chunk[..i + 1] == front + [chunk[i]];
      assert chunk[i] in chunk && forall l :: l in front ==> l in chunk;
      FieldStep(front, chunk[i], shift, slot);
      slot := (slot + (chunk[i] * shift) % P) % P;
      shift := (shift * BASE) % P;
    }
    assert chunk[..|chunk|] == chunk;
  }

  /** Main result: the Rust packer yields the Python packer's slots. */
  method PackV2(values: seq<nat>) returns (slots: seq<nat>)
    requires forall v :: v in values ==> v < P
    ensures Some(slots) == Packed(values, true)
  {
    var limbs: seq<nat> := [];
    for i := 0 to |values|
      invariant EncodeAll(values[..i], true) == Some(limbs)
    {
      assert values[..i + 1] == values[..i] + [values[i]] && values[i] in values;
      EncodeSnoc(values[..i], values[i], true);
      var one := Limbs8(values[i]);
      limbs := limbs + one;
    }
    assert values[..|values|] == values;
    assert EncodeAll(values, true) == Some(limbs);
    EncodedLimbs(values, true);
    slots := [];
    var j := 0;
    assert limbs[0..] == limbs;
    while j < |limbs|
      invariant 0 <= j <= |limbs|
      invariant slots + Slots(limbs[j..]) == Slots(limbs)
    {
      SlotsStep(limbs, j);
      var end := if j + 7 <= |limbs| then j + 7 else |limbs|;
      assert forall l :: l in limbs[j..end] ==> l in limbs;
      var slot := FieldSum(limbs[j..end]);
      slots := slots + [slot];
      j := end;
    }
    assert slots + [] == slots;
  }
}
