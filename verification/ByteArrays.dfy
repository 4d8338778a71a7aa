/**
 Cairo's ByteArray layout: `[full words, word..., pending word, pending length]`
 with 31-byte big-endian words (tools/zkmsg/core/src/chain.rs and crypto.rs).
 A felt is its integer; a byte is a number below 256.
 */
module ByteArrays {

  const P: nat := 0x800000000000011000000000000000000000000000000000000000000000001
  const TWO_64: nat := 0x1_0000_0000_0000_0000

  ghost predicate Bytes(s: seq<nat>) {
    forall b :: b in s ==> b < 256
  }

  ghost predicate Below(words: seq<nat>, bound: nat) {
    forall w :: w in words ==> w < bound
  }

  /** 256^n. */
  function Pow(n: nat): (r: nat)
    ensures r > 0
  {
    if n == 0 then 1 else 256 * Pow(n - 1)
  }

  /** The big-endian number. */
  function Number(s: seq<nat>): nat {
    if s == [] then 0 else 256 * Number(s[..|s| - 1]) + s[|s| - 1]
  }

  /** The n low bytes, big-endian. */
  function LowBytes(v: nat, n: nat): (r: seq<nat>)
    ensures |r| == n && Bytes(r)
  {
    if n == 0 then [] else LowBytes(v / 256, n - 1) + [v % 256]
  }

  lemma {:induction false} NumberBound(s: seq<nat>)
    requires Bytes(s)
    ensures Number(s) < Pow(|s|)
  {
    if s != [] {
      var front, last := s[..|s| - 1], s[|s| - 1];
      assert last in s && forall b :: b in front ==> b in s;
      NumberBound(front);
    }
  }

  lemma {:induction false} LowOfNumber(s: seq<nat>)
    requires Bytes(s)
    ensures LowBytes(Number(s), |s|) == s && Number(s) < Pow(|s|)
  {
    hide Pow;
    NumberBound(s);
    if s != [] {
      var front, last := s[..|s| - 1], s[|s| - 1];
      assert last in s && forall b :: b in front ==> b in s;
      LowOfNumber(front);
      LowSnoc(Number(front), last, |front|);
      assert Number(s) == 256 * Number(front) + last && s == front + [last];
    }
  }

  lemma LowSnoc(high: nat, low: nat, n: nat)
    requires low < 256
    ensures LowBytes(256 * high + low, n + 1) == LowBytes(high, n) + [low]
  {
    DivMod256(high, low);
  }

  lemma DivMod256(high: nat, low: nat)
    requires low < 256
    ensures (256 * high + low) / 256 == high && (256 * high + low) % 256 == low
  {
  }

  lemma QuotientLess(v: nat, q: nat)
    ensures v / 256 < q <==> v < 256 * q
    ensures v == 256 * (v / 256) + v % 256
  {
  }

  lemma NumberSnoc(front: seq<nat>, last: nat)
    ensures Number(front + [last]) == 256 * Number(front) + last
  {
    assert (front + [last])[..|front|] == front;
  }

  /** The low bytes give the number back exactly when it has no more. */
  lemma {:induction false} NumberOfLow(v: nat, n: nat)
    ensures Number(LowBytes(v, n)) == v <==> v < Pow(n)
    ensures Number(LowBytes(v, n)) < Pow(n)
  {
    hide Number;
    if n == 0 {
      assert Number([]) == 0 by {
        NumberBound([]);
      }
    } else {
      NumberOfLow(v / 256, n - 1);
      NumberSnoc(LowBytes(v / 256, n - 1), v % 256);
      QuotientLess(v, Pow(n - 1));
    }
  }

  function Zeros(n: nat): (r: seq<nat>)
    ensures |r| == n
  {
    if n == 0 then [] else Zeros(n - 1) + [0]
  }

  lemma {:induction false} LeadingZeros(n: nat, s: seq<nat>)
    ensures Number(Zeros(n) + s) == Number(s)
  {
    if s == [] {
      assert Zeros(n) + s == Zeros(n);
      if n > 0 {
        LeadingZeros(n - 1, []);
        assert Zeros(n)[..n - 1] == Zeros(n - 1) == Zeros(n - 1) + [];
      }
    } else {
      LeadingZeros(n, s[..|s| - 1]);
      assert (Zeros(n) + s)[..n + |s| - 1] == Zeros(n) + s[..|s| - 1];
    }
  }

  // --- encoding ---------------------------------------------------------------------

  /** The full words. */
  function Words(s: seq<nat>): seq<nat> {
    if |s| < 31 then [] else [Number(s[..31])] + Words(s[31..])
  }

  /** What the full words leave over. */
  function Pending(s: seq<nat>): (r: seq<nat>)
    ensures |r| < 31
  {
    if |s| < 31 then s else Pending(s[31..])
  }

  function Encoded(s: seq<nat>): seq<nat> {
    [|Words(s)|] + Words(s) + [Number(Pending(s)), |Pending(s)|]
  }

  lemma {:induction false} SplitAt(s: seq<nat>)
    ensures |Words(s)| == |s| / 31 && Pending(s) == s[|s| / 31 * 31..]
  {
    if |s| >= 31 {
      SplitAt(s[31..]);
    }
  }

  lemma {:induction false} WordsStep(s: seq<nat>, i: nat)
    requires 31 * i + 31 <= |s|
    ensures Words(s[31 * i..]) == [Number(s[31 * i..31 * i + 31])] + Words(s[31 * (i + 1)..])
  {
    assert s[31 * i..][..31] == s[31 * i..31 * i + 31] && s[31 * i..][31..] == s[31 * (i + 1)..];
  }

  lemma NoWordsLeft(s: seq<nat>, i: nat)
    requires i == |s| / 31
    ensures Words(s[31 * i..]) == []
  {
  }

  /** `felt_from_be_bytes`: through a zeroed 32-byte buffer. */
  function FeltFromBuffer(chunk: seq<nat>): nat
    requires |chunk| <= 32
  {
    Number(Zeros(32 - |chunk|) + chunk)
  }

  /** chain.rs. */
  method BytearrayCalldata(bytes: seq<nat>) returns (out: seq<nat>)
    ensures out == Encoded(bytes)
  {
    var fullWords := |bytes| / 31;
    SplitAt(bytes);
    out := [fullWords];
    assert bytes[31 * 0..] == bytes;
    for i := 0 to fullWords
      invariant out + Words(bytes[31 * i..]) == [fullWords] + Words(bytes)
    {
      WordsStep(bytes, i);
      var chunk := bytes[31 * i..31 * i + 31];
      LeadingZeros(1, chunk);
      out := out + [FeltFromBuffer(chunk)];
    }
    NoWordsLeft(bytes, fullWords);
    assert out + [] == out;
    var pending := bytes[fullWords * 31..];
    LeadingZeros(32 - |pending|, pending);
    out := out + [FeltFromBuffer(pending)];
    out := out + [|pending|];
  }

  /** crypto.rs: the encoder behind the content hash; both agree. */
  method BytearrayFelts(bytes: seq<nat>) returns (out: seq<nat>)
    ensures out == Encoded(bytes)
  {
    var fullWords := |bytes| / 31;
    SplitAt(bytes);
    out := [fullWords];
    assert bytes[31 * 0..] == bytes;
    for i := 0 to fullWords
      invariant out + Words(bytes[31 * i..]) == [fullWords] + Words(bytes)
    {
      WordsStep(bytes, i);
      out := out + [Number(bytes[31 * i..31 * i + 31])];
    }
    NoWordsLeft(bytes, fullWords);
    assert out + [] == out;
    var pending := bytes[fullWords * 31..];
    out := out + [Number(pending)];
    out := out + [|pending|];
  }

  /** Every felt of the encoding is below the prime. */
  lemma EncodedFits(s: seq<nat>)
    requires Bytes(s) && |s| < TWO_64
    ensures forall f :: f in Encoded(s) ==> f < P
  {
    SplitAt(s);
    WordsFit(s);
    assert forall b :: b in Pending(s) ==> b in s;
    LowOfNumber(Pending(s));
    PowGrows(|Pending(s)|, 31);
    Pow31();
  }

  lemma {:induction false} WordsFit(s: seq<nat>)
    requires Bytes(s)
    ensures forall f :: f in Words(s) ==> f < Pow(31)
  {
    hide Number, LowBytes, Pow;
    if |s| >= 31 {
      assert forall b :: b in s[..31] || b in s[31..] ==> b in s;
      LowOfNumber(s[..31]);
      WordsFit(s[31..]);
    }
  }

  lemma {:induction false} PowGrows(a: nat, b: nat)
    requires a <= b
    ensures Pow(a) <= Pow(b)
    decreases b
  {
    if a < b {
      PowGrows(a, b - 1);
    }
  }

  lemma Regroup(x: nat, y: nat)
    ensures (256 * x) * y == 256 * (x * y)
  {
  }

  lemma {:induction false} PowAdds(a: nat, b: nat)
    ensures Pow(a + b) == Pow(a) * Pow(b)
  {
    hide LowBytes;
    if a > 0 {
      PowAdds(a - 1, b);
      Regroup(Pow(a - 1), Pow(b));
    }
  }

  lemma Pow31()
    ensures Pow(31) == 0x100000000000000000000000000000000000000000000000000000000000000
  {
    assert Pow(1) == 256 && Pow(2) == 0x10000 && Pow(3) == 0x1000000 && Pow(4) == 0x1_0000_0000;
    PowAdds(4, 4);
    PowAdds(8, 8);
    PowAdds(16, 8);
    PowAdds(24, 4);
    PowAdds(28, 3);
  }

  // --- decoding ----------------------------------------------------------------------

  /** `Panics` is an index or arithmetic panic of the source, not an error it returns. */
  datatype Decoded = Ok(bytes: seq<nat>, consumed: nat) | Malformed | Panics

  function WordBytes(words: seq<nat>): seq<nat> {
    if words == [] then [] else LowBytes(words[0], 31) + WordBytes(words[1..])
  }

  function Decode(data: seq<nat>): Decoded {
    if data == [] || data[0] >= TWO_64 then Malformed
    else if data[0] + 3 >= TWO_64 then Panics
    else if |data| < data[0] + 3 then Malformed
    else
      var n := data[0];
      if data[n + 2] >= TWO_64 then Malformed
      else if data[n + 2] > 32 then Panics
      else Ok(WordBytes(data[1..n + 1]) + LowBytes(data[n + 1], data[n + 2]), n + 3)
  }

  method BytearrayDecode(data: seq<nat>) returns (r: Decoded)
    ensures r == Decode(data)
  {
    if data == [] || data[0] >= TWO_64 {
      return Malformed;
    }
    var nWords := data[0];
    if nWords + 3 >= TWO_64 {
      return Panics;
    }
    if |data| < nWords + 3 {
      return Malformed;
    }
    var bytes: seq<nat> := [];
    var words := data[1..1 + nWords];
    assert words[0..] == words;
    for i := 0 to |words|
      invariant bytes + WordBytes(words[i..]) == WordBytes(words)
    {
      assert words[i..][1..] == words[i + 1..];
      bytes := bytes + LowBytes(words[i], 31);
    }
    assert bytes + [] == bytes;
    var pendingLen := data[1 + nWords + 1];
    if pendingLen >= TWO_64 {
      return Malformed;
    }
    if pendingLen > 32 {
      return Panics;
    }
    bytes := bytes + LowBytes(data[1 + nWords], pendingLen);
    return Ok(bytes, 1 + nWords + 2);
  }

  /** What decodes, and what is a panic instead of an error: the input is words and a
      last word between a count and a length, and the length is at most 32. */
  lemma DecodesExactly(data: seq<nat>)
    ensures Decode(data).Ok? <==>
              data != [] && data[0] + 3 < 0x1_0000_0000_0000_0000 && data[0] + 3 <= |data| && data[data[0] + 2] <= 32
    ensures Decode(data).Ok? ==> |Decode(data).bytes| == 31 * data[0] + data[data[0] + 2] && Decode(data).consumed == data[0] + 3
    ensures Decode(data).Panics? <==>
              data != [] && data[0] < 0x1_0000_0000_0000_0000
              && (data[0] + 3 >= 0x1_0000_0000_0000_0000
                  || (data[0] + 3 <= |data| && 32 < data[data[0] + 2] < 0x1_0000_0000_0000_0000))
  {
    if Decode(data).Ok? {
      WordBytesLength(data[1..data[0] + 1]);
    }
  }

  lemma {:induction false} WordBytesLength(words: seq<nat>)
    ensures |WordBytes(words)| == 31 * |words|
  {
    if words != [] {
      WordBytesLength(words[1..]);
    }
  }

  lemma {:induction false} WordsBack(s: seq<nat>)
    requires Bytes(s)
    ensures WordBytes(Words(s)) + Pending(s) == s
  {
    hide LowBytes, Number, Pow;
    if |s| < 31 {
    } else {
      assert forall b :: b in s[..31] || b in s[31..] ==> b in s;
      LowOfNumber(s[..31]);
      WordsBack(s[31..]);
      assert s == s[..31] + s[31..];
      assert s[..31] + (WordBytes(Words(s[31..])) + Pending(s[31..])) == (s[..31] + WordBytes(Words(s[31..]))) + Pending(s[31..]);
    }
  }

  /** Main result: decoding an encoding, whatever follows it, gives the bytes back
      and stops exactly behind it. */
  lemma RoundTrip(s: seq<nat>, rest: seq<nat>)
    requires Bytes(s) && |s| < TWO_64
    ensures Decode(Encoded(s) + rest) == Ok(s, |Encoded(s)|)
  {
    hide LowBytes, Number, Pow, WordBytes, Words, Pending;
    var data, n := Encoded(s) + rest, |Words(s)|;
    SplitAt(s);
    assert data[0] == n && data[n + 1] == Number(Pending(s)) && data[n + 2] == |Pending(s)|;
    assert data[1..n + 1] == Words(s);
    assert forall b :: b in Pending(s) ==> b in s;
    LowOfNumber(Pending(s));
    WordsBack(s);
  }

  /** What the encoder would write: full words, fewer than 31 bytes pending. */
  ghost predicate Canonical(data: seq<nat>)
    requires Decode(data).Ok?
  {
    var n := data[0];
    && Below(data[1..n + 1], Pow(31))
    && data[n + 2] < 31 && data[n + 1] < Pow(data[n + 2])
  }

  lemma {:induction false} WordsOfBytes(words: seq<nat>, pending: seq<nat>)
    requires |pending| < 31
    ensures |Words(WordBytes(words) + pending)| == |words| && Pending(WordBytes(words) + pending) == pending
    ensures Words(WordBytes(words) + pending) == words <==> Below(words, Pow(31))
  {
    hide LowBytes, Number, Pow;
    if words == [] {
      assert WordBytes(words) + pending == pending;
    } else {
      var all := WordBytes(words) + pending;
      assert all[..31] == LowBytes(words[0], 31) && all[31..] == WordBytes(words[1..]) + pending;
      WordsOfBytes(words[1..], pending);
      NumberOfLow(words[0], 31);
      assert words == [words[0]] + words[1..];
      assert Words(all)[0] == Number(all[..31]) && Words(all)[1..] == Words(all[31..]);
      assert words[0] in words && forall w :: w in words[1..] ==> w in words;
      assert forall w :: w in words ==> w == words[0] || w in words[1..];
    }
  }

  /** The decoder is not strict: it re-encodes to what it read exactly when that
      was canonical. */
  lemma ReencodesExactly(data: seq<nat>)
    requires Decode(data).Ok?
    ensures Encoded(Decode(data).bytes) == data[..Decode(data).consumed] <==> Canonical(data)
  {
    hide Words, Pending, WordBytes, LowBytes, Number, Pow, Below;
    var n := data[0];
    var words, pending := data[1..n + 1], LowBytes(data[n + 1], data[n + 2]);
    var s := WordBytes(words) + pending;
    var again := Encoded(s);
    assert data[..n + 3] == [n] + words + [data[n + 1], data[n + 2]];
    if data[n + 2] < 31 {
      WordsOfBytes(words, pending);
      NumberOfLow(data[n + 1], data[n + 2]);
      SameLayout(n, words, data[n + 1], data[n + 2], Words(s), Number(pending), |pending|);
    } else {
      assert again[|again| - 1] == |Pending(s)| && data[..n + 3][n + 2] == data[n + 2];
    }
  }

  lemma SameLayout(n: nat, words: seq<nat>, pending: nat, len: nat, words': seq<nat>, pending': nat, len': nat)
    requires |words| == |words'| == n
    ensures [n] + words' + [pending', len'] == [n] + words + [pending, len]
            <==> words' == words && pending' == pending && len' == len
  {
    var a, b := [n] + words' + [pending', len'], [n] + words + [pending, len];
    assert a[1..n + 1] == words' && b[1..n + 1] == words;
    assert a[n + 1] == pending' && b[n + 1] == pending && a[n + 2] == len' && b[n + 2] == len;
  }
}
