/**
 Message padding to three sizes (tools/zkmsg/core/src/crypto.rs): a two-byte
 big-endian length, the message, zeros.
 */
module MessagePadding {

  import opened Outcomes

  const MAX_PLAINTEXT: nat := 4094

  predicate IsBucket(n: nat) {
    n == 256 || n == 1024 || n == 4096
  }

  function Zeros(n: nat): (r: seq<nat>)
    ensures |r| == n && forall b :: b in r ==> b == 0
  {
    if n == 0 then [] else [0] + Zeros(n - 1)
  }

  /** The one padded form of a message in a bucket. */
  function Form(m: seq<nat>, bucket: nat): (p: seq<nat>)
    requires |m| + 2 <= bucket
    ensures |p| == bucket
  {
    [|m| / 256 % 256, |m| % 256] + m + Zeros(bucket - 2 - |m|)
  }

  /** Its two length bytes, the message, zeros. */
  lemma FormHolds(m: seq<nat>, bucket: nat)
    requires |m| + 2 <= bucket <= 4096
    ensures var p := Form(m, bucket);
            256 * p[0] + p[1] == |m| && p[2..2 + |m|] == m && forall i :: 2 + |m| <= i < bucket ==> p[i] == 0
  {
    var p := Form(m, bucket);
    assert p[2..2 + |m|] == m;
    forall i | 2 + |m| <= i < bucket ensures p[i] == 0 {
      ZerosAt(bucket - 2 - |m|, i - 2 - |m|);
    }
  }

  datatype PadError = TooLong | NotABucket | Overruns | NotZero

  /** Pads to the smallest bucket that fits. */
  method Pad(plaintext: seq<nat>) returns (r: Result<seq<nat>, PadError>)
    ensures r.Ok? <==> |plaintext| <= MAX_PLAINTEXT
    ensures r.Ok? ==> |plaintext| + 2 <= |r.value| && IsBucket(|r.value|) && r.value == Form(plaintext, |r.value|)
    ensures r.Ok? ==> 256 * r.value[0] + r.value[1] == |plaintext| && r.value[2..2 + |plaintext|] == plaintext
                      && forall i :: 2 + |plaintext| <= i < |r.value| ==> r.value[i] == 0
    ensures r.Ok? ==> |r.value| in {256, 1024, 4096}
    ensures r.Ok? ==> forall n :: IsBucket(n) && |plaintext| + 2 <= n ==> |r.value| <= n
  {
    var buckets := [256, 1024, 4096];
    var i := 0;
    while i < |buckets| && |plaintext| + 2 > buckets[i]
      invariant 0 <= i <= |buckets| && forall j :: 0 <= j < i ==> |plaintext| + 2 > buckets[j]
    {
      i := i + 1;
    }
    if i == |buckets| {
      assert |plaintext| + 2 > buckets[2];
      return Err(TooLong);
    }
    assert i > 0 ==> |plaintext| + 2 > buckets[0];
    assert i > 1 ==> |plaintext| + 2 > buckets[1];
    var padded := [|plaintext| / 256 % 256, |plaintext| % 256] + plaintext;
    FormHolds(plaintext, buckets[i]);
    padded := padded + Zeros(buckets[i] - |padded|);
    return Ok(padded);
  }

  /** The message of a padded form. */
  function Unpadded(p: seq<nat>): Result<seq<nat>, PadError> {
    if !IsBucket(|p|) then Err(NotABucket)
    else
      var len := 256 * p[0] + p[1];
      if len > |p| - 2 then Err(Overruns)
      else if exists i :: 2 + len <= i < |p| && p[i] != 0 then Err(NotZero)
      else Ok(p[2..2 + len])
  }

  method Unpad(padded: seq<nat>) returns (r: Result<seq<nat>, PadError>)
    ensures r == Unpadded(padded)
    ensures r == Err(NotABucket) <==> |padded| !in {256, 1024, 4096}
    ensures |padded| in {256, 1024, 4096} ==>
              var len := 256 * padded[0] + padded[1];
              && (r == Err(Overruns) <==> len > |padded| - 2)
              && (r == Err(NotZero) <==> len <= |padded| - 2 && exists i :: 2 + len <= i < |padded| && padded[i] != 0)
              && (r.Ok? ==> r.value == padded[2..2 + len])
  {
    if !IsBucket(|padded|) {
      return Err(NotABucket);
    }
    var len := 256 * padded[0] + padded[1];
    if len > |padded| - 2 {
      return Err(Overruns);
    }
    for i := 2 + len to |padded|
      invariant forall j :: 2 + len <= j < i ==> padded[j] == 0
    {
      if padded[i] != 0 {
        return Err(NotZero);
      }
    }
    return Ok(padded[2..2 + len]);
  }

  lemma ZerosAt(n: nat, i: nat)
    requires i < n
    ensures Zeros(n)[i] == 0
  {
    assert Zeros(n)[i] in Zeros(n);
  }

  lemma AllZeros(s: seq<nat>)
    requires forall i :: 0 <= i < |s| ==> s[i] == 0
    ensures s == Zeros(|s|)
  {
    forall i | 0 <= i < |s| ensures s[i] == Zeros(|s|)[i] {
      ZerosAt(|s|, i);
    }
  }

  lemma LengthBytes(high: nat, low: nat)
    requires high < 256 && low < 256
    ensures (256 * high + low) / 256 % 256 == high && (256 * high + low) % 256 == low
  {
  }

  lemma ThreeParts(p: seq<nat>, n: nat)
    requires n + 2 <= |p|
    ensures p == [p[0], p[1]] + p[2..2 + n] + p[2 + n..]
  {
  }

  /** What unpads is the message's form. */
  lemma UnpadsIsForm(p: seq<nat>, m: seq<nat>)
    requires (forall b :: b in p ==> b < 256) && Unpadded(p) == Ok(m)
    ensures |m| + 2 <= |p| && p == Form(m, |p|)
  {
    hide Zeros;
    assert p[0] in p && p[1] in p;
    LengthBytes(p[0], p[1]);
    assert |m| == 256 * p[0] + p[1] && m == p[2..2 + |m|];
    AllZeros(p[2 + |m|..]);
    ThreeParts(p, |m|);
  }

  /** Main result: in each bucket a message has exactly one padded form, the one
      its length prefix and zeros make. */
  lemma OneFormPerBucket(p: seq<nat>, m: seq<nat>)
    requires forall b :: b in p ==> b < 256
    ensures Unpadded(p) == Ok(m) <==> IsBucket(|p|) && |m| + 2 <= |p| && p == Form(m, |p|)
  {
    hide Form;
    if Unpadded(p) == Ok(m) {
      UnpadsIsForm(p, m);
    }
    if IsBucket(|p|) && |m| + 2 <= |p| && p == Form(m, |p|) {
      FormUnpads(m, |p|);
    }
  }

  lemma FormUnpads(m: seq<nat>, bucket: nat)
    requires IsBucket(bucket) && |m| + 2 <= bucket
    ensures Unpadded(Form(m, bucket)) == Ok(m)
  {
    var p := Form(m, bucket);
    assert 256 * p[0] + p[1] == |m|;
    forall i | 2 + |m| <= i < |p| ensures p[i] == 0 {
      ZerosAt(bucket - 2 - |m|, i - 2 - |m|);
      assert p[i] == Zeros(bucket - 2 - |m|)[i - 2 - |m|];
    }
    assert p[2..2 + |m|] == m;
  }

  /** Every message that fits comes back. */
  method PadRoundTrip(plaintext: seq<nat>) returns (again: Result<seq<nat>, PadError>)
    ensures |plaintext| <= MAX_PLAINTEXT ==> again == Ok(plaintext)
    ensures |plaintext| > MAX_PLAINTEXT ==> again == Err(TooLong)
  {
    var padded := Pad(plaintext);
    if padded.Err? {
      return Err(TooLong);
    }
    FormUnpads(plaintext, |padded.value|);
    again := Unpad(padded.value);
  }
}
