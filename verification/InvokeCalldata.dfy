/**
 An account's multicall calldata and the fee hash's packed bounds
 (tools/zkmsg/core/src/invoke_v3.rs).
 */
module InvokeCalldata {

  import opened Outcomes

  datatype Call = Call(to: nat, selector: nat, calldata: seq<nat>)

  function CallFelts(call: Call): seq<nat> {
    [call.to, call.selector, |call.calldata|] + call.calldata
  }

  function CallsFelts(calls: seq<Call>): seq<nat> {
    if calls == [] then [] else CallFelts(calls[0]) + CallsFelts(calls[1..])
  }

  function Encoded(calls: seq<Call>): seq<nat> {
    [|calls|] + CallsFelts(calls)
  }

  method ExecuteCalldata(calls: seq<Call>) returns (out: seq<nat>)
    ensures out == Encoded(calls)
  {
    out := [|calls|];
    assert calls[0..] == calls;
    for i := 0 to |calls|
      invariant out + CallsFelts(calls[i..]) == Encoded(calls)
    {
      assert calls[i..][1..] == calls[i + 1..];
      var call := calls[i];
      ghost var before, rest := out, CallsFelts(calls[i + 1..]);
      out := out + [call.to];
      out := out + [call.selector];
      out := out + [|call.calldata|];
      out := out + call.calldata;
      assert out == before + CallFelts(call);
      assert before + (CallFelts(call) + rest) == out + rest;
    }
    assert out + [] == out;
  }

  // --- the layout read back ----------------------------------------------------------

  /** n calls off the front, and what is left. */
  function ReadCalls(felts: seq<nat>, n: nat): Option<(seq<Call>, seq<nat>)>
    decreases n
  {
    if n == 0 then Some(([], felts))
    else if |felts| < 3 || |felts| - 3 < felts[2] then None
    else
      match ReadCalls(felts[3 + felts[2]..], n - 1)
      case None => None
      case Some((calls, rest)) => Some(([Call(felts[0], felts[1], felts[3..3 + felts[2]])] + calls, rest))
  }

  lemma CallReadsBack(call: Call, tail: seq<nat>, felts: seq<nat>)
    requires felts == CallFelts(call) + tail
    ensures |felts| >= 3 + |call.calldata| && felts[0] == call.to && felts[1] == call.selector
    ensures felts[2] == |call.calldata| && felts[3..3 + felts[2]] == call.calldata && felts[3 + felts[2]..] == tail
  {
  }

  lemma {:induction false} CallsReadBack(calls: seq<Call>, rest: seq<nat>)
    ensures ReadCalls(CallsFelts(calls) + rest, |calls|) == Some((calls, rest))
  {
    hide CallFelts;
    if calls == [] {
      assert CallsFelts(calls) + rest == rest;
    } else {
      var call, tail := calls[0], CallsFelts(calls[1..]) + rest;
      var felts := CallsFelts(calls) + rest;
      assert felts == CallFelts(call) + tail;
      CallReadsBack(call, tail, felts);
      CallsReadBack(calls[1..], rest);
      assert calls == [call] + calls[1..];
    }
  }

  /** Main result: the calldata, whatever follows it, determines the calls. */
  lemma UniquelyDecodable(a: seq<Call>, b: seq<Call>, restA: seq<nat>, restB: seq<nat>)
    requires Encoded(a) + restA == Encoded(b) + restB
    ensures a == b && restA == restB
  {
    var felts := Encoded(a) + restA;
    assert felts[0] == |a| && felts[0] == |b|;
    assert felts[1..] == CallsFelts(a) + restA && felts[1..] == CallsFelts(b) + restB;
    CallsReadBack(a, restA);
    CallsReadBack(b, restB);
  }

  // --- packed bounds --------------------------------------------------------------------

  const TWO_64: nat := 0x1_0000_0000_0000_0000
  const TWO_128: nat := 0x1_0000_0000_0000_0000_0000_0000_0000_0000

  /** `(name << 192) | (max_amount << 128) | max_price_per_unit`. */
  function PackedBounds(name: nat, amount: nat, price: nat): nat {
    (name * TWO_64 + amount) * TWO_128 + price
  }

  /** The field's prime, 2^251 + 17 * 2^192 + 1, and its top 64 bits. */
  const PRIME: nat := 0x800000000000011000000000000000000000000000000000000000000000001
  const TOP: nat := 0x800000000000011

  /** `Felt::from_bytes_be` of the 32 bytes reduces modulo the prime. */
  function Packed(name: nat, amount: nat, price: nat): nat {
    PackedBounds(name, amount, price) % PRIME
  }

  function ReadBounds(felt: nat): (nat, nat, nat) {
    (felt / TWO_128 / TWO_64, felt / TWO_128 % TWO_64, felt % TWO_128)
  }

  lemma BoundsReadBack(name: nat, amount: nat, price: nat)
    requires amount < TWO_64 && price < TWO_128
    ensures ReadBounds(PackedBounds(name, amount, price)) == (name, amount, price)
  {
    var high := name * TWO_64 + amount;
    assert (high * TWO_128 + price) / TWO_128 == high && (high * TWO_128 + price) % TWO_128 == price;
    assert high / TWO_64 == name && high % TWO_64 == amount;
  }

  lemma BoundsWritten(felt: nat)
    ensures var (name, amount, price) := ReadBounds(felt); PackedBounds(name, amount, price) == felt
  {
  }

  lemma FitsPrime(name: nat, amount: nat, price: nat)
    requires amount < TWO_64 && price < TWO_128
    ensures PackedBounds(name, amount, price) < PRIME <==> name < TOP || (name == TOP && amount == 0 && price == 0)
  {
    assert PRIME == (TOP * TWO_64 + 0) * TWO_128 + 1;
  }

  /** Over all names of up to eight bytes, the packed felt gives resource, amount
      and price back exactly when the packed integer is below the prime: for every
      name of seven bytes, but for none of eight whose first byte is above 8. */
  lemma PackedDetermines(name: nat, amount: nat, price: nat)
    requires name < TWO_64 && amount < TWO_64 && price < TWO_128
    ensures ReadBounds(Packed(name, amount, price)) == (name, amount, price)
            <==> name < TOP || (name == TOP && amount == 0 && price == 0)
  {
    FitsPrime(name, amount, price);
    BoundsReadBack(name, amount, price);
    BoundsWritten(Packed(name, amount, price));
  }
}
