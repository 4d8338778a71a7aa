/**
 The shared fee policy and publish schedule (tools/zkmsg/core/src/txpolicy.rs).
 Amounts are u128 and u64 in the source; where an operation there would
 overflow, a precondition says so, and `saturating_*` is written out.
 */
module TxPolicy {

  import opened Outcomes

  const U128: nat := 0x1_0000_0000_0000_0000_0000_0000_0000_0000

  const TIP: nat := 100_000_000
  const L1_DATA_GAS: nat := 4_096
  const PUBLISH_L2_GAS: nat := 100_000_000

  function Ten(k: nat): (r: nat)
    ensures r > 0
  {
    if k == 0 then 1 else 10 * Ten(k - 1)
  }

  /** At most two significant figures. */
  ghost predicate TwoSf(y: nat) {
    exists d: nat, k: nat :: Figures(y, d, k)
  }

  ghost predicate Figures(y: nat, d: nat, k: nat) {
    d < 100 && y == d * Ten(k)
  }

  // --- rounding -------------------------------------------------------------------

  /** The scale the rounding loops stop at, from 10^k on. */
  function ScaleFrom(x: nat, k: nat): (e: nat)
    ensures e >= k && x / Ten(e) < 100 && (e > k ==> x / Ten(e - 1) >= 100)
    decreases x - Ten(k)
  {
    if x / Ten(k) >= 100 then
      BigQuotient(x, Ten(k));
      ScaleFrom(x, k + 1)
    else k
  }

  lemma BigQuotient(x: nat, scale: nat)
    requires scale > 0 && x / scale >= 100
    ensures x >= 100 * scale
  {
    QuotientBelow(x, scale, 100);
  }

  lemma QuotientBelow(x: nat, scale: nat, q: nat)
    requires scale > 0
    ensures x / scale >= q <==> x >= q * scale
  {
    var n, r := x / scale, x % scale;
    assert x == n * scale + r;
    if n >= q {
      assert n * scale >= q * scale;
    } else {
      assert (n + 1) * scale <= q * scale;
      assert (n + 1) * scale == n * scale + scale;
    }
  }

  function CeilDiv(x: nat, d: nat): nat
    requires d > 0
  {
    x / d + if x % d == 0 then 0 else 1
  }

  lemma Mono(a: nat, b: nat, s: nat)
    requires a <= b
    ensures a * s <= b * s
  {
  }

  lemma NextMultiple(n: nat, d: nat)
    ensures (n + 1) * d == n * d + d
  {
  }

  lemma CeilLeast(x: nat, d: nat, m: nat)
    requires d > 0
    ensures m >= CeilDiv(x, d) <==> m * d >= x
  {
    var n, r := x / d, x % d;
    var base := n * d;
    assert x == base + r;
    NextMultiple(n, d);
    if m > n {
      Mono(n + 1, m, d);
    } else if m < n {
      Mono(m + 1, n, d);
      NextMultiple(m, d);
    }
  }

  function Times(q: nat, s: nat): nat { q * s }

  /** The multiple of s at or above x. */
  function CeilTo(x: nat, s: nat): nat
    requires s > 0
  {
    Times(CeilDiv(x, s), s)
  }

  /** The multiple of s at or below x. */
  function FloorTo(x: nat, s: nat): nat
    requires s > 0
  {
    Times(x / s, s)
  }

  function RoundUp(x: nat): nat {
    CeilTo(x, Ten(ScaleFrom(x, 0)))
  }

  function RoundDown(x: nat): nat {
    FloorTo(x, Ten(ScaleFrom(x, 0)))
  }

  lemma {:induction false} TenSplits(j: nat, k: nat)
    requires k <= j
    ensures Ten(j) == Ten(j - k) * Ten(k)
  {
    if k > 0 {
      TenSplits(j - 1, k - 1);
    }
  }

  lemma {:induction false} TenGrows(j: nat, k: nat)
    requires j <= k
    ensures Ten(j) <= Ten(k)
    decreases k - j
  {
    if j < k {
      TenGrows(j, k - 1);
    }
  }

  /** A coarser number is a multiple of the scale; a finer one is below ten scales. */
  lemma AgainstScale(y: nat, d: nat, j: nat, k: nat) returns (m: nat)
    requires Figures(y, d, j)
    ensures j >= k ==> y == m * Ten(k)
    ensures j < k ==> y < 10 * Ten(k)
  {
    hide Ten;
    m := 0;
    if j >= k {
      TenSplits(j, k);
      m := Times(d, Ten(j - k));
      Regroup(d, Ten(j - k), Ten(k));
    } else {
      assert Ten(k) == 10 * Ten(k - 1) by {
        TenSplits(k, k - 1);
        TenOne();
      }
      TenGrows(j, k - 1);
      Scales(d, 99, Ten(j));
    }
  }

  lemma TenOne()
    ensures Ten(1) == 10
  {
    assert Ten(0) == 1;
  }

  lemma Regroup(a: nat, b: nat, c: nat)
    ensures (a * b) * c == a * (b * c)
  {
  }

  lemma Scales(a: nat, b: nat, s: nat)
    requires a <= b
    ensures a * s <= b * s
  {
  }

  lemma UpIsTwoSf(x: nat, k: nat, c: nat)
    requires k == ScaleFrom(x, 0) && c == CeilDiv(x, Ten(k))
    ensures TwoSf(c * Ten(k))
  {
    if c == 100 {
      assert Ten(k + 1) == 10 * Ten(k);
      assert Figures(c * Ten(k), 10, k + 1);
    } else {
      assert Figures(c * Ten(k), c, k);
    }
  }

  /** A number of two significant figures not below x, against the rounded one. */
  lemma UpIsLeast(x: nat, k: nat, c: nat, y: nat, d: nat, j: nat)
    requires k == ScaleFrom(x, 0) && c == CeilDiv(x, Ten(k)) && Figures(y, d, j) && x <= y
    ensures c * Ten(k) <= y
  {
    hide ScaleFrom, Ten, CeilDiv, Figures;
    var m := AgainstScale(y, d, j, k);
    if j >= k {
      CeilLeast(x, Ten(k), m);
      Scales(c, m, Ten(k));
    } else {
      AtLeastTenScales(x, k);
    }
  }

  lemma AtLeastTenScales(x: nat, k: nat)
    requires k == ScaleFrom(x, 0) && k > 0
    ensures x >= 10 * Ten(k) && x / Ten(k) >= 10
  {
    BigQuotient(x, Ten(k - 1));
    QuotientBelow(x, Ten(k), 10);
  }

  /** The least number of two significant figures that is not below x. */
  lemma RoundUpLeast(x: nat, y: nat)
    ensures TwoSf(RoundUp(x)) && x <= RoundUp(x)
    ensures TwoSf(y) && x <= y ==> RoundUp(x) <= y
  {
    hide ScaleFrom, Ten, CeilDiv, Figures;
    var k := ScaleFrom(x, 0);
    var c := CeilDiv(x, Ten(k));
    CeilLeast(x, Ten(k), c);
    UpIsTwoSf(x, k, c);
    if TwoSf(y) && x <= y {
      var d: nat, j: nat :| Figures(y, d, j);
      UpIsLeast(x, k, c, y, d, j);
    }
  }

  lemma DownIsGreatest(x: nat, k: nat, y: nat, d: nat, j: nat)
    requires k == ScaleFrom(x, 0) && Figures(y, d, j) && y <= x
    ensures y <= x / Ten(k) * Ten(k)
  {
    hide ScaleFrom, Ten, Figures;
    var m := AgainstScale(y, d, j, k);
    if j >= k {
      QuotientBelow(x, Ten(k), m);
      Scales(m, x / Ten(k), Ten(k));
    } else {
      AtLeastTenScales(x, k);
      Scales(10, x / Ten(k), Ten(k));
    }
  }

  /** The greatest number of two significant figures that is not above x. */
  lemma RoundDownGreatest(x: nat, y: nat)
    ensures TwoSf(RoundDown(x)) && RoundDown(x) <= x
    ensures TwoSf(y) && y <= x ==> y <= RoundDown(x)
  {
    hide ScaleFrom, Ten;
    var k := ScaleFrom(x, 0);
    QuotientBelow(x, Ten(k), x / Ten(k));
    assert Figures(RoundDown(x), x / Ten(k), k);
    if TwoSf(y) && y <= x {
      var d: nat, j: nat :| Figures(y, d, j);
      DownIsGreatest(x, k, y, d, j);
    }
  }

  /** The loop both roundings start with. */
  method Scale(x: nat) returns (scale: nat)
    ensures scale == Ten(ScaleFrom(x, 0))
  {
    scale := 1;
    ghost var k: nat := 0;
    while x / scale >= 100
      invariant scale == Ten(k) && ScaleFrom(x, k) == ScaleFrom(x, 0)
      decreases x - scale
    {
      BigQuotient(x, scale);
      scale := scale * 10;
      k := k + 1;
    }
  }

  method RoundUp2sf(x: nat) returns (r: nat)
    ensures r == RoundUp(x)
  {
    var scale := Scale(x);
    r := CeilTo(x, scale);
  }

  method RoundDown2sf(x: nat) returns (r: nat)
    ensures r == RoundDown(x)
  {
    var scale := Scale(x);
    r := FloorTo(x, scale);
  }

  // --- bounds ------------------------------------------------------------------------

  datatype ResourceBounds = ResourceBounds(maxAmount: nat, maxPrice: nat)

  datatype Bounds = Bounds(l1: ResourceBounds, l2: ResourceBounds, l1Data: ResourceBounds)

  datatype Prices = Prices(l1: nat, l2: nat, l1Data: nat)

  datatype Refusal = TipCap | MinGas | TooDear(bound: nat) | FeeCap

  function PriceBound(price: nat): nat {
    RoundUp(CeilDiv(price * 3, 2))
  }

  /** `bound` is the least number of two significant figures that is at least one
      and a half times the price. */
  ghost predicate SharedRule(price: nat, bound: nat) {
    && TwoSf(bound) && 2 * bound >= 3 * price
    && forall q: nat :: TwoSf(q) && 2 * q >= 3 * price ==> bound <= q
  }

  lemma PriceBoundIsShared(price: nat)
    ensures SharedRule(price, PriceBound(price))
  {
    hide TwoSf, RoundUp;
    var x := CeilDiv(price * 3, 2);
    CeilLeast(price * 3, 2, x);
    RoundUpLeast(x, 0);
    forall q: nat | TwoSf(q) && 2 * q >= 3 * price ensures PriceBound(price) <= q {
      CeilLeast(price * 3, 2, q);
      RoundUpLeast(x, q);
    }
  }

  function SaturatingMul(a: nat, b: nat): nat {
    if a * b < U128 then a * b else U128 - 1
  }

  function SaturatingAdd(a: nat, b: nat): nat {
    if a + b < U128 then a + b else U128 - 1
  }

  function MaxFee(b: Bounds, tip: nat): nat {
    SaturatingAdd(
      SaturatingAdd(
        SaturatingAdd(SaturatingAdd(0, SaturatingMul(b.l1.maxAmount, b.l1.maxPrice)),
                      SaturatingMul(b.l2.maxAmount, b.l2.maxPrice)),
        SaturatingMul(b.l1Data.maxAmount, b.l1Data.maxPrice)),
      SaturatingMul(b.l2.maxAmount, tip))
  }

  /** The publish bounds at L2 price q. */
  function BoundsAt(p: Prices, q: nat): Bounds {
    Bounds(ResourceBounds(0, PriceBound(p.l1)), ResourceBounds(PUBLISH_L2_GAS, q),
           ResourceBounds(L1_DATA_GAS, PriceBound(p.l1Data)))
  }

  /** No product or rounding of the prices leaves 128 bits. */
  ghost predicate InRange(p: Prices) {
    && PriceBound(p.l1) < U128 && PriceBound(p.l2) < U128 && p.l2 * 11 < U128
    && p.l1 * 3 < U128 && p.l1Data * 3 < U128 && L1_DATA_GAS * PriceBound(p.l1Data) < U128
  }

  /** A publish at L2 price q stays within the pool's fee cap. */
  ghost predicate Affordable(p: Prices, poolMaxFee: nat, q: nat) {
    PUBLISH_L2_GAS * (q + TIP) + L1_DATA_GAS * PriceBound(p.l1Data) <= poolMaxFee
  }

  /** At least 1.1 times the current price. */
  ghost predicate Includable(p: Prices, q: nat) {
    10 * q >= 11 * p.l2
  }

  /** What the pool's cap leaves for the L2 price. */
  function Cap(p: Prices, poolMaxFee: nat): nat {
    var l1Data := L1_DATA_GAS * PriceBound(p.l1Data);
    var left := if poolMaxFee >= l1Data then poolMaxFee - l1Data else 0;
    if left / PUBLISH_L2_GAS >= TIP then left / PUBLISH_L2_GAS - TIP else 0
  }

  lemma CapIsLimit(p: Prices, poolMaxFee: nat, q: nat)
    ensures q > 0 ==> (Affordable(p, poolMaxFee, q) <==> q <= Cap(p, poolMaxFee))
  {
  }

  lemma SharedRuleIncludes(p: Prices)
    ensures Includable(p, PriceBound(p.l2)) && TwoSf(PriceBound(p.l2)) && (p.l2 > 0 ==> PriceBound(p.l2) > 0)
  {
    var x := CeilDiv(p.l2 * 3, 2);
    CeilLeast(p.l2 * 3, 2, x);
    RoundUpLeast(x, 0);
  }

  lemma CeilElevenTenths(p: Prices, q: nat)
    ensures q >= CeilDiv(p.l2 * 11, 10) <==> Includable(p, q)
  {
    CeilLeast(p.l2 * 11, 10, q);
  }

  /** A fee within the cap is not saturated. */
  lemma FeeOf(p: Prices, poolMaxFee: nat, q: nat)
    requires poolMaxFee < U128 && Affordable(p, poolMaxFee, q)
    ensures MaxFee(BoundsAt(p, q), TIP) == PUBLISH_L2_GAS * (q + TIP) + L1_DATA_GAS * PriceBound(p.l1Data)
  {
    assert 0 * PriceBound(p.l1) == 0;
  }

  /** The greatest price of two significant figures that the pool's cap allows, or 0. */
  ghost predicate BestAffordable(p: Prices, poolMaxFee: nat, price: nat) {
    && TwoSf(price) && (price > 0 ==> Affordable(p, poolMaxFee, price))
    && forall q: nat :: TwoSf(q) && Affordable(p, poolMaxFee, q) ==> q <= price
  }

  method PublishBounds(p: Prices, poolMaxFee: nat, poolMaxTip: nat, poolMinL2Gas: nat) returns (r: Result<Bounds, Refusal>)
    requires InRange(p) && poolMaxFee < U128
    ensures p.l2 > 0 ==> (r.Ok? <==> TIP <= poolMaxTip && poolMinL2Gas <= PUBLISH_L2_GAS
                                     && exists q: nat :: TwoSf(q) && Includable(p, q) && Affordable(p, poolMaxFee, q))
    ensures p.l2 > 0 ==> r != Err(FeeCap)
    ensures r.Ok? ==> MaxFee(r.value, TIP) <= poolMaxFee && TwoSf(r.value.l2.maxPrice) && Includable(p, r.value.l2.maxPrice)
    ensures p.l2 == 0 ==> (r.Ok? <==> TIP <= poolMaxTip && poolMinL2Gas <= PUBLISH_L2_GAS
                                      && MaxFee(BoundsAt(p, 0), TIP) <= poolMaxFee)
    ensures r.Ok? ==> r.value == BoundsAt(p, r.value.l2.maxPrice) && r.value.l2.maxPrice <= PriceBound(p.l2)
    ensures r.Ok? && p.l2 > 0 ==>
              forall q: nat :: TwoSf(q) && q <= PriceBound(p.l2) && Affordable(p, poolMaxFee, q) ==> q <= r.value.l2.maxPrice
    ensures r.Ok? ==>
              && r.value.l1.maxAmount == 0 && SharedRule(p.l1, r.value.l1.maxPrice)
              && r.value.l1Data.maxAmount == 4_096 && SharedRule(p.l1Data, r.value.l1Data.maxPrice)
              && r.value.l2.maxAmount == 100_000_000
    ensures r.Ok? ==>
              forall s: nat :: SharedRule(p.l2, s) ==>
                && r.value.l2.maxPrice <= s
                && (100_000_000 * (s + 100_000_000) + 4_096 * r.value.l1Data.maxPrice <= poolMaxFee ==> r.value.l2.maxPrice == s)
    ensures r.Ok? && p.l2 > 0 ==>
              100_000_000 * (r.value.l2.maxPrice + 100_000_000) + 4_096 * r.value.l1Data.maxPrice <= poolMaxFee
    ensures r.Err? && r.error.TooDear? ==>
              10 * r.error.bound < 11 * p.l2 && forall s: nat :: SharedRule(p.l2, s) ==> r.error.bound < s
    ensures r.Err? && r.error.TooDear? ==> BestAffordable(p, poolMaxFee, r.error.bound)
    ensures r == Err(TipCap) <==> poolMaxTip < 100_000_000
    ensures r == Err(MinGas) <==> poolMaxTip >= 100_000_000 && poolMinL2Gas > 100_000_000
  {
    assert PriceBound(0) == 0;
    PriceBoundIsShared(p.l1);
    PriceBoundIsShared(p.l2);
    PriceBoundIsShared(p.l1Data);
    forall s: nat | SharedRule(p.l2, s) ensures s == PriceBound(p.l2) {
      assert s <= PriceBound(p.l2) && PriceBound(p.l2) <= s;
    }
    hide TwoSf, Cap, PriceBound, RoundDown, BestAffordable;
    if TIP > poolMaxTip {
      return Err(TipCap);
    }
    if PUBLISH_L2_GAS < poolMinL2Gas {
      return Err(MinGas);
    }
    var price := PriceBound(p.l2);
    var cap := Cap(p, poolMaxFee);
    SharedRuleIncludes(p);
    if price > cap {
      price := RoundDown2sf(cap);
    }
    PriceChosen(p, poolMaxFee, price);
    if price < CeilDiv(p.l2 * 11, 10) {
      return Err(TooDear(price));
    }
    var b := BoundsAt(p, price);
    if p.l2 > 0 {
      FeeOf(p, poolMaxFee, price);
    }
    if MaxFee(b, TIP) > poolMaxFee {
      return Err(FeeCap);
    }
    return Ok(b);
  }

  /** The price the branch picks is the greatest of two significant figures that
      the shared rule and the pool's cap allow; when it is below 1.1 times the
      current price, so is every affordable one. */
  lemma PriceChosen(p: Prices, poolMaxFee: nat, price: nat)
    requires price == if PriceBound(p.l2) > Cap(p, poolMaxFee) then RoundDown(Cap(p, poolMaxFee)) else PriceBound(p.l2)
    ensures TwoSf(price) && price <= PriceBound(p.l2)
    ensures price >= CeilDiv(p.l2 * 11, 10) <==> Includable(p, price)
    ensures p.l2 > 0 && Includable(p, price) ==> Affordable(p, poolMaxFee, price)
    ensures !Includable(p, price) ==> BestAffordable(p, poolMaxFee, price)
    ensures forall q: nat :: TwoSf(q) && q <= PriceBound(p.l2) && Affordable(p, poolMaxFee, q) ==> q <= price
    ensures p.l2 > 0 ==> ((exists q: nat :: TwoSf(q) && Includable(p, q) && Affordable(p, poolMaxFee, q)) <==> Includable(p, price))
  {
    hide TwoSf, Cap, PriceBound, RoundDown;
    var cap := Cap(p, poolMaxFee);
    SharedRuleIncludes(p);
    CeilElevenTenths(p, price);
    RoundDownGreatest(cap, 0);
    CapIsLimit(p, poolMaxFee, price);
    forall q: nat | TwoSf(q) && Affordable(p, poolMaxFee, q)
      ensures q <= price || PriceBound(p.l2) == price
    {
      RoundDownGreatest(cap, q);
      CapIsLimit(p, poolMaxFee, q);
    }
    if p.l2 > 0 && Includable(p, price) {
      assert TwoSf(price) && Includable(p, price) && Affordable(p, poolMaxFee, price);
    }
  }

  /** At a free L2 price the last fee check can still refuse: a pool whose fee cap
      is 0 leaves a cap of 0, which the bound 0 meets, but the tip is not free. */
  lemma FreeGasCanFailLast()
    ensures var p := Prices(0, 0, 0);
            InRange(p) && PriceBound(p.l2) <= Cap(p, 0) && Includable(p, PriceBound(p.l2)) && MaxFee(BoundsAt(p, 0), TIP) > 0
  {
    assert PriceBound(0) == 0;
  }

  // --- the schedule -----------------------------------------------------------------------

  const BASE_ROUND: nat := 32
  const BASE_MIN_AGE: nat := 10
  const PUBLISH_DELAY: nat := 90
  const PUBLISH_JITTER: nat := 20

  /** The latest multiple of 32 at least 10 blocks behind the head, or 0. */
  function BaseBlock(head: nat): (base: nat)
    ensures base % 32 == 0
    ensures head >= 10 ==> 10 <= head - base < 42
    ensures head < 10 ==> base == 0
  {
    (if head >= BASE_MIN_AGE then head - BASE_MIN_AGE else 0) / BASE_ROUND * BASE_ROUND
  }

  function PublishAfter(base: nat, jitter: nat): (after: nat)
    ensures base + 90 <= after <= base + 110
    ensures jitter <= 20 ==> after == base + 90 + jitter
  {
    base + PUBLISH_DELAY + if jitter < PUBLISH_JITTER then jitter else PUBLISH_JITTER
  }

  /** Two clients at most one rounding apart prove on one block, and when the
      publish goes out the proof is past the gateway's minimum age. */
  lemma ScheduleHides(head: nat, other: nat, jitter: nat)
    requires head >= BASE_MIN_AGE && other >= head
    ensures BaseBlock(other) == BaseBlock(head) <==> other - BaseBlock(head) < BASE_MIN_AGE + BASE_ROUND
    ensures PublishAfter(BaseBlock(head), jitter) >= head + PUBLISH_DELAY - BASE_MIN_AGE - BASE_ROUND + 1
  {
  }
}
