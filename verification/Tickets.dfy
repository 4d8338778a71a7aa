/**
 The pool's ticket tree and one profile's tickets
 (tools/zkmsg/core/src/tickets.rs).
 */
module Tickets {

  import opened Outcomes
  import opened EventOrder
  import opened MerkleTree

  // --- the tree ---------------------------------------------------------------------

  datatype Purchase<F> = Purchase(index: nat, leaf: F)

  datatype EventError = NotContiguous(index: nat, expected: nat)

  function IndexOf<F>(p: Purchase<F>): nat { p.index }

  function Leaves<F>(s: seq<Purchase<F>>): (r: seq<F>)
    ensures |r| == |s| && forall i :: 0 <= i < |s| ==> r[i] == s[i].leaf
  {
    seq(|s|, i requires 0 <= i < |s| => s[i].leaf)
  }

  /** The first position of a leaf. */
  function First<F(==)>(leaves: seq<F>, leaf: F): (r: Option<nat>)
    ensures r.Some? <==> leaf in leaves
    ensures r.Some? ==> r.value < |leaves| && leaves[r.value] == leaf && leaf !in leaves[..r.value]
  {
    if leaves == [] then None
    else if leaves[0] == leaf then Some(0)
    else
      var rest := First(leaves[1..], leaf);
      if rest.None? then None
      else
        assert leaves[..rest.value + 1] == [leaves[0]] + leaves[1..][..rest.value];
        Some(rest.value + 1)
  }

  class TicketTree<F(==, !new)> {
    const leaves: seq<F>
    const tree: MerkleTree<F>

    ghost predicate Valid()
      reads tree
    {
      tree.Valid() && tree.leaves == leaves
    }

    constructor (leaves: seq<F>, tree: MerkleTree<F>)
      requires tree.Valid() && tree.leaves == leaves
      ensures Valid() && this.leaves == leaves && this.tree == tree
    {
      this.leaves := leaves;
      this.tree := tree;
    }

    method Path(index: nat) returns (r: Option<seq<F>>)
      requires Valid()
      ensures r.Some? <==> index < |leaves|
      ensures r.Some? ==> r.value == PathFrom(tree.hash, tree.zeros[0], leaves, 0, index)
    {
      if index >= |leaves| {
        return None;
      }
      var path := tree.Path(index);
      return Some(path);
    }
  }

  /** The first i purchases, in place, are in the tree. */
  ghost predicate Filled<F(!new)>(bought: seq<Purchase<F>>, i: nat, leaves: seq<F>) {
    i <= |bought| && leaves == Leaves(bought)[..i] && forall j :: 0 <= j < i ==> IndexOf(bought[j]) == j
  }

  lemma FilledGrows<F(!new)>(bought: seq<Purchase<F>>, i: nat, leaves: seq<F>)
    requires i < |bought| && Filled(bought, i, leaves)
    ensures |leaves| == i
    ensures bought[i].index == i ==> Filled(bought, i + 1, leaves + [bought[i].leaf])
    ensures bought[i].index != i ==> !Indexed(IndexOf<F>, bought) && FirstOutOfPlace(bought, NotContiguous(bought[i].index, i))
  {
    if bought[i].index != i {
      assert IndexOf(bought[i]) != i;
    }
  }

  lemma FilledEnds<F(!new)>(bought: seq<Purchase<F>>, leaves: seq<F>)
    ensures Filled(bought, 0, [])
    ensures Filled(bought, |bought|, leaves) ==> leaves == Leaves(bought) && Indexed(IndexOf<F>, bought)
  {
  }

  /** The error names the first purchase that is out of place, and its place. */
  ghost predicate FirstOutOfPlace<F(!new)>(bought: seq<Purchase<F>>, e: EventError) {
    && e.expected < |bought| && bought[e.expected].index == e.index != e.expected
    && forall j :: 0 <= j < e.expected ==> bought[j].index == j
  }

  /** The loop over the sorted purchases. */
  method Fill<F(==, !new)>(bought: seq<Purchase<F>>, tree: MerkleTree<F>) returns (r: Result<seq<F>, EventError>)
    requires |bought| <= Pow2(DEPTH) && tree.Valid() && tree.leaves == []
    modifies tree
    ensures tree.Valid()
    ensures r.Ok? <==> Indexed(IndexOf<F>, bought)
    ensures r.Ok? ==> r.value == tree.leaves && r.value == Leaves(bought)
    ensures r.Err? ==> FirstOutOfPlace(bought, r.error)
  {
    hide Filled, Indexed, FirstOutOfPlace;
    var leaves: seq<F> := [];
    FilledEnds(bought, leaves);
    for i := 0 to |bought|
      invariant tree.Valid() && leaves == tree.leaves && Filled(bought, i, leaves)
    {
      var next := bought[i];
      FilledGrows(bought, i, leaves);
      if next.index != i {
        return Err(NotContiguous(next.index, i));
      }
      var _ := tree.Insert(next.leaf);
      leaves := leaves + [next.leaf];
    }
    FilledEnds(bought, leaves);
    return Ok(leaves);
  }

  /** Rebuilds the tree, and accepts exactly the indices 0, ..., n-1, once each. */
  method FromEvents<F(==, !new)>(h: (F, F) -> F, zero: F, events: seq<Purchase<F>>)
    returns (r: Result<TicketTree<F>, EventError>)
    requires |events| <= Pow2(DEPTH)
    ensures r.Ok? <==> Contiguous(IndexOf<F>, events)
    ensures r.Ok? ==> fresh(r.value) && fresh(r.value.tree) && r.value.Valid()
    ensures r.Ok? ==> r.value.tree.hash == h && r.value.tree.zeros[0] == zero
    ensures r.Ok? ==> r.value.leaves == Leaves(SortBy(IndexOf<F>, events))
    ensures r.Err? ==> FirstOutOfPlace(SortBy(IndexOf<F>, events), r.error)
  {
    hide Indexed, Contiguous;
    var bought := SortBy(IndexOf<F>, events);
    SortIndexes(IndexOf<F>, events);
    var tree := new MerkleTree<F>(h, zero);
    var leaves := Fill(bought, tree);
    if leaves.Err? {
      return Err(leaves.error);
    }
    var built := new TicketTree<F>(leaves.value, tree);
    return Ok(built);
  }

  /** What is rebuilt does not depend on the order the events came in. */
  lemma RebuildIgnoresOrder<F(!new)>(a: seq<Purchase<F>>, b: seq<Purchase<F>>)
    requires multiset(a) == multiset(b) && Contiguous(IndexOf<F>, a)
    ensures Contiguous(IndexOf<F>, b) && Leaves(SortBy(IndexOf<F>, a)) == Leaves(SortBy(IndexOf<F>, b))
  {
    SortIgnoresOrder(IndexOf<F>, a, b);
  }

  // --- the wallet ---------------------------------------------------------------------

  datatype TicketState = Pending | Unspent | Reserved(sendId: nat) | Spent(tx: Option<nat>)

  datatype Ticket<F> = Ticket(secret: F, index: Option<nat>, state: TicketState)

  datatype PickError = NotInTreeYet(unspent: nat) | PurchaseNotSeen | NoTicket

  /** How a secret becomes a leaf and, on this store, a nullifier. */
  datatype Derivations<!F> = Derivations(leaf: F -> F, nullifier: F -> F)

  /** An Unspent ticket whose leaf the tree holds at its index. */
  predicate Usable<F(==)>(d: Derivations<F>, leaves: seq<F>, t: Ticket<F>) {
    t.state.Unspent? && t.index.Some? && t.index.value < |leaves| && leaves[t.index.value] == d.leaf(t.secret)
  }

  function SettledTicket<F(==)>(d: Derivations<F>, leaves: seq<F>, t: Ticket<F>): Ticket<F> {
    if t.state.Pending? && d.leaf(t.secret) in leaves
    then t.(index := First(leaves, d.leaf(t.secret)), state := Unspent)
    else t
  }

  function Settled<F(==)>(d: Derivations<F>, leaves: seq<F>, ts: seq<Ticket<F>>): seq<Ticket<F>> {
    if ts == [] then [] else [SettledTicket(d, leaves, ts[0])] + Settled(d, leaves, ts[1..])
  }

  /** How many tickets settle. */
  function SettledCount<F(==)>(d: Derivations<F>, leaves: seq<F>, ts: seq<Ticket<F>>): nat {
    if ts == [] then 0
    else (if ts[0].state.Pending? && d.leaf(ts[0].secret) in leaves then 1 else 0) + SettledCount(d, leaves, ts[1..])
  }

  function Count<F>(ts: seq<Ticket<F>>, which: TicketState -> bool): nat {
    if ts == [] then 0 else (if which(ts[0].state) then 1 else 0) + Count(ts[1..], which)
  }

  /** Why no ticket can be picked. */
  function WhyNot<F>(ts: seq<Ticket<F>>): PickError {
    var unspent := Count(ts, (s: TicketState) => s.Unspent?);
    if unspent > 0 then NotInTreeYet(unspent)
    else if Count(ts, (s: TicketState) => s.Pending?) > 0 then PurchaseNotSeen
    else NoTicket
  }

  /** The refusal is told by the tickets there are: some are unspent, and how many;
      else some are pending; else none could ever be picked. */
  ghost predicate Explains<F(!new)>(ts: seq<Ticket<F>>, why: PickError) {
    match why
    case NotInTreeYet(unspent) => unspent > 0 && unspent == |set i | 0 <= i < |ts| && ts[i].state.Unspent?|
    case PurchaseNotSeen => (forall t :: t in ts ==> !t.state.Unspent?) && (exists t :: t in ts && t.state.Pending?)
    case NoTicket => forall t :: t in ts ==> !t.state.Unspent? && !t.state.Pending?
  }

  lemma {:induction false} CountIs<F(!new)>(ts: seq<Ticket<F>>, which: TicketState -> bool)
    ensures Count(ts, which) == |set i | 0 <= i < |ts| && which(ts[i].state)|
  {
    var all := set i | 0 <= i < |ts| && which(ts[i].state);
    if ts == [] {
      assert all == {};
    } else {
      var front, last := ts[..|ts| - 1], ts[|ts| - 1];
      CountIs(front, which);
      CountConcat(front, [last], which);
      assert front + [last] == ts;
      var before := set i | 0 <= i < |front| && which(front[i].state);
      assert all == if which(last.state) then before + {|front|} else before;
    }
  }

  lemma {:induction false} CountConcat<F(!new)>(a: seq<Ticket<F>>, b: seq<Ticket<F>>, which: TicketState -> bool)
    ensures Count(a + b, which) == Count(a, which) + Count(b, which)
  {
    if a == [] {
      assert a + b == b;
    } else {
      CountConcat(a[1..], b, which);
      assert (a + b)[1..] == a[1..] + b;
    }
  }

  lemma WhyNotExplains<F(!new)>(ts: seq<Ticket<F>>)
    ensures Explains(ts, WhyNot(ts))
  {
    var unspent, pending := (s: TicketState) => s.Unspent?, (s: TicketState) => s.Pending?;
    CountIs(ts, unspent);
    CountFinds(ts, unspent);
    CountFinds(ts, pending);
    assert (set i | 0 <= i < |ts| && unspent(ts[i].state)) == set i | 0 <= i < |ts| && ts[i].state.Unspent?;
  }

  /** As many tickets settle as are pending before and no longer after. */
  lemma {:induction false} SettledCountIs<F(!new)>(d: Derivations<F>, leaves: seq<F>, ts: seq<Ticket<F>>)
    ensures SettledCount(d, leaves, ts) + Count(Settled(d, leaves, ts), (s: TicketState) => s.Pending?)
            == Count(ts, (s: TicketState) => s.Pending?)
  {
    if ts != [] {
      SettledCountIs(d, leaves, ts[1..]);
      assert Settled(d, leaves, ts)[1..] == Settled(d, leaves, ts[1..]);
    }
  }

  function Position<F(==)>(d: Derivations<F>, ts: seq<Ticket<F>>, nullifier: F): (r: Option<nat>)
    ensures r.Some? ==> r.value < |ts| && d.nullifier(ts[r.value].secret) == nullifier
    ensures r.None? ==> forall t :: t in ts ==> d.nullifier(t.secret) != nullifier
    ensures r.Some? ==> forall j :: 0 <= j < r.value ==> d.nullifier(ts[j].secret) != nullifier
  {
    if ts == [] then None
    else if d.nullifier(ts[0].secret) == nullifier then Some(0)
    else
      var rest := Position(d, ts[1..], nullifier);
      if rest.None? then None else Some(rest.value + 1)
  }

  function Minted<F>(secrets: seq<F>): seq<Ticket<F>> {
    if secrets == [] then [] else [Ticket(secrets[0], None, Pending)] + Minted(secrets[1..])
  }

  /** Settling touches pending tickets only, and makes usable exactly those the
      tree holds; settling again changes nothing. */
  lemma {:induction false} SettleMakesUsable<F(!new)>(d: Derivations<F>, leaves: seq<F>, ts: seq<Ticket<F>>)
    ensures |Settled(d, leaves, ts)| == |ts|
    ensures forall i :: 0 <= i < |ts| ==>
              Settled(d, leaves, ts)[i] == SettledTicket(d, leaves, ts[i])
    ensures forall i :: 0 <= i < |ts| ==>
              var t := ts[i];
              Settled(d, leaves, ts)[i] == if t.state.Pending? && d.leaf(t.secret) in leaves
                                           then Ticket(t.secret, First(leaves, d.leaf(t.secret)), Unspent) else t
    ensures forall i :: 0 <= i < |ts| && ts[i].state.Pending? ==>
              (Usable(d, leaves, Settled(d, leaves, ts)[i]) <==> d.leaf(ts[i].secret) in leaves)
    ensures Settled(d, leaves, Settled(d, leaves, ts)) == Settled(d, leaves, ts)
  {
    if ts != [] {
      SettleMakesUsable(d, leaves, ts[1..]);
      assert Settled(d, leaves, ts)[1..] == Settled(d, leaves, ts[1..]);
    }
  }

  /** A minted ticket is usable once settled against a tree, exactly if that holds
      its leaf; the wallet's other tickets stay as they are. */
  lemma {:induction false} MintedSettles<F(!new)>(d: Derivations<F>, leaves: seq<F>, ts: seq<Ticket<F>>, secrets: seq<F>, i: nat)
    requires i < |secrets|
    ensures |Minted(secrets)| == |secrets| && Minted(secrets)[i].secret == secrets[i]
    ensures var settled := Settled(d, leaves, ts + Minted(secrets));
            |settled| == |ts| + |secrets| && (Usable(d, leaves, settled[|ts| + i]) <==> d.leaf(secrets[i]) in leaves)
  {
    MintedAre(secrets, i);
    SettleMakesUsable(d, leaves, ts + Minted(secrets));
    assert (ts + Minted(secrets))[|ts| + i] == Minted(secrets)[i];
  }

  lemma {:induction false} MintedAre<F>(secrets: seq<F>, i: nat)
    requires i < |secrets|
    ensures |Minted(secrets)| == |secrets| && Minted(secrets)[i] == Ticket(secrets[i], None, Pending)
  {
    if |secrets| > 1 {
      MintedAre(secrets[1..], if i > 0 then i - 1 else 0);
    }
  }

  /** The loop of Settle after i tickets. */
  ghost predicate SettledSoFar<F(!new)>(d: Derivations<F>, leaves: seq<F>, before: seq<Ticket<F>>, i: nat,
                                            now: seq<Ticket<F>>, settled: nat) {
    && i <= |before| == |now| == |Settled(d, leaves, before)|
    && now == Settled(d, leaves, before)[..i] + before[i..]
    && settled + SettledCount(d, leaves, before[i..]) == SettledCount(d, leaves, before)
  }

  lemma SettleStarts<F(!new)>(d: Derivations<F>, leaves: seq<F>, before: seq<Ticket<F>>)
    ensures SettledSoFar(d, leaves, before, 0, before, 0)
  {
    SettleMakesUsable(d, leaves, before);
    assert before[0..] == before;
  }

  lemma SettleStep<F(!new)>(d: Derivations<F>, leaves: seq<F>, before: seq<Ticket<F>>, i: nat,
                                now: seq<Ticket<F>>, settled: nat)
    requires i < |before| && SettledSoFar(d, leaves, before, i, now, settled)
    ensures var index := First(leaves, d.leaf(now[i].secret));
            if now[i].state.Pending? && index.Some?
            then SettledSoFar(d, leaves, before, i + 1, now[i := now[i].(index := index, state := Unspent)], settled + 1)
            else SettledSoFar(d, leaves, before, i + 1, now, settled)
  {
    SettleMakesUsable(d, leaves, before);
    assert now[i] == before[i] && before[i..][1..] == before[i + 1..];
    assert now[i := SettledTicket(d, leaves, now[i])] == Settled(d, leaves, before)[..i + 1] + before[i + 1..];
    assert now[i := now[i]] == now;
  }

  lemma SettleEnds<F(!new)>(d: Derivations<F>, leaves: seq<F>, before: seq<Ticket<F>>, now: seq<Ticket<F>>, settled: nat)
    requires SettledSoFar(d, leaves, before, |before|, now, settled)
    ensures now == Settled(d, leaves, before) && settled == SettledCount(d, leaves, before)
  {
  }

  class Wallet<F(==, !new)> {
    const d: Derivations<F>
    var tickets: seq<Ticket<F>>

    constructor (d: Derivations<F>, tickets: seq<Ticket<F>>)
      ensures this.d == d && this.tickets == tickets
    {
      this.d := d;
      this.tickets := tickets;
    }

    /** The random secrets are drawn by the caller. */
    method Mint(secrets: seq<F>) returns (leaves: seq<F>)
      modifies this
      ensures tickets == old(tickets) + Minted(secrets)
      ensures |leaves| == |secrets| && forall i :: 0 <= i < |secrets| ==> leaves[i] == d.leaf(secrets[i])
    {
      leaves := [];
      for i := 0 to |secrets|
        invariant tickets + Minted(secrets[i..]) == old(tickets) + Minted(secrets)
        invariant |leaves| == i && forall j :: 0 <= j < i ==> leaves[j] == d.leaf(secrets[j])
      {
        assert secrets[i..][1..] == secrets[i + 1..];
        var ticket := Ticket(secrets[i], None, Pending);
        leaves := leaves + [d.leaf(ticket.secret)];
        tickets := tickets + [ticket];
      }
    }

    method Settle(tree: TicketTree<F>) returns (settled: nat)
      modifies this
      ensures tickets == Settled(d, tree.leaves, old(tickets))
      ensures settled == SettledCount(d, tree.leaves, old(tickets))
    {
      hide SettledSoFar;
      settled := 0;
      ghost var before := tickets;
      SettleStarts(d, tree.leaves, before);
      var i := 0;
      while i < |tickets|
        invariant 0 <= i <= |tickets| == |before|
        invariant SettledSoFar(d, tree.leaves, before, i, tickets, settled)
      {
        SettleStep(d, tree.leaves, before, i, tickets, settled);
        var t := tickets[i];
        var index := First(tree.leaves, d.leaf(t.secret));
        if t.state.Pending? && index.Some? {
          tickets := tickets[i := t.(index := index, state := Unspent)];
          settled := settled + 1;
        }
        i := i + 1;
      }
      SettleEnds(d, tree.leaves, before, tickets, settled);
    }

    /** The first usable ticket; if there is none, why. */
    method Pick(tree: TicketTree<F>) returns (r: Result<nat, PickError>)
      ensures r.Ok? <==> exists t :: t in tickets && Usable(d, tree.leaves, t)
      ensures r.Ok? ==> r.value < |tickets| && Usable(d, tree.leaves, tickets[r.value])
                        && forall j :: 0 <= j < r.value ==> !Usable(d, tree.leaves, tickets[j])
      ensures r.Ok? ==> var t := tickets[r.value];
                        && t.state.Unspent? && t.index.Some? && t.index.value < |tree.leaves|
                        && tree.leaves[t.index.value] == d.leaf(t.secret)
      ensures r.Err? ==> forall t :: t in tickets && t.state.Unspent? && t.index.Some? && t.index.value < |tree.leaves| ==>
                           tree.leaves[t.index.value] != d.leaf(t.secret)
      ensures r.Err? ==> r.error == WhyNot(tickets)
      ensures r.Err? ==> Explains(tickets, r.error)
    {
      var i := 0;
      while i < |tickets|
        invariant 0 <= i <= |tickets|
        invariant forall j :: 0 <= j < i ==> !Usable(d, tree.leaves, tickets[j])
      {
        var t := tickets[i];
        if t.state.Unspent? && t.index.Some? && t.index.value < |tree.leaves|
           && tree.leaves[t.index.value] == d.leaf(t.secret) {
          assert t in tickets && Usable(d, tree.leaves, t);
          return Ok(i);
        }
        i := i + 1;
      }
      WhyNotExplains(tickets);
      var unspent := Count(tickets, (s: TicketState) => s.Unspent?);
      if unspent > 0 {
        return Err(NotInTreeYet(unspent));
      }
      if Count(tickets, (s: TicketState) => s.Pending?) > 0 {
        return Err(PurchaseNotSeen);
      }
      return Err(NoTicket);
    }

    method MarkSpent(nullifier: F, tx: Option<nat>) returns (found: bool)
      modifies this
      ensures found <==> Position(d, old(tickets), nullifier).Some?
      ensures tickets == match Position(d, old(tickets), nullifier)
                         case None => old(tickets)
                         case Some(i) => old(tickets)[i := old(tickets)[i].(state := Spent(tx))]
    {
      var at := Position(d, tickets, nullifier);
      if at.None? {
        return false;
      }
      tickets := tickets[at.value := tickets[at.value].(state := Spent(tx))];
      return true;
    }

    /** Frees a reserved ticket; which send reserved it is not asked. */
    method Release(nullifier: F) returns (freed: bool)
      modifies this
      ensures freed <==> Position(d, old(tickets), nullifier).Some?
                         && old(tickets)[Position(d, old(tickets), nullifier).value].state.Reserved?
      ensures tickets == if freed
                         then old(tickets)[Position(d, old(tickets), nullifier).value :=
                                old(tickets)[Position(d, old(tickets), nullifier).value].(state := Unspent)]
                         else old(tickets)
    {
      var at := Position(d, tickets, nullifier);
      if at.None? || !tickets[at.value].state.Reserved? {
        return false;
      }
      tickets := tickets[at.value := tickets[at.value].(state := Unspent)];
      return true;
    }
  }

  lemma {:induction false} CountFinds<F(!new)>(ts: seq<Ticket<F>>, which: TicketState -> bool)
    ensures Count(ts, which) > 0 <==> exists t :: t in ts && which(t.state)
  {
    if ts != [] {
      CountFinds(ts[1..], which);
      assert ts == [ts[0]] + ts[1..];
    }
  }

  /** A ticket settled once stays as it is, and usable, when the tree has grown
      and is settled against again. */
  lemma UsableForGood<F(!new)>(d: Derivations<F>, leaves: seq<F>, more: seq<F>, ts: seq<Ticket<F>>, i: nat)
    requires i < |ts| && Usable(d, leaves, ts[i])
    ensures |Settled(d, leaves + more, ts)| == |ts| && Settled(d, leaves + more, ts)[i] == ts[i]
    ensures Usable(d, leaves + more, ts[i])
  {
    SettleMakesUsable(d, leaves + more, ts);
  }
}
