/**
 The checks of a send's preparation (tools/zkmsg/core/src/virtual_send.rs), once
 both trees are rebuilt up to the base block and their roots are the store's.
 */
module PrepareSend {

  import opened Outcomes
  import EventOrder
  import opened MerkleTree
  import R = RegistryTree
  import T = Tickets

  datatype PrepareError =
    | UnknownRecipient
    | UnknownSender
    | OtherKeys
    | SenderNotInTree
    | SenderPathMismatch
    | LatestUnavailable              // fetching the latest ticket tree failed
    | NoUsableTicket(why: T.PickError)
    | TicketNotInTree
    | TicketPathMismatch

  /** What the witness will hold of the two trees. */
  datatype Paths<F> = Paths(recipient: R.Registration<F>, sender: R.Registration<F>, senderPath: seq<F>,
                            ticket: nat, ticketPath: seq<F>)

  predicate Known<F(==, !new)>(registry: R.Registry<F>, handle: F) {
    handle in EventOrder.Keys(R.HandleOf<F>, registry.registrations)
  }

  /** A registration's own keys fold along its own path to the rebuilt root. */
  lemma OwnPathFolds<F(!new)>(registry: R.Registry<F>, sender: R.Registration<F>)
    requires registry.Valid() && sender in registry.registrations
    ensures sender.leafIndex < |registry.registrations|
    ensures Fold(registry.tree.hash, registry.leaf(sender.keys), sender.leafIndex,
                 PathFrom(registry.tree.hash, registry.tree.zeros[0], registry.tree.leaves, 0, sender.leafIndex))
            == Root(registry.tree.hash, registry.tree.zeros[0], registry.tree.leaves)
  {
    var i :| 0 <= i < |registry.registrations| && registry.registrations[i] == sender;
    assert R.LeafIndexOf(registry.registrations[i]) == i;
    PathFolds(registry.tree.hash, registry.tree.zeros[0], registry.tree.leaves, i);
  }

  lemma TicketPathFolds<F(!new)>(tickets: T.TicketTree<F>, leaf: F, index: nat)
    requires tickets.Valid() && index < |tickets.leaves| && tickets.leaves[index] == leaf
    ensures Fold(tickets.tree.hash, leaf, index,
                 PathFrom(tickets.tree.hash, tickets.tree.zeros[0], tickets.leaves, 0, index))
            == Root(tickets.tree.hash, tickets.tree.zeros[0], tickets.leaves)
  {
    PathFolds(tickets.tree.hash, tickets.tree.zeros[0], tickets.leaves, index);
  }

  method CheckSender<F(==, !new)>(registry: R.Registry<F>, root: F, handle: F, senderHandle: F, own: R.Keys<F>)
    returns (r: Result<(R.Registration<F>, R.Registration<F>, seq<F>), PrepareError>)
    requires registry.Valid()
    requires root == Root(registry.tree.hash, registry.tree.zeros[0], registry.tree.leaves)
    ensures r.Err? ==> r.error in {UnknownRecipient, UnknownSender, OtherKeys}
    ensures r == Err(UnknownRecipient) <==> !Known(registry, handle)
    ensures r == Err(UnknownSender) <==> Known(registry, handle) && !Known(registry, senderHandle)
    ensures r.Ok? <==> Known(registry, handle) && exists s :: s in registry.registrations && s.handle == senderHandle && s.keys == own
    ensures r.Ok? ==> var (recipient, sender, path) := r.value;
                      && recipient in registry.registrations && recipient.handle == handle
                      && sender in registry.registrations && sender.handle == senderHandle && sender.keys == own
                      && |path| == DEPTH
                      && Fold(registry.tree.hash, registry.leaf(own), sender.leafIndex, path) == root
  {
    var recipient := registry.Get(handle);
    if recipient.None? {
      return Err(UnknownRecipient);
    }
    var sender := registry.Get(senderHandle);
    if sender.None? {
      return Err(UnknownSender);
    }
    if sender.value.keys != own {
      return Err(OtherKeys);
    }
    OwnPathFolds(registry, sender.value);
    var path := registry.Path(sender.value.leafIndex);
    if path.None? {
      return Err(SenderNotInTree);
    }
    var folded := FoldPath(registry.tree.hash, registry.leaf(own), sender.value.leafIndex, path.value);
    if folded != root {
      return Err(SenderPathMismatch);
    }
    return Ok((recipient.value, sender.value, path.value));
  }

  predicate AnyPending<F(==)>(ts: seq<T.Ticket<F>>) {
    exists t :: t in ts && t.state.Pending?
  }

  ghost predicate AnyUsable<F(!new)>(d: T.Derivations<F>, leaves: seq<F>, ts: seq<T.Ticket<F>>) {
    exists t :: t in ts && T.Usable(d, leaves, t)
  }

  /** The wallet a refusal leaves: settled against the base tree, and, if a
      purchase is still pending, against the latest one. */
  function AfterRefusal<F(==)>(d: T.Derivations<F>, base: seq<F>, latest: Option<seq<F>>, ts: seq<T.Ticket<F>>): seq<T.Ticket<F>> {
    var settled := T.Settled(d, base, ts);
    if AnyPending(settled) && latest.Some? then T.Settled(d, latest.value, settled) else settled
  }

  /** Ticket by ticket: what the base tree holds is settled there; what it does not,
      the latest one settles, if it could be fetched; all else stays. */
  lemma RefusalLeaves<F(!new)>(d: T.Derivations<F>, base: seq<F>, latest: Option<seq<F>>, ts: seq<T.Ticket<F>>, i: nat)
    requires i < |ts|
    ensures |AfterRefusal(d, base, latest, ts)| == |ts|
    ensures var t, leaf := ts[i], d.leaf(ts[i].secret);
            AfterRefusal(d, base, latest, ts)[i]
            == if t.state.Pending? && leaf in base then T.Ticket(t.secret, T.First(base, leaf), T.Unspent)
               else if t.state.Pending? && latest.Some? && leaf in latest.value then T.Ticket(t.secret, T.First(latest.value, leaf), T.Unspent)
               else t
  {
    var settled := T.Settled(d, base, ts);
    T.SettleMakesUsable(d, base, ts);
    if latest.Some? {
      T.SettleMakesUsable(d, latest.value, settled);
    }
    assert settled[i] in settled;
  }

  lemma SettledMember<F(!new)>(d: T.Derivations<F>, leaves: seq<F>, ts: seq<T.Ticket<F>>, t: T.Ticket<F>)
    requires t in T.Settled(d, leaves, ts)
    ensures exists s :: s in ts && t == T.SettledTicket(d, leaves, s)
  {
    T.SettleMakesUsable(d, leaves, ts);
    var i :| 0 <= i < |T.Settled(d, leaves, ts)| && T.Settled(d, leaves, ts)[i] == t;
    assert ts[i] in ts;
  }

  lemma MemberSettled<F(!new)>(d: T.Derivations<F>, leaves: seq<F>, ts: seq<T.Ticket<F>>, s: T.Ticket<F>)
    requires s in ts
    ensures T.SettledTicket(d, leaves, s) in T.Settled(d, leaves, ts)
  {
    T.SettleMakesUsable(d, leaves, ts);
    var i :| 0 <= i < |ts| && ts[i] == s;
    assert T.Settled(d, leaves, ts)[i] == T.SettledTicket(d, leaves, s);
  }

  lemma StillPending<F(!new)>(d: T.Derivations<F>, base: seq<F>, ts: seq<T.Ticket<F>>, s: T.Ticket<F>)
    requires s in T.Settled(d, base, ts)
    ensures s.state.Pending? ==> forall i :: 0 <= i < |base| ==> base[i] != d.leaf(s.secret)
  {
    SettledMember(d, base, ts, s);
  }

  /** The settlement against the latest tree never makes a ticket usable for this
      send: what was still pending is not in the base tree. */
  lemma LatestNeverHelps<F(!new)>(d: T.Derivations<F>, base: seq<F>, latest: seq<F>, ts: seq<T.Ticket<F>>)
    ensures var settled := T.Settled(d, base, ts);
            AnyUsable(d, base, T.Settled(d, latest, settled)) ==> AnyUsable(d, base, settled)
  {
    var settled := T.Settled(d, base, ts);
    var again := T.Settled(d, latest, settled);
    forall t | t in again && T.Usable(d, base, t) ensures AnyUsable(d, base, settled) {
      SettledMember(d, latest, settled, t);
      var s :| s in settled && t == T.SettledTicket(d, latest, s);
      StillPending(d, base, ts, s);
      assert t == s;
    }
  }

  /** What it changes is the refusal: "not in the tree yet" instead of "not seen",
      exactly when the latest tree holds a pending purchase (or a ticket was
      unspent anyway). */
  lemma LatestChangesWhy<F(!new)>(d: T.Derivations<F>, latest: seq<F>, settled: seq<T.Ticket<F>>)
    ensures T.WhyNot(T.Settled(d, latest, settled)).NotInTreeYet?
            <==> exists t :: t in settled && (t.state.Unspent? || (t.state.Pending? && d.leaf(t.secret) in latest))
  {
    var again := T.Settled(d, latest, settled);
    T.CountFinds(again, (s: T.TicketState) => s.Unspent?);
    forall t | t in again && t.state.Unspent?
      ensures exists s :: s in settled && (s.state.Unspent? || (s.state.Pending? && d.leaf(s.secret) in latest))
    {
      SettledMember(d, latest, settled, t);
    }
    forall s | s in settled && (s.state.Unspent? || (s.state.Pending? && d.leaf(s.secret) in latest))
      ensures exists t :: t in again && t.state.Unspent?
    {
      MemberSettled(d, latest, settled, s);
    }
  }

  /** And the next try: once the base tree has grown past that latest tree, the
      purchase settled there is found. */
  lemma NextTryFinds<F(!new)>(d: T.Derivations<F>, latest: seq<F>, more: seq<F>, settled: seq<T.Ticket<F>>, t: T.Ticket<F>)
    requires t in settled && t.state.Pending? && d.leaf(t.secret) in latest
    ensures AnyUsable(d, latest + more, T.Settled(d, latest + more, T.Settled(d, latest, settled)))
  {
    var again := T.Settled(d, latest, settled);
    MemberSettled(d, latest, settled, t);
    var i :| 0 <= i < |again| && again[i] == T.SettledTicket(d, latest, t);
    T.UsableForGood(d, latest, more, again, i);
    assert again[i] in T.Settled(d, latest + more, again);
  }

  /** `Wallet::counts().pending > 0`. */
  method HasPending<F(==, !new)>(ts: seq<T.Ticket<F>>) returns (r: bool)
    ensures r == AnyPending(ts)
  {
    T.CountFinds(ts, (s: T.TicketState) => s.Pending?);
    return T.Count(ts, (s: T.TicketState) => s.Pending?) > 0;
  }

  /** Settles against the base tree and picks; if nothing is usable but a purchase
      is pending, settles against the latest tree (none if it cannot be fetched)
      and picks again. */
  method PickTicket<F(==, !new)>(tickets: T.TicketTree<F>, latest: Option<T.TicketTree<F>>, wallet: T.Wallet<F>)
    returns (r: Result<nat, PrepareError>)
    modifies wallet
    ensures var settled := T.Settled(wallet.d, tickets.leaves, old(wallet.tickets));
            && (r.Ok? <==> AnyUsable(wallet.d, tickets.leaves, settled))
            && (r.Ok? ==> wallet.tickets == settled && r.value < |settled| && T.Usable(wallet.d, tickets.leaves, settled[r.value])
                          && forall j :: 0 <= j < r.value ==> !T.Usable(wallet.d, tickets.leaves, settled[j]))
            && (r.Err? ==> r.error == if AnyPending(settled) && latest.None? then LatestUnavailable
                                      else NoUsableTicket(T.WhyNot(wallet.tickets)))
    ensures r.Err? ==> wallet.tickets == AfterRefusal(wallet.d, tickets.leaves, if latest.Some? then Some(latest.value.leaves) else None,
                                                      old(wallet.tickets))
  {
    var _ := wallet.Settle(tickets);
    var ti := wallet.Pick(tickets);
    if ti.Ok? {
      assert wallet.tickets[ti.value] in wallet.tickets;
      return Ok(ti.value);
    }
    var pending := HasPending(wallet.tickets);
    if !pending {
      return Err(NoUsableTicket(ti.error));
    }
    if latest.None? {
      return Err(LatestUnavailable);
    }
    LatestNeverHelps(wallet.d, tickets.leaves, latest.value.leaves, old(wallet.tickets));
    var _ := wallet.Settle(latest.value);
    var again := wallet.Pick(tickets);
    assert again.Err?;
    return Err(NoUsableTicket(again.error));
  }

  /** Why there is no ticket: the latest tree was needed and could not be fetched,
      else what the wallet left behind tells. */
  ghost predicate TicketRefusal<F(!new)>(d: T.Derivations<F>, base: seq<F>, latest: bool, before: seq<T.Ticket<F>>, after: seq<T.Ticket<F>>,
                                         e: PrepareError)
  {
    if AnyPending(T.Settled(d, base, before)) && !latest then e == LatestUnavailable
    else e.NoUsableTicket? && T.Explains(after, e.why)
  }

  method CheckTicket<F(==, !new)>(tickets: T.TicketTree<F>, latest: Option<T.TicketTree<F>>, wallet: T.Wallet<F>)
    returns (r: Result<(nat, seq<F>), PrepareError>)
    requires tickets.Valid() && wallet as object != tickets.tree
    modifies wallet
    ensures r.Err? ==> TicketRefusal(wallet.d, tickets.leaves, latest.Some?, old(wallet.tickets), wallet.tickets, r.error)
    ensures r.Err? ==> wallet.tickets == AfterRefusal(wallet.d, tickets.leaves, if latest.Some? then Some(latest.value.leaves) else None,
                                                      old(wallet.tickets))
    ensures r.Ok? <==> AnyUsable(wallet.d, tickets.leaves, T.Settled(wallet.d, tickets.leaves, old(wallet.tickets)))
    ensures r.Ok? ==> wallet.tickets == T.Settled(wallet.d, tickets.leaves, old(wallet.tickets))
                      && TicketProved(tickets, wallet.d, wallet.tickets, r.value.0, r.value.1)
  {
    var ti := PickTicket(tickets, latest, wallet);
    if ti.Err? {
      T.WhyNotExplains(wallet.tickets);
      return Err(ti.error);
    }
    var ticket := wallet.tickets[ti.value];
    var path := tickets.Path(ticket.index.value);
    if path.None? {
      return Err(TicketNotInTree);
    }
    TicketPathFolds(tickets, wallet.d.leaf(ticket.secret), ticket.index.value);
    var folded := FoldPath(tickets.tree.hash, wallet.d.leaf(ticket.secret), ticket.index.value, path.value);
    var root := tickets.tree.GetRoot();
    if folded != root {
      return Err(TicketPathMismatch);
    }
    return Ok((ti.value, path.value));
  }

  /** Ticket ti is the first usable one, and `path` proves it in the tree. */
  ghost predicate TicketProved<F(!new)>(tickets: T.TicketTree<F>, d: T.Derivations<F>, ts: seq<T.Ticket<F>>, ti: nat, path: seq<F>)
    reads tickets.tree
    requires tickets.Valid()
  {
    && ti < |ts| && T.Usable(d, tickets.leaves, ts[ti]) && (forall j :: 0 <= j < ti ==> !T.Usable(d, tickets.leaves, ts[j]))
    && |path| == DEPTH
    && Fold(tickets.tree.hash, d.leaf(ts[ti].secret), ts[ti].index.value, path)
       == Root(tickets.tree.hash, tickets.tree.zeros[0], tickets.leaves)
  }

  /** Main result. Once the rebuilt roots are the store's, neither fold check can
      fail, nor can a path be missing: only an unknown handle, other keys, an
      unreachable latest tree or the want of a usable ticket stops the
      preparation, and a prepared send has both paths proved. */
  method Prepare<F(==, !new)>(registry: R.Registry<F>, tickets: T.TicketTree<F>, latest: Option<T.TicketTree<F>>, wallet: T.Wallet<F>,
                              root: F, handle: F, senderHandle: F, own: R.Keys<F>)
    returns (r: Result<Paths<F>, PrepareError>)
    requires registry.Valid() && tickets.Valid()
    requires wallet as object != tickets.tree && wallet as object != registry.tree
    requires root == Root(registry.tree.hash, registry.tree.zeros[0], registry.tree.leaves)
    modifies wallet
    ensures r == Err(UnknownRecipient) <==> !Known(registry, handle)
    ensures r == Err(UnknownSender) <==> Known(registry, handle) && !Known(registry, senderHandle)
    ensures r == Err(OtherKeys) <==> Known(registry, handle) && Known(registry, senderHandle)
                                     && forall s :: s in registry.registrations && s.handle == senderHandle ==> s.keys != own
    ensures r.Err? && r.error in {UnknownRecipient, UnknownSender, OtherKeys} ==> wallet.tickets == old(wallet.tickets)
    ensures r.Err? && r.error !in {UnknownRecipient, UnknownSender, OtherKeys} ==>
              && TicketRefusal(wallet.d, tickets.leaves, latest.Some?, old(wallet.tickets), wallet.tickets, r.error)
              && !AnyUsable(wallet.d, tickets.leaves, T.Settled(wallet.d, tickets.leaves, old(wallet.tickets)))
              && wallet.tickets == AfterRefusal(wallet.d, tickets.leaves, if latest.Some? then Some(latest.value.leaves) else None,
                                                old(wallet.tickets))
    ensures r.Ok? ==> Known(registry, handle) && Known(registry, senderHandle) && r.value.sender.keys == own
                      && r.value.recipient.handle == handle && r.value.sender.handle == senderHandle
                      && Fold(registry.tree.hash, registry.leaf(own), r.value.sender.leafIndex, r.value.senderPath) == root
    ensures r.Ok? ==> wallet.tickets == T.Settled(wallet.d, tickets.leaves, old(wallet.tickets))
                      && TicketProved(tickets, wallet.d, wallet.tickets, r.value.ticket, r.value.ticketPath)
                      && wallet.tickets[r.value.ticket].state.Unspent?
  {
    var s := CheckSender(registry, root, handle, senderHandle, own);
    if s.Err? {
      return Err(s.error);
    }
    var t := CheckTicket(tickets, latest, wallet);
    if t.Err? {
      return Err(t.error);
    }
    return Ok(Paths(s.value.0, s.value.1, s.value.2, t.value.0, t.value.1));
  }

  /** A rebuilt registry whose root is the store's holds the store's own leaves,
      unless on the way up from one the inputs of the two trees' hashes collide. */
  lemma RootPinsRegistry<F(!new)>(registry: R.Registry<F>, store: seq<F>, i: nat)
    requires registry.Valid() && i < |registry.registrations|
    requires Root(registry.tree.hash, registry.tree.zeros[0], store)
             == Root(registry.tree.hash, registry.tree.zeros[0], registry.tree.leaves)
    ensures var h, zero := registry.tree.hash, registry.tree.zeros[0];
            LeafAt(zero, store, i) == registry.leaf(registry.registrations[i].keys)
            || SomeCollision(h, Genuine(h, zero, store, 0, i), Genuine(h, zero, registry.tree.leaves, 0, i))
  {
    RootBinds(registry.tree.hash, registry.tree.zeros[0], store, registry.tree.leaves, i);
  }
}
