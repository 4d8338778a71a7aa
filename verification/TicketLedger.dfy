/**
 Any number of sends and purchases sharing one wallet of tickets
 (tools/zkmsg/core/src/tickets.rs and virtual_send.rs). The wallet is a file
 that is loaded, changed in memory and saved with nothing held in between:
 what keeps the tickets in order, and exactly what does not.
 */
module TicketLedger {

  import opened Outcomes
  import opened PublishProtocol

  datatype Ticket = Unspent | Reserved(send: nat) | Spent

  type Wallet = map<nat, Ticket>

  /** Who has the wallet in memory: a send that is being prepared or settles its
      ticket, or a purchase. */
  datatype Holder = Sender(send: nat) | Buyer(process: nat)

  /** A wallet in memory. Of the moment it was loaded, or last saved, it remembers
      which sends there were and which tickets had been marked spent. */
  datatype Copy = Copy(wallet: Wallet, known: set<nat>, spent: set<nat>)

  /** `ticketOf` is the ticket whose nullifier a send's proof carries, `tickets`
      the wallet on disk and `copies` the wallets in memory. Of the past,
      `returned` remembers the sends that gave their ticket back and `spent` the
      tickets that were marked spent. */
  datatype World = World(sends: map<nat, Send>, ticketOf: map<nat, nat>, tickets: Wallet,
                         copies: map<Holder, Copy>, returned: set<nat>, spent: set<nat>)

  datatype Move =
    | Load(holder: Holder)
    | Drop(holder: Holder)                    // gives up, or crashes, with the wallet loaded
    | Bought(holder: Holder, ticket: nat)     // a pending ticket settled; the copy is saved and kept
    | Reserve(send: nat, ticket: nat)         // a fresh send reserves an unspent ticket of its copy
    | SendMoves(send: nat, event: Event)

  predicate MayLoad(w: World, h: Holder) {
    h.Buyer? || h.send !in w.sends || w.sends[h.send].proc.Ticketing?
  }

  predicate CanMove(w: World, m: Move) {
    match m
    case Load(h) => h !in w.copies && MayLoad(w, h)
    case Drop(h) => h in w.copies
    case Bought(h, t) => h in w.copies && (h.Buyer? || h.send !in w.sends) && t !in w.copies[h].wallet
    case Reserve(i, t) =>
      && i !in w.sends && Sender(i) in w.copies
      && t in w.copies[Sender(i)].wallet && w.copies[Sender(i)].wallet[t].Unspent?
    case SendMoves(i, e) =>
      && i in w.sends && i in w.ticketOf && Possible(w.sends[i], e)
      && (e == TicketUpdate(true) ==> Sender(i) in w.copies && w.ticketOf[i] in w.copies[Sender(i)].wallet)
  }

  /** `release` changes, and saves, only a wallet where the ticket is reserved,
      by whichever send; `mark_spent` overwrites any state. */
  predicate Frees(t: Ticket, action: TicketAction) {
    action.Release? && t.Reserved?
  }

  /** The wallet a move writes, if it writes one. */
  function Written(w: World, m: Move): Option<Wallet>
    requires CanMove(w, m)
  {
    match m
    case Bought(h, t) => Some(w.copies[h].wallet[t := Unspent])
    case Reserve(i, t) => Some(w.copies[Sender(i)].wallet[t := Reserved(i)])
    case SendMoves(i, e) =>
      if e != TicketUpdate(true) then None
      else
        var copy, t, action := w.copies[Sender(i)].wallet, w.ticketOf[i], w.sends[i].proc.action;
        if action.Spend? then Some(copy[t := Spent])
        else if Frees(copy[t], action) then Some(copy[t := Unspent])
        else None
    case _ => None
  }

  function OnDisk(w: World, m: Move): Wallet
    requires CanMove(w, m)
  {
    if Written(w, m).Some? then Written(w, m).value else w.tickets
  }

  function Moved(w: World, m: Move): World
    requires CanMove(w, m)
  {
    match m
    case Load(h) => w.(copies := w.copies[h := Copy(w.tickets, w.sends.Keys, w.spent)])
    case Drop(h) => w.(copies := w.copies - {h})
    case Bought(h, t) => w.(tickets := OnDisk(w, m), copies := w.copies[h := Copy(OnDisk(w, m), w.sends.Keys, w.spent)])
    case Reserve(i, t) =>
      w.(sends := w.sends[i := PREPARED], ticketOf := w.ticketOf[i := t], tickets := OnDisk(w, m),
         copies := w.copies - {Sender(i)})
    case SendMoves(i, e) =>
      var settles := e == TicketUpdate(true);
      w.(sends := w.sends[i := Step(w.sends[i], e)], tickets := OnDisk(w, m),
         copies := if e.TicketUpdate? || e.Crash? then w.copies - {Sender(i)} else w.copies,
         returned := if settles && w.sends[i].proc.action.Release? && Written(w, m).Some? then w.returned + {i} else w.returned,
         spent := if settles && w.sends[i].proc.action.Spend? then w.spent + {w.ticketOf[i]} else w.spent)
  }

  // --- the ledger -------------------------------------------------------------------

  ghost predicate Held(wallet: Wallet, t: nat, send: nat) {
    t in wallet && (wallet[t] == Spent || wallet[t] == Reserved(send))
  }

  /** The send can never submit again, and nothing of it is live. */
  ghost predicate Gone(s: Send) {
    && s.live == {}
    && ((s.proc.Ending? && s.proc.released) || (s.proc.Down? && (s.status.Stale? || s.status.Absent?)))
  }

  /** Send i stands well with a wallet: it has given its ticket back and is gone,
      or the wallet holds the ticket for it. */
  ghost predicate Stands(w: World, wallet: Wallet, i: nat)
    requires i in w.sends
  {
    if i in w.returned then Gone(w.sends[i]) else i in w.ticketOf && Held(wallet, w.ticketOf[i], i)
  }

  /** The ledger is in order: every send stands well, and what was marked spent is
      spent. */
  ghost predicate LedgerOk(w: World) {
    && (forall i :: i in w.sends ==> Stands(w, w.tickets, i))
    && (forall t :: t in w.spent ==> t in w.tickets && w.tickets[t] == Spent)
  }

  /** What holds in every run: each send keeps its protocol, and one that settles
      its ticket has a wallet that held it for it. */
  ghost predicate SendOk(w: World, i: nat)
    requires i in w.sends
  {
    && i in w.ticketOf && Inv(w.sends[i])
    && (Sender(i) in w.copies ==> w.sends[i].proc.Ticketing? && i !in w.returned
                                  && Held(w.copies[Sender(i)].wallet, w.ticketOf[i], i))
  }

  ghost predicate SendsOk(w: World) {
    (forall i :: i in w.sends ==> SendOk(w, i)) && (forall i :: i in w.returned ==> i in w.sends)
  }

  /** The send stops after its ticket went back to the wallet and before its file
      is retired. */
  ghost predicate Interrupts(w: World, m: Move) {
    m.SendMoves? && m.event.Crash? && m.send in w.sends && m.send in w.returned && w.sends[m.send].proc == Ending(true, Retire)
  }

  function Mover(m: Move): Option<nat> {
    match m
    case Reserve(i, _) => Some(i)
    case SendMoves(i, _) => Some(i)
    case _ => None
  }

  predicate Saves(w: World, m: Move)
    requires CanMove(w, m)
  {
    Written(w, m).Some?
  }

  /** Whose copy of the wallet a move saves. */
  function Saver(m: Move): Holder
    requires m.Bought? || m.Reserve? || m.SendMoves?
  {
    match m
    case Bought(h, _) => h
    case Reserve(i, _) => Sender(i)
    case SendMoves(i, _) => Sender(i)
  }

  /** The move saves a wallet that was loaded before another send, which has not
      given its ticket back since, was prepared, or before a ticket was spent. */
  ghost predicate Outdated(w: World, m: Move)
    requires CanMove(w, m)
  {
    Saves(w, m) && OlderThan(w, w.copies[Saver(m)], Mover(m))
  }

  ghost predicate OlderThan(w: World, c: Copy, mover: Option<nat>) {
    || (exists j :: j in w.sends && j !in w.returned && j !in c.known && mover != Some(j))
    || (exists t :: t in w.spent && t !in c.spent)
  }

  // --- what every careful run keeps ---------------------------------------------------

  ghost predicate Keeps(w: World, i: nat) {
    i in w.sends && i !in w.returned && i in w.ticketOf
  }

  /** Two sends that have not given their ticket back have different ones. */
  ghost predicate OneEach(w: World) {
    forall i, j :: Keeps(w, i) && Keeps(w, j) && i != j ==> w.ticketOf[i] != w.ticketOf[j]
  }

  /** Each of the tickets `spent` is that of one of the sends `known`. */
  ghost predicate Spenders(w: World, known: set<nat>, spent: set<nat>) {
    forall t :: t in spent ==> exists k :: SpentBy(w, known, t, k)
  }

  ghost predicate SpentBy(w: World, known: set<nat>, t: nat, k: nat) {
    k in known && Keeps(w, k) && w.ticketOf[k] == t
  }

  /** The wallet names only those sends, and calls only those tickets spent. */
  ghost predicate Names(wallet: Wallet, known: set<nat>, spent: set<nat>) {
    forall t :: t in wallet ==> match wallet[t]
                                case Unspent => true
                                case Reserved(j) => j in known
                                case Spent => t in spent
  }

  /** A copy holds what there was to hold when it was loaded or last saved. */
  ghost predicate CopyOk(w: World, c: Copy) {
    && c.known <= w.sends.Keys && c.spent <= w.spent
    && Names(c.wallet, c.known, c.spent) && Spenders(w, c.known, c.spent)
    && (forall j :: j in c.known && j !in w.returned ==> j in w.ticketOf && Held(c.wallet, w.ticketOf[j], j))
    && (forall t :: t in c.spent ==> t in c.wallet && c.wallet[t] == Spent)
  }

  /** A send that settles a spent ticket loaded the wallet after it was spent. */
  ghost predicate SettlerOk(w: World, i: nat) {
    i in w.sends && i in w.ticketOf && Sender(i) in w.copies && w.ticketOf[i] in w.spent ==> w.ticketOf[i] in w.copies[Sender(i)].spent
  }

  ghost predicate PastOk(w: World) {
    && OneEach(w) && Spenders(w, w.sends.Keys, w.spent) && Names(w.tickets, w.sends.Keys, w.spent)
    && (forall h :: h in w.copies ==> CopyOk(w, w.copies[h]))
    && (forall i :: i in w.sends ==> SettlerOk(w, i))
  }

  ghost predicate Orderly(w: World) {
    SendsOk(w) && LedgerOk(w) && PastOk(w)
  }

  /** The saved wallet lacks another send's reservation or a ticket's being spent. */
  ghost predicate Forgets(w: World, m: Move)
    requires CanMove(w, m)
  {
    Saves(w, m) && !Remembers(w, m, Written(w, m).value)
  }

  ghost predicate Remembers(w: World, m: Move, wallet: Wallet) {
    && (forall j :: j in w.sends && Mover(m) != Some(j) ==> Stands(w, wallet, j))
    && (forall t :: t in w.spent ==> t in wallet && wallet[t] == Spent)
  }

  /** The ticket a save changes, and to what. */
  lemma SaveChanges(w: World, m: Move) returns (t: nat, to: Ticket)
    requires CanMove(w, m) && Saves(w, m)
    ensures Saver(m) in w.copies && Written(w, m).value == w.copies[Saver(m)].wallet[t := to]
    ensures var copy := w.copies[Saver(m)].wallet;
            match m
            case Bought(_, x) => t == x && to == Unspent && t !in copy
            case Reserve(i, x) => t == x && to == Reserved(i) && t in copy && copy[t] == Unspent
            case SendMoves(i, e) =>
              && i in w.sends && e == TicketUpdate(true) && t == w.ticketOf[i] && t in copy
              && (if w.sends[i].proc.action.Spend? then to == Spent else to == Unspent && copy[t].Reserved? && w.sends[i].proc.action.Release?)
            case _ => false
  {
    match m
    case Bought(_, x) => t, to := x, Unspent;
    case Reserve(i, x) => t, to := x, Reserved(i);
    case SendMoves(i, _) =>
      t := w.ticketOf[i];
      to := if w.sends[i].proc.action.Spend? then Spent else Unspent;
  }

  lemma SettlerHolds(w: World, i: nat)
    requires Orderly(w) && i in w.sends && Sender(i) in w.copies
    ensures i !in w.returned && i in w.ticketOf && Held(w.copies[Sender(i)].wallet, w.ticketOf[i], i)
    ensures w.ticketOf[i] in w.spent ==> w.ticketOf[i] in w.copies[Sender(i)].spent
  {
    assert SendOk(w, i) && SettlerOk(w, i);
  }

  lemma UnreturnedHas(w: World, j: nat)
    requires Orderly(w) && j in w.sends
    ensures j in w.ticketOf
  {
    assert SendOk(w, j);
  }

  /** A save of an up-to-date wallet forgets nothing. */
  lemma FreshRemembers(w: World, m: Move)
    requires Orderly(w) && CanMove(w, m) && Saves(w, m) && !Outdated(w, m)
    ensures Remembers(w, m, Written(w, m).value)
  {
    hide SendsOk, Written, OneEach, Names, Spenders, SendOk;
    var t, to := SaveChanges(w, m);
    var c, wallet := w.copies[Saver(m)], Written(w, m).value;
    assert CopyOk(w, c);
    if m.SendMoves? {
      SettlerHolds(w, m.send);
    }
    forall j | j in w.sends && Mover(m) != Some(j) ensures Stands(w, wallet, j) {
      assert Stands(w, w.tickets, j);
      assert j !in w.returned ==> j in c.known;
    }
    forall x | x in w.spent ensures x in wallet && wallet[x] == Spent {
      assert x in c.spent;
    }
  }

  /** A save of an outdated one forgets what came since. */
  lemma OldForgets(w: World, m: Move)
    requires Orderly(w) && CanMove(w, m) && Outdated(w, m)
    ensures !Remembers(w, m, Written(w, m).value)
  {
    hide SendsOk, LedgerOk, OneEach, Names, Spenders, SendOk, CopyOk;
    var c := w.copies[Saver(m)];
    var wallet := Written(w, m).value;
    if j :| j in w.sends && j !in w.returned && j !in c.known && Mover(m) != Some(j) {
      NewcomerForgotten(w, m, j);
    } else {
      var x :| x in w.spent && x !in c.spent;
      SpendingForgotten(w, m, x);
    }
  }

  lemma NewcomerForgotten(w: World, m: Move, j: nat)
    requires Orderly(w) && CanMove(w, m) && Saves(w, m)
    requires j in w.sends && j !in w.returned && Mover(m) != Some(j)
    requires Saver(m) in w.copies && j !in w.copies[Saver(m)].known
    ensures !Stands(w, Written(w, m).value, j)
  {
    hide SendsOk, LedgerOk, Written, SendOk;
    var t, to := SaveChanges(w, m);
    var c := w.copies[Saver(m)];
    assert CopyOk(w, c);
    UnreturnedHas(w, j);
    var mine := w.ticketOf[j];
    assert forall k :: SpentBy(w, c.known, mine, k) ==> k == j;
    assert mine !in c.spent;
    if m.SendMoves? {
      SettlerHolds(w, m.send);
    }
  }

  lemma SpendingForgotten(w: World, m: Move, x: nat)
    requires Orderly(w) && CanMove(w, m) && Saves(w, m)
    requires Saver(m) in w.copies && x in w.spent && x !in w.copies[Saver(m)].spent
    ensures var wallet := Written(w, m).value; !(x in wallet && wallet[x] == Spent)
  {
    hide SendsOk, LedgerOk, Written, OneEach, Spenders, SendOk;
    var t, to := SaveChanges(w, m);
    assert CopyOk(w, w.copies[Saver(m)]);
    if m.SendMoves? {
      SettlerHolds(w, m.send);
    }
  }

  /** In order, it is exactly the outdated wallets that forget. */
  lemma ForgetsExactly(w: World, m: Move)
    requires Orderly(w) && CanMove(w, m)
    ensures Forgets(w, m) <==> Outdated(w, m)
  {
    hide Orderly, Remembers, Written;
    if Saves(w, m) {
      if Outdated(w, m) {
        OldForgets(w, m);
      } else {
        FreshRemembers(w, m);
      }
    }
  }

  /** Of a send that is gone, only an interruption makes anything else. */
  lemma GoneStays(s: Send, e: Event)
    requires Inv(s) && Gone(s) && Possible(s, e)
    ensures Step(s, e).posted == s.posted
    ensures Gone(Step(s, e)) <==> !(e.Crash? && s.proc == Ending(true, Retire))
  {
  }

  // --- one move -----------------------------------------------------------------------

  /** A send's own standing after its own event. */
  lemma MoverStands(w: World, i: nat, e: Event)
    requires SendsOk(w) && LedgerOk(w) && CanMove(w, SendMoves(i, e))
    ensures var m := SendMoves(i, e); var v := Moved(w, m);
            && SendOk(v, i)
            && (Remembers(w, m, v.tickets) ==> (Stands(v, v.tickets, i) <==> !Interrupts(w, m)))
  {
    var m := SendMoves(i, e);
    assert SendOk(w, i) && Stands(w, w.tickets, i);
    PublishProtocol.StepKeeps(w.sends[i], e);
    if i in w.returned {
      GoneStays(w.sends[i], e);
    }
  }

  /** Another send's standing depends on the wallet on disk alone. */
  lemma OtherStands(w: World, m: Move, j: nat)
    requires SendsOk(w) && CanMove(w, m) && j in w.sends && Mover(m) != Some(j)
    ensures var v := Moved(w, m);
            j in v.sends && (LedgerOk(w) ==> SendOk(v, j)) && (Stands(v, v.tickets, j) <==> Stands(w, v.tickets, j))
  {
    assert SendOk(w, j);
    if LedgerOk(w) {
      assert Stands(w, w.tickets, j);
    }
  }

  lemma ReserverStands(w: World, i: nat, t: nat)
    requires CanMove(w, Reserve(i, t)) && SendsOk(w)
    ensures var v := Moved(w, Reserve(i, t)); i in v.sends && SendOk(v, i) && Stands(v, v.tickets, i)
  {
  }

  /** Every send keeps its protocol under any move of an orderly ledger. */
  lemma SendsKept(w: World, m: Move)
    requires SendsOk(w) && LedgerOk(w) && CanMove(w, m)
    ensures SendsOk(Moved(w, m))
  {
    hide SendOk, LedgerOk, Stands, Step, Possible, Inv, Written;
    var v := Moved(w, m);
    forall j | j in v.sends ensures SendOk(v, j) {
      if Mover(m) == Some(j) {
        if m.SendMoves? {
          MoverStands(w, j, m.event);
        } else {
          ReserverStands(w, j, m.ticket);
        }
      } else {
        OtherStands(w, m, j);
      }
    }
  }

  lemma MoverOfLedger(w: World, m: Move, i: nat)
    requires SendsOk(w) && LedgerOk(w) && CanMove(w, m) && Mover(m) == Some(i)
    requires Remembers(w, m, Moved(w, m).tickets)
    ensures i in Moved(w, m).sends && (Stands(Moved(w, m), Moved(w, m).tickets, i) <==> !Interrupts(w, m))
  {
    if m.SendMoves? {
      MoverStands(w, i, m.event);
    } else {
      ReserverStands(w, i, m.ticket);
    }
  }

  /** The tickets marked spent, on the wallet a move leaves. */
  lemma SpentKept(w: World, m: Move)
    requires CanMove(w, m) && SendsOk(w)
    ensures var v := Moved(w, m);
            (forall t :: t in v.spent ==> t in v.tickets && v.tickets[t] == Spent)
            <==> (forall t :: t in w.spent ==> t in v.tickets && v.tickets[t] == Spent)
  {
    var v := Moved(w, m);
    if v.spent != w.spent {
      assert v.tickets[w.ticketOf[m.send]] == Spent;
    }
  }

  /** A wallet that is not written is the one every send stood well with. */
  lemma UnwrittenRemembers(w: World, m: Move)
    requires CanMove(w, m) && LedgerOk(w)
    ensures Remembers(w, m, Moved(w, m).tickets) <==> !Forgets(w, m)
  {
    assert Moved(w, m).tickets == OnDisk(w, m);
    if Written(w, m).None? {
      assert Moved(w, m).tickets == w.tickets;
    }
  }

  lemma MoveKeepsLedger(w: World, m: Move)
    requires SendsOk(w) && LedgerOk(w) && CanMove(w, m)
    ensures LedgerOk(Moved(w, m)) <==> !Interrupts(w, m) && !Forgets(w, m)
  {
    hide SendOk, Stands, Step, Possible, Inv, Written, Forgets, SendsOk;
    var v := Moved(w, m);
    UnwrittenRemembers(w, m);
    SpentKept(w, m);
    forall j | j in w.sends && Mover(m) != Some(j) ensures j in v.sends && (Stands(v, v.tickets, j) <==> Stands(w, v.tickets, j)) {
      OtherStands(w, m, j);
    }
    assert forall j :: j in v.sends ==> j in w.sends || Mover(m) == Some(j);
    if Remembers(w, m, v.tickets) && Mover(m).Some? {
      MoverOfLedger(w, m, Mover(m).value);
    }
  }

  /** Main step. Every move keeps the ledger in order, but exactly the interruption
      and the save of an outdated wallet. */
  lemma MoveKeeps(w: World, m: Move)
    requires Orderly(w) && CanMove(w, m)
    ensures LedgerOk(Moved(w, m)) <==> !Interrupts(w, m) && !Outdated(w, m)
  {
    MoveKeepsLedger(w, m);
    ForgetsExactly(w, m);
  }

  // --- the past is kept too -----------------------------------------------------------

  /** No send that marked its ticket spent gives it back. */
  lemma SpenderStays(w: World, m: Move, known: set<nat>, t: nat, k: nat)
    requires Orderly(w) && CanMove(w, m) && SpentBy(w, known, t, k) && t in w.spent
    ensures SpentBy(Moved(w, m), known, t, k)
  {
    hide SendsOk, LedgerOk, OneEach, Names, Spenders, SendOk, Step, Possible;
    if m.SendMoves? && m.send == k && Sender(k) in w.copies {
      SettlerHolds(w, k);
      assert CopyOk(w, w.copies[Sender(k)]);
    }
  }

  lemma SpendersStay(w: World, m: Move, known: set<nat>, spent: set<nat>)
    requires Orderly(w) && CanMove(w, m) && Spenders(w, known, spent) && spent <= w.spent
    ensures Spenders(Moved(w, m), known, spent)
  {
    hide Orderly, Moved, CanMove, SpentBy;
    forall t | t in spent ensures exists k :: SpentBy(Moved(w, m), known, t, k) {
      var k :| SpentBy(w, known, t, k);
      SpenderStays(w, m, known, t, k);
    }
  }

  /** What only grows, and what stays. */
  lemma Grows(w: World, m: Move)
    requires CanMove(w, m) && SendsOk(w)
    ensures var v := Moved(w, m);
            && w.sends.Keys <= v.sends.Keys && w.returned <= v.returned && w.spent <= v.spent
            && (forall i :: i in w.sends ==> i in w.ticketOf && i in v.ticketOf && v.ticketOf[i] == w.ticketOf[i])
  {
    forall i | i in w.sends ensures i in w.ticketOf {
      assert SendOk(w, i);
    }
  }

  lemma OneEachKept(w: World, m: Move)
    requires Orderly(w) && CanMove(w, m) && !Forgets(w, m)
    ensures OneEach(Moved(w, m))
  {
    hide LedgerOk, Names, Spenders, SendOk, Step, Possible, CopyOk;
    var v := Moved(w, m);
    Grows(w, m);
    if m.Reserve? {
      forall j | Keeps(w, j) ensures w.ticketOf[j] != m.ticket {
        assert Stands(w, Written(w, m).value, j);
      }
    }
    forall i, j | Keeps(v, i) && Keeps(v, j) && i != j ensures v.ticketOf[i] != v.ticketOf[j] {
      assert Keeps(w, i) || m.Reserve?;
      assert Keeps(w, j) || m.Reserve?;
    }
  }

  lemma DiskIs(w: World, m: Move)
    requires CanMove(w, m)
    ensures Moved(w, m).tickets == if Saves(w, m) then Written(w, m).value else w.tickets
  {
  }

  /** What a save adds to the wallet on disk is a known send's, or spent. */
  lemma NamesKept(w: World, m: Move)
    requires Orderly(w) && CanMove(w, m)
    ensures Names(Moved(w, m).tickets, Moved(w, m).sends.Keys, Moved(w, m).spent)
  {
    hide LedgerOk, OneEach, Spenders, SendOk, Step, Possible, Written;
    var v := Moved(w, m);
    Grows(w, m);
    DiskIs(w, m);
    if Saves(w, m) {
      var t, to := SaveChanges(w, m);
      assert CopyOk(w, w.copies[Saver(m)]);
      assert to.Spent? ==> t in v.spent;
    }
  }

  lemma NewSpender(w: World, m: Move)
    requires Orderly(w) && CanMove(w, m)
    ensures Spenders(Moved(w, m), Moved(w, m).sends.Keys, Moved(w, m).spent)
  {
    hide LedgerOk, OneEach, Names, Spenders, SendOk, Step, Possible;
    var v := Moved(w, m);
    Grows(w, m);
    SpendersStay(w, m, w.sends.Keys, w.spent);
    SpendersGrow(v, w.sends.Keys, w.spent, v.sends.Keys);
    if v.spent != w.spent {
      SettlerHolds(w, m.send);
      assert v.spent == w.spent + {w.ticketOf[m.send]};
      assert SpentBy(v, v.sends.Keys, w.ticketOf[m.send], m.send);
      SpendersAdd(v, v.sends.Keys, w.spent, w.ticketOf[m.send], m.send);
    }
  }

  lemma SpendersGrow(v: World, known: set<nat>, spent: set<nat>, more: set<nat>)
    requires Spenders(v, known, spent) && known <= more
    ensures Spenders(v, more, spent)
  {
    forall t | t in spent ensures exists k :: SpentBy(v, more, t, k) {
      var k :| SpentBy(v, known, t, k);
      assert SpentBy(v, more, t, k);
    }
  }

  lemma SpendersAdd(v: World, known: set<nat>, spent: set<nat>, t: nat, k: nat)
    requires Spenders(v, known, spent) && SpentBy(v, known, t, k)
    ensures Spenders(v, known, spent + {t})
  {
  }

  /** A wallet in memory that the move leaves alone. */
  lemma CopyKept(w: World, m: Move, c: Copy)
    requires Orderly(w) && CanMove(w, m) && CopyOk(w, c)
    ensures CopyOk(Moved(w, m), c)
  {
    hide Orderly, Moved, CanMove, Spenders, Names, Held, SendsOk;
    assert SendsOk(w) by {
      OrderlySends(w);
    }
    Grows(w, m);
    SpendersStay(w, m, c.known, c.spent);
  }

  lemma OrderlySends(w: World)
    requires Orderly(w)
    ensures SendsOk(w)
  {
  }

  /** One just loaded or saved. */
  lemma NewCopyOk(v: World)
    requires SendsOk(v) && LedgerOk(v) && Names(v.tickets, v.sends.Keys, v.spent) && Spenders(v, v.sends.Keys, v.spent)
    ensures CopyOk(v, Copy(v.tickets, v.sends.Keys, v.spent))
  {
    hide Names, Spenders;
    forall j | j in v.sends && j !in v.returned ensures j in v.ticketOf && Held(v.tickets, v.ticketOf[j], j) {
      assert Stands(v, v.tickets, j);
    }
  }

  lemma CopiesKept(w: World, m: Move)
    requires Orderly(w) && CanMove(w, m) && SendsOk(Moved(w, m)) && LedgerOk(Moved(w, m))
    requires Names(Moved(w, m).tickets, Moved(w, m).sends.Keys, Moved(w, m).spent)
    requires Spenders(Moved(w, m), Moved(w, m).sends.Keys, Moved(w, m).spent)
    ensures forall h :: h in Moved(w, m).copies ==> CopyOk(Moved(w, m), Moved(w, m).copies[h])
  {
    hide SendsOk, LedgerOk, OneEach, Names, Spenders, CopyOk, SendOk, Step, Possible, Written;
    var v := Moved(w, m);
    forall h | h in v.copies ensures CopyOk(v, v.copies[h]) {
      if (m.Load? || m.Bought?) && m.holder == h {
        NewCopyOk(v);
      } else {
        assert h in w.copies && v.copies[h] == w.copies[h];
        CopyKept(w, m, w.copies[h]);
      }
    }
  }

  lemma SettlersKept(w: World, m: Move)
    requires Orderly(w) && CanMove(w, m)
    ensures forall i :: i in Moved(w, m).sends ==> SettlerOk(Moved(w, m), i)
  {
    hide LedgerOk, Names, Spenders, CopyOk, SendOk, Step, Possible, Written;
    var v := Moved(w, m);
    Grows(w, m);
    forall i | i in v.sends ensures SettlerOk(v, i) {
      if Sender(i) in v.copies && Sender(i) in w.copies && v.copies[Sender(i)] == w.copies[Sender(i)] && i in w.sends {
        SettlerHolds(w, i);
        if v.spent != w.spent {
          SettlerHolds(w, m.send);
        }
      }
    }
  }

  /** A careful move keeps everything in order. */
  lemma OrderlyKept(w: World, m: Move)
    requires Orderly(w) && CanMove(w, m) && !Interrupts(w, m) && !Outdated(w, m)
    ensures Orderly(Moved(w, m))
  {
    hide Moved, CanMove, SendsOk, LedgerOk, OneEach, Names, Spenders, CopyOk, SettlerOk, Outdated, Forgets, Interrupts;
    MoveKeeps(w, m);
    ForgetsExactly(w, m);
    SendsKept(w, m);
    OneEachKept(w, m);
    NamesKept(w, m);
    NewSpender(w, m);
    CopiesKept(w, m);
    SettlersKept(w, m);
  }

  // --- whole runs -------------------------------------------------------------------

  const EMPTY: World := World(map[], map[], map[], map[], {}, {})

  ghost predicate Runs(worlds: seq<World>, moves: seq<Move>) {
    && |worlds| == |moves| + 1 && worlds[0] == EMPTY
    && forall k :: 0 <= k < |moves| ==> CanMove(worlds[k], moves[k]) && worlds[k + 1] == Moved(worlds[k], moves[k])
  }

  /** No move before the n-th interrupts a retirement or saves an outdated wallet. */
  ghost predicate Careful(worlds: seq<World>, moves: seq<Move>, n: nat)
    requires Runs(worlds, moves) && n <= |moves|
  {
    forall k :: 0 <= k < n ==> !Interrupts(worlds[k], moves[k]) && !Outdated(worlds[k], moves[k])
  }

  lemma {:induction false} CarefulOrderly(worlds: seq<World>, moves: seq<Move>, n: nat)
    requires Runs(worlds, moves) && n <= |moves| && Careful(worlds, moves, n)
    ensures Orderly(worlds[n])
  {
    hide Orderly, Interrupts, Outdated, Moved, CanMove;
    if n == 0 {
      EmptyOk();
    } else {
      CarefulOrderly(worlds, moves, n - 1);
      assert !Interrupts(worlds[n - 1], moves[n - 1]) && !Outdated(worlds[n - 1], moves[n - 1]);
      OrderlyKept(worlds[n - 1], moves[n - 1]);
    }
  }

  lemma CarefulKeeps(worlds: seq<World>, moves: seq<Move>, n: nat)
    requires Runs(worlds, moves) && n <= |moves| && Careful(worlds, moves, n)
    ensures SendsOk(worlds[n]) && LedgerOk(worlds[n])
  {
    hide Interrupts, Outdated, Moved, CanMove, SendsOk, LedgerOk, PastOk;
    CarefulOrderly(worlds, moves, n);
  }

  lemma EmptyOk()
    ensures Orderly(EMPTY)
  {
  }

  /** When holder h last loaded or saved its copy before move n. */
  function SetAt(moves: seq<Move>, h: Holder, n: nat): (l: nat)
    requires n <= |moves|
    ensures l <= n
  {
    if n == 0 then 0
    else if (moves[n - 1].Load? || moves[n - 1].Bought?) && moves[n - 1].holder == h then n
    else SetAt(moves, h, n - 1)
  }

  /** What a copy remembers is what there was right after that. */
  lemma {:induction false} KnownIs(worlds: seq<World>, moves: seq<Move>, n: nat, h: Holder)
    requires Runs(worlds, moves) && n <= |moves| && h in worlds[n].copies
    ensures var was := worlds[SetAt(moves, h, n)];
            worlds[n].copies[h].known == was.sends.Keys && worlds[n].copies[h].spent == was.spent
  {
    if n > 0 && SetAt(moves, h, n) != n {
      KnownIs(worlds, moves, n - 1, h);
    }
  }

  /** Main result. Over a whole run the ledger is in order throughout if and only
      if no send stops between giving its ticket back and retiring, and no wallet is
      saved that was loaded before another send was prepared that still keeps its
      ticket, or before a ticket was spent. */
  lemma {:induction false} LedgerExactly(worlds: seq<World>, moves: seq<Move>, n: nat)
    requires Runs(worlds, moves) && n <= |moves|
    ensures (forall k :: 0 <= k <= n ==> LedgerOk(worlds[k])) <==> Careful(worlds, moves, n)
  {
    hide Orderly, LedgerOk, Interrupts, Outdated, Moved, CanMove;
    if n == 0 {
      CarefulKeeps(worlds, moves, 0);
    } else {
      LedgerExactly(worlds, moves, n - 1);
      var w, m := worlds[n - 1], moves[n - 1];
      assert Careful(worlds, moves, n) <==> Careful(worlds, moves, n - 1) && !Interrupts(w, m) && !Outdated(w, m);
      if Careful(worlds, moves, n - 1) {
        CarefulOrderly(worlds, moves, n - 1);
        MoveKeeps(w, m);
        assert worlds[n] == Moved(w, m);
      }
    }
  }

  /** A send that gave its ticket back makes no submission. */
  lemma ReturnedStep(w: World, m: Move, i: nat)
    requires SendsOk(w) && LedgerOk(w) && CanMove(w, m) && i in w.returned
    ensures i in w.sends && i in Moved(w, m).sends && i in Moved(w, m).returned
    ensures Moved(w, m).sends[i].posted == w.sends[i].posted
  {
    assert i in w.sends;
    assert SendOk(w, i) && Stands(w, w.tickets, i);
    if m.SendMoves? && m.send == i {
      GoneStays(w.sends[i], m.event);
    }
  }

  lemma ReturnedIsGone(w: World, i: nat)
    requires SendsOk(w) && LedgerOk(w) && i in w.returned
    ensures i in w.sends && Gone(w.sends[i]) && w.sends[i].live == {} && w.sends[i].landed == {}
  {
    assert i in w.sends;
    assert SendOk(w, i) && Stands(w, w.tickets, i);
  }

  lemma {:induction false} ReturnedForGood(worlds: seq<World>, moves: seq<Move>, n: nat, m: nat, i: nat)
    requires Runs(worlds, moves) && n <= m <= |moves| && Careful(worlds, moves, m)
    requires i in worlds[n].returned
    ensures i in worlds[n].sends && i in worlds[m].sends && i in worlds[m].returned
    ensures Gone(worlds[m].sends[i]) && worlds[m].sends[i].live == {} && worlds[m].sends[i].landed == {}
    ensures worlds[m].sends[i].posted == worlds[n].sends[i].posted
    decreases m - n
  {
    hide SendsOk, LedgerOk, Interrupts, Outdated, Moved, CanMove, Gone;
    CarefulKeeps(worlds, moves, m);
    if n < m {
      ReturnedForGood(worlds, moves, n, m - 1, i);
      CarefulKeeps(worlds, moves, m - 1);
      ReturnedStep(worlds[m - 1], moves[m - 1], i);
    }
    ReturnedIsGone(worlds[m], i);
  }

  /** Of an unspent ticket nothing is ever live or landed again: a send that proved
      with it has given it back, and makes no submission from then on. */
  lemma UnspentIsSafe(worlds: seq<World>, moves: seq<Move>, n: nat, m: nat, i: nat)
    requires Runs(worlds, moves) && n <= m <= |moves| && Careful(worlds, moves, m)
    requires i in worlds[n].sends && i in worlds[n].ticketOf && worlds[n].ticketOf[i] in worlds[n].tickets
    requires worlds[n].tickets[worlds[n].ticketOf[i]] == Unspent
    ensures i in worlds[m].sends && worlds[m].sends[i].posted == worlds[n].sends[i].posted
    ensures worlds[m].sends[i].live == {} && worlds[m].sends[i].landed == {}
  {
    CarefulKeeps(worlds, moves, n);
    assert Stands(worlds[n], worlds[n].tickets, i);
    ReturnedForGood(worlds, moves, n, m, i);
  }

  /** No two sends hold one ticket: of two that proved with it, one has given it
      back for good, or the ticket is spent. */
  lemma OneHolder(worlds: seq<World>, moves: seq<Move>, n: nat, i: nat, j: nat)
    requires Runs(worlds, moves) && n <= |moves| && Careful(worlds, moves, n)
    requires i in worlds[n].sends && j in worlds[n].sends && i != j
    ensures var w := worlds[n];
            && i in w.ticketOf && j in w.ticketOf
            && (w.ticketOf[i] == w.ticketOf[j] && i !in w.returned && j !in w.returned ==>
                  w.ticketOf[i] in w.tickets && w.tickets[w.ticketOf[i]] == Spent)
  {
    CarefulKeeps(worlds, moves, n);
    assert SendOk(worlds[n], i) && SendOk(worlds[n], j);
    assert Stands(worlds[n], worlds[n].tickets, i) && Stands(worlds[n], worlds[n].tickets, j);
  }

  /** A ticket once marked spent stays spent. */
  lemma SpentForGood(worlds: seq<World>, moves: seq<Move>, n: nat, m: nat, t: nat)
    requires Runs(worlds, moves) && n <= m <= |moves| && Careful(worlds, moves, m) && t in worlds[n].spent
    ensures t in worlds[m].tickets && worlds[m].tickets[t] == Spent
  {
    SpentGrows(worlds, moves, n, m);
    CarefulKeeps(worlds, moves, m);
  }

  lemma {:induction false} SpentGrows(worlds: seq<World>, moves: seq<Move>, n: nat, m: nat)
    requires Runs(worlds, moves) && n <= m <= |moves|
    ensures worlds[n].spent <= worlds[m].spent
    decreases m - n
  {
    if n < m {
      SpentGrows(worlds, moves, n, m - 1);
    }
  }

  // --- one wallet at a time ------------------------------------------------------------

  /** The wallet is loaded only while nobody else has it in memory. */
  ghost predicate Serial(worlds: seq<World>, moves: seq<Move>)
    requires |worlds| == |moves| + 1
  {
    forall k :: 0 <= k < |moves| && moves[k].Load? ==> worlds[k].copies == map[]
  }

  /** At most one wallet is in memory, and it is the one on disk. */
  ghost predicate OneFreshCopy(w: World) {
    forall h :: h in w.copies ==> w.copies[h] == Copy(w.tickets, w.sends.Keys, w.spent) && w.copies.Keys == {h}
  }

  lemma FreshStep(w: World, m: Move)
    requires OneFreshCopy(w) && CanMove(w, m) && (m.Load? ==> w.copies == map[])
    ensures OneFreshCopy(Moved(w, m))
  {
    var v := Moved(w, m);
    match m
    case Load(g) =>
      assert v.copies.Keys == {g};
    case Drop(g) =>
      assert w.copies.Keys == {g} && v.copies.Keys == {};
    case Bought(g, t) =>
      assert w.copies.Keys == {g} && v.copies.Keys == {g};
    case Reserve(i, t) =>
      assert w.copies.Keys == {Sender(i)} && v.copies.Keys == {};
    case SendMoves(i, e) =>
      assert e == TicketUpdate(true) ==> w.copies.Keys == {Sender(i)} && v.copies.Keys == {};
      assert v.copies.Keys <= w.copies.Keys && (e != TicketUpdate(true) ==> v.tickets == w.tickets && v.spent == w.spent);
      assert v.sends.Keys == w.sends.Keys;
  }

  lemma {:induction false} SerialIsFresh(worlds: seq<World>, moves: seq<Move>, n: nat)
    requires Runs(worlds, moves) && Serial(worlds, moves) && n <= |moves|
    ensures OneFreshCopy(worlds[n])
  {
    if n > 0 {
      SerialIsFresh(worlds, moves, n - 1);
      FreshStep(worlds[n - 1], moves[n - 1]);
    }
  }

  lemma FreshIsNotOutdated(w: World, m: Move)
    requires OneFreshCopy(w) && CanMove(w, m)
    ensures !Outdated(w, m)
  {
    if Saves(w, m) {
      assert Saver(m) in w.copies;
    }
  }

  /** Where loads and saves of the wallet do not overlap, only the interruption
      remains: the ledger is in order if and only if it does not occur. */
  lemma SerialExactly(worlds: seq<World>, moves: seq<Move>, n: nat)
    requires Runs(worlds, moves) && Serial(worlds, moves) && n <= |moves|
    ensures (forall k :: 0 <= k <= n ==> LedgerOk(worlds[k])) <==> (forall k :: 0 <= k < n ==> !Interrupts(worlds[k], moves[k]))
  {
    hide LedgerOk, Interrupts, Outdated, Moved, OneFreshCopy;
    LedgerExactly(worlds, moves, n);
    forall k | 0 <= k < n ensures !Outdated(worlds[k], moves[k]) {
      SerialIsFresh(worlds, moves, k);
      FreshIsNotOutdated(worlds[k], moves[k]);
    }
  }

  // --- what goes wrong otherwise ------------------------------------------------------------

  /** Two sends that both loaded the wallet with a ticket unspent can both reserve
      it: whatever the rest of the world, the first then has no ticket. */
  lemma OverlapReservesTwice(w: World, i: nat, j: nat, t: nat)
    requires i != j && CanMove(w, Reserve(i, t)) && CanMove(w, Reserve(j, t)) && i !in w.returned
    ensures var v := Moved(w, Reserve(i, t));
            && CanMove(v, Reserve(j, t)) && Forgets(v, Reserve(j, t))
            && (var x := Moved(v, Reserve(j, t));
                x.sends[i] == PREPARED && x.sends[j] == PREPARED && x.ticketOf[i] == t && x.ticketOf[j] == t && !LedgerOk(x))
  {
    var v := Moved(w, Reserve(i, t));
    var x := Moved(v, Reserve(j, t));
    assert i in v.sends && !Stands(v, Written(v, Reserve(j, t)).value, i);
    assert i in x.sends && !Stands(x, x.tickets, i);
  }

  /** A wallet loaded before a ticket was spent, saved for another ticket after,
      makes it spendable again. */
  lemma OverlapUnspends(w: World, i: nat, t: nat, other: nat)
    requires CanMove(w, Reserve(i, other)) && t != other && t in w.spent && w.copies[Sender(i)].wallet.Keys >= {t}
    requires w.copies[Sender(i)].wallet[t] == Unspent
    ensures var v := Moved(w, Reserve(i, other)); t in v.spent && v.tickets[t] == Unspent && !LedgerOk(v)
  {
  }

  /** Some run ends in w. */
  ghost predicate Reached(w: World) {
    exists worlds, moves :: Runs(worlds, moves) && worlds[|worlds| - 1] == w
  }

  lemma Then(w: World, m: Move) returns (v: World)
    requires Reached(w) && CanMove(w, m)
    ensures v == Moved(w, m) && Reached(v)
  {
    hide Moved, CanMove;
    v := Moved(w, m);
    var worlds, moves :| Runs(worlds, moves) && worlds[|worlds| - 1] == w;
    assert Runs(worlds + [v], moves + [m]);
    assert (worlds + [v])[|worlds + [v]| - 1] == v;
  }

  /** Ticket 7 was bought, and sends 0 and 1 have both loaded the wallet. */
  lemma BothLoaded() returns (w: World)
    ensures Reached(w) && CanMove(w, Reserve(0, 7)) && CanMove(w, Reserve(1, 7))
    ensures w.returned == {} && w.ticketOf == map[] && w.sends == map[]
  {
    hide Reached;
    assert Reached(EMPTY) by {
      StartReached();
    }
    w := Then(EMPTY, Load(Buyer(0)));
    w := Then(w, Bought(Buyer(0), 7));
    w := Then(w, Drop(Buyer(0)));
    w := Then(w, Load(Sender(0)));
    w := Then(w, Load(Sender(1)));
  }

  lemma StartReached()
    ensures Reached(EMPTY)
  {
    assert Runs([EMPTY], []);
  }

  /** The overlap is reached: two sends prove with one ticket. */
  lemma ReservedTwice() returns (w: World)
    ensures Reached(w) && 0 in w.sends && 1 in w.sends && w.sends[0] == w.sends[1] == PREPARED
    ensures w.ticketOf == map[0 := 7, 1 := 7] && !LedgerOk(w)
  {
    hide Reached;
    w := BothLoaded();
    OverlapReservesTwice(w, 0, 1, 7);
    w := Then(w, Reserve(0, 7));
    w := Then(w, Reserve(1, 7));
  }

  /** Send 0 proved with ticket 7 while send 1, being prepared, has had the wallet
      in memory since before. */
  function Beside(s: Send, t: Ticket, spent: set<nat>): World {
    World(map[0 := s], map[0 := 7], map[7 := t, 8 := Unspent], map[Sender(1) := Copy(map[7 := Unspent, 8 := Unspent], {}, {})], {}, spent)
  }

  lemma BesideThen(s: Send, e: Event) returns (s': Send)
    requires Reached(Beside(s, Reserved(0), {})) && Possible(s, e) && !e.TicketUpdate? && !e.Crash?
    ensures s' == Step(s, e) && Reached(Beside(s', Reserved(0), {}))
  {
    var v := Then(Beside(s, Reserved(0), {}), SendMoves(0, e));
    s' := v.sends[0];
    assert v == Beside(s', Reserved(0), {});
  }

  lemma BesideSpends(s: Send) returns (s': Send)
    requires Reached(Beside(s, Reserved(0), {})) && s.proc.Ticketing? && s.proc.action.Spend?
    ensures s' == Step(s, TicketUpdate(true)) && Reached(Beside(s', Spent, {7}))
  {
    hide Reached;
    var v := Then(Beside(s, Reserved(0), {}), Load(Sender(0)));
    v := Then(v, SendMoves(0, TicketUpdate(true)));
    s' := v.sends[0];
    assert v.copies == Beside(s', Spent, {7}).copies;
    assert v == Beside(s', Spent, {7});
  }

  lemma BesideReserves(s: Send) returns (w: World)
    requires Reached(Beside(s, Spent, {7}))
    ensures Reached(w) && w.spent == {7} && 7 in w.tickets && w.tickets[7] == Unspent
    ensures 0 in w.sends && w.sends[0] == s && w.ticketOf[0 := 7] == w.ticketOf
  {
    hide Reached, Step, Possible;
    w := Then(Beside(s, Spent, {7}), Reserve(1, 8));
  }

  lemma BesideStarted()
    ensures Reached(Beside(PREPARED, Reserved(0), {}))
  {
    hide Reached;
    StartReached();
    var w := TwoBought();
    var none: map<nat, Send> := map[];
    assert none.Keys == {};
    w := Then(w, Load(Sender(1)));
    assert w.copies == map[Sender(1) := Copy(map[7 := Unspent, 8 := Unspent], {}, {})];
    w := Then(w, Load(Sender(0)));
    w := Then(w, Reserve(0, 7));
    assert w.copies == map[Sender(1) := Copy(map[7 := Unspent, 8 := Unspent], {}, {})];
    assert w == Beside(PREPARED, Reserved(0), {});
  }

  lemma TwoBought() returns (w: World)
    ensures Reached(w) && w == World(map[], map[], map[7 := Unspent, 8 := Unspent], map[], {}, {})
  {
    hide Reached;
    StartReached();
    w := Then(EMPTY, Load(Buyer(0)));
    w := Then(w, Bought(Buyer(0), 7));
    w := Then(w, Bought(Buyer(0), 8));
    w := Then(w, Drop(Buyer(0)));
    assert w == World(map[], map[], map[7 := Unspent, 8 := Unspent], map[], {}, {});
  }

  lemma BesidePosted() returns (s: Send)
    ensures Reached(Beside(s, Reserved(0), {})) && s == Step(Step(Step(Step(Step(PREPARED, ProofSaved), NothingSaved), RootKnown(3, 4)), Record), Post)
  {
    hide Reached;
    BesideStarted();
    s := BesideThen(PREPARED, ProofSaved);
    s := BesideThen(s, NothingSaved);
    s := BesideThen(s, RootKnown(3, 4));
    s := BesideThen(s, Record);
    s := BesideThen(s, Post);
  }

  /** The overlap is reached: a ticket whose transaction has landed is unspent
      again. */
  lemma SpentForgotten() returns (w: World)
    ensures Reached(w) && w.spent == {7} && 7 in w.tickets && w.tickets[7] == Unspent
    ensures 0 in w.sends && w.sends[0].landed == {Tx(3, 4)} && w.ticketOf[0 := 7] == w.ticketOf
  {
    hide Reached;
    var s := BesidePosted();
    s := BesideThen(s, Answer(Taken));
    s := BesideThen(s, Lands(Tx(3, 4)));
    s := BesideThen(s, Accepted);
    s := BesideSpends(s);
    w := BesideReserves(s);
  }

  /** Send 0 alone, proved with ticket 7, nobody holding the wallet in memory. */
  function Alone(s: Send, t: Ticket, returned: set<nat>, spent: set<nat>): World {
    World(map[0 := s], map[0 := 7], map[7 := t], map[], returned, spent)
  }

  lemma AloneThen(s: Send, t: Ticket, returned: set<nat>, spent: set<nat>, e: Event) returns (s': Send)
    requires Reached(Alone(s, t, returned, spent)) && Possible(s, e) && !e.TicketUpdate?
    ensures s' == Step(s, e) && Reached(Alone(s', t, returned, spent))
  {
    var w := Alone(s, t, returned, spent);
    var v := Then(w, SendMoves(0, e));
    s' := v.sends[0];
    assert v == Alone(s', t, returned, spent);
  }

  lemma AloneReleases(s: Send) returns (s': Send)
    requires Reached(Alone(s, Reserved(0), {}, {})) && s.proc.Ticketing? && s.proc.action.Release?
    ensures s' == Step(s, TicketUpdate(true)) && Reached(Alone(s', Unspent, {0}, {}))
  {
    assert map[0 := s].Keys == {0};
    var v := Then(Alone(s, Reserved(0), {}, {}), Load(Sender(0)));
    assert v.copies == map[Sender(0) := Copy(map[7 := Reserved(0)], {0}, {})];
    v := Then(v, SendMoves(0, TicketUpdate(true)));
    s' := v.sends[0];
    assert v == Alone(s', Unspent, {0}, {});
  }

  lemma Started()
    ensures Reached(Alone(PREPARED, Reserved(0), {}, {}))
  {
    hide Reached;
    StartReached();
    var w := Then(EMPTY, Load(Buyer(0)));
    w := Then(w, Bought(Buyer(0), 7));
    w := Then(w, Drop(Buyer(0)));
    w := Then(w, Load(Sender(0)));
    w := Then(w, Reserve(0, 7));
    assert w == Alone(PREPARED, Reserved(0), {}, {});
  }

  /** A send is proved, its root forgotten, its ticket given back; then it stops. */
  lemma Interrupted()
    ensures Reached(Alone(Send(Down, Pending, None, [], {}, {}, {}), Unspent, {0}, {}))
  {
    hide Reached;
    Started();
    var s := AloneThen(PREPARED, Reserved(0), {}, {}, ProofSaved);
    s := AloneThen(s, Reserved(0), {}, {}, NothingSaved);
    s := AloneThen(s, Reserved(0), {}, {}, RootForgotten);
    s := AloneReleases(s);
    s := AloneThen(s, Unspent, {0}, {}, Crash);
  }

  /** Then the resumed send may submit with a ticket the wallet calls unspent. */
  lemma InterruptedSubmits() returns (s: Send)
    ensures Reached(Alone(s, Unspent, {0}, {})) && s.live == {Tx(3, 4)}
  {
    hide Reached;
    Interrupted();
    s := AloneThen(Send(Down, Pending, None, [], {}, {}, {}), Unspent, {0}, {}, Resume);
    s := AloneThen(s, Unspent, {0}, {}, NothingSaved);
    s := AloneThen(s, Unspent, {0}, {}, RootKnown(3, 4));
    s := AloneThen(s, Unspent, {0}, {}, Record);
    s := AloneThen(s, Unspent, {0}, {}, Post);
  }

  /** Or free a ticket another send has reserved since, while that one is being
      proved with it. */
  lemma InterruptedFreesAnother() returns (w: World)
    ensures Reached(w)
    ensures 1 in w.sends && w.sends[1] == PREPARED && 1 in w.ticketOf && w.ticketOf[1] == 7
    ensures w.tickets == map[7 := Unspent] && 1 !in w.returned
  {
    hide Reached;
    Interrupted();
    w := Alone(Send(Down, Pending, None, [], {}, {}, {}), Unspent, {0}, {});
    w := Then(w, Load(Sender(1)));
    w := Then(w, Reserve(1, 7));
    w := Then(w, SendMoves(0, Resume));
    w := Then(w, SendMoves(0, NothingSaved));
    w := Then(w, SendMoves(0, RootForgotten));
    w := Then(w, Load(Sender(0)));
    w := Then(w, SendMoves(0, TicketUpdate(true)));
  }
}
