/**
 Moving a profile's tickets before it is wiped (tools/zkmsg/core/src/wipe.rs).
 Whether a reserved ticket's send has a submission on record is read from that
 send's file; here it is a parameter.
 */
module TicketMove {

  import opened Outcomes
  import opened Tickets

  /** A reserved ticket moves only if its send never had a publish submitted. */
  predicate Movable<F>(t: Ticket<F>, submitted: nat -> bool) {
    t.state.Unspent? || t.state.Pending? || (t.state.Reserved? && !submitted(t.state.sendId))
  }

  predicate InFlight<F>(t: Ticket<F>, submitted: nat -> bool) {
    t.state.Reserved? && submitted(t.state.sendId)
  }

  function MovableOf<F>(ts: seq<Ticket<F>>, submitted: nat -> bool): seq<Ticket<F>> {
    if ts == [] then []
    else (if Movable(ts[0], submitted) then [ts[0]] else []) + MovableOf(ts[1..], submitted)
  }

  function InFlightCount<F>(ts: seq<Ticket<F>>, submitted: nat -> bool): nat {
    if ts == [] then 0 else (if InFlight(ts[0], submitted) then 1 else 0) + InFlightCount(ts[1..], submitted)
  }

  function Secrets<F(==)>(ts: seq<Ticket<F>>): set<F> {
    if ts == [] then {} else {ts[0].secret} + Secrets(ts[1..])
  }

  /** What the target's wallet gets: a reserved ticket becomes unspent. */
  function Freed<F>(t: Ticket<F>): Ticket<F> {
    if t.state.Reserved? then t.(state := Unspent) else t
  }

  function MoveInto<F(==)>(target: seq<Ticket<F>>, movable: seq<Ticket<F>>): seq<Ticket<F>>
    decreases movable
  {
    if movable == [] then target
    else if movable[0].secret in Secrets(target) then MoveInto(target, movable[1..])
    else MoveInto(target + [Freed(movable[0])], movable[1..])
  }

  // --- the two loops -------------------------------------------------------------------

  lemma ClassifyStep<F>(ts: seq<Ticket<F>>, i: nat, submitted: nat -> bool, done: seq<Ticket<F>>)
    requires i < |ts|
    ensures done + MovableOf(ts[i..], submitted)
            == (if Movable(ts[i], submitted) then done + [ts[i]] else done) + MovableOf(ts[i + 1..], submitted)
    ensures InFlightCount(ts[i..], submitted)
            == (if InFlight(ts[i], submitted) then 1 else 0) + InFlightCount(ts[i + 1..], submitted)
  {
    assert ts[i..][1..] == ts[i + 1..];
    assert done + ([ts[i]] + MovableOf(ts[i + 1..], submitted)) == (done + [ts[i]]) + MovableOf(ts[i + 1..], submitted);
    assert done + ([] + MovableOf(ts[i + 1..], submitted)) == done + MovableOf(ts[i + 1..], submitted);
  }

  lemma ClassifyEnds<F>(ts: seq<Ticket<F>>, submitted: nat -> bool, done: seq<Ticket<F>>)
    ensures done + MovableOf(ts[|ts|..], submitted) == done && InFlightCount(ts[|ts|..], submitted) == 0
  {
  }

  function SpentCount<F>(ts: seq<Ticket<F>>): nat {
    if ts == [] then 0 else (if ts[0].state.Spent? then 1 else 0) + SpentCount(ts[1..])
  }

  /** Every ticket moves, is in flight, or is spent. A ticket moves exactly if it is
      unspent, pending, or reserved by a send that never had a publish submitted, in
      the wallet's order. */
  lemma {:induction false} MovesExactly<F(!new)>(ts: seq<Ticket<F>>, submitted: nat -> bool)
    ensures |MovableOf(ts, submitted)| + InFlightCount(ts, submitted) + SpentCount(ts) == |ts|
    ensures forall t :: t in MovableOf(ts, submitted) <==>
              t in ts && match t.state
                         case Unspent => true
                         case Pending => true
                         case Reserved(i) => !submitted(i)
                         case Spent(_) => false
  {
    if ts != [] {
      MovesExactly(ts[1..], submitted);
      assert ts == [ts[0]] + ts[1..];
    }
  }

  lemma {:induction false} SecretsOnce<F(!new)>(ts: seq<Ticket<F>>, submitted: nat -> bool, t: Ticket<F>)
    requires t in ts && t !in MovableOf(ts, submitted) && forall i, j :: 0 <= i < j < |ts| ==> ts[i].secret != ts[j].secret
    ensures t.secret !in Secrets(MovableOf(ts, submitted))
  {
    var rest, tail := MovableOf(ts[1..], submitted), ts[1..];
    assert ts == [ts[0]] + tail;
    MovesExactly(tail, submitted);
    assert forall i, j :: 0 <= i < j < |tail| ==> tail[i].secret != tail[j].secret;
    if t == ts[0] {
      forall x | x in rest ensures x.secret != t.secret {
        var i :| 0 <= i < |tail| && tail[i] == x;
        assert ts[0].secret != ts[i + 1].secret;
      }
      assert [] + rest == rest;
      NoSecret(rest, t.secret);
    } else {
      SecretsOnce(tail, submitted, t);
      var i :| 0 <= i < |tail| && tail[i] == t;
      assert ts[0].secret != ts[i + 1].secret;
      assert ([ts[0]] + rest)[1..] == rest && [] + rest == rest;
    }
  }

  lemma {:induction false} NoSecret<F(!new)>(ts: seq<Ticket<F>>, secret: F)
    requires forall t :: t in ts ==> t.secret != secret
    ensures secret !in Secrets(ts)
  {
    if ts != [] {
      NoSecret(ts[1..], secret);
    }
  }

  method ClassifyTickets<F(!new)>(ts: seq<Ticket<F>>, submitted: nat -> bool) returns (movable: seq<Ticket<F>>, inFlight: nat)
    ensures movable == MovableOf(ts, submitted) && inFlight == InFlightCount(ts, submitted)
    ensures |movable| + inFlight + SpentCount(ts) == |ts|
    ensures forall t :: t in movable <==>
              t in ts && (t.state.Unspent? || t.state.Pending? || (t.state.Reserved? && !submitted(t.state.sendId)))
  {
    MovesExactly(ts, submitted);
    hide MovableOf, InFlightCount;
    movable, inFlight := [], 0;
    assert ts[0..] == ts;
    for i := 0 to |ts|
      invariant movable + MovableOf(ts[i..], submitted) == MovableOf(ts, submitted)
      invariant inFlight + InFlightCount(ts[i..], submitted) == InFlightCount(ts, submitted)
    {
      var t := ts[i];
      ClassifyStep(ts, i, submitted, movable);
      if t.state.Unspent? || t.state.Pending? {
        movable := movable + [t];
      } else if t.state.Reserved? {
        if submitted(t.state.sendId) {
          inFlight := inFlight + 1;
        } else {
          movable := movable + [t];
        }
      }
    }
    ClassifyEnds(ts, submitted, movable);
  }

  datatype Report = Report(moved: nat, alreadyThere: nat, leftInFlight: nat)

  method MoveTickets<F(==, !new)>(source: Wallet<F>, target: Wallet<F>, submitted: nat -> bool) returns (report: Report)
    requires source != target
    modifies target
    ensures target.tickets == MoveInto(old(target.tickets), MovableOf(old(source.tickets), submitted))
    ensures report.moved == |target.tickets| - |old(target.tickets)|
    ensures report.moved + report.alreadyThere == |MovableOf(old(source.tickets), submitted)|
    ensures report.leftInFlight == InFlightCount(old(source.tickets), submitted)
  {
    var movable, inFlight := ClassifyTickets(source.tickets, submitted);
    report := Report(0, 0, inFlight);
    ghost var before := target.tickets;
    assert movable[0..] == movable;
    for i := 0 to |movable|
      invariant MoveInto(target.tickets, movable[i..]) == MoveInto(before, movable)
      invariant report.leftInFlight == inFlight && report.moved + report.alreadyThere == i
      invariant report.moved == |target.tickets| - |before|
    {
      var t := movable[i];
      assert movable[i..][1..] == movable[i + 1..];
      if t.secret in Secrets(target.tickets) {
        report := report.(alreadyThere := report.alreadyThere + 1);
      } else {
        target.tickets := target.tickets + [Freed(t)];
        report := report.(moved := report.moved + 1);
      }
    }
  }

  // --- what a move does -------------------------------------------------------------------

  lemma {:induction false} SecretsAppend<F(!new)>(ts: seq<Ticket<F>>, t: Ticket<F>)
    ensures Secrets(ts + [t]) == Secrets(ts) + {t.secret}
  {
    if ts == [] {
      assert ts + [t] == [t];
    } else {
      assert (ts + [t])[1..] == ts[1..] + [t];
      SecretsAppend(ts[1..], t);
    }
  }

  lemma {:induction false} SecretsMembers<F(!new)>(ts: seq<Ticket<F>>, i: nat)
    requires i < |ts|
    ensures ts[i].secret in Secrets(ts)
  {
    if i > 0 {
      SecretsMembers(ts[1..], i - 1);
    }
  }

  /** The target keeps its tickets, gains exactly the movable secrets. */
  lemma {:induction false} MoveSecrets<F(!new)>(target: seq<Ticket<F>>, movable: seq<Ticket<F>>)
    ensures Secrets(MoveInto(target, movable)) == Secrets(target) + Secrets(movable)
    ensures target <= MoveInto(target, movable)
    decreases movable
  {
    if movable != [] {
      if movable[0].secret in Secrets(target) {
        MoveSecrets(target, movable[1..]);
      } else {
        var longer := target + [Freed(movable[0])];
        SecretsAppend(target, Freed(movable[0]));
        MoveSecrets(longer, movable[1..]);
        assert longer[..|target|] == target;
      }
    }
  }

  /** A ticket the move added: fresh in the target, and neither reserved nor spent. */
  ghost predicate AddedWell<F(!new)>(ts: seq<Ticket<F>>, i: nat)
    requires i < |ts|
  {
    (ts[i].state.Unspent? || ts[i].state.Pending?) && ts[i].secret !in Secrets(ts[..i])
  }

  ghost predicate AllAddedWell<F(!new)>(ts: seq<Ticket<F>>, from: nat) {
    forall i :: from <= i < |ts| ==> AddedWell(ts, i)
  }

  lemma FirstAddedWell<F(!new)>(target: seq<Ticket<F>>, t: Ticket<F>, moved: seq<Ticket<F>>)
    requires !t.state.Spent? && t.secret !in Secrets(target)
    requires target + [Freed(t)] <= moved && AllAddedWell(moved, |target| + 1)
    ensures AllAddedWell(moved, |target|)
  {
    var longer := target + [Freed(t)];
    assert moved[..|longer|] == longer;
    assert moved[..|target|] == longer[..|target|] == target;
    assert moved[|target|] == longer[|target|] == Freed(t);
    assert AddedWell(moved, |target|);
  }

  /** No new duplicate, and nothing moved is reserved or spent. */
  lemma {:induction false} MoveAddsWell<F(!new)>(target: seq<Ticket<F>>, movable: seq<Ticket<F>>)
    requires forall t :: t in movable ==> !t.state.Spent?
    ensures AllAddedWell(MoveInto(target, movable), |target|)
    decreases movable
  {
    hide AddedWell;
    if movable != [] {
      assert movable[0] in movable && forall t :: t in movable[1..] ==> t in movable;
      if movable[0].secret in Secrets(target) {
        MoveAddsWell(target, movable[1..]);
      } else {
        var longer := target + [Freed(movable[0])];
        MoveAddsWell(longer, movable[1..]);
        MoveSecrets(longer, movable[1..]);
        FirstAddedWell(target, movable[0], MoveInto(longer, movable[1..]));
      }
    }
  }

  lemma {:induction false} NothingNew<F(!new)>(target: seq<Ticket<F>>, movable: seq<Ticket<F>>)
    requires Secrets(movable) <= Secrets(target)
    ensures MoveInto(target, movable) == target
  {
    if movable != [] {
      NothingNew(target, movable[1..]);
    }
  }

  /** Moving again changes nothing. */
  lemma MoveTwice<F(!new)>(target: seq<Ticket<F>>, movable: seq<Ticket<F>>)
    ensures MoveInto(MoveInto(target, movable), movable) == MoveInto(target, movable)
  {
    MoveSecrets(target, movable);
    NothingNew(MoveInto(target, movable), movable);
  }

  lemma {:induction false} MovableNotSpent<F(!new)>(ts: seq<Ticket<F>>, submitted: nat -> bool)
    ensures forall t :: t in MovableOf(ts, submitted) ==> !t.state.Spent?
  {
    if ts != [] {
      MovableNotSpent(ts[1..], submitted);
    }
  }

  /** What the target gains is a moved ticket, with its index, a reserved one freed. */
  lemma {:induction false} MovedAre<F(!new)>(target: seq<Ticket<F>>, movable: seq<Ticket<F>>, i: nat)
    requires |target| <= i < |MoveInto(target, movable)|
    ensures exists t :: t in movable && var gained := MoveInto(target, movable)[i];
              gained.secret == t.secret && gained.index == t.index
              && (gained.state == if t.state.Reserved? then Unspent else t.state)
    decreases movable
  {
    var first := movable[0];
    if first.secret in Secrets(target) {
      MovedAre(target, movable[1..], i);
    } else {
      var longer := target + [Freed(first)];
      MoveSecrets(longer, movable[1..]);
      if i == |target| {
        assert MoveInto(longer, movable[1..])[..|longer|] == longer;
        assert MoveInto(target, movable)[i] == longer[i] == Freed(first);
      } else {
        MovedAre(longer, movable[1..], i);
      }
    }
    assert movable == [first] + movable[1..];
  }

  /** A ticket whose send may still land is not handed to the target. */
  lemma InFlightStays<F(!new)>(source: seq<Ticket<F>>, target: seq<Ticket<F>>, submitted: nat -> bool, t: Ticket<F>)
    requires t in source && t.state.Reserved? && submitted(t.state.sendId)
    requires forall i, j :: 0 <= i < j < |source| ==> source[i].secret != source[j].secret
    ensures t.secret in Secrets(MoveInto(target, MovableOf(source, submitted))) ==> t.secret in Secrets(target)
  {
    MovesExactly(source, submitted);
    SecretsOnce(source, submitted, t);
    MoveSecrets(target, MovableOf(source, submitted));
  }

  /** Main result of the move: the target holds its old tickets first, then
      exactly the movable secrets it did not have, each once and spendable. */
  lemma MoveExactly<F(!new)>(source: seq<Ticket<F>>, target: seq<Ticket<F>>, submitted: nat -> bool)
    ensures var moved := MoveInto(target, MovableOf(source, submitted));
            && target <= moved
            && Secrets(moved) == Secrets(target) + Secrets(MovableOf(source, submitted))
            && AllAddedWell(moved, |target|)
            && MoveInto(moved, MovableOf(source, submitted)) == moved
  {
    var movable := MovableOf(source, submitted);
    MovableNotSpent(source, submitted);
    MoveSecrets(target, movable);
    MoveAddsWell(target, movable);
    MoveTwice(target, movable);
  }

  // --- deleting a profile, with crashes --------------------------------------------------------

  /** The two wallets as a running move has loaded them. */
  datatype Moving<F> = Moving(source: seq<Ticket<F>>, target: seq<Ticket<F>>)

  /** The two wallets on disk; the source is unreadable once its key is shredded.
      `planned` is the running deletion's count of movable tickets, `moving` what it
      has loaded to move, `cleared` that it has moved or skipped the move. `copies`
      are the target's wallets other processes have in memory. Of the past, `owed`
      are the secrets the deleted profile owned and could move. */
  datatype Disk<F> = Disk(source: Option<seq<Ticket<F>>>, target: seq<Ticket<F>>, planned: Option<nat>,
                          moving: Option<Moving<F>>, cleared: bool, copies: map<nat, seq<Ticket<F>>>, owed: set<F>)

  datatype Act<F> =
    | Plan
    | MoveLoad
    | MoveSave
    | Skip
    | Wipe
    | Crash
    | Gain(secret: F)                                   // a process of the deleted profile buys a ticket
    | TargetLoad(process: nat)
    | TargetSave(process: nat, bought: Option<F>)       // a process of the target saves, perhaps having bought a ticket

  /** A secret drawn at random is in no wallet and never was. */
  ghost predicate Fresh<F(!new)>(d: Disk<F>, secret: F) {
    && secret !in d.owed && secret !in Secrets(d.target)
    && (d.source.Some? ==> secret !in Secrets(d.source.value))
    && (d.moving.Some? ==> secret !in Secrets(d.moving.value.source) && secret !in Secrets(d.moving.value.target))
    && (forall p :: p in d.copies ==> secret !in Secrets(d.copies[p]))
  }

  ghost predicate CanAct<F(!new)>(d: Disk<F>, a: Act<F>) {
    match a
    case Plan => d.planned.None?
    case MoveLoad => d.planned.Some? && d.planned.value != 0 && !d.cleared && d.moving.None? && d.source.Some?
    case MoveSave => d.moving.Some?
    case Skip => d.planned == Some(0) && !d.cleared
    case Wipe => d.planned.Some? && d.cleared
    case Crash => true
    case Gain(secret) => d.source.Some? && Fresh(d, secret)
    case TargetLoad(p) => true
    case TargetSave(p, bought) => p in d.copies && (bought.Some? ==> Fresh(d, bought.value))
  }

  /** The target is saved only if the move added a ticket to it. */
  function Adds<F(==)>(m: Moving<F>, submitted: nat -> bool): bool {
    !(Secrets(MovableOf(m.source, submitted)) <= Secrets(m.target))
  }

  function Saved<F>(copy: seq<Ticket<F>>, bought: Option<F>): seq<Ticket<F>> {
    if bought.None? then copy else copy + Minted([bought.value])
  }

  function Acted<F(==)>(d: Disk<F>, submitted: nat -> bool, a: Act<F>): Disk<F> {
    match a
    case Plan => d.(planned := Some(if d.source.Some? then |MovableOf(d.source.value, submitted)| else 0), cleared := false)
    case MoveLoad => if d.source.None? then d else d.(moving := Some(Moving(d.source.value, d.target)))
    case MoveSave =>
      if d.moving.None? then d
      else
        var m := d.moving.value;
        d.(target := if Adds(m, submitted) then MoveInto(m.target, MovableOf(m.source, submitted)) else d.target,
           moving := None, cleared := true)
    case Skip => d.(cleared := true)
    case Wipe => d.(source := None)
    case Crash => d.(planned := None, moving := None, cleared := false)
    case Gain(secret) =>
      if d.source.None? then d else d.(source := Some(d.source.value + Minted([secret])), owed := d.owed + {secret})
    case TargetLoad(p) => d.(copies := d.copies[p := d.target])
    case TargetSave(p, bought) =>
      if p !in d.copies then d
      else d.(target := Saved(d.copies[p], bought), copies := d.copies[p := Saved(d.copies[p], bought)])
  }

  ghost predicate Deletion<F(!new)>(disks: seq<Disk<F>>, submitted: nat -> bool, acts: seq<Act<F>>) {
    && |disks| == |acts| + 1 && StartsWell(disks[0], submitted)
    && forall i :: 0 <= i < |acts| ==> CanAct(disks[i], acts[i]) && disks[i + 1] == Acted(disks[i], submitted, acts[i])
  }

  ghost predicate StartsWell<F(!new)>(d: Disk<F>, submitted: nat -> bool) {
    && d.source.Some? && d.planned.None? && d.moving.None? && !d.cleared && d.copies == map[]
    && d.owed == Secrets(MovableOf(d.source.value, submitted))
  }

  // --- what the deletion relies on ----------------------------------------------------------

  /** When process p of the target last loaded or saved before act n. */
  function SetAt<F>(acts: seq<Act<F>>, p: nat, n: nat): (s: nat)
    requires n <= |acts|
    ensures s <= n
  {
    if n == 0 then 0
    else if (acts[n - 1].TargetLoad? || acts[n - 1].TargetSave?) && acts[n - 1].process == p then n
    else SetAt(acts, p, n - 1)
  }

  /** Act n saves a target wallet that was loaded while the target lacked a secret. */
  ghost predicate SavesOld<F(!new)>(disks: seq<Disk<F>>, acts: seq<Act<F>>, n: nat)
    requires |disks| == |acts| + 1 && n < |acts|
  {
    acts[n].TargetSave? && !(disks[n].owed <= Secrets(disks[SetAt(acts, acts[n].process, n)].target))
  }

  /** A ticket was bought since the running move loaded the wallets. */
  predicate GainedSinceLoad<F>(acts: seq<Act<F>>, n: nat)
    requires n <= |acts|
  {
    n > 0 && (acts[n - 1].Gain? || (!acts[n - 1].MoveLoad? && GainedSinceLoad(acts, n - 1)))
  }

  /** Since the deletion last looked at the wallets, to plan or to move, a ticket was
      bought, or an old target wallet was saved after the move's own save, if it
      made one. */
  ghost predicate Spoiled<F(!new)>(disks: seq<Disk<F>>, submitted: nat -> bool, acts: seq<Act<F>>, n: nat)
    requires |disks| == |acts| + 1 && n <= |acts|
  {
    n > 0 &&
    match acts[n - 1]
    case Plan => false
    case MoveLoad => false
    case MoveSave =>
      if disks[n - 1].moving.Some? && Adds(disks[n - 1].moving.value, submitted) then GainedSinceLoad(acts, n - 1)
      else Spoiled(disks, submitted, acts, n - 1)
    case Gain(_) => true
    case TargetSave(_, _) => SavesOld(disks, acts, n - 1)
    case _ => Spoiled(disks, submitted, acts, n - 1)
  }

  lemma {:induction false} MovableConcat<F(!new)>(a: seq<Ticket<F>>, b: seq<Ticket<F>>, submitted: nat -> bool)
    ensures MovableOf(a + b, submitted) == MovableOf(a, submitted) + MovableOf(b, submitted)
  {
    hide Movable;
    if a == [] {
      assert a + b == b;
    } else {
      var head := if Movable(a[0], submitted) then [a[0]] else [];
      assert (a + b)[0] == a[0] && (a + b)[1..] == a[1..] + b;
      MovableConcat(a[1..], b, submitted);
      Associative(head, MovableOf(a[1..], submitted), MovableOf(b, submitted));
    }
  }

  lemma Associative<T>(a: seq<T>, b: seq<T>, c: seq<T>)
    ensures a + (b + c) == (a + b) + c
  {
  }

  lemma {:induction false} MovableAreSecrets<F(!new)>(ts: seq<Ticket<F>>, submitted: nat -> bool)
    ensures Secrets(MovableOf(ts, submitted)) <= Secrets(ts)
  {
    if ts != [] {
      var rest := MovableOf(ts[1..], submitted);
      MovableAreSecrets(ts[1..], submitted);
      assert ([ts[0]] + rest)[0] == ts[0] && ([ts[0]] + rest)[1..] == rest && [] + rest == rest;
    }
  }

  lemma GainAdds<F(!new)>(wallet: seq<Ticket<F>>, submitted: nat -> bool, secret: F)
    ensures Secrets(MovableOf(wallet + Minted([secret]), submitted)) == Secrets(MovableOf(wallet, submitted)) + {secret}
    ensures Secrets(wallet + Minted([secret])) == Secrets(wallet) + {secret}
  {
    var t := Ticket(secret, None, Pending);
    assert [secret][1..] == [] && Minted([secret]) == [t];
    assert [t][1..] == [] && MovableOf([t], submitted) == [t];
    MovableConcat(wallet, [t], submitted);
    SecretsAppend(MovableOf(wallet, submitted), t);
    SecretsAppend(wallet, t);
  }

  lemma SavedSecrets<F(!new)>(copy: seq<Ticket<F>>, bought: Option<F>)
    ensures Secrets(Saved(copy, bought)) == Secrets(copy) + if bought.Some? then {bought.value} else {}
  {
    if bought.Some? {
      GainAdds(copy, _ => false, bought.value);
    }
  }

  /** What process p has in memory is the target as it was then. */
  lemma {:induction false} CopyIs<F(!new)>(disks: seq<Disk<F>>, submitted: nat -> bool, acts: seq<Act<F>>, p: nat, n: nat)
    requires Deletion(disks, submitted, acts) && n <= |acts| && p in disks[n].copies
    ensures disks[n].copies[p] == disks[SetAt(acts, p, n)].target
  {
    hide MoveInto, MovableOf, Secrets, Fresh;
    if n > 0 && SetAt(acts, p, n) != n {
      CopyIs(disks, submitted, acts, p, n - 1);
    }
  }

  ghost predicate Holds<F(!new)>(d: Disk<F>) {
    d.owed <= Secrets(d.target)
  }

  /** The running move has loaded the source as it is, but for tickets gained since. */
  ghost predicate MoveOk<F(!new)>(d: Disk<F>, submitted: nat -> bool, gained: bool, m: Moving<F>) {
    var movable := Secrets(MovableOf(m.source, submitted));
    && movable <= d.owed
    && (!gained ==> movable == d.owed)
    && (gained ==> exists x :: x in d.owed && x !in movable && x !in Secrets(m.target))
  }

  /** The state of a deletion, as its past tells it. */
  ghost predicate Kept<F(!new)>(d: Disk<F>, submitted: nat -> bool, gained: bool, spoiled: bool) {
    && (d.source.Some? ==> Secrets(MovableOf(d.source.value, submitted)) == d.owed)
    && (d.cleared ==> d.planned.Some?)
    && (d.moving.Some? ==> d.source.Some? && !d.cleared && d.planned.Some? && d.planned.value != 0
                           && MoveOk(d, submitted, gained, d.moving.value)
                           && (!Adds(d.moving.value, submitted) ==> (spoiled <==> !Holds(d))))
    && (d.source.Some? && (d.cleared || d.planned == Some(0)) ==> (spoiled <==> !Holds(d)))
  }

  lemma PlanKeeps<F(!new)>(d: Disk<F>, submitted: nat -> bool, gained: bool, spoiled: bool)
    requires Kept(d, submitted, gained, spoiled) && CanAct(d, Plan)
    ensures Kept(Acted(d, submitted, Plan), submitted, gained, false)
  {
  }

  lemma LoadKeeps<F(!new)>(d: Disk<F>, submitted: nat -> bool, gained: bool, spoiled: bool)
    requires Kept(d, submitted, gained, spoiled) && CanAct(d, MoveLoad)
    ensures Kept(Acted(d, submitted, MoveLoad), submitted, false, false)
  {
  }

  lemma SaveKeeps<F(!new)>(d: Disk<F>, submitted: nat -> bool, gained: bool, spoiled: bool)
    requires Kept(d, submitted, gained, spoiled) && CanAct(d, MoveSave)
    ensures Kept(Acted(d, submitted, MoveSave), submitted, gained,
                 if Adds(d.moving.value, submitted) then gained else spoiled)
  {
    MoveSecrets(d.moving.value.target, MovableOf(d.moving.value.source, submitted));
  }

  lemma GainKeeps<F(!new)>(d: Disk<F>, submitted: nat -> bool, gained: bool, spoiled: bool, secret: F)
    requires Kept(d, submitted, gained, spoiled) && CanAct(d, Gain(secret))
    ensures Kept(Acted(d, submitted, Gain(secret)), submitted, true, true)
  {
    GainAdds(d.source.value, submitted, secret);
    if d.moving.Some? {
      MovableAreSecrets(d.moving.value.source, submitted);
    }
  }

  lemma TargetKeeps<F(!new)>(d: Disk<F>, submitted: nat -> bool, gained: bool, spoiled: bool, p: nat, bought: Option<F>)
    requires Kept(d, submitted, gained, spoiled) && CanAct(d, TargetSave(p, bought))
    ensures Kept(Acted(d, submitted, TargetSave(p, bought)), submitted, gained, !(d.owed <= Secrets(d.copies[p])))
    ensures Holds(Acted(d, submitted, TargetSave(p, bought))) <==> d.owed <= Secrets(d.copies[p])
  {
    SavedSecrets(d.copies[p], bought);
  }

  lemma OtherKeeps<F(!new)>(d: Disk<F>, submitted: nat -> bool, gained: bool, spoiled: bool, a: Act<F>)
    requires Kept(d, submitted, gained, spoiled) && CanAct(d, a) && (a.Skip? || a.Wipe? || a.Crash? || a.TargetLoad?)
    ensures Kept(Acted(d, submitted, a), submitted, gained, spoiled)
  {
  }

  lemma {:induction false} DeletionKept<F(!new)>(disks: seq<Disk<F>>, submitted: nat -> bool, acts: seq<Act<F>>, n: nat)
    requires Deletion(disks, submitted, acts) && n < |disks|
    ensures Kept(disks[n], submitted, GainedSinceLoad(acts, n), Spoiled(disks, submitted, acts, n))
  {
    hide Kept, CanAct, Acted, Secrets, MovableOf;
    if n == 0 {
      StartKept(disks[0], submitted);
    } else {
      var d, a, gained, spoiled := disks[n - 1], acts[n - 1], GainedSinceLoad(acts, n - 1), Spoiled(disks, submitted, acts, n - 1);
      DeletionKept(disks, submitted, acts, n - 1);
      match a
      case Plan => PlanKeeps(d, submitted, gained, spoiled);
      case MoveLoad => LoadKeeps(d, submitted, gained, spoiled);
      case MoveSave =>
        MoveSaveMoves(d);
        SaveKeeps(d, submitted, gained, spoiled);
      case Gain(secret) => GainKeeps(d, submitted, gained, spoiled, secret);
      case TargetSave(p, bought) =>
        CopyHeld(d, p, bought);
        CopyIs(disks, submitted, acts, p, n - 1);
        TargetKeeps(d, submitted, gained, spoiled, p, bought);
      case _ => OtherKeeps(d, submitted, gained, spoiled, a);
    }
  }

  lemma MoveSaveMoves<F(!new)>(d: Disk<F>)
    requires CanAct(d, MoveSave)
    ensures d.moving.Some?
  {
  }

  lemma CopyHeld<F(!new)>(d: Disk<F>, p: nat, bought: Option<F>)
    requires CanAct(d, TargetSave(p, bought))
    ensures p in d.copies
  {
  }

  lemma StartKept<F(!new)>(d: Disk<F>, submitted: nat -> bool)
    requires StartsWell(d, submitted)
    ensures Kept(d, submitted, false, false)
  {
  }

  // --- what is lost, exactly ---------------------------------------------------------------

  /** Every secret owed is in the source or in the target. */
  ghost predicate Safe<F(!new)>(d: Disk<F>, submitted: nat -> bool) {
    d.owed <= (if d.source.Some? then Secrets(MovableOf(d.source.value, submitted)) else {}) + Secrets(d.target)
  }

  /** Act n loses a secret: a wipe when the look the deletion relies on is spoiled,
      or, after the wipe, the save of an old target wallet. */
  ghost predicate Loses<F(!new)>(disks: seq<Disk<F>>, submitted: nat -> bool, acts: seq<Act<F>>, n: nat)
    requires |disks| == |acts| + 1 && n < |acts|
  {
    if disks[n].source.Some? then acts[n].Wipe? && Spoiled(disks, submitted, acts, n) else SavesOld(disks, acts, n)
  }

  /** Wiping keeps every secret exactly when the look it relies on is not spoiled. */
  lemma WipeKeepsExactly<F(!new)>(disks: seq<Disk<F>>, submitted: nat -> bool, acts: seq<Act<F>>, n: nat)
    requires Deletion(disks, submitted, acts) && n < |acts| && acts[n].Wipe? && disks[n].source.Some?
    ensures Safe(disks[n + 1], submitted) <==> !Spoiled(disks, submitted, acts, n)
  {
    hide Secrets, MovableOf, Spoiled;
    DeletionKept(disks, submitted, acts, n);
  }

  /** One act on a state that has lost nothing. */
  lemma ActSafe<F(!new)>(disks: seq<Disk<F>>, submitted: nat -> bool, acts: seq<Act<F>>, n: nat)
    requires Deletion(disks, submitted, acts) && n < |acts| && Safe(disks[n], submitted)
    ensures Safe(disks[n + 1], submitted) <==> !Loses(disks, submitted, acts, n)
  {
    hide Secrets, MovableOf, Spoiled, MoveInto, Minted, Fresh, SetAt, Adds;
    DeletionKept(disks, submitted, acts, n);
    DeletionKept(disks, submitted, acts, n + 1);
    if acts[n].TargetSave? {
      var p, bought := acts[n].process, acts[n].bought;
      CopyIs(disks, submitted, acts, p, n);
      TargetKeeps(disks[n], submitted, GainedSinceLoad(acts, n), Spoiled(disks, submitted, acts, n), p, bought);
    }
  }

  /** Main result of the deletion. Over crashes, retries, purchases and the target's
      own processes, every movable secret stays in the source or the target
      throughout exactly when no wipe follows a purchase, or the save of a target
      wallet loaded while it lacked a secret, without another look at the wallets,
      and no such save follows the wipe. */
  lemma {:induction false} NothingLostExactly<F(!new)>(disks: seq<Disk<F>>, submitted: nat -> bool, acts: seq<Act<F>>, n: nat)
    requires Deletion(disks, submitted, acts) && n <= |acts|
    ensures (forall k :: 0 <= k <= n ==> Safe(disks[k], submitted)) <==> (forall k :: 0 <= k < n ==> !Loses(disks, submitted, acts, k))
  {
    hide Safe, Loses, CanAct, Acted;
    if n == 0 {
      StartSafe(disks[0], submitted);
    } else {
      NothingLostExactly(disks, submitted, acts, n - 1);
      if Safe(disks[n - 1], submitted) {
        ActSafe(disks, submitted, acts, n - 1);
      }
    }
  }

  lemma StartSafe<F(!new)>(d: Disk<F>, submitted: nat -> bool)
    requires StartsWell(d, submitted)
    ensures Safe(d, submitted)
  {
  }

  /** Without purchases and without other processes of the target nothing is lost. */
  lemma AloneNothingLost<F(!new)>(disks: seq<Disk<F>>, submitted: nat -> bool, acts: seq<Act<F>>, n: nat)
    requires Deletion(disks, submitted, acts) && n <= |acts|
    requires forall a :: a in acts ==> !a.Gain? && !a.TargetSave?
    ensures Safe(disks[n], submitted)
  {
    hide Safe, CanAct, Acted;
    forall k | 0 <= k < n ensures !Loses(disks, submitted, acts, k) {
      NeverSpoiled(disks, submitted, acts, k);
    }
    NothingLostExactly(disks, submitted, acts, n);
  }

  const NONE: nat -> bool := _ => false

  /** A process of the target loads its wallet, the deletion moves and wipes, the
      process saves: the one ticket the profile had is gone. */
  lemma OldWalletLoses<F(!new)>(secret: F) returns (disks: seq<Disk<F>>, acts: seq<Act<F>>)
    ensures Deletion(disks, NONE, acts) && acts == [TargetLoad(0), Plan, MoveLoad, MoveSave, Wipe, TargetSave(0, None)]
    ensures disks[0].owed == {secret} && disks[6].source.None? && disks[6].target == []
    ensures !Safe(disks[6], NONE)
  {
    var t := Ticket(secret, None, Unspent);
    var moved: seq<Ticket<F>> := [t];
    OneTicket(t);
    acts := [TargetLoad(0), Plan, MoveLoad, MoveSave, Wipe, TargetSave(0, None)];
    var d0 := Disk(Some(moved), [], None, None, false, map[], {secret});
    var copies: map<nat, seq<Ticket<F>>> := map[0 := []];
    var d1 := d0.(copies := copies);
    var d2 := d1.(planned := Some(1));
    var d3 := d2.(moving := Some(Moving(moved, [])));
    var d4 := d3.(target := moved, moving := None, cleared := true);
    var d5 := d4.(source := None);
    var d6 := d5.(target := []);
    assert copies[0 := []] == copies && d0.copies[0 := []] == copies;
    assert Acted(d3, NONE, MoveSave) == d4;
    disks := [d0, d1, d2, d3, d4, d5, d6];
    assert CanAct(d5, acts[5]) && Acted(d5, NONE, acts[5]) == d6;
  }

  lemma OneTicket<F(!new)>(t: Ticket<F>)
    requires t.state.Unspent?
    ensures MovableOf([t], NONE) == [t] && Secrets([t]) == {t.secret} && MoveInto([], [t]) == [t] && Secrets<F>([]) == {}
  {
    assert [t][1..] == [] && MovableOf<F>([], NONE) == [] && [t] + [] == [t] && Secrets([t]) == {t.secret} + Secrets<F>([]);
    assert MoveInto([] + [Freed(t)], []) == [t];
  }

  lemma {:induction false} NeverSpoiled<F(!new)>(disks: seq<Disk<F>>, submitted: nat -> bool, acts: seq<Act<F>>, n: nat)
    requires |disks| == |acts| + 1 && n <= |acts| && forall a :: a in acts ==> !a.Gain? && !a.TargetSave?
    ensures !Spoiled(disks, submitted, acts, n) && !GainedSinceLoad(acts, n)
  {
    if n > 0 {
      assert acts[n - 1] in acts;
      NeverSpoiled(disks, submitted, acts, n - 1);
    }
  }
}
