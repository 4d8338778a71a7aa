/**
 One send, from its proof to its publication
 (tools/zkmsg/core/src/virtual_send.rs), as a state machine: every step that
 touches the disk, the gateway or the wallet is one event, a crash may come
 between any two, and the gateway, the feeder and the RPC answer as they like,
 within the assumptions written at `Possible`.
 */
module PublishProtocol {

  import opened Outcomes

  const PUBLISH_ATTEMPTS: nat := 12

  /** The prime of the field nonces live in. */
  const P: nat := 0x800000000000011000000000000000000000000000000000000000000000001

  /** The publish transaction of a send: its hash is a function of the nonce and
      the bounds alone, the proof and the calldata being fixed. */
  datatype Tx = Tx(nonce: nat, bounds: nat)

  /** The send's file: absent until the proof exists, renamed when retired. */
  datatype Status = Absent | Pending | Done | Stale

  datatype TicketAction = Spend | Release

  /** What follows the wallet's bookkeeping. `Stop`: the proof failed, there is
      no file to retire. */
  datatype Closing = Retire | Finish(tx: Tx) | Stop

  /** Where the process running the send stands. */
  datatype Proc =
    | Down
    | Proving
    | Entering(saved: Option<Tx>)
    | Waiting(saved: Option<Tx>)
    | Building(attempt: nat, tx: Tx)
    | Posting(attempt: nat, tx: Tx)
    | Sent(attempt: nat, tx: Tx)
    | Renoncing(attempt: nat, tx: Tx)
    | Awaiting(tx: Tx)
    | Ticketing(action: TicketAction, closing: Closing)
    | Ending(released: bool, closing: Closing)

  /** `recorded` is the hash, nonce and bounds on disk; `posted` every submission
      so far; `live` what the gateway may still hold or has landed; `declared`
      what feeder and RPC both once called dropped. */
  datatype Send = Send(proc: Proc, status: Status, recorded: Option<Tx>,
                       posted: seq<Tx>, live: set<Tx>, landed: set<Tx>, declared: set<Tx>)

  /** The gateway's answer; a rejection's text may match several of the patterns. */
  datatype Reply = Taken | Unclear | Rejected(tooRecent: bool, ticketSpent: bool, final: bool, nonce: bool)

  datatype Event =
    | ProofSaved
    | ProofFailed
    | Crash                                                    // also: any error that returns
    | Resume
    | NothingSaved
    | SavedStatus(reverted: bool, dropped: bool, rpcDropped: bool)
    | RootForgotten
    | RootKnown(nonce: nat, bounds: nat)                       // the pool's nonce and policy bounds
    | Record
    | Post
    | Answer(reply: Reply)
    | NonceStatus(dropped: bool, rpcDropped: bool, expected: Option<nat>, chain: nat)
    | Accepted
    | Reverted
    | TicketUpdate(saved: bool)                                // wallet bookkeeping is best effort
    | Close
    | GatewayDrops(tx: Tx)
    | Lands(tx: Tx)

  /** The nonce to retry at: the one the gateway names, else the chain's, and
      always past the one just refused. */
  function NextNonce(refused: nat, expected: Option<nat>, chain: nat): nat {
    var candidate := if expected.Some? then expected.value else chain;
    if candidate > refused then candidate else (refused + 1) % P
  }

  /** It is the least nonce past the refused one and not below the one named, short
      of the field's last element. */
  lemma NextNonceLeast(refused: nat, expected: Option<nat>, chain: nat, n: nat)
    requires refused + 1 < P
    ensures var named, next := if expected.Some? then expected.value else chain, NextNonce(refused, expected, chain);
            next > refused && next >= named && (n > refused && n >= named ==> next <= n)
  {
  }

  /** It is past the refused nonce, short of the field's last element. */
  lemma NextNonceGrows(refused: nat, expected: Option<nat>, chain: nat)
    requires refused < P
    ensures refused < NextNonce(refused, expected, chain)
            <==> refused + 1 < P || (if expected.Some? then expected.value else chain) > refused
  {
  }

  /** The branches of the publish loop, in their order. */
  function Judge(attempt: nat, tx: Tx, reply: Reply): Proc {
    var last := attempt + 1 == PUBLISH_ATTEMPTS;
    match reply
    case Taken => Awaiting(tx)
    case Unclear => Down
    case Rejected(tooRecent, ticketSpent, final, nonce) =>
      if !last && tooRecent then Building(attempt + 1, tx)
      else if ticketSpent then Ticketing(Spend, Retire)
      else if final then Ticketing(Release, Retire)
      else if !last && nonce then Renoncing(attempt, tx)
      else Down
  }

  /** When an event can happen. The environment is assumed to behave so: what
      feeder and RPC both call dropped is not held by the gateway and never lands;
      a refusal by the pool's validation means the gateway does not hold the
      transaction; the nonce is below the field's last element. */
  predicate Possible(s: Send, e: Event) {
    match e
    case ProofSaved => s.proc.Proving?
    case ProofFailed => s.proc.Proving?
    case Crash => !s.proc.Down?
    case Resume => s.proc.Down? && s.status.Pending?
    case NothingSaved => s.proc.Entering? && s.proc.saved.None?
    case SavedStatus(_, dropped, rpcDropped) =>
      && s.proc.Entering? && s.proc.saved.Some?
      && (dropped && rpcDropped ==> s.proc.saved.value !in s.live)
    case RootForgotten => s.proc.Waiting?
    case RootKnown(_, _) => s.proc.Waiting?
    case Record => s.proc.Building?
    case Post => s.proc.Posting?
    case Answer(reply) =>
      s.proc.Sent? && (reply.Rejected? && reply.final ==> s.proc.tx !in s.live)
    case NonceStatus(dropped, rpcDropped, _, _) =>
      && s.proc.Renoncing? && s.proc.tx.nonce + 1 < P
      && (dropped && rpcDropped ==> s.proc.tx !in s.live)
    case Accepted => s.proc.Awaiting?
    case Reverted => s.proc.Awaiting?
    case TicketUpdate(_) => s.proc.Ticketing?
    case Close => s.proc.Ending?
    case GatewayDrops(tx) => tx in s.live && tx !in s.landed
    case Lands(tx) => tx in s.live
  }

  function Step(s: Send, e: Event): Send
    requires Possible(s, e)
  {
    match e
    case ProofSaved => s.(proc := Entering(None), status := Pending)
    case ProofFailed => s.(proc := Ticketing(Release, Stop))
    case Crash => s.(proc := Down)
    case Resume => s.(proc := Entering(s.recorded))
    case NothingSaved => s.(proc := Waiting(None))
    case SavedStatus(reverted, dropped, rpcDropped) =>
      var tx := s.proc.saved.value;
      if reverted then s.(proc := Ticketing(Spend, Retire))
      else if !dropped || !rpcDropped then s.(proc := Awaiting(tx))
      else s.(proc := Waiting(Some(tx)), declared := s.declared + {tx})
    case RootForgotten => s.(proc := Ticketing(Release, Retire))
    case RootKnown(nonce, bounds) =>
      s.(proc := Building(0, if s.proc.saved.Some? then s.proc.saved.value else Tx(nonce, bounds)))
    case Record => s.(proc := Posting(s.proc.attempt, s.proc.tx), recorded := Some(s.proc.tx))
    case Post =>
      s.(proc := Sent(s.proc.attempt, s.proc.tx), posted := s.posted + [s.proc.tx], live := s.live + {s.proc.tx})
    case Answer(reply) => s.(proc := Judge(s.proc.attempt, s.proc.tx, reply))
    case NonceStatus(dropped, rpcDropped, expected, chain) =>
      var tx := s.proc.tx;
      if !dropped || !rpcDropped then s.(proc := Awaiting(tx))
      else s.(proc := Building(s.proc.attempt + 1, tx.(nonce := NextNonce(tx.nonce, expected, chain))),
              declared := s.declared + {tx})
    case Accepted => s.(proc := Ticketing(Spend, Finish(s.proc.tx)))
    case Reverted => s.(proc := Ticketing(Spend, Retire))
    case TicketUpdate(_) => s.(proc := Ending(s.proc.action.Release?, s.proc.closing))
    case Close =>
      match s.proc.closing {
        case Retire => s.(proc := Down, status := Stale)
        case Finish(tx) => s.(proc := Down, status := Done, recorded := Some(tx))
        case Stop => s.(proc := Down)
      }
    case GatewayDrops(tx) => s.(live := s.live - {tx})
    case Lands(tx) => s.(landed := s.landed + {tx})
  }

  /** A send that has just reserved its ticket. */
  const PREPARED: Send := Send(Proving, Absent, None, [], {}, {}, {})

  // --- the invariant ---------------------------------------------------------------

  /** `next` may follow the recorded transaction: it repeats it, or that one is
      dropped and the nonce grows. */
  ghost predicate MayFollow(s: Send, attempt: nat, next: Tx) {
    && (s.recorded.Some? && s.recorded.value != next ==>
          attempt > 0 && s.live == {} && s.recorded.value in s.declared && s.recorded.value.nonce < next.nonce)
    && (s.recorded.None? ==> s.live == {})
  }

  ghost predicate ProcOk(s: Send) {
    match s.proc
    case Down => true
    case Proving => s.status.Absent? && s.recorded.None?
    case Entering(saved) => s.status.Pending? && saved == s.recorded
    case Waiting(saved) => s.status.Pending? && saved == s.recorded && s.live == {}
    case Building(attempt, tx) => attempt < PUBLISH_ATTEMPTS && s.status.Pending? && MayFollow(s, attempt, tx)
    case Posting(attempt, tx) => attempt < PUBLISH_ATTEMPTS && s.status.Pending? && s.recorded == Some(tx)
    case Sent(attempt, tx) => attempt < PUBLISH_ATTEMPTS && s.status.Pending? && s.recorded == Some(tx)
    case Renoncing(attempt, tx) => attempt + 1 < PUBLISH_ATTEMPTS && s.status.Pending? && s.recorded == Some(tx)
    case Awaiting(tx) => s.status.Pending? && s.recorded == Some(tx)
    case Ticketing(action, closing) => ClosingOk(s, closing) && (action.Release? ==> s.live == {} && !closing.Finish?)
    case Ending(released, closing) => ClosingOk(s, closing) && (released ==> s.live == {} && !closing.Finish?)
  }

  ghost predicate ClosingOk(s: Send, closing: Closing) {
    match closing
    case Retire => s.status.Pending?
    case Finish(tx) => s.status.Pending? && s.recorded == Some(tx)
    case Stop => s.status.Absent? && s.recorded.None?
  }

  /** Submissions repeat the one before, or raise the nonce once it is dropped. */
  ghost predicate Orderly(posted: seq<Tx>, declared: set<Tx>) {
    forall i :: 0 < i < |posted| ==> Succeeds(posted[i - 1], posted[i], declared)
  }

  ghost predicate Succeeds(before: Tx, after: Tx, declared: set<Tx>) {
    before == after || (before.nonce < after.nonce && before in declared)
  }

  /** The last submission is the one on disk, unless it has been declared dropped
      and its successor recorded. */
  ghost predicate LastOnDisk(s: Send) {
    s.posted != [] ==> s.recorded.Some? && Succeeds(s.posted[|s.posted| - 1], s.recorded.value, s.declared)
  }

  ghost predicate Inv(s: Send) {
    && ProcOk(s)
    && (forall tx :: tx in s.live ==> s.recorded == Some(tx))
    && s.landed <= s.live
    && (s.status.Absent? ==> s.recorded.None?)
    && LastOnDisk(s)
    && Orderly(s.posted, s.declared)
  }

  lemma MoreDeclared(posted: seq<Tx>, declared: set<Tx>, more: set<Tx>)
    requires Orderly(posted, declared) && declared <= more
    ensures Orderly(posted, more)
  {
    forall i | 0 < i < |posted| ensures Succeeds(posted[i - 1], posted[i], more) {
      assert Succeeds(posted[i - 1], posted[i], declared);
    }
  }

  /** The submissions so far, under any step. */
  lemma HistoryKept(s: Send, e: Event)
    requires Inv(s) && Possible(s, e)
    ensures Orderly(Step(s, e).posted, Step(s, e).declared)
  {
    var t := Step(s, e);
    assert s.declared <= t.declared;
    MoreDeclared(s.posted, s.declared, t.declared);
    if e.Post? {
      forall i | 0 < i < |t.posted| ensures Succeeds(t.posted[i - 1], t.posted[i], t.declared) {
        if i < |s.posted| {
          assert Succeeds(s.posted[i - 1], s.posted[i], s.declared);
        }
      }
    }
  }

  lemma ProcKept(s: Send, e: Event)
    requires Inv(s) && Possible(s, e)
    ensures ProcOk(Step(s, e))
  {
    hide LastOnDisk, Orderly;
  }

  lemma LiveKept(s: Send, e: Event)
    requires Inv(s) && Possible(s, e)
    ensures var t := Step(s, e);
            (forall tx :: tx in t.live ==> t.recorded == Some(tx)) && t.landed <= t.live && (t.status.Absent? ==> t.recorded.None?)
  {
    hide LastOnDisk, Orderly;
  }

  lemma LastKept(s: Send, e: Event)
    requires Inv(s) && Possible(s, e)
    ensures LastOnDisk(Step(s, e))
  {
    hide Orderly;
  }

  lemma StepKeeps(s: Send, e: Event)
    requires Inv(s) && Possible(s, e)
    ensures Inv(Step(s, e))
  {
    hide Step, Possible, ProcOk, LastOnDisk, Orderly;
    HistoryKept(s, e);
    ProcKept(s, e);
    LiveKept(s, e);
    LastKept(s, e);
  }

  // --- whole runs ---------------------------------------------------------------------

  /** Consecutive states of a run, from the reservation of the ticket. */
  ghost predicate Run(states: seq<Send>, events: seq<Event>) {
    && |states| == |events| + 1 && states[0] == PREPARED
    && forall i :: 0 <= i < |events| ==> Possible(states[i], events[i]) && states[i + 1] == Step(states[i], events[i])
  }

  lemma {:induction false} RunKeeps(states: seq<Send>, events: seq<Event>, n: nat)
    requires Run(states, events) && n < |states|
    ensures Inv(states[n])
  {
    if n > 0 {
      RunKeeps(states, events, n - 1);
      StepKeeps(states[n - 1], events[n - 1]);
    }
  }

  /** Main result, safety: in every run at most one transaction of the send can
      be live, it is the one on disk, and at most that one ever lands. */
  lemma OneLive(states: seq<Send>, events: seq<Event>, n: nat)
    requires Run(states, events) && n < |states|
    ensures |states[n].live| <= 1 && states[n].landed <= states[n].live
    ensures forall tx :: tx in states[n].live ==> states[n].recorded == Some(tx)
  {
    RunKeeps(states, events, n);
    var s := states[n];
    if s.live != {} {
      var tx :| tx in s.live;
      assert s.live == {tx};
    }
  }

  /** What has landed once is the only one ever submitted from then on. */
  lemma {:induction false} LandedIsFinal(states: seq<Send>, events: seq<Event>, n: nat, m: nat, tx: Tx)
    requires Run(states, events) && n <= m < |states| && tx in states[n].landed
    ensures tx in states[m].landed && states[m].recorded == Some(tx)
    decreases m - n
  {
    RunKeeps(states, events, n);
    RunKeeps(states, events, m);
    if n < m {
      LandedIsFinal(states, events, n, m - 1, tx);
    }
  }

  /** Every submission was on disk, with its nonce and bounds, before it went out,
      and while the send's file was pending. */
  lemma RecordedFirst(states: seq<Send>, events: seq<Event>, n: nat)
    requires Run(states, events) && n < |events| && states[n + 1].posted != states[n].posted
    ensures states[n].status.Pending? && states[n].recorded.Some?
    ensures states[n + 1].posted == states[n].posted + [states[n].recorded.value]
  {
    RunKeeps(states, events, n);
  }

  /** What is on disk changes only to a higher nonce, after feeder and RPC both
      called the old transaction dropped, and never on the first attempt after a
      start or a resume: a resume submits exactly what was recorded. */
  lemma RecordChanges(states: seq<Send>, events: seq<Event>, n: nat)
    requires Run(states, events) && n < |events|
    requires states[n].recorded.Some? && states[n + 1].recorded != states[n].recorded
    ensures states[n].proc.Building? && states[n].proc.attempt > 0 && events[n].Record?
    ensures var before, after := states[n].recorded.value, states[n + 1].recorded.value;
            states[n + 1].recorded.Some? && before.nonce < after.nonce && before in states[n].declared && states[n].live == {}
  {
    RunKeeps(states, events, n);
  }

  /** Between any two submissions of a run: the same transaction, or a higher
      nonce, and the earlier one had been declared dropped. */
  lemma {:induction false} NoncesIncrease(posted: seq<Tx>, declared: set<Tx>, i: nat, j: nat)
    requires Orderly(posted, declared) && i < j < |posted|
    ensures posted[i] == posted[j] || (posted[i].nonce < posted[j].nonce && posted[i] in declared)
    decreases j - i
  {
    assert Succeeds(posted[j - 1], posted[j], declared);
    if i + 1 < j {
      NoncesIncrease(posted, declared, i, j - 1);
    }
  }

  /** Main result, history: over a whole run the submissions go up in nonce and
      a transaction is left behind only once declared dropped. */
  lemma SubmissionsOrdered(states: seq<Send>, events: seq<Event>, n: nat, i: nat, j: nat)
    requires Run(states, events) && n < |states| && i < j < |states[n].posted|
    ensures var posted := states[n].posted;
            posted[i] == posted[j] || (posted[i].nonce < posted[j].nonce && posted[i] in states[n].declared)
  {
    RunKeeps(states, events, n);
    NoncesIncrease(states[n].posted, states[n].declared, i, j);
  }

  /** The submissions a process may still make. */
  function AttemptsLeft(p: Proc): nat {
    match p
    case Proving => PUBLISH_ATTEMPTS
    case Entering(_) => PUBLISH_ATTEMPTS
    case Waiting(_) => PUBLISH_ATTEMPTS
    case Building(attempt, _) => if attempt < PUBLISH_ATTEMPTS then PUBLISH_ATTEMPTS - attempt else 0
    case Posting(attempt, _) => if attempt < PUBLISH_ATTEMPTS then PUBLISH_ATTEMPTS - attempt else 0
    case Sent(attempt, _) => if attempt < PUBLISH_ATTEMPTS then PUBLISH_ATTEMPTS - attempt - 1 else 0
    case Renoncing(attempt, _) => if attempt < PUBLISH_ATTEMPTS then PUBLISH_ATTEMPTS - attempt - 1 else 0
    case _ => 0
  }

  lemma StepSpendsAttempts(s: Send, e: Event)
    requires Inv(s) && Possible(s, e) && !e.Resume?
    ensures |Step(s, e).posted| + AttemptsLeft(Step(s, e).proc) <= |s.posted| + AttemptsLeft(s.proc)
  {
    hide Orderly, LastOnDisk;
  }

  /** A process makes at most twelve submissions before it is resumed again. */
  lemma {:induction false} TwelveAttempts(states: seq<Send>, events: seq<Event>, n: nat, m: nat)
    requires Run(states, events) && n <= m < |states| && forall i :: n <= i < m ==> !events[i].Resume?
    ensures |states[m].posted| + AttemptsLeft(states[m].proc) <= |states[n].posted| + AttemptsLeft(states[n].proc)
    ensures |states[m].posted| <= |states[n].posted| + 12
    decreases m - n
  {
    if n < m {
      TwelveAttempts(states, events, n, m - 1);
      RunKeeps(states, events, m - 1);
      StepSpendsAttempts(states[m - 1], events[m - 1]);
    }
  }

  /** What each answer leads to: a taken transaction is awaited, an unclear answer
      stops the process, and a rejection is, in this order, too early, a spent
      ticket, final, or about the nonce, where the last attempt's answer ends the
      loop. */
  lemma JudgedSafely(attempt: nat, tx: Tx, reply: Reply)
    requires attempt < PUBLISH_ATTEMPTS
    ensures var p, last, no := Judge(attempt, tx, reply), attempt + 1 == PUBLISH_ATTEMPTS, reply.Rejected?;
            var early := no && reply.tooRecent && !last;
            && (p == Awaiting(tx) <==> reply.Taken?) && (p.Awaiting? ==> reply.Taken?)
            && (p == Building(attempt + 1, tx) <==> early) && (p.Building? ==> early)
            && (p == Ticketing(Spend, Retire) <==> no && !early && reply.ticketSpent)
            && (p == Ticketing(Release, Retire) <==> no && !early && !reply.ticketSpent && reply.final)
            && (p.Ticketing? ==> p.closing.Retire?)
            && (p == Renoncing(attempt, tx) <==> no && !early && !reply.ticketSpent && !reply.final && reply.nonce && !last)
            && (p == Down <==> reply.Unclear? || (no && !early && !reply.ticketSpent && !reply.final && (last || !reply.nonce)))
  {
  }

  /** What begins a wait for acceptance: the gateway took the transaction, or does
      not, together with the RPC, call the recorded one dropped. */
  lemma AwaitsExactly(s: Send, e: Event)
    requires Inv(s) && Possible(s, e) && !s.proc.Awaiting?
    ensures Step(s, e).proc.Awaiting? <==>
              || e == Answer(Taken)
              || (e.SavedStatus? && !e.reverted && !(e.dropped && e.rpcDropped))
              || (e.NonceStatus? && !(e.dropped && e.rpcDropped))
    ensures Step(s, e).proc.Awaiting? ==> s.recorded == Some(Step(s, e).proc.tx)
  {
  }

  /** What is built next: the recorded transaction, or at first one at the pool's
      nonce and bounds; after a refusal for its nonce, once dropped, the same bounds
      at the next nonce. */
  lemma BuildsExactly(s: Send, e: Event)
    requires Inv(s) && Possible(s, e) && !s.proc.Building?
    ensures Step(s, e).proc.Building? <==>
              || e.RootKnown?
              || (e.Answer? && e.reply.Rejected? && e.reply.tooRecent && s.proc.attempt + 1 != PUBLISH_ATTEMPTS)
              || (e.NonceStatus? && e.dropped && e.rpcDropped)
    ensures e.RootKnown? ==> Step(s, e).proc == Building(0, if s.recorded.Some? then s.recorded.value else Tx(e.nonce, e.bounds))
    ensures e.NonceStatus? && e.dropped && e.rpcDropped ==>
              && s.recorded.Some? && Step(s, e).proc.Building? && Step(s, e).proc.attempt == s.proc.attempt + 1
              && Step(s, e).proc.tx == Tx(NextNonce(s.recorded.value.nonce, e.expected, e.chain), s.recorded.value.bounds)
  {
  }

  /** What stops a process: a crash, the end of the send, an unclear answer, or a
      refusal that leaves the ticket open on the last attempt or is none of the known. */
  lemma StopsExactly(s: Send, e: Event)
    requires Inv(s) && Possible(s, e) && !s.proc.Down?
    ensures Step(s, e).proc.Down? <==>
              || e.Crash? || e.Close? || e == Answer(Unclear)
              || (e.Answer? && e.reply.Rejected? && !e.reply.ticketSpent && !e.reply.final
                  && (s.proc.attempt + 1 == PUBLISH_ATTEMPTS || (!e.reply.tooRecent && !e.reply.nonce)))
  {
  }

  /** What goes on where it was: a recorded transaction, once dropped, is kept while
      the schedule is waited for, and a built one is recorded, then submitted. */
  lemma GoesOnExactly(s: Send, e: Event)
    requires Inv(s) && Possible(s, e)
    ensures e == NothingSaved || (e.SavedStatus? && !e.reverted && e.dropped && e.rpcDropped) ==>
              Step(s, e).proc == Waiting(s.recorded)
    ensures e.Resume? ==> Step(s, e).proc == Entering(s.recorded)
    ensures e.Record? ==> s.proc.Building? && Step(s, e).proc == Posting(s.proc.attempt, s.proc.tx)
                          && Step(s, e).recorded == Some(s.proc.tx)
    ensures e.Post? ==> s.proc.Posting? && Step(s, e).proc == Sent(s.proc.attempt, s.proc.tx)
                        && Step(s, e).posted == s.posted + [s.proc.tx]
  {
  }

  /** The gateway may hold a transaction exactly from its submission until it drops
      it, whatever else happens, a crash included. */
  lemma LiveExactly(s: Send, e: Event, tx: Tx)
    requires Inv(s) && Possible(s, e)
    ensures tx in Step(s, e).live <==> (tx in s.live && e != GatewayDrops(tx)) || (e.Post? && s.recorded == Some(tx))
    ensures tx in Step(s, e).landed <==> tx in s.landed || e == Lands(tx)
    ensures tx in Step(s, e).declared <==>
              tx in s.declared || (s.recorded == Some(tx) && ((e.SavedStatus? && !e.reverted && e.dropped && e.rpcDropped)
                                                              || (e.NonceStatus? && e.dropped && e.rpcDropped)))
  {
  }

  // --- how a send ends ---------------------------------------------------------------

  /** The send is over and was not published. */
  predicate Refuted(e: Event) {
    || e.Reverted? || e.RootForgotten? || (e.SavedStatus? && e.reverted)
    || (e.Answer? && e.reply.Rejected? && (e.reply.ticketSpent || e.reply.final))
  }

  /** Nothing can have burnt the ticket. */
  predicate Frees(e: Event) {
    e.ProofFailed? || e.RootForgotten? || (e.Answer? && e.reply.Rejected? && e.reply.final && !e.reply.ticketSpent)
  }

  predicate Settling(p: Proc) {
    p.Ticketing? || p.Ending?
  }

  /** A step that begins the bookkeeping says how the send ends. */
  lemma SettlesExactly(s: Send, e: Event)
    requires Inv(s) && Possible(s, e) && !Settling(s.proc)
    ensures Settling(Step(s, e).proc) <==>
              || e.Accepted? || e.ProofFailed? || e.Reverted? || e.RootForgotten? || (e.SavedStatus? && e.reverted)
              || (e.Answer? && e.reply.Rejected? && (e.reply.ticketSpent || e.reply.final)
                  && !(e.reply.tooRecent && s.proc.attempt + 1 != PUBLISH_ATTEMPTS))
    ensures var p := Step(s, e).proc;
            Settling(p) ==> p.Ticketing? && (p.action.Release? <==> Frees(e))
                            && (p.closing.Stop? <==> e.ProofFailed?) && (p.closing.Retire? <==> Refuted(e))
                            && (p.closing.Finish? <==> e.Accepted?)
  {
  }

  function Freed(p: Proc): bool
    requires Settling(p)
  {
    if p.Ticketing? then p.action.Release? else p.released
  }

  lemma SettlingGoesOn(s: Send, e: Event)
    requires Possible(s, e) && Settling(s.proc) && Settling(Step(s, e).proc)
    ensures e.TicketUpdate? || e.GatewayDrops? || e.Lands?
    ensures Step(s, e).proc.closing == s.proc.closing && (Freed(Step(s, e).proc) <==> Freed(s.proc))
  {
  }

  /** The event that began the bookkeeping under way at n: since then only the
      wallet, and the gateway and the chain, had a say. */
  lemma {:induction false} SettledBy(states: seq<Send>, events: seq<Event>, n: nat) returns (k: nat)
    requires Run(states, events) && n < |states| && Settling(states[n].proc)
    ensures k < n && !Settling(states[k].proc)
    ensures forall i :: k < i < n ==> events[i].TicketUpdate? || events[i].GatewayDrops? || events[i].Lands?
    ensures var p := states[n].proc;
            && (Freed(p) <==> Frees(events[k]))
            && (p.closing.Stop? <==> events[k].ProofFailed?) && (p.closing.Retire? <==> Refuted(events[k]))
            && (p.closing.Finish? <==> events[k].Accepted?)
  {
    hide Step, Inv, Possible, Frees, Refuted;
    RunKeeps(states, events, n - 1);
    if Settling(states[n - 1].proc) {
      k := SettledBy(states, events, n - 1);
      SettlingGoesOn(states[n - 1], events[n - 1]);
    } else {
      k := n - 1;
      SettlesExactly(states[k], events[k]);
    }
  }

  /** Main result, ends. A send's file changes only when the proof is saved and when
      a process closes the send. It is then done exactly when the awaited
      transaction was accepted, stale exactly when that reverted, the root was
      forgotten, or the pool called the ticket spent or the proof dead, and there is
      none exactly when the proof had failed. */
  lemma EndsExactly(states: seq<Send>, events: seq<Event>, n: nat) returns (k: nat)
    requires Run(states, events) && n < |events|
    ensures states[n + 1].status != states[n].status ==> (events[n].ProofSaved? && states[n + 1].status.Pending?) || events[n].Close?
    ensures events[n].Close? ==>
              && k < n && (forall i :: k < i < n ==> events[i].TicketUpdate? || events[i].GatewayDrops? || events[i].Lands?)
              && (states[n + 1].status.Done? <==> events[k].Accepted?)
              && (states[n + 1].status.Stale? <==> Refuted(events[k]))
              && (states[n + 1].status.Absent? <==> events[k].ProofFailed?)
              && states[n + 1].proc.Down? && states[n + 1].recorded == states[n].recorded
    ensures events[n].TicketUpdate? ==>
              && k < n && (forall i :: k < i < n ==> events[i].GatewayDrops? || events[i].Lands?)
              && (states[n].proc.action.Release? <==> Frees(events[k]))
  {
    k := 0;
    RunKeeps(states, events, n);
    if events[n].Close? {
      k := SettledBy(states, events, n);
    } else if events[n].TicketUpdate? {
      k := SettledBy(states, events, n);
      NotYetUpdated(states, events, k, n);
    }
  }

  /** The wallet is told once. */
  lemma {:induction false} NotYetUpdated(states: seq<Send>, events: seq<Event>, k: nat, n: nat)
    requires Run(states, events) && k < n < |states| && states[n].proc.Ticketing? && !Settling(states[k].proc)
    requires forall i :: k < i < n ==> events[i].TicketUpdate? || events[i].GatewayDrops? || events[i].Lands?
    ensures forall i :: k < i < n ==> events[i].GatewayDrops? || events[i].Lands?
    decreases n
  {
    if k + 1 < n {
      NotYetUpdated(states, events, k, n - 1);
    }
  }

  // --- the bounds of a send ------------------------------------------------------------

  ghost predicate BoundsKept(s: Send) {
    && (forall tx :: tx in s.posted ==> s.recorded.Some? && tx.bounds == s.recorded.value.bounds)
    && (s.proc.Building? && s.recorded.Some? ==> s.proc.tx.bounds == s.recorded.value.bounds)
  }

  lemma {:induction false} BoundsKeep(states: seq<Send>, events: seq<Event>, n: nat)
    requires Run(states, events) && n < |states|
    ensures BoundsKept(states[n])
  {
    if n > 0 {
      hide Inv, Step, BoundsKept;
      BoundsKeep(states, events, n - 1);
      RunKeeps(states, events, n - 1);
      BoundsStep(states[n - 1], events[n - 1]);
    } else {
      assert BoundsKept(PREPARED);
    }
  }

  lemma BoundsStep(s: Send, e: Event)
    requires Inv(s) && Possible(s, e) && BoundsKept(s)
    ensures BoundsKept(Step(s, e))
  {
    hide Orderly, LastOnDisk;
  }

  /** All submissions of a send carry the same bounds. */
  lemma OneBounds(states: seq<Send>, events: seq<Event>, n: nat, i: nat, j: nat)
    requires Run(states, events) && n < |states| && i < |states[n].posted| && j < |states[n].posted|
    ensures states[n].posted[i].bounds == states[n].posted[j].bounds
  {
    BoundsKeep(states, events, n);
    assert states[n].posted[i] in states[n].posted && states[n].posted[j] in states[n].posted;
  }

  /** A retired or finished send submits nothing more. */
  lemma ClosedIsQuiet(states: seq<Send>, events: seq<Event>, n: nat)
    requires Run(states, events) && n < |events| && (states[n].status.Stale? || states[n].status.Done?)
    ensures states[n + 1].status == states[n].status && states[n + 1].posted == states[n].posted
  {
    RunKeeps(states, events, n);
  }

  /** The wallet hears Release only while nothing of the send is live. */
  lemma ReleaseIsDead(states: seq<Send>, events: seq<Event>, n: nat)
    requires Run(states, events) && n < |states|
    requires states[n].proc.Ticketing? && states[n].proc.action.Release?
    ensures states[n].live == {} && states[n].landed == {}
  {
    RunKeeps(states, events, n);
  }
}
