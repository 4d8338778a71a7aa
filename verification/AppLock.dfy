/**
 The PIN attempt counter across processes (tools/zkmsg/core/src/applock.rs):
 `unlock` runs under an exclusive file lock, which a dying process gives up; a
 crash may come between any two steps, and the clock does not go back.
 */
module AppLock {

  import opened Outcomes

  const MAX_ATTEMPTS: nat := 10
  const FREE_ATTEMPTS: nat := 4
  const WAITS: seq<nat> := [30, 60, 300, 900, 3600]

  function WaitAfter(fails: nat): nat {
    if fails <= FREE_ATTEMPTS then 0
    else
      var i := fails - FREE_ATTEMPTS - 1;
      WAITS[if i < |WAITS| - 1 then i else |WAITS| - 1]
  }

  /** The Keychain's blob, its counter fields. */
  datatype Blob = Blob(fails: nat, notBefore: nat)

  /** Where the process that holds the file lock stands in `unlock`. */
  datatype Phase =
    | Locked                              // before reading the blob
    | Raised(fails: nat)                  // allowed by the clock, counter raised in memory
    | Stamped(fails: nat, stamp: nat)     // the next attempt's time set in memory
    | Checking(fails: nat)                // saved: the PIN may be checked
    | Right                               // the PIN was right: the counter is to be reset
    | Wiping                              // the last attempt failed

  datatype Holder = Holder(process: nat, phase: Phase)

  /** `begun` holds the stamps of the attempts saved since the counter was last
      reset, `checks` how many PINs were checked since. */
  datatype State = State(blob: Option<Blob>, holder: Option<Holder>, clock: nat, begun: seq<nat>, checks: nat)

  datatype Event =
    | Tick(seconds: nat)
    | Acquire(process: nat)
    | Load
    | Stamp
    | Save
    | Check(right: bool)
    | Reset
    | Wipe
    | Crash

  predicate Possible(s: State, e: Event) {
    match e
    case Tick(_) => true
    case Acquire(_) => s.holder.None?
    case Load => s.holder.Some? && s.holder.value.phase.Locked?
    case Stamp => s.holder.Some? && s.holder.value.phase.Raised?
    case Save => s.holder.Some? && s.holder.value.phase.Stamped?
    case Check(_) => s.holder.Some? && s.holder.value.phase.Checking?
    case Reset => s.holder.Some? && s.holder.value.phase.Right?
    case Wipe => s.holder.Some? && s.holder.value.phase.Wiping?
    case Crash => s.holder.Some?
  }

  function At(s: State, phase: Phase): State
    requires s.holder.Some?
  {
    s.(holder := Some(s.holder.value.(phase := phase)))
  }

  function Step(s: State, e: Event): State
    requires Possible(s, e)
  {
    match e
    case Tick(seconds) => s.(clock := s.clock + seconds)
    case Acquire(process) => s.(holder := Some(Holder(process, Locked)))
    case Load =>
      if s.blob.None? then s.(holder := None)
      else if s.blob.value.notBefore > s.clock then s.(holder := None)   // Wait: nothing checked or counted
      else At(s, Raised(s.blob.value.fails + 1))
    case Stamp => At(s, Stamped(s.holder.value.phase.fails, s.clock))
    case Save =>
      var fails, stamp := s.holder.value.phase.fails, s.holder.value.phase.stamp;
      At(s, Checking(fails)).(blob := Some(Blob(fails, stamp + WaitAfter(fails))), begun := s.begun + [stamp])
    case Check(right) =>
      var fails := s.holder.value.phase.fails;
      var t := s.(checks := s.checks + 1);
      if right then At(t, Right)
      else if fails >= MAX_ATTEMPTS then At(t, Wiping)
      else t.(holder := None)
    case Reset => s.(blob := Some(Blob(0, 0)), holder := None, begun := [], checks := 0)
    case Wipe => s.(blob := None, holder := None)
    case Crash => s.(holder := None)
  }

  // --- the invariant ------------------------------------------------------------------

  /** Each stamp is its predecessor's wait later. */
  ghost predicate Spaced(begun: seq<nat>) {
    forall i :: 0 < i < |begun| ==> begun[i] >= begun[i - 1] + WaitAfter(i)
  }

  function NotBefore(begun: seq<nat>): nat {
    if begun == [] then 0 else begun[|begun| - 1] + WaitAfter(|begun|)
  }

  ghost predicate PhaseOk(s: State, phase: Phase) {
    match phase
    case Locked => s.checks <= |s.begun|
    case Raised(fails) => s.blob.Some? && fails == |s.begun| + 1 && NotBefore(s.begun) <= s.clock && s.checks <= |s.begun|
    case Stamped(fails, stamp) =>
      s.blob.Some? && fails == |s.begun| + 1 && NotBefore(s.begun) <= stamp <= s.clock && s.checks <= |s.begun|
    case Checking(fails) => s.blob.Some? && fails == |s.begun| && s.checks < |s.begun|
    case Right => s.blob.Some? && s.checks <= |s.begun|
    case Wiping => s.blob.Some? && s.checks <= |s.begun| && |s.begun| >= MAX_ATTEMPTS
  }

  /** The saved counter is the number of attempts begun since the last reset. */
  ghost predicate Inv(s: State) {
    && Spaced(s.begun)
    && (s.blob.Some? ==> s.blob.value == Blob(|s.begun|, NotBefore(s.begun)))
    && (if s.holder.Some? then PhaseOk(s, s.holder.value.phase) else s.checks <= |s.begun|)
  }

  lemma StepKeeps(s: State, e: Event)
    requires Inv(s) && Possible(s, e)
    ensures Inv(Step(s, e))
  {
  }

  const FIRST: State := State(Some(Blob(0, 0)), None, 0, [], 0)

  /** A run from a PIN just set. */
  ghost predicate Run(states: seq<State>, events: seq<Event>) {
    && |states| == |events| + 1 && states[0] == FIRST
    && forall i :: 0 <= i < |events| ==> Possible(states[i], events[i]) && states[i + 1] == Step(states[i], events[i])
  }

  lemma {:induction false} RunKeeps(states: seq<State>, events: seq<Event>, n: nat)
    requires Run(states, events) && n < |states|
    ensures Inv(states[n])
  {
    if n > 0 {
      RunKeeps(states, events, n - 1);
      StepKeeps(states[n - 1], events[n - 1]);
    }
  }

  /** In every run the saved counter equals the attempts begun since the last
      reset, and no more PINs were checked than that. */
  lemma CounterIsAttempts(states: seq<State>, events: seq<Event>, n: nat)
    requires Run(states, events) && n < |states| && states[n].blob.Some?
    ensures states[n].blob.value.fails == |states[n].begun| && states[n].checks <= |states[n].begun|
  {
    RunKeeps(states, events, n);
  }

  /** A PIN is checked only once its own attempt has been saved: the counter on
      disk is already past every earlier check. */
  lemma SavedBeforeChecked(states: seq<State>, events: seq<Event>, n: nat)
    requires Run(states, events) && n < |events| && events[n].Check?
    ensures states[n].blob.Some? && states[n].blob.value.fails > states[n].checks
    ensures states[n + 1].checks == states[n].checks + 1
  {
    RunKeeps(states, events, n);
  }

  /** WaitAfter(1) + ... + WaitAfter(k - 1). */
  function Waits(k: nat): nat {
    if k <= 1 then 0 else Waits(k - 1) + WaitAfter(k - 1)
  }

  lemma {:induction false} SpacedSpan(begun: seq<nat>, k: nat)
    requires Spaced(begun) && 0 < k <= |begun|
    ensures begun[k - 1] >= begun[0] + Waits(k)
  {
    if k > 1 {
      SpacedSpan(begun, k - 1);
    }
  }

  /** Main result. Whatever the interleaving and the crashes, k attempts since a
      reset span at least the waits after the first k - 1. */
  lemma AttemptsTakeTime(states: seq<State>, events: seq<Event>, n: nat, k: nat)
    requires Run(states, events) && n < |states| && 0 < k <= |states[n].begun|
    ensures states[n].begun[k - 1] - states[n].begun[0] >= Waits(k)
  {
    RunKeeps(states, events, n);
    SpacedSpan(states[n].begun, k);
  }

  /** Ten attempts take an hour and twenty-one minutes, each further one an hour. */
  lemma {:induction false} WaitsAddUp(k: nat)
    requires k >= 10
    ensures Waits(k) == 4890 + 3600 * (k - 10)
  {
    if k == 10 {
      assert Waits(5) == 0 by {
        assert Waits(1) == Waits(2) == Waits(3) == Waits(4) == 0;
      }
      assert Waits(6) == 30 && Waits(7) == 90 && Waits(8) == 390 && Waits(9) == 1290;
    } else {
      WaitsAddUp(k - 1);
    }
  }

  /** What each failure costs: nothing up to the fourth, then half a minute, one,
      five and fifteen, and an hour from the ninth on. */
  lemma WaitTable(fails: nat)
    ensures WaitAfter(fails) == 0 <==> fails <= 4
    ensures fails == 5 ==> WaitAfter(fails) == 30
    ensures fails == 6 ==> WaitAfter(fails) == 60
    ensures fails == 7 ==> WaitAfter(fails) == 300
    ensures fails == 8 ==> WaitAfter(fails) == 900
    ensures fails >= 9 ==> WaitAfter(fails) == 3600
  {
  }

  // --- what an attempt comes to -------------------------------------------------------------

  /** An attempt that comes too early, or finds no PIN set, gives up the lock and
      counts nothing; any other goes on. */
  lemma LoadExactly(states: seq<State>, events: seq<Event>, n: nat)
    requires Run(states, events) && n < |events| && events[n].Load?
    ensures var s, t := states[n], states[n + 1];
            var allowed := s.blob.Some? && NotBefore(s.begun) <= s.clock;
            && (t.holder.None? <==> !allowed)
            && (allowed ==> t.holder == Some(Holder(s.holder.value.process, Raised(|s.begun| + 1))))
            && t == s.(holder := t.holder)
  {
    RunKeeps(states, events, n);
  }

  /** A saved attempt is one more, stamped with the time it was allowed, and the
      next is not before that time and its wait. */
  lemma SaveExactly(states: seq<State>, events: seq<Event>, n: nat) returns (k: nat)
    requires Run(states, events) && n < |events| && events[n].Save?
    ensures k < n && events[k].Stamp? && forall i :: k < i < n ==> events[i].Tick?
    ensures var s, t := states[n], states[n + 1];
            && t.begun == s.begun + [states[k].clock] && t.checks == s.checks && t.clock == s.clock
            && t.blob == Some(Blob(|s.begun| + 1, states[k].clock + WaitAfter(|s.begun| + 1)))
            && t.holder == Some(Holder(s.holder.value.process, Checking(|s.begun| + 1)))
  {
    RunKeeps(states, events, n);
    k := Since(states, events, n);
  }

  /** The step that brought the holder of the lock to its phase: since then the
      clock alone has moved. */
  lemma {:induction false} Since(states: seq<State>, events: seq<Event>, n: nat) returns (k: nat)
    requires Run(states, events) && n < |states| && states[n].holder.Some?
    ensures k < n && !events[k].Tick? && (forall i :: k < i < n ==> events[i].Tick?)
    ensures states[n] == states[k + 1].(clock := states[n].clock)
  {
    if events[n - 1].Tick? {
      k := Since(states, events, n - 1);
    } else {
      k := n - 1;
    }
  }

  /** A wrong PIN before the tenth gives up the lock and leaves the counter and the
      next attempt's time as they were saved; from the tenth it leads to the wipe. */
  lemma WrongExactly(states: seq<State>, events: seq<Event>, n: nat)
    requires Run(states, events) && n < |events| && events[n] == Check(false)
    ensures var s, t := states[n], states[n + 1];
            && t == s.(holder := t.holder, checks := s.checks + 1)
            && s.blob == Some(Blob(|s.begun|, NotBefore(s.begun)))
            && (t.holder.None? <==> |s.begun| < 10)
            && (|s.begun| >= 10 ==> t.holder == Some(Holder(s.holder.value.process, Wiping)))
  {
    RunKeeps(states, events, n);
  }

  /** A right PIN, unless its process dies, leads to the reset, and to that alone. */
  lemma RightResets(states: seq<State>, events: seq<Event>, n: nat, m: nat)
    requires Run(states, events) && n < m < |events| && events[n] == Check(true)
    requires (forall i :: n < i < m ==> events[i].Tick?) && !events[m].Tick?
    ensures events[m].Reset? || events[m].Crash?
    ensures states[m].blob == states[n].blob && states[m].begun == states[n].begun
    ensures states[m + 1].holder.None?
    ensures events[m].Reset? ==> states[m + 1].blob == Some(Blob(0, 0)) && states[m + 1].begun == []
    ensures events[m].Crash? ==> states[m + 1].blob == states[n].blob && states[m + 1].begun == states[n].begun
  {
    TicksPass(states, events, n + 1, m);
    assert Possible(states[m], events[m]);
  }

  lemma {:induction false} TicksPass(states: seq<State>, events: seq<Event>, n: nat, m: nat)
    requires Run(states, events) && n <= m < |states| && forall i :: n <= i < m ==> events[i].Tick?
    ensures states[m] == states[n].(clock := states[m].clock)
    decreases m - n
  {
    if n < m {
      TicksPass(states, events, n, m - 1);
    }
  }

  /** The counter and its stamps go back only after a right PIN, and the wipe comes
      only after a wrong one at the tenth attempt or later, checked by the same
      process with nothing but the clock in between. */
  lemma ResetOnlyIfRight(states: seq<State>, events: seq<Event>, n: nat) returns (k: nat)
    requires Run(states, events) && n < |events|
    ensures events[n].Reset? || events[n].Wipe? ==>
              && k < n && (forall i :: k < i < n ==> events[i].Tick?)
              && events[k] == Check(events[n].Reset?)
              && states[k].holder.Some? && states[n].holder.Some?
              && states[k].holder.value.process == states[n].holder.value.process
              && (events[n].Wipe? ==> |states[k].begun| >= 10)
    ensures !events[n].Reset? && !events[n].Wipe? ==>
              states[n].begun <= states[n + 1].begun
              && (states[n + 1].blob == states[n].blob || events[n].Save?)
    ensures events[n].Wipe? ==> states[n + 1].blob.None? && states[n + 1].begun == states[n].begun
  {
    k := 0;
    RunKeeps(states, events, n);
    if events[n].Reset? || events[n].Wipe? {
      k := Since(states, events, n);
      RunKeeps(states, events, k);
    }
  }

  // --- the wipe, and what a crash does to it ---------------------------------------------

  /** The counter reaches ten only while that attempt is being judged. */
  ghost predicate Capped(s: State) {
    s.blob.Some? ==>
      && |s.begun| <= MAX_ATTEMPTS
      && (|s.begun| == MAX_ATTEMPTS ==> s.holder.Some? && (var phase := s.holder.value.phase;
                                                           phase.Checking? || phase.Right? || phase.Wiping?))
  }

  /** The process stops with the tenth attempt on disk and not yet settled. */
  ghost predicate CutsTenthShort(s: State, e: Event) {
    e.Crash? && s.blob.Some? && s.holder.Some? && |s.begun| == MAX_ATTEMPTS
  }

  /** Every step keeps the cap but exactly that crash. */
  lemma StepCapped(s: State, e: Event)
    requires Inv(s) && Capped(s) && Possible(s, e)
    ensures Capped(Step(s, e)) <==> !CutsTenthShort(s, e)
  {
  }

  lemma FirstCapped()
    ensures Capped(FIRST)
  {
  }

  /** Over a whole run the cap holds throughout if and only if no process stops in
      its tenth attempt; crashes in earlier attempts do no harm. */
  lemma {:induction false} CappedExactly(states: seq<State>, events: seq<Event>, n: nat)
    requires Run(states, events) && n < |states|
    ensures (forall k :: 0 <= k <= n ==> Capped(states[k])) <==> (forall k :: 0 <= k < n ==> !CutsTenthShort(states[k], events[k]))
  {
    hide Capped, CutsTenthShort, Step, Possible;
    if n == 0 {
      assert Capped(states[0]) by {
        FirstCapped();
      }
    } else {
      CappedExactly(states, events, n - 1);
      RunKeeps(states, events, n - 1);
      if Capped(states[n - 1]) {
        StepCapped(states[n - 1], events[n - 1]);
        assert states[n] == Step(states[n - 1], events[n - 1]);
      }
    }
  }

  /** In a run with no such crash the tenth wrong PIN leads to the wipe, and
      nothing else: until it the clock may tick, no other process can attempt. */
  lemma TenthFailureWipes(states: seq<State>, events: seq<Event>, n: nat)
    requires Run(states, events) && n + 1 < |events|
    requires forall k :: 0 <= k <= n + 1 ==> !CutsTenthShort(states[k], events[k])
    requires events[n] == Check(false) && |states[n].begun| >= MAX_ATTEMPTS
    ensures |states[n].begun| == MAX_ATTEMPTS
    ensures states[n + 1].holder.Some? && states[n + 1].holder.value.phase == Wiping
    ensures (events[n + 1] == Wipe && states[n + 2].blob == None && states[n + 2].holder == None)
            || (events[n + 1].Tick? && states[n + 2].holder == states[n + 1].holder)
  {
    CappedExactly(states, events, n);
    RunKeeps(states, events, n);
    assert Capped(states[n]);
    assert Possible(states[n + 1], events[n + 1]);
  }

  /** Some run ends in s. */
  ghost predicate Reached(s: State) {
    exists states, events :: Run(states, events) && states[|states| - 1] == s
  }

  lemma Then(s: State, e: Event) returns (t: State)
    requires Reached(s) && Possible(s, e)
    ensures t == Step(s, e) && Reached(t)
  {
    hide Step, Possible;
    t := Step(s, e);
    var states, events :| Run(states, events) && states[|states| - 1] == s;
    assert Run(states + [t], events + [e]);
    assert (states + [t])[|states + [t]| - 1] == t;
  }

  lemma Begin()
    ensures Reached(FIRST)
  {
    assert Run([FIRST], []);
  }

  /** With such crashes there is no cap: a crash between the tenth wrong check and
      the wipe leaves the lock standing, and any number of wrong PINs can be checked. */
  lemma {:induction false} NoCapUnderCrashes(n: nat) returns (s: State)
    ensures Reached(s) && s.holder.None? && s.blob.Some? && s.checks == n == |s.begun| && Inv(s)
  {
    hide Reached;
    if n == 0 {
      s := FIRST;
      Begin();
    } else {
      s := NoCapUnderCrashes(n - 1);
      s := OneMore(s);
    }
  }

  lemma OneMoreBegun(s: State) returns (t: State)
    requires Reached(s) && s.holder.None? && s.blob.Some? && Inv(s)
    ensures var now := s.clock + s.blob.value.notBefore;
            t == State(Some(Blob(|s.begun| + 1, now + WaitAfter(|s.begun| + 1))), Some(Holder(0, Checking(|s.begun| + 1))),
                       now, s.begun + [now], s.checks)
    ensures Reached(t)
  {
    hide Reached, WaitAfter;
    t := Then(s, Tick(s.blob.value.notBefore));
    t := Then(t, Acquire(0));
    t := Then(t, Load);
    t := Then(t, Stamp);
    t := Then(t, Save);
  }

  lemma OneMore(s: State) returns (t: State)
    requires Reached(s) && s.holder.None? && s.blob.Some? && s.checks == |s.begun| && Inv(s)
    ensures Reached(t) && t.holder.None? && t.blob.Some? && t.checks == |t.begun| == s.checks + 1 && Inv(t)
  {
    hide Reached;
    t := OneMoreBegun(s);
    OneMoreSaved(s, t);
    t := Then(t, Check(false));
    if t.holder.Some? {
      t := Then(t, Crash);
    }
  }

  /** The state after one saved attempt. */
  lemma OneMoreSaved(s: State, t: State)
    requires Inv(s) && s.holder.None? && s.blob.Some?
    requires var now := s.clock + s.blob.value.notBefore;
             t == State(Some(Blob(|s.begun| + 1, now + WaitAfter(|s.begun| + 1))), Some(Holder(0, Checking(|s.begun| + 1))),
                        now, s.begun + [now], s.checks)
    ensures Spaced(t.begun) && NotBefore(t.begun) == t.blob.value.notBefore
  {
  }
}
