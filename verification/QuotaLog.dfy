/**
 The quota slots a profile's sends take (tools/zkmsg/core/src/tickets.rs): one
 file remembers one store and one epoch; it is loaded, counted up and written
 with nothing held in between. When a slot is handed out twice, exactly.
 */
module QuotaLog {

  import opened Outcomes

  datatype Log = Log(store: nat, epoch: nat, used: nat)

  datatype Call = Call(store: nat, epoch: nat, quota: nat)

  datatype QuotaError = AheadOfSend(epoch: nat) | AllUsed

  /** The log a call counts up: the one it loaded, or a fresh one. */
  function Current(loaded: Option<Log>, c: Call): Result<Log, QuotaError> {
    if loaded.Some? && loaded.value.store == c.store && loaded.value.epoch == c.epoch then Ok(loaded.value)
    else if loaded.Some? && loaded.value.store == c.store && loaded.value.epoch > c.epoch then Err(AheadOfSend(loaded.value.epoch))
    else Ok(Log(c.store, c.epoch, 0))
  }

  /** The slot a call takes, from what it loaded. */
  function Take(loaded: Option<Log>, c: Call): Result<nat, QuotaError> {
    match Current(loaded, c)
    case Err(e) => Err(e)
    case Ok(log) => if log.used < c.quota then Ok(log.used) else Err(AllUsed)
  }

  /** The file a call leaves: a refused one writes nothing. */
  function Written(file: Option<Log>, loaded: Option<Log>, c: Call): Option<Log> {
    match Take(loaded, c)
    case Err(_) => file
    case Ok(slot) => Some(Log(c.store, c.epoch, slot + 1))
  }

  /** A call is refused exactly when the log it loaded is ahead of it, or has used up
      its quota; the slot it gets is below the quota, and the first one free. */
  lemma TakeExactly(loaded: Option<Log>, c: Call)
    ensures var here := loaded.Some? && loaded.value.store == c.store;
            var used := if here && loaded.value.epoch == c.epoch then loaded.value.used else 0;
            var ahead := here && loaded.value.epoch > c.epoch;
            && (Take(loaded, c).Ok? <==> !ahead && used < c.quota)
            && (Take(loaded, c).Ok? ==> Take(loaded, c).value == used < c.quota)
            && (Take(loaded, c) == Err(AllUsed) <==> !ahead && used >= c.quota)
            && (ahead <==> Take(loaded, c).Err? && Take(loaded, c).error.AheadOfSend?)
            && (ahead ==> Take(loaded, c) == Err(AheadOfSend(loaded.value.epoch)))
  {
  }

  class QuotaFile {
    var file: Option<Log>

    constructor ()
      ensures file == None
    {
      file := None;
    }

    method Load() returns (loaded: Option<Log>)
      ensures loaded == file
    {
      return file;
    }

    /** The rest of `take_slot`: the slot is recorded before it is returned. */
    method Finish(loaded: Option<Log>, store: nat, epoch: nat, quota: nat) returns (r: Result<nat, QuotaError>)
      modifies this
      ensures r == Take(loaded, Call(store, epoch, quota))
      ensures r.Ok? ==> r.value < quota && file == Some(Log(store, epoch, r.value + 1))
      ensures file == Written(old(file), loaded, Call(store, epoch, quota))
    {
      var log := Log(store, epoch, 0);
      if loaded.Some? && loaded.value.store == store {
        if loaded.value.epoch == epoch {
          log := loaded.value;
        } else if loaded.value.epoch > epoch {
          return Err(AheadOfSend(loaded.value.epoch));
        }
      }
      if log.used >= quota {
        return Err(AllUsed);
      }
      var slot := log.used;
      log := log.(used := log.used + 1);
      file := Some(log);
      return Ok(slot);
    }

    /** A call nobody interferes with. */
    method TakeSlot(store: nat, epoch: nat, quota: nat) returns (r: Result<nat, QuotaError>)
      modifies this
      ensures r == Take(old(file), Call(store, epoch, quota))
      ensures file == Written(old(file), old(file), Call(store, epoch, quota))
    {
      var loaded := Load();
      r := Finish(loaded, store, epoch, quota);
    }
  }

  // --- runs of many processes ---------------------------------------------------------

  datatype Event =
    | Load(process: nat)
    | Finish(process: nat, call: Call)
    | Stop(process: nat)               // a crash, or an error, with the log loaded

  /** The file, and what each process in the middle of a call has loaded. */
  datatype World = World(file: Option<Log>, loaded: map<nat, Option<Log>>)

  function Next(w: World, e: Event): World {
    match e
    case Load(p) => w.(loaded := w.loaded[p := w.file])
    case Finish(p, c) =>
      if p in w.loaded then World(Written(w.file, w.loaded[p], c), w.loaded - {p}) else w
    case Stop(p) => w.(loaded := w.loaded - {p})
  }

  function After(events: seq<Event>): World {
    if events == [] then World(None, map[]) else Next(After(events[..|events| - 1]), events[|events| - 1])
  }

  function FileAt(events: seq<Event>, n: nat): Option<Log>
    requires n <= |events|
  {
    After(events[..n]).file
  }

  /** The slot event i hands out, if it does. */
  function Took(events: seq<Event>, i: nat): Option<nat>
    requires i < |events|
  {
    match events[i]
    case Finish(p, c) =>
      var loaded := After(events[..i]).loaded;
      if p in loaded && Take(loaded[p], c).Ok? then Some(Take(loaded[p], c).value) else None
    case _ => None
  }

  /** When process p last loaded the log before event n. */
  function LoadOf(events: seq<Event>, p: nat, n: nat): (l: nat)
    requires n <= |events|
    ensures l <= n
  {
    if n == 0 then 0 else if events[n - 1] == Load(p) then n - 1 else LoadOf(events, p, n - 1)
  }

  function LoadedAt(events: seq<Event>, j: nat): (l: nat)
    requires j < |events| && Took(events, j).Some?
    ensures l <= j
  {
    LoadOf(events, events[j].process, j)
  }

  ghost predicate Takes(events: seq<Event>, i: nat) {
    i < |events| && Took(events, i).Some?
  }

  /** Both hand out a slot of one epoch of one store. */
  ghost predicate SameEpoch(events: seq<Event>, i: nat, j: nat) {
    && Takes(events, i) && Takes(events, j)
    && events[i].call.store == events[j].call.store && events[i].call.epoch == events[j].call.epoch
  }

  ghost predicate Repeat(events: seq<Event>, i: nat, j: nat) {
    i < j && SameEpoch(events, i, j) && Took(events, i) == Took(events, j)
  }

  /** j loaded the log before another take of its epoch, i, was saved. */
  ghost predicate Overlaps(events: seq<Event>, i: nat, j: nat) {
    SameEpoch(events, i, j) && LoadedAt(events, j) <= i < j
  }

  /** When j loaded the log, the last take saved was one of another store or epoch,
      k, although its own epoch had been taken from before. */
  ghost predicate Displaced(events: seq<Event>, i: nat, k: nat, j: nat) {
    && SameEpoch(events, i, j) && Takes(events, k) && !SameEpoch(events, k, j)
    && i < k < LoadedAt(events, j)
    && forall m :: k < m < LoadedAt(events, j) ==> !Takes(events, m)
  }

  ghost predicate Faulty(events: seq<Event>, j: nat) {
    (exists i: nat :: Overlaps(events, i, j)) || (exists i: nat, k: nat :: Displaced(events, i, k, j))
  }

  lemma AfterNext(events: seq<Event>, n: nat)
    requires n < |events|
    ensures After(events[..n + 1]) == Next(After(events[..n]), events[n])
  {
    assert events[..n + 1][..n] == events[..n];
  }

  lemma NoEvents(events: seq<Event>)
    ensures After(events[..0]) == World(None, map[])
  {
  }

  /** What a process has in memory is the file as it was when it loaded it. */
  lemma {:induction false} LoadedIs(events: seq<Event>, p: nat, n: nat)
    requires n <= |events| && p in After(events[..n]).loaded
    ensures LoadOf(events, p, n) < n
    ensures After(events[..n]).loaded[p] == FileAt(events, LoadOf(events, p, n))
  {
    hide Written;
    AfterNext(events, n - 1);
    if events[n - 1] != Load(p) {
      LoadedIs(events, p, n - 1);
    }
  }

  /** The last take saved before event n. */
  function LastTake(events: seq<Event>, n: nat): (r: Option<nat>)
    requires n <= |events|
    ensures r.Some? ==> r.value < n && Took(events, r.value).Some?
    ensures forall m :: (if r.Some? then r.value + 1 else 0) <= m < n ==> Took(events, m).None?
  {
    if n == 0 then None else if Took(events, n - 1).Some? then Some(n - 1) else LastTake(events, n - 1)
  }

  /** The file is what the last take wrote. */
  lemma {:induction false} FileIs(events: seq<Event>, n: nat)
    requires n <= |events|
    ensures FileAt(events, n) == match LastTake(events, n)
                                 case None => None
                                 case Some(m) => Some(Log(events[m].call.store, events[m].call.epoch, Took(events, m).value + 1))
  {
    hide Take, After;
    if n == 0 {
      NoEvents(events);
    } else {
      AfterNext(events, n - 1);
      FileIs(events, n - 1);
    }
  }

  /** A take counts on from the last one saved when it loaded the log, if that is
      of its epoch, and else starts at 0. */
  lemma TookFrom(events: seq<Event>, j: nat)
    requires Takes(events, j)
    ensures LoadedAt(events, j) < j
    ensures var m := LastTake(events, LoadedAt(events, j));
            Took(events, j) == Some(if m.Some? && SameEpoch(events, m.value, j) then Took(events, m.value).value + 1 else 0)
  {
    hide After;
    LoadedIs(events, events[j].process, j);
    FileIs(events, LoadedAt(events, j));
  }

  /** The first take of j's epoch from event k on. */
  lemma {:induction false} FirstTake(events: seq<Event>, k: nat, j: nat) returns (i: nat)
    requires k <= j && Takes(events, j)
    ensures k <= i <= j && SameEpoch(events, i, j)
    ensures forall m :: k <= m < i ==> !SameEpoch(events, m, j)
    decreases j - k
  {
    if SameEpoch(events, k, j) {
      i := k;
    } else {
      i := FirstTake(events, k + 1, j);
    }
  }

  lemma FirstIsZero(events: seq<Event>, i: nat)
    requires Takes(events, i) && forall m :: 0 <= m < i ==> !SameEpoch(events, m, i)
    ensures Took(events, i) == Some(0)
  {
    TookFrom(events, i);
  }

  /** Whatever the interleaving, a slot handed out is below the quota. */
  lemma SlotsWithinQuota(events: seq<Event>, j: nat)
    requires Takes(events, j)
    ensures Took(events, j).value < events[j].call.quota
  {
    TakeExactly(After(events[..j]).loaded[events[j].process], events[j].call);
  }

  // --- exactly when a slot repeats ------------------------------------------------------

  /** Takes of one epoch that are not faulty count up. */
  lemma {:induction false} CountsUp(events: seq<Event>, i: nat, j: nat)
    requires i < j && SameEpoch(events, i, j) && forall n: nat :: !Faulty(events, n)
    ensures Took(events, i).value < Took(events, j).value
    decreases j
  {
    hide Took, LoadedAt;
    TookFrom(events, j);
    assert !Faulty(events, j);
    assert !Overlaps(events, i, j);
    var m := LastTake(events, LoadedAt(events, j)).value;
    assert !Displaced(events, i, m, j);
    if i < m {
      CountsUp(events, i, m);
    }
  }

  /** A take that finds the log displaced, or starts over, repeats slot 0. */
  lemma ZeroRepeats(events: seq<Event>, i: nat, j: nat) returns (first: nat)
    requires i < j && SameEpoch(events, i, j) && Took(events, j) == Some(0)
    ensures Repeat(events, first, j)
  {
    hide Took, LoadedAt;
    first := FirstTake(events, 0, i);
    FirstIsZero(events, first);
  }

  lemma {:induction false} FaultRepeats(events: seq<Event>, j: nat) returns (a: nat, b: nat)
    requires Faulty(events, j)
    ensures Repeat(events, a, b)
    decreases j
  {
    hide Took, LoadedAt;
    if i: nat, k: nat :| Displaced(events, i, k, j) {
      TookFrom(events, j);
      a := ZeroRepeats(events, i, j);
      b := j;
    } else {
      var i: nat :| Overlaps(events, i, j);
      a, b := OverlapRepeats(events, i, j);
    }
  }

  /** The take after the one that j counts on from counts on from it too. */
  lemma {:induction false} OverlapRepeats(events: seq<Event>, i: nat, j: nat) returns (a: nat, b: nat)
    requires Overlaps(events, i, j)
    ensures Repeat(events, a, b)
    decreases j, 0
  {
    hide Took, LoadedAt;
    TookFrom(events, j);
    var last := LastTake(events, LoadedAt(events, j));
    if last.None? || !SameEpoch(events, last.value, j) {
      a := ZeroRepeats(events, i, j);
      b := j;
    } else {
      var m := last.value;
      var x := FirstTake(events, m + 1, i);
      if Faulty(events, x) {
        a, b := FaultRepeats(events, x);
      } else {
        FollowsOn(events, m, x);
        a, b := x, j;
      }
    }
  }

  /** A take that is not faulty counts on from the one before it. */
  lemma FollowsOn(events: seq<Event>, m: nat, x: nat)
    requires m < x && SameEpoch(events, m, x) && !Faulty(events, x)
    requires forall n :: m < n < x ==> !SameEpoch(events, n, x)
    ensures Took(events, x) == Some(Took(events, m).value + 1)
  {
    hide Took, LoadedAt;
    TookFrom(events, x);
    assert !Overlaps(events, m, x);
    var last := LastTake(events, LoadedAt(events, x)).value;
    assert !Displaced(events, m, last, x);
  }

  /** Main result. In every run some slot of an epoch of a store is handed out twice
      exactly when some take loaded the log before another take of its epoch was
      saved, or loaded it while it was another store's or epoch's although its own
      had been taken from. */
  lemma RepeatsExactly(events: seq<Event>)
    ensures (exists i: nat, j: nat :: Repeat(events, i, j)) <==> (exists j: nat :: Faulty(events, j))
  {
    hide Faulty, Took;
    if i: nat, j: nat :| Repeat(events, i, j) {
      if forall n: nat :: !Faulty(events, n) {
        CountsUp(events, i, j);
      }
    }
    if j: nat :| Faulty(events, j) {
      var a, b := FaultRepeats(events, j);
    }
  }

  // --- calls that do not overlap ----------------------------------------------------------

  /** Between a call's load and its end no other call saves. */
  ghost predicate Serial(events: seq<Event>) {
    forall j, k :: Takes(events, j) && LoadedAt(events, j) <= k < j ==> !Takes(events, k)
  }

  /** Between two takes of one epoch of one store, another store's slot was taken. */
  ghost predicate Interleaved(events: seq<Event>, i: nat, k: nat, j: nat) {
    i < k < j && SameEpoch(events, i, j) && Takes(events, k) && events[k].call.store != events[j].call.store
  }

  /** From one take to the next, a store's epoch does not go back. */
  lemma EpochStep(events: seq<Event>, k: nat)
    requires Serial(events) && Takes(events, k)
    ensures var m := LastTake(events, k);
            m.Some? && events[m.value].call.store == events[k].call.store ==> events[m.value].call.epoch <= events[k].call.epoch
  {
    hide After;
    LoadedIs(events, events[k].process, k);
    FileIs(events, LoadedAt(events, k));
    SameLast(events, LoadedAt(events, k), k);
  }

  lemma {:induction false} SameLast(events: seq<Event>, l: nat, n: nat)
    requires l <= n <= |events| && forall m :: l <= m < n ==> !Takes(events, m)
    ensures LastTake(events, n) == LastTake(events, l)
  {
    hide Took;
    if l < n {
      assert !Takes(events, n - 1);
      SameLast(events, l, n - 1);
    }
  }

  lemma {:induction false} EpochsGrow(events: seq<Event>, i: nat, k: nat)
    requires Serial(events) && i <= k && Takes(events, i) && Takes(events, k)
    requires forall m :: i <= m <= k && Takes(events, m) ==> events[m].call.store == events[i].call.store
    ensures events[i].call.epoch <= events[k].call.epoch
    decreases k
  {
    if i < k {
      EpochStep(events, k);
      EpochsGrow(events, i, LastTake(events, k).value);
    }
  }

  /** A displaced take of calls that do not overlap was displaced by another store. */
  lemma SerialDisplaced(events: seq<Event>, i: nat, k: nat, j: nat)
    requires Serial(events) && Displaced(events, i, k, j)
    ensures exists x: nat :: Interleaved(events, i, x, j)
  {
    if forall x :: i < x < j && Takes(events, x) ==> events[x].call.store == events[j].call.store {
      EpochsGrow(events, i, k);
      EpochsGrow(events, k, j);
      assert false;
    }
    var x: nat :| i < x < j && Takes(events, x) && events[x].call.store != events[j].call.store;
    assert Interleaved(events, i, x, j);
  }

  lemma SerialOther(events: seq<Event>, i: nat, k: nat, j: nat)
    requires Serial(events) && Interleaved(events, i, k, j)
    ensures exists b: nat :: Faulty(events, b)
  {
    var b := FirstTake(events, k + 1, j);
    TookFrom(events, b);
    assert k < LoadedAt(events, b) by {
      assert LoadedAt(events, b) <= k < b ==> !Takes(events, k);
    }
    var last := LastTake(events, LoadedAt(events, b)).value;
    assert k <= last;
    assert !SameEpoch(events, last, b) by {
      assert k < last ==> !SameEpoch(events, last, j);
    }
    assert Displaced(events, i, last, b);
    assert Faulty(events, b);
  }

  /** Where loads and saves of the log do not overlap, a slot is handed out twice
      exactly when another store's slot was taken between two takes of one epoch;
      in particular never while one store is used. */
  lemma SerialRepeatsExactly(events: seq<Event>)
    requires Serial(events)
    ensures (exists i: nat, j: nat :: Repeat(events, i, j)) <==> (exists i: nat, k: nat, j: nat :: Interleaved(events, i, k, j))
  {
    RepeatsExactly(events);
    hide Took, Repeat, Interleaved, LoadedAt;
    if j: nat :| Faulty(events, j) {
      assert forall i: nat :: !Overlaps(events, i, j);
      var i: nat, k: nat :| Displaced(events, i, k, j);
      SerialDisplaced(events, i, k, j);
      var x: nat :| Interleaved(events, i, x, j);
    }
    if i: nat, k: nat, j: nat :| Interleaved(events, i, k, j) {
      SerialOther(events, i, k, j);
    }
  }

  // --- two runs -----------------------------------------------------------------------------

  /** Two sends of one profile on one store and epoch: both get slot 0. */
  lemma TwoSendsOneSlot(c: Call)
    requires c.quota > 0
    ensures var events := [Load(0), Load(1), Finish(0, c), Finish(1, c)];
            Repeat(events, 2, 3) && Took(events, 3) == Some(0)
  {
    var events := [Load(0), Load(1), Finish(0, c), Finish(1, c)];
    assert events[..0] == [];
    AfterNext(events, 0);
    AfterNext(events, 1);
    AfterNext(events, 2);
  }

  /** A late save of an earlier epoch sets the log back: the later epoch's slot 0 is
      handed out again, to calls of one store that do not overlap each other. */
  lemma EpochSetBack(store: nat, epoch: nat, quota: nat)
    requires quota > 0
    ensures var c, d := Call(store, epoch, quota), Call(store, epoch + 1, quota);
            var events := [Load(0), Load(1), Finish(1, d), Finish(0, c), Load(2), Finish(2, d)];
            Repeat(events, 2, 5) && Took(events, 5) == Some(0)
  {
    var c, d := Call(store, epoch, quota), Call(store, epoch + 1, quota);
    var events := [Load(0), Load(1), Finish(1, d), Finish(0, c), Load(2), Finish(2, d)];
    assert events[..0] == [];
    AfterNext(events, 0);
    AfterNext(events, 1);
    AfterNext(events, 2);
    AfterNext(events, 3);
    AfterNext(events, 4);
  }
}
