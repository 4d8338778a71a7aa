/**
 Parallel block fetching and the resumable event index
 (tools/zkmsg/gateway/src/feeder.rs and lib.rs). The chain gives block n of a
 contract its events; the feeder, when it answers for block n, answers with
 block n.
 */
module FeederSync {

  import opened Outcomes
  import EventOrder

  const WINDOW: nat := 256

  /** One contract's events, block by block. */
  type Chain<!E> = nat -> seq<E>

  datatype Block<E> = Block(number: nat, events: seq<E>)

  /** A worker's message about one block; no block is a failed fetch. */
  datatype Arrival<E> = Arrival(number: nat, block: Option<Block<E>>)

  function EventsOf<E>(chain: Chain<E>, from: nat, to: nat): seq<E>
    decreases (to)
  {
    if from >= to then [] else EventsOf(chain, from, to - 1) + chain(to - 1)
  }

  // --- the workers' shards ------------------------------------------------------------

  function Range(from: nat, to: nat): seq<nat>
    requires from <= to
  {
    seq(to - from, i requires 0 <= i < to - from => from + i)
  }

  /** `numbers.chunks(chunk)`. */
  function Shards(numbers: seq<nat>, chunk: nat): seq<seq<nat>>
    requires chunk > 0
    decreases |numbers|
  {
    if numbers == [] then []
    else if |numbers| <= chunk then [numbers]
    else [numbers[..chunk]] + Shards(numbers[chunk..], chunk)
  }

  function Joined<T>(shards: seq<seq<T>>): seq<T> {
    if shards == [] then [] else shards[0] + Joined(shards[1..])
  }

  /** Every number is in one shard, and no more shards than workers are made. */
  lemma {:induction false} ShardsCover(numbers: seq<nat>, chunk: nat, workers: nat)
    requires chunk > 0 && |numbers| <= workers * chunk
    ensures Joined(Shards(numbers, chunk)) == numbers && |Shards(numbers, chunk)| <= workers
    decreases |numbers|
  {
    if numbers == [] {
    } else if |numbers| <= chunk {
      assert workers != 0;
      assert Joined([numbers][1..]) == [];
    } else {
      assert (workers - 1) * chunk == workers * chunk - chunk;
      ShardsCover(numbers[chunk..], chunk, workers - 1);
      var rest := Shards(numbers[chunk..], chunk);
      assert ([numbers[..chunk]] + rest)[1..] == rest;
      assert numbers[..chunk] + numbers[chunk..] == numbers;
    }
  }

  function Workers(parallelism: nat): (w: nat)
    ensures w > 0
  {
    if parallelism > 1 then parallelism else 1
  }

  /** `numbers.len().div_ceil(parallelism.max(1))`. */
  function ChunkSize(count: nat, parallelism: nat): nat {
    var workers := Workers(parallelism);
    count / workers + (if count % workers == 0 then 0 else 1)
  }

  /** The chunk size is the smallest that is enough for the workers. */
  lemma ChunkIsEnough(count: nat, parallelism: nat, smaller: nat)
    requires count > 0
    ensures ChunkSize(count, parallelism) > 0 && count <= Workers(parallelism) * ChunkSize(count, parallelism)
    ensures count <= Workers(parallelism) * smaller ==> ChunkSize(count, parallelism) <= smaller
  {
    var workers := Workers(parallelism);
    var q, r := count / workers, count % workers;
    assert count == workers * q + r;
    if r != 0 {
      assert workers * (q + 1) == workers * q + workers;
    }
    if count <= workers * smaller && smaller < ChunkSize(count, parallelism) {
      Scales(smaller, ChunkSize(count, parallelism) - 1, workers);
    }
  }

  lemma Scales(a: nat, b: nat, workers: nat)
    requires a <= b
    ensures workers * a <= workers * b
  {
  }

  // --- the workers' messages ------------------------------------------------------------

  /** What the feeder answers in one window: a block, or a failure. */
  type Answers<!E> = nat -> Option<Block<E>>

  /** One worker sends one message for each number of its shard, in order. */
  function Sent<E>(answers: Answers<E>, shard: seq<nat>): seq<Arrival<E>> {
    seq(|shard|, i requires 0 <= i < |shard| => Arrival(shard[i], answers(shard[i])))
  }

  function Streams<E>(answers: Answers<E>, shards: seq<seq<nat>>): seq<seq<Arrival<E>>> {
    seq(|shards|, w requires 0 <= w < |shards| => Sent(answers, shards[w]))
  }

  /** `merged` takes, until all are used up, the next message of some stream. */
  ghost predicate Interleaves<T(!new)>(streams: seq<seq<T>>, merged: seq<T>)
    decreases |merged|
  {
    if merged == [] then forall w :: 0 <= w < |streams| ==> streams[w] == []
    else exists w :: 0 <= w < |streams| && TakesFrom(streams, w, merged)
  }

  ghost predicate TakesFrom<T(!new)>(streams: seq<seq<T>>, w: nat, merged: seq<T>)
    requires w < |streams| && merged != []
    decreases |merged|, 0
  {
    streams[w] != [] && streams[w][0] == merged[0] && Interleaves(streams[w := streams[w][1..]], merged[1..])
  }

  lemma {:induction false} JoinedEmpty<T>(streams: seq<seq<T>>)
    requires forall w :: 0 <= w < |streams| ==> streams[w] == []
    ensures Joined(streams) == []
  {
    if streams != [] {
      JoinedEmpty(streams[1..]);
    }
  }

  lemma {:induction false} JoinedTakes<T>(streams: seq<seq<T>>, w: nat)
    requires w < |streams| && streams[w] != []
    ensures multiset(Joined(streams)) == multiset{streams[w][0]} + multiset(Joined(streams[w := streams[w][1..]]))
    decreases w
  {
    var next := streams[w := streams[w][1..]];
    if w == 0 {
      assert next[1..] == streams[1..] && streams[0] == [streams[0][0]] + streams[0][1..];
    } else {
      assert next[1..] == streams[1..][w - 1 := streams[w][1..]];
      JoinedTakes(streams[1..], w - 1);
    }
  }

  /** An interleaving has exactly the streams' messages. */
  lemma {:induction false} InterleavingIsPermutation<T(!new)>(streams: seq<seq<T>>, merged: seq<T>)
    requires Interleaves(streams, merged)
    ensures multiset(merged) == multiset(Joined(streams))
    decreases |merged|
  {
    if merged == [] {
      JoinedEmpty(streams);
    } else {
      var w :| 0 <= w < |streams| && TakesFrom(streams, w, merged);
      InterleavingIsPermutation(streams[w := streams[w][1..]], merged[1..]);
      JoinedTakes(streams, w);
      assert merged == [merged[0]] + merged[1..];
    }
  }

  lemma {:induction false} JoinedSent<E>(answers: Answers<E>, shards: seq<seq<nat>>)
    ensures Joined(Streams(answers, shards)) == Sent(answers, Joined(shards))
  {
    if shards != [] {
      assert Streams(answers, shards)[1..] == Streams(answers, shards[1..]);
      JoinedSent(answers, shards[1..]);
      assert Sent(answers, shards[0] + Joined(shards[1..])) == Sent(answers, shards[0]) + Sent(answers, Joined(shards[1..]));
    }
  }

  // --- collecting -----------------------------------------------------------------------

  /** Messages are sorted by block number; here counted from the window's start. */
  function Offset<E>(from: nat): Arrival<E> -> nat {
    (a: Arrival<E>) => if a.number >= from then a.number - from else 0
  }

  /** The messages the workers of one window send, in some interleaving. */
  ghost predicate Arrives<E(!new)>(answers: Answers<E>, from: nat, to: nat, parallelism: nat, arrivals: seq<Arrival<E>>)
    requires from < to
  {
    ChunkIsEnough(to - from, parallelism, 0);
    Interleaves(Streams(answers, Shards(Range(from, to), ChunkSize(to - from, parallelism))), arrivals)
  }

  /** However the workers interleave, sorting gives one message for each block of
      the window, in block order. */
  lemma SortedWindow<E(!new)>(answers: Answers<E>, from: nat, to: nat, parallelism: nat, arrivals: seq<Arrival<E>>)
    requires from < to && Arrives(answers, from, to, parallelism, arrivals)
    ensures EventOrder.SortBy(Offset<E>(from), arrivals) == Sent(answers, Range(from, to))
    ensures forall a :: a in arrivals <==> a in Sent(answers, Range(from, to))
  {
    var key, all, chunk := Offset<E>(from), Sent(answers, Range(from, to)), ChunkSize(to - from, parallelism);
    ChunkIsEnough(to - from, parallelism, 0);
    ShardsCover(Range(from, to), chunk, Workers(parallelism));
    InterleavingIsPermutation(Streams(answers, Shards(Range(from, to), chunk)), arrivals);
    JoinedSent(answers, Shards(Range(from, to), chunk));
    EventOrder.IndexedIsContiguous(key, all);
    EventOrder.SortIgnoresOrder(key, all, arrivals);
    EventOrder.SortIndexes(key, all);
    EventOrder.SortByIsSort(key, all);
    EventOrder.IndexedUnique(key, EventOrder.SortBy(key, all), all);
    forall a ensures a in arrivals <==> a in all {
      EventOrder.InBoth(arrivals, all, a);
    }
  }

  ghost predicate Honest<E(!new)>(chain: Chain<E>, answers: Answers<E>) {
    forall n: nat :: answers(n).Some? ==> answers(n).value == Block(n, chain(n))
  }

  /** The window in order. */
  ghost predicate Window<E(!new)>(chain: Chain<E>, from: nat, to: nat, blocks: seq<Block<E>>) {
    && from <= to && |blocks| == to - from
    && forall i :: 0 <= i < |blocks| ==> blocks[i] == Block(from + i, chain(from + i))
  }

  lemma AllAnswered<E(!new)>(answers: Answers<E>, from: nat, to: nat)
    requires from <= to
    ensures (forall a :: a in Sent(answers, Range(from, to)) ==> a.block.Some?) <==> (forall n :: from <= n < to ==> answers(n).Some?)
  {
    var all := Sent(answers, Range(from, to));
    forall n | from <= n < to ensures Arrival(n, answers(n)) in all {
      assert all[n - from] == Arrival(n, answers(n));
    }
    if forall a :: a in all ==> a.block.Some? {
      forall n | from <= n < to ensures answers(n).Some? {
        assert Arrival(n, answers(n)) in all;
      }
    }
  }

  /** `blocks`: the messages as they arrive, the first failure ends it. */
  method Blocks<E(!new)>(ghost chain: Chain<E>, ghost answers: Answers<E>, from: nat, to: nat, ghost parallelism: nat,
                         arrivals: seq<Arrival<E>>) returns (r: Option<seq<Block<E>>>)
    requires Honest(chain, answers) && (from < to ==> Arrives(answers, from, to, parallelism, arrivals))
    ensures from < to ==> (r.Some? <==> forall n :: from <= n < to ==> answers(n).Some?)
    ensures from < to && r.Some? ==> Window(chain, from, to, r.value)
    ensures from >= to ==> r == Some([])
  {
    hide Arrives, EventOrder.SortBy;
    if from >= to {
      return Some([]);
    }
    SortedWindow(answers, from, to, parallelism, arrivals);
    AllAnswered(answers, from, to);
    var out: seq<Arrival<E>> := [];
    for i := 0 to |arrivals|
      invariant out == arrivals[..i] && forall a :: a in out ==> a.block.Some?
    {
      assert arrivals[i] in arrivals;
      if arrivals[i].block.None? {
        return None;
      }
      out := out + [arrivals[i]];
    }
    assert out == arrivals;
    var sorted := EventOrder.SortBy(Offset<E>(from), out);
    var blocks: seq<Block<E>> := [];
    for i := 0 to |sorted|
      invariant |blocks| == i && forall j :: 0 <= j < i ==> blocks[j] == Block(from + j, chain(from + j))
    {
      assert sorted[i] in sorted && sorted[i] == Arrival(from + i, answers(from + i));
      blocks := blocks + [sorted[i].block.value];
    }
    return Some(blocks);
  }

  // --- the index --------------------------------------------------------------------------

  /** An index: its contract, where it started, how far it got. */
  datatype Saved<E> = Saved(address: nat, first: nat, next: nat, events: seq<E>)

  /** The cache file, and the index a running process holds. */
  datatype Device<E> = Device(cache: Option<Saved<E>>, index: Option<Saved<E>>)

  datatype Act =
    | Open(address: nat, from: nat)    // loads the cache if it fits, else starts afresh
    | Advance(end: nat)                // one window fetched and absorbed
    | Checkpoint
    | Die                              // a crash, or an error: the process's index is gone
    | Corrupt                          // the cache becomes unreadable

  predicate CanAct<E>(d: Device<E>, a: Act) {
    match a
    case Open(_, _) => d.index.None?
    case Advance(end) => d.index.Some? && end > d.index.value.next
    case Checkpoint => d.index.Some?
    case Die => true
    case Corrupt => true
  }

  /** `load_cache`, else a new index. */
  function Opened<E>(cache: Option<Saved<E>>, address: nat, from: nat): Saved<E> {
    if cache.Some? && cache.value.address == address && cache.value.first == from
    then cache.value
    else Saved(address, from, from, [])
  }

  function Acted<E>(chains: nat -> Chain<E>, d: Device<E>, a: Act): Device<E>
    requires CanAct(d, a)
  {
    match a
    case Open(address, from) => d.(index := Some(Opened(d.cache, address, from)))
    case Advance(end) =>
      var i := d.index.value;
      d.(index := Some(i.(next := end, events := i.events + EventsOf(chains(i.address), i.next, end))))
    case Checkpoint => d.(cache := d.index)
    case Die => d.(index := None)
    case Corrupt => d.(cache := None)
  }

  /** Exactly the contract's events of [first, next), in block order. */
  ghost predicate SavedExact<E>(chains: nat -> Chain<E>, s: Saved<E>) {
    s.first <= s.next && s.events == EventsOf(chains(s.address), s.first, s.next)
  }

  /** What the environment does in one window: the feeder's answers, how the
      workers' messages interleave, whether the checkpoint's save fails. */
  datatype Fetch<!E> = Fetch(answers: Answers<E>, arrivals: seq<Arrival<E>>, checkpointFails: bool)

  ghost predicate HonestFeeder<E(!new)>(chain: Chain<E>, parallelism: nat, feeder: (nat, nat) -> Fetch<E>) {
    forall from: nat, to: nat :: from < to ==>
      && Honest(chain, feeder(from, to).answers)
      && Arrives(feeder(from, to).answers, from, to, parallelism, feeder(from, to).arrivals)
  }

  lemma {:induction false} EventsJoin<E>(chain: Chain<E>, from: nat, mid: nat, to: nat)
    requires from <= mid <= to
    ensures EventsOf(chain, from, mid) + EventsOf(chain, mid, to) == EventsOf(chain, from, to)
    decreases (to)
  {
    if mid < to {
      EventsJoin(chain, from, mid, to - 1);
      assert EventsOf(chain, from, mid) + (EventsOf(chain, mid, to - 1) + chain(to - 1))
             == (EventsOf(chain, from, mid) + EventsOf(chain, mid, to - 1)) + chain(to - 1);
    } else {
      assert EventsOf(chain, from, mid) + [] == EventsOf(chain, from, mid);
    }
  }

  /** The acts `acts` lead from `d` to `e`. */
  ghost predicate Leads<E>(chains: nat -> Chain<E>, d: Device<E>, acts: seq<Act>, e: Device<E>)
    decreases acts
  {
    if acts == [] then d == e
    else CanAct(d, acts[0]) && Leads(chains, Acted(chains, d, acts[0]), acts[1..], e)
  }

  lemma {:induction false} LeadsOn<E>(chains: nat -> Chain<E>, d: Device<E>, acts: seq<Act>, e: Device<E>, a: Act)
    requires Leads(chains, d, acts, e) && CanAct(e, a)
    ensures Leads(chains, d, acts + [a], Acted(chains, e, a))
    decreases acts
  {
    if acts == [] {
      assert [a][1..] == [];
    } else {
      assert (acts + [a])[1..] == acts[1..] + [a];
      LeadsOn(chains, Acted(chains, d, acts[0]), acts[1..], e, a);
    }
  }

  // --- whole histories of one device ---------------------------------------------------------

  ghost predicate DeviceExact<E>(chains: nat -> Chain<E>, d: Device<E>) {
    (d.cache.Some? ==> SavedExact(chains, d.cache.value)) && (d.index.Some? ==> SavedExact(chains, d.index.value))
  }

  lemma ActKeeps<E>(chains: nat -> Chain<E>, d: Device<E>, a: Act)
    requires DeviceExact(chains, d) && CanAct(d, a)
    ensures DeviceExact(chains, Acted(chains, d, a))
  {
    if a.Advance? {
      var i := d.index.value;
      EventsJoin(chains(i.address), i.first, i.next, a.end);
    }
  }

  /** Main result. Whatever failed, crashed, was reloaded or interleaved before,
      the index and the cache hold exactly their contract's events from the first
      block up to where they got, as one sequential pass would. */
  lemma {:induction false} HistoryExact<E>(chains: nat -> Chain<E>, d: Device<E>, acts: seq<Act>, e: Device<E>)
    requires DeviceExact(chains, d) && Leads(chains, d, acts, e)
    ensures DeviceExact(chains, e)
    decreases acts
  {
    if acts != [] {
      ActKeeps(chains, d, acts[0]);
      HistoryExact(chains, Acted(chains, d, acts[0]), acts[1..], e);
    }
  }

  /** The acts of a sync from `start`: window by window of 256 blocks, the last one
      shorter, each followed by its checkpoint. */
  function WindowAct(start: nat, to: nat, i: nat): Act {
    var end := start + 256 * (i / 2 + 1);
    if i % 2 == 1 then Checkpoint else Advance(if end < to then end else to)
  }

  class Index<E(!new)> {
    const address: nat
    const firstBlock: nat
    var nextBlock: nat
    var events: seq<E>

    ghost function Content(): Saved<E>
      reads this
    {
      Saved(address, firstBlock, nextBlock, events)
    }

    /** From the cache if it fits, else afresh. */
    constructor (cache: Option<Saved<E>>, address: nat, fromBlock: nat)
      ensures Content() == Opened(cache, address, fromBlock)
    {
      var fits := cache.Some? && cache.value.address == address && cache.value.first == fromBlock;
      this.address := address;
      firstBlock := fromBlock;
      nextBlock := if fits then cache.value.next else fromBlock;
      events := if fits then cache.value.events else [];
    }

    method Absorb(block: Block<E>)
      modifies this
      ensures events == old(events) + block.events && nextBlock == block.number + 1
    {
      events := events + block.events;
      nextBlock := block.number + 1;
    }

    /** A fetched window is absorbed as one `Advance`. */
    method AbsorbAll(ghost chain: Chain<E>, blocks: seq<Block<E>>, ghost end: nat)
      requires Window(chain, nextBlock, end, blocks)
      modifies this
      ensures nextBlock == end && events == old(events) + EventsOf(chain, old(nextBlock), end)
    {
      ghost var from, before := nextBlock, events;
      for i := 0 to |blocks|
        invariant nextBlock == from + i && events == before + EventsOf(chain, from, from + i)
      {
        Absorb(blocks[i]);
        assert before + (EventsOf(chain, from, from + i) + chain(from + i)) == before + EventsOf(chain, from, from + i) + chain(from + i);
      }
    }

    /** Syncs [nextBlock, to) in windows; an error of a fetch or of a checkpoint
        ends it. However the workers interleave and however it ends, what it did
        to the device are whole `Advance`s and `Checkpoint`s, and short of an
        error it reaches `to`. */
    method Sync(ghost chains: nat -> Chain<E>, ghost parallelism: nat, feeder: (nat, nat) -> Fetch<E>, to: nat,
                ghost device: Device<E>)
      returns (ok: bool, ghost acts: seq<Act>, ghost after: Device<E>)
      requires HonestFeeder(chains(address), parallelism, feeder) && device.index == Some(Content())
      modifies this
      ensures Leads(chains, device, acts, after) && after.index == Some(Content())
      ensures DeviceExact(chains, device) ==> DeviceExact(chains, after)
      ensures forall i :: 0 <= i < |acts| ==> acts[i] == WindowAct(old(nextBlock), to, i)
      ensures ok ==> |acts| % 2 == 0
      ensures nextBlock >= old(nextBlock) && (old(nextBlock) < to ==> nextBlock <= to)
      ensures ok ==> nextBlock == (if old(nextBlock) < to then to else old(nextBlock)) && (acts != [] ==> after.cache == after.index)
      ensures !ok ==> old(nextBlock) < to && (nextBlock == to || (nextBlock - old(nextBlock)) % 256 == 0)
    {
      hide Arrives, Honest, Window, EventsOf, Leads, DeviceExact;
      ghost var start, windows := nextBlock, 0;
      acts, after := [], device;
      LeadsNowhere(chains, device);
      while nextBlock < to
        invariant Leads(chains, device, acts, after) && after.index == Some(Content())
        invariant DeviceExact(chains, device) ==> DeviceExact(chains, after)
        invariant acts != [] ==> after.cache == after.index
        invariant |acts| == 2 * windows && (windows > 0 && nextBlock == to ==> start + 256 * windows >= to)
        invariant forall i :: 0 <= i < |acts| ==> acts[i] == WindowAct(start, to, i)
        invariant start <= nextBlock && (start < to ==> nextBlock <= to) && (start >= to ==> nextBlock == start)
        invariant nextBlock == to || nextBlock == start + WINDOW * windows
        invariant start >= to ==> windows == 0
        decreases if nextBlock < to then to - nextBlock else 0
      {
        var from, end := nextBlock, if nextBlock + WINDOW < to then nextBlock + WINDOW else to;
        var fetch := feeder(from, end);
        var fetched := Blocks(chains(address), fetch.answers, from, end, parallelism, fetch.arrivals);
        if fetched.None? {
          return false, acts, after;
        }
        AbsorbAll(chains(address), fetched.value, end);
        windows := windows + 1;
        LeadsOn(chains, device, acts, after, Advance(end));
        if DeviceExact(chains, after) {
          ActKeeps(chains, after, Advance(end));
          ActKeeps(chains, Acted(chains, after, Advance(end)), Checkpoint);
        }
        acts, after := acts + [Advance(end)], Acted(chains, after, Advance(end));
        if fetch.checkpointFails {
          return false, acts, after;
        }
        LeadsOn(chains, device, acts, after, Checkpoint);
        acts, after := acts + [Checkpoint], Acted(chains, after, Checkpoint);
      }
      return true, acts, after;
    }
  }

  lemma LeadsNowhere<E>(chains: nat -> Chain<E>, d: Device<E>)
    ensures Leads(chains, d, [], d)
  {
  }

  /** A sync to `to` from a cache already at `next` past it leaves what a
      sequential pass to `to` would, exactly when no event came in between. */
  lemma PastTheTarget<E>(chain: Chain<E>, first: nat, to: nat, next: nat)
    requires first <= to <= next
    ensures EventsOf(chain, first, next) == EventsOf(chain, first, to) <==> EventsOf(chain, to, next) == []
  {
    EventsJoin(chain, first, to, next);
    assert EventsOf(chain, first, to) + [] == EventsOf(chain, first, to);
    assert |EventsOf(chain, first, next)| == |EventsOf(chain, first, to)| + |EventsOf(chain, to, next)|;
  }

  /** Every process that opens an index starts where it asked, of the contract it
      asked for. */
  lemma OpenFits<E>(chains: nat -> Chain<E>, d: Device<E>, address: nat, from: nat)
    requires DeviceExact(chains, d) && CanAct(d, Open(address, from))
    ensures var i := Acted(chains, d, Open(address, from)).index;
            i.Some? && i.value.address == address && i.value.first == from
            && i.value.events == EventsOf(chains(address), from, i.value.next)
            && i.value.next == if d.cache.Some? && d.cache.value.address == address && d.cache.value.first == from
                               then d.cache.value.next else from
  {
  }

  /** What was checkpointed outlives the process: the next one to ask for the same
      contract and first block goes on where it was. */
  lemma CheckpointSurvives<E>(chains: nat -> Chain<E>, d: Device<E>)
    requires d.index.Some?
    ensures var i, saved := d.index.value, Acted(chains, d, Checkpoint);
            && CanAct(Acted(chains, saved, Die), Open(i.address, i.first))
            && Acted(chains, Acted(chains, saved, Die), Open(i.address, i.first)) == saved
  {
  }
}
