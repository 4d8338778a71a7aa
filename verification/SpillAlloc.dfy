/**
 The spill allocator's counters and routing
 (tools/snip36-phone-ffi/src/spill_alloc.rs) under every interleaving of
 threads: each atomic operation of an allocation or a release is one step of
 its block, and the steps of different blocks mix freely. The environment
 variable is fixed; a failed mapping aborts the process and is not modelled.
 */
module SpillAlloc {

  const SPILL_THRESHOLD: nat := 262_144
  const MAX_SUPPORTED_ALIGN: nat := 4096

  datatype Layout = Layout(size: nat, align: nat)

  datatype Phase =
    | Requested
    | Probing                     // found ENABLED uninitialized: asks the environment, then stores the answer
    | Mapping
    | Mapped
    | BytesAdded(live: int)       // the thread keeps the counter's value after its own addition
    | MapsAdded(live: int)
    | SpillOwned                  // returned to the program
    | SystemOwned
    | SpillProbing                // as Probing, for the release of a spilled block
    | SystemProbing
    | Unmapping
    | Unmapped
    | BytesSubtracted
    | Freed
    | FreedByOther                // released by the allocator that did not make it

  datatype Block = Block(layout: Layout, phase: Phase)

  /** `enabled` is -1 before the first probe. `highest` is the largest value the
      live-byte counter ever had. */
  datatype State = State(env: bool, page: nat, enabled: int, blocks: seq<Block>,
                         liveBytes: int, liveMaps: int, peak: int, highest: int)

  /** The size in whole pages. */
  function PageCeil(size: nat, page: nat): (r: nat)
    requires page > 0
    ensures size <= r < size + page && r % page == 0
  {
    var q := (size + page - 1) / page;
    PageMultiple(size + page - 1, page);
    WholePages(q, page);
    q * page
  }

  lemma {:induction false} WholePages(q: nat, page: nat)
    requires page > 0
    ensures q * page % page == 0
  {
    if q > 0 {
      WholePages(q - 1, page);
      OnePageMore((q - 1) * page, page);
      assert q * page == (q - 1) * page + page;
    }
  }

  lemma OnePageMore(x: nat, page: nat)
    requires page > 0 && x % page == 0
    ensures (x + page) % page == 0
  {
    var k := x / page;
    assert x == k * page;
    assert x + page == (k + 1) * page + 0;
    NoRemainder(k + 1, page, (x + page) / page, (x + page) % page);
  }

  /** Quotient and remainder are unique. */
  lemma NoRemainder(a: int, page: int, q: int, r: int)
    requires 0 <= r < page && a * page == q * page + r
    ensures r == 0
  {
    Distributes(a - q, q, page);
    SmallMultiple(a - q, page);
  }

  lemma Distributes(x: int, y: int, page: int)
    ensures (x + y) * page == x * page + y * page
  {
  }

  lemma SmallMultiple(k: int, page: int)
    requires page > 0
    ensures -page < k * page < page ==> k * page == 0
  {
    if k > 0 {
      AtLeastOne(k, page);
    } else if k < 0 {
      AtLeastOne(-k, page);
    }
  }

  lemma {:induction false} AtLeastOne(k: int, page: int)
    requires k > 0 && page > 0
    ensures k * page >= page
  {
    if k > 1 {
      AtLeastOne(k - 1, page);
      assert k * page == (k - 1) * page + page;
    }
  }

  lemma PageMultiple(x: nat, page: nat)
    requires page > 0
    ensures var q := x / page; 0 <= q * page <= x < q * page + page
  {
    var q, r := x / page, x % page;
    assert x == q * page + r;
  }

  predicate Spillable(l: Layout) {
    l.size >= SPILL_THRESHOLD && l.align <= MAX_SUPPORTED_ALIGN
  }

  datatype Event = Request(layout: Layout) | Advance(block: nat)

  predicate Possible(s: State, e: Event) {
    match e
    case Request(_) => true
    case Advance(i) => i < |s.blocks| && s.page > 0 && !s.blocks[i].phase.Freed? && !s.blocks[i].phase.FreedByOther?
  }

  function Len(s: State, i: nat): nat
    requires i < |s.blocks| && s.page > 0
  {
    PageCeil(s.blocks[i].layout.size, s.page)
  }

  function To(s: State, i: nat, phase: Phase): State
    requires i < |s.blocks|
  {
    s.(blocks := s.blocks[i := s.blocks[i].(phase := phase)])
  }

  function Counted(s: State, bytes: int, maps: int): State {
    var live := s.liveBytes + bytes;
    s.(liveBytes := live, liveMaps := s.liveMaps + maps, highest := if live > s.highest then live else s.highest)
  }

  /** `use_spill` of an allocation, then `spill_mmap`; `use_spill` again at the
      release. A release of a block nobody returned yet cannot happen. */
  function Step(s: State, e: Event): State
    requires Possible(s, e)
  {
    match e
    case Request(layout) => s.(blocks := s.blocks + [Block(layout, Requested)])
    case Advance(i) =>
      var layout := s.blocks[i].layout;
      match s.blocks[i].phase
      case Requested =>
        To(s, i, if !Spillable(layout) || s.enabled == 0 then SystemOwned else if s.enabled == 1 then Mapping else Probing)
      case Probing => To(s, i, if s.env then Mapping else SystemOwned).(enabled := if s.env then 1 else 0)
      case Mapping => To(s, i, Mapped)
      case Mapped =>
        var t := Counted(s, Len(s, i), 0);
        To(t, i, BytesAdded(t.liveBytes))
      case BytesAdded(live) => To(Counted(s, 0, 1), i, MapsAdded(live))
      case MapsAdded(live) => To(s, i, SpillOwned).(peak := if live > s.peak then live else s.peak)
      case SpillOwned =>
        To(s, i, if !Spillable(layout) || s.enabled == 0 then FreedByOther else if s.enabled == 1 then Unmapping else SpillProbing)
      case SystemOwned =>
        To(s, i, if !Spillable(layout) || s.enabled == 0 then Freed else if s.enabled == 1 then FreedByOther else SystemProbing)
      case SpillProbing => To(s, i, if s.env then Unmapping else FreedByOther).(enabled := if s.env then 1 else 0)
      case SystemProbing => To(s, i, if s.env then FreedByOther else Freed).(enabled := if s.env then 1 else 0)
      case Unmapping => To(s, i, Unmapped)
      case Unmapped =>
        var len: int := Len(s, i);
        To(Counted(s, -len, 0), i, BytesSubtracted)
      case BytesSubtracted => To(Counted(s, 0, -1), i, Freed)
      case Freed => s
      case FreedByOther => s
  }

  // --- what the counters count --------------------------------------------------------

  predicate BytesCounted(p: Phase) {
    p.BytesAdded? || p.MapsAdded? || p.SpillOwned? || p.SpillProbing? || p.Unmapping? || p.Unmapped?
  }

  predicate MapsCounted(p: Phase) {
    p.MapsAdded? || p.SpillOwned? || p.SpillProbing? || p.Unmapping? || p.Unmapped? || p.BytesSubtracted?
  }

  /** The kernel holds a mapping for the block. */
  predicate HasMapping(p: Phase) {
    p.Mapped? || p.BytesAdded? || p.MapsAdded? || p.SpillOwned? || p.SpillProbing? || p.Unmapping?
  }

  function Bytes(blocks: seq<Block>, page: nat, which: Phase -> bool): nat
    requires page > 0
  {
    if blocks == [] then 0
    else (if which(blocks[0].phase) then PageCeil(blocks[0].layout.size, page) else 0) + Bytes(blocks[1..], page, which)
  }

  function Maps(blocks: seq<Block>, which: Phase -> bool): nat {
    if blocks == [] then 0 else (if which(blocks[0].phase) then 1 else 0) + Maps(blocks[1..], which)
  }

  function Share(b: Block, page: nat, which: Phase -> bool): nat
    requires page > 0
  {
    if which(b.phase) then PageCeil(b.layout.size, page) else 0
  }

  lemma {:induction false} BytesUpdate(blocks: seq<Block>, page: nat, which: Phase -> bool, i: nat, b: Block)
    requires page > 0 && i < |blocks|
    ensures Bytes(blocks[i := b], page, which) == Bytes(blocks, page, which) - Share(blocks[i], page, which) + Share(b, page, which)
    ensures Bytes(blocks, page, which) >= Share(blocks[i], page, which)
  {
    hide PageCeil;
    if i == 0 {
      assert blocks[i := b][1..] == blocks[1..];
    } else {
      assert blocks[i := b][1..] == blocks[1..][i - 1 := b];
      BytesUpdate(blocks[1..], page, which, i - 1, b);
    }
  }

  lemma {:induction false} MapsUpdate(blocks: seq<Block>, which: Phase -> bool, i: nat, b: Block)
    requires i < |blocks|
    ensures Maps(blocks[i := b], which)
            == Maps(blocks, which) - (if which(blocks[i].phase) then 1 else 0) + (if which(b.phase) then 1 else 0)
    ensures Maps(blocks, which) >= if which(blocks[i].phase) then 1 else 0
  {
    if i == 0 {
      assert blocks[i := b][1..] == blocks[1..];
    } else {
      assert blocks[i := b][1..] == blocks[1..][i - 1 := b];
      MapsUpdate(blocks[1..], which, i - 1, b);
    }
  }

  lemma {:induction false} AppendedBlock(blocks: seq<Block>, page: nat, b: Block)
    requires page > 0 && b.phase.Requested?
    ensures Bytes(blocks + [b], page, BytesCounted) == Bytes(blocks, page, BytesCounted)
    ensures Maps(blocks + [b], MapsCounted) == Maps(blocks, MapsCounted)
  {
    hide PageCeil;
    if blocks == [] {
      assert blocks + [b] == [b] && [b][1..] == [];
    } else {
      assert (blocks + [b])[1..] == blocks[1..] + [b];
      AppendedBlock(blocks[1..], page, b);
    }
  }

  // --- the invariant ---------------------------------------------------------------------

  ghost predicate CountersOk(s: State) {
    && s.page > 0
    && s.liveBytes == Bytes(s.blocks, s.page, BytesCounted)
    && s.liveMaps == Maps(s.blocks, MapsCounted)
  }

  ghost predicate EnabledOk(s: State) {
    s.enabled == -1 || s.enabled == (if s.env then 1 else 0)
  }

  /** Who made the block: the routing of its layout. */
  ghost predicate RoutedOk(s: State, i: nat)
    requires i < |s.blocks|
  {
    var b := s.blocks[i];
    match b.phase
    case Requested => true
    case Probing => Spillable(b.layout)
    case SystemOwned => !Spillable(b.layout) || (!s.env && s.enabled != -1)
    case SystemProbing => Spillable(b.layout) && !s.env
    case Freed => true
    case FreedByOther => false
    case _ => Spillable(b.layout) && s.env && s.enabled != -1
  }

  /** A thread still to raise the peak with what it saw. */
  predicate Pending(p: Phase, live: int) {
    (p.BytesAdded? || p.MapsAdded?) && p.live == live
  }

  /** The highest value is the peak, or some thread is about to make it so. */
  ghost predicate PeakOk(s: State) {
    && s.peak <= s.highest && s.liveBytes <= s.highest
    && (forall i :: 0 <= i < |s.blocks| && (s.blocks[i].phase.BytesAdded? || s.blocks[i].phase.MapsAdded?) ==>
          s.blocks[i].phase.live <= s.highest)
    && (s.peak == s.highest || exists i :: 0 <= i < |s.blocks| && Pending(s.blocks[i].phase, s.highest))
  }

  ghost predicate Inv(s: State) {
    CountersOk(s) && EnabledOk(s) && PeakOk(s) && forall i :: 0 <= i < |s.blocks| ==> RoutedOk(s, i)
  }

  /** A step changes its own block, and the counters by what that block's share
      changes. */
  lemma StepShares(s: State, i: nat)
    requires Possible(s, Advance(i)) && RoutedOk(s, i) && EnabledOk(s)
    ensures var t := Step(s, Advance(i));
            && t.page == s.page && |t.blocks| == |s.blocks| && t.blocks == s.blocks[i := t.blocks[i]]
            && t.liveBytes == s.liveBytes - Share(s.blocks[i], s.page, BytesCounted) + Share(t.blocks[i], s.page, BytesCounted)
            && t.liveMaps == s.liveMaps - (if MapsCounted(s.blocks[i].phase) then 1 else 0)
                             + (if MapsCounted(t.blocks[i].phase) then 1 else 0)
  {
    hide PageCeil;
  }

  lemma CountersKept(s: State, e: Event)
    requires Inv(s) && Possible(s, e)
    ensures CountersOk(Step(s, e))
  {
    match e
    case Request(layout) =>
      hide PageCeil;
      AppendedBlock(s.blocks, s.page, Block(layout, Requested));
    case Advance(i) =>
      hide Step, Share, RoutedOk, BytesCounted, MapsCounted, Bytes, Maps;
      var t := Step(s, e);
      assert RoutedOk(s, i);
      StepShares(s, i);
      BytesUpdate(s.blocks, s.page, BytesCounted, i, t.blocks[i]);
      MapsUpdate(s.blocks, MapsCounted, i, t.blocks[i]);
  }

  lemma RoutingKept(s: State, e: Event, j: nat)
    requires Inv(s) && Possible(s, e) && j < |Step(s, e).blocks|
    ensures EnabledOk(Step(s, e)) && RoutedOk(Step(s, e), j)
  {
    hide PageCeil, CountersOk, PeakOk;
    if e.Advance? {
      assert RoutedOk(s, e.block);
      assert RoutedOk(s, j);
    } else if j < |s.blocks| {
      assert RoutedOk(s, j);
    }
  }

  /** The three steps that bear on the peak, and all others. */
  lemma PeakStep(s: State, i: nat)
    requires Possible(s, Advance(i))
    ensures var t, p := Step(s, Advance(i)), s.blocks[i].phase;
            var q := t.blocks[i].phase;
            && |t.blocks| == |s.blocks| && (forall j :: 0 <= j < |s.blocks| && j != i ==> t.blocks[j] == s.blocks[j])
            && (p.Mapped? ==> q == BytesAdded(t.liveBytes) && t.peak == s.peak
                              && t.highest == if t.liveBytes > s.highest then t.liveBytes else s.highest)
            && (p.BytesAdded? ==> q == MapsAdded(p.live) && t.peak == s.peak)
            && (p.MapsAdded? ==> q == SpillOwned && t.peak == if p.live > s.peak then p.live else s.peak)
            && (!p.Mapped? && !p.BytesAdded? && !p.MapsAdded? ==> !q.BytesAdded? && !q.MapsAdded? && t.peak == s.peak)
            && (!p.Mapped? ==> t.liveBytes <= s.liveBytes && (s.liveBytes <= s.highest ==> t.highest == s.highest))
  {
    hide PageCeil;
  }

  lemma PeakKept(s: State, e: Event)
    requires Inv(s) && Possible(s, e)
    ensures PeakOk(Step(s, e))
  {
    if e.Advance? {
      PeakStep(s, e.block);
      PeakMoves(s, Step(s, e), e.block);
    } else if s.peak != s.highest {
      var j :| 0 <= j < |s.blocks| && Pending(s.blocks[j].phase, s.highest);
      assert Pending(Step(s, e).blocks[j].phase, s.highest);
    }
  }

  lemma PeakMoves(s: State, t: State, i: nat)
    requires PeakOk(s) && i < |s.blocks| == |t.blocks|
    requires forall j :: 0 <= j < |s.blocks| && j != i ==> t.blocks[j] == s.blocks[j]
    requires var p, q := s.blocks[i].phase, t.blocks[i].phase;
             && (p.Mapped? ==> q == BytesAdded(t.liveBytes) && t.peak == s.peak
                               && t.highest == if t.liveBytes > s.highest then t.liveBytes else s.highest)
             && (p.BytesAdded? ==> q == MapsAdded(p.live) && t.peak == s.peak)
             && (p.MapsAdded? ==> q == SpillOwned && t.peak == if p.live > s.peak then p.live else s.peak)
             && (!p.Mapped? && !p.BytesAdded? && !p.MapsAdded? ==> !q.BytesAdded? && !q.MapsAdded? && t.peak == s.peak)
             && (!p.Mapped? ==> t.liveBytes <= s.liveBytes && (s.liveBytes <= s.highest ==> t.highest == s.highest))
    ensures PeakOk(t)
  {
    if t.peak != t.highest {
      if t.highest != s.highest {
        assert Pending(t.blocks[i].phase, t.highest);
      } else {
        var j :| 0 <= j < |s.blocks| && Pending(s.blocks[j].phase, s.highest);
        assert Pending(t.blocks[j].phase, t.highest);
      }
    }
  }

  lemma StepKeeps(s: State, e: Event)
    requires Inv(s) && Possible(s, e)
    ensures Inv(Step(s, e))
  {
    hide Step, Possible, CountersOk, PeakOk, RoutedOk;
    CountersKept(s, e);
    PeakKept(s, e);
    assert EnabledOk(Step(s, e)) by {
      EnabledKept(s, e);
    }
    forall j | 0 <= j < |Step(s, e).blocks| ensures RoutedOk(Step(s, e), j) {
      RoutingKept(s, e, j);
    }
  }

  lemma EnabledKept(s: State, e: Event)
    requires Inv(s) && Possible(s, e)
    ensures EnabledOk(Step(s, e))
  {
  }

  // --- whole runs --------------------------------------------------------------------------

  function Start(env: bool, page: nat): State {
    State(env, page, -1, [], 0, 0, 0, 0)
  }

  ghost predicate Run(env: bool, page: nat, states: seq<State>, events: seq<Event>) {
    && |states| == |events| + 1 && states[0] == Start(env, page) && page > 0
    && forall i :: 0 <= i < |events| ==> Possible(states[i], events[i]) && states[i + 1] == Step(states[i], events[i])
  }

  lemma {:induction false} RunKeeps(env: bool, page: nat, states: seq<State>, events: seq<Event>, n: nat)
    requires Run(env, page, states, events) && n < |states|
    ensures Inv(states[n])
  {
    hide Step, Possible;
    if n == 0 {
      StartOk(env, page);
    } else {
      RunKeeps(env, page, states, events, n - 1);
      StepKeeps(states[n - 1], events[n - 1]);
    }
  }

  lemma StartOk(env: bool, page: nat)
    requires page > 0
    ensures Inv(Start(env, page))
  {
  }

  /** No counter ever goes below zero, and no block is released by the allocator
      that did not make it. */
  lemma NeverUnderflows(env: bool, page: nat, states: seq<State>, events: seq<Event>, n: nat)
    requires Run(env, page, states, events) && n < |states|
    ensures states[n].liveBytes >= 0 && states[n].liveMaps >= 0
    ensures forall i :: 0 <= i < |states[n].blocks| ==> !states[n].blocks[i].phase.FreedByOther?
  {
    RunKeeps(env, page, states, events, n);
    forall i | 0 <= i < |states[n].blocks| ensures !states[n].blocks[i].phase.FreedByOther? {
      assert RoutedOk(states[n], i);
    }
  }

  /** The steps of a block, in order. */
  function Rank(p: Phase): nat {
    match p
    case Requested => 0
    case Probing => 1
    case Mapping => 2
    case Mapped => 3
    case BytesAdded(_) => 4
    case MapsAdded(_) => 5
    case SpillOwned => 6
    case SystemOwned => 6
    case SpillProbing => 7
    case SystemProbing => 7
    case Unmapping => 8
    case Unmapped => 9
    case BytesSubtracted => 10
    case Freed => 11
    case FreedByOther => 11
  }

  /** Every step of a block takes it further: an allocation has returned after at
      most six, the block is released after at most five more. */
  lemma StepsForward(s: State, i: nat)
    requires Possible(s, Advance(i))
    ensures var p, q := s.blocks[i].phase, Step(s, Advance(i)).blocks[i].phase;
            Rank(p) < Rank(q) <= 11 && (Rank(p) < 6 ==> Rank(q) <= 6)
  {
  }

  /** A block is spilled exactly if the environment asks for it and the request is of
      at least 256 KiB and aligned to at most 4096. */
  lemma RoutedExactly(env: bool, page: nat, states: seq<State>, events: seq<Event>, n: nat, i: nat)
    requires Run(env, page, states, events) && n < |states| && i < |states[n].blocks|
    ensures var b := states[n].blocks[i];
            && (b.phase.SpillOwned? ==> env && b.layout.size >= 262_144 && b.layout.align <= 4096)
            && (b.phase.SystemOwned? ==> !(env && b.layout.size >= 262_144 && b.layout.align <= 4096))
  {
    RunKeeps(env, page, states, events, n);
    EnvStays(env, page, states, events, n);
    assert RoutedOk(states[n], i);
  }

  lemma {:induction false} EnvStays(env: bool, page: nat, states: seq<State>, events: seq<Event>, n: nat)
    requires Run(env, page, states, events) && n < |states|
    ensures states[n].env == env
  {
    if n > 0 {
      EnvStays(env, page, states, events, n - 1);
    }
  }

  /** No thread is inside the allocator. */
  ghost predicate Quiet(s: State) {
    forall i :: 0 <= i < |s.blocks| ==>
      var p := s.blocks[i].phase; p.SpillOwned? || p.SystemOwned? || p.Freed? || p.FreedByOther?
  }

  lemma {:induction false} QuietTotals(blocks: seq<Block>, page: nat)
    requires page > 0
    requires forall i :: 0 <= i < |blocks| ==>
               var p := blocks[i].phase; p.SpillOwned? || p.SystemOwned? || p.Freed? || p.FreedByOther?
    ensures Bytes(blocks, page, BytesCounted) == Bytes(blocks, page, HasMapping)
    ensures Maps(blocks, MapsCounted) == Maps(blocks, HasMapping)
  {
    hide PageCeil;
    if blocks != [] {
      assert forall i :: 0 <= i < |blocks[1..]| ==> blocks[1..][i] == blocks[i + 1];
      QuietTotals(blocks[1..], page);
    }
  }

  /** Main result. Whenever no thread is inside the allocator, the counters are the
      page-rounded total and the number of the live mappings, and the peak is the
      highest value the live counter ever had. */
  lemma QuietCounters(env: bool, page: nat, states: seq<State>, events: seq<Event>, n: nat)
    requires Run(env, page, states, events) && n < |states| && Quiet(states[n])
    ensures states[n].page > 0
    ensures states[n].liveBytes == Bytes(states[n].blocks, states[n].page, HasMapping)
    ensures states[n].liveMaps == Maps(states[n].blocks, HasMapping)
    ensures states[n].peak == states[n].highest
  {
    RunKeeps(env, page, states, events, n);
    QuietTotals(states[n].blocks, states[n].page);
  }

  /** `highest` is what its name says: no earlier live value exceeds it, and one
      reaches it. */
  lemma {:induction false} HighestIsMaximum(env: bool, page: nat, states: seq<State>, events: seq<Event>, n: nat)
    requires Run(env, page, states, events) && n < |states|
    ensures forall m :: 0 <= m <= n ==> states[m].liveBytes <= states[n].highest
    ensures exists m :: 0 <= m <= n && states[m].liveBytes == states[n].highest
  {
    if n == 0 {
      assert states[0].liveBytes == states[0].highest;
    } else {
      HighestIsMaximum(env, page, states, events, n - 1);
      HighestStep(states[n - 1], events[n - 1]);
      if states[n].highest == states[n - 1].highest {
        var m :| 0 <= m <= n - 1 && states[m].liveBytes == states[n - 1].highest;
        assert states[m].liveBytes == states[n].highest;
      } else {
        assert states[n].liveBytes == states[n].highest;
      }
    }
  }

  lemma HighestStep(s: State, e: Event)
    requires Possible(s, e) && s.liveBytes <= s.highest
    ensures var t := Step(s, e);
            s.highest <= t.highest && t.liveBytes <= t.highest && (t.highest == s.highest || t.liveBytes == t.highest)
  {
    hide PageCeil;
  }
}
