/**
 The A side of the component splitter (scripts/split_component_evals.py,
 `fork_a`): a generated evaluation body is cut into parts that hand one another
 a packed carry.

 The emitted parts are programs of `EvalMachine`, run one after another by the
 family wrappers (which rebuild the Component from the first carried value and
 give every part but the last a copy of the trace). TraceSplitProof shows that
 this run is the uncut run except that each part reads its inputs again;
 TraceReread shows when reading them again changes nothing.
 */
module TraceSplit {
  import opened Outcomes
  import opened EvalMachine

  /** An evaluation body: the prelude's declarations in text order, the trace
      columns, the tail statements, and the seam values (numerators, then
      combined lookup sums). */
  datatype EvalBody = EvalBody(decls: seq<Stmt>, columns: seq<Name>, tail: seq<Stmt>, seam: seq<Name>)

  datatype Part = Part(stmts: seq<Stmt>, packs: seq<Name>)

  const PRELUDE: seq<Stmt> := [LetLogSize, LetClaimedSum, LetColumnSize]

  /** The declared mutable accumulators (`mut_decls`). */
  function Accumulators(decls: seq<Stmt>): seq<Name> {
    if decls == [] then []
    else (if decls[0].LetZero? then [decls[0].name] else []) + Accumulators(decls[1..])
  }

  /** The preprocessed reads (`seq_stmts`), by the name each defines. */
  function MaskReads(decls: seq<Stmt>): seq<Name> {
    if decls == [] then []
    else (if decls[0].LetPreprocessed? then [decls[0].name] else []) + MaskReads(decls[1..])
  }

  /** What the script asserts of a body, and that its tail statements bind
      identifiers and update only `sum` and the accumulators. Any identifier may
      be bound again. */
  ghost predicate WellFormed(b: EvalBody) {
    var accs, masks := Accumulators(b.decls), MaskReads(b.decls);
    && (forall d :: d in b.decls ==> (d.LetZero? || d.LetPreprocessed?) && d.name.Ident?)
    && (forall c :: c in b.columns ==> c.Ident? && c !in accs && c !in masks)
    && (forall a :: a in accs ==> a !in masks)
    && (forall n :: n in b.seam <==> n in accs)
    && (forall s :: s in b.tail ==>
          && s.Compute?
          && (forall n :: n in s.binds ==> n.Ident?)
          && (forall u :: u in s.updates ==> u == Sum || u in accs))
  }

  predicate ValidCuts(b: EvalBody, cuts: seq<nat>) {
    && (forall i :: 0 <= i < |cuts| ==> cuts[i] < |b.tail|)
    && (forall i, j :: 0 <= i < j < |cuts| ==> cuts[i] < cuts[j])
  }

  function Bounds(b: EvalBody, cuts: seq<nat>): (r: seq<nat>)
    ensures |r| == |cuts| + 2
  {
    [0] + cuts + [|b.tail|]
  }

  lemma BoundsOrdered(b: EvalBody, cuts: seq<nat>)
    requires ValidCuts(b, cuts)
    ensures forall i, j :: 0 <= i <= j < |Bounds(b, cuts)| ==> Bounds(b, cuts)[i] <= Bounds(b, cuts)[j] <= |b.tail|
  {
  }

  function TailPart(b: EvalBody, cuts: seq<nat>, p: nat): seq<Stmt>
    requires ValidCuts(b, cuts) && p <= |cuts|
  {
    BoundsOrdered(b, cuts);
    b.tail[Bounds(b, cuts)[p]..Bounds(b, cuts)[p + 1]]
  }

  function Rest(b: EvalBody, cuts: seq<nat>, p: nat): seq<Stmt>
    requires ValidCuts(b, cuts) && p < |Bounds(b, cuts)|
  {
    BoundsOrdered(b, cuts);
    b.tail[Bounds(b, cuts)[p]..]
  }

  function Before(b: EvalBody, cuts: seq<nat>, p: nat): seq<Stmt>
    requires ValidCuts(b, cuts) && p < |Bounds(b, cuts)|
  {
    BoundsOrdered(b, cuts);
    b.tail[..Bounds(b, cuts)[p]]
  }

  lemma PartsOfTail(b: EvalBody, cuts: seq<nat>, p: nat)
    requires ValidCuts(b, cuts) && p <= |cuts|
    ensures TailPart(b, cuts, p) + Rest(b, cuts, p + 1) == Rest(b, cuts, p)
    ensures Before(b, cuts, p) + TailPart(b, cuts, p) == Before(b, cuts, p + 1)
    ensures Words(Rest(b, cuts, p)) == Words(TailPart(b, cuts, p)) + Words(Rest(b, cuts, p + 1))
    ensures DefinedIn(Before(b, cuts, p + 1)) == DefinedIn(Before(b, cuts, p)) + DefinedIn(TailPart(b, cuts, p))
    ensures forall s :: s in TailPart(b, cuts, p) ==> s in b.tail
    ensures forall s :: s in Before(b, cuts, p + 1) ==> s in b.tail
  {
    BoundsOrdered(b, cuts);
    assert TailPart(b, cuts, p) + Rest(b, cuts, p + 1) == Rest(b, cuts, p);
    assert Before(b, cuts, p) + TailPart(b, cuts, p) == Before(b, cuts, p + 1);
    TokensConcat(TailPart(b, cuts, p), Rest(b, cuts, p + 1));
    DefinedConcat(Before(b, cuts, p), TailPart(b, cuts, p));
  }

  // --- the values that cross a boundary ----------------------------------------

  function Collect(names: seq<Name>, after: set<Name>, skip: set<Name>, tmps: seq<Name>): seq<Name>
    decreases names
  {
    if names == [] then tmps
    else
      var n := names[0];
      Collect(names[1..], after, skip, if n in after && n !in skip && n !in tmps then tmps + [n] else tmps)
  }

  lemma {:induction false} CollectMembers(names: seq<Name>, after: set<Name>, skip: set<Name>, tmps: seq<Name>)
    ensures forall n :: n in Collect(names, after, skip, tmps) <==>
                        n in tmps || (n in names && n in after && n !in skip)
    decreases names
  {
    if names != [] {
      var n := names[0];
      CollectMembers(names[1..], after, skip, if n in after && n !in skip && n !in tmps then tmps + [n] else tmps);
      assert names == [n] + names[1..];
    }
  }

  lemma {:induction false} CollectConcat(a: seq<Name>, c: seq<Name>, after: set<Name>, skip: set<Name>, tmps: seq<Name>)
    ensures Collect(a + c, after, skip, tmps) == Collect(c, after, skip, Collect(a, after, skip, tmps))
    decreases a
  {
    if a == [] {
      assert a + c == c;
    } else {
      var n := a[0];
      assert (a + c)[1..] == a[1..] + c;
      CollectConcat(a[1..], c, after, skip, if n in after && n !in skip && n !in tmps then tmps + [n] else tmps);
    }
  }

  /** The names stand in the order `from` first gives them, each once. */
  ghost predicate InOrder(from: seq<Name>, names: seq<Name>) {
    forall i, j :: 0 <= i < j < |names| ==> Precedes(from, names[i], names[j])
  }

  ghost predicate Precedes(from: seq<Name>, n: Name, later: Name) {
    exists a :: 0 <= a < |from| && from[a] == n && later !in from[..a + 1]
  }

  lemma PrecedesStill(from: seq<Name>, next: Name, n: Name, later: Name)
    ensures Precedes(from, n, later) ==> Precedes(from + [next], n, later)
    ensures n in from && later !in from ==> Precedes(from + [next], n, later)
  {
    if n in from && later !in from {
      var a :| 0 <= a < |from| && from[a] == n;
      assert Precedes(from, n, later);
    }
    if Precedes(from, n, later) {
      var a :| 0 <= a < |from| && from[a] == n && later !in from[..a + 1];
      assert (from + [next])[..a + 1] == from[..a + 1] && (from + [next])[a] == n;
    }
  }

  lemma OneNameOn(done: seq<Name>, n: Name, tmps: seq<Name>, next: seq<Name>)
    requires InOrder(done, tmps) && (forall x :: x in tmps ==> x in done)
    requires next == tmps || (next == tmps + [n] && n !in done)
    ensures InOrder(done + [n], next)
  {
    forall i, j | 0 <= i < j < |next| ensures Precedes(done + [n], next[i], next[j]) {
      if j < |tmps| {
        assert Precedes(done, tmps[i], tmps[j]);
      }
      PrecedesStill(done, n, next[i], next[j]);
    }
  }

  /** Crossing names are collected in the order they are first defined. */
  lemma {:induction false} CollectInOrder(done: seq<Name>, names: seq<Name>, after: set<Name>, skip: set<Name>, tmps: seq<Name>)
    requires InOrder(done, tmps) && forall n :: n in tmps <==> n in done && n in after && n !in skip
    ensures InOrder(done + names, Collect(names, after, skip, tmps))
    decreases names
  {
    hide InOrder;
    if names == [] {
      assert done + names == done;
    } else {
      var n := names[0];
      var next := if n in after && n !in skip && n !in tmps then tmps + [n] else tmps;
      OneNameOn(done, n, tmps, next);
      CollectInOrder(done + [n], names[1..], after, skip, next);
      assert done + names == (done + [n]) + names[1..];
    }
  }

  lemma CollectsInOrder(names: seq<Name>, after: set<Name>, skip: set<Name>)
    ensures InOrder(names, Collect(names, after, skip, []))
  {
    CollectInOrder([], names, after, skip, []);
    assert [] + names == names;
  }

  /** Names no boundary carries: recomputed, carried anyway, or re-read. */
  function NotCarried(b: EvalBody): set<Name> {
    {LogSize, ClaimedSum, ColumnSize}
    + (set a | a in Accumulators(b.decls)) + (set c | c in b.columns)
  }

  /** The crossing temporaries of the boundary before part p. */
  function BoundaryTmps(b: EvalBody, cuts: seq<nat>, p: nat): seq<Name>
    requires ValidCuts(b, cuts) && 0 < p <= |cuts|
  {
    Collect(DefinedIn(Before(b, cuts, p)), Words(Rest(b, cuts, p)), NotCarried(b), [])
  }

  /** The innermost loop of `fork_a`: the names one statement defines. */
  method AddCrossing(names: seq<Name>, after: set<Name>, skip: set<Name>, start: seq<Name>) returns (tmps: seq<Name>)
    ensures tmps == Collect(names, after, skip, start)
  {
    tmps := start;
    var k := 0;
    while k < |names|
      invariant 0 <= k <= |names|
      invariant Collect(names[k..], after, skip, tmps) == Collect(names, after, skip, start)
    {
      var n := names[k];
      if n in after && n !in skip && n !in tmps {
        tmps := tmps + [n];
      }
      assert names[k..][1..] == names[k + 1..];
      k := k + 1;
    }
  }

  /** The loop over the statements of one part. */
  method AddPart(part: seq<Stmt>, after: set<Name>, skip: set<Name>, start: seq<Name>) returns (tmps: seq<Name>)
    ensures tmps == Collect(DefinedIn(part), after, skip, start)
  {
    tmps := start;
    var i := 0;
    while i < |part|
      invariant 0 <= i <= |part|
      invariant tmps == Collect(DefinedIn(part[..i]), after, skip, start)
    {
      tmps := AddCrossing(DefinedNames(part[i]), after, skip, tmps);
      assert part[..i + 1] == part[..i] + [part[i]];
      DefinedConcat(part[..i], [part[i]]);
      assert DefinedNames(part[i]) + [] == DefinedNames(part[i]) == DefinedIn([part[i]]);
      CollectConcat(DefinedIn(part[..i]), DefinedNames(part[i]), after, skip, start);
      i := i + 1;
    }
    assert part[..|part|] == part;
  }

  /** `fork_a`'s loop over the parts before a boundary. */
  method CrossingTmps(b: EvalBody, cuts: seq<nat>, p: nat) returns (tmps: seq<Name>)
    requires ValidCuts(b, cuts) && 0 < p <= |cuts|
    ensures tmps == BoundaryTmps(b, cuts, p)
    ensures forall n :: n in tmps <==>
              && n in DefinedIn(Before(b, cuts, p)) && n in Words(Rest(b, cuts, p))
              && n !in {LogSize, ClaimedSum, ColumnSize} && n !in Accumulators(b.decls) && n !in b.columns
    ensures InOrder(DefinedIn(Before(b, cuts, p)), tmps)
  {
    hide InOrder;
    var after, skip := Words(Rest(b, cuts, p)), NotCarried(b);
    tmps := [];
    assert Before(b, cuts, 0) == [];
    var q := 0;
    while q < p
      invariant 0 <= q <= p
      invariant tmps == Collect(DefinedIn(Before(b, cuts, q)), after, skip, [])
    {
      tmps := AddPart(TailPart(b, cuts, q), after, skip, tmps);
      PartsOfTail(b, cuts, q);
      CollectConcat(DefinedIn(Before(b, cuts, q)), DefinedIn(TailPart(b, cuts, q)), after, skip, []);
      q := q + 1;
    }
    CollectMembers(DefinedIn(Before(b, cuts, p)), after, skip, []);
    CollectsInOrder(DefinedIn(Before(b, cuts, p)), after, skip);
  }

  // --- dropping unused prelude lines ---------------------------------------------

  datatype Stripped = Done(stmts: seq<Stmt>) | Forever

  function Count(n: Name, names: seq<Name>): nat {
    if names == [] then 0 else (if names[0] == n then 1 else 0) + Count(n, names[1..])
  }

  function Occurrences(n: Name, stmts: seq<Stmt>): nat {
    Count(n, TokensOf(stmts))
  }

  function RemoveFirst(s: Stmt, stmts: seq<Stmt>): (r: seq<Stmt>)
    requires s in stmts
    ensures |r| == |stmts| - 1
  {
    if stmts[0] == s then stmts[1..] else [stmts[0]] + RemoveFirst(s, stmts[1..])
  }

  /** `strip_unused_prelude`: while `column_size` or `log_size` occurs exactly
      once, drop its `let`. An occurrence that is not the `let` is never
      removed, and then the script's loop does not end (`Forever`). */
  function Strip(stmts: seq<Stmt>): Stripped
    decreases |stmts|
  {
    if Occurrences(ColumnSize, stmts) == 1 then
      if LetColumnSize in stmts then Strip(RemoveFirst(LetColumnSize, stmts)) else Forever
    else if Occurrences(LogSize, stmts) == 1 then
      if LetLogSize in stmts then Strip(RemoveFirst(LetLogSize, stmts)) else Forever
    else
      Done(stmts)
  }

  method StripUnusedPrelude(part: seq<Stmt>) returns (r: Stripped)
    ensures r == Strip(part)
  {
    var text := part;
    while true
      invariant Strip(text) == Strip(part)
      decreases |text|
    {
      if Occurrences(ColumnSize, text) == 1 {
        if LetColumnSize !in text { return Forever; }
        text := RemoveFirst(LetColumnSize, text);
      } else if Occurrences(LogSize, text) == 1 {
        if LetLogSize !in text { return Forever; }
        text := RemoveFirst(LetLogSize, text);
      } else {
        return Done(text);
      }
    }
  }

  lemma {:induction false} RemoveAfter(pre: seq<Stmt>, s: Stmt, post: seq<Stmt>)
    requires s !in pre
    ensures RemoveFirst(s, pre + [s] + post) == pre + post
  {
    if pre == [] {
      assert [] + [s] + post == [s] + post;
    } else {
      assert (pre + [s] + post)[1..] == pre[1..] + [s] + post;
      RemoveAfter(pre[1..], s, post);
      assert [pre[0]] + (pre[1..] + post) == pre + post;
    }
  }

  lemma {:induction false} CountConcat(n: Name, a: seq<Name>, c: seq<Name>)
    ensures Count(n, a + c) == Count(n, a) + Count(n, c)
  {
    if a == [] {
      assert a + c == c;
    } else {
      assert (a + c)[1..] == a[1..] + c;
      CountConcat(n, a[1..], c);
    }
  }

  lemma {:induction false} CountZero(n: Name, a: seq<Name>)
    ensures Count(n, a) == 0 <==> n !in a
  {
    if a != [] {
      CountZero(n, a[1..]);
    }
  }

  // --- the emitted parts ------------------------------------------------------------

  function Zeros(names: seq<Name>): seq<Stmt> { seq(|names|, i requires 0 <= i < |names| => LetZero(names[i])) }
  function Pops(names: seq<Name>): seq<Stmt> { seq(|names|, i requires 0 <= i < |names| => LetPopped(names[i])) }
  function Reads(names: seq<Name>): seq<Stmt> { seq(|names|, i requires 0 <= i < |names| => LetPreprocessed(names[i])) }

  function Filter(names: seq<Name>, keep: set<Name>): seq<Name> {
    if names == [] then []
    else (if names[0] in keep then [names[0]] else []) + Filter(names[1..], keep)
  }

  lemma {:induction false} FilterMembers(names: seq<Name>, keep: set<Name>)
    ensures forall n :: n in Filter(names, keep) <==> n in names && n in keep
  {
    if names != [] {
      FilterMembers(names[1..], keep);
    }
  }

  /** Preprocessed reads and the masked trace destructure of one part. */
  function Inputs(b: EvalBody, words: set<Name>): seq<Stmt> {
    Reads(Filter(MaskReads(b.decls), words)) + [ReadMasks(b.columns, words, {})]
  }

  /** Everything before the tail. */
  function Head(b: EvalBody): seq<Stmt> {
    PRELUDE + b.decls + [ReadMasks(b.columns, (set c | c in b.columns), {})]
  }

  /** Part p before unused prelude lines are dropped. */
  function Blocks(b: EvalBody, cuts: seq<nat>, p: nat): seq<Stmt>
    requires ValidCuts(b, cuts) && p <= |cuts|
  {
    var words := Words(TailPart(b, cuts, p));
    if cuts == [] then
      Head(b) + b.tail
    else if p == 0 then
      PRELUDE + (Zeros(Accumulators(b.decls)) + Inputs(b, words)) + TailPart(b, cuts, p)
    else
      (if ColumnSize in words then PRELUDE else [LetClaimedSum])
      + (Pops(Accumulators(b.decls) + BoundaryTmps(b, cuts, p)) + [CarryEmpty] + Inputs(b, words))
      + TailPart(b, cuts, p)
  }

  /** The values part p hands on. */
  function Packs(b: EvalBody, cuts: seq<nat>, p: nat): seq<Name>
    requires ValidCuts(b, cuts) && p <= |cuts|
  {
    if p == |cuts| then [ClaimedSum] + b.seam
    else [ClaimedSum] + Accumulators(b.decls) + BoundaryTmps(b, cuts, p + 1)
  }

  /** The script's output; None when it does not terminate. */
  function ForkA(b: EvalBody, cuts: seq<nat>): Option<seq<Part>>
    requires ValidCuts(b, cuts)
  {
    if forall p | 0 <= p <= |cuts| :: Strip(Blocks(b, cuts, p)).Done?
    then Some(seq(|cuts| + 1, p requires 0 <= p <= |cuts| => Part(Strip(Blocks(b, cuts, p)).stmts, Packs(b, cuts, p))))
    else None
  }

  /** The statements of one kind, in order. */
  function Only(stmts: seq<Stmt>, which: Stmt -> bool): seq<Stmt> {
    if stmts == [] then [] else (if which(stmts[0]) then [stmts[0]] else []) + Only(stmts[1..], which)
  }

  predicate IsCompute(s: Stmt) { s.Compute? }

  predicate IsPop(s: Stmt) { s.LetPopped? }

  predicate IsDestructure(s: Stmt) { s.ReadMasks? }

  lemma OnlyStep(stmts: seq<Stmt>, which: Stmt -> bool)
    requires stmts != []
    ensures Only(stmts, which) == (if which(stmts[0]) then [stmts[0]] else []) + Only(stmts[1..], which)
  {
  }

  lemma {:induction false} OnlyConcat(a: seq<Stmt>, c: seq<Stmt>, which: Stmt -> bool)
    ensures Only(a + c, which) == Only(a, which) + Only(c, which)
  {
    if a == [] {
      assert a + c == c;
    } else {
      OnlyStep(a, which);
      OnlyStep(a + c, which);
      hide Only;
      OnlyConcat(a[1..], c, which);
      assert (a + c)[1..] == a[1..] + c;
      Associate(if which(a[0]) then [a[0]] else [], Only(a[1..], which), Only(c, which));
    }
  }

  lemma Associate(x: seq<Stmt>, y: seq<Stmt>, z: seq<Stmt>)
    ensures x + (y + z) == (x + y) + z
  {
  }

  lemma {:induction false} AllAre(stmts: seq<Stmt>, which: Stmt -> bool)
    requires forall s :: s in stmts ==> which(s)
    ensures Only(stmts, which) == stmts
  {
    if stmts != [] {
      AllAre(stmts[1..], which);
    }
  }

  lemma {:induction false} NoneIs(stmts: seq<Stmt>, which: Stmt -> bool)
    requires forall s :: s in stmts ==> !which(s)
    ensures Only(stmts, which) == []
  {
    if stmts != [] {
      NoneIs(stmts[1..], which);
    }
  }

  /** Of `pre + mid + post`, where only `mid` has any. */
  lemma OnlyBetween(pre: seq<Stmt>, mid: seq<Stmt>, post: seq<Stmt>, which: Stmt -> bool)
    requires (forall s :: s in pre || s in post ==> !which(s)) && forall s :: s in mid ==> which(s)
    ensures Only(pre + mid + post, which) == mid
  {
    OnlyConcat(pre + mid, post, which);
    OnlyConcat(pre, mid, which);
    NoneIs(pre, which);
    AllAre(mid, which);
    NoneIs(post, which);
  }

  lemma {:induction false} RemovedOnly(s: Stmt, stmts: seq<Stmt>, which: Stmt -> bool)
    requires s in stmts && !which(s)
    ensures Only(RemoveFirst(s, stmts), which) == Only(stmts, which)
  {
    if stmts[0] != s {
      RemovedOnly(s, stmts[1..], which);
      var rest := RemoveFirst(s, stmts[1..]);
      assert ([stmts[0]] + rest)[1..] == rest;
    }
  }

  /** Dropping prelude lines drops no others. */
  lemma {:induction false} StrippedOnly(stmts: seq<Stmt>, which: Stmt -> bool)
    requires !which(LetColumnSize) && !which(LetLogSize)
    ensures Strip(stmts).Done? ==> Only(Strip(stmts).stmts, which) == Only(stmts, which)
    decreases |stmts|
  {
    hide Occurrences, Only;
    if Occurrences(ColumnSize, stmts) == 1 {
      if LetColumnSize in stmts {
        RemovedOnly(LetColumnSize, stmts, which);
        StrippedOnly(RemoveFirst(LetColumnSize, stmts), which);
      }
    } else if Occurrences(LogSize, stmts) == 1 && LetLogSize in stmts {
      RemovedOnly(LetLogSize, stmts, which);
      StrippedOnly(RemoveFirst(LetLogSize, stmts), which);
    }
  }

  /** A part before unused lines are dropped: declarations, pops and reads, one
      destructure of the columns the part mentions (of all, where nothing is cut),
      and the tail statements. */
  lemma BlocksText(b: EvalBody, cuts: seq<nat>, p: nat) returns (lets: seq<Stmt>, popped: seq<Name>, inputs: seq<Stmt>, used: set<Name>)
    requires WellFormed(b) && ValidCuts(b, cuts) && p <= |cuts|
    ensures Blocks(b, cuts, p) == lets + Pops(popped) + inputs + [ReadMasks(b.columns, used, {})] + TailPart(b, cuts, p)
    ensures forall s :: s in lets || s in inputs ==> !s.Compute? && !s.LetPopped? && !s.ReadMasks?
    ensures forall c :: c in b.columns ==> (c in used <==> cuts == [] || c in Words(TailPart(b, cuts, p)))
    ensures popped == if p == 0 then [] else Accumulators(b.decls) + BoundaryTmps(b, cuts, p)
  {
    hide Words, BoundaryTmps, Filter, Accumulators, MaskReads, TailPart;
    var words, part := Words(TailPart(b, cuts, p)), TailPart(b, cuts, p);
    var accs, masks := Accumulators(b.decls), Reads(Filter(MaskReads(b.decls), Words(TailPart(b, cuts, p))));
    if cuts == [] {
      UncutTail(b);
      lets, popped, inputs, used := PRELUDE + b.decls, [], [], set c | c in b.columns;
    } else if p == 0 {
      lets, popped, inputs, used := PRELUDE + Zeros(accs), [], masks, words;
      Regroup(PRELUDE, Zeros(accs), masks, [ReadMasks(b.columns, words, {})], part);
    } else {
      lets, popped, used := if ColumnSize in words then PRELUDE else [LetClaimedSum], accs + BoundaryTmps(b, cuts, p), words;
      inputs := [CarryEmpty] + masks;
      Regroup(lets, Pops(popped) + [CarryEmpty], masks, [ReadMasks(b.columns, words, {})], part);
      assert lets + (Pops(popped) + [CarryEmpty]) + masks == lets + Pops(popped) + inputs;
    }
  }

  lemma UncutTail(b: EvalBody)
    ensures TailPart(b, [], 0) == b.tail
  {
    assert Bounds(b, []) == [0, |b.tail|];
  }

  lemma Regroup(lets: seq<Stmt>, mid: seq<Stmt>, masks: seq<Stmt>, destructure: seq<Stmt>, part: seq<Stmt>)
    ensures lets + (mid + (masks + destructure)) + part == lets + mid + masks + destructure + part
  {
  }

  /** What the parts' texts have of each kind is what their blocks have. */
  lemma PartOnly(b: EvalBody, cuts: seq<nat>, p: nat, which: Stmt -> bool)
    requires ValidCuts(b, cuts) && p <= |cuts| && ForkA(b, cuts).Some? && !which(LetColumnSize) && !which(LetLogSize)
    ensures |ForkA(b, cuts).value| == |cuts| + 1
    ensures Only(ForkA(b, cuts).value[p].stmts, which) == Only(Blocks(b, cuts, p), which)
  {
    hide Only, Strip, Blocks, Packs;
    StrippedOnly(Blocks(b, cuts, p), which);
  }

  lemma TailPartIs(b: EvalBody, cuts: seq<nat>, p: nat)
    requires ValidCuts(b, cuts) && p <= |cuts|
    ensures (if p == 0 then 0 else cuts[p - 1]) <= (if p == |cuts| then |b.tail| else cuts[p]) <= |b.tail|
    ensures TailPart(b, cuts, p) == b.tail[if p == 0 then 0 else cuts[p - 1]..if p == |cuts| then |b.tail| else cuts[p]]
    ensures forall s :: s in TailPart(b, cuts, p) ==> s in b.tail
  {
    BoundsOrdered(b, cuts);
    var r := Bounds(b, cuts);
    assert r[p] == (if p == 0 then 0 else cuts[p - 1]) && r[p + 1] == if p == |cuts| then |b.tail| else cuts[p];
  }

  /** Which tail statements a part gets: those from the cut before it to the cut
      behind it. */
  lemma PartStatements(b: EvalBody, cuts: seq<nat>, p: nat)
    requires WellFormed(b) && ValidCuts(b, cuts) && p <= |cuts| && ForkA(b, cuts).Some?
    ensures |ForkA(b, cuts).value| == |cuts| + 1
    ensures (if p == 0 then 0 else cuts[p - 1]) <= (if p == |cuts| then |b.tail| else cuts[p]) <= |b.tail|
    ensures Only(ForkA(b, cuts).value[p].stmts, IsCompute)
            == b.tail[if p == 0 then 0 else cuts[p - 1]..if p == |cuts| then |b.tail| else cuts[p]]
  {
    hide Only, Strip, Blocks, Packs, TailPart, ForkA;
    PartOnly(b, cuts, p, IsCompute);
    TailPartIs(b, cuts, p);
    var lets, popped, inputs, used := BlocksText(b, cuts, p);
    var pre, part := lets + Pops(popped) + inputs + [ReadMasks(b.columns, used, {})], TailPart(b, cuts, p);
    assert pre + part + [] == Blocks(b, cuts, p);
    OnlyBetween(pre, part, [], IsCompute);
  }

  /** Each part destructures the trace once, into exactly the columns its own tail
      statements mention; all of them, where nothing is cut. */
  lemma PartColumns(b: EvalBody, cuts: seq<nat>, p: nat) returns (used: set<Name>)
    requires WellFormed(b) && ValidCuts(b, cuts) && p <= |cuts| && ForkA(b, cuts).Some?
    ensures |ForkA(b, cuts).value| == |cuts| + 1
    ensures Only(ForkA(b, cuts).value[p].stmts, IsDestructure) == [ReadMasks(b.columns, used, {})]
    ensures (if p == 0 then 0 else cuts[p - 1]) <= (if p == |cuts| then |b.tail| else cuts[p]) <= |b.tail|
    ensures var part := b.tail[if p == 0 then 0 else cuts[p - 1]..if p == |cuts| then |b.tail| else cuts[p]];
            forall c :: c in b.columns ==> (c in used <==> cuts == [] || c in Words(part))
  {
    hide Only, Strip, Blocks, Packs, TailPart, ForkA;
    PartOnly(b, cuts, p, IsDestructure);
    TailPartIs(b, cuts, p);
    var lets, popped, inputs, words := BlocksText(b, cuts, p);
    used := words;
    OnlyBetween(lets + Pops(popped) + inputs, [ReadMasks(b.columns, used, {})], TailPart(b, cuts, p), IsDestructure);
  }

  /** What is handed on: `claimed_sum`, the accumulators, and, in the order they are
      first defined, the names defined before the cut and mentioned behind it. The
      next part pops exactly these, behind `claimed_sum`, and the last part hands on
      the seam. */
  lemma PartCarry(b: EvalBody, cuts: seq<nat>, p: nat) returns (tmps: seq<Name>)
    requires WellFormed(b) && ValidCuts(b, cuts) && p < |cuts| && ForkA(b, cuts).Some?
    ensures |ForkA(b, cuts).value| == |cuts| + 1 && cuts[p] <= |b.tail|
    ensures var parts := ForkA(b, cuts).value;
            && parts[p].packs == [ClaimedSum] + (Accumulators(b.decls) + tmps)
            && Only(parts[p + 1].stmts, IsPop) == Pops(Accumulators(b.decls) + tmps)
            && parts[|cuts|].packs == [ClaimedSum] + b.seam
    ensures InOrder(DefinedIn(b.tail[..cuts[p]]), tmps)
    ensures forall n :: n in tmps <==>
              && n in DefinedIn(b.tail[..cuts[p]]) && n in Words(b.tail[cuts[p]..])
              && n !in {LogSize, ClaimedSum, ColumnSize} && n !in Accumulators(b.decls) && n !in b.columns
  {
    tmps := BoundaryTmps(b, cuts, p + 1);
    CarryNames(b, cuts, p);
    hide Only, Strip, Blocks, TailPart, BoundaryTmps, InOrder, Words, DefinedIn, Accumulators, Bounds;
    PartPops(b, cuts, p + 1);
    assert [ClaimedSum] + Accumulators(b.decls) + tmps == [ClaimedSum] + (Accumulators(b.decls) + tmps);
  }

  lemma PartPops(b: EvalBody, cuts: seq<nat>, p: nat)
    requires WellFormed(b) && ValidCuts(b, cuts) && 0 < p <= |cuts| && ForkA(b, cuts).Some?
    ensures |ForkA(b, cuts).value| == |cuts| + 1
    ensures Only(ForkA(b, cuts).value[p].stmts, IsPop) == Pops(Accumulators(b.decls) + BoundaryTmps(b, cuts, p))
  {
    hide Only, Strip, Blocks, TailPart, BoundaryTmps, Words, Accumulators, ForkA, Bounds;
    PartOnly(b, cuts, p, IsPop);
    TailPartIs(b, cuts, p);
    var lets, popped, inputs, used := BlocksText(b, cuts, p);
    var post := inputs + [ReadMasks(b.columns, used, {})] + TailPart(b, cuts, p);
    assert lets + Pops(popped) + post == Blocks(b, cuts, p);
    OnlyBetween(lets, Pops(popped), post, IsPop);
  }

  lemma CarryNames(b: EvalBody, cuts: seq<nat>, p: nat)
    requires ValidCuts(b, cuts) && p < |cuts|
    ensures cuts[p] <= |b.tail| && InOrder(DefinedIn(b.tail[..cuts[p]]), BoundaryTmps(b, cuts, p + 1))
    ensures forall n :: n in BoundaryTmps(b, cuts, p + 1) <==>
              && n in DefinedIn(b.tail[..cuts[p]]) && n in Words(b.tail[cuts[p]..])
              && n !in {LogSize, ClaimedSum, ColumnSize} && n !in Accumulators(b.decls) && n !in b.columns
  {
    hide InOrder, Words, DefinedIn, Collect;
    BoundsOrdered(b, cuts);
    assert Bounds(b, cuts)[p + 1] == cuts[p];
    var names, after := DefinedIn(Before(b, cuts, p + 1)), Words(Rest(b, cuts, p + 1));
    CollectMembers(names, after, NotCarried(b), []);
    CollectsInOrder(names, after, NotCarried(b));
  }

  /** `fork_a`'s loop over the parts. Part p gets the tail statements from cut p - 1
      to cut p, and no others. */
  method EmitParts(b: EvalBody, cuts: seq<nat>) returns (r: Option<seq<Part>>)
    requires ValidCuts(b, cuts)
    ensures r == ForkA(b, cuts)
    ensures r.Some? ==> |r.value| == |cuts| + 1
    ensures r.Some? && WellFormed(b) ==>
              forall p :: 0 <= p <= |cuts| ==>
                var lo, hi := if p == 0 then 0 else cuts[p - 1], if p == |cuts| then |b.tail| else cuts[p];
                lo <= hi <= |b.tail| && Only(r.value[p].stmts, IsCompute) == b.tail[lo..hi]
  {
    hide Strip, Blocks, Packs, Only;
    var parts: seq<Part> := [];
    for p := 0 to |cuts| + 1
      invariant |parts| == p
      invariant forall q :: 0 <= q < p ==>
                  Strip(Blocks(b, cuts, q)).Done? && parts[q] == Part(Strip(Blocks(b, cuts, q)).stmts, Packs(b, cuts, q))
    {
      var stripped := StripUnusedPrelude(Blocks(b, cuts, p));
      if stripped.Forever? {
        return None;
      }
      parts := parts + [Part(stripped.stmts, Packs(b, cuts, p))];
    }
    assert ForkA(b, cuts).Some? && parts == ForkA(b, cuts).value;
    if WellFormed(b) {
      forall p | 0 <= p <= |cuts|
        ensures var lo, hi := if p == 0 then 0 else cuts[p - 1], if p == |cuts| then |b.tail| else cuts[p];
                lo <= hi <= |b.tail| && Only(parts[p].stmts, IsCompute) == b.tail[lo..hi]
      {
        PartStatements(b, cuts, p);
      }
    }
    return Some(parts);
  }

  // --- running ------------------------------------------------------------------------

  datatype Flow<V> = Flow(carry: seq<V>, sum: V, trace: seq<V>, marked: set<Name>)

  function Entry<V>(component: V, randomCoeff: V, f: Flow<V>): State<V> {
    State(map[Component := component, RandomCoeff := randomCoeff, Sum := f.sum], f.carry, f.trace, f.marked)
  }

  function Leave<V>(st: Option<State<V>>, packs: seq<Name>): Option<Flow<V>> {
    match st
    case None => None
    case Some(s) =>
      if Bound(s.env, packs) && Sum in s.env
      then Some(Flow(Lookup(s.env, packs), s.env[Sum], s.trace, s.marked))
      else None
  }

  /** The family wrappers from part p on: each rebuilds the Component from the
      first carried value; only the last part's trace reads are kept. */
  function RunParts<V>(m: Meaning<V>, parts: seq<Part>, p: nat, component: V, randomCoeff: V, f: Flow<V>)
    : Option<Flow<V>>
    requires p <= |parts|
    decreases |parts| - p
  {
    if p == |parts| then Some(f)
    else if p > 0 && f.carry == [] then None
    else
      var c := if p == 0 then component else m.rebuild(f.carry[0]);
      var g := if p == 0 then f else f.(carry := f.carry[1..]);
      match Leave(Exec(m, parts[p].stmts, Entry(c, randomCoeff, g)), parts[p].packs)
      case None => None
      case Some(h) =>
        RunParts(m, parts, p + 1, component, randomCoeff, if p + 1 == |parts| then h else h.(trace := f.trace))
  }

  function RunUncut<V>(m: Meaning<V>, b: EvalBody, component: V, randomCoeff: V, f: Flow<V>): Option<Flow<V>> {
    Leave(Exec(m, Head(b) + b.tail, Entry(component, randomCoeff, f)), [ClaimedSum] + b.seam)
  }

  // --- reading the inputs again --------------------------------------------------------

  /** The value every column name stands for after the full destructure. */
  function ColumnValues<V>(m: Meaning<V>, b: EvalBody, trace: seq<V>): map<Name, V>
    requires |b.columns| <= |trace|
  {
    Unbox(m, map[], b.columns, trace[..|b.columns|], (set c | c in b.columns), {})
  }

  /** The preprocessed and trace names a part with `words` reads. */
  function InputNames(b: EvalBody, words: set<Name>): set<Name> {
    set n | n in words && (n in MaskReads(b.decls) || n in b.columns)
  }

  /** `env` with the inputs among `words` read again. */
  function Refresh<V>(m: Meaning<V>, b: EvalBody, words: set<Name>, trace: seq<V>, env: map<Name, V>): map<Name, V>
    requires |b.columns| <= |trace|
  {
    map n | n in env ::
      if n in words && n in MaskReads(b.decls) then m.preprocessed(n)
      else if n in words && n in b.columns && n in ColumnValues(m, b, trace) then ColumnValues(m, b, trace)[n]
      else env[n]
  }

  function Reread<V>(m: Meaning<V>, b: EvalBody, cuts: seq<nat>, p: nat, trace: seq<V>, u: State<V>): State<V>
    requires ValidCuts(b, cuts) && p <= |cuts| && |b.columns| <= |trace|
  {
    if p == 0 then u else u.(env := Refresh(m, b, Words(TailPart(b, cuts, p)), trace, u.env))
  }

  /** The uncut tail from part p on, except that every part after the first
      starts by reading the inputs it mentions again. */
  function RunReread<V>(m: Meaning<V>, b: EvalBody, cuts: seq<nat>, p: nat, trace: seq<V>, u: State<V>): Option<State<V>>
    requires ValidCuts(b, cuts) && p <= |cuts| && |b.columns| <= |trace|
    decreases |cuts| - p
  {
    match Exec(m, TailPart(b, cuts, p), Reread(m, b, cuts, p, trace, u))
    case None => None
    case Some(v) => if p == |cuts| then Some(v) else RunReread(m, b, cuts, p + 1, trace, v)
  }

  /** Later parts define `log_size` only together with `column_size`. */
  predicate LogSizeThroughColumnSize(b: EvalBody, cuts: seq<nat>)
    requires ValidCuts(b, cuts)
  {
    forall p :: 0 < p <= |cuts| ==>
      (LogSize in Words(TailPart(b, cuts, p)) ==> ColumnSize in Words(TailPart(b, cuts, p)))
  }
}
