/**
 When reading the inputs again at a boundary changes what the parts compute.

 A tail statement may bind a trace column or a preprocessed name again; a later
 part that mentions the name reads it from the trace and undoes that. `Stale`
 follows in the text which names then hold another value than in the uncut run.
 The parts compute the uncut run's `sum` and seam exactly when none of these is
 stale at the end: under every meaning if none is, and under no meaning free
 enough to tell values apart if one is.
 */
module TraceReread {
  import opened Outcomes
  import opened EvalMachine
  import opened TraceSplit
  import opened TraceSplitProof

  // --- the names a cut gives another value ---------------------------------------

  predicate Touches(stale: set<Name>, s: Stmt) {
    s.Compute? && exists n :: n in s.inputs + s.updates && n in stale
  }

  function Written(s: Stmt): set<Name> {
    if s.Compute? then set n | n in s.binds + s.updates else {}
  }

  /** The stale names after `stmts`: what a statement writes is stale exactly
      when something it reads is. */
  function StaleAfter(stale: set<Name>, stmts: seq<Stmt>): set<Name>
    decreases stmts
  {
    if stmts == [] then stale
    else
      var s := stmts[0];
      StaleAfter(if Touches(stale, s) then stale + Written(s) else stale - Written(s), stmts[1..])
  }

  /** The stale names at the boundary before part p. */
  function StaleBefore(b: EvalBody, cuts: seq<nat>, p: nat): set<Name>
    requires ValidCuts(b, cuts) && p <= |cuts| + 1
    decreases p, 0
  {
    if p == 0 then {} else StaleAfter(StaleAt(b, cuts, p - 1), TailPart(b, cuts, p - 1))
  }

  /** The stale names once part p has read its inputs. */
  function StaleAt(b: EvalBody, cuts: seq<nat>, p: nat): set<Name>
    requires ValidCuts(b, cuts) && p <= |cuts|
    decreases p, 1
  {
    if p == 0 then {}
    else StaleOnReading(b, Words(TailPart(b, cuts, p)), DefinedIn(Before(b, cuts, p)), StaleBefore(b, cuts, p))
  }

  /** Of the inputs a part reads, those the tail has bound again are stale. */
  function StaleOnReading(b: EvalBody, words: set<Name>, rebound: seq<Name>, stale: set<Name>): set<Name> {
    (stale - InputNames(b, words)) + set n | n in InputNames(b, words) && n in rebound
  }

  /** Nothing handed to half B is stale. */
  predicate Clean(b: EvalBody, cuts: seq<nat>)
    requires ValidCuts(b, cuts)
  {
    forall n :: n in [Sum] + Packs(b, cuts, |cuts|) ==> n !in StaleBefore(b, cuts, |cuts| + 1)
  }

  lemma StaleStep(b: EvalBody, cuts: seq<nat>, p: nat)
    requires ValidCuts(b, cuts) && p <= |cuts|
    ensures StaleBefore(b, cuts, p + 1) == StaleAfter(StaleAt(b, cuts, p), TailPart(b, cuts, p))
    ensures forall n :: n in StaleBefore(b, cuts, p) && n !in b.columns && n !in MaskReads(b.decls) ==> n in StaleAt(b, cuts, p)
    ensures p > 0 ==> forall n :: n in InputNames(b, Words(TailPart(b, cuts, p))) && n in DefinedIn(Before(b, cuts, p))
                                  ==> n in StaleAt(b, cuts, p)
  {
    hide Words, StaleAfter, TailPart, Before, DefinedIn;
  }

  // --- two environments that differ in the stale names -----------------------------

  /** Operations are injective in what they read and never give back a value
      read from the trace or a preprocessed column. */
  ghost predicate Free<V(!new)>(m: Meaning<V>) {
    && (forall o: nat, a: seq<V>, k: int, o': nat, a': seq<V>, k': int :: m.op(o, a, k) == m.op(o', a', k') ==> a == a')
    && (forall o: nat, a: seq<V>, k: int, v: V :: m.op(o, a, k) != m.current(v))
    && (forall o: nat, a: seq<V>, k: int, n: Name :: m.op(o, a, k) != m.preprocessed(n))
  }

  /** `e` and `u` agree outside `stale`, and if `free` they differ all over it. */
  ghost predicate Differ<V>(free: bool, stale: set<Name>, e: map<Name, V>, u: map<Name, V>) {
    && e.Keys == u.Keys && stale <= u.Keys
    && (forall n :: n in u && n !in stale ==> e[n] == u[n])
    && (free ==> forall n :: n in stale ==> e[n] != u[n])
  }

  ghost predicate Apart<V>(free: bool, stale: set<Name>, e: State<V>, u: State<V>) {
    Differ(free, stale, e.env, u.env) && e == u.(env := e.env)
  }

  lemma {:induction false} BindAllSame<V>(e: map<Name, V>, u: map<Name, V>, names: seq<Name>, values: seq<V>)
    requires |names| == |values|
    ensures forall n :: n in names ==> n in BindAll(e, names, values) && n in BindAll(u, names, values)
                                       && BindAll(e, names, values)[n] == BindAll(u, names, values)[n]
    decreases names
  {
    BindAllKeys(e, names, values);
    BindAllKeys(u, names, values);
    if names != [] {
      assert names == [names[0]] + names[1..];
      BindAllSame(e[names[0] := values[0]], u[names[0] := values[0]], names[1..], values[1..]);
      BindAllKeys(e[names[0] := values[0]], names[1..], values[1..]);
      BindAllKeys(u[names[0] := values[0]], names[1..], values[1..]);
    }
  }

  lemma {:induction false} BindAllDiffer<V>(e: map<Name, V>, u: map<Name, V>, names: seq<Name>, xs: seq<V>, ys: seq<V>)
    requires |names| == |xs| == |ys| && forall k :: 0 <= k < |xs| ==> xs[k] != ys[k]
    ensures forall n :: n in names ==> n in BindAll(e, names, xs) && n in BindAll(u, names, ys)
                                       && BindAll(e, names, xs)[n] != BindAll(u, names, ys)[n]
    decreases names
  {
    BindAllKeys(e, names, xs);
    BindAllKeys(u, names, ys);
    if names != [] {
      assert names == [names[0]] + names[1..];
      BindAllDiffer(e[names[0] := xs[0]], u[names[0] := ys[0]], names[1..], xs[1..], ys[1..]);
      BindAllKeys(e[names[0] := xs[0]], names[1..], xs[1..]);
      BindAllKeys(u[names[0] := ys[0]], names[1..], ys[1..]);
    }
  }

  /** What a statement computes from arguments that differ, differs. */
  lemma OutputsDiffer<V(!new)>(m: Meaning<V>, s: Stmt, stale: set<Name>, e: map<Name, V>, u: map<Name, V>)
    requires s.Compute? && Free(m) && Differ(true, stale, e, u) && Touches(stale, s)
    requires Bound(u, s.inputs) && Bound(u, s.updates)
    ensures Bound(e, s.inputs) && Bound(e, s.updates)
    ensures forall k :: 0 <= k < |s.binds + s.updates| ==> Outputs(m, s, e)[k] != Outputs(m, s, u)[k]
  {
    var names := s.inputs + s.updates;
    var n :| n in names && n in stale;
    var i :| 0 <= i < |names| && names[i] == n;
    assert Lookup(e, names)[i] != Lookup(u, names)[i];
  }

  lemma OutputsSame<V>(m: Meaning<V>, s: Stmt, free: bool, stale: set<Name>, e: map<Name, V>, u: map<Name, V>)
    requires s.Compute? && Differ(free, stale, e, u) && !Touches(stale, s)
    requires Bound(u, s.inputs) && Bound(u, s.updates)
    ensures Bound(e, s.inputs) && Bound(e, s.updates)
    ensures Outputs(m, s, e) == Outputs(m, s, u)
  {
    assert Lookup(e, s.inputs + s.updates) == Lookup(u, s.inputs + s.updates);
  }

  lemma StepApart<V(!new)>(m: Meaning<V>, s: Stmt, free: bool, stale: set<Name>, e: State<V>, u: State<V>)
    requires s.Compute? && Apart(free, stale, e, u) && (free ==> Free(m))
    ensures Step(m, s, e).None? <==> Step(m, s, u).None?
    ensures Step(m, s, u).Some? ==>
              Apart(free, if Touches(stale, s) then stale + Written(s) else stale - Written(s), Step(m, s, e).value, Step(m, s, u).value)
  {
    hide Free, Outputs, Touches;
    if Bound(u.env, s.inputs) && Bound(u.env, s.updates) {
      var names := s.binds + s.updates;
      var x, y := Outputs(m, s, e.env), Outputs(m, s, u.env);
      BindAllKeys(e.env, names, x);
      BindAllKeys(u.env, names, y);
      var e', u' := BindAll(e.env, names, x), BindAll(u.env, names, y);
      if !Touches(stale, s) {
        OutputsSame(m, s, free, stale, e.env, u.env);
        BindAllSame(e.env, u.env, names, x);
        assert Differ(free, stale - Written(s), e', u');
      } else {
        if free {
          OutputsDiffer(m, s, stale, e.env, u.env);
          BindAllDiffer(e.env, u.env, names, x, y);
        }
        assert Differ(free, stale + Written(s), e', u');
      }
    }
  }

  lemma {:induction false} ExecApart<V(!new)>(m: Meaning<V>, stmts: seq<Stmt>, free: bool, stale: set<Name>, e: State<V>, u: State<V>)
    requires forall s :: s in stmts ==> s.Compute?
    requires Apart(free, stale, e, u) && (free ==> Free(m))
    ensures Exec(m, stmts, e).None? <==> Exec(m, stmts, u).None?
    ensures Exec(m, stmts, u).Some? ==>
              Apart(free, StaleAfter(stale, stmts), Exec(m, stmts, e).value, Exec(m, stmts, u).value)
    decreases stmts
  {
    hide Free, Apart, Step;
    if stmts != [] {
      var s := stmts[0];
      StepApart(m, s, free, stale, e, u);
      if Step(m, s, u).Some? {
        var next := if Touches(stale, s) then stale + Written(s) else stale - Written(s);
        ExecApart(m, stmts[1..], free, next, Step(m, s, e).value, Step(m, s, u).value);
      }
    }
  }

  // --- what the inputs hold in the uncut run ---------------------------------------

  ghost predicate Computed<V(!new)>(m: Meaning<V>, v: V) {
    exists o: nat, a: seq<V>, k: int :: v == m.op(o, a, k)
  }

  ghost predicate FromTrace<V(!new)>(m: Meaning<V>, v: V) {
    exists x: V :: v == m.current(x)
  }

  /** An input the tail has not bound again has its fresh value; one it has
      bound again holds what some statement computed. */
  ghost predicate InputsHold<V(!new)>(m: Meaning<V>, b: EvalBody, rebound: seq<Name>, trace: seq<V>, u: map<Name, V>)
    requires |b.columns| <= |trace|
  {
    && (forall n :: n in MaskReads(b.decls) || n in b.columns ==> n in u)
    && (forall n :: n in MaskReads(b.decls) && n !in rebound ==> u[n] == m.preprocessed(n))
    && (forall c :: c in b.columns && c !in rebound ==> c in ColumnValues(m, b, trace) && u[c] == ColumnValues(m, b, trace)[c])
    && (forall n :: (n in MaskReads(b.decls) || n in b.columns) && n in rebound ==> Computed(m, u[n]))
  }

  lemma {:induction false} BindAllValues<V>(env: map<Name, V>, names: seq<Name>, values: seq<V>)
    requires |names| == |values|
    ensures forall n :: n in names ==> n in BindAll(env, names, values) && BindAll(env, names, values)[n] in values
    decreases names
  {
    BindAllKeys(env, names, values);
    if names != [] {
      assert names == [names[0]] + names[1..] && values == [values[0]] + values[1..];
      BindAllValues(env[names[0] := values[0]], names[1..], values[1..]);
      BindAllKeys(env[names[0] := values[0]], names[1..], values[1..]);
    }
  }

  lemma OutputsComputed<V(!new)>(m: Meaning<V>, s: Stmt, env: map<Name, V>)
    requires s.Compute? && Bound(env, s.inputs) && Bound(env, s.updates)
    ensures forall v :: v in Outputs(m, s, env) ==> Computed(m, v)
  {
    var args := Lookup(env, s.inputs + s.updates);
    forall k | 0 <= k < |s.binds + s.updates| ensures Computed(m, Outputs(m, s, env)[k]) {
      assert Outputs(m, s, env)[k] == m.op(s.op, args, k);
    }
  }

  lemma StepInputs<V(!new)>(m: Meaning<V>, b: EvalBody, rebound: seq<Name>, trace: seq<V>, s: Stmt, u: State<V>)
    requires |b.columns| <= |trace| && InputsHold(m, b, rebound, trace, u.env)
    requires s.Compute? && forall x :: x in s.updates ==> x !in b.columns && x !in MaskReads(b.decls)
    ensures Step(m, s, u).Some? ==> InputsHold(m, b, rebound + s.binds, trace, Step(m, s, u).value.env)
  {
    hide Computed, ColumnValues, Outputs;
    if Step(m, s, u).Some? {
      var names, values := s.binds + s.updates, Outputs(m, s, u.env);
      BindAllKeys(u.env, names, values);
      BindAllValues(u.env, names, values);
      OutputsComputed(m, s, u.env);
    }
  }

  lemma {:induction false} ExecInputs<V(!new)>(m: Meaning<V>, b: EvalBody, rebound: seq<Name>, trace: seq<V>, stmts: seq<Stmt>, u: State<V>)
    requires |b.columns| <= |trace| && InputsHold(m, b, rebound, trace, u.env)
    requires forall s :: s in stmts ==> s.Compute? && forall x :: x in s.updates ==> x !in b.columns && x !in MaskReads(b.decls)
    ensures Exec(m, stmts, u).Some? ==> InputsHold(m, b, rebound + DefinedIn(stmts), trace, Exec(m, stmts, u).value.env)
    decreases stmts
  {
    hide InputsHold, Step;
    if stmts == [] {
      assert rebound + [] == rebound;
    } else {
      StepInputs(m, b, rebound, trace, stmts[0], u);
      if Step(m, stmts[0], u).Some? {
        ExecInputs(m, b, rebound + stmts[0].binds, trace, stmts[1..], Step(m, stmts[0], u).value);
        assert rebound + stmts[0].binds + DefinedIn(stmts[1..]) == rebound + DefinedIn(stmts);
      }
    }
  }

  lemma {:induction false} UnboxFromTrace<V(!new)>(m: Meaning<V>, env: map<Name, V>, columns: seq<Name>, masks: seq<V>, used: set<Name>)
    requires |columns| == |masks| && forall n :: n in env ==> FromTrace(m, env[n])
    ensures forall n :: n in Unbox(m, env, columns, masks, used, {}) ==> FromTrace(m, Unbox(m, env, columns, masks, used, {})[n])
    decreases columns
  {
    if columns != [] {
      var c := columns[0];
      var next := if c in used then env[c := m.current(masks[0])] else env;
      UnboxFromTrace(m, next, columns[1..], masks[1..], used);
    }
  }

  lemma FreshIsNotComputed<V(!new)>(m: Meaning<V>, v: V)
    requires Free(m) && Computed(m, v)
    ensures !FromTrace(m, v) && forall n :: v != m.preprocessed(n)
  {
  }

  /** Reading the inputs again makes the rebound ones stale and the others not. */
  lemma RefreshApart<V(!new)>(m: Meaning<V>, b: EvalBody, free: bool, words: set<Name>, rebound: seq<Name>, stale: set<Name>,
                              trace: seq<V>, e: map<Name, V>, u: map<Name, V>)
    requires WellFormed(b) && |b.columns| <= |trace| && (free ==> Free(m)) && BaseNames(b) <= u.Keys
    requires Differ(free, stale, e, u) && InputsHold(m, b, rebound, trace, u)
    ensures Differ(free, StaleOnReading(b, words, rebound, stale), Refresh(m, b, words, trace, e), u)
  {
    hide Free, Computed, FromTrace, WellFormed, Refresh, ColumnValues, BaseNames;
    var w, next := Refresh(m, b, words, trace, e), StaleOnReading(b, words, rebound, stale);
    RefreshFacts(m, b, words, trace, e);
    UnboxFromTrace(m, map[], b.columns, trace[..|b.columns|], (set c | c in b.columns));
    InColumnValues(m, b, trace);
    forall n | n in next && free ensures w[n] != u[n] {
      if n in InputNames(b, words) {
        FreshIsNotComputed(m, u[n]);
      }
    }
  }

  lemma InColumnValues<V(!new)>(m: Meaning<V>, b: EvalBody, trace: seq<V>)
    requires |b.columns| <= |trace|
    ensures forall n :: n in ColumnValues(m, b, trace) ==> FromTrace(m, ColumnValues(m, b, trace)[n])
  {
    UnboxFromTrace(m, map[], b.columns, trace[..|b.columns|], (set c | c in b.columns));
  }

  // --- whole runs --------------------------------------------------------------------

  lemma TailParts(b: EvalBody, cuts: seq<nat>, p: nat)
    requires WellFormed(b) && ValidCuts(b, cuts) && p <= |cuts|
    ensures forall s :: s in TailPart(b, cuts, p) ==> s.Compute? && forall x :: x in s.updates ==> x !in b.columns && x !in MaskReads(b.decls)
  {
    PartsOfTail(b, cuts, p);
    AccumulatorsApart(b);
  }

  lemma RereadStarts<V(!new)>(m: Meaning<V>, b: EvalBody, cuts: seq<nat>, p: nat, free: bool, trace: seq<V>, e: State<V>, u: State<V>)
    requires WellFormed(b) && ValidCuts(b, cuts) && p <= |cuts| && |b.columns| <= |trace| && (free ==> Free(m))
    requires Apart(free, StaleBefore(b, cuts, p), e, u) && BaseNames(b) <= u.env.Keys
    requires InputsHold(m, b, DefinedIn(Before(b, cuts, p)), trace, u.env)
    ensures Apart(free, StaleAt(b, cuts, p), Reread(m, b, cuts, p, trace, e), u)
  {
    hide WellFormed, Free, InputsHold, Differ, Refresh, BaseNames, Words, TailPart, Before, DefinedIn, StaleAfter, StaleOnReading;
    if p > 0 {
      RefreshApart(m, b, free, Words(TailPart(b, cuts, p)), DefinedIn(Before(b, cuts, p)), StaleBefore(b, cuts, p), trace, e.env, u.env);
    }
  }

  /** The run that reads its inputs again against the uncut run, from part p on. */
  lemma {:induction false} RereadApart<V(!new)>(m: Meaning<V>, b: EvalBody, cuts: seq<nat>, p: nat, free: bool,
                                                trace: seq<V>, e: State<V>, u: State<V>)
    requires WellFormed(b) && ValidCuts(b, cuts) && p <= |cuts| && |b.columns| <= |trace| && (free ==> Free(m))
    requires Apart(free, StaleBefore(b, cuts, p), e, u) && BaseNames(b) <= u.env.Keys
    requires InputsHold(m, b, DefinedIn(Before(b, cuts, p)), trace, u.env)
    ensures var r, v := RunReread(m, b, cuts, p, trace, e), Exec(m, Rest(b, cuts, p), u);
            (r.None? <==> v.None?) && (v.Some? ==> Apart(free, StaleBefore(b, cuts, |cuts| + 1), r.value, v.value))
    decreases |cuts| - p
  {
    hide WellFormed, Free, InputsHold, Apart, Reread, BaseNames, Words, TailPart, Rest, Before, DefinedIn, StaleAfter, StaleAt, StaleBefore;
    var part := TailPart(b, cuts, p);
    var e', before := Reread(m, b, cuts, p, trace, e), DefinedIn(Before(b, cuts, p));
    RereadStarts(m, b, cuts, p, free, trace, e, u);
    TailParts(b, cuts, p);
    PartsOfTail(b, cuts, p);
    ExecConcat(m, part, Rest(b, cuts, p + 1), u);
    ExecApart(m, part, free, StaleAt(b, cuts, p), e', u);
    ExecInputs(m, b, before, trace, part, u);
    if Exec(m, part, u).Some? {
      var next, v := Exec(m, part, e').value, Exec(m, part, u).value;
      StaleStep(b, cuts, p);
      KeysGrow(m, part, u);
      if p < |cuts| {
        RereadApart(m, b, cuts, p + 1, free, trace, next, v);
      } else {
        NothingLeft(b, cuts);
      }
    }
  }

  lemma KeysGrow<V>(m: Meaning<V>, part: seq<Stmt>, u: State<V>)
    requires (forall s :: s in part ==> s.Compute?) && Exec(m, part, u).Some?
    ensures u.env.Keys <= Exec(m, part, u).value.env.Keys
  {
    var all := set s, x | s in part && x in s.updates :: x;
    ExecFrame(m, part, all, u);
  }

  lemma StartHolds<V(!new)>(m: Meaning<V>, b: EvalBody, component: V, randomCoeff: V, trace: seq<V>, u: map<Name, V>)
    requires |b.columns| <= |trace| && FirstValues(m, b, trace, u) && Reached(m, b, [], component, randomCoeff, u)
    ensures InputsHold(m, b, [], trace, u) && BaseNames(b) <= u.Keys
  {
    hide ColumnValues;
  }

  /** What two runs that differ in `stale` hand on. */
  lemma LeaveApart<V>(packs: seq<Name>, free: bool, stale: set<Name>, e: State<V>, u: State<V>)
    requires Apart(free, stale, e, u)
    ensures var x, y := Leave(Some(e), packs), Leave(Some(u), packs);
            && (x.Some? <==> y.Some?)
            && (x.Some? ==>
                  && ((forall n :: n in [Sum] + packs ==> n !in stale) ==> x == y)
                  && (free && (exists n :: n in [Sum] + packs && n in stale) ==> x.value.sum != y.value.sum || x.value.carry != y.value.carry))
  {
    var x, y := Leave(Some(e), packs), Leave(Some(u), packs);
    if x.Some? {
      if forall n :: n in [Sum] + packs ==> n !in stale {
        assert Lookup(e.env, packs) == Lookup(u.env, packs);
      } else if free {
        var n :| n in [Sum] + packs && n in stale;
        if n != Sum {
          var i :| 0 <= i < |packs| && packs[i] == n;
          assert Lookup(e.env, packs)[i] != Lookup(u.env, packs)[i];
        }
      }
    }
  }

  /** The emitted parts against the uncut body. */
  lemma SplitApart<V(!new)>(m: Meaning<V>, b: EvalBody, cuts: seq<nat>, free: bool, component: V, randomCoeff: V, f: Flow<V>)
    requires WellFormed(b) && ValidCuts(b, cuts) && LogSizeThroughColumnSize(b, cuts)
    requires m.rebuild(m.claimedSum(component)) == component && (free ==> Free(m))
    ensures ForkA(b, cuts).Some?
    ensures var r, g := RunParts(m, ForkA(b, cuts).value, 0, component, randomCoeff, f), RunUncut(m, b, component, randomCoeff, f);
            && (r.Some? <==> g.Some?)
            && (g.Some? && Clean(b, cuts) ==> r.value == g.value.(marked := f.marked + Marks(b, cuts)))
            && (g.Some? && !Clean(b, cuts) && free ==> r.value.sum != g.value.sum || r.value.carry != g.value.carry)
  {
    hide *;
    SplitRereads(m, b, cuts, component, randomCoeff, f);
    HeadRuns(m, b, component, randomCoeff, f);
    UncutAfterHead(m, b, component, randomCoeff, f);
    var head := Exec(m, Head(b), Entry(component, randomCoeff, f));
    if head.Some? {
      AfterHead(m, b, cuts, free, component, randomCoeff, f, head.value);
    }
  }

  lemma UncutAfterHead<V>(m: Meaning<V>, b: EvalBody, component: V, randomCoeff: V, f: Flow<V>)
    ensures RunUncut(m, b, component, randomCoeff, f)
            == match Exec(m, Head(b), Entry(component, randomCoeff, f))
               case None => None
               case Some(u) => Leave(Exec(m, b.tail, u), [ClaimedSum] + b.seam)
  {
    ExecConcat(m, Head(b), b.tail, Entry(component, randomCoeff, f));
  }

  lemma AfterHead<V(!new)>(m: Meaning<V>, b: EvalBody, cuts: seq<nat>, free: bool, component: V, randomCoeff: V, f: Flow<V>, u: State<V>)
    requires WellFormed(b) && ValidCuts(b, cuts) && |b.columns| <= |f.trace| && (free ==> Free(m))
    requires Reached(m, b, [], component, randomCoeff, u.env) && FirstValues(m, b, f.trace, u.env)
    ensures var marked := f.marked + Marks(b, cuts);
            var r, g := Finish(b, RunReread(m, b, cuts, 0, f.trace, u), marked), Leave(Exec(m, b.tail, u), [ClaimedSum] + b.seam);
            && (r.Some? <==> g.Some?)
            && (g.Some? && Clean(b, cuts) ==> r.value == g.value.(marked := marked))
            && (g.Some? && !Clean(b, cuts) && free ==> r.value.sum != g.value.sum || r.value.carry != g.value.carry)
  {
    hide WellFormed, Free, Reached, FirstValues, InputsHold, BaseNames, Differ, StaleAfter, TailPart, Exec, RunReread;
    StartHolds(m, b, component, randomCoeff, f.trace, u.env);
    WholeTail(b, cuts);
    NothingStale(free, u);
    RereadApart(m, b, cuts, 0, free, f.trace, u, u);
    var r, v := RunReread(m, b, cuts, 0, f.trace, u), Exec(m, b.tail, u);
    if v.Some? {
      LeaveApart(Packs(b, cuts, |cuts|), free, StaleBefore(b, cuts, |cuts| + 1), r.value, v.value);
    }
  }

  lemma NothingStale<V>(free: bool, u: State<V>)
    ensures Apart(free, {}, u, u) && DefinedIn([]) == []
  {
  }

  // --- the results ---------------------------------------------------------------------

  /** Main result of the A side. For every body the script accepts and every
      sorted cut list at whose end nothing handed on is stale, the script
      terminates and running the emitted parts through their carries is running
      the uncut body, whatever the operations mean: the same failure or the same
      `sum`, seam values and remaining trace. */
  lemma SplitPreserves<V(!new)>(m: Meaning<V>, b: EvalBody, cuts: seq<nat>, component: V, randomCoeff: V, f: Flow<V>)
    requires WellFormed(b) && ValidCuts(b, cuts) && LogSizeThroughColumnSize(b, cuts) && Clean(b, cuts)
    requires m.rebuild(m.claimedSum(component)) == component
    ensures ForkA(b, cuts).Some?
    ensures RunParts(m, ForkA(b, cuts).value, 0, component, randomCoeff, f)
            == match RunUncut(m, b, component, randomCoeff, f)
               case None => None
               case Some(g) => Some(g.(marked := f.marked + Marks(b, cuts)))
  {
    hide *;
    SplitApart(m, b, cuts, false, component, randomCoeff, f);
  }

  /** The condition is exact: where operations can tell values apart, a body that
      runs gives the same `sum` and seam through its parts only if nothing handed
      on is stale. */
  lemma StaleTells<V(!new)>(m: Meaning<V>, b: EvalBody, cuts: seq<nat>, component: V, randomCoeff: V, f: Flow<V>)
    requires WellFormed(b) && ValidCuts(b, cuts) && LogSizeThroughColumnSize(b, cuts) && Free(m)
    requires m.rebuild(m.claimedSum(component)) == component
    requires RunUncut(m, b, component, randomCoeff, f).Some?
    ensures ForkA(b, cuts).Some? && RunParts(m, ForkA(b, cuts).value, 0, component, randomCoeff, f).Some?
    ensures var r, g := RunParts(m, ForkA(b, cuts).value, 0, component, randomCoeff, f).value, RunUncut(m, b, component, randomCoeff, f).value;
            r.sum == g.sum && r.carry == g.carry <==> Clean(b, cuts)
  {
    hide *;
    SplitApart(m, b, cuts, true, component, randomCoeff, f);
  }

  /** Whether the cut form runs can be read off the text: given that the uncut
      body runs, the emitted parts run exactly when `log_size` is used after the
      first cut only through `column_size`. */
  lemma SplitRunsExactly<V(!new)>(m: Meaning<V>, b: EvalBody, cuts: seq<nat>, component: V, randomCoeff: V, f: Flow<V>)
    requires WellFormed(b) && ValidCuts(b, cuts)
    requires m.rebuild(m.claimedSum(component)) == component
    requires RunUncut(m, b, component, randomCoeff, f).Some?
    ensures (ForkA(b, cuts).Some? && RunParts(m, ForkA(b, cuts).value, 0, component, randomCoeff, f).Some?)
            <==> LogSizeThroughColumnSize(b, cuts)
  {
    hide *;
    if LogSizeThroughColumnSize(b, cuts) {
      SplitApart(m, b, cuts, false, component, randomCoeff, f);
    } else {
      LogSizeConditionNeeded(m, b, cuts, component, randomCoeff, f);
    }
  }

  lemma UncutMarks<V>(m: Meaning<V>, b: EvalBody, component: V, randomCoeff: V, f: Flow<V>)
    requires WellFormed(b) && RunUncut(m, b, component, randomCoeff, f).Some?
    ensures RunUncut(m, b, component, randomCoeff, f).value.marked == f.marked + set n | n in MaskReads(b.decls)
  {
    hide WellFormed, RunUncut, Head, Reached, FirstValues, Mutable;
    HeadRuns(m, b, component, randomCoeff, f);
    UncutAfterHead(m, b, component, randomCoeff, f);
    var u := Exec(m, Head(b), Entry(component, randomCoeff, f)).value;
    TailUpdates(b, b.tail);
    var v := Exec(m, b.tail, u);
    assert v.Some?;
    ExecFrame(m, b.tail, Mutable(b), u);
    assert RunUncut(m, b, component, randomCoeff, f) == Leave(v, [ClaimedSum] + b.seam);
    assert v.value.marked == u.marked;
  }

  /** The parts mark the same preprocessed columns as the uncut body exactly
      when the tail uses every preprocessed read (or it was marked before). */
  lemma SameMarksExactly<V(!new)>(m: Meaning<V>, b: EvalBody, cuts: seq<nat>, component: V, randomCoeff: V, f: Flow<V>)
    requires WellFormed(b) && ValidCuts(b, cuts) && LogSizeThroughColumnSize(b, cuts) && Clean(b, cuts) && cuts != []
    requires m.rebuild(m.claimedSum(component)) == component
    requires RunUncut(m, b, component, randomCoeff, f).Some?
    ensures ForkA(b, cuts).Some?
    ensures RunParts(m, ForkA(b, cuts).value, 0, component, randomCoeff, f) == RunUncut(m, b, component, randomCoeff, f)
            <==> forall n :: n in MaskReads(b.decls) ==> n in Words(b.tail) || n in f.marked
  {
    hide WellFormed, Clean, LogSizeThroughColumnSize, RunParts, RunUncut, ForkA, Words, MaskReads;
    SplitPreserves(m, b, cuts, component, randomCoeff, f);
    UncutMarks(m, b, component, randomCoeff, f);
    var g := RunUncut(m, b, component, randomCoeff, f).value;
    forall n | n in MaskReads(b.decls) && n !in Words(b.tail) && n !in f.marked
      ensures n in g.marked && n !in f.marked + Marks(b, cuts)
    {
    }
    if forall n :: n in MaskReads(b.decls) ==> n in Words(b.tail) || n in f.marked {
      assert g.marked == f.marked + Marks(b, cuts);
    }
  }

  // --- reading the condition off the text ------------------------------------------------

  /** No later part mentions an input the tail has bound again. */
  predicate RebindsHarmlessly(b: EvalBody, cuts: seq<nat>)
    requires ValidCuts(b, cuts)
  {
    forall p :: 0 < p <= |cuts| ==>
      InputNames(b, Words(TailPart(b, cuts, p))) !! (set n | n in DefinedIn(Before(b, cuts, p)))
  }

  lemma {:induction false} NothingStaleAfter(stmts: seq<Stmt>)
    ensures StaleAfter({}, stmts) == {}
    decreases stmts
  {
    if stmts != [] {
      var none: set<Name> := {};
      assert !Touches(none, stmts[0]) && none - Written(stmts[0]) == none;
      NothingStaleAfter(stmts[1..]);
    }
  }

  lemma {:induction false} HarmlessStale(b: EvalBody, cuts: seq<nat>, p: nat)
    requires ValidCuts(b, cuts) && RebindsHarmlessly(b, cuts) && p <= |cuts| + 1
    ensures StaleBefore(b, cuts, p) == {}
    decreases p
  {
    if p > 0 {
      HarmlessStale(b, cuts, p - 1);
      assert StaleAt(b, cuts, p - 1) == {};
      NothingStaleAfter(TailPart(b, cuts, p - 1));
    }
  }

  /** Bodies that bind no input again before a part that mentions it cut well. */
  lemma HarmlessIsClean(b: EvalBody, cuts: seq<nat>)
    requires ValidCuts(b, cuts) && RebindsHarmlessly(b, cuts)
    ensures Clean(b, cuts)
  {
    HarmlessStale(b, cuts, |cuts| + 1);
  }

  lemma {:induction false} StaleStays(stale: set<Name>, stmts: seq<Stmt>, n: Name)
    requires n in stale && n !in DefinedIn(stmts) && forall s :: s in stmts ==> s.Compute?
    ensures n in StaleAfter(stale, stmts)
    decreases stmts
  {
    if stmts != [] {
      var s := stmts[0];
      StaleStays(if Touches(stale, s) then stale + Written(s) else stale - Written(s), stmts[1..], n);
    }
  }

  lemma {:induction false} StaleConcat(stale: set<Name>, a: seq<Stmt>, c: seq<Stmt>)
    ensures StaleAfter(stale, a + c) == StaleAfter(StaleAfter(stale, a), c)
    decreases a
  {
    if a == [] {
      assert a + c == c;
    } else {
      var s := a[0];
      assert (a + c)[1..] == a[1..] + c;
      StaleConcat(if Touches(stale, s) then stale + Written(s) else stale - Written(s), a[1..], c);
    }
  }

  lemma {:induction false} NamesOfAll(stmts: seq<Stmt>, s: Stmt)
    requires s in stmts
    ensures forall n :: n in Tokens(s) ==> n in Words(stmts)
    ensures forall n :: n in DefinedNames(s) ==> n in DefinedIn(stmts)
  {
    if stmts[0] != s {
      NamesOfAll(stmts[1..], s);
    }
  }

  lemma {:induction false} DefinedAll(stmts: seq<Stmt>, all: seq<Stmt>)
    requires forall s :: s in stmts ==> s in all
    ensures forall n :: n in DefinedIn(stmts) ==> n in DefinedIn(all)
  {
    if stmts != [] {
      NamesOfAll(all, stmts[0]);
      DefinedAll(stmts[1..], all);
    }
  }

  /** What is stale at a boundary and never read from the inputs or bound stays
      so to the end. */
  lemma {:induction false} StaleToTheEnd(b: EvalBody, cuts: seq<nat>, p: nat, n: Name)
    requires WellFormed(b) && ValidCuts(b, cuts) && p <= |cuts| + 1 && n in StaleBefore(b, cuts, p)
    requires n !in DefinedIn(b.tail) && n !in b.columns && n !in MaskReads(b.decls)
    ensures n in StaleBefore(b, cuts, |cuts| + 1)
    decreases |cuts| + 1 - p
  {
    hide *;
    if p <= |cuts| {
      TailParts(b, cuts, p);
      PartsOfTail(b, cuts, p);
      DefinedAll(TailPart(b, cuts, p), b.tail);
      StaleStep(b, cuts, p);
      StaleStays(StaleAt(b, cuts, p), TailPart(b, cuts, p), n);
      StaleToTheEnd(b, cuts, p + 1, n);
    }
  }

  /** A statement that reads a stale name before its part binds it leaves what it
      updates stale at the end of the part. */
  lemma ReadsStale(stale: set<Name>, part: seq<Stmt>, k: nat, n: Name, v: Name)
    requires k < |part| && (forall s :: s in part ==> s.Compute?) && n in stale
    requires n in part[k].inputs && n !in DefinedIn(part[..k]) && v in part[k].updates && v !in DefinedIn(part)
    ensures v in StaleAfter(stale, part)
  {
    hide DefinedIn;
    var mid := StaleAfter(stale, part[..k]);
    StaleStays(stale, part[..k], n);
    assert part == part[..k] + part[k..];
    StaleConcat(stale, part[..k], part[k..]);
    DefinedAll(part[k + 1..], part);
    StaleStays(mid + Written(part[k]), part[k + 1..], v);
    StaleHead(mid, part[k..], n, part[k + 1..]);
  }

  lemma StaleHead(stale: set<Name>, stmts: seq<Stmt>, n: Name, rest: seq<Stmt>)
    requires stmts != [] && stmts[0].Compute? && n in stmts[0].inputs && n in stale && rest == stmts[1..]
    ensures StaleAfter(stale, stmts) == StaleAfter(stale + Written(stmts[0]), rest)
  {
    assert n in stmts[0].inputs + stmts[0].updates;
    assert Touches(stale, stmts[0]);
  }

  /** A later statement that updates the sum or an accumulator from an input the
      tail has bound again, before its part binds it anew, spoils the cut. */
  lemma LateReadIsNotClean(b: EvalBody, cuts: seq<nat>, p: nat, k: nat, n: Name, v: Name)
    requires WellFormed(b) && ValidCuts(b, cuts) && 0 < p <= |cuts| && k < |TailPart(b, cuts, p)|
    requires n in b.columns || n in MaskReads(b.decls)
    requires n in DefinedIn(Before(b, cuts, p)) && n !in DefinedIn(TailPart(b, cuts, p)[..k])
    requires var s := TailPart(b, cuts, p)[k]; s in b.tail && n in s.inputs && v in s.updates
    requires v !in DefinedIn(b.tail)
    ensures !Clean(b, cuts)
  {
    hide *;
    var part := TailPart(b, cuts, p);
    PartsOfTail(b, cuts, p);
    TailParts(b, cuts, p);
    ReadsInput(b, part, part[k], n);
    StaleStep(b, cuts, p);
    DefinedAll(part, b.tail);
    ReadsStale(StaleAt(b, cuts, p), part, k, n, v);
    HandedOn(b, cuts, v, part[k]);
    StaleToTheEnd(b, cuts, p + 1, v);
    NotClean(b, cuts, v);
  }

  lemma ReadsInput(b: EvalBody, part: seq<Stmt>, s: Stmt, n: Name)
    requires s in part && s.Compute? && n in s.inputs && (n in b.columns || n in MaskReads(b.decls))
    ensures n in InputNames(b, Words(part))
  {
    hide Words;
    NamesOfAll(part, s);
  }

  lemma HandedOn(b: EvalBody, cuts: seq<nat>, v: Name, s: Stmt)
    requires WellFormed(b) && ValidCuts(b, cuts) && s in b.tail && s.Compute? && v in s.updates
    ensures v in [Sum] + Packs(b, cuts, |cuts|) && v !in b.columns && v !in MaskReads(b.decls)
  {
    AccumulatorsApart(b);
  }

  lemma NotClean(b: EvalBody, cuts: seq<nat>, v: Name)
    requires ValidCuts(b, cuts) && v in [Sum] + Packs(b, cuts, |cuts|) && v in StaleBefore(b, cuts, |cuts| + 1)
    ensures !Clean(b, cuts)
  {
    hide Packs, StaleBefore;
  }

  // --- a meaning that tells values apart ---------------------------------------------------

  datatype Term =
    | Constant(k: int)
    | Input(name: Name)
    | Applied(op: nat, args: seq<Term>, k: int)
    | Wrapped(kind: nat, inner: Term)

  const TERMS: Meaning<Term> :=
    Meaning((op: nat, args: seq<Term>, k: int) => Applied(op, args, k), Constant(0), t => Wrapped(0, t), t => Wrapped(1, t),
            t => Wrapped(2, t), n => Input(n), t => Wrapped(3, t), t => Wrapped(4, t),
            (t: Term) => if t.Wrapped? && t.kind == 1 then t.inner else t)

  lemma TermsAreFree(component: Term)
    ensures Free(TERMS) && TERMS.rebuild(TERMS.claimedSum(component)) == component
  {
  }

  const C: Name := Ident("trace_1_col0")
  const REBIND: Stmt := Compute([C], [], 0, [])
  const USE: Stmt := Compute([], [Sum], 1, [C])
  const BODY: EvalBody := EvalBody([], [C], [REBIND, USE], [])

  lemma ShortBody()
    ensures WellFormed(BODY) && ValidCuts(BODY, [1]) && LogSizeThroughColumnSize(BODY, [1])
    ensures BODY.columns == [C] && BODY.seam == [] && TailPart(BODY, [1], 1) == [USE] && Before(BODY, [1], 1) == [REBIND]
    ensures DefinedIn([REBIND]) == [C] && DefinedIn([]) == [] && DefinedIn(BODY.tail) == [C]
  {
    BoundsOrdered(BODY, [1]);
    assert Bounds(BODY, [1]) == [0, 1, 2];
    assert BODY.tail[1..2] == [USE] && BODY.tail[..1] == [REBIND] && BODY.tail[1..] == [USE];
    assert TokensOf([USE][1..]) == [] && TokensOf([USE]) == [Sum, C];
    assert DefinedIn([REBIND][1..]) == [] && DefinedIn([USE][1..]) == [];
  }

  /** A body the script accepts whose two parts give another sum than the body:
      it binds a column again before the cut and adds it to the sum behind it. */
  lemma RebindingColumnBreaks(component: Term, randomCoeff: Term, f: Flow<Term>)
    requires f.trace != []
    ensures WellFormed(BODY) && ValidCuts(BODY, [1]) && ForkA(BODY, [1]).Some?
    ensures var g, r := RunUncut(TERMS, BODY, component, randomCoeff, f), RunParts(TERMS, ForkA(BODY, [1]).value, 0, component, randomCoeff, f);
            g.Some? && r.Some? && (r.value.sum != g.value.sum || r.value.carry != g.value.carry)
  {
    hide Free, Clean, RunParts, ForkA, WellFormed, LogSizeThroughColumnSize;
    ShortBody();
    LateReadIsNotClean(BODY, [1], 1, 0, C, Sum);
    TermsAreFree(component);
    BodyRuns(component, randomCoeff, f);
    StaleTells(TERMS, BODY, [1], component, randomCoeff, f);
  }

  lemma BodyRuns(component: Term, randomCoeff: Term, f: Flow<Term>)
    requires f.trace != []
    ensures RunUncut(TERMS, BODY, component, randomCoeff, f).Some?
  {
    hide *;
    ShortBody();
    HeadRuns(TERMS, BODY, component, randomCoeff, f);
    UncutAfterHead(TERMS, BODY, component, randomCoeff, f);
    var u := Exec(TERMS, Head(BODY), Entry(component, randomCoeff, f)).value;
    InScope(TERMS, BODY, component, randomCoeff, u.env);
    BodyTailRuns(u);
  }

  lemma InScope<V>(m: Meaning<V>, b: EvalBody, component: V, randomCoeff: V, env: map<Name, V>)
    requires Reached(m, b, [], component, randomCoeff, env)
    ensures Sum in env && ClaimedSum in env && forall c :: c in b.columns ==> c in env
  {
  }

  lemma BodyTailRuns(u: State<Term>)
    requires C in u.env && Sum in u.env && ClaimedSum in u.env
    ensures Leave(Exec(TERMS, BODY.tail, u), [ClaimedSum] + BODY.seam).Some?
  {
    var v := Step(TERMS, REBIND, u).value;
    BindAllKeys(u.env, [C] + [], Outputs(TERMS, REBIND, u.env));
    var w := Step(TERMS, USE, v).value;
    BindAllKeys(v.env, [] + [Sum], Outputs(TERMS, USE, v.env));
    assert BODY.tail[1..] == [USE] && [USE][1..] == [] && Exec(TERMS, [], w) == Some(w);
    assert Exec(TERMS, [USE], v) == Some(w);
  }
}
