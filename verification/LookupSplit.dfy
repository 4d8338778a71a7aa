/**
 The B side of the component splitter (scripts/split_component_evals.py,
 `fork_b`): the list of logup constraints is cut at constraint k, and only
 `claimed_sum`, the unconsumed numerators and denominators and the boundary
 column quad are handed over.
 */
module LookupSplit {
  import opened Outcomes
  import opened EvalMachine
  import opened TraceSplit

  /** One constraint: the quotient it computes and the names it reads. */
  datatype Constraint = Constraint(op: nat, inputs: seq<Name>)

  /** `values` are the seam values after `claimed_sum`. */
  datatype LookupBody = LookupBody(values: seq<Name>, columns: seq<Name>, lagged: set<Name>, constraints: seq<Constraint>)

  const QUOTIENT: Name := Ident("constraint_quotient")
  /** sum = sum * random_coeff + constraint_quotient */
  const FOLD: nat := 0

  function Pairs(constraints: seq<Constraint>): seq<Stmt> {
    if constraints == [] then []
    else
      [Compute([QUOTIENT], [], constraints[0].op, constraints[0].inputs), Compute([], [Sum], FOLD, [RandomCoeff, QUOTIENT])]
      + Pairs(constraints[1..])
  }

  function Seam(b: LookupBody): seq<Name> {
    [ClaimedSum] + b.values
  }

  /** The script takes the first half of the seam values for numerators, however
      many there are, and the rest for lookup sums. */
  function Numerators(b: LookupBody): seq<Name> {
    b.values[..|b.values| / 2]
  }

  function Sums(b: LookupBody): seq<Name> {
    b.values[|b.values| / 2..]
  }

  lemma SeamHalves(b: LookupBody)
    ensures Seam(b) == [ClaimedSum] + Numerators(b) + Sums(b)
    ensures forall n :: n in Seam(b) <==> n == ClaimedSum || n in Numerators(b) || n in Sums(b)
  {
    assert b.values == Numerators(b) + Sums(b);
  }

  predicate Distinct(s: seq<Name>) {
    s == [] || (s[0] !in s[1..] && Distinct(s[1..]))
  }

  lemma {:induction false} DistinctConcat(a: seq<Name>, c: seq<Name>)
    requires Distinct(a + c)
    ensures Distinct(a) && Distinct(c)
    ensures forall n :: n in a ==> n !in c
  {
    if a == [] {
      assert a + c == c;
    } else {
      assert (a + c)[0] == a[0] && (a + c)[1..] == a[1..] + c;
      DistinctConcat(a[1..], c);
      assert a[0] !in a[1..] && a[0] !in c;
      assert a == [a[0]] + a[1..];
    }
  }

  lemma DistinctSplit(s: seq<Name>, i: nat)
    requires Distinct(s) && i <= |s|
    ensures Distinct(s[..i]) && Distinct(s[i..])
    ensures forall c :: c in s[i..] ==> c in s && c !in s[..i]
    ensures forall c :: c in s[..i] ==> c in s
  {
    assert s == s[..i] + s[i..];
    DistinctConcat(s[..i], s[i..]);
  }

  /** The parameters and columns of `lookup_constraints`, which is all its
      constraints can name. */
  ghost predicate WellFormed(b: LookupBody) {
    && Distinct(b.columns)
    && (forall c :: c in b.columns ==> c.Ident? && c != QUOTIENT && c !in Numerators(b) && c !in Sums(b))
    && (forall n :: n in Numerators(b) || n in Sums(b) ==> n.Ident? && n != QUOTIENT)
    && (forall q, n :: q in b.constraints && n in q.inputs ==>
          || n == ClaimedSum || n == ColumnSize || n in Numerators(b) || n in Sums(b)
          || n in b.columns || (n.Prev? && n.column in b.columns))
  }

  /** How many constraints and columns half B1 gets: slices past the end are cut
      off there. */
  function Taken(b: LookupBody, k: nat): (n: nat)
    ensures n <= |b.constraints|
  {
    if k <= |b.constraints| then k else |b.constraints|
  }

  function Width(b: LookupBody, k: nat): (n: nat)
    ensures n <= |b.columns|
  {
    if 4 * k <= |b.columns| then 4 * k else |b.columns|
  }

  function Drop(s: seq<Name>, n: nat): seq<Name> {
    if n <= |s| then s[n..] else []
  }

  /** `columns[4 * k - 4 : 4 * k]`; a negative start leaves nothing. */
  function Quad(b: LookupBody, k: nat): seq<Name> {
    if k == 0 then [] else b.columns[Width(b, k - 1)..Width(b, k)]
  }

  /** The carry from half B1 to half B2. */
  function MidCarry(b: LookupBody, k: nat): seq<Name> {
    [ClaimedSum] + Drop(Numerators(b), 2 * k) + Drop(Sums(b), 2 * k) + Quad(b, k)
  }

  /** The script's asserts on the columns, numerators and sums each half reads. */
  ghost predicate ScriptAsserts(b: LookupBody, k: nat)
  {
    && (forall q, n :: q in b.constraints[..Taken(b, k)] && n in q.inputs && n in b.columns ==> n in b.columns[..Width(b, k)])
    && (forall q, n :: q in b.constraints[Taken(b, k)..] && n in q.inputs ==>
          && (n in b.columns ==> n in b.columns[Width(b, k)..] || n in Quad(b, k))
          && (n.Prev? ==> n.column in b.columns[Width(b, k)..])
          && (n in Numerators(b) ==> n in Drop(Numerators(b), 2 * k))
          && (n in Sums(b) ==> n in Drop(Sums(b), 2 * k)))
  }

  /** What the script does not assert: half B1 has no `column_size`, and its
      look-back columns are its own. */
  ghost predicate FirstHalfInScope(b: LookupBody, k: nat)
  {
    forall q, n :: q in b.constraints[..Taken(b, k)] && n in q.inputs ==>
      n != ColumnSize && (n.Prev? && n.column in b.lagged ==> n.column in b.columns[..Width(b, k)])
  }

  // --- the emitted functions -----------------------------------------------------

  function Head(names: seq<Name>, columns: seq<Name>, lagged: set<Name>): seq<Stmt> {
    Pops(names) + [CarryEmpty] + [ReadMasks(columns, (set c | c in columns), lagged)]
  }

  function Whole(b: LookupBody): seq<Stmt> {
    [LetColumnSize] + Head(Seam(b), b.columns, b.lagged) + Pairs(b.constraints)
  }

  function HalfB1(b: LookupBody, k: nat): seq<Stmt> {
    Head(Seam(b), b.columns[..Width(b, k)], b.lagged) + Pairs(b.constraints[..Taken(b, k)])
  }

  function HalfB2(b: LookupBody, k: nat): seq<Stmt> {
    [LetColumnSize] + Head(MidCarry(b, k), b.columns[Width(b, k)..], b.lagged) + Pairs(b.constraints[Taken(b, k)..])
  }

  function Min(a: nat, b: nat): nat {
    if a <= b then a else b
  }

  lemma MidCarryText(b: LookupBody, k: nat)
    ensures var width, n := Min(4 * k, |b.columns|), |b.values| / 2;
            MidCarry(b, k) == [ClaimedSum] + b.values[Min(2 * k, n)..n] + b.values[Min(n + 2 * k, |b.values|)..]
                              + (if k == 0 then [] else b.columns[Min(4 * k - 4, |b.columns|)..width])
  {
    var n := |b.values| / 2;
    assert Drop(b.values[..n], 2 * k) == b.values[Min(2 * k, n)..n];
    assert Drop(b.values[n..], 2 * k) == b.values[Min(n + 2 * k, |b.values|)..];
  }

  lemma HeadText(names: seq<Name>, columns: seq<Name>, lagged: set<Name>)
    ensures Head(names, columns, lagged) == Pops(names) + [CarryEmpty, ReadMasks(columns, (set c | c in columns), lagged)]
  {
    var unboxed := ReadMasks(columns, (set c | c in columns), lagged);
    assert [CarryEmpty] + [unboxed] == [CarryEmpty, unboxed];
  }

  lemma CutText(b: LookupBody, k: nat)
    ensures Taken(b, k) == Min(k, |b.constraints|) && Width(b, k) == Min(4 * k, |b.columns|)
  {
  }

  /** The text of the two halves: B1 has the first k constraints and 4k columns, as
      far as there are so many, B2 the rest; B2 pops what is left of the numerators
      and sums behind the first 2k of each, and the four columns before the cut. */
  lemma HalvesText(b: LookupBody, k: nat)
    ensures var taken, width, n := Min(k, |b.constraints|), Min(4 * k, |b.columns|), |b.values| / 2;
            var first, rest := b.columns[..width], b.columns[width..];
            && HalfB1(b, k) == Pops([ClaimedSum] + b.values) + [CarryEmpty, ReadMasks(first, (set c | c in first), b.lagged)]
                               + Pairs(b.constraints[..taken])
            && HalfB2(b, k) == [LetColumnSize] + (Pops(MidCarry(b, k)) + [CarryEmpty, ReadMasks(rest, (set c | c in rest), b.lagged)])
                               + Pairs(b.constraints[taken..])
            && MidCarry(b, k) == [ClaimedSum] + b.values[Min(2 * k, n)..n] + b.values[Min(n + 2 * k, |b.values|)..]
                                 + (if k == 0 then [] else b.columns[Min(4 * k - 4, |b.columns|)..width])
  {
    hide Pairs, Pops, MidCarry, Head, Taken, Width;
    MidCarryText(b, k);
    CutText(b, k);
    HeadText(Seam(b), b.columns[..Min(4 * k, |b.columns|)], b.lagged);
    HeadText(MidCarry(b, k), b.columns[Min(4 * k, |b.columns|)..], b.lagged);
  }

  /** What the interaction half leaves: `sum` and the unread mask columns. */
  datatype Outcome<V> = Outcome(sum: V, masks: seq<V>)

  function Observed<V>(st: Option<State<V>>): Option<Outcome<V>> {
    match st
    case None => None
    case Some(s) => if Sum in s.env then Some(Outcome(s.env[Sum], s.trace)) else None
  }

  function RunWhole<V>(m: Meaning<V>, b: LookupBody, logSize: V, randomCoeff: V, sum: V, carry: seq<V>, masks: seq<V>)
    : Option<Outcome<V>>
  {
    Observed(Exec(m, Whole(b), State(map[Sum := sum, RandomCoeff := randomCoeff, LogSize := logSize], carry, masks, {})))
  }

  /** Half B2, handed what half B1 left. */
  function SecondHalf<V>(m: Meaning<V>, b: LookupBody, k: nat, logSize: V, randomCoeff: V, first: Option<State<V>>)
    : Option<Outcome<V>>
  {
    match first
    case None => None
    case Some(s) =>
      if Bound(s.env, MidCarry(b, k)) && Sum in s.env then
        Observed(Exec(m, HalfB2(b, k), State(map[Sum := s.env[Sum], RandomCoeff := randomCoeff, LogSize := logSize],
                                            Lookup(s.env, MidCarry(b, k)), s.trace, {})))
      else None
  }

  function RunHalves<V>(m: Meaning<V>, b: LookupBody, k: nat, logSize: V, randomCoeff: V, sum: V, carry: seq<V>, masks: seq<V>)
    : Option<Outcome<V>>
  {
    SecondHalf(m, b, k, logSize, randomCoeff,
               Exec(m, HalfB1(b, k), State(map[Sum := sum, RandomCoeff := randomCoeff], carry, masks, {})))
  }

  // --- preambles --------------------------------------------------------------------

  /** The environment a half's preamble builds. */
  function Loaded<V>(m: Meaning<V>, names: seq<Name>, columns: seq<Name>, lagged: set<Name>, env: map<Name, V>,
                     carry: seq<V>, masks: seq<V>): map<Name, V>
    requires |carry| == |names| && |columns| <= |masks|
  {
    Unbox(m, BindAll(env, names, carry), columns, masks[..|columns|], (set c | c in columns), lagged)
  }

  lemma {:induction false} PopsRun<V>(m: Meaning<V>, names: seq<Name>, st: State<V>)
    ensures Exec(m, Pops(names), st)
            == if |names| <= |st.carry|
               then Some(st.(env := BindAll(st.env, names, st.carry[..|names|]), carry := st.carry[|names|..]))
               else None
    decreases names
  {
    if names != [] {
      assert Pops(names)[1..] == Pops(names[1..]);
      if st.carry != [] {
        PopsRun(m, names[1..], Step(m, LetPopped(names[0]), st).value);
        if |names| <= |st.carry| {
          assert st.carry[..|names|][1..] == st.carry[1..][..|names| - 1];
        }
      }
    }
  }

  lemma HeadRuns<V>(m: Meaning<V>, names: seq<Name>, columns: seq<Name>, lagged: set<Name>, st: State<V>)
    ensures Exec(m, Head(names, columns, lagged), st)
            == if |st.carry| == |names| && |columns| <= |st.trace|
               then Some(State(Loaded(m, names, columns, lagged, st.env, st.carry, st.trace), [], st.trace[|columns|..], st.marked))
               else None
  {
    var read := ReadMasks(columns, (set c | c in columns), lagged);
    PopsRun(m, names, st);
    ExecConcat(m, Pops(names), [CarryEmpty], st);
    ExecConcat(m, Pops(names) + [CarryEmpty], [read], st);
    assert [CarryEmpty][1..] == [] && [read][1..] == [];
    if |names| <= |st.carry| {
      var s1 := st.(env := BindAll(st.env, names, st.carry[..|names|]), carry := st.carry[|names|..]);
      assert Exec(m, [CarryEmpty], s1) == Step(m, CarryEmpty, s1);
      if |names| == |st.carry| {
        assert st.carry[..|names|] == st.carry;
        assert Exec(m, [read], s1) == Step(m, read, s1);
      }
    }
  }

  lemma {:induction false} UnboxAll<V>(m: Meaning<V>, env: map<Name, V>, columns: seq<Name>, masks: seq<V>,
                                       used: set<Name>, lagged: set<Name>)
    requires |columns| == |masks| && Distinct(columns) && forall c :: c in columns ==> c.Ident? && c in used
    ensures var r := Unbox(m, env, columns, masks, used, lagged);
            && (forall n :: n in r <==> n in env || n in columns || (n.Prev? && n.column in columns && n.column in lagged))
            && (forall i :: 0 <= i < |columns| ==> r[columns[i]] == m.current(masks[i]))
            && (forall i :: 0 <= i < |columns| && columns[i] in lagged ==> r[Prev(columns[i])] == m.previous(masks[i]))
            && (forall n :: n in env && n !in columns && !(n.Prev? && n.column in columns) ==> r[n] == env[n])
    decreases columns
  {
    if columns != [] {
      var c := columns[0];
      var e0 := if c in lagged then env[Prev(c) := m.previous(masks[0])] else env;
      assert columns == [c] + columns[1..];
      UnboxAll(m, e0[c := m.current(masks[0])], columns[1..], masks[1..], used, lagged);
      var r := Unbox(m, env, columns, masks, used, lagged);
      forall i | 0 <= i < |columns| ensures r[columns[i]] == m.current(masks[i]) {
        if i > 0 { assert columns[1..][i - 1] == columns[i]; }
      }
      forall i | 0 <= i < |columns| && columns[i] in lagged ensures r[Prev(columns[i])] == m.previous(masks[i]) {
        if i > 0 { assert columns[1..][i - 1] == columns[i]; }
      }
    }
  }

  // --- constraints -------------------------------------------------------------------

  lemma {:induction false} PairsConcat(a: seq<Constraint>, c: seq<Constraint>)
    ensures Pairs(a + c) == Pairs(a) + Pairs(c)
  {
    if a == [] {
      assert a + c == c;
    } else {
      assert (a + c)[1..] == a[1..] + c;
      PairsConcat(a[1..], c);
    }
  }

  lemma PairRuns<V>(m: Meaning<V>, q: Constraint, st: State<V>)
    requires Sum in st.env && RandomCoeff in st.env
    ensures var r := Exec(m, Pairs([q]), st);
            && (r.Some? <==> Bound(st.env, q.inputs))
            && (r.Some? ==>
                  var v := m.op(q.op, Lookup(st.env, q.inputs), 0);
                  r.value == st.(env := st.env[QUOTIENT := v][Sum := m.op(FOLD, [st.env[RandomCoeff], v, st.env[Sum]], 0)]))
  {
    var a, f := Compute([QUOTIENT], [], q.op, q.inputs), Compute([], [Sum], FOLD, [RandomCoeff, QUOTIENT]);
    assert Pairs([q]) == [a, f];
    assert [a, f][1..] == [f] && [f][1..] == [];
    if Bound(st.env, q.inputs) {
      assert q.inputs + [] == q.inputs;
      var v := m.op(q.op, Lookup(st.env, q.inputs), 0);
      assert Outputs(m, a, st.env) == [v];
      assert [QUOTIENT] + [] == [QUOTIENT];
      var s1 := st.(env := BindAll(st.env, [QUOTIENT], [v]));
      assert BindAll(st.env, [QUOTIENT], [v]) == BindAll(st.env[QUOTIENT := v], [], []) == st.env[QUOTIENT := v];
      assert Step(m, a, st) == Some(s1);
      assert Lookup(s1.env, [RandomCoeff, QUOTIENT] + [Sum]) == [st.env[RandomCoeff], v, st.env[Sum]];
      var w := m.op(FOLD, [st.env[RandomCoeff], v, st.env[Sum]], 0);
      assert Outputs(m, f, s1.env) == [w];
      assert [] + [Sum] == [Sum];
      assert BindAll(s1.env, [Sum], [w]) == BindAll(s1.env[Sum := w], [], []) == s1.env[Sum := w];
      var s2 := s1.(env := s1.env[Sum := w]);
      assert Step(m, f, s1) == Some(s2) && Exec(m, [], s2) == Some(s2);
      assert Exec(m, [f], s1) == Some(s2);
      assert Exec(m, [a, f], st) == Exec(m, [f], s1);
    } else {
      assert Step(m, a, st).None?;
    }
  }

  /** Constraints cannot tell apart environments that agree on what they read;
      the quotient of an earlier constraint is never read. */
  lemma {:induction false} PairsAgree<V>(m: Meaning<V>, qs: seq<Constraint>, names: set<Name>, s: State<V>, t: State<V>)
    requires Sum in names && RandomCoeff in names && QUOTIENT !in names
    requires forall q, n :: q in qs && n in q.inputs ==> n in names
    requires Agree(names, s.env, t.env) && Sum in s.env && RandomCoeff in s.env
    ensures Exec(m, Pairs(qs), s).None? <==> Exec(m, Pairs(qs), t).None?
    ensures Exec(m, Pairs(qs), s).Some? ==>
              var s' := Exec(m, Pairs(qs), s).value;
              var t' := Exec(m, Pairs(qs), t).value;
              && Agree(names, s'.env, t'.env)
              && s' == s.(env := s'.env) && t' == t.(env := t'.env)
              && (forall n :: n in names && n != Sum && n in t.env ==> n in t'.env && t'.env[n] == t.env[n])
              && (forall n :: n in names && n in t'.env ==> n in t.env)
              && Sum in t'.env
  {
    if qs != [] {
      var q := qs[0];
      assert qs == [q] + qs[1..];
      PairsConcat([q], qs[1..]);
      ExecConcat(m, Pairs([q]), Pairs(qs[1..]), s);
      ExecConcat(m, Pairs([q]), Pairs(qs[1..]), t);
      PairRuns(m, q, s);
      PairRuns(m, q, t);
      assert forall n :: n in q.inputs ==> n in names;
      assert Bound(s.env, q.inputs) <==> Bound(t.env, q.inputs);
      if Bound(s.env, q.inputs) {
        assert Lookup(s.env, q.inputs) == Lookup(t.env, q.inputs);
        PairsAgree(m, qs[1..], names, Exec(m, Pairs([q]), s).value, Exec(m, Pairs([q]), t).value);
      }
    }
  }

  // --- the cut ---------------------------------------------------------------------------

  /** Everything half B1 reads or hands on. */
  function FirstNames(b: LookupBody, k: nat): set<Name> {
    SeamNames(b) + ColumnNames(b.columns[..Width(b, k)]) + (set c | c in b.columns && c !in b.lagged :: Prev(c))
  }

  /** Everything half B2 reads. */
  function SecondNames(b: LookupBody, k: nat): set<Name> {
    {Sum, RandomCoeff, ColumnSize} + (set n | n in MidCarry(b, k)) + ColumnNames(b.columns[Width(b, k)..])
  }

  function ColumnNames(columns: seq<Name>): set<Name> {
    (set c | c in columns) + (set c | c in columns :: Prev(c))
  }

  lemma SecondReads(b: LookupBody, k: nat)
    requires WellFormed(b) && ScriptAsserts(b, k)
    ensures forall q, n :: q in b.constraints[Taken(b, k)..] && n in q.inputs ==> n in SecondNames(b, k)
  {
    forall q, n | q in b.constraints[Taken(b, k)..] && n in q.inputs ensures n in SecondNames(b, k) {
      assert q in b.constraints;
      assert n.Prev? ==> n == Prev(n.column);
    }
  }

  lemma FirstReads(b: LookupBody, k: nat)
    requires WellFormed(b) && ScriptAsserts(b, k) && FirstHalfInScope(b, k)
    ensures forall q, n :: q in b.constraints[..Taken(b, k)] && n in q.inputs ==> n in FirstNames(b, k)
  {
    hide Width, Taken, Quad, Drop, Distinct;
    forall q, n | q in b.constraints[..Taken(b, k)] && n in q.inputs ensures n in FirstNames(b, k) {
      assert q in b.constraints;
      assert n.Prev? ==> n == Prev(n.column);
    }
  }

  lemma MidInFirst(b: LookupBody, k: nat)
    requires WellFormed(b)
    ensures forall n :: n in MidCarry(b, k) ==> n in FirstNames(b, k)
  {
    hide WellFormed, MidCarry, Width;
    MidNames(b, k);
    SeamNotColumns(b);
  }

  lemma NoQuotient(b: LookupBody, k: nat)
    requires WellFormed(b)
    ensures QUOTIENT !in FirstNames(b, k) && QUOTIENT !in SecondNames(b, k)
  {
    hide MidCarry, Width;
    MidNames(b, k);
  }

  lemma ReadsInScope(b: LookupBody, k: nat)
    requires WellFormed(b) && ScriptAsserts(b, k) && FirstHalfInScope(b, k)
    ensures forall q, n :: q in b.constraints[..Taken(b, k)] && n in q.inputs ==> n in FirstNames(b, k)
    ensures forall q, n :: q in b.constraints[Taken(b, k)..] && n in q.inputs ==> n in SecondNames(b, k)
    ensures forall n :: n in MidCarry(b, k) ==> n in FirstNames(b, k)
    ensures QUOTIENT !in FirstNames(b, k) && QUOTIENT !in SecondNames(b, k)
  {
    hide *;
    FirstReads(b, k);
    SecondReads(b, k);
    MidInFirst(b, k);
    NoQuotient(b, k);
  }

  /** What a half's environment `x` holds: the popped values and the columns. */
  ghost predicate Holds<V>(m: Meaning<V>, x: map<Name, V>, popped: map<Name, V>, columns: seq<Name>, lagged: set<Name>,
                           masks: seq<V>)
    requires |columns| <= |masks|
  {
    && (forall n :: n in x <==> n in popped || n in columns || (n.Prev? && n.column in columns && n.column in lagged))
    && (forall n :: n in popped && n !in columns ==> n in x && x[n] == popped[n])
    && (forall i :: 0 <= i < |columns| ==> columns[i] in x && x[columns[i]] == m.current(masks[i]))
    && (forall i :: 0 <= i < |columns| && columns[i] in lagged ==>
          Prev(columns[i]) in x && x[Prev(columns[i])] == m.previous(masks[i]))
  }

  lemma LoadedHolds<V>(m: Meaning<V>, names: seq<Name>, columns: seq<Name>, lagged: set<Name>, env: map<Name, V>,
                       carry: seq<V>, masks: seq<V>)
    requires |carry| == |names| && |columns| <= |masks|
    requires Distinct(columns) && forall c :: c in columns ==> c.Ident?
    requires forall n :: n in names || n in env ==> !n.Prev?
    ensures Holds(m, Loaded(m, names, columns, lagged, env, carry, masks), BindAll(env, names, carry), columns, lagged, masks)
  {
    BindAllKeys(env, names, carry);
    UnboxAll(m, BindAll(env, names, carry), columns, masks[..|columns|], (set c | c in columns), lagged);
  }

  lemma {:induction false} BindAllSame<V>(e: map<Name, V>, f: map<Name, V>, names: seq<Name>, values: seq<V>, n: Name)
    requires |names| == |values| && (n in names || (n in e && n in f && e[n] == f[n]))
    ensures n in BindAll(e, names, values) && n in BindAll(f, names, values)
    ensures BindAll(e, names, values)[n] == BindAll(f, names, values)[n]
    decreases names
  {
    if names != [] {
      assert names == [names[0]] + names[1..];
      BindAllSame(e[names[0] := values[0]], f[names[0] := values[0]], names[1..], values[1..], n);
    }
  }

  ghost predicate AgreeAt<V>(n: Name, a: map<Name, V>, b: map<Name, V>) {
    (n in a <==> n in b) && (n in a && n in b ==> a[n] == b[n])
  }

  lemma MidNames(b: LookupBody, k: nat)
    requires WellFormed(b)
    ensures forall n :: n in MidCarry(b, k) ==> n in Seam(b) || n in b.columns[..Width(b, k)]
    ensures forall c :: c in b.columns[Width(b, k)..] ==> c in b.columns && c !in b.columns[..Width(b, k)] && c !in Seam(b)
    ensures forall c :: c in b.columns[..Width(b, k)] ==> c in b.columns && c !in Seam(b)
  {
    hide Width, Seam, Numerators, Sums, Distinct, Drop, Quad;
    DistinctColumns(b);
    DistinctSplit(b.columns, Width(b, k));
    SeamHalves(b);
    CarryParts(b, k);
  }

  lemma DistinctColumns(b: LookupBody)
    requires WellFormed(b)
    ensures Distinct(b.columns)
  {
  }

  lemma CarryParts(b: LookupBody, k: nat)
    ensures forall n :: n in Drop(Numerators(b), 2 * k) ==> n in Numerators(b)
    ensures forall n :: n in Drop(Sums(b), 2 * k) ==> n in Sums(b)
    ensures forall n :: n in Quad(b, k) ==> n in b.columns[..Width(b, k)]
  {
    hide Numerators, Sums;
  }

  ghost predicate NoPrev(names: set<Name>) {
    forall n :: n in names ==> !n.Prev?
  }

  /** Columns read by two environments, each from its own stretch of the
      masks, have one value. */
  lemma SharedColumns<V>(m: Meaning<V>, x: map<Name, V>, y: map<Name, V>, px: map<Name, V>, py: map<Name, V>,
                         cx: seq<Name>, cy: seq<Name>, lagged: set<Name>, mx: seq<V>, my: seq<V>, off: nat)
    requires |cx| <= |mx| && |cy| <= |my| && off + |cx| <= |cy|
    requires Holds(m, x, px, cx, lagged, mx) && Holds(m, y, py, cy, lagged, my)
    requires forall i :: 0 <= i < |cx| ==> cx[i] == cy[off + i] && mx[i] == my[off + i]
    requires NoPrev(px.Keys) && NoPrev(py.Keys) && forall c :: c in cx || c in cy ==> !c.Prev?
    ensures Agree(ColumnNames(cx), x, y)
  {
    forall n | n in ColumnNames(cx) ensures AgreeAt(n, x, y) {
      var c := if n in cx then n else n.column;
      var i :| 0 <= i < |cx| && cx[i] == c;
      assert x[cx[i]] == m.current(mx[i]) && y[cy[off + i]] == m.current(my[off + i]);
      if c in lagged {
        assert x[Prev(cx[i])] == m.previous(mx[i]) && y[Prev(cy[off + i])] == m.previous(my[off + i]);
      }
    }
  }

  /** What both halves know about the popped seam values. */
  lemma SeamAgrees<V>(b: LookupBody, e: map<Name, V>, u: map<Name, V>, carry: seq<V>, px: map<Name, V>, py: map<Name, V>)
    requires |carry| == |Seam(b)| && e.Keys <= u.Keys && forall x :: x in e ==> e[x] == u[x]
    requires px == BindAll(e, Seam(b), carry) && py == BindAll(u, Seam(b), carry)
    ensures forall n :: n in Seam(b) || n in e ==> n in px && n in py && px[n] == py[n]
    ensures px.Keys == e.Keys + (set n | n in Seam(b)) && py.Keys == u.Keys + (set n | n in Seam(b))
  {
    BindAllKeys(e, Seam(b), carry);
    BindAllKeys(u, Seam(b), carry);
    forall n | n in Seam(b) || n in e ensures n in px && n in py && px[n] == py[n] {
      BindAllSame(e, u, Seam(b), carry, n);
    }
  }

  /** Names that are no columns keep their popped values. */
  lemma OthersAgree<V>(m: Meaning<V>, names: set<Name>, x: map<Name, V>, y: map<Name, V>, px: map<Name, V>, py: map<Name, V>,
                       cx: seq<Name>, cy: seq<Name>, lagged: set<Name>, mx: seq<V>, my: seq<V>)
    requires |cx| <= |mx| && |cy| <= |my| && Holds(m, x, px, cx, lagged, mx) && Holds(m, y, py, cy, lagged, my)
    requires forall n :: n in names ==> n !in cx && n !in cy && n in px && n in py && px[n] == py[n]
    ensures Agree(names, x, y)
  {
  }

  /** Two sets of agreement are one. */
  lemma AgreeUnion<V>(a: set<Name>, b: set<Name>, x: map<Name, V>, y: map<Name, V>)
    requires Agree(a, x, y) && Agree(b, x, y)
    ensures Agree(a + b, x, y)
  {
  }

  function SeamNames(b: LookupBody): set<Name> {
    {Sum, RandomCoeff, ClaimedSum} + (set n | n in Numerators(b)) + (set n | n in Sums(b))
  }

  lemma SeamNotColumns(b: LookupBody)
    requires WellFormed(b)
    ensures forall n :: n in SeamNames(b) ==> n !in b.columns
    ensures forall n :: n in SeamNames(b) <==> n in Seam(b) || n == Sum || n == RandomCoeff
    ensures forall n :: n in Seam(b) ==> !n.Prev?
  {
    SeamHalves(b);
  }

  /** Look-back names nobody unboxes are in neither environment. */
  lemma UnlaggedAgree<V>(m: Meaning<V>, names: set<Name>, x: map<Name, V>, y: map<Name, V>, px: map<Name, V>, py: map<Name, V>,
                         cx: seq<Name>, cy: seq<Name>, lagged: set<Name>, mx: seq<V>, my: seq<V>)
    requires |cx| <= |mx| && |cy| <= |my| && Holds(m, x, px, cx, lagged, mx) && Holds(m, y, py, cy, lagged, my)
    requires NoPrev(px.Keys) && NoPrev(py.Keys) && forall c :: c in cx || c in cy ==> !c.Prev?
    requires forall n :: n in names ==> n.Prev? && n.column !in lagged
    ensures Agree(names, x, y)
  {
  }

  /** Popping values of `u1` gives values of `u1`. */
  lemma MidValues<V>(e: map<Name, V>, base: set<Name>, names: seq<Name>, from: map<Name, V>, u1: map<Name, V>)
    requires Bound(from, names)
    requires forall n :: n in base ==> n in e && n in u1 && e[n] == u1[n]
    requires forall n :: n in names ==> n in u1 && from[n] == u1[n]
    ensures var px := BindAll(e, names, Lookup(from, names));
            && px.Keys == e.Keys + (set n | n in names)
            && forall n :: n in base || n in names ==> n in px && px[n] == u1[n]
  {
    BindAllCopies(e, names, from);
  }

  /** The two environments at the start of half B1, whatever they are. */
  lemma FirstCore<V>(m: Meaning<V>, seam: set<Name>, unlagged: set<Name>, first: seq<Name>, columns: seq<Name>,
                     lagged: set<Name>, masks: seq<V>, x: map<Name, V>, y: map<Name, V>, px: map<Name, V>, py: map<Name, V>)
    requires |first| <= |columns| <= |masks| && first == columns[..|first|]
    requires Holds(m, x, px, first, lagged, masks) && Holds(m, y, py, columns, lagged, masks)
    requires NoPrev(px.Keys) && NoPrev(py.Keys) && forall c :: c in columns ==> !c.Prev?
    requires forall n :: n in seam ==> n !in columns && n in px && n in py && px[n] == py[n]
    requires forall n :: n in unlagged ==> n.Prev? && n.column !in lagged
    ensures Agree(seam + ColumnNames(first) + unlagged, x, y)
  {
    hide Holds, Agree, NoPrev;
    assert forall c :: c in first ==> c in columns;
    SharedColumns(m, x, y, px, py, first, columns, lagged, masks, masks, 0);
    OthersAgree(m, seam, x, y, px, py, first, columns, lagged, masks, masks);
    UnlaggedAgree(m, unlagged, x, y, px, py, first, columns, lagged, masks, masks);
    AgreeUnion(seam, ColumnNames(first), x, y);
    AgreeUnion(seam + ColumnNames(first), unlagged, x, y);
  }

  lemma FirstHolds<V>(m: Meaning<V>, b: LookupBody, k: nat, columns: seq<Name>, e: map<Name, V>, carry: seq<V>, masks: seq<V>)
    requires WellFormed(b) && |carry| == |Seam(b)| && |columns| <= |masks|
    requires columns == b.columns[..Width(b, k)] || columns == b.columns
    requires NoPrev(e.Keys)
    ensures Holds(m, Loaded(m, Seam(b), columns, b.lagged, e, carry, masks), BindAll(e, Seam(b), carry), columns, b.lagged, masks)
    ensures NoPrev(BindAll(e, Seam(b), carry).Keys)
  {
    SeamNotColumns(b);
    DistinctSplit(b.columns, Width(b, k));
    BindAllKeys(e, Seam(b), carry);
    LoadedHolds(m, Seam(b), columns, b.lagged, e, carry, masks);
  }

  lemma SeamValues<V>(b: LookupBody, e: map<Name, V>, u: map<Name, V>, carry: seq<V>, px: map<Name, V>, py: map<Name, V>)
    requires WellFormed(b) && |carry| == |Seam(b)|
    requires e.Keys == {Sum, RandomCoeff} && u.Keys == {Sum, RandomCoeff, LogSize, ColumnSize}
    requires e[Sum] == u[Sum] && e[RandomCoeff] == u[RandomCoeff]
    requires px == BindAll(e, Seam(b), carry) && py == BindAll(u, Seam(b), carry)
    ensures forall n :: n in SeamNames(b) ==> n !in b.columns && n in px && n in py && px[n] == py[n]
  {
    SeamNotColumns(b);
    SeamAgrees(b, e, u, carry, px, py);
  }

  lemma FirstAgrees<V>(m: Meaning<V>, b: LookupBody, k: nat, first: seq<Name>, e: map<Name, V>, u: map<Name, V>,
                       carry: seq<V>, masks: seq<V>, x: map<Name, V>, y: map<Name, V>)
    requires WellFormed(b) && |carry| == |Seam(b)| && |b.columns| <= |masks|
    requires e.Keys == {Sum, RandomCoeff} && u.Keys == {Sum, RandomCoeff, LogSize, ColumnSize}
    requires e[Sum] == u[Sum] && e[RandomCoeff] == u[RandomCoeff] && first == b.columns[..Width(b, k)]
    requires x == Loaded(m, Seam(b), first, b.lagged, e, carry, masks)
    requires y == Loaded(m, Seam(b), b.columns, b.lagged, u, carry, masks)
    ensures Agree(FirstNames(b, k), x, y)
  {
    var px, py := BindAll(e, Seam(b), carry), BindAll(u, Seam(b), carry);
    FirstHolds(m, b, k, first, e, carry, masks);
    FirstHolds(m, b, k, b.columns, u, carry, masks);
    SeamValues(b, e, u, carry, px, py);
    var unlagged := set c | c in b.columns && c !in b.lagged :: Prev(c);
    FirstCore(m, SeamNames(b), unlagged, first, b.columns, b.lagged, masks, x, y, px, py);
  }

  ghost predicate MatchesOn<V>(fixed: set<Name>, names: seq<Name>, second: seq<Name>, px: map<Name, V>, u1: map<Name, V>) {
    forall n :: n in fixed || n in names ==> n !in second && n in px && n in u1 && px[n] == u1[n]
  }

  /** The two environments at the start of half B2, whatever they are. */
  lemma SecondCore<V>(m: Meaning<V>, fixed: set<Name>, names: seq<Name>, second: seq<Name>, columns: seq<Name>,
                      lagged: set<Name>, off: nat, masks: seq<V>, x: map<Name, V>, u0: map<Name, V>, u1: map<Name, V>,
                      px: map<Name, V>, pu: map<Name, V>)
    requires off <= |columns| <= |masks| && second == columns[off..]
    requires Holds(m, x, px, second, lagged, masks[off..]) && Holds(m, u0, pu, columns, lagged, masks)
    requires NoPrev(px.Keys) && NoPrev(pu.Keys) && forall c :: c in columns ==> !c.Prev?
    requires MatchesOn(fixed, names, second, px, u1)
    requires Agree(ColumnNames(second), u0, u1)
    ensures Agree(fixed + (set n | n in names) + ColumnNames(second), x, u1)
  {
    assert forall c :: c in second ==> c in columns;
    SharedColumns(m, x, u0, px, pu, second, columns, lagged, masks[off..], masks, off);
    AgreeTransitive(ColumnNames(second), x, u0, u1);
    KeepsPopped(m, fixed + (set n | n in names), x, px, second, lagged, masks[off..], u1);
  }

  lemma SecondHolds<V>(m: Meaning<V>, b: LookupBody, k: nat, second: seq<Name>, names: seq<Name>, e: map<Name, V>,
                       masks: seq<V>, from: map<Name, V>, u1: map<Name, V>)
    requires WellFormed(b) && |b.columns| <= |masks|
    requires second == b.columns[Width(b, k)..] && names == MidCarry(b, k) && NoPrev(e.Keys)
    requires Bound(from, names)
    requires forall n :: n in {Sum, RandomCoeff, ColumnSize} ==> n in e && n in u1 && e[n] == u1[n]
    requires forall n :: n in names ==> n in u1 && from[n] == u1[n]
    ensures var px := BindAll(e, names, Lookup(from, names));
            && Holds(m, Loaded(m, names, second, b.lagged, e, Lookup(from, names), masks[Width(b, k)..]), px, second, b.lagged, masks[Width(b, k)..])
            && NoPrev(px.Keys)
            && MatchesOn({Sum, RandomCoeff, ColumnSize}, names, second, px, u1)
  {
    hide WellFormed, MidCarry, Holds, Loaded, Distinct;
    MidPlain(b, k);
    MidValues(e, {Sum, RandomCoeff, ColumnSize}, names, from, u1);
    LoadedHolds(m, names, second, b.lagged, e, Lookup(from, names), masks[Width(b, k)..]);
  }

  lemma SecondAgrees<V>(m: Meaning<V>, b: LookupBody, k: nat, second: seq<Name>, names: seq<Name>, e: map<Name, V>,
                        u: map<Name, V>, carry: seq<V>, masks: seq<V>, from: map<Name, V>, x: map<Name, V>,
                        u0: map<Name, V>, u1: map<Name, V>)
    requires WellFormed(b) && |carry| == |Seam(b)| && |b.columns| <= |masks|
    requires second == b.columns[Width(b, k)..] && names == MidCarry(b, k)
    requires NoPrev(e.Keys) && NoPrev(u.Keys)
    requires forall n :: n in {Sum, RandomCoeff, ColumnSize} ==> n in e && n in u1 && e[n] == u1[n]
    requires u0 == Loaded(m, Seam(b), b.columns, b.lagged, u, carry, masks)
    requires Agree(ColumnNames(second), u0, u1)
    requires Bound(from, names) && forall n :: n in names ==> n in u1 && from[n] == u1[n]
    requires x == Loaded(m, names, second, b.lagged, e, Lookup(from, names), masks[Width(b, k)..])
    ensures Agree(SecondNames(b, k), x, u1)
  {
    var px, pu := BindAll(e, names, Lookup(from, names)), BindAll(u, Seam(b), carry);
    SecondHolds(m, b, k, second, names, e, masks, from, u1);
    FirstHolds(m, b, k, b.columns, u, carry, masks);
    assert forall c :: c in b.columns ==> !c.Prev?;
    SecondCore(m, {Sum, RandomCoeff, ColumnSize}, names, second, b.columns, b.lagged, Width(b, k), masks, x, u0, u1, px, pu);
  }

  lemma MidPlain(b: LookupBody, k: nat)
    requires WellFormed(b)
    ensures forall n :: n in MidCarry(b, k) ==> !n.Prev? && n !in b.columns[Width(b, k)..]
    ensures Distinct(b.columns[Width(b, k)..]) && forall c :: c in b.columns[Width(b, k)..] ==> c.Ident?
  {
    MidNames(b, k);
    SeamNotColumns(b);
    DistinctSplit(b.columns, Width(b, k));
  }

  lemma AgreeTransitive<V>(names: set<Name>, x: map<Name, V>, y: map<Name, V>, z: map<Name, V>)
    requires Agree(names, x, y) && Agree(names, y, z)
    ensures Agree(names, x, z)
  {
  }

  lemma KeepsPopped<V>(m: Meaning<V>, names: set<Name>, x: map<Name, V>, px: map<Name, V>, columns: seq<Name>,
                       lagged: set<Name>, masks: seq<V>, y: map<Name, V>)
    requires |columns| <= |masks| && Holds(m, x, px, columns, lagged, masks)
    requires forall n :: n in names ==> n !in columns && n in px && n in y && px[n] == y[n]
    ensures Agree(names, x, y)
  {
  }

  // --- whole runs ------------------------------------------------------------------------

  function Start<V>(m: Meaning<V>, logSize: V, randomCoeff: V, sum: V): map<Name, V> {
    map[Sum := sum, RandomCoeff := randomCoeff, LogSize := logSize, ColumnSize := m.columnSize(logSize)]
  }

  /** A function with `log_size`, past its preamble. */
  lemma SizedRun<V>(m: Meaning<V>, names: seq<Name>, columns: seq<Name>, lagged: set<Name>, qs: seq<Constraint>,
                    logSize: V, randomCoeff: V, sum: V, carry: seq<V>, masks: seq<V>)
    ensures Exec(m, [LetColumnSize] + Head(names, columns, lagged) + Pairs(qs),
                 State(map[Sum := sum, RandomCoeff := randomCoeff, LogSize := logSize], carry, masks, {}))
            == if |carry| == |names| && |columns| <= |masks|
               then Exec(m, Pairs(qs), State(Loaded(m, names, columns, lagged, Start(m, logSize, randomCoeff, sum), carry, masks),
                                             [], masks[|columns|..], {}))
               else None
  {
    var st := State(map[Sum := sum, RandomCoeff := randomCoeff, LogSize := logSize], carry, masks, {});
    var s1 := State(Start(m, logSize, randomCoeff, sum), carry, masks, {});
    assert [LetColumnSize][1..] == [] && Step(m, LetColumnSize, st) == Some(s1);
    assert Exec(m, [], s1) == Some(s1);
    assert Exec(m, [LetColumnSize], st) == Some(s1);
    ExecConcat(m, [LetColumnSize], Head(names, columns, lagged), st);
    ExecConcat(m, [LetColumnSize] + Head(names, columns, lagged), Pairs(qs), st);
    HeadRuns(m, names, columns, lagged, s1);
  }

  lemma FirstHalfRun<V>(m: Meaning<V>, b: LookupBody, k: nat, st: State<V>)
    ensures Exec(m, HalfB1(b, k), st)
            == if |st.carry| == |Seam(b)| && Width(b, k) <= |st.trace|
               then Exec(m, Pairs(b.constraints[..Taken(b, k)]),
                         State(Loaded(m, Seam(b), b.columns[..Width(b, k)], b.lagged, st.env, st.carry, st.trace), [],
                               st.trace[Width(b, k)..], st.marked))
               else None
  {
    var head := Head(Seam(b), b.columns[..Width(b, k)], b.lagged);
    ExecConcat(m, head, Pairs(b.constraints[..Taken(b, k)]), st);
    HeadRuns(m, Seam(b), b.columns[..Width(b, k)], b.lagged, st);
  }

  /** After the first k constraints of the whole function: nothing but `sum`
      (and the quotient) has changed. */
  lemma WholeKeeps<V>(m: Meaning<V>, qs: seq<Constraint>, names: set<Name>, u: State<V>)
    requires Sum in names && RandomCoeff in names && QUOTIENT !in names && Sum in u.env && RandomCoeff in u.env
    requires forall q, n :: q in qs && n in q.inputs ==> n in names
    requires Exec(m, Pairs(qs), u).Some?
    ensures var v := Exec(m, Pairs(qs), u).value;
            && v == u.(env := v.env) && Sum in v.env
            && forall n :: n in names && n != Sum ==> AgreeAt(n, u.env, v.env)
  {
    PairsAgree(m, qs, names, u, u);
  }

  lemma MidInScope<V>(m: Meaning<V>, b: LookupBody, k: nat, u: map<Name, V>, carry: seq<V>, masks: seq<V>)
    requires WellFormed(b) && |carry| == |Seam(b)| && |b.columns| <= |masks| && NoPrev(u.Keys)
    ensures forall n :: n in MidCarry(b, k) ==>
              n in Loaded(m, Seam(b), b.columns, b.lagged, u, carry, masks) && n != Sum && n in FirstNames(b, k)
  {
    MidNames(b, k);
    SeamNotColumns(b);
    FirstHolds(m, b, k, b.columns, u, carry, masks);
    BindAllKeys(u, Seam(b), carry);
  }

  /** The state of both runs after k constraints. */
  lemma AtTheCut<V>(m: Meaning<V>, b: LookupBody, k: nat, logSize: V, randomCoeff: V, sum: V, carry: seq<V>, masks: seq<V>,
                    x: State<V>, u: State<V>)
    requires WellFormed(b) && ScriptAsserts(b, k) && FirstHalfInScope(b, k)
    requires |carry| == |Seam(b)| && |b.columns| <= |masks|
    requires x == State(Loaded(m, Seam(b), b.columns[..Width(b, k)], b.lagged, map[Sum := sum, RandomCoeff := randomCoeff], carry, masks),
                        [], masks[Width(b, k)..], {})
    requires u == State(Loaded(m, Seam(b), b.columns, b.lagged, Start(m, logSize, randomCoeff, sum), carry, masks),
                        [], masks[|b.columns|..], {})
    ensures Exec(m, Pairs(b.constraints[..Taken(b, k)]), x).None? <==> Exec(m, Pairs(b.constraints[..Taken(b, k)]), u).None?
    ensures Exec(m, Pairs(b.constraints[..Taken(b, k)]), x).Some? ==>
              var x1 := Exec(m, Pairs(b.constraints[..Taken(b, k)]), x).value;
              var u1 := Exec(m, Pairs(b.constraints[..Taken(b, k)]), u).value;
              && x1 == x.(env := x1.env) && u1 == u.(env := u1.env)
              && Sum in x1.env && Sum in u1.env && x1.env[Sum] == u1.env[Sum]
              && Bound(x1.env, MidCarry(b, k))
              && (forall n :: n in MidCarry(b, k) ==> n in u1.env && x1.env[n] == u1.env[n])
              && (forall n :: n in SecondNames(b, k) && n != Sum ==> AgreeAt(n, u.env, u1.env))
  {
    var qs := b.constraints[..Taken(b, k)];
    var e, s := map[Sum := sum, RandomCoeff := randomCoeff], Start(m, logSize, randomCoeff, sum);
    FirstAgrees(m, b, k, b.columns[..Width(b, k)], e, s, carry, masks, x.env, u.env);
    ReadsInScope(b, k);
    StartKept(m, b, k, b.columns, s, carry, masks);
    StartKept(m, b, k, b.columns[..Width(b, k)], e, carry, masks);
    PairsAgree(m, qs, FirstNames(b, k), x, u);
    if Exec(m, Pairs(qs), u).Some? {
      WholeKeeps(m, qs, FirstNames(b, k) + SecondNames(b, k), u);
      MidInScope(m, b, k, s, carry, masks);
    }
  }

  lemma StartKept<V>(m: Meaning<V>, b: LookupBody, k: nat, columns: seq<Name>, s: map<Name, V>, carry: seq<V>, masks: seq<V>)
    requires WellFormed(b) && |carry| == |Seam(b)| && |columns| <= |masks|
    requires columns == b.columns || columns == b.columns[..Width(b, k)]
    requires Sum in s && RandomCoeff in s && NoPrev(s.Keys)
    ensures var x := Loaded(m, Seam(b), columns, b.lagged, s, carry, masks); Sum in x && RandomCoeff in x
  {
    FirstHolds(m, b, k, columns, s, carry, masks);
    BindAllKeys(s, Seam(b), carry);
  }

  /** Half B2, past its preamble, agrees with the whole function at the cut. */
  lemma SecondStart<V>(m: Meaning<V>, b: LookupBody, k: nat, e: map<Name, V>, s: map<Name, V>, carry: seq<V>, masks: seq<V>,
                       x1: map<Name, V>, x2: map<Name, V>, u: map<Name, V>, u1: map<Name, V>)
    requires WellFormed(b) && |carry| == |Seam(b)| && |b.columns| <= |masks|
    requires {Sum, RandomCoeff, ColumnSize} <= e.Keys && {RandomCoeff, ColumnSize} <= s.Keys
    requires NoPrev(e.Keys) && NoPrev(s.Keys)
    requires e[RandomCoeff] == s[RandomCoeff] && e[ColumnSize] == s[ColumnSize]
    requires u == Loaded(m, Seam(b), b.columns, b.lagged, s, carry, masks)
    requires Sum in u1 && e[Sum] == u1[Sum] && Bound(x1, MidCarry(b, k))
    requires forall n :: n in MidCarry(b, k) ==> n in u1 && x1[n] == u1[n]
    requires forall n :: n in SecondNames(b, k) && n != Sum ==> AgreeAt(n, u, u1)
    requires x2 == Loaded(m, MidCarry(b, k), b.columns[Width(b, k)..], b.lagged, e, Lookup(x1, MidCarry(b, k)), masks[Width(b, k)..])
    ensures Agree(SecondNames(b, k), x2, u1)
    ensures Sum in x2 && RandomCoeff in x2
  {
    FixedKept(m, b, s, carry, masks, u);
    forall n | n in {Sum, RandomCoeff, ColumnSize} ensures n in e && n in u1 && e[n] == u1[n] {
      assert n in SecondNames(b, k);
    }
    forall n | n in ColumnNames(b.columns[Width(b, k)..]) ensures AgreeAt(n, u, u1) {
      assert n in SecondNames(b, k) && (n == Sum ==> false) by {
        MidPlain(b, k);
      }
    }
    SecondAgrees(m, b, k, b.columns[Width(b, k)..], MidCarry(b, k), e, s, carry, masks, x1, x2, u, u1);
    assert Sum in SecondNames(b, k) && RandomCoeff in SecondNames(b, k);
  }

  /** From the cut on, half B2 does what the whole function does. */
  lemma AfterTheCut<V>(m: Meaning<V>, b: LookupBody, k: nat, x2: State<V>, u1: State<V>)
    requires WellFormed(b) && ScriptAsserts(b, k) && FirstHalfInScope(b, k)
    requires Agree(SecondNames(b, k), x2.env, u1.env) && x2.trace == u1.trace
    requires Sum in x2.env && RandomCoeff in x2.env
    ensures Observed(Exec(m, Pairs(b.constraints[Taken(b, k)..]), x2)) == Observed(Exec(m, Pairs(b.constraints[Taken(b, k)..]), u1))
  {
    ReadsInScope(b, k);
    PairsAgree(m, b.constraints[Taken(b, k)..], SecondNames(b, k), x2, u1);
  }

  lemma FixedKept<V>(m: Meaning<V>, b: LookupBody, s: map<Name, V>, carry: seq<V>, masks: seq<V>, u: map<Name, V>)
    requires WellFormed(b) && |carry| == |Seam(b)| && |b.columns| <= |masks|
    requires RandomCoeff in s && ColumnSize in s && NoPrev(s.Keys)
    requires u == Loaded(m, Seam(b), b.columns, b.lagged, s, carry, masks)
    ensures RandomCoeff in u && u[RandomCoeff] == s[RandomCoeff] && ColumnSize in u && u[ColumnSize] == s[ColumnSize]
  {
    hide Loaded, Distinct, BindAll, WellFormed, Seam;
    SeamNotColumns(b);
    FixedApart(b);
    BindAllKeys(s, Seam(b), carry);
    LoadedHolds(m, Seam(b), b.columns, b.lagged, s, carry, masks);
  }

  lemma FixedApart(b: LookupBody)
    requires WellFormed(b)
    ensures forall n :: n in {RandomCoeff, ColumnSize} ==> n !in Seam(b) && n !in b.columns
    ensures Distinct(b.columns) && forall c :: c in b.columns ==> c.Ident?
  {
    SeamHalves(b);
  }

  lemma WholeRun<V>(m: Meaning<V>, b: LookupBody, k: nat, logSize: V, randomCoeff: V, sum: V, carry: seq<V>, masks: seq<V>)
    ensures RunWhole(m, b, logSize, randomCoeff, sum, carry, masks)
            == if |carry| == |Seam(b)| && |b.columns| <= |masks|
               then
                 var u := State(Loaded(m, Seam(b), b.columns, b.lagged, Start(m, logSize, randomCoeff, sum), carry, masks),
                                [], masks[|b.columns|..], {});
                 match Exec(m, Pairs(b.constraints[..Taken(b, k)]), u)
                 case None => None
                 case Some(u1) => Observed(Exec(m, Pairs(b.constraints[Taken(b, k)..]), u1))
               else None
  {
    SizedRun(m, Seam(b), b.columns, b.lagged, b.constraints, logSize, randomCoeff, sum, carry, masks);
    if |carry| == |Seam(b)| && |b.columns| <= |masks| {
      var u := State(Loaded(m, Seam(b), b.columns, b.lagged, Start(m, logSize, randomCoeff, sum), carry, masks),
                     [], masks[|b.columns|..], {});
      assert b.constraints == b.constraints[..Taken(b, k)] + b.constraints[Taken(b, k)..];
      PairsConcat(b.constraints[..Taken(b, k)], b.constraints[Taken(b, k)..]);
      ExecConcat(m, Pairs(b.constraints[..Taken(b, k)]), Pairs(b.constraints[Taken(b, k)..]), u);
    }
  }

  /** Half B2 on half B1's carry, when there are mask columns enough. */
  lemma EnoughMasks<V>(m: Meaning<V>, b: LookupBody, k: nat, logSize: V, randomCoeff: V, sum: V, carry: seq<V>, masks: seq<V>,
                       x: State<V>, u: State<V>)
    requires WellFormed(b) && ScriptAsserts(b, k) && FirstHalfInScope(b, k)
    requires |carry| == |Seam(b)| && |b.columns| <= |masks|
    requires x == State(Loaded(m, Seam(b), b.columns[..Width(b, k)], b.lagged, map[Sum := sum, RandomCoeff := randomCoeff], carry, masks),
                        [], masks[Width(b, k)..], {})
    requires u == State(Loaded(m, Seam(b), b.columns, b.lagged, Start(m, logSize, randomCoeff, sum), carry, masks),
                        [], masks[|b.columns|..], {})
    ensures SecondHalf(m, b, k, logSize, randomCoeff, Exec(m, Pairs(b.constraints[..Taken(b, k)]), x))
            == match Exec(m, Pairs(b.constraints[..Taken(b, k)]), u)
               case None => None
               case Some(u1) => Observed(Exec(m, Pairs(b.constraints[Taken(b, k)..]), u1))
  {
    AtTheCut(m, b, k, logSize, randomCoeff, sum, carry, masks, x, u);
    if Exec(m, Pairs(b.constraints[..Taken(b, k)]), x).Some? {
      AcrossTheCut(m, b, k, logSize, randomCoeff, sum, carry, masks, Exec(m, Pairs(b.constraints[..Taken(b, k)]), x).value,
                   u.env, Exec(m, Pairs(b.constraints[..Taken(b, k)]), u).value);
    }
  }

  lemma StartHas<V>(m: Meaning<V>, logSize: V, randomCoeff: V, sum: V)
    ensures var e := Start(m, logSize, randomCoeff, sum);
            && {Sum, RandomCoeff, ColumnSize} <= e.Keys && NoPrev(e.Keys)
            && e[Sum] == sum && e[RandomCoeff] == randomCoeff && e[ColumnSize] == m.columnSize(logSize)
  {
    var e := Start(m, logSize, randomCoeff, sum);
    assert e.Keys == {Sum, RandomCoeff, LogSize, ColumnSize};
  }

  lemma AcrossTheCut<V>(m: Meaning<V>, b: LookupBody, k: nat, logSize: V, randomCoeff: V, sum: V, carry: seq<V>, masks: seq<V>,
                        x1: State<V>, u: map<Name, V>, u1: State<V>)
    requires WellFormed(b) && ScriptAsserts(b, k) && FirstHalfInScope(b, k)
    requires |carry| == |Seam(b)| && |b.columns| <= |masks|
    requires u == Loaded(m, Seam(b), b.columns, b.lagged, Start(m, logSize, randomCoeff, sum), carry, masks)
    requires x1.trace == masks[Width(b, k)..] && u1.trace == masks[|b.columns|..]
    requires Sum in x1.env && Sum in u1.env && x1.env[Sum] == u1.env[Sum] && Bound(x1.env, MidCarry(b, k))
    requires forall n :: n in MidCarry(b, k) ==> n in u1.env && x1.env[n] == u1.env[n]
    requires forall n :: n in SecondNames(b, k) && n != Sum ==> AgreeAt(n, u, u1.env)
    ensures SecondHalf(m, b, k, logSize, randomCoeff, Some(x1)) == Observed(Exec(m, Pairs(b.constraints[Taken(b, k)..]), u1))
  {
    hide WellFormed, ScriptAsserts, FirstHalfInScope, MidCarry, SecondNames, Loaded, Width, Taken, Exec, Start, Agree, AgreeAt,
         NoPrev, Seam, Head, Pairs;
    var names, second := MidCarry(b, k), b.columns[Width(b, k)..];
    var e, mid := Start(m, logSize, randomCoeff, x1.env[Sum]), Lookup(x1.env, names);
    SizedRun(m, names, second, b.lagged, b.constraints[Taken(b, k)..], logSize, randomCoeff, x1.env[Sum], mid, x1.trace);
    var x2 := State(Loaded(m, names, second, b.lagged, e, mid, x1.trace), [], x1.trace[|second|..], {});
    assert x2.trace == u1.trace;
    StartHas(m, logSize, randomCoeff, x1.env[Sum]);
    StartHas(m, logSize, randomCoeff, sum);
    SecondStart(m, b, k, e, Start(m, logSize, randomCoeff, sum), carry, masks, x1.env, x2.env, u, u1.env);
    AfterTheCut(m, b, k, x2, u1);
  }

  /** Main result of the B side. Running half B1 and then half B2 on its carry is
      running the uncut constraint list: the same failure, or the same `sum` with
      the same mask columns consumed. */
  lemma HalvesPreserve<V>(m: Meaning<V>, b: LookupBody, k: nat, logSize: V, randomCoeff: V, sum: V, carry: seq<V>, masks: seq<V>)
    requires WellFormed(b) && ScriptAsserts(b, k) && FirstHalfInScope(b, k)
    ensures RunHalves(m, b, k, logSize, randomCoeff, sum, carry, masks)
            == RunWhole(m, b, logSize, randomCoeff, sum, carry, masks)
  {
    var e, s := map[Sum := sum, RandomCoeff := randomCoeff], Start(m, logSize, randomCoeff, sum);
    FirstHalfRun(m, b, k, State(e, carry, masks, {}));
    WholeRun(m, b, k, logSize, randomCoeff, sum, carry, masks);
    if |carry| == |Seam(b)| && Width(b, k) <= |masks| {
      var x := State(Loaded(m, Seam(b), b.columns[..Width(b, k)], b.lagged, e, carry, masks), [], masks[Width(b, k)..], {});
      if |masks| < |b.columns| {
        StartKept(m, b, k, b.columns[..Width(b, k)], e, carry, masks);
        ShortMasks(m, b, k, logSize, randomCoeff, x);
      } else {
        var u := State(Loaded(m, Seam(b), b.columns, b.lagged, s, carry, masks), [], masks[|b.columns|..], {});
        EnoughMasks(m, b, k, logSize, randomCoeff, sum, carry, masks, x, u);
      }
    }
  }

  /** Half B2 needs the rest of the mask columns. */
  lemma ShortMasks<V>(m: Meaning<V>, b: LookupBody, k: nat, logSize: V, randomCoeff: V, x: State<V>)
    requires WellFormed(b)
    requires |x.trace| < |b.columns| - Width(b, k) && Sum in x.env && RandomCoeff in x.env
    ensures SecondHalf(m, b, k, logSize, randomCoeff, Exec(m, Pairs(b.constraints[..Taken(b, k)]), x)).None?
  {
    var qs := b.constraints[..Taken(b, k)];
    if Exec(m, Pairs(qs), x).Some? {
      var names := (set q, n | q in qs && n in q.inputs :: n) + {Sum, RandomCoeff};
      forall q, n | q in qs && n in q.inputs ensures n in names && n != QUOTIENT {
        assert q in b.constraints;
      }
      WholeKeeps(m, qs, names, x);
      var s := Exec(m, Pairs(qs), x).value;
      if Bound(s.env, MidCarry(b, k)) {
        SizedRun(m, MidCarry(b, k), b.columns[Width(b, k)..], b.lagged, b.constraints[Taken(b, k)..], logSize, randomCoeff, s.env[Sum],
                 Lookup(s.env, MidCarry(b, k)), s.trace);
      }
    }
  }

  // --- when the cut fails -----------------------------------------------------------------

  /** Constraints that read a name nobody binds do not run. */
  lemma {:induction false} PairsUnbound<V>(m: Meaning<V>, qs: seq<Constraint>, q: Constraint, n: Name, st: State<V>)
    requires q in qs && n in q.inputs && n !in st.env && n != QUOTIENT && n != Sum
    requires Sum in st.env && RandomCoeff in st.env
    ensures Exec(m, Pairs(qs), st).None?
  {
    assert qs == [qs[0]] + qs[1..];
    PairsConcat([qs[0]], qs[1..]);
    ExecConcat(m, Pairs([qs[0]]), Pairs(qs[1..]), st);
    PairRuns(m, qs[0], st);
    if qs[0] != q && Exec(m, Pairs([qs[0]]), st).Some? {
      PairsUnbound(m, qs[1..], q, n, Exec(m, Pairs([qs[0]]), st).value);
    }
  }

  /** A name half B1 has no binding for, whatever its column stretch. */
  ghost predicate OutOfScope(b: LookupBody, first: seq<Name>, n: Name) {
    n == ColumnSize || (n.Prev? && n.column in b.lagged && n.column !in first)
  }

  lemma StartNames(names: set<Name>)
    requires names == {Sum, RandomCoeff}
    ensures NoPrev(names)
  {
  }

  lemma NotPopped(b: LookupBody, k: nat)
    requires WellFormed(b)
    ensures forall n :: n in Seam(b) || n in b.columns[..Width(b, k)] ==> n != ColumnSize && !n.Prev?
  {
    SeamNotColumns(b);
    MidNames(b, k);
  }

  lemma NotLoaded<V>(m: Meaning<V>, b: LookupBody, k: nat, n: Name, e: map<Name, V>, carry: seq<V>, masks: seq<V>)
    requires WellFormed(b) && OutOfScope(b, b.columns[..Width(b, k)], n)
    requires e.Keys == {Sum, RandomCoeff} && |carry| == |Seam(b)| && Width(b, k) <= |masks|
    ensures n !in Loaded(m, Seam(b), b.columns[..Width(b, k)], b.lagged, e, carry, masks)
  {
    hide WellFormed, Loaded, BindAll, Seam, NoPrev;
    assert NoPrev(e.Keys) by {
      StartNames(e.Keys);
    }
    FirstHolds(m, b, k, b.columns[..Width(b, k)], e, carry, masks);
    BindAllKeys(e, Seam(b), carry);
    NotPopped(b, k);
  }

  lemma ScopeNeeded<V>(m: Meaning<V>, b: LookupBody, k: nat, logSize: V, randomCoeff: V, sum: V, carry: seq<V>, masks: seq<V>)
    requires WellFormed(b) && !FirstHalfInScope(b, k)
    ensures RunHalves(m, b, k, logSize, randomCoeff, sum, carry, masks).None?
  {
    hide WellFormed, Loaded, BindAll;
    var q, n :| q in b.constraints[..Taken(b, k)] && n in q.inputs
                && !(n != ColumnSize && (n.Prev? && n.column in b.lagged ==> n.column in b.columns[..Width(b, k)]));
    var e, first := map[Sum := sum, RandomCoeff := randomCoeff], b.columns[..Width(b, k)];
    FirstHalfRun(m, b, k, State(e, carry, masks, {}));
    if |carry| == |Seam(b)| && Width(b, k) <= |masks| {
      var x := Loaded(m, Seam(b), first, b.lagged, e, carry, masks);
      NotLoaded(m, b, k, n, e, carry, masks);
      StartKept(m, b, k, first, e, carry, masks);
      PairsUnbound(m, b.constraints[..Taken(b, k)], q, n, State(x, [], masks[Width(b, k)..], {}));
    }
  }

  /** The script's asserts are enough exactly when half B1 reads neither
      `column_size` nor a look-back column of half B2: given that the uncut
      function runs, the halves run if and only if that holds. */
  lemma HalvesRunExactly<V>(m: Meaning<V>, b: LookupBody, k: nat, logSize: V, randomCoeff: V, sum: V, carry: seq<V>, masks: seq<V>)
    requires WellFormed(b) && ScriptAsserts(b, k)
    requires RunWhole(m, b, logSize, randomCoeff, sum, carry, masks).Some?
    ensures RunHalves(m, b, k, logSize, randomCoeff, sum, carry, masks).Some? <==> FirstHalfInScope(b, k)
  {
    if FirstHalfInScope(b, k) {
      HalvesPreserve(m, b, k, logSize, randomCoeff, sum, carry, masks);
    } else {
      ScopeNeeded(m, b, k, logSize, randomCoeff, sum, carry, masks);
    }
  }
}
