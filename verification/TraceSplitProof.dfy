/**
 What cutting an evaluation body computes: at every boundary the environment a
 part rebuilds agrees, on every word the part reads and every value it hands
 on, with the uncut run's environment once its inputs are read again.
 */
module TraceSplitProof {
  import opened Outcomes
  import opened EvalMachine
  import opened TraceSplit

  // --- what strip_unused_prelude does to an emitted part ----------------------

  lemma {:induction false} NotInTokens(n: Name, stmts: seq<Stmt>)
    requires forall s :: s in stmts ==> n !in Tokens(s)
    ensures n !in TokensOf(stmts)
  {
    if stmts != [] {
      NotInTokens(n, stmts[1..]);
    }
  }

  function KeptPrelude(words: set<Name>): seq<Stmt> {
    if ColumnSize in words then PRELUDE
    else if LogSize in words then [LetLogSize, LetClaimedSum]
    else [LetClaimedSum]
  }

  lemma OccurrencesAround(n: Name, pre: seq<Stmt>, mid: seq<Stmt>, tail: seq<Stmt>)
    requires forall s :: s in mid ==> n !in Tokens(s)
    ensures Occurrences(n, pre + mid + tail) == Occurrences(n, pre) + Occurrences(n, tail)
    ensures Occurrences(n, tail) == 0 <==> n !in Words(tail)
  {
    TokensConcat(pre, mid);
    TokensConcat(pre + mid, tail);
    CountConcat(n, TokensOf(pre), TokensOf(mid));
    CountConcat(n, TokensOf(pre + mid), TokensOf(tail));
    NotInTokens(n, mid);
    CountZero(n, TokensOf(mid));
    CountZero(n, TokensOf(tail));
  }

  lemma CountTwo(n: Name, x: Name, y: Name)
    ensures Count(n, [x, y]) == (if x == n then 1 else 0) + (if y == n then 1 else 0)
  {
    assert [x, y][1..] == [y] && [y][1..] == [];
    assert Count(n, [y]) == (if y == n then 1 else 0) + Count(n, []);
  }

  lemma OneLet(n: Name, s: Stmt)
    ensures Occurrences(n, [s]) == Count(n, Tokens(s))
  {
    assert [s][1..] == [] && TokensOf([s]) == Tokens(s) + TokensOf([]) == Tokens(s);
  }

  lemma OccurrencesConcat(n: Name, a: seq<Stmt>, c: seq<Stmt>)
    ensures Occurrences(n, a + c) == Occurrences(n, a) + Occurrences(n, c)
  {
    TokensConcat(a, c);
    CountConcat(n, TokensOf(a), TokensOf(c));
  }

  /** How often a name occurs in the three lets. */
  lemma LetsCount(n: Name)
    ensures Occurrences(n, [LetClaimedSum]) == Count(n, [ClaimedSum, Component])
    ensures Occurrences(n, [LetLogSize, LetClaimedSum]) == Count(n, [LogSize, Component]) + Count(n, [ClaimedSum, Component])
    ensures Occurrences(n, PRELUDE)
            == Count(n, [LogSize, Component]) + Count(n, [ClaimedSum, Component]) + Count(n, [ColumnSize, LogSize])
  {
    hide Occurrences, Count;
    var l, c, k := [LetLogSize], [LetClaimedSum], [LetColumnSize];
    OneLet(n, LetLogSize);
    OneLet(n, LetClaimedSum);
    OneLet(n, LetColumnSize);
    OccurrencesConcat(n, l, c);
    OccurrencesConcat(n, l + c, k);
    assert l + c == [LetLogSize, LetClaimedSum] && l + c + k == PRELUDE;
  }

  lemma PreludeTokens()
    ensures Occurrences(ColumnSize, PRELUDE) == 1 && Occurrences(LogSize, PRELUDE) == 2
    ensures Occurrences(ColumnSize, [LetLogSize, LetClaimedSum]) == 0 && Occurrences(LogSize, [LetLogSize, LetClaimedSum]) == 1
    ensures Occurrences(ColumnSize, [LetClaimedSum]) == 0 && Occurrences(LogSize, [LetClaimedSum]) == 0
  {
    hide Occurrences, Count;
    LetsCount(ColumnSize);
    LetsCount(LogSize);
    CountTwo(ColumnSize, LogSize, Component);
    CountTwo(ColumnSize, ClaimedSum, Component);
    CountTwo(ColumnSize, ColumnSize, LogSize);
    CountTwo(LogSize, LogSize, Component);
    CountTwo(LogSize, ClaimedSum, Component);
    CountTwo(LogSize, ColumnSize, LogSize);
  }

  lemma StripLogSize(mid: seq<Stmt>, tail: seq<Stmt>)
    requires forall s :: s in mid ==> ColumnSize !in Tokens(s) && LogSize !in Tokens(s)
    requires ColumnSize !in Words(tail)
    ensures Strip([LetLogSize, LetClaimedSum] + mid + tail) == Done(KeptPrelude(Words(tail)) + mid + tail)
  {
    hide Occurrences, Words, Tokens;
    var two, one := [LetLogSize, LetClaimedSum] + mid + tail, [LetClaimedSum] + mid + tail;
    PreludeTokens();
    OccurrencesAround(ColumnSize, [LetLogSize, LetClaimedSum], mid, tail);
    OccurrencesAround(LogSize, [LetLogSize, LetClaimedSum], mid, tail);
    if LogSize !in Words(tail) {
      assert two == [LetLogSize] + one;
      assert RemoveFirst(LetLogSize, two) == one;
      OccurrencesAround(ColumnSize, [LetClaimedSum], mid, tail);
      OccurrencesAround(LogSize, [LetClaimedSum], mid, tail);
      assert Strip(two) == Strip(one) == Done(one);
    }
  }

  /** Dropping unused prelude lines removes exactly the lets nothing in the
      tail needs, and always ends, when the three prelude lets are there. */
  lemma StripWithPrelude(mid: seq<Stmt>, tail: seq<Stmt>)
    requires forall s :: s in mid ==> ColumnSize !in Tokens(s) && LogSize !in Tokens(s)
    ensures Strip(PRELUDE + mid + tail) == Done(KeptPrelude(Words(tail)) + mid + tail)
  {
    hide Occurrences, Words, Tokens;
    var all := PRELUDE + mid + tail;
    OccurrencesAround(ColumnSize, PRELUDE, mid, tail);
    OccurrencesAround(LogSize, PRELUDE, mid, tail);
    PreludeTokens();
    if ColumnSize !in Words(tail) {
      var two := [LetLogSize, LetClaimedSum] + mid + tail;
      assert all == [LetLogSize, LetClaimedSum] + [LetColumnSize] + (mid + tail);
      assert two == [LetLogSize, LetClaimedSum] + (mid + tail);
      RemoveAfter([LetLogSize, LetClaimedSum], LetColumnSize, mid + tail);
      StripLogSize(mid, tail);
    }
  }

  /** A later part keeps all its lines; with a `log_size` of its own and no
      `column_size` it may instead never come out. */
  lemma StripWithoutPrelude(mid: seq<Stmt>, tail: seq<Stmt>)
    requires forall s :: s in mid ==> ColumnSize !in Tokens(s) && LogSize !in Tokens(s)
    requires forall s :: s in tail ==> s.Compute?
    requires ColumnSize !in Words(tail)
    ensures Strip([LetClaimedSum] + mid + tail) in {Done([LetClaimedSum] + mid + tail), Forever}
    ensures LogSize !in Words(tail) ==> Strip([LetClaimedSum] + mid + tail).Done?
  {
    OccurrencesAround(ColumnSize, [LetClaimedSum], mid, tail);
    OccurrencesAround(LogSize, [LetClaimedSum], mid, tail);
    assert LetLogSize !in [LetClaimedSum] + mid + tail by {
      assert forall s :: s in mid ==> s != LetLogSize;
    }
  }

  // --- what the preamble of a part binds -----------------------------------------

  lemma {:induction false} DeclNames(decls: seq<Stmt>)
    ensures forall n :: n in Accumulators(decls) <==> LetZero(n) in decls
    ensures forall n :: n in MaskReads(decls) <==> LetPreprocessed(n) in decls
  {
    if decls != [] {
      DeclNames(decls[1..]);
      assert decls == [decls[0]] + decls[1..];
    }
  }

  ghost predicate Declarations(decls: seq<Stmt>) {
    && (forall d :: d in decls ==> (d.LetZero? || d.LetPreprocessed?) && d.name.Ident?)
    && (forall n :: !(LetZero(n) in decls && LetPreprocessed(n) in decls))
  }

  lemma {:induction false} ExecDeclarations<V>(m: Meaning<V>, decls: seq<Stmt>, st: State<V>)
    requires Declarations(decls) && Component in st.env
    ensures Exec(m, decls, st).Some?
    ensures var st' := Exec(m, decls, st).value;
            && st'.carry == st.carry && st'.trace == st.trace
            && (forall n :: n in st'.marked <==> n in st.marked || LetPreprocessed(n) in decls)
            && (forall n :: n in st'.env <==> n in st.env || LetZero(n) in decls || LetPreprocessed(n) in decls)
            && (forall n :: LetZero(n) in decls ==> st'.env[n] == m.zero)
            && (forall n :: LetPreprocessed(n) in decls ==> st'.env[n] == m.preprocessed(n))
            && (forall n :: n in st.env && LetZero(n) !in decls && LetPreprocessed(n) !in decls
                            ==> st'.env[n] == st.env[n])
  {
    if decls != [] {
      assert decls == [decls[0]] + decls[1..];
      assert decls[0] in decls;
      assert LetZero(decls[0].name) == decls[0] || LetPreprocessed(decls[0].name) == decls[0];
      ExecDeclarations(m, decls[1..], Step(m, decls[0], st).value);
    }
  }

  lemma {:induction false} ExecPops<V>(m: Meaning<V>, names: seq<Name>, st: State<V>)
    requires |names| <= |st.carry|
    ensures Exec(m, Pops(names), st)
            == Some(st.(env := BindAll(st.env, names, st.carry[..|names|]), carry := st.carry[|names|..]))
    decreases names
  {
    if names != [] {
      assert Pops(names)[1..] == Pops(names[1..]);
      assert st.carry[..|names|][1..] == st.carry[1..][..|names| - 1];
      ExecPops(m, names[1..], Step(m, LetPopped(names[0]), st).value);
    }
  }

  /** A masked destructure binds the used columns to the same values as the
      full one. */
  lemma {:induction false} UnboxMasked<V>(m: Meaning<V>, columns: seq<Name>, masks: seq<V>,
                                          used: set<Name>, all: set<Name>, e: map<Name, V>, f: map<Name, V>)
    requires |columns| == |masks| && (forall c :: c in columns ==> c in all)
    ensures var x, y := Unbox(m, e, columns, masks, used, {}), Unbox(m, f, columns, masks, all, {});
            && (forall n :: n in x <==> n in e || (n in columns && n in used))
            && (forall n :: n in y <==> n in f || n in columns)
            && (forall n :: n in columns && n in used ==> x[n] == y[n])
            && (forall n :: n in e && !(n in columns && n in used) ==> x[n] == e[n])
            && (forall n :: n in f && n !in columns ==> y[n] == f[n])
    decreases columns
  {
    if columns != [] {
      var c := columns[0];
      assert columns == [c] + columns[1..];
      var e1 := if c in used then e[c := m.current(masks[0])] else e;
      UnboxMasked(m, columns[1..], masks[1..], used, all, e1, f[c := m.current(masks[0])]);
    }
  }

  lemma ReadMasksRun<V>(m: Meaning<V>, b: EvalBody, used: set<Name>, st: State<V>)
    ensures var r := Exec(m, [ReadMasks(b.columns, used, {})], st);
            && (r.Some? <==> |b.columns| <= |st.trace|)
            && (r.Some? ==>
                  && r.value == State(r.value.env, st.carry, st.trace[|b.columns|..], st.marked)
                  && (forall n :: n in r.value.env <==> n in st.env || (n in b.columns && n in used))
                  && (forall n :: n in b.columns && n in used ==>
                        n in ColumnValues(m, b, st.trace) && r.value.env[n] == ColumnValues(m, b, st.trace)[n])
                  && (forall n :: n in st.env && !(n in b.columns && n in used) ==> r.value.env[n] == st.env[n]))
  {
    var read := ReadMasks(b.columns, used, {});
    assert [read][1..] == [];
    assert Exec(m, [read], st) == Step(m, read, st);
    if |b.columns| <= |st.trace| {
      UnboxMasked(m, b.columns, st.trace[..|b.columns|], used, (set c | c in b.columns), st.env, map[]);
    }
  }

  // --- the run at a boundary ---------------------------------------------------------

  function HeadNames(b: EvalBody): set<Name> {
    {Sum, RandomCoeff, Component, LogSize, ClaimedSum, ColumnSize}
    + (set a | a in Accumulators(b.decls)) + (set a | a in MaskReads(b.decls))
  }

  ghost predicate HeadValues<V>(m: Meaning<V>, b: EvalBody, component: V, randomCoeff: V, env: map<Name, V>) {
    && HeadNames(b) <= env.Keys
    && env[Component] == component
    && env[RandomCoeff] == randomCoeff
    && env[LogSize] == m.logSize(component)
    && env[ClaimedSum] == m.claimedSum(component)
    && env[ColumnSize] == m.columnSize(m.logSize(component))
  }

  function BaseNames(b: EvalBody): set<Name> {
    HeadNames(b) + (set c | c in b.columns)
  }

  /** What the environment holds when `done` is the part of the tail already run. */
  ghost predicate Reached<V>(m: Meaning<V>, b: EvalBody, done: seq<Stmt>, component: V, randomCoeff: V, env: map<Name, V>) {
    && HeadValues(m, b, component, randomCoeff, env)
    && (forall n :: n in env <==> n in BaseNames(b) || n in DefinedIn(done))
  }

  /** The values the lines before the tail compute. */
  ghost predicate FirstValues<V>(m: Meaning<V>, b: EvalBody, trace: seq<V>, u: map<Name, V>) {
    && (forall a :: a in Accumulators(b.decls) ==> a in u && u[a] == m.zero)
    && (forall n :: n in MaskReads(b.decls) ==> n in u && u[n] == m.preprocessed(n))
    && (|b.columns| <= |trace| ==>
          forall c :: c in b.columns ==> c in u && c in ColumnValues(m, b, trace) && u[c] == ColumnValues(m, b, trace)[c])
  }

  lemma PreludeRuns<V>(m: Meaning<V>, st: State<V>)
    requires Component in st.env
    ensures var l := m.logSize(st.env[Component]);
            Exec(m, PRELUDE, st) == Some(st.(env := st.env[LogSize := l][ClaimedSum := m.claimedSum(st.env[Component])]
                                                          [ColumnSize := m.columnSize(l)]))
  {
    var two, one := [LetClaimedSum, LetColumnSize], [LetColumnSize];
    assert PRELUDE[1..] == two && two[1..] == one && one[1..] == [];
    var s1 := Step(m, LetLogSize, st).value;
    var s2 := Step(m, LetClaimedSum, s1).value;
    assert Exec(m, one, s2) == Step(m, LetColumnSize, s2);
    assert Exec(m, two, s1) == Exec(m, one, s2);
  }

  /** The prelude's declarations, run where only fixed names are bound. */
  lemma DeclarationsRun<V>(m: Meaning<V>, b: EvalBody, s: State<V>) returns (mid: State<V>)
    requires WellFormed(b) && Component in s.env && forall n :: n in s.env ==> !n.Ident?
    ensures Exec(m, b.decls, s) == Some(mid)
    ensures mid.env.Keys == s.env.Keys + (set a | a in Accumulators(b.decls)) + (set a | a in MaskReads(b.decls))
    ensures forall n :: n in s.env ==> mid.env[n] == s.env[n]
    ensures forall a :: a in Accumulators(b.decls) ==> mid.env[a] == m.zero
    ensures forall n :: n in MaskReads(b.decls) ==> mid.env[n] == m.preprocessed(n)
    ensures mid == State(mid.env, s.carry, s.trace, s.marked + set n | n in MaskReads(b.decls))
  {
    DeclNames(b.decls);
    ExecDeclarations(m, b.decls, s);
    mid := Exec(m, b.decls, s).value;
    assert forall n :: n in mid.env <==> n in s.env || n in Accumulators(b.decls) || n in MaskReads(b.decls);
    assert mid.marked == s.marked + set n | n in MaskReads(b.decls);
    forall n | n in s.env ensures LetZero(n) !in b.decls && LetPreprocessed(n) !in b.decls {
      assert !n.Ident?;
    }
  }

  lemma DeclaredHead<V>(m: Meaning<V>, b: EvalBody, component: V, randomCoeff: V, f: Flow<V>) returns (s: State<V>)
    requires WellFormed(b)
    ensures Exec(m, PRELUDE + b.decls, Entry(component, randomCoeff, f)) == Some(s)
    ensures HeadValues(m, b, component, randomCoeff, s.env) && s.env.Keys == HeadNames(b)
    ensures s.env[Sum] == f.sum
    ensures forall a :: a in Accumulators(b.decls) ==> s.env[a] == m.zero
    ensures forall n :: n in MaskReads(b.decls) ==> s.env[n] == m.preprocessed(n)
    ensures s == State(s.env, f.carry, f.trace, f.marked + set n | n in MaskReads(b.decls))
  {
    var e := Entry(component, randomCoeff, f);
    PreludeRuns(m, e);
    var s1 := Exec(m, PRELUDE, e).value;
    assert s1.env.Keys == {Sum, RandomCoeff, Component, LogSize, ClaimedSum, ColumnSize};
    ExecConcat(m, PRELUDE, b.decls, e);
    s := DeclarationsRun(m, b, s1);
  }

  lemma ColumnsAreFresh(b: EvalBody)
    requires WellFormed(b)
    ensures forall n :: n in HeadNames(b) ==> n !in b.columns
    ensures Sum in HeadNames(b) && forall a :: a in Accumulators(b.decls) || a in MaskReads(b.decls) ==> a in HeadNames(b)
  {
  }

  lemma HeadKept<V>(m: Meaning<V>, b: EvalBody, component: V, randomCoeff: V, e: map<Name, V>, r: map<Name, V>)
    requires HeadValues(m, b, component, randomCoeff, e)
    requires HeadNames(b) <= r.Keys
    requires forall n :: n in {RandomCoeff, Component, LogSize, ClaimedSum, ColumnSize} ==> r[n] == e[n]
    ensures HeadValues(m, b, component, randomCoeff, r)
  {
  }

  lemma KeysRead<V>(b: EvalBody, e: map<Name, V>, r: map<Name, V>)
    requires e.Keys == HeadNames(b) && forall n :: n in r <==> n in e || n in b.columns
    ensures forall n :: n in r <==> n in BaseNames(b) || n in DefinedIn([])
  {
    hide HeadNames;
  }

  /** The environment once the columns are read. */
  lemma ColumnsRead<V>(m: Meaning<V>, b: EvalBody, component: V, randomCoeff: V, e: map<Name, V>, r: map<Name, V>)
    requires WellFormed(b) && HeadValues(m, b, component, randomCoeff, e) && e.Keys == HeadNames(b)
    requires forall n :: n in r <==> n in e || n in b.columns
    requires forall n :: n in e && n !in b.columns ==> r[n] == e[n]
    ensures Reached(m, b, [], component, randomCoeff, r)
    ensures forall n :: n in Accumulators(b.decls) || n in MaskReads(b.decls) || n == Sum ==> r[n] == e[n]
  {
    hide WellFormed, HeadValues, BaseNames;
    ColumnsAreFresh(b);
    HeadKept(m, b, component, randomCoeff, e, r);
    KeysRead(b, e, r);
  }

  lemma FirstRead<V>(m: Meaning<V>, b: EvalBody, component: V, randomCoeff: V, trace: seq<V>, e: map<Name, V>, r: map<Name, V>)
    requires HeadValues(m, b, component, randomCoeff, e) && |b.columns| <= |trace|
    requires forall n :: n in e ==> n in r
    requires forall n :: n in Accumulators(b.decls) || n in MaskReads(b.decls) ==> r[n] == e[n]
    requires forall a :: a in Accumulators(b.decls) ==> e[a] == m.zero
    requires forall n :: n in MaskReads(b.decls) ==> e[n] == m.preprocessed(n)
    requires forall c :: c in b.columns ==> c in r && c in ColumnValues(m, b, trace) && r[c] == ColumnValues(m, b, trace)[c]
    ensures FirstValues(m, b, trace, r)
  {
    hide ColumnValues;
  }

  lemma HeadRuns<V>(m: Meaning<V>, b: EvalBody, component: V, randomCoeff: V, f: Flow<V>)
    requires WellFormed(b)
    ensures var r := Exec(m, Head(b), Entry(component, randomCoeff, f));
            && (r.Some? <==> |b.columns| <= |f.trace|)
            && (r.Some? ==>
                  && Reached(m, b, [], component, randomCoeff, r.value.env)
                  && FirstValues(m, b, f.trace, r.value.env)
                  && r.value.env[Sum] == f.sum
                  && r.value.carry == f.carry && r.value.trace == f.trace[|b.columns|..]
                  && r.value.marked == f.marked + set n | n in MaskReads(b.decls))
  {
    hide WellFormed, HeadValues, Reached, FirstValues, ColumnValues, HeadNames;
    var all := set c | c in b.columns;
    var e := Entry(component, randomCoeff, f);
    var s := DeclaredHead(m, b, component, randomCoeff, f);
    ExecConcat(m, PRELUDE + b.decls, [ReadMasks(b.columns, all, {})], e);
    ReadMasksRun(m, b, all, s);
    var r := Exec(m, [ReadMasks(b.columns, all, {})], s);
    if r.Some? {
      ColumnsRead(m, b, component, randomCoeff, s.env, r.value.env);
      FirstRead(m, b, component, randomCoeff, f.trace, s.env, r.value.env);
    }
  }

  // --- reading the inputs again --------------------------------------------------------

  /** The inputs among `words` have their fresh values. */
  ghost predicate InputsFresh<V>(m: Meaning<V>, b: EvalBody, words: set<Name>, trace: seq<V>, w: map<Name, V>)
    requires |b.columns| <= |trace|
  {
    && (forall n :: n in words && n in MaskReads(b.decls) ==> n in w && w[n] == m.preprocessed(n))
    && (forall c :: c in words && c in b.columns ==> c in w && c in ColumnValues(m, b, trace) && w[c] == ColumnValues(m, b, trace)[c])
  }

  lemma RefreshFacts<V>(m: Meaning<V>, b: EvalBody, words: set<Name>, trace: seq<V>, u: map<Name, V>)
    requires WellFormed(b) && |b.columns| <= |trace| && BaseNames(b) <= u.Keys
    ensures var w := Refresh(m, b, words, trace, u);
            && w.Keys == u.Keys
            && InputsFresh(m, b, words, trace, w)
            && forall n :: n in u && n !in InputNames(b, words) ==> w[n] == u[n]
  {
    UnboxMasked(m, b.columns, trace[..|b.columns|], {}, (set c | c in b.columns), map[], map[]);
    forall n | n in MaskReads(b.decls) || n in b.columns ensures n in u {
      assert n in BaseNames(b);
    }
  }

  lemma InputsAreApart(b: EvalBody, words: set<Name>)
    requires WellFormed(b)
    ensures forall n :: n in InputNames(b, words) ==> n.Ident? && n !in Accumulators(b.decls)
  {
    DeclNames(b.decls);
    forall n | n in InputNames(b, words) ensures n.Ident? && n !in Accumulators(b.decls) {
      if n in MaskReads(b.decls) {
        assert LetPreprocessed(n) in b.decls;
      }
    }
  }

  lemma RefreshReached<V>(m: Meaning<V>, b: EvalBody, done: seq<Stmt>, words: set<Name>, component: V, randomCoeff: V,
                          trace: seq<V>, u: map<Name, V>)
    requires WellFormed(b) && |b.columns| <= |trace| && Reached(m, b, done, component, randomCoeff, u)
    ensures Reached(m, b, done, component, randomCoeff, Refresh(m, b, words, trace, u))
  {
    hide WellFormed, HeadValues, Refresh, ColumnValues, HeadNames, InputNames;
    InputsAreApart(b, words);
    RefreshFacts(m, b, words, trace, u);
    HasHead(m, b, component, randomCoeff, u);
    HeadKept(m, b, component, randomCoeff, u, Refresh(m, b, words, trace, u));
  }

  lemma HasHead<V>(m: Meaning<V>, b: EvalBody, component: V, randomCoeff: V, u: map<Name, V>)
    requires HeadValues(m, b, component, randomCoeff, u)
    ensures HeadNames(b) <= u.Keys && {Sum, RandomCoeff, Component, LogSize, ClaimedSum, ColumnSize} <= u.Keys
    ensures u[ClaimedSum] == m.claimedSum(component)
  {
  }

  // --- a part's environment agrees with the refreshed one -------------------------------

  /** Everything part p reads or hands on. */
  function PartNames(b: EvalBody, words: set<Name>, tmps: seq<Name>): set<Name> {
    words + {Sum, ClaimedSum} + (set a | a in Accumulators(b.decls)) + (set t | t in tmps)
  }

  lemma {:induction false} ReadsRun<V>(m: Meaning<V>, names: seq<Name>, st: State<V>)
    requires Component in st.env && Component !in names
    ensures Exec(m, Reads(names), st).Some?
    ensures var st' := Exec(m, Reads(names), st).value;
            && st'.carry == st.carry && st'.trace == st.trace
            && (forall n :: n in st'.marked <==> n in st.marked || n in names)
            && (forall n :: n in st'.env <==> n in st.env || n in names)
            && (forall n :: n in names ==> st'.env[n] == m.preprocessed(n))
            && (forall n :: n in st.env && n !in names ==> st'.env[n] == st.env[n])
    decreases names
  {
    if names != [] {
      assert Reads(names)[1..] == Reads(names[1..]);
      assert names == [names[0]] + names[1..];
      ReadsRun(m, names[1..], Step(m, LetPreprocessed(names[0]), st).value);
    }
  }

  ghost predicate Within<V>(e: map<Name, V>, u: map<Name, V>) {
    forall n :: n in e ==> n in u && e[n] == u[n]
  }

  lemma InputsRun<V>(m: Meaning<V>, b: EvalBody, words: set<Name>, st: State<V>, w: map<Name, V>)
    requires WellFormed(b) && Component in st.env
    requires forall n :: n in st.env && n !in InputNames(b, words) ==> n in w && w[n] == st.env[n]
    requires |b.columns| <= |st.trace| ==> InputsFresh(m, b, words, st.trace, w)
    ensures var r := Exec(m, Inputs(b, words), st);
            && (r.Some? <==> |b.columns| <= |st.trace|)
            && (r.Some? ==>
                  && r.value.env.Keys == st.env.Keys + InputNames(b, words)
                  && Within(r.value.env, w)
                  && r.value.carry == st.carry && r.value.trace == st.trace[|b.columns|..]
                  && r.value.marked == st.marked + set n | n in MaskReads(b.decls) && n in words)
  {
    hide ColumnValues, InputsFresh, Within;
    var used := Filter(MaskReads(b.decls), words);
    FilterMembers(MaskReads(b.decls), words);
    DeclNames(b.decls);
    ReadsRun(m, used, st);
    var mid := Exec(m, Reads(used), st).value;
    ExecConcat(m, Reads(used), [ReadMasks(b.columns, words, {})], st);
    ReadMasksRun(m, b, words, mid);
    var r := Exec(m, Inputs(b, words), st);
    if r.Some? {
      assert forall n :: n in InputNames(b, words) <==> n in used || (n in b.columns && n in words);
      ReadWithin(m, b, words, used, st.trace, st.env, mid.env, r.value.env, w);
    }
  }

  /** The environments before, between and after the two kinds of reads. */
  lemma ReadWithin<V>(m: Meaning<V>, b: EvalBody, words: set<Name>, used: seq<Name>, trace: seq<V>, s: map<Name, V>,
                      e: map<Name, V>, r: map<Name, V>, w: map<Name, V>)
    requires |b.columns| <= |trace| && InputsFresh(m, b, words, trace, w)
    requires forall n :: n in used <==> n in MaskReads(b.decls) && n in words
    requires forall n :: n in InputNames(b, words) <==> n in used || (n in b.columns && n in words)
    requires forall n :: n in s && n !in InputNames(b, words) ==> n in w && w[n] == s[n]
    requires forall n :: n in e <==> n in s || n in used
    requires forall n :: n in used ==> e[n] == m.preprocessed(n)
    requires forall n :: n in s && n !in used ==> e[n] == s[n]
    requires forall n :: n in r <==> n in e || (n in b.columns && n in words)
    requires forall n :: n in b.columns && n in words ==> n in ColumnValues(m, b, trace) && r[n] == ColumnValues(m, b, trace)[n]
    requires forall n :: n in e && !(n in b.columns && n in words) ==> r[n] == e[n]
    ensures Within(r, w) && r.Keys == s.Keys + InputNames(b, words)
  {
    hide ColumnValues, InputNames;
  }

  /** What part p's environment holds when its tail statements start. */
  function EntryNames(b: EvalBody, words: set<Name>, tmps: seq<Name>): set<Name> {
    {Sum, RandomCoeff, Component, ClaimedSum} + (set a | a in Accumulators(b.decls)) + (set t | t in tmps)
    + InputNames(b, words)
  }

  /** A name the part reads or hands on, and the uncut run binds, is one its
      environment holds. */
  lemma EntryHas(b: EvalBody, defined: seq<Name>, words: set<Name>, tmps: seq<Name>, n: Name)
    requires n in PartNames(b, words, tmps) && (n in BaseNames(b) || n in defined)
    requires n in defined && n in words && n !in NotCarried(b) ==> n in tmps
    ensures n in EntryNames(b, words, tmps) + words * {LogSize, ColumnSize}
  {
    if n in words && n in BaseNames(b) {
      assert n in NotCarried(b) || n in MaskReads(b.decls) || n in {Sum, RandomCoeff, Component};
    }
  }

  /** An environment that holds those values, taken from the run, agrees with it
      on everything the part reads or hands on. */
  lemma EntryAgrees<V>(m: Meaning<V>, b: EvalBody, done: seq<Stmt>, words: set<Name>, tmps: seq<Name>,
                       component: V, randomCoeff: V, e: map<Name, V>, u: map<Name, V>)
    requires WellFormed(b) && Reached(m, b, done, component, randomCoeff, u)
    requires forall n :: n in DefinedIn(done) && n in words && n !in NotCarried(b) ==> n in tmps
    requires EntryNames(b, words, tmps) + words * {LogSize, ColumnSize} <= e.Keys
    requires Within(e, u)
    ensures Agree(PartNames(b, words, tmps), e, u)
  {
    hide WellFormed, HeadValues, EntryNames, PartNames, BaseNames, NotCarried;
    forall n | n in PartNames(b, words, tmps) && n in u ensures n in e {
      EntryHas(b, DefinedIn(done), words, tmps, n);
    }
  }

  /** What tail statements define is never a fixed name. */
  lemma {:induction false} TailDefines(b: EvalBody, stmts: seq<Stmt>)
    requires WellFormed(b) && forall s :: s in stmts ==> s in b.tail
    ensures forall n :: n in DefinedIn(stmts) ==> n.Ident?
  {
    if stmts != [] {
      assert stmts[0] in b.tail;
      TailDefines(b, stmts[1..]);
    }
  }

  // --- the preamble of a part ---------------------------------------------------------

  lemma CarriedNames(b: EvalBody, cuts: seq<nat>, p: nat)
    requires WellFormed(b) && ValidCuts(b, cuts) && 0 < p <= |cuts|
    ensures forall n :: n in BoundaryTmps(b, cuts, p) <==>
              n in DefinedIn(Before(b, cuts, p)) && n in Words(Rest(b, cuts, p)) && n !in NotCarried(b)
    ensures forall n :: n in Accumulators(b.decls) + BoundaryTmps(b, cuts, p) ==> n.Ident?
    ensures Words(TailPart(b, cuts, p)) <= Words(Rest(b, cuts, p))
  {
    CollectMembers(DefinedIn(Before(b, cuts, p)), Words(Rest(b, cuts, p)), NotCarried(b), []);
    PartsOfTail(b, cuts, p);
    PartsOfTail(b, cuts, p - 1);
    TailDefines(b, Before(b, cuts, p));
    DeclNames(b.decls);
  }

  function Extra(words: set<Name>): set<Name> {
    if ColumnSize in words then {LogSize, ColumnSize} else {}
  }

  /** The first lines of a later part, before it reads its carry. */
  lemma LaterHead<V>(m: Meaning<V>, b: EvalBody, words: set<Name>, component: V, randomCoeff: V, u: map<Name, V>, f: Flow<V>)
    returns (s: State<V>)
    requires HeadValues(m, b, component, randomCoeff, u) && f.sum == u[Sum]
    ensures Exec(m, if ColumnSize in words then PRELUDE else [LetClaimedSum], Entry(component, randomCoeff, f)) == Some(s)
    ensures s == State(s.env, f.carry, f.trace, f.marked)
    ensures s.env.Keys == {Sum, RandomCoeff, Component, ClaimedSum} + Extra(words) && Within(s.env, u)
  {
    var st := Entry(component, randomCoeff, f);
    if ColumnSize in words {
      PreludeRuns(m, st);
      s := Exec(m, PRELUDE, st).value;
    } else {
      s := Step(m, LetClaimedSum, st).value;
      assert [LetClaimedSum][1..] == [] && Exec(m, [], s) == Some(s);
    }
  }

  /** Popping the carry restores the uncut values of the carried names. */
  lemma PopsRestore<V>(m: Meaning<V>, names: seq<Name>, s: State<V>, u: map<Name, V>) returns (t: State<V>)
    requires Bound(u, names) && s.carry == Lookup(u, names) && Within(s.env, u)
    ensures Exec(m, Pops(names) + [CarryEmpty], s) == Some(t)
    ensures t == State(t.env, [], s.trace, s.marked)
    ensures t.env.Keys == s.env.Keys + (set n | n in names) && Within(t.env, u)
  {
    ExecPops(m, names, s);
    assert s.carry[..|names|] == s.carry && s.carry[|names|..] == [];
    BindAllCopies(s.env, names, u);
    t := s.(env := BindAll(s.env, names, s.carry), carry := []);
    assert [CarryEmpty][1..] == [] && Exec(m, [CarryEmpty], t) == Some(t);
    ExecConcat(m, Pops(names), [CarryEmpty], s);
  }

  lemma ExecChain<V>(m: Meaning<V>, head: seq<Stmt>, mid: seq<Stmt>, inputs: seq<Stmt>, part: seq<Stmt>,
                     e: State<V>, s1: State<V>, s2: State<V>, s3: State<V>)
    requires Exec(m, head, e) == Some(s1) && Exec(m, mid, s1) == Some(s2) && Exec(m, inputs, s2) == Some(s3)
    ensures Exec(m, head + (mid + inputs) + part, e) == Exec(m, part, s3)
  {
    ExecConcat(m, mid, inputs, s1);
    ExecConcat(m, head, mid + inputs, e);
    ExecConcat(m, head + (mid + inputs), part, e);
  }

  /** A part's emitted lines, by what they depend on. */
  function LaterLines(b: EvalBody, words: set<Name>, tmps: seq<Name>): seq<Stmt> {
    (if ColumnSize in words then PRELUDE else [LetClaimedSum])
    + (Pops(Accumulators(b.decls) + tmps) + [CarryEmpty] + Inputs(b, words))
  }

  lemma EntryKeys(b: EvalBody, words: set<Name>, tmps: seq<Name>, head: set<Name>, all: set<Name>)
    requires {Sum, RandomCoeff, Component, ClaimedSum} + Extra(words) <= head
    requires head + (set n | n in Accumulators(b.decls) + tmps) + InputNames(b, words) <= all
    ensures EntryNames(b, words, tmps) + Extra(words) <= all
  {
    forall a | a in Accumulators(b.decls) || a in tmps ensures a in all {
      assert a in Accumulators(b.decls) + tmps;
    }
  }

  lemma LaterLinesRun<V>(m: Meaning<V>, b: EvalBody, words: set<Name>, tmps: seq<Name>, part: seq<Stmt>,
                         component: V, randomCoeff: V, u: map<Name, V>, f: Flow<V>) returns (start: State<V>)
    requires WellFormed(b) && |b.columns| <= |f.trace| && BaseNames(b) <= u.Keys
    requires HeadValues(m, b, component, randomCoeff, u) && f.sum == u[Sum]
    requires Bound(u, Accumulators(b.decls) + tmps) && f.carry == Lookup(u, Accumulators(b.decls) + tmps)
    ensures Exec(m, LaterLines(b, words, tmps) + part, Entry(component, randomCoeff, f)) == Exec(m, part, start)
    ensures EntryNames(b, words, tmps) + Extra(words) <= start.env.Keys
    ensures Within(start.env, Refresh(m, b, words, f.trace, u))
    ensures start == State(start.env, [], f.trace[|b.columns|..], f.marked + set n | n in MaskReads(b.decls) && n in words)
  {
    hide WellFormed, HeadValues, Refresh, InputsFresh, EntryNames, InputNames;
    var names := Accumulators(b.decls) + tmps;
    var head := if ColumnSize in words then PRELUDE else [LetClaimedSum];
    var s1 := LaterHead(m, b, words, component, randomCoeff, u, f);
    var s2 := PopsRestore(m, names, s1, u);
    RefreshFacts(m, b, words, f.trace, u);
    InputsRun(m, b, words, s2, Refresh(m, b, words, f.trace, u));
    start := Exec(m, Inputs(b, words), s2).value;
    ExecChain(m, head, Pops(names) + [CarryEmpty], Inputs(b, words), part, Entry(component, randomCoeff, f), s1, s2, start);
    EntryKeys(b, words, tmps, s1.env.Keys, start.env.Keys);
  }

  /** A later part, fed the values of the names it pops, reaches its tail
      statements in agreement with the refreshed run. */
  lemma LaterPreamble<V>(m: Meaning<V>, b: EvalBody, cuts: seq<nat>, p: nat, component: V, randomCoeff: V,
                         u: map<Name, V>, f: Flow<V>) returns (start: State<V>)
    requires WellFormed(b) && ValidCuts(b, cuts) && 0 < p <= |cuts| && |b.columns| <= |f.trace|
    requires Reached(m, b, Before(b, cuts, p), component, randomCoeff, u)
    requires Bound(u, Accumulators(b.decls) + BoundaryTmps(b, cuts, p))
    requires f.carry == Lookup(u, Accumulators(b.decls) + BoundaryTmps(b, cuts, p)) && f.sum == u[Sum]
    requires var words := Words(TailPart(b, cuts, p)); LogSize in words ==> ColumnSize in words
    ensures Exec(m, Blocks(b, cuts, p), Entry(component, randomCoeff, f)) == Exec(m, TailPart(b, cuts, p), start)
    ensures var words := Words(TailPart(b, cuts, p));
            && Agree(PartNames(b, words, BoundaryTmps(b, cuts, p)), start.env, Refresh(m, b, words, f.trace, u))
            && start == State(start.env, [], f.trace[|b.columns|..], f.marked + set n | n in MaskReads(b.decls) && n in words)
  {
    hide WellFormed, HeadValues, Refresh, Words, BoundaryTmps, TailPart, EntryNames, BaseNames;
    var words, tmps := Words(TailPart(b, cuts, p)), BoundaryTmps(b, cuts, p);
    CarriedNames(b, cuts, p);
    start := LaterLinesRun(m, b, words, tmps, TailPart(b, cuts, p), component, randomCoeff, u, f);
    RefreshReached(m, b, Before(b, cuts, p), words, component, randomCoeff, f.trace, u);
    EntryAgrees(m, b, Before(b, cuts, p), words, tmps, component, randomCoeff, start.env, Refresh(m, b, words, f.trace, u));
  }

  lemma {:induction false} ZerosRun<V>(m: Meaning<V>, names: seq<Name>, st: State<V>)
    ensures Exec(m, Zeros(names), st).Some?
    ensures var st' := Exec(m, Zeros(names), st).value;
            && st' == st.(env := st'.env)
            && st'.env.Keys == st.env.Keys + (set n | n in names)
            && (forall n :: n in names ==> st'.env[n] == m.zero)
            && (forall n :: n in st.env && n !in names ==> st'.env[n] == st.env[n])
    decreases names
  {
    if names != [] {
      assert Zeros(names)[1..] == Zeros(names[1..]);
      assert names == [names[0]] + names[1..];
      ZerosRun(m, names[1..], Step(m, LetZero(names[0]), st).value);
    }
  }

  lemma KeptRuns<V>(m: Meaning<V>, b: EvalBody, words: set<Name>, component: V, randomCoeff: V, u: map<Name, V>, f: Flow<V>)
    returns (s: State<V>)
    requires HeadValues(m, b, component, randomCoeff, u) && f.sum == u[Sum]
    ensures Exec(m, KeptPrelude(words), Entry(component, randomCoeff, f)) == Some(s)
    ensures s == State(s.env, f.carry, f.trace, f.marked)
    ensures {Sum, RandomCoeff, Component, ClaimedSum} + words * {LogSize, ColumnSize} <= s.env.Keys && Within(s.env, u)
    ensures forall n :: n in s.env ==> !n.Ident?
  {
    hide Words;
    var st := Entry(component, randomCoeff, f);
    if ColumnSize in words || LogSize !in words {
      s := LaterHead(m, b, words, component, randomCoeff, u, f);
    } else {
      var s1 := Step(m, LetLogSize, st).value;
      s := Step(m, LetClaimedSum, s1).value;
      var two := [LetLogSize, LetClaimedSum];
      assert two[1..] == [LetClaimedSum] && [LetClaimedSum][1..] == [] && Exec(m, [], s) == Some(s);
      assert Exec(m, [LetClaimedSum], s1) == Some(s);
    }
  }

  /** The first emitted part once unused prelude lines are dropped. */
  function FirstMiddle(b: EvalBody, cuts: seq<nat>): seq<Stmt>
    requires ValidCuts(b, cuts)
  {
    if cuts == [] then b.decls + [ReadMasks(b.columns, (set c | c in b.columns), {})]
    else Zeros(Accumulators(b.decls)) + Inputs(b, Words(TailPart(b, cuts, 0)))
  }

  /** Lines that never mention `column_size` or `log_size`. */
  ghost predicate Plain(stmts: seq<Stmt>) {
    forall s :: s in stmts ==> ColumnSize !in Tokens(s) && LogSize !in Tokens(s)
  }

  lemma PlainLines(names: seq<Name>)
    requires forall n :: n in names ==> n.Ident?
    ensures Plain(Reads(names)) && Plain(Pops(names)) && Plain(Zeros(names))
  {
    forall s | s in Reads(names) ensures ColumnSize !in Tokens(s) && LogSize !in Tokens(s) {
      assert s.name in names;
    }
    forall s | s in Pops(names) ensures ColumnSize !in Tokens(s) && LogSize !in Tokens(s) {
      assert s.name in names;
    }
    forall s | s in Zeros(names) ensures ColumnSize !in Tokens(s) && LogSize !in Tokens(s) {
      assert s.name in names;
    }
  }

  lemma InputsPlain(b: EvalBody, words: set<Name>)
    requires WellFormed(b)
    ensures Plain(Inputs(b, words))
  {
    var used := Filter(MaskReads(b.decls), words);
    DeclNames(b.decls);
    FilterMembers(MaskReads(b.decls), words);
    forall n | n in used ensures n.Ident? {
      assert LetPreprocessed(n) in b.decls;
    }
    PlainLines(used);
    assert Plain([ReadMasks(b.columns, words, {})]);
  }

  lemma DeclaredPlain(b: EvalBody)
    requires WellFormed(b)
    ensures Plain(b.decls) && Plain([ReadMasks(b.columns, (set c | c in b.columns), {})])
    ensures forall n :: n in Accumulators(b.decls) ==> n.Ident?
  {
    DeclNames(b.decls);
    forall n | n in Accumulators(b.decls) ensures n.Ident? {
      assert LetZero(n) in b.decls;
    }
  }

  lemma FirstMiddlePlain(b: EvalBody, cuts: seq<nat>)
    requires WellFormed(b) && ValidCuts(b, cuts)
    ensures Plain(FirstMiddle(b, cuts))
  {
    hide Words, TailPart, Inputs, Zeros;
    DeclaredPlain(b);
    InputsPlain(b, Words(TailPart(b, cuts, 0)));
    PlainLines(Accumulators(b.decls));
  }

  function LaterMiddle(b: EvalBody, cuts: seq<nat>, p: nat): seq<Stmt>
    requires ValidCuts(b, cuts) && 0 < p <= |cuts|
  {
    Pops(Accumulators(b.decls) + BoundaryTmps(b, cuts, p)) + [CarryEmpty] + Inputs(b, Words(TailPart(b, cuts, p)))
  }

  lemma LaterMiddlePlain(b: EvalBody, cuts: seq<nat>, p: nat)
    requires WellFormed(b) && ValidCuts(b, cuts) && 0 < p <= |cuts|
    ensures Plain(LaterMiddle(b, cuts, p))
  {
    CarriedNames(b, cuts, p);
    InputsPlain(b, Words(TailPart(b, cuts, p)));
    PlainLines(Accumulators(b.decls) + BoundaryTmps(b, cuts, p));
  }

  lemma FirstBlocks(b: EvalBody, cuts: seq<nat>)
    requires ValidCuts(b, cuts)
    ensures Blocks(b, cuts, 0) == PRELUDE + FirstMiddle(b, cuts) + TailPart(b, cuts, 0)
  {
    if cuts == [] {
      SinglePart(b);
      var read := [ReadMasks(b.columns, (set c | c in b.columns), {})];
      assert PRELUDE + b.decls + read == PRELUDE + (b.decls + read);
    }
  }

  lemma FirstPartText(b: EvalBody, cuts: seq<nat>)
    requires WellFormed(b) && ValidCuts(b, cuts)
    ensures var t := TailPart(b, cuts, 0);
            Strip(Blocks(b, cuts, 0)) == Done(KeptPrelude(Words(t)) + FirstMiddle(b, cuts) + t)
  {
    var t := TailPart(b, cuts, 0);
    FirstMiddlePlain(b, cuts);
    StripWithPrelude(FirstMiddle(b, cuts), t);
    FirstBlocks(b, cuts);
  }

  /** The names the first part marks. */
  function FirstMarks(b: EvalBody, cuts: seq<nat>): set<Name>
    requires ValidCuts(b, cuts)
  {
    set n | n in MaskReads(b.decls) && (cuts == [] || n in Words(TailPart(b, cuts, 0)))
  }

  lemma DeclaredWithin<V>(m: Meaning<V>, b: EvalBody, trace: seq<V>, s: map<Name, V>, e: map<Name, V>, u: map<Name, V>)
    requires FirstValues(m, b, trace, u) && Within(s, u)
    requires e.Keys == s.Keys + (set a | a in Accumulators(b.decls)) + (set a | a in MaskReads(b.decls))
    requires forall n :: n in s ==> e[n] == s[n]
    requires forall a :: a in Accumulators(b.decls) ==> e[a] == m.zero
    requires forall n :: n in MaskReads(b.decls) ==> e[n] == m.preprocessed(n)
    ensures Within(e, u)
  {
    hide ColumnValues;
  }

  lemma ColumnsWithin<V>(m: Meaning<V>, b: EvalBody, trace: seq<V>, e: map<Name, V>, r: map<Name, V>, u: map<Name, V>)
    requires FirstValues(m, b, trace, u) && |b.columns| <= |trace| && Within(e, u)
    requires forall n :: n in r <==> n in e || n in b.columns
    requires forall n :: n in b.columns ==> n in ColumnValues(m, b, trace) && r[n] == ColumnValues(m, b, trace)[n]
    requires forall n :: n in e && n !in b.columns ==> r[n] == e[n]
    ensures Within(r, u)
    ensures r.Keys == e.Keys + set c | c in b.columns
  {
    hide ColumnValues;
  }

  lemma SingleMiddleRuns<V>(m: Meaning<V>, b: EvalBody, u: map<Name, V>, s: State<V>)
    requires WellFormed(b) && FirstValues(m, b, s.trace, u)
    requires Component in s.env && Within(s.env, u) && forall n :: n in s.env ==> !n.Ident?
    ensures var r := Exec(m, FirstMiddle(b, []), s);
            && (r.Some? <==> |b.columns| <= |s.trace|)
            && (r.Some? ==>
                  && s.env.Keys + (set a | a in Accumulators(b.decls)) + (set a | a in MaskReads(b.decls))
                     + (set c | c in b.columns) == r.value.env.Keys
                  && Within(r.value.env, u)
                  && r.value == State(r.value.env, s.carry, s.trace[|b.columns|..], s.marked + set n | n in MaskReads(b.decls)))
  {
    hide WellFormed, ColumnValues, FirstValues, Within;
    var all := set c | c in b.columns;
    var mid := DeclarationsRun(m, b, s);
    DeclaredWithin(m, b, s.trace, s.env, mid.env, u);
    ExecConcat(m, b.decls, [ReadMasks(b.columns, all, {})], s);
    ReadMasksRun(m, b, all, mid);
    var r := Exec(m, [ReadMasks(b.columns, all, {})], mid);
    if r.Some? {
      ColumnsWithin(m, b, s.trace, mid.env, r.value.env, u);
    }
  }

  lemma ZerosWithin<V>(m: Meaning<V>, b: EvalBody, words: set<Name>, trace: seq<V>, s: map<Name, V>, e: map<Name, V>, u: map<Name, V>)
    requires FirstValues(m, b, trace, u) && Within(s, u)
    requires e.Keys == s.Keys + (set a | a in Accumulators(b.decls))
    requires forall a :: a in Accumulators(b.decls) ==> e[a] == m.zero
    requires forall n :: n in s && n !in Accumulators(b.decls) ==> e[n] == s[n]
    ensures Within(e, u)
    ensures |b.columns| <= |trace| ==> InputsFresh(m, b, words, trace, u)
  {
    hide ColumnValues;
  }

  lemma CutMiddleRuns<V>(m: Meaning<V>, b: EvalBody, words: set<Name>, u: map<Name, V>, s: State<V>)
    requires WellFormed(b) && FirstValues(m, b, s.trace, u)
    requires Component in s.env && Within(s.env, u)
    ensures var r := Exec(m, Zeros(Accumulators(b.decls)) + Inputs(b, words), s);
            && (r.Some? <==> |b.columns| <= |s.trace|)
            && (r.Some? ==>
                  && s.env.Keys + (set a | a in Accumulators(b.decls)) + InputNames(b, words) == r.value.env.Keys
                  && Within(r.value.env, u)
                  && r.value == State(r.value.env, s.carry, s.trace[|b.columns|..],
                                      s.marked + set n | n in MaskReads(b.decls) && n in words))
  {
    hide WellFormed, FirstValues, InputsFresh;
    var zeros := Zeros(Accumulators(b.decls));
    ZerosRun(m, Accumulators(b.decls), s);
    var mid := Exec(m, zeros, s).value;
    ExecConcat(m, zeros, Inputs(b, words), s);
    ZerosWithin(m, b, words, s.trace, s.env, mid.env, u);
    InputsRun(m, b, words, mid, u);
  }

  lemma FirstLines<V>(m: Meaning<V>, words: set<Name>, middle: seq<Stmt>, t: seq<Stmt>, e: State<V>, s1: State<V>)
    requires Exec(m, KeptPrelude(words), e) == Some(s1)
    ensures Exec(m, KeptPrelude(words) + middle + t, e)
            == match Exec(m, middle, s1) case None => None case Some(s2) => Exec(m, t, s2)
  {
    ExecConcat(m, KeptPrelude(words), middle, e);
    ExecConcat(m, KeptPrelude(words) + middle, t, e);
  }

  /** The first part's lines before its tail statements. */
  lemma FirstMiddleRuns<V>(m: Meaning<V>, b: EvalBody, cuts: seq<nat>, words: set<Name>, u: map<Name, V>, s: State<V>)
    requires WellFormed(b) && ValidCuts(b, cuts) && words == Words(TailPart(b, cuts, 0))
    requires FirstValues(m, b, s.trace, u)
    requires Component in s.env && Within(s.env, u) && forall n :: n in s.env ==> !n.Ident?
    ensures var r := Exec(m, FirstMiddle(b, cuts), s);
            && (r.Some? <==> |b.columns| <= |s.trace|)
            && (r.Some? ==>
                  && s.env.Keys + (set a | a in Accumulators(b.decls)) + InputNames(b, words) <= r.value.env.Keys
                  && Within(r.value.env, u)
                  && r.value == State(r.value.env, s.carry, s.trace[|b.columns|..], s.marked + FirstMarks(b, cuts)))
  {
    hide WellFormed, FirstValues, Words, TailPart;
    if cuts == [] {
      SingleMiddleRuns(m, b, u, s);
      assert FirstMarks(b, cuts) == set n | n in MaskReads(b.decls);
    } else {
      CutMiddleRuns(m, b, words, u, s);
      assert FirstMarks(b, cuts) == set n | n in MaskReads(b.decls) && n in words;
    }
  }

  /** The first part reaches its tail statements in agreement with the uncut
      run, and fails before them exactly when the trace is too short. */
  lemma FirstPreamble<V>(m: Meaning<V>, b: EvalBody, cuts: seq<nat>, words: set<Name>, middle: seq<Stmt>, t: seq<Stmt>,
                         component: V, randomCoeff: V, f: Flow<V>, u: map<Name, V>) returns (start: Option<State<V>>)
    requires WellFormed(b) && ValidCuts(b, cuts)
    requires t == TailPart(b, cuts, 0) && words == Words(t) && middle == FirstMiddle(b, cuts)
    requires FirstValues(m, b, f.trace, u)
    requires HeadValues(m, b, component, randomCoeff, u) && u[Sum] == f.sum
    requires |b.columns| <= |f.trace| ==> Reached(m, b, [], component, randomCoeff, u)
    ensures start.Some? <==> |b.columns| <= |f.trace|
    ensures Exec(m, KeptPrelude(words) + middle + t, Entry(component, randomCoeff, f))
            == match start case None => None case Some(s) => Exec(m, t, s)
    ensures start.Some? ==>
              && Agree(PartNames(b, words, []), start.value.env, u)
              && start.value == State(start.value.env, f.carry, f.trace[|b.columns|..], f.marked + FirstMarks(b, cuts))
  {
    hide WellFormed, FirstValues, HeadValues, Reached, TailPart, Words;
    var s1 := KeptRuns(m, b, words, component, randomCoeff, u, f);
    FirstMiddleRuns(m, b, cuts, words, u, s1);
    FirstLines(m, words, middle, t, Entry(component, randomCoeff, f), s1);
    start := Exec(m, middle, s1);
    if start.Some? {
      assert DefinedIn([]) == [];
      EntryAgrees(m, b, [], words, [], component, randomCoeff, start.value.env, u);
    }
  }

  /** One part's tail statements, run in agreement with the uncut run, leave
      the uncut values of everything the part hands on. */
  lemma PartStep<V>(m: Meaning<V>, part: seq<Stmt>, names: set<Name>, packs: seq<Name>, start: State<V>, u: State<V>)
    requires forall s :: s in part ==> s.Compute?
    requires Words(part) <= names && Sum in names && Sum in u.env
    requires Agree(names, start.env, u.env)
    requires forall n :: n in packs ==> n in names && (n in u.env || n in DefinedIn(part))
    requires forall s :: s in part ==> forall x :: x in s.updates ==> x in names
    ensures var r := Exec(m, part, u);
            && (r.None? ==> Leave(Exec(m, part, start), packs).None?)
            && (r.Some? ==>
                  && Sum in r.value.env && Bound(r.value.env, packs)
                  && Leave(Exec(m, part, start), packs)
                     == Some(Flow(Lookup(r.value.env, packs), r.value.env[Sum], start.trace, start.marked)))
  {
    ExecAgree(m, part, names, start, u);
    var r := Exec(m, part, u);
    if r.Some? {
      ExecFrame(m, part, names, u);
      var e := Exec(m, part, start).value.env;
      assert Lookup(e, packs) == Lookup(r.value.env, packs);
    }
  }

  function Mutable(b: EvalBody): set<Name> {
    {Sum} + (set a | a in Accumulators(b.decls))
  }

  lemma TailUpdates(b: EvalBody, part: seq<Stmt>)
    requires WellFormed(b) && forall s :: s in part ==> s in b.tail
    ensures forall s :: s in part ==> s.Compute? && forall x :: x in s.updates ==> x in Mutable(b)
  {
  }

  lemma AdvanceReached<V>(m: Meaning<V>, b: EvalBody, done: seq<Stmt>, part: seq<Stmt>, component: V, randomCoeff: V,
                          u: map<Name, V>, v: map<Name, V>)
    requires WellFormed(b) && Reached(m, b, done, component, randomCoeff, u)
    requires forall n :: n in v <==> n in u || n in DefinedIn(part)
    requires forall n :: n in u && n != Sum && n !in Accumulators(b.decls) && n !in DefinedIn(part) ==> v[n] == u[n]
    requires forall n :: n in DefinedIn(part) || n in Accumulators(b.decls) ==> n.Ident?
    ensures Reached(m, b, done + part, component, randomCoeff, v)
  {
    hide WellFormed, HeadValues, BaseNames, DefinedIn;
    DefinedConcat(done, part);
    HasHead(m, b, component, randomCoeff, u);
    HeadKept(m, b, component, randomCoeff, u, v);
    var before, more := DefinedIn(done), DefinedIn(part);
    assert forall n :: n in v <==> n in BaseNames(b) || n in before + more;
  }

  lemma TailStep<V>(m: Meaning<V>, b: EvalBody, done: seq<Stmt>, part: seq<Stmt>, component: V, randomCoeff: V, u: State<V>)
    requires WellFormed(b) && forall s :: s in part ==> s in b.tail
    requires Reached(m, b, done, component, randomCoeff, u.env)
    ensures var r := Exec(m, part, u);
            r.Some? ==> r.value == u.(env := r.value.env)
                        && Reached(m, b, done + part, component, randomCoeff, r.value.env)
  {
    hide Reached, WellFormed;
    var r := Exec(m, part, u);
    if r.Some? {
      TailDefines(b, part);
      TailUpdates(b, part);
      AccumulatorsApart(b);
      ExecFrame(m, part, Mutable(b), u);
      AdvanceReached(m, b, done, part, component, randomCoeff, u.env, r.value.env);
    }
  }

  lemma AccumulatorsApart(b: EvalBody)
    requires WellFormed(b)
    ensures forall n :: n in Accumulators(b.decls) ==> n.Ident? && n !in b.columns && n !in MaskReads(b.decls)
    ensures Sum !in b.columns && Sum !in MaskReads(b.decls)
  {
    DeclNames(b.decls);
    forall n | n in Accumulators(b.decls) ensures n.Ident? {
      assert LetZero(n) in b.decls;
    }
  }

  /** The key step: every value carried across the boundary after part p is
      carried across the boundary before it or defined in part p. */
  lemma CarryInherits(b: EvalBody, cuts: seq<nat>, p: nat)
    requires WellFormed(b) && ValidCuts(b, cuts) && p < |cuts|
    ensures forall n :: n in BoundaryTmps(b, cuts, p + 1) ==>
              (p > 0 && n in BoundaryTmps(b, cuts, p)) || n in DefinedIn(TailPart(b, cuts, p))
  {
    PartsOfTail(b, cuts, p);
    CarriedNames(b, cuts, p + 1);
    if p > 0 {
      CarriedNames(b, cuts, p);
    } else {
      assert Before(b, cuts, 0) == [];
    }
  }

  function CarriedInto(b: EvalBody, cuts: seq<nat>, p: nat): seq<Name>
    requires ValidCuts(b, cuts) && p <= |cuts|
  {
    if p == 0 then [] else BoundaryTmps(b, cuts, p)
  }

  lemma PacksInScope(b: EvalBody, cuts: seq<nat>, p: nat)
    requires WellFormed(b) && ValidCuts(b, cuts) && p <= |cuts|
    ensures forall n :: n in Packs(b, cuts, p) ==>
              || n == ClaimedSum || n in Accumulators(b.decls) || n in CarriedInto(b, cuts, p)
              || n in DefinedIn(TailPart(b, cuts, p))
    ensures forall n :: n in CarriedInto(b, cuts, p) ==> n in DefinedIn(Before(b, cuts, p))
  {
    if p < |cuts| {
      CarryInherits(b, cuts, p);
    }
    if p > 0 {
      CarriedNames(b, cuts, p);
    }
  }

  /** `h` is what a part hands on when the run goes through `part` from `u`: the
      values of `packs` and `sum`, or a failure together. */
  ghost predicate PartOutcome<V>(m: Meaning<V>, b: EvalBody, done: seq<Stmt>, part: seq<Stmt>, packs: seq<Name>,
                                 component: V, randomCoeff: V, u: State<V>, h: Option<Flow<V>>,
                                 trace: seq<V>, marked: set<Name>)
  {
    match Exec(m, part, u)
    case None => h.None?
    case Some(v) =>
      && v == u.(env := v.env)
      && Reached(m, b, done + part, component, randomCoeff, v.env)
      && Bound(v.env, packs)
      && h == Some(Flow(Lookup(v.env, packs), v.env[Sum], trace, marked))
  }

  /** Part p against the run, from its tail statements on. */
  lemma PartAgainstRun<V>(m: Meaning<V>, b: EvalBody, cuts: seq<nat>, p: nat, part: seq<Stmt>, packs: seq<Name>,
                          component: V, randomCoeff: V, start: State<V>, u: State<V>)
    requires WellFormed(b) && ValidCuts(b, cuts) && p <= |cuts|
    requires part == TailPart(b, cuts, p) && packs == Packs(b, cuts, p)
    requires Reached(m, b, Before(b, cuts, p), component, randomCoeff, u.env)
    requires Agree(PartNames(b, Words(part), CarriedInto(b, cuts, p)), start.env, u.env)
    ensures PartOutcome(m, b, Before(b, cuts, p), part, packs, component, randomCoeff, u,
                        Leave(Exec(m, part, start), packs), start.trace, start.marked)
  {
    var names := PartNames(b, Words(part), CarriedInto(b, cuts, p));
    PartsOfTail(b, cuts, p);
    PacksInScope(b, cuts, p);
    DefinedAreWords(part);
    TailStep(m, b, Before(b, cuts, p), part, component, randomCoeff, u);
    PartStep(m, part, names, packs, start, u);
  }

  // --- whole runs ------------------------------------------------------------------------

  /** The preprocessed reads used by the tail from part p on. */
  function MarksFrom(b: EvalBody, cuts: seq<nat>, p: nat): set<Name>
    requires ValidCuts(b, cuts) && p <= |cuts| + 1
  {
    set n | n in MaskReads(b.decls) && n in Words(Rest(b, cuts, p))
  }

  /** What a finished run hands to half B. */
  function Finish<V>(b: EvalBody, r: Option<State<V>>, marked: set<Name>): Option<Flow<V>> {
    match Leave(r, [ClaimedSum] + b.seam)
    case None => None
    case Some(f) => Some(f.(marked := marked))
  }

  ghost predicate Emitted(b: EvalBody, cuts: seq<nat>, parts: seq<Part>)
    requires ValidCuts(b, cuts)
  {
    && |parts| == |cuts| + 1
    && (forall p :: 0 <= p <= |cuts| ==> Strip(Blocks(b, cuts, p)) == Done(parts[p].stmts) && parts[p].packs == Packs(b, cuts, p))
  }

  lemma LaterPartText(b: EvalBody, cuts: seq<nat>, p: nat)
    requires WellFormed(b) && ValidCuts(b, cuts) && 0 < p <= |cuts|
    ensures Strip(Blocks(b, cuts, p)) in {Done(Blocks(b, cuts, p)), Forever}
    ensures var words := Words(TailPart(b, cuts, p));
            (LogSize in words ==> ColumnSize in words) ==> Strip(Blocks(b, cuts, p)).Done?
  {
    var part := TailPart(b, cuts, p);
    LaterMiddlePlain(b, cuts, p);
    PartsOfTail(b, cuts, p);
    if ColumnSize in Words(part) {
      StripWithPrelude(LaterMiddle(b, cuts, p), part);
    } else {
      StripWithoutPrelude(LaterMiddle(b, cuts, p), part);
    }
  }

  lemma CarrySplit<V>(m: Meaning<V>, b: EvalBody, cuts: seq<nat>, p: nat, component: V, u: map<Name, V>, carry: seq<V>)
    requires ValidCuts(b, cuts) && 0 < p <= |cuts|
    requires Bound(u, Packs(b, cuts, p - 1)) && carry == Lookup(u, Packs(b, cuts, p - 1))
    requires u[ClaimedSum] == m.claimedSum(component)
    ensures carry != [] && carry[0] == m.claimedSum(component)
    ensures Bound(u, Accumulators(b.decls) + BoundaryTmps(b, cuts, p))
    ensures carry[1..] == Lookup(u, Accumulators(b.decls) + BoundaryTmps(b, cuts, p))
  {
    hide BoundaryTmps, TailPart;
    var packs, carried := Packs(b, cuts, p - 1), Accumulators(b.decls) + BoundaryTmps(b, cuts, p);
    assert packs == [ClaimedSum] + carried;
    forall n | n in carried ensures n in u {
      var i :| 0 <= i < |carried| && carried[i] == n;
      assert packs[i + 1] == n;
    }
    forall i | 0 <= i < |carried| ensures carry[1..][i] == Lookup(u, carried)[i] {
      assert packs[i + 1] == carried[i];
    }
  }

  /** A later part, run on the values it was handed. */
  lemma LaterPart<V>(m: Meaning<V>, b: EvalBody, cuts: seq<nat>, p: nat, component: V, randomCoeff: V, f: Flow<V>, u: State<V>)
    requires WellFormed(b) && ValidCuts(b, cuts) && 0 < p <= |cuts| && |b.columns| <= |f.trace|
    requires var words := Words(TailPart(b, cuts, p)); LogSize in words ==> ColumnSize in words
    requires Reached(m, b, Before(b, cuts, p), component, randomCoeff, u.env)
    requires Bound(u.env, Accumulators(b.decls) + BoundaryTmps(b, cuts, p))
    requires f.carry == Lookup(u.env, Accumulators(b.decls) + BoundaryTmps(b, cuts, p)) && f.sum == u.env[Sum]
    ensures PartOutcome(m, b, Before(b, cuts, p), TailPart(b, cuts, p), Packs(b, cuts, p), component, randomCoeff,
                        Reread(m, b, cuts, p, f.trace, u),
                        Leave(Exec(m, Blocks(b, cuts, p), Entry(component, randomCoeff, f)), Packs(b, cuts, p)),
                        f.trace[|b.columns|..], f.marked + set n | n in MaskReads(b.decls) && n in Words(TailPart(b, cuts, p)))
  {
    hide WellFormed, Reached, Refresh, Words, TailPart, BoundaryTmps, Packs, Blocks;
    var words := Words(TailPart(b, cuts, p));
    var start := LaterPreamble(m, b, cuts, p, component, randomCoeff, u.env, f);
    RefreshReached(m, b, Before(b, cuts, p), words, component, randomCoeff, f.trace, u.env);
    PartAgainstRun(m, b, cuts, p, TailPart(b, cuts, p), Packs(b, cuts, p), component, randomCoeff, start,
                   Reread(m, b, cuts, p, f.trace, u));
  }

  lemma EmittedPart(b: EvalBody, cuts: seq<nat>, parts: seq<Part>, p: nat)
    requires WellFormed(b) && ValidCuts(b, cuts) && 0 < p <= |cuts| && Emitted(b, cuts, parts)
    ensures parts[p] == Part(Blocks(b, cuts, p), Packs(b, cuts, p))
  {
    LaterPartText(b, cuts, p);
  }

  lemma RunPart<V>(m: Meaning<V>, parts: seq<Part>, p: nat, stmts: seq<Stmt>, packs: seq<Name>, component: V, randomCoeff: V,
                   f: Flow<V>, h: Option<Flow<V>>)
    requires 0 < p < |parts| && f.carry != [] && m.rebuild(f.carry[0]) == component && parts[p] == Part(stmts, packs)
    requires h == Leave(Exec(m, stmts, Entry(component, randomCoeff, f.(carry := f.carry[1..]))), packs)
    ensures h.None? ==> RunParts(m, parts, p, component, randomCoeff, f).None?
    ensures h.Some? && p + 1 == |parts| ==> RunParts(m, parts, p, component, randomCoeff, f) == h
    ensures h.Some? && p + 1 < |parts| ==>
              RunParts(m, parts, p, component, randomCoeff, f)
              == RunParts(m, parts, p + 1, component, randomCoeff, h.value.(trace := f.trace))
  {
    if h.Some? && p + 1 == |parts| {
      assert RunParts(m, parts, p + 1, component, randomCoeff, h.value) == h;
    }
  }

  lemma MarksSplit(b: EvalBody, cuts: seq<nat>, p: nat, marked: set<Name>)
    requires ValidCuts(b, cuts) && p <= |cuts|
    ensures marked + (set n | n in MaskReads(b.decls) && n in Words(TailPart(b, cuts, p))) + MarksFrom(b, cuts, p + 1)
            == marked + MarksFrom(b, cuts, p)
    ensures p == |cuts| ==>
              && marked + (set n | n in MaskReads(b.decls) && n in Words(TailPart(b, cuts, p))) == marked + MarksFrom(b, cuts, p)
              && Rest(b, cuts, p + 1) == []
  {
    hide Words, TailPart, Rest;
    PartsOfTail(b, cuts, p);
    if p == |cuts| {
      NothingLeft(b, cuts);
    }
  }

  lemma NothingLeft(b: EvalBody, cuts: seq<nat>)
    requires ValidCuts(b, cuts)
    ensures Rest(b, cuts, |cuts| + 1) == [] && Words(Rest(b, cuts, |cuts| + 1)) == {}
  {
    assert Rest(b, cuts, |cuts| + 1) == [];
  }

  /** What a boundary's carry and the run have in common. */
  ghost predicate AtBoundary<V>(m: Meaning<V>, b: EvalBody, cuts: seq<nat>, p: nat, component: V, randomCoeff: V,
                                f: Flow<V>, u: State<V>)
    requires ValidCuts(b, cuts) && 0 < p <= |cuts|
  {
    && |b.columns| <= |f.trace|
    && Reached(m, b, Before(b, cuts, p), component, randomCoeff, u.env)
    && Bound(u.env, Packs(b, cuts, p - 1))
    && f.carry == Lookup(u.env, Packs(b, cuts, p - 1))
    && f.sum == u.env[Sum]
    && u.trace == f.trace[|b.columns|..]
  }

  lemma OutcomeCarries<V>(m: Meaning<V>, b: EvalBody, cuts: seq<nat>, p: nat, component: V, randomCoeff: V, f: Flow<V>,
                          u: State<V>, h: Option<Flow<V>>, marked: set<Name>)
    requires ValidCuts(b, cuts) && p <= |cuts| && |b.columns| <= |f.trace| && u.trace == f.trace[|b.columns|..]
    requires PartOutcome(m, b, Before(b, cuts, p), TailPart(b, cuts, p), Packs(b, cuts, p), component, randomCoeff, u, h,
                         f.trace[|b.columns|..], marked)
    ensures var v := Exec(m, TailPart(b, cuts, p), u);
            && (h.Some? <==> v.Some?)
            && (h.Some? ==>
                  && h.value.marked == marked
                  && (p < |cuts| ==> AtBoundary(m, b, cuts, p + 1, component, randomCoeff, h.value.(trace := f.trace), v.value))
                  && (p == |cuts| ==> Finish(b, v, h.value.marked) == h))
  {
    hide Reached, Words, TailPart, BoundaryTmps, Before, HeadValues;
    PartsOfTail(b, cuts, p);
    var part := TailPart(b, cuts, p);
    match Exec(m, part, u)
    case None =>
    case Some(v) => HasSum(m, b, Before(b, cuts, p) + part, component, randomCoeff, v.env);
  }

  lemma HasSum<V>(m: Meaning<V>, b: EvalBody, done: seq<Stmt>, component: V, randomCoeff: V, env: map<Name, V>)
    requires Reached(m, b, done, component, randomCoeff, env)
    ensures Sum in env
  {
  }

  /** Running part p across its boundaries. */
  lemma BoundaryStep<V>(m: Meaning<V>, b: EvalBody, cuts: seq<nat>, p: nat, component: V, randomCoeff: V, f: Flow<V>,
                        u: State<V>) returns (h: Option<Flow<V>>)
    requires WellFormed(b) && ValidCuts(b, cuts) && 0 < p <= |cuts|
    requires var words := Words(TailPart(b, cuts, p)); LogSize in words ==> ColumnSize in words
    requires AtBoundary(m, b, cuts, p, component, randomCoeff, f, u)
    ensures f.carry != [] && f.carry[0] == m.claimedSum(component)
    ensures h == Leave(Exec(m, Blocks(b, cuts, p), Entry(component, randomCoeff, f.(carry := f.carry[1..]))), Packs(b, cuts, p))
    ensures var v := Exec(m, TailPart(b, cuts, p), Reread(m, b, cuts, p, f.trace, u));
            && (h.Some? <==> v.Some?)
            && (h.Some? ==>
                  && h.value.marked == f.marked + (set n | n in MaskReads(b.decls) && n in Words(TailPart(b, cuts, p)))
                  && (p < |cuts| ==> AtBoundary(m, b, cuts, p + 1, component, randomCoeff, h.value.(trace := f.trace), v.value))
                  && (p == |cuts| ==> Finish(b, v, h.value.marked) == h))
  {
    hide WellFormed, HeadValues, Refresh, PartOutcome, Words, TailPart, Packs, BoundaryTmps, Blocks;
    HasHead(m, b, component, randomCoeff, u.env);
    CarrySplit(m, b, cuts, p, component, u.env, f.carry);
    LaterPart(m, b, cuts, p, component, randomCoeff, f.(carry := f.carry[1..]), u);
    h := Leave(Exec(m, Blocks(b, cuts, p), Entry(component, randomCoeff, f.(carry := f.carry[1..]))), Packs(b, cuts, p));
    OutcomeCarries(m, b, cuts, p, component, randomCoeff, f, Reread(m, b, cuts, p, f.trace, u), h,
                   f.marked + set n | n in MaskReads(b.decls) && n in Words(TailPart(b, cuts, p)));
  }

  lemma {:induction false} LaterParts<V>(m: Meaning<V>, b: EvalBody, cuts: seq<nat>, parts: seq<Part>, p: nat,
                                         component: V, randomCoeff: V, f: Flow<V>, u: State<V>)
    requires WellFormed(b) && ValidCuts(b, cuts) && 0 < p <= |cuts|
    requires LogSizeThroughColumnSize(b, cuts) && Emitted(b, cuts, parts)
    requires m.rebuild(m.claimedSum(component)) == component
    requires AtBoundary(m, b, cuts, p, component, randomCoeff, f, u)
    ensures RunParts(m, parts, p, component, randomCoeff, f)
            == Finish(b, RunReread(m, b, cuts, p, f.trace, u), f.marked + MarksFrom(b, cuts, p))
    decreases |cuts| - p
  {
    hide WellFormed, Reached, Reread, Words, TailPart, Blocks, Packs, MarksFrom;
    EmittedPart(b, cuts, parts, p);
    var h := BoundaryStep(m, b, cuts, p, component, randomCoeff, f, u);
    RunPart(m, parts, p, Blocks(b, cuts, p), Packs(b, cuts, p), component, randomCoeff, f, h);
    MarksSplit(b, cuts, p, f.marked);
    if h.Some? && p < |cuts| {
      var v := Exec(m, TailPart(b, cuts, p), Reread(m, b, cuts, p, f.trace, u)).value;
      LaterParts(m, b, cuts, parts, p + 1, component, randomCoeff, h.value.(trace := f.trace), v);
    }
  }

  /** The preprocessed reads the emitted parts mark as used. */
  function Marks(b: EvalBody, cuts: seq<nat>): set<Name> {
    set n | n in MaskReads(b.decls) && (cuts == [] || n in Words(b.tail))
  }

  lemma WholeTail(b: EvalBody, cuts: seq<nat>)
    requires ValidCuts(b, cuts)
    ensures Rest(b, cuts, 0) == b.tail && Before(b, cuts, 0) == []
  {
    assert Bounds(b, cuts)[0] == 0;
  }

  lemma SinglePart(b: EvalBody)
    ensures TailPart(b, [], 0) == b.tail && Rest(b, [], 1) == []
  {
    assert Bounds(b, []) == [0, |b.tail|];
  }

  lemma MarksFirst(b: EvalBody, cuts: seq<nat>, marked: set<Name>)
    requires WellFormed(b) && ValidCuts(b, cuts)
    ensures cuts == [] ==> FirstMarks(b, cuts) == Marks(b, cuts)
    ensures cuts != [] ==> marked + FirstMarks(b, cuts) + MarksFrom(b, cuts, 1) == marked + Marks(b, cuts)
  {
    hide WellFormed, Words, TailPart, Rest;
    WholeTail(b, cuts);
    if cuts == [] {
      assert forall n :: n in FirstMarks(b, cuts) <==> n in Marks(b, cuts);
    } else {
      var first := set n | n in MaskReads(b.decls) && n in Words(TailPart(b, cuts, 0));
      assert FirstMarks(b, cuts) == first;
      assert Marks(b, cuts) == MarksFrom(b, cuts, 0);
      MarksSplit(b, cuts, 0, marked);
    }
  }

  lemma ForkTerminates(b: EvalBody, cuts: seq<nat>) returns (parts: seq<Part>)
    requires WellFormed(b) && ValidCuts(b, cuts) && LogSizeThroughColumnSize(b, cuts)
    ensures ForkA(b, cuts) == Some(parts) && Emitted(b, cuts, parts)
    ensures var t := TailPart(b, cuts, 0);
            parts[0] == Part(KeptPrelude(Words(t)) + FirstMiddle(b, cuts) + t, Packs(b, cuts, 0))
  {
    FirstPartText(b, cuts);
    forall p | 0 <= p <= |cuts| ensures Strip(Blocks(b, cuts, p)).Done? {
      if p > 0 {
        LaterPartText(b, cuts, p);
      }
    }
    parts := ForkA(b, cuts).value;
  }

  lemma AtStart<V>(m: Meaning<V>, b: EvalBody, cuts: seq<nat>, component: V, randomCoeff: V, env: map<Name, V>)
    requires ValidCuts(b, cuts) && Reached(m, b, [], component, randomCoeff, env)
    ensures CarriedInto(b, cuts, 0) == [] && HeadValues(m, b, component, randomCoeff, env) && Sum in env
  {
  }

  /** The first part, run with no carry. */
  lemma FirstStep<V>(m: Meaning<V>, b: EvalBody, cuts: seq<nat>, component: V, randomCoeff: V, f: Flow<V>, u: State<V>,
                     stmts: seq<Stmt>) returns (h: Option<Flow<V>>)
    requires WellFormed(b) && ValidCuts(b, cuts) && |b.columns| <= |f.trace|
    requires var t := TailPart(b, cuts, 0); stmts == KeptPrelude(Words(t)) + FirstMiddle(b, cuts) + t
    requires Reached(m, b, [], component, randomCoeff, u.env) && u.env[Sum] == f.sum
    requires FirstValues(m, b, f.trace, u.env) && u.trace == f.trace[|b.columns|..]
    ensures h == Leave(Exec(m, stmts, Entry(component, randomCoeff, f)), Packs(b, cuts, 0))
    ensures var v := Exec(m, TailPart(b, cuts, 0), u);
            && (h.Some? <==> v.Some?)
            && (h.Some? ==>
                  && h.value.marked == f.marked + FirstMarks(b, cuts)
                  && (cuts != [] ==> AtBoundary(m, b, cuts, 1, component, randomCoeff, h.value.(trace := f.trace), v.value))
                  && (cuts == [] ==> Finish(b, v, h.value.marked) == h))
  {
    hide *;
    var t := TailPart(b, cuts, 0);
    WholeTail(b, cuts);
    AtStart(m, b, cuts, component, randomCoeff, u.env);
    var start := FirstPreamble(m, b, cuts, Words(t), FirstMiddle(b, cuts), t, component, randomCoeff, f, u.env);
    PartAgainstRun(m, b, cuts, 0, t, Packs(b, cuts, 0), component, randomCoeff, start.value, u);
    h := Leave(Exec(m, stmts, Entry(component, randomCoeff, f)), Packs(b, cuts, 0));
    OutcomeCarries(m, b, cuts, 0, component, randomCoeff, f, u, h, f.marked + FirstMarks(b, cuts));
  }

  lemma ShortTrace<V>(m: Meaning<V>, b: EvalBody, cuts: seq<nat>, parts: seq<Part>, component: V, randomCoeff: V, f: Flow<V>)
    requires WellFormed(b) && ValidCuts(b, cuts) && |b.columns| > |f.trace| && parts != []
    requires var t := TailPart(b, cuts, 0);
             parts[0] == Part(KeptPrelude(Words(t)) + FirstMiddle(b, cuts) + t, Packs(b, cuts, 0))
    ensures RunParts(m, parts, 0, component, randomCoeff, f).None?
  {
    hide WellFormed, HeadValues, Reached, TailPart, Words, ColumnValues, Exec;
    var t := TailPart(b, cuts, 0);
    var u := DeclaredHead(m, b, component, randomCoeff, f);
    var start := FirstPreamble(m, b, cuts, Words(t), FirstMiddle(b, cuts), t, component, randomCoeff, f, u.env);
  }

  lemma RunFirst<V>(m: Meaning<V>, parts: seq<Part>, stmts: seq<Stmt>, packs: seq<Name>, component: V, randomCoeff: V,
                    f: Flow<V>, h: Option<Flow<V>>)
    requires parts != [] && parts[0] == Part(stmts, packs)
    requires h == Leave(Exec(m, stmts, Entry(component, randomCoeff, f)), packs)
    ensures h.None? ==> RunParts(m, parts, 0, component, randomCoeff, f).None?
    ensures h.Some? && 1 == |parts| ==> RunParts(m, parts, 0, component, randomCoeff, f) == h
    ensures h.Some? && 1 < |parts| ==>
              RunParts(m, parts, 0, component, randomCoeff, f)
              == RunParts(m, parts, 1, component, randomCoeff, h.value.(trace := f.trace))
  {
    if h.Some? && 1 == |parts| {
      assert RunParts(m, parts, 1, component, randomCoeff, h.value) == h;
    }
  }

  /** Every part after the first reads its inputs again, and that is all the cut
      changes: the emitted parts, run through their carries, do what the uncut
      body does when it reads them again at every boundary. */
  lemma SplitRereads<V>(m: Meaning<V>, b: EvalBody, cuts: seq<nat>, component: V, randomCoeff: V, f: Flow<V>)
    requires WellFormed(b) && ValidCuts(b, cuts) && LogSizeThroughColumnSize(b, cuts)
    requires m.rebuild(m.claimedSum(component)) == component
    ensures ForkA(b, cuts).Some?
    ensures var r, head := RunParts(m, ForkA(b, cuts).value, 0, component, randomCoeff, f),
                           Exec(m, Head(b), Entry(component, randomCoeff, f));
            && (head.None? ==> r.None?)
            && (head.Some? ==> |b.columns| <= |f.trace|
                               && r == Finish(b, RunReread(m, b, cuts, 0, f.trace, head.value), f.marked + Marks(b, cuts)))
  {
    hide *;
    var parts := ForkTerminates(b, cuts);
    HeadRuns(m, b, component, randomCoeff, f);
    if |b.columns| > |f.trace| {
      ShortTrace(m, b, cuts, parts, component, randomCoeff, f);
    } else {
      LongTrace(m, b, cuts, parts, component, randomCoeff, f, Exec(m, Head(b), Entry(component, randomCoeff, f)).value);
    }
  }

  lemma LongTrace<V>(m: Meaning<V>, b: EvalBody, cuts: seq<nat>, parts: seq<Part>, component: V, randomCoeff: V, f: Flow<V>,
                     u: State<V>)
    requires WellFormed(b) && ValidCuts(b, cuts) && LogSizeThroughColumnSize(b, cuts) && Emitted(b, cuts, parts)
    requires var t := TailPart(b, cuts, 0);
             parts != [] && parts[0] == Part(KeptPrelude(Words(t)) + FirstMiddle(b, cuts) + t, Packs(b, cuts, 0))
    requires m.rebuild(m.claimedSum(component)) == component && |b.columns| <= |f.trace|
    requires Reached(m, b, [], component, randomCoeff, u.env) && u.env[Sum] == f.sum
    requires FirstValues(m, b, f.trace, u.env) && u.trace == f.trace[|b.columns|..]
    ensures RunParts(m, parts, 0, component, randomCoeff, f)
            == Finish(b, RunReread(m, b, cuts, 0, f.trace, u), f.marked + Marks(b, cuts))
  {
    hide WellFormed, Reached, FirstValues, Words, TailPart, Packs, MarksFrom, FirstMiddle;
    var h := FirstStep(m, b, cuts, component, randomCoeff, f, u, parts[0].stmts);
    RunFirst(m, parts, parts[0].stmts, Packs(b, cuts, 0), component, randomCoeff, f, h);
    MarksFirst(b, cuts, f.marked);
    if h.Some? && cuts != [] {
      LaterParts(m, b, cuts, parts, 1, component, randomCoeff, h.value.(trace := f.trace),
                 Exec(m, TailPart(b, cuts, 0), u).value);
    }
  }

  // --- when the cut form fails, and what it marks -----------------------------------

  /** Names that are neither defined nor in scope stay out of scope. */
  lemma {:induction false} NeverDefined<V>(m: Meaning<V>, n: Name, stmts: seq<Stmt>, st: State<V>)
    requires n !in st.env && !n.Prev?
    requires forall s :: s in stmts ==> n !in DefinedNames(s)
    ensures Exec(m, stmts, st).Some? ==> n !in Exec(m, stmts, st).value.env
  {
    if stmts != [] && Step(m, stmts[0], st).Some? {
      var s := stmts[0];
      assert s in stmts && n !in DefinedNames(s);
      if s.ReadMasks? {
        UnboxKeys(m, n, st.env, s.columns, st.trace[..|s.columns|], s.used, s.lagged);
      } else if s.Compute? {
        BindAllKeys(st.env, s.binds + s.updates, Outputs(m, s, st.env));
      }
      NeverDefined(m, n, stmts[1..], Step(m, s, st).value);
    }
  }

  lemma {:induction false} UnboxKeys<V>(m: Meaning<V>, n: Name, env: map<Name, V>, columns: seq<Name>, masks: seq<V>,
                                        used: set<Name>, lagged: set<Name>)
    requires |columns| == |masks| && n !in env && n !in columns && !n.Prev?
    ensures n !in Unbox(m, env, columns, masks, used, lagged)
    decreases columns
  {
    if columns != [] {
      var c := columns[0];
      var e0 := if c in used && c in lagged then env[Prev(c) := m.previous(masks[0])] else env;
      var e1 := if c in used then e0[c := m.current(masks[0])] else e0;
      UnboxKeys(m, n, e1, columns[1..], masks[1..], used, lagged);
    }
  }

  /** A name the head of a part does not define but its tail lines read. */
  lemma UnboundAfter<V>(m: Meaning<V>, n: Name, head: seq<Stmt>, part: seq<Stmt>, e: State<V>)
    requires n !in e.env && !n.Prev? && forall s :: s in head ==> n !in DefinedNames(s)
    requires n in Words(part) && forall s :: s in part ==> s.Compute? && n !in s.binds
    ensures Exec(m, head + part, e).None?
  {
    hide Words;
    NeverDefined(m, n, head, e);
    ExecConcat(m, head, part, e);
    if Exec(m, head, e).Some? {
      ExecUnbound(m, part, n, Exec(m, head, e).value);
    }
  }

  lemma TailBindsPlain(b: EvalBody, cuts: seq<nat>, p: nat)
    requires WellFormed(b) && ValidCuts(b, cuts) && p <= |cuts|
    ensures forall s :: s in TailPart(b, cuts, p) ==> s.Compute? && LogSize !in s.binds
  {
    PartsOfTail(b, cuts, p);
  }

  lemma PlainHead(middle: seq<Stmt>)
    requires Plain(middle)
    ensures forall s :: s in [LetClaimedSum] + middle ==> LogSize !in DefinedNames(s)
  {
    forall s | s in middle ensures LogSize !in DefinedNames(s) {
      assert forall n :: n in DefinedNames(s) ==> n in Tokens(s);
    }
  }

  lemma LaterBlocks(b: EvalBody, cuts: seq<nat>, p: nat)
    requires ValidCuts(b, cuts) && 0 < p <= |cuts|
    ensures var part := TailPart(b, cuts, p);
            Blocks(b, cuts, p) == (if ColumnSize in Words(part) then PRELUDE else [LetClaimedSum]) + LaterMiddle(b, cuts, p) + part
  {
    hide Words, TailPart, BoundaryTmps, Inputs;
  }

  lemma NoEntry<V>(component: V, randomCoeff: V, f: Flow<V>)
    ensures LogSize !in Entry(component, randomCoeff, f).env
  {
  }

  /** A later part that names `log_size` but not `column_size` cannot run. */
  lemma UnboundLogSize<V>(m: Meaning<V>, b: EvalBody, cuts: seq<nat>, p: nat, component: V, randomCoeff: V, f: Flow<V>)
    requires WellFormed(b) && ValidCuts(b, cuts) && 0 < p <= |cuts|
    requires var words := Words(TailPart(b, cuts, p)); LogSize in words && ColumnSize !in words
    ensures Exec(m, Blocks(b, cuts, p), Entry(component, randomCoeff, f)).None?
  {
    hide *;
    var middle, part := LaterMiddle(b, cuts, p), TailPart(b, cuts, p);
    var head := [LetClaimedSum] + middle;
    LaterMiddlePlain(b, cuts, p);
    PlainHead(middle);
    TailBindsPlain(b, cuts, p);
    LaterBlocks(b, cuts, p);
    NoEntry(component, randomCoeff, f);
    UnboundAfter(m, LogSize, head, part, Entry(component, randomCoeff, f));
  }

  lemma {:induction false} FailsAtPart<V>(m: Meaning<V>, parts: seq<Part>, q: nat, p: nat, component: V, randomCoeff: V, f: Flow<V>)
    requires q <= p < |parts|
    requires forall c: V, g: Flow<V> :: Exec(m, parts[p].stmts, Entry(c, randomCoeff, g)).None?
    ensures RunParts(m, parts, q, component, randomCoeff, f).None?
    decreases p - q
  {
    hide Exec;
    if q == 0 || f.carry != [] {
      var c := if q == 0 then component else m.rebuild(f.carry[0]);
      var g := if q == 0 then f else f.(carry := f.carry[1..]);
      var h := Leave(Exec(m, parts[q].stmts, Entry(c, randomCoeff, g)), parts[q].packs);
      if q < p && h.Some? {
        FailsAtPart(m, parts, q + 1, p, component, randomCoeff, h.value.(trace := f.trace));
      }
    }
  }

  /** The condition on `log_size` is exact: without it the script does not
      terminate or its parts never run, whatever the inputs. */
  lemma LogSizeConditionNeeded<V(!new)>(m: Meaning<V>, b: EvalBody, cuts: seq<nat>, component: V, randomCoeff: V, f: Flow<V>)
    requires WellFormed(b) && ValidCuts(b, cuts) && !LogSizeThroughColumnSize(b, cuts)
    ensures ForkA(b, cuts).None? || RunParts(m, ForkA(b, cuts).value, 0, component, randomCoeff, f).None?
  {
    var p :| 0 < p <= |cuts| && LogSize in Words(TailPart(b, cuts, p)) && ColumnSize !in Words(TailPart(b, cuts, p));
    if ForkA(b, cuts).Some? {
      LaterPartText(b, cuts, p);
      forall c: V, g: Flow<V> ensures Exec(m, Blocks(b, cuts, p), Entry(c, randomCoeff, g)).None? {
        UnboundLogSize(m, b, cuts, p, c, randomCoeff, g);
      }
      FailsAtPart(m, ForkA(b, cuts).value, 0, p, component, randomCoeff, f);
    }
  }
}
