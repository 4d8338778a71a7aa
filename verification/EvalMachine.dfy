/**
 The straight-line code the component splitter cuts: statements over named QM31
 values, their textual tokens, and what running them does.

 A statement is kept as what the splitter sees of it (the names it binds, the
 accumulators it updates, the words in its text) plus an uninterpreted
 operation, so every result below holds for any meaning of the arithmetic.
 */
module EvalMachine {

  import opened Outcomes

  /** Fixed names of the generated code, and every other identifier.
      `Prev(c)` is the name of column `c` at the previous row (`c_neg1`). */
  datatype Name =
    | Sum | RandomCoeff | Component | LogSize | ClaimedSum | ColumnSize
    | Ident(text: string)
    | Prev(column: Name)

  datatype Stmt =
    | LetLogSize                                   // reads component.claim.log_size
    | LetClaimedSum                                // reads component.claimed_sum
    | LetColumnSize                                // column_size from log_size
    | LetZero(name: Name)                          // a mutable accumulator at zero
    | LetPreprocessed(name: Name)                  // reads a preprocessed mask and marks it used
    | LetPopped(name: Name)                        // the next value of the incoming carry
    | CarryEmpty                                   // asserts that the carry is used up
    | ReadMasks(columns: seq<Name>, used: set<Name>, lagged: set<Name>)
    | Compute(binds: seq<Name>, updates: seq<Name>, op: nat, inputs: seq<Name>)

  /** What the operations mean; nothing is assumed of any of them. */
  datatype Meaning<!V> = Meaning(
    op: (nat, seq<V>, int) -> V,
    zero: V,
    logSize: V -> V,
    claimedSum: V -> V,
    columnSize: V -> V,
    preprocessed: Name -> V,
    current: V -> V,
    previous: V -> V,
    rebuild: V -> V)

  datatype State<V> = State(env: map<Name, V>, carry: seq<V>, trace: seq<V>, marked: set<Name>)

  // --- the text of a statement ---------------------------------------------

  function Tokens(s: Stmt): seq<Name> {
    match s
    case LetLogSize => [LogSize, Component]
    case LetClaimedSum => [ClaimedSum, Component]
    case LetColumnSize => [ColumnSize, LogSize]
    case LetZero(n) => [n]
    case LetPreprocessed(n) => [n, Component]
    case LetPopped(n) => [n]
    case CarryEmpty => []
    case ReadMasks(columns, _, _) => columns
    case Compute(binds, updates, _, inputs) => binds + updates + inputs
  }

  function TokensOf(stmts: seq<Stmt>): seq<Name> {
    if stmts == [] then [] else Tokens(stmts[0]) + TokensOf(stmts[1..])
  }

  /** The set of words in the text of `stmts`. */
  function Words(stmts: seq<Stmt>): set<Name> {
    set n | n in TokensOf(stmts)
  }

  function DefinedNames(s: Stmt): seq<Name> {
    match s
    case LetLogSize => [LogSize]
    case LetClaimedSum => [ClaimedSum]
    case LetColumnSize => [ColumnSize]
    case LetZero(n) => [n]
    case LetPreprocessed(n) => [n]
    case LetPopped(n) => [n]
    case CarryEmpty => []
    case ReadMasks(columns, _, _) => columns
    case Compute(binds, _, _, _) => binds
  }

  function DefinedIn(stmts: seq<Stmt>): seq<Name> {
    if stmts == [] then [] else DefinedNames(stmts[0]) + DefinedIn(stmts[1..])
  }

  // --- running ---------------------------------------------------------------

  function BindAll<V>(env: map<Name, V>, names: seq<Name>, values: seq<V>): map<Name, V>
    requires |names| == |values|
    decreases names
  {
    if names == [] then env else BindAll(env[names[0] := values[0]], names[1..], values[1..])
  }

  predicate Bound<V>(env: map<Name, V>, names: seq<Name>) {
    forall n :: n in names ==> n in env
  }

  function Lookup<V>(env: map<Name, V>, names: seq<Name>): (vs: seq<V>)
    requires Bound(env, names)
    ensures |vs| == |names|
  {
    seq(|names|, i requires 0 <= i < |names| => env[names[i]])
  }

  function Unbox<V>(m: Meaning<V>, env: map<Name, V>, columns: seq<Name>, masks: seq<V>,
                    used: set<Name>, lagged: set<Name>): map<Name, V>
    requires |columns| == |masks|
    decreases columns
  {
    if columns == [] then env
    else
      var c := columns[0];
      var e0 := if c in used && c in lagged then env[Prev(c) := m.previous(masks[0])] else env;
      var e1 := if c in used then e0[c := m.current(masks[0])] else e0;
      Unbox(m, e1, columns[1..], masks[1..], used, lagged)
  }

  /** The values a computation produces for the names it binds and updates. */
  function Outputs<V>(m: Meaning<V>, c: Stmt, env: map<Name, V>): (outs: seq<V>)
    requires c.Compute? && Bound(env, c.inputs) && Bound(env, c.updates)
    ensures |outs| == |c.binds + c.updates|
  {
    var args := Lookup(env, c.inputs + c.updates);
    seq(|c.binds + c.updates|, k => m.op(c.op, args, k))
  }

  /** One statement; None is a panic or a name that is not in scope. */
  function Step<V>(m: Meaning<V>, s: Stmt, st: State<V>): Option<State<V>> {
    match s
    case LetLogSize =>
      if Component in st.env then Some(st.(env := st.env[LogSize := m.logSize(st.env[Component])])) else None
    case LetClaimedSum =>
      if Component in st.env then Some(st.(env := st.env[ClaimedSum := m.claimedSum(st.env[Component])])) else None
    case LetColumnSize =>
      if LogSize in st.env then Some(st.(env := st.env[ColumnSize := m.columnSize(st.env[LogSize])])) else None
    case LetZero(n) =>
      Some(st.(env := st.env[n := m.zero]))
    case LetPreprocessed(n) =>
      if Component in st.env
      then Some(st.(env := st.env[n := m.preprocessed(n)], marked := st.marked + {n}))
      else None
    case LetPopped(n) =>
      if st.carry != [] then Some(st.(env := st.env[n := st.carry[0]], carry := st.carry[1..])) else None
    case CarryEmpty =>
      if st.carry == [] then Some(st) else None
    case ReadMasks(columns, used, lagged) =>
      var n := |columns|;
      if n <= |st.trace|
      then Some(st.(env := Unbox(m, st.env, columns, st.trace[..n], used, lagged), trace := st.trace[n..]))
      else None
    case Compute(binds, updates, op, inputs) =>
      if Bound(st.env, inputs) && Bound(st.env, updates)
      then
        Some(st.(env := BindAll(st.env, binds + updates, Outputs(m, s, st.env))))
      else None
  }

  function Exec<V>(m: Meaning<V>, stmts: seq<Stmt>, st: State<V>): Option<State<V>> {
    if stmts == [] then Some(st)
    else match Step(m, stmts[0], st)
         case None => None
         case Some(st') => Exec(m, stmts[1..], st')
  }

  // --- basic facts -------------------------------------------------------------

  lemma {:induction false} TokensConcat(a: seq<Stmt>, b: seq<Stmt>)
    ensures TokensOf(a + b) == TokensOf(a) + TokensOf(b)
    ensures Words(a + b) == Words(a) + Words(b)
  {
    if a == [] {
      assert a + b == b;
    } else {
      assert (a + b)[1..] == a[1..] + b;
      TokensConcat(a[1..], b);
    }
  }

  lemma {:induction false} DefinedConcat(a: seq<Stmt>, b: seq<Stmt>)
    ensures DefinedIn(a + b) == DefinedIn(a) + DefinedIn(b)
  {
    if a == [] {
      assert a + b == b;
    } else {
      assert (a + b)[1..] == a[1..] + b;
      DefinedConcat(a[1..], b);
    }
  }

  lemma {:induction false} DefinedAreWords(stmts: seq<Stmt>)
    requires forall s :: s in stmts ==> s.Compute?
    ensures forall n :: n in DefinedIn(stmts) ==> n in Words(stmts)
  {
    if stmts != [] {
      DefinedAreWords(stmts[1..]);
      assert forall n :: n in DefinedNames(stmts[0]) ==> n in Tokens(stmts[0]);
    }
  }

  lemma {:induction false} ExecConcat<V>(m: Meaning<V>, a: seq<Stmt>, b: seq<Stmt>, st: State<V>)
    ensures Exec(m, a + b, st) == match Exec(m, a, st) case None => None case Some(mid) => Exec(m, b, mid)
  {
    if a == [] {
      assert a + b == b;
    } else {
      assert (a + b)[1..] == a[1..] + b;
      match Step(m, a[0], st)
      case None =>
      case Some(next) => ExecConcat(m, a[1..], b, next);
    }
  }

  lemma {:induction false} BindAllKeys<V>(env: map<Name, V>, names: seq<Name>, values: seq<V>)
    requires |names| == |values|
    ensures forall n :: n in BindAll(env, names, values) <==> n in env || n in names
    ensures forall n :: n in env && n !in names ==> BindAll(env, names, values)[n] == env[n]
    decreases names
  {
    if names != [] {
      BindAllKeys(env[names[0] := values[0]], names[1..], values[1..]);
      assert names == [names[0]] + names[1..];
    }
  }

  /** Binding names to the values another environment gives them copies them. */
  lemma {:induction false} BindAllCopies<V>(env: map<Name, V>, names: seq<Name>, from: map<Name, V>)
    requires Bound(from, names)
    ensures forall n :: n in BindAll(env, names, Lookup(from, names)) <==> n in env || n in names
    ensures forall n :: n in names ==> BindAll(env, names, Lookup(from, names))[n] == from[n]
    ensures forall n :: n in env && n !in names ==> BindAll(env, names, Lookup(from, names))[n] == env[n]
    decreases names
  {
    BindAllKeys(env, names, Lookup(from, names));
    if names != [] {
      var vs := Lookup(from, names);
      assert vs[1..] == Lookup(from, names[1..]);
      BindAllCopies(env[names[0] := vs[0]], names[1..], from);
      assert names == [names[0]] + names[1..];
      BindAllKeys(env[names[0] := vs[0]], names[1..], vs[1..]);
    }
  }

  // --- agreement of two environments on a set of names --------------------------

  ghost predicate Agree<V>(names: set<Name>, a: map<Name, V>, b: map<Name, V>) {
    forall n :: n in names ==> (n in a <==> n in b) && (n in a && n in b ==> a[n] == b[n])
  }

  lemma {:induction false} BindAllAgree<V>(names: set<Name>, a: map<Name, V>, b: map<Name, V>,
                                           bound: seq<Name>, values: seq<V>)
    requires |bound| == |values| && Agree(names, a, b)
    ensures Agree(names, BindAll(a, bound, values), BindAll(b, bound, values))
    decreases bound
  {
    if bound != [] {
      BindAllAgree(names, a[bound[0] := values[0]], b[bound[0] := values[0]], bound[1..], values[1..]);
    }
  }

  /** Straight-line code whose words all lie in `names` cannot tell apart two
      environments that agree on `names`, and keeps them in agreement. */
  lemma {:induction false} ExecAgree<V>(m: Meaning<V>, stmts: seq<Stmt>, names: set<Name>, s: State<V>, t: State<V>)
    requires forall x :: x in stmts ==> x.Compute?
    requires Words(stmts) <= names && Agree(names, s.env, t.env)
    ensures Exec(m, stmts, s).None? <==> Exec(m, stmts, t).None?
    ensures Exec(m, stmts, s).Some? ==>
              var s' := Exec(m, stmts, s).value;
              var t' := Exec(m, stmts, t).value;
              && Agree(names, s'.env, t'.env)
              && s' == s.(env := s'.env) && t' == t.(env := t'.env)
  {
    if stmts != [] {
      var c := stmts[0];
      TokensConcat([c], stmts[1..]);
      assert [c] + stmts[1..] == stmts;
      assert TokensOf([c]) == Tokens(c) + TokensOf([]);
      assert forall n :: n in c.binds + c.updates + c.inputs ==> n in names by {
        forall n | n in c.binds + c.updates + c.inputs ensures n in names { assert n in TokensOf([c]); }
      }
      assert Bound(s.env, c.inputs) <==> Bound(t.env, c.inputs);
      assert Bound(s.env, c.updates) <==> Bound(t.env, c.updates);
      if Step(m, c, s).Some? {
        assert Lookup(s.env, c.inputs + c.updates) == Lookup(t.env, c.inputs + c.updates);
        BindAllAgree(names, s.env, t.env, c.binds + c.updates, Outputs(m, c, s.env));
        ExecAgree(m, stmts[1..], names, Step(m, c, s).value, Step(m, c, t).value);
      }
    }
  }

  /** Straight-line code adds exactly the names it binds, and leaves alone what
      it neither binds nor updates. */
  lemma {:induction false} ExecFrame<V>(m: Meaning<V>, stmts: seq<Stmt>, mutable: set<Name>, st: State<V>)
    requires forall x :: x in stmts ==> x.Compute? && forall u :: u in x.updates ==> u in mutable
    requires Exec(m, stmts, st).Some?
    ensures var st' := Exec(m, stmts, st).value;
            && st' == st.(env := st'.env)
            && (forall n :: n in st'.env <==> n in st.env || n in DefinedIn(stmts))
            && (forall n :: n in st.env && n !in mutable && n !in DefinedIn(stmts) ==> st'.env[n] == st.env[n])
  {
    if stmts != [] {
      var c := stmts[0];
      BindAllKeys(st.env, c.binds + c.updates, Outputs(m, c, st.env));
      ExecFrame(m, stmts[1..], mutable, Step(m, c, st).value);
    }
  }

  /** Code that reads a name nobody has bound does not run. */
  lemma {:induction false} ExecUnbound<V>(m: Meaning<V>, stmts: seq<Stmt>, n: Name, st: State<V>)
    requires forall x :: x in stmts ==> x.Compute? && n !in x.binds
    requires n in Words(stmts) && n !in st.env
    ensures Exec(m, stmts, st).None?
  {
    var c := stmts[0];
    if Step(m, c, st).Some? {
      assert n !in c.inputs && n !in c.updates;
      BindAllKeys(st.env, c.binds + c.updates, Outputs(m, c, st.env));
      ExecUnbound(m, stmts[1..], n, Step(m, c, st).value);
    }
  }
}
