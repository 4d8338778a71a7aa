/**
 Creating a profile's vault (tools/zkmsg/core/src/vault.rs): any number of
 processes, any interleaving, a crash after any step, no shredding. A key is
 stored in the Keychain, then named by vault.json, which is published by a hard
 link that fails if the file exists.
 */
module VaultCreation {

  import opened Outcomes

  /** Key ids and keys are drawn at random: an id is never drawn twice. */
  datatype Proc =
    | Starting
    | NamedKey(id: nat)              // read vault.json, the Keychain comes next
    | NoVault
    | KeyStored(id: nat, key: nat)
    | TmpWritten(id: nat, key: nat)
    | Linked(id: nat, key: nat)
    | Lost(id: nat)                  // vault.json existed: its own key goes
    | LinkFailed(id: nat)
    | Rereading
    | Has(key: nat)                  // returned its key: may seal files
    | Stopped                        // crashed, or returned an error

  /** `owner` records which process drew an id; `files` the key a file is sealed under. */
  datatype State = State(vault: Option<nat>, keychain: map<nat, nat>, procs: map<nat, Proc>,
                         owner: map<nat, nat>, files: map<nat, nat>)

  datatype Event =
    | Start
    | ReadVault
    | ReadKey
    | DrawAndStore(id: nat, key: nat)
    | WriteTmp
    | Link(otherError: bool)
    | DropKey(deleted: bool)
    | Return
    | Seal(path: nat)
    | Crash

  predicate Possible(s: State, p: nat, e: Event) {
    if e.Start? then p !in s.procs
    else
      && p in s.procs
      && match e {
           case ReadVault => s.procs[p].Starting? || s.procs[p].Rereading?
           case ReadKey => s.procs[p].NamedKey?
           case DrawAndStore(id, _) => s.procs[p].NoVault? && id !in s.owner && id !in s.keychain
           case WriteTmp => s.procs[p].KeyStored?
           case Link(_) => s.procs[p].TmpWritten?
           case DropKey(_) => s.procs[p].Lost? || s.procs[p].LinkFailed?
           case Return => s.procs[p].Linked?
           case Seal(_) => s.procs[p].Has?
           case _ => true
         }
  }

  function Becomes(s: State, p: nat, proc: Proc): State {
    s.(procs := s.procs[p := proc])
  }

  function Step(s: State, p: nat, e: Event): State
    requires Possible(s, p, e)
  {
    match e
    case Start => Becomes(s, p, Starting)
    case ReadVault =>
      if s.vault.Some? then Becomes(s, p, NamedKey(s.vault.value))
      else Becomes(s, p, if s.procs[p].Starting? then NoVault else Stopped)
    case ReadKey =>
      var id := s.procs[p].id;
      Becomes(s, p, if id in s.keychain then Has(s.keychain[id]) else Stopped)
    case DrawAndStore(id, key) =>
      Becomes(s, p, KeyStored(id, key)).(keychain := s.keychain[id := key], owner := s.owner[id := p])
    case WriteTmp => Becomes(s, p, TmpWritten(s.procs[p].id, s.procs[p].key))
    case Link(otherError) =>
      var id, key := s.procs[p].id, s.procs[p].key;
      if otherError then Becomes(s, p, LinkFailed(id))
      else if s.vault.Some? then Becomes(s, p, Lost(id))
      else Becomes(s, p, Linked(id, key)).(vault := Some(id))
    case DropKey(deleted) =>
      var id := s.procs[p].id;
      Becomes(s, p, if s.procs[p].Lost? && deleted then Rereading else Stopped).(
        keychain := if deleted then s.keychain - {id} else s.keychain)
    case Return => Becomes(s, p, Has(s.procs[p].key))
    case Seal(path) => s.(files := s.files[path := s.procs[p].key])
    case Crash => Becomes(s, p, Stopped)
  }

  // --- the invariant ------------------------------------------------------------------

  /** The key vault.json names is in the Keychain. */
  ghost predicate Named(s: State, key: nat) {
    s.vault.Some? && s.vault.value in s.keychain && s.keychain[s.vault.value] == key
  }

  ghost predicate Owns(s: State, p: nat, id: nat) {
    id in s.owner && s.owner[id] == p && s.vault != Some(id)
  }

  ghost predicate ProcOk(s: State, p: nat)
    requires p in s.procs
  {
    match s.procs[p]
    case NamedKey(id) => s.vault == Some(id)
    case KeyStored(id, key) => Owns(s, p, id) && id in s.keychain && s.keychain[id] == key
    case TmpWritten(id, key) => Owns(s, p, id) && id in s.keychain && s.keychain[id] == key
    case Linked(id, key) => s.vault == Some(id) && Named(s, key)
    case Lost(id) => Owns(s, p, id) && s.vault.Some?
    case LinkFailed(id) => Owns(s, p, id)
    case Rereading => s.vault.Some?
    case Has(key) => Named(s, key)
    case _ => true
  }

  ghost predicate VaultOk(s: State) {
    && (s.vault.Some? ==> s.vault.value in s.keychain && s.vault.value in s.owner)
    && (forall f :: f in s.files ==> Named(s, s.files[f]))
  }

  ghost predicate Inv(s: State) {
    VaultOk(s) && forall p :: p in s.procs ==> ProcOk(s, p)
  }

  /** Once vault.json is there, what it names and the key behind it stay. */
  ghost predicate Stays(s: State, t: State) {
    s.vault.Some? ==> t.vault == s.vault
                      && (s.vault.value in s.keychain ==> s.vault.value in t.keychain
                                                          && t.keychain[s.vault.value] == s.keychain[s.vault.value])
  }

  lemma StepStays(s: State, p: nat, e: Event)
    requires Inv(s) && Possible(s, p, e)
    ensures Stays(s, Step(s, p, e))
  {
    if p in s.procs {
      assert ProcOk(s, p);
    }
  }

  lemma MoverOk(s: State, p: nat, e: Event)
    requires Inv(s) && Possible(s, p, e)
    ensures VaultOk(Step(s, p, e)) && p in Step(s, p, e).procs && ProcOk(Step(s, p, e), p)
  {
    if p in s.procs {
      assert ProcOk(s, p);
    }
    StepStays(s, p, e);
  }

  /** Nobody touches an id another process drew. */
  lemma OtherOk(s: State, p: nat, e: Event, q: nat)
    requires Inv(s) && Possible(s, p, e) && q in s.procs && q != p
    ensures ProcOk(Step(s, p, e), q)
  {
    assert ProcOk(s, q);
    if p in s.procs {
      assert ProcOk(s, p);
    }
  }

  lemma StepKeeps(s: State, p: nat, e: Event)
    requires Inv(s) && Possible(s, p, e)
    ensures Inv(Step(s, p, e))
  {
    hide ProcOk, VaultOk;
    var t := Step(s, p, e);
    assert forall q :: q in t.procs ==> q == p || q in s.procs;
    MoverOk(s, p, e);
    forall q | q in t.procs ensures ProcOk(t, q) {
      if q != p {
        OtherOk(s, p, e, q);
      }
    }
  }

  // --- whole runs -----------------------------------------------------------------------

  const NOTHING: State := State(None, map[], map[], map[], map[])

  ghost predicate Run(states: seq<State>, moves: seq<(nat, Event)>) {
    && |states| == |moves| + 1 && states[0] == NOTHING
    && forall i :: 0 <= i < |moves| ==>
         Possible(states[i], moves[i].0, moves[i].1) && states[i + 1] == Step(states[i], moves[i].0, moves[i].1)
  }

  lemma {:induction false} RunKeeps(states: seq<State>, moves: seq<(nat, Event)>, n: nat)
    requires Run(states, moves) && n < |states|
    ensures Inv(states[n])
  {
    if n > 0 {
      RunKeeps(states, moves, n - 1);
      StepKeeps(states[n - 1], moves[n - 1].0, moves[n - 1].1);
    }
  }

  /** Main result. In every run vault.json, once present, never changes and names
      a key that stays in the Keychain. */
  lemma {:induction false} VaultForGood(states: seq<State>, moves: seq<(nat, Event)>, n: nat, m: nat)
    requires Run(states, moves) && n <= m < |states| && states[n].vault.Some?
    ensures states[m].vault == states[n].vault
    ensures states[n].vault.value in states[n].keychain && states[n].vault.value in states[m].keychain
    ensures states[m].keychain[states[n].vault.value] == states[n].keychain[states[n].vault.value]
    decreases m - n
  {
    RunKeeps(states, moves, n);
    if n < m {
      VaultForGood(states, moves, n, m - 1);
      RunKeeps(states, moves, m - 1);
      StepStays(states[m - 1], moves[m - 1].0, moves[m - 1].1);
    }
  }

  /** Any two processes that return keys, whenever they do, return the same one,
      the key vault.json names. */
  lemma OneKey(states: seq<State>, moves: seq<(nat, Event)>, n: nat, m: nat, p: nat, q: nat)
    requires Run(states, moves) && n <= m < |states|
    requires p in states[n].procs && states[n].procs[p].Has? && q in states[m].procs && states[m].procs[q].Has?
    ensures states[n].procs[p].key == states[m].procs[q].key && Named(states[m], states[m].procs[q].key)
  {
    RunKeeps(states, moves, n);
    RunKeeps(states, moves, m);
    assert ProcOk(states[n], p) && ProcOk(states[m], q);
    VaultForGood(states, moves, n, m);
  }

  /** Every sealed file opens, at any later time, with the key vault.json names. */
  lemma SealedUnderNamed(states: seq<State>, moves: seq<(nat, Event)>, n: nat, f: nat)
    requires Run(states, moves) && n < |states| && f in states[n].files
    ensures Named(states[n], states[n].files[f])
  {
    RunKeeps(states, moves, n);
  }

  // --- what is left behind --------------------------------------------------------------

  /** The process is between storing this key and dropping or naming it. */
  predicate Holding(proc: Proc, id: nat) {
    proc == Lost(id) || proc == LinkFailed(id) || (proc.KeyStored? && proc.id == id) || (proc.TmpWritten? && proc.id == id)
  }

  /** A key in the Keychain is the vault's, or its maker's, who is still at it or
      has stopped. */
  ghost predicate Accounted(s: State, id: nat) {
    s.vault == Some(id)
    || (id in s.owner && s.owner[id] in s.procs && (Holding(s.procs[s.owner[id]], id) || s.procs[s.owner[id]].Stopped?))
  }

  lemma StepAccounts(s: State, p: nat, e: Event, id: nat)
    requires Inv(s) && Possible(s, p, e) && id in Step(s, p, e).keychain
    requires id in s.keychain ==> Accounted(s, id)
    ensures Accounted(Step(s, p, e), id)
  {
    if !e.Start? {
      assert ProcOk(s, p);
    }
  }

  /** In every run a key that vault.json does not name is its maker's, and stays only
      if the maker stops; when every process has returned, there is no other key. */
  lemma {:induction false} NoStrayKeys(states: seq<State>, moves: seq<(nat, Event)>, n: nat)
    requires Run(states, moves) && n < |states|
    ensures forall id :: id in states[n].keychain ==> Accounted(states[n], id)
    ensures (forall p :: p in states[n].procs ==> states[n].procs[p].Has?) ==>
              forall id :: id in states[n].keychain ==> states[n].vault == Some(id)
  {
    if n > 0 {
      NoStrayKeys(states, moves, n - 1);
      RunKeeps(states, moves, n - 1);
      forall id | id in states[n].keychain ensures Accounted(states[n], id) {
        StepAccounts(states[n - 1], moves[n - 1].0, moves[n - 1].1, id);
      }
    }
  }

  lemma StopStep(s: State, p: nat, e: Event)
    requires Possible(s, p, e) && VaultOk(s) && (!e.Start? ==> p in s.procs && ProcOk(s, p))
    ensures var t := Step(s, p, e);
            && p in t.procs
            && (t.procs[p].Stopped? <==> e.Crash? || (e.DropKey? && p in s.procs && !(s.procs[p].Lost? && e.deleted)))
            && (e.ReadKey? || e.Return? ==> t.procs[p].Has?)
            && (e.Link? ==> p in s.procs && (t.procs[p].Linked? <==> !e.otherError && s.vault.None?)
                            && (t.procs[p].Lost? <==> !e.otherError && s.vault.Some?))
  {
  }

  /** A process stops exactly when it crashes, or when the link failed for another
      reason than vault.json being there, or its own key could not be dropped: what
      vault.json names is always found, and vault.json is there when it is read
      again. */
  lemma StopsExactly(states: seq<State>, moves: seq<(nat, Event)>, n: nat)
    requires Run(states, moves) && n < |moves|
    ensures var (p, e), s, t := moves[n], states[n], states[n + 1];
            && p in t.procs
            && (t.procs[p].Stopped? <==> e.Crash? || (e.DropKey? && p in s.procs && !(s.procs[p].Lost? && e.deleted)))
            && (e.ReadKey? || e.Return? ==> t.procs[p].Has? && Named(t, t.procs[p].key))
            && (e.Link? ==> p in s.procs && (t.procs[p].Linked? <==> !e.otherError && s.vault.None?)
                            && (t.procs[p].Lost? <==> !e.otherError && s.vault.Some?))
  {
    hide Step, Possible;
    RunKeeps(states, moves, n);
    RunKeeps(states, moves, n + 1);
    var (p, e) := moves[n];
    MoverKnown(states[n], p, e);
    StopStep(states[n], p, e);
    assert states[n + 1] == Step(states[n], p, e) && ProcOk(states[n + 1], p);
    assert states[n + 1].procs[p].Has? ==> Named(states[n + 1], states[n + 1].procs[p].key);
  }

  lemma MoverKnown(s: State, p: nat, e: Event)
    requires Inv(s) && Possible(s, p, e)
    ensures VaultOk(s) && (!e.Start? ==> p in s.procs && ProcOk(s, p))
  {
  }
}
