/**
 The keyed discovery gate: one semaphore per key, reference-counted so that the
 key map does not grow forever.

 `Table` is what the gate's mutex protects; `State` adds the semaphores and
 where every caller stands, and its steps are the interleavings of callers.
 */
module DiscoveryGate {
  type Key = string
  type EntryId = nat
  type Caller = nat

  // Entries ever made, their reference counts, and the one mapped for each key.
  datatype Table = Table(mapped: map<Key, EntryId>, keys: map<EntryId, Key>, refs: map<EntryId, int>, nextEntry: EntryId) {
    predicate Ok() {
      && keys.Keys == refs.Keys
      && (forall e | e in keys :: e < nextEntry)
      && (forall k | k in mapped :: mapped[k] in keys && keys[mapped[k]] == k)
    }
  }

  function Join(t: Table, key: Key): (Table, EntryId)
    requires t.Ok()
  {
    if key in t.mapped then
      (t.(refs := t.refs[t.mapped[key] := t.refs[t.mapped[key]] + 1]), t.mapped[key])
    else
      (Table(t.mapped[key := t.nextEntry], t.keys[t.nextEntry := key], t.refs[t.nextEntry := 1], t.nextEntry + 1),
       t.nextEntry)
  }

  function ReleaseReference(t: Table, e: EntryId): Table
    requires t.Ok() && e in t.keys
  {
    var left := t.refs[e] - 1;
    t.(refs := t.refs[e := left],
       mapped := if left == 0 && t.keys[e] in t.mapped && t.mapped[t.keys[e]] == e then t.mapped - {t.keys[e]} else t.mapped)
  }

  // ------------------------------------------------------------------ callers

  datatype Phase =
    | Idle
    | Waiting(entry: EntryId)   // blocked on the entry's semaphore
    | Holding(entry: EntryId)   // elected
    | Leaving(entry: EntryId)   // cancelled or released, reference not yet dropped

  datatype State = State(table: Table, held: set<EntryId>, callers: map<Caller, Phase>)

  datatype Step =
    | Enter(caller: Caller, key: Key)
    | Take(caller: Caller)      // the semaphore is acquired
    | Cancel(caller: Caller)    // the context ends while waiting
    | Unlock(caller: Caller)    // the first call of the release closure
    | Drop(caller: Caller)      // its reference is given back
    | UnlockAgain(caller: Caller)

  function PhaseOf(s: State, c: Caller): Phase {
    if c in s.callers then s.callers[c] else Idle
  }

  predicate Enabled(s: State, step: Step) {
    match step
    case Enter(c, _) => PhaseOf(s, c).Idle?
    case Take(c) => PhaseOf(s, c).Waiting? && PhaseOf(s, c).entry !in s.held
    case Cancel(c) => PhaseOf(s, c).Waiting?
    case Unlock(c) => PhaseOf(s, c).Holding?
    case Drop(c) => PhaseOf(s, c).Leaving? && PhaseOf(s, c).entry in s.table.keys
    case UnlockAgain(_) => true
  }

  function Apply(s: State, step: Step): State
    requires s.table.Ok() && Enabled(s, step)
  {
    match step
    case Enter(c, key) =>
      var (table, e) := Join(s.table, key);
      s.(table := table, callers := s.callers[c := Waiting(e)])
    case Take(c) => s.(held := s.held + {PhaseOf(s, c).entry}, callers := s.callers[c := Holding(PhaseOf(s, c).entry)])
    case Cancel(c) => s.(callers := s.callers[c := Leaving(PhaseOf(s, c).entry)])
    case Unlock(c) => s.(held := s.held - {PhaseOf(s, c).entry}, callers := s.callers[c := Leaving(PhaseOf(s, c).entry)])
    case Drop(c) => s.(table := ReleaseReference(s.table, PhaseOf(s, c).entry), callers := s.callers[c := Idle])
    case UnlockAgain(_) => s
  }

  // The callers that have a reference to the entry.
  function Referrers(callers: map<Caller, Phase>, e: EntryId): set<Caller> {
    set c | c in callers && !callers[c].Idle? && callers[c].entry == e
  }

  predicate EntryOk(s: State, e: EntryId)
    requires s.table.Ok() && e in s.table.keys
  {
    && s.table.refs[e] == |Referrers(s.callers, e)|
    && (s.table.refs[e] > 0 <==> s.table.keys[e] in s.table.mapped && s.table.mapped[s.table.keys[e]] == e)
  }

  predicate Inv(s: State) {
    && s.table.Ok()
    && (forall e | e in s.table.keys :: EntryOk(s, e))
    && (forall c | c in s.callers && !s.callers[c].Idle? :: s.callers[c].entry in s.table.keys)
    && (forall e | e in s.held :: exists c | c in s.callers :: s.callers[c] == Holding(e))
    && (forall c | c in s.callers && s.callers[c].Holding? :: s.callers[c].entry in s.held)
    && (forall c, c' | c in s.callers && c' in s.callers && s.callers[c].Holding? && s.callers[c'] == s.callers[c] :: c == c')
  }

  const Start: State := State(Table(map[], map[], map[], 0), {}, map[])

  // ------------------------------------------------------------ preservation

  lemma ReferrersJoin(callers: map<Caller, Phase>, c: Caller, phase: Phase, e: EntryId)
    requires c !in callers || callers[c].Idle?
    ensures Referrers(callers[c := phase], e) ==
            Referrers(callers, e) + (if !phase.Idle? && phase.entry == e then {c} else {})
    ensures c !in Referrers(callers, e)
  {
  }

  lemma ReferrersMove(callers: map<Caller, Phase>, c: Caller, phase: Phase, e: EntryId)
    requires c in callers && !callers[c].Idle? && !phase.Idle? && phase.entry == callers[c].entry
    ensures Referrers(callers[c := phase], e) == Referrers(callers, e)
  {
  }

  lemma ReferrersLeave(callers: map<Caller, Phase>, c: Caller, e: EntryId)
    requires c in callers && !callers[c].Idle?
    ensures Referrers(callers[c := Idle], e) == Referrers(callers, e) - {c}
    ensures c in Referrers(callers, e) <==> callers[c].entry == e
  {
  }

  lemma JoinKeepsOk(t: Table, key: Key)
    requires t.Ok()
    ensures Join(t, key).0.Ok()
  {
  }

  lemma EnterKeepsEntry(s: State, c: Caller, key: Key, e: EntryId)
    requires Inv(s) && Enabled(s, Enter(c, key))
    ensures var s' := Apply(s, Enter(c, key)); s'.table.Ok() && (e in s'.table.keys ==> EntryOk(s', e))
  {
    hide Referrers;
    var s' := Apply(s, Enter(c, key));
    JoinKeepsOk(s.table, key);
    ReferrersJoin(s.callers, c, s'.callers[c], e);
    if e in s.table.keys {
      assert EntryOk(s, e);
    } else {
      NobodyRefersToNew(s, e);
    }
  }

  lemma NobodyRefersToNew(s: State, e: EntryId)
    requires Inv(s) && e !in s.table.keys
    ensures Referrers(s.callers, e) == {}
  {
  }

  lemma EnterKeepsInv(s: State, c: Caller, key: Key)
    requires Inv(s) && Enabled(s, Enter(c, key))
    ensures Inv(Apply(s, Enter(c, key)))
  {
    var s' := Apply(s, Enter(c, key));
    EnterKeepsEntry(s, c, key, 0);
    forall e | e in s'.table.keys ensures EntryOk(s', e) {
      EnterKeepsEntry(s, c, key, e);
    }
    hide EntryOk, Referrers;
    HoldersStay(s, s', c);
    assert s.table.keys.Keys <= s'.table.keys.Keys && s'.callers[c].entry in s'.table.keys;
  }

  // A step of a caller that neither held nor will hold leaves the holders alone.
  lemma HoldersStay(s: State, s': State, c: Caller)
    requires Inv(s) && s'.held == s.held && c in s'.callers && !s'.callers[c].Holding? && !PhaseOf(s, c).Holding?
    requires s'.callers == s.callers[c := s'.callers[c]]
    ensures forall e | e in s'.held :: exists x | x in s'.callers :: s'.callers[x] == Holding(e)
  {
    forall e | e in s'.held ensures exists x | x in s'.callers :: s'.callers[x] == Holding(e) {
      var x :| x in s.callers && s.callers[x] == Holding(e);
      assert x in s'.callers && s'.callers[x] == Holding(e);
    }
  }

  lemma MoveKeepsInv(s: State, step: Step)
    requires Inv(s) && Enabled(s, step) && (step.Take? || step.Cancel? || step.Unlock?)
    ensures Inv(Apply(s, step))
  {
    var s' := Apply(s, step);
    var c := step.caller;
    forall e | e in s'.table.keys ensures EntryOk(s', e) {
      ReferrersMove(s.callers, c, s'.callers[c], e);
      assert EntryOk(s, e);
    }
    forall e | e in s'.held ensures exists x | x in s'.callers :: s'.callers[x] == Holding(e) {
      if s'.callers[c] == Holding(e) {
      } else {
        var x :| x in s.callers && s.callers[x] == Holding(e);
        assert x in s'.callers && s'.callers[x] == Holding(e);
      }
    }
  }

  lemma DropKeepsInv(s: State, c: Caller)
    requires Inv(s) && Enabled(s, Drop(c))
    ensures Inv(Apply(s, Drop(c)))
  {
    var s' := Apply(s, Drop(c));
    assert s'.table.Ok();
    forall e | e in s'.table.keys ensures EntryOk(s', e) {
      ReferrersLeave(s.callers, c, e);
      assert EntryOk(s, e) && EntryOk(s, s.callers[c].entry);
    }
    HoldersStay(s, s', c);
  }

  predicate Runs(s: State, steps: seq<Step>, t: State)
    decreases |steps|
  {
    if steps == [] then s == t
    else s.table.Ok() && Enabled(s, steps[0]) && Runs(Apply(s, steps[0]), steps[1..], t)
  }

  lemma {:induction false} RunsKeepInv(s: State, steps: seq<Step>, t: State)
    requires Inv(s) && Runs(s, steps, t)
    ensures Inv(t)
    decreases |steps|
  {
    hide Inv, Apply;
    if steps == [] {
    } else {
      match steps[0] {
        case Enter(c, key) => EnterKeepsInv(s, c, key);
        case Drop(c) => DropKeepsInv(s, c);
        case UnlockAgain(_) => AgainKeepsInv(s, steps[0]);
        case _ => MoveKeepsInv(s, steps[0]);
      }
      RunsKeepInv(Apply(s, steps[0]), steps[1..], t);
    }
  }

  lemma AgainKeepsInv(s: State, step: Step)
    requires Inv(s) && step.UnlockAgain?
    ensures Inv(Apply(s, step))
  {
  }

  // ---------------------------------------------------------------- theorems

  function KeyOf(s: State, c: Caller): Key
    requires c in s.callers && !s.callers[c].Idle? && s.callers[c].entry in s.table.keys
  {
    s.table.keys[s.callers[c].entry]
  }

  /** In every reachable state no caller refers to an entry other than the mapped one of its key. */
  lemma CallersUseMappedEntry(steps: seq<Step>, s: State, c: Caller)
    requires Runs(Start, steps, s) && c in s.callers && !s.callers[c].Idle?
    ensures s.callers[c].entry in s.table.keys
    ensures KeyOf(s, c) in s.table.mapped && s.table.mapped[KeyOf(s, c)] == s.callers[c].entry
  {
    hide Runs;
    RunsKeepInv(Start, steps, s);
    var e := s.callers[c].entry;
    assert EntryOk(s, e) && c in Referrers(s.callers, e);
    assert Referrers(s.callers, e) != {};
  }

  /** At most one caller holds a key. */
  lemma OneHolderPerKey(steps: seq<Step>, s: State, c: Caller, c': Caller)
    requires Runs(Start, steps, s) && c in s.callers && c' in s.callers
    requires s.callers[c].Holding? && s.callers[c'].Holding?
    requires s.callers[c].entry in s.table.keys && s.callers[c'].entry in s.table.keys
    requires KeyOf(s, c) == KeyOf(s, c')
    ensures c == c'
  {
    hide Runs;
    CallersUseMappedEntry(steps, s, c);
    CallersUseMappedEntry(steps, s, c');
    RunsKeepInv(Start, steps, s);
  }

  /** A key is mapped exactly while someone refers to it, and its count is the number of those callers. */
  lemma MapHoldsOnlyUsedKeys(steps: seq<Step>, s: State, key: Key)
    requires Runs(Start, steps, s)
    ensures key in s.table.mapped ==>
              && s.table.mapped[key] in s.table.refs
              && s.table.refs[s.table.mapped[key]] == |Referrers(s.callers, s.table.mapped[key])| > 0
    ensures key in s.table.mapped <==>
              exists c | c in s.callers ::
                !s.callers[c].Idle? && s.callers[c].entry in s.table.keys && KeyOf(s, c) == key
  {
    hide Runs;
    RunsKeepInv(Start, steps, s);
    if key in s.table.mapped {
      var e := s.table.mapped[key];
      assert EntryOk(s, e);
      var c :| c in Referrers(s.callers, e);
    }
    forall c | c in s.callers && !s.callers[c].Idle? && s.callers[c].entry in s.table.keys && KeyOf(s, c) == key
      ensures key in s.table.mapped
    {
      CallersUseMappedEntry(steps, s, c);
    }
  }

  // -------------------------------------------------------------- the object

  /** A caller that enters waits for the very key it asked for. */
  lemma EnterWaitsForItsKey(s: State, c: Caller, key: Key)
    requires Inv(s) && Enabled(s, Enter(c, key))
    ensures var t := Apply(s, Enter(c, key));
            c in t.callers && t.callers[c].Waiting? && t.callers[c].entry in t.table.keys && KeyOf(t, c) == key
  {
    hide EntryOk;
  }

  /** A waiting caller can be elected exactly while nobody holds its key; other keys do not matter. */
  lemma ElectedExactlyWhenFree(steps: seq<Step>, s: State, c: Caller)
    requires Runs(Start, steps, s) && c in s.callers && s.callers[c].Waiting? && s.callers[c].entry in s.table.keys
    ensures Enabled(s, Take(c)) <==>
            !exists h | h in s.callers ::
               s.callers[h].Holding? && s.callers[h].entry in s.table.keys && KeyOf(s, h) == KeyOf(s, c)
  {
    assert Inv(Start);
    RunsKeepInv(Start, steps, s);
    CallersUseMappedEntry(steps, s, c);
    if h :| h in s.callers && s.callers[h].Holding? && s.callers[h].entry in s.table.keys && KeyOf(s, h) == KeyOf(s, c) {
      CallersUseMappedEntry(steps, s, h);
    }
    hide Runs, EntryOk, Referrers;
  }

  class Gate {
    var mapped: map<Key, EntryId>
    var keys: map<EntryId, Key>
    var refs: map<EntryId, int>
    var nextEntry: EntryId

    ghost function View(): Table
      reads this
    {
      Table(mapped, keys, refs, nextEntry)
    }

    constructor ()
      ensures View() == Start.table && View().Ok()
    {
      mapped, keys, refs, nextEntry := map[], map[], map[], 0;
    }

    // The locked section of acquire.
    method Enter(key: Key) returns (e: EntryId)
      requires View().Ok()
      modifies this
      ensures (View(), e) == Join(old(View()), key) && View().Ok()
    {
      if key in mapped {
        e := mapped[key];
        refs := refs[e := refs[e] + 1];
      } else {
        e := nextEntry;
        nextEntry := nextEntry + 1;
        mapped := mapped[key := e];
        keys := keys[e := key];
        refs := refs[e := 1];
      }
    }

    method Release(key: Key, e: EntryId)
      requires View().Ok() && e in keys && keys[e] == key
      modifies this
      ensures View() == ReleaseReference(old(View()), e) && View().Ok()
    {
      refs := refs[e := refs[e] - 1];
      if refs[e] == 0 && key in mapped && mapped[key] == e {
        mapped := mapped - {key};
      }
    }
  }
}
