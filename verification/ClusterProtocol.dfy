/** Creating and deleting backup sets on an object store, any number at once, each of which may
    crash between any two store operations: a crashed process simply never takes another step. */
module ClusterProtocol {

  type SetId = nat
  type Database = string
  type Proc = nat

  datatype Key = Globals(id: SetId) | Dump(id: SetId, database: Database) | Manifest(id: SetId)

  datatype Object = Blob | ManifestOf(databases: seq<Database>)

  datatype Op = Put(key: Key, value: Object) | Delete(key: Key)

  type Store = map<Key, Object>

  function Apply(store: Store, op: Op): Store {
    match op
    case Put(k, o) => store[k := o]
    case Delete(k) => store - {k}
  }

  // ---------------------------------------------------------------- the two scripts

  function DumpPuts(id: SetId, databases: seq<Database>): seq<Op> {
    seq(|databases|, i requires 0 <= i < |databases| => Put(Dump(id, databases[i]), Blob))
  }

  function DumpDeletes(id: SetId, databases: seq<Database>): seq<Op> {
    seq(|databases|, i requires 0 <= i < |databases| => Delete(Dump(id, databases[i])))
  }

  /** Globals, then every dump that reached the store, then, if any database was dumped, the
      manifest naming those. `landed` also holds dumps of databases that failed afterwards. */
  function CreateScript(id: SetId, landed: seq<Database>, dumped: seq<Database>): seq<Op> {
    [Put(Globals(id), Blob)] + DumpPuts(id, landed)
      + if dumped == [] then [] else [Put(Manifest(id), ManifestOf(dumped))]
  }

  /** Every dump the manifest names, the globals, then the manifest. */
  function DeleteScript(id: SetId, named: seq<Database>): seq<Op> {
    DumpDeletes(id, named) + [Delete(Globals(id)), Delete(Manifest(id))]
  }

  ghost predicate Named(key: Key, id: SetId, databases: seq<Database>) {
    key == Globals(id) || (key.Dump? && key.id == id && key.database in databases)
  }

  ghost predicate PutBefore(script: seq<Op>, i: nat, key: Key)
    requires i <= |script|
  {
    exists j | 0 <= j < i :: script[j].key == key
  }

  /** What the protocol needs of a creation: only its own keys, and the manifest last, after
      everything it names. */
  ghost predicate Creates(script: seq<Op>, id: SetId) {
    forall i | 0 <= i < |script| ::
      && script[i].Put? && script[i].key.id == id
      && (script[i].key.Manifest? ==> NamesOnlyWritten(script, i, id))
      && (!script[i].key.Manifest? ==> script[i].value == Blob)
  }

  ghost predicate NamesOnlyWritten(script: seq<Op>, i: nat, id: SetId)
    requires i < |script| && script[i].Put?
  {
    && i == |script| - 1 && script[i].value.ManifestOf? && script[i].value.databases != []
    && forall key | Named(key, id, script[i].value.databases) :: PutBefore(script, i, key)
  }

  /** What the protocol needs of a deletion: only what the manifest names and the manifest, which goes
      last, after everything it names. */
  ghost predicate Deletes(script: seq<Op>, id: SetId, databases: seq<Database>) {
    forall i | 0 <= i < |script| ::
      && script[i].Delete? && script[i].key.id == id
      && (script[i].key.Manifest? || Named(script[i].key, id, databases))
      && (script[i].key.Manifest? ==>
            i == |script| - 1 && forall key | Named(key, id, databases) :: PutBefore(script, i, key))
  }

  lemma CreateScriptCreates(id: SetId, landed: seq<Database>, dumped: seq<Database>)
    requires forall d | d in dumped :: d in landed
    ensures Creates(CreateScript(id, landed, dumped), id)
  {
    var script := CreateScript(id, landed, dumped);
    if dumped != [] {
      var last := |script| - 1;
      forall key | Named(key, id, dumped) ensures PutBefore(script, last, key) {
        if key.Globals? {
          assert script[0].key == key;
        } else {
          var i :| 0 <= i < |landed| && landed[i] == key.database;
          assert script[i + 1].key == key;
        }
      }
    }
  }

  lemma DeleteScriptDeletes(id: SetId, named: seq<Database>)
    ensures Deletes(DeleteScript(id, named), id, named)
  {
    var script := DeleteScript(id, named);
    forall key | Named(key, id, named) ensures PutBefore(script, |script| - 1, key) {
      if key.Globals? {
        assert script[|script| - 2].key == key;
      } else {
        var i :| 0 <= i < |named| && named[i] == key.database;
        assert script[i].key == key;
      }
    }
  }

  // ---------------------------------------------------------------- the protocol

  datatype Process = Process(id: SetId, creating: bool, script: seq<Op>, pc: nat)

  /** `begun` are the ids ever used; `deleting` those a delete has been started on; `named` what
      each manifest ever written names. */
  datatype State = State(store: Store, procs: map<Proc, Process>, begun: set<SetId>, deleting: set<SetId>,
                         named: map<SetId, seq<Database>>)

  const EMPTY := State(map[], map[], {}, {}, map[])

  datatype Event =
    | StartCreate(proc: Proc, id: SetId, landed: seq<Database>, dumped: seq<Database>)
    | StartDelete(proc: Proc, id: SetId)
    | Advance(proc: Proc)

  predicate Enabled(st: State, e: Event) {
    match e
    case StartCreate(p, id, landed, dumped) => p !in st.procs && id !in st.begun && (forall d | d in dumped :: d in landed)
    case StartDelete(p, id) => p !in st.procs && Manifest(id) in st.store && st.store[Manifest(id)].ManifestOf?
    case Advance(p) => p in st.procs && st.procs[p].pc < |st.procs[p].script|
  }

  function Step(st: State, e: Event): State
    requires Enabled(st, e)
  {
    match e
    case StartCreate(p, id, landed, dumped) =>
      st.(procs := st.procs[p := Process(id, true, CreateScript(id, landed, dumped), 0)], begun := st.begun + {id})
    case StartDelete(p, id) =>
      var names := st.store[Manifest(id)].databases;
      st.(procs := st.procs[p := Process(id, false, DeleteScript(id, names), 0)], deleting := st.deleting + {id})
    case Advance(p) =>
      var proc := st.procs[p];
      var op := proc.script[proc.pc];
      st.(store := Apply(st.store, op), procs := st.procs[p := proc.(pc := proc.pc + 1)],
          named := if op.Put? && op.value.ManifestOf? then st.named[op.key.id := op.value.databases] else st.named)
  }

  // ---------------------------------------------------------------- invariant

  ghost predicate CreatorOk(st: State, p: Process) {
    && Creates(p.script, p.id) && p.id in st.begun && p.pc <= |p.script|
    && (p.pc < |p.script| ==>
          && p.id !in st.named && p.id !in st.deleting
          && (forall i | 0 <= i < p.pc :: p.script[i].key in st.store))
  }

  ghost predicate DeleterOk(st: State, p: Process) {
    && p.id in st.deleting && p.id in st.named && p.pc <= |p.script|
    && Deletes(p.script, p.id, st.named[p.id])
    && (forall i | 0 <= i < p.pc :: p.script[i].key !in st.store)
  }

  ghost predicate ProcOk(st: State, k: Proc)
    requires k in st.procs
  {
    if st.procs[k].creating then CreatorOk(st, st.procs[k]) else DeleterOk(st, st.procs[k])
  }

  ghost predicate OneCreator(st: State) {
    forall k, l | k in st.procs && l in st.procs && st.procs[k].creating && st.procs[l].creating
      && st.procs[k].id == st.procs[l].id :: k == l
  }

  ghost predicate SetOk(st: State, id: SetId)
    requires id in st.named
  {
    && id in st.begun && st.named[id] != []
    && (Manifest(id) in st.store ==> st.store[Manifest(id)] == ManifestOf(st.named[id]))
    && (id !in st.deleting ==> Manifest(id) in st.store && forall key | Named(key, id, st.named[id]) :: key in st.store)
    && (forall key | Named(key, id, st.named[id]) && key in st.store :: Manifest(id) in st.store)
  }

  ghost predicate StoreOk(st: State) {
    && (forall key | key in st.store :: key.id in st.begun)
    && (forall id: SetId | Manifest(id) in st.store :: id in st.named)
    && (forall id | id in st.deleting :: id in st.named)
  }

  ghost predicate Inv(st: State) {
    && OneCreator(st) && StoreOk(st)
    && (forall k | k in st.procs :: ProcOk(st, k))
    && (forall id | id in st.named :: SetOk(st, id))
  }

  lemma StartCreateKeeps(st: State, e: Event)
    requires Inv(st) && Enabled(st, e) && e.StartCreate?
    ensures Inv(Step(st, e))
  {
    var st' := Step(st, e);
    CreateScriptCreates(e.id, e.landed, e.dumped);
    assert forall id | id in st.named :: SetOk(st, id) && id in st.begun;
    forall k | k in st'.procs ensures ProcOk(st', k) { if k != e.proc { assert ProcOk(st, k); } }
    forall k | k in st.procs && st.procs[k].creating ensures st.procs[k].id != e.id { assert ProcOk(st, k); }
    forall id | id in st'.named ensures SetOk(st', id) { assert SetOk(st, id); }
  }

  lemma StartDeleteKeeps(st: State, e: Event)
    requires Inv(st) && Enabled(st, e) && e.StartDelete?
    ensures Inv(Step(st, e))
  {
    var st' := Step(st, e);
    assert SetOk(st, e.id);
    DeleteScriptDeletes(e.id, st.named[e.id]);
    forall k | k in st'.procs ensures ProcOk(st', k) { if k != e.proc { assert ProcOk(st, k); } }
    forall id | id in st'.named ensures SetOk(st', id) { assert SetOk(st, id); }
  }

  /** Deleting: the manifest goes only once everything it names has gone. */
  lemma AdvanceDeleteKeeps(st: State, e: Event)
    requires Inv(st) && Enabled(st, e) && e.Advance? && !st.procs[e.proc].creating
    ensures Inv(Step(st, e))
  {
    var st' := Step(st, e);
    assert ProcOk(st, e.proc);
    forall k | k in st'.procs ensures ProcOk(st', k) {
      assert ProcOk(st, k);
      DeleteKeepsProc(st, e, k);
    }
    forall id | id in st'.named ensures SetOk(st', id) {
      assert SetOk(st, id);
      DeleteKeepsSet(st, e, id);
    }
  }

  lemma DeleteKeepsProc(st: State, e: Event, k: Proc)
    requires Enabled(st, e) && e.Advance? && !st.procs[e.proc].creating && ProcOk(st, e.proc)
    requires k in st.procs && ProcOk(st, k)
    ensures ProcOk(Step(st, e), k)
  {
    var p := st.procs[e.proc];
    assert p.script[p.pc].Delete? && p.script[p.pc].key.id == p.id;
    if st.procs[k].creating && st.procs[k].pc < |st.procs[k].script| {
      assert st.procs[k].id != p.id;
      assert forall i | 0 <= i < st.procs[k].pc :: st.procs[k].script[i].key.id == st.procs[k].id;
    }
  }

  lemma DeleteKeepsSet(st: State, e: Event, id: SetId)
    requires Enabled(st, e) && e.Advance? && !st.procs[e.proc].creating && ProcOk(st, e.proc)
    requires id in st.named && SetOk(st, id)
    ensures SetOk(Step(st, e), id)
  {
    var p := st.procs[e.proc];
    var key := p.script[p.pc].key;
    assert p.script[p.pc].Delete? && key.id == p.id;
    if id == p.id && key.Manifest? {
      forall x | Named(x, id, st.named[id]) ensures x !in st.store {
        assert PutBefore(p.script, p.pc, x);
      }
    }
  }

  /** Creating: nothing the set owns is deleted before its manifest is there. */
  lemma AdvanceCreateKeeps(st: State, e: Event)
    requires Inv(st) && Enabled(st, e) && e.Advance? && st.procs[e.proc].creating
    ensures Inv(Step(st, e))
  {
    var st' := Step(st, e);
    var p := st.procs[e.proc];
    var op := p.script[p.pc];
    assert ProcOk(st, e.proc);
    assert op.Put? && op.key.id == p.id;
    forall k | k in st'.procs ensures ProcOk(st', k) {
      assert ProcOk(st, k);
      if !st.procs[k].creating {
        assert st.procs[k].id != p.id;
        assert forall i | 0 <= i < st.procs[k].pc :: st.procs[k].script[i].key.id == st.procs[k].id;
      }
    }
    forall id | id in st'.named ensures SetOk(st', id) {
      if id != p.id {
        assert SetOk(st, id);
      } else {
        assert op.key.Manifest? && NamesOnlyWritten(p.script, p.pc, id);
        forall x | Named(x, id, op.value.databases) ensures x in st'.store {
          assert PutBefore(p.script, p.pc, x);
        }
      }
    }
  }

  lemma StepKeepsInv(st: State, e: Event)
    requires Inv(st) && Enabled(st, e)
    ensures Inv(Step(st, e))
  {
    match e
    case StartCreate(_, _, _, _) => StartCreateKeeps(st, e);
    case StartDelete(_, _) => StartDeleteKeeps(st, e);
    case Advance(p) => if st.procs[p].creating { AdvanceCreateKeeps(st, e); } else { AdvanceDeleteKeeps(st, e); }
  }

  // ---------------------------------------------------------------- runs

  ghost predicate IsRun(states: seq<State>, events: seq<Event>) {
    && |states| == |events| + 1 && states[0] == EMPTY
    && forall i | 0 <= i < |events| :: StepAt(states, events, i)
  }

  predicate StepAt(states: seq<State>, events: seq<Event>, i: nat)
    requires i < |events| && |states| == |events| + 1
  {
    Enabled(states[i], events[i]) && states[i + 1] == Step(states[i], events[i])
  }

  lemma {:induction false} RunKeepsInv(states: seq<State>, events: seq<Event>, n: nat)
    requires IsRun(states, events) && n < |states|
    ensures Inv(states[n])
  {
    if n > 0 {
      RunKeepsInv(states, events, n - 1);
      assert StepAt(states, events, n - 1);
      StepKeepsInv(states[n - 1], events[n - 1]);
    }
  }

  /** A manifest names at least one database, and only objects that are in the store, until a
      delete of its own set begins. */
  lemma ManifestsAreComplete(states: seq<State>, events: seq<Event>, n: nat, id: SetId)
    requires IsRun(states, events) && n < |states| && Manifest(id) in states[n].store
    ensures var manifest := states[n].store[Manifest(id)];
      && manifest.ManifestOf? && manifest.databases != []
      && (id !in states[n].deleting ==> forall key | Named(key, id, manifest.databases) :: key in states[n].store)
  {
    RunKeepsInv(states, events, n);
    assert SetOk(states[n], id);
  }

  /** However creations and deletions crash or interleave, while anything a manifest has named is
      still stored its manifest is too: a delete cut short can always be run again. */
  lemma DeleteCanAlwaysBeRerun(states: seq<State>, events: seq<Event>, n: nat, id: SetId, key: Key)
    requires IsRun(states, events) && n < |states| && id in states[n].named
    requires Named(key, id, states[n].named[id]) && key in states[n].store
    ensures Manifest(id) in states[n].store && states[n].store[Manifest(id)] == ManifestOf(states[n].named[id])
  {
    RunKeepsInv(states, events, n);
    assert SetOk(states[n], id);
  }

  lemma {:induction false} FinishedScript(states: seq<State>, events: seq<Event>, n: nat, p: Proc)
    requires IsRun(states, events) && n < |states| && p in states[n].procs && !states[n].procs[p].creating
    ensures states[n].procs[p].script != []
    ensures var script := states[n].procs[p].script; script[|script| - 1].key == Manifest(states[n].procs[p].id)
  {
    assert StepAt(states, events, n - 1);
    if p in states[n - 1].procs { FinishedScript(states, events, n - 1, p); }
  }

  // ---------------------------------------------------------------- what outlives a manifest

  /** The step is a creation writing this key. */
  predicate Writes(st: State, e: Event, key: Key)
    requires Enabled(st, e)
  {
    e.Advance? && var op := st.procs[e.proc].script[st.procs[e.proc].pc]; op.Put? && op.key == key
  }

  predicate Erases(st: State, e: Event, key: Key)
    requires Enabled(st, e)
  {
    e.Advance? && st.procs[e.proc].script[st.procs[e.proc].pc] == Delete(key)
  }

  predicate WrittenAt(states: seq<State>, events: seq<Event>, j: nat, key: Key)
    requires j < |events| && |states| == |events| + 1
  {
    Enabled(states[j], events[j]) && Writes(states[j], events[j], key)
  }

  /** Some creation has written the key. */
  ghost predicate Written(states: seq<State>, events: seq<Event>, n: nat, key: Key)
    requires n <= |events| && |states| == |events| + 1
  {
    exists j: nat | j < n :: WrittenAt(states, events, j, key)
  }

  /** A manifest is written once, and only it and what it names is ever erased. */
  lemma ErasedWasNamed(st: State, e: Event, key: Key)
    requires Inv(st) && Enabled(st, e)
    ensures key in Step(st, e).store <==> Writes(st, e, key) || (key in st.store && !Erases(st, e, key))
    ensures Erases(st, e, key) ==> key.id in st.named && (key.Manifest? || Named(key, key.id, st.named[key.id]))
    ensures key.id in st.named ==> key.id in Step(st, e).named && Step(st, e).named[key.id] == st.named[key.id]
  {
    if e.Advance? { assert ProcOk(st, e.proc); }
  }

  lemma {:induction false} WrittenOrErased(states: seq<State>, events: seq<Event>, n: nat, key: Key)
    requires IsRun(states, events) && n < |states|
    ensures key in states[n].store ==> Written(states, events, n, key)
    ensures Written(states, events, n, key) && key !in states[n].store ==>
      key.id in states[n].named && (key.Manifest? || Named(key, key.id, states[n].named[key.id]))
  {
    if n > 0 {
      WrittenOrErased(states, events, n - 1, key);
      RunKeepsInv(states, events, n - 1);
      assert StepAt(states, events, n - 1);
      ErasedWasNamed(states[n - 1], events[n - 1], key);
      assert WrittenAt(states, events, n - 1, key) <==> Writes(states[n - 1], events[n - 1], key);
    }
  }

  /** Once a set's manifest has been written and is gone again, a key of the set is stored exactly when
      its creation wrote it and the manifest does not name it. */
  lemma StrayExactly(states: seq<State>, events: seq<Event>, n: nat, key: Key)
    requires IsRun(states, events) && n < |states|
    requires key.id in states[n].named && Manifest(key.id) !in states[n].store
    ensures key in states[n].store <==>
      Written(states, events, n, key) && !key.Manifest? && !Named(key, key.id, states[n].named[key.id])
  {
    RunKeepsInv(states, events, n);
    assert SetOk(states[n], key.id);
    WrittenOrErased(states, events, n, key);
  }

  /** After a delete that ran to its end the manifest is gone, and what is stored under the set is exactly
      what its creation wrote and the manifest did not name. */
  lemma FinishedDeleteLeavesOnlyStrays(states: seq<State>, events: seq<Event>, n: nat, p: Proc, key: Key)
    requires IsRun(states, events) && n < |states| && p in states[n].procs
    requires !states[n].procs[p].creating && states[n].procs[p].pc == |states[n].procs[p].script|
    requires key.id == states[n].procs[p].id
    ensures key.id in states[n].named && Manifest(key.id) !in states[n].store
    ensures key in states[n].store <==>
      Written(states, events, n, key) && key.Dump? && key.database !in states[n].named[key.id]
  {
    RunKeepsInv(states, events, n);
    assert ProcOk(states[n], p);
    FinishedScript(states, events, n, p);
    StrayExactly(states, events, n, key);
  }

  /** While any object of the set remains its manifest remains: exactly when the manifest is still
      there, or names everything else its creation wrote. */
  lemma ManifestOutlivesExactly(states: seq<State>, events: seq<Event>, n: nat, id: SetId)
    requires IsRun(states, events) && n < |states| && id in states[n].named
    ensures (forall key: Key | key.id == id && key in states[n].store :: Manifest(id) in states[n].store) <==>
      || Manifest(id) in states[n].store
      || forall key: Key | key.id == id && Written(states, events, n, key) ::
           key.Manifest? || Named(key, id, states[n].named[id])
  {
    if Manifest(id) !in states[n].store {
      forall key: Key | key.id == id
        ensures key in states[n].store <==>
          Written(states, events, n, key) && !key.Manifest? && !Named(key, id, states[n].named[id])
      {
        StrayExactly(states, events, n, key);
      }
    }
  }

  // Which keys a creation writes.

  ghost predicate InScript(script: seq<Op>, pc: nat, key: Key)
    requires pc <= |script|
  {
    exists k: nat | k < pc :: script[k].key == key
  }

  /** How far the creation begun by this event has got: what it has written is its script so far, and
      its manifest is named once the script is done. */
  ghost predicate Created(states: seq<State>, events: seq<Event>, n: nat, e: Event, key: Key)
    requires n < |states| && |states| == |events| + 1 && e.StartCreate?
  {
    && e.proc in states[n].procs
    && var p := states[n].procs[e.proc];
    && p.creating && p.id == e.id && p.script == CreateScript(e.id, e.landed, e.dumped) && p.pc <= |p.script|
    && (Written(states, events, n, key) <==> InScript(p.script, p.pc, key))
    && (e.id in states[n].named <==> p.pc == |p.script| && e.dumped != [])
    && (e.id in states[n].named ==> states[n].named[e.id] == e.dumped)
  }

  /** Only a set's own creation writes its keys, and it does so in the order of its script. */
  lemma CreationAdvances(st: State, e: Event, p: Proc, key: Key)
    requires Inv(st) && Enabled(st, e) && p in st.procs && st.procs[p].creating && key.id == st.procs[p].id
    ensures var was, now := st.procs[p], Step(st, e).procs[p];
      && now == was.(pc := now.pc)
      && now.pc == (if e == Advance(p) then was.pc + 1 else was.pc)
      && (Writes(st, e, key) <==> e == Advance(p) && was.script[was.pc].key == key)
  {
    assert ProcOk(st, p);
    if e.Advance? { assert ProcOk(st, e.proc); }
  }

  lemma NamedByCreation(st: State, e: Event, p: Proc)
    requires Inv(st) && Enabled(st, e) && p in st.procs && st.procs[p].creating
    ensures var was, id := st.procs[p], st.procs[p].id;
      && (id in Step(st, e).named <==> id in st.named || (e == Advance(p) && was.script[was.pc].key.Manifest?))
      && (e == Advance(p) && was.script[was.pc].key.Manifest? ==>
            was.script[was.pc].Put? && Step(st, e).named[id] == was.script[was.pc].value.databases)
      && (id in st.named ==> Step(st, e).named[id] == st.named[id])
  {
    assert ProcOk(st, p);
    if e.Advance? { assert ProcOk(st, e.proc); }
  }

  lemma CreatedNext(states: seq<State>, events: seq<Event>, n: nat, e: Event, key: Key)
    requires IsRun(states, events) && n < |events| && e.StartCreate? && key.id == e.id && Created(states, events, n, e, key)
    ensures Created(states, events, n + 1, e, key)
  {
    var was := states[n].procs[e.proc];
    assert StepAt(states, events, n);
    RunKeepsInv(states, events, n);
    CreationAdvances(states[n], events[n], e.proc, key);
    NamedByCreation(states[n], events[n], e.proc);
    assert WrittenAt(states, events, n, key) <==> Writes(states[n], events[n], key);
    assert Written(states, events, n + 1, key) <==> Written(states, events, n, key) || WrittenAt(states, events, n, key);
    var now := states[n + 1].procs[e.proc];
    assert now.pc == was.pc + 1 ==> (InScript(was.script, now.pc, key) <==> InScript(was.script, was.pc, key) || was.script[was.pc].key == key);
  }

  lemma {:induction false} CreatedOverRun(states: seq<State>, events: seq<Event>, i: nat, n: nat, key: Key)
    requires IsRun(states, events) && i < n < |states| && events[i].StartCreate? && key.id == events[i].id
    ensures Created(states, events, n, events[i], key)
    decreases n
  {
    if i == n - 1 {
      assert StepAt(states, events, i);
      RunKeepsInv(states, events, i);
      NothingWrittenYet(states, events, i, key);
      assert !WrittenAt(states, events, i, key);
      assert Written(states, events, n, key) <==> Written(states, events, i, key) || WrittenAt(states, events, i, key);
    } else {
      CreatedOverRun(states, events, i, n - 1, key);
      CreatedNext(states, events, n - 1, events[i], key);
    }
  }

  /** Before its creation begins no key of a set is written. */
  lemma {:induction false} NothingWrittenYet(states: seq<State>, events: seq<Event>, n: nat, key: Key)
    requires IsRun(states, events) && n < |states| && key.id !in states[n].begun
    ensures !Written(states, events, n, key) && key.id !in states[n].named
  {
    RunKeepsInv(states, events, n);
    assert key.id in states[n].named ==> SetOk(states[n], key.id);
    if n > 0 {
      assert StepAt(states, events, n - 1);
      RunKeepsInv(states, events, n - 1);
      NothingWrittenYet(states, events, n - 1, key);
      if events[n - 1].Advance? { assert ProcOk(states[n - 1], events[n - 1].proc); }
      assert !WrittenAt(states, events, n - 1, key);
    }
  }

  /** Said of the creation itself: once its manifest is written and gone again, what is left of the set
      is exactly the dumps that landed for databases it did not report as dumped. */
  lemma StraysAreUnreportedDumps(states: seq<State>, events: seq<Event>, i: nat, n: nat, key: Key)
    requires IsRun(states, events) && i < n < |states| && events[i].StartCreate? && key.id == events[i].id
    requires key.id in states[n].named && Manifest(key.id) !in states[n].store
    ensures key in states[n].store <==> key.Dump? && key.database in events[i].landed && key.database !in events[i].dumped
  {
    StrayExactly(states, events, n, key);
    CreatedOverRun(states, events, i, n, key);
    ScriptKeys(events[i].id, events[i].landed, events[i].dumped, key);
  }

  lemma ScriptKeys(id: SetId, landed: seq<Database>, dumped: seq<Database>, key: Key)
    ensures var script := CreateScript(id, landed, dumped);
      InScript(script, |script|, key) <==>
        key == Globals(id) || (key.Dump? && key.id == id && key.database in landed) || (key == Manifest(id) && dumped != [])
  {
    var script := CreateScript(id, landed, dumped);
    assert script[0].key == Globals(id);
    if key.Dump? && key.id == id && key.database in landed {
      var j :| 0 <= j < |landed| && landed[j] == key.database;
      assert script[j + 1].key == key;
    }
    if key == Manifest(id) && dumped != [] { assert script[|script| - 1].key == key; }
    if k: nat :| k < |script| && script[k].key == key {
      assert 1 <= k <= |landed| ==> key == Dump(id, landed[k - 1]);
    }
  }

  // A run that leaves a stray.

  const CREATION := CreateScript(0, ["a", "b"], ["a"])
  const DELETION := DeleteScript(0, ["a"])

  lemma Scripts()
    ensures CREATION == [Put(Globals(0), Blob), Put(Dump(0, "a"), Blob), Put(Dump(0, "b"), Blob), Put(Manifest(0), ManifestOf(["a"]))]
    ensures DELETION == [Delete(Dump(0, "a")), Delete(Globals(0)), Delete(Manifest(0))]
  {
  }

  /** The steps that run a process's script from where it stands to its end. */
  ghost predicate RunsThrough(states: seq<State>, p: Proc) {
    && states != [] && forall i | 0 <= i < |states| - 1 ::
         Enabled(states[i], Advance(p)) && states[i + 1] == Step(states[i], Advance(p))
  }

  lemma CreateAll(st: State) returns (states: seq<State>)
    requires st.store == map[] && st.named == map[] && st.procs == map[1 := Process(0, true, CREATION, 0)]
    ensures |states| == 5 && states[0] == st && RunsThrough(states, 1)
    ensures states[4].store.Keys == {Globals(0), Dump(0, "a"), Dump(0, "b"), Manifest(0)}
    ensures states[4].store[Manifest(0)] == ManifestOf(["a"]) && states[4].named == map[0 := ["a"]]
    ensures states[4].procs == map[1 := Process(0, true, CREATION, 4)]
  {
    Scripts();
    var s1 := Step(st, Advance(1));
    assert s1.procs == map[1 := Process(0, true, CREATION, 1)];
    var s2 := Step(s1, Advance(1));
    assert s2.procs == map[1 := Process(0, true, CREATION, 2)];
    var s3 := Step(s2, Advance(1));
    assert s3.procs == map[1 := Process(0, true, CREATION, 3)];
    var s4 := Step(s3, Advance(1));
    states := [st, s1, s2, s3, s4];
  }

  lemma DeleteAll(st: State) returns (states: seq<State>)
    requires st.store.Keys == {Globals(0), Dump(0, "a"), Dump(0, "b"), Manifest(0)}
    requires 2 in st.procs && st.procs[2] == Process(0, false, DELETION, 0) && st.named == map[0 := ["a"]]
    ensures |states| == 4 && states[0] == st && RunsThrough(states, 2)
    ensures states[3].store.Keys == {Dump(0, "b")} && states[3].named == st.named
  {
    Scripts();
    var s1 := Step(st, Advance(2));
    assert s1.procs[2] == Process(0, false, DELETION, 1);
    var s2 := Step(s1, Advance(2));
    assert s2.procs[2] == Process(0, false, DELETION, 2);
    var s3 := Step(s2, Advance(2));
    states := [st, s1, s2, s3];
  }

  /** A dump that landed before its attempt failed is not named: when the set's delete has run to its
      end the manifest is gone and the dump is still stored. */
  lemma StrayOutlivesItsManifest() returns (states: seq<State>, events: seq<Event>)
    ensures IsRun(states, events)
    ensures var last := states[|events|]; Dump(0, "b") in last.store && Manifest(0) !in last.store && 0 in last.named
  {
    var begin, end := StartCreate(1, 0, ["a", "b"], ["a"]), StartDelete(2, 0);
    var creating := CreateAll(Step(EMPTY, begin));
    assert Enabled(creating[4], end);
    var deleting := DeleteAll(Step(creating[4], end));
    states := [EMPTY] + creating + deleting;
    events := [begin, Advance(1), Advance(1), Advance(1), Advance(1), end, Advance(2), Advance(2), Advance(2)];
    forall i | 0 <= i < |events| ensures StepAt(states, events, i) {
      if 1 <= i <= 4 { assert states[i] == creating[i - 1] && states[i + 1] == creating[i]; }
      if 6 <= i { assert states[i] == deleting[i - 6] && states[i + 1] == deleting[i - 5]; }
    }
  }
}
