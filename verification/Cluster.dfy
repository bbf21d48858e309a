/** Cluster backup sets: the dump loop with its retries, the order of the store's writes and
    deletes, and pruning whole sets by retention. */
module Cluster {
  import opened Prelude
  import opened ClusterProtocol
  import Retention

  /** How one attempt at a database went. A failed attempt may still have stored its dump; `ddl`
      marks the one failure that is retried, a race with a schema change. */
  datatype Attempt = Dumped | Failed(ddl: bool, stored: bool)

  /** What every attempt at every database will do, attempts counted from one. */
  type Attempts = (Database, nat) -> Attempt

  /** What became of one database. */
  datatype Taken = Taken(database: Database, tries: nat, dumped: bool, backoff: real)

  function Pow2(n: nat): nat {
    if n == 0 then 1 else 2 * Pow2(n - 1)
  }

  /** Dumped at the first attempt that works; retried only after a schema-change race and at most
      `retries` times, sleeping twice as long before each; failed otherwise. */
  ghost predicate Fits(t: Taken, attempts: Attempts, retries: nat, delay: real) {
    && 1 <= t.tries <= retries + 1
    && (forall a: nat | 1 <= a < t.tries :: Raced(attempts, t.database, a))
    && (t.dumped <==> attempts(t.database, t.tries).Dumped?)
    && (!t.dumped ==> !Raced(attempts, t.database, t.tries) || t.tries == retries + 1)
    && t.backoff == delay * (Pow2(t.tries - 1) - 1) as real
  }

  predicate Raced(attempts: Attempts, database: Database, a: nat) {
    attempts(database, a).Failed? && attempts(database, a).ddl
  }

  /** The attempts decide the outcome: `Fits` leaves nothing open. */
  lemma OutcomeIsDetermined(s: Taken, t: Taken, attempts: Attempts, retries: nat, delay: real)
    requires Fits(s, attempts, retries, delay) && Fits(t, attempts, retries, delay) && s.database == t.database
    ensures s == t
  {
    assert s.tries < t.tries ==> Raced(attempts, t.database, s.tries);
    assert t.tries < s.tries ==> Raced(attempts, s.database, t.tries);
  }

  lemma {:induction false} Pow2Grows(m: nat, n: nat)
    requires m <= n
    ensures 1 <= Pow2(m) <= Pow2(n)
    decreases n
  {
    if m < n { Pow2Grows(m, n - 1); } else if m > 0 { Pow2Grows(m - 1, m - 1); }
  }

  /** All the sleeping one database can cost. */
  lemma BackoffIsBounded(t: Taken, attempts: Attempts, retries: nat, delay: real)
    requires Fits(t, attempts, retries, delay) && delay > 0.0
    ensures 0.0 <= t.backoff <= delay * (Pow2(retries) - 1) as real
  {
    Pow2Grows(t.tries - 1, retries);
    var waited, most := (Pow2(t.tries - 1) - 1) as real, (Pow2(retries) - 1) as real;
    assert 0.0 <= waited <= most;
    assert delay * (most - waited) >= 0.0;
  }

  function Names(taken: seq<Taken>, dumped: bool): seq<Database> {
    if taken == [] then [] else
    var rest := Names(taken[..|taken| - 1], dumped);
    var last := taken[|taken| - 1];
    if last.dumped == dumped then rest + [last.database] else rest
  }

  lemma NamesAppend(taken: seq<Taken>, t: Taken, dumped: bool)
    ensures Names(taken + [t], dumped) == if t.dumped == dumped then Names(taken, dumped) + [t.database] else Names(taken, dumped)
  {
    assert (taken + [t])[..|taken|] == taken;
  }

  /** Every database ends up in exactly one of the two lists, each in enumeration order. */
  lemma {:induction false} EveryDatabaseIsAccountedFor(taken: seq<Taken>, databases: seq<Database>)
    requires |taken| == |databases| && forall i | 0 <= i < |taken| :: taken[i].database == databases[i]
    ensures multiset(Names(taken, true)) + multiset(Names(taken, false)) == multiset(databases)
    ensures |Names(taken, true)| + |Names(taken, false)| == |databases|
  {
    if taken != [] {
      var n := |taken| - 1;
      var last := taken[n];
      EveryDatabaseIsAccountedFor(taken[..n], databases[..n]);
      assert databases == databases[..n] + [last.database];
      assert Names(taken, last.dumped) == Names(taken[..n], last.dumped) + [last.database];
      assert Names(taken, !last.dumped) == Names(taken[..n], !last.dumped);
    }
  }

  ghost predicate Ascending(at: seq<nat>, n: nat) {
    (forall k | 0 <= k < |at| :: at[k] < n) && forall j, k | 0 <= j < k < |at| :: at[j] < at[k]
  }

  /** The dumps are exactly the databases whose last attempt worked and the failures exactly the others,
      each in the order they were taken. */
  lemma {:induction false} ListedExactly(taken: seq<Taken>, dumped: bool) returns (at: seq<nat>)
    ensures |at| == |Names(taken, dumped)| && Ascending(at, |taken|)
    ensures forall k | 0 <= k < |at| :: Names(taken, dumped)[k] == taken[at[k]].database
    ensures forall i: nat | i < |taken| :: i in at <==> taken[i].dumped == dumped
  {
    at := [];
    if taken != [] {
      var n := |taken| - 1;
      at := ListedExactly(taken[..n], dumped);
      if taken[n].dumped == dumped { at := at + [n]; }
    }
  }

  // ---------------------------------------------------------------- store effects

  /** The dumps the first `tries` attempts at a database stored, one entry for each. */
  function Landings(attempts: Attempts, database: Database, tries: nat): seq<Database> {
    if tries == 0 then [] else
    var earlier := Landings(attempts, database, tries - 1);
    var last := attempts(database, tries);
    if last.Dumped? || last.stored then earlier + [database] else earlier
  }

  function AllLandings(attempts: Attempts, taken: seq<Taken>): seq<Database> {
    if taken == [] then [] else
    var last := taken[|taken| - 1];
    AllLandings(attempts, taken[..|taken| - 1]) + Landings(attempts, last.database, last.tries)
  }

  lemma AllLandingsAppend(attempts: Attempts, taken: seq<Taken>, t: Taken)
    ensures AllLandings(attempts, taken + [t]) == AllLandings(attempts, taken) + Landings(attempts, t.database, t.tries)
  {
    assert (taken + [t])[..|taken|] == taken;
  }

  /** An attempt put its dump in the store, though it may have failed afterwards. */
  predicate LandsAt(attempts: Attempts, database: Database, a: nat) {
    attempts(database, a).Dumped? || attempts(database, a).stored
  }

  lemma {:induction false} LandingsExactly(attempts: Attempts, database: Database, tries: nat, d: Database)
    ensures d in Landings(attempts, database, tries) <==>
      d == database && exists a: nat | 1 <= a <= tries :: LandsAt(attempts, database, a)
  {
    if tries > 0 {
      LandingsExactly(attempts, database, tries - 1, d);
      if LandsAt(attempts, database, tries) { assert database in Landings(attempts, database, tries); }
    }
  }

  ghost predicate LandedBy(attempts: Attempts, t: Taken, d: Database) {
    t.database == d && exists a: nat | 1 <= a <= t.tries :: LandsAt(attempts, d, a)
  }

  /** A dump is left in the store for exactly the databases with an attempt that stored one, dumped or
      not in the end. */
  lemma {:induction false} LandedExactly(attempts: Attempts, taken: seq<Taken>, d: Database)
    ensures d in AllLandings(attempts, taken) <==> exists i | 0 <= i < |taken| :: LandedBy(attempts, taken[i], d)
  {
    if taken != [] {
      var n := |taken| - 1;
      var init, last := taken[..n], taken[n];
      LandedExactly(attempts, init, d);
      LandingsExactly(attempts, last.database, last.tries, d);
      assert forall i | 0 <= i < n :: init[i] == taken[i];
      if d in AllLandings(attempts, init) {
        var i :| 0 <= i < |init| && LandedBy(attempts, init[i], d);
        assert LandedBy(attempts, taken[i], d);
      }
      assert d in Landings(attempts, last.database, last.tries) ==> LandedBy(attempts, taken[n], d);
    }
  }

  /** Whatever is reported as dumped is in the store. */
  lemma {:induction false} DumpedMeansStored(attempts: Attempts, taken: seq<Taken>, retries: nat, delay: real)
    requires forall i | 0 <= i < |taken| :: Fits(taken[i], attempts, retries, delay)
    ensures forall d | d in Names(taken, true) :: d in AllLandings(attempts, taken)
  {
    if taken != [] {
      DumpedMeansStored(attempts, taken[..|taken| - 1], retries, delay);
      var last := taken[|taken| - 1];
      assert last.dumped ==> last.database in Landings(attempts, last.database, last.tries);
    }
  }

  /** The store once these dumps have been put. */
  function WithDumps(store: Store, id: SetId, landed: seq<Database>): Store
    decreases |landed|
  {
    if landed == [] then store else WithDumps(store, id, landed[..|landed| - 1])[Dump(id, landed[|landed| - 1]) := Blob]
  }

  function RunScript(store: Store, script: seq<Op>): Store
    decreases |script|
  {
    if script == [] then store else Apply(RunScript(store, script[..|script| - 1]), script[|script| - 1])
  }

  lemma RunAppend(store: Store, script: seq<Op>, op: Op)
    ensures RunScript(store, script + [op]) == Apply(RunScript(store, script), op)
  {
    assert (script + [op])[..|script|] == script;
  }

  lemma DumpPutsAppend(id: SetId, databases: seq<Database>, d: Database)
    ensures DumpPuts(id, databases + [d]) == DumpPuts(id, databases) + [Put(Dump(id, d), Blob)]
  {
  }

  lemma {:induction false} WithDumpsExactly(store: Store, id: SetId, landed: seq<Database>, key: Key)
    ensures key in WithDumps(store, id, landed) <==> key in store || (key.Dump? && key.id == id && key.database in landed)
    ensures key in store && !(key.Dump? && key.id == id) ==> WithDumps(store, id, landed)[key] == store[key]
    decreases |landed|
  {
    if landed != [] {
      var init, last := landed[..|landed| - 1], landed[|landed| - 1];
      WithDumpsExactly(store, id, init, key);
      assert landed == init + [last];
    }
  }

  /** What a creation adds to the store: the globals, the dumps that landed, and a manifest naming the
      databases dumped, if there are any; it touches nothing of another set. */
  lemma CreationAdds(store: Store, id: SetId, landed: seq<Database>, dumped: seq<Database>, key: Key)
    ensures var after := RunScript(store, CreateScript(id, landed, dumped));
      && (key in after <==>
            || key in store || key == Globals(id) || (key.Dump? && key.id == id && key.database in landed)
            || (key == Manifest(id) && dumped != []))
      && (dumped != [] ==> Manifest(id) in after && after[Manifest(id)] == ManifestOf(dumped))
      && (key in store && key.id != id ==> key in after && after[key] == store[key])
  {
    DumpsLand(store, id, landed);
    WithDumpsExactly(store[Globals(id) := Blob], id, landed, key);
    if dumped != [] { ManifestLands(store, id, landed, dumped); }
  }

  /** How a single put went; one that raised may still have stored its object. */
  datatype PutOutcome = Stored | Raised(stored: bool)

  predicate Lands(put: PutOutcome) {
    put.Stored? || put.stored
  }

  datatype BackupResult = Created | NothingDumped | GlobalsRaised | ManifestRaised

  datatype Outcome = Deleted | NotAllowed | NotFound

  class ClusterBackup {
    var store: Store
    const allowDelete: bool

    constructor (allowDelete: bool)
      ensures store == map[] && this.allowDelete == allowDelete
    {
      store := map[];
      this.allowDelete := allowDelete;
    }

    /** The `while True` loop around one database: every attempt that stores leaves a dump behind,
        whether or not the database ends up dumped. */
    method TakeDatabase(id: SetId, database: Database, attempts: Attempts, retries: nat, delay: real) returns (taken: Taken)
      modifies this
      ensures taken.database == database && Fits(taken, attempts, retries, delay)
      ensures store == WithDumps(old(store), id, Landings(attempts, database, taken.tries))
    {
      var attempt, slept := 0, 0.0;
      while true
        invariant 0 <= attempt <= retries && Retrying(attempts, database, attempt, slept, delay)
        invariant store == WithDumps(old(store), id, Landings(attempts, database, attempt))
        decreases retries - attempt
      {
        attempt := attempt + 1;
        var result := attempts(database, attempt);
        LandingsNext(old(store), id, attempts, database, attempt);
        if result.Dumped? || result.stored {
          store := store[Dump(id, database) := Blob];
        }
        if result.Failed? {
          if attempt <= retries && result.ddl {
            RetriesOnce(attempts, database, attempt, slept, delay);
            slept := slept + delay * Pow2(attempt - 1) as real;
            continue;
          }
          return Taken(database, attempt, false, slept);
        }
        return Taken(database, attempt, true, slept);
      }
    }

    /** create_backup(): globals, each database in turn, and last, if anything was dumped, the
        manifest. A put of the globals or the manifest that raises ends the call, and may or may not
        have stored its object. */
    method CreateBackup(id: SetId, databases: seq<Database>, attempts: Attempts, retries: nat, delay: real,
                        globals: PutOutcome, manifest: PutOutcome)
      returns (result: BackupResult, taken: seq<Taken>, dumps: seq<Database>, failures: seq<Database>)
      modifies this
      ensures result == GlobalsRaised <==> globals.Raised?
      ensures result == GlobalsRaised ==>
        taken == [] && store == if Lands(globals) then old(store)[Globals(id) := Blob] else old(store)
      ensures result != GlobalsRaised ==>
        && Took(databases, |databases|, taken, attempts, retries, delay)
        && store == RunScript(old(store), CreateScript(id, AllLandings(attempts, taken), if Lands(manifest) then dumps else []))
      ensures dumps == Names(taken, true) && failures == Names(taken, false)
      ensures result == Created <==> globals.Stored? && dumps != [] && manifest.Stored?
      ensures result == NothingDumped <==> globals.Stored? && dumps == []
    {
      ghost var before := store;
      taken, dumps, failures := [], [], [];
      if Lands(globals) { store := store[Globals(id) := Blob]; }
      if globals.Raised? { return GlobalsRaised, taken, dumps, failures; }
      var i := 0;
      while i < |databases|
        invariant Took(databases, i, taken, attempts, retries, delay)
        invariant dumps == Names(taken, true) && failures == Names(taken, false)
        invariant store == WithDumps(before[Globals(id) := Blob], id, AllLandings(attempts, taken))
      {
        var t := TakeDatabase(id, databases[i], attempts, retries, delay);
        WithMoreDumps(before[Globals(id) := Blob], id, AllLandings(attempts, taken), Landings(attempts, t.database, t.tries));
        TookNext(databases, i, taken, t, attempts, retries, delay);
        if t.dumped { dumps := dumps + [databases[i]]; } else { failures := failures + [databases[i]]; }
        taken := taken + [t];
        i := i + 1;
      }
      DumpsLand(before, id, AllLandings(attempts, taken));
      if dumps == [] { return NothingDumped, taken, dumps, failures; }
      if Lands(manifest) {
        ManifestLands(before, id, AllLandings(attempts, taken), dumps);
        store := store[Manifest(id) := ManifestOf(dumps)];
      }
      result := if manifest.Stored? then Created else ManifestRaised;
    }

    /** delete_set(): every named dump, the globals, then the manifest. */
    method DeleteSet(id: SetId) returns (outcome: Outcome)
      modifies this
      ensures outcome == NotAllowed <==> !allowDelete
      ensures outcome == NotFound <==> allowDelete && !HasManifest(old(store), id)
      ensures outcome != Deleted ==> store == old(store)
      ensures outcome == Deleted ==>
        && store == RunScript(old(store), DeleteScript(id, old(store)[Manifest(id)].databases))
        && Removes(old(store), store, id)
    {
      if !allowDelete { return NotAllowed; }
      if Manifest(id) !in store || !store[Manifest(id)].ManifestOf? { return NotFound; }
      ghost var before := store;
      var databases := store[Manifest(id)].databases;
      ghost var script: seq<Op> := [];
      for i := 0 to |databases|
        invariant script == DumpDeletes(id, databases[..i]) && store == RunScript(before, script)
        invariant RemovesDumps(before, store, id, databases[..i])
      {
        DeleteNext(before, script, id, databases, i);
        script := script + [Delete(Dump(id, databases[i]))];
        store := store - {Dump(id, databases[i])};
        assert databases[..i + 1] == databases[..i] + [databases[i]];
      }
      assert databases[..|databases|] == databases;
      DeleteEnd(before, id, databases);
      RemovesAll(before, store, id, databases);
      store := store - {Globals(id)};
      store := store - {Manifest(id)};
      return Deleted;
    }

    /** apply_retention(): refused without permission; otherwise exactly the sets retention rejects
        disappear, all they name with them. */
    method ApplyRetention(policy: Retention.Policy, records: seq<Retention.BackupRecord>)
      returns (outcome: Option<Retention.Decision>)
      requires Retention.DistinctKeys(records) && forall r | r in records :: HasManifest(store, r.key)
      modifies this
      ensures outcome == if allowDelete then Some(Retention.Selection(policy, records)) else None
      ensures outcome == None ==> store == old(store)
      ensures outcome.Some? ==> forall key: Key :: key in store <==>
        key in old(store) && forall r | r in outcome.value.delete :: !Belongs(old(store), key, r.key)
      ensures forall key | key in store :: store[key] == old(store)[key]
    {
      if !allowDelete { return None; }
      var decision := Retention.Select(policy, records);
      ghost var before := store;
      DecisionFacts(policy, records);
      for i := 0 to |decision.delete|
        invariant Pruned(before, store, decision.delete, i)
      {
        var id := decision.delete[i].key;
        NotYetPruned(before, store, decision.delete, i);
        ghost var during := store;
        var deleted := DeleteSet(id);
        PruneStep(before, during, store, decision.delete, i);
      }
      AllPruned(before, store, decision.delete);
      return Some(decision);
    }
  }

  /** The first `n` attempts all lost a race, and the sleeping between them. */
  ghost predicate Retrying(attempts: Attempts, database: Database, n: nat, slept: real, delay: real) {
    && (forall a: nat | 1 <= a <= n :: Raced(attempts, database, a))
    && slept == delay * (Pow2(n) - 1) as real
  }

  lemma RetriesOnce(attempts: Attempts, database: Database, n: nat, slept: real, delay: real)
    requires n >= 1 && Retrying(attempts, database, n - 1, slept, delay) && Raced(attempts, database, n)
    ensures Retrying(attempts, database, n, slept + delay * Pow2(n - 1) as real, delay)
  {
    assert Pow2(n) == 2 * Pow2(n - 1);
  }

  /** The first `n` databases have been taken, in order. */
  ghost predicate Took(databases: seq<Database>, n: nat, taken: seq<Taken>, attempts: Attempts, retries: nat, delay: real) {
    && |taken| == n <= |databases|
    && forall i | 0 <= i < n :: taken[i].database == databases[i] && Fits(taken[i], attempts, retries, delay)
  }

  lemma TookNext(databases: seq<Database>, n: nat, taken: seq<Taken>, t: Taken, attempts: Attempts, retries: nat, delay: real)
    requires Took(databases, n, taken, attempts, retries, delay) && n < |databases|
    requires t.database == databases[n] && Fits(t, attempts, retries, delay)
    ensures Took(databases, n + 1, taken + [t], attempts, retries, delay)
    ensures Names(taken + [t], t.dumped) == Names(taken, t.dumped) + [t.database]
    ensures Names(taken + [t], !t.dumped) == Names(taken, !t.dumped)
    ensures AllLandings(attempts, taken + [t]) == AllLandings(attempts, taken) + Landings(attempts, t.database, t.tries)
  {
    NamesAppend(taken, t, true);
    NamesAppend(taken, t, false);
    AllLandingsAppend(attempts, taken, t);
  }

  lemma LandingsNext(before: Store, id: SetId, attempts: Attempts, database: Database, n: nat)
    requires n >= 1
    ensures var earlier := WithDumps(before, id, Landings(attempts, database, n - 1));
      WithDumps(before, id, Landings(attempts, database, n))
      == if attempts(database, n).Dumped? || attempts(database, n).stored then earlier[Dump(id, database) := Blob] else earlier
  {
    WithOneMore(before, id, Landings(attempts, database, n - 1), database);
  }

  predicate HasManifest(store: Store, id: SetId) {
    Manifest(id) in store && store[Manifest(id)].ManifestOf?
  }

  /** The set's manifest, or something it names. */
  ghost predicate Belongs(store: Store, key: Key, id: SetId) {
    HasManifest(store, id) && (key == Manifest(id) || Named(key, id, store[Manifest(id)].databases))
  }

  ghost predicate Removes(before: Store, after: Store, id: SetId)
    requires HasManifest(before, id)
  {
    && (forall key: Key :: key in after <==> key in before && !Belongs(before, key, id))
    && (forall key | key in after :: after[key] == before[key])
  }

  ghost predicate RemovesDumps(before: Store, after: Store, id: SetId, databases: seq<Database>) {
    && (forall key: Key :: key in after <==> key in before && !(key.Dump? && key.id == id && key.database in databases))
    && (forall key | key in after :: after[key] == before[key])
  }

  lemma RemovesAll(before: Store, mid: Store, id: SetId, databases: seq<Database>)
    requires HasManifest(before, id) && databases == before[Manifest(id)].databases && RemovesDumps(before, mid, id, databases)
    ensures Removes(before, mid - {Globals(id)} - {Manifest(id)}, id)
  {
  }

  lemma DeleteNext(before: Store, script: seq<Op>, id: SetId, databases: seq<Database>, i: nat)
    requires i < |databases| && script == DumpDeletes(id, databases[..i])
    ensures var op := Delete(Dump(id, databases[i]));
      && script + [op] == DumpDeletes(id, databases[..i + 1])
      && RunScript(before, script + [op]) == RunScript(before, script) - {Dump(id, databases[i])}
  {
    RunAppend(before, script, Delete(Dump(id, databases[i])));
  }

  lemma DeleteEnd(before: Store, id: SetId, databases: seq<Database>)
    ensures RunScript(before, DeleteScript(id, databases))
         == RunScript(before, DumpDeletes(id, databases)) - {Globals(id)} - {Manifest(id)}
  {
    var dumps := DumpDeletes(id, databases);
    RunAppend(before, dumps, Delete(Globals(id)));
    RunAppend(before, dumps + [Delete(Globals(id))], Delete(Manifest(id)));
    assert DeleteScript(id, databases) == dumps + [Delete(Globals(id))] + [Delete(Manifest(id))];
  }

  lemma WithOneMore(before: Store, id: SetId, landed: seq<Database>, d: Database)
    ensures WithDumps(before, id, landed + [d]) == WithDumps(before, id, landed)[Dump(id, d) := Blob]
  {
    assert (landed + [d])[..|landed|] == landed;
  }

  lemma {:induction false} WithMoreDumps(before: Store, id: SetId, landed: seq<Database>, more: seq<Database>)
    ensures WithDumps(WithDumps(before, id, landed), id, more) == WithDumps(before, id, landed + more)
  {
    if more == [] {
      assert landed + more == landed;
    } else {
      var init, d := more[..|more| - 1], more[|more| - 1];
      WithMoreDumps(before, id, landed, init);
      WithOneMore(before, id, landed + init, d);
      assert (landed + init) + [d] == landed + more;
    }
  }

  lemma {:induction false} DumpsLand(before: Store, id: SetId, landed: seq<Database>)
    ensures RunScript(before, CreateScript(id, landed, [])) == WithDumps(before[Globals(id) := Blob], id, landed)
  {
    if landed == [] {
      assert CreateScript(id, [], []) == [] + [Put(Globals(id), Blob)];
      RunAppend(before, [], Put(Globals(id), Blob));
    } else {
      var init, d := landed[..|landed| - 1], landed[|landed| - 1];
      DumpsLand(before, id, init);
      assert landed == init + [d];
      DumpPutsAppend(id, init, d);
      RunAppend(before, CreateScript(id, init, []), Put(Dump(id, d), Blob));
      assert CreateScript(id, landed, []) == CreateScript(id, init, []) + [Put(Dump(id, d), Blob)];
    }
  }

  lemma ManifestLands(before: Store, id: SetId, landed: seq<Database>, dumps: seq<Database>)
    requires dumps != []
    ensures RunScript(before, CreateScript(id, landed, dumps))
         == RunScript(before, CreateScript(id, landed, []))[Manifest(id) := ManifestOf(dumps)]
  {
    RunAppend(before, CreateScript(id, landed, []), Put(Manifest(id), ManifestOf(dumps)));
    assert CreateScript(id, landed, dumps) == CreateScript(id, landed, []) + [Put(Manifest(id), ManifestOf(dumps))];
  }

  lemma DecisionFacts(policy: Retention.Policy, records: seq<Retention.BackupRecord>)
    requires Retention.DistinctKeys(records)
    ensures var rejected := Retention.Selection(policy, records).delete;
      (forall i | 0 <= i < |rejected| :: rejected[i] in records) && Retention.DistinctKeys(rejected)
  {
    var ordered := Retention.Sorted(records);
    var keys := Retention.KeepKeys(policy, ordered);
    Retention.SortedFacts(records);
    Retention.KeptMember(ordered, keys);
    Retention.DroppedDistinct(ordered, keys);
  }

  /** The key is of none of the first `n` rejected sets. */
  ghost predicate Spared(store: Store, key: Key, rejected: seq<Retention.BackupRecord>, n: nat)
    requires n <= |rejected|
  {
    forall j | 0 <= j < n :: !Belongs(store, key, rejected[j].key)
  }

  /** The first `n` rejected sets are gone and everything else is as it was. */
  ghost predicate Pruned(before: Store, after: Store, rejected: seq<Retention.BackupRecord>, n: nat)
    requires n <= |rejected|
  {
    && (forall key: Key :: key in after <==> key in before && Spared(before, key, rejected, n))
    && (forall key | key in after :: after[key] == before[key])
  }

  lemma NotYetPruned(before: Store, store: Store, rejected: seq<Retention.BackupRecord>, i: nat)
    requires i < |rejected| && Pruned(before, store, rejected, i)
    requires HasManifest(before, rejected[i].key) && Retention.DistinctKeys(rejected)
    ensures HasManifest(store, rejected[i].key)
  {
    assert forall j | 0 <= j < i :: rejected[j].key != rejected[i].key;
    assert Spared(before, Manifest(rejected[i].key), rejected, i);
  }

  lemma AllPruned(before: Store, after: Store, rejected: seq<Retention.BackupRecord>)
    requires Pruned(before, after, rejected, |rejected|)
    ensures forall key: Key :: key in after <==>
      key in before && forall r | r in rejected :: !Belongs(before, key, r.key)
  {
    forall key: Key ensures key in after <==> key in before && forall r | r in rejected :: !Belongs(before, key, r.key) {
      assert forall j | 0 <= j < |rejected| :: rejected[j] in rejected;
    }
  }

  /** One more set pruned: sets share no keys, so the others keep theirs. */
  lemma PruneStep(before: Store, during: Store, after: Store, rejected: seq<Retention.BackupRecord>, i: nat)
    requires i < |rejected| && forall j | 0 <= j < |rejected| :: HasManifest(before, rejected[j].key)
    requires Pruned(before, during, rejected, i)
    requires HasManifest(during, rejected[i].key) && Removes(during, after, rejected[i].key)
    ensures Pruned(before, after, rejected, i + 1)
  {
    var id := rejected[i].key;
    assert before[Manifest(id)] == during[Manifest(id)];
    forall key: Key ensures key in after <==> key in before && Spared(before, key, rejected, i + 1) {
      assert Belongs(during, key, id) <==> Belongs(before, key, id);
      assert Spared(before, key, rejected, i + 1) <==> Spared(before, key, rejected, i) && !Belongs(before, key, id);
    }
  }
}
