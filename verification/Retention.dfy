/** Grandfather-father-son retention: newest-per-period selection, and how repeated
    pruning behaves over a history that keeps growing. */
module Retention {

  /** A period identity: a calendar day, an ISO week or a calendar month. */
  type Period = seq<int>

  /** `createdAt` is the instant; `key` is the set id, whose text form orders as its number. */
  datatype BackupRecord = BackupRecord(key: nat, createdAt: int, sizeBytes: nat)

  datatype Decision = Decision(keep: seq<BackupRecord>, delete: seq<BackupRecord>)

  /** One tier: how instants are cut into periods, and how many recent periods it keeps. */
  datatype Tier = Tier(period: int -> Period, count: nat)

  datatype Policy = Policy(daily: Tier, weekly: Tier, monthly: Tier)

  // ---------------------------------------------------------------- order

  predicate Newer(a: BackupRecord, b: BackupRecord) {
    a.createdAt > b.createdAt || (a.createdAt == b.createdAt && a.key > b.key)
  }

  ghost predicate NewestFirst(s: seq<BackupRecord>) {
    forall i, j | 0 <= i < j < |s| :: !Newer(s[j], s[i])
  }

  ghost predicate DistinctKeys(s: seq<BackupRecord>) {
    forall i, j | 0 <= i < j < |s| :: s[i].key != s[j].key
  }

  /** Every record of `later` was taken after every record of `earlier`, or at the same instant with a
      larger key. */
  ghost predicate AllNewer(later: seq<BackupRecord>, earlier: seq<BackupRecord>) {
    forall a, b | a in later && b in earlier :: a.createdAt > b.createdAt || (a.createdAt == b.createdAt && a.key > b.key)
  }

  function Insert(r: BackupRecord, s: seq<BackupRecord>): seq<BackupRecord> {
    if s == [] || !Newer(s[0], r) then [r] + s else [s[0]] + Insert(r, s[1..])
  }

  /** `sorted(records, key=(created_at, key), reverse=True)`: stable, newest first. */
  function Sorted(s: seq<BackupRecord>): seq<BackupRecord> {
    if s == [] then [] else Insert(s[0], Sorted(s[1..]))
  }

  lemma {:induction false} InsertContents(r: BackupRecord, s: seq<BackupRecord>)
    ensures multiset(Insert(r, s)) == multiset(s) + multiset{r}
    ensures forall x :: x in Insert(r, s) <==> x == r || x in s
  {
    if s != [] && Newer(s[0], r) {
      InsertContents(r, s[1..]);
      assert s == [s[0]] + s[1..];
    }
  }

  lemma {:induction false} InsertOrder(r: BackupRecord, s: seq<BackupRecord>)
    requires NewestFirst(s)
    ensures NewestFirst(Insert(r, s))
  {
    if s != [] && Newer(s[0], r) {
      InsertOrder(r, s[1..]);
      InsertContents(r, s[1..]);
      var rest := Insert(r, s[1..]);
      forall x | x in rest ensures !Newer(x, s[0]) {
        if x != r {
          var i :| 0 <= i < |s[1..]| && s[1..][i] == x;
          assert s[i + 1] == x;
        }
      }
      OrderCons(s[0], rest);
    } else {
      forall x | x in s ensures !Newer(x, r) {
        var i :| 0 <= i < |s| && s[i] == x;
        assert i == 0 || !Newer(s[i], s[0]);
      }
      OrderCons(r, s);
    }
  }

  lemma OrderCons(r: BackupRecord, s: seq<BackupRecord>)
    requires NewestFirst(s) && forall x | x in s :: !Newer(x, r)
    ensures NewestFirst([r] + s)
  {
  }

  lemma {:induction false} SortedContents(s: seq<BackupRecord>)
    ensures multiset(Sorted(s)) == multiset(s)
    ensures forall r :: r in Sorted(s) <==> r in s
    ensures |Sorted(s)| == |s|
  {
    if s != [] {
      SortedContents(s[1..]);
      InsertContents(s[0], Sorted(s[1..]));
      assert s == [s[0]] + s[1..];
    }
    assert |multiset(Sorted(s))| == |multiset(s)|;
  }

  lemma {:induction false} SortedOrder(s: seq<BackupRecord>)
    ensures NewestFirst(Sorted(s))
  {
    if s != [] {
      SortedOrder(s[1..]);
      InsertOrder(s[0], Sorted(s[1..]));
    }
  }

  lemma {:induction false} InsertDistinct(r: BackupRecord, s: seq<BackupRecord>)
    requires DistinctKeys(s) && forall x | x in s :: x.key != r.key
    ensures DistinctKeys(Insert(r, s))
  {
    if s != [] && Newer(s[0], r) {
      InsertDistinct(r, s[1..]);
      InsertContents(r, s[1..]);
      DistinctJoin([s[0]], Insert(r, s[1..]));
    } else {
      DistinctJoin([r], s);
    }
  }

  lemma {:induction false} SortedDistinct(s: seq<BackupRecord>)
    requires DistinctKeys(s)
    ensures DistinctKeys(Sorted(s))
  {
    if s != [] {
      SortedDistinct(s[1..]);
      SortedContents(s[1..]);
      InsertDistinct(s[0], Sorted(s[1..]));
    }
  }

  lemma DistinctJoin(a: seq<BackupRecord>, b: seq<BackupRecord>)
    requires DistinctKeys(a) && DistinctKeys(b)
    requires forall x, y | x in a && y in b :: x.key != y.key
    ensures DistinctKeys(a + b)
  {
  }

  lemma DistinctParts(a: seq<BackupRecord>, b: seq<BackupRecord>)
    requires DistinctKeys(a + b)
    ensures DistinctKeys(a) && DistinctKeys(b)
    ensures forall x, y | x in a && y in b :: x.key != y.key
  {
    forall i, j | 0 <= i < j < |a| ensures a[i].key != a[j].key {
      assert (a + b)[i] == a[i] && (a + b)[j] == a[j];
    }
    forall i, j | 0 <= i < j < |b| ensures b[i].key != b[j].key {
      assert (a + b)[|a| + i] == b[i] && (a + b)[|a| + j] == b[j];
    }
    forall x, y | x in a && y in b ensures x.key != y.key {
      var i :| 0 <= i < |a| && a[i] == x;
      var j :| 0 <= j < |b| && b[j] == y;
      assert (a + b)[i] == x && (a + b)[|a| + j] == y;
    }
  }

  // ---------------------------------------------------------------- specification

  /** The records a tier keeps: scanning newest first, the first record of each period until
      `count` periods have been seen. `seen` holds the periods met so far. */
  function Keepers(ordered: seq<BackupRecord>, tier: Tier, seen: set<Period>): seq<BackupRecord> {
    if ordered == [] then [] else
    var p := tier.period(ordered[0].createdAt);
    var rest := Keepers(ordered[1..], tier, seen + {p});
    if p !in seen && |seen| < tier.count then [ordered[0]] + rest else rest
  }

  function Keys(s: seq<BackupRecord>): set<nat> {
    set r | r in s :: r.key
  }

  function Periods(s: seq<BackupRecord>, tier: Tier): set<Period> {
    if s == [] then {} else {tier.period(s[0].createdAt)} + Periods(s[1..], tier)
  }

  function KeepKeys(policy: Policy, ordered: seq<BackupRecord>): set<nat> {
    Keys(Keepers(ordered, policy.daily, {}))
    + Keys(Keepers(ordered, policy.weekly, {}))
    + Keys(Keepers(ordered, policy.monthly, {}))
  }

  function Kept(s: seq<BackupRecord>, keys: set<nat>): seq<BackupRecord> {
    if s == [] then [] else if s[0].key in keys then [s[0]] + Kept(s[1..], keys) else Kept(s[1..], keys)
  }

  function Dropped(s: seq<BackupRecord>, keys: set<nat>): seq<BackupRecord> {
    if s == [] then [] else if s[0].key !in keys then [s[0]] + Dropped(s[1..], keys) else Dropped(s[1..], keys)
  }

  function Selection(policy: Policy, records: seq<BackupRecord>): Decision {
    var ordered := Sorted(records);
    var keys := KeepKeys(policy, ordered);
    Decision(Kept(ordered, keys), Dropped(ordered, keys))
  }

  // ---------------------------------------------------------------- the code

  /** `order` is the dict's insertion order, `newest` its contents, `kept` the records behind
      the first entries of it. */
  ghost predicate DictHolds(order: seq<Period>, newest: map<Period, nat>, kept: seq<BackupRecord>, count: nat) {
    && newest.Keys == (set p | p in order) && |newest.Keys| == |order|
    && |kept| == (if count < |order| then count else |order|)
    && forall a | 0 <= a < |kept| :: newest[order[a]] == kept[a].key
  }

  lemma DictGrows(order: seq<Period>, newest: map<Period, nat>, kept: seq<BackupRecord>, count: nat, p: Period, r: BackupRecord)
    requires DictHolds(order, newest, kept, count) && p !in newest
    ensures DictHolds(order + [p], newest[p := r.key], if |order| < count then kept + [r] else kept, count)
  {
    var order', newest' := order + [p], newest[p := r.key];
    assert newest'.Keys == newest.Keys + {p};

    assert (set q | q in order') == (set q | q in order) + {p};
    forall a | 0 <= a < |order| ensures newest'[order'[a]] == newest[order[a]] {
      assert order[a] in newest;
    }
  }

  lemma DictKeys(order: seq<Period>, newest: map<Period, nat>, kept: seq<BackupRecord>, count: nat)
    requires DictHolds(order, newest, kept, count)
    ensures forall p | p in order[..|kept|] :: p in newest
    ensures (set p | p in order[..|kept|] :: newest[p]) == Keys(kept)
  {
    var recent := order[..|kept|];
    forall p | p in recent ensures p in order {}
    forall k | k in Keys(kept) ensures k in (set p | p in recent :: newest[p]) {
      var a :| 0 <= a < |kept| && kept[a].key == k;
      assert recent[a] in recent;
    }
  }

  /** The loop has read `i` records: the dict is filled, and the rest of the scan is still to come. */
  ghost predicate ReadThrough(ordered: seq<BackupRecord>, i: nat, tier: Tier,
                              order: seq<Period>, newest: map<Period, nat>, kept: seq<BackupRecord>) {
    && i <= |ordered| && DictHolds(order, newest, kept, tier.count)
    && Keepers(ordered, tier, {}) == kept + Keepers(ordered[i..], tier, newest.Keys)
  }

  lemma ReadNewPeriod(ordered: seq<BackupRecord>, i: nat, tier: Tier,
                      order: seq<Period>, newest: map<Period, nat>, kept: seq<BackupRecord>, p: Period)
    requires ReadThrough(ordered, i, tier, order, newest, kept) && i < |ordered|
    requires p == tier.period(ordered[i].createdAt) && p !in newest
    ensures ReadThrough(ordered, i + 1, tier, order + [p], newest[p := ordered[i].key],
              if |order| < tier.count then kept + [ordered[i]] else kept)
  {
    KeepersStep(ordered, i, tier, newest.Keys, kept, Keepers(ordered, tier, {}));
    DictGrows(order, newest, kept, tier.count, p, ordered[i]);
    assert newest[p := ordered[i].key].Keys == newest.Keys + {p};
  }

  lemma ReadKnownPeriod(ordered: seq<BackupRecord>, i: nat, tier: Tier,
                        order: seq<Period>, newest: map<Period, nat>, kept: seq<BackupRecord>)
    requires ReadThrough(ordered, i, tier, order, newest, kept) && i < |ordered|
    requires tier.period(ordered[i].createdAt) in newest
    ensures ReadThrough(ordered, i + 1, tier, order, newest, kept)
  {
    KeepersStep(ordered, i, tier, newest.Keys, kept, Keepers(ordered, tier, {}));
    assert newest.Keys + {tier.period(ordered[i].createdAt)} == newest.Keys;
  }

  lemma ReadAll(ordered: seq<BackupRecord>, tier: Tier, order: seq<Period>, newest: map<Period, nat>, kept: seq<BackupRecord>)
    requires ReadThrough(ordered, |ordered|, tier, order, newest, kept)
    ensures kept == Keepers(ordered, tier, {}) && DictHolds(order, newest, kept, tier.count)
  {
  }

  /** The loop that fills the dict: each period's newest key, the periods in the order they were met. */
  method FillDict(ordered: seq<BackupRecord>, tier: Tier)
    returns (order: seq<Period>, newest: map<Period, nat>, ghost kept: seq<BackupRecord>)
    ensures kept == Keepers(ordered, tier, {}) && DictHolds(order, newest, kept, tier.count)
  {
    order, newest, kept := [], map[], [];
    var i := 0;
    while i < |ordered|
      invariant ReadThrough(ordered, i, tier, order, newest, kept)
    {
      var p := tier.period(ordered[i].createdAt);
      if p !in newest {
        ReadNewPeriod(ordered, i, tier, order, newest, kept, p);
        kept := if |order| < tier.count then kept + [ordered[i]] else kept;
        order, newest := order + [p], newest[p := ordered[i].key];
      } else {
        ReadKnownPeriod(ordered, i, tier, order, newest, kept);
      }
      i := i + 1;
    }
    ReadAll(ordered, tier, order, newest, kept);
  }

  /** The keys of the newest backup in each of the tier's most recent populated periods. */
  method PeriodKeepers(ordered: seq<BackupRecord>, tier: Tier) returns (keys: set<nat>)
    ensures keys == Keys(Keepers(ordered, tier, {}))
  {
    var order, newest;
    ghost var kept;
    order, newest, kept := FillDict(ordered, tier);
    DictKeys(order, newest, kept, tier.count);
    var recent := order[..if tier.count < |order| then tier.count else |order|];
    keys := set p | p in recent :: newest[p];
  }

  lemma KeepersHead(ordered: seq<BackupRecord>, i: nat, tier: Tier, seen: set<Period>)
    requires i < |ordered|
    ensures var p := tier.period(ordered[i].createdAt);
      var rest := Keepers(ordered[i + 1..], tier, seen + {p});
      Keepers(ordered[i..], tier, seen) == if p !in seen && |seen| < tier.count then [ordered[i]] + rest else rest
  {
    assert ordered[i..][1..] == ordered[i + 1..];
  }

  lemma MoveFirst(kept: seq<BackupRecord>, r: BackupRecord, rest: seq<BackupRecord>)
    ensures kept + ([r] + rest) == (kept + [r]) + rest
  {
  }

  lemma KeepersStep(ordered: seq<BackupRecord>, i: nat, tier: Tier, seen: set<Period>, kept: seq<BackupRecord>, all: seq<BackupRecord>)
    requires i < |ordered| && all == kept + Keepers(ordered[i..], tier, seen)
    ensures var p := tier.period(ordered[i].createdAt);
      var kept' := if p !in seen && |seen| < tier.count then kept + [ordered[i]] else kept;
      all == kept' + Keepers(ordered[i + 1..], tier, seen + {p})
  {
    KeepersHead(ordered, i, tier, seen);
    MoveFirst(kept, ordered[i], Keepers(ordered[i + 1..], tier, seen + {tier.period(ordered[i].createdAt)}));
  }

  method Select(policy: Policy, records: seq<BackupRecord>) returns (decision: Decision)
    ensures decision == Selection(policy, records)
  {
    var ordered := Sorted(records);
    var daily := PeriodKeepers(ordered, policy.daily);
    var weekly := PeriodKeepers(ordered, policy.weekly);
    var monthly := PeriodKeepers(ordered, policy.monthly);
    var keepKeys := daily + weekly + monthly;
    decision := Decision(Kept(ordered, keepKeys), Dropped(ordered, keepKeys));
  }

  // ---------------------------------------------------------------- keep and delete

  lemma {:induction false} KeptMember(s: seq<BackupRecord>, keys: set<nat>)
    ensures forall r :: r in Kept(s, keys) <==> r in s && r.key in keys
    ensures forall r :: r in Dropped(s, keys) <==> r in s && r.key !in keys
    ensures multiset(Kept(s, keys)) + multiset(Dropped(s, keys)) == multiset(s)
    ensures |Kept(s, keys)| + |Dropped(s, keys)| == |s|
  {
    if s != [] {
      KeptMember(s[1..], keys);
      assert s == [s[0]] + s[1..];
    }
  }

  lemma {:induction false} KeptOrder(s: seq<BackupRecord>, keys: set<nat>)
    requires NewestFirst(s)
    ensures NewestFirst(Kept(s, keys)) && NewestFirst(Dropped(s, keys))
  {
    if s != [] {
      KeptOrder(s[1..], keys);
      KeptMember(s[1..], keys);
    }
  }

  lemma {:induction false} KeptDistinct(s: seq<BackupRecord>, keys: set<nat>)
    requires DistinctKeys(s)
    ensures DistinctKeys(Kept(s, keys))
  {
    if s != [] {
      KeptDistinct(s[1..], keys);
      KeptMember(s[1..], keys);
    }
  }

  lemma {:induction false} DroppedDistinct(s: seq<BackupRecord>, keys: set<nat>)
    requires DistinctKeys(s)
    ensures DistinctKeys(Dropped(s, keys))
  {
    if s != [] {
      DroppedDistinct(s[1..], keys);
      KeptMember(s[1..], keys);
    }
  }

  /** Nothing is lost or invented, and both halves come out newest first. */
  lemma SelectionPartitions(policy: Policy, records: seq<BackupRecord>)
    ensures var d := Selection(policy, records);
      && multiset(d.keep) + multiset(d.delete) == multiset(records)
      && (forall i, j | 0 <= i < j < |d.keep| :: d.keep[i].createdAt >= d.keep[j].createdAt)
      && (forall i, j | 0 <= i < j < |d.delete| :: d.delete[i].createdAt >= d.delete[j].createdAt)
      && NewestFirst(d.keep) && NewestFirst(d.delete)
      && (forall k, x | k in d.keep && x in d.delete :: k.key != x.key)
  {
    SortedContents(records);
    SortedOrder(records);
    KeptMember(Sorted(records), KeepKeys(policy, Sorted(records)));
    KeptOrder(Sorted(records), KeepKeys(policy, Sorted(records)));
  }

  // ---------------------------------------------------------------- sorting facts

  /** With distinct keys the newest-first arrangement of a collection is unique. */
  lemma {:induction false} OrderUnique(s: seq<BackupRecord>, t: seq<BackupRecord>)
    requires NewestFirst(s) && NewestFirst(t) && DistinctKeys(s) && DistinctKeys(t)
    requires |s| == |t| && forall x :: x in s <==> x in t
    ensures s == t
  {
    if s != [] {
      assert s[0] in t && t[0] in s;
      SameHead(s, t);
      forall x ensures x in s[1..] <==> x in t[1..] {
        TailMember(s, x);
        TailMember(t, x);
      }
      OrderUnique(s[1..], t[1..]);
    }
  }

  lemma SameHead(s: seq<BackupRecord>, t: seq<BackupRecord>)
    requires NewestFirst(s) && NewestFirst(t) && s != [] && t != [] && DistinctKeys(t)
    requires s[0] in t && t[0] in s
    ensures s[0] == t[0]
  {
    var i :| 0 <= i < |t| && t[i] == s[0];
    var j :| 0 <= j < |s| && s[j] == t[0];
  }

  lemma TailMember(s: seq<BackupRecord>, x: BackupRecord)
    requires s != [] && DistinctKeys(s)
    ensures x in s[1..] <==> x in s && x != s[0]
  {
    assert s == [s[0]] + s[1..];
  }

  /** Newer records simply go in front. */
  lemma SortedAppend(older: seq<BackupRecord>, newer: seq<BackupRecord>)
    requires DistinctKeys(older + newer) && AllNewer(newer, older)
    ensures Sorted(older + newer) == Sorted(newer) + Sorted(older)
  {
    DistinctParts(older, newer);
    SortedFacts(newer);
    SortedFacts(older);
    SortedFacts(older + newer);
    DistinctJoin(Sorted(newer), Sorted(older));
    OrderJoin(Sorted(newer), Sorted(older));
    OrderUnique(Sorted(older + newer), Sorted(newer) + Sorted(older));
  }

  lemma OrderJoin(a: seq<BackupRecord>, b: seq<BackupRecord>)
    requires NewestFirst(a) && NewestFirst(b) && AllNewer(a, b)
    ensures NewestFirst(a + b)
  {
    forall i, j | 0 <= i < j < |a + b| ensures !Newer((a + b)[j], (a + b)[i]) {
      if i < |a| <= j {
        assert (a + b)[i] in a && (a + b)[j] in b;
        assert Newer((a + b)[i], (a + b)[j]);
      }
    }
  }

  lemma SortedFacts(s: seq<BackupRecord>)
    requires DistinctKeys(s)
    ensures |Sorted(s)| == |s| && forall r :: r in Sorted(s) <==> r in s
    ensures DistinctKeys(Sorted(s)) && NewestFirst(Sorted(s))
  {
    SortedContents(s);
    SortedOrder(s);
    SortedDistinct(s);
  }

  lemma SortedIdentity(s: seq<BackupRecord>)
    requires NewestFirst(s) && DistinctKeys(s)
    ensures Sorted(s) == s
  {
    SortedFacts(s);
    OrderUnique(s, Sorted(s));
  }

  // ---------------------------------------------------------------- facts about one tier

  lemma {:induction false} KeepersMember(s: seq<BackupRecord>, tier: Tier, seen: set<Period>)
    ensures forall r | r in Keepers(s, tier, seen) :: r in s
  {
    if s != [] { KeepersMember(s[1..], tier, seen + {tier.period(s[0].createdAt)}); }
  }

  lemma GrowSet(a: set<Period>, b: set<Period>)
    requires a <= b
    ensures |a| <= |b|
  {
    assert b == a + (b - a);
  }

  lemma {:induction false} KeepersFull(s: seq<BackupRecord>, tier: Tier, seen: set<Period>)
    requires |seen| >= tier.count
    ensures Keepers(s, tier, seen) == []
  {
    if s != [] {
      var p := tier.period(s[0].createdAt);
      GrowSet(seen, seen + {p});
      KeepersFull(s[1..], tier, seen + {p});
    }
  }

  lemma {:induction false} KeepersBound(s: seq<BackupRecord>, tier: Tier, seen: set<Period>)
    requires |seen| <= tier.count
    ensures |Keepers(s, tier, seen)| <= tier.count - |seen|
  {
    if s != [] {
      var p := tier.period(s[0].createdAt);
      if |seen| == tier.count {
        KeepersFull(s, tier, seen);
      } else {
        if p in seen { assert seen + {p} == seen; }
        KeepersBound(s[1..], tier, seen + {p});
      }
    }
  }

  lemma {:induction false} KeepersConcat(a: seq<BackupRecord>, b: seq<BackupRecord>, tier: Tier, seen: set<Period>)
    ensures Keepers(a + b, tier, seen) == Keepers(a, tier, seen) + Keepers(b, tier, seen + Periods(a, tier))
  {
    if a == [] {
      assert a + b == b && seen + {} == seen;
    } else {
      var p := tier.period(a[0].createdAt);
      assert (a + b)[1..] == a[1..] + b;
      KeepersConcat(a[1..], b, tier, seen + {p});
      SeenAlso(seen, p, Periods(a[1..], tier));
    }
  }

  lemma SeenAlso(seen: set<Period>, p: Period, rest: set<Period>)
    ensures (seen + {p}) + rest == seen + ({p} + rest)
  {
  }

  lemma {:induction false} PeriodsMember(s: seq<BackupRecord>, tier: Tier, p: Period)
    ensures p in Periods(s, tier) <==> exists r | r in s :: tier.period(r.createdAt) == p
  {
    if s != [] {
      PeriodsMember(s[1..], tier, p);
      assert s == [s[0]] + s[1..];
    }
  }

  /** Having met more periods beforehand never makes a tier keep something new. */
  lemma {:induction false} KeepersAntitone(s: seq<BackupRecord>, tier: Tier, few: set<Period>, many: set<Period>)
    requires few <= many
    ensures forall r | r in Keepers(s, tier, many) :: r in Keepers(s, tier, few)
  {
    if s != [] {
      var p := tier.period(s[0].createdAt);
      GrowSet(few, many);
      KeepersAntitone(s[1..], tier, few + {p}, many + {p});
    }
  }

  lemma {:induction false} KeepersRaised(s: seq<BackupRecord>, low: Tier, high: Tier, seen: set<Period>)
    requires low.period == high.period && low.count <= high.count
    ensures forall r | r in Keepers(s, low, seen) :: r in Keepers(s, high, seen)
  {
    if s != [] { KeepersRaised(s[1..], low, high, seen + {low.period(s[0].createdAt)}); }
  }

  /** A tier does not notice records being removed, so long as its own keepers stay. */
  lemma {:induction false} KeepersSurvivePruning(s: seq<BackupRecord>, keys: set<nat>, tier: Tier, seen: set<Period>)
    requires forall r | r in Keepers(s, tier, seen) :: r.key in keys
    ensures Keepers(Kept(s, keys), tier, seen) == Keepers(s, tier, seen)
  {
    if s != [] {
      var p := tier.period(s[0].createdAt);
      KeepersSurvivePruning(s[1..], keys, tier, seen + {p});
      if s[0].key in keys {
        assert Kept(s, keys)[0] == s[0] && Kept(s, keys)[1..] == Kept(s[1..], keys);
      } else if p in seen {
        assert seen + {p} == seen;
      } else {
        GrowSet(seen, seen + {p});
        KeepersFull(s[1..], tier, seen + {p});
        KeepersFull(Kept(s, keys), tier, seen);
      }
    }
  }

  /** What a tier keeps, without scanning: no newer record shares the period, and fewer than
      `count` periods are populated by newer records. */
  ghost predicate NewestOfRecentPeriod(r: BackupRecord, records: seq<BackupRecord>, tier: Tier) {
    && r in records
    && (forall x | x in records && tier.period(x.createdAt) == tier.period(r.createdAt) ::
          x.createdAt < r.createdAt || (x.createdAt == r.createdAt && x.key <= r.key))
    && |NewerPeriods(r, records, tier)| < tier.count
  }

  ghost function NewerPeriods(r: BackupRecord, records: seq<BackupRecord>, tier: Tier): set<Period> {
    set x | x in records && (x.createdAt > r.createdAt || (x.createdAt == r.createdAt && x.key > r.key)) :: tier.period(x.createdAt)
  }

  lemma {:induction false} KeepersAt(s: seq<BackupRecord>, i: nat, tier: Tier, seen: set<Period>)
    requires i < |s| && DistinctKeys(s)
    ensures s[i] in Keepers(s, tier, seen) <==>
      var before := seen + Periods(s[..i], tier);
      tier.period(s[i].createdAt) !in before && |before| < tier.count
  {
    var p0 := tier.period(s[0].createdAt);
    if i == 0 {
      KeepersMember(s[1..], tier, seen + {p0});
      assert seen + Periods(s[..0], tier) == seen;
      assert s[0] !in s[1..];
    } else {
      KeepersAt(s[1..], i - 1, tier, seen + {p0});
      KeepersTail(s, i, tier, seen);
      PeriodsTail(s, i, tier, seen);
    }
  }

  lemma KeepersTail(s: seq<BackupRecord>, i: nat, tier: Tier, seen: set<Period>)
    requires 0 < i < |s| && DistinctKeys(s)
    ensures s[i] in Keepers(s, tier, seen) <==> s[1..][i - 1] in Keepers(s[1..], tier, seen + {tier.period(s[0].createdAt)})
  {
    assert s[i] != s[0];
  }

  lemma PeriodsTail(s: seq<BackupRecord>, i: nat, tier: Tier, seen: set<Period>)
    requires 0 < i < |s|
    ensures var p0 := tier.period(s[0].createdAt);
      (seen + {p0}) + Periods(s[1..][..i - 1], tier) == seen + Periods(s[..i], tier)
  {
    assert s[..i][0] == s[0] && s[..i][1..] == s[1..][..i - 1];
    SeenAlso(seen, tier.period(s[0].createdAt), Periods(s[1..][..i - 1], tier));
  }

  lemma KeepersCharacterized(s: seq<BackupRecord>, r: BackupRecord, tier: Tier)
    requires DistinctKeys(s) && NewestFirst(s)
    ensures r in Keepers(s, tier, {}) <==> NewestOfRecentPeriod(r, s, tier)
  {
    KeepersMember(s, tier, {});
    if r in s {
      var i :| 0 <= i < |s| && s[i] == r;
      KeepersAt(s, i, tier, {});
      PeriodsBefore(s, i, tier);
    }
  }

  lemma PeriodsBefore(s: seq<BackupRecord>, i: nat, tier: Tier)
    requires i < |s| && DistinctKeys(s) && NewestFirst(s)
    ensures {} + Periods(s[..i], tier) == NewerPeriods(s[i], s, tier)
  {
    forall x ensures x in s[..i] <==> x in s && Newer(x, s[i]) { BeforeIsNewer(s, i, x); }
    forall p ensures p in Periods(s[..i], tier) <==> p in NewerPeriods(s[i], s, tier) {
      PeriodsMember(s[..i], tier, p);
    }
  }

  lemma BeforeIsNewer(s: seq<BackupRecord>, i: nat, x: BackupRecord)
    requires i < |s| && DistinctKeys(s) && NewestFirst(s)
    ensures x in s[..i] <==> x in s && Newer(x, s[i])
  {
    if x in s {
      var j :| 0 <= j < |s| && s[j] == x;
      if j < i { assert s[..i][j] == x && !Newer(s[i], s[j]); }
    }
  }

  // ---------------------------------------------------------------- main results

  /** A record survives exactly when some tier wants it, whatever order the records arrive in. */
  lemma SelectionKeepsExactly(policy: Policy, records: seq<BackupRecord>, r: BackupRecord)
    requires DistinctKeys(records)
    ensures r in Selection(policy, records).keep <==>
      || NewestOfRecentPeriod(r, records, policy.daily)
      || NewestOfRecentPeriod(r, records, policy.weekly)
      || NewestOfRecentPeriod(r, records, policy.monthly)
  {
    var ordered := Sorted(records);
    SortedFacts(records);
    KeptMember(ordered, KeepKeys(policy, ordered));
    if r in records {
      InKeepKeys(policy, ordered, r);
      TierByAnyOrder(policy.daily, records, r);
      TierByAnyOrder(policy.weekly, records, r);
      TierByAnyOrder(policy.monthly, records, r);
    }
  }

  lemma InKeepKeys(policy: Policy, ordered: seq<BackupRecord>, r: BackupRecord)
    requires DistinctKeys(ordered) && r in ordered
    ensures r.key in KeepKeys(policy, ordered) <==>
      || r in Keepers(ordered, policy.daily, {})
      || r in Keepers(ordered, policy.weekly, {})
      || r in Keepers(ordered, policy.monthly, {})
  {
    KeepersMember(ordered, policy.daily, {});
    KeepersMember(ordered, policy.weekly, {});
    KeepersMember(ordered, policy.monthly, {});
    assert forall x | x in ordered && x.key == r.key :: x == r;
  }

  lemma TierByAnyOrder(tier: Tier, records: seq<BackupRecord>, r: BackupRecord)
    requires DistinctKeys(records)
    ensures r in Keepers(Sorted(records), tier, {}) <==> NewestOfRecentPeriod(r, records, tier)
  {
    SortedFacts(records);
    KeepersCharacterized(Sorted(records), r, tier);
    assert NewerPeriods(r, Sorted(records), tier) == NewerPeriods(r, records, tier);
  }

  /** A record with a later one in its period is not one of the tier's keepers. */
  lemma LaterInPeriodWins(tier: Tier, records: seq<BackupRecord>, r: BackupRecord, later: BackupRecord)
    requires DistinctKeys(records) && later in records && later.createdAt > r.createdAt
    requires tier.period(later.createdAt) == tier.period(r.createdAt)
    ensures r !in Keepers(Sorted(records), tier, {})
  {
    SortedFacts(records);
    KeepersMember(Sorted(records), tier, {});
    if r in records { TierByAnyOrder(tier, records, r); }
  }

  /** As long as any tier keeps anything, the latest backup is kept. */
  lemma LatestIsKept(policy: Policy, records: seq<BackupRecord>, r: BackupRecord)
    requires DistinctKeys(records) && r in records && forall x | x in records && x != r :: x.createdAt < r.createdAt
    requires policy.daily.count > 0 || policy.weekly.count > 0 || policy.monthly.count > 0
    ensures r in Selection(policy, records).keep
  {
    SelectionKeepsExactly(policy, records, r);
    assert NewerPeriods(r, records, policy.daily) == {};
    assert NewerPeriods(r, records, policy.weekly) == {};
    assert NewerPeriods(r, records, policy.monthly) == {};
  }

  lemma KeptCount(s: seq<BackupRecord>, keys: set<nat>)
    requires DistinctKeys(s)
    ensures |Kept(s, keys)| <= |keys|
  {
    KeptDistinct(s, keys);
    KeptMember(s, keys);
    var kept := Kept(s, keys);
    KeysCount(kept);
    assert Keys(kept) <= keys;
    assert keys == Keys(kept) + (keys - Keys(kept));
  }

  lemma {:induction false} KeysCount(s: seq<BackupRecord>)
    ensures |Keys(s)| <= |s|
    ensures DistinctKeys(s) ==> |Keys(s)| == |s|
  {
    if s != [] {
      KeysCount(s[1..]);
      assert s == [s[0]] + s[1..];
      assert Keys(s) == {s[0].key} + Keys(s[1..]);
    }
  }

  lemma SelectionBounded(policy: Policy, records: seq<BackupRecord>)
    requires DistinctKeys(records)
    ensures |Selection(policy, records).keep| <= policy.daily.count + policy.weekly.count + policy.monthly.count
  {
    var ordered := Sorted(records);
    SortedFacts(records);
    var d, w, m := Keepers(ordered, policy.daily, {}), Keepers(ordered, policy.weekly, {}), Keepers(ordered, policy.monthly, {});
    KeepersBound(ordered, policy.daily, {});
    KeepersBound(ordered, policy.weekly, {});
    KeepersBound(ordered, policy.monthly, {});
    KeysCount(d);
    KeysCount(w);
    KeysCount(m);
    KeptCount(ordered, KeepKeys(policy, ordered));
    UnionCount(Keys(d), Keys(w));
    UnionCount(Keys(d) + Keys(w), Keys(m));
  }

  lemma UnionCount(a: set<nat>, b: set<nat>)
    ensures |a + b| <= |a| + |b|
  {
    assert a + b == a + (b - a);
    assert b == (b - a) + (b * a);
  }

  ghost predicate Raised(low: Policy, high: Policy) {
    && low.daily.period == high.daily.period && low.daily.count <= high.daily.count
    && low.weekly.period == high.weekly.period && low.weekly.count <= high.weekly.count
    && low.monthly.period == high.monthly.period && low.monthly.count <= high.monthly.count
  }

  lemma SelectionMonotone(low: Policy, high: Policy, records: seq<BackupRecord>)
    requires Raised(low, high)
    ensures forall r | r in Selection(low, records).keep :: r in Selection(high, records).keep
  {
    var ordered := Sorted(records);
    KeepersRaised(ordered, low.daily, high.daily, {});
    KeepersRaised(ordered, low.weekly, high.weekly, {});
    KeepersRaised(ordered, low.monthly, high.monthly, {});
    KeptMember(ordered, KeepKeys(low, ordered));
    KeptMember(ordered, KeepKeys(high, ordered));
  }

  /** Pruning then adding newer backups then pruning keeps what one prune of it all keeps. */
  lemma PruneCommutes(policy: Policy, history: seq<BackupRecord>, newer: seq<BackupRecord>)
    requires DistinctKeys(history + newer) && AllNewer(newer, history)
    ensures Selection(policy, Selection(policy, history).keep + newer).keep
         == Selection(policy, history + newer).keep
  {
    var h, n := Sorted(history), Sorted(newer);
    var keys := KeepKeys(policy, h);
    var finalKeys := KeepKeys(policy, n + h);
    PrunedStaysOrdered(policy, history, newer);
    SortedAppend(history, newer);
    DistinctParts(history, newer);
    SortedFacts(history);
    SortedFacts(newer);
    TierAfterPrune(policy.daily, h, n, keys);
    TierAfterPrune(policy.weekly, h, n, keys);
    TierAfterPrune(policy.monthly, h, n, keys);
    KeptConcat(n, h, finalKeys);
    KeptConcat(n, Kept(h, keys), finalKeys);
    forall r | r in h && r.key in finalKeys ensures r.key in keys {
      KeptFromHistory(policy, h, n, r);
    }
    KeptTwice(h, keys, finalKeys);
  }

  lemma PrunedStaysOrdered(policy: Policy, history: seq<BackupRecord>, newer: seq<BackupRecord>)
    requires DistinctKeys(history + newer) && AllNewer(newer, history)
    ensures var k := Selection(policy, history).keep;
      && DistinctKeys(k + newer) && AllNewer(newer, k)
      && Sorted(k + newer) == Sorted(newer) + k
  {
    DistinctParts(history, newer);
    var k := Selection(policy, history).keep;
    SelectionFacts(policy, history);
    DistinctJoin(k, newer);
    SortedAppend(k, newer);
    SortedIdentity(k);
  }

  lemma SelectionFacts(policy: Policy, records: seq<BackupRecord>)
    requires DistinctKeys(records)
    ensures var k := Selection(policy, records).keep;
      DistinctKeys(k) && NewestFirst(k) && forall r | r in k :: r in records
  {
    SortedFacts(records);
    KeptMember(Sorted(records), KeepKeys(policy, Sorted(records)));
    KeptOrder(Sorted(records), KeepKeys(policy, Sorted(records)));
    KeptDistinct(Sorted(records), KeepKeys(policy, Sorted(records)));
  }

  lemma TierAfterPrune(tier: Tier, h: seq<BackupRecord>, n: seq<BackupRecord>, keys: set<nat>)
    requires forall r | r in Keepers(h, tier, {}) :: r.key in keys
    ensures Keepers(n + Kept(h, keys), tier, {}) == Keepers(n + h, tier, {})
  {
    KeepersConcat(n, h, tier, {});
    KeepersConcat(n, Kept(h, keys), tier, {});
    KeepersAntitone(h, tier, {}, {} + Periods(n, tier));
    KeepersSurvivePruning(h, keys, tier, {} + Periods(n, tier));
  }

  lemma {:induction false} KeptConcat(a: seq<BackupRecord>, b: seq<BackupRecord>, keys: set<nat>)
    ensures Kept(a + b, keys) == Kept(a, keys) + Kept(b, keys)
  {
    if a == [] {
      assert a + b == b;
    } else {
      assert (a + b)[1..] == a[1..] + b;
      KeptConcat(a[1..], b, keys);
    }
  }

  lemma {:induction false} KeptTwice(s: seq<BackupRecord>, first: set<nat>, second: set<nat>)
    requires forall r | r in s && r.key in second :: r.key in first
    ensures Kept(Kept(s, first), second) == Kept(s, second)
  {
    if s != [] {
      KeptTwice(s[1..], first, second);
      if s[0].key in first {
        assert Kept(s, first)[0] == s[0] && Kept(s, first)[1..] == Kept(s[1..], first);
      }
    }
  }

  /** An old record the full history keeps was already kept before the newer ones came. */
  lemma KeptFromHistory(policy: Policy, h: seq<BackupRecord>, n: seq<BackupRecord>, r: BackupRecord)
    requires DistinctKeys(h) && DistinctKeys(n) && (forall x, y | x in n && y in h :: x.key != y.key)
    requires r in h && r.key in KeepKeys(policy, n + h)
    ensures r.key in KeepKeys(policy, h)
  {
    DistinctJoin(n, h);
    InKeepKeys(policy, n + h, r);
    KeptFromHistoryTier(policy.daily, h, n, r);
    KeptFromHistoryTier(policy.weekly, h, n, r);
    KeptFromHistoryTier(policy.monthly, h, n, r);
    InKeepKeys(policy, h, r);
  }

  lemma KeptFromHistoryTier(tier: Tier, h: seq<BackupRecord>, n: seq<BackupRecord>, r: BackupRecord)
    requires r !in n
    ensures r in Keepers(n + h, tier, {}) ==> r in Keepers(h, tier, {})
  {
    KeepersConcat(n, h, tier, {});
    KeepersMember(n, tier, {});
    KeepersAntitone(h, tier, {}, {} + Periods(n, tier));
  }

  /** Rerunning retention on what it kept deletes nothing. */
  lemma PruneIdempotent(policy: Policy, records: seq<BackupRecord>)
    requires DistinctKeys(records)
    ensures var keep := Selection(policy, records).keep;
      Selection(policy, keep) == Decision(keep, [])
  {
    var keep := Selection(policy, records).keep;
    assert records + [] == records && keep + [] == keep;
    PruneCommutes(policy, records, []);
    PrunedStaysOrdered(policy, records, []);
    KeptMember(Sorted(keep), KeepKeys(policy, Sorted(keep)));
    SortedContents(keep);
  }

  // ---------------------------------------------------------------- schedules

  /** One turn of a schedule: backups arrive, and retention may run. */
  datatype Turn = Turn(arrived: seq<BackupRecord>, prune: bool)

  function Everything(turns: seq<Turn>): seq<BackupRecord> {
    if turns == [] then [] else Everything(turns[..|turns| - 1]) + turns[|turns| - 1].arrived
  }

  /** What the store holds after the schedule. */
  function Stored(policy: Policy, turns: seq<Turn>): seq<BackupRecord> {
    if turns == [] then [] else
    var last := turns[|turns| - 1];
    var held := Stored(policy, turns[..|turns| - 1]) + last.arrived;
    if last.prune then Selection(policy, held).keep else held
  }

  ghost predicate Growing(turns: seq<Turn>) {
    turns == [] || (
      && Growing(turns[..|turns| - 1])
      && AllNewer(turns[|turns| - 1].arrived, Everything(turns[..|turns| - 1])))
  }

  lemma {:induction false} StoredWithin(policy: Policy, turns: seq<Turn>)
    requires DistinctKeys(Everything(turns))
    ensures forall r | r in Stored(policy, turns) :: r in Everything(turns)
    ensures DistinctKeys(Stored(policy, turns))
  {
    if turns != [] {
      var before, last := turns[..|turns| - 1], turns[|turns| - 1];
      DistinctParts(Everything(before), last.arrived);
      StoredWithin(policy, before);
      DistinctJoin(Stored(policy, before), last.arrived);
      SelectionFacts(policy, Stored(policy, before) + last.arrived);
    }
  }

  lemma HeldIsOlder(policy: Policy, before: seq<Turn>, arrived: seq<BackupRecord>, newer: seq<BackupRecord>)
    requires DistinctKeys((Everything(before) + arrived) + newer) && AllNewer(newer, Everything(before) + arrived)
    ensures DistinctKeys((Stored(policy, before) + arrived) + newer) && AllNewer(newer, Stored(policy, before) + arrived)
  {
    DistinctParts(Everything(before) + arrived, newer);
    DistinctParts(Everything(before), arrived);
    StoredWithin(policy, before);
    DistinctJoin(Stored(policy, before), arrived);
    DistinctJoin(Stored(policy, before) + arrived, newer);
  }

  lemma LastTurnIsNewer(turns: seq<Turn>, newer: seq<BackupRecord>)
    requires turns != [] && Growing(turns)
    requires DistinctKeys(Everything(turns) + newer) && AllNewer(newer, Everything(turns))
    ensures var before, rest := turns[..|turns| - 1], turns[|turns| - 1].arrived + newer;
      && Growing(before)
      && Everything(turns) + newer == Everything(before) + rest
      && AllNewer(rest, Everything(before))
  {
    var before, arrived := turns[..|turns| - 1], turns[|turns| - 1].arrived;
    assert (Everything(before) + arrived) + newer == Everything(before) + (arrived + newer);
  }

  lemma PruneOrNot(policy: Policy, before: seq<Turn>, last: Turn, newer: seq<BackupRecord>)
    requires DistinctKeys((Everything(before) + last.arrived) + newer) && AllNewer(newer, Everything(before) + last.arrived)
    ensures var held := Stored(policy, before) + last.arrived;
      Selection(policy, (if last.prune then Selection(policy, held).keep else held) + newer).keep
      == Selection(policy, held + newer).keep
  {
    if last.prune {
      HeldIsOlder(policy, before, last.arrived, newer);
      PruneCommutes(policy, Stored(policy, before) + last.arrived, newer);
    }
  }

  lemma TurnAdds(policy: Policy, turns: seq<Turn>, newer: seq<BackupRecord>)
    requires turns != [] && DistinctKeys(Everything(turns) + newer) && AllNewer(newer, Everything(turns))
    ensures Selection(policy, Stored(policy, turns) + newer).keep
         == Selection(policy, Stored(policy, turns[..|turns| - 1]) + (turns[|turns| - 1].arrived + newer)).keep
  {
    var before, last := turns[..|turns| - 1], turns[|turns| - 1];
    PruneOrNot(policy, before, last, newer);
    assert (Stored(policy, before) + last.arrived) + newer == Stored(policy, before) + (last.arrived + newer);
  }

  lemma {:induction false} ScheduleThenNewer(policy: Policy, turns: seq<Turn>, newer: seq<BackupRecord>)
    requires Growing(turns) && DistinctKeys(Everything(turns) + newer) && AllNewer(newer, Everything(turns))
    ensures Selection(policy, Stored(policy, turns) + newer).keep
         == Selection(policy, Everything(turns) + newer).keep
    decreases |turns|
  {
    if turns != [] {
      var before, last := turns[..|turns| - 1], turns[|turns| - 1];
      LastTurnIsNewer(turns, newer);
      TurnAdds(policy, turns, newer);
      ScheduleThenNewer(policy, before, last.arrived + newer);
    }
  }

  /** However prunes are spread over a growing history, the next prune keeps exactly what a
      single prune of everything ever taken would keep. */
  lemma AnyScheduleKeepsTheSame(policy: Policy, turns: seq<Turn>)
    requires Growing(turns) && DistinctKeys(Everything(turns))
    ensures Selection(policy, Stored(policy, turns)).keep == Selection(policy, Everything(turns)).keep
  {
    assert Stored(policy, turns) + [] == Stored(policy, turns);
    assert Everything(turns) + [] == Everything(turns);
    ScheduleThenNewer(policy, turns, []);
  }
}
