/** Slack's per-user profile cache: least recently used eviction, freshness times, and a backoff
    that counts consecutive failures. What the cache holds is stated as a function of the whole
    history of lookups; the class that reorders and evicts is proved to compute it. */
module ProfileCache {
  import opened Prelude

  type User = string

  /** What Slack answers, or why it did not. */
  datatype Reply = Answer(details: string) | Failure(permanent: bool, retryAfter: Option<real>)

  datatype Profile = Answered(details: string) | Unknown

  datatype Entry = Entry(profile: Profile, freshUntil: real, failures: nat, good: Option<string>)

  /** A lookup at time `now`; `reply` is what Slack says if it is asked. */
  datatype Lookup = Lookup(user: User, now: real, reply: Reply)

  const TTL: real := 300.0
  const RETRY_AFTER_CAP: real := 3600.0

  function Backoff(failures: nat): real
    requires failures > 0
  {
    if failures == 1 then 15.0 else if failures == 2 then 60.0 else 300.0
  }

  // ---------------------------------------------------------------- who is cached

  function UserSet(h: seq<Lookup>): set<User> {
    if h == [] then {} else UserSet(h[..|h| - 1]) + {h[|h| - 1].user}
  }

  /** The users looked up since this one was. */
  function Since(h: seq<Lookup>, u: User): set<User> {
    if h == [] || h[|h| - 1].user == u then {} else Since(h[..|h| - 1], u) + {h[|h| - 1].user}
  }

  /** Looked up before, and fewer than `max` others since. */
  predicate Cached(max: nat, h: seq<Lookup>, u: User) {
    u in UserSet(h) && |Since(h, u)| < max
  }

  function Without(s: seq<User>, u: User): seq<User> {
    if s == [] then [] else
    var init, last := s[..|s| - 1], s[|s| - 1];
    if last == u then Without(init, u) else Without(init, u) + [last]
  }

  /** Every user ever looked up, the most recent last. */
  function Recent(h: seq<Lookup>): seq<User> {
    if h == [] then [] else Without(Recent(h[..|h| - 1]), h[|h| - 1].user) + [h[|h| - 1].user]
  }

  function LastOf(s: seq<User>, n: nat): seq<User> {
    if |s| <= n then s else s[|s| - n..]
  }

  ghost predicate Distinct(s: seq<User>) {
    forall i, j | 0 <= i < j < |s| :: s[i] != s[j]
  }

  lemma {:induction false} WithoutMember(s: seq<User>, u: User, v: User)
    ensures v in Without(s, u) <==> v in s && v != u
  {
    if s != [] {
      var init, last := s[..|s| - 1], s[|s| - 1];
      WithoutMember(init, u, v);
      assert v in s <==> v in init || v == last;
    }
  }

  lemma {:induction false} WithoutAbsent(s: seq<User>, u: User)
    requires u !in s
    ensures Without(s, u) == s
  {
    if s != [] {
      WithoutAbsent(s[..|s| - 1], u);
      assert s == s[..|s| - 1] + [s[|s| - 1]];
    }
  }

  lemma {:induction false} WithoutPresent(s: seq<User>, u: User)
    requires Distinct(s) && u in s
    ensures |Without(s, u)| == |s| - 1
  {
    var init, last := s[..|s| - 1], s[|s| - 1];
    if last == u { WithoutAbsent(init, u); } else { WithoutPresent(init, u); }
  }

  lemma DistinctAppend(s: seq<User>, u: User)
    requires Distinct(s) && u !in s
    ensures Distinct(s + [u])
  {
  }

  lemma {:induction false} WithoutDistinct(s: seq<User>, u: User)
    requires Distinct(s)
    ensures Distinct(Without(s, u))
  {
    if s != [] {
      var init, last := s[..|s| - 1], s[|s| - 1];
      WithoutDistinct(init, u);
      WithoutMember(init, u, last);
      if last != u { DistinctAppend(Without(init, u), last); }
    }
  }

  lemma WithoutFacts(s: seq<User>, u: User)
    requires Distinct(s)
    ensures Distinct(Without(s, u)) && u !in Without(s, u)
    ensures forall v :: v in Without(s, u) <==> v in s && v != u
    ensures |Without(s, u)| == if u in s then |s| - 1 else |s|
  {
    forall v ensures v in Without(s, u) <==> v in s && v != u { WithoutMember(s, u, v); }
    WithoutDistinct(s, u);
    if u in s { WithoutPresent(s, u); } else { WithoutAbsent(s, u); }
  }

  lemma {:induction false} WithoutConcat(s: seq<User>, t: seq<User>, u: User)
    ensures Without(s + t, u) == Without(s, u) + Without(t, u)
  {
    if t == [] {
      assert s + t == s;
    } else {
      var init := t[..|t| - 1];
      assert (s + t)[..|s + t| - 1] == s + init;
      WithoutConcat(s, init, u);
    }
  }

  lemma {:induction false} RecentFacts(h: seq<Lookup>)
    ensures Distinct(Recent(h)) && forall u :: u in Recent(h) <==> u in UserSet(h)
  {
    if h != [] {
      RecentFacts(h[..|h| - 1]);
      WithoutFacts(Recent(h[..|h| - 1]), h[|h| - 1].user);
    }
  }

  /** What stands behind a user in the order. */
  function Behind(s: seq<User>, u: User): set<User> {
    if s == [] || s[|s| - 1] == u then {} else Behind(s[..|s| - 1], u) + {s[|s| - 1]}
  }

  lemma {:induction false} BehindWithout(s: seq<User>, u: User, v: User)
    requires u != v
    ensures Behind(Without(s, v), u) + {v} == Behind(s, u) + {v}
  {
    if s != [] {
      var init, last := s[..|s| - 1], s[|s| - 1];
      BehindWithout(init, u, v);
      assert last != v ==> (Without(init, v) + [last])[..|Without(init, v)|] == Without(init, v);
    }
  }

  lemma {:induction false} SinceIsBehind(h: seq<Lookup>, u: User)
    ensures Since(h, u) == Behind(Recent(h), u)
  {
    if h != [] {
      var earlier, v := h[..|h| - 1], h[|h| - 1].user;
      SinceIsBehind(earlier, u);
      var kept := Without(Recent(earlier), v);
      assert (kept + [v])[..|kept|] == kept;
      if u != v { BehindWithout(Recent(earlier), u, v); }
    }
  }

  lemma {:induction false} BehindWithin(s: seq<User>, u: User)
    ensures forall v | v in Behind(s, u) :: v in s
  {
    if s != [] { BehindWithin(s[..|s| - 1], u); }
  }

  lemma BehindLast(init: seq<User>, last: User, u: User)
    requires last !in init
    ensures |Behind(init + [last], u)| == if u == last then 0 else |Behind(init, u)| + 1
  {
    assert (init + [last])[..|init|] == init;
    BehindWithin(init, u);
  }

  lemma LastOfLast(init: seq<User>, last: User, n: nat)
    requires n > 0
    ensures LastOf(init + [last], n) == LastOf(init, n - 1) + [last]
  {
  }

  lemma {:induction false} LastOfMember(s: seq<User>, n: nat, u: User)
    requires Distinct(s)
    ensures u in LastOf(s, n) <==> u in s && |Behind(s, u)| < n
  {
    if s != [] && n > 0 {
      var init, last := s[..|s| - 1], s[|s| - 1];
      assert s == init + [last] && last !in init;
      LastOfMember(init, n - 1, u);
      BehindLast(init, last, u);
      LastOfLast(init, last, n);
    }
  }

  /** The cache's order is the end of the recency order, and that is exactly the users with fewer
      than `max` others looked up since. */
  lemma LruExactly(max: nat, h: seq<Lookup>)
    ensures |LastOf(Recent(h), max)| <= max && Distinct(LastOf(Recent(h), max))
    ensures forall u :: u in LastOf(Recent(h), max) <==> Cached(max, h, u)
  {
    RecentFacts(h);
    forall u ensures u in LastOf(Recent(h), max) <==> Cached(max, h, u) {
      LastOfMember(Recent(h), max, u);
      SinceIsBehind(h, u);
    }
  }

  lemma LastOfConcat(s: seq<User>, t: seq<User>, n: nat)
    requires |t| >= n || s == []
    ensures LastOf(s + t, n) == LastOf(t, n)
  {
    assert s == [] ==> s + t == t;
  }

  lemma LastOfSplit(s: seq<User>, n: nat) returns (front: seq<User>)
    requires Distinct(s)
    ensures s == front + LastOf(s, n) && Distinct(LastOf(s, n))
    ensures front == [] || |LastOf(s, n)| == n
  {
    front := s[..|s| - |LastOf(s, n)|];
  }

  lemma MoveIn(s: seq<User>, t: seq<User>, u: User)
    ensures (s + t) + [u] == s + (t + [u])
  {
  }

  /** Reordering and evicting in the bounded order is reordering everything and keeping the end. */
  lemma TouchKeepsRecency(recent: seq<User>, u: User, max: nat)
    requires Distinct(recent)
    ensures LastOf(Without(recent, u) + [u], max) == LastOf(Without(LastOf(recent, max), u) + [u], max)
  {
    var order := LastOf(recent, max);
    var dropped := LastOfSplit(recent, max);
    WithoutConcat(dropped, order, u);
    WithoutFacts(order, u);
    LastOfConcat(Without(dropped, u), Without(order, u) + [u], max);
    MoveIn(Without(dropped, u), Without(order, u), u);
  }

  // ---------------------------------------------------------------- what is remembered

  /** Slack was asked at this time and replied this. */
  datatype Ask = Ask(now: real, reply: Reply)

  /** Failures in a row at the end. */
  function Streak(asks: seq<Ask>): nat {
    if asks == [] || asks[|asks| - 1].reply.Answer? then 0 else 1 + Streak(asks[..|asks| - 1])
  }

  function LastAnswer(asks: seq<Ask>): Option<string> {
    if asks == [] then None else
    var last := asks[|asks| - 1].reply;
    if last.Answer? then Some(last.details) else LastAnswer(asks[..|asks| - 1])
  }

  function Wait(reply: Reply, streak: nat): real
    requires reply.Failure? ==> streak > 0
  {
    if reply.Answer? || reply.permanent then TTL
    else match reply.retryAfter
      case None => Backoff(streak)
      case Some(r) => if r < 1.0 then 1.0 else if r > RETRY_AFTER_CAP then RETRY_AFTER_CAP else r
  }

  /** The ask that many before the newest was answered, or there was none. */
  predicate NotFailed(asks: seq<Ask>, back: nat) {
    |asks| <= back || asks[|asks| - 1 - back].reply.Answer?
  }

  /** Seconds owed after the newest ask: five minutes after an answer or a permanent failure; what
      Slack named, held between one second and an hour; otherwise 15, 60 or 300 as the failure is the
      first, the second or a later one in a row. */
  function Owed(asks: seq<Ask>): real
    requires asks != []
  {
    match asks[|asks| - 1].reply
    case Answer(_) => 300.0
    case Failure(true, _) => 300.0
    case Failure(false, Some(r)) => if r < 1.0 then 1.0 else if r > 3600.0 then 3600.0 else r
    case Failure(false, None) => if NotFailed(asks, 1) then 15.0 else if NotFailed(asks, 2) then 60.0 else 300.0
  }

  /** What a user's asks, oldest first, leave in the cache. */
  function EntryFor(asks: seq<Ask>): Entry
    requires asks != []
  {
    var last := asks[|asks| - 1];
    var stale := last.reply.Failure? && last.reply.permanent;
    var profile := if LastAnswer(asks).Some? && !stale then Answered(LastAnswer(asks).value) else Unknown;
    Entry(profile, last.now + Wait(last.reply, Streak(asks)), Streak(asks), LastAnswer(asks))
  }

  predicate MustAsk(asks: seq<Ask>, now: real) {
    asks == [] || EntryFor(asks).freshUntil <= now
  }

  /** The times Slack was asked about a user since it last came into the cache. */
  function Asks(max: nat, h: seq<Lookup>, u: User): seq<Ask> {
    if h == [] then [] else
    var earlier, last := h[..|h| - 1], h[|h| - 1];
    var before := if Cached(max, earlier, u) then Asks(max, earlier, u) else [];
    if last.user == u && MustAsk(before, last.now) then before + [Ask(last.now, last.reply)] else before
  }

  lemma {:induction false} CachedWasAsked(max: nat, h: seq<Lookup>, u: User)
    requires Cached(max, h, u)
    ensures Asks(max, h, u) != []
  {
    var earlier, last := h[..|h| - 1], h[|h| - 1];
    if last.user != u {
      SinceGrows(earlier, last, u);
      CachedWasAsked(max, earlier, u);
    }
  }

  lemma SinceGrows(h: seq<Lookup>, l: Lookup, u: User)
    requires l.user != u
    ensures |Since(h, u)| <= |Since(h + [l], u)|
    ensures u in UserSet(h + [l]) <==> u in UserSet(h)
  {
    assert (h + [l])[..|h|] == h;
    if l.user in Since(h, u) { assert Since(h, u) + {l.user} == Since(h, u); }
  }

  /** The failures counted are exactly those since the last answer. */
  lemma {:induction false} StreakExactly(asks: seq<Ask>)
    ensures Streak(asks) <= |asks|
    ensures forall i | |asks| - Streak(asks) <= i < |asks| :: asks[i].reply.Failure?
    ensures Streak(asks) < |asks| ==> asks[|asks| - Streak(asks) - 1].reply.Answer?
  {
    if asks != [] && asks[|asks| - 1].reply.Failure? { StreakExactly(asks[..|asks| - 1]); }
  }

  /** The good profile kept is the newest answer, however many failures followed. */
  lemma {:induction false} GoodIsNewestAnswer(asks: seq<Ask>)
    ensures LastAnswer(asks) == None <==> forall i | 0 <= i < |asks| :: asks[i].reply.Failure?
    ensures LastAnswer(asks).Some? ==>
      Streak(asks) < |asks| && asks[|asks| - Streak(asks) - 1].reply == Answer(LastAnswer(asks).value)
  {
    if asks != [] && asks[|asks| - 1].reply.Failure? {
      GoodIsNewestAnswer(asks[..|asks| - 1]);
      assert asks[..|asks| - 1] + [asks[|asks| - 1]] == asks;
    }
  }

  /** An entry is fresh for as long as its newest ask calls for, and Slack is asked again exactly then. */
  lemma FreshExactly(asks: seq<Ask>, now: real)
    requires asks != []
    ensures EntryFor(asks).freshUntil == asks[|asks| - 1].now + Owed(asks)
    ensures MustAsk(asks, now) <==> now >= asks[|asks| - 1].now + Owed(asks)
  {
    if asks[|asks| - 1].reply.Failure? {
      var before := asks[..|asks| - 1];
      assert Streak(asks) == 1 + Streak(before);
      assert Streak(before) == 0 <==> NotFailed(asks, 1);
      if !NotFailed(asks, 1) {
        var earlier := before[..|before| - 1];
        assert Streak(before) == 1 + Streak(earlier);
        assert Streak(earlier) == 0 <==> NotFailed(asks, 2);
      }
    }
  }

  /** The profile the last lookup of the history was given. */
  function Served(max: nat, h: seq<Lookup>): Profile
    requires h != []
  {
    var asks := Asks(max, h, h[|h| - 1].user);
    if asks == [] then Unknown else EntryFor(asks).profile
  }

  /** An unknown profile is served exactly when the newest reply was a failure that is permanent or
      that no answer came before; a known one is always the newest answer. */
  lemma UnknownExactly(max: nat, h: seq<Lookup>)
    requires h != []
    ensures var asks := Asks(max, h, h[|h| - 1].user);
      && asks != []
      && (Served(max, h) == Unknown <==>
          && asks[|asks| - 1].reply.Failure?
          && (asks[|asks| - 1].reply.permanent || forall i | 0 <= i < |asks| :: asks[i].reply.Failure?))
      && (Served(max, h) != Unknown ==>
          Streak(asks) < |asks| && asks[|asks| - Streak(asks) - 1].reply == Answer(Served(max, h).details))
  {
    var u := h[|h| - 1].user;
    GoodIsNewestAnswer(Asks(max, h, u));
    if Cached(max, h[..|h| - 1], u) { CachedWasAsked(max, h[..|h| - 1], u); }
  }

  /** Slack is never asked twice about a cached user without the whole wait between, and the wait is
      between one second and the cap. */
  lemma {:induction false} AsksAreSpaced(max: nat, h: seq<Lookup>, u: User, i: nat)
    requires i + 1 < |Asks(max, h, u)|
    ensures var asks := Asks(max, h, u);
      && asks[i].now + Owed(asks[..i + 1]) <= asks[i + 1].now
      && 1.0 <= Owed(asks[..i + 1]) <= 3600.0
  {
    var asks, earlier := Asks(max, h, u), h[..|h| - 1];
    var before := if Cached(max, earlier, u) then Asks(max, earlier, u) else [];
    if i + 1 < |before| {
      AsksAreSpaced(max, earlier, u, i);
      assert asks[..i + 1] == before[..i + 1];
    } else {
      assert asks[..i + 1] == before;
      FreshExactly(before, asks[i + 1].now);
    }
  }

  // ---------------------------------------------------------------- the cache

  ghost predicate Holds(max: nat, h: seq<Lookup>, order: seq<User>, entries: map<User, Entry>) {
    && order == LastOf(Recent(h), max)
    && (forall u :: u in entries <==> u in order)
    && (forall u | u in order :: Asks(max, h, u) != [] && entries[u] == EntryFor(Asks(max, h, u)))
  }

  lemma AskNext(asks: seq<Ask>, a: Ask)
    ensures Streak(asks + [a]) == if a.reply.Answer? then 0 else Streak(asks) + 1
    ensures LastAnswer(asks + [a]) == if a.reply.Answer? then Some(a.reply.details) else LastAnswer(asks)
  {
    assert (asks + [a])[..|asks|] == asks;
  }

  /** move_to_end, or an insertion at the end. */
  function Moved(order: seq<User>, u: User): seq<User> {
    Without(order, u) + [u]
  }

  lemma MovedFacts(order: seq<User>, u: User)
    requires Distinct(order)
    ensures Distinct(Moved(order, u)) && forall v :: v in Moved(order, u) <==> v in order || v == u
  {
    WithoutFacts(order, u);
    DistinctAppend(Without(order, u), u);
  }

  lemma RecentNext(max: nat, h: seq<Lookup>, l: Lookup)
    ensures LastOf(Recent(h + [l]), max) == LastOf(Moved(LastOf(Recent(h), max), l.user), max)
  {
    assert (h + [l])[..|h|] == h;
    RecentFacts(h);
    TouchKeepsRecency(Recent(h), l.user, max);
  }

  lemma AsksNext(max: nat, h: seq<Lookup>, l: Lookup)
    ensures var asks := Known(max, h, l.user);
      Asks(max, h + [l], l.user) == if MustAsk(asks, l.now) then asks + [Ask(l.now, l.reply)] else asks
  {
    assert (h + [l])[..|h|] == h;
  }

  lemma OthersAsksStay(max: nat, h: seq<Lookup>, l: Lookup, u: User)
    requires u != l.user && Cached(max, h + [l], u)
    ensures Cached(max, h, u) && Asks(max, h + [l], u) == Asks(max, h, u)
  {
    SinceGrows(h, l, u);
    assert (h + [l])[..|h|] == h;
  }

  /** A fresh entry is served as it is, and only the order changes. */
  lemma Hit(max: nat, h: seq<Lookup>, order: seq<User>, entries: map<User, Entry>, l: Lookup)
    requires Holds(max, h, order, entries) && l.user in entries && l.now < entries[l.user].freshUntil
    ensures Holds(max, h + [l], Moved(order, l.user), entries)
    ensures Served(max, h + [l]) == entries[l.user].profile && !MustAsk(Known(max, h, l.user), l.now)
  {
    LruExactly(max, h);
    LruExactly(max, h + [l]);
    RecentNext(max, h, l);
    AsksNext(max, h, l);
    WithoutFacts(order, l.user);
    forall u | u in order && u != l.user ensures Asks(max, h + [l], u) == Asks(max, h, u) {
      assert u in Moved(order, l.user);
      OthersAsksStay(max, h, l, u);
    }
  }

  lemma PopFirst(full: seq<User>, order: seq<User>)
    requires Distinct(full) && 0 < |order| <= |full| && order == LastOf(full, |order|)
    ensures order[1..] == LastOf(full, |order| - 1)
    ensures forall u :: u in order[1..] <==> u in order && u != order[0]
  {
    forall u ensures u in order[1..] <==> u in order && u != order[0] {
      assert order == [order[0]] + order[1..];
    }
  }

  /** What has been asked about a user, if the cache still has the user. */
  function Known(max: nat, h: seq<Lookup>, u: User): seq<Ask> {
    if Cached(max, h, u) then Asks(max, h, u) else []
  }

  lemma KnownIsHeld(max: nat, h: seq<Lookup>, order: seq<User>, entries: map<User, Entry>, u: User)
    requires Holds(max, h, order, entries)
    ensures u in entries <==> Known(max, h, u) != []
    ensures u in entries ==> entries[u] == EntryFor(Known(max, h, u))
  {
    LruExactly(max, h);
  }

  lemma Inserted(max: nat, h: seq<Lookup>, order: seq<User>, entries: map<User, Entry>, u: User, e: Entry)
    requires Holds(max, h, order, entries)
    ensures Distinct(Moved(order, u)) && forall v :: v in entries[u := e] <==> v in Moved(order, u)
  {
    LruExactly(max, h);
    MovedFacts(order, u);
  }

  /** Slack was asked: the entry is replaced and the least recent are gone. */
  lemma Miss(max: nat, h: seq<Lookup>, before: seq<User>, known: map<User, Entry>, l: Lookup, e: Entry,
             order: seq<User>, entries: map<User, Entry>)
    requires Holds(max, h, before, known) && MustAsk(Known(max, h, l.user), l.now)
    requires e == EntryFor(Known(max, h, l.user) + [Ask(l.now, l.reply)])
    requires order == LastOf(Moved(before, l.user), max) && forall u :: u in entries <==> u in order
    requires forall u | u in order :: u in known[l.user := e] && entries[u] == known[l.user := e][u]
    ensures Holds(max, h + [l], order, entries)
    ensures Served(max, h + [l]) == e.profile
  {
    LruExactly(max, h);
    LruExactly(max, h + [l]);
    RecentNext(max, h, l);
    AsksNext(max, h, l);
    forall u | u in order && u != l.user
      ensures Asks(max, h + [l], u) != [] && entries[u] == EntryFor(Asks(max, h + [l], u))
    {
      OthersAsksStay(max, h, l, u);
    }
  }

  /** The entry a reply makes of the entry before it. */
  method Replied(entry: Option<Entry>, now: real, reply: Reply, ghost asks: seq<Ask>) returns (made: Entry)
    requires entry == if asks == [] then None else Some(EntryFor(asks))
    ensures made == EntryFor(asks + [Ask(now, reply)])
  {
    var good := if entry.Some? then entry.value.good else None;
    var failures := if entry.Some? then entry.value.failures else 0;
    AskNext(asks, Ask(now, reply));
    match reply {
      case Answer(details) =>
        made := Entry(Answered(details), now + TTL, 0, Some(details));
      case Failure(permanent, retryAfter) =>
        failures := failures + 1;
        var wait := TTL;
        if !permanent {
          match retryAfter {
            case None => wait := Backoff(failures);
            case Some(r) => wait := if r < 1.0 then 1.0 else if r > RETRY_AFTER_CAP then RETRY_AFTER_CAP else r;
          }
        }
        var served := if good.Some? && !permanent then Answered(good.value) else Unknown;
        made := Entry(served, now + wait, failures, good);
    }
  }

  class Cache {
    var order: seq<User>
    var entries: map<User, Entry>
    const maxEntries: nat
    ghost var history: seq<Lookup>

    ghost predicate Valid()
      reads this
    {
      Holds(maxEntries, history, order, entries)
    }

    constructor (maxEntries: nat)
      ensures Valid() && history == [] && this.maxEntries == maxEntries
    {
      this.maxEntries := maxEntries;
      order, entries, history := [], map[], [];
    }

    /** The loop that pops the least recently used until the bound is met. */
    method Evict()
      requires Distinct(order) && forall u :: u in entries <==> u in order
      modifies `order, `entries
      ensures order == LastOf(old(order), maxEntries)
      ensures (forall u :: u in entries <==> u in order) && forall u | u in order :: u in old(entries) && entries[u] == old(entries)[u]
    {
      ghost var full, held := order, entries;
      while |order| > maxEntries
        invariant |LastOf(full, maxEntries)| <= |order| <= |full| && order == LastOf(full, |order|)
        invariant forall u :: u in entries <==> u in order
        invariant forall u | u in order :: u in held && entries[u] == held[u]
      {
        PopFirst(full, order);
        entries := entries - {order[0]};
        order := order[1..];
      }
    }

    /** _resolve_user_profile(): the profile served, and whether Slack was asked. */
    method Resolve(user: User, now: real, reply: Reply) returns (profile: Profile, asked: bool)
      requires Valid()
      modifies this
      ensures Valid() && history == old(history) + [Lookup(user, now, reply)]
      ensures profile == Served(maxEntries, history)
      ensures var asks := Known(maxEntries, old(history), user);
        asked <==> asks == [] || now >= asks[|asks| - 1].now + Owed(asks)
    {
      ghost var asks := Known(maxEntries, history, user);
      if asks != [] { FreshExactly(asks, now); }
      ghost var before, known := order, entries;
      ghost var lookup := Lookup(user, now, reply);
      KnownIsHeld(maxEntries, history, order, entries, user);
      if user in entries {
        var entry := entries[user];
        if now < entry.freshUntil {
          Hit(maxEntries, history, order, entries, lookup);
          order := Moved(order, user);
          history := history + [lookup];
          return entry.profile, false;
        }
      }
      var newEntry := Replied(if user in entries then Some(entries[user]) else None, now, reply, asks);
      Inserted(maxEntries, history, order, entries, user, newEntry);
      order, entries := Moved(order, user), entries[user := newEntry];
      Evict();
      Miss(maxEntries, history, before, known, lookup, newEntry, order, entries);
      history := history + [lookup];
      return newEntry.profile, true;
    }
  }
}
