/** The conversation write buffer: messages are folded into one delta per conversation, and a flush
    swaps the whole map out. Neither critical section awaits anything, so each is one step. */
module WriteBuffer {
  import opened Prelude

  datatype Key = Key(agent: nat, conversation: nat)

  datatype Message = Message(key: Key, at: int, role: string)

  /** A delta's fields. */
  datatype Summary = Summary(increment: nat, latestAt: Option<int>, latestRole: Option<string>)

  function Merged(s: Summary, at: int, role: string): Summary {
    if s.latestAt == None || at > s.latestAt.value then Summary(s.increment + 1, Some(at), Some(role))
    else Summary(s.increment + 1, s.latestAt, s.latestRole)
  }

  /** The deltas a run of messages leaves. */
  function Fold(messages: seq<Message>): map<Key, Summary> {
    if messages == [] then map[] else
    var before, m := Fold(messages[..|messages| - 1]), messages[|messages| - 1];
    before[m.key := Merged(if m.key in before then before[m.key] else Summary(0, None, None), m.at, m.role)]
  }

  function Count(messages: seq<Message>, k: Key): nat {
    if messages == [] then 0 else
    var before, m := Count(messages[..|messages| - 1], k), messages[|messages| - 1];
    if m.key == k then before + 1 else before
  }

  /** The first of the conversation's messages to reach its newest time. */
  ghost predicate FirstNewest(messages: seq<Message>, k: Key, i: nat) {
    && i < |messages| && messages[i].key == k
    && (forall j | 0 <= j < |messages| && messages[j].key == k :: messages[j].at <= messages[i].at)
    && (forall j | 0 <= j < i && messages[j].key == k :: messages[j].at < messages[i].at)
  }

  /** A delta counts its conversation's messages and carries the newest time and the role of the
      first message to reach it; conversations without a message have none. */
  lemma {:induction false} FoldExactly(messages: seq<Message>, k: Key)
    ensures k in Fold(messages) <==> exists i :: 0 <= i < |messages| && messages[i].key == k
    ensures k in Fold(messages) ==> Fold(messages)[k].increment == Count(messages, k) > 0
    ensures k !in Fold(messages) ==> Count(messages, k) == 0
    ensures k in Fold(messages) ==>
      exists i: nat :: FirstNewest(messages, k, i)
        && Fold(messages)[k].latestAt == Some(messages[i].at) && Fold(messages)[k].latestRole == Some(messages[i].role)
  {
    if messages != [] {
      var before, m := messages[..|messages| - 1], messages[|messages| - 1];
      assert messages == before + [m];
      FoldExactly(before, k);
      if k in Fold(before) {
        var i: nat :| FirstNewest(before, k, i)
          && Fold(before)[k].latestAt == Some(before[i].at) && Fold(before)[k].latestRole == Some(before[i].role);
        if m.key != k || m.at <= before[i].at {
          assert FirstNewest(messages, k, i);
        } else {
          assert FirstNewest(messages, k, |before|);
        }
      } else if m.key == k {
        assert FirstNewest(messages, k, |before|);
      }
    }
  }

  // ---------------------------------------------------------------- summed increments

  ghost function Total(deltas: map<Key, Summary>): nat
    decreases |deltas|
  {
    if deltas == map[] then 0 else
    var k :| k in deltas;
    deltas[k].increment + Total(deltas - {k})
  }

  lemma {:induction false} TotalRemove(deltas: map<Key, Summary>, k: Key)
    requires k in deltas
    ensures Total(deltas) == deltas[k].increment + Total(deltas - {k})
    decreases |deltas|
  {
    var p :| p in deltas && Total(deltas) == deltas[p].increment + Total(deltas - {p});
    if p != k {
      TotalRemove(deltas - {p}, k);
      TotalRemove(deltas - {k}, p);
      assert deltas - {p} - {k} == deltas - {k} - {p};
    }
  }

  /** The summed increments are the number of messages. */
  lemma {:induction false} FoldTotal(messages: seq<Message>)
    ensures Total(Fold(messages)) == |messages|
  {
    if messages != [] {
      var before, m := messages[..|messages| - 1], messages[|messages| - 1];
      FoldTotal(before);
      TotalRemove(Fold(messages), m.key);
      assert Fold(messages) - {m.key} == Fold(before) - {m.key};
      if m.key in Fold(before) { TotalRemove(Fold(before), m.key); } else { assert Fold(before) - {m.key} == Fold(before); }
    }
  }

  // ---------------------------------------------------------------- runs

  datatype Event = Enqueue(message: Message) | Flush | Stop

  predicate Stopped(events: seq<Event>) {
    Stop in events
  }

  /** The messages accepted since the last flush. */
  function Open(events: seq<Event>): seq<Message> {
    if events == [] then [] else
    var before, last := events[..|events| - 1], events[|events| - 1];
    match last
    case Enqueue(m) => if Stopped(before) then Open(before) else Open(before) + [m]
    case Flush => []
    case Stop => Open(before)
  }

  /** The messages of each flush that had any. */
  function Closed(events: seq<Event>): seq<seq<Message>> {
    if events == [] then [] else
    var before, last := events[..|events| - 1], events[|events| - 1];
    if last.Flush? && Open(before) != [] then Closed(before) + [Open(before)] else Closed(before)
  }

  /** The messages enqueued before any stop. */
  function Accepted(events: seq<Event>): seq<Message> {
    if events == [] then [] else
    var before, last := events[..|events| - 1], events[|events| - 1];
    if last.Enqueue? && !Stopped(before) then Accepted(before) + [last.message] else Accepted(before)
  }

  ghost predicate Ascending(at: seq<nat>, n: nat) {
    (forall k | 0 <= k < |at| :: at[k] < n) && forall j, k | 0 <= j < k < |at| :: at[j] < at[k]
  }

  /** Exactly the messages enqueued with no stop before them are accepted, in that order: `at` says which
      events brought them. */
  lemma {:induction false} AcceptedExactly(events: seq<Event>) returns (at: seq<nat>)
    ensures |at| == |Accepted(events)| && Ascending(at, |events|)
    ensures forall k | 0 <= k < |at| :: events[at[k]] == Enqueue(Accepted(events)[k])
    ensures forall i: nat | i < |events| :: i in at <==> events[i].Enqueue? && Stop !in events[..i]
  {
    at := [];
    if events != [] {
      var n := |events| - 1;
      var before := events[..n];
      at := AcceptedExactly(before);
      assert forall i: nat | i < n :: before[..i] == events[..i];
      if events[n].Enqueue? && Stop !in before { at := at + [n]; }
    }
  }

  function Joined(parts: seq<seq<Message>>): seq<Message> {
    if parts == [] then [] else Joined(parts[..|parts| - 1]) + parts[|parts| - 1]
  }

  lemma JoinedAppend(parts: seq<seq<Message>>, part: seq<Message>)
    ensures Joined(parts + [part]) == Joined(parts) + part
  {
    assert (parts + [part])[..|parts|] == parts;
  }

  /** Every accepted message is in exactly one flush's batch or still pending, in order, whatever
      the interleaving of enqueues, flushes and the stop. */
  lemma {:induction false} EachMessageOnce(events: seq<Event>)
    ensures Joined(Closed(events)) + Open(events) == Accepted(events)
    ensures forall i | 0 <= i < |Closed(events)| :: Closed(events)[i] != []
  {
    if events != [] {
      var before, last := events[..|events| - 1], events[|events| - 1];
      EachMessageOnce(before);
      if last.Flush? { JoinedAppend(Closed(before), Open(before)); }
    }
  }

  ghost function Totals(batches: seq<map<Key, Summary>>): nat {
    if batches == [] then 0 else Totals(batches[..|batches| - 1]) + Total(batches[|batches| - 1])
  }

  function Folds(parts: seq<seq<Message>>): seq<map<Key, Summary>> {
    if parts == [] then [] else Folds(parts[..|parts| - 1]) + [Fold(parts[|parts| - 1])]
  }

  lemma {:induction false} FoldsTotal(parts: seq<seq<Message>>)
    ensures Totals(Folds(parts)) == |Joined(parts)|
  {
    if parts != [] {
      var init, last := parts[..|parts| - 1], parts[|parts| - 1];
      FoldsTotal(init);
      FoldTotal(last);
      assert (Folds(init) + [Fold(last)])[..|Folds(init)|] == Folds(init);
    }
  }

  /** No increment is lost or counted twice: batches and pending add up to the accepted messages. */
  lemma IncrementsAreConserved(events: seq<Event>)
    ensures Totals(Folds(Closed(events))) + Total(Fold(Open(events))) == |Accepted(events)|
  {
    EachMessageOnce(events);
    FoldsTotal(Closed(events));
    FoldTotal(Open(events));
  }

  /** Once a flush follows the stop nothing is pending, then or ever. */
  lemma {:induction false} DrainedAfterStop(events: seq<Event>, s: nat, f: nat)
    requires s < f < |events| && events[s] == Stop && events[f] == Flush
    ensures Open(events) == [] && Accepted(events) == Joined(Closed(events))
    decreases |events|
  {
    var before := events[..|events| - 1];
    if f < |before| {
      DrainedAfterStop(before, s, f);
      assert before[s] == Stop;
    }
    EachMessageOnce(events);
  }

  // ---------------------------------------------------------------- the buffer

  class ConversationDelta {
    const key: Key
    var increment: nat
    var latestAt: Option<int>
    var latestRole: Option<string>

    function View(): Summary
      reads this
    {
      Summary(increment, latestAt, latestRole)
    }

    constructor (key: Key)
      ensures this.key == key && View() == Summary(0, None, None)
    {
      this.key := key;
      increment, latestAt, latestRole := 0, None, None;
    }

    method Merge(at: int, role: string)
      modifies this
      ensures View() == Merged(old(View()), at, role)
    {
      increment := increment + 1;
      if latestAt == None || at > latestAt.value {
        latestAt := Some(at);
        latestRole := Some(role);
      }
    }
  }

  class ConversationWriteBuffer {
    var deltas: map<Key, ConversationDelta>
    var runningCount: nat
    var stopped: bool
    const threshold: int
    ghost var events: seq<Event>

    ghost predicate Valid()
      reads this, deltas.Values
    {
      && stopped == Stopped(events)
      && runningCount == |Open(events)|
      && deltas.Keys == Fold(Open(events)).Keys
      && (forall k | k in deltas :: deltas[k].key == k && deltas[k].View() == Fold(Open(events))[k])
    }

    constructor (threshold: int)
      ensures Valid() && events == [] && deltas == map[] && this.threshold == threshold
    {
      this.threshold := threshold;
      deltas, runningCount, stopped, events := map[], 0, false, [];
    }

    /** enqueue(): whether a flush is to be scheduled. Only this buffer's own deltas change. */
    method Enqueue(m: Message) returns (flushDue: bool)
      requires Valid()
      modifies this, deltas.Values
      ensures Valid() && events == old(events) + [Event.Enqueue(m)]
      ensures forall d | d in deltas.Values :: d in old(deltas.Values) || fresh(d)
      ensures flushDue <==> !old(stopped) && |Open(events)| >= threshold
    {
      ghost var before := events;
      events := events + [Event.Enqueue(m)];
      assert events[..|before|] == before;
      if stopped { return false; }
      assert Open(events)[..|Open(before)|] == Open(before);
      if m.key !in deltas {
        var created := new ConversationDelta(m.key);
        deltas := deltas[m.key := created];
      }
      deltas[m.key].Merge(m.at, m.role);
      runningCount := runningCount + 1;
      flushDue := runningCount >= threshold;
    }

    /** The swap at the start of flush(): the caller alone holds the batch from here on. */
    method TakeBatch() returns (batch: map<Key, ConversationDelta>)
      requires Valid()
      modifies this
      ensures Valid() && events == old(events) + [Event.Flush]
      ensures deltas == map[] && batch == old(deltas)
      ensures batch.Keys == Fold(Open(old(events))).Keys
      ensures forall k | k in batch :: batch[k].View() == Fold(Open(old(events)))[k]
      ensures Closed(events) == if batch == map[] then Closed(old(events)) else Closed(old(events)) + [Open(old(events))]
    {
      ghost var before := events;
      batch := deltas;
      deltas := map[];
      runningCount := 0;
      events := events + [Event.Flush];
      assert events[..|before|] == before;
      EmptyFold(Open(before));
      assert batch == map[] <==> batch.Keys == {};
    }

    /** stop() up to its first await: whether this call goes on to the final flush. */
    method BeginStop() returns (drain: bool)
      requires Valid()
      modifies `stopped, `events
      ensures Valid() && stopped && drain == !old(stopped)
      ensures events == old(events) + [Event.Stop]
    {
      drain := !stopped;
      stopped := true;
      ghost var before := events;
      events := events + [Event.Stop];
      assert events[..|before|] == before && Stop in events;
    }
  }

  lemma EmptyFold(messages: seq<Message>)
    ensures Fold(messages).Keys == {} <==> messages == []
  {
    if messages != [] { assert messages[|messages| - 1].key in Fold(messages); }
  }
}
