/** Rooms on the websocket handler: room frames, evictions from outside and disconnects over any
    number of connections, one atomic step per stretch of code between two awaits. The fanout is
    a set of memberships whose calls succeed, except that a call cancelled with its message loop
    may already have taken effect. */
module RoomProtocol {

  type Room = string
  type Conn = nat
  type User = string

  datatype Member = Member(room: Room, conn: Conn)

  /** What the holder of a connection's room lock is doing. `since` is the length of the log when
      the frame took the lock, `decided` the log index of its gates' answer. */
  datatype Lock =
    | Free
    | Joining(room: Room, since: nat)                   // the join gates are being asked
    | JoinCalled(room: Room, since: nat, decided: nat)  // allowed; join_room called
    | JoinLanded(room: Room, since: nat, decided: nat)  // the membership is written
    | Leaving(room: Room)                               // leave_room called for a leave frame
    | LeaveLanded(room: Room)
    | Gating(room: Room)                                // an op or transient past the joined check
    | Broadcasting(room: Room)
    | Redeciding(room: Room)                            // reevaluate_room asking the gates again
    | Evicting(room: Room)                              // dropped from joined_rooms; leave_room called
    | Notifying                                         // evicted; the error frame is being sent
    | Cleaning(todo: set<Room>)                         // disconnect cleanup leaving each room

  /** The lock is held by a frame of the connection's own message loop. */
  predicate HeldByLoop(lock: Lock) {
    lock.Joining? || lock.JoinCalled? || lock.JoinLanded? || lock.Leaving? || lock.LeaveLanded?
    || lock.Gating? || lock.Broadcasting?
  }

  /** The holder may let go without having changed anything. */
  predicate MayRelease(lock: Lock) {
    lock.Joining? || lock.Gating? || lock.Broadcasting? || lock.Redeciding? || lock.Notifying?
  }

  datatype Phase = Serving | Stopped | CleaningUp | Gone

  /** `tornJoins` and `tornLeaves` are the rooms whose join or leave was cancelled after its
      membership write took effect and before joined_rooms was updated. */
  datatype Connection = Connection(user: User, joined: set<Room>, lock: Lock, phase: Phase,
                                   tornJoins: set<Room>, tornLeaves: set<Room>)

  datatype Entry =
    | Allowed(conn: Conn, room: Room)
    | Entered(conn: Conn, room: Room, since: nat, decided: nat)
    | Evicted(conn: Conn, room: Room)
    | Sent(conn: Conn, room: Room)
    | Torn(conn: Conn, room: Room)

  datatype State = State(conns: map<Conn, Connection>, members: set<Member>, log: seq<Entry>)

  const EMPTY := State(map[], {}, [])

  datatype Event =
    | Connect(conn: Conn, user: User)
    | JoinFrame(conn: Conn, room: Room)
    | JoinAllowed(conn: Conn)
    | JoinLands(conn: Conn)
    | JoinReturns(conn: Conn)
    | LeaveFrame(conn: Conn, room: Room)
    | LeaveLands(conn: Conn)
    | LeaveReturns(conn: Conn)
    | SendFrame(conn: Conn, room: Room)
    | Broadcast(conn: Conn)
    | Release(conn: Conn)
    | Revoke(conn: Conn, room: Room, user: User)
    | Reevaluate(conn: Conn, room: Room)
    | Refused(conn: Conn)
    | EvictLands(conn: Conn)
    | StopLoop(conn: Conn)
    | CleanBegin(conn: Conn)
    | CleanLeave(conn: Conn, room: Room)
    | CleanEnd(conn: Conn)

  predicate LoopReady(c: Connection) {
    c.phase == Serving && c.lock == Free
  }

  predicate Enabled(st: State, e: Event) {
    if e.Connect? then e.conn !in st.conns else
    e.conn in st.conns &&
    var c := st.conns[e.conn];
    match e
    case Connect(_, _) => false
    case JoinFrame(_, _) => LoopReady(c)
    case JoinAllowed(_) => c.lock.Joining?
    case JoinLands(_) => c.lock.JoinCalled?
    case JoinReturns(_) => c.lock.JoinLanded?
    case LeaveFrame(_, _) => LoopReady(c)
    case LeaveLands(_) => c.lock.Leaving?
    case LeaveReturns(_) => c.lock.LeaveLanded?
    case SendFrame(_, r) => LoopReady(c) && r in c.joined
    case Broadcast(_) => c.lock.Gating?
    case Release(_) => MayRelease(c.lock)
    case Revoke(_, r, u) => c.lock == Free && c.user == u && r in c.joined
    case Reevaluate(_, r) => c.lock == Free && r in c.joined
    case Refused(_) => c.lock.Redeciding?
    case EvictLands(_) => c.lock.Evicting?
    case StopLoop(_) => c.phase == Serving
    case CleanBegin(_) => c.phase == Stopped && c.lock == Free
    case CleanLeave(_, r) => c.lock.Cleaning? && r in c.lock.todo
    case CleanEnd(_) => c.lock.Cleaning? && c.lock.todo == {}
  }

  function Set(st: State, k: Conn, c: Connection): State {
    st.(conns := st.conns[k := c])
  }

  function Note(st: State, entry: Entry): State {
    st.(log := st.log + [entry])
  }

  function Step(st: State, e: Event): State
    requires Enabled(st, e)
  {
    var k := e.conn;
    if e.Connect? then Set(st, k, Connection(e.user, {}, Free, Serving, {}, {})) else
    var c := st.conns[k];
    match e
    case JoinFrame(_, r) => Set(st, k, c.(lock := Joining(r, |st.log|)))
    case JoinAllowed(_) =>
      var Joining(r, since) := c.lock;
      // a room already joined is authorized again and changes nothing
      var lock := if r in c.joined then Free else JoinCalled(r, since, |st.log|);
      Note(Set(st, k, c.(lock := lock)), Allowed(k, r))
    case JoinLands(_) =>
      var JoinCalled(r, since, decided) := c.lock;
      Note(Set(st, k, c.(lock := JoinLanded(r, since, decided))), Entered(k, r, since, decided))
        .(members := st.members + {Member(r, k)})
    case JoinReturns(_) => Set(st, k, c.(lock := Free, joined := c.joined + {c.lock.room}))
    case LeaveFrame(_, r) => Set(st, k, c.(lock := Leaving(r)))
    case LeaveLands(_) =>
      Set(st, k, c.(lock := LeaveLanded(c.lock.room))).(members := st.members - {Member(c.lock.room, k)})
    case LeaveReturns(_) => Set(st, k, c.(lock := Free, joined := c.joined - {c.lock.room}))
    case SendFrame(_, r) => Set(st, k, c.(lock := Gating(r)))
    case Broadcast(_) => Note(Set(st, k, c.(lock := Broadcasting(c.lock.room))), Sent(k, c.lock.room))
    case Release(_) => Set(st, k, c.(lock := Free))
    case Revoke(_, r, _) => Set(st, k, c.(lock := Evicting(r), joined := c.joined - {r}))
    case Reevaluate(_, r) => Set(st, k, c.(lock := Redeciding(r)))
    case Refused(_) => Set(st, k, c.(lock := Evicting(c.lock.room), joined := c.joined - {c.lock.room}))
    case EvictLands(_) =>
      Note(Set(st, k, c.(lock := Notifying)), Evicted(k, c.lock.room)).(members := st.members - {Member(c.lock.room, k)})
    case StopLoop(_) =>
      // a frame in flight is cancelled and lets go of the lock; an eviction keeps it
      var c' := c.(phase := Stopped, lock := if HeldByLoop(c.lock) then Free else c.lock);
      if c.lock.JoinLanded? then
        Note(Set(st, k, c'.(tornJoins := c.tornJoins + {c.lock.room})), Torn(k, c.lock.room))
      else if c.lock.LeaveLanded? then
        Set(st, k, c'.(tornLeaves := c.tornLeaves + {c.lock.room}))
      else
        Set(st, k, c')
    case CleanBegin(_) => Set(st, k, c.(phase := CleaningUp, lock := Cleaning(c.joined), joined := {}))
    case CleanLeave(_, r) =>
      Set(st, k, c.(lock := Cleaning(c.lock.todo - {r}))).(members := st.members - {Member(r, k)})
    case CleanEnd(_) => Set(st, k, c.(lock := Free, phase := Gone))
  }

  // ---------------------------------------------------------------- invariant

  /** The rooms the connection's own bookkeeping says it is in, allowing for a write in flight. */
  function Claimed(c: Connection): set<Room> {
    match c.lock
    case JoinLanded(r, _, _) => c.joined + {r}
    case LeaveLanded(r) => c.joined - {r}
    case Evicting(r) => c.joined + {r}
    case Cleaning(todo) => todo
    case _ => c.joined
  }

  /** The rooms the fanout has it in. */
  function Rooms(c: Connection): set<Room> {
    (Claimed(c) - c.tornLeaves) + c.tornJoins
  }

  ghost predicate Agrees(st: State, k: Conn)
    requires k in st.conns
  {
    forall r: Room :: Member(r, k) in st.members <==> r in Rooms(st.conns[k])
  }

  predicate Tidy(c: Connection) {
    && (c.phase == Serving ==> c.tornJoins == {} && c.tornLeaves == {})
    && (HeldByLoop(c.lock) ==> c.phase == Serving)
    && (c.phase == CleaningUp <==> c.lock.Cleaning?)
    && (c.phase == CleaningUp || c.phase == Gone ==> c.joined == {})
    && (c.phase == Gone ==> c.lock == Free || c.lock == Notifying)
    && (c.lock.Gating? || c.lock.Redeciding? ==> c.lock.room in c.joined)
    && c.tornJoins !! c.joined && (c.lock.Cleaning? ==> c.tornJoins !! c.lock.todo)
    && (c.lock.Evicting? ==> c.lock.room !in c.tornJoins && c.lock.room !in c.joined)
    && (c.lock.JoinCalled? || c.lock.JoinLanded? ==> c.lock.room !in c.joined)
  }

  ghost predicate TornLogged(st: State, k: Conn)
    requires k in st.conns
  {
    forall r: Room :: r in st.conns[k].tornJoins <==> Torn(k, r) in st.log
  }

  /** No eviction of the connection has been logged from `since` on. */
  ghost predicate NotEvictedSince(st: State, k: Conn, since: nat) {
    since <= |st.log| && forall i | since <= i < |st.log| :: !(st.log[i].Evicted? && st.log[i].conn == k)
  }

  ghost predicate Decided(log: seq<Entry>, k: Conn, r: Room, since: nat, decided: nat) {
    since <= decided < |log| && log[decided] == Allowed(k, r)
  }

  ghost predicate JoinInOrder(st: State, k: Conn)
    requires k in st.conns
  {
    var lock := st.conns[k].lock;
    && (lock.Joining? || lock.JoinCalled? || lock.JoinLanded? ==> NotEvictedSince(st, k, lock.since))
    && (lock.JoinCalled? || lock.JoinLanded? ==> Decided(st.log, k, lock.room, lock.since, lock.decided))
  }

  ghost predicate ConnOk(st: State, k: Conn)
    requires k in st.conns
  {
    Tidy(st.conns[k]) && Agrees(st, k) && TornLogged(st, k) && JoinInOrder(st, k)
  }

  /** Memberships and log entries belong to known connections. */
  ghost predicate Known(st: State) {
    && (forall m | m in st.members :: m.conn in st.conns)
    && (forall i | 0 <= i < |st.log| :: st.log[i].conn in st.conns)
  }

  /** An entry at `j` was made by a frame that took the lock, and had its gates decided, after
      every eviction before it. */
  ghost predicate EntryInOrder(log: seq<Entry>, j: nat)
    requires j < |log| && log[j].Entered?
  {
    var Entered(k, r, since, decided) := log[j];
    && since <= decided < j && log[decided] == Allowed(k, r)
    && forall i | since <= i < j :: !(log[i].Evicted? && log[i].conn == k)
  }

  ghost predicate EntriesInOrder(st: State) {
    forall j | 0 <= j < |st.log| && st.log[j].Entered? :: EntryInOrder(st.log, j)
  }

  ghost predicate EnteredAfter(log: seq<Entry>, m: Member, i: nat) {
    exists j | i < j < |log| :: log[j].Entered? && log[j].conn == m.conn && log[j].room == m.room
  }

  /** A current member that was once evicted has entered since. */
  ghost predicate MemberInOrder(st: State, m: Member) {
    forall i | 0 <= i < |st.log| && st.log[i] == Evicted(m.conn, m.room) :: EnteredAfter(st.log, m, i)
  }

  ghost predicate MembersInOrder(st: State) {
    forall m | m in st.members :: MemberInOrder(st, m)
  }

  ghost predicate Inv(st: State) {
    && Known(st) && EntriesInOrder(st) && MembersInOrder(st)
    && forall k | k in st.conns :: ConnOk(st, k)
  }

  // ---------------------------------------------------------------- every step keeps it

  /** Steps of the connection's own frames. */
  predicate OfFrame(e: Event) {
    e.Connect? || e.JoinFrame? || e.JoinAllowed? || e.JoinLands? || e.JoinReturns? || e.LeaveFrame? || e.LeaveLands?
    || e.LeaveReturns? || e.SendFrame? || e.Broadcast?
  }

  lemma TidyKeptByFrame(st: State, e: Event)
    requires Enabled(st, e) && OfFrame(e) && (e.conn in st.conns ==> Tidy(st.conns[e.conn]))
    ensures Tidy(Step(st, e).conns[e.conn])
  {
  }

  lemma TidyKeptOtherwise(st: State, e: Event)
    requires Enabled(st, e) && !OfFrame(e) && (e.conn in st.conns ==> Tidy(st.conns[e.conn]))
    ensures Tidy(Step(st, e).conns[e.conn])
  {
  }

  lemma AgreesKept(st: State, e: Event)
    requires Enabled(st, e) && Known(st)
    requires e.conn in st.conns ==> Tidy(st.conns[e.conn]) && Agrees(st, e.conn)
    ensures Agrees(Step(st, e), e.conn)
  {
  }

  lemma TornKept(st: State, e: Event)
    requires Enabled(st, e) && Known(st)
    requires e.conn in st.conns ==> Tidy(st.conns[e.conn]) && TornLogged(st, e.conn)
    ensures TornLogged(Step(st, e), e.conn)
  {
  }

  lemma JoinKept(st: State, e: Event)
    requires Enabled(st, e)
    requires e.conn in st.conns ==> Tidy(st.conns[e.conn]) && JoinInOrder(st, e.conn)
    ensures JoinInOrder(Step(st, e), e.conn)
  {
  }

  lemma OthersKept(st: State, e: Event, k: Conn)
    requires Enabled(st, e) && k in st.conns && k != e.conn && ConnOk(st, k)
    ensures ConnOk(Step(st, e), k)
  {
  }

  lemma KnownKept(st: State, e: Event)
    requires Enabled(st, e) && Known(st)
    ensures Known(Step(st, e))
  {
  }

  lemma EntriesKept(st: State, e: Event)
    requires Enabled(st, e) && EntriesInOrder(st) && (e.conn in st.conns ==> JoinInOrder(st, e.conn))
    ensures EntriesInOrder(Step(st, e))
  {
  }

  lemma MembersKept(st: State, e: Event)
    requires Enabled(st, e) && Known(st) && MembersInOrder(st)
    ensures MembersInOrder(Step(st, e))
  {
    var st' := Step(st, e);
    forall m, i | m in st'.members && 0 <= i < |st'.log| && st'.log[i] == Evicted(m.conn, m.room)
      ensures EnteredAfter(st'.log, m, i)
    {
      if e.JoinLands? && m == Member(st.conns[e.conn].lock.room, e.conn) {
        assert st'.log[|st.log|].Entered?;
      } else {
        assert EnteredAfter(st.log, m, i);
        var j :| i < j < |st.log| && st.log[j].Entered? && st.log[j].conn == m.conn && st.log[j].room == m.room;
        assert st'.log[j] == st.log[j];
      }
    }
  }

  lemma StepKeepsInv(st: State, e: Event)
    requires Inv(st) && Enabled(st, e)
    ensures Inv(Step(st, e))
  {
    KnownKept(st, e);
    EntriesKept(st, e);
    MembersKept(st, e);
    if OfFrame(e) { TidyKeptByFrame(st, e); } else { TidyKeptOtherwise(st, e); }
    AgreesKept(st, e);
    TornKept(st, e);
    JoinKept(st, e);
    forall k | k in Step(st, e).conns ensures ConnOk(Step(st, e), k) {
      if k != e.conn { OthersKept(st, e, k); }
    }
  }

  // ---------------------------------------------------------------- runs

  ghost predicate IsRun(states: seq<State>, events: seq<Event>) {
    && |states| == |events| + 1 && states[0] == EMPTY
    && forall i | 0 <= i < |events| :: StepAt(states, events, i)
  }

  predicate StepAt(states: seq<State>, events: seq<Event>, i: nat)
    requires i < |events| && |states| == |events| + 1
  {
    Enabled(states[i], events[i]) && states[i + 1] == Step(states[i], events[i])
  }

  lemma {:induction false} RunKeepsInv(states: seq<State>, events: seq<Event>, n: nat)
    requires IsRun(states, events) && n < |states|
    ensures Inv(states[n])
  {
    if n > 0 {
      RunKeepsInv(states, events, n - 1);
      assert StepAt(states, events, n - 1);
      StepKeepsInv(states[n - 1], events[n - 1]);
    }
  }

  /** Some run leads to the state. */
  ghost predicate Reachable(st: State) {
    exists states: seq<State>, events: seq<Event> :: IsRun(states, events) && states[|events|] == st
  }

  lemma ReachableStep(st: State, e: Event)
    requires Reachable(st) && Enabled(st, e)
    ensures Reachable(Step(st, e))
  {
    var states: seq<State>, events: seq<Event> :| IsRun(states, events) && states[|events|] == st;
    var states', events' := states + [Step(st, e)], events + [e];
    forall i | 0 <= i < |events'| ensures StepAt(states', events', i) {
      if i < |events| { assert StepAt(states, events, i); }
    }
    assert IsRun(states', events') && states'[|events'|] == Step(st, e);
  }

  lemma ReachableAtFirst()
    ensures Reachable(EMPTY)
  {
    assert IsRun([EMPTY], []) && [EMPTY][0] == EMPTY;
  }

  lemma ReachableAgrees(st: State, k: Conn)
    requires Reachable(st) && k in st.conns
    ensures Tidy(st.conns[k]) && Agrees(st, k)
  {
    var states: seq<State>, events: seq<Event> :| IsRun(states, events) && states[|events|] == st;
    RunKeepsInv(states, events, |events|);
    assert ConnOk(st, k);
  }

  /** Whenever the room lock is free, joined_rooms is exactly the fanout's memberships; after the
      loop has been stopped, up to a join or leave it tore. */
  lemma LockFreeMeansAgreement(states: seq<State>, events: seq<Event>, n: nat, k: Conn, r: Room)
    requires IsRun(states, events) && n < |states| && k in states[n].conns && states[n].conns[k].lock == Free
    ensures var c := states[n].conns[k];
      Member(r, k) in states[n].members <==> (r in c.joined && r !in c.tornLeaves) || r in c.tornJoins
    ensures states[n].conns[k].phase == Serving ==>
      (Member(r, k) in states[n].members <==> r in states[n].conns[k].joined)
  {
    RunKeepsInv(states, events, n);
    assert ConnOk(states[n], k);
  }

  /** Every op or transient broadcast comes from a connection that is in the room as it is sent,
      by its own account and by the fanout's. */
  lemma BroadcastsComeFromMembers(states: seq<State>, events: seq<Event>, n: nat)
    requires IsRun(states, events) && n < |events| && StepAt(states, events, n) && events[n].Broadcast?
    ensures var k := events[n].conn;
      var r := states[n].conns[k].lock.room;
      && r in states[n].conns[k].joined && Member(r, k) in states[n].members && Member(r, k) in states[n + 1].members
      && states[n + 1].log == states[n].log + [Sent(k, r)]
  {
    RunKeepsInv(states, events, n);
    assert ConnOk(states[n], events[n].conn);
  }

  /** A connection once evicted from a room is in it again only through a later entry whose frame
      took the lock, and whose gates answered, after that eviction. */
  lemma EvictedReturnsOnlyAfresh(states: seq<State>, events: seq<Event>, n: nat, i: nat, k: Conn, r: Room)
    requires IsRun(states, events) && n < |states|
    requires i < |states[n].log| && states[n].log[i] == Evicted(k, r) && Member(r, k) in states[n].members
    ensures exists since: nat, decided: nat, j: nat ::
      && i < since <= decided < j < |states[n].log|
      && states[n].log[decided] == Allowed(k, r) && states[n].log[j] == Entered(k, r, since, decided)
  {
    var log := states[n].log;
    RunKeepsInv(states, events, n);
    assert MemberInOrder(states[n], Member(r, k));
    var j :| i < j < |log| && log[j].Entered? && log[j].conn == k && log[j].room == r;
    assert EntryInOrder(log, j);
    assert log[j] == Entered(k, r, log[j].since, log[j].decided);
  }

  lemma {:induction false} LogOnlyGrows(states: seq<State>, events: seq<Event>, i: nat, j: nat)
    requires IsRun(states, events) && i <= j < |states|
    ensures states[i].log <= states[j].log
    decreases j
  {
    if i < j {
      LogOnlyGrows(states, events, i, j - 1);
      assert StepAt(states, events, j - 1);
    }
  }

  /** The step that evicts: from then on the eviction stays in the log at this place. */
  lemma EvictionIsLogged(states: seq<State>, events: seq<Event>, i: nat, n: nat)
    requires IsRun(states, events) && i < n < |states| && StepAt(states, events, i) && events[i].EvictLands?
    ensures var at := |states[i].log|;
      var r := states[i].conns[events[i].conn].lock.room;
      && at < |states[n].log| && states[n].log[at] == Evicted(events[i].conn, r)
      && Member(r, events[i].conn) !in states[i + 1].members
  {
    LogOnlyGrows(states, events, i + 1, n);
  }

  // ---------------------------------------------------------------- what a call comes to

  /** After step `i` the connection's lock is held until `n`. */
  ghost predicate HeldUntil(states: seq<State>, k: Conn, i: nat, n: nat)
    requires n <= |states|
  {
    forall m | i < m < n :: k in states[m].conns && states[m].conns[k].lock != Free
  }

  ghost predicate AmongEvents(events: seq<Event>, i: nat, n: nat, e: Event)
    requires n <= |events|
  {
    exists j | i <= j < n :: events[j] == e
  }

  lemma {:induction false} LeaveUnderWay(states: seq<State>, events: seq<Event>, i: nat, m: nat, k: Conn, r: Room)
    requires IsRun(states, events) && i < m < |states| && events[i] == LeaveFrame(k, r) && HeldUntil(states, k, i, m + 1)
    ensures k in states[i].conns && k in states[m].conns
    ensures var c := states[m].conns[k];
      c.phase == Serving && (c.lock == Leaving(r) || c.lock == LeaveLanded(r)) && c.joined == states[i].conns[k].joined
    decreases m
  {
    assert StepAt(states, events, m - 1);
    if i < m - 1 { LeaveUnderWay(states, events, i, m - 1, k, r); }
  }

  /** A leave frame: when its lock is next free and the loop still runs, exactly that room has been left,
      by the connection's account and by the fanout's. */
  lemma LeaveLeaves(states: seq<State>, events: seq<Event>, i: nat, n: nat, k: Conn, r: Room)
    requires IsRun(states, events) && i < n < |states| && events[i] == LeaveFrame(k, r) && HeldUntil(states, k, i, n)
    requires k in states[n].conns && states[n].conns[k].lock == Free && states[n].conns[k].phase == Serving
    ensures k in states[i].conns && states[n].conns[k].joined == states[i].conns[k].joined - {r}
    ensures Member(r, k) !in states[n].members
  {
    assert StepAt(states, events, n - 1);
    if i < n - 1 { LeaveUnderWay(states, events, i, n - 1, k, r); }
    LockFreeMeansAgreement(states, events, n, k, r);
  }

  lemma {:induction false} JoinUnderWay(states: seq<State>, events: seq<Event>, i: nat, m: nat, k: Conn, r: Room)
    requires IsRun(states, events) && i < m < |states| && events[i] == JoinFrame(k, r) && HeldUntil(states, k, i, m + 1)
    ensures k in states[i].conns && k in states[m].conns
    ensures var c := states[m].conns[k];
      && c.phase == Serving && c.joined == states[i].conns[k].joined
      && (c.lock.Joining? || c.lock.JoinCalled? || c.lock.JoinLanded?) && c.lock.room == r
      && (c.lock.Joining? <==> !AmongEvents(events, i, m, JoinAllowed(k)))
    decreases m
  {
    assert StepAt(states, events, m - 1);
    if i < m - 1 {
      JoinUnderWay(states, events, i, m - 1, k, r);
      AmongNext(events, i, m - 1, JoinAllowed(k));
    }
  }

  lemma AmongNext(events: seq<Event>, i: nat, n: nat, e: Event)
    requires i <= n < |events|
    ensures AmongEvents(events, i, n + 1, e) <==> AmongEvents(events, i, n, e) || events[n] == e
  {
  }

  /** A join frame: when its lock is next free and the loop still runs, the room has been joined exactly
      if its gates allowed it, on both accounts, and no other room has. */
  lemma JoinJoins(states: seq<State>, events: seq<Event>, i: nat, n: nat, k: Conn, r: Room)
    requires IsRun(states, events) && i < n < |states| && events[i] == JoinFrame(k, r) && HeldUntil(states, k, i, n)
    requires k in states[n].conns && states[n].conns[k].lock == Free && states[n].conns[k].phase == Serving
    ensures k in states[i].conns
    ensures states[n].conns[k].joined
         == if AmongEvents(events, i, n, JoinAllowed(k)) then states[i].conns[k].joined + {r} else states[i].conns[k].joined
    ensures Member(r, k) in states[n].members <==> r in states[n].conns[k].joined
  {
    assert StepAt(states, events, n - 1);
    if i < n - 1 { JoinUnderWay(states, events, i, n - 1, k, r); }
    AmongNext(events, i, n - 1, JoinAllowed(k));
    LockFreeMeansAgreement(states, events, n, k, r);
  }

  /** The step begins an eviction of the connection from the room, or asks its gates again. */
  predicate Challenges(e: Event, k: Conn, r: Room) {
    (e.Revoke? || e.Reevaluate?) && e.conn == k && e.room == r
  }

  /** Revoked outright, or refused by its gates since. */
  ghost predicate Ousted(events: seq<Event>, i: nat, n: nat, k: Conn)
    requires i < n <= |events|
  {
    events[i].Revoke? || AmongEvents(events, i, n, Refused(k))
  }

  /** The holder of the lock is deciding about this room; `rooms` were joined when it began. */
  predicate Challenged(c: Connection, r: Room, ousted: bool, rooms: set<Room>) {
    && (if ousted then c.lock == Evicting(r) || c.lock == Notifying else c.lock == Redeciding(r))
    && c.joined == (if ousted then rooms - {r} else rooms) && r !in c.tornJoins
  }

  lemma ChallengeStep(st: State, e: Event, k: Conn, r: Room, ousted: bool, rooms: set<Room>)
    requires Enabled(st, e) && k in st.conns && Challenged(st.conns[k], r, ousted, rooms)
    ensures var c := Step(st, e).conns[k];
      var out := ousted || e == Refused(k);
      && (c.lock != Free ==> Challenged(c, r, out, rooms))
      && c.joined == (if out then rooms - {r} else rooms) && r !in c.tornJoins
  {
  }

  lemma {:induction false} ChallengeUnderWay(states: seq<State>, events: seq<Event>, i: nat, m: nat, k: Conn, r: Room)
    requires IsRun(states, events) && i < m < |states| && Challenges(events[i], k, r) && HeldUntil(states, k, i, m + 1)
    ensures k in states[i].conns && r in states[i].conns[k].joined && k in states[m].conns
    ensures Challenged(states[m].conns[k], r, Ousted(events, i, m, k), states[i].conns[k].joined)
    decreases m
  {
    assert StepAt(states, events, m - 1);
    if i < m - 1 {
      ChallengeUnderWay(states, events, i, m - 1, k, r);
      AmongNext(events, i, m - 1, Refused(k));
      ChallengeStep(states[m - 1], events[m - 1], k, r, Ousted(events, i, m - 1, k), states[i].conns[k].joined);
    } else {
      RunKeepsInv(states, events, i);
      assert ConnOk(states[i], k);
    }
  }

  /** A revocation, or a fresh decision about a member: when its lock is next free the connection is out
      of the room on both accounts if it was revoked or the gates refused it, and otherwise its rooms are
      as they were. */
  lemma OustedIsOut(states: seq<State>, events: seq<Event>, i: nat, n: nat, k: Conn, r: Room)
    requires IsRun(states, events) && i < n < |states| && Challenges(events[i], k, r) && HeldUntil(states, k, i, n)
    requires k in states[n].conns && states[n].conns[k].lock == Free
    ensures k in states[i].conns && r in states[i].conns[k].joined
    ensures states[n].conns[k].joined
         == if Ousted(events, i, n, k) then states[i].conns[k].joined - {r} else states[i].conns[k].joined
    ensures Ousted(events, i, n, k) ==> Member(r, k) !in states[n].members
  {
    assert StepAt(states, events, n - 1);
    ChallengeUnderWay(states, events, i, n - 1, k, r);
    AmongNext(events, i, n - 1, Refused(k));
    ChallengeStep(states[n - 1], events[n - 1], k, r, Ousted(events, i, n - 1, k), states[i].conns[k].joined);
    LockFreeMeansAgreement(states, events, n, k, r);
  }

  // ---------------------------------------------------------------- after the connection

  /** Nothing happens to a connection that is gone. */
  lemma GoneIsQuiet(st: State, e: Event, k: Conn)
    requires Inv(st) && Enabled(st, e) && k in st.conns && st.conns[k].phase == Gone && st.conns[k].lock == Free
    ensures e.conn != k
    ensures Step(st, e).conns[k] == st.conns[k]
    ensures forall r: Room :: Member(r, k) in Step(st, e).members <==> Member(r, k) in st.members
  {
    assert ConnOk(st, k);
  }

  lemma {:induction false} GoneStaysGone(states: seq<State>, events: seq<Event>, n: nat, m: nat, k: Conn)
    requires IsRun(states, events) && n <= m < |states| && k in states[n].conns
    requires states[n].conns[k].phase == Gone && states[n].conns[k].lock == Free
    ensures k in states[m].conns && states[m].conns[k] == states[n].conns[k]
    ensures forall r: Room :: Member(r, k) in states[m].members <==> Member(r, k) in states[n].members
    decreases m
  {
    if n < m {
      GoneStaysGone(states, events, n, m - 1, k);
      RunKeepsInv(states, events, m - 1);
      assert StepAt(states, events, m - 1);
      GoneIsQuiet(states[m - 1], events[m - 1], k);
    }
  }

  /** The message loop was stopped between a join's membership write and its return. */
  ghost predicate TornAt(states: seq<State>, events: seq<Event>, i: nat, k: Conn, r: Room)
    requires i < |events| && |states| == |events| + 1
  {
    && events[i] == StopLoop(k) && k in states[i].conns
    && states[i].conns[k].lock.JoinLanded? && states[i].conns[k].lock.room == r
  }

  lemma {:induction false} TornExactly(states: seq<State>, events: seq<Event>, n: nat, k: Conn, r: Room)
    requires IsRun(states, events) && n < |states|
    ensures Torn(k, r) in states[n].log <==> exists i | 0 <= i < n :: TornAt(states, events, i, k, r)
  {
    if n > 0 {
      TornExactly(states, events, n - 1, k, r);
      assert StepAt(states, events, n - 1);
      TornByStep(states[n - 1], events[n - 1], k, r);
      if TornAt(states, events, n - 1, k, r) { assert Torn(k, r) in states[n].log; }
    }
  }

  lemma TornByStep(st: State, e: Event, k: Conn, r: Room)
    requires Enabled(st, e)
    ensures Torn(k, r) in Step(st, e).log <==>
      || Torn(k, r) in st.log
      || (e == StopLoop(k) && st.conns[k].lock.JoinLanded? && st.conns[k].lock.room == r)
  {
  }

  /** Once handle_connection has returned, now and for the rest of the run, the connection is in a
      room exactly when its loop was stopped between that room's membership write and the return
      of the join: with no join torn that way, it is in no room and never will be. */
  lemma GoneMemberExactly(states: seq<State>, events: seq<Event>, n: nat, m: nat, k: Conn, r: Room)
    requires IsRun(states, events) && n <= m < |states| && k in states[n].conns
    requires states[n].conns[k].phase == Gone && states[n].conns[k].lock == Free
    ensures Member(r, k) in states[m].members <==> exists i | 0 <= i < n :: TornAt(states, events, i, k, r)
  {
    GoneStaysGone(states, events, n, m, k);
    RunKeepsInv(states, events, n);
    assert ConnOk(states[n], k);
    TornExactly(states, events, n, k, r);
  }

  /** A run that tears a join: the connection is gone and its membership is not. */
  lemma TornJoinOutlivesConnection() returns (states: seq<State>, events: seq<Event>)
    ensures IsRun(states, events)
    ensures var last := states[|events|];
      0 in last.conns && last.conns[0].phase == Gone && last.conns[0].joined == {} && Member("r", 0) in last.members
  {
    var landed := LandedExample();
    var s5, s6, s7 := StopAndClean(landed.0[4]);
    states := landed.0 + [s5, s6, s7];
    events := landed.1 + [StopLoop(0), CleanBegin(0), CleanEnd(0)];
    forall i | 0 <= i < |events| ensures StepAt(states, events, i) {
      if i < 4 { assert StepAt(landed.0, landed.1, i); }
    }
  }

  lemma StopAndClean(st: State) returns (s5: State, s6: State, s7: State)
    requires st.conns == map[0 := Connection("u", {}, JoinLanded("r", 0, 0), Serving, {}, {})] && st.members == {Member("r", 0)}
    ensures Enabled(st, StopLoop(0)) && s5 == Step(st, StopLoop(0))
    ensures Enabled(s5, CleanBegin(0)) && s6 == Step(s5, CleanBegin(0))
    ensures Enabled(s6, CleanEnd(0)) && s7 == Step(s6, CleanEnd(0))
    ensures s7.conns == map[0 := Connection("u", {}, Free, Gone, {"r"}, {})] && s7.members == st.members
  {
    s5 := Step(st, StopLoop(0));
    assert s5.conns[0].tornJoins == {"r"} && s5.conns.Keys == {0};
    assert s5.conns == map[0 := Connection("u", {}, Free, Stopped, {"r"}, {})];
    s6 := Step(s5, CleanBegin(0));
    assert s6.conns == map[0 := Connection("u", {}, Cleaning({}), CleaningUp, {"r"}, {})];
    s7 := Step(s6, CleanEnd(0));
  }

  lemma LandedExample() returns (run: (seq<State>, seq<Event>))
    ensures IsRun(run.0, run.1) && |run.1| == 4
    ensures var last := run.0[4];
      && last.conns == map[0 := Connection("u", {}, JoinLanded("r", 0, 0), Serving, {}, {})]
      && last.members == {Member("r", 0)}
  {
    var events := [Connect(0, "u"), JoinFrame(0, "r"), JoinAllowed(0), JoinLands(0)];
    var s1 := Step(EMPTY, events[0]);
    var s2 := Step(s1, events[1]);
    var s3 := Step(s2, events[2]);
    var s4 := Step(s3, events[3]);
    run := ([EMPTY, s1, s2, s3, s4], events);
  }
}
