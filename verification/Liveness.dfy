/** One connection's message loop and heartbeat running side by side: who ends the connection,
    what is dispatched once it is ending, and when a silent peer is closed. */
module Liveness {

  /** Close codes of section 7.4.1 of RFC 6455. */
  const POLICY_VIOLATION := 1008
  const INTERNAL_ERROR := 1011

  datatype Loop = Reading | Busy | LoopClosing | LoopDone
  datatype Beat = Sleeping | Pinging | BeatClosing | BeatDone

  /** What the loop does with a frame it may handle: hand it to a handler, answer it with an error
      (too large, over the rate limit, malformed), or, for a pong, nothing. */
  datatype Verdict = Dispatch | Answer | Consume

  datatype Entry =
    | Frame(dispatched: bool)            // a frame was read
    | Tick(silent: bool)                 // the heartbeat woke; `silent` when it closed for silence
    | Claim(code: int)                   // the ending was claimed, to close with this code

  /** `pinged` is the log index of the last tick that asked the peer for an answer, `claimed` that
      of the claim once the connection is ending. */
  datatype State = State(ending: bool, heard: bool, handling: bool, loop: Loop, beat: Beat,
                         pinged: nat, claimed: nat, log: seq<Entry>)

  const START := State(false, true, false, Reading, Sleeping, 0, 0, [])

  datatype Event =
    | Receive(expired: bool, verdict: Verdict)
    | HandlerReturns
    | PeerLeaves
    | LoopCloseEnds
    | Wake(expired: bool)
    | PingSent
    | PingFailed
    | BeatCloseEnds

  predicate Enabled(st: State, e: Event) {
    match e
    case Receive(_, _) => st.loop == Reading
    case HandlerReturns => st.loop == Busy
    case PeerLeaves => st.loop == Reading
    case LoopCloseEnds => st.loop == LoopClosing
    case Wake(_) => st.beat == Sleeping
    case PingSent => st.beat == Pinging
    case PingFailed => st.beat == Pinging
    case BeatCloseEnds => st.beat == BeatClosing
  }

  function Note(st: State, entry: Entry): State {
    st.(log := st.log + [entry])
  }

  /** `begin_ending` by a caller that gets it. */
  function Claimed(st: State, code: int): State {
    Note(st.(ending := true, claimed := |st.log|), Claim(code))
  }

  /** `begin_ending` by the heartbeat: only the first claim closes, a late one goes back to sleep. */
  function HeartbeatClaims(st: State, code: int): State {
    if st.ending then st.(beat := Sleeping)
    else Claimed(st.(beat := BeatClosing), code)
  }

  function Step(st: State, e: Event): State
    requires Enabled(st, e)
  {
    match e
    case Receive(expired, verdict) =>
      if st.ending then
        // the frame raced an ending already under way: not handled, and the loop reads on
        Note(st.(heard := true, handling := false), Frame(false))
      else if expired then
        Claimed(Note(st.(heard := true, handling := true, loop := LoopClosing), Frame(false)), POLICY_VIOLATION)
      else
        var busy := verdict != Consume;
        Note(st.(heard := true, handling := busy, loop := if busy then Busy else Reading), Frame(verdict == Dispatch))
    case HandlerReturns => st.(handling := false, loop := Reading)
    case PeerLeaves => st.(loop := LoopDone)
    case LoopCloseEnds => st.(loop := LoopDone)
    case Wake(expired) =>
      if st.ending then Note(st, Tick(false))
      else if expired then HeartbeatClaims(Note(st, Tick(false)), POLICY_VIOLATION)
      else if st.handling then Note(st, Tick(false))
      else if !st.heard then HeartbeatClaims(Note(st, Tick(true)), INTERNAL_ERROR)
      else Note(st.(heard := false, beat := Pinging, pinged := |st.log|), Tick(false))
    case PingSent => st.(beat := Sleeping)
    case PingFailed => HeartbeatClaims(st, INTERNAL_ERROR)
    case BeatCloseEnds => st.(beat := BeatDone)
  }

  // ---------------------------------------------------------------- the code

  class Connection {
    var ending: bool
    var heardFromPeer: bool
    var handlingFrame: bool
    var loop: Loop
    var beat: Beat
    ghost var pinged: nat
    ghost var claimedAt: nat
    ghost var log: seq<Entry>

    ghost function View(): State
      reads this
    {
      State(ending, heardFromPeer, handlingFrame, loop, beat, pinged, claimedAt, log)
    }

    constructor ()
      ensures View() == START
    {
      ending, heardFromPeer, handlingFrame, loop, beat := false, true, false, Reading, Sleeping;
      pinged, claimedAt, log := 0, 0, [];
    }

    /** Claim the ending; only the first caller gets it. */
    method BeginEnding(ghost code: int) returns (first: bool)
      modifies this`ending, this`log, this`claimedAt
      ensures ending && (first <==> !old(ending))
      ensures claimedAt == if first then |old(log)| else old(claimedAt)
      ensures log == old(log) + if first then [Claim(code)] else []
    {
      first := !ending;
      ending := true;
      if first {
        claimedAt := |log|;
        log := log + [Claim(code)];
      }
    }

    /** The message loop, from a frame's arrival to its next await. */
    method OnFrame(expired: bool, verdict: Verdict)
      requires loop == Reading
      modifies this
      ensures View() == Step(old(View()), Receive(expired, verdict))
    {
      heardFromPeer := true;
      handlingFrame := true;
      log := log + [Frame(!ending && !expired && verdict == Dispatch)];
      if ending {
        handlingFrame := false;
        return;
      }
      if expired {
        var first := BeginEnding(POLICY_VIOLATION);
        loop := LoopClosing;
        return;
      }
      if verdict == Consume {
        handlingFrame := false;
      } else {
        loop := Busy;
      }
    }

    /** The heartbeat, from waking to its next await. */
    method OnTick(expired: bool)
      requires beat == Sleeping
      modifies this
      ensures View() == Step(old(View()), Wake(expired))
    {
      if ending {
        log := log + [Tick(false)];
      } else if expired {
        log := log + [Tick(false)];
        var claimed := BeginEnding(POLICY_VIOLATION);
        if claimed { beat := BeatClosing; }
      } else if handlingFrame {
        log := log + [Tick(false)];
      } else if !heardFromPeer {
        log := log + [Tick(true)];
        var claimed := BeginEnding(INTERNAL_ERROR);
        if claimed { beat := BeatClosing; }
      } else {
        pinged := |log|;
        log := log + [Tick(false)];
        heardFromPeer := false;
        beat := Pinging;
      }
    }

    /** The ping was handed to the transport, or could not be within one interval. */
    method OnPing(delivered: bool)
      requires beat == Pinging
      modifies this
      ensures View() == Step(old(View()), if delivered then PingSent else PingFailed)
    {
      beat := Sleeping;
      if !delivered {
        var claimed := BeginEnding(INTERNAL_ERROR);
        if claimed { beat := BeatClosing; }
      }
    }
  }

  // ---------------------------------------------------------------- invariant

  ghost predicate NoFrameSince(log: seq<Entry>, i: nat) {
    forall k | i < k < |log| :: !log[k].Frame?
  }

  predicate IsClaim(entry: Entry) { entry.Claim? }

  ghost predicate ClaimInv(st: State) {
    && (st.ending ==> st.claimed < |st.log| && IsClaim(st.log[st.claimed]))
    && (forall i | 0 <= i < |st.log| && IsClaim(st.log[i]) :: st.ending && i == st.claimed)
    && (st.ending ==> forall j | st.claimed < j < |st.log| :: st.log[j] != Frame(true))
  }

  ghost predicate Inv(st: State) {
    && ClaimInv(st)
    && (!st.heard ==> st.pinged < |st.log| && st.log[st.pinged] == Tick(false) && NoFrameSince(st.log, st.pinged))
    && (forall j | 0 <= j < |st.log| && st.log[j] == Tick(true) :: SilentBefore(st.log, j))
    && (st.loop == Busy || st.loop == LoopClosing ==> st.handling)
  }

  /** Some earlier tick is followed by no frame up to `j`. */
  ghost predicate SilentBefore(log: seq<Entry>, j: nat)
    requires j < |log|
  {
    exists i | 0 <= i < j :: log[i].Tick? && forall k | i < k < j :: !log[k].Frame?
  }

  lemma ClaimsKept(st: State, e: Event)
    requires ClaimInv(st) && Enabled(st, e)
    ensures ClaimInv(Step(st, e))
  {
  }

  lemma SilenceKept(st: State, e: Event)
    requires Inv(st) && Enabled(st, e)
    ensures var st' := Step(st, e);
      forall j | 0 <= j < |st'.log| && st'.log[j] == Tick(true) :: SilentBefore(st'.log, j)
  {
    var st' := Step(st, e);
    assert st.log <= st'.log;
    forall j | 0 <= j < |st'.log| && st'.log[j] == Tick(true) ensures SilentBefore(st'.log, j) {
      if j < |st.log| {
        assert SilentBefore(st.log, j);
        SilencePersists(st.log, st'.log, j);
      } else {
        assert !st.heard;
        SilentNow(st.log, st'.log, st.pinged, j);
      }
    }
  }

  lemma SilencePersists(log: seq<Entry>, longer: seq<Entry>, j: nat)
    requires log <= longer && j < |log| && SilentBefore(log, j)
    ensures SilentBefore(longer, j)
  {
    var i :| 0 <= i < j && log[i].Tick? && forall k | i < k < j :: !log[k].Frame?;
    assert longer[i].Tick?;
    assert forall k | i < k < j :: longer[k] == log[k];
  }

  lemma SilentNow(log: seq<Entry>, longer: seq<Entry>, i: nat, j: nat)
    requires log <= longer && i < |log| == j < |longer| && log[i].Tick? && NoFrameSince(log, i)
    ensures SilentBefore(longer, j)
  {
    assert longer[i].Tick?;
    assert forall k | i < k < j :: longer[k] == log[k];
  }

  lemma StepKeepsInv(st: State, e: Event)
    requires Inv(st) && Enabled(st, e)
    ensures Inv(Step(st, e))
  {
    ClaimsKept(st, e);
    SilenceKept(st, e);
  }

  // ---------------------------------------------------------------- runs

  ghost predicate IsRun(states: seq<State>, events: seq<Event>) {
    && |states| == |events| + 1 && states[0] == START
    && forall i | 0 <= i < |events| :: StepAt(states, events, i)
  }

  predicate StepAt(states: seq<State>, events: seq<Event>, i: nat)
    requires i < |events| && |states| == |events| + 1
  {
    Enabled(states[i], events[i]) && states[i + 1] == Step(states[i], events[i])
  }

  lemma {:induction false} RunKeepsInv(states: seq<State>, events: seq<Event>, n: nat)
    requires IsRun(states, events) && n < |states|
    ensures Inv(states[n])
  {
    if n > 0 {
      RunKeepsInv(states, events, n - 1);
      assert StepAt(states, events, n - 1);
      StepKeepsInv(states[n - 1], events[n - 1]);
    }
  }

  /** The ending is claimed at most once, and no frame read after the claim is dispatched. */
  lemma EndedOnceAndForAll(states: seq<State>, events: seq<Event>, n: nat, i: nat, j: nat)
    requires IsRun(states, events) && n < |states|
    requires i < |states[n].log| && j < |states[n].log| && IsClaim(states[n].log[i])
    ensures IsClaim(states[n].log[j]) ==> i == j
    ensures i < j ==> states[n].log[j] != Frame(true)
  {
    RunKeepsInv(states, events, n);
  }

  /** A close for silence comes only when no frame was read since the tick before it: a peer heard
      from between every two ticks is never closed for silence. */
  lemma SilenceMeansSilence(states: seq<State>, events: seq<Event>, n: nat, i: nat, j: nat)
    requires IsRun(states, events) && n < |states|
    requires i < j < |states[n].log| && states[n].log[i].Tick? && states[n].log[j] == Tick(true)
    requires forall k | i < k < j :: !states[n].log[k].Tick?
    ensures forall k | i < k < j :: !states[n].log[k].Frame?
  {
    RunKeepsInv(states, events, n);
    assert SilentBefore(states[n].log, j);
  }

  /** And never on the first tick. */
  lemma NotSilentAtFirstTick(states: seq<State>, events: seq<Event>, n: nat, j: nat)
    requires IsRun(states, events) && n < |states|
    requires j < |states[n].log| && forall k | 0 <= k < j :: !states[n].log[k].Tick?
    ensures states[n].log[j] != Tick(true)
  {
    RunKeepsInv(states, events, n);
    assert states[n].log[j] == Tick(true) ==> SilentBefore(states[n].log, j);
  }

  predicate IsReceive(e: Event) { e.Receive? }

  lemma {:induction false} StaysUnheard(states: seq<State>, events: seq<Event>, a: nat, b: nat)
    requires IsRun(states, events) && a <= b < |states|
    requires forall k | a <= k < b :: !IsReceive(events[k])
    ensures states[a].ending ==> states[b].ending
    ensures !states[a].heard ==> !states[b].heard
    decreases b
  {
    if a < b {
      StaysUnheard(states, events, a, b - 1);
      assert StepAt(states, events, b - 1) && !IsReceive(events[b - 1]);
    }
  }

  /** Two ticks that find the loop idle, with no frame read in between: the connection is ending
      by the second, so a silent peer is closed by the second tick after its last frame. */
  lemma SilentPeerIsEnded(states: seq<State>, events: seq<Event>, a: nat, b: nat)
    requires IsRun(states, events) && a < b < |events|
    requires events[a].Wake? && events[b].Wake?
    requires !states[a].handling && !states[b].handling
    requires forall k | a < k < b :: !IsReceive(events[k])
    ensures states[b + 1].ending
    ensures !states[b].ending && !events[b].expired ==>
      states[b + 1].log == states[b].log + [Tick(true), Claim(INTERNAL_ERROR)]
  {
    assert StepAt(states, events, a) && StepAt(states, events, b);
    StaysUnheard(states, events, a + 1, b);
  }

  // ---------------------------------------------------------------- when a connection ends

  /** A frame is taken to a handler, or to be answered with an error. */
  predicate Takes(states: seq<State>, events: seq<Event>, a: nat)
    requires a < |events| && |states| == |events| + 1
  {
    events[a].Receive? && !states[a].ending && !events[a].expired && events[a].verdict != Consume
  }

  /** The loop is still at work on a frame it took. */
  ghost predicate BusyAt(states: seq<State>, events: seq<Event>, n: nat)
    requires n <= |events| && |states| == |events| + 1
  {
    exists a: nat | a < n :: Takes(states, events, a) && forall b | a < b < n :: events[b] != HandlerReturns
  }

  lemma BusyNext(states: seq<State>, events: seq<Event>, n: nat)
    requires n < |events| && |states| == |events| + 1
    ensures BusyAt(states, events, n + 1) <==>
      Takes(states, events, n) || (BusyAt(states, events, n) && events[n] != HandlerReturns)
  {
    if BusyAt(states, events, n) && events[n] != HandlerReturns {
      var a: nat :| a < n && Takes(states, events, a) && forall b | a < b < n :: events[b] != HandlerReturns;
      assert forall b | a < b < n + 1 :: events[b] != HandlerReturns;
    }
  }

  lemma {:induction false} BusyExactly(states: seq<State>, events: seq<Event>, n: nat)
    requires IsRun(states, events) && n < |states|
    ensures states[n].loop == Busy <==> BusyAt(states, events, n)
    ensures !states[n].ending ==> (states[n].handling <==> states[n].loop == Busy)
    ensures states[n].loop == LoopClosing ==> states[n].ending
  {
    if n > 0 {
      BusyExactly(states, events, n - 1);
      BusyNext(states, events, n - 1);
      assert StepAt(states, events, n - 1);
    }
  }

  /** The heartbeat woke and asked the peer for an answer. */
  predicate Pings(states: seq<State>, events: seq<Event>, a: nat)
    requires a < |events| && |states| == |events| + 1
  {
    events[a].Wake? && states[a + 1].beat == Pinging
  }

  /** The peer has been asked and has sent nothing since. */
  ghost predicate SilentAt(states: seq<State>, events: seq<Event>, n: nat)
    requires n <= |events| && |states| == |events| + 1
  {
    exists a: nat | a < n :: Pings(states, events, a) && forall b | a < b < n :: !IsReceive(events[b])
  }

  lemma SilentNext(states: seq<State>, events: seq<Event>, n: nat)
    requires n < |events| && |states| == |events| + 1
    ensures SilentAt(states, events, n + 1) <==>
      Pings(states, events, n) || (SilentAt(states, events, n) && !IsReceive(events[n]))
  {
    if SilentAt(states, events, n) && !IsReceive(events[n]) {
      var a: nat :| a < n && Pings(states, events, a) && forall b | a < b < n :: !IsReceive(events[b]);
      assert forall b | a < b < n + 1 :: !IsReceive(events[b]);
    }
  }

  lemma {:induction false} SilentExactly(states: seq<State>, events: seq<Event>, n: nat)
    requires IsRun(states, events) && n < |states|
    ensures !states[n].heard <==> SilentAt(states, events, n)
  {
    if n > 0 {
      SilentExactly(states, events, n - 1);
      SilentNext(states, events, n - 1);
      assert StepAt(states, events, n - 1);
    }
  }

  /** Everything a frame can lead to: once the connection is ending it is not handled; under an expired
      credential it ends the connection as a policy violation and is not handled either; otherwise it is
      handled as its contents say. */
  lemma FrameExactly(states: seq<State>, events: seq<Event>, n: nat)
    requires IsRun(states, events) && n < |events| && IsReceive(events[n])
    ensures states[n + 1].ending <==> states[n].ending || events[n].expired
    ensures states[n + 1].log == states[n].log +
      if states[n].ending then [Frame(false)]
      else if events[n].expired then [Frame(false), Claim(1008)]
      else [Frame(events[n].verdict == Dispatch)]
  {
    assert StepAt(states, events, n);
  }

  /** Everything a tick can lead to, said of the run before it: nothing once the connection is ending; a
      policy violation when the credential has expired; nothing while a frame is being handled; a close
      for silence when the peer was asked and has sent nothing; and otherwise the next question. */
  lemma TickExactly(states: seq<State>, events: seq<Event>, n: nat)
    requires IsRun(states, events) && n < |events| && events[n].Wake?
    ensures var silent := SilentAt(states, events, n) && !BusyAt(states, events, n);
      && (states[n + 1].ending <==> states[n].ending || events[n].expired || silent)
      && states[n + 1].log == states[n].log + (
           if states[n].ending then [Tick(false)]
           else if events[n].expired then [Tick(false), Claim(1008)]
           else if silent then [Tick(true), Claim(1011)]
           else [Tick(false)])
      && (Pings(states, events, n) <==>
            !states[n].ending && !events[n].expired && !BusyAt(states, events, n) && !SilentAt(states, events, n))
  {
    assert StepAt(states, events, n);
    BusyExactly(states, events, n);
    SilentExactly(states, events, n);
  }

  /** Nothing but a frame, a tick or a ping that could not be sent ends a connection, and the last always does. */
  lemma OtherwiseNotEnded(states: seq<State>, events: seq<Event>, n: nat)
    requires IsRun(states, events) && n < |events| && !IsReceive(events[n]) && !events[n].Wake?
    ensures states[n + 1].ending <==> states[n].ending || events[n] == PingFailed
    ensures states[n + 1].log == states[n].log + if !states[n].ending && events[n] == PingFailed then [Claim(1011)] else []
  {
    assert StepAt(states, events, n);
  }
}
