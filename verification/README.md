# 3tears, verified cores

A Dafny model of the parts of the 3tears platform whose correctness depends on interleavings, on
long runs or on every possible input, with proofs of what they promise.

| module | what it models |
|---|---|
| `HitlProtocol`, `Hitl` | the operator-session manager: bounded slots on one display, reservations made under a lock and browser work done outside it |
| `RoomProtocol`, `Rooms` | rooms on the websocket handler: joins, leaves, broadcasts, evictions from outside and disconnects over any number of connections |
| `Liveness` | one connection's message loop and heartbeat side by side |
| `RateLimit` | the message loop's rate window |
| `Retention` | grandfather-father-son selection and repeated pruning of a growing history |
| `SqlFilter` | the streaming filter for extension comments in a SQL dump |
| `ReadAhead` | the byte-bounded buffer between an archive reader and a restore tool |
| `ClusterProtocol`, `Cluster`, `SetKeys` | creating, deleting and pruning cluster backup sets on an object store, with crashes |
| `ProfileCache` | Slack's profile cache: recency, freshness and backoff |
| `Splitter`, `SlackBlocks` | splitting long text, and rendering markdown as Slack blocks |
| `Selective` | planning and applying a selective restore |
| `WriteBuffer` | the conversation write buffer |
| `Uuid7` | the uuid7 cutoff of the drift comparison |

Concurrent code is modelled as a protocol. A state and an event datatype, `Enabled` and `Step` give
one atomic step for each stretch of code between two awaits, a run is any interleaving of enabled
steps, and the main results are about every state of every run. Beside a protocol stands a class that
has the source's own fields: session objects with their tabs, the current session and the lock; each
connection's `joined_rooms` and lock, and the memberships. What a suspended call remembers is passed to
its next method. The protocol's state is a ghost there, tied to the fields by `Valid`, and each method is
proved to change the fields as its step says, so every state of the class is one some run reaches.
Loops are methods proved against a function of the whole input, and what the source promises is
proved about that function.

Four places where the code and its documentation differ; the model follows the code.

* The rate limit is documented as a sliding window (`packages/channels/src/threetears/channels/websocket.py:572`).
  The code resets a window once it has run its length, so up to twice the limit passes within one
  window's length: `RateLimit.AtMostTwiceTheLimit` and `RateLimit.TwiceTheLimitIsReached`.
* The delta's documentation says the role is overwritten with the most recent one
  (`packages/conversations/src/threetears/conversations/buffer.py:97-100`). The code keeps the role of
  the first message to reach the newest time: `WriteBuffer.FoldExactly`.
* `stop` is documented to flush and then refuse messages
  (`packages/conversations/src/threetears/conversations/buffer.py:198-202`). The code refuses first, which is
  what `WriteBuffer.DrainedAfterStop` rests on.
* The cutoff's documentation claims every moment (`packages/backup/src/threetears/backup/compare.py:65-72`).
  The mask makes it wrong before the epoch: `Uuid7.CutoffExactly` gives the exact range.

Some promises hold only under a condition. Each has its exact condition, and where it matters a run that
shows it fail:

* Closing a session releases every context of it: `HitlProtocol.ReleasedExactly`, with
  `HitlProtocol.StaleOpenOutlivesClose`.
* A connection that is gone is in no room: `RoomProtocol.GoneMemberExactly`, with
  `RoomProtocol.TornJoinOutlivesConnection`.
* While any object of a set being deleted remains, its manifest remains:
  `ClusterProtocol.ManifestOutlivesExactly` and `ClusterProtocol.StraysAreUnreportedDumps`, with
  `ClusterProtocol.StrayOutlivesItsManifest`.
* Producer and consumer never wait on each other: `ReadAhead.DeadlockExactly`.
* A second restore plan finds nothing to do: `Selective.PlanningAgain`.
* A blank line separates: `SlackBlocks.BlankLineSeparates`.

`dafny verify dfyconfig.toml` checks everything.

## Model

| member | source | states |
|---|---|---|
| `HitlProtocol.StepKeepsInv` | packages/scrape/sidecar/hitl.py:743-950 | Every atomic step any call can take (open, open_tab, complete_tab, close, reap, and what the browser does to them) keeps the invariant tying slots, lock, tab records, calls in flight and the disposal log together |
| `HitlProtocol.RunKeepsInv` | packages/scrape/sidecar/hitl.py:694-1002 | The invariant holds at every state of every interleaving from an empty manager |
| `HitlProtocol.ReachableStep` | packages/scrape/sidecar/hitl.py:743-950 | What one step of the protocol reaches from a reachable state is reachable, so the results over runs hold of every state a manager can be in |
| `HitlProtocol.SlotsNeverExceeded` | packages/scrape/sidecar/hitl.py:492-494 | In every interleaving, including opens that fail or are cancelled, reservations plus tabs never exceed max_slots |
| `HitlProtocol.ExactlyOneOwner` | packages/scrape/sidecar/hitl.py:774-863 | At every moment each context the browser handed back has exactly one owner (in-flight opener, tab record, completer, or released), read off the live state, and at most one dispose attempt |
| `HitlProtocol.OnlyHandedBackDisposed` | packages/scrape/sidecar/hitl.py:936-950 | A context nobody was handed is never disposed |
| `HitlProtocol.ReleasedExactly` | packages/scrape/sidecar/hitl.py:774-950 | With its session idle, whatever other sessions are doing, the context opened for a slot has been released exactly once if, after the reservation, a close of the session took the lock or the tab was completed, and not at all otherwise |
| `HitlProtocol.DisposedExactly` | packages/scrape/sidecar/hitl.py:936-1002 | A context is released by at most one event of the run; a dispose was attempted if and only if that event had a browser and skipped if and only if it had none |
| `HitlProtocol.IdleOutcome` | packages/scrape/sidecar/hitl.py:926-950 | In any state with the session idle, a context was released once if and only if it is not in its tab record, and one that is has a slot no close has seen |
| `HitlProtocol.ClosingReleasesExactlyOnce` | packages/scrape/sidecar/hitl.py:882-934 | If a slot was reserved before a close of its session took the lock, then once the session is idle exactly one event has released its context, attempting a dispose if and only if it had a browser |
| `HitlProtocol.StaleOpenOutlivesClose` | packages/scrape/sidecar/hitl.py:774-789 | A concrete run in which an open_tab that reaches the lock after its session closed leaves a live context nothing will dispose: the case ReleasedExactly excludes |
| `HitlProtocol.OpenerReservedItsSlot` | packages/scrape/sidecar/hitl.py:774-789 | Every opener still in flight works for the slot its own reservation took earlier in the run |
| `HitlProtocol.RollBackFreesItsOwnSlot` | packages/scrape/sidecar/hitl.py:791-802 | A failed or cancelled open gives back exactly the slot it reserved: one slot if the reservation is still there, none otherwise, every other tab untouched |
| `HitlProtocol.SessionIsFixed` | packages/scrape/sidecar/hitl.py:694-741 | Token, lifetime and slot count of a session never change in any run, so its TTL is hard |
| `HitlProtocol.SessionIsAsOpened` | packages/scrape/sidecar/hitl.py:705-741 | For the rest of every run a session has the token and slot count its open() asked for, never more tabs than that, and the expiry set when that open() began |
| `HitlProtocol.ClosedForGood` | packages/scrape/sidecar/hitl.py:926-934 | A session whose close cleared it is never the current one again |
| `Hitl.SessionManager.constructor` | packages/scrape/sidecar/hitl.py:579-642 | No session, the lock free, and the protocol at its start |
| `Hitl.SessionManager.Authorize` | packages/scrape/sidecar/hitl.py:658-692 | Resolves exactly the current session, with its own token, inside its lifetime, whether or not the reaper ran |
| `Hitl.SessionManager.OwnsDisplay` | packages/scrape/sidecar/hitl.py:644-656 | True exactly while the current session is inside its lifetime |
| `Hitl.SessionManager.Open` | packages/scrape/sidecar/hitl.py:705-717 | Refused exactly while a live session exists; an expired one is handed on to be closed with the lock held; the manager's fields stay those of a reachable protocol state |
| `Hitl.SessionManager.RecordSession` | packages/scrape/sidecar/hitl.py:722-741 | The new session object has the id, token, slot count and expiry of its open() and no tabs; it becomes current and the lock is free |
| `Hitl.SessionManager.ReserveTab` | packages/scrape/sidecar/hitl.py:774-789 | On a session object that may be stale, each refusal exactly when its cause holds and changing nothing; otherwise only this session's record of this tab is added |
| `Hitl.SessionManager.ReleaseReservation` | packages/scrape/sidecar/hitl.py:992-995 | Only the opener's own record can go, and it never holds a context |
| `Hitl.SessionManager.CommitTab` | packages/scrape/sidecar/hitl.py:804-822 | Fills the record exactly when the reservation survived, and then it was an empty one; otherwise the context is disposed once with the lock kept |
| `Hitl.SessionManager.CompleteTab` | packages/scrape/sidecar/hitl.py:840-843 | The pop is the claim: it succeeds exactly when the tab is there and hands over exactly its context |
| `Hitl.SessionManager.DropCompleted` | packages/scrape/sidecar/hitl.py:862-867 | A dispose is attempted exactly when there is a context and a browser |
| `Hitl.SessionManager.CloseSession` | packages/scrape/sidecar/hitl.py:888-899 | The given session object, else the current one, else only the display, with the lock held |
| `Hitl.SessionManager.Reap` | packages/scrape/sidecar/hitl.py:909-920 | Closes the current session exactly when its lifetime has passed, else changes nothing |
| `Hitl.SessionManager.DropListedTab` | packages/scrape/sidecar/hitl.py:926-950 | The record a tab was listed with is still there when its turn comes; its context is disposed exactly if there is one and a browser |
| `Hitl.SessionManager.ClearTabs` | packages/scrape/sidecar/hitl.py:930-933 | That session's tabs are cleared, and the current session is forgotten only if it is the same object |
| `Hitl.SessionManager.EndCall` | packages/scrape/sidecar/hitl.py:888-899 | A call that ends inside the lock frees it, and touches nothing else |
| `RoomProtocol.StepKeepsInv` | packages/channels/src/threetears/channels/websocket.py:1521-1842 | Every step of frames, evictions, cancellations and cleanup keeps the invariant between joined_rooms, memberships, locks and the log |
| `RoomProtocol.RunKeepsInv` | packages/channels/src/threetears/channels/websocket.py:1365-1842 | The invariant holds at every state of every interleaving over any number of connections |
| `RoomProtocol.ReachableStep` | packages/channels/src/threetears/channels/websocket.py:1365-1842 | What one step reaches from a reachable state is reachable, so the results over runs hold of every state a handler can be in |
| `RoomProtocol.LockFreeMeansAgreement` | packages/channels/src/threetears/channels/websocket.py:1527-1549 | Whenever a serving connection's room lock is free, its joined_rooms equals the fanout's memberships for it; after its loop stopped, up to exactly the joins or leaves torn by the cancellation |
| `RoomProtocol.JoinJoins` | packages/channels/src/threetears/channels/websocket.py:1497-1530 | From a join frame to its lock's next release in a serving connection, whatever interleaves: the room is joined on both accounts if and only if its gates allowed it or it already was, and no other room changes |
| `RoomProtocol.LeaveLeaves` | packages/channels/src/threetears/channels/websocket.py:1532-1549 | From a leave frame to its lock's next release in a serving connection: exactly that room is left, on both accounts |
| `RoomProtocol.OustedIsOut` | packages/channels/src/threetears/channels/websocket.py:1747-1842 | From a revocation or a fresh decision to its lock's next release: the connection is out of exactly that room, on both accounts, if it was revoked or the gates refused it, and otherwise its rooms are as they were |
| `RoomProtocol.BroadcastsComeFromMembers` | packages/channels/src/threetears/channels/websocket.py:1584-1635 | Every op or transient broadcast comes from a connection that is a member at that moment, by its own account and by the fanout's, and is logged |
| `RoomProtocol.EvictedReturnsOnlyAfresh` | packages/channels/src/threetears/channels/websocket.py:1747-1837 | An evicted connection is in the room again only through a later join whose frame took the lock, and whose gates answered, after the eviction |
| `RoomProtocol.EvictionIsLogged` | packages/channels/src/threetears/channels/websocket.py:1835-1837 | The eviction that EvictedReturnsOnlyAfresh speaks of is the step that removed the membership, and stays in the log |
| `RoomProtocol.LogOnlyGrows` | packages/channels/src/threetears/channels/websocket.py:1747-1805 | The log is never rewritten |
| `RoomProtocol.GoneStaysGone` | packages/channels/src/threetears/channels/websocket.py:739-760 | After handle_connection returned, nothing in the rest of the run changes the connection or its memberships |
| `RoomProtocol.TornExactly` | packages/channels/src/threetears/channels/websocket.py:806-811 | The log records a torn join exactly when the loop was stopped between that join's membership write and its return |
| `RoomProtocol.GoneMemberExactly` | packages/channels/src/threetears/channels/websocket.py:739-760 | After handle_connection returned, now and for the rest of the run, the connection is in a room if and only if its loop was stopped between that room's membership write and the join's return |
| `RoomProtocol.TornJoinOutlivesConnection` | packages/channels/src/threetears/channels/websocket.py:806-811 | A concrete run that tears a join that way: the connection is gone and its membership is not |
| `Rooms.RoomHandler.constructor` | packages/channels/src/threetears/channels/websocket.py:677-677 | No connections and no memberships |
| `Rooms.RoomHandler.Register` | packages/channels/src/threetears/channels/websocket.py:727-731 | A new connection object, in no room, its lock free |
| `Rooms.RoomHandler.BeginFrame` | packages/channels/src/threetears/channels/websocket.py:1365-1367 | A join or leave frame runs with the connection's room lock held |
| `Rooms.RoomHandler.JoinDecided` | packages/channels/src/threetears/channels/websocket.py:1525-1528 | join_room is called exactly for an allowed room not yet joined; otherwise only the lock changes, and it is free |
| `Rooms.RoomHandler.JoinWrites` | packages/channels/src/threetears/channels/websocket.py:1529-1529 | Exactly this membership is added, while joined_rooms waits for the return |
| `Rooms.RoomHandler.FinishJoin` | packages/channels/src/threetears/channels/websocket.py:1530-1530 | With the lock free again joined_rooms is exactly the memberships, and the room is in both |
| `Rooms.RoomHandler.LeaveWrites` | packages/channels/src/threetears/channels/websocket.py:1548-1548 | leave_room removes exactly this membership, for a leave frame, an eviction or the cleanup |
| `Rooms.RoomHandler.FinishLeave` | packages/channels/src/threetears/channels/websocket.py:1549-1549 | The room is in neither joined_rooms nor the memberships |
| `Rooms.RoomHandler.BeginSend` | packages/channels/src/threetears/channels/websocket.py:1584-1590 | Goes on to the gates exactly when the room is joined; a refusal changes nothing |
| `Rooms.RoomHandler.SendToRoom` | packages/channels/src/threetears/channels/websocket.py:1591-1603 | The sender is still in the room by both accounts when the frame goes out, although it was checked before the gates were asked |
| `Rooms.RoomHandler.RevokeOne` | packages/channels/src/threetears/channels/websocket.py:1748-1754 | Evicts exactly that user's connection that is in the room: the room leaves joined_rooms, under the lock, before any membership is touched |
| `Rooms.RoomHandler.ReevaluateOne` | packages/channels/src/threetears/channels/websocket.py:1783-1786 | Asks the gates again exactly for connections in the room |
| `Rooms.RoomHandler.Redecided` | packages/channels/src/threetears/channels/websocket.py:1787-1799 | After the answer the room is in joined_rooms exactly if it was allowed; a refusal, or a gate that raised, keeps the lock to evict |
| `Rooms.RoomHandler.LoopStops` | packages/channels/src/threetears/channels/websocket.py:806-811 | A frame in flight lets go of the lock, an eviction keeps it; bookkeeping and memberships are as the cancelled frame left them |
| `Rooms.RoomHandler.BeginCleanup` | packages/channels/src/threetears/channels/websocket.py:745-747 | The rooms to leave are all of joined_rooms, which is then empty |
| `Rooms.RoomHandler.FinishCleanup` | packages/channels/src/threetears/channels/websocket.py:758-760 | The connection is gone and in a room exactly by a join torn before |
| `Liveness.EndedOnceAndForAll` | packages/channels/src/threetears/channels/websocket.py:246-256 | In every interleaving of message loop and heartbeat the ending is claimed at most once and no frame read after the claim is dispatched |
| `Liveness.SilenceMeansSilence` | packages/channels/src/threetears/channels/websocket.py:844-879 | A close for silence comes only when no frame was read since the tick before, so a peer heard from between every two ticks is never closed for silence |
| `Liveness.NotSilentAtFirstTick` | packages/channels/src/threetears/channels/websocket.py:844-879 | Nor is any peer on the first tick |
| `Liveness.SilentPeerIsEnded` | packages/channels/src/threetears/channels/websocket.py:975-986 | Two ticks that find the loop idle with no frame between end the connection by the second, with close code 1011 of section 7.4.1 of RFC 6455 unless access expired first |
| `Liveness.FrameExactly` | packages/channels/src/threetears/channels/websocket.py:1096-1130 | In every run: a frame is not handled once the connection is ending; under an expired credential it is not handled and ends the connection with 1008; otherwise it is handled as its contents say |
| `Liveness.TickExactly` | packages/channels/src/threetears/channels/websocket.py:844-879 | In every run: a tick ends the connection with 1008 exactly for an expired credential, with 1011 exactly when the loop is idle and no frame came since the last ping, and pings exactly otherwise; busy and silent are read off the events |
| `Liveness.BusyExactly` | packages/channels/src/threetears/channels/websocket.py:1096-1130 | Until the connection is ending the handling flag says exactly whether the last frame taken is still being handled, by the events of the run |
| `Liveness.SilentExactly` | packages/channels/src/threetears/channels/websocket.py:844-879 | The heard flag is down exactly when a ping went out and no frame has come since, by the events of the run |
| `Liveness.OtherwiseNotEnded` | packages/channels/src/threetears/channels/websocket.py:874-879 | Nothing else ends a connection except a ping that could not be sent, which always does, with 1011 |
| `Liveness.RunKeepsInv` | packages/channels/src/threetears/channels/websocket.py:844-1151 | Claims, silence and pings stay in order over every run |
| `Liveness.Connection.BeginEnding` | packages/channels/src/threetears/channels/websocket.py:246-256 | Only the first caller gets the ending |
| `Liveness.Connection.OnFrame` | packages/channels/src/threetears/channels/websocket.py:1096-1130 | The loop from a frame's arrival to its next await, as the protocol step that FrameExactly describes |
| `Liveness.Connection.OnTick` | packages/channels/src/threetears/channels/websocket.py:844-879 | The heartbeat from waking to its next await, as the protocol step that TickExactly describes |
| `Liveness.Connection.OnPing` | packages/channels/src/threetears/channels/websocket.py:874-879 | A ping that cannot be delivered claims the ending |
| `RateLimit.Limit` | packages/channels/src/threetears/channels/websocket.py:1093-1151 | The loop's two counters let through exactly the arrivals of the window specification, which AdmittedExactly gives by arrival times alone |
| `RateLimit.AdmittedExactly` | packages/channels/src/threetears/channels/websocket.py:1139-1151 | By arrival times alone: an arrival passes if and only if fewer than the limit came before it since its window opened |
| `RateLimit.FirstExactly` | packages/channels/src/threetears/channels/websocket.py:1139-1141 | A window reaches back to the last arrival a full length after the opening before it, or to the start |
| `RateLimit.OpenersPass` | packages/channels/src/threetears/channels/websocket.py:1139-1151 | With a limit of one or more, whoever opens a window passes, however long the pause before |
| `RateLimit.AtMostTwiceTheLimit` | packages/channels/src/threetears/channels/websocket.py:1131-1151 | In any half-open interval one window long at most twice the limit gets through, for any arrival times and any open window |
| `RateLimit.TwiceTheLimitIsReached` | packages/channels/src/threetears/channels/websocket.py:1131-1151 | The bound is tight for every limit and window: two bursts inside one window's length both pass |
| `Retention.Select` | packages/backup/src/threetears/backup/retention.py:92-118 | The method's decision is the specification's, for every input; the lemmas about Selection say what that is |
| `Retention.FillDict` | packages/backup/src/threetears/backup/retention.py:120-133 | The loop's dict holds each period's newest key in the order periods are met, for exactly the records the tier keeps |
| `Retention.PeriodKeepers` | packages/backup/src/threetears/backup/retention.py:120-135 | The dict-filling loop yields exactly the keys of the tier's scan |
| `Retention.SelectionPartitions` | packages/backup/src/threetears/backup/retention.py:98-118 | Keep and delete are a partition of the input, both with their instants descending |
| `Retention.SelectionKeepsExactly` | packages/backup/src/threetears/backup/retention.py:98-135 | By instants and keys alone: a record is kept if and only if, for some tier, no record of its period was taken later and fewer than the tier's count of periods have a later record |
| `Retention.LaterInPeriodWins` | packages/backup/src/threetears/backup/retention.py:120-135 | A record with a later one in its period is never one of the tier's keepers |
| `Retention.LatestIsKept` | packages/backup/src/threetears/backup/retention.py:98-135 | If any tier keeps anything, the latest backup is kept |
| `Retention.SelectionBounded` | packages/backup/src/threetears/backup/retention.py:98-118 | At most daily + weekly + monthly records are kept |
| `Retention.SelectionMonotone` | packages/backup/src/threetears/backup/retention.py:98-118 | Raising any count keeps a superset |
| `Retention.PruneCommutes` | packages/backup/src/threetears/backup/retention.py:98-135 | Pruning, adding newer records and pruning again keeps what one prune of everything keeps |
| `Retention.PruneIdempotent` | packages/backup/src/threetears/backup/retention.py:98-135 | Rerun on its own keep, retention deletes nothing |
| `Retention.AnyScheduleKeepsTheSame` | packages/backup/src/threetears/backup/retention.py:92-135 | For every schedule of arrivals and prunes over a growing history, the next prune keeps what a single prune of the full history would |
| `SqlFilter.SkipExtensionComments` | packages/backup/src/threetears/backup/drivers.py:285-300 | For every cutting of the bytes into chunks the concatenated output is the whole-input filter, which FilterExactly describes |
| `SqlFilter.FilterChunks` | packages/backup/src/threetears/backup/drivers.py:285-297 | What has been yielded and what is pending account for exactly the bytes read |
| `SqlFilter.FilterChunk` | packages/backup/src/threetears/backup/drivers.py:287-297 | One chunk settles exactly its complete lines |
| `SqlFilter.KeepLine` | packages/backup/src/threetears/backup/drivers.py:270-283 | The inner closure's verdict and flags are the line machine's, which FlagsExactly and DroppedExactly tie to line positions |
| `SqlFilter.FindNewline` | packages/backup/src/threetears/backup/drivers.py:288-290 | The first newline at or after the start, or -1 |
| `SqlFilter.FilterIdempotent` | packages/backup/src/threetears/backup/drivers.py:266-300 | Filtering twice is filtering once |
| `SqlFilter.DroppedExactly` | packages/backup/src/threetears/backup/drivers.py:270-283 | By line positions alone: a line is dropped if and only if it lies in a COMMENT ON EXTENSION statement that starts at top level, from the line that starts it to the one that ends it |
| `SqlFilter.FlagsExactly` | packages/backup/src/threetears/backup/drivers.py:270-283 | By line positions alone: skipping holds exactly inside a comment opened at top level, in_copy exactly inside a COPY opened at top level, and the machine is at top level exactly where neither is open |
| `SqlFilter.FilterExactly` | packages/backup/src/threetears/backup/drivers.py:266-300 | The whole output, without the machine: exactly the lines outside every top-level extension comment, in order, each with its newline if it had one |
| `SqlFilter.CommentsBeforeCopyDropped` | packages/backup/src/threetears/backup/drivers.py:277-279 | Before any COPY header every line that starts an extension comment is dropped |
| `SqlFilter.EndsStatementExactly` | packages/backup/src/threetears/backup/drivers.py:275-278 | A statement ends exactly on a line whose last byte that is not whitespace is a semicolon |
| `SqlFilter.RStripExactly` | packages/backup/src/threetears/backup/drivers.py:275-280 | rstrip removes trailing whitespace, all of it and nothing else |
| `SqlFilter.CopyBlockPasses` | packages/backup/src/threetears/backup/drivers.py:270-283 | On bytes: a COPY block at top level passes byte for byte whatever its rows say, what precedes it is filtered on its own and what follows it as if it stood alone |
| `SqlFilter.FilterFrom` | packages/backup/src/threetears/backup/drivers.py:266-300 | Whole lines that end at top level are filtered apart from whatever follows |
| `ReadAhead.RunKeepsInv` | packages/backup/src/threetears/backup/process.py:306-407 | Byte count and flow invariants hold at every state of every interleaving of producer and consumer |
| `ReadAhead.BytesAreBounded` | packages/backup/src/threetears/backup/process.py:306-331 | The counter is the summed chunk lengths and overruns max_bytes by less than the newest chunk |
| `ReadAhead.DeliveredInOrder` | packages/backup/src/threetears/backup/process.py:341-374 | Delivered chunks are a prefix of the source; end of stream only after all of it; a source failure only after every chunk before it |
| `ReadAhead.DeadlockExactly` | packages/backup/src/threetears/backup/process.py:306-331 | The two can wait on each other in some run if and only if max_bytes is not positive and there is something to send |
| `ReadAhead.WaitsExactly` | packages/backup/src/threetears/backup/process.py:306-338 | In every run the producer goes on exactly while the bytes buffered are below max_bytes or the buffer is closed, the consumer exactly while something is buffered or it is closed, and it is closed exactly once one of them is done |
| `ReadAhead.AlwaysProgress` | packages/backup/src/threetears/backup/process.py:306-374 | With a positive window, a consumer that still reads is never stuck: some step is possible |
| `ReadAhead.StepsLeft` | packages/backup/src/threetears/backup/process.py:306-407 | Every run the consumer does not cut short takes four steps per chunk and four more, less what is still to do, so none is longer |
| `ReadAhead.EveryRunDelivers` | packages/backup/src/threetears/backup/process.py:341-407 | With a positive window, such a run that can go no further has delivered the whole source |
| `ReadAhead.ReadAheadBuffer.constructor` | packages/backup/src/threetears/backup/process.py:290-305 | An empty open buffer |
| `ReadAhead.ReadAheadBuffer.PutChunk` | packages/backup/src/threetears/backup/process.py:306-314 | Appends unless closed, and keeps the bound |
| `ReadAhead.ReadAheadBuffer.GetChunk` | packages/backup/src/threetears/backup/process.py:316-331 | Chunks first in order; once drained and closed, the failure or the end |
| `ReadAhead.ReadAheadBuffer.CloseBuffer` | packages/backup/src/threetears/backup/process.py:333-338 | Closing records the failure and drops nothing |
| `ClusterProtocol.CreateScriptCreates` | packages/backup/src/threetears/backup/cluster.py:273-403 | The writes of a creation all go to its own keys, the manifest last and naming only what was written before it |
| `ClusterProtocol.DeleteScriptDeletes` | packages/backup/src/threetears/backup/cluster.py:544-549 | The deletes of a set remove everything the manifest names before the manifest |
| `ClusterProtocol.StepKeepsInv` | packages/backup/src/threetears/backup/cluster.py:260-549 | Every store operation of every process, with a crash possible before any of them, keeps the invariant |
| `ClusterProtocol.RunKeepsInv` | packages/backup/src/threetears/backup/cluster.py:237-550 | The invariant holds over every run of creations and deletions |
| `ClusterProtocol.ManifestsAreComplete` | packages/backup/src/threetears/backup/cluster.py:391-403 | A manifest names at least one database and only stored objects until a delete of its own set begins |
| `ClusterProtocol.DeleteCanAlwaysBeRerun` | packages/backup/src/threetears/backup/cluster.py:533-550 | While anything a manifest named is stored the manifest is too, so a delete cut short can be run again; what it did not name is the next rows' subject |
| `ClusterProtocol.StrayExactly` | packages/backup/src/threetears/backup/cluster.py:544-601 | In every run, once a set's manifest was written and is gone, a key of the set is stored if and only if its creation wrote it and the manifest does not name it |
| `ClusterProtocol.StraysAreUnreportedDumps` | packages/backup/src/threetears/backup/cluster.py:544-601 | Said of the creation: what is left is exactly the dumps that landed for databases it did not report as dumped |
| `ClusterProtocol.ManifestOutlivesExactly` | packages/backup/src/threetears/backup/cluster.py:544-549 | While any object of a set remains its manifest remains, if and only if the manifest is still there or names everything else the creation wrote |
| `ClusterProtocol.StrayOutlivesItsManifest` | packages/backup/src/threetears/backup/cluster.py:544-601 | A concrete run that leaves one: a dump that landed before its attempt failed is stored after the set's finished delete, with the manifest gone |
| `ClusterProtocol.FinishedDeleteLeavesOnlyStrays` | packages/backup/src/threetears/backup/cluster.py:533-550 | After a finished delete the manifest is gone and what is stored under the set is exactly the written dumps the manifest did not name |
| `Cluster.ClusterBackup.TakeDatabase` | packages/backup/src/threetears/backup/cluster.py:301-381 | The retry loop's outcome fits the attempts, and the store gains exactly the dumps its attempts stored |
| `Cluster.ClusterBackup.CreateBackup` | packages/backup/src/threetears/backup/cluster.py:257-403 | Databases are taken in enumeration order; dumps and failures are exactly theirs; the store is the creation script run; each way of ending, a globals or manifest put that raises included, exactly when its cause holds |
| `Cluster.ClusterBackup.DeleteSet` | packages/backup/src/threetears/backup/cluster.py:533-550 | Removes exactly the manifest and what it names, refusing without permission or without a manifest |
| `Cluster.ClusterBackup.ApplyRetention` | packages/backup/src/threetears/backup/cluster.py:517-531 | Refused exactly without permission, changing nothing; otherwise exactly the rejected sets disappear with everything they name and every other object is unchanged |
| `Cluster.OutcomeIsDetermined` | packages/backup/src/threetears/backup/cluster.py:301-381 | The attempts fix the outcome, the number of tries and the sleeping |
| `Cluster.BackoffIsBounded` | packages/backup/src/threetears/backup/cluster.py:340-372 | Total backoff for a database is at most delay * (2^retries - 1) |
| `Cluster.EveryDatabaseIsAccountedFor` | packages/backup/src/threetears/backup/cluster.py:301-381 | Every database ends in exactly one of dumps and failures |
| `Cluster.DumpedMeansStored` | packages/backup/src/threetears/backup/cluster.py:554-601 | Whatever is reported as dumped was stored |
| `Cluster.ListedExactly` | packages/backup/src/threetears/backup/cluster.py:302-381 | Dumps are exactly the databases whose last attempt worked and failures exactly the others, each in enumeration order |
| `Cluster.LandedExactly` | packages/backup/src/threetears/backup/cluster.py:554-601 | A dump is left in the store for exactly the databases with an attempt that stored one, reported or not |
| `Cluster.CreationAdds` | packages/backup/src/threetears/backup/cluster.py:273-403 | A creation adds exactly the globals, the dumps that landed and, if anything was dumped, a manifest naming it; nothing of another set changes |
| `SetKeys.SetKeysAreItsOwn` | packages/backup/src/threetears/backup/cluster.py:257-284 | Globals, dumps and manifest keys of a set all carry its id in a fixed place |
| `SetKeys.DumpsKeepApart` | packages/backup/src/threetears/backup/cluster.py:574-575 | Within a set no dump overwrites the globals, the manifest or another database's dump |
| `SetKeys.DifferentSetsShareNoKey` | packages/backup/src/threetears/backup/manifest.py:34-41 | Sets with different ids never share a key, whatever their moments, databases and drivers |
| `ProfileCache.LruExactly` | packages/channels/src/threetears/channels/slack.py:318-383 | Over every sequence of lookups the cached users are exactly those with fewer than the bound others looked up since, so the bound holds and only the least recently used is evicted |
| `ProfileCache.Cache.constructor` | packages/channels/src/threetears/channels/slack.py:280-285 | An empty cache for an empty history |
| `ProfileCache.Cache.Resolve` | packages/channels/src/threetears/channels/slack.py:318-383 | After every lookup the order and every entry are the functions of the whole history; Slack is asked exactly when no entry is fresh; the profile served is the history's |
| `ProfileCache.Cache.Evict` | packages/channels/src/threetears/channels/slack.py:381-382 | The popping loop leaves the newest entries, unchanged |
| `ProfileCache.Replied` | packages/channels/src/threetears/channels/slack.py:323-378 | One reply turns the entry of a run of asks into the entry of the longer run |
| `ProfileCache.StreakExactly` | packages/channels/src/threetears/channels/slack.py:350-378 | The failure count is exactly the failures since the last answer |
| `ProfileCache.FreshExactly` | packages/channels/src/threetears/channels/slack.py:350-369 | Slack is asked again exactly 300 seconds after an answer or a permanent failure, after what Slack named held between 1 and 3600 seconds, or 15, 60 or 300 seconds after the first, second or a later failure in a row |
| `ProfileCache.GoodIsNewestAnswer` | packages/channels/src/threetears/channels/slack.py:350-378 | The good profile is the newest answer through any run of failures, and none exactly if there was none |
| `ProfileCache.UnknownExactly` | packages/channels/src/threetears/channels/slack.py:370-378 | An unknown profile is served if and only if the newest reply failed and was permanent or no answer came before it; a known one is the newest answer |
| `ProfileCache.AsksAreSpaced` | packages/channels/src/threetears/channels/slack.py:318-369 | Two asks for a cached user are separated by the whole wait FreshExactly gives, which is between 1 and 3600 seconds |
| `Splitter.JoinSplit` | packages/channels/src/threetears/channels/formatting.py:490-491 | Splitting at a separator and joining again is the identity |
| `Splitter.SplitOnNewlines` | packages/channels/src/threetears/channels/formatting.py:517-553 | Chunks are nonempty, within the limit and lie in the text in order with only newlines between them; no chunk but the last could have taken in the next line; lines are cut only beyond the limit |
| `Splitter.SplitLongText` | packages/channels/src/threetears/channels/formatting.py:473-514 | Text within the limit is a single chunk; otherwise chunks are nonempty, within the limit and lie in the text in order, blank lines inside them kept and only newlines between them left out, and no chunk but the last could have been longer |
| `Splitter.NothingButNewlinesLost` | packages/channels/src/threetears/channels/formatting.py:473-514 | The chunks in order equal the text once newlines are removed from both |
| `Splitter.ShortLinesStayWhole` | packages/channels/src/threetears/channels/formatting.py:532-546 | When no line exceeds the limit the pieces are exactly the nonempty lines: nothing is cut |
| `SlackBlocks.MarkdownToBlocks` | packages/channels/src/threetears/channels/formatting.py:99-193 | The blocks render, in order, exactly the items the lines spell, cut to 50, every one within Slack's limits |
| `SlackBlocks.ItemsFollowGrammar` | packages/channels/src/threetears/channels/formatting.py:136-193 | Lines parsed by a grammar of maximal paragraphs, blank lines, headings cut at 150, rules, fenced code and tables spell exactly the items the scanner finds |
| `SlackBlocks.EverythingParses` | packages/channels/src/threetears/channels/formatting.py:136-193 | Every sequence of lines has such a parse |
| `SlackBlocks.MessageWithinLimits` | packages/channels/src/threetears/channels/formatting.py:127-193 | Any such message has at most 50 blocks, sections of 1 to 3000 characters, headers of at most 150 and rectangular tables of at most 100 by 20 |
| `SlackBlocks.TableToBlock` | packages/channels/src/threetears/channels/formatting.py:259-289 | The table its lines spell, cell by cell: each cell is the one in its row and column or empty, at most 99 data rows and 20 columns, right alignment exactly for columns whose nonblank cells are all numeric |
| `SlackBlocks.StripPipesExactly` | packages/channels/src/threetears/channels/formatting.py:234-242 | Exactly the outer pipes of a row are removed, from both ends |
| `SlackBlocks.ColumnAlign` | packages/channels/src/threetears/channels/formatting.py:284-287 | Right exactly when some cell has text and all that do are numeric |
| `SlackBlocks.TableWithin` | packages/channels/src/threetears/channels/formatting.py:270-289 | Every table is rectangular and within the limits |
| `SlackBlocks.FlushParagraph` | packages/channels/src/threetears/channels/formatting.py:127-133 | A paragraph becomes the sections of its splitting, or nothing when blank |
| `SlackBlocks.CodeBlocks` | packages/channels/src/threetears/channels/formatting.py:148-149 | A fenced block becomes sections wrapped in fences, within the section limit with the wrapping |
| `SlackBlocks.ReadCode` | packages/channels/src/threetears/channels/formatting.py:142-147 | The lines up to the next fence, which is consumed |
| `SlackBlocks.ReadTable` | packages/channels/src/threetears/channels/formatting.py:154-158 | The maximal run of table rows |
| `SlackBlocks.BlankLineSeparates` | packages/channels/src/threetears/channels/formatting.py:136-190 | What precedes a blank line renders independently of everything that may follow it if and only if its code fences are closed |
| `Selective.MakePlan` | packages/backup/src/threetears/backup/selective.py:202-238 | Refused exactly over the bound; otherwise every row is on the list of its class, in order |
| `Selective.PlannedExactly` | packages/backup/src/threetears/backup/selective.py:208-230 | A row is an insert if and only if no live row has its key, identical if and only if the live row of its key equals it, an update if and only if that row differs |
| `Selective.PlannedInOrder` | packages/backup/src/threetears/backup/selective.py:208-230 | Each list keeps the order of the selection |
| `Selective.PlanPartitions` | packages/backup/src/threetears/backup/selective.py:208-230 | Every selected row is planned exactly once |
| `Selective.LiveTable.Execute` | packages/backup/src/threetears/backup/selective.py:262-277 | The INSERT with its ON CONFLICT clause is the upsert, also when every column is in the key; it fails exactly for a column the table lacks or a row the database rejects, changing nothing |
| `Selective.LiveTable.ExecuteAll` | packages/backup/src/threetears/backup/selective.py:262-277 | The statements run in order up to the first that fails, each upserting on what the ones before left |
| `Selective.LiveTable.Apply` | packages/backup/src/threetears/backup/selective.py:252-284 | One transaction: writes exactly write_count rows and leaves the fold of the upserts, or, exactly when one of its statements fails, changes nothing |
| `Selective.UpsertsAt` | packages/backup/src/threetears/backup/selective.py:264-277 | Each written key gets the upsert of its own row, whatever else is written |
| `Selective.UpsertsElsewhere` | packages/backup/src/threetears/backup/selective.py:264-277 | No other key is touched |
| `Selective.RestoreAgrees` | packages/backup/src/threetears/backup/selective.py:208-276 | Applied to the table it was planned on, live agrees with scratch on every selected row and keeps its own extra columns |
| `Selective.WrittenRowsAgree` | packages/backup/src/threetears/backup/selective.py:257-276 | However live changed since planning, every written row agrees after applying |
| `Selective.OthersUntouched` | packages/backup/src/threetears/backup/selective.py:208-276 | Keys not selected are untouched |
| `Selective.PlanningAgain` | packages/backup/src/threetears/backup/selective.py:208-238 | Planning again finds every row identical if and only if the live table has no columns of its own, and otherwise updates every row again |
| `WriteBuffer.FoldExactly` | packages/conversations/src/threetears/conversations/buffer.py:94-112 | A delta exists exactly for conversations with a message, counts them, and carries the newest time with the role of the first message to reach it |
| `WriteBuffer.FoldTotal` | packages/conversations/src/threetears/conversations/buffer.py:246-253 | The summed pending increments are the number of messages folded |
| `WriteBuffer.EachMessageOnce` | packages/conversations/src/threetears/conversations/buffer.py:246-289 | In every interleaving of enqueues, flushes and stop each accepted message is in exactly one batch or pending, in order |
| `WriteBuffer.AcceptedExactly` | packages/conversations/src/threetears/conversations/buffer.py:240-258 | Exactly the messages enqueued with no stop before them are accepted, in that order |
| `WriteBuffer.IncrementsAreConserved` | packages/conversations/src/threetears/conversations/buffer.py:246-289 | Increments over all batches and the pending map add up to the accepted messages |
| `WriteBuffer.DrainedAfterStop` | packages/conversations/src/threetears/conversations/buffer.py:195-213 | Once a flush follows the stop, nothing is pending then or ever |
| `WriteBuffer.ConversationDelta.constructor` | packages/conversations/src/threetears/conversations/buffer.py:78-92 | An empty delta |
| `WriteBuffer.ConversationDelta.Merge` | packages/conversations/src/threetears/conversations/buffer.py:94-112 | One message folded in |
| `WriteBuffer.ConversationWriteBuffer.constructor` | packages/conversations/src/threetears/conversations/buffer.py:152-179 | An empty buffer |
| `WriteBuffer.ConversationWriteBuffer.Enqueue` | packages/conversations/src/threetears/conversations/buffer.py:240-258 | The deltas stay the fold of the open messages and the count their number; only the buffer's own deltas change; a flush is due exactly at the threshold |
| `WriteBuffer.ConversationWriteBuffer.TakeBatch` | packages/conversations/src/threetears/conversations/buffer.py:275-280 | The batch is the fold of everything pending, the buffer starts afresh and shares no delta with it |
| `WriteBuffer.ConversationWriteBuffer.BeginStop` | packages/conversations/src/threetears/conversations/buffer.py:207-209 | Only the first stop goes on to drain; later messages are dropped |
| `Uuid7.UpperBound` | packages/backup/src/threetears/backup/compare.py:65-79 | The or-assignments build the masked timestamp above the largest low bits a uuid7 can have |
| `Uuid7.BoundIsLargest` | packages/backup/src/threetears/backup/compare.py:65-79 | The bound is a uuid7 of that millisecond and no uuid7 of it is larger |
| `Uuid7.CutoffExactly` | packages/backup/src/threetears/backup/compare.py:65-79 | At or under the bound means minted at or before the moment, for every uuid7, if and only if the moment is from the epoch until 48 bits run out (or beyond with all timestamp bits set) |

## Left out

- Browser, display and VNC work in `hitl.py`: opening, exporting and disposing are steps that may fail. Only cancellation inside the browser's open is modelled. Tab and context ids are never reused, tabs are dropped in any order, and whether the display is up is not tracked.
- A dispose that raises or times out counts as an attempt; one skipped because the browser is gone is counted apart.
- Room fanout calls succeed, except that one cancelled with its message loop may already have taken effect. Authentication, access lists, presence, resume and replay are not modelled; the gates are an arbitrary answer per call.
- Frame parsing, frame size and the handlers behind a frame are one arbitrary verdict per frame in `Liveness`.
- RateLimit.Limit: the limit is a natural number and clock times are real numbers.
- Retention.Select: the calendar is not modelled, a tier's period is an arbitrary function of the instant; the set id is the number whose text it is.
- Subprocesses, compression, encryption, SQL text and snapshot export in the backup package; whether a failure is a schema-change race is an arbitrary answer per attempt.
- Cluster.ClusterBackup.CreateBackup: manifest fields other than the database names are not modelled, nor a manifest without a globals key, which no creation writes.
- SetKeys.DifferentSetsShareNoKey: for years of four digits and ids of thirty-two hex digits.
- SetKeys.DumpsKeepApart: the same, and for one driver per creation, as the source has it.
- ProfileCache.Cache.Resolve: lookups one at a time (the await on Slack lets two lookups of one user overlap), a bound that is not negative, and profiles reduced to one text; how a reply maps to profile fields is not modelled.
- Splitter.SplitLongText: for a limit of at least one; the hard-split loop does not end for zero, and no caller passes it.
- SlackBlocks.MarkdownToBlocks: the inline regular expressions and str.strip are arbitrary functions, so what they do to a line's text is not stated.
- SlackBlocks.BlankLineSeparates: takes it as given that the patterns find nothing in an empty line.
- Selective.LiveTable.Execute: constraints, types and triggers of the live table are one arbitrary answer per row; triggers that change rows are not modelled. How a selection becomes a predicate is left out; the selected rows are given.
- WriteBuffer.ConversationWriteBuffer.TakeBatch: the model ends where the batch is handed over. What applying it does to the stored conversations is left out, and so is a timer flush cancelled in the middle of its batch.
- Uuid7.UpperBound: starts from the whole millisecond; rounding in the float timestamp is left out.
- The verdict of the drift comparison and its checksums, Discord and webhook channels, chat routing, configuration, evaluation scripts and examples: they would only add easy members or are calls into other systems.
