/** The session manager on its own state: session objects with their tabs, the current session and the
    lock. Each method is one stretch of code between two awaits; what a suspended call remembers is in its
    locals, here the methods' parameters. The protocol's state rides along as a ghost, and `Valid` ties
    the two together. */
module Hitl {
  import opened Prelude
  import opened HitlProtocol

  datatype Refusal = SlotsOccupied | BrowserNotRunning

  class HitlSession {
    const id: SessionId
    const token: nat
    const expiresAt: int
    const maxSlots: int
    var tabs: map<TabId, Option<Context>>

    constructor (id: SessionId, token: nat, expiresAt: int, maxSlots: int)
      ensures this.id == id && Shown() == Session(token, expiresAt, maxSlots, map[])
    {
      this.id, this.token, this.expiresAt, this.maxSlots := id, token, expiresAt, maxSlots;
      tabs := map[];
    }

    ghost function Shown(): Session
      reads this
    {
      Session(token, expiresAt, maxSlots, tabs)
    }
  }

  class SessionManager {
    var session: HitlSession?
    var locked: bool
    ghost var st: State
    ghost var objects: map<SessionId, HitlSession>

    ghost predicate Valid()
      reads this, objects.Values
    {
      && Reachable(st) && (locked <==> st.lock.Some?) && objects.Keys == st.sessions.Keys
      && (forall s | s in objects :: objects[s].id == s && objects[s].Shown() == st.sessions[s])
      && (session == null <==> st.current == None)
      && (session != null ==> st.current == Some(session.id) && Knows(session))
    }

    /** The session was opened here, though it may have been closed since. */
    ghost predicate Knows(target: HitlSession)
      reads this
    {
      target.id in objects && objects[target.id] == target
    }

    constructor ()
      ensures Valid() && st == EMPTY && session == null && !locked
    {
      session, locked, st, objects := null, false, EMPTY, map[];
      ReachableAtFirst();
    }

    /** Resolve a session from an id and a token: the live one, with its own token, inside its
        lifetime, and nothing else, whether or not the reaper has run. */
    method Authorize(id: SessionId, token: nat, now: int) returns (found: HitlSession?)
      requires Valid()
      ensures found != null <==> st.current == Some(id) && st.sessions[id].token == token && now < st.sessions[id].expiresAt
      ensures found != null ==> found.id == id && Knows(found)
    {
      if session == null || session.id != id || session.token != token || now >= session.expiresAt { return null; }
      return session;
    }

    method OwnsDisplay(now: int) returns (owns: bool)
      requires Valid()
      ensures owns <==> st.current.Some? && now < st.sessions[st.current.value].expiresAt
    {
      owns := session != null && now < session.expiresAt;
    }

    /** open(), from taking the lock to its first await: refused while a live session exists; an expired
        one is closed first. */
    method Open(ghost call: Call, now: int, ttl: int) returns (refused: bool, closing: HitlSession?)
      requires Valid() && !locked && call !in st.calls
      modifies this
      ensures Valid() && objects == old(objects) && session == old(session)
      ensures refused <==> st.current.Some? && now < st.sessions[st.current.value].expiresAt
      ensures closing == (if refused then null else session) && (locked <==> !refused)
      ensures st == if refused then old(st)
        else if closing == null then Step(old(st), StartDisplay(call, now + ttl))
        else Step(old(st), Close(call, closing.id, Reopening(now, now + ttl)))
    {
      if session != null && now < session.expiresAt { return true, null; }
      ghost var e := if session == null then StartDisplay(call, now + ttl) else Close(call, session.id, Reopening(now, now + ttl));
      locked := true;
      ReachableStep(st, e);
      st := Step(st, e);
      return false, session;
    }

    /** open(), once the display is up: the session is recorded and the lock released. */
    method RecordSession(ghost call: Call, id: SessionId, token: nat, expiresAt: int, maxSlots: int) returns (made: HitlSession)
      requires Valid() && call in st.calls && st.calls[call] == Starting(expiresAt) && id !in objects
      modifies this
      ensures Valid() && fresh(made) && session == made && !locked && objects == old(objects)[id := made]
      ensures made.id == id && made.token == token && made.expiresAt == expiresAt && made.maxSlots == maxSlots && made.tabs == map[]
      ensures st == Step(old(st), SessionOpened(call, id, token, maxSlots))
    {
      HolderHasLock(st, call);
      made := new HitlSession(id, token, expiresAt, maxSlots);
      session, locked, objects := made, false, objects[id := made];
      ReachableStep(st, SessionOpened(call, id, token, maxSlots));
      st := Step(st, SessionOpened(call, id, token, maxSlots));
    }

    /** open_tab(), under the lock, on a session that may be stale: a reservation is made exactly when a
        slot is free and the browser runs; a refusal changes nothing. */
    method ReserveTab(ghost call: Call, target: HitlSession, tab: TabId, browser: bool) returns (refused: Option<Refusal>)
      requires Valid() && !locked && call !in st.calls && Knows(target) && Slot(target.id, tab) !in st.trace.reserved
      modifies this, target
      ensures Valid() && objects == old(objects)
      ensures refused == Some(SlotsOccupied) <==> |old(target.tabs)| >= target.maxSlots
      ensures refused == Some(BrowserNotRunning) <==> |old(target.tabs)| < target.maxSlots && !browser
      ensures refused != None ==> st == old(st) && target.tabs == old(target.tabs)
      ensures refused == None ==>
        st == Step(old(st), Reserve(call, Slot(target.id, tab))) && target.tabs == old(target.tabs)[tab := None]
    {
      if target.maxSlots - |target.tabs| <= 0 { return Some(SlotsOccupied); }
      if !browser { return Some(BrowserNotRunning); }
      target.tabs := target.tabs[tab := None];
      ReachableStep(st, Reserve(call, Slot(target.id, tab)));
      OnlyTabsChange(st, Reserve(call, Slot(target.id, tab)));
      st := Step(st, Reserve(call, Slot(target.id, tab)));
      return None;
    }

    /** _release_reservation(): the opener's own record goes if it is still there, and it is never one
        that holds a context. */
    method ReleaseReservation(ghost call: Call, target: HitlSession, tab: TabId)
      requires Valid() && !locked && Knows(target)
      requires call in st.calls && st.calls[call] == OpenRaised(Slot(target.id, tab))
      modifies this, target
      ensures Valid() && objects == old(objects) && st == Step(old(st), RollBack(call))
      ensures target.tabs == old(target.tabs) - {tab} && (tab in old(target.tabs) ==> old(target.tabs)[tab] == None)
    {
      ReachableFacts(st, call);
      target.tabs := target.tabs - {tab};
      ReachableStep(st, RollBack(call));
      OnlyTabsChange(st, RollBack(call));
      st := Step(st, RollBack(call));
    }

    /** open_tab(), after the navigation: fill the record, or, if the session went away meanwhile, keep
        the lock and dispose the context. A record that is filled was an empty reservation. */
    method CommitTab(ghost call: Call, target: HitlSession, tab: TabId, context: Context) returns (committed: bool)
      requires Valid() && !locked && Knows(target)
      requires call in st.calls && st.calls[call] == Opened(Slot(target.id, tab), context)
      modifies this, target
      ensures Valid() && objects == old(objects) && st == Step(old(st), Commit(call))
      ensures committed <==> tab in old(target.tabs)
      ensures committed ==> old(target.tabs)[tab] == None && target.tabs == old(target.tabs)[tab := Some(context)]
      ensures !committed ==> target.tabs == old(target.tabs)
      ensures st.trace.disposals == if committed then old(st).trace.disposals else old(st).trace.disposals + multiset{context}
      ensures locked <==> !committed
    {
      ReachableFacts(st, call);
      committed := tab in target.tabs;
      if committed {
        target.tabs := target.tabs[tab := Some(context)];
      } else {
        locked := true;
      }
      ReachableStep(st, Commit(call));
      st := Step(st, Commit(call));
    }

    /** complete_tab(), under the lock: popping the record is the claim, and hands over its context. */
    method CompleteTab(ghost call: Call, target: HitlSession, tab: TabId) returns (popped: Option<Option<Context>>)
      requires Valid() && !locked && call !in st.calls && Knows(target)
      modifies this, target
      ensures Valid() && objects == old(objects) && target.tabs == old(target.tabs) - {tab}
      ensures popped == if tab in old(target.tabs) then Some(old(target.tabs)[tab]) else None
      ensures st == if popped == None then old(st) else Step(old(st), Complete(call, Slot(target.id, tab)))
    {
      if tab !in target.tabs { return None; }
      popped := Some(target.tabs[tab]);
      target.tabs := target.tabs - {tab};
      ReachableStep(st, Complete(call, Slot(target.id, tab)));
      OnlyTabsChange(st, Complete(call, Slot(target.id, tab)));
      st := Step(st, Complete(call, Slot(target.id, tab)));
    }

    /** complete_tab(), after the export ended any way it can: the popped context is disposed if there is
        one and there is a browser to ask. */
    method DropCompleted(ghost call: Call, held: Option<Context>, browser: bool) returns (disposing: bool)
      requires Valid() && call in st.calls && st.calls[call] == Exporting(held)
      modifies this
      ensures Valid() && objects == old(objects) && session == old(session) && st == Step(old(st), ExportEnds(call, browser))
      ensures disposing <==> held.Some? && browser
      ensures st.trace.disposals == if disposing then old(st).trace.disposals + multiset{held.value} else old(st).trace.disposals
    {
      ReachableFacts(st, call);
      disposing := held.Some? && browser;
      ReachableStep(st, ExportEnds(call, browser));
      st := Step(st, ExportEnds(call, browser));
    }

    /** close(): the session asked for, else the current one, else just the display. The tabs to drop are
        listed with the lock held. */
    method CloseSession(ghost call: Call, asked: HitlSession?) returns (closing: HitlSession?)
      requires Valid() && !locked && call !in st.calls && (asked != null ==> Knows(asked))
      modifies this
      ensures Valid() && objects == old(objects) && session == old(session) && locked
      ensures closing == if asked != null then asked else session
      ensures st == Step(old(st), if closing == null then CloseNothing(call) else Close(call, closing.id, Asked))
    {
      closing := if asked != null then asked else session;
      ghost var e := if closing == null then CloseNothing(call) else Close(call, closing.id, Asked);
      locked := true;
      ReachableStep(st, e);
      st := Step(st, e);
    }

    /** reap(): close the session exactly when its lifetime has passed. */
    method Reap(ghost call: Call, now: int) returns (closing: HitlSession?)
      requires Valid() && !locked && call !in st.calls
      modifies this
      ensures Valid() && objects == old(objects) && session == old(session)
      ensures closing != null <==> st.current.Some? && st.sessions[st.current.value].expiresAt <= now
      ensures closing != null ==> closing == session && locked && st == Step(old(st), Close(call, closing.id, Reaped(now)))
      ensures closing == null ==> st == old(st) && !locked
    {
      if session == null || now < session.expiresAt { return null; }
      locked := true;
      ReachableStep(st, Close(call, session.id, Reaped(now)));
      st := Step(st, Close(call, session.id, Reaped(now)));
      return session;
    }

    /** _close_locked(), one tab of the list. The record it was listed with is still there, since the lock
        has been held throughout. */
    method DropListedTab(ghost call: Call, target: HitlSession, tab: TabId, browser: bool) returns (disposing: Option<Context>)
      requires Valid() && Knows(target)
      requires call in st.calls && st.calls[call].Closing? && st.calls[call].session == target.id && tab in st.calls[call].todo
      modifies this
      ensures Valid() && objects == old(objects) && session == old(session)
      ensures tab in target.tabs && disposing == (if browser then target.tabs[tab] else None)
      ensures Enabled(old(st), DropTab(call, tab, browser)) && st == Step(old(st), DropTab(call, tab, browser))
      ensures st.trace.disposals
           == if disposing.Some? then old(st).trace.disposals + multiset{disposing.value} else old(st).trace.disposals
    {
      ReachableFacts(st, call);
      disposing := if browser then target.tabs[tab] else None;
      ReachableStep(st, DropTab(call, tab, browser));
      st := Step(st, DropTab(call, tab, browser));
    }

    /** _close_locked(), after the loop: the tabs are cleared, and the session forgotten only if it is the
        current one. */
    method ClearTabs(ghost call: Call, target: HitlSession)
      requires Valid() && Knows(target)
      requires call in st.calls && st.calls[call].Closing? && st.calls[call].session == target.id && st.calls[call].todo == {}
      modifies this, target
      ensures Valid() && objects == old(objects) && st == Step(old(st), Clear(call))
      ensures target.tabs == map[] && session == (if old(session) == target then null else old(session))
    {
      HolderHasLock(st, call);
      ClearEmptiesOne(st, call);
      ReachableStep(st, Clear(call));
      target.tabs := map[];
      session, st := if session == target then null else session, Step(st, Clear(call));
    }

    /** A call returns or raises; if it is inside an `async with` the lock is released. */
    method EndCall(ghost call: Call, holdsLock: bool)
      requires Valid() && Enabled(st, Finish(call)) && (holdsLock <==> HoldsLock(st.calls[call]))
      modifies this
      ensures Valid() && objects == old(objects) && session == old(session) && st == Step(old(st), Finish(call))
      ensures holdsLock ==> !locked
    {
      ReachableFacts(st, call);
      if holdsLock { locked := false; }
      ReachableStep(st, Finish(call));
      st := Step(st, Finish(call));
    }
  }
}
