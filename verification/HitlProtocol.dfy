/** The operator-session manager as a protocol: one atomic step per stretch of code between two
    awaits, interleaved freely, with a log of what became of every browser context. */
module HitlProtocol {
  import opened Prelude

  type SessionId = nat
  type TabId = nat
  type Context = nat
  type Call = nat

  /** One slot: a session and a tab id in it. */
  datatype Slot = Slot(session: SessionId, tab: TabId)

  /** `tabs` holds `None` for a reservation still navigating, `Some` for an opened tab. */
  datatype Session = Session(token: nat, expiresAt: int, maxSlots: int, tabs: map<TabId, Option<Context>>) {
    predicate IsExpired(now: int) { now >= expiresAt }
    function FreeSlots(): int { maxSlots - |tabs| }
  }

  /** What a call in flight is waiting for. The last four stages hold the manager's lock. */
  datatype Stage =
    | Opening(slot: Slot)                            // the browser is opening a context
    | OpenRaised(slot: Slot)                         // it failed or was cancelled; waiting to roll back
    | Opened(slot: Slot, context: Context)           // it returned; waiting to commit
    | Exporting(held: Option<Context>)               // a completer that has popped its tab
    | Disposing                                      // a completer whose dispose is under way
    | DisposingOrphan                                // an opener whose session went away
    | Closing(session: SessionId, todo: set<TabId>, reopen: Option<int>)
    | Stopping(reopen: Option<int>)                  // stopping the display; `reopen` when inside open()
    | Starting(expiresAt: int)                       // bringing the display up

  predicate HoldsLock(stage: Stage) {
    stage.DisposingOrphan? || stage.Closing? || stage.Stopping? || stage.Starting?
  }

  predicate IsOpener(stage: Stage) {
    stage.Opening? || stage.OpenRaised? || stage.Opened?
  }

  /** Who is responsible for disposing a context. */
  datatype Owner =
    | InFlight(call: Call)
    | Held(slot: Slot)
    | Completing(call: Call)
    | Released(attempted: bool)   // a dispose was attempted, or skipped for want of a browser

  /** The log. `origin` also says which contexts the opener has ever handed back. */
  datatype Trace = Trace(
    reserved: set<Slot>,
    doomed: set<Slot>,            // slots reserved before a close of their session took the lock
    origin: map<Context, Slot>,
    owner: map<Context, Owner>,
    disposals: multiset<Context>,
    skips: multiset<Context>)

  datatype State = State(
    sessions: map<SessionId, Session>,
    current: Option<SessionId>,
    lock: Option<Call>,
    calls: map<Call, Stage>,
    trace: Trace)

  /** Why a close began: asked for, found expired by the reaper, or found expired by open(). */
  datatype Cause = Asked | Reaped(now: int) | Reopening(now: int, expiresAt: int)

  datatype Event =
    | StartDisplay(call: Call, expiresAt: int)
    | SessionOpened(call: Call, session: SessionId, token: nat, maxSlots: int)
    | Finish(call: Call)
    | Reserve(call: Call, slot: Slot)
    | OpenReturns(call: Call, context: Context)
    | OpenRaises(call: Call)
    | RollBack(call: Call)
    | Commit(call: Call)
    | Complete(call: Call, slot: Slot)
    | ExportEnds(call: Call, browser: bool)
    | Close(call: Call, session: SessionId, cause: Cause)
    | CloseNothing(call: Call)
    | DropTab(call: Call, tab: TabId, browser: bool)
    | Clear(call: Call)
    | Restart(call: Call)

  const EMPTY := State(map[], None, None, map[], Trace({}, {}, map[], map[], multiset{}, multiset{}))

  predicate TabIn(st: State, slot: Slot) {
    slot.session in st.sessions && slot.tab in st.sessions[slot.session].tabs
  }

  function TabOf(st: State, slot: Slot): Option<Context>
    requires TabIn(st, slot)
  {
    st.sessions[slot.session].tabs[slot.tab]
  }

  /** A new call may begin. */
  predicate NewCall(st: State, call: Call) {
    call !in st.calls
  }

  predicate Waiting(st: State, call: Call) {
    call in st.calls && st.lock.None?
  }

  predicate Enabled(st: State, e: Event) {
    match e
    case StartDisplay(k, _) => NewCall(st, k) && st.lock.None? && st.current.None?
    case SessionOpened(k, s, _, _) => k in st.calls && st.calls[k].Starting? && s !in st.sessions
    case Finish(k) =>
      // a dispose ended, the display would not start, or it has stopped and nothing follows
      k in st.calls && (st.calls[k].Disposing? || st.calls[k].DisposingOrphan? || st.calls[k].Starting? || st.calls[k] == Stopping(None))
    case Reserve(k, slot) =>
      NewCall(st, k) && st.lock.None? && slot.session in st.sessions
      && st.sessions[slot.session].FreeSlots() > 0 && slot !in st.trace.reserved
    case OpenReturns(k, c) => k in st.calls && st.calls[k].Opening? && c !in st.trace.origin
    case OpenRaises(k) => k in st.calls && st.calls[k].Opening?
    case RollBack(k) => Waiting(st, k) && st.calls[k].OpenRaised? && st.calls[k].slot.session in st.sessions
    case Commit(k) => Waiting(st, k) && st.calls[k].Opened? && st.calls[k].slot.session in st.sessions
    case Complete(k, slot) => NewCall(st, k) && st.lock.None? && TabIn(st, slot)
    case ExportEnds(k, _) => k in st.calls && st.calls[k].Exporting?
    case Close(k, s, cause) =>
      NewCall(st, k) && st.lock.None? && s in st.sessions
      && (cause.Asked? || (st.current == Some(s) && st.sessions[s].IsExpired(cause.now)))
    case CloseNothing(k) => NewCall(st, k) && st.lock.None? && st.current.None?
    case DropTab(k, t, _) =>
      k in st.calls && st.calls[k].Closing? && t in st.calls[k].todo && TabIn(st, Slot(st.calls[k].session, t))
    case Clear(k) =>
      k in st.calls && st.calls[k].Closing? && st.calls[k].todo == {} && st.calls[k].session in st.sessions
    case Restart(k) => k in st.calls && st.calls[k].Stopping? && st.calls[k].reopen.Some?
  }

  // ---------------------------------------------------------------- the steps

  function SetTabs(st: State, s: SessionId, tabs: map<TabId, Option<Context>>): State
    requires s in st.sessions
  {
    st.(sessions := st.sessions[s := st.sessions[s].(tabs := tabs)])
  }

  function Enter(st: State, call: Call, stage: Stage): State {
    st.(calls := st.calls[call := stage], lock := if HoldsLock(stage) then Some(call) else st.lock)
  }

  /** The call returns or raises, giving up the lock if it held it. */
  function Leave(st: State, call: Call): State {
    st.(calls := st.calls - {call}, lock := if st.lock == Some(call) then None else st.lock)
  }

  function Own(st: State, c: Context, o: Owner): State {
    st.(trace := st.trace.(owner := st.trace.owner[c := o]))
  }

  /** A context is given up: a dispose attempt when there is a browser to ask, else nothing. */
  function Release(st: State, c: Context, browser: bool): State {
    var t := st.trace.(owner := st.trace.owner[c := Released(browser)]);
    st.(trace := if browser then t.(disposals := t.disposals + multiset{c}) else t.(skips := t.skips + multiset{c}))
  }

  function ReleaseHeld(st: State, held: Option<Context>, browser: bool): State {
    if held.Some? then Release(st, held.value, browser) else st
  }

  function Step(st: State, e: Event): State
    requires Enabled(st, e)
  {
    match e
    case StartDisplay(k, expiresAt) => Enter(st, k, Starting(expiresAt))
    case SessionOpened(k, s, token, maxSlots) =>
      var session := Session(token, st.calls[k].expiresAt, maxSlots, map[]);
      Leave(st.(sessions := st.sessions[s := session], current := Some(s)), k)
    case Finish(k) => Leave(st, k)
    case Reserve(k, slot) =>
      var st' := SetTabs(st, slot.session, st.sessions[slot.session].tabs[slot.tab := None]);
      Enter(st'.(trace := st.trace.(reserved := st.trace.reserved + {slot})), k, Opening(slot))
    case OpenReturns(k, c) =>
      var st' := Own(Enter(st, k, Opened(st.calls[k].slot, c)), c, InFlight(k));
      st'.(trace := st'.trace.(origin := st.trace.origin[c := st.calls[k].slot]))
    case OpenRaises(k) => Enter(st, k, OpenRaised(st.calls[k].slot))
    case RollBack(k) =>
      var slot := st.calls[k].slot;
      Leave(SetTabs(st, slot.session, st.sessions[slot.session].tabs - {slot.tab}), k)
    case Commit(k) =>
      var Opened(slot, c) := st.calls[k];
      if TabIn(st, slot) then
        Leave(Own(SetTabs(st, slot.session, st.sessions[slot.session].tabs[slot.tab := Some(c)]), c, Held(slot)), k)
      else
        Enter(Release(st, c, true), k, DisposingOrphan)
    case Complete(k, slot) =>
      var held := TabOf(st, slot);
      var st' := Enter(SetTabs(st, slot.session, st.sessions[slot.session].tabs - {slot.tab}), k, Exporting(held));
      if held.Some? then Own(st', held.value, Completing(k)) else st'
    case ExportEnds(k, browser) =>
      var held := st.calls[k].held;
      if held.Some? && browser then Enter(Release(st, held.value, true), k, Disposing)
      else Leave(ReleaseHeld(st, held, false), k)
    case Close(k, s, cause) =>
      var reopen := if cause.Reopening? then Some(cause.expiresAt) else None;
      var doomed := st.trace.doomed + set x | x in st.trace.reserved && x.session == s;
      Enter(st.(trace := st.trace.(doomed := doomed)), k, Closing(s, st.sessions[s].tabs.Keys, reopen))
    case CloseNothing(k) => Enter(st, k, Stopping(None))
    case DropTab(k, t, browser) =>
      var Closing(s, todo, reopen) := st.calls[k];
      Enter(ReleaseHeld(st, TabOf(st, Slot(s, t)), browser), k, Closing(s, todo - {t}, reopen))
    case Clear(k) =>
      var Closing(s, _, reopen) := st.calls[k];
      Enter(SetTabs(st, s, map[]).(current := if st.current == Some(s) then None else st.current), k, Stopping(reopen))
    case Restart(k) => Enter(st, k, Starting(st.calls[k].reopen.value))
  }

  // ---------------------------------------------------------------- invariant

  /** A close under way has already dealt with this tab, though its record is not cleared yet. */
  predicate AlreadyDropped(st: State, slot: Slot) {
    && st.lock.Some? && st.lock.value in st.calls
    && var stage := st.calls[st.lock.value];
    stage.Closing? && stage.session == slot.session && slot.tab !in stage.todo
  }

  predicate BeingClosed(st: State, s: SessionId) {
    && st.lock.Some? && st.lock.value in st.calls
    && var stage := st.calls[st.lock.value];
    stage.Closing? && stage.session == s
  }

  ghost predicate LockInv(st: State) {
    && (st.lock.Some? ==> st.lock.value in st.calls && HoldsLock(st.calls[st.lock.value]))
    && (forall k | k in st.calls && HoldsLock(st.calls[k]) :: st.lock == Some(k))
    && (st.current.Some? ==> st.current.value in st.sessions)
  }

  predicate SlotsAt(st: State, s: SessionId)
    requires s in st.sessions
  {
    |st.sessions[s].tabs| <= if st.sessions[s].maxSlots > 0 then st.sessions[s].maxSlots else 0
  }

  ghost predicate SlotInv(st: State) {
    forall s | s in st.sessions :: SlotsAt(st, s)
  }

  predicate OpenerAt(st: State, k: Call)
    requires k in st.calls && IsOpener(st.calls[k])
  {
    var slot := st.calls[k].slot;
    slot in st.trace.reserved && slot.session in st.sessions && (TabIn(st, slot) ==> TabOf(st, slot) == None)
  }

  predicate SlotsApart(st: State, k: Call, l: Call)
    requires k in st.calls && l in st.calls && IsOpener(st.calls[k]) && IsOpener(st.calls[l])
  {
    st.calls[k].slot == st.calls[l].slot ==> k == l
  }

  ghost predicate OpenerInv(st: State) {
    && (forall k | k in st.calls && IsOpener(st.calls[k]) :: OpenerAt(st, k))
    && (forall k, l | k in st.calls && l in st.calls && IsOpener(st.calls[k]) && IsOpener(st.calls[l]) ::
          SlotsApart(st, k, l))
    && (forall slot | TabIn(st, slot) :: slot in st.trace.reserved)
  }

  predicate OpenedAt(st: State, k: Call)
    requires k in st.calls && st.calls[k].Opened?
  {
    var c := st.calls[k].context;
    && c in st.trace.owner && st.trace.owner[c] == InFlight(k)
    && c in st.trace.origin && st.trace.origin[c] == st.calls[k].slot
  }

  predicate HeldAt(st: State, slot: Slot)
    requires TabIn(st, slot) && TabOf(st, slot).Some?
  {
    var c := TabOf(st, slot).value;
    && c in st.trace.owner && c in st.trace.origin && st.trace.origin[c] == slot
    && (if AlreadyDropped(st, slot) then st.trace.owner[c].Released? else st.trace.owner[c] == Held(slot))
  }

  predicate ExportAt(st: State, k: Call)
    requires k in st.calls && st.calls[k].Exporting? && st.calls[k].held.Some?
  {
    var c := st.calls[k].held.value;
    c in st.trace.owner && st.trace.owner[c] == Completing(k)
  }

  /** From the live records to the log. */
  ghost predicate RecordsInv(st: State) {
    && (forall k | k in st.calls && st.calls[k].Opened? :: OpenedAt(st, k))
    && (forall slot | TabIn(st, slot) && TabOf(st, slot).Some? :: HeldAt(st, slot))
    && (forall k | k in st.calls && st.calls[k].Exporting? && st.calls[k].held.Some? :: ExportAt(st, k))
  }

  predicate OwnerAt(st: State, c: Context)
    requires c in st.trace.owner
  {
    match st.trace.owner[c]
    case InFlight(k) => k in st.calls && st.calls[k].Opened? && st.calls[k].context == c
    case Held(slot) => TabIn(st, slot) && TabOf(st, slot) == Some(c)
    case Completing(k) => k in st.calls && st.calls[k] == Exporting(Some(c))
    case Released(_) => true
  }

  /** From the log to the live records. */
  ghost predicate OwnersInv(st: State) {
    && st.trace.owner.Keys == st.trace.origin.Keys
    && (forall c | c in st.trace.origin :: st.trace.origin[c] in st.trace.reserved)
    && (forall c | c in st.trace.owner :: OwnerAt(st, c))
  }

  /** Each context has been given up at most once, and only if the log says so. */
  predicate LogAt(st: State, c: Context) {
    && st.trace.disposals[c] == (if c in st.trace.owner && st.trace.owner[c] == Released(true) then 1 else 0)
    && st.trace.skips[c] == (if c in st.trace.owner && st.trace.owner[c] == Released(false) then 1 else 0)
  }

  ghost predicate LogInv(st: State) {
    forall c: Context :: LogAt(st, c)
  }

  predicate ClosingAt(st: State, k: Call)
    requires k in st.calls && st.calls[k].Closing?
  {
    var stage := st.calls[k];
    && stage.session in st.sessions && stage.todo <= st.sessions[stage.session].tabs.Keys
    && (forall t | t in st.sessions[stage.session].tabs :: Slot(stage.session, t) in st.trace.doomed)
  }

  ghost predicate DoomInv(st: State) {
    && st.trace.doomed <= st.trace.reserved
    && (forall slot | slot in st.trace.doomed && TabIn(st, slot) :: BeingClosed(st, slot.session))
    && (forall k | k in st.calls && st.calls[k].Closing? :: ClosingAt(st, k))
  }

  ghost predicate Inv(st: State) {
    LockInv(st) && SlotInv(st) && OpenerInv(st) && RecordsInv(st) && OwnersInv(st) && LogInv(st) && DoomInv(st)
  }

  // ---------------------------------------------------------------- every step keeps it

  /** Steps that touch no tab and no context. */
  predicate Quiet(e: Event) {
    e.StartDisplay? || e.SessionOpened? || e.Finish? || e.OpenRaises? || e.CloseNothing? || e.Restart?
  }

  /** Steps of a tab being opened. */
  predicate OpensTab(e: Event) {
    e.Reserve? || e.OpenReturns? || e.RollBack? || e.Commit?
  }

  /** Steps of a tab being completed. */
  predicate Completes(e: Event) {
    e.Complete? || e.ExportEnds?
  }

  /** Steps of a session being closed. */
  predicate Closes(e: Event) {
    e.Close? || e.DropTab? || e.Clear?
  }

  /** The facts a step relies on about the call that takes it and the tab it touches. */
  predicate ActorOk(st: State, e: Event)
    requires Enabled(st, e)
  {
    && (st.lock.Some? ==> st.lock.value in st.calls && HoldsLock(st.calls[st.lock.value]))
    && (e.call in st.calls && HoldsLock(st.calls[e.call]) ==> st.lock == Some(e.call))
    && (e.call in st.calls && IsOpener(st.calls[e.call]) ==> OpenerAt(st, e.call))
    && (e.call in st.calls && st.calls[e.call].Opened? ==> OpenedAt(st, e.call))
    && (e.call in st.calls && st.calls[e.call].Exporting? && st.calls[e.call].held.Some? ==> ExportAt(st, e.call))
    && (e.Complete? && TabOf(st, e.slot).Some? ==> HeldAt(st, e.slot))
    && (e.DropTab? && TabOf(st, Slot(st.calls[e.call].session, e.tab)).Some? ==>
          HeldAt(st, Slot(st.calls[e.call].session, e.tab)))
    && (e.OpenReturns? ==> e.context !in st.trace.owner)
  }

  lemma ActorFacts(st: State, e: Event)
    requires Inv(st) && Enabled(st, e)
    ensures ActorOk(st, e)
  {
  }

  lemma LockKeptQuiet(st: State, e: Event)
    requires LockInv(st) && Enabled(st, e) && Quiet(e)
    ensures LockInv(Step(st, e))
  {
  }

  lemma LockKeptOpening(st: State, e: Event)
    requires LockInv(st) && Enabled(st, e) && OpensTab(e)
    ensures LockInv(Step(st, e))
  {
  }

  lemma LockKeptOtherwise(st: State, e: Event)
    requires LockInv(st) && Enabled(st, e) && !Quiet(e) && !OpensTab(e)
    ensures LockInv(Step(st, e))
  {
  }

  lemma SlotKeptQuiet(st: State, e: Event, s: SessionId)
    requires Enabled(st, e) && Quiet(e) && s in Step(st, e).sessions
    requires s in st.sessions ==> SlotsAt(st, s)
    ensures SlotsAt(Step(st, e), s)
  {
  }

  lemma SlotKeptOpening(st: State, e: Event, s: SessionId)
    requires Enabled(st, e) && OpensTab(e) && s in Step(st, e).sessions
    requires s in st.sessions ==> SlotsAt(st, s)
    ensures SlotsAt(Step(st, e), s)
  {
  }

  lemma SlotKeptOtherwise(st: State, e: Event, s: SessionId)
    requires Enabled(st, e) && !Quiet(e) && !OpensTab(e) && s in Step(st, e).sessions
    requires s in st.sessions ==> SlotsAt(st, s)
    ensures SlotsAt(Step(st, e), s)
  {
  }

  lemma OpenedKept(st: State, e: Event, k: Call)
    requires Enabled(st, e) && ActorOk(st, e) && (Quiet(e) || OpensTab(e))
    requires k in st.calls && st.calls[k].Opened? ==> OpenedAt(st, k)
    requires k in Step(st, e).calls && Step(st, e).calls[k].Opened?
    ensures OpenedAt(Step(st, e), k)
  {
  }

  lemma OpenedKeptCompleting(st: State, e: Event, k: Call)
    requires Enabled(st, e) && ActorOk(st, e) && Completes(e)
    requires k in st.calls && st.calls[k].Opened? ==> OpenedAt(st, k)
    requires k in Step(st, e).calls && Step(st, e).calls[k].Opened?
    ensures OpenedAt(Step(st, e), k)
  {
  }

  lemma OpenedKeptClosing(st: State, e: Event, k: Call)
    requires Enabled(st, e) && ActorOk(st, e) && Closes(e)
    requires k in st.calls && st.calls[k].Opened? ==> OpenedAt(st, k)
    requires k in Step(st, e).calls && Step(st, e).calls[k].Opened?
    ensures OpenedAt(Step(st, e), k)
  {
  }

  lemma HeldKept(st: State, e: Event, slot: Slot)
    requires Enabled(st, e) && ActorOk(st, e) && Quiet(e)
    requires TabIn(st, slot) && TabOf(st, slot).Some? ==> HeldAt(st, slot)
    requires TabIn(Step(st, e), slot) && TabOf(Step(st, e), slot).Some?
    ensures HeldAt(Step(st, e), slot)
  {
  }

  lemma HeldKeptOpening(st: State, e: Event, slot: Slot)
    requires Enabled(st, e) && ActorOk(st, e) && OpensTab(e)
    requires TabIn(st, slot) && TabOf(st, slot).Some? ==> HeldAt(st, slot)
    requires TabIn(Step(st, e), slot) && TabOf(Step(st, e), slot).Some?
    ensures HeldAt(Step(st, e), slot)
  {
  }

  lemma HeldKeptClosing(st: State, e: Event, slot: Slot)
    requires Enabled(st, e) && ActorOk(st, e) && Closes(e)
    requires TabIn(st, slot) && TabOf(st, slot).Some? ==> HeldAt(st, slot)
    requires TabIn(Step(st, e), slot) && TabOf(Step(st, e), slot).Some?
    ensures HeldAt(Step(st, e), slot)
  {
  }

  lemma HeldKeptCompleting(st: State, e: Event, slot: Slot)
    requires Enabled(st, e) && ActorOk(st, e) && e.Complete?
    requires TabIn(st, slot) && TabOf(st, slot).Some? ==> HeldAt(st, slot)
    requires TabIn(Step(st, e), slot) && TabOf(Step(st, e), slot).Some?
    ensures HeldAt(Step(st, e), slot)
  {
  }

  lemma HeldKeptExporting(st: State, e: Event, slot: Slot)
    requires Enabled(st, e) && ActorOk(st, e) && e.ExportEnds?
    requires TabIn(st, slot) && TabOf(st, slot).Some? ==> HeldAt(st, slot)
    requires TabIn(Step(st, e), slot) && TabOf(Step(st, e), slot).Some?
    ensures HeldAt(Step(st, e), slot)
  {
  }

  lemma ExportKeptOpening(st: State, e: Event, k: Call)
    requires Enabled(st, e) && ActorOk(st, e) && (Quiet(e) || OpensTab(e))
    requires k in st.calls && st.calls[k].Exporting? && st.calls[k].held.Some? ==> ExportAt(st, k)
    requires k in Step(st, e).calls && Step(st, e).calls[k].Exporting? && Step(st, e).calls[k].held.Some?
    ensures ExportAt(Step(st, e), k)
  {
  }

  lemma ExportKeptOtherwise(st: State, e: Event, k: Call)
    requires Enabled(st, e) && ActorOk(st, e) && (Completes(e) || Closes(e))
    requires k in st.calls && st.calls[k].Exporting? && st.calls[k].held.Some? ==> ExportAt(st, k)
    requires k in Step(st, e).calls && Step(st, e).calls[k].Exporting? && Step(st, e).calls[k].held.Some?
    ensures ExportAt(Step(st, e), k)
  {
  }

  lemma OwnerKeptQuiet(st: State, e: Event, c: Context)
    requires Enabled(st, e) && ActorOk(st, e) && Quiet(e)
    requires c in st.trace.owner ==> OwnerAt(st, c)
    requires c in st.trace.owner && st.trace.owner[c].Held? ==>
      var slot := st.trace.owner[c].slot; HeldAt(st, slot) && slot in st.trace.reserved
    requires c in Step(st, e).trace.owner
    ensures OwnerAt(Step(st, e), c)
  {
  }

  lemma OwnerKeptOpening(st: State, e: Event, c: Context)
    requires Enabled(st, e) && ActorOk(st, e) && OpensTab(e)
    requires c in st.trace.owner ==> OwnerAt(st, c)
    requires c in st.trace.owner && st.trace.owner[c].Held? ==>
      var slot := st.trace.owner[c].slot; HeldAt(st, slot) && slot in st.trace.reserved
    requires c in Step(st, e).trace.owner
    ensures OwnerAt(Step(st, e), c)
  {
  }

  lemma OwnerKeptClosing(st: State, e: Event, c: Context)
    requires Enabled(st, e) && ActorOk(st, e) && Closes(e)
    requires c in st.trace.owner ==> OwnerAt(st, c)
    requires c in st.trace.owner && st.trace.owner[c].Held? ==>
      var slot := st.trace.owner[c].slot; HeldAt(st, slot) && slot in st.trace.reserved
    requires c in Step(st, e).trace.owner
    ensures OwnerAt(Step(st, e), c)
  {
  }

  lemma OwnerKeptCompleting(st: State, e: Event, c: Context)
    requires Enabled(st, e) && ActorOk(st, e) && e.Complete?
    requires c in st.trace.owner ==> OwnerAt(st, c)
    requires c in st.trace.owner && st.trace.owner[c].Held? ==>
      var slot := st.trace.owner[c].slot; HeldAt(st, slot) && slot in st.trace.reserved
    requires c in Step(st, e).trace.owner
    ensures OwnerAt(Step(st, e), c)
  {
  }

  lemma OwnerKeptExporting(st: State, e: Event, c: Context)
    requires Enabled(st, e) && ActorOk(st, e) && e.ExportEnds?
    requires c in st.trace.owner ==> OwnerAt(st, c)
    requires c in st.trace.owner && st.trace.owner[c].Held? ==>
      var slot := st.trace.owner[c].slot; HeldAt(st, slot) && slot in st.trace.reserved
    requires c in Step(st, e).trace.owner
    ensures OwnerAt(Step(st, e), c)
  {
  }

  lemma LogKeptQuiet(st: State, e: Event, c: Context)
    requires Enabled(st, e) && ActorOk(st, e) && Quiet(e)
    requires LogAt(st, c)
    ensures LogAt(Step(st, e), c)
  {
  }

  lemma LogKeptOpening(st: State, e: Event, c: Context)
    requires Enabled(st, e) && ActorOk(st, e) && OpensTab(e)
    requires LogAt(st, c)
    ensures LogAt(Step(st, e), c)
  {
  }

  lemma LogKeptCompleting(st: State, e: Event, c: Context)
    requires Enabled(st, e) && ActorOk(st, e) && Completes(e)
    requires LogAt(st, c)
    ensures LogAt(Step(st, e), c)
  {
  }

  lemma LogKeptClosing(st: State, e: Event, c: Context)
    requires Enabled(st, e) && ActorOk(st, e) && Closes(e)
    requires LogAt(st, c)
    ensures LogAt(Step(st, e), c)
  {
  }

  lemma OpenerKeptQuiet(st: State, e: Event, k: Call)
    requires Enabled(st, e) && ActorOk(st, e) && Quiet(e)
    requires k in st.calls && IsOpener(st.calls[k]) ==> OpenerAt(st, k)
    requires e.call in st.calls && IsOpener(st.calls[e.call]) && k in st.calls && IsOpener(st.calls[k]) ==> SlotsApart(st, k, e.call)
    requires k in Step(st, e).calls && IsOpener(Step(st, e).calls[k])
    ensures OpenerAt(Step(st, e), k)
  {
  }

  lemma OpenerKeptOpening(st: State, e: Event, k: Call)
    requires Enabled(st, e) && ActorOk(st, e) && OpensTab(e)
    requires k in st.calls && IsOpener(st.calls[k]) ==> OpenerAt(st, k)
    requires e.call in st.calls && IsOpener(st.calls[e.call]) && k in st.calls && IsOpener(st.calls[k]) ==> SlotsApart(st, k, e.call)
    requires k in Step(st, e).calls && IsOpener(Step(st, e).calls[k])
    ensures OpenerAt(Step(st, e), k)
  {
  }

  lemma OpenerKeptOtherwise(st: State, e: Event, k: Call)
    requires Enabled(st, e) && ActorOk(st, e) && !Quiet(e) && !OpensTab(e)
    requires k in st.calls && IsOpener(st.calls[k]) ==> OpenerAt(st, k)
    requires e.call in st.calls && IsOpener(st.calls[e.call]) && k in st.calls && IsOpener(st.calls[k]) ==> SlotsApart(st, k, e.call)
    requires k in Step(st, e).calls && IsOpener(Step(st, e).calls[k])
    ensures OpenerAt(Step(st, e), k)
  {
  }

  lemma ApartKeptOpening(st: State, e: Event, k: Call, l: Call)
    requires Enabled(st, e) && OpensTab(e)
    requires var after := Step(st, e).calls; k in after && l in after && IsOpener(after[k]) && IsOpener(after[l])
    requires k in st.calls && IsOpener(st.calls[k]) ==> st.calls[k].slot in st.trace.reserved
    requires l in st.calls && IsOpener(st.calls[l]) ==> st.calls[l].slot in st.trace.reserved
    requires k in st.calls && l in st.calls && IsOpener(st.calls[k]) && IsOpener(st.calls[l]) ==> SlotsApart(st, k, l)
    ensures SlotsApart(Step(st, e), k, l)
  {
  }

  lemma ApartKeptOtherwise(st: State, e: Event, k: Call, l: Call)
    requires Enabled(st, e) && !OpensTab(e)
    requires var after := Step(st, e).calls; k in after && l in after && IsOpener(after[k]) && IsOpener(after[l])
    requires k in st.calls && IsOpener(st.calls[k]) ==> st.calls[k].slot in st.trace.reserved
    requires l in st.calls && IsOpener(st.calls[l]) ==> st.calls[l].slot in st.trace.reserved
    requires k in st.calls && l in st.calls && IsOpener(st.calls[k]) && IsOpener(st.calls[l]) ==> SlotsApart(st, k, l)
    ensures SlotsApart(Step(st, e), k, l)
  {
  }

  lemma ReservedKept(st: State, e: Event, slot: Slot)
    requires Enabled(st, e) && ActorOk(st, e)
    requires TabIn(st, slot) ==> slot in st.trace.reserved
    ensures TabIn(Step(st, e), slot) ==> slot in Step(st, e).trace.reserved
  {
  }

  lemma ClosingKeptOpening(st: State, e: Event, k: Call)
    requires Enabled(st, e) && ActorOk(st, e) && (Quiet(e) || OpensTab(e))
    requires LockInv(st) && forall slot | TabIn(st, slot) :: slot in st.trace.reserved
    requires k in st.calls && st.calls[k].Closing? ==> ClosingAt(st, k)
    requires k in Step(st, e).calls && Step(st, e).calls[k].Closing?
    ensures ClosingAt(Step(st, e), k)
  {
  }

  lemma ClosingKeptOtherwise(st: State, e: Event, k: Call)
    requires Enabled(st, e) && ActorOk(st, e) && (Completes(e) || Closes(e))
    requires LockInv(st) && forall slot | TabIn(st, slot) :: slot in st.trace.reserved
    requires k in st.calls && st.calls[k].Closing? ==> ClosingAt(st, k)
    requires k in Step(st, e).calls && Step(st, e).calls[k].Closing?
    ensures ClosingAt(Step(st, e), k)
  {
  }

  lemma DoomKept(st: State, e: Event, slot: Slot)
    requires Enabled(st, e) && (Quiet(e) || OpensTab(e))
    requires LockInv(st) && st.trace.doomed <= st.trace.reserved && (TabIn(st, slot) ==> slot in st.trace.reserved)
    requires slot in st.trace.doomed && TabIn(st, slot) ==> BeingClosed(st, slot.session)
    requires slot in Step(st, e).trace.doomed && TabIn(Step(st, e), slot)
    ensures BeingClosed(Step(st, e), slot.session)
  {
  }

  lemma DoomKeptCompleting(st: State, e: Event, slot: Slot)
    requires Enabled(st, e) && Completes(e)
    requires ActorOk(st, e) && st.trace.doomed <= st.trace.reserved && (TabIn(st, slot) ==> slot in st.trace.reserved)
    requires slot in st.trace.doomed && TabIn(st, slot) ==> BeingClosed(st, slot.session)
    requires slot in Step(st, e).trace.doomed && TabIn(Step(st, e), slot)
    ensures BeingClosed(Step(st, e), slot.session)
  {
  }

  lemma DoomKeptClosing(st: State, e: Event, slot: Slot)
    requires Enabled(st, e) && Closes(e)
    requires LockInv(st) && st.trace.doomed <= st.trace.reserved && (TabIn(st, slot) ==> slot in st.trace.reserved)
    requires slot in st.trace.doomed && TabIn(st, slot) ==> BeingClosed(st, slot.session)
    requires slot in Step(st, e).trace.doomed && TabIn(Step(st, e), slot)
    ensures BeingClosed(Step(st, e), slot.session)
  {
  }

  lemma RecordsInvKept(st: State, e: Event)
    requires Inv(st) && Enabled(st, e)
    ensures RecordsInv(Step(st, e))
  {
    var st' := Step(st, e);
    ActorFacts(st, e);
    forall k | k in st'.calls && st'.calls[k].Opened? ensures OpenedAt(st', k) {
      if Quiet(e) || OpensTab(e) {
        OpenedKept(st, e, k);
      } else if Completes(e) {
        OpenedKeptCompleting(st, e, k);
      } else {
        OpenedKeptClosing(st, e, k);
      }
    }
    forall slot | TabIn(st', slot) && TabOf(st', slot).Some? ensures HeldAt(st', slot) {
      if Quiet(e) {
        HeldKept(st, e, slot);
      } else if OpensTab(e) {
        HeldKeptOpening(st, e, slot);
      } else if e.Complete? {
        HeldKeptCompleting(st, e, slot);
      } else if e.ExportEnds? {
        HeldKeptExporting(st, e, slot);
      } else {
        HeldKeptClosing(st, e, slot);
      }
    }
    forall k | k in st'.calls && st'.calls[k].Exporting? && st'.calls[k].held.Some? ensures ExportAt(st', k) {
      if Quiet(e) || OpensTab(e) {
        ExportKeptOpening(st, e, k);
      } else {
        ExportKeptOtherwise(st, e, k);
      }
    }
  }

  lemma OwnersInvKept(st: State, e: Event)
    requires Inv(st) && Enabled(st, e)
    ensures OwnersInv(Step(st, e))
  {
    var st' := Step(st, e);
    ActorFacts(st, e);
    forall c | c in st'.trace.owner ensures OwnerAt(st', c) {
      if c in st.trace.owner { assert OwnerAt(st, c); }
      if Quiet(e) {
        OwnerKeptQuiet(st, e, c);
      } else if OpensTab(e) {
        OwnerKeptOpening(st, e, c);
      } else if e.Complete? {
        OwnerKeptCompleting(st, e, c);
      } else if e.ExportEnds? {
        OwnerKeptExporting(st, e, c);
      } else {
        OwnerKeptClosing(st, e, c);
      }
    }
    if Quiet(e) || OpensTab(e) {
      OriginsKeptOpening(st, e);
    } else {
      OriginsKeptOtherwise(st, e);
    }
  }

  lemma OriginsKeptOpening(st: State, e: Event)
    requires Enabled(st, e) && ActorOk(st, e) && st.trace.owner.Keys == st.trace.origin.Keys && (Quiet(e) || OpensTab(e))
    requires forall c | c in st.trace.origin :: st.trace.origin[c] in st.trace.reserved
    ensures Step(st, e).trace.owner.Keys == Step(st, e).trace.origin.Keys
    ensures forall c | c in Step(st, e).trace.origin :: Step(st, e).trace.origin[c] in Step(st, e).trace.reserved
  {
  }

  lemma OriginsKeptOtherwise(st: State, e: Event)
    requires Enabled(st, e) && ActorOk(st, e) && st.trace.owner.Keys == st.trace.origin.Keys && (Completes(e) || Closes(e))
    requires forall c | c in st.trace.origin :: st.trace.origin[c] in st.trace.reserved
    ensures Step(st, e).trace.owner.Keys == Step(st, e).trace.origin.Keys
    ensures forall c | c in Step(st, e).trace.origin :: Step(st, e).trace.origin[c] in Step(st, e).trace.reserved
  {
  }

  lemma OpenerInvKept(st: State, e: Event)
    requires Inv(st) && Enabled(st, e)
    ensures OpenerInv(Step(st, e))
  {
    var st' := Step(st, e);
    ActorFacts(st, e);
    forall k | k in st'.calls && IsOpener(st'.calls[k]) ensures OpenerAt(st', k) {
      if Quiet(e) {
        OpenerKeptQuiet(st, e, k);
      } else if OpensTab(e) {
        OpenerKeptOpening(st, e, k);
      } else {
        OpenerKeptOtherwise(st, e, k);
      }
    }
    forall k, l | k in st'.calls && l in st'.calls && IsOpener(st'.calls[k]) && IsOpener(st'.calls[l])
      ensures SlotsApart(st', k, l)
    {
      assert k in st.calls && IsOpener(st.calls[k]) ==> OpenerAt(st, k);
      assert l in st.calls && IsOpener(st.calls[l]) ==> OpenerAt(st, l);
      if OpensTab(e) {
        ApartKeptOpening(st, e, k, l);
      } else {
        ApartKeptOtherwise(st, e, k, l);
      }
    }
    forall slot | TabIn(st', slot) ensures slot in st'.trace.reserved {
      ReservedKept(st, e, slot);
    }
  }

  lemma DoomInvKept(st: State, e: Event)
    requires Inv(st) && Enabled(st, e)
    ensures DoomInv(Step(st, e))
  {
    var st' := Step(st, e);
    ActorFacts(st, e);
    forall slot | slot in st'.trace.doomed && TabIn(st', slot) ensures BeingClosed(st', slot.session) {
      if Quiet(e) || OpensTab(e) {
        DoomKept(st, e, slot);
      } else if Completes(e) {
        DoomKeptCompleting(st, e, slot);
      } else {
        DoomKeptClosing(st, e, slot);
      }
    }
    forall k | k in st'.calls && st'.calls[k].Closing? ensures ClosingAt(st', k) {
      if Quiet(e) || OpensTab(e) {
        ClosingKeptOpening(st, e, k);
      } else {
        ClosingKeptOtherwise(st, e, k);
      }
    }
  }

  /** Whatever call takes the next step, the invariant survives it. */
  lemma StepKeepsInv(st: State, e: Event)
    requires Inv(st) && Enabled(st, e)
    ensures Inv(Step(st, e))
  {
    if Quiet(e) {
      LockKeptQuiet(st, e);
    } else if OpensTab(e) {
      LockKeptOpening(st, e);
    } else {
      LockKeptOtherwise(st, e);
    }
    OpenerInvKept(st, e);
    RecordsInvKept(st, e);
    OwnersInvKept(st, e);
    DoomInvKept(st, e);
    ActorFacts(st, e);
    forall s | s in Step(st, e).sessions ensures SlotsAt(Step(st, e), s) {
      if Quiet(e) {
        SlotKeptQuiet(st, e, s);
      } else if OpensTab(e) {
        SlotKeptOpening(st, e, s);
      } else {
        SlotKeptOtherwise(st, e, s);
      }
    }
    forall c: Context ensures LogAt(Step(st, e), c) {
      if Quiet(e) {
        LogKeptQuiet(st, e, c);
      } else if OpensTab(e) {
        LogKeptOpening(st, e, c);
      } else if Completes(e) {
        LogKeptCompleting(st, e, c);
      } else {
        LogKeptClosing(st, e, c);
      }
    }
  }

  // ---------------------------------------------------------------- runs

  /** A run: any interleaving of enabled steps from a manager with nothing open. */
  ghost predicate IsRun(states: seq<State>, events: seq<Event>) {
    Follows(states, events) && states[0] == EMPTY
  }

  ghost predicate Follows(states: seq<State>, events: seq<Event>) {
    |states| == |events| + 1 && forall i | 0 <= i < |events| :: StepAt(states, events, i)
  }

  predicate StepAt(states: seq<State>, events: seq<Event>, i: nat)
    requires i < |events| && |states| == |events| + 1
  {
    Enabled(states[i], events[i]) && states[i + 1] == Step(states[i], events[i])
  }

  lemma {:induction false} RunKeepsInv(states: seq<State>, events: seq<Event>, n: nat)
    requires IsRun(states, events) && n < |states|
    ensures Inv(states[n])
  {
    if n > 0 {
      RunKeepsInv(states, events, n - 1);
      assert StepAt(states, events, n - 1);
      StepKeepsInv(states[n - 1], events[n - 1]);
    }
  }

  /** Some run leads to the state. */
  ghost predicate Reachable(st: State) {
    exists states: seq<State>, events: seq<Event> :: IsRun(states, events) && states[|events|] == st
  }

  lemma ReachableStep(st: State, e: Event)
    requires Reachable(st) && Enabled(st, e)
    ensures Reachable(Step(st, e))
  {
    var states: seq<State>, events: seq<Event> :| IsRun(states, events) && states[|events|] == st;
    var states', events' := states + [Step(st, e)], events + [e];
    forall i | 0 <= i < |events'| ensures StepAt(states', events', i) {
      if i < |events| { assert StepAt(states, events, i); }
    }
    assert IsRun(states', events') && states'[|events'|] == Step(st, e);
  }

  lemma ReachableAtFirst()
    ensures Reachable(EMPTY)
  {
    assert IsRun([EMPTY], []) && [EMPTY][0] == EMPTY;
  }

  /** What a call in flight can rely on. */
  lemma ReachableFacts(st: State, k: Call)
    requires Reachable(st)
    ensures st.current.Some? ==> st.current.value in st.sessions
    ensures k in st.calls ==> (HoldsLock(st.calls[k]) <==> st.lock == Some(k))
    ensures k in st.calls && IsOpener(st.calls[k]) ==> OpenerAt(st, k)
    ensures k in st.calls && st.calls[k].Closing? ==>
      st.calls[k].session in st.sessions && st.calls[k].todo <= st.sessions[st.calls[k].session].tabs.Keys
  {
    var states: seq<State>, events: seq<Event> :| IsRun(states, events) && states[|events|] == st;
    RunKeepsInv(states, events, |events|);
    if k in st.calls && st.calls[k].Closing? { assert ClosingAt(st, k); }
  }

  lemma HolderHasLock(st: State, k: Call)
    requires Reachable(st) && k in st.calls && HoldsLock(st.calls[k])
    ensures st.lock == Some(k)
  {
    ReachableFacts(st, k);
  }

  /** Steps under a free lock that change one session's tabs and nothing else a manager can see. */
  lemma OnlyTabsChange(st: State, e: Event)
    requires Enabled(st, e) && (e.Reserve? || e.RollBack? || e.Complete?) && st.lock.None?
    ensures var slot := if e.RollBack? then st.calls[e.call].slot else e.slot;
      && slot.session in st.sessions
      && var tabs := st.sessions[slot.session].tabs;
      && Step(st, e).sessions == st.sessions[slot.session := st.sessions[slot.session].(
           tabs := if e.Reserve? then tabs[slot.tab := None] else tabs - {slot.tab})]
      && Step(st, e).lock == None && Step(st, e).current == st.current
  {
  }

  lemma ClearEmptiesOne(st: State, k: Call)
    requires Enabled(st, Clear(k))
    ensures var s, next := st.calls[k].session, Step(st, Clear(k));
      && next.sessions == st.sessions[s := st.sessions[s].(tabs := map[])] && next.lock == Some(k)
      && next.current == if st.current == Some(s) then None else st.current
  {
  }

  /** Reservations and tabs together never exceed the session's slots, in any interleaving. */
  lemma SlotsNeverExceeded(states: seq<State>, events: seq<Event>, n: nat, s: SessionId)
    requires IsRun(states, events) && n < |states| && s in states[n].sessions
    ensures var session := states[n].sessions[s];
      |session.tabs| <= (if session.maxSlots > 0 then session.maxSlots else 0)
  {
    RunKeepsInv(states, events, n);
    assert SlotsAt(states[n], s);
  }

  // ---------------------------------------------------------------- ownership

  /** Read off the live state alone: this owner is answerable for the context. */
  predicate Owns(st: State, o: Owner, c: Context) {
    match o
    case InFlight(k) => k in st.calls && st.calls[k].Opened? && st.calls[k].context == c
    case Held(slot) => TabIn(st, slot) && TabOf(st, slot) == Some(c) && !AlreadyDropped(st, slot)
    case Completing(k) => k in st.calls && st.calls[k] == Exporting(Some(c))
    case Released(attempted) => if attempted then c in st.trace.disposals else c in st.trace.skips
  }

  /** At every moment of every interleaving, each context the opener handed back has exactly
      one owner, and has been offered for disposal at most once. */
  lemma ExactlyOneOwner(states: seq<State>, events: seq<Event>, n: nat, c: Context)
    requires IsRun(states, events) && n < |states| && c in states[n].trace.origin
    ensures exists o :: Owns(states[n], o, c) && forall o' | Owns(states[n], o', c) :: o' == o
    ensures states[n].trace.disposals[c] + states[n].trace.skips[c] <= 1
  {
    var st := states[n];
    RunKeepsInv(states, events, n);
    assert OwnerAt(st, c) && LogAt(st, c);
    var o := st.trace.owner[c];
    if o.Held? { assert HeldAt(st, o.slot); }
    assert Owns(st, o, c);
    forall o' | Owns(st, o', c) ensures o' == o {
      if o'.InFlight? { assert OpenedAt(st, o'.call); }
      if o'.Completing? { assert ExportAt(st, o'.call); }
      if o'.Held? { assert HeldAt(st, o'.slot); }
    }
  }

  /** A context nobody has been handed back is never disposed. */
  lemma OnlyHandedBackDisposed(states: seq<State>, events: seq<Event>, n: nat, c: Context)
    requires IsRun(states, events) && n < |states| && c !in states[n].trace.origin
    ensures states[n].trace.disposals[c] == 0 && states[n].trace.skips[c] == 0
  {
    RunKeepsInv(states, events, n);
    assert LogAt(states[n], c);
  }

  // ---------------------------------------------------------------- what closing achieves

  /** The call still has work to do for the session: opening a tab of it, completing one, or closing it. */
  predicate WorksFor(st: State, k: Call, s: SessionId)
    requires k in st.calls
  {
    match st.calls[k]
    case Opening(slot) => slot.session == s
    case OpenRaised(slot) => slot.session == s
    case Opened(slot, _) => slot.session == s
    case Exporting(held) => held.Some? && held.value in st.trace.origin && st.trace.origin[held.value].session == s
    case Closing(session, _, _) => session == s
    case _ => false
  }

  /** No call in flight works for the session, whatever the others are doing. */
  ghost predicate Idle(st: State, s: SessionId) {
    forall k | k in st.calls :: !WorksFor(st, k, s)
  }

  lemma OwnerWorks(st: State, c: Context)
    requires Inv(st) && c in st.trace.origin
    ensures var owner := st.trace.owner[c];
      owner.InFlight? || owner.Completing? ==> owner.call in st.calls && WorksFor(st, owner.call, st.trace.origin[c].session)
  {
    assert OwnerAt(st, c);
    if st.trace.owner[c].InFlight? { assert OpenedAt(st, st.trace.owner[c].call); }
  }

  /** With its session idle a context was released exactly once, or it sits in its tab record, and
      then its slot was reserved after every close of its session. */
  lemma IdleOutcome(st: State, c: Context)
    requires Inv(st) && c in st.trace.origin && Idle(st, st.trace.origin[c].session)
    ensures var slot := st.trace.origin[c];
      && (st.trace.disposals[c] + st.trace.skips[c] == 1 <==> !(TabIn(st, slot) && TabOf(st, slot) == Some(c)))
      && (TabIn(st, slot) && TabOf(st, slot) == Some(c) ==> slot !in st.trace.doomed && st.trace.owner[c] == Held(slot))
  {
    var slot := st.trace.origin[c];
    assert OwnerAt(st, c) && LogAt(st, c);
    OwnerWorks(st, c);
    if st.trace.owner[c].Held? { assert HeldAt(st, st.trace.owner[c].slot); }
    if TabIn(st, slot) && TabOf(st, slot) == Some(c) {
      assert HeldAt(st, slot);
      assert BeingClosed(st, slot.session) ==> WorksFor(st, st.lock.value, slot.session);
    }
  }

  /** What gives up a slot's tab: a close of its session, or its completion. */
  predicate Ends(e: Event, slot: Slot) {
    (e.Close? && e.session == slot.session) || (e.Complete? && e.slot == slot)
  }

  lemma TraceGrows(st: State, e: Event)
    requires Enabled(st, e)
    ensures st.trace.reserved <= Step(st, e).trace.reserved && st.trace.doomed <= Step(st, e).trace.doomed
  {
  }

  // Once the tab is given up.

  /** The slot is used up: doomed by a close, or its record popped by a completer, for good. */
  predicate GivenUp(st: State, slot: Slot) {
    slot in st.trace.reserved && (slot in st.trace.doomed || !TabIn(st, slot))
  }

  lemma GivenUpAfter(st: State, e: Event, slot: Slot)
    requires Enabled(st, e) && slot in st.trace.reserved && Ends(e, slot)
    ensures GivenUp(Step(st, e), slot)
  {
  }

  lemma GivenUpStays(st: State, e: Event, slot: Slot)
    requires Enabled(st, e) && ActorOk(st, e) && GivenUp(st, slot)
    ensures GivenUp(Step(st, e), slot)
  {
    TraceGrows(st, e);
  }

  lemma {:induction false} EndedIsGivenUp(states: seq<State>, events: seq<Event>, i: nat, j: nat, n: nat)
    requires IsRun(states, events) && i < j < n < |states| && events[i].Reserve? && Ends(events[j], events[i].slot)
    ensures GivenUp(states[n], events[i].slot)
    decreases n
  {
    var slot := events[i].slot;
    assert StepAt(states, events, n - 1);
    if j == n - 1 {
      assert StepAt(states, events, i);
      ReservedGrowsOver(states, events, i + 1, j);
      GivenUpAfter(states[j], events[j], slot);
    } else {
      EndedIsGivenUp(states, events, i, j, n - 1);
      RunKeepsInv(states, events, n - 1);
      ActorFacts(states[n - 1], events[n - 1]);
      GivenUpStays(states[n - 1], events[n - 1], slot);
    }
  }

  lemma {:induction false} ReservedGrowsOver(states: seq<State>, events: seq<Event>, i: nat, j: nat)
    requires IsRun(states, events) && i <= j < |states|
    ensures states[i].trace.reserved <= states[j].trace.reserved
    decreases j
  {
    if i < j {
      ReservedGrowsOver(states, events, i, j - 1);
      assert StepAt(states, events, j - 1);
      TraceGrows(states[j - 1], events[j - 1]);
    }
  }

  // While nothing has given the tab up.

  /** The call is opening a tab for the slot. */
  predicate OpensFor(st: State, k: Call, slot: Slot)
    requires k in st.calls
  {
    IsOpener(st.calls[k]) && st.calls[k].slot == slot
  }

  /** The context is held by its tab or its opener. */
  predicate Alive(st: State, slot: Slot, c: Context) {
    c in st.trace.owner && c in st.trace.origin && st.trace.origin[c] == slot ==>
      st.trace.owner[c].InFlight? || st.trace.owner[c] == Held(slot)
  }

  /** Where an opener has no context to show, none was ever handed out for its slot. */
  predicate NoneYet(st: State, k: Call, slot: Slot, c: Context)
    requires k in st.calls && c in st.trace.origin
  {
    OpensFor(st, k, slot) && !st.calls[k].Opened? ==> st.trace.origin[c] != slot
  }

  ghost predicate Pending(st: State, slot: Slot) {
    && slot in st.trace.reserved && slot !in st.trace.doomed
    && (!TabIn(st, slot) ==> forall k | k in st.calls :: !OpensFor(st, k, slot))
    && (forall k, c | k in st.calls && c in st.trace.origin :: NoneYet(st, k, slot, c))
    && (forall c | c in st.trace.owner :: Alive(st, slot, c))
  }
  /** A close under way is not of this slot's session. */
  predicate NotClosing(st: State, e: Event, slot: Slot)
    requires Enabled(st, e)
  {
    (e.Clear? || e.DropTab?) && TabIn(st, slot) ==> st.calls[e.call].session != slot.session
  }

  lemma PendingNotClosing(st: State, e: Event, slot: Slot)
    requires Inv(st) && Enabled(st, e) && slot !in st.trace.doomed
    ensures NotClosing(st, e, slot)
  {
    if e.Clear? || e.DropTab? { assert ClosingAt(st, e.call); }
  }

  lemma PendingReserved(st: State, e: Event, slot: Slot)
    requires Enabled(st, e) && slot in st.trace.reserved && slot !in st.trace.doomed && !Ends(e, slot)
    ensures slot in Step(st, e).trace.reserved && slot !in Step(st, e).trace.doomed
  {
  }

  lemma PendingTab(st: State, e: Event, slot: Slot, k: Call)
    requires Enabled(st, e) && ActorOk(st, e) && NotClosing(st, e, slot) && slot in st.trace.reserved && !Ends(e, slot)
    requires k in st.calls && !TabIn(st, slot) ==> !OpensFor(st, k, slot)
    requires e.call in st.calls && k in st.calls && OpensFor(st, e.call, slot) && OpensFor(st, k, slot) ==> k == e.call
    requires !TabIn(Step(st, e), slot) && k in Step(st, e).calls
    ensures !OpensFor(Step(st, e), k, slot)
  {
  }

  lemma PendingNoneYetOpening(st: State, e: Event, slot: Slot, k: Call, c: Context)
    requires Enabled(st, e) && slot in st.trace.reserved && OpensTab(e)
    requires k in st.calls && c in st.trace.origin ==> NoneYet(st, k, slot, c)
    requires e.call in st.calls && k in st.calls && OpensFor(st, e.call, slot) && OpensFor(st, k, slot) ==> k == e.call
    requires k in Step(st, e).calls && c in Step(st, e).trace.origin
    ensures NoneYet(Step(st, e), k, slot, c)
  {
  }

  lemma PendingNoneYetOtherwise(st: State, e: Event, slot: Slot, k: Call, c: Context)
    requires Enabled(st, e) && slot in st.trace.reserved && !OpensTab(e)
    requires k in st.calls && c in st.trace.origin ==> NoneYet(st, k, slot, c)
    requires e.call in st.calls && k in st.calls && OpensFor(st, e.call, slot) && OpensFor(st, k, slot) ==> k == e.call
    requires k in Step(st, e).calls && c in Step(st, e).trace.origin
    ensures NoneYet(Step(st, e), k, slot, c)
  {
  }

  lemma PendingAlive(st: State, e: Event, slot: Slot, c: Context)
    requires Enabled(st, e) && ActorOk(st, e) && NotClosing(st, e, slot) && !Ends(e, slot)
    requires c in st.trace.owner <==> c in st.trace.origin
    requires e.call in st.calls && OpensFor(st, e.call, slot) ==> TabIn(st, slot)
    requires c in st.trace.owner ==> Alive(st, slot, c)
    ensures Alive(Step(st, e), slot, c)
  {
  }

  lemma OneOpener(st: State, e: Event, slot: Slot, k: Call)
    requires Inv(st) && Enabled(st, e)
    ensures e.call in st.calls && k in st.calls && OpensFor(st, e.call, slot) && OpensFor(st, k, slot) ==> k == e.call
  {
    if e.call in st.calls && k in st.calls && OpensFor(st, e.call, slot) && OpensFor(st, k, slot) {
      assert SlotsApart(st, k, e.call);
    }
  }

  lemma PendingKept(st: State, e: Event, slot: Slot)
    requires Inv(st) && Enabled(st, e) && Pending(st, slot) && !Ends(e, slot)
    ensures Pending(Step(st, e), slot)
  {
    var st' := Step(st, e);
    ActorFacts(st, e);
    PendingNotClosing(st, e, slot);
    PendingReserved(st, e, slot);
    forall k | k in st'.calls && !TabIn(st', slot) ensures !OpensFor(st', k, slot) {
      OneOpener(st, e, slot, k);
      PendingTab(st, e, slot, k);
    }
    forall k, c | k in st'.calls && c in st'.trace.origin ensures NoneYet(st', k, slot, c) {
      OneOpener(st, e, slot, k);
      if OpensTab(e) {
        PendingNoneYetOpening(st, e, slot, k, c);
      } else {
        PendingNoneYetOtherwise(st, e, slot, k, c);
      }
    }
    forall c | c in st'.trace.owner ensures Alive(st', slot, c) { PendingAlive(st, e, slot, c); }
  }

  lemma PendingOnceReserved(st: State, e: Event)
    requires Inv(st) && Enabled(st, e) && e.Reserve?
    ensures Pending(Step(st, e), e.slot)
  {
    assert forall k | k in st.calls && IsOpener(st.calls[k]) :: OpenerAt(st, k);
  }

  lemma {:induction false} PendingUntilEnded(states: seq<State>, events: seq<Event>, i: nat, n: nat)
    requires IsRun(states, events) && i < n < |states| && events[i].Reserve?
    requires forall j | i < j < n :: !Ends(events[j], events[i].slot)
    ensures Pending(states[n], events[i].slot)
    decreases n
  {
    assert StepAt(states, events, n - 1);
    RunKeepsInv(states, events, n - 1);
    if i == n - 1 {
      PendingOnceReserved(states[i], events[i]);
    } else {
      PendingUntilEnded(states, events, i, n - 1);
      PendingKept(states[n - 1], events[n - 1], events[i].slot);
    }
  }

  /** Exactly when a context is released: with its session idle, the context opened for a slot has been
      released once if, after the slot was reserved, a close of its session took the lock or its tab was
      completed; otherwise it has not been released at all. */
  lemma ReleasedExactly(states: seq<State>, events: seq<Event>, i: nat, n: nat, c: Context)
    requires IsRun(states, events) && i < n < |states| && events[i].Reserve?
    requires c in states[n].trace.origin && states[n].trace.origin[c] == events[i].slot
    requires Idle(states[n], events[i].slot.session)
    ensures states[n].trace.disposals[c] + states[n].trace.skips[c]
         == if exists j | i < j < n :: Ends(events[j], events[i].slot) then 1 else 0
  {
    var st, slot := states[n], events[i].slot;
    RunKeepsInv(states, events, n);
    IdleOutcome(st, c);
    if j :| i < j < n && Ends(events[j], slot) {
      EndedIsGivenUp(states, events, i, j, n);
    } else {
      PendingUntilEnded(states, events, i, n);
      assert Alive(st, slot, c) && OwnerAt(st, c) && LogAt(st, c);
    }
  }

  // ---------------------------------------------------------------- how a context was released

  /** The step gives this context up. */
  predicate Releases(st: State, e: Event, c: Context)
    requires Enabled(st, e)
  {
    match e
    case Commit(k) => st.calls[k].context == c && !TabIn(st, st.calls[k].slot)
    case ExportEnds(k, _) => st.calls[k].held == Some(c)
    case DropTab(k, t, _) => TabOf(st, Slot(st.calls[k].session, t)) == Some(c)
    case _ => false
  }

  /** There was a browser to ask: an opener has the one it opened with. */
  predicate HasBrowser(e: Event) {
    e.Commit? || ((e.ExportEnds? || e.DropTab?) && e.browser)
  }

  predicate ReleasedAt(states: seq<State>, events: seq<Event>, j: nat, c: Context)
    requires j < |events| && |states| == |events| + 1
  {
    Enabled(states[j], events[j]) && Releases(states[j], events[j], c)
  }

  lemma ReleaseLogged(st: State, e: Event, c: Context)
    requires Enabled(st, e) && ActorOk(st, e)
    ensures Releases(st, e, c) ==> c in st.trace.owner && !st.trace.owner[c].Released?
    ensures var after := Step(st, e).trace.owner;
      (c in after && after[c].Released?) <==> Releases(st, e, c) || (c in st.trace.owner && st.trace.owner[c].Released?)
    ensures Releases(st, e, c) ==> Step(st, e).trace.owner[c] == Released(HasBrowser(e))
    ensures c in st.trace.owner && st.trace.owner[c].Released? ==> Step(st, e).trace.owner[c] == st.trace.owner[c]
  {
  }

  /** The log of one context, read off the run: released by at most one event, and the log says which way. */
  lemma {:induction false} ReleasedByOneEvent(states: seq<State>, events: seq<Event>, n: nat, c: Context)
    requires IsRun(states, events) && n < |states|
    ensures var owner := states[n].trace.owner;
      && (c in owner && owner[c].Released? <==> exists j | 0 <= j < n :: ReleasedAt(states, events, j, c))
      && (forall j | 0 <= j < n && ReleasedAt(states, events, j, c) :: c in owner && owner[c] == Released(HasBrowser(events[j])))
      && (forall j, k | 0 <= j < k < n && ReleasedAt(states, events, j, c) :: !ReleasedAt(states, events, k, c))
  {
    if n > 0 {
      ReleasedByOneEvent(states, events, n - 1, c);
      assert StepAt(states, events, n - 1);
      RunKeepsInv(states, events, n - 1);
      ActorFacts(states[n - 1], events[n - 1]);
      ReleaseLogged(states[n - 1], events[n - 1], c);
      assert ReleasedAt(states, events, n - 1, c) <==> Releases(states[n - 1], events[n - 1], c);
    }
  }

  /** A dispose was attempted exactly when the one event that released the context had a browser, and
      skipped exactly when it had none, whatever happened to other tabs. */
  lemma DisposedExactly(states: seq<State>, events: seq<Event>, n: nat, c: Context)
    requires IsRun(states, events) && n < |states|
    ensures states[n].trace.disposals[c]
         == if exists j | 0 <= j < n :: ReleasedAt(states, events, j, c) && HasBrowser(events[j]) then 1 else 0
    ensures states[n].trace.skips[c]
         == if exists j | 0 <= j < n :: ReleasedAt(states, events, j, c) && !HasBrowser(events[j]) then 1 else 0
    ensures forall j, k | 0 <= j < k < n && ReleasedAt(states, events, j, c) :: !ReleasedAt(states, events, k, c)
  {
    RunKeepsInv(states, events, n);
    ReleasedByOneEvent(states, events, n, c);
    assert LogAt(states[n], c);
  }

  /** What closing achieves: a slot reserved before a close of its session took the lock has, once its
      session is idle, had its context released by exactly one event; that event attempted a dispose if
      and only if it had a browser. */
  lemma ClosingReleasesExactlyOnce(states: seq<State>, events: seq<Event>, i: nat, j: nat, n: nat, c: Context)
    requires IsRun(states, events) && i < j < n < |states|
    requires events[i].Reserve? && events[j].Close? && events[j].session == events[i].slot.session
    requires c in states[n].trace.origin && states[n].trace.origin[c] == events[i].slot
    requires Idle(states[n], events[i].slot.session)
    ensures exists r: nat | r < n ::
      && ReleasedAt(states, events, r, c)
      && (forall k: nat | k < n && ReleasedAt(states, events, k, c) :: k == r)
      && states[n].trace.disposals[c] == (if HasBrowser(events[r]) then 1 else 0)
      && states[n].trace.skips[c] == (if HasBrowser(events[r]) then 0 else 1)
  {
    assert Ends(events[j], events[i].slot);
    ReleasedExactly(states, events, i, n, c);
    DisposedExactly(states, events, n, c);
    var r: nat :| r < n && ReleasedAt(states, events, r, c);
    forall k: nat | k < n && ReleasedAt(states, events, k, c) ensures k == r {}
  }
  /** An open that reaches the lock after its session was closed: a run that ends with no call in
      flight, no current session, and a live context that nothing will dispose. */
  lemma StaleOpenOutlivesClose() returns (states: seq<State>, events: seq<Event>)
    ensures IsRun(states, events)
    ensures var last := states[|events|];
      && last.calls == map[] && last.current == None
      && 0 in last.sessions && last.sessions[0].tabs == map[9 := Some(5)]
      && 5 in last.trace.origin && last.trace.disposals[5] + last.trace.skips[5] == 0
  {
    var first := OpenThenClose();
    var second := OpenAfterClose();
    events := first.1 + second.1;
    states := first.0 + second.0[1..];
    forall i | 0 <= i < |events| ensures StepAt(states, events, i) {
      if i >= |first.1| {
        assert StepAt(second.0, second.1, i - |first.1|);
      } else {
        assert StepAt(first.0, first.1, i);
      }
    }
  }

  const CLOSED := EMPTY.(sessions := map[0 := Session(42, 100, 3, map[])])

  lemma OpenThenClose() returns (run: (seq<State>, seq<Event>))
    ensures Follows(run.0, run.1) && run.0[0] == EMPTY && run.0[|run.1|] == CLOSED
  {
    var e1, e2, e3 := StartDisplay(1, 100), SessionOpened(1, 0, 42, 3), Close(2, 0, Asked);
    var s1, s2 := OpenNow(e1, e2);
    var s3 := CloseNow(s2, e3);
    var s4 := Step(s3, Clear(2));
    var s5 := StopNow(s4);
    run := ([EMPTY, s1, s2, s3, s4, s5], [e1, e2, e3, Clear(2), Finish(2)]);
  }

  lemma OpenNow(e1: Event, e2: Event) returns (s1: State, s2: State)
    requires e1 == StartDisplay(1, 100) && e2 == SessionOpened(1, 0, 42, 3)
    ensures Enabled(EMPTY, e1) && s1 == Step(EMPTY, e1) && Enabled(s1, e2) && s2 == Step(s1, e2)
    ensures s2 == CLOSED.(current := Some(0))
  {
    s1 := Step(EMPTY, e1);
    s2 := Step(s1, e2);
    assert s2.calls == map[];
  }

  lemma CloseNow(st: State, e: Event) returns (next: State)
    requires st == CLOSED.(current := Some(0)) && e == Close(2, 0, Asked)
    ensures Enabled(st, e) && next == Step(st, e)
    ensures next == st.(lock := Some(2), calls := map[2 := Closing(0, {}, None)])
  {
    next := Step(st, e);
    assert st.sessions[0].tabs.Keys == {};
    assert next.trace.doomed == {};
  }

  lemma StopNow(st: State) returns (next: State)
    requires st.calls == map[2 := Stopping(None)] && st.lock == Some(2)
    ensures Enabled(st, Finish(2)) && next == Step(st, Finish(2))
    ensures next == st.(lock := None, calls := map[])
  {
    next := Step(st, Finish(2));
    assert next.calls == map[];
  }

  lemma OpenAfterClose() returns (run: (seq<State>, seq<Event>))
    ensures Follows(run.0, run.1) && run.0[0] == CLOSED
    ensures var last := run.0[|run.1|];
      && last.calls == map[] && last.current == None
      && 0 in last.sessions && last.sessions[0].tabs == map[9 := Some(5)]
      && 5 in last.trace.origin && last.trace.disposals[5] + last.trace.skips[5] == 0
  {
    var slot := Slot(0, 9);
    var s1 := ReserveLate(slot);
    var s2 := ReturnLate(slot, s1);
    var s3 := CommitLate(slot, s2);
    run := ([CLOSED, s1, s2, s3], [Reserve(3, slot), OpenReturns(3, 5), Commit(3)]);
  }

  lemma ReturnLate(slot: Slot, st: State) returns (next: State)
    requires st.calls == map[3 := Opening(slot)] && st.trace == EMPTY.trace.(reserved := {slot})
    ensures Enabled(st, OpenReturns(3, 5)) && next == Step(st, OpenReturns(3, 5))
    ensures next == st.(calls := map[3 := Opened(slot, 5)], trace := next.trace)
    ensures next.trace == st.trace.(origin := map[5 := slot], owner := map[5 := InFlight(3)])
  {
    next := Step(st, OpenReturns(3, 5));
  }

  lemma CommitLate(slot: Slot, st: State) returns (next: State)
    requires slot == Slot(0, 9) && st.calls == map[3 := Opened(slot, 5)] && st.current == None && st.lock == None
    requires st.sessions == map[0 := Session(42, 100, 3, map[9 := None])]
    requires st.trace == EMPTY.trace.(reserved := {slot}, origin := map[5 := slot], owner := map[5 := InFlight(3)])
    ensures Enabled(st, Commit(3)) && next == Step(st, Commit(3))
    ensures next.calls == map[] && next.current == None
    ensures 0 in next.sessions && next.sessions[0].tabs == map[9 := Some(5)]
    ensures 5 in next.trace.origin && next.trace.disposals[5] + next.trace.skips[5] == 0
  {
    next := Step(st, Commit(3));
    assert next.calls == map[] && next.sessions[0].tabs == map[9 := Some(5)];
  }

  lemma ReserveLate(slot: Slot) returns (st: State)
    requires slot == Slot(0, 9)
    ensures Enabled(CLOSED, Reserve(3, slot)) && st == Step(CLOSED, Reserve(3, slot))
    ensures st.calls == map[3 := Opening(slot)] && st.current == None && st.lock == None
    ensures st.sessions == map[0 := Session(42, 100, 3, map[9 := None])]
    ensures st.trace == EMPTY.trace.(reserved := {slot})
  {
    st := Step(CLOSED, Reserve(3, slot));
  }

  // ---------------------------------------------------------------- rolling back

  lemma OpenerBefore(st: State, e: Event, k: Call)
    requires Enabled(st, e) && k in Step(st, e).calls && IsOpener(Step(st, e).calls[k])
    ensures var slot := Step(st, e).calls[k].slot;
      e == Reserve(k, slot) || (k in st.calls && IsOpener(st.calls[k]) && st.calls[k].slot == slot)
  {
  }

  /** Every opener still in flight is working for the slot its own reservation took. */
  lemma {:induction false} OpenerReservedItsSlot(states: seq<State>, events: seq<Event>, n: nat, k: Call)
    requires IsRun(states, events) && n < |states| && k in states[n].calls && IsOpener(states[n].calls[k])
    ensures exists i | 0 <= i < n :: events[i] == Reserve(k, states[n].calls[k].slot)
  {
    if n > 0 {
      var e := events[n - 1];
      assert StepAt(states, events, n - 1);
      OpenerBefore(states[n - 1], e, k);
      if e != Reserve(k, states[n].calls[k].slot) {
        OpenerReservedItsSlot(states, events, n - 1, k);
      }
    }
  }

  /** A failed open gives back the slot it reserved and nothing else: one slot comes free if the
      reservation is still there, none if a close or a completion already took it. */
  lemma RollBackFreesItsOwnSlot(states: seq<State>, events: seq<Event>, n: nat)
    requires IsRun(states, events) && n < |events| && StepAt(states, events, n) && events[n].RollBack?
    ensures var k := events[n].call;
      var slot := states[n].calls[k].slot;
      var before, after := states[n].sessions, states[n + 1].sessions;
      && (exists i | 0 <= i < n :: events[i] == Reserve(k, slot))
      && after.Keys == before.Keys
      && (forall x :: TabIn(states[n + 1], x) <==> TabIn(states[n], x) && x != slot)
      && (forall x | TabIn(states[n + 1], x) :: TabOf(states[n + 1], x) == TabOf(states[n], x))
      && after[slot.session].FreeSlots()
         == before[slot.session].FreeSlots() + (if TabIn(states[n], slot) then 1 else 0)
  {
    assert StepAt(states, events, n);
    OpenerReservedItsSlot(states, events, n, events[n].call);
  }

  // ---------------------------------------------------------------- expiry

  lemma SessionFixedByStep(st: State, e: Event, s: SessionId)
    requires Enabled(st, e) && s in st.sessions
    ensures s in Step(st, e).sessions
    ensures var was, now := st.sessions[s], Step(st, e).sessions[s]; now == was.(tabs := now.tabs)
  {
  }

  /** A session's token, lifetime and slot count never change once it is open. */
  lemma {:induction false} SessionIsFixed(states: seq<State>, events: seq<Event>, i: nat, j: nat, s: SessionId)
    requires IsRun(states, events) && i <= j < |states| && s in states[i].sessions
    ensures s in states[j].sessions
    ensures var was, now := states[i].sessions[s], states[j].sessions[s]; now == was.(tabs := now.tabs)
    decreases j
  {
    if i < j {
      SessionIsFixed(states, events, i, j - 1, s);
      assert StepAt(states, events, j - 1);
      SessionFixedByStep(states[j - 1], events[j - 1], s);
    }
  }

  /** The event starts an open() that is to give its session this expiry. */
  predicate BeginsOpen(e: Event, k: Call, expiresAt: int) {
    e == StartDisplay(k, expiresAt) || (e.Close? && e.call == k && e.cause.Reopening? && e.cause.expiresAt == expiresAt)
  }

  /** The expiry an open() in flight carries. */
  function Carries(stage: Stage): Option<int> {
    match stage
    case Closing(_, _, reopen) => reopen
    case Stopping(reopen) => reopen
    case Starting(expiresAt) => Some(expiresAt)
    case _ => None
  }

  lemma CarriesBefore(st: State, e: Event, k: Call, x: int)
    requires Enabled(st, e) && k in Step(st, e).calls && Carries(Step(st, e).calls[k]) == Some(x)
    ensures BeginsOpen(e, k, x) || (k in st.calls && Carries(st.calls[k]) == Some(x))
  {
  }

  /** The event that began the open(), in flight ever since. */
  ghost predicate BegunAt(states: seq<State>, events: seq<Event>, j: nat, n: nat, k: Call, x: int)
    requires j < n < |states| && |states| == |events| + 1
  {
    BeginsOpen(events[j], k, x) && forall m | j < m <= n :: k in states[m].calls
  }

  lemma {:induction false} CarriedSinceItBegan(states: seq<State>, events: seq<Event>, n: nat, k: Call, x: int)
    requires IsRun(states, events) && n < |states| && k in states[n].calls && Carries(states[n].calls[k]) == Some(x)
    ensures exists j: nat | j < n :: BegunAt(states, events, j, n, k, x)
  {
    if n > 0 {
      assert StepAt(states, events, n - 1);
      CarriesBefore(states[n - 1], events[n - 1], k, x);
      if BeginsOpen(events[n - 1], k, x) {
        assert BegunAt(states, events, n - 1, n, k, x);
      } else {
        CarriedSinceItBegan(states, events, n - 1, k, x);
        var j: nat :| j < n - 1 && BegunAt(states, events, j, n - 1, k, x);
        assert BegunAt(states, events, j, n, k, x);
      }
    }
  }

  /** A session is what its open() asked for, for as long as the run goes on: that token, that many slots
      and never more tabs, no tabs at first, and the expiry set when the open() began. */
  lemma SessionIsAsOpened(states: seq<State>, events: seq<Event>, i: nat, n: nat)
    requires IsRun(states, events) && i < n < |states| && events[i].SessionOpened?
    ensures var SessionOpened(k, s, token, maxSlots) := events[i];
      && s in states[n].sessions && s in states[i + 1].sessions && states[i + 1].sessions[s].tabs == map[] && states[i + 1].current == Some(s)
      && var session := states[n].sessions[s];
      && session.token == token && session.maxSlots == maxSlots
      && |session.tabs| <= (if maxSlots > 0 then maxSlots else 0)
      && 0 < i && exists j: nat | j < i :: BegunAt(states, events, j, i, k, session.expiresAt)
  {
    var SessionOpened(k, s, token, maxSlots) := events[i];
    assert StepAt(states, events, i);
    SessionIsFixed(states, events, i + 1, n, s);
    SlotsNeverExceeded(states, events, n, s);
    CarriedSinceItBegan(states, events, i, k, states[i].calls[k].expiresAt);
  }

  lemma NeverCurrentAgain(st: State, e: Event, s: SessionId)
    requires Enabled(st, e) && s in st.sessions && st.current != Some(s)
    ensures s in Step(st, e).sessions && Step(st, e).current != Some(s)
  {
  }

  /** A session whose close has cleared it is never the current one again. */
  lemma {:induction false} ClosedForGood(states: seq<State>, events: seq<Event>, i: nat, n: nat)
    requires IsRun(states, events) && i < n < |states| && StepAt(states, events, i) && events[i].Clear?
    ensures var s := states[i].calls[events[i].call].session; s in states[n].sessions && states[n].current != Some(s)
    decreases n
  {
    if i < n - 1 {
      ClosedForGood(states, events, i, n - 1);
      assert StepAt(states, events, n - 1);
      NeverCurrentAgain(states[n - 1], events[n - 1], states[i].calls[events[i].call].session);
    }
  }
}
