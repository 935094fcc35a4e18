/** Per-tab lifecycle and ownership of PTY bridges: SessionManager (apps/server/src/session-manager.ts),
    BridgeRegistry (apps/server/src/bridge-registry.ts) and the bridges themselves
    (apps/server/src/terminal-bridge.ts).

    An operation runs under its tab's KeyedMutex, which PromiseChains shows to be a FIFO lock, and moves from one
    await to the next; registry calls go through the registry's own per-tab FIFO.  Bridges may close at any time,
    sockets may ask for removal at any time, and the server may shut down at any time. */
module SessionLifecycle {
  import opened Collections
  import opened TabDocuments

  type Tab = nat
  type BridgeId = nat

  /** `at` is the number of generation changes of the tab when the token was issued. */
  datatype Token = Token(generation: nat, at: nat)

  datatype Operation =
    | Connect(token: Token) | ConnectLegacy | Terminate | TerminateIfStale
    | Recreate | Restart | RestartBridge | CloseTab

  datatype Outcome = Succeeded | AlreadyStopped | Skipped | Failed

  /** Where the operation holding the lock is waiting. */
  datatype Phase =
    | Entered
    | Confirming                                    // the eligibility reader
    | Probing                                       // runtime.exists
    | Preparing                                     // runtime.prepare
    | Storing(target: DesiredState)                 // store.setDesiredState
    | Stored(target: DesiredState, ok: bool)
    | AwaitingClose                                 // registry.close, queued
    | ClosedBy(ok: bool)
    | AwaitingReplace(bridge: BridgeId)             // registry.replace, queued
    | AwaitingBarrier(rejected: Option<BridgeId>)   // a registry call made after closeAll
    | Replaced(ok: bool)
    | Killing(failed: bool)                         // runtime.kill while stopping
    | CleaningUp                                    // runtime.kill after a failed start
    | Removing                                      // store.remove
    | Removed(ok: bool)
    | Viewing(outcome: Outcome)                     // the final health probe

  datatype Running = Running(op: Operation, phase: Phase)

  datatype Call = Close | Replace(bridge: BridgeId) | Remove(bridge: BridgeId)

  /** Everything keyed by one tab.  `live` holds the bridges of the tab that are not closed; `closing` is the owner
      that the head registry call is waiting for; `changes` counts changes of the tab's generation entry. */
  datatype TabState = TabState(
    desired: Option<DesiredState>,
    generation: Option<nat>, changes: nat, issued: seq<Token>,
    holder: Option<Running>, waiting: seq<Operation>, results: seq<(Operation, Outcome)>,
    owner: Option<BridgeId>, calls: seq<Call>, closing: Option<BridgeId>,
    live: set<BridgeId>)

  const UNUSED := TabState(None, None, 0, [], None, [], [], None, [], None, {})

  /** closeAll: not called; waiting for queued calls; owners closed and being dropped; resolved. */
  datatype Shutdown = Open | Draining | Closing | Shut

  datatype World = World(tabs: map<Tab, TabState>, clock: nat, nextBridge: BridgeId, shutdown: Shutdown)

  const INITIAL := World(map[], 0, 0, Open)

  function At(w: World, t: Tab): TabState {
    if t in w.tabs then w.tabs[t] else UNUSED
  }

  /** Success, a negative answer, or an exception of whatever the operation awaited. */
  datatype Answer = Yes | No | Error

  /** The part of the world one operation works on. */
  datatype Local = Local(tab: TabState, clock: nat, nextBridge: BridgeId, open: bool)

  // ---------------------------------------------------------------- operations

  function Go(l: Local, phase: Phase): Local {
    if l.tab.holder.None? then l else l.(tab := l.tab.(holder := Some(l.tab.holder.value.(phase := phase))))
  }

  /** Leaves the lock. */
  function Finish(l: Local, outcome: Outcome): Local {
    if l.tab.holder.None? then l
    else l.(tab := l.tab.(holder := None, results := l.tab.results + [(l.tab.holder.value.op, outcome)]))
  }

  function IncrementGeneration(l: Local): Local {
    l.(tab := l.tab.(generation := Some(l.clock + 1), changes := l.tab.changes + 1), clock := l.clock + 1)
  }

  function DeleteGeneration(l: Local): Local {
    l.(tab := l.tab.(generation := None, changes := l.tab.changes + 1))
  }

  function CallClose(l: Local): Local {
    if l.open then Go(l.(tab := l.tab.(calls := l.tab.calls + [Close])), AwaitingClose)
    else Go(l, AwaitingBarrier(None))
  }

  /** Spawns the PTY, creates its bridge, and hands it to the registry. */
  function CreateBridge(l: Local): Local {
    var b := l.nextBridge;
    var made := l.(nextBridge := b + 1, tab := l.tab.(live := l.tab.live + {b}));
    if l.open then Go(made.(tab := made.tab.(calls := made.tab.calls + [Replace(b)])), AwaitingReplace(b))
    else Go(made, AwaitingBarrier(Some(b)))
  }

  function TerminateBody(l: Local): Local {
    if l.tab.desired.None? then Finish(l, Failed)
    else if l.tab.desired.value == Stopped then Go(l, Probing)
    else Go(IncrementGeneration(l), Storing(Stopped))
  }

  /** `terminateLocked` from the await at `phase`. */
  function ResumeTerminate(l: Local, phase: Phase, answer: Answer): Local {
    match phase
    case Probing =>
      if answer == No && l.tab.owner.None? then Finish(l, AlreadyStopped)
      else Go(IncrementGeneration(l), Storing(Stopped))
    case Stored(_, ok) => if ok then CallClose(l) else Finish(l, Failed)
    case ClosedBy(ok) => Go(l, Killing(!ok))
    case Killing(failed) => Go(l, Viewing(if failed || answer != Yes then Failed else Succeeded))
    case Viewing(outcome) => Finish(l, outcome)
    case _ => l
  }

  function ResumeAttach(l: Local, phase: Phase, answer: Answer): Local {
    match phase
    case Preparing => if answer == Yes then CallClose(l) else Finish(l, Failed)
    case ClosedBy(ok) => if ok && answer == Yes then CreateBridge(l) else Finish(l, Failed)
    case Replaced(ok) => Finish(l, if ok then Succeeded else Failed)
    case _ => l
  }

  function ResumeRecreate(l: Local, phase: Phase, answer: Answer): Local {
    match phase
    case Entered => if l.tab.desired != Some(Stopped) || answer != Yes then Finish(l, Failed) else Go(l, Probing)
    case Probing => if answer == No then Go(IncrementGeneration(l), Preparing) else Finish(l, Failed)
    case Preparing => Go(l, if answer == Yes then Storing(Active) else CleaningUp)
    case Stored(_, ok) => if ok then Go(IncrementGeneration(l), Viewing(Succeeded)) else Go(l, CleaningUp)
    case CleaningUp => Finish(l, Failed)
    case Viewing(outcome) => Finish(l, outcome)
    case _ => l
  }

  function ResumeRestart(l: Local, phase: Phase, answer: Answer): Local {
    match phase
    case Entered =>
      if l.tab.desired.None? || answer != Yes then Finish(l, Failed) else Go(IncrementGeneration(l), Storing(Stopped))
    case Stored(target, ok) =>
      if target == Stopped then if ok then CallClose(l) else Finish(l, Failed)
      else if ok then Go(IncrementGeneration(l), Viewing(Succeeded))
      else Go(l, CleaningUp)
    case ClosedBy(ok) => Go(l, Killing(!ok))
    case Killing(failed) => Go(l, if failed || answer != Yes then Viewing(Failed) else Preparing)
    case Preparing => Go(l, if answer == Yes then Storing(Active) else CleaningUp)
    case CleaningUp => Go(l, Viewing(Failed))
    case Viewing(outcome) => Finish(l, outcome)
    case _ => l
  }

  function ResumeRestartBridge(l: Local, phase: Phase): Local {
    match phase
    case Entered => if l.tab.desired.None? then Finish(l, Failed) else CallClose(l)
    case ClosedBy(ok) => if ok then Go(l, Viewing(Succeeded)) else Finish(l, Failed)
    case Viewing(outcome) => Finish(l, outcome)
    case _ => l
  }

  function ResumeCloseTab(l: Local, phase: Phase, answer: Answer): Local {
    match phase
    case Entered => if l.tab.desired.None? then Finish(l, Failed) else Go(IncrementGeneration(l), Storing(Stopped))
    case Stored(_, ok) => if ok then CallClose(l) else Finish(l, Failed)
    case ClosedBy(ok) => Go(l, Killing(!ok))
    case Killing(failed) => Go(l, if failed || answer != Yes then Viewing(Failed) else Removing)
    case Removed(ok) => if ok then Finish(DeleteGeneration(l), Succeeded) else Go(l, Viewing(Failed))
    case Viewing(outcome) => Finish(l, outcome)
    case _ => l
  }

  /** The check of `connect` on entry. */
  predicate TokenAccepted(tab: TabState, token: Token) {
    tab.desired == Some(Active) && tab.generation == Some(token.generation)
  }

  /** Runs the holder from its await to the next one. */
  function Resume(l: Local, answer: Answer): Local
    requires l.tab.holder.Some?
  {
    var phase := l.tab.holder.value.phase;
    match l.tab.holder.value.op
    case Connect(token) =>
      if phase == Entered then
        if TokenAccepted(l.tab, token) && answer == Yes then Go(l, Preparing) else Finish(l, Failed)
      else ResumeAttach(l, phase, answer)
    case ConnectLegacy => if phase == Entered then Go(l, Preparing) else ResumeAttach(l, phase, answer)
    case Terminate => if phase == Entered then TerminateBody(l) else ResumeTerminate(l, phase, answer)
    case TerminateIfStale =>
      if phase == Entered then if answer == Yes then Go(l, Confirming) else Finish(l, Skipped)
      else if phase == Confirming then if answer == Yes then TerminateBody(l) else Finish(l, Skipped)
      else ResumeTerminate(l, phase, answer)
    case Recreate => ResumeRecreate(l, phase, answer)
    case Restart => ResumeRestart(l, phase, answer)
    case RestartBridge => ResumeRestartBridge(l, phase)
    case CloseTab => ResumeCloseTab(l, phase, answer)
  }

  /** Phases that continue on an answer of the runtime or simply on their turn. */
  predicate Resumable(phase: Phase) {
    match phase
    case Storing(_) => false
    case AwaitingClose => false
    case AwaitingReplace(_) => false
    case AwaitingBarrier(_) => false
    case Removing => false
    case _ => true
  }

  // ---------------------------------------------------------------- the registry

  function Settle(tab: TabState, phase: Phase): TabState {
    if tab.holder.None? then tab else tab.(holder := Some(tab.holder.value.(phase := phase)))
  }

  /** The head call leaves the queue. */
  function Popped(tab: TabState): TabState
    requires tab.calls != []
  {
    tab.(calls := tab.calls[1..], closing := None)
  }

  /** The synchronous start of the head call.  The owner is closed when its `close()` returns, before the promise is
      awaited (`TerminalBridge.CloseBridge`). */
  function CallBegins(tab: TabState): TabState
    requires tab.calls != [] && tab.closing.None?
  {
    match tab.calls[0]
    case Close =>
      if tab.owner.None? then Settle(Popped(tab), ClosedBy(true))
      else tab.(closing := tab.owner, live := tab.live - {tab.owner.value})
    case Replace(b) =>
      if tab.owner.Some? && tab.owner.value != b then tab.(closing := tab.owner, live := tab.live - {tab.owner.value})
      else Settle(Popped(tab).(owner := Some(b)), Replaced(true))
    case Remove(b) => Popped(tab).(owner := if tab.owner == Some(b) then None else tab.owner)
  }

  /** The awaited `close()` of the prior owner resolved or rejected. */
  function CallEnds(tab: TabState, ok: bool): TabState
    requires tab.calls != [] && tab.closing.Some?
  {
    match tab.calls[0]
    case Close =>
      if !ok then Settle(Popped(tab), ClosedBy(false))
      else Settle(Popped(tab).(owner := if tab.owner == tab.closing then None else tab.owner), ClosedBy(true))
    case Replace(b) =>
      if !ok then Settle(Popped(tab).(live := tab.live - {b}), Replaced(false))
      else Settle(Popped(tab).(owner := if tab.owner == tab.closing then Some(b) else tab.owner), Replaced(true))
    case Remove(_) => Popped(tab)
  }

  /** The shutdown barrier has resolved: a late close succeeds, a late bridge is closed and rejected. */
  function BarrierPassed(tab: TabState, rejected: Option<BridgeId>): TabState {
    match rejected
    case None => Settle(tab, ClosedBy(true))
    case Some(b) => Settle(tab.(live := tab.live - {b}), Replaced(false))
  }

  /** closeAll closes every registered owner in one stretch. */
  function OwnerClosed(tab: TabState): TabState {
    if tab.owner.Some? then tab.(live := tab.live - {tab.owner.value}) else tab
  }

  // ---------------------------------------------------------------- events

  datatype TabEvent =
    | AddTab
    | Authorize
    | Request(op: Operation)
    | Acquire
    | Proceed(answer: Answer)
    | StoreSettles(ok: bool)
    | CallStarts
    | CallSettles(ok: bool)
    | BarrierResolves
    | BridgeCloses(bridge: BridgeId)
    | SocketRemoves(bridge: BridgeId)

  datatype Event =
    | OnTab(tab: Tab, e: TabEvent)
    | CloseAll
    | CloseOwners
    | DropOwner(tab: Tab)
    | ResolveShutdown

  predicate EnabledAt(l: Local, shut: bool, e: TabEvent) {
    var tab := l.tab;
    match e
    case AddTab => tab.desired.None?
    case Authorize => tab.desired == Some(Active)
    case Request(op) => op.Connect? ==> op.token in tab.issued
    case Acquire => tab.holder.None? && tab.waiting != []
    case Proceed(_) => tab.holder.Some? && Resumable(tab.holder.value.phase)
    case StoreSettles(_) =>
      tab.holder.Some? && (tab.holder.value.phase.Storing? || tab.holder.value.phase.Removing?)
    case CallStarts => tab.calls != [] && tab.closing.None?
    case CallSettles(_) => tab.calls != [] && tab.closing.Some?
    case BarrierResolves => shut && tab.holder.Some? && tab.holder.value.phase.AwaitingBarrier?
    case BridgeCloses(b) => b < l.nextBridge
    // A socket's cleanup awaits the close of its own bridge before it asks for removal.
    case SocketRemoves(b) => b < l.nextBridge && b !in tab.live
  }

  function EnsureGeneration(l: Local): Local {
    if l.tab.generation.Some? then l else l.(tab := l.tab.(generation := Some(l.clock + 1)), clock := l.clock + 1)
  }

  function StoreDone(tab: TabState, ok: bool): TabState
    requires tab.holder.Some?
  {
    var phase := tab.holder.value.phase;
    if phase.Storing? then
      Settle(tab.(desired := if ok && tab.desired.Some? then Some(phase.target) else tab.desired),
             Stored(phase.target, ok && tab.desired.Some?))
    else Settle(tab.(desired := if ok then None else tab.desired), Removed(ok))
  }

  function StepAt(l: Local, shut: bool, e: TabEvent): Local
    requires EnabledAt(l, shut, e)
  {
    var tab := l.tab;
    match e
    case AddTab => l.(tab := tab.(desired := Some(Active)))
    case Authorize =>
      var ensured := EnsureGeneration(l);
      ensured.(tab := ensured.tab.(issued := tab.issued + [Token(ensured.tab.generation.value, tab.changes)]))
    case Request(op) => l.(tab := tab.(waiting := tab.waiting + [op]))
    case Acquire => l.(tab := tab.(holder := Some(Running(tab.waiting[0], Entered)), waiting := tab.waiting[1..]))
    case Proceed(answer) => Resume(l, answer)
    case StoreSettles(ok) => l.(tab := StoreDone(tab, ok))
    case CallStarts => l.(tab := CallBegins(tab))
    case CallSettles(ok) => l.(tab := CallEnds(tab, ok))
    case BarrierResolves => l.(tab := BarrierPassed(tab, tab.holder.value.phase.rejected))
    case BridgeCloses(b) => l.(tab := tab.(live := tab.live - {b}))
    case SocketRemoves(b) => if l.open then l.(tab := tab.(calls := tab.calls + [Call.Remove(b)])) else l
  }

  function LocalAt(w: World, t: Tab): Local {
    Local(At(w, t), w.clock, w.nextBridge, w.shutdown == Open)
  }

  predicate Enabled(w: World, e: Event) {
    match e
    case OnTab(t, te) => EnabledAt(LocalAt(w, t), w.shutdown == Shut, te)
    case CloseAll => w.shutdown == Open
    case CloseOwners => w.shutdown == Draining && forall t :: t in w.tabs ==> w.tabs[t].calls == []
    case DropOwner(t) => w.shutdown == Closing && t in w.tabs
    case ResolveShutdown => w.shutdown == Closing && forall t :: t in w.tabs ==> w.tabs[t].owner.None?
  }

  function Step(w: World, e: Event): World
    requires Enabled(w, e)
  {
    match e
    case OnTab(t, te) =>
      var l := StepAt(LocalAt(w, t), w.shutdown == Shut, te);
      w.(tabs := w.tabs[t := l.tab], clock := l.clock, nextBridge := l.nextBridge)
    case CloseAll => w.(shutdown := Draining)
    case CloseOwners => w.(shutdown := Closing, tabs := map t | t in w.tabs :: OwnerClosed(w.tabs[t]))
    case DropOwner(t) => w.(tabs := w.tabs[t := w.tabs[t].(owner := None)])
    case ResolveShutdown => w.(shutdown := Shut)
  }

  ghost predicate Reaches(from: World, events: seq<Event>, to: World)
    decreases events
  {
    if events == [] then from == to
    else Enabled(from, events[0]) && Reaches(Step(from, events[0]), events[1..], to)
  }

  // ---------------------------------------------------------------- what every tab keeps

  /** The bridge that the holder has created and the registry does not own yet. */
  function Unregistered(tab: TabState): Option<BridgeId> {
    if tab.holder.None? then None
    else match tab.holder.value.phase
      case AwaitingReplace(b) => Some(b)
      case AwaitingBarrier(rejected) => rejected
      case _ => None
  }

  /** Phases reached only through a registry close that succeeded and not yet left by registering a new owner. */
  predicate AfterClose(r: Running) {
    match r.phase
    case ClosedBy(ok) => ok
    case AwaitingReplace(_) => true
    case AwaitingBarrier(rejected) => rejected.Some?
    case Killing(failed) => !failed
    case Viewing(outcome) => outcome == Succeeded && !r.op.Recreate? && !r.op.Restart?
    case _ => false
  }

  /** Phases of a termination between the store's commit of "stopped" and the end. */
  predicate AfterStop(r: Running) {
    (r.op.Terminate? || r.op.TerminateIfStale?)
    && match r.phase
       case Stored(target, ok) => ok
       case AwaitingClose => true
       case AwaitingBarrier(_) => true
       case ClosedBy(_) => true
       case Killing(_) => true
       case Viewing(_) => true
       case _ => false
  }

  /** Only the holder has a close or a replace in the registry's queue, and it waits for it. */
  ghost predicate CallsMatch(tab: TabState) {
    && (forall i :: 0 <= i < |tab.calls| && !tab.calls[i].Remove? ==>
          && tab.holder.Some?
          && (tab.calls[i].Close? ==> tab.holder.value.phase == AwaitingClose)
          && (tab.calls[i].Replace? ==> tab.holder.value.phase == AwaitingReplace(tab.calls[i].bridge)))
    && (forall i, j :: 0 <= i < j < |tab.calls| ==> tab.calls[i].Remove? || tab.calls[j].Remove?)
    && (tab.closing.Some? ==> tab.calls != [] && !tab.calls[0].Remove? && tab.owner == tab.closing)
  }

  /** Removals concern closed bridges only. */
  ghost predicate RemovalsClosed(tab: TabState, nextBridge: BridgeId) {
    forall i :: 0 <= i < |tab.calls| && tab.calls[i].Remove? ==>
      tab.calls[i].bridge < nextBridge && tab.calls[i].bridge !in tab.live
  }

  /** Every unclosed bridge is the registered owner or the holder's new bridge, which excludes an owner. */
  ghost predicate BridgesOwned(tab: TabState) {
    && (forall b :: b in tab.live ==> tab.owner == Some(b) || Unregistered(tab) == Some(b))
    && (tab.holder.Some? && AfterClose(tab.holder.value) ==> tab.owner.None?)
    && (tab.closing.Some? ==> tab.closing.value !in tab.live)
  }

  ghost predicate ShutdownMatch(tab: TabState, shutdown: Shutdown) {
    && (tab.holder.Some? && tab.holder.value.phase.AwaitingBarrier? ==> shutdown != Open)
    && (shutdown == Closing || shutdown == Shut ==>
          tab.calls == [] && (tab.owner.Some? ==> tab.owner.value !in tab.live))
    && (shutdown == Shut ==> tab.owner.None?)
  }

  /** A termination stores nothing but "stopped". */
  predicate StoresStopped(r: Running) {
    (r.op.Terminate? || r.op.TerminateIfStale?) && r.phase.Storing? ==> r.phase.target == Stopped
  }

  ghost predicate BridgeInv(tab: TabState, nextBridge: BridgeId, shutdown: Shutdown) {
    && CallsMatch(tab) && RemovalsClosed(tab, nextBridge) && BridgesOwned(tab) && ShutdownMatch(tab, shutdown)
    && (tab.holder.Some? && AfterStop(tab.holder.value) ==> tab.desired == Some(Stopped))
    && (tab.holder.Some? ==> StoresStopped(tab.holder.value))
  }

  /** A token's generation is current exactly while the tab's generation has not changed since it was issued. */
  ghost predicate TokenInv(tab: TabState, clock: nat, token: Token) {
    && token.generation <= clock && token.at <= tab.changes
    && (token.at == tab.changes <==> tab.generation == Some(token.generation))
    && (token.at < tab.changes && tab.generation.Some? ==> tab.generation.value > token.generation)
  }

  ghost predicate TokensInv(tab: TabState, clock: nat) {
    && (tab.generation.Some? ==> tab.generation.value <= clock)
    && forall token :: token in tab.issued ==> TokenInv(tab, clock, token)
  }

  ghost predicate LocalInv(l: Local, shutdown: Shutdown) {
    BridgeInv(l.tab, l.nextBridge, shutdown) && TokensInv(l.tab, l.clock)
  }

  ghost predicate Inv(w: World) {
    forall t :: t in w.tabs ==> LocalInv(LocalAt(w, t), w.shutdown)
  }

  // ---------------------------------------------------------------- every step keeps it

  /** While the holder is not waiting for the registry, only removals are queued. */
  lemma OnlyRemovalsQueued(tab: TabState)
    requires CallsMatch(tab) && tab.holder.Some? && Resumable(tab.holder.value.phase)
    ensures forall i :: 0 <= i < |tab.calls| ==> tab.calls[i].Remove?
    ensures tab.closing.None? && Unregistered(tab).None?
  {
  }

  /** The holder is between two awaits. */
  ghost predicate Awake(l: Local, shutdown: Shutdown) {
    && BridgeInv(l.tab, l.nextBridge, shutdown) && l.open == (shutdown == Open)
    && l.tab.holder.Some? && Resumable(l.tab.holder.value.phase)
  }

  /** The next phase claims no more than the tab provides. */
  ghost predicate Justified(tab: TabState, r: Running) {
    && (AfterClose(r) ==> tab.owner.None?)
    && (AfterStop(r) ==> tab.desired == Some(Stopped))
    && StoresStopped(r)
  }

  lemma GoKeepsBridges(l: Local, shutdown: Shutdown, phase: Phase)
    requires Awake(l, shutdown) && !phase.AwaitingClose? && !phase.AwaitingReplace? && !phase.AwaitingBarrier?
    requires Justified(l.tab, l.tab.holder.value.(phase := phase))
    ensures BridgeInv(Go(l, phase).tab, l.nextBridge, shutdown)
  {
    OnlyRemovalsQueued(l.tab);
  }

  lemma FinishKeepsBridges(l: Local, shutdown: Shutdown, outcome: Outcome)
    requires Awake(l, shutdown)
    ensures BridgeInv(Finish(l, outcome).tab, l.nextBridge, shutdown)
  {
    OnlyRemovalsQueued(l.tab);
  }

  lemma CallCloseKeepsBridges(l: Local, shutdown: Shutdown)
    requires Awake(l, shutdown)
    requires l.tab.holder.value.op.Terminate? || l.tab.holder.value.op.TerminateIfStale? ==>
               l.tab.desired == Some(Stopped)
    ensures BridgeInv(CallClose(l).tab, l.nextBridge, shutdown)
  {
    OnlyRemovalsQueued(l.tab);
  }

  lemma CreateBridgeKeepsBridges(l: Local, shutdown: Shutdown)
    requires Awake(l, shutdown) && l.tab.owner.None?
    requires !l.tab.holder.value.op.Terminate? && !l.tab.holder.value.op.TerminateIfStale?
    ensures BridgeInv(CreateBridge(l).tab, l.nextBridge + 1, shutdown)
  {
    OnlyRemovalsQueued(l.tab);
  }

  lemma IncrementKeepsAwake(l: Local, shutdown: Shutdown)
    requires Awake(l, shutdown)
    ensures Awake(IncrementGeneration(l), shutdown) && Awake(DeleteGeneration(l), shutdown)
  {
  }

  ghost predicate Kept(l: Local, v: Local, shutdown: Shutdown) {
    BridgeInv(v.tab, v.nextBridge, shutdown) && l.nextBridge <= v.nextBridge
  }

  lemma TerminateBodyKeepsBridges(l: Local, shutdown: Shutdown)
    requires Awake(l, shutdown)
    ensures Kept(l, TerminateBody(l), shutdown)
  {
    IncrementKeepsAwake(l, shutdown);
    FinishKeepsBridges(l, shutdown, Failed);
    GoKeepsBridges(l, shutdown, Probing);
    GoKeepsBridges(IncrementGeneration(l), shutdown, Storing(Stopped));
  }

  lemma TerminateKeepsBridges(l: Local, shutdown: Shutdown, answer: Answer)
    requires Awake(l, shutdown) && (l.tab.holder.value.op.Terminate? || l.tab.holder.value.op.TerminateIfStale?)
    ensures Kept(l, ResumeTerminate(l, l.tab.holder.value.phase, answer), shutdown)
  {
    IncrementKeepsAwake(l, shutdown);
    match l.tab.holder.value.phase
    case Probing =>
      FinishKeepsBridges(l, shutdown, AlreadyStopped);
      GoKeepsBridges(IncrementGeneration(l), shutdown, Storing(Stopped));
    case Stored(_, ok) =>
      FinishKeepsBridges(l, shutdown, Failed);
      if ok { CallCloseKeepsBridges(l, shutdown); }
    case ClosedBy(ok) => GoKeepsBridges(l, shutdown, Killing(!ok));
    case Killing(failed) => GoKeepsBridges(l, shutdown, Viewing(if failed || answer != Yes then Failed else Succeeded));
    case Viewing(outcome) => FinishKeepsBridges(l, shutdown, outcome);
    case _ =>
  }

  lemma AttachKeepsBridges(l: Local, shutdown: Shutdown, answer: Answer)
    requires Awake(l, shutdown) && (l.tab.holder.value.op.Connect? || l.tab.holder.value.op.ConnectLegacy?)
    ensures Kept(l, ResumeAttach(l, l.tab.holder.value.phase, answer), shutdown)
  {
    FinishKeepsBridges(l, shutdown, Failed);
    FinishKeepsBridges(l, shutdown, Succeeded);
    match l.tab.holder.value.phase
    case Preparing => CallCloseKeepsBridges(l, shutdown);
    case ClosedBy(ok) => if ok { CreateBridgeKeepsBridges(l, shutdown); }
    case _ =>
  }

  lemma RecreateKeepsBridges(l: Local, shutdown: Shutdown, answer: Answer)
    requires Awake(l, shutdown) && l.tab.holder.value.op.Recreate?
    ensures Kept(l, ResumeRecreate(l, l.tab.holder.value.phase, answer), shutdown)
  {
    IncrementKeepsAwake(l, shutdown);
    FinishKeepsBridges(l, shutdown, Failed);
    match l.tab.holder.value.phase
    case Entered => GoKeepsBridges(l, shutdown, Probing);
    case Probing => GoKeepsBridges(IncrementGeneration(l), shutdown, Preparing);
    case Preparing => GoKeepsBridges(l, shutdown, if answer == Yes then Storing(Active) else CleaningUp);
    case Stored(_, _) =>
      GoKeepsBridges(IncrementGeneration(l), shutdown, Viewing(Succeeded));
      GoKeepsBridges(l, shutdown, CleaningUp);
    case Viewing(outcome) => FinishKeepsBridges(l, shutdown, outcome);
    case _ =>
  }

  lemma RestartKeepsBridges(l: Local, shutdown: Shutdown, answer: Answer)
    requires Awake(l, shutdown) && l.tab.holder.value.op.Restart?
    ensures Kept(l, ResumeRestart(l, l.tab.holder.value.phase, answer), shutdown)
  {
    IncrementKeepsAwake(l, shutdown);
    FinishKeepsBridges(l, shutdown, Failed);
    match l.tab.holder.value.phase
    case Entered => GoKeepsBridges(IncrementGeneration(l), shutdown, Storing(Stopped));
    case Stored(_, _) =>
      CallCloseKeepsBridges(l, shutdown);
      GoKeepsBridges(IncrementGeneration(l), shutdown, Viewing(Succeeded));
      GoKeepsBridges(l, shutdown, CleaningUp);
    case ClosedBy(ok) => GoKeepsBridges(l, shutdown, Killing(!ok));
    case Killing(failed) => GoKeepsBridges(l, shutdown, if failed || answer != Yes then Viewing(Failed) else Preparing);
    case Preparing => GoKeepsBridges(l, shutdown, if answer == Yes then Storing(Active) else CleaningUp);
    case CleaningUp => GoKeepsBridges(l, shutdown, Viewing(Failed));
    case Viewing(outcome) => FinishKeepsBridges(l, shutdown, outcome);
    case _ =>
  }

  lemma RestartBridgeKeepsBridges(l: Local, shutdown: Shutdown)
    requires Awake(l, shutdown) && l.tab.holder.value.op.RestartBridge?
    ensures Kept(l, ResumeRestartBridge(l, l.tab.holder.value.phase), shutdown)
  {
    FinishKeepsBridges(l, shutdown, Failed);
    match l.tab.holder.value.phase
    case Entered => CallCloseKeepsBridges(l, shutdown);
    case ClosedBy(ok) => if ok { GoKeepsBridges(l, shutdown, Viewing(Succeeded)); }
    case Viewing(outcome) => FinishKeepsBridges(l, shutdown, outcome);
    case _ =>
  }

  lemma CloseTabKeepsBridges(l: Local, shutdown: Shutdown, answer: Answer)
    requires Awake(l, shutdown) && l.tab.holder.value.op.CloseTab?
    ensures Kept(l, ResumeCloseTab(l, l.tab.holder.value.phase, answer), shutdown)
  {
    IncrementKeepsAwake(l, shutdown);
    FinishKeepsBridges(l, shutdown, Failed);
    match l.tab.holder.value.phase
    case Entered => GoKeepsBridges(IncrementGeneration(l), shutdown, Storing(Stopped));
    case Stored(_, _) => CallCloseKeepsBridges(l, shutdown);
    case ClosedBy(ok) => GoKeepsBridges(l, shutdown, Killing(!ok));
    case Killing(failed) => GoKeepsBridges(l, shutdown, if failed || answer != Yes then Viewing(Failed) else Removing);
    case Removed(_) =>
      FinishKeepsBridges(DeleteGeneration(l), shutdown, Succeeded);
      GoKeepsBridges(l, shutdown, Viewing(Failed));
    case Viewing(outcome) => FinishKeepsBridges(l, shutdown, outcome);
    case _ =>
  }

  lemma ProceedKeepsBridges(l: Local, shutdown: Shutdown, answer: Answer)
    requires Awake(l, shutdown)
    ensures Kept(l, Resume(l, answer), shutdown)
  {
    FinishKeepsBridges(l, shutdown, Failed);
    FinishKeepsBridges(l, shutdown, Skipped);
    TerminateBodyKeepsBridges(l, shutdown);
    match l.tab.holder.value.op
    case Connect(_) =>
      GoKeepsBridges(l, shutdown, Preparing);
      AttachKeepsBridges(l, shutdown, answer);
    case ConnectLegacy =>
      GoKeepsBridges(l, shutdown, Preparing);
      AttachKeepsBridges(l, shutdown, answer);
    case Terminate => TerminateKeepsBridges(l, shutdown, answer);
    case TerminateIfStale =>
      GoKeepsBridges(l, shutdown, Confirming);
      TerminateKeepsBridges(l, shutdown, answer);
    case Recreate => RecreateKeepsBridges(l, shutdown, answer);
    case Restart => RestartKeepsBridges(l, shutdown, answer);
    case RestartBridge => RestartBridgeKeepsBridges(l, shutdown);
    case CloseTab => CloseTabKeepsBridges(l, shutdown, answer);
  }

  lemma CallStartKeepsBridges(tab: TabState, next: BridgeId, shutdown: Shutdown)
    requires BridgeInv(tab, next, shutdown) && tab.calls != [] && tab.closing.None?
    ensures BridgeInv(CallBegins(tab), next, shutdown)
  {
    assert forall i :: 0 <= i < |tab.calls| - 1 ==> tab.calls[1..][i] == tab.calls[i + 1];
  }

  lemma CallEndKeepsBridges(tab: TabState, next: BridgeId, shutdown: Shutdown, ok: bool)
    requires BridgeInv(tab, next, shutdown) && tab.calls != [] && tab.closing.Some?
    ensures BridgeInv(CallEnds(tab, ok), next, shutdown)
  {
    assert forall i :: 0 <= i < |tab.calls| - 1 ==> tab.calls[1..][i] == tab.calls[i + 1];
  }

  lemma StoreKeepsBridges(tab: TabState, next: BridgeId, shutdown: Shutdown, ok: bool)
    requires BridgeInv(tab, next, shutdown)
    requires tab.holder.Some? && (tab.holder.value.phase.Storing? || tab.holder.value.phase.Removing?)
    ensures BridgeInv(StoreDone(tab, ok), next, shutdown)
  {
  }

  lemma BarrierKeepsBridges(tab: TabState, next: BridgeId)
    requires BridgeInv(tab, next, Shut) && tab.holder.Some? && tab.holder.value.phase.AwaitingBarrier?
    ensures BridgeInv(BarrierPassed(tab, tab.holder.value.phase.rejected), next, Shut)
  {
  }

  lemma ClosingKeepsBridges(tab: TabState, next: BridgeId, shutdown: Shutdown, b: BridgeId)
    requires BridgeInv(tab, next, shutdown)
    ensures BridgeInv(tab.(live := tab.live - {b}), next, shutdown)
  {
  }

  lemma RemovalKeepsBridges(tab: TabState, next: BridgeId, b: BridgeId)
    requires BridgeInv(tab, next, Open) && b < next && b !in tab.live
    ensures BridgeInv(tab.(calls := tab.calls + [Call.Remove(b)]), next, Open)
  {
  }

  lemma ArrivalKeepsBridges(l: Local, shutdown: Shutdown, e: TabEvent)
    requires BridgeInv(l.tab, l.nextBridge, shutdown) && EnabledAt(l, shutdown == Shut, e)
    requires e.AddTab? || e.Authorize? || e.Request? || e.Acquire?
    ensures Kept(l, StepAt(l, shutdown == Shut, e), shutdown)
  {
  }

  lemma StepKeepsBridges(l: Local, shutdown: Shutdown, e: TabEvent)
    requires BridgeInv(l.tab, l.nextBridge, shutdown) && l.open == (shutdown == Open)
    requires EnabledAt(l, shutdown == Shut, e)
    ensures Kept(l, StepAt(l, shutdown == Shut, e), shutdown)
  {
    match e
    case Proceed(answer) => ProceedKeepsBridges(l, shutdown, answer);
    case StoreSettles(ok) => StoreKeepsBridges(l.tab, l.nextBridge, shutdown, ok);
    case CallStarts => CallStartKeepsBridges(l.tab, l.nextBridge, shutdown);
    case CallSettles(ok) => CallEndKeepsBridges(l.tab, l.nextBridge, shutdown, ok);
    case BarrierResolves => BarrierKeepsBridges(l.tab, l.nextBridge);
    case BridgeCloses(b) => ClosingKeepsBridges(l.tab, l.nextBridge, shutdown, b);
    case SocketRemoves(b) => if l.open { RemovalKeepsBridges(l.tab, l.nextBridge, b); }
    case _ => ArrivalKeepsBridges(l, shutdown, e);
  }

  // ---------------------------------------------------------------- generations and tokens

  /** Progress of the generation entry: untouched, or changed once to a newer value or to nothing. */
  ghost predicate GenerationMoves(l: Local, v: Local) {
    && l.clock <= v.clock && v.tab.issued == l.tab.issued
    && (if v.tab.changes == l.tab.changes then v.tab.generation == l.tab.generation
        else v.tab.changes == l.tab.changes + 1
             && (v.tab.generation.Some? ==> l.clock < v.tab.generation.value <= v.clock))
  }

  /** Only the step that starts storing "stopped" and the steps listed below touch the generation, and none of them
      touches the desired state itself. */
  ghost predicate Renews(l: Local, v: Local) {
    && GenerationMoves(l, v) && v.tab.desired == l.tab.desired
    && (v.tab.holder.Some? && v.tab.holder.value.phase == Storing(Stopped) ==> v.tab.changes == l.tab.changes + 1)
  }

  lemma TerminateRenews(l: Local, answer: Answer)
    requires l.tab.holder.Some? && Resumable(l.tab.holder.value.phase)
    ensures Renews(l, TerminateBody(l)) && Renews(l, ResumeTerminate(l, l.tab.holder.value.phase, answer))
  {
  }

  lemma AttachRenews(l: Local, answer: Answer)
    requires l.tab.holder.Some? && Resumable(l.tab.holder.value.phase)
    ensures Renews(l, ResumeAttach(l, l.tab.holder.value.phase, answer))
  {
  }

  lemma RecreateRenews(l: Local, answer: Answer)
    requires l.tab.holder.Some? && Resumable(l.tab.holder.value.phase)
    ensures Renews(l, ResumeRecreate(l, l.tab.holder.value.phase, answer))
  {
  }

  lemma RestartRenews(l: Local, answer: Answer)
    requires l.tab.holder.Some? && Resumable(l.tab.holder.value.phase)
    ensures Renews(l, ResumeRestart(l, l.tab.holder.value.phase, answer))
    ensures Renews(l, ResumeRestartBridge(l, l.tab.holder.value.phase))
  {
  }

  lemma CloseTabRenews(l: Local, answer: Answer)
    requires l.tab.holder.Some? && Resumable(l.tab.holder.value.phase)
    ensures Renews(l, ResumeCloseTab(l, l.tab.holder.value.phase, answer))
  {
  }

  lemma ProceedRenews(l: Local, answer: Answer)
    requires l.tab.holder.Some? && Resumable(l.tab.holder.value.phase)
    ensures Renews(l, Resume(l, answer))
  {
    match l.tab.holder.value.op
    case Connect(_) => AttachRenews(l, answer);
    case ConnectLegacy => AttachRenews(l, answer);
    case Terminate => TerminateRenews(l, answer);
    case TerminateIfStale => TerminateRenews(l, answer);
    case Recreate => RecreateRenews(l, answer);
    case Restart => RestartRenews(l, answer);
    case RestartBridge => RestartRenews(l, answer);
    case CloseTab => CloseTabRenews(l, answer);
  }

  lemma MovedKeepsTokens(l: Local, v: Local)
    requires TokensInv(l.tab, l.clock) && GenerationMoves(l, v)
    ensures TokensInv(v.tab, v.clock)
  {
    forall token | token in v.tab.issued
      ensures TokenInv(v.tab, v.clock, token)
    {
      assert TokenInv(l.tab, l.clock, token);
    }
  }

  lemma AuthorizeKeepsTokens(l: Local, shut: bool)
    requires TokensInv(l.tab, l.clock) && EnabledAt(l, shut, Authorize)
    ensures var v := StepAt(l, shut, Authorize); TokensInv(v.tab, v.clock) && l.clock <= v.clock
  {
    var ensured := EnsureGeneration(l);
    forall token | token in l.tab.issued
      ensures TokenInv(ensured.tab, ensured.clock, token)
    {
      assert TokenInv(l.tab, l.clock, token);
    }
  }

  lemma StepKeepsTokens(l: Local, shut: bool, e: TabEvent)
    requires TokensInv(l.tab, l.clock) && EnabledAt(l, shut, e)
    ensures TokensInv(StepAt(l, shut, e).tab, StepAt(l, shut, e).clock) && l.clock <= StepAt(l, shut, e).clock
  {
    match e
    case Authorize => AuthorizeKeepsTokens(l, shut);
    case Proceed(answer) =>
      ProceedRenews(l, answer);
      MovedKeepsTokens(l, Resume(l, answer));
    case _ =>
      assert GenerationMoves(l, StepAt(l, shut, e));
      MovedKeepsTokens(l, StepAt(l, shut, e));
  }

  // ---------------------------------------------------------------- runs

  lemma LaterCountersKeepLocal(tab: TabState, clock: nat, clock': nat, next: BridgeId, next': BridgeId, open: bool,
                               shutdown: Shutdown)
    requires LocalInv(Local(tab, clock, next, open), shutdown) && clock <= clock' && next <= next'
    ensures LocalInv(Local(tab, clock', next', open), shutdown)
  {
    forall token | token in tab.issued
      ensures TokenInv(tab, clock', token)
    {
      assert TokenInv(tab, clock, token);
    }
  }

  lemma UnusedIsFine(clock: nat, next: BridgeId, open: bool, shutdown: Shutdown)
    ensures LocalInv(Local(UNUSED, clock, next, open), shutdown)
  {
  }

  lemma OnTabKeepsInv(w: World, t: Tab, te: TabEvent)
    requires Inv(w) && Enabled(w, OnTab(t, te))
    ensures Inv(Step(w, OnTab(t, te)))
  {
    var l := LocalAt(w, t);
    UnusedIsFine(w.clock, w.nextBridge, w.shutdown == Open, w.shutdown);
    assert LocalInv(l, w.shutdown);
    StepKeepsBridges(l, w.shutdown, te);
    StepKeepsTokens(l, w.shutdown == Shut, te);
    var v := Step(w, OnTab(t, te));
    forall u | u in v.tabs
      ensures LocalInv(LocalAt(v, u), v.shutdown)
    {
      if u != t {
        assert LocalInv(LocalAt(w, u), w.shutdown);
        LaterCountersKeepLocal(w.tabs[u], w.clock, v.clock, w.nextBridge, v.nextBridge, w.shutdown == Open, w.shutdown);
      }
    }
  }

  lemma OwnerClosedIsFine(tab: TabState, clock: nat, next: BridgeId)
    requires LocalInv(Local(tab, clock, next, false), Draining) && tab.calls == []
    ensures LocalInv(Local(OwnerClosed(tab), clock, next, false), Closing)
  {
  }

  lemma ShutdownKeepsInv(w: World, e: Event)
    requires Inv(w) && Enabled(w, e) && !e.OnTab?
    ensures Inv(Step(w, e))
  {
    var v := Step(w, e);
    forall u | u in v.tabs
      ensures LocalInv(LocalAt(v, u), v.shutdown)
    {
      assert LocalInv(LocalAt(w, u), w.shutdown);
      match e
      case CloseOwners => OwnerClosedIsFine(w.tabs[u], w.clock, w.nextBridge);
      case _ =>
    }
  }

  lemma StepKeepsInv(w: World, e: Event)
    requires Inv(w) && Enabled(w, e)
    ensures Inv(Step(w, e))
  {
    if e.OnTab? {
      OnTabKeepsInv(w, e.tab, e.e);
    } else {
      ShutdownKeepsInv(w, e);
    }
  }

  lemma {:induction false} RunKeepsInv(from: World, events: seq<Event>, to: World)
    requires Inv(from) && Reaches(from, events, to)
    ensures Inv(to)
    decreases events
  {
    if events != [] {
      StepKeepsInv(from, events[0]);
      RunKeepsInv(Step(from, events[0]), events[1..], to);
    }
  }

  lemma ReachableTab(events: seq<Event>, w: World, t: Tab)
    requires Reaches(INITIAL, events, w)
    ensures LocalInv(LocalAt(w, t), w.shutdown)
  {
    RunKeepsInv(INITIAL, events, w);
    UnusedIsFine(w.clock, w.nextBridge, w.shutdown == Open, w.shutdown);
  }

  // ---------------------------------------------------------------- main results

  lemma AtMostOne(s: set<BridgeId>, b: BridgeId)
    requires s <= {b}
    ensures |s| <= 1
  {
    SubsetSize(s, {b});
  }

  /** Only one PTY bridge owns a tab at a time.  In every reachable state, including failed attaches and a shutdown
      racing an attach, a tab has at most one unclosed bridge; when no operation holds the tab's lock, that bridge is
      the one in the registry; and once the shutdown has resolved, no unclosed bridge outlives the lock. */
  lemma OneLiveBridge(events: seq<Event>, w: World, t: Tab)
    requires Reaches(INITIAL, events, w)
    ensures |At(w, t).live| <= 1
    ensures At(w, t).holder.None? ==> forall b :: b in At(w, t).live ==> At(w, t).owner == Some(b)
    ensures At(w, t).holder.None? && w.shutdown == Shut ==> At(w, t).live == {}
  {
    ReachableTab(events, w, t);
    var tab := At(w, t);
    if Unregistered(tab).Some? {
      assert tab.live <= {Unregistered(tab).value};
      AtMostOne(tab.live, Unregistered(tab).value);
    } else if tab.owner.Some? {
      assert tab.live <= {tab.owner.value};
      AtMostOne(tab.live, tab.owner.value);
    } else {
      assert tab.live == {};
    }
  }

  /** A termination under the lock that finds no owner in the registry finds no live bridge at all: this is what
      the confirming capture of a cleanup relies on. */
  lemma NoOwnerMeansNoBridge(events: seq<Event>, w: World, t: Tab)
    requires Reaches(INITIAL, events, w)
    requires At(w, t).holder.Some? && At(w, t).holder.value.phase.Confirming? && At(w, t).owner.None?
    ensures At(w, t).live == {}
  {
    ReachableTab(events, w, t);
    UnownedIsUnbridged(LocalAt(w, t), w.shutdown);
  }

  /** While the holder is confirming it has created no bridge of its own. */
  lemma UnownedIsUnbridged(l: Local, shutdown: Shutdown)
    requires LocalInv(l, shutdown)
    requires l.tab.holder.Some? && l.tab.holder.value.phase.Confirming? && l.tab.owner.None?
    ensures l.tab.live == {}
  {
  }

  /** A connect passes its check only if the tab is active and its generation has not changed since the token was
      issued: no terminate, restart, recreate or close of the tab came in between. */
  lemma StaleTokensAreRejected(events: seq<Event>, w: World, t: Tab, token: Token)
    requires Reaches(INITIAL, events, w) && token in At(w, t).issued
    ensures TokenAccepted(At(w, t), token) <==> At(w, t).desired == Some(Active) && token.at == At(w, t).changes
  {
    ReachableTab(events, w, t);
    assert TokenInv(At(w, t), w.clock, token);
  }

  /** The holder's next await is the store's commit of "stopped". */
  predicate GoesOnToStop(l: Local, answer: Answer) {
    l.tab.holder.Some? && Resume(l, answer).tab.holder.Some?
    && Resume(l, answer).tab.holder.value.phase == Storing(Stopped)
  }

  /** The holder reports success and gives the lock back. */
  predicate EndsInSuccess(l: Local, answer: Answer) {
    && l.tab.holder.Some? && Resume(l, answer).tab.holder.None?
    && Resume(l, answer).tab.results == l.tab.results + [(l.tab.holder.value.op, Succeeded)]
  }

  /** An operation that goes on to store "stopped" (terminate, restart and close all do, before anything else they
      change) has by then invalidated every token issued before. */
  lemma StoppingInvalidatesTokens(events: seq<Event>, w: World, t: Tab, token: Token, answer: Answer)
    requires Reaches(INITIAL, events, w) && token in At(w, t).issued
    requires At(w, t).holder.Some? && Resumable(At(w, t).holder.value.phase)
    requires GoesOnToStop(LocalAt(w, t), answer)
    ensures !TokenAccepted(Resume(LocalAt(w, t), answer).tab, token)
  {
    ReachableTab(events, w, t);
    var l := LocalAt(w, t);
    var v := Resume(l, answer);
    assert TokenInv(l.tab, w.clock, token);
    ProceedRenews(l, answer);
    MovedKeepsTokens(l, v);
    assert TokenInv(v.tab, v.clock, token);
  }

  /** A termination that reports success without returning early leaves the tab stopped, without an owner and
      without a live bridge, at the moment it gives the lock back. */
  lemma TerminationStopsTheTab(events: seq<Event>, w: World, t: Tab, answer: Answer)
    requires Reaches(INITIAL, events, w)
    requires At(w, t).holder.Some?
             && (At(w, t).holder.value.op.Terminate? || At(w, t).holder.value.op.TerminateIfStale?)
    requires EndsInSuccess(LocalAt(w, t), answer)
    ensures var v := Resume(LocalAt(w, t), answer).tab;
            v.desired == Some(Stopped) && v.owner.None? && v.live == {}
  {
    ReachableTab(events, w, t);
    SuccessStopsTheTab(LocalAt(w, t), w.shutdown, answer);
  }

  lemma SuccessStopsTheTab(l: Local, shutdown: Shutdown, answer: Answer)
    requires LocalInv(l, shutdown)
    requires l.tab.holder.Some? && (l.tab.holder.value.op.Terminate? || l.tab.holder.value.op.TerminateIfStale?)
    requires Resumable(l.tab.holder.value.phase) && EndsInSuccess(l, answer)
    ensures l.tab.holder.value.phase == Viewing(Succeeded)
    ensures var v := Resume(l, answer).tab; v.desired == Some(Stopped) && v.owner.None? && v.live == {}
  {
    assert Resume(l, answer).tab.results[|l.tab.results|].1 == Succeeded;
    OnlyOneWayToSucceed(l, answer);
  }

  lemma OnlyOneWayToSucceed(l: Local, answer: Answer)
    requires l.tab.holder.Some? && (l.tab.holder.value.op.Terminate? || l.tab.holder.value.op.TerminateIfStale?)
    requires Resumable(l.tab.holder.value.phase)
    ensures var v := Resume(l, answer).tab;
            v.holder.None? && |v.results| == |l.tab.results| + 1 && v.results[|l.tab.results|].1 == Succeeded
            ==> l.tab.holder.value.phase == Viewing(Succeeded) && v.owner == l.tab.owner && v.desired == l.tab.desired
                && v.live == l.tab.live
  {
  }
}
