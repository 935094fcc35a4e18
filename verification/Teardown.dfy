/** Startup and shutdown of apps/server/src/index.ts: `createServerLifecycle` with `createListenAttempt`, and the phased
    teardown that races a deadline. */
module Teardown {
  import opened Collections

  // ---------------------------------------------------------------- the lifecycle

  datatype State = New | Starting | Running | Stopping | Stopped

  /** The listen attempt: settled once, by the server or by cancellation; `Seen` once `start` has continued. */
  datatype Listening = NotBegun | Pending | Resolved | Rejected | Seen(resolved: bool)

  datatype Lifecycle = Lifecycle(state: State, listening: Listening, teardowns: nat)

  datatype Event =
    | Start(listenThrows: bool)
    | ServerListens
    | ServerFails
    | StartContinues
    | Shutdown
    | TeardownSettles

  const FRESH := Lifecycle(New, NotBegun, 0)

  function ShutDown(l: Lifecycle): Lifecycle {
    if l.state.Stopping? || l.state.Stopped? then l
    else Lifecycle(Stopping, if l.listening.Pending? then Rejected else l.listening, l.teardowns + 1)
  }

  function Next(l: Lifecycle, e: Event): Lifecycle {
    match e
    case Start(throws) =>
      if !l.state.New? then l else Lifecycle(Starting, if throws then Rejected else Pending, l.teardowns)
    case ServerListens => if l.listening.Pending? then l.(listening := Resolved) else l
    case ServerFails => if l.listening.Pending? then l.(listening := Rejected) else l
    case StartContinues =>
      if l.listening.Resolved? then
        var seen := l.(listening := Seen(true));
        if l.state.Starting? then seen.(state := Running) else ShutDown(seen)
      else if l.listening.Rejected? then ShutDown(l.(listening := Seen(false)))
      else l
    case Shutdown => ShutDown(l)
    case TeardownSettles => if l.state.Stopping? then l.(state := Stopped) else l
  }

  predicate Ready(l: Lifecycle, durable: bool) {
    l.state.Running? && durable
  }

  ghost predicate Inv(l: Lifecycle) {
    && l.teardowns == (if l.state.Stopping? || l.state.Stopped? then 1 else 0)
    && (l.state.New? ==> l.listening.NotBegun?)
    && (l.state.Running? ==> l.listening == Seen(true))
    && (l.state.Starting? ==> l.listening.Pending? || l.listening.Resolved? || l.listening.Rejected?)
  }

  function Run(l: Lifecycle, events: seq<Event>): Lifecycle
    decreases events
  {
    if events == [] then l else Run(Next(l, events[0]), events[1..])
  }

  lemma {:induction false} RunKeepsInv(l: Lifecycle, events: seq<Event>)
    requires Inv(l)
    ensures Inv(Run(l, events))
    decreases events
  {
    if events != [] {
      RunKeepsInv(Next(l, events[0]), events[1..]);
    }
  }

  predicate Ended(l: Lifecycle) {
    l.state.Stopping? || l.state.Stopped?
  }

  lemma {:induction false} EndedStays(l: Lifecycle, events: seq<Event>)
    requires Inv(l) && Ended(l)
    ensures Ended(Run(l, events)) && Run(l, events).teardowns == l.teardowns
    decreases events
  {
    if events != [] {
      EndedStays(Next(l, events[0]), events[1..]);
    }
  }

  lemma {:induction false} RunConcat(l: Lifecycle, a: seq<Event>, b: seq<Event>)
    ensures Run(l, a + b) == Run(Run(l, a), b)
    decreases a
  {
    if a == [] {
      assert a + b == b;
    } else {
      assert (a + b)[1..] == a[1..] + b;
      RunConcat(Next(l, a[0]), a[1..], b);
    }
  }

  /** Once shutdown is called the server is never ready again, however the listen attempt and the teardown end; and the
      teardown is performed exactly once. */
  lemma {:induction false} ShutdownIsFinal(before: seq<Event>, after: seq<Event>, durable: bool)
    ensures var l := Run(FRESH, before + [Shutdown] + after); !Ready(l, durable) && l.teardowns == 1
  {
    RunKeepsInv(FRESH, before);
    RunConcat(FRESH, before + [Shutdown], after);
    RunConcat(FRESH, before, [Shutdown]);
    var at := Run(FRESH, before);
    assert Run(at, [Shutdown]) == Run(Next(at, Shutdown), [Shutdown][1..]) == ShutDown(at);
    EndedStays(ShutDown(at), after);
  }

  /** Readiness needs a start whose listening succeeded and no shutdown. */
  lemma {:induction false} ReadyMeansListening(events: seq<Event>, durable: bool)
    requires Ready(Run(FRESH, events), durable)
    ensures Run(FRESH, events).listening == Seen(true) && Shutdown !in events && durable
  {
    RunKeepsInv(FRESH, events);
    if Shutdown in events {
      var k :| 0 <= k < |events| && events[k] == Shutdown;
      assert events == events[..k] + [Shutdown] + events[k + 1..];
      ShutdownIsFinal(events[..k], events[k + 1..], durable);
    }
  }

  // ---------------------------------------------------------------- the teardown

  datatype Resources = Resources(
    http: bool, websocket: bool, cleaner: bool, activity: bool, registry: bool, services: bool)

  datatype Action =
    | StopAccepting | CloseHttp
    | ShutDownCleaner | StopHeartbeat | ShutDownActivity
    | CloseClients | CloseRegistry
    | CloseWebsocket
    | DisposeServices

  /** What the teardown did, as far as order matters. */
  datatype Entry =
    | Did(action: Action)
    | PhaseStarted(phase: nat)
    | PhaseCompleted(phase: nat)
    | DeadlineReached
    | TimerCleared

  const PHASES := 4

  function If(present: bool, action: Action): seq<Action> {
    if present then [action] else []
  }

  function PhaseActions(r: Resources, phase: nat): seq<Action> {
    if phase == 0 then
      If(r.cleaner, ShutDownCleaner) + If(r.websocket, StopHeartbeat) + If(r.activity, ShutDownActivity)
    else if phase == 1 then If(r.websocket, CloseClients) + If(r.registry, CloseRegistry)
    else if phase == 2 then If(r.websocket, CloseWebsocket)
    else if phase == 3 then If(r.services, DisposeServices)
    else []
  }

  function Dids(actions: seq<Action>): seq<Entry> {
    seq(|actions|, i requires 0 <= i < |actions| => Did(actions[i]))
  }

  /** Everything there is to do, up to a phase, and the starts of the phases in between. */
  function OrderUpTo(r: Resources, phases: nat): seq<Entry> {
    if phases == 0 then Dids(If(r.websocket, StopAccepting) + If(r.http, CloseHttp))
    else OrderUpTo(r, phases - 1) + [PhaseStarted(phases - 1)] + Dids(PhaseActions(r, phases - 1))
  }

  lemma DidsAdd(a: seq<Action>, b: seq<Action>)
    ensures Dids(a + b) == Dids(a) + Dids(b)
  {
  }

  lemma DidsOfFirst(r: Resources)
    ensures Dids(PhaseActions(r, 0))
            == Dids(If(r.cleaner, ShutDownCleaner)) + Dids(If(r.websocket, StopHeartbeat))
               + Dids(If(r.activity, ShutDownActivity))
  {
    DidsAdd(If(r.cleaner, ShutDownCleaner), If(r.websocket, StopHeartbeat));
    DidsAdd(If(r.cleaner, ShutDownCleaner) + If(r.websocket, StopHeartbeat), If(r.activity, ShutDownActivity));
  }

  predicate Kept(e: Entry) {
    e.Did? || e.PhaseStarted?
  }

  /** The actions and the starts of phases, in the order in which they happened. */
  function Order(log: seq<Entry>): seq<Entry> {
    if log == [] then [] else Order(log[..|log| - 1]) + if Kept(log[|log| - 1]) then [log[|log| - 1]] else []
  }

  /** A phase starts after the completion of the one before, unless the deadline has been reached. */
  ghost predicate Paced(log: seq<Entry>) {
    forall i {:trigger PacedAt(log, i)} :: 0 <= i < |log| ==> PacedAt(log, i)
  }

  ghost predicate PacedAt(log: seq<Entry>, i: nat)
    requires i < |log|
  {
    log[i].PhaseStarted? && log[i].phase > 0 ==> MayFollow(log[..i], log[i].phase)
  }

  /** The phase before has completed, or the deadline has been reached. */
  ghost predicate MayFollow(log: seq<Entry>, phase: nat) {
    phase > 0 ==> PhaseCompleted(phase - 1) in log || DeadlineReached in log
  }

  lemma {:induction false} LogOne(log: seq<Entry>, e: Entry)
    requires Paced(log)
    requires e.PhaseStarted? ==> MayFollow(log, e.phase)
    ensures Order(log + [e]) == Order(log) + if Kept(e) then [e] else []
    ensures Paced(log + [e])
  {
    assert (log + [e])[..|log|] == log;
    forall i | 0 <= i < |log| + 1
      ensures PacedAt(log + [e], i)
    {
      assert (log + [e])[..i] == log[..i];
      assert i < |log| ==> PacedAt(log, i);
    }
  }

  class TeardownRun {
    const resources: Resources
    ghost var log: seq<Entry>
    var errors: nat
    var deadlineReached: bool

    constructor (resources: Resources)
      ensures this.resources == resources && log == [] && errors == 0 && !deadlineReached
    {
      this.resources, log, errors, deadlineReached := resources, [], 0, false;
    }

    ghost predicate Valid()
      reads this
    {
      Paced(log) && (deadlineReached <==> DeadlineReached in log)
    }

    /** `k` phases have been started, in order and once each, each followed by all its actions. */
    ghost predicate Begun(k: nat)
      reads this
    {
      Order(log) == OrderUpTo(resources, k)
    }

    method Note(e: Entry)
      requires Valid() && !e.DeadlineReached?
      requires e.PhaseStarted? ==> MayFollow(log, e.phase)
      modifies `log
      ensures Valid() && log == old(log) + [e]
      ensures Order(log) == Order(old(log)) + if Kept(e) then [e] else []
    {
      LogOne(log, e);
      log := log + [e];
    }

    /** `runCleanup` and `startAsyncCleanup`: the action is started, and whatever it throws or rejects with is kept. */
    method Cleanup(present: bool, action: Action)
      requires Valid()
      modifies `log, `errors
      ensures Valid() && old(errors) <= errors
      ensures Order(log) == Order(old(log)) + Dids(If(present, action))
      ensures forall e :: e in old(log) ==> e in log
    {
      if present {
        Note(Did(action));
        var fails: bool := *;
        if fails {
          errors := errors + 1;
        }
      }
    }

    method ReachDeadline()
      requires Valid()
      modifies `log, `errors, `deadlineReached
      ensures Valid() && deadlineReached && old(errors) <= errors
      ensures Order(log) == Order(old(log))
      ensures forall e :: e in old(log) ==> e in log
    {
      if deadlineReached {
        return;
      }
      deadlineReached := true;
      LogOne(log, DeadlineReached);
      log := log + [DeadlineReached];
      var fails: bool := *;
      if fails {
        errors := errors + 1;
      }
    }

    /** The cleaner and the activity tracker finish what is in flight. */
    method FinishWork()
      requires Valid()
      modifies `log, `errors
      ensures Valid() && old(errors) <= errors && Order(log) == Order(old(log)) + Dids(PhaseActions(resources, 0))
      ensures forall e :: e in old(log) ==> e in log
    {
      DidsOfFirst(resources);
      Cleanup(resources.cleaner, ShutDownCleaner);
      Cleanup(resources.websocket, StopHeartbeat);
      Cleanup(resources.activity, ShutDownActivity);
    }

    method CloseConnections()
      requires Valid()
      modifies `log, `errors
      ensures Valid() && old(errors) <= errors && Order(log) == Order(old(log)) + Dids(PhaseActions(resources, 1))
      ensures forall e :: e in old(log) ==> e in log
    {
      Cleanup(resources.websocket, CloseClients);
      Cleanup(resources.registry, CloseRegistry);
      DidsAdd(If(resources.websocket, CloseClients), If(resources.registry, CloseRegistry));
    }

    method RunPhase(phase: nat)
      requires Valid() && phase < PHASES
      modifies `log, `errors
      ensures Valid() && old(errors) <= errors
      ensures Order(log) == Order(old(log)) + Dids(PhaseActions(resources, phase))
      ensures forall e :: e in old(log) ==> e in log
    {
      if phase == 0 {
        FinishWork();
      } else if phase == 1 {
        CloseConnections();
      } else if phase == 2 {
        Cleanup(resources.websocket, CloseWebsocket);
      } else {
        Cleanup(resources.services, DisposeServices);
      }
    }

    method StartPhase(phase: nat)
      requires Valid() && phase < PHASES && Begun(phase)
      requires MayFollow(log, phase)
      modifies `log, `errors
      ensures Valid() && Begun(phase + 1) && old(errors) <= errors
      ensures forall e :: e in old(log) ==> e in log
    {
      Note(PhaseStarted(phase));
      RunPhase(phase);
    }

    /** Waiting for the phase or the deadline.  The deadline may pass while we wait and the phase still win the race. */
    method AwaitPhase(phase: nat) returns (completed: bool)
      requires Valid()
      modifies `log, `errors, `deadlineReached
      ensures Valid() && old(errors) <= errors && Order(log) == Order(old(log))
      ensures forall e :: e in old(log) ==> e in log
      ensures old(deadlineReached) ==> deadlineReached
      ensures if completed then PhaseCompleted(phase) in log else deadlineReached
    {
      var passes: bool := *;
      if passes {
        ReachDeadline();
      }
      completed := *;
      if !completed && deadlineReached {
        return;
      }
      completed := true;
      Note(PhaseCompleted(phase));
    }

    method Begin()
      requires Valid() && log == []
      modifies `log, `errors
      ensures Valid() && Begun(0) && old(errors) <= errors
    {
      Cleanup(resources.websocket, StopAccepting);
      Cleanup(resources.http, CloseHttp);
    }

    method RunOne(phase: nat) returns (completed: bool)
      requires Valid() && phase < PHASES && Begun(phase) && MayFollow(log, phase)
      modifies `log, `errors, `deadlineReached
      ensures Valid() && Begun(phase + 1) && old(errors) <= errors
      ensures if completed then PhaseCompleted(phase) in log else deadlineReached
    {
      StartPhase(phase);
      completed := AwaitPhase(phase);
    }

    /** The phases that the deadline leaves time for. */
    method RunPhases() returns (nextPhase: nat)
      requires Valid() && Begun(0)
      modifies `log, `errors, `deadlineReached
      ensures Valid() && nextPhase <= PHASES && Begun(nextPhase) && old(errors) <= errors
      ensures nextPhase == PHASES || deadlineReached
    {
      nextPhase := 0;
      while nextPhase < PHASES && !deadlineReached
        invariant nextPhase <= PHASES && Valid() && Begun(nextPhase) && old(errors) <= errors
        invariant MayFollow(log, nextPhase)
      {
        var completed := RunOne(nextPhase);
        nextPhase := nextPhase + 1;
        if !completed {
          break;
        }
      }
    }

    /** The others, all at once. */
    method RunRemaining(from: nat)
      requires Valid() && from <= PHASES && Begun(from) && deadlineReached
      modifies `log, `errors
      ensures Valid() && Begun(PHASES) && old(errors) <= errors
    {
      var nextPhase := from;
      while nextPhase < PHASES
        invariant nextPhase <= PHASES && Valid() && Begun(nextPhase) && deadlineReached && old(errors) <= errors
      {
        StartPhase(nextPhase);
        nextPhase := nextPhase + 1;
      }
    }

    /** `performBoundedTeardown`: whenever the deadline fires, and whatever throws, every phase is started exactly once
        and in order, each with all its actions, and the call fails if anything did. */
    method Perform() returns (failed: bool)
      requires Valid() && log == [] && errors == 0
      modifies this
      ensures Valid() && Begun(PHASES)
      ensures failed <==> errors > 0
      ensures deadlineReached ==> failed
    {
      Begin();
      var timerWorks: bool := *;
      if !timerWorks {
        errors := errors + 1;
        ReachDeadline();
      }
      var nextPhase := RunPhases();
      if !deadlineReached {
        var passes: bool := *;
        if passes {
          ReachDeadline();
        }
      }
      if deadlineReached {
        RunRemaining(nextPhase);
        errors := errors + 1;
      } else if timerWorks {
        Note(TimerCleared);
        var fails: bool := *;
        if fails {
          errors := errors + 1;
        }
      }
      failed := errors > 0;
    }
  }

  // ---------------------------------------------------------------- what a finished teardown has done

  predicate Present(r: Resources, a: Action) {
    match a
    case StopAccepting => r.websocket
    case CloseHttp => r.http
    case ShutDownCleaner => r.cleaner
    case StopHeartbeat => r.websocket
    case ShutDownActivity => r.activity
    case CloseClients => r.websocket
    case CloseRegistry => r.registry
    case CloseWebsocket => r.websocket
    case DisposeServices => r.services
  }

  /** The phase an action belongs to; two are done before the first. */
  function PhaseOf(a: Action): Option<nat> {
    match a
    case StopAccepting | CloseHttp => None
    case ShutDownCleaner | StopHeartbeat | ShutDownActivity => Some(0)
    case CloseClients | CloseRegistry => Some(1)
    case CloseWebsocket => Some(2)
    case DisposeServices => Some(3)
  }

  /** How often an action has been done. */
  function Times(log: seq<Entry>, a: Action): nat {
    multiset(log)[Did(a)]
  }

  lemma {:induction false} TimesOrdered(log: seq<Entry>, a: Action)
    ensures Times(log, a) == Times(Order(log), a)
  {
    if log != [] {
      TimesOrdered(log[..|log| - 1], a);
      assert log == log[..|log| - 1] + [log[|log| - 1]];
    }
  }

  lemma {:induction false} TimesOf(actions: seq<Action>, a: Action)
    ensures Times(Dids(actions), a) == multiset(actions)[a]
  {
    if actions != [] {
      var front, last := actions[..|actions| - 1], actions[|actions| - 1];
      assert actions == front + [last];
      assert Dids(actions) == Dids(front) + [Did(last)];
      TimesOf(front, a);
    }
  }

  lemma TimesIf(present: bool, action: Action, a: Action)
    ensures multiset(If(present, action))[a] == if present && action == a then 1 else 0
  {
  }

  lemma FirstTimes(r: Resources, a: Action)
    ensures multiset(PhaseActions(r, 0))[a] == if PhaseOf(a) == Some(0) && Present(r, a) then 1 else 0
  {
    TimesIf(r.cleaner, ShutDownCleaner, a);
    TimesIf(r.websocket, StopHeartbeat, a);
    TimesIf(r.activity, ShutDownActivity, a);
  }

  lemma SecondTimes(r: Resources, a: Action)
    ensures multiset(PhaseActions(r, 1))[a] == if PhaseOf(a) == Some(1) && Present(r, a) then 1 else 0
  {
    TimesIf(r.websocket, CloseClients, a);
    TimesIf(r.registry, CloseRegistry, a);
  }

  lemma LastTimes(r: Resources, a: Action)
    ensures multiset(PhaseActions(r, 2))[a] == if PhaseOf(a) == Some(2) && Present(r, a) then 1 else 0
    ensures multiset(PhaseActions(r, 3))[a] == if PhaseOf(a) == Some(3) && Present(r, a) then 1 else 0
  {
    TimesIf(r.websocket, CloseWebsocket, a);
    TimesIf(r.services, DisposeServices, a);
  }

  /** How often an action belongs to a phase. */
  lemma PhaseTimes(r: Resources, phase: nat, a: Action)
    ensures Times(Dids(PhaseActions(r, phase)), a) == if PhaseOf(a) == Some(phase) && Present(r, a) then 1 else 0
  {
    TimesOf(PhaseActions(r, phase), a);
    if phase == 0 {
      FirstTimes(r, a);
    } else if phase == 1 {
      SecondTimes(r, a);
    } else if phase < PHASES {
      LastTimes(r, a);
    }
  }

  function Expected(r: Resources, phases: nat, a: Action): nat {
    if Present(r, a) && (PhaseOf(a).None? || PhaseOf(a).value < phases) then 1 else 0
  }

  lemma ExpectedNext(r: Resources, phase: nat, a: Action)
    ensures Expected(r, phase + 1, a) == Expected(r, phase, a) + Times(Dids(PhaseActions(r, phase)), a)
  {
    PhaseTimes(r, phase, a);
  }

  lemma OrderNext(r: Resources, phase: nat, a: Action)
    ensures Times(OrderUpTo(r, phase + 1), a) == Times(OrderUpTo(r, phase), a) + Times(Dids(PhaseActions(r, phase)), a)
  {
  }

  ghost predicate AsExpected(r: Resources, phases: nat) {
    AllTimes(OrderUpTo(r, phases), r, phases)
  }

  ghost predicate AllTimes(order: seq<Entry>, r: Resources, phases: nat) {
    forall a {:trigger Times(order, a)} :: Times(order, a) == Expected(r, phases, a)
  }

  lemma ExpectedAtStart(r: Resources, phases: nat)
    ensures phases == 0 ==> AsExpected(r, phases)
  {
    if phases == 0 {
      forall a {:trigger Times(OrderUpTo(r, phases), a)}
        ensures Times(OrderUpTo(r, phases), a) == Expected(r, phases, a)
      {
        BeginTimes(r, a);
      }
    }
  }

  lemma ExpectedLater(r: Resources, phase: nat)
    requires AsExpected(r, phase)
    ensures AsExpected(r, phase + 1)
  {
    forall a {:trigger Times(OrderUpTo(r, phase + 1), a)}
      ensures Times(OrderUpTo(r, phase + 1), a) == Expected(r, phase + 1, a)
    {
      assert Times(OrderUpTo(r, phase), a) == Expected(r, phase, a);
      OrderNext(r, phase, a);
      ExpectedNext(r, phase, a);
    }
  }

  lemma {:induction false} UpToTimes(r: Resources, phases: nat)
    ensures AsExpected(r, phases)
    decreases phases
  {
    ExpectedAtStart(r, phases);
    if phases > 0 {
      UpToTimes(r, phases - 1);
      ExpectedLater(r, phases - 1);
    }
  }

  lemma BeginTimes(r: Resources, a: Action)
    ensures Times(Dids(If(r.websocket, StopAccepting) + If(r.http, CloseHttp)), a)
            == if Present(r, a) && PhaseOf(a).None? then 1 else 0
  {
    TimesOf(If(r.websocket, StopAccepting) + If(r.http, CloseHttp), a);
    TimesIf(r.websocket, StopAccepting, a);
    TimesIf(r.http, CloseHttp, a);
  }

  /** An entry that is kept has everything before it in the order before it. */
  lemma {:induction false} KeptAt(log: seq<Entry>, i: nat)
    requires i < |log| && Kept(log[i])
    ensures |Order(log[..i])| < |Order(log)| && Order(log)[|Order(log[..i])|] == log[i]
    ensures Order(log)[..|Order(log[..i])|] == Order(log[..i])
  {
    var front := log[..|log| - 1];
    if i < |log| - 1 {
      assert front[..i] == log[..i];
      KeptAt(front, i);
    }
  }

  lemma {:induction false} OrderMembers(log: seq<Entry>)
    ensures forall e :: e in Order(log) <==> e in log && Kept(e)
  {
    if log != [] {
      OrderMembers(log[..|log| - 1]);
      assert log == log[..|log| - 1] + [log[|log| - 1]];
    }
  }

  lemma ActionOfPhase(r: Resources, phase: nat, a: Action)
    requires a in PhaseActions(r, phase)
    ensures PhaseOf(a) == Some(phase)
  {
  }

  /** In the order of a teardown an action of a phase comes after the start of that phase. */
  lemma {:induction false} StartComesFirst(r: Resources, phases: nat, k: nat, phase: nat)
    requires k < |OrderUpTo(r, phases)|
    requires OrderUpTo(r, phases)[k].Did? && PhaseOf(OrderUpTo(r, phases)[k].action) == Some(phase)
    ensures PhaseStarted(phase) in OrderUpTo(r, phases)[..k]
  {
    if phases > 0 {
      var before := OrderUpTo(r, phases - 1);
      if k < |before| {
        StartComesFirst(r, phases - 1, k, phase);
        assert OrderUpTo(r, phases)[..k] == before[..k];
      } else {
        var a := OrderUpTo(r, phases)[k].action;
        assert a in PhaseActions(r, phases - 1);
        ActionOfPhase(r, phases - 1, a);
        assert OrderUpTo(r, phases)[..k][|before|] == PhaseStarted(phase);
      }
    }
  }

  /** An action of a later phase waits for the phase before to complete, or for the deadline. */
  lemma ActionMayFollow(r: Resources, log: seq<Entry>, phases: nat, i: nat, phase: nat)
    requires Order(log) == OrderUpTo(r, phases) && Paced(log)
    requires i < |log| && log[i].Did? && PhaseOf(log[i].action) == Some(phase)
    ensures MayFollow(log[..i], phase)
  {
    KeptAt(log, i);
    StartComesFirst(r, phases, |Order(log[..i])|, phase);
    OrderMembers(log[..i]);
    var j :| 0 <= j < i && log[..i][j] == PhaseStarted(phase);
    assert PacedAt(log, j);
    if phase > 0 {
      assert MayFollow(log[..j], phase);
      assert forall e :: e in log[..j] ==> e in log[..i];
    }
  }

  ghost predicate InTurn(log: seq<Entry>, i: nat)
    requires i < |log|
  {
    log[i].Did? && PhaseOf(log[i].action).Some? ==> MayFollow(log[..i], PhaseOf(log[i].action).value)
  }

  lemma AllInTurn(r: Resources, log: seq<Entry>, phases: nat)
    requires Order(log) == OrderUpTo(r, phases) && Paced(log)
    ensures forall i {:trigger InTurn(log, i)} :: 0 <= i < |log| ==> InTurn(log, i)
  {
    forall i | 0 <= i < |log|
      ensures InTurn(log, i)
    {
      if log[i].Did? && PhaseOf(log[i].action).Some? {
        ActionMayFollow(r, log, phases, i, PhaseOf(log[i].action).value);
      }
    }
  }

  lemma TimesInAll(r: Resources, log: seq<Entry>, phases: nat, a: Action)
    requires phases >= PHASES && Order(log) == OrderUpTo(r, phases)
    ensures Times(log, a) == if Present(r, a) then 1 else 0
  {
    TimesOrdered(log, a);
    UpToTimes(r, phases);
    assert Times(OrderUpTo(r, phases), a) == Expected(r, phases, a);
  }

  /** A teardown that is through has torn down every present resource exactly once and touched no absent one; clients
      are closed after the cleaner and the activity tracker have finished, their server after the clients and the
      registry, and the services last, unless the deadline had passed by then. */
  lemma EverythingOnce(r: Resources, log: seq<Entry>)
    requires Order(log) == OrderUpTo(r, PHASES) && Paced(log)
    ensures forall a {:trigger Times(log, a)} :: Times(log, a) == if Present(r, a) then 1 else 0
    ensures forall i {:trigger InTurn(log, i)} :: 0 <= i < |log| ==> InTurn(log, i)
  {
    forall a
      ensures Times(log, a) == if Present(r, a) then 1 else 0
    {
      TimesInAll(r, log, PHASES, a);
    }
    AllInTurn(r, log, PHASES);
  }
}
