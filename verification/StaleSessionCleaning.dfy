/** `StaleSessionCleaner` of apps/server/src/stale-session-cleaner.ts: one run at a time, a timer that is armed again
    after every run, and the counting sweep.  What a sweep may kill is the subject of `CleanupProtocol`. */
module StaleSessionCleaning {
  import opened Collections
  import opened TabDocuments
  import E = CleanupEligibility

  const HOUR_MS := 60 * 60 * 1000
  const MAX_THRESHOLD_HOURS := 8760

  // ---------------------------------------------------------------- what a sweep asks for

  /** In hours; None when the settings are unavailable or out of range. */
  type Threshold = Option<nat>

  /** `thresholdSnapshot`, of a setting that is None when it cannot be read or is no integer. */
  function ThresholdOf(setting: Option<int>): Threshold {
    if setting.Some? && 0 <= setting.value <= MAX_THRESHOLD_HOURS then Some(setting.value) else None
  }

  /** `validNow`. */
  function ValidNow(clock: int): int {
    if E.SafeInteger(clock) then clock else 0
  }

  function RequestFor(id: Id, hours: nat, started: int): E.Request {
    E.Request(id, hours * HOUR_MS, started - hours * HOUR_MS)
  }

  /** The reader accepts a sweep's request exactly if the cutoff is still a safe integer: under any clock, then, that
      is less than 8760 hours away from the earliest time it can show. */
  lemma RequestIsValidIff(id: Id, setting: Option<int>, clock: int)
    requires ThresholdOf(setting).Some?
    ensures E.ValidRequest(RequestFor(id, setting.value, ValidNow(clock)))
            <==> ValidNow(clock) - setting.value * HOUR_MS >= -MAX_SAFE_INTEGER
    ensures clock >= 0 ==> E.ValidRequest(RequestFor(id, setting.value, ValidNow(clock)))
  {
    assert setting.value * HOUR_MS <= MAX_THRESHOLD_HOURS * HOUR_MS == E.MAX_THRESHOLD_MS;
  }

  // ---------------------------------------------------------------- the sweep

  datatype Report = Report(disabled: bool, examined: nat, terminated: nat, skipped: nat, failed: nat)

  datatype ReadAnswer = Eligible | NotEligible | ReadThrows
  datatype Outcome = Terminated | Skipped | Failed | TerminateThrows

  /** What the two ports answer about one tab; `outcome` matters only if the termination is asked for. */
  datatype Visit = Visit(read: ReadAnswer, outcome: Outcome)

  /** What the sweep asks of its ports. */
  datatype Call = Reads(request: E.Request) | Terminates(id: Id)

  predicate Kills(v: Visit) {
    v.read.Eligible? && v.outcome.Terminated?
  }

  predicate Skips(v: Visit) {
    v.read.NotEligible? || (v.read.Eligible? && v.outcome.Skipped?)
  }

  predicate Fails(v: Visit) {
    v.read.ReadThrows? || (v.read.Eligible? && (v.outcome.Failed? || v.outcome.TerminateThrows?))
  }

  function Count(of: Visit -> bool, visits: seq<Visit>): nat {
    if visits == [] then 0 else Count(of, visits[..|visits| - 1]) + if of(visits[|visits| - 1]) then 1 else 0
  }

  /** Every tab is read in order, and the eligible ones are passed on for termination before the next is read. */
  function Calls(ids: seq<Id>, visits: seq<Visit>, hours: nat, started: int): seq<Call>
    requires |ids| == |visits|
  {
    if ids == [] then []
    else
      var last := |ids| - 1;
      Calls(ids[..last], visits[..last], hours, started) + [Reads(RequestFor(ids[last], hours, started))]
      + if visits[last].read.Eligible? then [Terminates(ids[last])] else []
  }

  /** Each visit counts exactly once. */
  lemma {:induction false} EveryVisitCountsOnce(visits: seq<Visit>)
    ensures Count(Kills, visits) + Count(Skips, visits) + Count(Fails, visits) == |visits|
  {
    if visits != [] {
      EveryVisitCountsOnce(visits[..|visits| - 1]);
    }
  }

  /** Only a tab that was read and found eligible is ever passed on for termination. */
  lemma {:induction false} OnlyEligibleAreTerminated(ids: seq<Id>, visits: seq<Visit>, hours: nat, started: int, id: Id)
    requires |ids| == |visits|
    ensures Terminates(id) in Calls(ids, visits, hours, started)
            <==> exists k :: 0 <= k < |ids| && ids[k] == id && visits[k].read.Eligible?
  {
    if ids != [] {
      var last := |ids| - 1;
      OnlyEligibleAreTerminated(ids[..last], visits[..last], hours, started, id);
      if ids[last] == id && visits[last].read.Eligible? {
        assert Calls(ids, visits, hours, started)[|Calls(ids, visits, hours, started)| - 1] == Terminates(id);
      }
    }
  }

  function Shorter(a: nat, b: nat): nat {
    if a <= b then a else b
  }

  /** A sweep does its work only with a positive threshold and a list of tabs. */
  predicate Sweeps(threshold: Threshold, tabs: Option<seq<Id>>) {
    threshold.Some? && threshold.value > 0 && tabs.Some?
  }

  /** The sweep of `execute`: `tabs` is None when the tab list throws, and `answers` are those of the ports about each
      tab.  The first `maxSessions` tabs are examined, whatever the ports answer or throw about the others. */
  method Execute(threshold: Threshold, tabs: Option<seq<Id>>, maxSessions: nat, started: int, answers: seq<Visit>)
    returns (r: Report, calls: seq<Call>)
    requires tabs.Some? ==> |answers| == |tabs.value|
    ensures r.disabled <==> threshold == Some(0)
    ensures !Sweeps(threshold, tabs) ==> r == Report(r.disabled, 0, 0, 0, if r.disabled then 0 else 1) && calls == []
    ensures Sweeps(threshold, tabs) ==>
              var visits := answers[..Shorter(|answers|, maxSessions)];
              && r == Report(false, |visits|, Count(Kills, visits), Count(Skips, visits), Count(Fails, visits))
              && calls == Calls(tabs.value[..|visits|], visits, threshold.value, started)
  {
    calls := [];
    if threshold.None? {
      return Report(false, 0, 0, 0, 1), calls;
    }
    if threshold.value == 0 {
      return Report(true, 0, 0, 0, 0), calls;
    }
    if tabs.None? {
      return Report(false, 0, 0, 0, 1), calls;
    }
    var thresholdMs := threshold.value * HOUR_MS;
    var cutoffMs := started - thresholdMs;
    var examined, terminated, skipped, failed := 0, 0, 0, 0;
    var count := Shorter(|tabs.value|, maxSessions);
    while examined < count
      invariant examined <= count
      invariant terminated == Count(Kills, answers[..examined]) && skipped == Count(Skips, answers[..examined])
      invariant failed == Count(Fails, answers[..examined])
      invariant calls == Calls(tabs.value[..examined], answers[..examined], threshold.value, started)
    {
      var id, visit := tabs.value[examined], answers[examined];
      examined := examined + 1;
      assert answers[..examined][..examined - 1] == answers[..examined - 1];
      assert tabs.value[..examined][..examined - 1] == tabs.value[..examined - 1];
      calls := calls + [Reads(E.Request(id, thresholdMs, cutoffMs))];
      if visit.read.ReadThrows? {
        failed := failed + 1;
      } else if visit.read.NotEligible? {
        skipped := skipped + 1;
      } else {
        calls := calls + [Terminates(id)];
        match visit.outcome
        case Terminated => terminated := terminated + 1;
        case Skipped => skipped := skipped + 1;
        case Failed => failed := failed + 1;
        case TerminateThrows => failed := failed + 1;
      }
    }
    r := Report(false, examined, terminated, skipped, failed);
  }

  // ---------------------------------------------------------------- the timer and the run in flight

  datatype DependencyFailure = SettingsUnavailable | TabsUnavailable

  datatype Registration = Registration(id: nat, cancelling: bool)

  /** How a call of setTimeout or clearTimeout goes: it may run the timer's callback first, and it may throw. */
  datatype Scheduling = Scheduling(works: bool, fires: bool)

  /** What a run about to start finds. */
  datatype Surroundings = Surroundings(threshold: Threshold, tabsWork: bool, clearing: Scheduling)

  function FailureOf(at: Surroundings): Option<DependencyFailure> {
    if at.threshold.None? then Some(SettingsUnavailable)
    else if at.threshold.value > 0 && !at.tabsWork then Some(TabsUnavailable)
    else None
  }

  class StaleSessionCleaner {
    var timer: Option<Registration>
    var inFlight: Option<nat>
    var inFlightThreshold: Threshold
    var inFlightDependencyFailure: Option<DependencyFailure>
    var lastResult: Option<Report>
    var lastDependencyFailure: Option<DependencyFailure>
    var shuttingDown: bool
    var registrations: nat
    var runs: nat
    ghost var schedulerFailed: bool          // the last attempt to arm a timer threw

    ghost predicate Ordered()
      reads this
    {
      && (timer.Some? ==> !timer.value.cancelling && timer.value.id < registrations)
      && (inFlight.Some? ==> inFlight.value < runs)
      && (inFlight.None? ==> inFlightThreshold.None? && inFlightDependencyFailure.None?)
      && (inFlightThreshold == Some(0) ==> inFlightDependencyFailure.None?)
    }

    /** While no run is in flight and shutdown has not been called, a timer is armed that will start the next one,
        unless the scheduler refused. */
    ghost predicate Valid()
      reads this
    {
      && Ordered()
      && (inFlight.None? && !shuttingDown ==> timer.Some? || schedulerFailed)
    }

    constructor (at: Surroundings, setting: Scheduling)
      ensures Valid() && !shuttingDown && runs <= 1 && lastResult.None? && lastDependencyFailure.None?
      ensures inFlight.Some? <==> setting.fires
    {
      timer, inFlight, inFlightThreshold, inFlightDependencyFailure := None, None, None, None;
      lastResult, lastDependencyFailure := None, None;
      shuttingDown, registrations, runs, schedulerFailed := false, 0, 0, true;
      new;
      Schedule(at, setting);
    }

    /** The part of `fireTimer` that decides whether the callback of a timer starts a run: only the current timer does,
        unless it is being cancelled or shutdown has been called. */
    method TakeTimer(id: nat) returns (starts: bool)
      modifies `timer
      ensures starts <==> old(timer) == Some(Registration(id, false)) && !shuttingDown
      ensures timer == if old(timer).Some? && old(timer).value.id == id then None else old(timer)
    {
      if timer.None? || timer.value.id != id {
        return false;
      }
      var registration := timer.value;
      timer := None;
      starts := !registration.cancelling && !shuttingDown;
    }

    /** `cancelTimer`.  A callback that runs inside clearTimeout finds its timer being cancelled and starts nothing: the
        run that is about to begin stays the only one.  A timer that can neither be cleared nor has fired stays. */
    method CancelTimer(clearing: Scheduling)
      modifies `timer
      ensures timer == if clearing.works || clearing.fires || old(timer).None? then None
                       else Some(old(timer).value.(cancelling := false))
    {
      if timer.None? {
        return;
      }
      var registration := timer.value;
      timer := Some(registration.(cancelling := true));
      if clearing.fires {
        var starts := TakeTimer(registration.id);
        assert !starts;
      }
      if !clearing.works {
        // The registration is an object: this resets the flag wherever it is still referred to.
        timer := if timer.Some? then Some(registration.(cancelling := false)) else None;
        return;
      }
      timer := None;
    }

    /** `startRun`: joins the run in flight or begins the only one. */
    method StartRun(at: Surroundings) returns (run: nat)
      requires Ordered()
      modifies `timer, `inFlight, `inFlightThreshold, `inFlightDependencyFailure, `runs
      ensures Valid() && inFlight == Some(run)
      ensures old(inFlight).Some? ==>
                && inFlight == old(inFlight) && runs == old(runs) && timer == old(timer)
                && inFlightThreshold == old(inFlightThreshold)
                && inFlightDependencyFailure == old(inFlightDependencyFailure)
      ensures old(inFlight).None? ==>
                && run == old(runs) && runs == old(runs) + 1
                && inFlightThreshold == at.threshold && inFlightDependencyFailure == FailureOf(at)
      ensures timer.Some? ==> timer == old(timer)
    {
      if inFlight.Some? {
        return inFlight.value;
      }
      CancelTimer(at.clearing);
      inFlightThreshold := at.threshold;
      inFlightDependencyFailure := if at.threshold.Some? then None else Some(SettingsUnavailable);
      if at.threshold.Some? && at.threshold.value > 0 && !at.tabsWork {
        inFlightDependencyFailure := Some(TabsUnavailable);
      }
      run := runs;
      inFlight, runs := Some(run), runs + 1;
    }

    /** `fireTimer`: only the current timer counts, and none after shutdown. */
    method FireTimer(id: nat, at: Surroundings)
      requires Ordered()
      modifies `timer, `inFlight, `inFlightThreshold, `inFlightDependencyFailure, `runs
      ensures Ordered() && (old(Valid()) || inFlight.Some? ==> Valid())
      ensures shuttingDown || old(timer).None? || old(timer).value.id != id ==>
                && runs == old(runs) && inFlight == old(inFlight) && inFlightThreshold == old(inFlightThreshold)
                && inFlightDependencyFailure == old(inFlightDependencyFailure)
      ensures !shuttingDown && old(timer).Some? && old(timer).value.id == id ==>
                && inFlight == (if old(inFlight).Some? then old(inFlight) else Some(old(runs)))
                && runs == (if old(inFlight).Some? then old(runs) else old(runs) + 1)
      ensures timer == if old(timer).Some? && old(timer).value.id == id then None else old(timer)
    {
      var starts := TakeTimer(id);
      if starts {
        var _ := StartRun(at);
      }
    }

    /** `schedule`: arms a timer unless there is one; its callback may run before setTimeout returns. */
    method Schedule(at: Surroundings, setting: Scheduling)
      requires Ordered()
      modifies `timer, `inFlight, `inFlightThreshold, `inFlightDependencyFailure, `runs, `registrations,
               `schedulerFailed
      ensures Valid()
      ensures shuttingDown || old(timer).Some? || !setting.fires ==>
                && runs == old(runs) && inFlight == old(inFlight) && inFlightThreshold == old(inFlightThreshold)
                && inFlightDependencyFailure == old(inFlightDependencyFailure)
      ensures shuttingDown || old(timer).Some? ==> timer == old(timer)
      ensures !shuttingDown && old(timer).None? && !setting.fires && setting.works ==> timer.Some?
      ensures !shuttingDown && old(timer).None? && setting.fires && old(inFlight).None? ==>
                inFlight == Some(old(runs)) && runs == old(runs) + 1
    {
      if shuttingDown || timer.Some? {
        return;
      }
      var registration := Registration(registrations, false);
      registrations := registrations + 1;
      timer := Some(registration);
      schedulerFailed := !setting.works;
      if setting.fires {
        FireTimer(registration.id, at);
      }
      if !setting.works && timer == Some(registration) {
        timer := None;
      }
    }

    /** `runNow`: None is a rejection. */
    method RunNow(at: Surroundings) returns (run: Option<nat>)
      requires Valid()
      modifies this
      ensures Valid() && runs <= old(runs) + 1
      ensures run.Some? ==> run == inFlight
      ensures run.None? || old(inFlight).Some? ==> runs == old(runs) && inFlight == old(inFlight)
      ensures run.None? <==>
                shuttingDown || (if old(inFlight).Some? then old(inFlightThreshold) else at.threshold) == Some(0)
    {
      if shuttingDown {
        return None;
      }
      if inFlight.Some? {
        return if inFlightThreshold == Some(0) && inFlightDependencyFailure.None? then None else inFlight;
      }
      if at.threshold == Some(0) {
        return None;
      }
      var id := StartRun(at);
      run := Some(id);
    }

    /** `finishRun`: the end of the run in flight records its result with the dependency that failed it and arms the
        next timer; a second end of the same run is ignored. */
    method FinishRun(run: nat, result: Option<Report>, at: Surroundings, setting: Scheduling)
      requires Valid()
      modifies this
      ensures Valid() && shuttingDown == old(shuttingDown)
      ensures old(inFlight) != Some(run) ==>
                && inFlight == old(inFlight) && timer == old(timer) && runs == old(runs)
                && lastResult == old(lastResult) && lastDependencyFailure == old(lastDependencyFailure)
      ensures old(inFlight) == Some(run) ==>
                && inFlight != Some(run)
                && lastResult == (if result.Some? then result else old(lastResult))
                && lastDependencyFailure
                   == (if result.Some? then old(inFlightDependencyFailure) else old(lastDependencyFailure))
                && (inFlight.Some? <==> !shuttingDown && old(timer).None? && setting.fires)
                && (!shuttingDown && setting.works ==> timer.Some? || inFlight.Some?)
    {
      if inFlight != Some(run) {
        return;
      }
      if result.Some? {
        lastResult, lastDependencyFailure := result, inFlightDependencyFailure;
      }
      inFlight, inFlightThreshold, inFlightDependencyFailure := None, None, None;
      Schedule(at, setting);
    }

    /** `shutdown`: nothing starts any more; the run in flight, if any, is what the caller waits for. */
    method Shutdown(clearing: Scheduling) returns (awaited: Option<nat>)
      requires Valid()
      modifies this
      ensures Valid() && shuttingDown && runs == old(runs) && inFlight == old(inFlight)
      ensures !old(shuttingDown) ==> awaited == inFlight
    {
      if shuttingDown {
        return None;
      }
      shuttingDown := true;
      awaited := inFlight;
      CancelTimer(clearing);
    }
  }
}
