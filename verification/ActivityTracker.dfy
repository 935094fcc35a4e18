/** apps/server/src/activity-tracker.ts: batches activity marks into flushes of the tab store.

    The synchronous stretches of the code are functions on `Tracker`; class `ActivityTracker` performs them in
    place and is proved against them.  The promise callbacks of a flush become separate events, so a run is any
    interleaving of marks, timer firings, promise reactions and shutdown. */
module ActivityTracking {
  import opened Collections
  import opened GenerationCaches

  /** Progress of one `flushActivity` operation: about to be called; accepted by the store's queue with its
      timestamp; settled either way; after a rejection, once the catch handler has put the ids back. */
  datatype FlushPhase = Calling | Waiting(at: nat) | Stored(at: nat) | Rejected | Restored
  datatype Flush = Flush(ids: seq<Id>, phase: FlushPhase)
  datatype Shutdown = Open | AwaitingFlight | Draining(flush: Flush) | Resolved | Failed

  datatype Tracker = Tracker(
    dirty: seq<Id>, flushing: set<Id>, timer: bool, inFlight: Option<Flush>,
    accepting: bool, shutdown: Shutdown, cache: Cache)

  const INITIAL := Tracker([], {}, false, None, true, Open, EMPTY)

  // ---------------------------------------------------------------- synchronous stretches

  function Touched(t: Tracker, ids: seq<Id>): Tracker {
    t.(cache := AdvanceAll(GlobalClock, t.cache, ids))
  }

  function Scheduled(t: Tracker): Tracker {
    if t.accepting && !t.timer && t.inFlight.None? && t.dirty != [] then t.(timer := true) else t
  }

  function Marked(t: Tracker, id: Id): Tracker {
    if !t.accepting then t else Scheduled(Touched(t.(dirty := Added(t.dirty, id)), [id]))
  }

  /** Moves the dirty ids into flight. */
  function Taken(t: Tracker): Tracker {
    Touched(t.(dirty := [], flushing := t.flushing + Elements(t.dirty)), t.dirty)
  }

  function Fired(t: Tracker): Tracker {
    if t.inFlight.Some? || t.dirty == [] then t.(timer := false)
    else Taken(t.(timer := false)).(inFlight := Some(Flush(t.dirty, Calling)))
  }

  function Restoring(t: Tracker, ids: seq<Id>): Tracker {
    t.(dirty := AddedAll(t.dirty, ids))
  }

  function Released(t: Tracker, ids: seq<Id>): Tracker {
    Touched(t.(flushing := t.flushing - Elements(ids)), ids)
  }

  /** The start of the shutdown flush; `at` is None when the clock or the store throws at once. */
  function Drained(t: Tracker, at: Option<nat>): Tracker {
    if t.dirty == [] then t.(shutdown := Resolved)
    else Taken(t).(shutdown := Draining(Flush(t.dirty, if at.Some? then Waiting(at.value) else Rejected)))
  }

  function ShutDown(t: Tracker, at: Option<nat>): Tracker {
    if t.shutdown != Open then t
    else
      var closing := t.(accepting := false, timer := false);
      if closing.inFlight.Some? then closing.(shutdown := AwaitingFlight) else Drained(closing, at)
  }

  /** The pending flag of `cleanupSnapshot`. */
  predicate Pending(t: Tracker, id: Id) {
    id in t.dirty || id in t.flushing
  }

  // ---------------------------------------------------------------- runs

  datatype Mark = Mark(id: Id, time: nat)

  /** A flush the store has completed, with the timestamp it wrote. */
  datatype Batch = Batch(ids: seq<Id>, at: nat)

  /** A tracker, the current time, and the history of accepted marks and completed flushes. */
  datatype World = World(t: Tracker, clock: nat, marks: seq<Mark>, accepted: seq<Batch>)

  datatype Event =
    | Tick(now: nat)
    | MarkId(id: Id)
    | TimerFires
    | CallsStore(ok: bool)
    | StoreSettles(ok: bool)
    | CatchRuns
    | FinallyRuns
    | ShutdownCalled(ok: bool)
    | FlightAwaited(ok: bool)
    | DrainSettles(ok: bool)
    | DrainFinishes

  const START := World(INITIAL, 0, [], [])

  predicate Enabled(w: World, e: Event) {
    match e
    case Tick(_) => true
    case MarkId(_) => true
    case TimerFires => w.t.timer
    case CallsStore(_) => w.t.inFlight.Some? && w.t.inFlight.value.phase.Calling?
    case StoreSettles(_) => w.t.inFlight.Some? && w.t.inFlight.value.phase.Waiting?
    case CatchRuns => w.t.inFlight.Some? && w.t.inFlight.value.phase.Rejected?
    case FinallyRuns => w.t.inFlight.Some? && (w.t.inFlight.value.phase.Stored? || w.t.inFlight.value.phase.Restored?)
    case ShutdownCalled(_) => true
    case FlightAwaited(_) => w.t.shutdown.AwaitingFlight? && w.t.inFlight.None?
    case DrainSettles(_) => w.t.shutdown.Draining? && w.t.shutdown.flush.phase.Waiting?
    case DrainFinishes =>
      w.t.shutdown.Draining? && (w.t.shutdown.flush.phase.Stored? || w.t.shutdown.flush.phase.Rejected?)
  }

  function Answer(ok: bool, now: nat): Option<nat> {
    if ok then Some(now) else None
  }

  function Settled(f: Flush, ok: bool): Flush
    requires f.phase.Waiting?
  {
    f.(phase := if ok then Stored(f.phase.at) else Rejected)
  }

  function Step(w: World, e: Event): World
    requires Enabled(w, e)
  {
    var t := w.t;
    match e
    case Tick(now) => w.(clock := now)
    case MarkId(id) => w.(t := Marked(t, id), marks := if t.accepting then w.marks + [Mark(id, w.clock)] else w.marks)
    case TimerFires => w.(t := Fired(t))
    case CallsStore(ok) =>
      var f := t.inFlight.value;
      w.(t := t.(inFlight := Some(f.(phase := if ok then Waiting(w.clock) else Rejected))))
    case StoreSettles(ok) =>
      var f := t.inFlight.value;
      w.(t := t.(inFlight := Some(Settled(f, ok))),
         accepted := if ok then w.accepted + [Batch(f.ids, f.phase.at)] else w.accepted)
    case CatchRuns =>
      var f := t.inFlight.value;
      w.(t := Restoring(t, f.ids).(inFlight := Some(f.(phase := Restored))))
    case FinallyRuns => w.(t := Scheduled(Released(t, t.inFlight.value.ids).(inFlight := None)))
    case ShutdownCalled(ok) => w.(t := ShutDown(t, Answer(ok, w.clock)))
    case FlightAwaited(ok) => w.(t := Drained(t, Answer(ok, w.clock)))
    case DrainSettles(ok) =>
      var f := t.shutdown.flush;
      w.(t := t.(shutdown := Draining(Settled(f, ok))),
         accepted := if ok then w.accepted + [Batch(f.ids, f.phase.at)] else w.accepted)
    case DrainFinishes =>
      var f := t.shutdown.flush;
      if f.phase.Stored? then w.(t := Released(t, f.ids).(shutdown := Resolved))
      else w.(t := Released(Restoring(t, f.ids), f.ids).(shutdown := Failed))
  }

  ghost predicate Reaches(from: World, events: seq<Event>, to: World)
    decreases events
  {
    if events == [] then from == to
    else Enabled(from, events[0]) && Reaches(Step(from, events[0]), events[1..], to)
  }

  // ---------------------------------------------------------------- what every run keeps

  /** One of the completed flushes, timestamped at or after the mark, contains its id. */
  ghost predicate SavedBy(accepted: seq<Batch>, m: Mark) {
    exists b :: b in accepted && m.id in b.ids && m.time <= b.at
  }

  ghost predicate Saved(w: World, m: Mark) {
    SavedBy(w.accepted, m)
  }

  ghost predicate NothingLost(w: World) {
    forall m :: m in w.marks ==> Pending(w.t, m.id) || Saved(w, m)
  }

  ghost function FlightIds(t: Tracker): set<Id> {
    (if t.inFlight.Some? then Elements(t.inFlight.value.ids) else {})
    + (if t.shutdown.Draining? then Elements(t.shutdown.flush.ids) else {})
  }

  /** At most one flush is in flight, whether started by the timer or by the shutdown. */
  ghost predicate SingleFlight(t: Tracker) {
    t.inFlight.Some? ==> t.shutdown.Open? || t.shutdown.AwaitingFlight?
  }

  ghost predicate Bookkeeping(t: Tracker) {
    && Valid(GlobalClock, t.cache)
    && SingleFlight(t)
    && t.flushing == FlightIds(t)
    && (t.accepting <==> t.shutdown.Open?)
    && (t.timer ==> t.accepting && t.inFlight.None?)
    // A dirty id never waits without a timer or a flush that will reschedule.
    && (t.accepting && t.inFlight.None? && t.dirty != [] ==> t.timer)
    // A resolved shutdown left nothing behind.
    && (t.shutdown.Resolved? ==> t.dirty == [] && t.flushing == {})
    && (t.shutdown.Draining? ==> t.dirty == [] && !t.shutdown.flush.phase.Calling? && !t.shutdown.flush.phase.Restored?)
  }

  /** The flush's own batch is the latest one, and the ids of a failed flush are dirty again. */
  ghost predicate Settles(w: World, f: Flush) {
    match f.phase
    case Stored(at) => w.accepted != [] && w.accepted[|w.accepted| - 1] == Batch(f.ids, at)
    case Restored => forall id :: id in f.ids ==> id in w.t.dirty
    case _ => true
  }

  /** What holds whatever the clock does. */
  ghost predicate Ordered(w: World) {
    && Bookkeeping(w.t)
    && (w.t.inFlight.Some? ==> Settles(w, w.t.inFlight.value))
    && (w.t.shutdown.Draining? ==> Settles(w, w.t.shutdown.flush))
  }

  lemma TouchedValid(t: Tracker, ids: seq<Id>)
    requires Valid(GlobalClock, t.cache)
    ensures Valid(GlobalClock, Touched(t, ids).cache)
  {
    RunMonotone(GlobalClock, t.cache, ids, 0);
  }

  lemma StepKeepsBookkeeping(w: World, e: Event)
    requires Bookkeeping(w.t) && Enabled(w, e)
    ensures Bookkeeping(Step(w, e).t)
  {
    var t := w.t;
    match e
    case MarkId(id) => TouchedValid(t, [id]);
    case TimerFires => TouchedValid(t, t.dirty);
    case FinallyRuns => TouchedValid(t, t.inFlight.value.ids);
    case ShutdownCalled(_) => TouchedValid(t, t.dirty);
    case FlightAwaited(_) => TouchedValid(t, t.dirty);
    case DrainFinishes => TouchedValid(t, t.shutdown.flush.ids);
    case _ =>
  }

  lemma StepKeepsOrder(w: World, e: Event)
    requires Ordered(w) && Enabled(w, e)
    ensures Ordered(Step(w, e))
  {
    StepKeepsBookkeeping(w, e);
  }

  lemma {:induction false} RunKeepsOrder(from: World, events: seq<Event>, to: World)
    requires Ordered(from) && Reaches(from, events, to)
    ensures Ordered(to)
    decreases events
  {
    if events != [] {
      StepKeepsOrder(from, events[0]);
      RunKeepsOrder(Step(from, events[0]), events[1..], to);
    }
  }

  /** A settled-but-failed flush loses nothing, whatever the clock does: at the moment its catch handler has run, its
      ids are dirty again, so the next flush takes them. */
  lemma FailedFlushIsRetried(events: seq<Event>, w: World, id: Id)
    requires Reaches(START, events, w)
    requires w.t.inFlight.Some? && w.t.inFlight.value.phase.Rejected? && id in w.t.inFlight.value.ids
    ensures w.t.accepting ==>
              var after := Step(Step(w, CatchRuns), FinallyRuns);
              id in after.t.dirty && after.t.timer && id in Step(after, TimerFires).t.inFlight.value.ids
  {
    RunKeepsOrder(START, events, w);
    StepKeepsOrder(w, CatchRuns);
    StepKeepsOrder(Step(w, CatchRuns), FinallyRuns);
  }

  // ---------------------------------------------------------------- exactly when a mark is lost

  /** The stored flush that a step releases. */
  function ReleasedFlush(w: World, e: Event): Option<Flush>
    requires Enabled(w, e)
  {
    if e.FinallyRuns? && w.t.inFlight.value.phase.Stored? then w.t.inFlight
    else if e.DrainFinishes? && w.t.shutdown.flush.phase.Stored? then Some(w.t.shutdown.flush)
    else None
  }

  /** Each mark of the flush's ids that has not been made again is no later than the flush's reading of the clock, or
      had been saved before. */
  ghost predicate Covering(w: World, f: Flush)
    requires f.phase.Stored? && w.accepted != []
  {
    forall m :: m in w.marks && m.id in f.ids && m.id !in w.t.dirty ==>
      m.time <= f.phase.at || SavedBy(w.accepted[..|w.accepted| - 1], m)
  }

  lemma StepKeepsSaved(w: World, e: Event, m: Mark)
    requires Enabled(w, e) && Saved(w, m)
    ensures Saved(Step(w, e), m)
  {
    var b :| b in w.accepted && m.id in b.ids && m.time <= b.at;
    assert b in Step(w, e).accepted;
  }

  lemma SavedByLast(w: World, b: Batch, m: Mark)
    requires w.accepted != [] && w.accepted[|w.accepted| - 1] == b
    ensures Saved(w, m) <==> (m.id in b.ids && m.time <= b.at) || SavedBy(w.accepted[..|w.accepted| - 1], m)
  {
    var front := w.accepted[..|w.accepted| - 1];
    assert w.accepted == front + [b];
    assert b in w.accepted;
    if SavedBy(front, m) {
      var c :| c in front && m.id in c.ids && m.time <= c.at;
      assert c in w.accepted;
    }
  }

  /** A step that releases no stored flush leaves every pending id pending. */
  lemma OthersStayPending(w: World, e: Event, id: Id)
    requires Ordered(w) && Enabled(w, e) && Pending(w.t, id) && ReleasedFlush(w, e).None?
    ensures Pending(Step(w, e).t, id)
  {
  }

  lemma ReleaseLeavesDirty(w: World, e: Event, id: Id)
    requires Ordered(w) && Enabled(w, e) && ReleasedFlush(w, e).Some?
    ensures var f := ReleasedFlush(w, e).value;
            && Pending(Step(w, e).t, id) == (id in w.t.dirty || (Pending(w.t, id) && id !in f.ids))
            && Step(w, e).marks == w.marks && Step(w, e).accepted == w.accepted
  {
  }

  /** From a state in which nothing is lost a step loses something if and only if it releases a flush that does not
      cover its marks. */
  lemma StepLosesIff(w: World, e: Event)
    requires Ordered(w) && NothingLost(w) && Enabled(w, e)
    ensures ReleasedFlush(w, e).Some? ==> w.accepted != []
    ensures NothingLost(Step(w, e)) <==> (ReleasedFlush(w, e).Some? ==> Covering(w, ReleasedFlush(w, e).value))
  {
    var v := Step(w, e);
    if ReleasedFlush(w, e).None? {
      forall m | m in v.marks
        ensures Pending(v.t, m.id) || Saved(v, m)
      {
        if m in w.marks {
          if Pending(w.t, m.id) {
            OthersStayPending(w, e, m.id);
          } else {
            StepKeepsSaved(w, e, m);
          }
        }
      }
    } else {
      ReleaseLosesIff(w, e, ReleasedFlush(w, e).value);
    }
  }

  lemma ReleaseLosesIff(w: World, e: Event, f: Flush)
    requires Ordered(w) && NothingLost(w) && Enabled(w, e) && ReleasedFlush(w, e) == Some(f)
    ensures w.accepted != [] && (NothingLost(Step(w, e)) <==> Covering(w, f))
  {
    var v := Step(w, e);
    forall m | m in w.marks
      ensures var lone := m.id in f.ids && m.id !in w.t.dirty;
              && Pending(v.t, m.id) == (m.id in w.t.dirty || (Pending(w.t, m.id) && m.id !in f.ids))
              && v.marks == w.marks
              && (Saved(v, m)
                  <==> (m.id in f.ids && m.time <= f.phase.at) || SavedBy(w.accepted[..|w.accepted| - 1], m))
    {
      ReleaseLeavesDirty(w, e, m.id);
      SavedByLast(v, Batch(f.ids, f.phase.at), m);
    }
  }

  /** Nothing is lost in any state of the run. */
  ghost predicate NeverLoses(from: World, events: seq<Event>, to: World)
    requires Reaches(from, events, to)
    decreases events
  {
    NothingLost(from) && (events != [] ==> NeverLoses(Step(from, events[0]), events[1..], to))
  }

  ghost predicate AllCover(from: World, events: seq<Event>, to: World)
    requires Reaches(from, events, to)
    decreases events
  {
    events != [] ==>
      && (ReleasedFlush(from, events[0]).Some? ==>
            from.accepted != [] && Covering(from, ReleasedFlush(from, events[0]).value))
      && AllCover(Step(from, events[0]), events[1..], to)
  }

  lemma {:induction false} RunLosesIff(from: World, events: seq<Event>, to: World)
    requires Ordered(from) && NothingLost(from) && Reaches(from, events, to)
    ensures NeverLoses(from, events, to) <==> AllCover(from, events, to)
    decreases events
  {
    if events != [] {
      StepLosesIff(from, events[0]);
      StepKeepsOrder(from, events[0]);
      if NothingLost(Step(from, events[0])) {
        RunLosesIff(Step(from, events[0]), events[1..], to);
      }
    }
  }

  /** Under any clock whatsoever: at most one flush is in flight; every accepted mark is, at every moment of the run,
      dirty, in flight or covered by a completed flush timestamped no earlier, if and only if each stored flush covers
      its marks when it is released; and a resolved shutdown leaves nothing dirty. */
  lemma ActivityIsLostIff(events: seq<Event>, w: World)
    requires Reaches(START, events, w)
    ensures NeverLoses(START, events, w) <==> AllCover(START, events, w)
    ensures SingleFlight(w.t) && (w.t.shutdown.Resolved? ==> w.t.dirty == [] && w.t.flushing == {})
  {
    RunLosesIff(START, events, w);
    RunKeepsOrder(START, events, w);
  }

  // ---------------------------------------------------------------- readings in time

  /** The guard at the moment of the reading: of the ids taken, each mark that has not been made again is no later than
      the clock, or saved already. */
  ghost predicate InTime(w: World, ids: seq<Id>, again: seq<Id>) {
    forall m :: m in w.marks && m.id in ids && m.id !in again ==> m.time <= w.clock || Saved(w, m)
  }

  /** Each of the three places that call the store with a reading of the clock does so in time. */
  ghost predicate Timely(w: World, e: Event)
    requires Enabled(w, e)
  {
    match e
    case CallsStore(ok) => ok ==> InTime(w, w.t.inFlight.value.ids, w.t.dirty)
    case ShutdownCalled(ok) => ok && w.t.shutdown.Open? && w.t.inFlight.None? ==> InTime(w, w.t.dirty, [])
    case FlightAwaited(ok) => ok ==> InTime(w, w.t.dirty, [])
    case _ => true
  }

  ghost predicate TimelyRun(from: World, events: seq<Event>, to: World)
    requires Reaches(from, events, to)
    decreases events
  {
    events != [] ==> Timely(from, events[0]) && TimelyRun(Step(from, events[0]), events[1..], to)
  }

  /** A flush that has read the clock covers the marks it took. */
  ghost predicate CoversMarks(w: World, f: Flush) {
    (f.phase.Waiting? || f.phase.Stored?) ==>
      forall m :: m in w.marks && m.id in f.ids && m.id !in w.t.dirty ==> m.time <= f.phase.at || Saved(w, m)
  }

  ghost predicate Inv(w: World) {
    && Ordered(w)
    && (w.t.inFlight.Some? ==> CoversMarks(w, w.t.inFlight.value))
    && (w.t.shutdown.Draining? ==> CoversMarks(w, w.t.shutdown.flush))
    && NothingLost(w)
  }

  /** What covers a mark now covers it after the step, unless the mark is made again. */
  lemma StillCovered(w: World, e: Event, f: Flush)
    requires Ordered(w) && Enabled(w, e) && CoversMarks(w, f) && (f.phase.Waiting? || f.phase.Stored?)
    ensures forall m :: m in w.marks && m.id in f.ids && m.id !in w.t.dirty ==>
              m.time <= f.phase.at || Saved(Step(w, e), m)
  {
    forall m | m in w.marks && m.id in f.ids && m.id !in w.t.dirty && Saved(w, m)
      ensures Saved(Step(w, e), m)
    {
      StepKeepsSaved(w, e, m);
    }
  }

  lemma StepKeepsCover(w: World, e: Event)
    requires Inv(w) && Enabled(w, e) && Timely(w, e)
    ensures var v := Step(w, e);
            && (v.t.inFlight.Some? ==> CoversMarks(v, v.t.inFlight.value))
            && (v.t.shutdown.Draining? ==> CoversMarks(v, v.t.shutdown.flush))
  {
    if w.t.inFlight.Some? && (w.t.inFlight.value.phase.Waiting? || w.t.inFlight.value.phase.Stored?) {
      StillCovered(w, e, w.t.inFlight.value);
    }
    if w.t.shutdown.Draining? && (w.t.shutdown.flush.phase.Waiting? || w.t.shutdown.flush.phase.Stored?) {
      StillCovered(w, e, w.t.shutdown.flush);
    }
    match e
    case Tick(_) =>
    case MarkId(id) =>
    case TimerFires =>
    case _ =>
  }

  lemma StepKeepsNothingLost(w: World, e: Event)
    requires Inv(w) && Enabled(w, e)
    ensures NothingLost(Step(w, e))
  {
    StepLosesIff(w, e);
    if ReleasedFlush(w, e).Some? {
      var f := ReleasedFlush(w, e).value;
      forall m | m in w.marks && m.id in f.ids && m.id !in w.t.dirty
        ensures m.time <= f.phase.at || SavedBy(w.accepted[..|w.accepted| - 1], m)
      {
        SavedByLast(w, Batch(f.ids, f.phase.at), m);
      }
    }
  }

  lemma StepKeepsInv(w: World, e: Event)
    requires Inv(w) && Enabled(w, e) && Timely(w, e)
    ensures Inv(Step(w, e))
  {
    StepKeepsOrder(w, e);
    StepKeepsCover(w, e);
    StepKeepsNothingLost(w, e);
  }

  lemma {:induction false} RunKeepsInv(from: World, events: seq<Event>, to: World)
    requires Inv(from) && Reaches(from, events, to) && TimelyRun(from, events, to)
    ensures Inv(to)
    decreases events
  {
    if events != [] {
      StepKeepsInv(from, events[0]);
      RunKeepsInv(Step(from, events[0]), events[1..], to);
    }
  }

  /** In every run whose flushes read the clock in time, each accepted mark is dirty, in flight, or covered by a
      completed flush that is timestamped no earlier; and a resolved shutdown means that every accepted mark reached the
      store. */
  lemma NoActivityLost(events: seq<Event>, w: World)
    requires Reaches(START, events, w) && TimelyRun(START, events, w)
    ensures NothingLost(w)
    ensures w.t.shutdown.Resolved? ==> w.t.dirty == [] && forall m :: m in w.marks ==> Saved(w, m)
  {
    RunKeepsInv(START, events, w);
  }

  // A clock that never goes back is always read in time.

  predicate Forward(w: World, e: Event) {
    e.Tick? ==> e.now >= w.clock
  }

  ghost predicate MarksPast(w: World) {
    forall m :: m in w.marks ==> m.time <= w.clock
  }

  lemma ForwardIsTimely(w: World, e: Event)
    requires Enabled(w, e) && MarksPast(w) && Forward(w, e)
    ensures Timely(w, e) && MarksPast(Step(w, e))
  {
  }

  ghost predicate ForwardRun(from: World, events: seq<Event>, to: World)
    requires Reaches(from, events, to)
    decreases events
  {
    events != [] ==> Forward(from, events[0]) && ForwardRun(Step(from, events[0]), events[1..], to)
  }

  lemma {:induction false} ForwardRunIsTimely(from: World, events: seq<Event>, to: World)
    requires Reaches(from, events, to) && MarksPast(from) && ForwardRun(from, events, to)
    ensures TimelyRun(from, events, to) && MarksPast(to)
    decreases events
  {
    if events != [] {
      ForwardIsTimely(from, events[0]);
      ForwardRunIsTimely(Step(from, events[0]), events[1..], to);
    }
  }

  // A clock that goes back need not be.

  /** The state of a lone mark once its flush, which read the clock at `now`, has been stored and released. */
  function FlushedAlone(id: Id, marked: nat, now: nat): World {
    var dirty := START.(t := Marked(INITIAL, id), clock := now, marks := [Mark(id, marked)]);
    var taken := dirty.(t := Fired(dirty.t));
    var stored := taken.(t := taken.t.(inFlight := Some(Flush([id], Stored(now)))), accepted := [Batch([id], now)]);
    stored.(t := Scheduled(Released(stored.t, [id]).(inFlight := None)))
  }

  /** The failing input: a flush that reads an earlier time than a lone mark it takes leaves it neither pending nor
      covered. */
  lemma BackwardClockUnderstates(id: Id, marked: nat, now: nat)
    requires now < marked
    ensures var w := Step(START.(clock := marked), MarkId(id)).(clock := now);
            && Enabled(w, TimerFires) && Enabled(Step(w, TimerFires), CallsStore(true))
            && Enabled(Step(Step(w, TimerFires), CallsStore(true)), StoreSettles(true))
            && Step(Step(Step(Step(w, TimerFires), CallsStore(true)), StoreSettles(true)), FinallyRuns)
               == FlushedAlone(id, marked, now)
    ensures !NothingLost(FlushedAlone(id, marked, now))
  {
    var v := FlushedAlone(id, marked, now);
    assert Added(INITIAL.dirty, id) == [id];
    assert !Pending(v.t, id);
    assert v.marks[0] == Mark(id, marked) && v.accepted[0] == Batch([id], now);
    assert !Saved(v, Mark(id, marked));
  }

  // ---------------------------------------------------------------- the class

  class ActivityTracker {
    var dirtyIds: seq<Id>
    var flushingIds: set<Id>
    var timer: bool
    var inFlight: Option<Flush>
    var accepting: bool
    var shutdownState: Shutdown
    var cleanupClock: nat
    var cleanupEvictionGeneration: nat
    var cleanupOrder: seq<Id>
    var cleanupGenerations: map<Id, nat>

    ghost function CacheModel(): Cache
      reads this
    {
      Cache(cleanupOrder, cleanupGenerations, cleanupEvictionGeneration, cleanupClock)
    }

    ghost function Model(): Tracker
      reads this
    {
      Tracker(dirtyIds, flushingIds, timer, inFlight, accepting, shutdownState, CacheModel())
    }

    constructor ()
      ensures Model() == INITIAL
    {
      dirtyIds, flushingIds, timer, inFlight := [], {}, false, None;
      accepting, shutdownState := true, Open;
      cleanupClock, cleanupEvictionGeneration, cleanupOrder, cleanupGenerations := 0, 0, [], map[];
    }

    method AdvanceCleanupGeneration(id: Id)
      modifies `cleanupClock, `cleanupEvictionGeneration, `cleanupOrder, `cleanupGenerations
      ensures CacheModel() == Advance(GlobalClock, old(CacheModel()), id)
    {
      cleanupClock := cleanupClock + 1;
      cleanupOrder := Without(cleanupOrder, id) + [id];
      cleanupGenerations := cleanupGenerations[id := cleanupClock];
      if |cleanupOrder| <= MAX_CLEANUP_GENERATIONS {
        return;
      }
      var oldest := cleanupOrder[0];
      cleanupOrder, cleanupGenerations := cleanupOrder[1..], cleanupGenerations - {oldest};
      cleanupEvictionGeneration := cleanupClock;
    }

    method AdvanceCleanupGenerations(ids: seq<Id>)
      modifies `cleanupClock, `cleanupEvictionGeneration, `cleanupOrder, `cleanupGenerations
      ensures CacheModel() == AdvanceAll(GlobalClock, old(CacheModel()), ids)
    {
      ghost var before := CacheModel();
      for k := 0 to |ids|
        invariant CacheModel() == AdvanceAll(GlobalClock, before, ids[..k])
      {
        assert ids[..k + 1] == ids[..k] + [ids[k]];
        AdvanceAllConcat(GlobalClock, before, ids[..k], [ids[k]]);
        AdvanceCleanupGeneration(ids[k]);
      }
      assert ids[..|ids|] == ids;
    }

    method CleanupSnapshot(id: Id) returns (generation: nat, pending: bool)
      ensures generation == Reading(CacheModel(), id)
      ensures pending == Pending(Model(), id)
    {
      generation := if id in cleanupGenerations then cleanupGenerations[id] else cleanupEvictionGeneration;
      pending := id in dirtyIds || id in flushingIds;
    }

    method Schedule()
      modifies `timer
      ensures Model() == Scheduled(old(Model()))
    {
      if !accepting || timer || inFlight.Some? || dirtyIds == [] {
        return;
      }
      timer := true;
    }

    method MarkActivity(id: Id)
      modifies this
      ensures Model() == Marked(old(Model()), id)
    {
      if !accepting {
        return;
      }
      dirtyIds := Added(dirtyIds, id);
      AdvanceCleanupGenerations([id]);
      Schedule();
    }

    method TakeDirtySnapshot() returns (ids: seq<Id>)
      modifies this
      ensures ids == old(dirtyIds)
      ensures Model() == Taken(old(Model()))
    {
      ids := dirtyIds;
      dirtyIds := [];
      flushingIds := flushingIds + Elements(ids);
      AdvanceCleanupGenerations(ids);
    }

    method FireTimer()
      modifies this
      ensures Model() == Fired(old(Model()))
    {
      timer := false;
      if inFlight.Some? || dirtyIds == [] {
        return;
      }
      var ids := TakeDirtySnapshot();
      inFlight := Some(Flush(ids, Calling));
    }

    method HandleRejection()
      requires inFlight.Some?
      modifies this
      ensures Model() == Restoring(old(Model()), old(inFlight).value.ids)
                         .(inFlight := Some(old(inFlight).value.(phase := Restored)))
    {
      dirtyIds := AddedAll(dirtyIds, inFlight.value.ids);
      inFlight := Some(inFlight.value.(phase := Restored));
    }

    method FinishFlush()
      requires inFlight.Some?
      modifies this
      ensures Model() == Scheduled(Released(old(Model()), old(inFlight).value.ids).(inFlight := None))
    {
      var ids := inFlight.value.ids;
      flushingIds := flushingIds - Elements(ids);
      AdvanceCleanupGenerations(ids);
      inFlight := None;
      Schedule();
    }

    method DrainDirty(at: Option<nat>)
      modifies this
      ensures Model() == Drained(old(Model()), at)
    {
      if dirtyIds == [] {
        shutdownState := Resolved;
        return;
      }
      var ids := TakeDirtySnapshot();
      shutdownState := Draining(Flush(ids, if at.Some? then Waiting(at.value) else Rejected));
    }

    method Close(at: Option<nat>)
      modifies this
      ensures Model() == ShutDown(old(Model()), at)
    {
      if shutdownState != Open {
        return;
      }
      accepting := false;
      timer := false;
      if inFlight.Some? {
        shutdownState := AwaitingFlight;
      } else {
        DrainDirty(at);
      }
    }

    /** The end of the shutdown flush: the catch and finally blocks run together. */
    method FinishDrain()
      requires shutdownState.Draining? && (shutdownState.flush.phase.Stored? || shutdownState.flush.phase.Rejected?)
      modifies this
      ensures var f := old(shutdownState).flush;
              Model() == if f.phase.Stored? then Released(old(Model()), f.ids).(shutdown := Resolved)
                         else Released(Restoring(old(Model()), f.ids), f.ids).(shutdown := Failed)
    {
      var f := shutdownState.flush;
      if f.phase.Rejected? {
        dirtyIds := AddedAll(dirtyIds, f.ids);
      }
      flushingIds := flushingIds - Elements(f.ids);
      AdvanceCleanupGenerations(f.ids);
      shutdownState := if f.phase.Stored? then Resolved else Failed;
    }
  }
}
