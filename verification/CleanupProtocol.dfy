/** The stale-session cleanup protocol end to end: activity tracker, tab store, socket counts, bridge registry and
    any number of concurrent cleanup attempts (apps/server/src/stale-session-cleaner.ts,
    SessionManager.terminateIfStale), interleaved at every await. */
module CleanupProtocol {
  import opened Collections
  import G = GenerationCaches
  import A = ActivityTracking
  import D = TabDocuments
  import E = CleanupEligibility
  import S = SocketCounts

  type Id = nat
  type Attempt = nat

  // ---------------------------------------------------------------- the tab store's mutation queue

  /** Who waits for a queued mutation: a flush of the tracker, or somebody else. */
  datatype Client = TimerFlush | ShutdownFlush | Other

  datatype Job = Job(m: D.Mutation, client: Client)

  /** The mutation at the head: writing its candidate, or renamed into place and syncing the directory. */
  datatype Busy = Idle | Persisting(candidate: D.Document, job: Job) | Syncing(job: Job)

  datatype Store = Store(document: D.Document, queue: seq<Job>, busy: Busy)

  // ---------------------------------------------------------------- cleanup attempts

  /** `at` is the length of the change log when the sweep's read captured the state it answered with. */
  datatype Progress =
    | Sweeping(request: E.Request, before: E.State)
    | Swept(captured: E.Snapshot, at: nat)
    | Confirming(captured: E.Snapshot, at: nat, before: E.State)
    | Terminating(captured: E.Snapshot, at: nat)
    | Skipped(reason: E.Reason)

  /** The changes that a cleanup must not overlook. */
  datatype Change = Activity(id: Id) | Sockets(id: Id) | Structure

  datatype System = System(
    tracking: A.World, store: Store, sockets: S.TabSockets, bridged: set<Id>,
    attempts: map<Attempt, Progress>, log: seq<Change>)

  datatype Event =
    | Track(e: A.Event)                                // marks, timers and promise reactions of the tracker
    | Submit(m: D.Mutation)                            // anybody's mutation other than a flush
    | BeginJob(ok: bool)                               // the head of the queue builds its next document
    | FailPersist
    | CommitPersist
    | FinishSync
    | RegisterSocket(id: Id)
    | UnregisterSocket(id: Id)
    | SetBridge(id: Id, present: bool)
    | StartSweep(attempt: Attempt, request: E.Request)
    | EndSweep(attempt: Attempt, running: Option<bool>)
    | StartConfirm(attempt: Attempt)
    | EndConfirm(attempt: Attempt, running: Option<bool>)

  function Start(document: D.Document): System {
    System(A.START, Store(document, [], Idle), S.NO_SOCKETS, {}, map[], [])
  }

  // ---------------------------------------------------------------- steps

  /** `create` reads the clock when it builds; the other mutations carry their arguments. */
  function Timed(m: D.Mutation, clock: nat): D.Mutation {
    match m
    case Create(id, name, _) => D.Create(id, name, clock)
    case EnsureInitialTab(id, _) => D.EnsureInitialTab(id, clock)
    case _ => m
  }

  function CaptureNow(s: System, id: Id): E.Capture {
    E.CaptureOf(
      s.store.document, id,
      G.Reading(s.tracking.t.cache, id), A.Pending(s.tracking.t, id),
      G.Reading(s.sockets.cache, id), S.Count(s.sockets, id),
      id in s.bridged)
  }

  /** The settled promise of a job reaches the tracker if it is a flush the tracker waits for. */
  function Settle(s: System, client: Client, ok: bool): System {
    match client
    case TimerFlush =>
      if A.Enabled(s.tracking, A.StoreSettles(ok)) then s.(tracking := A.Step(s.tracking, A.StoreSettles(ok))) else s
    case ShutdownFlush =>
      if A.Enabled(s.tracking, A.DrainSettles(ok)) then s.(tracking := A.Step(s.tracking, A.DrainSettles(ok))) else s
    case Other => s
  }

  /** Whether the tracker is waiting for the flush that this job carries out. */
  ghost predicate Expected(t: A.Tracker, job: Job) {
    match job.client
    case TimerFlush =>
      t.inFlight.Some? && t.inFlight.value.phase.Waiting?
      && job.m == D.FlushActivity(t.inFlight.value.ids, t.inFlight.value.phase.at)
    case ShutdownFlush =>
      t.shutdown.Draining? && t.shutdown.flush.phase.Waiting?
      && job.m == D.FlushActivity(t.shutdown.flush.ids, t.shutdown.flush.phase.at)
    case Other => !job.m.FlushActivity?
  }

  /** The flushes a tracker event hands to the store. */
  function Handed(before: A.Tracker, after: A.Tracker, e: A.Event): seq<Job> {
    if e.CallsStore? && e.ok && after.inFlight.Some? && after.inFlight.value.phase.Waiting? then
      [Job(D.FlushActivity(after.inFlight.value.ids, after.inFlight.value.phase.at), TimerFlush)]
    else if (e.ShutdownCalled? || e.FlightAwaited?) && !before.shutdown.Draining?
            && after.shutdown.Draining? && after.shutdown.flush.phase.Waiting? then
      [Job(D.FlushActivity(after.shutdown.flush.ids, after.shutdown.flush.phase.at), ShutdownFlush)]
    else []
  }

  function Logged(s: System, e: A.Event): seq<Change> {
    if e.MarkId? && s.tracking.t.accepting then [Activity(e.id)] else []
  }

  predicate StructuralJob(job: Job) {
    D.Structural(job.m)
  }

  predicate Enabled(s: System, e: Event) {
    match e
    case Track(te) => !te.StoreSettles? && !te.DrainSettles? && A.Enabled(s.tracking, te)
    case Submit(m) => !m.FlushActivity?
    case BeginJob(_) => s.store.busy.Idle? && s.store.queue != []
    case FailPersist => s.store.busy.Persisting?
    case CommitPersist => s.store.busy.Persisting?
    case FinishSync => s.store.busy.Syncing?
    case RegisterSocket(_) => true
    case UnregisterSocket(id) => S.Count(s.sockets, id) > 0
    case SetBridge(_, _) => true
    case StartSweep(a, r) => a !in s.attempts
    case EndSweep(a, _) => a in s.attempts && s.attempts[a].Sweeping?
    case StartConfirm(a) => a in s.attempts && s.attempts[a].Swept?
    case EndConfirm(a, _) => a in s.attempts && s.attempts[a].Confirming?
  }

  /** The head of the queue builds; `ok` is false when it fails before reaching the disk. */
  function Begun(s: System, ok: bool, sessionMaxCount: nat): System
    requires Enabled(s, BeginJob(ok))
  {
    var job := s.store.queue[0];
    var rest := s.(store := s.store.(queue := s.store.queue[1..]));
    var out := D.Build(s.store.document, Timed(job.m, s.tracking.clock), sessionMaxCount);
    if !ok || out.Rejected? then Settle(rest, job.client, false)
    else if out.Unchanged? then Settle(rest, job.client, true)
    else rest.(store := rest.store.(busy := Persisting(out.document, job)))
  }

  function SweepEnded(s: System, a: Attempt, running: Option<bool>): Progress
    requires Enabled(s, EndSweep(a, running))
  {
    var p := s.attempts[a];
    var captured := E.ReadSecondHalf(p.request, p.before, running, CaptureNow(s, p.request.id));
    // The sweeper skips an ineligible tab without calling terminateIfStale.
    if !captured.eligible then Skipped(E.ReasonOr(captured)) else Swept(captured, |s.log|)
  }

  function ConfirmStarted(s: System, captured: E.Snapshot, at: nat): Progress {
    var screened := E.Screen(captured.id, captured);
    if screened.Some? then Skipped(if screened.value.Skip? then screened.value.reason else E.Invalid)
    else match E.ReadFirstHalf(E.RequestOf(captured), CaptureNow(s, captured.id))
      case Await(before) => Confirming(captured, at, before)
      case Answer(latest) =>
        (match E.Confirm(captured.id, captured, Some(latest))
         case Terminate => Terminating(captured, at)
         case Skip(reason) => Skipped(reason))
  }

  function ConfirmEnded(s: System, p: Progress, running: Option<bool>): Progress
    requires p.Confirming?
  {
    var id := p.captured.id;
    var latest := E.ReadSecondHalf(E.RequestOf(p.captured), p.before, running, CaptureNow(s, id));
    match E.Confirm(id, p.captured, Some(latest))
    case Terminate => Terminating(p.captured, p.at)
    case Skip(reason) => Skipped(reason)
  }

  function Step(s: System, e: Event, sessionMaxCount: nat): System
    requires Enabled(s, e)
  {
    match e
    case Track(te) =>
      var after := A.Step(s.tracking, te);
      s.(tracking := after,
         store := s.store.(queue := s.store.queue + Handed(s.tracking.t, after.t, te)),
         log := s.log + Logged(s, te))
    case Submit(m) => s.(store := s.store.(queue := s.store.queue + [Job(m, Other)]))
    case BeginJob(ok) => Begun(s, ok, sessionMaxCount)
    case FailPersist => Settle(s.(store := s.store.(busy := Idle)), s.store.busy.job.client, false)
    case CommitPersist =>
      s.(store := s.store.(document := s.store.busy.candidate, busy := Syncing(s.store.busy.job)),
         log := if StructuralJob(s.store.busy.job) then s.log + [Structure] else s.log)
    case FinishSync => Settle(s.(store := s.store.(busy := Idle)), s.store.busy.job.client, true)
    case RegisterSocket(id) => s.(sockets := S.Registered(s.sockets, id), log := s.log + [Sockets(id)])
    case UnregisterSocket(id) => s.(sockets := S.Unregistered(s.sockets, id), log := s.log + [Sockets(id)])
    case SetBridge(id, present) => s.(bridged := if present then s.bridged + {id} else s.bridged - {id})
    case StartSweep(a, r) =>
      s.(attempts := s.attempts[a :=
           match E.ReadFirstHalf(r, CaptureNow(s, r.id))
           case Answer(snapshot) => Skipped(E.ReasonOr(snapshot))
           case Await(before) => Sweeping(r, before)])
    case EndSweep(a, running) => s.(attempts := s.attempts[a := SweepEnded(s, a, running)])
    case StartConfirm(a) =>
      s.(attempts := s.attempts[a := ConfirmStarted(s, s.attempts[a].captured, s.attempts[a].at)])
    case EndConfirm(a, running) => s.(attempts := s.attempts[a := ConfirmEnded(s, s.attempts[a], running)])
  }

  ghost predicate Reaches(from: System, events: seq<Event>, to: System, sessionMaxCount: nat)
    decreases events
  {
    if events == [] then from == to
    else Enabled(from, events[0])
         && Reaches(Step(from, events[0], sessionMaxCount), events[1..], to, sessionMaxCount)
  }

  // ---------------------------------------------------------------- the store carries out what the tracker waits for

  function Outstanding(store: Store): seq<Job> {
    (match store.busy
     case Idle => []
     case Persisting(_, job) => [job]
     case Syncing(job) => [job])
    + store.queue
  }

  ghost predicate Unique(jobs: seq<Job>, client: Client) {
    forall i, j :: 0 <= i < |jobs| && 0 <= j < |jobs| && jobs[i].client == client && jobs[j].client == client ==> i == j
  }

  /** Every outstanding job is expected, each flush is outstanding once, and a waiting flush has its job. */
  ghost predicate JobsMatch(s: System) {
    var jobs := Outstanding(s.store);
    && (forall i :: 0 <= i < |jobs| ==> Expected(s.tracking.t, jobs[i]))
    && Unique(jobs, TimerFlush) && Unique(jobs, ShutdownFlush)
  }

  // ---------------------------------------------------------------- the store covers what the tracker had accepted

  /** Every tab among the ids was active no earlier than `at`. */
  ghost predicate Covers(d: D.Document, ids: seq<Id>, at: int) {
    forall i :: 0 <= i < |d.tabs| && d.tabs[i].id in ids ==> d.tabs[i].lastActivityAt >= at
  }

  ghost predicate CoversAll(d: D.Document, batches: seq<A.Batch>) {
    forall b :: b in batches ==> Covers(d, b.ids, b.at)
  }

  /** The time of a waiting flush is no earlier than that of any completed one. */
  ghost predicate LaterThanAccepted(w: A.World, at: nat) {
    forall b :: b in w.accepted ==> b.at <= at
  }

  ghost predicate CoverInv(s: System) {
    && CoversAll(s.store.document, s.tracking.accepted)
    && LaterThanAccepted(s.tracking, s.tracking.clock)
    && (s.tracking.t.inFlight.Some? && s.tracking.t.inFlight.value.phase.Waiting? ==>
          && s.tracking.t.inFlight.value.phase.at <= s.tracking.clock
          && LaterThanAccepted(s.tracking, s.tracking.t.inFlight.value.phase.at))
    && (s.tracking.t.shutdown.Draining? && s.tracking.t.shutdown.flush.phase.Waiting? ==>
          && s.tracking.t.shutdown.flush.phase.at <= s.tracking.clock
          && LaterThanAccepted(s.tracking, s.tracking.t.shutdown.flush.phase.at))
    && (s.store.busy.Persisting? ==> CoversAll(s.store.busy.candidate, s.tracking.accepted))
    && (s.store.busy.Persisting? && s.store.busy.job.m.FlushActivity? ==>
          Covers(s.store.busy.candidate, s.store.busy.job.m.ids, s.store.busy.job.m.now))
    && (s.store.busy.Syncing? && s.store.busy.job.m.FlushActivity? ==>
          Covers(s.store.document, s.store.busy.job.m.ids, s.store.busy.job.m.now))
  }

  // ---------------------------------------------------------------- captured generations

  /** The captured generation is not ahead, and behind if the change has happened since. */
  ghost predicate Fresher(log: seq<Change>, at: nat, captured: nat, now: nat, change: Change) {
    && captured <= now
    && (at <= |log| && change in log[at..] ==> captured < now)
  }

  ghost predicate Watched(s: System, captured: E.Snapshot, at: nat) {
    && at <= |s.log|
    && E.ValidRequest(E.RequestOf(captured))
    && Fresher(s.log, at, captured.generation.activity, G.Reading(s.tracking.t.cache, captured.id),
               Activity(captured.id))
    && Fresher(s.log, at, captured.generation.sockets, G.Reading(s.sockets.cache, captured.id), Sockets(captured.id))
    && Fresher(s.log, at, captured.generation.structure, s.store.document.revision, Structure)
  }

  ghost predicate AttemptInv(s: System, p: Progress) {
    match p
    case Sweeping(request, before) => E.ValidRequest(request) && E.SafeState(before)
    case Swept(captured, at) => Watched(s, captured, at)
    case Confirming(captured, at, before) => Watched(s, captured, at) && E.SafeState(before)
    case Terminating(captured, at) => true
    case Skipped(_) => true
  }

  ghost predicate AttemptsInv(s: System) {
    forall a :: a in s.attempts ==> AttemptInv(s, s.attempts[a])
  }

  ghost predicate CandidateInv(s: System) {
    && D.Wellformed(s.store.document)
    && (s.store.busy.Persisting? ==>
          && D.Wellformed(s.store.busy.candidate)
          && s.store.busy.candidate.revision
             == s.store.document.revision + if StructuralJob(s.store.busy.job) then 1 else 0)
  }

  /** What holds whatever the clock does. */
  ghost predicate BaseInv(s: System) {
    && A.Ordered(s.tracking)
    && S.ValidCounts(s.sockets)
    && JobsMatch(s)
    && CandidateInv(s)
    && AttemptsInv(s)
  }

  /** What holds as long as the clock does not go back: the stored times cover the accepted marks. */
  ghost predicate Inv(s: System) {
    && BaseInv(s)
    && A.Inv(s.tracking) && A.MarksPast(s.tracking)
    && CoverInv(s)
  }

  predicate Forward(s: System, e: Event) {
    e.Track? ==> A.Forward(s.tracking, e.e)
  }

  // ---------------------------------------------------------------- every step keeps the invariant

  lemma SettleKeepsTracking(s: System, client: Client, ok: bool)
    requires A.Inv(s.tracking) && A.MarksPast(s.tracking)
    ensures A.Inv(Settle(s, client, ok).tracking) && A.MarksPast(Settle(s, client, ok).tracking)
    ensures Settle(s, client, ok).tracking.t.cache == s.tracking.t.cache
  {
    if client == TimerFlush && A.Enabled(s.tracking, A.StoreSettles(ok)) {
      A.StepKeepsInv(s.tracking, A.StoreSettles(ok));
    }
    if client == ShutdownFlush && A.Enabled(s.tracking, A.DrainSettles(ok)) {
      A.StepKeepsInv(s.tracking, A.DrainSettles(ok));
    }
  }

  lemma StepKeepsTracking(s: System, e: Event, max: nat)
    requires Inv(s) && Enabled(s, e) && Forward(s, e)
    ensures A.Inv(Step(s, e, max).tracking) && A.MarksPast(Step(s, e, max).tracking)
  {
    match e
    case Track(te) =>
      A.ForwardIsTimely(s.tracking, te);
      A.StepKeepsInv(s.tracking, te);
    case BeginJob(ok) =>
      SettleKeepsTracking(s.(store := s.store.(queue := s.store.queue[1..])), s.store.queue[0].client, false);
      SettleKeepsTracking(s.(store := s.store.(queue := s.store.queue[1..])), s.store.queue[0].client, true);
    case FailPersist => SettleKeepsTracking(s.(store := s.store.(busy := Idle)), s.store.busy.job.client, false);
    case FinishSync => SettleKeepsTracking(s.(store := s.store.(busy := Idle)), s.store.busy.job.client, true);
    case _ =>
  }

  lemma StepKeepsOrder(s: System, e: Event, max: nat)
    requires A.Ordered(s.tracking) && Enabled(s, e)
    ensures A.Ordered(Step(s, e, max).tracking)
  {
    match e
    case Track(te) => A.StepKeepsOrder(s.tracking, te);
    case BeginJob(ok) =>
      SettleKeepsOrder(s.(store := s.store.(queue := s.store.queue[1..])), s.store.queue[0].client, false);
      SettleKeepsOrder(s.(store := s.store.(queue := s.store.queue[1..])), s.store.queue[0].client, true);
    case FailPersist => SettleKeepsOrder(s.(store := s.store.(busy := Idle)), s.store.busy.job.client, false);
    case FinishSync => SettleKeepsOrder(s.(store := s.store.(busy := Idle)), s.store.busy.job.client, true);
    case _ =>
  }

  lemma SettleKeepsOrder(s: System, client: Client, ok: bool)
    requires A.Ordered(s.tracking)
    ensures A.Ordered(Settle(s, client, ok).tracking)
  {
    if client == TimerFlush && A.Enabled(s.tracking, A.StoreSettles(ok)) {
      A.StepKeepsOrder(s.tracking, A.StoreSettles(ok));
    }
    if client == ShutdownFlush && A.Enabled(s.tracking, A.DrainSettles(ok)) {
      A.StepKeepsOrder(s.tracking, A.DrainSettles(ok));
    }
  }

  /** Taking the settled job off leaves the others expected. */
  lemma SettledJobLeaves(t: A.World, jobs: seq<Job>, s: System, ok: bool)
    requires jobs != [] && s.tracking == t && Outstanding(s.store) == jobs[1..]
    requires forall i :: 0 <= i < |jobs| ==> Expected(t.t, jobs[i])
    requires Unique(jobs, TimerFlush) && Unique(jobs, ShutdownFlush)
    ensures JobsMatch(Settle(s, jobs[0].client, ok))
  {
    var after := Settle(s, jobs[0].client, ok);
    var rest := jobs[1..];
    assert forall i :: 0 <= i < |rest| ==> rest[i] == jobs[i + 1];
    forall i | 0 <= i < |rest|
      ensures Expected(after.tracking.t, rest[i])
    {
      assert Expected(t.t, jobs[i + 1]);
      assert jobs[i + 1].client == jobs[0].client ==> jobs[0].client == Other;
    }
    assert Unique(rest, TimerFlush) && Unique(rest, ShutdownFlush);
  }

  /** What the tracker expects of queued jobs it goes on expecting. */
  lemma TrackKeepsExpected(s: System, te: A.Event, job: Job)
    requires BaseInv(s) && Enabled(s, Track(te)) && Expected(s.tracking.t, job)
    ensures Expected(A.Step(s.tracking, te).t, job)
  {
  }

  /** A flush is handed over only when none of its kind is queued. */
  lemma HandedIsNew(s: System, te: A.Event, job: Job)
    requires BaseInv(s) && Enabled(s, Track(te))
    ensures var handed := Handed(s.tracking.t, A.Step(s.tracking, te).t, te);
            |handed| <= 1
            && (handed != [] ==> Expected(A.Step(s.tracking, te).t, handed[0]) && handed[0].client != Other)
            && (handed != [] && Expected(s.tracking.t, job) ==> job.client != handed[0].client)
  {
  }

  lemma TrackKeepsJobs(s: System, te: A.Event, max: nat)
    requires BaseInv(s) && Enabled(s, Track(te))
    ensures JobsMatch(Step(s, Track(te), max))
  {
    var after := A.Step(s.tracking, te);
    var handed := Handed(s.tracking.t, after.t, te);
    var jobs := Outstanding(s.store);
    assert Outstanding(Step(s, Track(te), max).store) == jobs + handed;
    HandedIsNew(s, te, Job(D.Remove(0), Other));
    forall i | 0 <= i < |jobs|
      ensures Expected(after.t, jobs[i]) && (handed != [] ==> jobs[i].client != handed[0].client)
    {
      assert Expected(s.tracking.t, jobs[i]);
      TrackKeepsExpected(s, te, jobs[i]);
      HandedIsNew(s, te, jobs[i]);
    }
  }

  lemma BeginKeepsJobs(s: System, ok: bool, max: nat)
    requires JobsMatch(s) && Enabled(s, BeginJob(ok))
    ensures JobsMatch(Begun(s, ok, max))
  {
    var jobs := Outstanding(s.store);
    var rest := s.(store := s.store.(queue := s.store.queue[1..]));
    assert Outstanding(rest.store) == jobs[1..];
    var v := Begun(s, ok, max);
    if v.store.busy.Persisting? {
      assert Outstanding(v.store) == jobs;
    } else {
      SettledJobLeaves(s.tracking, jobs, rest, false);
      SettledJobLeaves(s.tracking, jobs, rest, true);
    }
  }

  lemma EndingKeepsJobs(s: System, ok: bool)
    requires JobsMatch(s) && !s.store.busy.Idle?
    ensures JobsMatch(Settle(s.(store := s.store.(busy := Idle)), s.store.busy.job.client, ok))
  {
    var jobs := Outstanding(s.store);
    var rest := s.(store := s.store.(busy := Idle));
    assert Outstanding(rest.store) == jobs[1..];
    SettledJobLeaves(s.tracking, jobs, rest, ok);
  }

  lemma SubmitKeepsJobs(s: System, m: D.Mutation, max: nat)
    requires JobsMatch(s) && !m.FlushActivity?
    ensures JobsMatch(Step(s, Submit(m), max))
  {
    assert Outstanding(Step(s, Submit(m), max).store) == Outstanding(s.store) + [Job(m, Other)];
  }

  lemma StepKeepsJobs(s: System, e: Event, max: nat)
    requires BaseInv(s) && Enabled(s, e)
    ensures JobsMatch(Step(s, e, max))
  {
    match e
    case Track(te) => TrackKeepsJobs(s, te, max);
    case Submit(m) => SubmitKeepsJobs(s, m, max);
    case BeginJob(ok) => BeginKeepsJobs(s, ok, max);
    case FailPersist => EndingKeepsJobs(s, false);
    case FinishSync => EndingKeepsJobs(s, true);
    case CommitPersist => assert Outstanding(Step(s, e, max).store) == Outstanding(s.store);
    case _ => assert Outstanding(Step(s, e, max).store) == Outstanding(s.store);
  }

  lemma {:induction false} FilteredIsSubset(tabs: seq<D.TabRecord>, id: Id)
    ensures forall i :: 0 <= i < |D.Filtered(tabs, id)| ==> D.Filtered(tabs, id)[i] in tabs
  {
    if tabs != [] {
      FilteredIsSubset(tabs[1..], id);
    }
  }

  /** A new tab was created now, and a flush writes a time no earlier than the covered one. */
  predicate NoEarlierThan(m: D.Mutation, at: int) {
    match m
    case Create(_, _, now) => now >= at
    case EnsureInitialTab(_, now) => now >= at
    case FlushActivity(_, now) => now >= at
    case _ => true
  }

  lemma BuildKeepsCover(d: D.Document, m: D.Mutation, max: nat, ids: seq<Id>, at: int)
    requires Covers(d, ids, at) && NoEarlierThan(m, at) && D.Build(d, m, max).Next?
    ensures Covers(D.Build(d, m, max).document, ids, at)
  {
    var tabs := D.Build(d, m, max).document.tabs;
    match m
    case Reorder(revision, order) =>
      forall i | 0 <= i < |tabs| && tabs[i].id in ids
        ensures tabs[i].lastActivityAt >= at
      {
        assert D.RecordOf(d.tabs, order[i]) in d.tabs;
      }
    case Remove(id) =>
      FilteredIsSubset(d.tabs, id);
      forall i | 0 <= i < |tabs| && tabs[i].id in ids
        ensures tabs[i].lastActivityAt >= at
      {
        assert D.Filtered(d.tabs, id)[i] in d.tabs;
      }
    case _ =>
  }

  lemma BeginCovers(s: System, max: nat)
    requires Inv(s) && s.store.busy.Idle? && s.store.queue != []
    ensures var job := s.store.queue[0];
            var out := D.Build(s.store.document, Timed(job.m, s.tracking.clock), max);
            out.Next? ==>
              && CoversAll(out.document, s.tracking.accepted)
              && (job.m.FlushActivity? ==> Covers(out.document, job.m.ids, job.m.now))
  {
    var job := s.store.queue[0];
    assert Outstanding(s.store)[0] == job;
    assert Expected(s.tracking.t, job);
    var m := Timed(job.m, s.tracking.clock);
    if D.Build(s.store.document, m, max).Next? {
      forall b | b in s.tracking.accepted
        ensures Covers(D.Build(s.store.document, m, max).document, b.ids, b.at)
      {
        BuildKeepsCover(s.store.document, m, max, b.ids, b.at);
      }
    }
  }

  /** The document covers the flush that is about to be reported as completed. */
  lemma SettleKeepsCover(s: System, job: Job, ok: bool)
    requires A.Inv(s.tracking) && CoverInv(s) && s.store.busy.Idle? && Expected(s.tracking.t, job)
    requires ok && job.m.FlushActivity? ==> Covers(s.store.document, job.m.ids, job.m.now)
    ensures CoverInv(Settle(s, job.client, ok))
  {
  }

  lemma BeginKeepsCover(s: System, ok: bool, max: nat)
    requires Inv(s) && Enabled(s, BeginJob(ok))
    ensures CoverInv(Begun(s, ok, max))
  {
    var job := s.store.queue[0];
    assert Outstanding(s.store)[0] == job;
    var rest := s.(store := s.store.(queue := s.store.queue[1..]));
    var out := D.Build(s.store.document, Timed(job.m, s.tracking.clock), max);
    BeginCovers(s, max);
    SettleKeepsCover(rest, job, false);
    if out.Unchanged? {
      SettleKeepsCover(rest, job, true);
    }
  }

  lemma TrackKeepsCover(s: System, te: A.Event, max: nat)
    requires Inv(s) && Enabled(s, Track(te)) && Forward(s, Track(te))
    ensures CoverInv(Step(s, Track(te), max))
  {
  }

  lemma StepKeepsCover(s: System, e: Event, max: nat)
    requires Inv(s) && Enabled(s, e) && Forward(s, e)
    ensures CoverInv(Step(s, e, max))
  {
    match e
    case Track(te) => TrackKeepsCover(s, te, max);
    case BeginJob(ok) => BeginKeepsCover(s, ok, max);
    case FailPersist =>
      assert Outstanding(s.store)[0] == s.store.busy.job;
      SettleKeepsCover(s.(store := s.store.(busy := Idle)), s.store.busy.job, false);
    case FinishSync =>
      assert Outstanding(s.store)[0] == s.store.busy.job;
      SettleKeepsCover(s.(store := s.store.(busy := Idle)), s.store.busy.job, true);
    case _ =>
  }

  lemma StepKeepsCandidate(s: System, e: Event, max: nat)
    requires BaseInv(s) && Enabled(s, e)
    ensures CandidateInv(Step(s, e, max))
    ensures s.store.document.revision <= Step(s, e, max).store.document.revision
  {
  }

  // ---------------------------------------------------------------- generations never lie

  lemma CacheMoves(c: G.Cache, ids: seq<Id>, d: G.Cache)
    requires G.Valid(G.GlobalClock, c) && d == G.AdvanceAll(G.GlobalClock, c, ids)
    ensures forall id :: G.Reading(d, id) >= G.Reading(c, id)
    ensures forall id :: id in ids ==> G.Reading(d, id) > G.Reading(c, id)
  {
    forall id
      ensures G.Reading(d, id) >= G.Reading(c, id)
      ensures id in ids ==> G.Reading(d, id) > G.Reading(c, id)
    {
      G.RunMonotone(G.GlobalClock, c, ids, id);
    }
  }

  /** Taking a tab into a flush, releasing it from one, and anything else that changes its pending flag raise its
      activity generation. */
  ghost predicate FlushesShow(t: A.Tracker, u: A.Tracker) {
    forall id :: A.Pending(u, id) != A.Pending(t, id) || (id in u.flushing) != (id in t.flushing) ==>
      G.Reading(u.cache, id) > G.Reading(t.cache, id)
  }

  /** Whatever the tracker does, no activity generation goes back; an accepted mark raises that of its tab, and so do
      flushes. */
  lemma TrackerReadings(w: A.World, e: A.Event)
    requires A.Ordered(w) && A.Enabled(w, e)
    ensures forall id :: G.Reading(A.Step(w, e).t.cache, id) >= G.Reading(w.t.cache, id)
    ensures e.MarkId? && w.t.accepting ==> G.Reading(A.Step(w, e).t.cache, e.id) > G.Reading(w.t.cache, e.id)
    ensures FlushesShow(w.t, A.Step(w, e).t)
  {
    var t := w.t;
    var d := A.Step(w, e).t.cache;
    match e
    case MarkId(id) => CacheMoves(t.cache, [id], A.Touched(t, [id]).cache);
    case TimerFires => CacheMoves(t.cache, t.dirty, A.Touched(t, t.dirty).cache);
    case FinallyRuns => CacheMoves(t.cache, t.inFlight.value.ids, A.Touched(t, t.inFlight.value.ids).cache);
    case ShutdownCalled(_) => CacheMoves(t.cache, t.dirty, A.Touched(t, t.dirty).cache);
    case FlightAwaited(_) => CacheMoves(t.cache, t.dirty, A.Touched(t, t.dirty).cache);
    case DrainFinishes => CacheMoves(t.cache, t.shutdown.flush.ids, A.Touched(t, t.shutdown.flush.ids).cache);
    case _ =>
  }

  /** No watched generation goes back, and each logged change raises the generation it concerns. */
  ghost predicate Raised(s: System, v: System) {
    && |s.log| <= |v.log| <= |s.log| + 1 && v.log[..|s.log|] == s.log
    && (forall id :: G.Reading(v.tracking.t.cache, id) >= G.Reading(s.tracking.t.cache, id))
    && (forall id :: G.Reading(v.sockets.cache, id) >= G.Reading(s.sockets.cache, id))
    && v.store.document.revision >= s.store.document.revision
    && (|v.log| > |s.log| ==>
          match v.log[|s.log|]
          case Activity(id) => G.Reading(v.tracking.t.cache, id) > G.Reading(s.tracking.t.cache, id)
          case Sockets(id) => G.Reading(v.sockets.cache, id) > G.Reading(s.sockets.cache, id)
          case Structure => v.store.document.revision > s.store.document.revision)
  }

  lemma SettleRaises(s: System, client: Client, ok: bool)
    ensures Raised(s, Settle(s, client, ok)) && FlushesShow(s.tracking.t, Settle(s, client, ok).tracking.t)
  {
  }

  lemma TrackRaises(s: System, te: A.Event, max: nat)
    requires BaseInv(s) && Enabled(s, Track(te))
    ensures Raised(s, Step(s, Track(te), max)) && FlushesShow(s.tracking.t, Step(s, Track(te), max).tracking.t)
  {
    TrackerReadings(s.tracking, te);
  }

  lemma SocketRaises(s: System, e: Event, max: nat)
    requires BaseInv(s) && Enabled(s, e) && (e.RegisterSocket? || e.UnregisterSocket?)
    ensures Raised(s, Step(s, e, max))
  {
    G.AdvanceSound(G.PerKey, s.sockets.cache, e.id);
  }

  lemma BeginRaises(s: System, ok: bool, max: nat)
    requires Enabled(s, BeginJob(ok))
    ensures Raised(s, Begun(s, ok, max)) && FlushesShow(s.tracking.t, Begun(s, ok, max).tracking.t)
  {
    var job := s.store.queue[0];
    var rest := s.(store := s.store.(queue := s.store.queue[1..]));
    SettleRaises(rest, job.client, false);
    SettleRaises(rest, job.client, true);
  }

  lemma JobRaises(s: System, e: Event, max: nat)
    requires BaseInv(s) && Enabled(s, e) && (e.FailPersist? || e.CommitPersist? || e.FinishSync?)
    ensures Raised(s, Step(s, e, max)) && FlushesShow(s.tracking.t, Step(s, e, max).tracking.t)
  {
    SettleRaises(s.(store := s.store.(busy := Idle)), s.store.busy.job.client, e.FinishSync?);
  }

  lemma StepRaises(s: System, e: Event, max: nat)
    requires BaseInv(s) && Enabled(s, e)
    ensures Raised(s, Step(s, e, max)) && FlushesShow(s.tracking.t, Step(s, e, max).tracking.t)
  {
    if e.Track? {
      TrackRaises(s, e.e, max);
    } else if e.RegisterSocket? || e.UnregisterSocket? {
      SocketRaises(s, e, max);
    } else if e.BeginJob? {
      BeginRaises(s, e.ok, max);
    } else if e.FailPersist? || e.CommitPersist? || e.FinishSync? {
      JobRaises(s, e, max);
    }
  }

  lemma RaisedKeepsWatch(s: System, v: System, captured: E.Snapshot, at: nat)
    requires Watched(s, captured, at) && Raised(s, v)
    ensures Watched(v, captured, at)
  {
    if |v.log| > |s.log| {
      assert v.log[at..] == s.log[at..] + [v.log[|s.log|]] by {
        assert v.log == v.log[..|s.log|] + [v.log[|s.log|]];
      }
    } else {
      assert v.log == s.log;
    }
  }

  lemma CapturesAreSafe(s: System, id: Id)
    ensures CaptureNow(s, id).Seen? ==> E.SafeState(CaptureNow(s, id).state)
  {
    E.CapturesAreSafe(
      s.store.document, id, G.Reading(s.tracking.t.cache, id), A.Pending(s.tracking.t, id),
      G.Reading(s.sockets.cache, id), S.Count(s.sockets, id), id in s.bridged);
  }

  lemma EndSweepWatches(s: System, a: Attempt, running: Option<bool>)
    requires AttemptsInv(s) && Enabled(s, EndSweep(a, running))
    ensures AttemptInv(s, SweepEnded(s, a, running))
  {
    var p := s.attempts[a];
    assert AttemptInv(s, p);
    assert s.log[|s.log|..] == [];
  }

  lemma StartConfirmWatches(s: System, a: Attempt)
    requires AttemptsInv(s) && Enabled(s, StartConfirm(a))
    ensures AttemptInv(s, ConfirmStarted(s, s.attempts[a].captured, s.attempts[a].at))
  {
    assert AttemptInv(s, s.attempts[a]);
    CapturesAreSafe(s, s.attempts[a].captured.id);
  }

  lemma StepKeepsAttempts(s: System, e: Event, max: nat)
    requires BaseInv(s) && Enabled(s, e)
    ensures AttemptsInv(Step(s, e, max))
  {
    var v := Step(s, e, max);
    StepRaises(s, e, max);
    forall a | a in v.attempts
      ensures AttemptInv(v, v.attempts[a])
    {
      if a in s.attempts && v.attempts[a] == s.attempts[a] {
        assert AttemptInv(s, s.attempts[a]);
        if s.attempts[a].Swept? || s.attempts[a].Confirming? {
          RaisedKeepsWatch(s, v, s.attempts[a].captured, s.attempts[a].at);
        }
      } else {
        match e
        case StartSweep(b, r) => CapturesAreSafe(s, r.id);
        case EndSweep(b, running) => EndSweepWatches(s, a, running);
        case StartConfirm(b) => StartConfirmWatches(s, a);
        case EndConfirm(b, running) =>
        case _ =>
      }
    }
  }

  lemma StepKeepsBase(s: System, e: Event, max: nat)
    requires BaseInv(s) && Enabled(s, e)
    ensures BaseInv(Step(s, e, max))
  {
    StepKeepsOrder(s, e, max);
    StepKeepsJobs(s, e, max);
    StepKeepsCandidate(s, e, max);
    StepKeepsAttempts(s, e, max);
    match e
    case RegisterSocket(id) => S.CountsMove(s.sockets, id);
    case UnregisterSocket(id) => S.CountsMove(s.sockets, id);
    case _ =>
  }

  lemma StepKeepsInv(s: System, e: Event, max: nat)
    requires Inv(s) && Enabled(s, e) && Forward(s, e)
    ensures Inv(Step(s, e, max))
  {
    StepKeepsBase(s, e, max);
    StepKeepsTracking(s, e, max);
    StepKeepsCover(s, e, max);
  }

  lemma {:induction false} RunKeepsBase(from: System, events: seq<Event>, to: System, max: nat)
    requires BaseInv(from) && Reaches(from, events, to, max)
    ensures BaseInv(to)
    decreases events
  {
    if events != [] {
      StepKeepsBase(from, events[0], max);
      RunKeepsBase(Step(from, events[0], max), events[1..], to, max);
    }
  }

  /** The clock does not go back in this run. */
  ghost predicate ForwardRun(from: System, events: seq<Event>, to: System, max: nat)
    requires Reaches(from, events, to, max)
    decreases events
  {
    events != [] ==>
      Forward(from, events[0]) && ForwardRun(Step(from, events[0], max), events[1..], to, max)
  }

  lemma {:induction false} RunKeepsInv(from: System, events: seq<Event>, to: System, max: nat)
    requires Inv(from) && Reaches(from, events, to, max) && ForwardRun(from, events, to, max)
    ensures Inv(to)
    decreases events
  {
    if events != [] {
      StepKeepsInv(from, events[0], max);
      RunKeepsInv(Step(from, events[0], max), events[1..], to, max);
    }
  }

  // ---------------------------------------------------------------- safety

  /** Every accepted mark of an idle tab is no later than the activity time in the document. */
  lemma IdleTabShowsItsMarks(s: System, id: Id)
    requires Inv(s) && !A.Pending(s.tracking.t, id) && D.Has(s.store.document, id)
    ensures forall m :: m in s.tracking.marks && m.id == id ==>
              m.time <= D.RecordOf(s.store.document.tabs, id).lastActivityAt
  {
    forall m | m in s.tracking.marks && m.id == id
      ensures m.time <= D.RecordOf(s.store.document.tabs, id).lastActivityAt
    {
      assert A.Saved(s.tracking, m);
      var b :| b in s.tracking.accepted && m.id in b.ids && m.time <= b.at;
      assert Covers(s.store.document, b.ids, b.at);
      var tab := D.RecordOf(s.store.document.tabs, id);
      var i :| 0 <= i < |s.store.document.tabs| && s.store.document.tabs[i] == tab;
      assert s.store.document.tabs[i].id in b.ids;
    }
  }

  /** The tab has been quiet: nothing about it has changed since the sweep's capture, nobody is connected, no activity
      is waiting to be stored, and what is stored is earlier than the cutoff. */
  ghost predicate Quiet(s: System, captured: E.Snapshot, at: nat) {
    var id := captured.id;
    && D.Has(s.store.document, id)
    && D.RecordOf(s.store.document.tabs, id).desired == D.Active
    && D.RecordOf(s.store.document.tabs, id).lastActivityAt < captured.cutoffMs
    && !A.Pending(s.tracking.t, id)
    && S.Count(s.sockets, id) == 0
    && id !in s.bridged
    && at <= |s.log|
    && Activity(id) !in s.log[at..] && Sockets(id) !in s.log[at..] && Structure !in s.log[at..]
  }

  /** What makes it right to kill the tab's session. */
  ghost predicate SafeToTerminate(s: System, captured: E.Snapshot, at: nat) {
    && Quiet(s, captured, at)
    && (forall m :: m in s.tracking.marks && m.id == captured.id ==> m.time < captured.cutoffMs)
  }

  /** One confirmation under any clock. */
  lemma ConfirmationIsQuiet(s: System, a: Attempt, running: Option<bool>)
    requires BaseInv(s) && Enabled(s, EndConfirm(a, running))
    requires ConfirmEnded(s, s.attempts[a], running).Terminating?
    ensures Quiet(s, s.attempts[a].captured, s.attempts[a].at)
  {
    var p := s.attempts[a];
    assert AttemptInv(s, p);
    CapturesAreSafe(s, p.captured.id);
    E.ConfirmedIff(p.captured, p.before, running, CaptureNow(s, p.captured.id));
  }

  lemma ConfirmationIsSafe(s: System, a: Attempt, running: Option<bool>)
    requires Inv(s) && Enabled(s, EndConfirm(a, running))
    requires ConfirmEnded(s, s.attempts[a], running).Terminating?
    ensures SafeToTerminate(s, s.attempts[a].captured, s.attempts[a].at)
  {
    ConfirmationIsQuiet(s, a, running);
    IdleTabShowsItsMarks(s, s.attempts[a].captured.id);
  }

  lemma StartNeverTerminates(s: System, captured: E.Snapshot, at: nat)
    ensures !ConfirmStarted(s, captured, at).Terminating?
  {
  }

  lemma StartIsFine(document: D.Document)
    requires D.Wellformed(document)
    ensures Inv(Start(document))
  {
  }

  /** Only the confirming read makes an attempt terminate. */
  lemma OnlyConfirmationTerminates(s: System, e: Event, a: Attempt, max: nat)
    requires Enabled(s, e)
    requires a in Step(s, e, max).attempts && Step(s, e, max).attempts[a].Terminating?
    requires !(a in s.attempts && s.attempts[a].Terminating?)
    ensures e.EndConfirm? && e.attempt == a && ConfirmEnded(s, s.attempts[a], e.running).Terminating?
  {
    match e
    case StartConfirm(b) => StartNeverTerminates(s, s.attempts[b].captured, s.attempts[b].at);
    case _ =>
  }

  /** End-to-end, under any clock whatsoever and in every interleaving of marks, failing or succeeding flushes, socket
      registrations, tab mutations and concurrent cleanups: the step that lets terminateIfStale reach terminateLocked is
      taken only in a state where the tab is active, has no registered socket, no bridge and no activity pending, its
      stored activity time is earlier than the cutoff, and since the sweep's own read there was no accepted mark of it,
      no socket change of it and no structural commit at all. */
  lemma CleanupIsQuiet(document: D.Document, events: seq<Event>, s: System, e: Event, a: Attempt, max: nat)
    requires D.Wellformed(document) && Reaches(Start(document), events, s, max) && Enabled(s, e)
    requires a in Step(s, e, max).attempts && Step(s, e, max).attempts[a].Terminating?
    requires !(a in s.attempts && s.attempts[a].Terminating?)
    ensures a in s.attempts && s.attempts[a].Confirming?
    ensures Quiet(s, s.attempts[a].captured, s.attempts[a].at)
  {
    StartIsFine(document);
    RunKeepsBase(Start(document), events, s, max);
    OnlyConfirmationTerminates(s, e, a, max);
    ConfirmationIsQuiet(s, a, e.running);
  }

  /** And if the clock has not gone back, all accepted marks of the tab are earlier than the cutoff, stored or not. */
  lemma CleanupIsSafe(document: D.Document, events: seq<Event>, s: System, e: Event, a: Attempt, max: nat)
    requires D.Wellformed(document) && Reaches(Start(document), events, s, max) && Enabled(s, e)
    requires ForwardRun(Start(document), events, s, max)
    requires a in Step(s, e, max).attempts && Step(s, e, max).attempts[a].Terminating?
    requires !(a in s.attempts && s.attempts[a].Terminating?)
    ensures a in s.attempts && s.attempts[a].Confirming?
    ensures SafeToTerminate(s, s.attempts[a].captured, s.attempts[a].at)
  {
    StartIsFine(document);
    RunKeepsInv(Start(document), events, s, max);
    OnlyConfirmationTerminates(s, e, a, max);
    ConfirmationIsSafe(s, a, e.running);
  }

  // ---------------------------------------------------------------- and it does terminate stale tabs

  /** The tab is stale for the request, and small enough numbers are involved for the reader to accept. */
  ghost predicate Stale(s: System, r: E.Request) {
    var capture := CaptureNow(s, r.id);
    && E.ValidRequest(r) && r.thresholdMs > 0
    && capture.Seen?
    && capture.state.desired == D.Active && capture.state.count == 0
    && !capture.state.bridged && !capture.state.pending
    && capture.state.lastActivityAt < r.cutoffMs
  }

  /** The converse: an attempt on a stale tab whose session runs, with nothing happening in between, terminates. */
  lemma StaleTabIsTerminated(s: System, r: E.Request, a: Attempt, max: nat)
    requires Stale(s, r) && a !in s.attempts
    ensures exists s4 ::
              && Reaches(s, [StartSweep(a, r), EndSweep(a, Some(true)), StartConfirm(a), EndConfirm(a, Some(true))], s4,
                         max)
              && a in s4.attempts && s4.attempts[a].Terminating?
  {
    var s1 := Step(s, StartSweep(a, r), max);
    var s2 := Step(s1, EndSweep(a, Some(true)), max);
    var s3 := Step(s2, StartConfirm(a), max);
    var s4 := Step(s3, EndConfirm(a, Some(true)), max);
    FourSteps(s, StartSweep(a, r), s1, EndSweep(a, Some(true)), s2, StartConfirm(a), s3, EndConfirm(a, Some(true)), s4,
              max);
  }

  lemma FourSteps(s: System, e1: Event, s1: System, e2: Event, s2: System, e3: Event, s3: System, e4: Event, s4: System,
                  max: nat)
    requires Enabled(s, e1) && s1 == Step(s, e1, max) && Enabled(s1, e2) && s2 == Step(s1, e2, max)
    requires Enabled(s2, e3) && s3 == Step(s2, e3, max) && Enabled(s3, e4) && s4 == Step(s3, e4, max)
    ensures Reaches(s, [e1, e2, e3, e4], s4, max)
  {
    TwoSteps(s2, e3, s3, e4, s4, max);
    OneMoreStep(s1, e2, s2, [e3, e4], s4, max);
    assert [e2] + [e3, e4] == [e2, e3, e4];
    OneMoreStep(s, e1, s1, [e2, e3, e4], s4, max);
    assert [e1] + [e2, e3, e4] == [e1, e2, e3, e4];
  }

  lemma TwoSteps(s: System, e1: Event, s1: System, e2: Event, s2: System, max: nat)
    requires Enabled(s, e1) && s1 == Step(s, e1, max) && Enabled(s1, e2) && s2 == Step(s1, e2, max)
    ensures Reaches(s, [e1, e2], s2, max)
  {
    OneMoreStep(s1, e2, s2, [], s2, max);
    assert [e2] + [] == [e2];
    OneMoreStep(s, e1, s1, [e2], s2, max);
    assert [e1] + [e2] == [e1, e2];
  }

  lemma OneMoreStep(s: System, e: Event, v: System, events: seq<Event>, to: System, max: nat)
    requires Enabled(s, e) && v == Step(s, e, max) && Reaches(v, events, to, max)
    ensures Reaches(s, [e] + events, to, max)
  {
    assert ([e] + events)[1..] == events;
  }
}
