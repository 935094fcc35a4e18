/** apps/server/src/cleanup-eligibility.ts: the double read that decides whether a tab is stale.  Reading is in two
    halves around the await of the runtime probe; each half captures the synchronous state. */
module CleanupEligibility {
  import opened Collections
  import opened TabDocuments

  const MAX_TABS := 20
  const MAX_SOCKETS := 1024
  const MAX_THRESHOLD_MS := 8760 * 60 * 60 * 1000

  datatype Reason =
    | Disabled | Invalid | TabAbsent | Inactive | SessionAbsent | Connected | Bridged | ActivityPending
    | RecentActivity | DependencyError | Changed

  datatype Generation = Generation(structure: nat, activity: nat, sockets: nat)

  datatype Request = Request(id: Id, thresholdMs: int, cutoffMs: int)

  datatype Snapshot = Snapshot(
    id: Id, thresholdMs: int, cutoffMs: int, eligible: bool, reason: Option<Reason>, generation: Generation)

  /** What one synchronous capture sees. */
  datatype State = State(
    structure: nat, desired: DesiredState, createdAt: int, lastActivityAt: int,
    activity: nat, pending: bool, sockets: nat, count: nat, bridged: bool)

  datatype Capture = Failure | Absent | Seen(state: State)

  /** The first half either answers at once or waits for the runtime with its capture. */
  datatype FirstHalf = Answer(snapshot: Snapshot) | Await(before: State)

  predicate SafeInteger(n: int) {
    -MAX_SAFE_INTEGER <= n <= MAX_SAFE_INTEGER
  }

  predicate ValidRequest(r: Request) {
    0 <= r.thresholdMs <= MAX_THRESHOLD_MS && SafeInteger(r.cutoffMs)
  }

  predicate Duplicated(d: Document, id: Id) {
    exists i, j :: 0 <= i < j < |d.tabs| && d.tabs[i].id == id && d.tabs[j].id == id
  }

  /** `capture`: the document, the activity snapshot, the socket snapshot and the registry, read together. */
  function CaptureOf(d: Document, id: Id, activity: nat, pending: bool, sockets: nat, count: nat, bridged: bool)
    : Capture
  {
    if d.revision > MAX_SAFE_INTEGER || |d.tabs| > MAX_TABS || Duplicated(d, id) then Failure
    else if !Has(d, id) then Absent
    else if !SafeInteger(activity) || !SafeInteger(sockets) || count > MAX_SOCKETS then Failure
    else
      var tab := RecordOf(d.tabs, id);
      Seen(State(d.revision, tab.desired, tab.createdAt, tab.lastActivityAt, activity, pending, sockets, count,
                 bridged))
  }

  function Result(r: Request, eligible: bool, reason: Option<Reason>, generation: Generation): Snapshot {
    Snapshot(
      r.id,
      if SafeInteger(r.thresholdMs) && r.thresholdMs >= 0 then r.thresholdMs else 0,
      if SafeInteger(r.cutoffMs) then r.cutoffMs else 0,
      eligible, reason, generation)
  }

  const NO_GENERATION := Generation(0, 0, 0)

  function GenerationOf(s: State): Generation {
    Generation(s.structure, s.activity, s.sockets)
  }

  function ReadFirstHalf(r: Request, before: Capture): FirstHalf {
    if !ValidRequest(r) then Answer(Result(r, false, Some(Invalid), NO_GENERATION))
    else if r.thresholdMs == 0 then Answer(Result(r, false, Some(Disabled), NO_GENERATION))
    else match before
      case Failure => Answer(Result(r, false, Some(DependencyError), NO_GENERATION))
      case Absent => Answer(Result(r, false, Some(TabAbsent), NO_GENERATION))
      case Seen(state) => Await(state)
  }

  /** `running` is None when the runtime probe fails. */
  function ReadSecondHalf(r: Request, before: State, running: Option<bool>, capture: Capture): Snapshot {
    if running.None? || capture.Failure? then Result(r, false, Some(DependencyError), GenerationOf(before))
    else if capture.Absent? then Result(r, false, Some(Changed), GenerationOf(before))
    else
      var after := capture.state;
      var no := (reason: Reason) => Result(r, false, Some(reason), GenerationOf(after));
      if before != after then no(Changed)
      else if after.desired != Active then no(Inactive)
      else if !running.value then no(SessionAbsent)
      else if after.count > 0 then no(Connected)
      else if after.bridged then no(Bridged)
      else if after.pending then no(ActivityPending)
      else if after.lastActivityAt >= r.cutoffMs then no(RecentActivity)
      else Result(r, true, None, GenerationOf(after))
  }

  function SameGeneration(left: Snapshot, right: Snapshot): bool {
    && left.id == right.id && left.thresholdMs == right.thresholdMs && left.cutoffMs == right.cutoffMs
    && left.generation == right.generation
  }

  /** `isValidEligibilityCapture` of session-manager.ts. */
  predicate ValidCapture(id: Id, s: Snapshot) {
    && s.id == id
    && 0 <= s.thresholdMs && SafeInteger(s.thresholdMs) && SafeInteger(s.cutoffMs)
    && (s.eligible <==> s.reason.None?)
    && SafeInteger(s.generation.structure) && SafeInteger(s.generation.activity) && SafeInteger(s.generation.sockets)
  }

  /** The outcome of `terminateIfStale` once the confirming read is in. */
  datatype Verdict = Terminate | Skip(reason: Reason)

  function ReasonOr(s: Snapshot): Reason {
    if s.reason.Some? then s.reason.value else Invalid
  }

  function Screen(id: Id, captured: Snapshot): Option<Verdict> {
    if !ValidCapture(id, captured) then Some(Skip(Invalid))
    else if !captured.eligible then Some(Skip(ReasonOr(captured)))
    else None
  }

  /** `latest` is None when the reader throws. */
  function Confirm(id: Id, captured: Snapshot, latest: Option<Snapshot>): Verdict {
    if latest.None? || !ValidCapture(id, latest.value) then Skip(DependencyError)
    else if !latest.value.eligible then Skip(ReasonOr(latest.value))
    else if !SameGeneration(captured, latest.value) then Skip(Changed)
    else Terminate
  }

  ghost predicate SafeState(s: State) {
    SafeInteger(s.structure) && SafeInteger(s.activity) && SafeInteger(s.sockets)
  }

  lemma CapturesAreSafe(d: Document, id: Id, activity: nat, pending: bool, sockets: nat, count: nat, bridged: bool)
    ensures var c := CaptureOf(d, id, activity, pending, sockets, count, bridged); c.Seen? ==> SafeState(c.state)
  {
  }

  /** A whole read; the second half runs only if the first does not answer. */
  function Read(r: Request, before: Capture, running: Option<bool>, after: Capture): Snapshot {
    match ReadFirstHalf(r, before)
    case Answer(snapshot) => snapshot
    case Await(state) => ReadSecondHalf(r, state, running, after)
  }

  ghost predicate SafeCapture(c: Capture) {
    c.Seen? ==> SafeState(c.state)
  }

  /** Whatever a read answers, early or late, passes the validation of the termination path; it says `invalid` exactly
      for a bad request, and `dependency_error` exactly if a capture or the runtime failed while it was needed. */
  lemma ReadsAreWellformed(r: Request, before: Capture, running: Option<bool>, after: Capture)
    requires SafeCapture(before) && SafeCapture(after)
    ensures ValidCapture(r.id, Read(r, before, running, after))
    ensures Read(r, before, running, after).reason == Some(Invalid) <==> !ValidRequest(r)
    ensures Read(r, before, running, after).reason == Some(DependencyError)
            <==> ValidRequest(r) && r.thresholdMs > 0
                 && (before.Failure? || (before.Seen? && (running.None? || after.Failure?)))
  {
    assert MAX_THRESHOLD_MS <= MAX_SAFE_INTEGER;
  }

  /** The request of the confirming read. */
  function RequestOf(captured: Snapshot): Request {
    Request(captured.id, captured.thresholdMs, captured.cutoffMs)
  }

  /** Everything the confirming read has to agree with. */
  ghost predicate StillStale(captured: Snapshot, before: State, running: Option<bool>, capture: Capture) {
    && capture == Seen(before) && running == Some(true) && captured.generation == GenerationOf(before)
    && before.desired == Active && before.count == 0 && !before.bridged && !before.pending
    && before.lastActivityAt < captured.cutoffMs
  }

  /** The confirming read lets a termination through exactly when both reads agree on every field and the tab is
      active, running, unconnected, unbridged, has no pending activity and was last active before the cutoff. */
  lemma ConfirmedIff(captured: Snapshot, before: State, running: Option<bool>, capture: Capture)
    requires ValidRequest(RequestOf(captured)) && SafeState(before) && SafeCapture(capture)
    ensures Confirm(captured.id, captured, Some(ReadSecondHalf(RequestOf(captured), before, running, capture)))
            == Terminate
            <==> StillStale(captured, before, running, capture)
  {
    if captured.thresholdMs > 0 {
      ReadsAreWellformed(RequestOf(captured), Seen(before), running, capture);
    }
  }
}
