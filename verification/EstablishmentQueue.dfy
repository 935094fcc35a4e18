/** The admission queue of apps/server/src/auth-service.ts: bootstrap, login and setup reserve a place, wait for their
    turn and for the credential store, and perhaps commit a session.  Admission i is operation i of a promise chain
    with a single key; that they run one after the other is a theorem about the chain, not part of the model. */
module EstablishmentQueue {
  import P = PromiseChains

  const MIN_PENDING_ESTABLISHMENTS := 8
  const MAX_PENDING_ESTABLISHMENTS := 256

  datatype Config = Config(local: bool, maxSessions: nat)

  function MaxPending(c: Config): nat {
    var atLeast := if c.maxSessions > MIN_PENDING_ESTABLISHMENTS then c.maxSessions else MIN_PENDING_ESTABLISHMENTS;
    if atLeast < MAX_PENDING_ESTABLISHMENTS then atLeast else MAX_PENDING_ESTABLISHMENTS
  }

  datatype Kind = Bootstrap | Login | Setup

  /** The bridge between the credential store and the queued login: the first outcome stays. */
  datatype Outcome = Waiting | Failed | Answered(valid: bool)

  /** `reserved` is the flag of the release closure; `ran` counts the runs of the `finally` callback. */
  datatype Ticket = Ticket(kind: Kind, outcome: Outcome, reserved: bool, ran: nat)

  /** `chains` is the establishment tail; `ready` holds the callbacks that settled results have queued.
      `commits` lists the admissions that committed a session, in that order; `taken` and `released` count
      reservations. */
  datatype Queue = Queue(
    pending: int, pendingLocal: int, tickets: seq<Ticket>, chains: P.Chains, ready: multiset<nat>, commits: seq<nat>,
    taken: nat, released: nat)

  /** The one key of the chain. */
  const TAIL := 0

  const START := Queue(0, 0, [], P.IDLE, multiset{}, [], 0, 0)

  datatype Answer = Yes | No | Throws

  datatype Attempt = Attempt(initialized: Answer, labelOk: bool, allowed: Answer, enqueues: bool, verified: Outcome)

  datatype Enrollment = Enrolled | AlreadyEnrolled | NotCommitted | EnrollThrew

  datatype Reply = Rejected | NeedsSetup | AlreadyInitialized | RateLimited | Enqueued(ticket: nat)

  datatype Event =
    | BootstrapCall
    | LoginCall(attempt: Attempt)
    | SetupCall(attempt: Attempt)
    | Verify(ticket: nat, outcome: Outcome)
    | Begin(ticket: nat)
    | Complete(ticket: nat, establishes: bool, enrollment: Enrollment)
    | Finish(ticket: nat)

  // ---------------------------------------------------------------- operations

  predicate Full(q: Queue, c: Config) {
    q.pending >= MaxPending(c)
  }

  function Reserved(q: Queue): Queue {
    q.(pending := q.pending + 1, taken := q.taken + 1)
  }

  /** The release closure: it acts once. */
  function Released(q: Queue, reserved: bool): Queue {
    if reserved then q.(pending := q.pending - 1, released := q.released + 1) else q
  }

  function Enqueue(q: Queue, kind: Kind, outcome: Outcome): (Queue, Reply) {
    (q.(tickets := q.tickets + [Ticket(kind, outcome, true, 0)], chains := P.Arrived(q.chains, TAIL)),
     Enqueued(|q.tickets|))
  }

  function Bootstrapped(q: Queue, c: Config): (Queue, Reply) {
    if Full(q, c) then (q, Rejected) else Enqueue(Reserved(q), Bootstrap, Waiting)
  }

  function LoggedIn(q: Queue, c: Config, a: Attempt): (Queue, Reply) {
    if !c.local || a.initialized.Throws? then (q, Rejected)
    else if a.initialized.No? then (q, NeedsSetup)
    else if q.pendingLocal >= c.maxSessions || Full(q, c) then (q, RateLimited)
    else
      var held := Reserved(q);
      if !a.labelOk then (Released(held, true), Rejected)
      else if a.allowed.Throws? then (Released(held, true), Rejected)
      else if a.allowed.No? then (Released(held, true), RateLimited)
      else
        var counted := held.(pendingLocal := held.pendingLocal + 1);
        if !a.enqueues then (Released(counted.(pendingLocal := counted.pendingLocal - 1), true), Rejected)
        else Enqueue(counted, Login, a.verified)
  }

  function SetUp(q: Queue, c: Config, a: Attempt): (Queue, Reply) {
    if !c.local || a.initialized.Throws? then (q, Rejected)
    else if a.initialized.Yes? then (q, AlreadyInitialized)
    else if q.pendingLocal >= c.maxSessions || Full(q, c) then (q, RateLimited)
    else
      var held := Reserved(q);
      if a.allowed.Throws? then (Released(held, true), Rejected)
      else if a.allowed.No? then (Released(held, true), RateLimited)
      else Enqueue(held.(pendingLocal := held.pendingLocal + 1), Setup, Waiting)
  }

  function Verified(q: Queue, ticket: nat, outcome: Outcome): Queue {
    if ticket < |q.tickets| && q.tickets[ticket].outcome.Waiting? then
      q.(tickets := q.tickets[ticket := q.tickets[ticket].(outcome := outcome)])
    else q
  }

  /** The turn of an operation comes when the tail it waits for has resolved. */
  function Begun(q: Queue, ticket: nat): Queue {
    if P.MayStart(q.chains, ticket) then q.(chains := P.InPhase(q.chains, ticket, P.Running)) else q
  }

  /** Whether the running operation can settle, and whether it then commits a session. */
  predicate CanSettle(t: Ticket) {
    t.kind.Login? ==> !t.outcome.Waiting?
  }

  predicate Commits(c: Config, t: Ticket, establishes: bool, enrollment: Enrollment) {
    establishes
    && match t.kind
       case Bootstrap => !c.local
       case Login => t.outcome == Answered(true)
       case Setup => enrollment.Enrolled?
  }

  /** A running operation settles; that queues the callback registered on its result. */
  function Completed(q: Queue, c: Config, i: nat, establishes: bool, enrollment: Enrollment): Queue {
    if i >= |q.tickets| || i >= |q.chains.ops| || q.chains.ops[i].phase != P.Running || !CanSettle(q.tickets[i]) then q
    else
      q.(chains := P.InPhase(q.chains, i, P.Done), ready := q.ready + multiset{i},
         commits := if Commits(c, q.tickets[i], establishes, enrollment) then q.commits + [i] else q.commits)
  }

  /** A queued `finally` callback runs: nothing in it but the release closure guards against a second run. */
  function Finished(q: Queue, ticket: nat): Queue {
    if ticket !in q.ready || ticket >= |q.tickets| then q
    else
      var t := q.tickets[ticket];
      var left := q.(pendingLocal := q.pendingLocal - if t.kind.Bootstrap? then 0 else 1,
                     ready := q.ready - multiset{ticket});
      Released(left, t.reserved).(tickets := q.tickets[ticket := t.(reserved := false, ran := t.ran + 1)])
  }

  function Step(q: Queue, c: Config, e: Event): Queue {
    match e
    case BootstrapCall => Bootstrapped(q, c).0
    case LoginCall(a) => LoggedIn(q, c, a).0
    case SetupCall(a) => SetUp(q, c, a).0
    case Verify(ticket, outcome) => Verified(q, ticket, outcome)
    case Begin(ticket) => Begun(q, ticket)
    case Complete(ticket, establishes, enrollment) => Completed(q, c, ticket, establishes, enrollment)
    case Finish(ticket) => Finished(q, ticket)
  }

  // ---------------------------------------------------------------- the invariant

  function Open(tickets: seq<Ticket>): nat {
    if tickets == [] then 0 else (if tickets[0].ran == 0 then 1 else 0) + Open(tickets[1..])
  }

  function OpenLocal(tickets: seq<Ticket>): nat {
    if tickets == [] then 0
    else (if tickets[0].ran == 0 && !tickets[0].kind.Bootstrap? then 1 else 0) + OpenLocal(tickets[1..])
  }

  ghost predicate Counters(q: Queue, c: Config) {
    && q.pending == Open(q.tickets) == q.taken - q.released
    && q.pendingLocal == OpenLocal(q.tickets)
    && q.pending <= MaxPending(c) && q.pendingLocal <= c.maxSessions
  }

  /** The operations of the chain are the admissions. */
  ghost predicate Chained(q: Queue) {
    && P.Inv(q.chains) && |q.chains.ops| == |q.tickets|
    && (forall i :: 0 <= i < |q.chains.ops| ==> q.chains.ops[i].key == TAIL)
  }

  /** The callback of a settled operation is queued or has run, once in all; that of another is neither. */
  ghost predicate Once(q: Queue, i: nat)
    requires i < |q.tickets| == |q.chains.ops|
  {
    && q.tickets[i].ran + q.ready[i] == (if q.chains.ops[i].phase == P.Done then 1 else 0)
    && q.tickets[i].reserved == (q.tickets[i].ran == 0)
  }

  ghost predicate Callbacks(q: Queue)
    requires |q.tickets| == |q.chains.ops|
  {
    && (forall i {:trigger Once(q, i)} :: 0 <= i < |q.tickets| ==> Once(q, i))
    && (forall i :: i in q.ready ==> i < |q.tickets|)
  }

  ghost predicate InOrder(q: Queue)
    requires |q.tickets| == |q.chains.ops|
  {
    && (forall k :: 0 <= k < |q.commits| ==> q.commits[k] < |q.tickets| && q.chains.ops[q.commits[k]].phase == P.Done)
    && (forall k, l :: 0 <= k < l < |q.commits| ==> q.commits[k] < q.commits[l])
    && (forall k :: 0 <= k < |q.commits| && q.tickets[q.commits[k]].kind.Login? ==>
          q.tickets[q.commits[k]].outcome == Answered(true))
  }

  ghost predicate Inv(q: Queue, c: Config) {
    Counters(q, c) && Chained(q) && Callbacks(q) && InOrder(q)
  }

  lemma {:induction false} OpenAppend(tickets: seq<Ticket>, t: Ticket)
    ensures Open(tickets + [t]) == Open(tickets) + if t.ran == 0 then 1 else 0
    ensures OpenLocal(tickets + [t]) == OpenLocal(tickets) + if t.ran == 0 && !t.kind.Bootstrap? then 1 else 0
  {
    if tickets == [] {
      assert tickets + [t] == [t];
    } else {
      assert (tickets + [t])[1..] == tickets[1..] + [t];
      OpenAppend(tickets[1..], t);
    }
  }

  lemma {:induction false} OpenUpdate(tickets: seq<Ticket>, i: nat, t: Ticket)
    requires i < |tickets| && t.kind == tickets[i].kind
    ensures Open(tickets[i := t]) - Open(tickets)
            == (if t.ran == 0 then 1 else 0) - if tickets[i].ran == 0 then 1 else 0
    ensures !t.kind.Bootstrap? ==>
              OpenLocal(tickets[i := t]) - OpenLocal(tickets) == Open(tickets[i := t]) - Open(tickets)
    ensures t.kind.Bootstrap? ==> OpenLocal(tickets[i := t]) == OpenLocal(tickets)
  {
    if i == 0 {
      assert tickets[i := t][1..] == tickets[1..];
    } else {
      assert tickets[i := t][1..] == tickets[1..][i - 1 := t];
      OpenUpdate(tickets[1..], i - 1, t);
    }
  }

  lemma EnqueueKeepsChain(q: Queue, v: Queue, t: Ticket)
    requires Chained(q) && Callbacks(q) && InOrder(q) && t.ran == 0 && t.reserved
    requires v.tickets == q.tickets + [t] && v.chains == P.Arrived(q.chains, TAIL) && v.ready == q.ready
             && v.commits == q.commits
    ensures Chained(v) && Callbacks(v) && InOrder(v)
  {
    P.StepKeepsInv(q.chains, P.Arrive(TAIL));
    forall i | 0 <= i < |v.tickets|
      ensures Once(v, i)
    {
      if i < |q.tickets| {
        assert Once(q, i);
      }
    }
  }

  lemma EnqueueKeepsInv(q: Queue, c: Config, held: Queue, kind: Kind, outcome: Outcome)
    requires Inv(q, c) && !Full(q, c) && (kind.Bootstrap? || q.pendingLocal < c.maxSessions)
    requires held == Reserved(q).(pendingLocal := q.pendingLocal + if kind.Bootstrap? then 0 else 1)
    ensures Inv(Enqueue(held, kind, outcome).0, c)
  {
    var t := Ticket(kind, outcome, true, 0);
    OpenAppend(q.tickets, t);
    EnqueueKeepsChain(q, Enqueue(held, kind, outcome).0, t);
  }

  /** A call that is answered at once, for whatever reason, has given back all it had taken. */
  lemma RefusalTakesNothing(q: Queue, c: Config, a: Attempt)
    ensures !Bootstrapped(q, c).1.Enqueued? ==> Bootstrapped(q, c).0 == q
    ensures !LoggedIn(q, c, a).1.Enqueued? ==> SameButHistory(LoggedIn(q, c, a).0, q)
    ensures !SetUp(q, c, a).1.Enqueued? ==> SameButHistory(SetUp(q, c, a).0, q)
  {
  }

  /** Equal up to the history of reservations, each of which was released. */
  ghost predicate SameButHistory(p: Queue, q: Queue) {
    p == q.(taken := p.taken, released := p.released) && p.taken - q.taken == p.released - q.released
  }

  lemma HistoryKeepsInv(q: Queue, c: Config, v: Queue)
    requires Inv(q, c) && SameButHistory(v, q)
    ensures Inv(v, c)
  {
    forall i | 0 <= i < |v.tickets|
      ensures Once(v, i)
    {
      assert Once(q, i);
    }
  }

  lemma LoginKeepsInv(q: Queue, c: Config, a: Attempt)
    requires Inv(q, c)
    ensures Inv(LoggedIn(q, c, a).0, c)
  {
    RefusalTakesNothing(q, c, a);
    if LoggedIn(q, c, a).1.Enqueued? {
      EnqueueKeepsInv(q, c, Reserved(q).(pendingLocal := q.pendingLocal + 1), Login, a.verified);
    } else {
      HistoryKeepsInv(q, c, LoggedIn(q, c, a).0);
    }
  }

  lemma SetupKeepsInv(q: Queue, c: Config, a: Attempt)
    requires Inv(q, c)
    ensures Inv(SetUp(q, c, a).0, c)
  {
    RefusalTakesNothing(q, c, a);
    if SetUp(q, c, a).1.Enqueued? {
      EnqueueKeepsInv(q, c, Reserved(q).(pendingLocal := q.pendingLocal + 1), Setup, Waiting);
    } else {
      HistoryKeepsInv(q, c, SetUp(q, c, a).0);
    }
  }

  lemma VerifyKeepsInv(q: Queue, c: Config, ticket: nat, outcome: Outcome)
    requires Inv(q, c)
    ensures Inv(Verified(q, ticket, outcome), c)
  {
    if ticket < |q.tickets| && q.tickets[ticket].outcome.Waiting? {
      var v := Verified(q, ticket, outcome);
      OpenUpdate(q.tickets, ticket, q.tickets[ticket].(outcome := outcome));
      forall i | 0 <= i < |v.tickets|
        ensures Once(v, i)
      {
        assert Once(q, i);
      }
    }
  }

  lemma BeginKeepsInv(q: Queue, c: Config, ticket: nat)
    requires Inv(q, c)
    ensures Inv(Begun(q, ticket), c)
  {
    if P.MayStart(q.chains, ticket) {
      var v := Begun(q, ticket);
      P.StepKeepsInv(q.chains, P.Start(ticket));
      forall i | 0 <= i < |v.tickets|
        ensures Once(v, i)
      {
        assert Once(q, i);
      }
    }
  }

  /** Every committed operation has settled, and what has settled is earlier in the chain than what runs. */
  lemma SettledIsEarlier(q: Queue, i: nat, j: nat)
    requires Chained(q) && i < |q.tickets| && j < |q.tickets|
    requires q.chains.ops[i].phase == P.Running && q.chains.ops[j].phase == P.Done
    ensures j < i
  {
    if i < j {
      P.EarlierHaveSettled(q.chains, i, j);
    }
  }

  lemma CompleteKeepsOrder(q: Queue, i: nat, v: Queue)
    requires Chained(q) && InOrder(q) && i < |q.tickets| && q.chains.ops[i].phase == P.Running
    requires v.tickets == q.tickets && v.chains == P.InPhase(q.chains, i, P.Done)
    requires v.commits == q.commits
             || (v.commits == q.commits + [i] && (q.tickets[i].kind.Login? ==> q.tickets[i].outcome == Answered(true)))
    ensures InOrder(v)
  {
    forall k | 0 <= k < |q.commits|
      ensures q.commits[k] < i
    {
      SettledIsEarlier(q, i, q.commits[k]);
    }
  }

  lemma CompleteKeepsInv(q: Queue, c: Config, i: nat, establishes: bool, enrollment: Enrollment)
    requires Inv(q, c)
    ensures Inv(Completed(q, c, i, establishes, enrollment), c)
  {
    var v := Completed(q, c, i, establishes, enrollment);
    if i < |q.tickets| && q.chains.ops[i].phase == P.Running && CanSettle(q.tickets[i]) {
      P.StepKeepsInv(q.chains, P.Finish(i));
      CompleteKeepsOrder(q, i, v);
      forall k | 0 <= k < |v.tickets|
        ensures Once(v, k)
      {
        assert Once(q, k);
      }
    }
  }

  lemma FinishKeepsInv(q: Queue, c: Config, ticket: nat)
    requires Inv(q, c)
    ensures Inv(Finished(q, ticket), c)
  {
    if ticket in q.ready {
      var v := Finished(q, ticket);
      assert Once(q, ticket);
      OpenUpdate(q.tickets, ticket, q.tickets[ticket].(reserved := false, ran := q.tickets[ticket].ran + 1));
      forall i | 0 <= i < |v.tickets|
        ensures Once(v, i)
      {
        assert Once(q, i);
      }
    }
  }

  /** Every step keeps: the counters are the numbers of admissions whose callback has not run and within their caps,
      reservations taken are reservations released plus those outstanding, and sessions have committed in admission
      order. */
  lemma StepKeepsInv(q: Queue, c: Config, e: Event)
    requires Inv(q, c)
    ensures Inv(Step(q, c, e), c)
  {
    match e
    case BootstrapCall => if !Full(q, c) { EnqueueKeepsInv(q, c, Reserved(q), Bootstrap, Waiting); }
    case LoginCall(a) => LoginKeepsInv(q, c, a);
    case SetupCall(a) => SetupKeepsInv(q, c, a);
    case Verify(ticket, outcome) => VerifyKeepsInv(q, c, ticket, outcome);
    case Begin(ticket) => BeginKeepsInv(q, c, ticket);
    case Complete(ticket, establishes, enrollment) => CompleteKeepsInv(q, c, ticket, establishes, enrollment);
    case Finish(ticket) => FinishKeepsInv(q, c, ticket);
  }

  // ---------------------------------------------------------------- runs

  function Run(q: Queue, c: Config, events: seq<Event>): Queue
    decreases events
  {
    if events == [] then q else Run(Step(q, c, events[0]), c, events[1..])
  }

  lemma {:induction false} RunKeepsInv(q: Queue, c: Config, events: seq<Event>)
    requires Inv(q, c)
    ensures Inv(Run(q, c, events), c)
    decreases events
  {
    if events != [] {
      StepKeepsInv(q, c, events[0]);
      RunKeepsInv(Step(q, c, events[0]), c, events[1..]);
    }
  }

  /** In every run, whatever the outcomes and in whatever order verifications finish: no counter exceeds its cap or
      goes below zero, and sessions commit in the order of admission, each admission at most once. */
  lemma AdmissionIsBoundedAndOrdered(c: Config, events: seq<Event>)
    ensures var q := Run(START, c, events);
            && 0 <= q.pendingLocal <= c.maxSessions && 0 <= q.pending <= MaxPending(c) <= MAX_PENDING_ESTABLISHMENTS
            && q.pending == q.taken - q.released
            && forall k, l :: 0 <= k < l < |q.commits| ==> q.commits[k] < q.commits[l]
  {
    RunKeepsInv(START, c, events);
  }

  ghost predicate AllFinished(tickets: seq<Ticket>) {
    forall i :: 0 <= i < |tickets| ==> tickets[i].ran > 0
  }

  /** Once every admission has finished nothing is counted any more: nothing leaks. */
  lemma {:induction false} AllFinishedCountsNothing(tickets: seq<Ticket>)
    requires AllFinished(tickets)
    ensures Open(tickets) == 0 && OpenLocal(tickets) == 0
  {
    if tickets != [] {
      AllFinishedCountsNothing(tickets[1..]);
    }
  }

  lemma QuiescenceReleasesEverything(c: Config, events: seq<Event>)
    requires AllFinished(Run(START, c, events).tickets)
    ensures var q := Run(START, c, events); q.pending == 0 && q.pendingLocal == 0 && q.taken == q.released
  {
    RunKeepsInv(START, c, events);
    AllFinishedCountsNothing(Run(START, c, events).tickets);
  }

  /** In every run the callback of an admission runs at most once, only after its operation has settled, and by then,
      and not before, its reservation has been given back.  The unguarded decrement of the local counter is safe for
      this reason only. */
  lemma ReleasedOnce(c: Config, events: seq<Event>, ticket: nat)
    requires ticket < |Run(START, c, events).tickets|
    ensures var q := Run(START, c, events);
            && ticket < |q.chains.ops| && q.tickets[ticket].ran <= 1
            && (q.tickets[ticket].ran == 1 ==> q.chains.ops[ticket].phase == P.Done && ticket !in q.ready)
            && (q.tickets[ticket].reserved <==> q.tickets[ticket].ran == 0)
  {
    RunKeepsInv(START, c, events);
    assert Once(Run(START, c, events), ticket);
  }

  // ---------------------------------------------------------------- the class

  class AuthAdmission {
    const config: Config
    var pendingEstablishments: int
    var pendingLocalAttempts: int
    var tickets: seq<Ticket>
    ghost var chains: P.Chains
    ghost var ready: multiset<nat>
    ghost var commits: seq<nat>
    ghost var taken: nat
    ghost var released: nat

    ghost function Model(): Queue
      reads this
    {
      Queue(pendingEstablishments, pendingLocalAttempts, tickets, chains, ready, commits, taken, released)
    }

    constructor (config: Config)
      ensures this.config == config && Model() == START && Inv(Model(), config)
    {
      this.config := config;
      pendingEstablishments, pendingLocalAttempts, tickets := 0, 0, [];
      chains, ready, commits, taken, released := P.IDLE, multiset{}, [], 0, 0;
    }

    method Reserve() returns (granted: bool)
      modifies `pendingEstablishments, `taken
      ensures granted == !Full(old(Model()), config)
      ensures Model() == if granted then Reserved(old(Model())) else old(Model())
    {
      if pendingEstablishments >= MaxPending(config) {
        return false;
      }
      pendingEstablishments, taken := pendingEstablishments + 1, taken + 1;
      granted := true;
    }

    method Release(reserved: bool)
      modifies `pendingEstablishments, `released
      ensures Model() == Released(old(Model()), reserved)
    {
      if reserved {
        pendingEstablishments, released := pendingEstablishments - 1, released + 1;
      }
    }

    method LogIn(a: Attempt) returns (reply: Reply)
      requires Inv(Model(), config)
      modifies this
      ensures (Model(), reply) == LoggedIn(old(Model()), config, a) && Inv(Model(), config)
    {
      LoginKeepsInv(Model(), config, a);
      if !config.local || a.initialized.Throws? {
        return Rejected;
      }
      if a.initialized.No? {
        return NeedsSetup;
      }
      if pendingLocalAttempts >= config.maxSessions {
        return RateLimited;
      }
      var granted := Reserve();
      if !granted {
        return RateLimited;
      }
      if !a.labelOk || !a.allowed.Yes? {
        Release(true);
        return if a.labelOk && a.allowed.No? then RateLimited else Rejected;
      }
      pendingLocalAttempts := pendingLocalAttempts + 1;
      if !a.enqueues {
        pendingLocalAttempts := pendingLocalAttempts - 1;
        Release(true);
        return Rejected;
      }
      reply := Enqueued(|tickets|);
      tickets := tickets + [Ticket(Login, a.verified, true, 0)];
      chains := P.Arrived(chains, TAIL);
    }

    /** The `finally` callback. */
    method FinishTicket(ticket: nat)
      requires Inv(Model(), config) && ticket in ready
      modifies this
      ensures Model() == Finished(old(Model()), ticket) && Inv(Model(), config)
    {
      FinishKeepsInv(Model(), config, ticket);
      var t := tickets[ticket];
      ready := ready - multiset{ticket};
      if !t.kind.Bootstrap? {
        pendingLocalAttempts := pendingLocalAttempts - 1;
      }
      Release(t.reserved);
      tickets := tickets[ticket := t.(reserved := false, ran := t.ran + 1)];
    }
  }
}
