/** The bounded concurrency of apps/server/src/admin-service.ts: `ProbeGate`, `boundedProbe` and `mapConcurrent`.
    Probe number i has waiter number i; timers and operations may report at any moment and in any order. */
module ProbeGates {

  /** `cancelled`, `granted` belong to the waiter, `released` to its release closure; `called` tells that the `granted`
      callback has run; `returned`, `started` are those of `boundedProbe`; `fired` and `done` tell that the timer and
      the operation have reported. */
  datatype Probe = Probe(
    cancelled: bool, granted: bool, released: bool, called: bool, returned: bool, started: bool, fired: bool,
    done: bool)

  /** A probe whose timer has fired inside setTimeout is answered before it asks for a permit, and can then not give up
      its place in the queue. */
  function New(early: bool): Probe {
    Probe(false, false, false, false, early, false, early, false)
  }

  /** `queue` holds the waiters in the gate's array. */
  datatype Gate = Gate(capacity: nat, active: int, queue: seq<nat>, probes: seq<Probe>)

  datatype Event =
    | Begin(early: bool)
    | TimerFires(i: nat)
    | Granted(i: nat)
    | OperationSettles(i: nat)

  function Start(capacity: nat): Gate {
    Gate(capacity, 0, [], [])
  }

  // ---------------------------------------------------------------- the gate

  function Drained(g: Gate): (r: Gate)
    ensures r.capacity == g.capacity
    decreases |g.queue|
  {
    if g.active >= g.capacity || g.queue == [] then g
    else
      var i, rest := g.queue[0], g.queue[1..];
      if i >= |g.probes| || g.probes[i].cancelled then Drained(g.(queue := rest))
      else Drained(g.(active := g.active + 1, queue := rest, probes := g.probes[i := g.probes[i].(granted := true)]))
  }

  function Acquired(g: Gate, early: bool): Gate {
    Drained(g.(queue := g.queue + [|g.probes|], probes := g.probes + [New(early)]))
  }

  /** The release closure of waiter i; it acts once. */
  function Released(g: Gate, i: nat): Gate {
    if i >= |g.probes| || g.probes[i].released || !g.probes[i].granted then g
    else Drained(g.(active := g.active - 1, probes := g.probes[i := g.probes[i].(released := true)]))
  }

  function WithoutFirst(queue: seq<nat>, i: nat): seq<nat> {
    if queue == [] then [] else if queue[0] == i then queue[1..] else [queue[0]] + WithoutFirst(queue[1..], i)
  }

  function Cancelled(g: Gate, i: nat): Gate {
    if i >= |g.probes| || g.probes[i].cancelled then g
    else
      var marked := g.(probes := g.probes[i := g.probes[i].(cancelled := true)]);
      if g.probes[i].granted then Released(marked, i) else marked.(queue := WithoutFirst(g.queue, i))
  }

  // ---------------------------------------------------------------- the probes

  function With(g: Gate, i: nat, p: Probe): Gate
    requires i < |g.probes|
  {
    g.(probes := g.probes[i := p])
  }

  /** The timeout: a probe that has not started gives its place up, and the probe is answered. */
  function TimedOut(g: Gate, i: nat): Gate {
    if i >= |g.probes| || g.probes[i].fired then g
    else
      var p := g.probes[i].(fired := true, returned := true);
      if p.started then With(g, i, p) else Cancelled(With(g, i, p), i)
  }

  /** The callback on the grant: an answered probe gives the permit back, another one starts its operation. */
  function GrantSeen(g: Gate, i: nat): Gate {
    if i >= |g.probes| || !g.probes[i].granted || g.probes[i].called then g
    else
      var p := g.probes[i].(called := true);
      if p.returned then Released(With(g, i, p), i) else With(g, i, p.(started := true))
  }

  function Settled(g: Gate, i: nat): Gate {
    if i >= |g.probes| || !g.probes[i].started || g.probes[i].done then g
    else Released(With(g, i, g.probes[i].(done := true, returned := true)), i)
  }

  function Step(g: Gate, e: Event): Gate {
    match e
    case Begin(early) => Acquired(g, early)
    case TimerFires(i) => TimedOut(g, i)
    case Granted(i) => GrantSeen(g, i)
    case OperationSettles(i) => Settled(g, i)
  }

  // ---------------------------------------------------------------- the invariant

  predicate Holds(p: Probe) {
    p.granted && !p.released
  }

  predicate Running(p: Probe) {
    p.started && !p.done
  }

  function Held(probes: seq<Probe>): nat {
    if probes == [] then 0 else (if Holds(probes[0]) then 1 else 0) + Held(probes[1..])
  }

  function RunningCount(probes: seq<Probe>): nat {
    if probes == [] then 0 else (if Running(probes[0]) then 1 else 0) + RunningCount(probes[1..])
  }

  /** A permit is held exactly as long as its operation runs or its callback has still to run and has not been
      cancelled. */
  ghost predicate Fine(p: Probe) {
    && (p.released ==> p.granted) && (p.called ==> p.granted) && (p.started ==> p.called)
    && (p.done ==> p.started && p.returned)
    && (Holds(p) <==> Running(p) || (p.granted && !p.called && !p.cancelled))
    && (p.cancelled ==> !p.started && p.returned)
    && (p.called && !p.started ==> p.returned)
  }

  ghost predicate Waits(g: Gate, i: nat) {
    i < |g.probes| && !g.probes[i].granted && !g.probes[i].cancelled
  }

  /** Everything but the last clause of the invariant, which draining establishes. */
  ghost predicate Counted(g: Gate) {
    && (forall i :: 0 <= i < |g.probes| ==> Fine(g.probes[i]))
    && (forall i :: i in g.queue <==> 0 <= i && Waits(g, i))
    && (forall i, j :: 0 <= i < j < |g.queue| ==> g.queue[i] < g.queue[j])
    && (forall i, j :: 0 <= i < |g.probes| && g.probes[i].granted && j in g.queue ==> i < j)
    && g.active == Held(g.probes) <= g.capacity
  }

  /** Someone waits only when every permit is held. */
  ghost predicate Inv(g: Gate) {
    Counted(g) && (g.queue != [] ==> g.active == g.capacity)
  }

  lemma {:induction false} HeldUpdate(probes: seq<Probe>, i: nat, p: Probe)
    requires i < |probes|
    ensures Held(probes[i := p]) == Held(probes) + (if Holds(p) then 1 else 0) - if Holds(probes[i]) then 1 else 0
  {
    if i == 0 {
      assert probes[i := p][1..] == probes[1..];
    } else {
      assert probes[i := p][1..] == probes[1..][i - 1 := p];
      HeldUpdate(probes[1..], i - 1, p);
    }
  }

  lemma {:induction false} HeldAppend(probes: seq<Probe>, p: Probe)
    ensures Held(probes + [p]) == Held(probes) + if Holds(p) then 1 else 0
  {
    if probes == [] {
      assert probes + [p] == [p];
    } else {
      assert (probes + [p])[1..] == probes[1..] + [p];
      HeldAppend(probes[1..], p);
    }
  }

  lemma {:induction false} WithoutFirstContents(queue: seq<nat>, i: nat)
    requires forall a, b :: 0 <= a < b < |queue| ==> queue[a] < queue[b]
    ensures forall j :: j in WithoutFirst(queue, i) <==> j in queue && j != i
    ensures var r := WithoutFirst(queue, i); forall a, b :: 0 <= a < b < |r| ==> r[a] < r[b]
    ensures |WithoutFirst(queue, i)| == |queue| - if i in queue then 1 else 0
  {
    if queue != [] {
      WithoutFirstContents(queue[1..], i);
    }
  }

  /** Draining hands out permits until none is left or nobody waits. */
  lemma {:induction false} DrainedKeepsInv(g: Gate)
    requires Counted(g)
    ensures Inv(Drained(g)) && |Drained(g).probes| == |g.probes| && Drained(g).capacity == g.capacity
    ensures forall j :: 0 <= j < |g.probes| ==>
              Drained(g).probes[j] == g.probes[j].(granted := Drained(g).probes[j].granted)
    ensures forall j :: 0 <= j < |g.probes| && g.probes[j].granted ==> Drained(g).probes[j].granted
    decreases |g.queue|
  {
    if g.active < g.capacity && g.queue != [] {
      var i, rest := g.queue[0], g.queue[1..];
      assert Waits(g, i);
      var next := g.(active := g.active + 1, queue := rest, probes := g.probes[i := g.probes[i].(granted := true)]);
      HeldUpdate(g.probes, i, g.probes[i].(granted := true));
      forall j
        ensures j in rest <==> 0 <= j && Waits(next, j)
      {
        assert j in g.queue <==> j == i || j in rest;
      }
      DrainedKeepsInv(next);
    }
  }

  lemma {:induction false} ReleasedKeepsInv(g: Gate, i: nat, q: Probe)
    requires Inv(g) && i < |g.probes| && Holds(g.probes[i]) && Fine(q.(released := true)) && Holds(q)
    requires q.cancelled ==> g.probes[i].granted
    ensures Inv(Released(With(g, i, q), i))
  {
    var p := q.(released := true);
    var next := g.(active := g.active - 1, probes := g.probes[i := p]);
    HeldUpdate(g.probes, i, p);
    assert With(g, i, q).probes[i := p] == g.probes[i := p];
    forall j
      ensures j in next.queue <==> 0 <= j && Waits(next, j)
    {
      assert Waits(next, j) <==> Waits(g, j);
    }
    DrainedKeepsInv(next);
  }

  /** Changes to a probe that neither touch its place nor its permit. */
  lemma {:induction false} WithKeepsInv(g: Gate, i: nat, p: Probe)
    requires Inv(g) && i < |g.probes| && Fine(p)
    requires p.granted == g.probes[i].granted && p.cancelled == g.probes[i].cancelled && Holds(p) == Holds(g.probes[i])
    ensures Inv(With(g, i, p))
  {
    HeldUpdate(g.probes, i, p);
    forall j
      ensures j in g.queue <==> 0 <= j && Waits(With(g, i, p), j)
    {
      assert Waits(With(g, i, p), j) <==> Waits(g, j);
    }
  }

  lemma {:induction false} AcquiredKeepsInv(g: Gate, early: bool)
    requires Inv(g)
    ensures Inv(Acquired(g, early))
  {
    var next := g.(queue := g.queue + [|g.probes|], probes := g.probes + [New(early)]);
    HeldAppend(g.probes, New(early));
    forall j
      ensures j in next.queue <==> 0 <= j && Waits(next, j)
    {
      assert j in next.queue <==> j in g.queue || j == |g.probes|;
      assert j in g.queue ==> Waits(g, j);
    }
    forall a, b | 0 <= a < b < |next.queue|
      ensures next.queue[a] < next.queue[b]
    {
      assert g.queue[a] in g.queue && Waits(g, g.queue[a]);
    }
    DrainedKeepsInv(next);
  }

  lemma {:induction false} LeavingKeepsInv(g: Gate, i: nat)
    requires Inv(g) && Waits(g, i)
    ensures Inv(g.(queue := WithoutFirst(g.queue, i),
                   probes := g.probes[i := g.probes[i].(fired := true, returned := true, cancelled := true)]))
  {
    var p := g.probes[i].(fired := true, returned := true, cancelled := true);
    var next := g.(queue := WithoutFirst(g.queue, i), probes := g.probes[i := p]);
    WithoutFirstContents(g.queue, i);
    HeldUpdate(g.probes, i, p);
    assert Fine(p);
    forall j
      ensures j in next.queue <==> 0 <= j && Waits(next, j)
    {
      assert j in g.queue <==> 0 <= j && Waits(g, j);
    }
  }

  lemma {:induction false} TimedOutKeepsInv(g: Gate, i: nat)
    requires Inv(g)
    ensures Inv(TimedOut(g, i))
  {
    if i < |g.probes| && !g.probes[i].fired {
      var p := g.probes[i].(fired := true, returned := true);
      var marked := p.(cancelled := true);
      assert With(g, i, p).probes[i := marked] == g.probes[i := marked];
      if p.started || p.cancelled || (p.granted && p.released) {
        if p.started || p.cancelled {
          WithKeepsInv(g, i, p);
        } else {
          CancelReleasedKeepsInv(g, i);
        }
      } else if p.granted {
        ReleasedKeepsInv(g, i, marked);
      } else {
        LeavingKeepsInv(g, i);
      }
    }
  }

  lemma {:induction false} CancelReleasedKeepsInv(g: Gate, i: nat)
    requires Inv(g) && i < |g.probes| && g.probes[i].granted && g.probes[i].released && !g.probes[i].started
    ensures Inv(With(g, i, g.probes[i].(fired := true, returned := true, cancelled := true)))
  {
    var p := g.probes[i].(fired := true, returned := true, cancelled := true);
    HeldUpdate(g.probes, i, p);
    forall j
      ensures j in g.queue <==> 0 <= j && Waits(With(g, i, p), j)
    {
      assert Waits(With(g, i, p), j) <==> Waits(g, j);
    }
  }

  lemma {:induction false} GrantSeenKeepsInv(g: Gate, i: nat)
    requires Inv(g)
    ensures Inv(GrantSeen(g, i))
  {
    if i < |g.probes| && g.probes[i].granted && !g.probes[i].called {
      var p := g.probes[i].(called := true);
      if !p.returned {
        WithKeepsInv(g, i, p.(started := true));
      } else if p.released {
        WithKeepsInv(g, i, p);
      } else {
        ReleasedKeepsInv(g, i, p);
      }
    }
  }

  /** In every interleaving of arrivals, grants, timeouts, cancellations and completions: the active count is the number
      of permits held and at most the capacity, a permit is held exactly while its operation runs or is about to be
      announced, and nobody waits while a permit is free. */
  lemma {:induction false} StepKeepsInv(g: Gate, e: Event)
    requires Inv(g)
    ensures Inv(Step(g, e))
  {
    match e
    case Begin(early) => AcquiredKeepsInv(g, early);
    case TimerFires(i) => TimedOutKeepsInv(g, i);
    case Granted(i) => GrantSeenKeepsInv(g, i);
    case OperationSettles(i) =>
      if i < |g.probes| && Running(g.probes[i]) {
        ReleasedKeepsInv(g, i, g.probes[i].(done := true, returned := true));
      }
  }

  // ---------------------------------------------------------------- runs

  function Run(g: Gate, events: seq<Event>): Gate
    decreases events
  {
    if events == [] then g else Run(Step(g, events[0]), events[1..])
  }

  lemma {:induction false} RunKeepsInv(g: Gate, events: seq<Event>)
    requires Inv(g)
    ensures Inv(Run(g, events)) && Run(g, events).capacity == g.capacity
    decreases events
  {
    if events != [] {
      StepKeepsInv(g, events[0]);
      RunKeepsInv(Step(g, events[0]), events[1..]);
    }
  }

  lemma {:induction false} RunningHold(probes: seq<Probe>)
    requires forall i :: 0 <= i < |probes| ==> Fine(probes[i])
    ensures RunningCount(probes) <= Held(probes)
  {
    if probes != [] {
      RunningHold(probes[1..]);
    }
  }

  /** Never do more operations run at once than the gate has permits, timeouts or not. */
  lemma {:induction false} ConcurrencyIsBounded(capacity: nat, events: seq<Event>)
    ensures var g := Run(Start(capacity), events);
            RunningCount(g.probes) <= g.active == Held(g.probes) <= capacity && (g.queue != [] ==> g.active == capacity)
  {
    RunKeepsInv(Start(capacity), events);
    RunningHold(Run(Start(capacity), events).probes);
  }

  lemma {:induction false} NoneHeld(probes: seq<Probe>)
    requires forall i :: 0 <= i < |probes| ==>
               Fine(probes[i]) && !Running(probes[i]) && (probes[i].granted ==> probes[i].called)
    ensures Held(probes) == 0
  {
    if probes != [] {
      NoneHeld(probes[1..]);
    }
  }

  /** No permit is lost: once every announced grant has been seen and every operation has settled, all are free again
      and nobody is waiting. */
  lemma {:induction false} PermitsComeBack(g: Gate)
    requires Inv(g) && g.capacity > 0
    requires forall i :: 0 <= i < |g.probes| ==> !Running(g.probes[i]) && (g.probes[i].granted ==> g.probes[i].called)
    ensures g.active == 0 && g.queue == []
  {
    NoneHeld(g.probes);
  }

  /** Permits are handed out in the order of arrival: a later waiter never gets one before an earlier one that still
      waits. */
  lemma {:induction false} NoOvertaking(g: Gate, early: nat, late: nat)
    requires Inv(g) && early < late < |g.probes| && Waits(g, early)
    ensures !g.probes[late].granted
  {
    assert early in g.queue;
  }

  // ---------------------------------------------------------------- the class

  class ProbeGate {
    const capacity: nat
    var active: int
    var waiters: seq<nat>
    var probes: seq<Probe>

    ghost function Model(): Gate
      reads this
    {
      Gate(capacity, active, waiters, probes)
    }

    constructor (capacity: nat)
      ensures Model() == Start(capacity) && Inv(Model())
    {
      this.capacity := capacity;
      active, waiters, probes := 0, [], [];
    }

    method Drain()
      modifies this
      ensures Model() == Drained(old(Model()))
    {
      while active < capacity && waiters != []
        invariant Drained(Model()) == Drained(old(Model()))
        decreases |waiters|
      {
        var i := waiters[0];
        waiters := waiters[1..];
        if i < |probes| && !probes[i].cancelled {
          active := active + 1;
          probes := probes[i := probes[i].(granted := true)];
        }
      }
    }

    method Acquire(early: bool) returns (i: nat)
      requires Inv(Model())
      modifies this
      ensures i == |old(probes)| && Model() == Acquired(old(Model()), early) && Inv(Model())
    {
      AcquiredKeepsInv(Model(), early);
      i := |probes|;
      waiters, probes := waiters + [i], probes + [New(early)];
      Drain();
    }

    method Release(i: nat)
      requires i < |probes| && probes[i].granted
      modifies this
      ensures Model() == Released(old(Model()), i)
    {
      if probes[i].released {
        return;
      }
      probes := probes[i := probes[i].(released := true)];
      active := active - 1;
      Drain();
    }

    method Cancel(i: nat)
      requires i < |probes|
      modifies this
      ensures Model() == Cancelled(old(Model()), i)
    {
      if probes[i].cancelled {
        return;
      }
      probes := probes[i := probes[i].(cancelled := true)];
      if probes[i].granted {
        Release(i);
      } else {
        waiters := WithoutFirst(waiters, i);
      }
    }
  }

  // ---------------------------------------------------------------- mapConcurrent

  datatype Worker = Idle | Working(index: nat) | Stopped

  /** `defined[i]` tells whether value i is not undefined; `taken` lists the indices in the order they were taken. */
  datatype Mapping = Mapping(
    defined: seq<bool>, next: nat, workers: seq<Worker>, taken: seq<nat>, completed: set<nat>, failed: set<nat>)

  datatype MapEvent = Take(w: nat) | Completes(w: nat) | Fails(w: nat)

  function MapStart(defined: seq<bool>, concurrency: nat): Mapping {
    var count := if concurrency < |defined| then concurrency else |defined|;
    Mapping(defined, 0, seq(count, _ => Idle), [], {}, {})
  }

  /** An idle worker takes indices until it has a defined value to work on, or none is left. */
  function Taken(m: Mapping, w: nat): Mapping
    requires w < |m.workers|
    decreases if m.next < |m.defined| then |m.defined| - m.next else 0
  {
    if m.next >= |m.defined| then m.(workers := m.workers[w := Stopped])
    else
      var took := m.(next := m.next + 1, taken := m.taken + [m.next]);
      if m.defined[m.next] then took.(workers := m.workers[w := Working(m.next)])
      else Taken(took.(completed := took.completed + {m.next}), w)
  }

  /** A rejected operation ends its worker; the others go on. */
  function MapStep(m: Mapping, e: MapEvent): Mapping {
    if e.w >= |m.workers| then m
    else
      match e
      case Take(w) => if m.workers[w].Idle? then Taken(m, w) else m
      case Completes(w) =>
        if m.workers[w].Working? then
          m.(workers := m.workers[w := Idle], completed := m.completed + {m.workers[w].index})
        else m
      case Fails(w) =>
        if m.workers[w].Working? then
          m.(workers := m.workers[w := Stopped], failed := m.failed + {m.workers[w].index})
        else m
  }

  predicate InWork(m: Mapping, i: nat) {
    exists w :: 0 <= w < |m.workers| && m.workers[w] == Working(i)
  }

  /** Every index taken so far is in work with one worker, completed or failed, and only one of these. */
  ghost predicate MapInv(m: Mapping) {
    && m.next <= |m.defined| && m.taken == seq(m.next, i => i)
    && (forall i :: 0 <= i < m.next ==> InWork(m, i) || i in m.completed || i in m.failed)
    && (forall i :: i in m.completed || i in m.failed ==> i < m.next)
    && m.completed !! m.failed
    && (forall w :: 0 <= w < |m.workers| && m.workers[w].Stopped? ==> m.next == |m.defined| || m.failed != {})
    && (forall w :: 0 <= w < |m.workers| && m.workers[w].Working? ==> Exclusive(m, w))
  }

  ghost predicate Exclusive(m: Mapping, w: nat)
    requires w < |m.workers| && m.workers[w].Working?
  {
    && m.workers[w].index < m.next && m.workers[w].index !in m.completed && m.workers[w].index !in m.failed
    && forall v :: 0 <= v < |m.workers| && v != w ==> m.workers[v] != m.workers[w]
  }

  lemma {:induction false} TakenKeepsInv(m: Mapping, w: nat)
    requires MapInv(m) && w < |m.workers| && m.workers[w].Idle?
    ensures MapInv(Taken(m, w)) && |Taken(m, w).workers| == |m.workers| && Taken(m, w).defined == m.defined
    decreases |m.defined| - m.next
  {
    if m.next >= |m.defined| {
      EndsKeepsInv(m, w, Stopped);
    } else {
      var took := m.(next := m.next + 1, taken := m.taken + [m.next]);
      if m.defined[m.next] {
        var v := took.(workers := m.workers[w := Working(m.next)]);
        forall i | 0 <= i < v.next
          ensures InWork(v, i) || i in v.completed || i in v.failed
        {
          if i == m.next {
            assert v.workers[w] == Working(i);
          } else if InWork(m, i) {
            var u :| 0 <= u < |m.workers| && m.workers[u] == Working(i);
            assert v.workers[u] == Working(i);
          }
        }
        forall u | 0 <= u < |v.workers| && v.workers[u].Working?
          ensures Exclusive(v, u)
        {
          assert u != w ==> Exclusive(m, u);
        }
      } else {
        var v := took.(completed := took.completed + {m.next});
        forall i | 0 <= i < v.next
          ensures InWork(v, i) || i in v.completed || i in v.failed
        {
          assert i < m.next && InWork(m, i) ==> InWork(v, i);
        }
        forall u | 0 <= u < |v.workers| && v.workers[u].Working?
          ensures Exclusive(v, u)
        {
          assert Exclusive(m, u);
        }
        TakenKeepsInv(v, w);
      }
    }
  }

  lemma {:induction false} EndsKeepsInv(m: Mapping, w: nat, status: Worker)
    requires MapInv(m) && w < |m.workers| && !m.workers[w].Working? && !status.Working? && m.next == |m.defined|
    ensures MapInv(m.(workers := m.workers[w := status]))
  {
    var v := m.(workers := m.workers[w := status]);
    forall i | 0 <= i < m.next
      ensures InWork(v, i) || i in v.completed || i in v.failed
    {
      if InWork(m, i) {
        var u :| 0 <= u < |m.workers| && m.workers[u] == Working(i);
        assert v.workers[u] == Working(i);
      }
    }
    forall u | 0 <= u < |v.workers| && v.workers[u].Working?
      ensures Exclusive(v, u)
    {
      assert Exclusive(m, u);
    }
  }

  lemma {:induction false} ReportKeepsInv(m: Mapping, w: nat, v: Mapping)
    requires MapInv(m) && w < |m.workers| && m.workers[w].Working?
    requires v == m.(workers := m.workers[w := Idle], completed := m.completed + {m.workers[w].index})
          || v == m.(workers := m.workers[w := Stopped], failed := m.failed + {m.workers[w].index})
    ensures MapInv(v)
  {
    assert Exclusive(m, w);
    forall i | 0 <= i < m.next
      ensures InWork(v, i) || i in v.completed || i in v.failed
    {
      if InWork(m, i) {
        var u :| 0 <= u < |m.workers| && m.workers[u] == Working(i);
        assert u != w ==> v.workers[u] == Working(i);
      }
    }
    forall u | 0 <= u < |v.workers| && v.workers[u].Working?
      ensures Exclusive(v, u)
    {
      assert Exclusive(m, u);
    }
  }

  lemma {:induction false} MapStepKeepsInv(m: Mapping, e: MapEvent)
    requires MapInv(m)
    ensures MapInv(MapStep(m, e)) && |MapStep(m, e).workers| == |m.workers| && MapStep(m, e).defined == m.defined
  {
    if e.w < |m.workers| {
      if e.Take? && m.workers[e.w].Idle? {
        TakenKeepsInv(m, e.w);
      } else if !e.Take? && m.workers[e.w].Working? {
        ReportKeepsInv(m, e.w, MapStep(m, e));
      }
    }
  }

  function MapRun(m: Mapping, events: seq<MapEvent>): Mapping
    decreases events
  {
    if events == [] then m else MapRun(MapStep(m, events[0]), events[1..])
  }

  lemma {:induction false} MapRunKeepsInv(m: Mapping, events: seq<MapEvent>)
    requires MapInv(m)
    ensures MapInv(MapRun(m, events)) && |MapRun(m, events).workers| == |m.workers|
            && MapRun(m, events).defined == m.defined
    decreases events
  {
    if events != [] {
      MapStepKeepsInv(m, events[0]);
      MapRunKeepsInv(MapStep(m, events[0]), events[1..]);
    }
  }

  ghost predicate AllStopped(m: Mapping) {
    forall w :: 0 <= w < |m.workers| ==> m.workers[w].Stopped?
  }

  /** All workers have returned and none has thrown: `Promise.all` resolves. */
  ghost predicate Resolved(m: Mapping) {
    AllStopped(m) && m.failed == {}
  }

  /** With a concurrency of zero there is no worker: the call resolves at once and nothing ever happens. */
  lemma {:induction false} ZeroConcurrencyDoesNothing(defined: seq<bool>, events: seq<MapEvent>)
    ensures var m := MapRun(MapStart(defined, 0), events);
            Resolved(m) && m.taken == [] && m.completed == {}
    decreases events
  {
    if events != [] {
      ZeroConcurrencyDoesNothing(defined, events[1..]);
    }
  }

  /** However the operations interleave: the indices are taken in order and none twice, and a call that resolves has
      processed all of them if and only if its concurrency is positive or there is nothing to process. */
  lemma {:induction false} EachIndexOnce(defined: seq<bool>, concurrency: nat, events: seq<MapEvent>)
    ensures var m := MapRun(MapStart(defined, concurrency), events);
            && m.taken == seq(m.next, i => i)
            && (Resolved(m) ==>
                  ((forall i :: 0 <= i < |defined| ==> i in m.completed) <==> concurrency > 0 || defined == []))
  {
    MapRunKeepsInv(MapStart(defined, concurrency), events);
    var m := MapRun(MapStart(defined, concurrency), events);
    if defined != [] && Resolved(m) {
      if concurrency == 0 {
        ZeroConcurrencyDoesNothing(defined, events);
        assert 0 !in m.completed;
      } else {
        assert m.workers[0].Stopped?;
      }
    }
  }
}
