/** Promise-chain locks: `KeyedMutex.runExclusive` (apps/server/src/session-manager.ts),
    `BridgeRegistry.serialize` (apps/server/src/bridge-registry.ts) and the single-key queues
    `TabStore.enqueue` and `AuthService.#enqueueEstablishment`.

    Nothing here is a queue: each operation only remembers the tail promise it found in the map when it arrived,
    and may start once that promise has resolved.  The lemmas show that this is a FIFO lock per key. */
module PromiseChains {
  import opened Collections

  type Key = nat

  datatype Phase = Waiting | Running | Done

  /** `prior` is the operation whose tail promise was in the map on arrival. */
  datatype Op = Op(key: Key, prior: Option<nat>, phase: Phase)

  /** Operations in order of arrival, and the map from keys to tail promises. */
  datatype Chains = Chains(ops: seq<Op>, tails: map<Key, nat>)

  const IDLE := Chains([], map[])

  datatype Event =
    | Arrive(key: Key)
    | Start(op: nat)
    | Finish(op: nat)          // the operation settled, resolved or rejected alike
    | Forget(op: nat)          // the reaction that drops the map entry if it is still this operation's
    | FinishAndForget(op: nat) // KeyedMutex does both in one finally block

  /** The tail promise of an operation: its own gate, after the tail it waited for. */
  predicate TailResolved(c: Chains, i: nat)
    requires i < |c.ops|
    decreases i
  {
    && c.ops[i].phase == Done
    && (c.ops[i].prior.Some? && c.ops[i].prior.value < i ==> TailResolved(c, c.ops[i].prior.value))
  }

  predicate MayStart(c: Chains, i: nat) {
    && i < |c.ops|
    && c.ops[i].phase == Waiting
    && (c.ops[i].prior.Some? && c.ops[i].prior.value < i ==> TailResolved(c, c.ops[i].prior.value))
  }

  predicate Enabled(c: Chains, e: Event) {
    match e
    case Arrive(_) => true
    case Start(i) => MayStart(c, i)
    case Finish(i) => i < |c.ops| && c.ops[i].phase == Running
    case Forget(i) => i < |c.ops| && TailResolved(c, i)
    case FinishAndForget(i) => i < |c.ops| && c.ops[i].phase == Running
  }

  function InPhase(c: Chains, i: nat, phase: Phase): Chains
    requires i < |c.ops|
  {
    c.(ops := c.ops[i := c.ops[i].(phase := phase)])
  }

  function Forgotten(c: Chains, i: nat): Chains
    requires i < |c.ops|
  {
    var key := c.ops[i].key;
    if key in c.tails && c.tails[key] == i then c.(tails := c.tails - {key}) else c
  }

  function Arrived(c: Chains, key: Key): Chains {
    var prior := if key in c.tails then Some(c.tails[key]) else None;
    Chains(c.ops + [Op(key, prior, Waiting)], c.tails[key := |c.ops|])
  }

  function Step(c: Chains, e: Event): Chains
    requires Enabled(c, e)
  {
    match e
    case Arrive(key) => Arrived(c, key)
    case Start(i) => InPhase(c, i, Running)
    case Finish(i) => InPhase(c, i, Done)
    case Forget(i) => Forgotten(c, i)
    case FinishAndForget(i) => Forgotten(InPhase(c, i, Done), i)
  }

  ghost predicate Reaches(from: Chains, events: seq<Event>, to: Chains)
    decreases events
  {
    if events == [] then from == to
    else Enabled(from, events[0]) && Reaches(Step(from, events[0]), events[1..], to)
  }

  /** Every operation of the key that arrived before `bound` has settled. */
  ghost predicate AllDone(c: Chains, key: Key, bound: nat) {
    forall k :: 0 <= k < bound && k < |c.ops| && c.ops[k].key == key ==> c.ops[k].phase == Done
  }

  ghost predicate Linked(c: Chains, i: nat)
    requires i < |c.ops|
  {
    match c.ops[i].prior
    case None => AllDone(c, c.ops[i].key, i)
    case Some(p) => p < i && c.ops[p].key == c.ops[i].key && forall k :: p < k < i ==> c.ops[k].key != c.ops[i].key
  }

  ghost predicate IsTail(c: Chains, key: Key, i: nat) {
    i < |c.ops| && c.ops[i].key == key && forall k :: i < k < |c.ops| ==> c.ops[k].key != key
  }

  ghost predicate TailsMatch(c: Chains) {
    && (forall key :: key in c.tails ==> IsTail(c, key, c.tails[key]))
    && (forall key :: key !in c.tails ==> AllDone(c, key, |c.ops|))
  }

  ghost predicate Inv(c: Chains) {
    && (forall i :: 0 <= i < |c.ops| ==> Linked(c, i))
    && (forall i :: 0 <= i < |c.ops| && c.ops[i].phase != Waiting && c.ops[i].prior.Some? ==>
          c.ops[i].prior.value < i && TailResolved(c, c.ops[i].prior.value))
    && TailsMatch(c)
  }

  /** A resolved tail means that its whole chain, and everything before it, has settled. */
  lemma {:induction false} ResolvedTailSettlesAll(c: Chains, i: nat)
    requires (forall k :: 0 <= k < |c.ops| ==> Linked(c, k)) && i < |c.ops| && TailResolved(c, i)
    ensures AllDone(c, c.ops[i].key, i + 1)
    decreases i
  {
    if c.ops[i].prior.Some? {
      assert Linked(c, i);
      ResolvedTailSettlesAll(c, c.ops[i].prior.value);
    } else {
      assert Linked(c, i);
    }
  }

  /** Settling is permanent, so is a resolved tail. */
  lemma {:induction false} TailStaysResolved(c: Chains, d: Chains, i: nat)
    requires i < |c.ops| <= |d.ops| && TailResolved(c, i)
    requires forall k :: 0 <= k < |c.ops| ==> d.ops[k].key == c.ops[k].key && d.ops[k].prior == c.ops[k].prior
    requires forall k :: 0 <= k < |c.ops| && c.ops[k].phase == Done ==> d.ops[k].phase == Done
    ensures TailResolved(d, i)
    decreases i
  {
    if c.ops[i].prior.Some? && c.ops[i].prior.value < i {
      TailStaysResolved(c, d, c.ops[i].prior.value);
    }
  }

  lemma StepKeepsLinks(c: Chains, e: Event)
    requires Inv(c) && Enabled(c, e)
    ensures var d := Step(c, e); forall i :: 0 <= i < |d.ops| ==> Linked(d, i)
  {
    var d := Step(c, e);
    forall i | 0 <= i < |d.ops|
      ensures Linked(d, i)
    {
      if i < |c.ops| {
        assert Linked(c, i);
      }
    }
  }

  lemma StepKeepsStarts(c: Chains, e: Event)
    requires Inv(c) && Enabled(c, e)
    ensures var d := Step(c, e);
            forall i :: 0 <= i < |d.ops| && d.ops[i].phase != Waiting && d.ops[i].prior.Some? ==>
              d.ops[i].prior.value < i && TailResolved(d, d.ops[i].prior.value)
  {
    var d := Step(c, e);
    forall i | 0 <= i < |d.ops| && d.ops[i].phase != Waiting && d.ops[i].prior.Some?
      ensures d.ops[i].prior.value < i && TailResolved(d, d.ops[i].prior.value)
    {
      assert Linked(c, i);
      TailStaysResolved(c, d, d.ops[i].prior.value);
    }
  }

  /** An operation that has not settled can change its phase: its key has a tail. */
  lemma PhaseKeepsTails(c: Chains, i: nat, phase: Phase)
    requires TailsMatch(c) && i < |c.ops| && c.ops[i].phase != Done
    ensures TailsMatch(InPhase(c, i, phase))
  {
    var d := InPhase(c, i, phase);
    assert c.ops[i].key in c.tails;
    forall key | key in d.tails
      ensures IsTail(d, key, d.tails[key])
    {
      assert IsTail(c, key, c.tails[key]);
    }
    forall key | key !in d.tails
      ensures AllDone(d, key, |d.ops|)
    {
      assert AllDone(c, key, |c.ops|);
    }
  }

  lemma ForgettingKeepsTails(c: Chains, i: nat)
    requires TailsMatch(c) && i < |c.ops| && AllDone(c, c.ops[i].key, i + 1)
    ensures TailsMatch(Forgotten(c, i))
  {
    var d := Forgotten(c, i);
    var key := c.ops[i].key;
    if key in c.tails && c.tails[key] == i {
      assert IsTail(c, key, i);
      assert AllDone(d, key, |d.ops|);
    }
  }

  lemma ArrivalKeepsTails(c: Chains, key: Key)
    requires TailsMatch(c)
    ensures TailsMatch(Arrived(c, key))
  {
    var d := Arrived(c, key);
    forall k | k in d.tails
      ensures IsTail(d, k, d.tails[k])
    {
      assert k == key || IsTail(c, k, c.tails[k]);
    }
    forall k | k !in d.tails
      ensures AllDone(d, k, |d.ops|)
    {
      assert AllDone(c, k, |c.ops|);
    }
  }

  lemma StepKeepsTails(c: Chains, e: Event)
    requires Inv(c) && Enabled(c, e)
    ensures TailsMatch(Step(c, e))
  {
    match e
    case Arrive(key) => ArrivalKeepsTails(c, key);
    case Start(i) => PhaseKeepsTails(c, i, Running);
    case Finish(i) => PhaseKeepsTails(c, i, Done);
    case Forget(i) =>
      ResolvedTailSettlesAll(c, i);
      ForgettingKeepsTails(c, i);
    case FinishAndForget(i) =>
      PhaseKeepsTails(c, i, Done);
      EarlierAreDone(c, i);
      ForgettingKeepsTails(InPhase(c, i, Done), i);
  }

  lemma EarlierAreDone(c: Chains, i: nat)
    requires Inv(c) && i < |c.ops| && c.ops[i].phase == Running
    ensures AllDone(InPhase(c, i, Done), c.ops[i].key, i + 1)
  {
    assert Linked(c, i);
    if c.ops[i].prior.Some? {
      ResolvedTailSettlesAll(c, c.ops[i].prior.value);
    }
  }

  lemma StepKeepsInv(c: Chains, e: Event)
    requires Inv(c) && Enabled(c, e)
    ensures Inv(Step(c, e))
  {
    StepKeepsLinks(c, e);
    StepKeepsStarts(c, e);
    StepKeepsTails(c, e);
  }

  lemma {:induction false} RunKeepsInv(from: Chains, events: seq<Event>, to: Chains)
    requires Inv(from) && Reaches(from, events, to)
    ensures Inv(to)
    decreases events
  {
    if events != [] {
      StepKeepsInv(from, events[0]);
      RunKeepsInv(Step(from, events[0]), events[1..], to);
    }
  }

  /** FIFO: when an operation has started, every earlier operation of its key has settled. */
  lemma EarlierHaveSettled(c: Chains, i: nat, j: nat)
    requires Inv(c) && i < j < |c.ops| && c.ops[i].key == c.ops[j].key && c.ops[j].phase != Waiting
    ensures c.ops[i].phase == Done
  {
    assert Linked(c, j);
    if c.ops[j].prior.Some? {
      ResolvedTailSettlesAll(c, c.ops[j].prior.value);
    }
  }

  /** In every reachable state, whatever operations failed: at most one operation per key is running, operations
      of a key start in order of arrival, and a key that is missing from the map has nothing left running or
      queued, so a newcomer that finds no entry bypasses nobody. */
  lemma ChainIsAFifoLock(events: seq<Event>, c: Chains)
    requires Reaches(IDLE, events, c)
    ensures forall i, j | 0 <= i < j < |c.ops| && c.ops[i].key == c.ops[j].key ::
              c.ops[j].phase != Waiting ==> c.ops[i].phase == Done
    ensures forall i, j | 0 <= i < j < |c.ops| && c.ops[i].key == c.ops[j].key ::
              !(c.ops[i].phase == Running && c.ops[j].phase == Running)
    ensures forall key :: key !in c.tails ==> AllDone(c, key, |c.ops|)
  {
    RunKeepsInv(IDLE, events, c);
    forall i, j | 0 <= i < j < |c.ops| && c.ops[i].key == c.ops[j].key && c.ops[j].phase != Waiting
      ensures c.ops[i].phase == Done
    {
      EarlierHaveSettled(c, i, j);
    }
  }

  /** Nothing is stuck: the first unsettled operation of a key is running or may start. */
  lemma FirstUnsettledCanProceed(events: seq<Event>, c: Chains, i: nat)
    requires Reaches(IDLE, events, c)
    requires i < |c.ops| && c.ops[i].phase != Done && AllDone(c, c.ops[i].key, i)
    ensures c.ops[i].phase == Running || MayStart(c, i)
  {
    RunKeepsInv(IDLE, events, c);
    FirstUnsettledMayStart(c, i);
  }

  lemma FirstUnsettledMayStart(c: Chains, i: nat)
    requires Inv(c) && i < |c.ops| && AllDone(c, c.ops[i].key, i)
    ensures c.ops[i].phase == Waiting ==> MayStart(c, i)
  {
    assert Linked(c, i);
    if c.ops[i].phase == Waiting && c.ops[i].prior.Some? {
      SettledPrefixResolves(c, c.ops[i].prior.value);
    }
  }

  lemma {:induction false} SettledPrefixResolves(c: Chains, i: nat)
    requires (forall k :: 0 <= k < |c.ops| ==> Linked(c, k)) && i < |c.ops| && AllDone(c, c.ops[i].key, i + 1)
    ensures TailResolved(c, i)
    decreases i
  {
    assert Linked(c, i);
    if c.ops[i].prior.Some? {
      SettledPrefixResolves(c, c.ops[i].prior.value);
    }
  }

  // ---------------------------------------------------------------- the queue that the chains amount to

  /** The operations of the key among the first `n` that are in the phase, in order of arrival. */
  function Listed(c: Chains, key: Key, phase: Phase, n: nat): seq<nat>
    requires n <= |c.ops|
  {
    if n == 0 then []
    else Listed(c, key, phase, n - 1) + if c.ops[n - 1].key == key && c.ops[n - 1].phase == phase then [n - 1] else []
  }

  /** A lock with an explicit queue, as the other models use it. */
  datatype Lock = Lock(running: seq<nat>, waiting: seq<nat>)

  function LockOf(c: Chains, key: Key): Lock {
    Lock(Listed(c, key, Running, |c.ops|), Listed(c, key, Waiting, |c.ops|))
  }

  ghost predicate Increasing(s: seq<nat>) {
    forall i, j :: 0 <= i < j < |s| ==> s[i] < s[j]
  }

  lemma IncreasingAppend(s: seq<nat>, x: nat)
    requires Increasing(s) && forall y :: y in s ==> y < x
    ensures Increasing(s + [x])
  {
    assert forall i :: 0 <= i < |s| ==> s[i] in s;
  }

  lemma {:induction false} ListedMembers(c: Chains, key: Key, phase: Phase, n: nat)
    requires n <= |c.ops|
    ensures Increasing(Listed(c, key, phase, n))
    ensures forall i :: i in Listed(c, key, phase, n) <==> 0 <= i < n && c.ops[i].key == key && c.ops[i].phase == phase
  {
    if n > 0 {
      ListedMembers(c, key, phase, n - 1);
      IncreasingAppend(Listed(c, key, phase, n - 1), n - 1);
    }
  }

  lemma HasMember(s: seq<nat>)
    ensures s != [] ==> exists i :: i in s
  {
    if s != [] {
      assert s[0] in s;
    }
  }

  lemma {:induction false} IncreasingUnique(a: seq<nat>, b: seq<nat>)
    requires Increasing(a) && Increasing(b) && forall i :: i in a <==> i in b
    ensures a == b
    decreases |a|
  {
    if a == [] {
      HasMember(b);
    } else {
      assert a[|a| - 1] in b;
      assert b[|b| - 1] in a;
      var x := a[|a| - 1];
      assert b[|b| - 1] == x;
      var front, other := a[..|a| - 1], b[..|b| - 1];
      assert a == front + [x] && b == other + [x];
      forall i
        ensures i in front <==> i in other
      {
        assert i in a <==> i in front || i == x;
        assert i in b <==> i in other || i == x;
      }
      IncreasingUnique(front, other);
    }
  }

  /** Two lists of the same members in order of arrival are equal. */
  lemma ListedIs(c: Chains, key: Key, phase: Phase, expected: seq<nat>)
    requires Increasing(expected)
    requires forall i :: i in expected <==> 0 <= i < |c.ops| && c.ops[i].key == key && c.ops[i].phase == phase
    ensures Listed(c, key, phase, |c.ops|) == expected
  {
    ListedMembers(c, key, phase, |c.ops|);
    IncreasingUnique(Listed(c, key, phase, |c.ops|), expected);
  }

  /** When an operation may start, everything earlier of its key has settled and nothing of its key runs. */
  lemma StartsAlone(c: Chains, i: nat, j: nat)
    requires Inv(c) && MayStart(c, i) && j < |c.ops| && c.ops[j].key == c.ops[i].key
    ensures c.ops[j].phase != Running && (j < i ==> c.ops[j].phase == Done)
  {
    if j < i {
      assert Linked(c, i);
      if c.ops[i].prior.Some? {
        ResolvedTailSettlesAll(c, c.ops[i].prior.value);
      }
    } else if i < j && c.ops[j].phase == Running {
      EarlierHaveSettled(c, i, j);
    }
  }

  /** What may start is the first one waiting. */
  lemma FirstWaiting(c: Chains, i: nat, waiting: seq<nat>)
    requires i < |c.ops| && c.ops[i].phase == Waiting && waiting == Listed(c, c.ops[i].key, Waiting, |c.ops|)
    requires forall j :: 0 <= j < i && c.ops[j].key == c.ops[i].key ==> c.ops[j].phase == Done
    ensures waiting != [] && waiting[0] == i && Increasing(waiting)
  {
    ListedMembers(c, c.ops[i].key, Waiting, |c.ops|);
    assert i in waiting;
    assert waiting[0] in waiting;
  }

  /** At most one operation of a key runs. */
  lemma OneRuns(c: Chains, i: nat)
    requires Inv(c) && i < |c.ops| && c.ops[i].phase == Running
    ensures LockOf(c, c.ops[i].key).running == [i]
  {
    forall j | 0 <= j < |c.ops| && c.ops[j].key == c.ops[i].key && c.ops[j].phase == Running
      ensures j == i
    {
      if j < i {
        EarlierHaveSettled(c, j, i);
      } else if i < j {
        EarlierHaveSettled(c, i, j);
      }
    }
    ListedIs(c, c.ops[i].key, Running, [i]);
  }

  /** How an explicit queue moves: an arrival joins at the end, the first one waiting starts when nothing runs, and what
      runs leaves.  Dropping a map entry is invisible. */
  ghost predicate QueueMoves(c: Chains, e: Event, key: Key)
    requires Enabled(c, e)
  {
    var l, m := LockOf(c, key), LockOf(Step(c, e), key);
    match e
    case Arrive(k) => m == if k == key then l.(waiting := l.waiting + [|c.ops|]) else l
    case Start(i) =>
      if c.ops[i].key == key then
        l.running == [] && l.waiting != [] && l.waiting[0] == i && m == Lock([i], l.waiting[1..])
      else m == l
    case Finish(i) => if c.ops[i].key == key then l.running == [i] && m == l.(running := []) else m == l
    case Forget(_) => m == l
    case FinishAndForget(i) => if c.ops[i].key == key then l.running == [i] && m == l.(running := []) else m == l
  }

  lemma PhaseListed(c: Chains, i: nat, to: Phase, key: Key)
    requires i < |c.ops| && c.ops[i].key != key
    ensures LockOf(InPhase(c, i, to), key) == LockOf(c, key)
  {
    var d := InPhase(c, i, to);
    ListedMembers(c, key, Running, |c.ops|);
    ListedMembers(c, key, Waiting, |c.ops|);
    ListedIs(d, key, Running, Listed(c, key, Running, |c.ops|));
    ListedIs(d, key, Waiting, Listed(c, key, Waiting, |c.ops|));
  }

  lemma StartMovesQueue(c: Chains, i: nat)
    requires Inv(c) && MayStart(c, i)
    ensures QueueMoves(c, Start(i), c.ops[i].key)
  {
    var key := c.ops[i].key;
    var waiting := Listed(c, key, Waiting, |c.ops|);
    forall j | 0 <= j < |c.ops| && c.ops[j].key == key
      ensures c.ops[j].phase != Running && (j < i ==> c.ops[j].phase == Done)
    {
      StartsAlone(c, i, j);
    }
    FirstWaiting(c, i, waiting);
    ListedIs(c, key, Running, []);
    StartedLists(c, i, waiting);
  }

  lemma TailMembers(s: seq<nat>)
    requires s != [] && Increasing(s)
    ensures Increasing(s[1..]) && forall j :: j in s[1..] <==> j in s && j != s[0]
  {
    assert s == [s[0]] + s[1..];
    assert forall k :: 0 <= k < |s| - 1 ==> s[1..][k] == s[k + 1];
  }

  lemma StartedLists(c: Chains, i: nat, waiting: seq<nat>)
    requires i < |c.ops| && waiting == Listed(c, c.ops[i].key, Waiting, |c.ops|)
    requires forall j :: 0 <= j < |c.ops| && c.ops[j].key == c.ops[i].key ==> c.ops[j].phase != Running
    requires waiting != [] && waiting[0] == i && Increasing(waiting)
    ensures LockOf(InPhase(c, i, Running), c.ops[i].key) == Lock([i], waiting[1..])
  {
    var d, key := InPhase(c, i, Running), c.ops[i].key;
    ListedMembers(c, key, Waiting, |c.ops|);
    TailMembers(waiting);
    ListedIs(d, key, Waiting, waiting[1..]);
    ListedIs(d, key, Running, [i]);
  }

  lemma FinishMovesQueue(c: Chains, i: nat, key: Key)
    requires Inv(c) && i < |c.ops| && c.ops[i].phase == Running && c.ops[i].key == key
    ensures LockOf(c, key).running == [i] && LockOf(InPhase(c, i, Done), key) == LockOf(c, key).(running := [])
  {
    var d := InPhase(c, i, Done);
    OneRuns(c, i);
    ListedMembers(c, key, Running, |c.ops|);
    ListedMembers(c, key, Waiting, |c.ops|);
    ListedIs(d, key, Waiting, Listed(c, key, Waiting, |c.ops|));
    ListedIs(d, key, Running, []);
  }

  lemma ArrivalMovesQueue(c: Chains, k: Key, key: Key)
    ensures QueueMoves(c, Arrive(k), key)
  {
    var d := Arrived(c, k);
    ListedMembers(c, key, Running, |c.ops|);
    ListedMembers(c, key, Waiting, |c.ops|);
    ListedIs(d, key, Running, Listed(c, key, Running, |c.ops|));
    if k == key {
      IncreasingAppend(Listed(c, key, Waiting, |c.ops|), |c.ops|);
      ListedIs(d, key, Waiting, Listed(c, key, Waiting, |c.ops|) + [|c.ops|]);
    } else {
      ListedIs(d, key, Waiting, Listed(c, key, Waiting, |c.ops|));
    }
  }

  lemma ForgettingKeepsQueue(c: Chains, i: nat, key: Key)
    requires i < |c.ops|
    ensures LockOf(Forgotten(c, i), key) == LockOf(c, key)
  {
    ListedMembers(c, key, Running, |c.ops|);
    ListedMembers(c, key, Waiting, |c.ops|);
    ListedIs(Forgotten(c, i), key, Running, Listed(c, key, Running, |c.ops|));
    ListedIs(Forgotten(c, i), key, Waiting, Listed(c, key, Waiting, |c.ops|));
  }

  /** The chains of remembered tails simulate, for every key, a lock with an explicit FIFO queue: what the other models
      call a holder and a queue of waiting operations. */
  lemma ChainsSimulateQueue(events: seq<Event>, c: Chains, e: Event, key: Key)
    requires Reaches(IDLE, events, c) && Enabled(c, e)
    ensures |LockOf(c, key).running| <= 1
    ensures QueueMoves(c, e, key)
  {
    RunKeepsInv(IDLE, events, c);
    AtMostOneRuns(c, key);
    StepMovesQueue(c, e, key);
  }

  lemma AtMostOneRuns(c: Chains, key: Key)
    requires Inv(c)
    ensures |LockOf(c, key).running| <= 1
    ensures forall i :: i in LockOf(c, key).running ==> i < |c.ops| && c.ops[i].key == key && c.ops[i].phase == Running
  {
    ListedMembers(c, key, Running, |c.ops|);
    if LockOf(c, key).running != [] {
      assert LockOf(c, key).running[0] in LockOf(c, key).running;
      OneRuns(c, LockOf(c, key).running[0]);
    }
  }

  lemma StepMovesQueue(c: Chains, e: Event, key: Key)
    requires Inv(c) && Enabled(c, e)
    ensures QueueMoves(c, e, key)
  {
    match e
    case Arrive(k) => ArrivalMovesQueue(c, k, key);
    case Start(i) => if c.ops[i].key == key { StartMovesQueue(c, i); } else { PhaseListed(c, i, Running, key); }
    case Finish(i) => if c.ops[i].key == key { FinishMovesQueue(c, i, key); } else { PhaseListed(c, i, Done, key); }
    case Forget(i) => ForgettingKeepsQueue(c, i, key);
    case FinishAndForget(i) =>
      ForgettingKeepsQueue(InPhase(c, i, Done), i, key);
      if c.ops[i].key == key { FinishMovesQueue(c, i, key); } else { PhaseListed(c, i, Done, key); }
  }

  /** The mutex drops entries in the same stretch that settles them, so its map holds exactly the busy keys. */
  lemma {:induction false} MutexMapHoldsBusyKeys(from: Chains, events: seq<Event>, to: Chains)
    requires Inv(from) && Reaches(from, events, to)
    requires forall e :: e in events ==> !e.Finish? && !e.Forget?
    requires forall key :: key in from.tails ==> from.ops[from.tails[key]].phase != Done
    ensures forall key :: key in to.tails <==> !AllDone(to, key, |to.ops|)
    decreases events
  {
    if events == [] {
      assert forall key :: key in to.tails ==> IsTail(to, key, to.tails[key]);
    } else {
      var mid := Step(from, events[0]);
      StepKeepsInv(from, events[0]);
      assert events[0] in events;
      forall key | key in mid.tails
        ensures mid.ops[mid.tails[key]].phase != Done
      {
        assert IsTail(mid, key, mid.tails[key]);
      }
      MutexMapHoldsBusyKeys(mid, events[1..], to);
    }
  }

  // ---------------------------------------------------------------- the class

  /** `tails` is the map of the source; `ops` stands for the promises it creates. */
  class KeyedMutex {
    var tails: map<Key, nat>
    var ops: seq<Op>

    ghost function Model(): Chains
      reads this
    {
      Chains(ops, tails)
    }

    constructor ()
      ensures Model() == IDLE
    {
      tails, ops := map[], [];
    }

    /** Up to the first await of `runExclusive`. */
    method Enter(key: Key) returns (ticket: nat)
      modifies this
      ensures ticket == |old(ops)|
      ensures Model() == Arrived(old(Model()), key)
    {
      var prior := if key in tails then Some(tails[key]) else None;
      ticket := |ops|;
      ops := ops + [Op(key, prior, Waiting)];
      tails := tails[key := ticket];
    }

    /** The finally block of `runExclusive`. */
    method Leave(ticket: nat)
      requires ticket < |ops| && ops[ticket].phase == Running
      modifies this
      ensures Model() == Step(old(Model()), FinishAndForget(ticket))
    {
      ops := ops[ticket := ops[ticket].(phase := Done)];
      var key := ops[ticket].key;
      if key in tails && tails[key] == ticket {
        tails := tails - {key};
      }
    }
  }
}
