/** The lock of `SessionLifecycle` is the promise chain of KeyedMutex (apps/server/src/session-manager.ts): both run
    together here, and only the chain decides which operation may start.  The lifecycle's holder and waiting operations
    are then what the chain's remembered tails amount to. */
module LifecycleLocks {
  import opened Collections
  import L = SessionLifecycle
  import P = PromiseChains

  /** Operation `i` of the chain is `asked[i]`, on the tab that is its key. */
  datatype Locked = Locked(w: L.World, c: P.Chains, asked: seq<L.Operation>)

  const START := Locked(L.INITIAL, P.IDLE, [])

  datatype Event =
    | Ask(tab: L.Tab, op: L.Operation)
    | Begin(i: nat)
    | Other(le: L.Event)

  predicate TakesTurn(e: L.Event) {
    e.OnTab? && (e.e.Request? || e.e.Acquire?)
  }

  predicate Enabled(s: Locked, e: Event) {
    match e
    case Ask(t, op) => L.Enabled(s.w, L.OnTab(t, L.Request(op)))
    case Begin(i) => P.MayStart(s.c, i)
    case Other(le) => L.Enabled(s.w, le) && !TakesTurn(le)
  }

  /** The operation that has just given the lock back settles, in the `finally` block of the mutex. */
  function Left(c: P.Chains, before: L.World, after: L.World, e: L.Event): P.Chains {
    if e.OnTab? && L.At(before, e.tab).holder.Some? && L.At(after, e.tab).holder.None? then
      var running := P.LockOf(c, e.tab).running;
      if running != [] && P.Enabled(c, P.FinishAndForget(running[0])) then P.Step(c, P.FinishAndForget(running[0]))
      else c
    else c
  }

  function Step(s: Locked, e: Event): Locked
    requires Enabled(s, e)
  {
    match e
    case Ask(t, op) => Locked(L.Step(s.w, L.OnTab(t, L.Request(op))), P.Arrived(s.c, t), s.asked + [op])
    case Begin(i) =>
      var e := L.OnTab(s.c.ops[i].key, L.Acquire);
      Locked(if L.Enabled(s.w, e) then L.Step(s.w, e) else s.w, P.InPhase(s.c, i, P.Running), s.asked)
    case Other(le) => Locked(L.Step(s.w, le), Left(s.c, s.w, L.Step(s.w, le), le), s.asked)
  }

  ghost predicate Reaches(from: Locked, events: seq<Event>, to: Locked)
    decreases events
  {
    if events == [] then from == to
    else Enabled(from, events[0]) && Reaches(Step(from, events[0]), events[1..], to)
  }

  // ---------------------------------------------------------------- the two locks agree

  ghost predicate SameQueue(numbers: seq<nat>, asked: seq<L.Operation>, waiting: seq<L.Operation>) {
    && |numbers| == |waiting|
    && forall k :: 0 <= k < |numbers| ==> numbers[k] < |asked| && asked[numbers[k]] == waiting[k]
  }

  ghost predicate SameLock(l: P.Lock, asked: seq<L.Operation>, tab: L.TabState) {
    && |l.running| == (if tab.holder.Some? then 1 else 0)
    && (tab.holder.Some? ==> l.running[0] < |asked| && asked[l.running[0]] == tab.holder.value.op)
    && SameQueue(l.waiting, asked, tab.waiting)
  }

  ghost predicate Agree(s: Locked, t: L.Tab) {
    SameLock(P.LockOf(s.c, t), s.asked, L.At(s.w, t))
  }

  ghost predicate Inv(s: Locked) {
    && P.Inv(s.c) && |s.asked| == |s.c.ops|
    && forall t {:trigger Agree(s, t)} :: Agree(s, t)
  }

  /** Nothing but a request and an acquisition touches the queue, and what holds the lock can only give it back. */
  lemma OthersKeepLock(w: L.World, e: L.Event, t: L.Tab)
    requires L.Enabled(w, e) && !TakesTurn(e)
    ensures var tab, v := L.At(w, t), L.At(L.Step(w, e), t);
            && v.waiting == tab.waiting
            && (v.holder.Some? ==> tab.holder.Some? && v.holder.value.op == tab.holder.value.op)
            && (!(e.OnTab? && e.tab == t) ==> v.holder == tab.holder)
  {
    if e.OnTab? && e.tab == t && e.e.Proceed? {
      ResumeKeepsQueue(L.LocalAt(w, t), e.e.answer);
    }
  }

  ghost predicate KeepsQueue(l: L.Local, v: L.Local) {
    && v.tab.waiting == l.tab.waiting
    && (v.tab.holder.Some? ==> l.tab.holder.Some? && v.tab.holder.value.op == l.tab.holder.value.op)
  }

  lemma ResumeKeepsQueue(l: L.Local, answer: L.Answer)
    requires l.tab.holder.Some?
    ensures KeepsQueue(l, L.Resume(l, answer))
  {
    TerminateKeepsQueue(l, l.tab.holder.value.phase, answer);
    RestartKeepsQueue(l, l.tab.holder.value.phase, answer);
    AttachKeepsQueue(l, l.tab.holder.value.phase, answer);
  }

  lemma TerminateKeepsQueue(l: L.Local, phase: L.Phase, answer: L.Answer)
    ensures KeepsQueue(l, L.TerminateBody(l)) && KeepsQueue(l, L.ResumeTerminate(l, phase, answer))
    ensures KeepsQueue(l, L.ResumeCloseTab(l, phase, answer))
  {
  }

  lemma RestartKeepsQueue(l: L.Local, phase: L.Phase, answer: L.Answer)
    ensures KeepsQueue(l, L.ResumeRestart(l, phase, answer)) && KeepsQueue(l, L.ResumeRestartBridge(l, phase))
  {
  }

  lemma AttachKeepsQueue(l: L.Local, phase: L.Phase, answer: L.Answer)
    ensures KeepsQueue(l, L.ResumeAttach(l, phase, answer)) && KeepsQueue(l, L.ResumeRecreate(l, phase, answer))
  {
  }

  lemma LockGrows(l: P.Lock, asked: seq<L.Operation>, tab: L.TabState, op: L.Operation)
    requires SameLock(l, asked, tab)
    ensures SameLock(l, asked + [op], tab)
    ensures SameLock(l.(waiting := l.waiting + [|asked|]), asked + [op], tab.(waiting := tab.waiting + [op]))
  {
  }

  lemma AskKeepsInv(s: Locked, t: L.Tab, op: L.Operation)
    requires Inv(s) && Enabled(s, Ask(t, op))
    ensures Inv(Step(s, Ask(t, op)))
  {
    P.StepKeepsInv(s.c, P.Arrive(t));
    forall u
      ensures Agree(Step(s, Ask(t, op)), u)
    {
      assert Agree(s, u);
      P.StepMovesQueue(s.c, P.Arrive(t), u);
      LockGrows(P.LockOf(s.c, u), s.asked, L.At(s.w, u), op);
    }
  }

  /** What the chain lets start is what the lifecycle's lock would give itself to. */
  lemma StartIsAcquire(s: Locked, i: nat)
    requires Inv(s) && P.MayStart(s.c, i)
    ensures var t := s.c.ops[i].key;
            L.Enabled(s.w, L.OnTab(t, L.Acquire)) && s.asked[i] == L.At(s.w, t).waiting[0]
  {
    assert Agree(s, s.c.ops[i].key);
    P.StepMovesQueue(s.c, P.Start(i), s.c.ops[i].key);
  }

  lemma LockStarts(l: P.Lock, asked: seq<L.Operation>, tab: L.TabState, i: nat, started: L.TabState)
    requires SameLock(l, asked, tab) && l.waiting != [] && l.waiting[0] == i && l.running == []
    requires started.holder == Some(L.Running(tab.waiting[0], L.Entered)) && started.waiting == tab.waiting[1..]
    ensures SameLock(P.Lock([i], l.waiting[1..]), asked, started)
  {
  }

  lemma BeginAgrees(s: Locked, i: nat, u: L.Tab)
    requires Inv(s) && P.MayStart(s.c, i)
    ensures Agree(Step(s, Begin(i)), u)
  {
    var t := s.c.ops[i].key;
    var v := Step(s, Begin(i));
    StartIsAcquire(s, i);
    assert Agree(s, u);
    P.StepMovesQueue(s.c, P.Start(i), u);
    if u == t {
      LockStarts(P.LockOf(s.c, t), s.asked, L.At(s.w, t), i, L.At(v.w, t));
    }
  }

  lemma BeginKeepsInv(s: Locked, i: nat)
    requires Inv(s) && Enabled(s, Begin(i))
    ensures Inv(Step(s, Begin(i)))
  {
    P.StepKeepsInv(s.c, P.Start(i));
    forall u
      ensures Agree(Step(s, Begin(i)), u)
    {
      BeginAgrees(s, i, u);
    }
  }

  lemma OtherKeepsInv(s: Locked, e: L.Event)
    requires Inv(s) && Enabled(s, Other(e))
    ensures Inv(Step(s, Other(e)))
  {
    var v := Step(s, Other(e));
    if e.OnTab? {
      assert Agree(s, e.tab);
      P.AtMostOneRuns(s.c, e.tab);
      if L.At(s.w, e.tab).holder.Some? && L.At(v.w, e.tab).holder.None? {
        var i := P.LockOf(s.c, e.tab).running[0];
        assert i in P.LockOf(s.c, e.tab).running;
        P.StepKeepsInv(s.c, P.FinishAndForget(i));
      }
    }
    forall u
      ensures Agree(v, u)
    {
      OtherKeepsAgreement(s, e, u);
    }
  }

  lemma OtherKeepsAgreement(s: Locked, e: L.Event, u: L.Tab)
    requires Inv(s) && Enabled(s, Other(e))
    ensures Agree(Step(s, Other(e)), u)
  {
    assert Agree(s, u);
    OthersKeepLock(s.w, e, u);
    if e.OnTab? {
      OthersKeepLock(s.w, e, e.tab);
      assert Agree(s, e.tab);
      P.AtMostOneRuns(s.c, e.tab);
      if L.At(s.w, e.tab).holder.Some? && L.At(L.Step(s.w, e), e.tab).holder.None? {
        var i := P.LockOf(s.c, e.tab).running[0];
        assert i in P.LockOf(s.c, e.tab).running;
        P.StepMovesQueue(s.c, P.FinishAndForget(i), u);
      }
    }
  }

  lemma {:induction false} RunKeepsInv(from: Locked, events: seq<Event>, to: Locked)
    requires Inv(from) && Reaches(from, events, to)
    ensures Inv(to)
    decreases events
  {
    if events != [] {
      match events[0] {
        case Ask(t, op) => AskKeepsInv(from, t, op);
        case Begin(i) => BeginKeepsInv(from, i);
        case Other(e) => OtherKeepsInv(from, e);
      }
      RunKeepsInv(Step(from, events[0]), events[1..], to);
    }
  }

  lemma StartIsFine()
    ensures Inv(START)
  {
  }

  /** In every run: the chain lets an operation start if and only if its tab's lock is free in the lifecycle and the
      operation is the first one waiting for it there. */
  lemma LockIsTheChain(events: seq<Event>, s: Locked, i: nat)
    requires Reaches(START, events, s) && i < |s.c.ops|
    ensures |s.asked| == |s.c.ops|
    ensures var t := s.c.ops[i].key;
            P.MayStart(s.c, i)
            <==> && L.Enabled(s.w, L.OnTab(t, L.Acquire))
                 && P.LockOf(s.c, t).waiting != [] && P.LockOf(s.c, t).waiting[0] == i
    ensures P.MayStart(s.c, i) ==> s.asked[i] == L.At(s.w, s.c.ops[i].key).waiting[0]
  {
    StartIsFine();
    RunKeepsInv(START, events, s);
    StartsIff(s, i);
  }

  lemma StartsIff(s: Locked, i: nat)
    requires Inv(s) && i < |s.c.ops|
    ensures var t := s.c.ops[i].key;
            P.MayStart(s.c, i)
            <==> && L.Enabled(s.w, L.OnTab(t, L.Acquire))
                 && P.LockOf(s.c, t).waiting != [] && P.LockOf(s.c, t).waiting[0] == i
    ensures P.MayStart(s.c, i) ==> s.asked[i] == L.At(s.w, s.c.ops[i].key).waiting[0]
  {
    var t := s.c.ops[i].key;
    assert Agree(s, t);
    if P.MayStart(s.c, i) {
      StartIsAcquire(s, i);
      P.StepMovesQueue(s.c, P.Start(i), t);
    } else if L.Enabled(s.w, L.OnTab(t, L.Acquire)) && P.LockOf(s.c, t).waiting[0] == i {
      FirstMayStart(s.c, i);
    }
  }

  lemma FirstMayStart(c: P.Chains, i: nat)
    requires P.Inv(c) && i < |c.ops|
    requires P.LockOf(c, c.ops[i].key).running == []
    requires P.LockOf(c, c.ops[i].key).waiting != [] && P.LockOf(c, c.ops[i].key).waiting[0] == i
    ensures P.MayStart(c, i)
  {
    var key := c.ops[i].key;
    P.ListedMembers(c, key, P.Running, |c.ops|);
    P.ListedMembers(c, key, P.Waiting, |c.ops|);
    assert i in P.LockOf(c, key).waiting;
    forall j | 0 <= j < i && c.ops[j].key == key
      ensures c.ops[j].phase == P.Done
    {
      assert j !in P.LockOf(c, key).waiting && j !in P.LockOf(c, key).running;
    }
    P.FirstUnsettledMayStart(c, i);
  }
}
