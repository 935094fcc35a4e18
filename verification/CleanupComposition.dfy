/** The cleanup protocol and the tab lifecycle run together.  What the protocol sees as "bridged" is ownership in the
    bridge registry; what the lifecycle awaits of the store is a job in the store's queue, and what it remembers as a
    tab's desired state is what the document says; and `terminateIfStale` reads and decides while it holds its tab's
    lock. */
module CleanupComposition {
  import opened Collections
  import C = CleanupProtocol
  import D = TabDocuments
  import L = SessionLifecycle

  /** `confirming` tells which attempt the operation that holds a tab's lock is confirming. */
  datatype Joint = Joint(cleanup: C.System, lifecycle: L.World, confirming: map<L.Tab, C.Attempt>)

  datatype Event =
    | Cleanup(ce: C.Event)                                           // of tracker, store, sockets and sweeps
    | Lifecycle(le: L.Event)                                         // of operations, registry and shutdown
    | Screen(tab: L.Tab, attempt: C.Attempt)                         // the confirming read begins
    | Confirm(tab: L.Tab, running: Option<bool>)                     // and ends

  // ---------------------------------------------------------------- what one side does to the other

  /** The tab whose lifecycle asks for the mutation. */
  function About(m: D.Mutation): Option<L.Tab> {
    match m
    case SetDesiredState(t, _) => Some(t)
    case Remove(t) => Some(t)
    case _ => None
  }

  /** The mutation that an operation has just asked for. */
  function Wanted(w: L.World, t: L.Tab): Option<D.Mutation> {
    var holder := L.At(w, t).holder;
    if holder.None? then None
    else match holder.value.phase
      case Storing(target) => Some(D.SetDesiredState(t, target))
      case Removing => Some(D.Remove(t))
      case _ => None
  }

  /** The protocol's view after a step of the lifecycle that led to `w`: at most one tab has changed hands, and at most
      one mutation has been asked for. */
  function Seen(s: C.System, w: L.World, e: L.Event, max: nat): C.System {
    match e
    case OnTab(t, te) =>
      var bridges := C.Step(s, C.SetBridge(t, L.At(w, t).owner.Some?), max);
      if te.Proceed? && Wanted(w, t).Some? && About(Wanted(w, t).value).Some? then
        C.Step(bridges, C.Submit(Wanted(w, t).value), max)
      else bridges
    case DropOwner(t) => C.Step(s, C.SetBridge(t, false), max)
    case _ => s
  }

  /** The tab's operation hears what has become of its mutation. */
  function Told(w: L.World, m: D.Mutation, ok: bool): L.World {
    if About(m).Some? && L.Enabled(w, L.OnTab(About(m).value, L.StoreSettles(ok))) then
      L.Step(w, L.OnTab(About(m).value, L.StoreSettles(ok)))
    else w
  }

  /** A tab exists as soon as the document that has it is in place. */
  function Appeared(w: L.World, m: D.Mutation): L.World {
    match m
    case Create(t, _, _) => if L.Enabled(w, L.OnTab(t, L.AddTab)) then L.Step(w, L.OnTab(t, L.AddTab)) else w
    case EnsureInitialTab(t, _) => if L.Enabled(w, L.OnTab(t, L.AddTab)) then L.Step(w, L.OnTab(t, L.AddTab)) else w
    case _ => w
  }

  /** The lifecycle's view after a step of the protocol. */
  function Echo(w: L.World, s: C.System, e: C.Event, max: nat): L.World
    requires C.Enabled(s, e)
  {
    match e
    case BeginJob(_) => if C.Step(s, e, max).store.busy.Idle? then Told(w, s.store.queue[0].m, false) else w
    case FailPersist => Told(w, s.store.busy.job.m, false)
    case CommitPersist => Appeared(w, s.store.busy.job.m)
    case FinishSync => Told(w, s.store.busy.job.m, true)
    case _ => w
  }

  // ---------------------------------------------------------------- steps

  /** The operation that holds the tab's lock is a termination of a stale session that has come this far. */
  predicate Holds(w: L.World, t: L.Tab, phase: L.Phase) {
    L.At(w, t).holder == Some(L.Running(L.TerminateIfStale, phase))
  }

  predicate DecidesStaleness(w: L.World, e: L.Event) {
    e.OnTab? && e.e.Proceed? && (Holds(w, e.tab, L.Entered) || Holds(w, e.tab, L.Confirming))
  }

  /** What happens through the store, and not by itself. */
  predicate FromStore(e: L.Event) {
    e.OnTab? && (e.e.StoreSettles? || e.e.AddTab?)
  }

  /** Desired states are set and tabs removed by the lifecycle only. */
  predicate Foreign(e: C.Event) {
    e.SetBridge? || (e.Submit? && About(e.m).Some?)
  }

  function Deciding(t: L.Tab, goesOn: bool): L.Event {
    L.OnTab(t, L.Proceed(if goesOn then L.Yes else L.No))
  }

  predicate Enabled(j: Joint, e: Event) {
    match e
    case Cleanup(ce) => C.Enabled(j.cleanup, ce) && !Foreign(ce) && !ce.StartConfirm? && !ce.EndConfirm?
    case Lifecycle(le) => L.Enabled(j.lifecycle, le) && !FromStore(le) && !DecidesStaleness(j.lifecycle, le)
    case Screen(t, a) =>
      && Holds(j.lifecycle, t, L.Entered)
      && C.Enabled(j.cleanup, C.StartConfirm(a)) && j.cleanup.attempts[a].captured.id == t
    case Confirm(t, running) =>
      && t in j.confirming && Holds(j.lifecycle, t, L.Confirming)
      && C.Enabled(j.cleanup, C.EndConfirm(j.confirming[t], running))
  }

  /** The operation goes on exactly if its attempt does. */
  function Decided(j: Joint, t: L.Tab, a: C.Attempt, ce: C.Event, max: nat): Joint
    requires C.Enabled(j.cleanup, ce) && a in C.Step(j.cleanup, ce, max).attempts
    requires L.Enabled(j.lifecycle, Deciding(t, true))
  {
    var s := C.Step(j.cleanup, ce, max);
    var goesOn := s.attempts[a].Confirming? || s.attempts[a].Terminating?;
    var w := L.Step(j.lifecycle, Deciding(t, goesOn));
    Joint(Seen(s, w, Deciding(t, goesOn), max), w,
          if s.attempts[a].Confirming? then j.confirming[t := a] else j.confirming - {t})
  }

  function Step(j: Joint, e: Event, max: nat): Joint
    requires Enabled(j, e)
  {
    match e
    case Cleanup(ce) =>
      j.(cleanup := C.Step(j.cleanup, ce, max), lifecycle := Echo(j.lifecycle, j.cleanup, ce, max))
    case Lifecycle(le) =>
      var w := L.Step(j.lifecycle, le);
      j.(cleanup := Seen(j.cleanup, w, le, max), lifecycle := w)
    case Screen(t, a) => Decided(j, t, a, C.StartConfirm(a), max)
    case Confirm(t, running) => Decided(j, t, j.confirming[t], C.EndConfirm(j.confirming[t], running), max)
  }

  ghost predicate Reaches(from: Joint, events: seq<Event>, to: Joint, max: nat)
    decreases events
  {
    if events == [] then from == to
    else Enabled(from, events[0]) && Reaches(Step(from, events[0], max), events[1..], to, max)
  }

  // ---------------------------------------------------------------- the two views agree

  ghost predicate Agree(s: C.System, w: L.World) {
    forall t {:trigger L.At(w, t)} :: t in s.bridged <==> L.At(w, t).owner.Some?
  }

  /** An outstanding mutation is the one its tab's operation waits for. */
  ghost predicate AskedFor(w: L.World, m: D.Mutation) {
    About(m).Some? ==> Wanted(w, About(m).value) == Some(m)
  }

  ghost predicate JobsAsked(s: C.System, w: L.World) {
    var jobs := C.Outstanding(s.store);
    && (forall i :: 0 <= i < |jobs| ==> AskedFor(w, jobs[i].m))
    && (forall i, k :: 0 <= i < k < |jobs| && About(jobs[i].m).Some? ==> About(jobs[i].m) != About(jobs[k].m))
  }

  /** The mutation that is in place but not yet reported. */
  function Unreported(store: C.Store): Option<D.Mutation> {
    match store.busy
    case Syncing(job) => Some(job.m)
    case _ => None
  }

  /** The document says what the lifecycle remembers, or what it is about to hear. */
  ghost predicate SaysDesired(s: C.System, w: L.World, t: L.Tab) {
    var m := Unreported(s.store);
    if m.Some? && About(m.value) == Some(t) then
      && D.DesiredIn(s.store.document, t) == D.DesiredAfter(L.At(w, t).desired, m.value, t)
      && L.At(w, t).desired.Some?
    else D.DesiredIn(s.store.document, t) == L.At(w, t).desired
  }

  ghost predicate SaysAll(s: C.System, w: L.World) {
    forall t {:trigger SaysDesired(s, w, t)} :: SaysDesired(s, w, t)
  }

  /** The candidate was built from the document that is still in place. */
  ghost predicate BuiltHere(s: C.System, max: nat) {
    s.store.busy.Persisting? ==>
      exists clock {:trigger C.Timed(s.store.busy.job.m, clock)} ::
        D.Build(s.store.document, C.Timed(s.store.busy.job.m, clock), max) == D.Next(s.store.busy.candidate)
  }

  /** `clocked` tells that the clock has not gone back. */
  ghost predicate Linked(s: C.System, w: L.World, max: nat, clocked: bool) {
    && C.BaseInv(s) && (clocked ==> C.Inv(s)) && L.Inv(w)
    && Agree(s, w) && JobsAsked(s, w) && SaysAll(s, w) && BuiltHere(s, max)
  }

  /** The attempt being confirmed is that of the operation that holds the lock. */
  ghost predicate Confirms(s: C.System, w: L.World, t: L.Tab, a: C.Attempt) {
    && Holds(w, t, L.Confirming)
    && a in s.attempts && s.attempts[a].Confirming? && s.attempts[a].captured.id == t
  }

  ghost predicate AllConfirm(s: C.System, w: L.World, confirming: map<L.Tab, C.Attempt>) {
    forall t {:trigger confirming[t]} :: t in confirming ==> Confirms(s, w, t, confirming[t])
  }

  ghost predicate Inv(j: Joint, max: nat, clocked: bool) {
    Linked(j.cleanup, j.lifecycle, max, clocked) && AllConfirm(j.cleanup, j.lifecycle, j.confirming)
  }

  // ---------------------------------------------------------------- steps of the lifecycle

  lemma OnTabOnly(w: L.World, t: L.Tab, te: L.TabEvent, u: L.Tab)
    requires L.Enabled(w, L.OnTab(t, te)) && u != t
    ensures L.At(L.Step(w, L.OnTab(t, te)), u) == L.At(w, u)
  {
  }

  /** The invariant of a tab, used or not. */
  lemma TabInv(w: L.World, t: L.Tab)
    requires L.Inv(w)
    ensures L.LocalInv(L.LocalAt(w, t), w.shutdown)
  {
    L.UnusedIsFine(w.clock, w.nextBridge, w.shutdown == L.Open, w.shutdown);
  }

  /** Only the store changes desired states; and only its answer ends the wait for it. */
  lemma OwnTabStays(w: L.World, t: L.Tab, te: L.TabEvent)
    requires L.Inv(w) && L.Enabled(w, L.OnTab(t, te)) && !te.StoreSettles? && !te.AddTab?
    ensures var v := L.Step(w, L.OnTab(t, te));
            && L.At(v, t).desired == L.At(w, t).desired
            && (Wanted(w, t).Some? ==> Wanted(v, t) == Wanted(w, t) && !te.Proceed?)
            && (Holds(w, t, L.Confirming) && !te.Proceed? ==> Holds(v, t, L.Confirming))
  {
    TabInv(w, t);
    if te.Proceed? {
      L.ProceedRenews(L.LocalAt(w, t), te.answer);
    }
  }

  lemma OtherEventsStay(w: L.World, e: L.Event, t: L.Tab)
    requires L.Enabled(w, e) && !e.OnTab?
    ensures var v := L.Step(w, e);
            && L.At(v, t).desired == L.At(w, t).desired && L.At(v, t).holder == L.At(w, t).holder
            && (e != L.DropOwner(t) ==> L.At(v, t).owner == L.At(w, t).owner)
  {
  }

  /** What the protocol sees of a step keeps its own invariants. */
  lemma SeenKeepsBase(s: C.System, w: L.World, e: L.Event, max: nat, clocked: bool)
    requires C.BaseInv(s) && (clocked ==> C.Inv(s))
    ensures C.BaseInv(Seen(s, w, e, max)) && (clocked ==> C.Inv(Seen(s, w, e, max)))
  {
    if e.OnTab? {
      ProtocolStep(s, C.SetBridge(e.tab, L.At(w, e.tab).owner.Some?), max, clocked);
      var bridges := C.Step(s, C.SetBridge(e.tab, L.At(w, e.tab).owner.Some?), max);
      if e.e.Proceed? && Wanted(w, e.tab).Some? {
        ProtocolStep(bridges, C.Submit(Wanted(w, e.tab).value), max, clocked);
      }
    } else if e.DropOwner? {
      ProtocolStep(s, C.SetBridge(e.tab, false), max, clocked);
    }
  }

  lemma ProtocolStep(s: C.System, e: C.Event, max: nat, clocked: bool)
    requires C.BaseInv(s) && (clocked ==> C.Inv(s) && C.Forward(s, e)) && C.Enabled(s, e)
    ensures C.BaseInv(C.Step(s, e, max)) && (clocked ==> C.Inv(C.Step(s, e, max)))
  {
    C.StepKeepsBase(s, e, max);
    if clocked {
      C.StepKeepsInv(s, e, max);
    }
  }

  /** Of the store the lifecycle changes the queue only, and that by at most one mutation. */
  lemma SeenStore(s: C.System, w: L.World, e: L.Event, max: nat)
    ensures var v := Seen(s, w, e, max);
            && v.store.document == s.store.document && v.store.busy == s.store.busy && v.attempts == s.attempts
            && (C.Outstanding(v.store) == C.Outstanding(s.store)
                || (e.OnTab? && e.e.Proceed? && Wanted(w, e.tab).Some?
                    && C.Outstanding(v.store)
                       == C.Outstanding(s.store) + [C.Job(Wanted(w, e.tab).value, C.Other)]))
  {
  }

  lemma WantedIsAbout(w: L.World, t: L.Tab)
    ensures Wanted(w, t).Some? ==> About(Wanted(w, t).value) == Some(t)
  {
  }

  lemma LifecycleKeepsJobs(s: C.System, w: L.World, e: L.Event, max: nat)
    requires L.Inv(w) && JobsAsked(s, w) && L.Enabled(w, e) && !FromStore(e)
    ensures JobsAsked(Seen(s, L.Step(w, e), e, max), L.Step(w, e))
  {
    var v := L.Step(w, e);
    var jobs := C.Outstanding(s.store);
    SeenStore(s, v, e, max);
    forall i | 0 <= i < |jobs|
      ensures AskedFor(v, jobs[i].m)
      ensures e.OnTab? && e.e.Proceed? && Wanted(v, e.tab).Some? ==> About(jobs[i].m) != Some(e.tab)
    {
      assert AskedFor(w, jobs[i].m);
      if About(jobs[i].m).Some? {
        WantedStays(w, e, About(jobs[i].m).value);
      }
    }
    if e.OnTab? {
      WantedIsAbout(v, e.tab);
    }
  }

  lemma WantedStays(w: L.World, e: L.Event, t: L.Tab)
    requires L.Inv(w) && L.Enabled(w, e) && !FromStore(e) && Wanted(w, t).Some?
    ensures Wanted(L.Step(w, e), t) == Wanted(w, t) && e != L.OnTab(t, L.Proceed(L.Yes))
    ensures !(e.OnTab? && e.tab == t && e.e.Proceed?)
  {
    if e.OnTab? && e.tab == t {
      OwnTabStays(w, t, e.e);
    } else if e.OnTab? {
      OnTabOnly(w, e.tab, e.e, t);
    } else {
      OtherEventsStay(w, e, t);
    }
  }

  lemma DesiredStays(w: L.World, e: L.Event, t: L.Tab)
    requires L.Inv(w) && L.Enabled(w, e) && !FromStore(e)
    ensures L.At(L.Step(w, e), t).desired == L.At(w, t).desired
  {
    if e.OnTab? && e.tab == t {
      OwnTabStays(w, t, e.e);
    } else if e.OnTab? {
      OnTabOnly(w, e.tab, e.e, t);
    } else {
      OtherEventsStay(w, e, t);
    }
  }

  lemma SeenBridges(s: C.System, w: L.World, e: L.Event, max: nat)
    requires Agree(s, w) && L.Enabled(w, e)
    ensures Agree(Seen(s, L.Step(w, e), e, max), L.Step(w, e))
  {
    var v := L.Step(w, e);
    forall t
      ensures t in Seen(s, v, e, max).bridged <==> L.At(v, t).owner.Some?
    {
      assert t in s.bridged <==> L.At(w, t).owner.Some?;
      if e.OnTab? && e.tab != t {
        OnTabOnly(w, e.tab, e.e, t);
      } else if !e.OnTab? {
        OtherEventsStay(w, e, t);
      }
    }
  }

  lemma LifecycleKeepsLink(s: C.System, w: L.World, e: L.Event, max: nat, clocked: bool)
    requires Linked(s, w, max, clocked) && L.Enabled(w, e) && !FromStore(e)
    ensures Linked(Seen(s, L.Step(w, e), e, max), L.Step(w, e), max, clocked)
  {
    var v := L.Step(w, e);
    SeenKeepsBase(s, v, e, max, clocked);
    L.StepKeepsInv(w, e);
    SeenBridges(s, w, e, max);
    LifecycleKeepsJobs(s, w, e, max);
    SeenStore(s, v, e, max);
    forall t
      ensures SaysDesired(Seen(s, v, e, max), v, t)
    {
      assert SaysDesired(s, w, t);
      DesiredStays(w, e, t);
    }
  }

  // ---------------------------------------------------------------- steps of the protocol

  lemma ToldFacts(w: L.World, m: D.Mutation, ok: bool)
    requires L.Inv(w) && AskedFor(w, m)
    ensures var v := Told(w, m, ok);
            && L.Inv(v)
            && (forall t: L.Tab {:trigger L.At(v, t)} ::
                  && L.At(v, t).owner == L.At(w, t).owner
                  && (About(m) != Some(t) ==> L.At(v, t) == L.At(w, t))
                  && (About(m) == Some(t) ==>
                        L.At(v, t).desired
                        == if ok && L.At(w, t).desired.Some? then D.DesiredAfter(L.At(w, t).desired, m, t)
                           else L.At(w, t).desired))
            && (forall t {:trigger Holds(v, t, L.Confirming)} :: Holds(w, t, L.Confirming) ==>
                 Holds(v, t, L.Confirming))
  {
    if About(m).Some? {
      var t := About(m).value;
      var e := L.OnTab(t, L.StoreSettles(ok));
      assert L.Enabled(w, e);
      L.StepKeepsInv(w, e);
      forall u | u != t
        ensures L.At(Told(w, m, ok), u) == L.At(w, u)
      {
        OnTabOnly(w, t, L.StoreSettles(ok), u);
      }
    }
  }

  /** The end of the job at the head, however it comes, keeps the link. */
  lemma TellKeepsLink(s: C.System, w: L.World, v: C.System, ok: bool)
    requires L.Inv(w) && Agree(s, w) && JobsAsked(s, w) && SaysAll(s, w)
    requires C.Outstanding(s.store) != [] && C.Outstanding(v.store) == C.Outstanding(s.store)[1..]
    requires v.bridged == s.bridged && v.store.document == s.store.document && v.store.busy.Idle?
    requires ok <==> Unreported(s.store) == Some(C.Outstanding(s.store)[0].m)
    requires Unreported(s.store).Some? ==> ok
    ensures var u := Told(w, C.Outstanding(s.store)[0].m, ok);
            L.Inv(u) && Agree(v, u) && JobsAsked(v, u) && SaysAll(v, u)
            && forall t {:trigger Holds(u, t, L.Confirming)} :: Holds(w, t, L.Confirming) ==> Holds(u, t, L.Confirming)
  {
    var jobs := C.Outstanding(s.store);
    var m := jobs[0].m;
    var u := Told(w, m, ok);
    assert AskedFor(w, m);
    ToldFacts(w, m, ok);
    forall t
      ensures t in v.bridged <==> L.At(u, t).owner.Some?
    {
      assert t in s.bridged <==> L.At(w, t).owner.Some?;
    }
    forall i | 0 <= i < |jobs| - 1
      ensures AskedFor(u, jobs[1..][i].m)
    {
      assert jobs[1..][i] == jobs[i + 1] && AskedFor(w, jobs[i + 1].m);
      if About(jobs[i + 1].m).Some? {
        assert About(m) != About(jobs[i + 1].m);
        assert L.At(u, About(jobs[i + 1].m).value) == L.At(w, About(jobs[i + 1].m).value);
      }
    }
    forall t
      ensures SaysDesired(v, u, t)
    {
      assert SaysDesired(s, w, t);
    }
  }

  lemma AppearedFacts(w: L.World, m: D.Mutation, t: L.Tab)
    requires L.Inv(w) && About(m).None?
    requires m.Create? ==> L.At(w, m.id).desired.None?
    requires m.EnsureInitialTab? ==> L.At(w, m.id).desired.None?
    ensures L.Inv(Appeared(w, m))
    ensures L.At(Appeared(w, m), t) == L.At(w, t).(desired := D.DesiredAfter(L.At(w, t).desired, m, t))
  {
    if m.Create? || m.EnsureInitialTab? {
      L.StepKeepsInv(w, L.OnTab(m.id, L.AddTab));
    }
  }

  /** The rename puts the candidate in place. */
  lemma CommitSays(s: C.System, w: L.World, max: nat, u: L.World, v: C.System)
    requires C.CandidateInv(s) && s.store.busy.Persisting? && BuiltHere(s, max) && SaysAll(s, w)
    requires u == Appeared(w, s.store.busy.job.m) && L.Inv(w)
    requires v.store == s.store.(document := s.store.busy.candidate, busy := C.Syncing(s.store.busy.job))
    ensures L.Inv(u) && SaysAll(v, u)
    ensures forall t {:trigger L.At(u, t)} ::
              L.At(u, t).owner == L.At(w, t).owner && L.At(u, t).holder == L.At(w, t).holder
  {
    var m := s.store.busy.job.m;
    var clock :| D.Build(s.store.document, C.Timed(m, clock), max) == D.Next(s.store.busy.candidate);
    var timed := C.Timed(m, clock);
    if m.Create? || m.EnsureInitialTab? {
      D.BuildSetsDesired(s.store.document, timed, max, m.id);
      assert SaysDesired(s, w, m.id);
    }
    forall t
      ensures SaysDesired(v, u, t)
      ensures L.At(u, t).owner == L.At(w, t).owner && L.At(u, t).holder == L.At(w, t).holder
    {
      assert SaysDesired(s, w, t);
      D.BuildSetsDesired(s.store.document, timed, max, t);
      if About(m).None? {
        AppearedFacts(w, m, t);
      }
    }
    if About(m).None? {
      AppearedFacts(w, m, 0);
    }
  }

  lemma SettleKeepsStore(s: C.System, client: C.Client, ok: bool)
    ensures var v := C.Settle(s, client, ok); v.store == s.store && v.bridged == s.bridged && v.attempts == s.attempts
  {
  }

  lemma EndingKeepsLink(s: C.System, w: L.World, e: C.Event, max: nat)
    requires L.Inv(w) && Agree(s, w) && JobsAsked(s, w) && SaysAll(s, w) && C.Enabled(s, e)
    requires e.FailPersist? || e.FinishSync? || (e.BeginJob? && C.Step(s, e, max).store.busy.Idle?)
    ensures var v, u := C.Step(s, e, max), Echo(w, s, e, max);
            L.Inv(u) && Agree(v, u) && JobsAsked(v, u) && SaysAll(v, u) && v.attempts == s.attempts && BuiltHere(v, max)
            && forall t {:trigger Holds(u, t, L.Confirming)} :: Holds(w, t, L.Confirming) ==> Holds(u, t, L.Confirming)
  {
    var v := C.Step(s, e, max);
    var jobs := C.Outstanding(s.store);
    if e.BeginJob? {
      var rest := s.(store := s.store.(queue := s.store.queue[1..]));
      SettleKeepsStore(rest, s.store.queue[0].client, true);
      SettleKeepsStore(rest, s.store.queue[0].client, false);
    } else {
      SettleKeepsStore(s.(store := s.store.(busy := C.Idle)), s.store.busy.job.client, e.FinishSync?);
    }
    assert C.Outstanding(v.store) == jobs[1..];
    TellKeepsLink(s, w, v, e.FinishSync?);
  }

  lemma CommitKeepsLink(s: C.System, w: L.World, max: nat)
    requires C.CandidateInv(s) && L.Inv(w) && Agree(s, w) && JobsAsked(s, w) && SaysAll(s, w) && BuiltHere(s, max)
    requires s.store.busy.Persisting?
    ensures var v, u := C.Step(s, C.CommitPersist, max), Echo(w, s, C.CommitPersist, max);
            L.Inv(u) && Agree(v, u) && JobsAsked(v, u) && SaysAll(v, u) && v.attempts == s.attempts && BuiltHere(v, max)
            && forall t {:trigger Holds(u, t, L.Confirming)} :: Holds(w, t, L.Confirming) ==> Holds(u, t, L.Confirming)
  {
    var v, u := C.Step(s, C.CommitPersist, max), Echo(w, s, C.CommitPersist, max);
    CommitSays(s, w, max, u, v);
    assert C.Outstanding(v.store) == C.Outstanding(s.store);
    forall t
      ensures t in v.bridged <==> L.At(u, t).owner.Some?
    {
      assert t in s.bridged <==> L.At(w, t).owner.Some?;
    }
    SameHoldersAsked(s, w, v, u);
  }

  lemma SameHoldersAsked(s: C.System, w: L.World, v: C.System, u: L.World)
    requires JobsAsked(s, w) && C.Outstanding(v.store) == C.Outstanding(s.store)
    requires forall t {:trigger L.At(u, t)} :: L.At(u, t).holder == L.At(w, t).holder
    ensures JobsAsked(v, u)
  {
    var jobs := C.Outstanding(s.store);
    forall i | 0 <= i < |jobs|
      ensures AskedFor(u, jobs[i].m)
    {
      assert AskedFor(w, jobs[i].m);
    }
  }

  /** The other steps of the protocol leave the document alone and queue nothing the lifecycle asks for. */
  lemma QueueingKeepsLink(s: C.System, w: L.World, e: C.Event, max: nat)
    requires Agree(s, w) && JobsAsked(s, w) && SaysAll(s, w) && BuiltHere(s, max) && C.Enabled(s, e) && !Foreign(e)
    requires !e.FailPersist? && !e.FinishSync? && !e.CommitPersist?
    requires e.BeginJob? ==> !C.Step(s, e, max).store.busy.Idle?
    ensures var v := C.Step(s, e, max);
            Echo(w, s, e, max) == w && Agree(v, w) && JobsAsked(v, w) && SaysAll(v, w) && BuiltHere(v, max)
  {
    var v := C.Step(s, e, max);
    var more := QueuedBy(s, e);
    var jobs := C.Outstanding(s.store);
    var all := jobs + more;
    assert C.Outstanding(v.store) == all;
    if e.BeginJob? {
      assert D.Build(v.store.document, C.Timed(v.store.busy.job.m, s.tracking.clock), max)
             == D.Next(v.store.busy.candidate);
    }
    forall t
      ensures SaysDesired(v, w, t)
    {
      assert SaysDesired(s, w, t);
    }
    forall i | 0 <= i < |all|
      ensures AskedFor(w, all[i].m)
    {
      if i < |jobs| {
        assert AskedFor(w, jobs[i].m);
      }
    }
  }

  function QueuedBy(s: C.System, e: C.Event): (r: seq<C.Job>)
    requires C.Enabled(s, e)
    ensures !Foreign(e) ==> forall i :: 0 <= i < |r| ==> About(r[i].m).None?
  {
    match e
    case Track(te) => C.Handed(s.tracking.t, C.A.Step(s.tracking, te).t, te)
    case Submit(m) => [C.Job(m, C.Other)]
    case _ => []
  }

  lemma CleanupKeepsLink(s: C.System, w: L.World, e: C.Event, max: nat, clocked: bool)
    requires Linked(s, w, max, clocked) && C.Enabled(s, e) && !Foreign(e) && (clocked ==> C.Forward(s, e))
    ensures Linked(C.Step(s, e, max), Echo(w, s, e, max), max, clocked)
    ensures forall t {:trigger Holds(Echo(w, s, e, max), t, L.Confirming)} ::
              Holds(w, t, L.Confirming) ==> Holds(Echo(w, s, e, max), t, L.Confirming)
  {
    ProtocolStep(s, e, max, clocked);
    if e.CommitPersist? {
      CommitKeepsLink(s, w, max);
    } else if e.FailPersist? || e.FinishSync? || (e.BeginJob? && C.Step(s, e, max).store.busy.Idle?) {
      EndingKeepsLink(s, w, e, max);
    } else {
      QueueingKeepsLink(s, w, e, max);
    }
  }

  // ---------------------------------------------------------------- steps of both

  lemma AttemptsStay(s: C.System, e: C.Event, max: nat, a: C.Attempt)
    requires C.Enabled(s, e) && a in s.attempts && s.attempts[a].Confirming?
    requires e.EndConfirm? ==> e.attempt != a
    ensures a in C.Step(s, e, max).attempts && C.Step(s, e, max).attempts[a] == s.attempts[a]
  {
  }

  lemma CleanupKeepsInv(j: Joint, e: Event, max: nat, clocked: bool)
    requires Inv(j, max, clocked) && Enabled(j, e) && e.Cleanup? && (clocked ==> C.Forward(j.cleanup, e.ce))
    ensures Inv(Step(j, e, max), max, clocked)
  {
    CleanupKeepsLink(j.cleanup, j.lifecycle, e.ce, max, clocked);
    var v := Step(j, e, max);
    forall t | t in v.confirming
      ensures Confirms(v.cleanup, v.lifecycle, t, v.confirming[t])
    {
      assert Confirms(j.cleanup, j.lifecycle, t, j.confirming[t]);
      assert Holds(v.lifecycle, t, L.Confirming);
      AttemptsStay(j.cleanup, e.ce, max, j.confirming[t]);
    }
  }

  /** A tab that is being confirmed goes on being confirmed, unless it is its own turn. */
  lemma HoldingStays(w: L.World, e: L.Event, t: L.Tab)
    requires L.Inv(w) && L.Enabled(w, e) && !FromStore(e) && Holds(w, t, L.Confirming)
    requires !(e.OnTab? && e.tab == t && e.e.Proceed?)
    ensures Holds(L.Step(w, e), t, L.Confirming)
  {
    if e.OnTab? && e.tab == t {
      OwnTabStays(w, t, e.e);
    } else if e.OnTab? {
      OnTabOnly(w, e.tab, e.e, t);
    } else {
      OtherEventsStay(w, e, t);
    }
  }

  lemma LifecycleKeepsInv(j: Joint, e: Event, max: nat, clocked: bool)
    requires Inv(j, max, clocked) && Enabled(j, e) && e.Lifecycle?
    ensures Inv(Step(j, e, max), max, clocked)
  {
    LifecycleKeepsLink(j.cleanup, j.lifecycle, e.le, max, clocked);
    var v := Step(j, e, max);
    SeenStore(j.cleanup, v.lifecycle, e.le, max);
    forall t | t in v.confirming
      ensures Confirms(v.cleanup, v.lifecycle, t, v.confirming[t])
    {
      assert Confirms(j.cleanup, j.lifecycle, t, j.confirming[t]);
      HoldingStays(j.lifecycle, e.le, t);
    }
  }

  /** An operation that goes on from its start to its confirming read holds the lock while that is made. */
  lemma GoesOnToConfirm(w: L.World, t: L.Tab)
    requires Holds(w, t, L.Entered)
    ensures Holds(L.Step(w, Deciding(t, true)), t, L.Confirming)
  {
  }

  lemma StartedIsConfirming(s: C.System, a: C.Attempt, max: nat)
    requires C.Enabled(s, C.StartConfirm(a))
    ensures var p := C.Step(s, C.StartConfirm(a), max).attempts[a];
            !p.Terminating? && (p.Confirming? ==> p.captured == s.attempts[a].captured)
  {
    C.StartNeverTerminates(s, s.attempts[a].captured, s.attempts[a].at);
  }

  /** It is this attempt's turn to be decided on, by the operation that holds the lock of its tab. */
  ghost predicate Decides(j: Joint, t: L.Tab, a: C.Attempt, ce: C.Event) {
    && C.Enabled(j.cleanup, ce) && a in j.cleanup.attempts
    && ((ce == C.StartConfirm(a) && j.cleanup.attempts[a].Swept? && Holds(j.lifecycle, t, L.Entered))
        || (ce.EndConfirm? && ce.attempt == a && j.cleanup.attempts[a].Confirming?
            && Holds(j.lifecycle, t, L.Confirming)))
    && j.cleanup.attempts[a].captured.id == t
  }

  lemma DecisionKeepsLink(j: Joint, t: L.Tab, a: C.Attempt, ce: C.Event, max: nat, clocked: bool)
    requires Linked(j.cleanup, j.lifecycle, max, clocked) && Decides(j, t, a, ce)
    ensures Linked(Decided(j, t, a, ce, max).cleanup, Decided(j, t, a, ce, max).lifecycle, max, clocked)
  {
    var s := C.Step(j.cleanup, ce, max);
    CleanupKeepsLink(j.cleanup, j.lifecycle, ce, max, clocked);
    LifecycleKeepsLink(
      s, j.lifecycle, Deciding(t, s.attempts[a].Confirming? || s.attempts[a].Terminating?), max, clocked);
  }

  /** The operation that has just begun its confirming read is confirming this attempt. */
  lemma ScreenedConfirms(j: Joint, t: L.Tab, a: C.Attempt, max: nat)
    requires Decides(j, t, a, C.StartConfirm(a))
    ensures var v := Decided(j, t, a, C.StartConfirm(a), max);
            t in v.confirming ==> v.confirming[t] == a && Confirms(v.cleanup, v.lifecycle, t, a)
  {
    DecidedAttempts(j, t, a, C.StartConfirm(a), max);
    StartedIsConfirming(j.cleanup, a, max);
    GoesOnToConfirm(j.lifecycle, t);
  }

  lemma DecisionKeepsInv(j: Joint, t: L.Tab, a: C.Attempt, ce: C.Event, max: nat, clocked: bool)
    requires Inv(j, max, clocked) && Decides(j, t, a, ce)
    ensures Inv(Decided(j, t, a, ce, max), max, clocked)
  {
    var v := Decided(j, t, a, ce, max);
    DecisionKeepsLink(j, t, a, ce, max, clocked);
    if ce.StartConfirm? {
      ScreenedConfirms(j, t, a, max);
    }
    forall u | u in v.confirming
      ensures Confirms(v.cleanup, v.lifecycle, u, v.confirming[u])
    {
      if u != t {
        OthersConfirm(j, t, a, ce, max, u);
      }
    }
  }

  lemma OthersConfirm(j: Joint, t: L.Tab, a: C.Attempt, ce: C.Event, max: nat, u: L.Tab)
    requires L.Inv(j.lifecycle) && C.Enabled(j.cleanup, ce) && (ce.StartConfirm? || ce.EndConfirm?) && ce.attempt == a
    requires L.Enabled(j.lifecycle, Deciding(t, true)) && j.cleanup.attempts[a].captured.id == t
    requires u != t && u in j.confirming && Confirms(j.cleanup, j.lifecycle, u, j.confirming[u])
    ensures var v := Decided(j, t, a, ce, max);
            u in v.confirming && v.confirming[u] == j.confirming[u]
            && Confirms(v.cleanup, v.lifecycle, u, v.confirming[u])
  {
    var s := C.Step(j.cleanup, ce, max);
    var goesOn := s.attempts[a].Confirming? || s.attempts[a].Terminating?;
    DecidedAttempts(j, t, a, ce, max);
    HoldingStays(j.lifecycle, Deciding(t, goesOn), u);
    AttemptsStay(j.cleanup, ce, max, j.confirming[u]);
  }

  predicate Forward(j: Joint, e: Event) {
    e.Cleanup? ==> C.Forward(j.cleanup, e.ce)
  }

  /** Every step of either side keeps the invariants of both and the agreement of their views. */
  lemma StepKeepsInv(j: Joint, e: Event, max: nat, clocked: bool)
    requires Inv(j, max, clocked) && Enabled(j, e) && (clocked ==> Forward(j, e))
    ensures Inv(Step(j, e, max), max, clocked)
  {
    match e
    case Cleanup(_) => CleanupKeepsInv(j, e, max, clocked);
    case Lifecycle(_) => LifecycleKeepsInv(j, e, max, clocked);
    case Screen(t, a) => DecisionKeepsInv(j, t, a, C.StartConfirm(a), max, clocked);
    case Confirm(t, running) =>
      assert Confirms(j.cleanup, j.lifecycle, t, j.confirming[t]);
      DecisionKeepsInv(j, t, j.confirming[t], C.EndConfirm(j.confirming[t], running), max, clocked);
  }

  // ---------------------------------------------------------------- runs

  ghost predicate ForwardRun(from: Joint, events: seq<Event>, to: Joint, max: nat)
    requires Reaches(from, events, to, max)
    decreases events
  {
    events != [] ==> Forward(from, events[0]) && ForwardRun(Step(from, events[0], max), events[1..], to, max)
  }

  lemma {:induction false} RunKeepsInv(from: Joint, events: seq<Event>, to: Joint, max: nat, clocked: bool)
    requires Inv(from, max, clocked) && Reaches(from, events, to, max)
    requires clocked ==> ForwardRun(from, events, to, max)
    ensures Inv(to, max, clocked)
    decreases events
  {
    if events != [] {
      StepKeepsInv(from, events[0], max, clocked);
      RunKeepsInv(Step(from, events[0], max), events[1..], to, max, clocked);
    }
  }

  /** The server starts with the tabs of its document, and nothing else. */
  function Start(document: D.Document): Joint {
    Joint(C.Start(document),
          L.INITIAL.(tabs := map t | t in D.Ids(document.tabs) :: L.UNUSED.(desired := D.DesiredIn(document, t))),
          map[])
  }

  lemma StartIsFine(document: D.Document, max: nat)
    requires D.Wellformed(document)
    ensures Inv(Start(document), max, true)
  {
    var j := Start(document);
    C.StartIsFine(document);
    StartedTabs(document);
    forall t
      ensures SaysDesired(j.cleanup, j.lifecycle, t)
    {
      assert D.DesiredIn(document, t) == L.At(j.lifecycle, t).desired;
    }
  }

  lemma StartedTabs(document: D.Document)
    ensures var w := Start(document).lifecycle;
            && L.Inv(w)
            && forall t {:trigger L.At(w, t)} :: L.At(w, t) == L.UNUSED.(desired := D.DesiredIn(document, t))
  {
    var w := Start(document).lifecycle;
    forall t
      ensures L.At(w, t) == L.UNUSED.(desired := D.DesiredIn(document, t))
    {
      if D.Has(document, t) {
        var i :| 0 <= i < |document.tabs| && document.tabs[i].id == t;
        assert D.Ids(document.tabs)[i] == t;
      }
    }
  }

  // ---------------------------------------------------------------- what a termination finds and leaves

  /** The step sends this attempt on to `terminateLocked`. */
  ghost predicate Terminates(j: Joint, e: Event, a: C.Attempt, max: nat)
    requires Enabled(j, e)
  {
    && a in Step(j, e, max).cleanup.attempts && Step(j, e, max).cleanup.attempts[a].Terminating?
    && !(a in j.cleanup.attempts && j.cleanup.attempts[a].Terminating?)
  }

  lemma OnlyConfirmTerminates(j: Joint, e: Event, a: C.Attempt, max: nat)
    requires Enabled(j, e) && Terminates(j, e, a, max)
    ensures e.Confirm? && j.confirming[e.tab] == a
    ensures C.ConfirmEnded(j.cleanup, j.cleanup.attempts[a], e.running).Terminating?
  {
    match e
    case Cleanup(ce) => C.OnlyConfirmationTerminates(j.cleanup, ce, a, max);
    case Lifecycle(le) => SeenStore(j.cleanup, L.Step(j.lifecycle, le), le, max);
    case Screen(t, b) =>
      DecidedAttempts(j, t, b, C.StartConfirm(b), max);
      C.OnlyConfirmationTerminates(j.cleanup, C.StartConfirm(b), a, max);
    case Confirm(t, running) =>
      DecidedAttempts(j, t, j.confirming[t], C.EndConfirm(j.confirming[t], running), max);
      C.OnlyConfirmationTerminates(j.cleanup, C.EndConfirm(j.confirming[t], running), a, max);
  }

  lemma DecidedAttempts(j: Joint, t: L.Tab, a: C.Attempt, ce: C.Event, max: nat)
    requires C.Enabled(j.cleanup, ce) && a in C.Step(j.cleanup, ce, max).attempts
    requires L.Enabled(j.lifecycle, Deciding(t, true))
    ensures Decided(j, t, a, ce, max).cleanup.attempts == C.Step(j.cleanup, ce, max).attempts
  {
    var s := C.Step(j.cleanup, ce, max);
    var goesOn := s.attempts[a].Confirming? || s.attempts[a].Terminating?;
    SeenStore(s, L.Step(j.lifecycle, Deciding(t, goesOn)), Deciding(t, goesOn), max);
  }

  /** Over all runs of both: a stale session is terminated only by the operation that holds its tab's lock and has made
      the confirming read itself; at that moment the tab has been quiet since the sweep's read, and has no unclosed PTY
      bridge at all, registered or not. */
  lemma TerminationFindsNoBridge(document: D.Document, events: seq<Event>, j: Joint, e: Event, a: C.Attempt, max: nat)
    requires D.Wellformed(document) && Reaches(Start(document), events, j, max) && Enabled(j, e)
    requires Terminates(j, e, a, max)
    ensures e.Confirm? && j.confirming[e.tab] == a && Confirms(j.cleanup, j.lifecycle, e.tab, a)
    ensures C.Quiet(j.cleanup, j.cleanup.attempts[a].captured, j.cleanup.attempts[a].at)
    ensures ForwardRun(Start(document), events, j, max) ==>
              C.SafeToTerminate(j.cleanup, j.cleanup.attempts[a].captured, j.cleanup.attempts[a].at)
    ensures L.At(j.lifecycle, e.tab).live == {} && L.At(j.lifecycle, e.tab).desired == Some(D.Active)
  {
    StartIsFine(document, max);
    RunKeepsInv(Start(document), events, j, max, ForwardRun(Start(document), events, j, max));
    OnlyConfirmTerminates(j, e, a, max);
    assert Confirms(j.cleanup, j.lifecycle, e.tab, j.confirming[e.tab]);
    C.ConfirmationIsQuiet(j.cleanup, a, e.running);
    if ForwardRun(Start(document), events, j, max) {
      C.ConfirmationIsSafe(j.cleanup, a, e.running);
    }
    assert e.tab !in j.cleanup.bridged;
    QuietIsUnbridged(j, e.tab, max);
  }

  lemma QuietIsUnbridged(j: Joint, t: L.Tab, max: nat)
    requires Inv(j, max, false) && Holds(j.lifecycle, t, L.Confirming) && t !in j.cleanup.bridged
    requires D.Has(j.cleanup.store.document, t)
    requires D.RecordOf(j.cleanup.store.document.tabs, t).desired == D.Active
    ensures L.At(j.lifecycle, t).live == {} && L.At(j.lifecycle, t).desired == Some(D.Active)
  {
    assert L.At(j.lifecycle, t).owner.None?;
    TabInv(j.lifecycle, t);
    L.UnownedIsUnbridged(L.LocalAt(j.lifecycle, t), j.lifecycle.shutdown);
    NothingOutstanding(j.cleanup, j.lifecycle, t);
  }

  lemma NothingOutstanding(s: C.System, w: L.World, t: L.Tab)
    requires JobsAsked(s, w) && SaysAll(s, w) && Wanted(w, t).None?
    ensures D.DesiredIn(s.store.document, t) == L.At(w, t).desired
  {
    assert SaysDesired(s, w, t);
    if s.store.busy.Syncing? {
      assert C.Outstanding(s.store)[0] == s.store.busy.job;
      assert AskedFor(w, s.store.busy.job.m);
    }
  }

  /** And when a termination, of a stale session or not, reports success (other than by finding nothing to do), the
      stored document says that the tab is stopped, and the tab has neither an owner nor an unclosed bridge. */
  lemma TerminationIsStored(document: D.Document, events: seq<Event>, j: Joint, t: L.Tab, answer: L.Answer, max: nat)
    requires D.Wellformed(document) && Reaches(Start(document), events, j, max)
    requires Enabled(j, Lifecycle(L.OnTab(t, L.Proceed(answer))))
    requires L.At(j.lifecycle, t).holder.value.op.Terminate? || L.At(j.lifecycle, t).holder.value.op.TerminateIfStale?
    requires L.EndsInSuccess(L.LocalAt(j.lifecycle, t), answer)
    ensures var v := Step(j, Lifecycle(L.OnTab(t, L.Proceed(answer))), max);
            && D.DesiredIn(v.cleanup.store.document, t) == Some(D.Stopped)
            && L.At(v.lifecycle, t).owner.None? && L.At(v.lifecycle, t).live == {}
  {
    StartIsFine(document, max);
    RunKeepsInv(Start(document), events, j, max, false);
    StepKeepsInv(j, Lifecycle(L.OnTab(t, L.Proceed(answer))), max, false);
    var v := Step(j, Lifecycle(L.OnTab(t, L.Proceed(answer))), max);
    TerminatedTab(j.lifecycle, t, answer);
    NothingOutstanding(v.cleanup, v.lifecycle, t);
  }

  lemma TerminatedTab(w: L.World, t: L.Tab, answer: L.Answer)
    requires L.Inv(w) && L.Enabled(w, L.OnTab(t, L.Proceed(answer)))
    requires L.At(w, t).holder.value.op.Terminate? || L.At(w, t).holder.value.op.TerminateIfStale?
    requires L.EndsInSuccess(L.LocalAt(w, t), answer)
    ensures var tab := L.At(L.Step(w, L.OnTab(t, L.Proceed(answer))), t);
            tab.holder.None? && tab.desired == Some(D.Stopped) && tab.owner.None? && tab.live == {}
  {
    TabInv(w, t);
    L.SuccessStopsTheTab(L.LocalAt(w, t), w.shutdown, answer);
  }
}
