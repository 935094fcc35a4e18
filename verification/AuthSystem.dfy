/** The session table of AuthService together with the socket index that observes its revocations. */
module AuthSystem {
  import opened Collections
  import A = AuthSessions
  import X = SocketIndexing

  datatype System = System(table: A.Table, index: X.Index)

  datatype Env = Env(config: A.Config, limits: X.Limits)

  /** `refuses` holds the sockets that stay OPEN through close and terminate during the event. */
  datatype Event =
    | Auth(op: A.Op, refuses: set<X.Socket>)
    | Register(authority: X.Authority, tab: X.Tab, socket: X.Socket, open: bool, first: Option<int>, attached: bool,
               stillOpen: bool, second: Option<int>, refuses: set<X.Socket>)
    | Leave(socket: X.Socket)                                     // the close or error listener
    // One turn of sweepExpired.
    | Check(socket: X.Socket, authority: X.Authority, clock: Option<int>, refuses: set<X.Socket>)
    | Dispose(refuses: set<X.Socket>)

  // ---------------------------------------------------------------- steps

  /** What the index's observer does with the reported ids; a disposed index no longer observes. */
  function Told(ix: X.Index, revoked: seq<A.Id>, refuses: set<X.Socket>): X.Index
    decreases revoked
  {
    if ix.disposed || revoked == [] then ix else Told(X.SessionClosed(ix, revoked[0], refuses), revoked[1..], refuses)
  }

  function Operated(s: System, env: Env, op: A.Op, refuses: set<X.Socket>): System
    requires A.Listed(s.table)
  {
    var r := A.Step(s.table, env.config, op);
    System(r.table, Told(s.index, r.revoked, refuses))
  }

  function Asks(a: X.Authority, clock: Option<int>): A.Op {
    A.IsActive(a.app, a.generation, clock)
  }

  /** The index counts an exception of the authentication source as "not active". */
  predicate Active(s: System, env: Env, a: X.Authority, clock: Option<int>)
    requires A.Listed(s.table)
  {
    A.Step(s.table, env.config, Asks(a, clock)).answer == A.Yes
  }

  /** What the index finds when it asks for an authority. */
  function LookOf(s: System, env: Env, a: X.Authority, clock: Option<int>): X.Look
    requires A.Listed(s.table)
  {
    if Active(s, env, a, clock) then X.Active
    else X.Inactive(A.Step(s.table, env.config, Asks(a, clock)).revoked != [])
  }

  function AnswersOf(s: System, env: Env, e: Event): X.Answers
    requires A.Listed(s.table) && e.Register?
  {
    X.Answers(e.open, LookOf(s, env, e.authority, e.first), e.attached, e.stillOpen,
              LookOf(s, env, e.authority, e.second))
  }

  /** `registerIfActive`: an authority found inactive may be revoked, and its other sockets closed, on the way. */
  function Registering(s: System, env: Env, e: Event): System
    requires A.Listed(s.table) && e.Register?
  {
    if !e.open || !X.MayTry(s.index, env.limits, e.socket) then s
    else if !Active(s, env, e.authority, e.first) then Operated(s, env, Asks(e.authority, e.first), e.refuses)
    else if !X.HasRoom(s.index, env.limits, e.authority) || !e.attached || !e.stillOpen then s
    else if !Active(s, env, e.authority, e.second) then Operated(s, env, Asks(e.authority, e.second), e.refuses)
    else s.(index := X.Admitted(s.index, e.socket, X.Registration(e.authority, e.tab)))
  }

  function Checked(s: System, env: Env, e: Event): System
    requires A.Listed(s.table) && e.Check?
  {
    var after := Operated(s, env, Asks(e.authority, e.clock), e.refuses);
    if Active(s, env, e.authority, e.clock) then after
    else after.(index := X.Secured(after.index, e.socket, e.refuses))
  }

  function Step(s: System, env: Env, e: Event): System
    requires A.Listed(s.table)
  {
    match e
    case Auth(op, refuses) => Operated(s, env, op, refuses)
    case Register(_, _, _, _, _, _, _, _, _) => Registering(s, env, e)
    case Leave(socket) => s.(index := X.Unregistered(s.index, socket))
    case Check(_, _, _, _) => Checked(s, env, e)
    case Dispose(refuses) => s.(index := X.Disposed(s.index, refuses))
  }

  function Refusers(e: Event): set<X.Socket> {
    if e.Leave? then {} else e.refuses
  }

  // ---------------------------------------------------------------- the invariant

  /** The socket's authority is in the session table under its own generation. */
  ghost predicate Backed(s: System, socket: X.Socket) {
    socket in s.index.bySocket
    && A.Holds(s.table, s.index.bySocket[socket].authority.app, s.index.bySocket[socket].authority.generation)
  }

  /** Every registered socket is backed, except some that refused to leave OPEN. */
  ghost predicate Follows(s: System, stubborn: set<X.Socket>) {
    forall socket {:trigger Backed(s, socket)} :: socket in s.index.bySocket && socket !in stubborn ==>
      Backed(s, socket)
  }

  ghost predicate Inv(env: Env, s: System, stubborn: set<X.Socket>) {
    && A.Valid(s.table, env.config) && X.Valid(s.index, env.limits)
    && Follows(s, stubborn)
    && (s.index.disposed ==> s.index.bySocket.Keys <= stubborn)
  }

  /** The sockets that belong to other sessions or refuse. */
  ghost function Kept(ix: X.Index, revoked: seq<A.Id>, refuses: set<X.Socket>): set<X.Socket> {
    set s | s in ix.bySocket && (ix.bySocket[s].authority.app in revoked ==> s in refuses)
  }

  /** Telling the index of revoked sessions removes exactly their sockets, except those that refuse. */
  lemma {:induction false} ToldRemoves(ix: X.Index, l: X.Limits, revoked: seq<A.Id>, refuses: set<X.Socket>)
    requires X.Valid(ix, l)
    ensures X.Valid(Told(ix, revoked, refuses), l)
    ensures Told(ix, revoked, refuses).disposed == ix.disposed
    ensures forall s :: s in Told(ix, revoked, refuses).bySocket ==>
              s in ix.bySocket && Told(ix, revoked, refuses).bySocket[s] == ix.bySocket[s]
    ensures !ix.disposed ==> Told(ix, revoked, refuses).bySocket.Keys == Kept(ix, revoked, refuses)
    decreases revoked
  {
    if !ix.disposed && revoked != [] {
      X.SessionClosedRemoves(ix, l, revoked[0], refuses);
      ToldRemoves(X.SessionClosed(ix, revoked[0], refuses), l, revoked[1..], refuses);
    }
  }

  lemma OperatedKeepsInv(env: Env, s: System, stubborn: set<X.Socket>, op: A.Op, refuses: set<X.Socket>)
    requires Inv(env, s, stubborn) && refuses <= stubborn
    ensures Inv(env, Operated(s, env, op, refuses), stubborn)
  {
    var r := A.Step(s.table, env.config, op);
    var after := Operated(s, env, op, refuses);
    A.StepIsValid(s.table, env.config, op);
    A.StepMoves(s.table, env.config, op);
    ToldRemoves(s.index, env.limits, r.revoked, refuses);
    forall socket | socket in after.index.bySocket && socket !in stubborn
      ensures Backed(after, socket)
    {
      assert Backed(s, socket);
    }
  }

  /** To the index a registration is what its own code does with the looks' findings. */
  lemma RegisteringIsTheIndexs(env: Env, s: System, e: Event)
    requires A.Valid(s.table, env.config) && e.Register?
    ensures Registering(s, env, e).index
            == X.Registering(s.index, env.limits, e.socket, X.Registration(e.authority, e.tab), AnswersOf(s, env, e),
                             e.refuses).0
  {
    LookRevokesItsOwn(env, s, e.authority, e.first, e.refuses);
    LookRevokesItsOwn(env, s, e.authority, e.second, e.refuses);
  }

  lemma LookRevokesItsOwn(env: Env, s: System, a: X.Authority, clock: Option<int>, refuses: set<X.Socket>)
    requires A.Listed(s.table)
    ensures !s.index.disposed ==>
              Operated(s, env, Asks(a, clock), refuses).index == X.Looked(s.index, a, LookOf(s, env, a, clock), refuses)
  {
    var r := A.Step(s.table, env.config, Asks(a, clock));
    assert r.revoked == [] || r.revoked == [a.app];
    if r.revoked == [a.app] {
      assert r.revoked[1..] == [];
      assert Told(X.SessionClosed(s.index, a.app, refuses), r.revoked[1..], refuses)
             == X.SessionClosed(s.index, a.app, refuses);
    }
  }

  lemma AdmittedFollows(env: Env, s: System, stubborn: set<X.Socket>, socket: X.Socket, r: X.Registration)
    requires Inv(env, s, stubborn) && X.MayTry(s.index, env.limits, socket)
             && X.HasRoom(s.index, env.limits, r.authority)
    requires A.Holds(s.table, r.authority.app, r.authority.generation)
    ensures Inv(env, s.(index := X.Admitted(s.index, socket, r)), stubborn)
  {
    var after := s.(index := X.Admitted(s.index, socket, r));
    X.AdmittedIsValid(s.index, env.limits, socket, r);
    forall other | other in after.index.bySocket && other !in stubborn
      ensures Backed(after, other)
    {
      assert other == socket || Backed(s, other);
    }
  }

  lemma RegisteringKeepsInv(env: Env, s: System, stubborn: set<X.Socket>, e: Event)
    requires Inv(env, s, stubborn) && e.Register? && e.refuses <= stubborn
    ensures Inv(env, Registering(s, env, e), stubborn)
  {
    OperatedKeepsInv(env, s, stubborn, Asks(e.authority, e.first), e.refuses);
    OperatedKeepsInv(env, s, stubborn, Asks(e.authority, e.second), e.refuses);
    if e.open && X.MayTry(s.index, env.limits, e.socket) && X.HasRoom(s.index, env.limits, e.authority)
       && Active(s, env, e.authority, e.second) {
      AdmittedFollows(env, s, stubborn, e.socket, X.Registration(e.authority, e.tab));
    }
  }

  /** Taking sockets away from the index keeps the invariant. */
  lemma FewerSocketsKeepInv(env: Env, s: System, stubborn: set<X.Socket>, ix: X.Index)
    requires Inv(env, s, stubborn) && X.Valid(ix, env.limits)
    requires forall socket :: socket in ix.bySocket ==>
               socket in s.index.bySocket && ix.bySocket[socket] == s.index.bySocket[socket]
    requires ix.disposed ==> ix.bySocket.Keys <= stubborn
    ensures Inv(env, s.(index := ix), stubborn)
  {
    forall socket | socket in ix.bySocket && socket !in stubborn
      ensures Backed(s.(index := ix), socket)
    {
      assert Backed(s, socket);
    }
  }

  lemma CheckedKeepsInv(env: Env, s: System, stubborn: set<X.Socket>, e: Event)
    requires Inv(env, s, stubborn) && e.Check? && e.refuses <= stubborn
    ensures Inv(env, Checked(s, env, e), stubborn)
  {
    var after := Operated(s, env, Asks(e.authority, e.clock), e.refuses);
    OperatedKeepsInv(env, s, stubborn, Asks(e.authority, e.clock), e.refuses);
    X.UnregisteredIsValid(after.index, env.limits, e.socket);
    FewerSocketsKeepInv(env, after, stubborn, X.Secured(after.index, e.socket, e.refuses));
  }

  lemma DisposedKeepsInv(env: Env, s: System, stubborn: set<X.Socket>, refuses: set<X.Socket>)
    requires Inv(env, s, stubborn) && refuses <= stubborn
    ensures Inv(env, s.(index := X.Disposed(s.index, refuses)), stubborn)
  {
    if !s.index.disposed {
      X.DisposedRemoves(s.index, env.limits, refuses);
      FewerSocketsKeepInv(env, s, stubborn, X.Disposed(s.index, refuses));
    }
  }

  /** After every operation of either component both are valid and every registered socket is still backed by the
      session table, except sockets that refused to leave OPEN. */
  lemma StepKeepsInv(env: Env, s: System, stubborn: set<X.Socket>, e: Event)
    requires Inv(env, s, stubborn) && Refusers(e) <= stubborn
    ensures Inv(env, Step(s, env, e), stubborn)
  {
    match e
    case Auth(op, refuses) => OperatedKeepsInv(env, s, stubborn, op, refuses);
    case Register(_, _, _, _, _, _, _, _, _) => RegisteringKeepsInv(env, s, stubborn, e);
    case Leave(socket) =>
      X.UnregisteredIsValid(s.index, env.limits, socket);
      FewerSocketsKeepInv(env, s, stubborn, X.Unregistered(s.index, socket));
    case Check(_, _, _, _) => CheckedKeepsInv(env, s, stubborn, e);
    case Dispose(refuses) => DisposedKeepsInv(env, s, stubborn, refuses);
  }

  // ---------------------------------------------------------------- runs

  ghost predicate Reaches(env: Env, from: System, events: seq<Event>, to: System)
    decreases events
  {
    if events == [] then from == to
    else A.Listed(from.table) && Reaches(env, Step(from, env, events[0]), events[1..], to)
  }

  function AllRefusers(events: seq<Event>): set<X.Socket> {
    if events == [] then {} else Refusers(events[0]) + AllRefusers(events[1..])
  }

  lemma {:induction false} RunKeepsInv(env: Env, from: System, events: seq<Event>, to: System, stubborn: set<X.Socket>)
    requires Inv(env, from, stubborn) && AllRefusers(events) <= stubborn && Reaches(env, from, events, to)
    ensures Inv(env, to, stubborn)
    decreases events
  {
    if events != [] {
      StepKeepsInv(env, from, stubborn, events[0]);
      RunKeepsInv(env, Step(from, env, events[0]), events[1..], to, stubborn);
    }
  }

  const START := System(A.EMPTY, X.EMPTY)

  /** In every reachable state a registered socket that never refused to leave OPEN belongs to a stored session of the
      same generation; and all sockets of one application session share that generation. */
  lemma IndexFollowsRevocation(env: Env, events: seq<Event>, to: System, socket: X.Socket)
    requires A.ValidConfig(env.config) && X.ValidLimits(env.limits)
    requires Reaches(env, START, events, to)
    requires socket in to.index.bySocket && socket !in AllRefusers(events)
    ensures var a := to.index.bySocket[socket].authority;
            && A.Holds(to.table, a.app, a.generation)
            && forall other :: other in to.index.bySocket && to.index.bySocket[other].authority.app == a.app
                               ==> to.index.bySocket[other].authority == a
  {
    A.EmptyIsValid(env.config);
    X.EmptyIsValid(env.limits);
    RunKeepsInv(env, START, events, to, AllRefusers(events));
    assert Backed(to, socket);
    forall other | other in to.index.bySocket
                   && to.index.bySocket[other].authority.app == to.index.bySocket[socket].authority.app
      ensures to.index.bySocket[other].authority == to.index.bySocket[socket].authority
    {
      X.OneGeneration(to.index, env.limits, socket, other);
    }
  }

  // ---------------------------------------------------------------- the periodic sweep

  /** The checks of `sweepExpired` over the captured registrations, with the clock readings they make. */
  function Swept(s: System, env: Env, captured: seq<X.Socket>, capturedFrom: X.Index, clocks: seq<Option<int>>,
                 refuses: set<X.Socket>): System
    requires A.Valid(s.table, env.config) && |clocks| == |captured|
    requires forall socket :: socket in captured ==> socket in capturedFrom.bySocket
    decreases captured
  {
    if captured == [] then s
    else
      var e := Check(captured[0], capturedFrom.bySocket[captured[0]].authority, clocks[0], refuses);
      A.StepIsValid(s.table, env.config, Asks(e.authority, e.clock));
      Swept(Checked(s, env, e), env, captured[1..], capturedFrom, clocks[1..], refuses)
  }

  /** The registered socket's session is stored and was live at the reading. */
  ghost predicate LiveAt(s: System, socket: X.Socket, clock: Option<int>) {
    Backed(s, socket) && clock.Some? && !A.Expired(s.table.byId[s.index.bySocket[socket].authority.app], clock.value)
  }

  /** A check removes sessions and sockets and changes nothing about the others. */
  lemma CheckedOnlyRemoves(env: Env, s: System, e: Event)
    requires A.Valid(s.table, env.config) && X.Valid(s.index, env.limits) && e.Check?
    ensures OnlyLess(s, Checked(s, env, e))
  {
    var r := A.Step(s.table, env.config, Asks(e.authority, e.clock));
    ToldRemoves(s.index, env.limits, r.revoked, e.refuses);
  }

  /** No effect of this check takes the socket from the index: it is not the one whose clock fails, and the check does
      not find its session expired. */
  ghost predicate Passes(s: System, e: Event, x: X.Socket)
    requires e.Check? && Backed(s, x)
  {
    var a := s.index.bySocket[x].authority;
    && (e.socket == x ==> e.clock.Some?)
    && (e.authority == a && e.clock.Some? ==> !A.Expired(s.table.byId[a.app], e.clock.value))
  }

  /** What a check does to a socket: its own, another of the same session, or one of another session. */
  lemma CheckedKeepsIff(env: Env, s: System, stubborn: set<X.Socket>, e: Event, x: X.Socket)
    requires Inv(env, s, stubborn) && e.Check? && e.refuses <= stubborn
    requires Backed(s, x) && x !in stubborn
    requires e.authority.app == s.index.bySocket[x].authority.app || e.socket == x ==>
               e.authority == s.index.bySocket[x].authority
    ensures x in Checked(s, env, e).index.bySocket <==> Passes(s, e, x)
  {
    var r := A.Step(s.table, env.config, Asks(e.authority, e.clock));
    ToldRemoves(s.index, env.limits, r.revoked, e.refuses);
    if e.authority == s.index.bySocket[x].authority && e.clock.Some? {
      A.ReasonIffExpired(s.table.byId[e.authority.app], e.clock.value);
    }
  }

  /** One check of a registered socket keeps it exactly if the clock answers and the session has not expired then. */
  lemma CheckKeepsLiveOnly(env: Env, s: System, stubborn: set<X.Socket>, e: Event)
    requires Inv(env, s, stubborn) && e.Check? && e.refuses <= stubborn
    requires e.socket in s.index.bySocket && e.socket !in stubborn
             && s.index.bySocket[e.socket].authority == e.authority
    ensures Backed(s, e.socket)
    ensures e.socket in Checked(s, env, e).index.bySocket
            <==> e.clock.Some? && !A.Expired(s.table.byId[e.authority.app], e.clock.value)
  {
    assert Backed(s, e.socket);
    CheckedKeepsIff(env, s, stubborn, e, e.socket);
  }

  /** So a clock that fails closes the socket of a session that is stored, unexpired, and stays stored. */
  lemma ClockFailureClosesLiveSocket(env: Env, s: System, stubborn: set<X.Socket>, e: Event, now: int)
    requires Inv(env, s, stubborn) && e.Check? && e.refuses <= stubborn && e.clock.None?
    requires e.socket in s.index.bySocket && e.socket !in stubborn
             && s.index.bySocket[e.socket].authority == e.authority
    requires LiveAt(s, e.socket, Some(now))
    ensures e.socket !in Checked(s, env, e).index.bySocket
    ensures A.Holds(Checked(s, env, e).table, e.authority.app, e.authority.generation)
    ensures Active(Checked(s, env, e), env, e.authority, Some(now))
  {
    CheckKeepsLiveOnly(env, s, stubborn, e);
    A.ClockFailureDoesNotLatch(s.table, env.config, e.authority.app, e.authority.generation, now);
  }

  // ---------------------------------------------------------------- the whole sweep

  /** A sweep takes sessions and sockets away and changes nothing about the others. */
  lemma {:induction false} SweptOnlyRemoves(env: Env, s: System, stubborn: set<X.Socket>, captured: seq<X.Socket>,
                                            capturedFrom: X.Index, clocks: seq<Option<int>>, refuses: set<X.Socket>)
    requires Inv(env, s, stubborn) && refuses <= stubborn && |clocks| == |captured|
    requires forall socket :: socket in captured ==> socket in capturedFrom.bySocket
    ensures Inv(env, Swept(s, env, captured, capturedFrom, clocks, refuses), stubborn)
    ensures OnlyLess(s, Swept(s, env, captured, capturedFrom, clocks, refuses))
    decreases captured
  {
    if captured != [] {
      var e := Turn(captured, capturedFrom, clocks, refuses, 0);
      CheckedKeepsInv(env, s, stubborn, e);
      CheckedOnlyRemoves(env, s, e);
      SweptOnlyRemoves(env, Checked(s, env, e), stubborn, captured[1..], capturedFrom, clocks[1..], refuses);
    }
  }

  ghost predicate OnlyLess(s: System, v: System) {
    && (forall id :: id in v.table.byId ==> id in s.table.byId && v.table.byId[id] == s.table.byId[id])
    && (forall x :: x in v.index.bySocket ==> x in s.index.bySocket && v.index.bySocket[x] == s.index.bySocket[x])
  }

  function Turn(captured: seq<X.Socket>, capturedFrom: X.Index, clocks: seq<Option<int>>, refuses: set<X.Socket>,
                j: nat): (e: Event)
    requires j < |captured| == |clocks| && captured[j] in capturedFrom.bySocket
    ensures e.Check?
  {
    Check(captured[j], capturedFrom.bySocket[captured[j]].authority, clocks[j], refuses)
  }

  /** The check is about the socket or its session only if it has the right authority. */
  ghost predicate Matches(s: System, e: Event, x: X.Socket)
    requires e.Check? && x in s.index.bySocket
  {
    e.authority.app == s.index.bySocket[x].authority.app || e.socket == x ==>
      e.authority == s.index.bySocket[x].authority
  }

  ghost predicate AllMatch(s: System, captured: seq<X.Socket>, capturedFrom: X.Index, clocks: seq<Option<int>>,
                           refuses: set<X.Socket>, x: X.Socket)
    requires x in s.index.bySocket && |clocks| == |captured|
    requires forall socket :: socket in captured ==> socket in capturedFrom.bySocket
  {
    forall j {:trigger captured[j]} :: 0 <= j < |captured| ==>
      Matches(s, Turn(captured, capturedFrom, clocks, refuses, j), x)
  }

  ghost predicate PassesAll(s: System, captured: seq<X.Socket>, capturedFrom: X.Index, clocks: seq<Option<int>>,
                            refuses: set<X.Socket>, x: X.Socket)
    requires Backed(s, x) && |clocks| == |captured|
    requires forall socket :: socket in captured ==> socket in capturedFrom.bySocket
  {
    forall j {:trigger captured[j]} :: 0 <= j < |captured| ==>
      Passes(s, Turn(captured, capturedFrom, clocks, refuses, j), x)
  }

  lemma {:induction false} SweptKeepsIff(env: Env, s: System, stubborn: set<X.Socket>, captured: seq<X.Socket>,
                                         capturedFrom: X.Index, clocks: seq<Option<int>>, refuses: set<X.Socket>,
                                         x: X.Socket)
    requires Inv(env, s, stubborn) && refuses <= stubborn && |clocks| == |captured|
    requires forall socket :: socket in captured ==> socket in capturedFrom.bySocket
    requires Backed(s, x) && x !in stubborn && AllMatch(s, captured, capturedFrom, clocks, refuses, x)
    ensures x in Swept(s, env, captured, capturedFrom, clocks, refuses).index.bySocket
            <==> PassesAll(s, captured, capturedFrom, clocks, refuses, x)
    decreases captured
  {
    if captured != [] {
      var e := Turn(captured, capturedFrom, clocks, refuses, 0);
      var next := Checked(s, env, e);
      assert Matches(s, e, x) by { var _ := captured[0]; }
      CheckedKeepsInv(env, s, stubborn, e);
      CheckedOnlyRemoves(env, s, e);
      CheckedKeepsIff(env, s, stubborn, e, x);
      if x in next.index.bySocket {
        assert Backed(next, x);
        RestAgrees(s, next, captured, capturedFrom, clocks, refuses, x);
        SweptKeepsIff(env, next, stubborn, captured[1..], capturedFrom, clocks[1..], refuses, x);
      } else {
        SweptOnlyRemoves(env, next, stubborn, captured[1..], capturedFrom, clocks[1..], refuses);
        assert !Passes(s, Turn(captured, capturedFrom, clocks, refuses, 0), x);
        assert !PassesAll(s, captured, capturedFrom, clocks, refuses, x) by { var _ := captured[0]; }
      }
    }
  }

  /** What later turns find about a socket that remains is what they would have found at the start. */
  lemma RestAgrees(s: System, next: System, captured: seq<X.Socket>, capturedFrom: X.Index, clocks: seq<Option<int>>,
                   refuses: set<X.Socket>, x: X.Socket)
    requires captured != [] && |clocks| == |captured|
    requires forall socket :: socket in captured ==> socket in capturedFrom.bySocket
    requires Backed(s, x) && Backed(next, x) && OnlyLess(s, next)
    requires AllMatch(s, captured, capturedFrom, clocks, refuses, x)
    requires Passes(s, Turn(captured, capturedFrom, clocks, refuses, 0), x)
    ensures AllMatch(next, captured[1..], capturedFrom, clocks[1..], refuses, x)
    ensures PassesAll(next, captured[1..], capturedFrom, clocks[1..], refuses, x)
            <==> PassesAll(s, captured, capturedFrom, clocks, refuses, x)
  {
    forall j | 0 <= j < |captured| - 1
      ensures Turn(captured[1..], capturedFrom, clocks[1..], refuses, j)
              == Turn(captured, capturedFrom, clocks, refuses, j + 1)
    {
    }
    forall j | 0 <= j < |captured| - 1
      ensures Matches(next, Turn(captured[1..], capturedFrom, clocks[1..], refuses, j), x)
    {
      assert Matches(s, Turn(captured, capturedFrom, clocks, refuses, j + 1), x) by { var _ := captured[j + 1]; }
    }
    if PassesAll(next, captured[1..], capturedFrom, clocks[1..], refuses, x) {
      forall j | 0 <= j < |captured|
        ensures Passes(s, Turn(captured, capturedFrom, clocks, refuses, j), x)
      {
        if j > 0 {
          assert Passes(next, Turn(captured[1..], capturedFrom, clocks[1..], refuses, j - 1), x) by {
            var _ := captured[1..][j - 1];
          }
        }
      }
    }
    if PassesAll(s, captured, capturedFrom, clocks, refuses, x) {
      forall j | 0 <= j < |captured| - 1
        ensures Passes(next, Turn(captured[1..], capturedFrom, clocks[1..], refuses, j), x)
      {
        assert Passes(s, Turn(captured, capturedFrom, clocks, refuses, j + 1), x) by { var _ := captured[j + 1]; }
      }
    }
  }

  /** No turn of the sweep that reads the clock for this authority finds the session expired. */
  ghost predicate NeverFoundExpired(s: System, a: X.Authority, clocks: seq<Option<int>>)
    requires |clocks| == |s.index.order| && a.app in s.table.byId
  {
    forall j :: 0 <= j < |clocks| && clocks[j].Some? && s.index.order[j] in s.index.bySocket
                && s.index.bySocket[s.index.order[j]].authority == a
                ==> !A.Expired(s.table.byId[a.app], clocks[j].value)
  }

  /** The second pass of a sweep keeps a socket exactly if the clock answers at its own turn and at no turn of its
      session finds the session expired; what it keeps is live. */
  lemma SweepKeepsExactly(env: Env, s: System, stubborn: set<X.Socket>, clocks: seq<Option<int>>,
                          refuses: set<X.Socket>, k: nat)
    requires Inv(env, s, stubborn) && refuses <= stubborn && |clocks| == |s.index.order| && k < |s.index.order|
    requires s.index.order[k] !in stubborn
    ensures var x, end := s.index.order[k], Swept(s, env, s.index.order, s.index, clocks, refuses);
            && Backed(s, x)
            && (x in end.index.bySocket
                <==> clocks[k].Some? && NeverFoundExpired(s, s.index.bySocket[x].authority, clocks))
            && (x in end.index.bySocket ==> LiveAt(end, x, clocks[k]))
  {
    var ix, x := s.index, s.index.order[k];
    assert Backed(s, x);
    forall j | 0 <= j < |ix.order|
      ensures Matches(s, Turn(ix.order, ix, clocks, refuses, j), x)
    {
      if ix.bySocket[ix.order[j]].authority.app == ix.bySocket[x].authority.app {
        X.OneGeneration(ix, env.limits, ix.order[j], x);
      }
    }
    SweptKeepsIff(env, s, stubborn, ix.order, ix, clocks, refuses, x);
    SweptOnlyRemoves(env, s, stubborn, ix.order, ix, clocks, refuses);
    PassesAllMeans(env, s, clocks, refuses, k);
    if x in Swept(s, env, ix.order, ix, clocks, refuses).index.bySocket {
      assert Backed(Swept(s, env, ix.order, ix, clocks, refuses), x);
    }
  }

  lemma PassesAllMeans(env: Env, s: System, clocks: seq<Option<int>>, refuses: set<X.Socket>, k: nat)
    requires X.Valid(s.index, env.limits) && |clocks| == |s.index.order| && k < |clocks| && Backed(s, s.index.order[k])
    ensures PassesAll(s, s.index.order, s.index, clocks, refuses, s.index.order[k])
            <==> clocks[k].Some? && NeverFoundExpired(s, s.index.bySocket[s.index.order[k]].authority, clocks)
  {
    var ix, x := s.index, s.index.order[k];
    if PassesAll(s, ix.order, ix, clocks, refuses, x) {
      assert Passes(s, Turn(ix.order, ix, clocks, refuses, k), x);
      forall j | 0 <= j < |clocks| && clocks[j].Some? && ix.bySocket[ix.order[j]].authority == ix.bySocket[x].authority
        ensures !A.Expired(s.table.byId[ix.bySocket[x].authority.app], clocks[j].value)
      {
        assert Passes(s, Turn(ix.order, ix, clocks, refuses, j), x);
      }
    }
    if clocks[k].Some? && NeverFoundExpired(s, ix.bySocket[x].authority, clocks) {
      forall j | 0 <= j < |ix.order|
        ensures Passes(s, Turn(ix.order, ix, clocks, refuses, j), x)
      {
        assert ix.order[j] == x ==> j == k;
      }
    }
  }

  // ---------------------------------------------------------------- with the expiry pass that opens it

  /** `sweepExpired` of the session service: each listed session is checked at a clock reading of its own; the index
      hears of what is revoked, and a clock that fails ends the pass, which the index ignores. */
  function Expelled(s: System, env: Env, ids: seq<A.Id>, clocks: seq<Option<int>>, refuses: set<X.Socket>): System
    requires A.Valid(s.table, env.config) && |ids| == |clocks|
    decreases ids
  {
    if ids == [] || clocks[0].None? then s
    else
      A.StepIsValid(s.table, env.config, A.SweepOne(ids[0], clocks[0]));
      Expelled(Operated(s, env, A.SweepOne(ids[0], clocks[0]), refuses), env, ids[1..], clocks[1..], refuses)
  }

  /** The pass reaches the session before the clock fails, and finds it expired. */
  ghost predicate PassExpels(session: A.Session, ids: seq<A.Id>, clocks: seq<Option<int>>, app: A.Id)
    requires |ids| == |clocks|
  {
    exists j :: 0 <= j < |ids| && ids[j] == app && Reached(clocks, j) && A.Expired(session, clocks[j].value)
  }

  ghost predicate Reached(clocks: seq<Option<int>>, j: nat)
    requires j < |clocks|
  {
    forall i :: 0 <= i <= j ==> clocks[i].Some?
  }

  lemma ExpelOneIff(env: Env, s: System, stubborn: set<X.Socket>, id: A.Id, now: int, refuses: set<X.Socket>,
                    x: X.Socket)
    requires Inv(env, s, stubborn) && refuses <= stubborn && Backed(s, x) && x !in stubborn
    ensures var v := Operated(s, env, A.SweepOne(id, Some(now)), refuses);
            var app := s.index.bySocket[x].authority.app;
            && OnlyLess(s, v)
            && (x in v.index.bySocket <==> !(id == app && A.Expired(s.table.byId[app], now)))
  {
    var r := A.Step(s.table, env.config, A.SweepOne(id, Some(now)));
    ToldRemoves(s.index, env.limits, r.revoked, refuses);
    if id in s.table.byId {
      A.ReasonIffExpired(s.table.byId[id], now);
    }
  }

  lemma PassSplits(session: A.Session, ids: seq<A.Id>, clocks: seq<Option<int>>, app: A.Id)
    requires |ids| == |clocks| > 0 && clocks[0].Some?
    ensures PassExpels(session, ids, clocks, app)
            <==> || (ids[0] == app && A.Expired(session, clocks[0].value))
                 || PassExpels(session, ids[1..], clocks[1..], app)
  {
    if PassExpels(session, ids, clocks, app) {
      var j :| 0 <= j < |ids| && ids[j] == app && Reached(clocks, j) && A.Expired(session, clocks[j].value);
      if j > 0 {
        assert ids[1..][j - 1] == app && Reached(clocks[1..], j - 1);
      }
    }
    if ids[0] == app && A.Expired(session, clocks[0].value) {
      assert Reached(clocks, 0);
    }
    if PassExpels(session, ids[1..], clocks[1..], app) {
      var j :| 0 <= j < |ids| - 1 && ids[1..][j] == app && Reached(clocks[1..], j)
               && A.Expired(session, clocks[1..][j].value);
      forall i | 0 <= i <= j + 1
        ensures clocks[i].Some?
      {
        assert i > 0 ==> clocks[1..][i - 1].Some?;
      }
      assert ids[j + 1] == app && Reached(clocks, j + 1);
    }
  }

  lemma {:induction false} ExpelledKeepsIff(env: Env, s: System, stubborn: set<X.Socket>, ids: seq<A.Id>,
                                            clocks: seq<Option<int>>, refuses: set<X.Socket>, x: X.Socket)
    requires Inv(env, s, stubborn) && refuses <= stubborn && |ids| == |clocks| && Backed(s, x) && x !in stubborn
    ensures var v, app := Expelled(s, env, ids, clocks, refuses), s.index.bySocket[x].authority.app;
            && Inv(env, v, stubborn) && OnlyLess(s, v)
            && (x in v.index.bySocket <==> !PassExpels(s.table.byId[app], ids, clocks, app))
    decreases ids
  {
    if ids != [] && clocks[0].Some? {
      var app := s.index.bySocket[x].authority.app;
      var next := Operated(s, env, A.SweepOne(ids[0], clocks[0]), refuses);
      OperatedKeepsInv(env, s, stubborn, A.SweepOne(ids[0], clocks[0]), refuses);
      ExpelOneIff(env, s, stubborn, ids[0], clocks[0].value, refuses, x);
      PassSplits(s.table.byId[app], ids, clocks, app);
      if x in next.index.bySocket {
        assert Backed(next, x);
        ExpelledKeepsIff(env, next, stubborn, ids[1..], clocks[1..], refuses, x);
      } else {
        ExpelledOnlyRemoves(env, next, stubborn, ids[1..], clocks[1..], refuses);
      }
    } else if ids != [] {
      assert forall j :: 0 <= j < |clocks| ==> !Reached(clocks, j);
    }
  }

  lemma SweepOneOnlyRemoves(env: Env, s: System, id: A.Id, clock: Option<int>, refuses: set<X.Socket>)
    requires A.Valid(s.table, env.config) && X.Valid(s.index, env.limits)
    ensures OnlyLess(s, Operated(s, env, A.SweepOne(id, clock), refuses))
  {
    var r := A.Step(s.table, env.config, A.SweepOne(id, clock));
    ToldRemoves(s.index, env.limits, r.revoked, refuses);
  }

  lemma {:induction false} ExpelledOnlyRemoves(env: Env, s: System, stubborn: set<X.Socket>, ids: seq<A.Id>,
                                               clocks: seq<Option<int>>, refuses: set<X.Socket>)
    requires Inv(env, s, stubborn) && refuses <= stubborn && |ids| == |clocks|
    ensures Inv(env, Expelled(s, env, ids, clocks, refuses), stubborn)
    ensures OnlyLess(s, Expelled(s, env, ids, clocks, refuses))
    decreases ids
  {
    if ids != [] && clocks[0].Some? {
      var op := A.SweepOne(ids[0], clocks[0]);
      SweepOneOnlyRemoves(env, s, ids[0], clocks[0], refuses);
      OperatedKeepsInv(env, s, stubborn, op, refuses);
      ExpelledOnlyRemoves(env, Operated(s, env, op, refuses), stubborn, ids[1..], clocks[1..], refuses);
    }
  }

  /** The second pass keeps the socket: its own check reads the clock, and no check of its session finds it expired. */
  ghost predicate KeptBy(s: System, clocks: seq<Option<int>>, x: X.Socket)
    requires |clocks| == |s.index.order|
  {
    && Backed(s, x)
    && (exists k {:trigger s.index.order[k]} :: 0 <= k < |clocks| && s.index.order[k] == x && clocks[k].Some?)
    && NeverFoundExpired(s, s.index.bySocket[x].authority, clocks)
  }

  /** The whole of the index's `sweepExpired`, under any clock and whether or not the session service completes its own
      pass: a socket stays if and only if that pass does not expel its session and the second pass keeps it. */
  lemma SweepExpiredKeepsExactly(env: Env, s: System, stubborn: set<X.Socket>, ids: seq<A.Id>, expiry: seq<Option<int>>,
                                 clocks: seq<Option<int>>, refuses: set<X.Socket>, x: X.Socket)
    requires Inv(env, s, stubborn) && refuses <= stubborn && |ids| == |expiry|
    requires |clocks| == |Expelled(s, env, ids, expiry, refuses).index.order|
    requires x in s.index.bySocket && x !in stubborn
    ensures var first, app := Expelled(s, env, ids, expiry, refuses), s.index.bySocket[x].authority.app;
            && Backed(s, x) && A.Valid(first.table, env.config) && X.Valid(first.index, env.limits)
            && (x in Swept(first, env, first.index.order, first.index, clocks, refuses).index.bySocket
                <==> !PassExpels(s.table.byId[app], ids, expiry, app) && KeptBy(first, clocks, x))
  {
    var first := Expelled(s, env, ids, expiry, refuses);
    assert Backed(s, x);
    ExpelledKeepsIff(env, s, stubborn, ids, expiry, refuses, x);
    SecondPassKeeps(env, first, stubborn, clocks, refuses, x);
  }

  lemma SecondPassKeeps(env: Env, s: System, stubborn: set<X.Socket>, clocks: seq<Option<int>>, refuses: set<X.Socket>,
                        x: X.Socket)
    requires Inv(env, s, stubborn) && refuses <= stubborn && |clocks| == |s.index.order| && x !in stubborn
    ensures x in Swept(s, env, s.index.order, s.index, clocks, refuses).index.bySocket <==> KeptBy(s, clocks, x)
  {
    if x in s.index.bySocket {
      var k :| 0 <= k < |s.index.order| && s.index.order[k] == x;
      SweepKeepsExactly(env, s, stubborn, clocks, refuses, k);
      assert forall i :: 0 <= i < |s.index.order| && s.index.order[i] == x ==> i == k;
    } else {
      SweptOnlyRemoves(env, s, stubborn, s.index.order, s.index, clocks, refuses);
    }
  }
}
