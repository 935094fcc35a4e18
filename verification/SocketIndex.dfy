/** apps/server/src/websocket-auth-index.ts: which sockets belong to which application session and tab.
    A socket that stays OPEN through close and terminate keeps its registration; `refuses` is the set of such
    sockets. */
module SocketIndexing {
  import opened Collections
  import G = GenerationCaches
  import S = SocketCounts

  type Socket = nat
  type App = nat
  type Tab = nat

  datatype Authority = Authority(app: App, generation: nat)
  datatype Registration = Registration(authority: Authority, tab: Tab)

  /** `order` is the insertion order of `bySocket`; each session lists its sockets in insertion order. */
  datatype Index = Index(
    bySession: map<App, seq<Socket>>, order: seq<Socket>, bySocket: map<Socket, Registration>,
    tabs: S.TabSockets, disposed: bool)

  datatype Limits = Limits(maxSessions: nat, maxSockets: nat)

  const EMPTY := Index(map[], [], map[], S.NO_SOCKETS, false)

  ghost predicate ValidLimits(l: Limits) {
    1 <= l.maxSessions <= 256 && 1 <= l.maxSockets <= 1024
  }

  // ---------------------------------------------------------------- operations

  function SessionSockets(ix: Index, app: App): seq<Socket> {
    if app in ix.bySession then ix.bySession[app] else []
  }

  function WithSession(m: map<App, seq<Socket>>, app: App, sockets: seq<Socket>): map<App, seq<Socket>> {
    if sockets == [] then m - {app} else m[app := sockets]
  }

  function Admitted(ix: Index, socket: Socket, r: Registration): Index {
    ix.(bySession := WithSession(ix.bySession, r.authority.app, SessionSockets(ix, r.authority.app) + [socket]),
        order := ix.order + [socket], bySocket := ix.bySocket[socket := r],
        tabs := S.Registered(ix.tabs, r.tab))
  }

  function Unregistered(ix: Index, socket: Socket): Index {
    if socket !in ix.bySocket then ix
    else
      var r := ix.bySocket[socket];
      ix.(bySession := WithSession(ix.bySession, r.authority.app, Without(SessionSockets(ix, r.authority.app), socket)),
          order := Without(ix.order, socket), bySocket := ix.bySocket - {socket},
          tabs := S.Unregistered(ix.tabs, r.tab))
  }

  /** `closeAuthenticationRequired`. */
  function Secured(ix: Index, socket: Socket, refuses: set<Socket>): Index {
    if socket in refuses then ix else Unregistered(ix, socket)
  }

  function SecuredAll(ix: Index, sockets: seq<Socket>, refuses: set<Socket>): Index
    decreases sockets
  {
    if sockets == [] then ix else SecuredAll(Secured(ix, sockets[0], refuses), sockets[1..], refuses)
  }

  function SessionClosed(ix: Index, app: App, refuses: set<Socket>): Index {
    SecuredAll(ix, SessionSockets(ix, app), refuses)
  }

  function Disposed(ix: Index, refuses: set<Socket>): Index {
    if ix.disposed then ix else SecuredAll(ix.(disposed := true), ix.order, refuses)
  }

  /** The generation of a session's first registration, which the others share. */
  function SessionGeneration(ix: Index, app: App): nat {
    var sockets := SessionSockets(ix, app);
    if sockets != [] && sockets[0] in ix.bySocket then ix.bySocket[sockets[0]].authority.generation else 0
  }

  /** The admission checks that do not consult the authentication source. */
  predicate HasRoom(ix: Index, l: Limits, a: Authority) {
    if a.app in ix.bySession then SessionGeneration(ix, a.app) == a.generation else |ix.bySession| < l.maxSessions
  }

  predicate MayTry(ix: Index, l: Limits, socket: Socket) {
    !ix.disposed && socket !in ix.bySocket && |ix.bySocket| < l.maxSockets
  }

  /** What a look at an authority finds; a session that has expired is revoked by the look itself, and the index hears
      of it before the look returns. */
  datatype Look = Active | Inactive(revoked: bool)

  function Looked(ix: Index, a: Authority, look: Look, refuses: set<Socket>): Index {
    if look == Inactive(true) then SessionClosed(ix, a.app, refuses) else ix
  }

  /** `registerIfActive`, with the answers of its two looks at the socket and at the authority and of the attaching of
      listeners. */
  datatype Answers = Answers(open: bool, first: Look, attached: bool, stillOpen: bool, second: Look)

  function Registering(ix: Index, l: Limits, socket: Socket, r: Registration, a: Answers, refuses: set<Socket>)
    : (Index, bool)
  {
    if !a.open || !MayTry(ix, l, socket) then (ix, false)
    else if !a.first.Active? then (Looked(ix, r.authority, a.first, refuses), false)
    else if !HasRoom(ix, l, r.authority) || !a.attached || !a.stillOpen then (ix, false)
    else if !a.second.Active? then (Looked(ix, r.authority, a.second, refuses), false)
    else (Admitted(ix, socket, r), true)
  }

  // ---------------------------------------------------------------- invariant

  /** The number of registrations of the tab among the listed sockets. */
  function TabCount(order: seq<Socket>, bySocket: map<Socket, Registration>, tab: Tab): nat {
    if order == [] then 0
    else (if order[0] in bySocket && bySocket[order[0]].tab == tab then 1 else 0) + TabCount(order[1..], bySocket, tab)
  }

  /** The socket is listed under the session of its authority. */
  ghost predicate Listed(ix: Index, s: Socket) {
    && s in ix.bySocket && ix.bySocket[s].authority.app in ix.bySession
    && s in ix.bySession[ix.bySocket[s].authority.app]
  }

  /** The socket is registered for the session, under the generation of the session. */
  ghost predicate Belongs(ix: Index, app: App, s: Socket) {
    && s in ix.bySocket && ix.bySocket[s].authority.app == app
    && ix.bySocket[s].authority.generation == SessionGeneration(ix, app)
  }

  /** The session lists some sockets, each once, all registered for it under one generation. */
  ghost predicate Uniform(ix: Index, app: App) {
    && app in ix.bySession && ix.bySession[app] != [] && Distinct(ix.bySession[app])
    && forall s {:trigger Belongs(ix, app, s)} :: s in ix.bySession[app] ==> Belongs(ix, app, s)
  }

  ghost predicate Counted(ix: Index, tab: Tab) {
    S.Count(ix.tabs, tab) == TabCount(ix.order, ix.bySocket, tab)
  }

  ghost predicate Valid(ix: Index, l: Limits) {
    && ValidLimits(l)
    && Distinct(ix.order) && (forall s :: s in ix.order <==> s in ix.bySocket)
    && |ix.order| <= l.maxSockets && |ix.bySession| <= l.maxSessions
    && (forall s {:trigger Listed(ix, s)} :: s in ix.bySocket ==> Listed(ix, s))
    && (forall app {:trigger Uniform(ix, app)} :: app in ix.bySession ==> Uniform(ix, app))
    && S.ValidCounts(ix.tabs)
    && (forall tab {:trigger Counted(ix, tab)} :: Counted(ix, tab))
  }

  lemma {:induction false} TabCountOther(order: seq<Socket>, m: map<Socket, Registration>, s: Socket, r: Registration,
                                         tab: Tab)
    requires s !in order
    ensures TabCount(order, m[s := r], tab) == TabCount(order, m, tab)
    ensures TabCount(order, m - {s}, tab) == TabCount(order, m, tab)
  {
    if order != [] {
      TabCountOther(order[1..], m, s, r, tab);
    }
  }

  lemma {:induction false} TabCountAppend(order: seq<Socket>, m: map<Socket, Registration>, s: Socket, tab: Tab)
    ensures TabCount(order + [s], m, tab) == TabCount(order, m, tab) + if s in m && m[s].tab == tab then 1 else 0
  {
    if order == [] {
      assert order + [s] == [s];
    } else {
      assert (order + [s])[1..] == order[1..] + [s];
      TabCountAppend(order[1..], m, s, tab);
    }
  }

  lemma {:induction false} TabCountRemove(order: seq<Socket>, m: map<Socket, Registration>, s: Socket, tab: Tab)
    requires Distinct(order) && s in m && s in order
    ensures TabCount(order, m, tab) == TabCount(Without(order, s), m - {s}, tab) + if m[s].tab == tab then 1 else 0
    ensures TabCount(order, m, m[s].tab) > 0
  {
    assert Distinct(order[1..]);
    if order[0] == s {
      assert s !in order[1..];
      WithoutAbsent(order[1..], s);
      assert Without(order, s) == order[1..];
      TabCountOther(order[1..], m, s, m[s], tab);
    } else {
      TabCountRemove(order[1..], m, s, tab);
    }
  }

  lemma {:induction false} WithoutAbsent<T(!new)>(s: seq<T>, x: T)
    requires x !in s
    ensures Without(s, x) == s
  {
    if s != [] {
      WithoutAbsent(s[1..], x);
    }
  }

  lemma DomainSize(ix: Index, l: Limits)
    requires Valid(ix, l)
    ensures |ix.bySocket| == |ix.order|
  {
    DistinctSize(ix.order);
    assert Elements(ix.order) == ix.bySocket.Keys;
  }

  // ---------------------------------------------------------------- every operation keeps the invariant

  lemma AdmittedUniform(ix: Index, l: Limits, socket: Socket, r: Registration, a: App)
    requires Valid(ix, l) && socket !in ix.bySocket && HasRoom(ix, l, r.authority)
    requires a in Admitted(ix, socket, r).bySession
    ensures Uniform(Admitted(ix, socket, r), a)
  {
    var v := Admitted(ix, socket, r);
    assert a in ix.bySession ==> Uniform(ix, a);
    forall s | s in v.bySession[a]
      ensures Belongs(v, a, s)
    {
      assert s in SessionSockets(ix, a) ==> Belongs(ix, a, s);
      assert SessionSockets(ix, a) != [] ==> Belongs(ix, a, SessionSockets(ix, a)[0]);
    }
    assert socket in SessionSockets(ix, a) ==> Belongs(ix, a, socket);
  }

  lemma AdmittedCounted(ix: Index, l: Limits, socket: Socket, r: Registration, tab: Tab)
    requires Valid(ix, l) && socket !in ix.bySocket
    ensures Counted(Admitted(ix, socket, r), tab)
  {
    assert Counted(ix, tab);
    S.CountsMove(ix.tabs, r.tab);
    TabCountOther(ix.order, ix.bySocket, socket, r, tab);
    TabCountAppend(ix.order, ix.bySocket[socket := r], socket, tab);
  }

  lemma AdmittedSessions(ix: Index, max: nat, socket: Socket, r: Registration)
    requires |ix.bySession| <= max && (r.authority.app in ix.bySession || |ix.bySession| < max)
    ensures |Admitted(ix, socket, r).bySession| <= max
  {
    var v := Admitted(ix, socket, r);
    if r.authority.app in ix.bySession {
      assert v.bySession.Keys == ix.bySession.Keys;
    } else {
      assert v.bySession.Keys == ix.bySession.Keys + {r.authority.app};
    }
  }

  lemma AdmittedSizes(ix: Index, l: Limits, socket: Socket, r: Registration)
    requires Valid(ix, l) && MayTry(ix, l, socket) && HasRoom(ix, l, r.authority)
    ensures |Admitted(ix, socket, r).order| <= l.maxSockets && |Admitted(ix, socket, r).bySession| <= l.maxSessions
  {
    DomainSize(ix, l);
    AdmittedSessions(ix, l.maxSessions, socket, r);
  }

  lemma AdmittedIsValid(ix: Index, l: Limits, socket: Socket, r: Registration)
    requires Valid(ix, l) && MayTry(ix, l, socket) && HasRoom(ix, l, r.authority)
    ensures Valid(Admitted(ix, socket, r), l)
  {
    var v := Admitted(ix, socket, r);
    AdmittedSizes(ix, l, socket, r);
    S.CountsMove(ix.tabs, r.tab);
    forall s | s in v.bySocket
      ensures Listed(v, s)
    {
      assert s == socket || Listed(ix, s);
    }
    forall a | a in v.bySession
      ensures Uniform(v, a)
    {
      AdmittedUniform(ix, l, socket, r, a);
    }
    forall tab
      ensures Counted(v, tab)
    {
      AdmittedCounted(ix, l, socket, r, tab);
    }
  }

  lemma UnregisteredListed(ix: Index, l: Limits, socket: Socket, s: Socket)
    requires Valid(ix, l) && s in Unregistered(ix, socket).bySocket
    ensures Listed(Unregistered(ix, socket), s)
  {
    assert Listed(ix, s);
  }

  lemma RemainingUniform(ix: Index, socket: Socket, a: App)
    requires socket in ix.bySocket && a in Unregistered(ix, socket).bySession && Uniform(ix, a)
    ensures Uniform(Unregistered(ix, socket), a)
  {
    var v := Unregistered(ix, socket);
    var app := ix.bySocket[socket].authority.app;
    WithoutDistinct(ix.bySession[a], socket);
    assert socket in ix.bySession[a] ==> Belongs(ix, a, socket);
    assert v.bySession[a] == if a == app then Without(ix.bySession[a], socket) else ix.bySession[a];
    assert Belongs(ix, a, v.bySession[a][0]);
    forall s | s in v.bySession[a]
      ensures Belongs(v, a, s)
    {
      assert Belongs(ix, a, s);
    }
  }

  lemma UnregisteredUniform(ix: Index, l: Limits, socket: Socket, a: App)
    requires Valid(ix, l) && a in Unregistered(ix, socket).bySession
    ensures Uniform(Unregistered(ix, socket), a)
    ensures a in ix.bySession
  {
    if socket in ix.bySocket {
      assert Listed(ix, socket);
      assert a in ix.bySession;
      assert Uniform(ix, a);
      RemainingUniform(ix, socket, a);
    } else {
      assert Uniform(ix, a);
    }
  }

  lemma UnregisteredCounted(ix: Index, l: Limits, socket: Socket, tab: Tab)
    requires Valid(ix, l) && socket in ix.bySocket
    ensures Counted(Unregistered(ix, socket), tab)
  {
    var r := ix.bySocket[socket];
    assert Counted(ix, tab) && Counted(ix, r.tab);
    S.CountsMove(ix.tabs, r.tab);
    TabCountRemove(ix.order, ix.bySocket, socket, r.tab);
    TabCountRemove(ix.order, ix.bySocket, socket, tab);
  }

  lemma UnregisteredIsValid(ix: Index, l: Limits, socket: Socket)
    requires Valid(ix, l)
    ensures Valid(Unregistered(ix, socket), l)
  {
    if socket in ix.bySocket {
      var v := Unregistered(ix, socket);
      WithoutDistinct(ix.order, socket);
      S.CountsMove(ix.tabs, ix.bySocket[socket].tab);
      forall s | s in v.bySocket
        ensures Listed(v, s)
      {
        UnregisteredListed(ix, l, socket, s);
      }
      forall a | a in v.bySession
        ensures Uniform(v, a) && a in ix.bySession
      {
        UnregisteredUniform(ix, l, socket, a);
      }
      SubsetSize(v.bySession.Keys, ix.bySession.Keys);
      forall tab
        ensures Counted(v, tab)
      {
        UnregisteredCounted(ix, l, socket, tab);
      }
    }
  }

  lemma SecuredContents(ix: Index, socket: Socket, refuses: set<Socket>)
    ensures Secured(ix, socket, refuses).bySocket == ix.bySocket - ({socket} - refuses)
    ensures Secured(ix, socket, refuses).disposed == ix.disposed
  {
  }

  lemma {:induction false} SecuredAllContents(ix: Index, sockets: seq<Socket>, refuses: set<Socket>)
    ensures SecuredAll(ix, sockets, refuses).bySocket == ix.bySocket - (Elements(sockets) - refuses)
    ensures SecuredAll(ix, sockets, refuses).disposed == ix.disposed
    decreases sockets
  {
    if sockets == [] {
      assert Elements(sockets) - refuses == {};
    } else {
      SecuredContents(ix, sockets[0], refuses);
      SecuredAllContents(Secured(ix, sockets[0], refuses), sockets[1..], refuses);
      assert Elements(sockets) == {sockets[0]} + Elements(sockets[1..]);
    }
  }

  lemma {:induction false} SecuredAllIsValid(ix: Index, l: Limits, sockets: seq<Socket>, refuses: set<Socket>)
    requires Valid(ix, l)
    ensures Valid(SecuredAll(ix, sockets, refuses), l)
    decreases sockets
  {
    if sockets != [] {
      UnregisteredIsValid(ix, l, sockets[0]);
      SecuredAllIsValid(Secured(ix, sockets[0], refuses), l, sockets[1..], refuses);
    }
  }

  /** Closing a session leaves none of its sockets registered, except those that refuse to leave OPEN, and touches
      no other session's sockets. */
  lemma SessionClosedRemoves(ix: Index, l: Limits, app: App, refuses: set<Socket>)
    requires Valid(ix, l)
    ensures Valid(SessionClosed(ix, app, refuses), l)
    ensures SessionClosed(ix, app, refuses).disposed == ix.disposed
    ensures forall s :: s in SessionClosed(ix, app, refuses).bySocket
                   <==> s in ix.bySocket && (ix.bySocket[s].authority.app == app ==> s in refuses)
    ensures forall s :: s in SessionClosed(ix, app, refuses).bySocket ==>
                   SessionClosed(ix, app, refuses).bySocket[s] == ix.bySocket[s]
  {
    var sockets := SessionSockets(ix, app);
    SecuredAllContents(ix, sockets, refuses);
    SecuredAllIsValid(ix, l, sockets, refuses);
    forall s | s in ix.bySocket
      ensures s in sockets <==> ix.bySocket[s].authority.app == app
    {
      assert Listed(ix, s);
      if s in sockets {
        assert Uniform(ix, app);
        assert Belongs(ix, app, s);
      }
    }
  }

  /** Disposal closes every socket, except those that refuse, and nothing is registered afterwards. */
  lemma DisposedRemoves(ix: Index, l: Limits, refuses: set<Socket>)
    requires Valid(ix, l) && !ix.disposed
    ensures Valid(Disposed(ix, refuses), l) && Disposed(ix, refuses).disposed
    ensures Disposed(ix, refuses).bySocket.Keys == ix.bySocket.Keys * refuses
    ensures forall s :: s in Disposed(ix, refuses).bySocket ==> Disposed(ix, refuses).bySocket[s] == ix.bySocket[s]
  {
    var marked := ix.(disposed := true);
    MarkedIsValid(ix, l);
    SecuredAllContents(marked, ix.order, refuses);
    SecuredAllIsValid(marked, l, ix.order, refuses);
    assert Elements(ix.order) == ix.bySocket.Keys;
  }

  lemma MarkedIsValid(ix: Index, l: Limits)
    requires Valid(ix, l)
    ensures Valid(ix.(disposed := true), l)
  {
    var v := ix.(disposed := true);
    forall s | s in v.bySocket
      ensures Listed(v, s)
    {
      assert Listed(ix, s);
    }
    forall a | a in v.bySession
      ensures Uniform(v, a)
    {
      assert Uniform(ix, a);
      forall s | s in v.bySession[a]
        ensures Belongs(v, a, s)
      {
        assert Belongs(ix, a, s);
      }
    }
    forall tab
      ensures Counted(v, tab)
    {
      assert Counted(ix, tab);
    }
  }

  /** All registrations of one application session share a generation. */
  lemma OneGeneration(ix: Index, l: Limits, s: Socket, t: Socket)
    requires Valid(ix, l) && s in ix.bySocket && t in ix.bySocket
    requires ix.bySocket[s].authority.app == ix.bySocket[t].authority.app
    ensures ix.bySocket[s].authority == ix.bySocket[t].authority
  {
    assert Listed(ix, s) && Listed(ix, t);
    var app := ix.bySocket[s].authority.app;
    assert Uniform(ix, app);
    assert Belongs(ix, app, s) && Belongs(ix, app, t);
  }

  /** The registered sockets of a tab. */
  ghost function SocketsOf(bySocket: map<Socket, Registration>, tab: Tab): set<Socket> {
    set s | s in bySocket && bySocket[s].tab == tab
  }

  /** A tab's count is the number of its registered sockets; a tab without sockets has no entry. */
  lemma CountsAreExact(ix: Index, l: Limits, tab: Tab)
    requires Valid(ix, l)
    ensures S.Count(ix.tabs, tab) == |SocketsOf(ix.bySocket, tab)|
    ensures tab in ix.tabs.counts <==> SocketsOf(ix.bySocket, tab) != {}
  {
    assert Counted(ix, tab);
    assert Elements(ix.order) == ix.bySocket.Keys;
    TabCountIsSize(ix.order, ix.bySocket, tab);
    assert Elements(ix.order) * SocketsOf(ix.bySocket, tab) == SocketsOf(ix.bySocket, tab);
  }

  lemma {:induction false} TabCountIsSize(order: seq<Socket>, m: map<Socket, Registration>, tab: Tab)
    requires Distinct(order)
    ensures TabCount(order, m, tab) == |Elements(order) * SocketsOf(m, tab)|
  {
    if order != [] {
      TabCountIsSize(order[1..], m, tab);
      assert order[0] !in order[1..];
      var rest := Elements(order[1..]) * SocketsOf(m, tab);
      if order[0] in SocketsOf(m, tab) {
        assert Elements(order) * SocketsOf(m, tab) == rest + {order[0]};
      } else {
        assert Elements(order) * SocketsOf(m, tab) == rest;
      }
    }
  }

  /** `v` registers what `ix` does, except perhaps sockets of the session. */
  ghost predicate LosesOnly(ix: Index, v: Index, app: App) {
    && (forall s :: s in v.bySocket ==> s in ix.bySocket && v.bySocket[s] == ix.bySocket[s])
    && (forall s :: s in ix.bySocket && s !in v.bySocket ==> ix.bySocket[s].authority.app == app)
  }

  lemma LookedOutcome(ix: Index, l: Limits, a: Authority, look: Look, refuses: set<Socket>)
    requires Valid(ix, l)
    ensures Valid(Looked(ix, a, look, refuses), l) && LosesOnly(ix, Looked(ix, a, look, refuses), a.app)
  {
    SessionClosedRemoves(ix, l, a.app, refuses);
  }

  /** A registration succeeds exactly if every check passes, and then adds the socket.  One that fails adds nothing, and
      takes from the index at most the sockets of its own session, and these only if a look revoked the session. */
  lemma RegisteringOutcome(ix: Index, l: Limits, socket: Socket, r: Registration, a: Answers, refuses: set<Socket>)
    requires Valid(ix, l)
    ensures var (v, registered) := Registering(ix, l, socket, r, a, refuses);
            && Valid(v, l)
            && (registered <==> a == Answers(true, Active, true, true, Active) && MayTry(ix, l, socket)
                                && HasRoom(ix, l, r.authority))
            && (registered ==> v.bySocket == ix.bySocket[socket := r])
            && (!registered ==> LosesOnly(ix, v, r.authority.app))
            && (!registered && a.first != Inactive(true) && a.second != Inactive(true) ==> v == ix)
  {
    LookedOutcome(ix, l, r.authority, a.first, refuses);
    LookedOutcome(ix, l, r.authority, a.second, refuses);
    if MayTry(ix, l, socket) && HasRoom(ix, l, r.authority) {
      AdmittedIsValid(ix, l, socket, r);
    }
  }

  lemma EmptyIsValid(l: Limits)
    requires ValidLimits(l)
    ensures Valid(EMPTY, l)
  {
  }

  // ---------------------------------------------------------------- the class

  class WebSocketAuthIndex {
    const limits: Limits
    var bySession: map<App, seq<Socket>>
    var socketOrder: seq<Socket>
    var bySocket: map<Socket, Registration>
    var tabCounts: map<Tab, nat>
    var cleanupEvictionGeneration: nat
    var cleanupOrder: seq<Tab>
    var cleanupGenerations: map<Tab, nat>
    var disposed: bool

    ghost function CacheModel(): G.Cache
      reads this
    {
      G.Cache(cleanupOrder, cleanupGenerations, cleanupEvictionGeneration, 0)
    }

    ghost function TabsModel(): S.TabSockets
      reads this
    {
      S.TabSockets(tabCounts, CacheModel())
    }

    ghost function Model(): Index
      reads this
    {
      Index(bySession, socketOrder, bySocket, TabsModel(), disposed)
    }

    constructor (limits: Limits)
      requires ValidLimits(limits)
      ensures this.limits == limits && Model() == EMPTY && Valid(Model(), limits)
    {
      this.limits := limits;
      bySession, socketOrder, bySocket, tabCounts := map[], [], map[], map[];
      cleanupEvictionGeneration, cleanupOrder, cleanupGenerations := 0, [], map[];
      disposed := false;
    }

    method AdvanceCleanupGeneration(tab: Tab)
      requires G.Consistent(CacheModel())
      modifies `cleanupEvictionGeneration, `cleanupOrder, `cleanupGenerations
      ensures CacheModel() == G.Advance(G.PerKey, old(CacheModel()), tab)
    {
      var generation := (if tab in cleanupGenerations then cleanupGenerations[tab] else cleanupEvictionGeneration) + 1;
      cleanupOrder := Without(cleanupOrder, tab) + [tab];
      cleanupGenerations := cleanupGenerations[tab := generation];
      if |cleanupOrder| <= G.MAX_CLEANUP_GENERATIONS {
        return;
      }
      var oldest := cleanupOrder[0];
      var forgotten := if oldest in cleanupGenerations then cleanupGenerations[oldest] else cleanupEvictionGeneration;
      cleanupOrder, cleanupGenerations := cleanupOrder[1..], cleanupGenerations - {oldest};
      cleanupEvictionGeneration :=
        if forgotten > cleanupEvictionGeneration + 1 then forgotten else cleanupEvictionGeneration + 1;
    }

    method CountUp(tab: Tab)
      requires G.Consistent(CacheModel())
      modifies `tabCounts, `cleanupEvictionGeneration, `cleanupOrder, `cleanupGenerations
      ensures TabsModel() == S.Registered(old(TabsModel()), tab)
    {
      tabCounts := tabCounts[tab := (if tab in tabCounts then tabCounts[tab] else 0) + 1];
      AdvanceCleanupGeneration(tab);
    }

    method CountDown(tab: Tab)
      requires G.Consistent(CacheModel())
      modifies `tabCounts, `cleanupEvictionGeneration, `cleanupOrder, `cleanupGenerations
      ensures TabsModel() == S.Unregistered(old(TabsModel()), tab)
    {
      tabCounts := if tab in tabCounts && tabCounts[tab] > 1 then tabCounts[tab := tabCounts[tab] - 1]
                   else tabCounts - {tab};
      AdvanceCleanupGeneration(tab);
    }

    /** The session exists under the same generation, or there is room for it. */
    method FindsRoom(authority: Authority) returns (room: bool)
      requires Valid(Model(), limits)
      ensures room == HasRoom(Model(), limits, authority)
    {
      var app := authority.app;
      if app !in bySession {
        return |bySession| < limits.maxSessions;
      }
      assert Uniform(Model(), app);
      assert Belongs(Model(), app, bySession[app][0]);
      return bySocket[bySession[app][0]].authority.generation == authority.generation;
    }

    /** The part of `registerIfActive` that writes. */
    method Admit(r: Registration, socket: Socket)
      requires G.Consistent(CacheModel())
      modifies this
      ensures Model() == Admitted(old(Model()), socket, r)
    {
      var app, tab := r.authority.app, r.tab;
      bySession := bySession[app := (if app in bySession then bySession[app] else []) + [socket]];
      socketOrder, bySocket := socketOrder + [socket], bySocket[socket := r];
      CountUp(tab);
    }

    /** The session's own set; one that becomes empty goes. */
    method DropFromSession(app: App, socket: Socket)
      modifies `bySession
      ensures bySession == WithSession(old(bySession), app, Without(SessionSockets(old(Model()), app), socket))
    {
      var rest := Without(if app in bySession then bySession[app] else [], socket);
      bySession := if rest == [] then bySession - {app} else bySession[app := rest];
    }

    /** `unregister`, without the listeners. */
    method Drop(socket: Socket)
      requires G.Consistent(CacheModel())
      modifies this
      ensures Model() == Unregistered(old(Model()), socket)
    {
      if socket !in bySocket {
        return;
      }
      var registration := bySocket[socket];
      socketOrder, bySocket := Without(socketOrder, socket), bySocket - {socket};
      DropFromSession(registration.authority.app, socket);
      CountDown(registration.tab);
    }

    method Unregister(socket: Socket)
      requires Valid(Model(), limits)
      modifies this
      ensures Model() == Unregistered(old(Model()), socket) && Valid(Model(), limits)
    {
      UnregisteredIsValid(Model(), limits, socket);
      Drop(socket);
    }

    method CloseAuthenticationRequired(socket: Socket, refuses: set<Socket>) returns (secured: bool)
      requires Valid(Model(), limits)
      modifies this
      ensures secured == (socket !in refuses)
      ensures Model() == Secured(old(Model()), socket, refuses) && Valid(Model(), limits)
    {
      secured := socket !in refuses;
      if secured {
        Unregister(socket);
      }
    }

    method CloseSession(app: App, refuses: set<Socket>)
      requires Valid(Model(), limits)
      modifies this
      ensures Model() == SessionClosed(old(Model()), app, refuses) && Valid(Model(), limits)
    {
      ghost var before := Model();
      var registrations := if app in bySession then bySession[app] else [];
      for k := 0 to |registrations|
        invariant Valid(Model(), limits)
        invariant SecuredAll(Model(), registrations[k..], refuses) == SessionClosed(before, app, refuses)
      {
        assert registrations[k..][1..] == registrations[k + 1..];
        var _ := CloseAuthenticationRequired(registrations[k], refuses);
      }
    }

    /** A look at the authority source: if the look revokes the session, `closeSession` is called from within. */
    method LookAt(authority: Authority, look: Look, refuses: set<Socket>) returns (active: bool)
      requires Valid(Model(), limits)
      modifies this
      ensures active == look.Active?
      ensures Model() == Looked(old(Model()), authority, look, refuses) && Valid(Model(), limits)
    {
      active := look.Active?;
      if look == Inactive(true) {
        CloseSession(authority.app, refuses);
      }
    }

    method RegisterIfActive(authority: Authority, tab: Tab, socket: Socket, a: Answers, refuses: set<Socket>)
      returns (registered: bool)
      requires Valid(Model(), limits)
      modifies this
      ensures (Model(), registered)
              == Registering(old(Model()), limits, socket, Registration(authority, tab), a, refuses)
      ensures Valid(Model(), limits)
    {
      RegisteringOutcome(Model(), limits, socket, Registration(authority, tab), a, refuses);
      if disposed || !a.open || socket in bySocket || |bySocket| >= limits.maxSockets {
        return false;
      }
      var active := LookAt(authority, a.first, refuses);
      if !active {
        return false;
      }
      var room := FindsRoom(authority);
      if !room || !a.attached || !a.stillOpen {
        return false;
      }
      active := LookAt(authority, a.second, refuses);
      if !active {
        return false;
      }
      Admit(Registration(authority, tab), socket);
      registered := true;
    }

    method CleanupSnapshot(tab: Tab) returns (generation: nat, count: nat)
      ensures generation == G.Reading(CacheModel(), tab)
      ensures count == S.Count(S.TabSockets(tabCounts, CacheModel()), tab)
    {
      generation := if tab in cleanupGenerations then cleanupGenerations[tab] else cleanupEvictionGeneration;
      count := if tab in tabCounts then tabCounts[tab] else 0;
    }
  }
}
