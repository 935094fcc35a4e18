/** `TerminalBridge` of apps/server/src/terminal-bridge.ts: one PTY joined to one socket.  Every callback is a step that
    appends what it does to a trace; the class performs the steps and is proved against them. */
module TerminalBridges {
  import opened Collections

  const MAX_BUFFER_BYTES := 1048576
  const SUBSCRIPTIONS := 5

  type SessionId = nat

  // ---------------------------------------------------------------- steps

  datatype Body = Input(data: string) | Resize(cols: nat, rows: nat)

  /** What parseClientMessage makes of a frame. */
  datatype Frame = Malformed | Message(session: SessionId, body: Body)

  datatype Effect =
    | Mark
    | Write(data: string)
    | SetSize(cols: nat, rows: nat)
    | Send(queued: nat)                    // with the bytes in the socket's queue once the message is there
    | Dispose(subscription: nat)
    | Kill
    | CloseSocket
    | TerminateSocket

  /** What the looks at the socket's readyState find, in order, and whether the foreign calls of the step return. */
  datatype Answers = Answers(
    openAtSend: bool, openAtShutdown: bool, openAfterClose: bool, authenticates: bool, works: bool)

  datatype Event =
    | Output(queued: nat)
    | Received(frame: Frame)
    | Exited(queued: nat)                  // of the error message
    | SocketGone                           // close or error of the socket
    | Close                                // called by the registry

  datatype Bridge = Bridge(session: SessionId, limit: nat, subscriptions: seq<nat>, closed: bool, trace: seq<Effect>)

  function Limit(requested: nat): nat {
    if requested < MAX_BUFFER_BYTES then requested else MAX_BUFFER_BYTES
  }

  function Did(b: Bridge, effect: Effect): Bridge {
    b.(trace := b.trace + [effect])
  }

  function Disposals(subscriptions: seq<nat>): seq<Effect> {
    seq(|subscriptions|, i requires 0 <= i < |subscriptions| => Dispose(subscriptions[i]))
  }

  function SocketEffects(closeSocket: bool, a: Answers): seq<Effect> {
    if !closeSocket || !a.openAtShutdown then []
    else [CloseSocket] + if a.openAfterClose then [TerminateSocket] else []
  }

  function Shut(b: Bridge, closeSocket: bool, a: Answers): Bridge {
    if b.closed then b
    else b.(closed := true, trace := b.trace + (Disposals(b.subscriptions) + [Kill] + SocketEffects(closeSocket, a)))
  }

  /** A write or resize of the PTY that throws closes the bridge. */
  function Applied(b: Bridge, effect: Effect, a: Answers): Bridge {
    if a.works then Did(b, effect) else Shut(Did(b, effect), true, a)
  }

  function MessageHandled(b: Bridge, frame: Frame, a: Answers): Bridge {
    if b.closed then b
    else if frame.Malformed? || frame.session != b.session then Shut(b, true, a)
    else match frame.body
      case Input(data) => if a.authenticates then Applied(Did(b, Mark), Write(data), a) else Shut(b, true, a)
      case Resize(cols, rows) => Applied(Did(b, Mark), SetSize(cols, rows), a)
  }

  function OutputHandled(b: Bridge, queued: nat, a: Answers): Bridge {
    if b.closed then b
    else if !a.openAtSend then Did(b, Mark)
    else if queued >= b.limit then Shut(Did(b, Mark), true, a)
    else Applied(Did(b, Mark), Send(queued), a)
  }

  function ExitHandled(b: Bridge, queued: nat, a: Answers): Bridge {
    Shut(if b.closed || !a.openAtSend || queued >= b.limit then b else Did(b, Send(queued)), true, a)
  }

  function Step(b: Bridge, e: Event, a: Answers): Bridge {
    match e
    case Output(queued) => OutputHandled(b, queued, a)
    case Received(frame) => MessageHandled(b, frame, a)
    case Exited(queued) => ExitHandled(b, queued, a)
    case SocketGone => Shut(b, false, a)
    case Close => Shut(b, true, a)
  }

  // ---------------------------------------------------------------- what every run keeps

  predicate Final(effect: Effect) {
    effect.Dispose? || effect.Kill? || effect.CloseSocket? || effect.TerminateSocket?
  }

  /** Activity has been marked right before, a message fits the queue, and nothing is being given up. */
  ghost predicate Ordinary(b: Bridge, k: nat)
    requires k < |b.trace|
  {
    && !Final(b.trace[k])
    && (b.trace[k].Write? || b.trace[k].SetSize? ==> k > 0 && b.trace[k - 1] == Mark)
    && (b.trace[k].Send? ==> b.trace[k].queued < b.limit)
  }

  /** From position `k` on the trace gives up every subscription once and in order, kills the PTY once, and then at most
      closes the socket and terminates it. */
  ghost predicate EndsAt(b: Bridge, k: nat) {
    && k <= |b.trace|
    && exists closing, terminating {:trigger Ending(b.subscriptions, closing, terminating)} ::
         b.trace[k..] == Ending(b.subscriptions, closing, terminating)
  }

  function Ending(subscriptions: seq<nat>, closing: bool, terminating: bool): seq<Effect> {
    Disposals(subscriptions) + [Kill]
    + if closing then [CloseSocket] + (if terminating then [TerminateSocket] else []) else []
  }

  ghost predicate Orderly(b: Bridge) {
    if b.closed then exists k: nat {:trigger EndsAt(b, k)} :: EndsAt(b, k) && forall j: nat :: j < k ==> Ordinary(b, j)
    else forall j: nat :: j < |b.trace| ==> Ordinary(b, j)
  }

  lemma DidIsOrderly(b: Bridge, effect: Effect)
    requires Orderly(b) && !b.closed && !Final(effect)
    requires effect.Write? || effect.SetSize? ==> b.trace != [] && b.trace[|b.trace| - 1] == Mark
    requires effect.Send? ==> effect.queued < b.limit
    ensures Orderly(Did(b, effect))
  {
    forall j: nat | j < |b.trace| + 1
      ensures Ordinary(Did(b, effect), j)
    {
      assert j < |b.trace| ==> Ordinary(b, j);
    }
  }

  lemma ShutIsOrderly(b: Bridge, closeSocket: bool, a: Answers)
    requires Orderly(b)
    ensures Orderly(Shut(b, closeSocket, a))
  {
    if !b.closed {
      var v := Shut(b, closeSocket, a);
      assert v.trace[|b.trace|..] == Ending(b.subscriptions, closeSocket && a.openAtShutdown, a.openAfterClose);
      assert EndsAt(v, |b.trace|);
      forall j: nat | j < |b.trace|
        ensures Ordinary(v, j)
      {
        assert Ordinary(b, j);
      }
    }
  }

  /** In every step: before the bridge closes every write and resize follows an activity mark and every message fits the
      queue; it closes by giving up each subscription, then killing the PTY, then letting go of the socket; and after
      that it does nothing any more. */
  lemma StepIsOrderly(b: Bridge, e: Event, a: Answers)
    requires Orderly(b)
    ensures Orderly(Step(b, e, a)) && (b.closed ==> Step(b, e, a) == b)
  {
    ShutIsOrderly(b, e != SocketGone, a);
    if !b.closed {
      DidIsOrderly(b, Mark);
      ShutIsOrderly(Did(b, Mark), true, a);
      match e
      case Output(queued) => if queued < b.limit { AppliedIsOrderly(Did(b, Mark), Send(queued), a); }
      case Received(frame) =>
        if frame.Message? && frame.body.Input? {
          AppliedIsOrderly(Did(b, Mark), Write(frame.body.data), a);
        } else if frame.Message? {
          AppliedIsOrderly(Did(b, Mark), SetSize(frame.body.cols, frame.body.rows), a);
        }
      case Exited(queued) =>
        if queued < b.limit {
          DidIsOrderly(b, Send(queued));
          ShutIsOrderly(Did(b, Send(queued)), true, a);
        }
      case _ =>
    }
  }

  lemma AppliedIsOrderly(b: Bridge, effect: Effect, a: Answers)
    requires Orderly(b) && !b.closed && !Final(effect)
    requires b.trace != [] && b.trace[|b.trace| - 1] == Mark
    requires effect.Send? ==> effect.queued < b.limit
    ensures Orderly(Applied(b, effect, a))
  {
    DidIsOrderly(b, effect);
    ShutIsOrderly(Did(b, effect), true, a);
  }

  function Run(b: Bridge, events: seq<(Event, Answers)>): Bridge
    decreases events
  {
    if events == [] then b else Run(Step(b, events[0].0, events[0].1), events[1..])
  }

  /** The trace of a bridge is orderly after any run; one that is closed stays as it is. */
  lemma {:induction false} RunIsOrderly(b: Bridge, events: seq<(Event, Answers)>)
    requires Orderly(b)
    ensures Orderly(Run(b, events)) && (b.closed ==> Run(b, events) == b)
    decreases events
  {
    if events != [] {
      StepIsOrderly(b, events[0].0, events[0].1);
      RunIsOrderly(Step(b, events[0].0, events[0].1), events[1..]);
    }
  }

  /** Input reaches the PTY exactly for a well-formed message of this session, on an open bridge, that is still
      authenticated; whatever is not that closes the bridge, except a resize, which needs no authentication. */
  lemma InputIsAuthenticated(b: Bridge, frame: Frame, a: Answers, data: string)
    requires !b.closed
    ensures Write(data) in MessageHandled(b, frame, a).trace[|b.trace|..]
            <==> frame == Message(b.session, Input(data)) && a.authenticates
    ensures !MessageHandled(b, frame, a).closed
            <==> frame.Message? && frame.session == b.session && a.works && (frame.body.Input? ==> a.authenticates)
  {
    var v := MessageHandled(b, frame, a);
    var ending := Disposals(b.subscriptions) + [Kill] + SocketEffects(true, a);
    assert forall i :: 0 <= i < |ending| ==> !ending[i].Write?;
    if frame.Message? && frame.session == b.session && (frame.body.Input? ==> a.authenticates) {
      var effect := if frame.body.Input? then Write(frame.body.data) else SetSize(frame.body.cols, frame.body.rows);
      assert v.trace[|b.trace|..] == [Mark, effect] + if a.works then [] else ending;
      assert v.trace[|b.trace| + 1] == effect;
    } else {
      assert v.trace[|b.trace|..] == ending;
    }
  }

  // ---------------------------------------------------------------- the class

  function FirstNumbers(k: nat): seq<nat> {
    seq(k, i => i)
  }

  /** The subscription that throws first. */
  predicate FailsFirst(works: seq<bool>, k: nat) {
    k < |works| && !works[k] && forall j :: 0 <= j < k ==> works[j]
  }

  /** What is done when it does. */
  function GivenUp(k: nat, a: Answers): seq<Effect> {
    Disposals(FirstNumbers(k)) + [Kill] + SocketEffects(true, a)
  }

  class TerminalBridge {
    const session: SessionId
    const maxBufferedBytes: nat
    var closed: bool
    var disposables: seq<nat>
    ghost var trace: seq<Effect>
    ghost var live: set<nat>            // subscriptions not yet disposed of

    ghost function Model(): Bridge
      reads this
    {
      Bridge(session, maxBufferedBytes, disposables, closed, trace)
    }

    /** What is subscribed is what a shutdown will dispose of. */
    ghost predicate Valid()
      reads this
    {
      Orderly(Model()) && live == if closed then {} else Elements(disposables)
    }

    /** `works` says which of the five subscriptions succeed; at the first that throws everything is given up. */
    constructor (session: SessionId, limit: nat, works: seq<bool>, a: Answers)
      requires limit > 0 && |works| == SUBSCRIPTIONS
      ensures Valid() && this.session == session && maxBufferedBytes == Limit(limit)
      ensures closed <==> false in works
      ensures !closed ==> trace == [] && disposables == FirstNumbers(SUBSCRIPTIONS)
      ensures closed ==> exists k {:trigger FailsFirst(works, k)} :: FailsFirst(works, k) && trace == GivenUp(k, a)
    {
      this.session := session;
      maxBufferedBytes := if limit < MAX_BUFFER_BYTES then limit else MAX_BUFFER_BYTES;
      closed, disposables, trace, live := false, [], [], {};
      new;
      var k := 0;
      while k < SUBSCRIPTIONS && works[k]
        invariant 0 <= k <= SUBSCRIPTIONS && !closed && trace == [] && disposables == FirstNumbers(k) && Valid()
        invariant forall j :: 0 <= j < k ==> works[j]
      {
        disposables, live := disposables + [k], live + {k};
        k := k + 1;
      }
      if k < SUBSCRIPTIONS {
        Shutdown(true, a);
        assert FailsFirst(works, k) && trace == GivenUp(k, a);
      }
    }

    /** A disposal that throws is logged and does not stop the others. */
    method DisposeAll()
      requires live == Elements(disposables)
      modifies `trace, `live
      ensures trace == old(trace) + Disposals(disposables) && live == {}
    {
      for k := 0 to |disposables|
        invariant trace == old(trace) + Disposals(disposables)[..k]
        invariant live == Elements(disposables) - Elements(disposables[..k])
      {
        live := live - {disposables[k]};
        trace := trace + [Dispose(disposables[k])];
      }
    }

    /** A socket that stays OPEN after its close is terminated. */
    method LetGoOfSocket(closeSocket: bool, a: Answers)
      modifies `trace
      ensures trace == old(trace) + SocketEffects(closeSocket, a)
    {
      if closeSocket && a.openAtShutdown {
        trace := trace + [CloseSocket];
        if a.openAfterClose {
          trace := trace + [TerminateSocket];
        }
      }
    }

    /** `shutdown`: acts once, and is through when it returns. */
    method Shutdown(closeSocket: bool, a: Answers)
      requires Valid()
      modifies `closed, `trace, `live
      ensures Valid() && closed && live == {}
      ensures Model() == Shut(old(Model()), closeSocket, a)
    {
      ghost var start := Model();
      ShutIsOrderly(start, closeSocket, a);
      if closed {
        return;
      }
      closed := true;
      DisposeAll();
      trace := trace + [Kill];
      LetGoOfSocket(closeSocket, a);
      assert trace == Shut(start, closeSocket, a).trace;
    }

    /** `write` or `resize` after the activity mark. */
    method Apply(effect: Effect, a: Answers)
      requires Valid() && !closed && !Final(effect) && (effect.Send? ==> effect.queued < maxBufferedBytes)
      modifies `closed, `trace, `live
      ensures Valid() && Model() == Applied(Did(old(Model()), Mark), effect, a)
    {
      DidIsOrderly(Model(), Mark);
      DidIsOrderly(Did(Model(), Mark), effect);
      trace := trace + [Mark] + [effect];
      if !a.works {
        Shutdown(true, a);
      }
    }

    method HandleMessage(frame: Frame, a: Answers)
      requires Valid()
      modifies `closed, `trace, `live
      ensures Valid() && Model() == Step(old(Model()), Received(frame), a)
    {
      if closed {
        return;
      }
      if frame.Malformed? || frame.session != session {
        Shutdown(true, a);
        return;
      }
      match frame.body {
        case Input(data) =>
          if a.authenticates {
            Apply(Write(data), a);
          } else {
            Shutdown(true, a);
          }
        case Resize(cols, rows) =>
          Apply(SetSize(cols, rows), a);
      }
    }

    method HandleOutput(queued: nat, a: Answers)
      requires Valid()
      modifies `closed, `trace, `live
      ensures Valid() && Model() == Step(old(Model()), Output(queued), a)
    {
      if closed {
        return;
      }
      if a.openAtSend && queued < maxBufferedBytes {
        Apply(Send(queued), a);
        return;
      }
      DidIsOrderly(Model(), Mark);
      trace := trace + [Mark];
      if a.openAtSend {
        Shutdown(true, a);
      }
    }

    /** The exit of the PTY: an error message if the socket can take it, then the shutdown. */
    method HandleExit(queued: nat, a: Answers)
      requires Valid()
      modifies `closed, `trace, `live
      ensures Valid() && Model() == Step(old(Model()), Exited(queued), a)
    {
      if closed {
        return;
      }
      if a.openAtSend && queued < maxBufferedBytes {
        DidIsOrderly(Model(), Send(queued));
        trace := trace + [Send(queued)];
      }
      Shutdown(true, a);
    }

    /** What the registry calls.  The bridge is closed when the call returns, before its promise is awaited: this is
        what `SessionLifecycle.CallBegins` relies on. */
    method CloseBridge(a: Answers)
      requires Valid()
      modifies `closed, `trace, `live
      ensures Valid() && closed && live == {} && Model() == Step(old(Model()), Close, a)
    {
      Shutdown(true, a);
    }
  }

  /** `new TerminalBridge`: None is the exception, after which nothing is left subscribed and the PTY has been killed;
      only a limit that is no positive number is refused before the bridge has taken anything over. */
  method Create(session: SessionId, limit: int, works: seq<bool>, a: Answers)
    returns (bridge: Option<TerminalBridge>, ghost trace: seq<Effect>)
    requires |works| == SUBSCRIPTIONS
    ensures bridge.Some? <==> limit > 0 && false !in works
    ensures bridge.Some? ==> fresh(bridge.value) && bridge.value.Valid() && !bridge.value.closed && trace == []
    ensures bridge.None? && limit <= 0 ==> trace == []
    ensures bridge.None? && limit > 0 ==>
              exists k {:trigger FailsFirst(works, k)} :: FailsFirst(works, k) && trace == GivenUp(k, a)
  {
    trace := [];
    if limit <= 0 {
      return None, trace;
    }
    var made := new TerminalBridge(session, limit, works, a);
    trace := made.trace;
    bridge := if made.closed then None else Some(made);
  }
}
