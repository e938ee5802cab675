/**
 The accept loop of the asynchronous server: accept, hand over, and post the next accept while
 the acceptor is open.

 The kernel finishing an accept and the loop running its completion are separate steps, so that
 stop() can come between them, or from inside the connection handler.
 */
module AcceptLoop {

  /** The acceptor implementation exists from the first `open` on, whether that worked or not. */
  datatype Acceptor = Absent | Present(isOpen: bool)

  datatype Completion = Connected(conn: nat) | Broken

  /**
   `waiting` counts accepts the kernel has not finished, `queue` holds finished ones whose
   completion has not run. The rest is history: accepts posted, connections the kernel accepted,
   connections given to the handler, accepts that ended in an error.
   */
  datatype Server = Server(
    acceptor: Acceptor,
    hasHandler: bool,
    listening: bool,
    waiting: nat,
    queue: seq<Completion>,
    posted: nat,
    accepted: seq<nat>,
    handled: seq<nat>,
    broken: nat)

  /** Opening can fail before or after the acceptor's own socket is open. */
  datatype Opening = Listening | FailedClosed | FailedOpen

  datatype Event =
    | StartListen(opening: Opening)
    | KernelAccepts(conn: nat)
    | KernelFails
    | RunCompletion(handlerStops: bool)
    | Stop

  /** A server with a connection handler that has not been asked to listen yet. */
  const FRESH := Server(Absent, true, false, 0, [], 0, [], [], 0)

  predicate Initial(s: Server) {
    && s.acceptor.Absent? && !s.listening && s.waiting == 0 && s.queue == []
    && s.posted == 0 && s.accepted == s.handled == [] && s.broken == 0
  }

  predicate Enabled(s: Server, e: Event) {
    match e
    case StartListen(_) => true
    case KernelAccepts(_) => s.waiting > 0 && s.acceptor == Present(true)
    case KernelFails => s.waiting > 0 && s.acceptor == Present(true)
    case RunCompletion(stops) => s.queue != [] && s.acceptor.Present? && (stops ==> s.hasHandler)
    case Stop => s.acceptor.Present?
  }

  function Aborted(n: nat): seq<Completion> {
    seq(n, _ => Broken)
  }

  /** Closing the acceptor makes the kernel finish its accepts with an error. */
  function Close(s: Server): Server {
    s.(acceptor := Present(false), waiting := 0, queue := s.queue + Aborted(s.waiting),
       broken := s.broken + s.waiting)
  }

  function PostAccept(s: Server): Server {
    s.(waiting := s.waiting + 1, posted := s.posted + 1)
  }

  /** The continuation of an accept: call the handler if there is one, then go on if still open. */
  function Continue(s: Server, conn: nat, handlerStops: bool): Server
    requires s.acceptor.Present?
  {
    var called := if s.hasHandler then s.(handled := s.handled + [conn]) else s;
    var after := if handlerStops then Close(called) else called;
    if after.acceptor.isOpen then PostAccept(after) else after
  }

  function Step(s: Server, e: Event): Server
    requires Enabled(s, e)
  {
    match e
    case StartListen(opening) =>
      if s.acceptor.Present? then s
      else if opening.Listening? then PostAccept(s.(acceptor := Present(true), listening := true))
      else s.(acceptor := Present(opening.FailedOpen?))
    case KernelAccepts(conn) =>
      s.(waiting := s.waiting - 1, queue := s.queue + [Connected(conn)], accepted := s.accepted + [conn])
    case KernelFails => s.(waiting := s.waiting - 1, queue := s.queue + [Broken], broken := s.broken + 1)
    case RunCompletion(stops) =>
      var rest := s.(queue := s.queue[1..]);
      if s.queue[0].Connected? then Continue(rest, s.queue[0].conn, stops) else rest
    case Stop => Close(s)
  }

  predicate Feasible(s: Server, es: seq<Event>)
    decreases es
  {
    es == [] || (Enabled(s, es[0]) && Feasible(Step(s, es[0]), es[1..]))
  }

  function Run(s: Server, es: seq<Event>): Server
    requires Feasible(s, es)
    decreases es
  {
    if es == [] then s else Run(Step(s, es[0]), es[1..])
  }

  /** The connections among queued completions. */
  function Connections(queue: seq<Completion>): seq<nat> {
    if queue == [] then []
    else (if queue[0].Connected? then [queue[0].conn] else []) + Connections(queue[1..])
  }

  /** At most one accept is on its way, finished or not; nothing accepted is lost or reordered. */
  predicate Inv(s: Server) {
    && s.waiting + |s.queue| <= 1
    && (s.waiting + |s.queue| > 0 ==> s.acceptor.Present?)
    && (s.waiting > 0 ==> s.acceptor == Present(true))
    && (s.hasHandler ==> s.handled + Connections(s.queue) == s.accepted)
    && (!s.hasHandler ==> s.handled == [])
    && s.posted == |s.accepted| + s.broken + s.waiting
    && (!s.listening ==> s.posted == 0 && s.queue == [])
    && (s.acceptor.Absent? ==> !s.listening)
    && (s.listening && s.acceptor == Present(true) ==>
          (s.waiting + |Connections(s.queue)| == 1 <==> s.broken == 0))
  }

  lemma StartKeepsInv(s: Server, opening: Opening)
    requires Inv(s)
    ensures Inv(Step(s, StartListen(opening)))
  {
  }

  lemma KernelKeepsInv(s: Server, c: Completion)
    requires Inv(s) && s.waiting > 0 && s.acceptor == Present(true)
    ensures Inv(Step(s, if c.Connected? then KernelAccepts(c.conn) else KernelFails))
  {
    assert s.queue == [];
  }

  lemma CompletionKeepsInv(s: Server, stops: bool)
    requires Inv(s) && Enabled(s, RunCompletion(stops))
    ensures Inv(Step(s, RunCompletion(stops)))
  {
    assert s.queue == [s.queue[0]];
    assert s.queue[1..] + Aborted(0) == [];
  }

  lemma CloseKeepsInv(s: Server)
    requires Inv(s) && s.acceptor.Present?
    ensures Inv(Close(s))
  {
    assert Aborted(0) == [] && Aborted(1) == [Broken];
    assert s.queue + [] == s.queue && [] + Aborted(1) == [Broken];
  }

  lemma StepKeepsInv(s: Server, e: Event)
    requires Inv(s) && Enabled(s, e)
    ensures Inv(Step(s, e))
  {
    match e
    case StartListen(opening) => StartKeepsInv(s, opening);
    case KernelAccepts(conn) => KernelKeepsInv(s, Connected(conn));
    case KernelFails => KernelKeepsInv(s, Broken);
    case RunCompletion(stops) => CompletionKeepsInv(s, stops);
    case Stop => CloseKeepsInv(s);
  }

  lemma {:induction false} RunKeepsInv(s: Server, es: seq<Event>)
    requires Inv(s) && Feasible(s, es)
    ensures Inv(Run(s, es))
    decreases es
  {
    if es != [] {
      StepKeepsInv(s, es[0]);
      RunKeepsInv(Step(s, es[0]), es[1..]);
    }
  }

  /** In every reachable state at most one accept is outstanding. */
  lemma AtMostOneAccept(s: Server, es: seq<Event>)
    requires Initial(s) && Feasible(s, es)
    ensures var t := Run(s, es); t.waiting + |t.queue| <= 1
  {
    RunKeepsInv(s, es);
  }

  /**
   The handler has seen exactly the accepted connections, once each and in accept order, but for
   one whose completion the loop has not run yet.
   */
  lemma EachConnectionHandledOnce(s: Server, es: seq<Event>)
    requires Initial(s) && s.hasHandler && Feasible(s, es)
    ensures var t := Run(s, es);
            && t.handled + Connections(t.queue) == t.accepted && |Connections(t.queue)| <= 1
            && (t.queue == [] ==> t.handled == t.accepted)
  {
    HandlerIsFixed(s, es);
    RunKeepsInv(s, es);
  }

  lemma {:induction false} HandlerIsFixed(s: Server, es: seq<Event>)
    requires Feasible(s, es)
    ensures Run(s, es).hasHandler == s.hasHandler
    decreases es
  {
    if es != [] {
      HandlerIsFixed(Step(s, es[0]), es[1..]);
    }
  }

  /**
   While it is open, the server has an accept going or a connection to hand over exactly as long
   as no accept has failed: the first error ends the loop, silently.
   */
  lemma FirstErrorEndsTheLoop(s: Server, es: seq<Event>)
    requires Initial(s) && Feasible(s, es)
    requires Run(s, es).listening && Run(s, es).acceptor == Present(true)
    ensures var t := Run(s, es);
            t.waiting + |Connections(t.queue)| == 1 <==> t.broken == 0
  {
    RunKeepsInv(s, es);
  }

  /** A run where one failed accept leaves an open server that will never accept again. */
  lemma OneErrorSilencesAnOpenServer()
    ensures var es := [StartListen(Listening), KernelFails, RunCompletion(false)];
            && Initial(FRESH) && Feasible(FRESH, es)
            && var t := Run(FRESH, es);
               t.listening && t.acceptor == Present(true) && t.waiting == 0 && t.queue == []
  {
    var last := [RunCompletion(false)];
    var failed := Step(Step(FRESH, StartListen(Listening)), KernelFails);
    assert Feasible(failed, last) && Run(failed, last) == Step(failed, last[0]);
    assert ([KernelFails] + last)[1..] == last;
    assert [StartListen(Listening), KernelFails, RunCompletion(false)][1..] == [KernelFails] + last;
  }

  /** A run where the first startListen fails and the second one is refused. */
  lemma SecondStartIsRefused()
    ensures var es := [StartListen(FailedClosed), StartListen(Listening)];
            && Feasible(FRESH, es)
            && var t := Run(FRESH, es);
               !t.listening && t.posted == 0 && t.acceptor == Present(false)
  {
    var last := [StartListen(Listening)];
    var failed := Step(FRESH, StartListen(FailedClosed));
    assert Run(failed, last) == Step(failed, last[0]);
    assert [StartListen(FailedClosed), StartListen(Listening)][1..] == last;
  }

  /** One step of a closed server hands over its queued connection or leaves it. */
  lemma ClosedStep(s: Server, e: Event)
    requires Inv(s) && s.acceptor == Present(false) && Enabled(s, e)
    ensures var t := Step(s, e);
            && t.acceptor == Present(false) && t.hasHandler == s.hasHandler
            && t.posted == s.posted && t.accepted == s.accepted
            && (|| (t.handled == s.handled && (t.queue == [] || Connections(t.queue) == Connections(s.queue)))
                || (t.hasHandler && t.queue == [] && t.handled == s.handled + Connections(s.queue)))
  {
    if s.queue != [] {
      assert s.queue == [s.queue[0]];
    }
    assert Aborted(0) == [] && s.queue + [] == s.queue;
  }

  /**
   Once the acceptor is closed, no run posts an accept again, and the handler sees at most the
   one connection that was already queued. A new startListen changes nothing.
   */
  lemma {:induction false} ClosedForGood(s: Server, es: seq<Event>)
    requires Inv(s) && s.acceptor == Present(false) && Feasible(s, es)
    ensures var t := Run(s, es);
            && t.acceptor == Present(false) && t.posted == s.posted && t.accepted == s.accepted
            && (t.handled == s.handled || (s.hasHandler && t.handled == s.handled + Connections(s.queue)))
    decreases es
  {
    if es != [] {
      ClosedStep(s, es[0]);
      StepKeepsInv(s, es[0]);
      ClosedForGood(Step(s, es[0]), es[1..]);
    }
  }

  /** After stop(): the same, from any reachable state of the server. */
  lemma StopEndsAccepting(s: Server, before: seq<Event>, after: seq<Event>)
    requires Initial(s) && Feasible(s, before) && Run(s, before).acceptor.Present?
    requires Feasible(Step(Run(s, before), Stop), after)
    ensures var stopped := Run(s, before);
            var t := Run(Step(stopped, Stop), after);
            && t.posted == stopped.posted
            && stopped.handled <= t.handled && |t.handled| <= |stopped.handled| + 1
  {
    RunKeepsInv(s, before);
    var stopped := Run(s, before);
    StepKeepsInv(stopped, Stop);
    ClosedForGood(Step(stopped, Stop), after);
  }

  /** After a stop() called from the handler, there is no further call at all. */
  lemma StopFromHandlerEndsAtOnce(s: Server, before: seq<Event>, after: seq<Event>)
    requires Initial(s) && Feasible(s, before)
    requires Enabled(Run(s, before), RunCompletion(true)) && Run(s, before).queue[0].Connected?
    requires Feasible(Step(Run(s, before), RunCompletion(true)), after)
    ensures var stopped := Step(Run(s, before), RunCompletion(true));
            var t := Run(stopped, after);
            t.posted == stopped.posted == Run(s, before).posted && t.handled == stopped.handled
  {
    RunKeepsInv(s, before);
    var was := Run(s, before);
    StepKeepsInv(was, RunCompletion(true));
    assert Aborted(0) == [];
    assert was.queue[1..] == [];
    var stopped := Step(was, RunCompletion(true));
    assert stopped.queue == [];
    ClosedForGood(stopped, after);
    assert stopped.handled + [] == stopped.handled;
  }

  // ---------------------------------------------------------------------------------------
  // The object.

  datatype Listen = Listens | Refused | AlreadyOpened

  class AsyncServer {
    var acceptor: Acceptor
    const hasHandler: bool
    var listening: bool
    /** The operations the event loop and the kernel keep for this server. */
    var waiting: nat
    var queue: seq<Completion>
    ghost var posted: nat
    ghost var accepted: seq<nat>
    var handled: seq<nat>
    ghost var broken: nat

    ghost function View(): Server
      reads this
    {
      Server(acceptor, hasHandler, listening, waiting, queue, posted, accepted, handled, broken)
    }

    constructor (handler: bool)
      ensures Initial(View()) && hasHandler == handler
    {
      acceptor := Absent;
      hasHandler := handler;
      listening := false;
      waiting, queue, posted := 0, [], 0;
      accepted, handled, broken := [], [], 0;
    }

    /** `Acceptor::open` refuses to open twice, even after a failure or a close. */
    method OpenAcceptor(opening: Opening) returns (r: Listen)
      modifies `acceptor
      ensures r.AlreadyOpened? <==> old(acceptor).Present?
      ensures r.AlreadyOpened? ==> acceptor == old(acceptor)
      ensures !r.AlreadyOpened? ==> acceptor == Present(!opening.FailedClosed?) && (r.Listens? <==> opening.Listening?)
    {
      if acceptor.Present? {
        return AlreadyOpened;
      }
      acceptor := Present(!opening.FailedClosed?);
      r := if opening.Listening? then Listens else Refused;
    }

    method StartListening(opening: Opening) returns (r: Listen)
      modifies this
      ensures View() == Step(old(View()), StartListen(opening))
      ensures r == if old(acceptor).Present? then AlreadyOpened
                   else if opening.Listening? then Listens else Refused
    {
      r := OpenAcceptor(opening);
      if r.Listens? {
        listening := true;
        DoAcceptSession();
      }
    }

    /** Post one accept. */
    method DoAcceptSession()
      modifies `waiting, `posted
      ensures View() == PostAccept(old(View()))
    {
      waiting := waiting + 1;
      posted := posted + 1;
    }

    method KernelFinishes(c: Completion)
      requires Enabled(View(), if c.Connected? then KernelAccepts(c.conn) else KernelFails)
      modifies this
      ensures View() == Step(old(View()), if c.Connected? then KernelAccepts(c.conn) else KernelFails)
    {
      waiting := waiting - 1;
      queue := queue + [c];
      if c.Connected? {
        accepted := accepted + [c.conn];
      } else {
        broken := broken + 1;
      }
    }

    /** Run the first queued completion; an error resolves the future and nothing follows it. */
    method RunOne(handlerStops: bool)
      requires Enabled(View(), RunCompletion(handlerStops))
      modifies this
      ensures View() == Step(old(View()), RunCompletion(handlerStops))
    {
      var c := queue[0];
      queue := queue[1..];
      if c.Connected? {
        if hasHandler {
          handled := handled + [c.conn];
          if handlerStops {
            StopServer();
          }
        }
        if acceptor.isOpen {
          DoAcceptSession();
        }
      }
    }

    method StopServer()
      requires acceptor.Present?
      modifies this
      ensures View() == Close(old(View()))
    {
      acceptor := Present(false);
      queue := queue + seq(waiting, _ => Broken);
      broken := broken + waiting;
      waiting := 0;
    }
  }
}
