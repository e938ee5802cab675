/**
 The whole example server: the accept loop whose connection handler starts echo sessions, on one
 event loop, until a signal stops both.
 */
module ServerRun {
  import opened Base16
  import opened Cursors
  import opened Echo
  import opened Options
  import AcceptLoop
  import EchoServer

  /** `created` names the session started for each connection handled, in that order. */
  datatype System = System(server: AcceptLoop.Server, loop: EchoServer.Loop, created: seq<nat>)

  /**
   Deliver runs one completion of an accept: the handler allocates a session `id` and starts it,
   `closed` being what its guard sees. Signal runs the signal handler, which stops the server and
   then the loop.
   */
  datatype Event =
    | Accepting(accept: AcceptLoop.Event)
    | Deliver(id: nat, session: Session, closed: bool)
    | OnSession(id: nat, event: Echo.Event)
    | Signal

  const START := System(AcceptLoop.FRESH, EchoServer.START, [])

  /** A stopped loop runs no handler and asks the kernel for nothing; allocation gives a new object. */
  predicate Enabled(w: System, e: Event) {
    match e
    case Accepting(event) =>
      && !event.RunCompletion? && AcceptLoop.Enabled(w.server, event)
      && (event.KernelAccepts? || event.KernelFails? ==> !w.loop.stopped)
    case Deliver(id, session, _) =>
      && !w.loop.stopped && AcceptLoop.Enabled(w.server, AcceptLoop.RunCompletion(false))
      && id !in w.loop.sessions && Initial(session)
    case OnSession(id, event) => EchoServer.CanHappen(w.loop, EchoServer.On(id, event))
    case Signal => !w.loop.stopped && AcceptLoop.Enabled(w.server, AcceptLoop.Stop)
  }

  /** The step of the accept loop in this step, if there is one. */
  function ServerPart(e: Event): seq<AcceptLoop.Event> {
    match e
    case Accepting(event) => [event]
    case Deliver(_, _, _) => [AcceptLoop.RunCompletion(false)]
    case OnSession(_, _) => []
    case Signal => [AcceptLoop.Stop]
  }

  /** The step of the sessions in this step, if there is one. */
  function LoopPart(w: System, e: Event): seq<EchoServer.LoopEvent>
    requires Enabled(w, e)
  {
    match e
    case Accepting(_) => []
    case Deliver(id, session, closed) =>
      if w.server.queue[0].Connected? && w.server.hasHandler then [EchoServer.Connect(id, session, closed)] else []
    case OnSession(id, event) => [EchoServer.On(id, event)]
    case Signal => [EchoServer.Stop]
  }

  function Step(alphabet: seq<byte>, w: System, e: Event): System
    requires |alphabet| == 16 && Enabled(w, e)
  {
    var server, loop := ServerPart(e), LoopPart(w, e);
    System(
      if server == [] then w.server else AcceptLoop.Step(w.server, server[0]),
      if loop == [] then w.loop else EchoServer.Next(alphabet, w.loop, loop[0]),
      if loop != [] && loop[0].Connect? then w.created + [loop[0].id] else w.created)
  }

  predicate Feasible(alphabet: seq<byte>, w: System, es: seq<Event>)
    requires |alphabet| == 16
    decreases es
  {
    es == [] || (Enabled(w, es[0]) && Feasible(alphabet, Step(alphabet, w, es[0]), es[1..]))
  }

  function Run(alphabet: seq<byte>, w: System, es: seq<Event>): System
    requires |alphabet| == 16 && Feasible(alphabet, w, es)
    decreases es
  {
    if es == [] then w else Run(alphabet, Step(alphabet, w, es[0]), es[1..])
  }

  // ---------------------------------------------------------------------------------------
  // A run of the server is a run of each of its parts.

  function ServerEvents(es: seq<Event>): seq<AcceptLoop.Event> {
    if es == [] then [] else ServerPart(es[0]) + ServerEvents(es[1..])
  }

  function LoopEvents(alphabet: seq<byte>, w: System, es: seq<Event>): seq<EchoServer.LoopEvent>
    requires |alphabet| == 16 && Feasible(alphabet, w, es)
    decreases es
  {
    if es == [] then [] else LoopPart(w, es[0]) + LoopEvents(alphabet, Step(alphabet, w, es[0]), es[1..])
  }

  lemma {:induction false} RunsTheAcceptLoop(alphabet: seq<byte>, w: System, es: seq<Event>)
    requires |alphabet| == 16 && Feasible(alphabet, w, es)
    ensures AcceptLoop.Feasible(w.server, ServerEvents(es))
    ensures Run(alphabet, w, es).server == AcceptLoop.Run(w.server, ServerEvents(es))
    decreases es
  {
    if es != [] {
      RunsTheAcceptLoop(alphabet, Step(alphabet, w, es[0]), es[1..]);
      var first, rest := ServerPart(es[0]), ServerEvents(es[1..]);
      assert first == [] ==> first + rest == rest;
      assert first != [] ==> (first + rest)[0] == first[0] && (first + rest)[1..] == rest;
    }
  }

  lemma {:induction false} RunsTheSessions(alphabet: seq<byte>, w: System, es: seq<Event>)
    requires |alphabet| == 16 && Feasible(alphabet, w, es)
    ensures EchoServer.Feasible(alphabet, w.loop, LoopEvents(alphabet, w, es))
    ensures Run(alphabet, w, es).loop == EchoServer.Run(alphabet, w.loop, LoopEvents(alphabet, w, es))
    decreases es
  {
    if es != [] {
      var next := Step(alphabet, w, es[0]);
      RunsTheSessions(alphabet, next, es[1..]);
      var first, rest := LoopPart(w, es[0]), LoopEvents(alphabet, next, es[1..]);
      assert first == [] ==> first + rest == rest;
      assert first != [] ==> (first + rest)[0] == first[0] && (first + rest)[1..] == rest;
    }
  }

  // ---------------------------------------------------------------------------------------
  // Sessions and connections.

  /** One session for each handled connection, all different, and no other. */
  predicate Paired(w: System) {
    && |w.created| == |w.server.handled|
    && (forall i, j | 0 <= i < j < |w.created| :: w.created[i] != w.created[j])
    && (forall id | id in w.loop.sessions :: id in w.created)
    && (forall id | id in w.created :: id in w.loop.sessions)
    && w.server.hasHandler
  }

  lemma StepKeepsPaired(alphabet: seq<byte>, w: System, e: Event)
    requires |alphabet| == 16 && Paired(w) && Enabled(w, e)
    ensures Paired(Step(alphabet, w, e))
    ensures w.created <= Step(alphabet, w, e).created
  {
    var t := Step(alphabet, w, e);
    if e.Deliver? && w.server.queue[0].Connected? {
      assert t.loop.sessions.Keys == w.loop.sessions.Keys + {e.id};
      assert forall id | id in t.created :: id in w.created || id == e.id;
      assert t.created[|w.created|] == e.id;
    } else {
      assert t.loop.sessions.Keys == w.loop.sessions.Keys;
    }
  }

  lemma {:induction false} RunKeepsPaired(alphabet: seq<byte>, w: System, es: seq<Event>)
    requires |alphabet| == 16 && Paired(w) && Feasible(alphabet, w, es)
    ensures Paired(Run(alphabet, w, es)) && w.created <= Run(alphabet, w, es).created
    decreases es
  {
    if es != [] {
      StepKeepsPaired(alphabet, w, es[0]);
      RunKeepsPaired(alphabet, Step(alphabet, w, es[0]), es[1..]);
    }
  }

  /**
   Over every run of the whole server, the sessions are exactly one for each connection handed to
   the handler, and those are the accepted connections, in accept order, but for one at most whose
   completion has not run.
   */
  lemma OneSessionPerConnection(alphabet: seq<byte>, es: seq<Event>)
    requires |alphabet| == 16 && Feasible(alphabet, START, es)
    ensures var t := Run(alphabet, START, es);
            && |t.created| == |t.server.handled|
            && (forall i, j | 0 <= i < j < |t.created| :: t.created[i] != t.created[j])
            && (forall id :: id in t.loop.sessions <==> id in t.created)
            && t.server.handled <= t.server.accepted && |t.server.accepted| <= |t.server.handled| + 1
  {
    RunKeepsPaired(alphabet, START, es);
    RunsTheAcceptLoop(alphabet, START, es);
    AcceptLoop.EachConnectionHandledOnce(START.server, ServerEvents(es));
  }

  /** After stop() of the server, from any reachable state, at most one more session is created. */
  lemma StopAllowsOneMoreSession(alphabet: seq<byte>, before: seq<Event>, after: seq<Event>)
    requires |alphabet| == 16 && Feasible(alphabet, START, before)
    requires Enabled(Run(alphabet, START, before), Accepting(AcceptLoop.Stop))
    requires var stopped := Step(alphabet, Run(alphabet, START, before), Accepting(AcceptLoop.Stop));
             Feasible(alphabet, stopped, after)
    ensures var was := Run(alphabet, START, before);
            var t := Run(alphabet, Step(alphabet, was, Accepting(AcceptLoop.Stop)), after);
            was.created <= t.created && |t.created| <= |was.created| + 1
  {
    var was := Run(alphabet, START, before);
    var stopped := Step(alphabet, was, Accepting(AcceptLoop.Stop));
    RunKeepsPaired(alphabet, START, before);
    StepKeepsPaired(alphabet, was, Accepting(AcceptLoop.Stop));
    RunKeepsPaired(alphabet, stopped, after);
    RunsTheAcceptLoop(alphabet, START, before);
    RunsTheAcceptLoop(alphabet, stopped, after);
    AcceptLoop.StopEndsAccepting(START.server, ServerEvents(before), ServerEvents(after));
  }

  /** What each step does to either part. */
  lemma StepOfParts(alphabet: seq<byte>, w: System, e: Event)
    requires |alphabet| == 16 && Enabled(w, e)
    ensures var t := Step(alphabet, w, e);
            match e
            case Accepting(accept) => t.server == AcceptLoop.Step(w.server, accept) && t.loop == w.loop
            case Deliver(_, _, _) => t.server == AcceptLoop.Step(w.server, AcceptLoop.RunCompletion(false))
            case OnSession(id, event) =>
              t.server == w.server && t.loop == EchoServer.Next(alphabet, w.loop, EchoServer.On(id, event))
            case Signal =>
              && t.server.acceptor == AcceptLoop.Present(false) && t.server.waiting == 0
              && t.loop == w.loop.(stopped := true)
  {
  }

  /** A stopped loop over a closed acceptor accepts, posts, hands over and creates nothing. */
  lemma {:induction false} StoppedAndClosed(alphabet: seq<byte>, w: System, es: seq<Event>)
    requires |alphabet| == 16 && Feasible(alphabet, w, es)
    requires w.loop.stopped && w.server.acceptor == AcceptLoop.Present(false) && w.server.waiting == 0
    ensures var t := Run(alphabet, w, es);
            && t.loop == w.loop && t.created == w.created
            && t.server.acceptor == AcceptLoop.Present(false) && t.server.waiting == 0
            && t.server.posted == w.server.posted && t.server.accepted == w.server.accepted
            && t.server.handled == w.server.handled
    decreases es
  {
    if es != [] {
      StoppedAndClosed(alphabet, Step(alphabet, w, es[0]), es[1..]);
    }
  }

  /**
   The signal closes the acceptor and gives up its accept, and after it no run opens the acceptor,
   posts or accepts anything, calls the connection handler, or creates a session.
   */
  lemma SignalStopsTheServer(alphabet: seq<byte>, w: System, after: seq<Event>)
    requires |alphabet| == 16 && Enabled(w, Signal) && Feasible(alphabet, Step(alphabet, w, Signal), after)
    ensures var signalled := Step(alphabet, w, Signal);
            && signalled.server.acceptor == AcceptLoop.Present(false) && signalled.server.waiting == 0
            && signalled.loop.stopped
            && var t := Run(alphabet, signalled, after);
               && t.server.acceptor == AcceptLoop.Present(false) && t.server.waiting == 0
               && t.server.posted == w.server.posted && t.server.accepted == w.server.accepted
               && t.server.handled == w.server.handled && t.created == w.created
  {
    StepOfParts(alphabet, w, Signal);
    StoppedAndClosed(alphabet, Step(alphabet, w, Signal), after);
  }

  /** After the signal no session is created or changed, nor is the counter that is printed then. */
  lemma SignalEndsEverything(alphabet: seq<byte>, w: System, after: seq<Event>)
    requires |alphabet| == 16 && Enabled(w, Signal) && Feasible(alphabet, Step(alphabet, w, Signal), after)
    ensures var signalled := Step(alphabet, w, Signal);
            && Run(alphabet, signalled, after).loop == signalled.loop
            && signalled.loop.sessions == w.loop.sessions && signalled.loop.nbSessions == w.loop.nbSessions
  {
    var signalled := Step(alphabet, w, Signal);
    RunsTheSessions(alphabet, signalled, after);
    EchoServer.StopFreezesTheSessions(alphabet, signalled.loop, LoopEvents(alphabet, signalled, after));
  }

  /**
   End to end: what the server sent to its i-th connection is a prefix of the answers to what it
   took from it, decodes to the input it answers, and the counter counts the sessions still alive.
   */
  lemma EveryConnectionIsEchoed(alphabet: seq<byte>, es: seq<Event>, i: nat)
    requires IsAlphabet(alphabet) && Feasible(alphabet, START, es)
    requires i < |Run(alphabet, START, es).server.handled|
    ensures var t := Run(alphabet, START, es);
            && |t.created| == |t.server.handled| && t.created[i] in t.loop.sessions
            && t.loop.nbSessions == |EchoServer.Live(t.loop)|
            && var s := t.loop.sessions[t.created[i]];
               && s.sent <= Answers(alphabet, s.taken)
               && IN_SIZE * (|s.sent| / OUT_SIZE) <= |s.taken|
               && Understood(alphabet, s.sent) == Some(s.taken[..IN_SIZE * (|s.sent| / OUT_SIZE)])
  {
    RunKeepsPaired(alphabet, START, es);
    RunsTheSessions(alphabet, START, es);
    var t := Run(alphabet, START, es);
    assert t.created[i] in t.created;
    EchoServer.EchoIsFaithful(alphabet, LoopEvents(alphabet, START, es), t.created[i]);
    EchoServer.CounterCountsLiveSessions(alphabet, LoopEvents(alphabet, START, es));
  }
}
