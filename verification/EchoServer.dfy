/**
 Any number of echo sessions on one event loop: every interleaving of their steps, as runs.
 */
module EchoServer {
  import opened Cursors
  import opened Base16
  import opened Options
  import opened Echo

  /** `nbSessions` is the static counter that constructors and destructors of sessions keep. */
  datatype Loop = Loop(sessions: map<nat, Session>, stopped: bool, nbSessions: int)

  /**
   Connect is the whole connection handler: build a session, then call `doRead` once.
   The flag of Connect and of a write handler says what the guard in `doRead` sees.
   Stop is the loop's own: from then on it runs no handler and moves no byte.
   */
  datatype LoopEvent = Connect(id: nat, session: Session, stopped: bool) | On(id: nat, event: Event) | Stop

  const START := Loop(map[], false, 0)

  predicate CanHappen(w: Loop, e: LoopEvent) {
    match e
    case Connect(id, session, stopped) =>
      !w.stopped && id !in w.sessions && Initial(session)
    case On(id, event) =>
      && !w.stopped
      && id in w.sessions && WellFormed(w.sessions[id]) && Enabled(w.sessions[id], event)
      && !event.Begin?
    case Stop => true
  }

  function Next(alphabet: seq<byte>, w: Loop, e: LoopEvent): Loop
    requires |alphabet| == 16 && CanHappen(w, e)
  {
    match e
    case Connect(id, session, stopped) =>
      Settle(w.(nbSessions := w.nbSessions + 1), id, Step(alphabet, session, Begin(stopped)))
    case On(id, event) => Settle(w, id, Step(alphabet, w.sessions[id], event))
    case Stop => w.(stopped := true)
  }

  /** A session whose continuation ends drops its last owner, so its destructor runs. */
  function Settle(w: Loop, id: nat, s: Session): Loop {
    Loop(w.sessions[id := s], w.stopped, if s.phase.Ended? then w.nbSessions - 1 else w.nbSessions)
  }

  predicate Feasible(alphabet: seq<byte>, w: Loop, es: seq<LoopEvent>)
    requires |alphabet| == 16
    decreases es
  {
    es == [] || (CanHappen(w, es[0]) && Feasible(alphabet, Next(alphabet, w, es[0]), es[1..]))
  }

  function Run(alphabet: seq<byte>, w: Loop, es: seq<LoopEvent>): Loop
    requires |alphabet| == 16 && Feasible(alphabet, w, es)
    decreases es
  {
    if es == [] then w else Run(alphabet, Next(alphabet, w, es[0]), es[1..])
  }

  ghost function Live(w: Loop): set<nat> {
    set id | id in w.sessions && !w.sessions[id].phase.Ended?
  }

  ghost predicate LoopInv(alphabet: seq<byte>, w: Loop)
    requires |alphabet| == 16
  {
    && (forall id | id in w.sessions :: Running(alphabet, w.sessions[id]))
    && w.nbSessions == |Live(w)|
  }

  predicate Running(alphabet: seq<byte>, s: Session)
    requires |alphabet| == 16
  {
    Inv(alphabet, s) && !s.phase.Fresh?
  }

  lemma SettleKeepsLoopInv(alphabet: seq<byte>, w: Loop, id: nat, s: Session)
    requires |alphabet| == 16 && Running(alphabet, s)
    requires forall i | i in w.sessions :: Running(alphabet, w.sessions[i])
    requires w.nbSessions == |Live(w) + {id}|
    ensures LoopInv(alphabet, Settle(w, id, s))
  {
    SettleKeepsCount(w, id, s);
    forall i | i in Settle(w, id, s).sessions ensures Running(alphabet, Settle(w, id, s).sessions[i]) {
      if i != id {
        assert Settle(w, id, s).sessions[i] == w.sessions[i];
      }
    }
  }

  lemma LiveAfterSettle(w: Loop, id: nat, s: Session)
    ensures Live(Settle(w, id, s)) == if s.phase.Ended? then Live(w) - {id} else Live(w) + {id}
  {
  }

  lemma SettleKeepsCount(w: Loop, id: nat, s: Session)
    requires w.nbSessions == |Live(w) + {id}|
    ensures Settle(w, id, s).nbSessions == |Live(Settle(w, id, s))|
  {
    LiveAfterSettle(w, id, s);
    assert Live(w) - {id} == Live(w) + {id} - {id};
  }

  lemma ConnectKeepsLoopInv(alphabet: seq<byte>, w: Loop, id: nat, session: Session, stopped: bool)
    requires |alphabet| == 16 && LoopInv(alphabet, w) && CanHappen(w, Connect(id, session, stopped))
    ensures LoopInv(alphabet, Next(alphabet, w, Connect(id, session, stopped)))
  {
    assert id !in Live(w);
    assert Running(alphabet, Step(alphabet, session, Begin(stopped))) by {
      StepKeepsInv(alphabet, session, Begin(stopped));
    }
    SettleKeepsLoopInv(alphabet, w.(nbSessions := w.nbSessions + 1), id, Step(alphabet, session, Begin(stopped)));
  }

  lemma OnKeepsLoopInv(alphabet: seq<byte>, w: Loop, id: nat, event: Event)
    requires |alphabet| == 16 && LoopInv(alphabet, w) && CanHappen(w, On(id, event))
    ensures LoopInv(alphabet, Next(alphabet, w, On(id, event)))
  {
    assert Live(w) + {id} == Live(w);
    assert Running(alphabet, Step(alphabet, w.sessions[id], event)) by {
      StepKeepsInv(alphabet, w.sessions[id], event);
    }
    SettleKeepsLoopInv(alphabet, w, id, Step(alphabet, w.sessions[id], event));
  }

  lemma NextKeepsLoopInv(alphabet: seq<byte>, w: Loop, e: LoopEvent)
    requires |alphabet| == 16 && LoopInv(alphabet, w) && CanHappen(w, e)
    ensures LoopInv(alphabet, Next(alphabet, w, e))
  {
    match e
    case Connect(id, session, stopped) => ConnectKeepsLoopInv(alphabet, w, id, session, stopped);
    case On(id, event) => OnKeepsLoopInv(alphabet, w, id, event);
    case Stop => assert Live(Next(alphabet, w, e)) == Live(w);
  }

  lemma {:induction false} RunKeepsLoopInv(alphabet: seq<byte>, w: Loop, es: seq<LoopEvent>)
    requires |alphabet| == 16 && LoopInv(alphabet, w) && Feasible(alphabet, w, es)
    ensures LoopInv(alphabet, Run(alphabet, w, es))
    decreases es
  {
    if es != [] {
      NextKeepsLoopInv(alphabet, w, es[0]);
      RunKeepsLoopInv(alphabet, Next(alphabet, w, es[0]), es[1..]);
    }
  }

  /**
   After any run of any number of interleaved sessions, each session has sent a prefix of the
   answers to the complete chunks it took; while it waits in a read it has sent all of them
   exactly until the read is full; and what it sent decodes to the input it answered.
   */
  lemma EchoIsFaithful(alphabet: seq<byte>, es: seq<LoopEvent>, id: nat)
    requires IsAlphabet(alphabet) && Feasible(alphabet, START, es)
    requires id in Run(alphabet, START, es).sessions
    ensures var s := Run(alphabet, START, es).sessions[id];
            && s.sent <= Answers(alphabet, s.taken)
            && (s.phase.Reading? ==> (s.sent == Answers(alphabet, s.taken) <==> s.phase.op.moved < IN_SIZE))
            && IN_SIZE * (|s.sent| / OUT_SIZE) <= |s.taken|
            && Understood(alphabet, s.sent) == Some(s.taken[..IN_SIZE * (|s.sent| / OUT_SIZE)])
  {
    assert Live(START) == {};
    RunKeepsLoopInv(alphabet, START, es);
    var s := Run(alphabet, START, es).sessions[id];
    UnderstoodAnswers(alphabet, s.taken, s.sent);
    SizesOfWholes(|s.sent|);
    if s.phase.Reading? {
      AnsweredUntilFull(alphabet, s);
    }
  }

  /** The counter printed at shutdown is the number of sessions that have not ended. */
  lemma CounterCountsLiveSessions(alphabet: seq<byte>, es: seq<LoopEvent>)
    requires |alphabet| == 16 && Feasible(alphabet, START, es)
    ensures Run(alphabet, START, es).nbSessions == |Live(Run(alphabet, START, es))|
  {
    assert Live(START) == {};
    RunKeepsLoopInv(alphabet, START, es);
  }

  /** The step that a waiting session is ready for. */
  function ReadyStep(s: Session, peer: byte): Event {
    match s.phase
    case Reading(op) => if op.moved < op.len then KernelRead([peer]) else ReadHandler
    case Writing(op) => if op.moved < op.len then KernelWrite(1) else WriteHandler(true)
    case _ => Fail
  }

  /**
   A session that has not ended can go on, with its transfer or its handler, exactly until the
   loop is stopped.
   */
  lemma LiveSessionsGoOnUntilTheStop(alphabet: seq<byte>, es: seq<LoopEvent>, id: nat)
    requires |alphabet| == 16 && Feasible(alphabet, START, es)
    requires id in Live(Run(alphabet, START, es))
    ensures var w := Run(alphabet, START, es);
            (exists e :: CanHappen(w, On(id, e))) <==> !w.stopped
  {
    assert Live(START) == {};
    RunKeepsLoopInv(alphabet, START, es);
    var w := Run(alphabet, START, es);
    if !w.stopped {
      assert CanHappen(w, On(id, ReadyStep(w.sessions[id], 0)));
    }
  }

  /** After the stop no session changes any more, nor does the counter: what is live dangles. */
  lemma {:induction false} StopFreezesTheSessions(alphabet: seq<byte>, w: Loop, es: seq<LoopEvent>)
    requires |alphabet| == 16 && w.stopped && Feasible(alphabet, w, es)
    ensures Run(alphabet, w, es) == w
    decreases es
  {
    if es != [] {
      StopFreezesTheSessions(alphabet, Next(alphabet, w, es[0]), es[1..]);
    }
  }

  /** A run that leaves a session live with nothing left that can happen to it. */
  lemma SessionCanDangle(alphabet: seq<byte>, session: Session)
    requires |alphabet| == 16 && Initial(session)
    ensures var es := [Connect(0, session, false), Stop];
            && Feasible(alphabet, START, es)
            && var w := Run(alphabet, START, es);
               0 in Live(w) && w.nbSessions == 1 && forall e :: !CanHappen(w, On(0, e))
  {
    var connected := Next(alphabet, START, Connect(0, session, false));
    assert connected.sessions[0] == DoRead(session, false);
    assert [Connect(0, session, false), Stop][1..] == [Stop];
    assert Run(alphabet, connected, [Stop]) == Next(alphabet, connected, Stop);
  }

  /** A run whose read is full while the line for it is still owed. */
  lemma LineCanBeOwed(alphabet: seq<byte>, session: Session, chunk: seq<byte>)
    requires |alphabet| == 16 && Initial(session) && |chunk| == IN_SIZE
    ensures var es := [Connect(0, session, false), On(0, KernelRead(chunk))];
            && Feasible(alphabet, START, es) && 0 in Run(alphabet, START, es).sessions
            && var s := Run(alphabet, START, es).sessions[0];
               s.phase.Reading? && s.sent == [] && |Answers(alphabet, s.taken)| == OUT_SIZE
  {
    var read := On(0, KernelRead(chunk));
    var connected := Next(alphabet, START, Connect(0, session, false));
    assert connected.sessions[0] == DoRead(session, false);
    var full := Next(alphabet, connected, read);
    assert full.sessions[0].taken == chunk;
    assert [Connect(0, session, false), read][1..] == [read];
    assert Run(alphabet, connected, [read]) == full;
    AnswersOfChunk(alphabet, chunk);
  }

  /** No step takes back a byte: both streams of every session only grow. */
  lemma {:induction false} StreamsOnlyGrow(alphabet: seq<byte>, w: Loop, es: seq<LoopEvent>, id: nat)
    requires |alphabet| == 16 && Feasible(alphabet, w, es) && id in w.sessions
    ensures id in Run(alphabet, w, es).sessions
    ensures w.sessions[id].taken <= Run(alphabet, w, es).sessions[id].taken
    ensures w.sessions[id].sent <= Run(alphabet, w, es).sessions[id].sent
    decreases es
  {
    if es != [] {
      StreamsOnlyGrow(alphabet, Next(alphabet, w, es[0]), es[1..], id);
    }
  }
}
