/**
 Echo sessions over the socket model: what a session does with one direction of its channel along
 any run of the loop is a run of that direction of a stream socket, step by step.
 */
module EchoTransport {
  import opened Cursors
  import opened Echo
  import opened Options
  import opened Sequences
  import opened StreamSockets
  import EchoServer

  /**
   How a program uses one direction of a socket: operations, and what it does with the buffer while
   none is in flight. Rewind starts the cursor over; Refill puts other bytes into a source.
   */
  datatype Use = Io(event: StreamSockets.Event) | Rewind | Refill(mem: seq<byte>)

  predicate CanUse(dir: Direction, r: Stream, u: Use) {
    match u
    case Io(event) => StreamSockets.Enabled(dir, r, event)
    case Rewind => r.phase.Quiet?
    case Refill(mem) => r.phase.Quiet? && dir.Write? && |mem| == |r.buf.mem|
  }

  function UseOnce(family: Family, dir: Direction, r: Stream, u: Use): Stream
    requires CanUse(dir, r, u)
  {
    match u
    case Io(event) => StreamSockets.Step(family, dir, r, event)
    case Rewind => r.(buf := r.buf.(pos := 0))
    case Refill(mem) => r.(buf := r.buf.(mem := mem))
  }

  predicate CanUseAll(family: Family, dir: Direction, r: Stream, us: seq<Use>)
    decreases us
  {
    us == [] || (CanUse(dir, r, us[0]) && CanUseAll(family, dir, UseOnce(family, dir, r, us[0]), us[1..]))
  }

  function UseAll(family: Family, dir: Direction, r: Stream, us: seq<Use>): Stream
    requires CanUseAll(family, dir, r, us)
    decreases us
  {
    if us == [] then r else UseAll(family, dir, UseOnce(family, dir, r, us[0]), us[1..])
  }

  lemma UseOne(family: Family, dir: Direction, r: Stream, u: Use)
    requires CanUse(dir, r, u)
    ensures CanUseAll(family, dir, r, [u]) && UseAll(family, dir, r, [u]) == UseOnce(family, dir, r, u)
  {
    assert UseAll(family, dir, UseOnce(family, dir, r, u), [u][1..]) == UseOnce(family, dir, r, u);
  }

  lemma UseTwo(family: Family, dir: Direction, r: Stream, u: Use, v: Use)
    requires CanUse(dir, r, u) && CanUse(dir, UseOnce(family, dir, r, u), v)
    ensures CanUseAll(family, dir, r, [u, v])
    ensures UseAll(family, dir, r, [u, v]) == UseOnce(family, dir, UseOnce(family, dir, r, u), v)
  {
    UseOne(family, dir, UseOnce(family, dir, r, u), v);
    assert [u, v][1..] == [v];
  }

  lemma {:induction false} UseConcat(family: Family, dir: Direction, r: Stream, us: seq<Use>, vs: seq<Use>)
    requires CanUseAll(family, dir, r, us) && CanUseAll(family, dir, UseAll(family, dir, r, us), vs)
    ensures CanUseAll(family, dir, r, us + vs)
    ensures UseAll(family, dir, r, us + vs) == UseAll(family, dir, UseAll(family, dir, r, us), vs)
    decreases us
  {
    if us == [] {
      assert us + vs == vs;
    } else {
      UseConcat(family, dir, UseOnce(family, dir, r, us[0]), us[1..], vs);
      assert (us + vs)[1..] == us[1..] + vs;
    }
  }

  // ---------------------------------------------------------------------------------------
  // What each step of a session is for its reading and its writing direction.

  /** Posting a read, unless the session is over. */
  function PostOfRead(stopped: bool): seq<Use> {
    if stopped then [] else [Rewind, Io(Post(IN_SIZE))]
  }

  function ReadUses(s: Session, e: Echo.Event, code: int): seq<Use> {
    match e
    case Begin(stopped) => PostOfRead(stopped)
    case KernelRead(bytes) => [Io(Move(bytes))]
    case ReadHandler => [Io(Handler)]
    case KernelWrite(_) => []
    case WriteHandler(stopped) => PostOfRead(stopped)
    case Fail => if s.phase.Reading? then [Io(Break(code)), Io(Handler)] else []
  }

  function WriteUses(alphabet: seq<byte>, s: Session, e: Echo.Event, code: int): seq<Use>
    requires |alphabet| == 16 && WellFormed(s) && Echo.Enabled(s, e)
  {
    match e
    case Begin(_) => []
    case KernelRead(_) => []
    case ReadHandler =>
      [Refill(Answer(alphabet, s.inBuf.mem[..s.inBuf.pos + s.phase.op.len])), Io(Post(OUT_SIZE - s.outBuf.pos))]
    case KernelWrite(n) =>
      var from := s.phase.op.start + s.phase.op.moved;
      [Io(Move(s.outBuf.mem[from..from + n]))]
    case WriteHandler(_) => [Io(Handler), Rewind]
    case Fail => if s.phase.Writing? then [Io(Break(code)), Io(Handler)] else []
  }

  /** `code` is the error that a failing operation reports. */
  function Uses(alphabet: seq<byte>, dir: Direction, s: Session, e: Echo.Event, code: int): seq<Use>
    requires |alphabet| == 16 && WellFormed(s) && Echo.Enabled(s, e)
  {
    if dir.Read? then ReadUses(s, e, code) else WriteUses(alphabet, s, e, code)
  }

  // ---------------------------------------------------------------------------------------
  // A session and one direction of a socket in step.

  function BufferOf(dir: Direction, s: Session): Buffer {
    if dir.Read? then s.inBuf else s.outBuf
  }

  /** Every byte of the session in that direction. */
  function BytesOf(dir: Direction, s: Session): seq<byte> {
    if dir.Read? then s.taken else s.sent
  }

  /** The transfer of that direction that the session waits for, if it does. */
  function PhaseOf(dir: Direction, s: Session): StreamSockets.Phase
    requires WellFormed(s)
  {
    match (dir, s.phase)
    case (Read, Reading(op)) => InFlight(op.start, op.len, s.inBuf.mem[op.start..op.start + op.moved], NoFault)
    case (Write, Writing(op)) => InFlight(op.start, op.len, s.outBuf.mem[op.start..op.start + op.moved], NoFault)
    case _ => Quiet
  }

  predicate AllSucceeded(outcomes: seq<Outcome>) {
    forall o | o in outcomes :: o.ok
  }

  /**
   The socket moved the session's bytes through the session's memory. Until the session ends their
   cursors stand at the same place, the same transfer is in flight, and none has failed; where a
   failed operation leaves the cursor differs between the families, and the session is over then.
   */
  predicate InStep(dir: Direction, s: Session, r: Stream) {
    && WellFormed(s)
    && r.wire == BytesOf(dir, s) && r.buf.mem == BufferOf(dir, s).mem
    && r.phase == PhaseOf(dir, s)
    && (!s.phase.Ended? ==> r.buf.pos == BufferOf(dir, s).pos && AllSucceeded(r.outcomes))
  }

  /** The kernel and the loop can go on with a waiting session exactly as with its socket. */
  lemma SameStepsPossible(s: Session, r: Stream, stopped: bool, code: int, bytes: seq<byte>)
    requires InStep(if s.phase.Reading? then Read else Write, s, r) && (s.phase.Reading? || s.phase.Writing?)
    ensures s.phase.Reading? ==>
              && (Echo.Enabled(s, KernelRead(bytes)) <==> StreamSockets.Enabled(Read, r, Move(bytes)))
              && (Echo.Enabled(s, ReadHandler) <==> StreamSockets.Enabled(Read, r, Handler))
              && (Echo.Enabled(s, Fail) <==> StreamSockets.Enabled(Read, r, Break(code)))
    ensures s.phase.Writing? ==>
              && (Echo.Enabled(s, WriteHandler(stopped)) <==> StreamSockets.Enabled(Write, r, Handler))
              && (Echo.Enabled(s, Fail) <==> StreamSockets.Enabled(Write, r, Break(code)))
  {
  }

  /** A write can move just the bytes that follow in the out-buffer, in either model. */
  lemma SameBytesPossible(s: Session, r: Stream, bytes: seq<byte>)
    requires InStep(Write, s, r) && s.phase.Writing?
    ensures StreamSockets.Enabled(Write, r, Move(bytes))
       <==> && Echo.Enabled(s, KernelWrite(|bytes|))
            && var from := s.phase.op.start + s.phase.op.moved;
               bytes == s.outBuf.mem[from..from + |bytes|]
  {
    var from := s.phase.op.start + s.phase.op.moved;
    if s.phase.op.moved + |bytes| <= s.phase.op.len {
      assert s.outBuf.mem[from..][..|bytes|] == s.outBuf.mem[from..from + |bytes|];
    }
  }

  lemma OneMoreSucceeded(outcomes: seq<Outcome>, o: Outcome)
    requires AllSucceeded(outcomes) && o.ok
    ensures AllSucceeded(outcomes + [o])
  {
  }

  lemma PostedRead(family: Family, s: Session, r: Stream, stopped: bool)
    requires BuffersFit(s) && r.phase.Quiet? && AllSucceeded(r.outcomes)
    requires r.wire == s.taken && r.buf.mem == s.inBuf.mem
    requires r.buf.pos == s.inBuf.pos
    ensures CanUseAll(family, Read, r, PostOfRead(stopped))
    ensures InStep(Read, Echo.DoRead(s, stopped), UseAll(family, Read, r, PostOfRead(stopped)))
  {
    if !stopped {
      UseTwo(family, Read, r, Rewind, Io(Post(IN_SIZE)));
      assert s.inBuf.mem[0..0] == [];
    }
  }

  lemma StoredSlice(mem: seq<byte>, start: nat, at: nat, bytes: seq<byte>)
    requires start <= at && at + |bytes| <= |mem|
    ensures Store(mem, at, bytes)[start..at + |bytes|] == mem[start..at] + bytes
  {
    var next := Store(mem, at, bytes);
    assert next[start..at] == next[..at][start..] == mem[..at][start..] == mem[start..at];
    SplitAt(next, start, at, at + |bytes|);
  }

  lemma ReadMovesOn(alphabet: seq<byte>, s: Session, bytes: seq<byte>)
    requires |alphabet| == 16 && WellFormed(s) && Echo.Enabled(s, KernelRead(bytes))
    ensures var t, was := Echo.Step(alphabet, s, KernelRead(bytes)), PhaseOf(Read, s);
            && WellFormed(t) && t.phase.Reading? && was.InFlight?
            && t.inBuf == s.inBuf.(mem := Store(s.inBuf.mem, was.start + |was.data|, bytes))
            && PhaseOf(Read, t) == was.(data := was.data + bytes)
  {
    StoredSlice(s.inBuf.mem, s.phase.op.start, s.phase.op.start + s.phase.op.moved, bytes);
  }

  lemma StoredRead(family: Family, alphabet: seq<byte>, s: Session, r: Stream, bytes: seq<byte>)
    requires |alphabet| == 16 && InStep(Read, s, r) && Echo.Enabled(s, KernelRead(bytes))
    ensures CanUseAll(family, Read, r, [Io(Move(bytes))])
    ensures InStep(Read, Echo.Step(alphabet, s, KernelRead(bytes)), UseAll(family, Read, r, [Io(Move(bytes))]))
  {
    ReadMovesOn(alphabet, s, bytes);
    assert CanUse(Read, r, Io(Move(bytes)));
    UseOne(family, Read, r, Io(Move(bytes)));
  }

  lemma HandledRead(family: Family, alphabet: seq<byte>, s: Session, r: Stream)
    requires |alphabet| == 16 && InStep(Read, s, r) && Echo.Enabled(s, ReadHandler)
    ensures CanUseAll(family, Read, r, [Io(Handler)])
    ensures InStep(Read, Echo.Step(alphabet, s, ReadHandler), UseAll(family, Read, r, [Io(Handler)]))
  {
    UseOne(family, Read, r, Io(Handler));
    OneMoreSucceeded(r.outcomes, Outcome(true, r.phase.len, r.phase.data));
  }

  /** A failing operation ends the session; the socket reports the error to its handler. */
  lemma FailedTransfer(family: Family, alphabet: seq<byte>, dir: Direction, s: Session, r: Stream, code: int)
    requires |alphabet| == 16 && InStep(dir, s, r) && Echo.Enabled(s, Fail)
    ensures var us := Uses(alphabet, dir, s, Fail, code);
            CanUseAll(family, dir, r, us) && InStep(dir, Echo.Step(alphabet, s, Fail), UseAll(family, dir, r, us))
  {
    if r.phase.InFlight? {
      UseTwo(family, dir, r, Io(Break(code)), Io(Handler));
    }
  }

  lemma ReadInStep(family: Family, alphabet: seq<byte>, s: Session, r: Stream, e: Echo.Event, code: int)
    requires |alphabet| == 16 && InStep(Read, s, r) && Echo.Enabled(s, e)
    ensures var us := ReadUses(s, e, code);
            CanUseAll(family, Read, r, us) && InStep(Read, Echo.Step(alphabet, s, e), UseAll(family, Read, r, us))
  {
    match e
    case Begin(stopped) => PostedRead(family, s, r, stopped);
    case KernelRead(bytes) => StoredRead(family, alphabet, s, r, bytes);
    case ReadHandler => HandledRead(family, alphabet, s, r);
    case KernelWrite(n) =>
    case WriteHandler(stopped) => PostedRead(family, s.(outBuf := s.outBuf.(pos := 0)), r, stopped);
    case Fail => FailedTransfer(family, alphabet, Read, s, r, code);
  }

  lemma PostedWrite(family: Family, alphabet: seq<byte>, s: Session, r: Stream)
    requires |alphabet| == 16 && InStep(Write, s, r) && Echo.Enabled(s, ReadHandler)
    ensures var us := WriteUses(alphabet, s, ReadHandler, 0);
            && CanUseAll(family, Write, r, us)
            && InStep(Write, Echo.Step(alphabet, s, ReadHandler), UseAll(family, Write, r, us))
  {
    var us := WriteUses(alphabet, s, ReadHandler, 0);
    UseTwo(family, Write, r, us[0], us[1]);
    var t := Echo.Step(alphabet, s, ReadHandler);
    assert t.outBuf.mem[t.outBuf.pos..t.outBuf.pos] == [];
  }

  lemma WriteMovesOn(alphabet: seq<byte>, s: Session, n: nat)
    requires |alphabet| == 16 && WellFormed(s) && Echo.Enabled(s, KernelWrite(n))
    ensures var t, was := Echo.Step(alphabet, s, KernelWrite(n)), PhaseOf(Write, s);
            var from := s.phase.op.start + s.phase.op.moved;
            && WellFormed(t) && t.phase.Writing? && was.InFlight? && t.outBuf == s.outBuf
            && PhaseOf(Write, t) == was.(data := was.data + s.outBuf.mem[from..from + n])
  {
    var from := s.phase.op.start + s.phase.op.moved;
    SplitAt(s.outBuf.mem, s.phase.op.start, from, from + n);
  }

  lemma TakenWrite(family: Family, alphabet: seq<byte>, s: Session, r: Stream, n: nat)
    requires |alphabet| == 16 && InStep(Write, s, r) && Echo.Enabled(s, KernelWrite(n))
    ensures var us := WriteUses(alphabet, s, KernelWrite(n), 0);
            && CanUseAll(family, Write, r, us)
            && InStep(Write, Echo.Step(alphabet, s, KernelWrite(n)), UseAll(family, Write, r, us))
  {
    var from := s.phase.op.start + s.phase.op.moved;
    var bytes := s.outBuf.mem[from..from + n];
    WriteMovesOn(alphabet, s, n);
    SameBytesPossible(s, r, bytes);
    UseOne(family, Write, r, Io(Move(bytes)));
  }

  lemma HandledWrite(family: Family, alphabet: seq<byte>, s: Session, r: Stream, stopped: bool)
    requires |alphabet| == 16 && InStep(Write, s, r) && Echo.Enabled(s, WriteHandler(stopped))
    ensures CanUseAll(family, Write, r, [Io(Handler), Rewind])
    ensures InStep(Write, Echo.Step(alphabet, s, WriteHandler(stopped)),
                   UseAll(family, Write, r, [Io(Handler), Rewind]))
  {
    UseTwo(family, Write, r, Io(Handler), Rewind);
    OneMoreSucceeded(r.outcomes, Outcome(true, r.phase.len, r.phase.data));
  }

  lemma WriteInStep(family: Family, alphabet: seq<byte>, s: Session, r: Stream, e: Echo.Event, code: int)
    requires |alphabet| == 16 && InStep(Write, s, r) && Echo.Enabled(s, e)
    ensures var us := WriteUses(alphabet, s, e, code);
            CanUseAll(family, Write, r, us) && InStep(Write, Echo.Step(alphabet, s, e), UseAll(family, Write, r, us))
  {
    match e
    case Begin(stopped) =>
    case KernelRead(bytes) =>
    case ReadHandler => PostedWrite(family, alphabet, s, r);
    case KernelWrite(n) => TakenWrite(family, alphabet, s, r, n);
    case WriteHandler(stopped) => HandledWrite(family, alphabet, s, r, stopped);
    case Fail => FailedTransfer(family, alphabet, Write, s, r, code);
  }

  lemma StepInStep(
      family: Family, alphabet: seq<byte>, dir: Direction, s: Session, r: Stream, e: Echo.Event, code: int)
    requires |alphabet| == 16 && InStep(dir, s, r) && Echo.Enabled(s, e)
    ensures var us := Uses(alphabet, dir, s, e, code);
            CanUseAll(family, dir, r, us) && InStep(dir, Echo.Step(alphabet, s, e), UseAll(family, dir, r, us))
  {
    if dir.Read? {
      ReadInStep(family, alphabet, s, r, e, code);
    } else {
      WriteInStep(family, alphabet, s, r, e, code);
    }
  }

  // ---------------------------------------------------------------------------------------
  // Runs of the loop.

  /** What one step of the loop is for one direction of one session. */
  function UsesOf(
      alphabet: seq<byte>, dir: Direction, id: nat, w: EchoServer.Loop, e: EchoServer.LoopEvent, code: int): seq<Use>
    requires |alphabet| == 16 && EchoServer.CanHappen(w, e)
  {
    match e
    case Connect(i, session, stopped) => if i == id then Uses(alphabet, dir, session, Begin(stopped), code) else []
    case On(i, event) => if i == id then Uses(alphabet, dir, w.sessions[id], event, code) else []
    case Stop => []
  }

  /** All uses of one direction of one session along a run, in order. */
  function AllUses(
      alphabet: seq<byte>, dir: Direction, id: nat, w: EchoServer.Loop, es: seq<EchoServer.LoopEvent>, code: int)
    : seq<Use>
    requires |alphabet| == 16 && EchoServer.Feasible(alphabet, w, es)
    decreases es
  {
    if es == [] then []
    else
      UsesOf(alphabet, dir, id, w, es[0], code)
      + AllUses(alphabet, dir, id, EchoServer.Next(alphabet, w, es[0]), es[1..], code)
  }

  /** The session that a run creates under a number. */
  function CreatedAs(id: nat, es: seq<EchoServer.LoopEvent>): Option<Session> {
    if es == [] then None
    else if es[0].Connect? && es[0].id == id then Some(es[0].session)
    else CreatedAs(id, es[1..])
  }

  /** A direction of a socket that nothing has been done with. */
  function Unused(buf: Buffer): Stream {
    Stream(buf, Quiet, [], [])
  }

  lemma {:induction false} SessionStaysInStep(
      family: Family, alphabet: seq<byte>, dir: Direction, id: nat, w: EchoServer.Loop, r: Stream,
      es: seq<EchoServer.LoopEvent>, code: int)
    requires |alphabet| == 16 && EchoServer.Feasible(alphabet, w, es)
    requires id in w.sessions && InStep(dir, w.sessions[id], r)
    ensures var us, t := AllUses(alphabet, dir, id, w, es, code), EchoServer.Run(alphabet, w, es);
            && CanUseAll(family, dir, r, us)
            && id in t.sessions && InStep(dir, t.sessions[id], UseAll(family, dir, r, us))
    decreases es
  {
    if es != [] {
      var us, next := UsesOf(alphabet, dir, id, w, es[0], code), EchoServer.Next(alphabet, w, es[0]);
      if es[0].On? && es[0].id == id {
        StepInStep(family, alphabet, dir, w.sessions[id], r, es[0].event, code);
      }
      assert CanUseAll(family, dir, r, us) && InStep(dir, next.sessions[id], UseAll(family, dir, r, us));
      var q := UseAll(family, dir, r, us);
      SessionStaysInStep(family, alphabet, dir, id, next, q, es[1..], code);
      UseConcat(family, dir, r, us, AllUses(alphabet, dir, id, next, es[1..], code));
    }
  }

  lemma FreshInStep(dir: Direction, s: Session)
    requires Echo.Initial(s)
    ensures InStep(dir, s, Unused(BufferOf(dir, s)))
  {
  }

  lemma {:induction false} SessionsAreInStep(
      family: Family, alphabet: seq<byte>, dir: Direction, id: nat, w: EchoServer.Loop,
      es: seq<EchoServer.LoopEvent>, code: int)
    requires |alphabet| == 16 && EchoServer.Feasible(alphabet, w, es)
    requires id !in w.sessions && id in EchoServer.Run(alphabet, w, es).sessions
    ensures CreatedAs(id, es).Some? && Echo.Initial(CreatedAs(id, es).value)
    ensures var r := Unused(BufferOf(dir, CreatedAs(id, es).value));
            var us := AllUses(alphabet, dir, id, w, es, code);
            && CanUseAll(family, dir, r, us)
            && InStep(dir, EchoServer.Run(alphabet, w, es).sessions[id], UseAll(family, dir, r, us))
    decreases es
  {
    var next := EchoServer.Next(alphabet, w, es[0]);
    var rest := AllUses(alphabet, dir, id, next, es[1..], code);
    if es[0].Connect? && es[0].id == id {
      var session, us := es[0].session, UsesOf(alphabet, dir, id, w, es[0], code);
      var r := Unused(BufferOf(dir, session));
      FreshInStep(dir, session);
      StepInStep(family, alphabet, dir, session, r, Begin(es[0].stopped), code);
      assert next.sessions[id] == Echo.Step(alphabet, session, Begin(es[0].stopped));
      SessionStaysInStep(family, alphabet, dir, id, next, UseAll(family, dir, r, us), es[1..], code);
      UseConcat(family, dir, r, us, rest);
    } else {
      SessionsAreInStep(family, alphabet, dir, id, next, es[1..], code);
      assert [] + rest == rest;
    }
  }

  /**
   Along every run of the loop, what a session does with one direction is possible, step by step,
   for a socket of either family that starts with the session's buffer. The socket ends with
   exactly the session's bytes on its wire, the session's memory, and the transfer the session
   waits for in flight; until the session ends its cursor is the session's and no operation has
   failed.
   */
  lemma SessionIsASocketProgram(
      family: Family, alphabet: seq<byte>, dir: Direction, es: seq<EchoServer.LoopEvent>, id: nat, code: int)
    requires |alphabet| == 16 && EchoServer.Feasible(alphabet, EchoServer.START, es)
    requires id in EchoServer.Run(alphabet, EchoServer.START, es).sessions
    ensures CreatedAs(id, es).Some? && Echo.Initial(CreatedAs(id, es).value)
    ensures var s := EchoServer.Run(alphabet, EchoServer.START, es).sessions[id];
            var r := Unused(BufferOf(dir, CreatedAs(id, es).value));
            var us := AllUses(alphabet, dir, id, EchoServer.START, es, code);
            && WellFormed(s) && CanUseAll(family, dir, r, us)
            && var q := UseAll(family, dir, r, us);
               && q.wire == BytesOf(dir, s)
               && q.buf.mem == BufferOf(dir, s).mem
               && q.phase == PhaseOf(dir, s)
               && (!s.phase.Ended? ==> q.buf.pos == BufferOf(dir, s).pos && forall o | o in q.outcomes :: o.ok)
  {
    SessionsAreInStep(family, alphabet, dir, id, EchoServer.START, es, code);
  }

  /** The bytes of the transfer in flight are the last ones the session took, or sent. */
  lemma TransferHoldsTheLastBytes(alphabet: seq<byte>, dir: Direction, es: seq<EchoServer.LoopEvent>, id: nat)
    requires |alphabet| == 16 && EchoServer.Feasible(alphabet, EchoServer.START, es)
    requires id in EchoServer.Run(alphabet, EchoServer.START, es).sessions
    ensures var s := EchoServer.Run(alphabet, EchoServer.START, es).sessions[id];
            && WellFormed(s)
            && (PhaseOf(dir, s).InFlight? ==>
                  var data, all := PhaseOf(dir, s).data, BytesOf(dir, s);
                  |data| <= |all| && all[|all| - |data|..] == data)
  {
    assert EchoServer.Live(EchoServer.START) == {};
    EchoServer.RunKeepsLoopInv(alphabet, EchoServer.START, es);
    var s := EchoServer.Run(alphabet, EchoServer.START, es).sessions[id];
    assert EchoServer.Running(alphabet, s);
  }
}
