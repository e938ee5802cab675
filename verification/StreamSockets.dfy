/**
 Full-transfer reads and writes of stream sockets: one direction of a socket, one operation after
 the other, each moving its bytes in short pieces until its range is full or an error comes.

 The Unix-domain handler advances the cursor by what moved even when it reports an error; the
 TCP handler advances on success only.
 */
module StreamSockets {
  import opened Cursors
  import opened Sequences

  datatype Family = Unix | Tcp

  datatype Direction = Read | Write

  /** `data` is what has moved so far for the posted range. */
  datatype Phase = Quiet | InFlight(start: nat, len: nat, data: seq<byte>, fault: Fault)

  datatype Fault = NoFault | Fault(code: int)

  /** What one future resolved to: the bytes asked for, and those that moved for it. */
  datatype Outcome = Outcome(ok: bool, len: nat, data: seq<byte>)

  /** `wire` is every byte the kernel moved in this direction; `outcomes` the futures, in order. */
  datatype Stream = Stream(buf: Buffer, phase: Phase, wire: seq<byte>, outcomes: seq<Outcome>)

  datatype Event = Post(len: nat) | Move(bytes: seq<byte>) | Break(code: int) | Handler

  predicate Flying(s: Stream) {
    s.phase.InFlight? && |s.phase.data| <= s.phase.len && s.phase.start + s.phase.len <= |s.buf.mem|
  }

  /** A composed operation ends when its range is full or the kernel reports an error. */
  predicate Enabled(dir: Direction, s: Stream, e: Event) {
    match e
    case Post(len) => s.phase.Quiet? && s.buf.pos + len <= |s.buf.mem|
    case Move(bytes) =>
      && Flying(s) && s.phase.fault.NoFault?
      && 0 < |bytes| && |s.phase.data| + |bytes| <= s.phase.len
      && (dir.Write? ==> bytes == s.buf.mem[s.phase.start + |s.phase.data|..][..|bytes|])
    case Break(_) => Flying(s) && s.phase.fault.NoFault? && |s.phase.data| < s.phase.len
    case Handler => Flying(s) && (s.phase.fault.Fault? || |s.phase.data| == s.phase.len)
  }

  function Step(family: Family, dir: Direction, s: Stream, e: Event): Stream
    requires Enabled(dir, s, e)
  {
    match e
    case Post(len) => s.(phase := InFlight(s.buf.pos, len, [], NoFault))
    case Move(bytes) =>
      s.(buf := if dir.Write? then s.buf
                else s.buf.(mem := Store(s.buf.mem, s.phase.start + |s.phase.data|, bytes)),
         phase := s.phase.(data := s.phase.data + bytes),
         wire := s.wire + bytes)
    case Break(code) => s.(phase := s.phase.(fault := Fault(code)))
    case Handler => Finish(family, s)
  }

  function Finish(family: Family, s: Stream): Stream
    requires Flying(s)
  {
    var ok := s.phase.fault.NoFault?;
    var advance := if family.Unix? || ok then |s.phase.data| else 0;
    Stream(s.buf.(pos := s.buf.pos + advance), Quiet, s.wire,
           s.outcomes + [Outcome(ok, s.phase.len, s.phase.data)])
  }

  predicate Feasible(family: Family, dir: Direction, s: Stream, es: seq<Event>)
    decreases es
  {
    es == [] || (Enabled(dir, s, es[0]) && Feasible(family, dir, Step(family, dir, s, es[0]), es[1..]))
  }

  function Run(family: Family, dir: Direction, s: Stream, es: seq<Event>): Stream
    requires Feasible(family, dir, s, es)
    decreases es
  {
    if es == [] then s else Run(family, dir, Step(family, dir, s, es[0]), es[1..])
  }

  predicate Initial(s: Stream) {
    s.buf.Valid() && s.phase.Quiet? && s.wire == [] && s.outcomes == []
  }

  /** The bytes of resolved operations that a family's handlers move the cursor over. */
  function Passed(family: Family, outcomes: seq<Outcome>): seq<byte> {
    if outcomes == [] then []
    else
      var last := outcomes[|outcomes| - 1];
      Passed(family, outcomes[..|outcomes| - 1]) + (if family.Unix? || last.ok then last.data else [])
  }

  function MovedNow(s: Stream): seq<byte> {
    if s.phase.InFlight? then s.phase.data else []
  }

  predicate InRange(was: Buffer, s: Stream) {
    && (s.phase.InFlight? ==>
          Flying(s) && s.phase.start == s.buf.pos && (s.phase.fault.Fault? ==> |s.phase.data| < s.phase.len))
    && was.pos <= s.buf.pos && s.buf.pos + |MovedNow(s)| <= |s.buf.mem| == |was.mem|
  }

  predicate Faithful(outcomes: seq<Outcome>) {
    forall o | o in outcomes :: |o.data| <= o.len && (o.ok <==> |o.data| == o.len)
  }

  /** The cursor has gone from `start` to `pos` over `passed`; the bytes behind it are `ahead`. */
  predicate Laid(mem: seq<byte>, start: nat, pos: nat, passed: seq<byte>, ahead: seq<byte>) {
    start <= pos && pos + |ahead| <= |mem| && mem[start..pos] == passed && mem[pos..pos + |ahead|] == ahead
  }

  predicate DataInv(family: Family, was: Buffer, s: Stream) {
    && Laid(s.buf.mem, was.pos, s.buf.pos, Passed(family, s.outcomes), MovedNow(s))
    && s.wire == Passed(Unix, s.outcomes) + MovedNow(s)
  }

  predicate Inv(family: Family, was: Buffer, s: Stream) {
    InRange(was, s) && Faithful(s.outcomes) && DataInv(family, was, s)
  }

  lemma LaidByRead(mem: seq<byte>, start: nat, pos: nat, passed: seq<byte>, ahead: seq<byte>, bytes: seq<byte>)
    requires Laid(mem, start, pos, passed, ahead) && pos + |ahead| + |bytes| <= |mem|
    ensures Laid(Store(mem, pos + |ahead|, bytes), start, pos, passed, ahead + bytes)
  {
    var at := pos + |ahead|;
    var r := Store(mem, at, bytes);
    assert r[start..pos] == r[..at][start..pos];
    assert r[pos..at] == r[..at][pos..] == mem[..at][pos..] == mem[pos..at];
    SplitAt(r, pos, at, at + |bytes|);
  }

  lemma LaidByWrite(mem: seq<byte>, start: nat, pos: nat, passed: seq<byte>, ahead: seq<byte>, n: nat)
    requires Laid(mem, start, pos, passed, ahead) && pos + |ahead| + n <= |mem|
    ensures Laid(mem, start, pos, passed, ahead + mem[pos + |ahead|..][..n])
  {
    var at := pos + |ahead|;
    assert mem[at..][..n] == mem[at..at + n];
    SplitAt(mem, pos, at, at + n);
  }

  /** A handler settles the bytes behind the cursor: it passes them or stays. */
  lemma LaidSettled(mem: seq<byte>, start: nat, pos: nat, passed: seq<byte>, ahead: seq<byte>)
    requires Laid(mem, start, pos, passed, ahead)
    ensures Laid(mem, start, pos, passed, []) && Laid(mem, start, pos + |ahead|, passed + ahead, [])
  {
    SplitAt(mem, start, pos, pos + |ahead|);
  }

  lemma ReadKeepsData(family: Family, was: Buffer, s: Stream, bytes: seq<byte>)
    requires InRange(was, s) && DataInv(family, was, s) && Enabled(Read, s, Move(bytes))
    ensures DataInv(family, was, Step(family, Read, s, Move(bytes)))
  {
    LaidByRead(s.buf.mem, was.pos, s.buf.pos, Passed(family, s.outcomes), s.phase.data, bytes);
    Assoc(Passed(Unix, s.outcomes), s.phase.data, bytes);
  }

  lemma WriteKeepsData(family: Family, was: Buffer, s: Stream, bytes: seq<byte>)
    requires InRange(was, s) && DataInv(family, was, s) && Enabled(Write, s, Move(bytes))
    ensures DataInv(family, was, Step(family, Write, s, Move(bytes)))
  {
    LaidByWrite(s.buf.mem, was.pos, s.buf.pos, Passed(family, s.outcomes), s.phase.data, |bytes|);
    Assoc(Passed(Unix, s.outcomes), s.phase.data, bytes);
  }

  lemma HandlerKeepsLaid(family: Family, was: Buffer, s: Stream)
    requires Flying(s) && Laid(s.buf.mem, was.pos, s.buf.pos, Passed(family, s.outcomes), s.phase.data)
    ensures var t := Finish(family, s);
            Laid(t.buf.mem, was.pos, t.buf.pos, Passed(family, t.outcomes), [])
  {
    LaidSettled(s.buf.mem, was.pos, s.buf.pos, Passed(family, s.outcomes), s.phase.data);
    PassedOneMore(family, s.outcomes, Finish(family, s).outcomes[|s.outcomes|]);
  }

  lemma HandlerKeepsData(family: Family, was: Buffer, s: Stream)
    requires Flying(s) && DataInv(family, was, s)
    ensures DataInv(family, was, Finish(family, s))
  {
    HandlerKeepsLaid(family, was, s);
    PassedOneMore(Unix, s.outcomes, Finish(family, s).outcomes[|s.outcomes|]);
  }

  lemma PassedOneMore(family: Family, outcomes: seq<Outcome>, last: Outcome)
    ensures Passed(family, outcomes + [last])
         == if family.Unix? || last.ok then Passed(family, outcomes) + last.data else Passed(family, outcomes)
  {
    assert (outcomes + [last])[..|outcomes|] == outcomes;
  }

  lemma StepKeepsInv(family: Family, dir: Direction, was: Buffer, s: Stream, e: Event)
    requires Inv(family, was, s) && Enabled(dir, s, e)
    ensures Inv(family, was, Step(family, dir, s, e))
  {
    match e
    case Move(bytes) =>
      if dir.Read? {
        ReadKeepsData(family, was, s, bytes);
      } else {
        WriteKeepsData(family, was, s, bytes);
      }
    case Handler => HandlerKeepsData(family, was, s);
    case _ =>
  }

  lemma {:induction false} RunKeepsInv(family: Family, dir: Direction, was: Buffer, s: Stream, es: seq<Event>)
    requires Inv(family, was, s) && Feasible(family, dir, s, es)
    ensures Inv(family, was, Run(family, dir, s, es))
    decreases es
  {
    if es != [] {
      StepKeepsInv(family, dir, was, s, es[0]);
      RunKeepsInv(family, dir, was, Step(family, dir, s, es[0]), es[1..]);
    }
  }

  /** Both families: a future is resolved with success exactly when all requested bytes moved. */
  lemma SuccessMeansAllMoved(family: Family, dir: Direction, s: Stream, es: seq<Event>, i: nat)
    requires Initial(s) && Feasible(family, dir, s, es) && i < |Run(family, dir, s, es).outcomes|
    ensures var o := Run(family, dir, s, es).outcomes[i];
            |o.data| <= o.len && (o.ok <==> |o.data| == o.len)
  {
    RunKeepsInv(family, dir, s.buf, s, es);
    assert Run(family, dir, s, es).outcomes[i] in Run(family, dir, s, es).outcomes;
  }

  /**
   Unix-domain: between operations the cursor has passed exactly the bytes that moved, and they
   lie where it passed, whatever mixture of successes and errors came before.
   */
  lemma UnixCursorIsExact(dir: Direction, s: Stream, es: seq<Event>)
    requires Initial(s) && Feasible(Unix, dir, s, es) && Run(Unix, dir, s, es).phase.Quiet?
    ensures var t := Run(Unix, dir, s, es);
            && t.buf.pos == s.buf.pos + |t.wire| <= |t.buf.mem|
            && t.buf.mem[s.buf.pos..t.buf.pos] == t.wire
  {
    RunKeepsInv(Unix, dir, s.buf, s, es);
  }

  /**
   TCP: between operations the cursor has passed exactly the bytes of the operations that
   succeeded, and they lie where it passed; the bytes of failed ones moved without it, so it is
   exact if and only if no operation failed after moving some.
   */
  lemma TcpCursorPassesSuccesses(dir: Direction, s: Stream, es: seq<Event>)
    requires Initial(s) && Feasible(Tcp, dir, s, es) && Run(Tcp, dir, s, es).phase.Quiet?
    ensures var t := Run(Tcp, dir, s, es);
            && t.wire == Passed(Unix, t.outcomes)
            && t.buf.pos == s.buf.pos + |Passed(Tcp, t.outcomes)| <= |t.buf.mem|
            && t.buf.mem[s.buf.pos..t.buf.pos] == Passed(Tcp, t.outcomes)
            && t.buf.pos <= s.buf.pos + |t.wire|
            && (t.buf.pos == s.buf.pos + |t.wire| <==> forall o | o in t.outcomes :: o.ok || o.data == [])
  {
    RunKeepsInv(Tcp, dir, s.buf, s, es);
    NothingStranded(Run(Tcp, dir, s, es).outcomes);
  }

  lemma {:induction false} NothingStranded(outcomes: seq<Outcome>)
    ensures |Passed(Tcp, outcomes)| <= |Passed(Unix, outcomes)|
    ensures |Passed(Tcp, outcomes)| == |Passed(Unix, outcomes)| <==> forall o | o in outcomes :: o.ok || o.data == []
  {
    if outcomes != [] {
      var front, last := outcomes[..|outcomes| - 1], outcomes[|outcomes| - 1];
      NothingStranded(front);
      assert last in outcomes;
      assert forall o | o in outcomes :: o in front || o == last;
      assert forall o | o in front :: o in outcomes;
    }
  }

  /** A run where a TCP read moves a byte and then fails: the cursor does not show it. */
  lemma TcpCursorCanLag()
    ensures var s := Stream(Buffer([0, 0], 0), Quiet, [], []);
            var es := [Post(2), Move([7]), Break(104), Handler];
            && Initial(s) && Feasible(Tcp, Read, s, es)
            && Run(Tcp, Read, s, es).buf.pos == 0 && |Run(Tcp, Read, s, es).wire| == 1
  {
  }

  /** One direction of a socket: the cursor its handler captured, and the operation in flight. */
  class Channel {
    const dir: Direction
    const cursor: Cursor
    var phase: Phase
    ghost var wire: seq<byte>
    ghost var outcomes: seq<Outcome>

    ghost function View(): Stream
      reads this, cursor, cursor.storage
    {
      Stream(cursor.View(), phase, wire, outcomes)
    }

    constructor (direction: Direction, captured: Cursor)
      requires captured.Valid()
      ensures dir == direction && cursor == captured && Initial(View())
    {
      dir, cursor := direction, captured;
      phase := Quiet;
      wire, outcomes := [], [];
    }

    /** `asyncRead` and `asyncWrite` of both families: the range starts at the cursor. */
    method PostTransfer(family: Family, bytes: nat)
      requires Enabled(dir, View(), Post(bytes))
      modifies this
      ensures View() == Step(family, dir, old(View()), Post(bytes))
    {
      phase := InFlight(cursor.position, bytes, [], NoFault);
    }

    method KernelMoves(family: Family, bytes: seq<byte>)
      requires Enabled(dir, View(), Move(bytes))
      modifies this, cursor.storage
      ensures View() == Step(family, dir, old(View()), Move(bytes))
    {
      if dir.Read? {
        cursor.Fill(phase.start + |phase.data|, bytes);
      }
      phase := phase.(data := phase.data + bytes);
      wire := wire + bytes;
    }

    method KernelBreaks(family: Family, code: int)
      requires Enabled(dir, View(), Break(code))
      modifies this
      ensures View() == Step(family, dir, old(View()), Break(code))
      ensures phase == old(phase).(fault := Fault(code))
    {
      phase := phase.(fault := Fault(code));
    }

    /** The Unix-domain handler: advance first, then look at the error. */
    method OnUnixComplete() returns (resolved: Fault)
      requires Enabled(dir, View(), Handler) && phase.start == cursor.position
      modifies this, cursor
      ensures View() == Step(Unix, dir, old(View()), Handler)
      ensures resolved == old(phase.fault)
    {
      var advanced := cursor.Advance(|phase.data|);
      resolved := phase.fault;
      outcomes := outcomes + [Outcome(phase.fault.NoFault?, phase.len, phase.data)];
      phase := Quiet;
    }

    /** The TCP handler: an error leaves the cursor where it was. */
    method OnTcpComplete() returns (resolved: Fault)
      requires Enabled(dir, View(), Handler) && phase.start == cursor.position
      modifies this, cursor
      ensures View() == Step(Tcp, dir, old(View()), Handler)
      ensures resolved == old(phase.fault)
    {
      if phase.fault.NoFault? {
        var advanced := cursor.Advance(|phase.data|);
      }
      resolved := phase.fault;
      outcomes := outcomes + [Outcome(phase.fault.NoFault?, phase.len, phase.data)];
      phase := Quiet;
    }
  }
}
