/**
 The echo protocol of the asynchronous server example, as a state machine.

 One session reads a full in-buffer, encodes it in Base16 with a newline behind it, writes the
 whole out-buffer, and starts over. Posting an operation, each short kernel transfer, and the
 completion handler are separate steps, so that the steps of many sessions on one event loop
 interleave in every possible way.
 */
module Echo {
  import opened Cursors
  import opened Base16
  import opened Options
  import opened Sequences

  const IN_SIZE := 10
  const OUT_SIZE := 21
  const NEWLINE: byte := 10

  /** What the session waits for. A posted operation keeps the range it was posted with. */
  datatype Phase = Fresh | Reading(op: Transfer) | Writing(op: Transfer) | Ended

  datatype Transfer = Transfer(start: nat, len: nat, moved: nat)

  /** `taken` and `sent` are all the bytes the kernel took from and gave to the peer so far. */
  datatype Session = Session(phase: Phase, inBuf: Buffer, outBuf: Buffer, taken: seq<byte>, sent: seq<byte>)

  /** Stopped says what the guard of `doRead` sees: a closed channel or a stopped loop. */
  datatype Event =
    | Begin(stopped: bool)
    | KernelRead(bytes: seq<byte>)
    | ReadHandler
    | KernelWrite(n: nat)
    | WriteHandler(stopped: bool)
    | Fail

  /** The steps that can happen to a session in this state. */
  predicate Enabled(s: Session, e: Event) {
    match e
    case Begin(_) => s.phase.Fresh?
    case KernelRead(bytes) => s.phase.Reading? && 0 < |bytes| && s.phase.op.moved + |bytes| <= s.phase.op.len
    case ReadHandler => s.phase.Reading? && s.phase.op.moved == s.phase.op.len
    case KernelWrite(n) => s.phase.Writing? && 0 < n && s.phase.op.moved + n <= s.phase.op.len
    case WriteHandler(_) => s.phase.Writing? && s.phase.op.moved == s.phase.op.len
    case Fail => (s.phase.Reading? || s.phase.Writing?) && s.phase.op.moved < s.phase.op.len
  }

  /** A connection has just been accepted: nothing moved, both cursors at the start. */
  predicate Initial(s: Session) {
    && s.phase == Fresh
    && |s.inBuf.mem| == IN_SIZE && |s.outBuf.mem| == OUT_SIZE
    && s.inBuf.pos == s.outBuf.pos == 0
    && s.taken == s.sent == []
  }

  predicate BuffersFit(s: Session) {
    && |s.inBuf.mem| == IN_SIZE && s.inBuf.Valid()
    && |s.outBuf.mem| == OUT_SIZE && s.outBuf.Valid()
  }

  predicate Covers(op: Transfer, pos: nat, size: nat) {
    op.moved <= op.len && op.start == pos && pos + op.len == size
  }

  /** A posted operation covers the room its cursor had when it was posted. */
  predicate WellFormed(s: Session) {
    && BuffersFit(s)
    && (s.phase.Reading? ==> Covers(s.phase.op, s.inBuf.pos, IN_SIZE))
    && (s.phase.Writing? ==> Covers(s.phase.op, s.outBuf.pos, OUT_SIZE))
  }

  /** Post a read for all the room of the cleared in-buffer, unless the session is over. */
  function DoRead(s: Session, stopped: bool): Session
    requires BuffersFit(s)
  {
    if stopped then s.(phase := Ended)
    else s.(phase := Reading(Transfer(0, IN_SIZE, 0)), inBuf := s.inBuf.(pos := 0))
  }

  /** The line that answers `chunk`. */
  function Answer(alphabet: seq<byte>, chunk: seq<byte>): (r: seq<byte>)
    requires |alphabet| == 16
    ensures |r| == 2 * |chunk| + 1
  {
    Encode(alphabet, chunk) + [NEWLINE]
  }

  function Step(alphabet: seq<byte>, s: Session, e: Event): Session
    requires |alphabet| == 16 && WellFormed(s) && Enabled(s, e)
  {
    match e
    case Begin(stopped) => DoRead(s, stopped)
    case KernelRead(bytes) =>
      s.(phase := Reading(s.phase.op.(moved := s.phase.op.moved + |bytes|)),
         inBuf := s.inBuf.(mem := Store(s.inBuf.mem, s.phase.op.start + s.phase.op.moved, bytes)),
         taken := s.taken + bytes)
    case ReadHandler =>
      var pos := s.inBuf.pos + s.phase.op.len;
      s.(phase := Writing(Transfer(s.outBuf.pos, OUT_SIZE - s.outBuf.pos, 0)),
         inBuf := s.inBuf.(pos := pos),
         outBuf := s.outBuf.(mem := Answer(alphabet, s.inBuf.mem[..pos])))
    case KernelWrite(n) =>
      var from := s.phase.op.start + s.phase.op.moved;
      s.(phase := Writing(s.phase.op.(moved := s.phase.op.moved + n)),
         sent := s.sent + s.outBuf.mem[from..from + n])
    case WriteHandler(stopped) =>
      DoRead(s.(outBuf := s.outBuf.(pos := 0)), stopped)
    case Fail => s.(phase := Ended)
  }

  // ---------------------------------------------------------------------------------------
  // What a session owes its peer.

  /** A number of bytes that makes whole chunks of IN_SIZE. */
  predicate IsWhole(n: nat) {
    n % 10 == 0
  }

  /** The input that `sent` bytes answer: IN_SIZE bytes for each whole line of OUT_SIZE. */
  function InputOf(sent: nat): nat {
    10 * (sent / 21)
  }

  lemma SizesOfWholes(n: nat)
    ensures InputOf(n) == IN_SIZE * (n / OUT_SIZE)
  {
  }

  /** One answer per complete chunk of input, in order. */
  function Answers(alphabet: seq<byte>, input: seq<byte>): seq<byte>
    requires |alphabet| == 16
  {
    if |input| < IN_SIZE then []
    else Answer(alphabet, input[..IN_SIZE]) + Answers(alphabet, input[IN_SIZE..])
  }

  /** A client's reading of the stream: the text of every complete line, decoded. */
  function Understood(alphabet: seq<byte>, stream: seq<byte>): Option<seq<byte>>
    requires |alphabet| == 16
  {
    if |stream| < OUT_SIZE then Some([])
    else if stream[OUT_SIZE - 1] != NEWLINE then None
    else
      match (Decode(alphabet, stream[..OUT_SIZE - 1]), Understood(alphabet, stream[OUT_SIZE..]))
      case (Some(chunk), Some(rest)) => Some(chunk + rest)
      case _ => None
  }

  /** The answer to ten bytes, symbol by symbol: their Base16 text, then one newline. */
  lemma AnswerAt(alphabet: seq<byte>, chunk: seq<byte>, k: nat)
    requires |alphabet| == 16 && |chunk| == 10 && k < 10
    ensures var line := Answer(alphabet, chunk);
            && |line| == 21 && line[20] == '\n' as int
            && line[2 * k] == alphabet[chunk[k] / 16] && line[2 * k + 1] == alphabet[chunk[k] % 16]
  {
    EncodeAt(alphabet, chunk, k);
  }

  /** A session ends by a failed transfer, or where its guard sees a closed channel; nowhere else. */
  lemma EndsIff(alphabet: seq<byte>, s: Session, e: Event)
    requires |alphabet| == 16 && WellFormed(s) && Enabled(s, e)
    ensures Step(alphabet, s, e).phase.Ended?
       <==> e.Fail? || (e.Begin? && e.stopped) || (e.WriteHandler? && e.stopped)
    ensures Step(alphabet, s, e).phase.Reading?
       <==> e.KernelRead? || (e.Begin? && !e.stopped) || (e.WriteHandler? && !e.stopped)
    ensures Step(alphabet, s, e).phase.Writing? <==> e.ReadHandler? || e.KernelWrite?
  {
  }

  lemma {:induction false} AnswersOfExtended(alphabet: seq<byte>, input: seq<byte>, more: seq<byte>)
    requires |alphabet| == 16 && IsWhole(|input|)
    ensures Answers(alphabet, input + more) == Answers(alphabet, input) + Answers(alphabet, more)
  {
    if |input| < IN_SIZE {
      assert input + more == more;
    } else {
      AnswersOfExtended(alphabet, input[IN_SIZE..], more);
      TailOfConcat(input, more, IN_SIZE);
      Assoc(Answer(alphabet, input[..IN_SIZE]), Answers(alphabet, input[IN_SIZE..]), Answers(alphabet, more));
    }
  }

  lemma AnswersOfChunk(alphabet: seq<byte>, chunk: seq<byte>)
    requires |alphabet| == 16 && |chunk| == IN_SIZE
    ensures Answers(alphabet, chunk) == Answer(alphabet, chunk)
  {
    assert chunk[..IN_SIZE] == chunk;
    assert Answers(alphabet, chunk[IN_SIZE..]) == [];
  }

  lemma FirstLine(alphabet: seq<byte>, chunk: seq<byte>, more: seq<byte>, stream: seq<byte>)
    requires IsAlphabet(alphabet) && |chunk| == IN_SIZE
    requires |stream| >= OUT_SIZE && stream <= Answer(alphabet, chunk) + more
    ensures stream[OUT_SIZE - 1] == NEWLINE && Decode(alphabet, stream[..OUT_SIZE - 1]) == Some(chunk)
    ensures stream[OUT_SIZE..] <= more
  {
    var line := Answer(alphabet, chunk);
    assert stream[..OUT_SIZE] == line;
    assert stream[..OUT_SIZE - 1] == line[..OUT_SIZE - 1] == Encode(alphabet, chunk);
    DecodeEncode(alphabet, chunk);
  }

  lemma UnderstoodLine(alphabet: seq<byte>, stream: seq<byte>, chunk: seq<byte>, rest: seq<byte>)
    requires |alphabet| == 16 && |stream| >= OUT_SIZE && stream[OUT_SIZE - 1] == NEWLINE
    requires Decode(alphabet, stream[..OUT_SIZE - 1]) == Some(chunk)
    requires Understood(alphabet, stream[OUT_SIZE..]) == Some(rest)
    ensures Understood(alphabet, stream) == Some(chunk + rest)
  {
  }

  lemma FirstChunkOf(input: seq<byte>, sent: nat)
    requires sent >= OUT_SIZE && |input| >= IN_SIZE && InputOf(sent - OUT_SIZE) <= |input[IN_SIZE..]|
    ensures InputOf(sent) <= |input|
    ensures input[..InputOf(sent)] == input[..IN_SIZE] + input[IN_SIZE..][..InputOf(sent - OUT_SIZE)]
  {
    assert sent / 21 == (sent - OUT_SIZE) / 21 + 1;
  }

  lemma AnswersStart(alphabet: seq<byte>, input: seq<byte>)
    requires |alphabet| == 16 && Answers(alphabet, input) != []
    ensures |input| >= IN_SIZE
    ensures Answers(alphabet, input) == Answer(alphabet, input[..IN_SIZE]) + Answers(alphabet, input[IN_SIZE..])
  {
  }

  /** Any prefix of the answers is understood as the chunks that the complete lines answer. */
  lemma {:induction false} UnderstoodAnswers(alphabet: seq<byte>, input: seq<byte>, stream: seq<byte>)
    requires IsAlphabet(alphabet)
    requires stream <= Answers(alphabet, input)
    ensures InputOf(|stream|) <= |input|
    ensures Understood(alphabet, stream) == Some(input[..InputOf(|stream|)])
  {
    if |stream| < OUT_SIZE {
      assert input[..0] == [];
    } else {
      AnswersStart(alphabet, input);
      var chunk, rest := input[..IN_SIZE], input[IN_SIZE..];
      FirstLine(alphabet, chunk, Answers(alphabet, rest), stream);
      UnderstoodAnswers(alphabet, rest, stream[OUT_SIZE..]);
      UnderstoodLine(alphabet, stream, chunk, rest[..InputOf(|stream| - OUT_SIZE)]);
      FirstChunkOf(input, |stream|);
    }
  }

  // ---------------------------------------------------------------------------------------
  // The invariant of one session.

  /** The first `moved` bytes of the in-buffer were taken last, and the chunks before are answered. */
  predicate Gathering(alphabet: seq<byte>, taken: seq<byte>, sent: seq<byte>, mem: seq<byte>, moved: nat)
    requires |alphabet| == 16 && moved <= |mem|
  {
    && moved <= |taken| && IsWhole(|taken| - moved)
    && mem[..moved] == taken[|taken| - moved..]
    && sent == Answers(alphabet, taken[..|taken| - moved])
  }

  /** All but the last chunk is answered, and so are `moved` bytes of the line for that one. */
  predicate Answering(alphabet: seq<byte>, taken: seq<byte>, sent: seq<byte>, line: seq<byte>, moved: nat)
    requires |alphabet| == 16 && moved <= |line|
  {
    && IsWhole(|taken|) && |taken| >= IN_SIZE
    && line == Answer(alphabet, taken[|taken| - IN_SIZE..])
    && sent == Answers(alphabet, taken[..|taken| - IN_SIZE]) + line[..moved]
  }

  /**
   Everything taken from the peer is some complete chunks, all answered or being answered,
   and the part of the next chunk that lies in the in-buffer.
   */
  predicate Inv(alphabet: seq<byte>, s: Session)
    requires |alphabet| == 16
  {
    && WellFormed(s)
    && s.sent <= Answers(alphabet, s.taken)
    && match s.phase
       case Fresh =>
         Initial(s)
       case Reading(Transfer(start, len, moved)) =>
         start == s.outBuf.pos == 0 && len == IN_SIZE && Gathering(alphabet, s.taken, s.sent, s.inBuf.mem, moved)
       case Writing(Transfer(start, len, moved)) =>
         start == 0 && len == OUT_SIZE && moved <= len && Answering(alphabet, s.taken, s.sent, s.outBuf.mem, moved)
       case Ended =>
         true
  }

  /** While the session waits in a read, everything is answered exactly until the read is full. */
  lemma AnsweredUntilFull(alphabet: seq<byte>, s: Session)
    requires |alphabet| == 16 && Inv(alphabet, s) && s.phase.Reading?
    ensures s.sent == Answers(alphabet, s.taken) <==> s.phase.op.moved < IN_SIZE
  {
    var base := |s.taken| - s.phase.op.moved;
    TakeDrop(s.taken, base);
    AnswersOfExtended(alphabet, s.taken[..base], s.taken[base..]);
  }

  lemma OneChunkLess(n: nat)
    requires IsWhole(n) && n >= IN_SIZE
    ensures IsWhole(n - IN_SIZE)
  {
  }

  lemma LastLine(alphabet: seq<byte>, input: seq<byte>, before: seq<byte>, last: seq<byte>)
    requires |alphabet| == 16 && IsWhole(|input|) && input == before + last && |last| == IN_SIZE
    ensures Answers(alphabet, input) == Answers(alphabet, before) + Answer(alphabet, last)
  {
    OneChunkLess(|input|);
    AnswersOfExtended(alphabet, before, last);
    AnswersOfChunk(alphabet, last);
  }

  lemma {:induction false} AnswersGrow(alphabet: seq<byte>, input: seq<byte>, more: seq<byte>)
    requires |alphabet| == 16
    ensures Answers(alphabet, input) <= Answers(alphabet, input + more)
  {
    if |input| >= IN_SIZE {
      AnswersGrow(alphabet, input[IN_SIZE..], more);
      TailOfConcat(input, more, IN_SIZE);
    }
  }

  lemma GatheringGrows(
      alphabet: seq<byte>, taken: seq<byte>, sent: seq<byte>, mem: seq<byte>, moved: nat, bytes: seq<byte>)
    requires |alphabet| == 16 && moved + |bytes| <= |mem| && Gathering(alphabet, taken, sent, mem, moved)
    ensures Gathering(alphabet, taken + bytes, sent, Store(mem, moved, bytes), moved + |bytes|)
  {
    TailOfConcat(taken, bytes, |taken| - moved);
    var next := Store(mem, moved, bytes);
    assert next[..moved + |bytes|] == next[..moved] + next[moved..moved + |bytes|];
  }

  lemma StepKernelRead(alphabet: seq<byte>, s: Session, bytes: seq<byte>)
    requires |alphabet| == 16 && Inv(alphabet, s) && Enabled(s, KernelRead(bytes))
    ensures Inv(alphabet, Step(alphabet, s, KernelRead(bytes)))
  {
    GatheringGrows(alphabet, s.taken, s.sent, s.inBuf.mem, s.phase.op.moved, bytes);
    AnswersGrow(alphabet, s.taken, bytes);
  }

  /** A full in-buffer is the last chunk, and none of its line has been sent. */
  lemma GatheringDone(alphabet: seq<byte>, taken: seq<byte>, sent: seq<byte>, mem: seq<byte>)
    requires |alphabet| == 16 && |mem| == IN_SIZE && Gathering(alphabet, taken, sent, mem, IN_SIZE)
    ensures Answering(alphabet, taken, sent, Answer(alphabet, mem), 0)
  {
    assert mem[..IN_SIZE] == mem;
    assert Answer(alphabet, mem)[..0] == [];
  }

  lemma StepReadHandler(alphabet: seq<byte>, s: Session)
    requires |alphabet| == 16 && Inv(alphabet, s) && Enabled(s, ReadHandler)
    ensures Inv(alphabet, Step(alphabet, s, ReadHandler))
  {
    GatheringDone(alphabet, s.taken, s.sent, s.inBuf.mem);
    assert s.inBuf.mem[..IN_SIZE] == s.inBuf.mem;
  }

  lemma PrefixGrows(done: seq<byte>, line: seq<byte>, m: nat, n: nat)
    requires m + n <= |line|
    ensures (done + line[..m]) + line[m..m + n] == done + line[..m + n] <= done + line
  {
    assert line[..m] + line[m..m + n] == line[..m + n];
  }

  lemma AnsweringGrows(alphabet: seq<byte>, taken: seq<byte>, sent: seq<byte>, line: seq<byte>, m: nat, n: nat)
    requires |alphabet| == 16 && m + n <= |line| && Answering(alphabet, taken, sent, line, m)
    ensures Answering(alphabet, taken, sent + line[m..m + n], line, m + n)
    ensures sent + line[m..m + n] <= Answers(alphabet, taken)
  {
    var base := |taken| - IN_SIZE;
    TakeDrop(taken, base);
    LastLine(alphabet, taken, taken[..base], taken[base..]);
    PrefixGrows(Answers(alphabet, taken[..base]), line, m, n);
  }

  lemma StepKernelWrite(alphabet: seq<byte>, s: Session, n: nat)
    requires |alphabet| == 16 && Inv(alphabet, s) && Enabled(s, KernelWrite(n))
    ensures Inv(alphabet, Step(alphabet, s, KernelWrite(n)))
  {
    AnsweringGrows(alphabet, s.taken, s.sent, s.outBuf.mem, s.phase.op.moved, n);
  }

  /** When the line is out everything is answered, and gathering starts over. */
  lemma AnsweringDone(alphabet: seq<byte>, taken: seq<byte>, sent: seq<byte>, line: seq<byte>, mem: seq<byte>)
    requires |alphabet| == 16 && Answering(alphabet, taken, sent, line, |line|)
    ensures Gathering(alphabet, taken, sent, mem, 0)
  {
    var base := |taken| - IN_SIZE;
    TakeDrop(taken, base);
    LastLine(alphabet, taken, taken[..base], taken[base..]);
    assert taken[..|taken|] == taken && line[..|line|] == line;
  }

  lemma StepWriteHandler(alphabet: seq<byte>, s: Session, stopped: bool)
    requires |alphabet| == 16 && Inv(alphabet, s) && Enabled(s, WriteHandler(stopped))
    ensures Inv(alphabet, Step(alphabet, s, WriteHandler(stopped)))
  {
    AnsweringDone(alphabet, s.taken, s.sent, s.outBuf.mem, s.inBuf.mem);
  }

  lemma StepKeepsInv(alphabet: seq<byte>, s: Session, e: Event)
    requires |alphabet| == 16 && Inv(alphabet, s) && Enabled(s, e)
    ensures Inv(alphabet, Step(alphabet, s, e))
  {
    match e
    case Begin(stopped) =>
    case KernelRead(bytes) => StepKernelRead(alphabet, s, bytes);
    case ReadHandler => StepReadHandler(alphabet, s);
    case KernelWrite(n) => StepKernelWrite(alphabet, s, n);
    case WriteHandler(stopped) => StepWriteHandler(alphabet, s, stopped);
    case Fail =>
  }
}
