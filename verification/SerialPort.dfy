/**
 Configuring a serial port: the words of its termios structure as a state machine.

 A word is the set of its one bits, so that `|` is union and `& ~` is difference; bit numbers are
 those of Linux. The line speed, which cfsetispeed and cfsetospeed keep wherever they like, is a
 field of its own, and its bits are left out of the control word.
 */
module SerialPort {

  type Word = set<nat>

  // c_cflag. The character size takes two bits: 5 to 8 in binary counting from 00.
  const CSIZE_LOW: nat := 4
  const CSIZE_HIGH: nat := 5
  const CSTOPB: nat := 6
  const CREAD: nat := 7
  const PARENB: nat := 8
  const PARODD: nat := 9
  const CLOCAL: nat := 11
  const CMSPAR: nat := 30
  const CRTSCTS: nat := 31

  // c_iflag.
  const IGNBRK: nat := 0
  const PARMRK: nat := 3
  const INPCK: nat := 4
  const ISTRIP: nat := 5
  const INLCR: nat := 6
  const IGNCR: nat := 7
  const ICRNL: nat := 8
  const IUCLC: nat := 9
  const IXON: nat := 10
  const IXANY: nat := 11
  const IXOFF: nat := 12

  // c_oflag and c_lflag.
  const OPOST: nat := 0
  const ISIG: nat := 0
  const ICANON: nat := 1
  const ECHO: nat := 3
  const ECHOE: nat := 4
  const ECHOK: nat := 5
  const ECHONL: nat := 6
  const IEXTEN: nat := 15

  datatype Bytesize = FiveBits | SixBits | SevenBits | EightBits
  datatype Parity = NoParity | Even | Odd | Mark | Space
  datatype Stopbits = One | OnePointFive | Two
  datatype Flowcontrol = NoFlow | Software | Hardware

  datatype Request = Request(
    baudrate: nat,
    bytesize: Bytesize,
    parity: Parity,
    stopbits: Stopbits,
    flowcontrol: Flowcontrol)

  datatype Termios = Termios(
    cflag: Word,
    iflag: Word,
    oflag: Word,
    lflag: Word,
    speed: nat,
    vmin: nat,
    vtime: nat)

  /** The rates Linux has a constant for; any other asks for a custom divisor instead. */
  predicate IsStandardRate(rate: nat) {
    rate in {
      0, 50, 75, 110, 134, 150, 200, 300, 600, 1200, 1800, 2400, 4800, 9600, 19200, 38400, 57600,
      115200, 230400, 460800, 576000, 921600, 1000000, 1152000, 1500000, 2000000, 2500000, 3000000,
      3500000, 4000000}
  }

  // ---------------------------------------------------------------------------------------
  // The words after a request, as what is cleared and what is set.

  function SizeBits(b: Bytesize): Word {
    match b
    case FiveBits => {}
    case SixBits => {CSIZE_LOW}
    case SevenBits => {CSIZE_HIGH}
    case EightBits => {CSIZE_LOW, CSIZE_HIGH}
  }

  function ParityClears(p: Parity): Word {
    match p
    case NoParity => {PARENB, PARODD}
    case Even => {PARODD}
    case Space => {PARODD}
    case _ => {}
  }

  function ParitySets(p: Parity): Word {
    match p
    case NoParity => {}
    case Even => {PARENB}
    case Odd => {PARENB, PARODD}
    case Mark => {PARENB, CMSPAR, PARODD}
    case Space => {PARENB, CMSPAR}
  }

  function CflagClears(r: Request): Word {
    {CSIZE_LOW, CSIZE_HIGH, CSTOPB, CRTSCTS} + ParityClears(r.parity)
  }

  function CflagSets(r: Request): Word {
    {CLOCAL, CREAD} + SizeBits(r.bytesize) + ParitySets(r.parity)
    + (if r.stopbits.One? then {} else {CSTOPB})
    + (if r.flowcontrol.Hardware? then {CRTSCTS} else {})
  }

  function IflagClears(r: Request): Word {
    {INLCR, IGNCR, ICRNL, IGNBRK, IUCLC, PARMRK, INPCK, ISTRIP}
    + (if r.flowcontrol.Software? then {} else {IXON, IXOFF, IXANY})
  }

  function IflagSets(r: Request): Word {
    if r.flowcontrol.Software? then {IXON, IXOFF} else {}
  }

  const LFLAG_CLEARS: Word := {ICANON, ECHO, ECHOE, ECHOK, ECHONL, ISIG, IEXTEN}

  function Rewrite(word: Word, clears: Word, sets: Word): Word {
    word - clears + sets
  }

  function Configured(t: Termios, r: Request): Termios {
    Termios(
      Rewrite(t.cflag, CflagClears(r), CflagSets(r)),
      Rewrite(t.iflag, IflagClears(r), IflagSets(r)),
      Rewrite(t.oflag, {OPOST}, {}),
      Rewrite(t.lflag, LFLAG_CLEARS, {}),
      if IsStandardRate(r.baudrate) then r.baudrate else t.speed,
      0, 0)
  }

  /** The settings of the port while it is open; descriptor -1 is a closed one. */
  class Port {
    var fd: int
    var settings: Termios

    constructor (descriptor: int, initial: Termios)
      ensures fd == descriptor && settings == initial
    {
      fd, settings := descriptor, initial;
    }

    /** False stands for the exception on a closed port; the system calls succeed. */
    method Reconfigure(r: Request) returns (ok: bool)
      modifies `settings
      ensures ok <==> fd != -1
      ensures settings == if ok then Configured(old(settings), r) else old(settings)
    {
      ok := fd != -1;
      if !ok {
        return;
      }
      var options := settings;
      options := options.(lflag := options.lflag - LFLAG_CLEARS, oflag := options.oflag - {OPOST});
      if IsStandardRate(r.baudrate) {
        options := options.(speed := r.baudrate);
      }
      var cflag := SetControl(options.cflag, r);
      var iflag := SetInput(options.iflag, r);
      settings := options.(cflag := cflag, iflag := iflag, vmin := 0, vtime := 0);
    }

    /** The steps on the control word, in order. */
    method SetControl(word: Word, r: Request) returns (cflag: Word)
      ensures cflag == Rewrite(word, CflagClears(r), CflagSets(r))
    {
      cflag := word + {CLOCAL, CREAD};
      cflag := cflag - {CSIZE_LOW, CSIZE_HIGH};
      cflag := cflag + SizeBits(r.bytesize);
      cflag := SetStopbits(cflag, r.stopbits);
      cflag := SetParity(cflag, r.parity);
      if r.flowcontrol.Hardware? {
        cflag := cflag + {CRTSCTS};
      } else {
        cflag := cflag - {CRTSCTS};
      }
    }

    /** The steps on the input word, in order. */
    method SetInput(word: Word, r: Request) returns (iflag: Word)
      ensures iflag == Rewrite(word, IflagClears(r), IflagSets(r))
    {
      iflag := word - {INLCR, IGNCR, ICRNL, IGNBRK};
      iflag := iflag - {IUCLC};
      iflag := iflag - {PARMRK};
      iflag := iflag - {INPCK, ISTRIP};
      if r.flowcontrol.Software? {
        iflag := iflag + {IXON, IXOFF};
      } else {
        iflag := iflag - {IXON, IXOFF, IXANY};
      }
    }

    method SetStopbits(word: Word, s: Stopbits) returns (cflag: Word)
      ensures cflag == Rewrite(word, {CSTOPB}, if s.One? then {} else {CSTOPB})
    {
      match s {
        case One => cflag := word - {CSTOPB};
        case OnePointFive => cflag := word + {CSTOPB};
        case Two => cflag := word + {CSTOPB};
      }
    }

    /** The parity step; mark and space set CMSPAR, and nothing clears it. */
    method SetParity(word: Word, p: Parity) returns (cflag: Word)
      ensures cflag == Rewrite(word, ParityClears(p), ParitySets(p))
    {
      cflag := word;
      match p {
        case NoParity =>
          cflag := cflag - {PARENB, PARODD};
        case Even =>
          cflag := cflag - {PARODD};
          cflag := cflag + {PARENB};
        case Odd =>
          cflag := cflag + {PARENB, PARODD};
        case Mark =>
          cflag := cflag + {PARENB, CMSPAR, PARODD};
        case Space =>
          cflag := cflag + {PARENB, CMSPAR};
          cflag := cflag - {PARODD};
      }
    }
  }

  // ---------------------------------------------------------------------------------------
  // What a later reader of the words makes of them.

  function DecodeSize(cflag: Word): Bytesize {
    if CSIZE_HIGH in cflag then (if CSIZE_LOW in cflag then EightBits else SevenBits)
    else (if CSIZE_LOW in cflag then SixBits else FiveBits)
  }

  function DecodeParity(cflag: Word): Parity {
    if PARENB !in cflag then NoParity
    else if CMSPAR in cflag then (if PARODD in cflag then Mark else Space)
    else (if PARODD in cflag then Odd else Even)
  }

  function DecodeStop(cflag: Word): Stopbits {
    if CSTOPB in cflag then Two else One
  }

  function DecodeFlow(cflag: Word, iflag: Word): Flowcontrol {
    if CRTSCTS in cflag then Hardware
    else if IXON in iflag && IXOFF in iflag then Software
    else NoFlow
  }

  /** POSIX has no one and a half stop bits: asking for them gives two. */
  function StopAsTwo(s: Stopbits): Stopbits {
    if s.OnePointFive? then Two else s
  }

  /** Raw mode: no line editing, echo, signals or translation; reads poll and never block. */
  predicate IsRaw(t: Termios) {
    && CLOCAL in t.cflag && CREAD in t.cflag
    && ICANON !in t.lflag && ECHO !in t.lflag && ECHOE !in t.lflag && ECHOK !in t.lflag && ECHONL !in t.lflag
    && ISIG !in t.lflag && IEXTEN !in t.lflag
    && OPOST !in t.oflag
    && IGNBRK !in t.iflag && PARMRK !in t.iflag && INPCK !in t.iflag && ISTRIP !in t.iflag
    && INLCR !in t.iflag && IGNCR !in t.iflag && ICRNL !in t.iflag && IUCLC !in t.iflag
    && t.vmin == t.vtime == 0
  }

  // ---------------------------------------------------------------------------------------
  // Properties.

  /** Asking for the same configuration twice changes nothing the second time. */
  lemma ReconfiguringIsIdempotent(t: Termios, r: Request)
    ensures Configured(Configured(t, r), r) == Configured(t, r)
  {
  }

  const CFLAG_MANAGED: Word := {CSIZE_LOW, CSIZE_HIGH, CSTOPB, CREAD, PARENB, PARODD, CLOCAL, CMSPAR, CRTSCTS}
  const IFLAG_MANAGED: Word := {IGNBRK, PARMRK, INPCK, ISTRIP, INLCR, IGNCR, ICRNL, IUCLC, IXON, IXANY, IXOFF}

  lemma OutsideUntouched(word: Word, clears: Word, sets: Word, managed: Word)
    requires clears <= managed && sets <= managed
    ensures Rewrite(word, clears, sets) - managed == word - managed
  {
  }

  /** Bits the configuration does not manage are left as they were. */
  lemma UnmanagedBitsUntouched(t: Termios, r: Request)
    ensures var c := Configured(t, r);
            && c.cflag - CFLAG_MANAGED == t.cflag - CFLAG_MANAGED
            && c.iflag - IFLAG_MANAGED == t.iflag - IFLAG_MANAGED
            && c.oflag - {OPOST} == t.oflag - {OPOST}
            && c.lflag - LFLAG_CLEARS == t.lflag - LFLAG_CLEARS
  {
    OutsideUntouched(t.cflag, CflagClears(r), CflagSets(r), CFLAG_MANAGED);
    OutsideUntouched(t.iflag, IflagClears(r), IflagSets(r), IFLAG_MANAGED);
    OutsideUntouched(t.oflag, {OPOST}, {}, {OPOST});
    OutsideUntouched(t.lflag, LFLAG_CLEARS, {}, LFLAG_CLEARS);
  }

  lemma RewrittenBit(word: Word, clears: Word, sets: Word, bit: nat)
    ensures bit in Rewrite(word, clears, sets) <==> bit in sets || (bit in word && bit !in clears)
  {
  }

  /** Size, stop bits, flow control and a standard rate of a request decode to what was asked. */
  lemma FormatDecodes(t: Termios, r: Request)
    ensures var c := Configured(t, r);
            && DecodeSize(c.cflag) == r.bytesize
            && DecodeStop(c.cflag) == StopAsTwo(r.stopbits)
            && DecodeFlow(c.cflag, c.iflag) == r.flowcontrol
            && (IsStandardRate(r.baudrate) ==> c.speed == r.baudrate)
  {
    SizeDecodes(t.cflag, r);
    StopAndFlowDecode(t.cflag, t.iflag, r);
  }

  lemma SizeDecodes(word: Word, r: Request)
    ensures DecodeSize(Rewrite(word, CflagClears(r), CflagSets(r))) == r.bytesize
  {
    RewrittenBit(word, CflagClears(r), CflagSets(r), CSIZE_LOW);
    RewrittenBit(word, CflagClears(r), CflagSets(r), CSIZE_HIGH);
  }

  lemma StopAndFlowDecode(cword: Word, iword: Word, r: Request)
    ensures var c, i := Rewrite(cword, CflagClears(r), CflagSets(r)), Rewrite(iword, IflagClears(r), IflagSets(r));
            DecodeStop(c) == StopAsTwo(r.stopbits) && DecodeFlow(c, i) == r.flowcontrol
  {
    RewrittenBit(cword, CflagClears(r), CflagSets(r), CSTOPB);
    RewrittenBit(cword, CflagClears(r), CflagSets(r), CRTSCTS);
    RewrittenBit(iword, IflagClears(r), IflagSets(r), IXON);
    RewrittenBit(iword, IflagClears(r), IflagSets(r), IXOFF);
  }

  /** Whatever is asked for, the port is left in raw mode. */
  lemma AlwaysRaw(t: Termios, r: Request)
    ensures IsRaw(Configured(t, r))
  {
  }

  /** The control word after a request, bit by bit, with the numbers that Linux gives the bits. */
  lemma ControlBits(t: Termios, r: Request)
    ensures var c := Configured(t, r).cflag;
            && (4 in c <==> r.bytesize.SixBits? || r.bytesize.EightBits?)
            && (5 in c <==> r.bytesize.SevenBits? || r.bytesize.EightBits?)
            && (6 in c <==> !r.stopbits.One?)
            && 7 in c && 11 in c
            && (31 in c <==> r.flowcontrol.Hardware?)
  {
  }

  /** Its parity bits: enabled, odd, and mark or space. */
  lemma ParityBits(t: Termios, r: Request)
    ensures var c := Configured(t, r).cflag;
            && (8 in c <==> !r.parity.NoParity?)
            && (9 in c <==> r.parity.Odd? || r.parity.Mark?)
            && (30 in c <==> 30 in t.cflag || r.parity.Mark? || r.parity.Space?)
  {
  }

  /** The input word after a request, bit by bit. */
  lemma InputBits(t: Termios, r: Request)
    ensures var i := Configured(t, r).iflag;
            && (10 in i <==> r.flowcontrol.Software?) && (12 in i <==> r.flowcontrol.Software?)
            && (11 in i <==> r.flowcontrol.Software? && 11 in t.iflag)
            && 0 !in i && 3 !in i && 4 !in i && 5 !in i && 6 !in i && 7 !in i && 8 !in i && 9 !in i
  {
  }

  /** The rates with a case of their own take effect, and any other leaves the speed alone. */
  lemma RatesTakeEffect(t: Termios, r: Request)
    ensures Configured(t, r).speed
         == if r.baudrate in {
              0, 50, 75, 110, 134, 150, 200, 300, 600, 1200, 1800, 2400, 4800, 9600, 19200, 38400, 57600, 115200,
              230400, 460800, 576000, 921600, 1000000, 1152000, 1500000, 2000000, 2500000, 3000000, 3500000, 4000000}
            then r.baudrate else t.speed
  {
  }

  /** Even and odd parity come out wrong exactly where CMSPAR is set. */
  lemma ParityDecodesUnlessSticky(t: Termios, r: Request)
    ensures DecodeParity(Configured(t, r).cflag) == r.parity
       <==> !(CMSPAR in t.cflag && (r.parity.Even? || r.parity.Odd?))
  {
    RewrittenBit(t.cflag, CflagClears(r), CflagSets(r), CMSPAR);
    RewrittenBit(t.cflag, CflagClears(r), CflagSets(r), PARENB);
    RewrittenBit(t.cflag, CflagClears(r), CflagSets(r), PARODD);
  }

  function Run(t: Termios, requests: seq<Request>): Termios {
    if requests == [] then t
    else Configured(Run(t, requests[..|requests| - 1]), requests[|requests| - 1])
  }

  predicate Sticks(r: Request) {
    r.parity.Mark? || r.parity.Space?
  }

  predicate UsesMarkOrSpace(requests: seq<Request>) {
    exists i :: 0 <= i < |requests| && Sticks(requests[i])
  }

  lemma UsesAtTheEnd(requests: seq<Request>)
    requires requests != []
    ensures UsesMarkOrSpace(requests)
        <==> UsesMarkOrSpace(requests[..|requests| - 1]) || Sticks(requests[|requests| - 1])
  {
    var front := requests[..|requests| - 1];
    if UsesMarkOrSpace(front) {
      var i :| 0 <= i < |front| && Sticks(front[i]);
      assert Sticks(requests[i]);
    }
    if UsesMarkOrSpace(requests) && !Sticks(requests[|front|]) {
      var i :| 0 <= i < |requests| && Sticks(requests[i]);
      assert Sticks(front[i]);
    }
  }

  /** Nothing clears CMSPAR. */
  lemma StickyBit(t: Termios, r: Request)
    ensures CMSPAR in Configured(t, r).cflag <==> CMSPAR in t.cflag || Sticks(r)
  {
    RewrittenBit(t.cflag, CflagClears(r), CflagSets(r), CMSPAR);
  }

  lemma {:induction false} MarkAndSpaceStick(t: Termios, requests: seq<Request>)
    ensures CMSPAR in Run(t, requests).cflag <==> CMSPAR in t.cflag || UsesMarkOrSpace(requests)
  {
    if requests != [] {
      var front := requests[..|requests| - 1];
      MarkAndSpaceStick(t, front);
      StickyBit(Run(t, front), requests[|requests| - 1]);
      UsesAtTheEnd(requests);
    }
  }

  /** A run that ends in a request for even parity and leaves the port in space parity. */
  lemma EvenAfterMarkIsSpace(t: Termios, mark: Request)
    requires mark.parity.Mark?
    ensures var even := mark.(parity := Even);
            DecodeParity(Configured(Configured(t, mark), even).cflag) == Space
  {
    var even := mark.(parity := Even);
    var marked := Configured(t, mark);
    StickyBit(t, mark);
    StickyBit(marked, even);
    RewrittenBit(marked.cflag, CflagClears(even), CflagSets(even), PARENB);
    RewrittenBit(marked.cflag, CflagClears(even), CflagSets(even), PARODD);
  }

  /**
   After any run of requests the port is raw and the words decode to the last one in size, stop
   bits and flow control. Its parity decodes right exactly unless it is even or odd and CMSPAR was set at the
   start or an earlier request used mark or space.
   */
  lemma LastRequestDecodes(t: Termios, requests: seq<Request>)
    requires requests != []
    ensures var front, r := requests[..|requests| - 1], requests[|requests| - 1];
            var c := Run(t, requests);
            && DecodeSize(c.cflag) == r.bytesize
            && DecodeStop(c.cflag) == StopAsTwo(r.stopbits)
            && DecodeFlow(c.cflag, c.iflag) == r.flowcontrol
            && (DecodeParity(c.cflag) == r.parity
                <==> !((r.parity.Even? || r.parity.Odd?) && (CMSPAR in t.cflag || UsesMarkOrSpace(front))))
            && (IsStandardRate(r.baudrate) ==> c.speed == r.baudrate)
            && IsRaw(c)
  {
    var front, r := requests[..|requests| - 1], requests[|requests| - 1];
    AlwaysRaw(Run(t, front), r);
    FormatDecodes(Run(t, front), r);
    ParityDecodesUnlessSticky(Run(t, front), r);
    MarkAndSpaceStick(t, front);
  }
}
