/**
 The service message printer: one method per kind of message, and reading a printed stream back.
 */
module ServiceMessages {
  import opened Options
  import opened ServiceText
  import opened Sequences

  datatype Message =
    | SuiteStarted(name: string, flowId: string)
    | SuiteFinished(name: string, flowId: string)
    | TestStarted(name: string, flowId: string, capture: bool)
    | TestFinished(name: string, duration: int, flowId: string)
    | TestFailed(name: string, message: string, details: string, flowId: string)
    | TestIgnored(name: string, message: string, flowId: string)
    | TestOutput(name: string, output: string, flowId: string, isStdErr: bool)

  function FlowProperty(flowId: string): seq<Property> {
    if |flowId| > 0 then [Property("flowId", flowId)] else []
  }

  function RawOf(m: Message): Raw {
    match m
    case SuiteStarted(name, flowId) =>
      Raw("testSuiteStarted", [Property("name", name)] + FlowProperty(flowId))
    case SuiteFinished(name, flowId) =>
      Raw("testSuiteFinished", [Property("name", name)] + FlowProperty(flowId))
    case TestStarted(name, flowId, capture) =>
      Raw("testStarted", [Property("name", name)] + FlowProperty(flowId)
                         + (if capture then [Property("captureStandardOutput", "true")] else []))
    case TestFinished(name, duration, flowId) =>
      Raw("testFinished", [Property("name", name)] + FlowProperty(flowId)
                          + (if duration >= 0 then [Property("duration", Decimal(duration))] else []))
    case TestFailed(name, message, details, flowId) =>
      Raw("testFailed", [Property("name", name), Property("message", message), Property("details", details)]
                        + FlowProperty(flowId))
    case TestIgnored(name, message, flowId) =>
      Raw("testIgnored", [Property("name", name), Property("message", message)] + FlowProperty(flowId))
    case TestOutput(name, output, flowId, isStdErr) =>
      Raw(if isStdErr then "testStdErr" else "testStdOut",
          [Property("name", name), Property("out", output)] + FlowProperty(flowId))
  }

  function Print(m: Message): string {
    Text(RawOf(m))
  }

  function Texts(ms: seq<Message>): (r: seq<string>)
    ensures |r| == |ms|
  {
    seq(|ms|, i requires 0 <= i < |ms| => Print(ms[i]))
  }

  function Flatten(texts: seq<string>): string {
    if texts == [] then [] else texts[0] + Flatten(texts[1..])
  }

  /** The stream that a run of calls leaves behind. */
  function PrintAll(ms: seq<Message>): string {
    Flatten(Texts(ms))
  }

  // ---------------------------------------------------------------------------------------
  // Reading back.

  /** The value of a property, if the message has it. */
  function Lookup(props: seq<Property>, key: string): Option<string> {
    if props == [] then None
    else if props[0].key == key then Some(props[0].value)
    else Lookup(props[1..], key)
  }

  function ValueOrEmpty(props: seq<Property>, key: string): string {
    var v := Lookup(props, key);
    if v.Some? then v.value else ""
  }

  function DurationOf(props: seq<Property>): int {
    var v := Lookup(props, "duration");
    if v.Some? && ReadDecimal(v.value).Some? then ReadDecimal(v.value).value else -1
  }

  /** A server's view of a message: its kind, and each property or its default. */
  function MessageOf(raw: Raw): Option<Message> {
    var name, flowId := ValueOrEmpty(raw.props, "name"), ValueOrEmpty(raw.props, "flowId");
    if raw.kind == "testSuiteStarted" then Some(SuiteStarted(name, flowId))
    else if raw.kind == "testSuiteFinished" then Some(SuiteFinished(name, flowId))
    else if raw.kind == "testStarted" then
      Some(TestStarted(name, flowId, Lookup(raw.props, "captureStandardOutput") == Some("true")))
    else if raw.kind == "testFinished" then Some(TestFinished(name, DurationOf(raw.props), flowId))
    else if raw.kind == "testFailed" then
      Some(TestFailed(name, ValueOrEmpty(raw.props, "message"), ValueOrEmpty(raw.props, "details"), flowId))
    else if raw.kind == "testIgnored" then Some(TestIgnored(name, ValueOrEmpty(raw.props, "message"), flowId))
    else if raw.kind == "testStdErr" then Some(TestOutput(name, ValueOrEmpty(raw.props, "out"), flowId, true))
    else if raw.kind == "testStdOut" then Some(TestOutput(name, ValueOrEmpty(raw.props, "out"), flowId, false))
    else None
  }

  function ReadAll(t: string): Option<seq<Message>>
    decreases |t|
  {
    if t == [] then Some([])
    else
      match ReadMessage(t)
      case None => None
      case Some(r) =>
        match (MessageOf(r.item), ReadAll(r.rest))
        case (Some(m), Some(ms)) => Some([m] + ms)
        case _ => None
  }

  /** The calls that print alike: a negative duration is no duration. */
  function Normal(m: Message): Message {
    if m.TestFinished? && m.duration < 0 then m.(duration := -1) else m
  }

  function NormalAll(ms: seq<Message>): seq<Message> {
    if ms == [] then [] else [Normal(ms[0])] + NormalAll(ms[1..])
  }

  lemma LookupFirst(p: Property, props: seq<Property>, key: string)
    ensures Lookup([p] + props, key) == if p.key == key then Some(p.value) else Lookup(props, key)
  {
    assert ([p] + props)[1..] == props;
  }

  lemma {:induction false} LookupConcat(a: seq<Property>, b: seq<Property>, key: string)
    ensures Lookup(a + b, key) == if Lookup(a, key).Some? then Lookup(a, key) else Lookup(b, key)
  {
    if a == [] {
      assert a + b == b;
    } else {
      LookupConcat(a[1..], b, key);
      assert (a + b)[1..] == a[1..] + b;
    }
  }

  lemma LookupOne(p: Property, key: string)
    ensures Lookup([p], key) == if p.key == key then Some(p.value) else None
  {
    LookupFirst(p, [], key);
    assert [p] + [] == [p];
  }

  lemma LookupFlow(flowId: string, key: string)
    ensures Lookup(FlowProperty(flowId), key)
         == if |flowId| > 0 && key == "flowId" then Some(flowId) else None
  {
    if |flowId| > 0 {
      LookupOne(Property("flowId", flowId), key);
    }
  }

  lemma SuiteReadsBack(m: Message)
    requires m.SuiteStarted? || m.SuiteFinished?
    ensures MessageOf(RawOf(m)) == Some(m)
  {
    var props := RawOf(m).props;
    LookupFirst(Property("name", m.name), FlowProperty(m.flowId), "name");
    LookupFirst(Property("name", m.name), FlowProperty(m.flowId), "flowId");
    LookupFlow(m.flowId, "flowId");
  }

  /** Looking up in a name, a flow identifier and one optional property behind them. */
  lemma LookupInTail(name: string, flowId: string, last: seq<Property>, key: string)
    ensures Lookup([Property("name", name)] + FlowProperty(flowId) + last, key)
         == if key == "name" then Some(name)
            else if key == "flowId" && |flowId| > 0 then Some(flowId)
            else Lookup(last, key)
  {
    assert [Property("name", name)] + FlowProperty(flowId) + last
        == [Property("name", name)] + (FlowProperty(flowId) + last);
    LookupFirst(Property("name", name), FlowProperty(flowId) + last, key);
    LookupConcat(FlowProperty(flowId), last, key);
    LookupFlow(flowId, key);
  }

  lemma TestStartedReadsBack(m: Message)
    requires m.TestStarted?
    ensures MessageOf(RawOf(m)) == Some(m)
  {
    var last := if m.capture then [Property("captureStandardOutput", "true")] else [];
    LookupInTail(m.name, m.flowId, last, "name");
    LookupInTail(m.name, m.flowId, last, "flowId");
    LookupInTail(m.name, m.flowId, last, "captureStandardOutput");
    if m.capture {
      LookupOne(last[0], "flowId");
      LookupOne(last[0], "captureStandardOutput");
    }
  }

  lemma TestFinishedReadsBack(m: Message)
    requires m.TestFinished?
    ensures MessageOf(RawOf(m)) == Some(Normal(m))
  {
    var last := if m.duration >= 0 then [Property("duration", Decimal(m.duration))] else [];
    LookupInTail(m.name, m.flowId, last, "name");
    LookupInTail(m.name, m.flowId, last, "flowId");
    LookupInTail(m.name, m.flowId, last, "duration");
    if m.duration >= 0 {
      LookupOne(last[0], "flowId");
      LookupOne(last[0], "duration");
      ReadDecimalBack(m.duration);
    }
  }

  lemma LookupInHead(head: seq<Property>, flowId: string, key: string)
    ensures Lookup(head + FlowProperty(flowId), key)
         == if Lookup(head, key).Some? then Lookup(head, key)
            else if key == "flowId" && |flowId| > 0 then Some(flowId)
            else None
  {
    LookupConcat(head, FlowProperty(flowId), key);
    LookupFlow(flowId, key);
  }

  lemma LookupTwo(p: Property, q: Property, key: string)
    ensures Lookup([p, q], key)
         == if p.key == key then Some(p.value) else if q.key == key then Some(q.value) else None
  {
    assert [p, q] == [p] + [q];
    LookupFirst(p, [q], key);
    LookupOne(q, key);
  }

  lemma TestFailedReadsBack(m: Message)
    requires m.TestFailed?
    ensures MessageOf(RawOf(m)) == Some(m)
  {
    var n, a, b := Property("name", m.name), Property("message", m.message), Property("details", m.details);
    var head := [n, a, b];
    assert head == [n] + [a, b];
    forall key | key in {"name", "message", "details", "flowId"}
      ensures Lookup(head + FlowProperty(m.flowId), key)
           == if key == "name" then Some(m.name)
              else if key == "message" then Some(m.message)
              else if key == "details" then Some(m.details)
              else if |m.flowId| > 0 then Some(m.flowId) else None
    {
      LookupInHead(head, m.flowId, key);
      LookupFirst(n, [a, b], key);
      LookupTwo(a, b, key);
    }
  }

  lemma TestIgnoredReadsBack(m: Message)
    requires m.TestIgnored?
    ensures MessageOf(RawOf(m)) == Some(m)
  {
    var n, a := Property("name", m.name), Property("message", m.message);
    forall key | key in {"name", "message", "flowId"}
      ensures Lookup([n, a] + FlowProperty(m.flowId), key)
           == if key == "name" then Some(m.name)
              else if key == "message" then Some(m.message)
              else if |m.flowId| > 0 then Some(m.flowId) else None
    {
      LookupInHead([n, a], m.flowId, key);
      LookupTwo(n, a, key);
    }
  }

  lemma TestOutputReadsBack(m: Message)
    requires m.TestOutput?
    ensures MessageOf(RawOf(m)) == Some(m)
  {
    var n, a := Property("name", m.name), Property("out", m.output);
    forall key | key in {"name", "out", "flowId"}
      ensures Lookup([n, a] + FlowProperty(m.flowId), key)
           == if key == "name" then Some(m.name)
              else if key == "out" then Some(m.output)
              else if |m.flowId| > 0 then Some(m.flowId) else None
    {
      LookupInHead([n, a], m.flowId, key);
      LookupTwo(n, a, key);
    }
  }

  /** A message reads back as the call that printed it. */
  lemma MessageReadsBack(m: Message)
    ensures MessageOf(RawOf(m)) == Some(Normal(m))
  {
    match m
    case SuiteStarted(_, _) => SuiteReadsBack(m);
    case SuiteFinished(_, _) => SuiteReadsBack(m);
    case TestStarted(_, _, _) => TestStartedReadsBack(m);
    case TestFinished(_, _, _) => TestFinishedReadsBack(m);
    case TestFailed(_, _, _, _) => TestFailedReadsBack(m);
    case TestIgnored(_, _, _) => TestIgnoredReadsBack(m);
    case TestOutput(_, _, _, _) => TestOutputReadsBack(m);
  }

  /** The keys the printer uses. */
  predicate IsKey(key: string) {
    key in {"name", "flowId", "message", "details", "out", "duration", "captureStandardOutput"}
  }

  lemma KeysAreWords(key: string)
    requires IsKey(key)
    ensures IsWord(key)
  {
  }

  lemma CommonKindsAreWords(m: Message)
    requires m.SuiteStarted? || m.SuiteFinished? || m.TestStarted? || m.TestFinished?
    ensures IsWord(RawOf(m).kind)
  {
  }

  lemma OtherKindsAreWords(m: Message)
    requires m.TestFailed? || m.TestIgnored? || m.TestOutput?
    ensures IsWord(RawOf(m).kind)
  {
  }

  lemma KindsAreWords(m: Message)
    ensures IsWord(RawOf(m).kind)
  {
    if m.TestFailed? || m.TestIgnored? || m.TestOutput? {
      OtherKindsAreWords(m);
    } else {
      CommonKindsAreWords(m);
    }
  }

  lemma KeysOfRaw(m: Message)
    ensures forall p | p in RawOf(m).props :: IsKey(p.key)
  {
  }

  lemma RawIsFramed(m: Message)
    ensures IsFramed(RawOf(m))
  {
    KindsAreWords(m);
    KeysOfRaw(m);
    var props := RawOf(m).props;
    forall i | 0 <= i < |props| ensures IsWord(props[i].key) {
      assert props[i] in props;
      KeysAreWords(props[i].key);
    }
  }

  lemma FirstReadsBack(m: Message, rest: string, ms: seq<Message>)
    requires ReadAll(rest) == Some(ms)
    ensures ReadAll(Print(m) + rest) == Some([Normal(m)] + ms)
  {
    RawIsFramed(m);
    ReadMessageBack(RawOf(m), rest);
    MessageReadsBack(m);
    assert |Print(m)| > 0;
  }

  /** Any printed stream reads back as exactly the calls made, in order. */
  lemma {:induction false} StreamReadsBack(ms: seq<Message>)
    ensures ReadAll(PrintAll(ms)) == Some(NormalAll(ms))
  {
    if ms != [] {
      StreamReadsBack(ms[1..]);
      FirstReadsBack(ms[0], PrintAll(ms[1..]), NormalAll(ms[1..]));
      PrintAllStart(ms);
    }
  }

  lemma PrintAllStart(ms: seq<Message>)
    requires ms != []
    ensures PrintAll(ms) == Print(ms[0]) + PrintAll(ms[1..])
  {
    assert Texts(ms)[1..] == Texts(ms[1..]);
  }

  /** Two runs of calls print the same stream exactly when they are the same calls. */
  lemma StreamIsUniquelyDecodable(ms: seq<Message>, ns: seq<Message>)
    ensures PrintAll(ms) == PrintAll(ns) <==> NormalAll(ms) == NormalAll(ns)
  {
    StreamReadsBack(ms);
    StreamReadsBack(ns);
    if NormalAll(ms) == NormalAll(ns) {
      SameNormalsPrintAlike(ms, ns);
    }
  }

  lemma {:induction false} SameNormalsPrintAlike(ms: seq<Message>, ns: seq<Message>)
    requires NormalAll(ms) == NormalAll(ns)
    ensures PrintAll(ms) == PrintAll(ns)
  {
    if ms != [] && ns != [] {
      assert NormalAll(ms)[0] == Normal(ms[0]) && NormalAll(ns)[0] == Normal(ns[0]);
      assert RawOf(ms[0]) == RawOf(Normal(ms[0])) == RawOf(ns[0]);
      assert NormalAll(ms)[1..] == NormalAll(ms[1..]) && NormalAll(ns)[1..] == NormalAll(ns[1..]);
      SameNormalsPrintAlike(ms[1..], ns[1..]);
      PrintAllStart(ms);
      PrintAllStart(ns);
    }
  }

  lemma {:induction false} FlattenConcat(a: seq<string>, b: seq<string>)
    ensures Flatten(a + b) == Flatten(a) + Flatten(b)
  {
    if a == [] {
      assert a + b == b;
    } else {
      FlattenConcat(a[1..], b);
      TailOfConcat(a, b, 1);
      Assoc(a[0], Flatten(a[1..]), Flatten(b));
    }
  }

  /** The stream grows by what each call prints. */
  lemma PrintAllConcat(ms: seq<Message>, ns: seq<Message>)
    ensures PrintAll(ms + ns) == PrintAll(ms) + PrintAll(ns)
  {
    assert Texts(ms + ns) == Texts(ms) + Texts(ns);
    FlattenConcat(Texts(ms), Texts(ns));
  }

  lemma PrintOne(m: Message)
    ensures PrintAll([m]) == Print(m)
  {
    assert Flatten([Print(m)]) == Print(m) + Flatten([]);
    assert Texts([m]) == [Print(m)];
  }
}
