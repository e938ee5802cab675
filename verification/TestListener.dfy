/**
 The test event listener: what a run of test suites prints, and what can be read back from it.
 */
module TestListener {
  import opened Options
  import opened ServiceText
  import opened ServiceMessages
  import opened MessagePrinter
  import opened Sequences

  /** One assertion result of a test; the file is optional and the line negative if unknown. */
  datatype Part = Part(passed: bool, summary: string, message: string, file: Option<string>, line: int)

  datatype Test = Test(name: string, parts: seq<Part>, elapsed: int)

  datatype Suite = Suite(name: string, tests: seq<Test>)

  predicate Failed(parts: seq<Part>) {
    exists i :: 0 <= i < |parts| && !parts[i].passed
  }

  /** The text one failing part adds: its message, and where it happened. */
  function Block(p: Part): string {
    p.message + (if p.file.Some? && p.line >= 0 then "\n at " + p.file.value + ":" + Decimal(p.line) else "")
  }

  /** The blocks of the failing parts, in order. */
  function Blocks(parts: seq<Part>): seq<string> {
    if parts == [] then []
    else
      var last := parts[|parts| - 1];
      Blocks(parts[..|parts| - 1]) + (if last.passed then [] else [Block(last)])
  }

  /** Texts with a newline between each two. */
  function Join(texts: seq<string>): string {
    if texts == [] then ""
    else if |texts| == 1 then texts[0]
    else Join(texts[..|texts| - 1]) + "\n" + texts[|texts| - 1]
  }

  /** The list without the empty texts at its front. */
  function SkipEmpty(texts: seq<string>): seq<string> {
    if texts != [] && texts[0] == "" then SkipEmpty(texts[1..]) else texts
  }

  /** The first summary of a failing part that is not empty. */
  function FirstSummary(parts: seq<Part>): string {
    if parts == [] then ""
    else
      var before, last := FirstSummary(parts[..|parts| - 1]), parts[|parts| - 1];
      if before == "" && !last.passed then last.summary else before
  }

  /** The narrowing of a 64-bit number of milliseconds to a 32-bit int. */
  function ToInt32(n: int): int {
    (n + 0x8000_0000) % 0x1_0000_0000 - 0x8000_0000
  }

  function FailureOf(t: Test, flowId: string): Message {
    var summary := FirstSummary(t.parts);
    TestFailed(t.name, if summary != "" then summary else "failed", Join(SkipEmpty(Blocks(t.parts))), flowId)
  }

  function TestEnd(t: Test, flowId: string): seq<Message> {
    (if Failed(t.parts) then [FailureOf(t, flowId)] else [])
    + [TestFinished(t.name, ToInt32(t.elapsed), flowId)]
  }

  function TestMessages(t: Test, flowId: string): seq<Message> {
    [TestStarted(t.name, flowId, false)] + TestEnd(t, flowId)
  }

  function TestsMessages(tests: seq<Test>, flowId: string): seq<Message> {
    if tests == [] then [] else TestMessages(tests[0], flowId) + TestsMessages(tests[1..], flowId)
  }

  function SuiteMessages(s: Suite, flowId: string): seq<Message> {
    [SuiteStarted(s.name, flowId)] + TestsMessages(s.tests, flowId) + [SuiteFinished(s.name, flowId)]
  }

  function RunMessages(suites: seq<Suite>, flowId: string): seq<Message> {
    if suites == [] then [] else SuiteMessages(suites[0], flowId) + RunMessages(suites[1..], flowId)
  }

  // ---------------------------------------------------------------------------------------
  // The details text.

  lemma {:induction false} SkipEmptyAppend(texts: seq<string>, t: string)
    ensures SkipEmpty(texts + [t])
         == if SkipEmpty(texts) != [] then SkipEmpty(texts) + [t] else if t == "" then [] else [t]
  {
    if texts == [] {
      assert texts + [t] == [t];
      assert [t][1..] == [];
    } else {
      SkipEmptyAppend(texts[1..], t);
      assert (texts + [t])[1..] == texts[1..] + [t];
    }
  }

  lemma {:induction false} JoinIsNotEmpty(texts: seq<string>)
    requires texts != [] && texts[0] != ""
    ensures Join(texts) != ""
  {
  }

  lemma {:induction false} SkipEmptyStarts(texts: seq<string>)
    ensures SkipEmpty(texts) != [] ==> SkipEmpty(texts)[0] != ""
  {
    if texts != [] && texts[0] == "" {
      SkipEmptyStarts(texts[1..]);
    }
  }

  /** One turn of the accumulation loop: a separator only once there is some text. */
  lemma DetailsStep(blocks: seq<string>, b: string)
    ensures var before := Join(SkipEmpty(blocks));
            Join(SkipEmpty(blocks + [b])) == if before == "" then b else before + "\n" + b
  {
    SkipEmptyAppend(blocks, b);
    SkipEmptyStarts(blocks);
    var kept := SkipEmpty(blocks);
    if kept != [] {
      JoinIsNotEmpty(kept);
      assert (kept + [b])[..|kept + [b]| - 1] == kept;
    }
  }

  lemma {:induction false} JoinLength(texts: seq<string>)
    ensures SkipEmpty(texts) != texts && |texts| >= 2 ==> |Join(SkipEmpty(texts))| < |Join(texts)|
    ensures |Join(SkipEmpty(texts))| <= |Join(texts)|
  {
    if texts != [] && texts[0] == "" {
      JoinLength(texts[1..]);
      if |texts| >= 2 {
        JoinFirst(texts);
      } else {
        assert texts[1..] == [];
      }
    }
  }

  lemma {:induction false} JoinFirst(texts: seq<string>)
    requires |texts| >= 2
    ensures Join(texts) == texts[0] + "\n" + Join(texts[1..])
  {
    if |texts| > 2 {
      var last := |texts| - 1;
      JoinFirst(texts[..last]);
      assert texts[..last][1..] == texts[1..][..last - 1];
    } else {
      assert texts[..1] == [texts[0]] && texts[1..] == [texts[1]];
    }
  }

  /**
   The details are the newline-separated blocks of all failing parts exactly when there is at
   most one such part or the first one's block is not empty; otherwise the loop drops the empty
   blocks at the front, separators and all.
   */
  lemma DetailsAreTheJoinIff(parts: seq<Part>)
    ensures var blocks := Blocks(parts);
            Join(SkipEmpty(blocks)) == Join(blocks) <==> |blocks| <= 1 || blocks[0] != ""
  {
    var blocks := Blocks(parts);
    JoinLength(blocks);
    if |blocks| == 1 && blocks[0] == "" {
      assert blocks[1..] == [];
    }
    if |blocks| >= 2 && blocks[0] == "" {
      assert |SkipEmpty(blocks)| < |blocks| by {
        SkipEmptyShrinks(blocks[1..]);
      }
    }
  }

  /** Two failing parts, the first without a text: the separator between them is lost. */
  lemma LeadingSeparatorIsLost(silent: Part, told: Part)
    requires !silent.passed && !told.passed && Block(silent) == "" && Block(told) != ""
    ensures Join(Blocks([silent, told])) == "\n" + Block(told)
    ensures Join(SkipEmpty(Blocks([silent, told]))) == Block(told)
  {
    assert [silent, told][..1] == [silent] && [silent][..0] == [];
    assert Blocks([silent]) == [""];
    var blocks := Blocks([silent, told]);
    assert blocks == ["", Block(told)];
    assert blocks[1..] == [Block(told)] && blocks[..1] == [""];
  }

  lemma {:induction false} SkipEmptyShrinks(texts: seq<string>)
    ensures |SkipEmpty(texts)| <= |texts|
  {
    if texts != [] && texts[0] == "" {
      SkipEmptyShrinks(texts[1..]);
    }
  }

  // ---------------------------------------------------------------------------------------
  // A reader of the stream.

  datatype Failure = Failure(message: string, details: string)

  /** What a server learns about one test; a negative duration is unknown. */
  datatype Outcome = Outcome(suite: string, test: string, failure: Option<Failure>, duration: int)

  datatype State = Outside | InSuite(suite: string) | InTest(suite: string, test: string, failure: Option<Failure>)

  /**
   Follow a message stream. It must nest: tests within suites, finishing what was started, and a
   failure only inside its test and at most once; anything else is refused.
   */
  function Follow(ms: seq<Message>, st: State): Option<seq<Outcome>>
    decreases ms
  {
    if ms == [] then (if st.Outside? then Some([]) else None)
    else
      match (st, ms[0])
      case (Outside, SuiteStarted(name, _)) => Follow(ms[1..], InSuite(name))
      case (InSuite(suite), SuiteFinished(name, _)) =>
        if name == suite then Follow(ms[1..], Outside) else None
      case (InSuite(suite), TestStarted(name, _, _)) => Follow(ms[1..], InTest(suite, name, None))
      case (InTest(suite, test, failure), TestFailed(name, message, details, _)) =>
        if name == test && failure.None? then Follow(ms[1..], InTest(suite, test, Some(Failure(message, details))))
        else None
      case (InTest(suite, test, failure), TestFinished(name, duration, _)) =>
        if name == test then
          Prepend(Outcome(suite, test, failure, if duration < 0 then -1 else duration), Follow(ms[1..], InSuite(suite)))
        else None
      case _ => None
  }

  function Prepend(o: Outcome, rest: Option<seq<Outcome>>): Option<seq<Outcome>> {
    if rest.Some? then Some([o] + rest.value) else None
  }

  function OutcomeOf(suite: string, t: Test): Outcome {
    var d := ToInt32(t.elapsed);
    var f := FailureOf(t, "");
    var told := if Failed(t.parts) then Some(Failure(f.message, f.details)) else None;
    Outcome(suite, t.name, told, if d < 0 then -1 else d)
  }

  function TestOutcomes(suite: string, tests: seq<Test>): seq<Outcome> {
    if tests == [] then [] else [OutcomeOf(suite, tests[0])] + TestOutcomes(suite, tests[1..])
  }

  function RunOutcomes(suites: seq<Suite>): seq<Outcome> {
    if suites == [] then [] else TestOutcomes(suites[0].name, suites[0].tests) + RunOutcomes(suites[1..])
  }

  function PrependAll(os: seq<Outcome>, rest: Option<seq<Outcome>>): Option<seq<Outcome>> {
    if rest.Some? then Some(os + rest.value) else None
  }

  lemma FollowFirst(m: Message, rest: seq<Message>)
    ensures ([m] + rest)[0] == m && ([m] + rest)[1..] == rest
  {
  }

  lemma FollowTest(suite: string, t: Test, flowId: string, rest: seq<Message>)
    ensures Follow(TestMessages(t, flowId) + rest, InSuite(suite))
         == Prepend(OutcomeOf(suite, t), Follow(rest, InSuite(suite)))
  {
    var finished := TestFinished(t.name, ToInt32(t.elapsed), flowId);
    var end := [finished] + rest;
    FollowFirst(finished, rest);
    FollowFirst(TestStarted(t.name, flowId, false), TestEnd(t, flowId) + rest);
    assert TestMessages(t, flowId) + rest == [TestStarted(t.name, flowId, false)] + (TestEnd(t, flowId) + rest);
    if Failed(t.parts) {
      var failure := FailureOf(t, flowId);
      var told := Some(Failure(failure.message, failure.details));
      FollowFirst(failure, end);
      assert TestEnd(t, flowId) + rest == [failure] + end;
      assert Follow([failure] + end, InTest(suite, t.name, None)) == Follow(end, InTest(suite, t.name, told));
      assert Follow(end, InTest(suite, t.name, told)) == Prepend(OutcomeOf(suite, t), Follow(rest, InSuite(suite)));
    } else {
      assert TestEnd(t, flowId) + rest == end;
    }
  }

  lemma PrependTwice(o: Outcome, os: seq<Outcome>, rest: Option<seq<Outcome>>)
    ensures Prepend(o, PrependAll(os, rest)) == PrependAll([o] + os, rest)
  {
    if rest.Some? {
      assert [o] + (os + rest.value) == ([o] + os) + rest.value;
    }
  }

  lemma TestsFirst(tests: seq<Test>, flowId: string, rest: seq<Message>)
    requires tests != []
    ensures TestsMessages(tests, flowId) + rest
         == TestMessages(tests[0], flowId) + (TestsMessages(tests[1..], flowId) + rest)
  {
    Assoc(TestMessages(tests[0], flowId), TestsMessages(tests[1..], flowId), rest);
  }

  lemma {:induction false} FollowTests(suite: string, tests: seq<Test>, flowId: string, rest: seq<Message>)
    ensures Follow(TestsMessages(tests, flowId) + rest, InSuite(suite))
         == PrependAll(TestOutcomes(suite, tests), Follow(rest, InSuite(suite)))
    decreases tests
  {
    if tests == [] {
      var told := Follow(rest, InSuite(suite));
      assert TestsMessages(tests, flowId) + rest == rest;
      assert told.Some? ==> TestOutcomes(suite, tests) + told.value == told.value;
    } else {
      var more := TestsMessages(tests[1..], flowId) + rest;
      FollowTests(suite, tests[1..], flowId, rest);
      FollowTest(suite, tests[0], flowId, more);
      TestsFirst(tests, flowId, rest);
      PrependTwice(OutcomeOf(suite, tests[0]), TestOutcomes(suite, tests[1..]), Follow(rest, InSuite(suite)));
    }
  }

  lemma SuiteFirst(s: Suite, flowId: string, rest: seq<Message>)
    ensures SuiteMessages(s, flowId) + rest
         == [SuiteStarted(s.name, flowId)]
            + (TestsMessages(s.tests, flowId) + ([SuiteFinished(s.name, flowId)] + rest))
  {
  }

  lemma FollowSuite(s: Suite, flowId: string, rest: seq<Message>)
    ensures Follow(SuiteMessages(s, flowId) + rest, Outside)
         == PrependAll(TestOutcomes(s.name, s.tests), Follow(rest, Outside))
  {
    var end := [SuiteFinished(s.name, flowId)] + rest;
    FollowFirst(SuiteFinished(s.name, flowId), rest);
    FollowTests(s.name, s.tests, flowId, end);
    FollowFirst(SuiteStarted(s.name, flowId), TestsMessages(s.tests, flowId) + end);
    SuiteFirst(s, flowId, rest);
  }

  lemma {:induction false} FollowRun(suites: seq<Suite>, flowId: string)
    ensures Follow(RunMessages(suites, flowId), Outside) == Some(RunOutcomes(suites))
  {
    if suites != [] {
      FollowRun(suites[1..], flowId);
      FollowSuite(suites[0], flowId, RunMessages(suites[1..], flowId));
    }
  }

  lemma {:induction false} FollowNormal(ms: seq<Message>, st: State)
    ensures Follow(NormalAll(ms), st) == Follow(ms, st)
    decreases ms
  {
    if ms != [] {
      FollowFirst(Normal(ms[0]), NormalAll(ms[1..]));
      forall s: State ensures Follow(NormalAll(ms[1..]), s) == Follow(ms[1..], s) {
        FollowNormal(ms[1..], s);
      }
    }
  }

  /**
   The text printed for any run reads back as messages that nest, and tells of every test, in
   order: its suite and name, its failure exactly if it failed, and its duration.
   */
  lemma RunReadsBack(suites: seq<Suite>, flowId: string)
    ensures var read := ReadAll(PrintAll(RunMessages(suites, flowId)));
            read.Some? && Follow(read.value, Outside) == Some(RunOutcomes(suites))
  {
    StreamReadsBack(RunMessages(suites, flowId));
    FollowNormal(RunMessages(suites, flowId), Outside);
    FollowRun(suites, flowId);
  }

  /** The narrowing keeps a number modulo two to the 32, in the range of a 32-bit int. */
  lemma NarrowsTo32Bits(n: int)
    ensures -0x8000_0000 <= ToInt32(n) < 0x8000_0000 && (ToInt32(n) - n) % 0x1_0000_0000 == 0
  {
  }

  /** A duration survives exactly while it fits a 32-bit int and is not negative. */
  lemma DurationSurvivesIff(suite: string, t: Test)
    requires t.elapsed >= 0
    ensures OutcomeOf(suite, t).duration == t.elapsed <==> t.elapsed < 0x8000_0000
  {
  }

  /** A test of 25 days, whose duration is printed as unknown. */
  lemma LongestDurationIsLost(suite: string, t: Test)
    requires t.elapsed == 0x8000_0000
    ensures ToInt32(t.elapsed) == -0x8000_0000 && OutcomeOf(suite, t).duration == -1
  {
  }

  // ---------------------------------------------------------------------------------------
  // The object.

  class Listener {
    const messages: TeamcityMessages
    const flowId: string

    constructor (flow: string)
      ensures flowId == flow && messages.out == PrintAll([]) && fresh(messages)
    {
      var printer := new TeamcityMessages();
      messages := printer;
      flowId := flow;
    }

    method OnTestCaseStart(name: string)
      modifies messages
      ensures messages.out == old(messages.out) + Print(SuiteStarted(name, flowId))
    {
      messages.PrintSuiteStarted(name, flowId);
    }

    method OnTestStart(name: string)
      modifies messages
      ensures messages.out == old(messages.out) + Print(TestStarted(name, flowId, false))
    {
      messages.PrintTestStarted(name, flowId, false);
    }

    /** Accumulate the failing parts, report the failure if there was one, then the end. */
    method OnTestEnd(t: Test)
      modifies messages
      ensures messages.out == old(messages.out) + PrintAll(TestEnd(t, flowId))
    {
      ghost var was := messages.out;
      ghost var finished := [TestFinished(t.name, ToInt32(t.elapsed), flowId)];
      if Failed(t.parts) {
        ReportFailure(t);
        Assoc(was, PrintAll([FailureOf(t, flowId)]), PrintAll(finished));
        PrintAllConcat([FailureOf(t, flowId)], finished);
      } else {
        assert TestEnd(t, flowId) == finished;
      }
      ReportEnd(t);
    }

    method ReportFailure(t: Test)
      modifies messages
      ensures messages.out == old(messages.out) + PrintAll([FailureOf(t, flowId)])
    {
      var message, details := Accumulate(t.parts);
      messages.PrintTestFailed(t.name, if message != "" then message else "failed", details, flowId);
      PrintOne(FailureOf(t, flowId));
    }

    method ReportEnd(t: Test)
      modifies messages
      ensures messages.out == old(messages.out) + PrintAll([TestFinished(t.name, ToInt32(t.elapsed), flowId)])
    {
      messages.PrintTestFinished(t.name, ToInt32(t.elapsed), flowId);
      PrintOne(TestFinished(t.name, ToInt32(t.elapsed), flowId));
    }

    method Accumulate(parts: seq<Part>) returns (message: string, details: string)
      ensures message == FirstSummary(parts)
      ensures details == Join(SkipEmpty(Blocks(parts)))
    {
      message, details := "", "";
      for i := 0 to |parts|
        invariant message == FirstSummary(parts[..i])
        invariant details == Join(SkipEmpty(Blocks(parts[..i])))
      {
        assert parts[..i + 1][..i] == parts[..i];
        var part := parts[i];
        if part.passed {
          assert Blocks(parts[..i + 1]) == Blocks(parts[..i]);
          continue;
        }
        DetailsStep(Blocks(parts[..i]), Block(part));
        if message == "" {
          message := part.summary;
        }
        details := AddPart(details, part);
      }
      assert parts[..|parts|] == parts;
    }

    method AddPart(before: string, part: Part) returns (details: string)
      ensures details == if before == "" then Block(part) else before + "\n" + Block(part)
    {
      details := before;
      if details != "" {
        details := details + "\n";
      }
      details := details + part.message;
      if part.file.Some? && part.line >= 0 {
        details := details + ("\n at " + part.file.value + ":" + Decimal(part.line));
      }
    }

    method OnTestCaseEnd(name: string)
      modifies messages
      ensures messages.out == old(messages.out) + Print(SuiteFinished(name, flowId))
    {
      messages.PrintSuiteFinished(name, flowId);
    }
  }

  // ---------------------------------------------------------------------------------------
  // The framework firing the listener's events, in its order.

  lemma AppendPrinted(was: string, mid: string, out: string, a: seq<Message>, b: seq<Message>)
    requires mid == was + PrintAll(a) && out == mid + PrintAll(b)
    ensures out == was + PrintAll(a + b)
  {
    PrintAllConcat(a, b);
    Assoc(was, PrintAll(a), PrintAll(b));
  }

  method FireTest(listener: Listener, t: Test)
    modifies listener.messages
    ensures listener.messages.out == old(listener.messages.out) + PrintAll(TestMessages(t, listener.flowId))
  {
    ghost var flow, was := listener.flowId, listener.messages.out;
    listener.OnTestStart(t.name);
    ghost var mid := listener.messages.out;
    PrintOne(TestStarted(t.name, flow, false));
    listener.OnTestEnd(t);
    AppendPrinted(was, mid, listener.messages.out, [TestStarted(t.name, flow, false)], TestEnd(t, flow));
  }

  method FireTests(listener: Listener, tests: seq<Test>)
    modifies listener.messages
    ensures listener.messages.out == old(listener.messages.out) + PrintAll(TestsMessages(tests, listener.flowId))
    decreases tests
  {
    if tests != [] {
      ghost var flow, was := listener.flowId, listener.messages.out;
      FireTest(listener, tests[0]);
      ghost var mid := listener.messages.out;
      FireTests(listener, tests[1..]);
      AppendPrinted(was, mid, listener.messages.out, TestMessages(tests[0], flow), TestsMessages(tests[1..], flow));
    }
  }

  method FireSuite(listener: Listener, s: Suite)
    modifies listener.messages
    ensures listener.messages.out == old(listener.messages.out) + PrintAll(SuiteMessages(s, listener.flowId))
  {
    ghost var flow, was := listener.flowId, listener.messages.out;
    listener.OnTestCaseStart(s.name);
    ghost var started := listener.messages.out;
    PrintOne(SuiteStarted(s.name, flow));
    FireTests(listener, s.tests);
    ghost var tested := listener.messages.out;
    AppendPrinted(was, started, tested, [SuiteStarted(s.name, flow)], TestsMessages(s.tests, flow));
    listener.OnTestCaseEnd(s.name);
    PrintOne(SuiteFinished(s.name, flow));
    AppendPrinted(was, tested, listener.messages.out,
                  [SuiteStarted(s.name, flow)] + TestsMessages(s.tests, flow), [SuiteFinished(s.name, flow)]);
  }

  /** A whole run prints the messages of the run, so it reads back as RunReadsBack says. */
  method FireRun(listener: Listener, suites: seq<Suite>)
    modifies listener.messages
    ensures listener.messages.out == old(listener.messages.out) + PrintAll(RunMessages(suites, listener.flowId))
    decreases suites
  {
    if suites != [] {
      ghost var flow, was := listener.flowId, listener.messages.out;
      FireSuite(listener, suites[0]);
      ghost var mid := listener.messages.out;
      FireRun(listener, suites[1..]);
      AppendPrinted(was, mid, listener.messages.out, SuiteMessages(suites[0], flow), RunMessages(suites[1..], flow));
    }
  }
}
