/**
 What a reader of the printed text is told of each test of a run, in terms of the test alone.
 */
module TestReport {
  import opened Options
  import opened ServiceMessages
  import opened ServiceText
  import opened TestListener

  /** The tests of a run in order, each with the name of its suite. */
  function AllTests(suites: seq<Suite>): seq<(string, Test)> {
    if suites == [] then [] else TestsOf(suites[0].name, suites[0].tests) + AllTests(suites[1..])
  }

  function TestsOf(suite: string, tests: seq<Test>): (r: seq<(string, Test)>)
    ensures |r| == |tests|
  {
    seq(|tests|, i requires 0 <= i < |tests| => (suite, tests[i]))
  }

  /** The indices of the parts that did not pass. */
  function FailingAt(parts: seq<Part>): seq<nat> {
    if parts == [] then []
    else
      var last := |parts| - 1;
      FailingAt(parts[..last]) + (if parts[last].passed then [] else [last])
  }

  lemma {:induction false} FailingAtIsExact(parts: seq<Part>)
    ensures forall i, j | 0 <= i < j < |FailingAt(parts)| :: FailingAt(parts)[i] < FailingAt(parts)[j]
    ensures forall k: nat :: k in FailingAt(parts) <==> k < |parts| && !parts[k].passed
  {
    if parts != [] {
      var last := |parts| - 1;
      FailingAtIsExact(parts[..last]);
      var front, all := FailingAt(parts[..last]), FailingAt(parts);
      forall k: nat ensures k in all <==> k < |parts| && !parts[k].passed {
        assert k in all <==> k in front || (k == last && !parts[last].passed);
        assert k < last ==> parts[..last][k] == parts[k];
      }
      forall i, j | 0 <= i < j < |all| ensures all[i] < all[j] {
        assert all[i] in front;
      }
    }
  }

  /** The text of one failing part: its message, and where it happened if that is known. */
  ghost predicate TellsPart(p: Part, text: string) {
    if p.file.None? || p.line < 0 then text == p.message
    else exists number: string ::
      ReadDecimal(number) == Some(p.line) && text == p.message + "\n at " + p.file.value + ":" + number
  }

  ghost predicate TellsParts(parts: seq<Part>, texts: seq<string>) {
    && |texts| == |FailingAt(parts)|
    && forall k | 0 <= k < |texts| :: FailingAt(parts)[k] < |parts| && TellsPart(parts[FailingAt(parts)[k]], texts[k])
  }

  lemma BlockTells(p: Part)
    ensures TellsPart(p, Block(p))
  {
    if p.file.Some? && p.line >= 0 {
      ReadDecimalBack(p.line);
      assert Block(p) == p.message + "\n at " + p.file.value + ":" + Decimal(p.line);
    }
  }

  lemma TellsOneMore(parts: seq<Part>, texts: seq<string>, text: string)
    requires parts != [] && TellsParts(parts[..|parts| - 1], texts)
    requires !parts[|parts| - 1].passed ==> TellsPart(parts[|parts| - 1], text)
    ensures TellsParts(parts, texts + if parts[|parts| - 1].passed then [] else [text])
  {
    var front := parts[..|parts| - 1];
    assert forall k | 0 <= k < |FailingAt(front)| :: front[FailingAt(front)[k]] == parts[FailingAt(front)[k]];
  }

  lemma {:induction false} BlocksTell(parts: seq<Part>)
    ensures TellsParts(parts, Blocks(parts))
  {
    if parts != [] {
      var last := |parts| - 1;
      BlocksTell(parts[..last]);
      BlockTells(parts[last]);
      TellsOneMore(parts, Blocks(parts[..last]), Block(parts[last]));
    }
  }

  /** The first failing part with a summary is the i-th. */
  predicate FirstTold(parts: seq<Part>, i: nat) {
    && i < |parts| && !parts[i].passed && parts[i].summary != ""
    && forall j | 0 <= j < i :: parts[j].passed || parts[j].summary == ""
  }

  ghost predicate TellsSummary(parts: seq<Part>, message: string) {
    || (exists i: nat :: FirstTold(parts, i) && message == parts[i].summary)
    || (message == "failed" && forall i: nat :: !FirstTold(parts, i))
  }

  lemma {:induction false} FirstSummaryTells(parts: seq<Part>)
    ensures FirstSummary(parts) == "" ==> forall i: nat :: !FirstTold(parts, i)
    ensures FirstSummary(parts) != "" ==>
              exists i: nat :: FirstTold(parts, i) && FirstSummary(parts) == parts[i].summary
  {
    if parts != [] {
      var last := |parts| - 1;
      var front := parts[..last];
      FirstSummaryTells(front);
      SummariesOfFront(parts);
      if FirstSummary(front) != "" {
        var i: nat :| FirstTold(front, i) && FirstSummary(front) == front[i].summary;
        assert FirstTold(parts, i);
      } else if !parts[last].passed && parts[last].summary != "" {
        assert forall j | 0 <= j < last :: !FirstTold(front, j);
        NoneBefore(front, last);
        assert FirstTold(parts, last);
      }
    }
  }

  lemma SummariesOfFront(parts: seq<Part>)
    requires parts != []
    ensures forall i: nat | i < |parts| - 1 :: FirstTold(parts[..|parts| - 1], i) <==> FirstTold(parts, i)
  {
    var front := parts[..|parts| - 1];
    assert forall i | 0 <= i < |front| :: front[i] == parts[i];
  }

  /** Where no part tells a summary first, none tells one. */
  lemma {:induction false} NoneBefore(parts: seq<Part>, n: nat)
    requires n <= |parts| && forall i | 0 <= i < |parts| :: !FirstTold(parts, i)
    ensures forall j | 0 <= j < n :: parts[j].passed || parts[j].summary == ""
  {
    if n > 0 {
      NoneBefore(parts, n - 1);
      assert !FirstTold(parts, n - 1);
    }
  }

  /** What must be told of a test: whether, why and where it failed, and how long it took. */
  ghost predicate Tells(suite: string, t: Test, o: Outcome) {
    && o.suite == suite && o.test == t.name
    && (o.failure.Some? <==> exists i :: 0 <= i < |t.parts| && !t.parts[i].passed)
    && (o.failure.Some? ==>
          && TellsSummary(t.parts, o.failure.value.message)
          && exists texts :: TellsParts(t.parts, texts) && o.failure.value.details == Join(SkipEmpty(texts)))
    && (forall i | 0 <= i < |t.parts| && OnlyFailing(t.parts, i) ::
          o.failure.Some? && TellsPart(t.parts[i], o.failure.value.details))
    && (0 <= t.elapsed < 0x8000_0000 ==> o.duration == t.elapsed)
  }

  predicate OnlyFailing(parts: seq<Part>, i: nat)
    requires i < |parts|
  {
    !parts[i].passed && forall j | 0 <= j < |parts| && j != i :: parts[j].passed
  }

  lemma {:induction false} BlockOfOne(parts: seq<Part>, i: nat)
    requires i < |parts| && OnlyFailing(parts, i)
    ensures Blocks(parts) == [Block(parts[i])]
  {
    var last := |parts| - 1;
    if i == last {
      NoBlocks(parts[..last]);
    } else {
      BlockOfOne(parts[..last], i);
    }
  }

  lemma {:induction false} NoBlocks(parts: seq<Part>)
    requires forall i | 0 <= i < |parts| :: parts[i].passed
    ensures Blocks(parts) == []
  {
    if parts != [] {
      NoBlocks(parts[..|parts| - 1]);
    }
  }

  lemma OneFailingPart(parts: seq<Part>, i: nat)
    requires i < |parts| && OnlyFailing(parts, i)
    ensures Join(SkipEmpty(Blocks(parts))) == Block(parts[i])
  {
    BlockOfOne(parts, i);
    JoinOfOne(Block(parts[i]));
  }

  lemma JoinOfOne(text: string)
    ensures Join(SkipEmpty([text])) == text
  {
    assert [text][1..] == [];
  }

  lemma FailureTells(parts: seq<Part>)
    ensures TellsParts(parts, Blocks(parts))
    ensures Failed(parts) <==> exists i :: 0 <= i < |parts| && !parts[i].passed
    ensures TellsSummary(parts, if FirstSummary(parts) != "" then FirstSummary(parts) else "failed")
    ensures forall i | 0 <= i < |parts| && OnlyFailing(parts, i) ::
              TellsPart(parts[i], Join(SkipEmpty(Blocks(parts))))
  {
    BlocksTell(parts);
    FirstSummaryTells(parts);
    forall i | 0 <= i < |parts| && OnlyFailing(parts, i)
      ensures TellsPart(parts[i], Join(SkipEmpty(Blocks(parts))))
    {
      OneFailingPart(parts, i);
      BlockTells(parts[i]);
    }
  }

  lemma OutcomeTells(suite: string, t: Test)
    ensures Tells(suite, t, OutcomeOf(suite, t))
  {
    FailureTells(t.parts);
  }

  lemma {:induction false} TestOutcomesAre(suite: string, tests: seq<Test>)
    ensures |TestOutcomes(suite, tests)| == |tests|
    ensures forall k | 0 <= k < |tests| :: TestOutcomes(suite, tests)[k] == OutcomeOf(suite, tests[k])
  {
    if tests != [] {
      TestOutcomesAre(suite, tests[1..]);
    }
  }

  lemma {:induction false} RunOutcomesAre(suites: seq<Suite>)
    ensures |RunOutcomes(suites)| == |AllTests(suites)|
    ensures forall k | 0 <= k < |AllTests(suites)| ::
              RunOutcomes(suites)[k] == OutcomeOf(AllTests(suites)[k].0, AllTests(suites)[k].1)
  {
    if suites != [] {
      RunOutcomesAre(suites[1..]);
      TestOutcomesAre(suites[0].name, suites[0].tests);
    }
  }

  lemma {:induction false} TestsCarryFlow(tests: seq<Test>, flowId: string)
    ensures forall m | m in TestsMessages(tests, flowId) :: Carries(m, flowId)
  {
    if tests != [] {
      TestsCarryFlow(tests[1..], flowId);
    }
  }

  lemma {:induction false} RunCarriesFlow(suites: seq<Suite>, flowId: string)
    ensures forall m | m in RunMessages(suites, flowId) :: Carries(m, flowId)
  {
    if suites != [] {
      RunCarriesFlow(suites[1..], flowId);
      TestsCarryFlow(suites[0].tests, flowId);
    }
  }

  /** A message of the listener's flow, which never asks for captured output. */
  predicate Carries(m: Message, flowId: string) {
    m.flowId == flowId && (m.TestStarted? ==> !m.capture)
  }

  lemma {:induction false} NormalsCarryFlow(ms: seq<Message>, flowId: string)
    requires forall m | m in ms :: Carries(m, flowId)
    ensures forall m | m in NormalAll(ms) :: Carries(m, flowId)
  {
    if ms != [] {
      assert ms[0] in ms && forall m | m in ms[1..] :: m in ms;
      NormalsCarryFlow(ms[1..], flowId);
      assert Carries(Normal(ms[0]), flowId);
    }
  }

  /** Every message that a reader finds in the text of a run carries the listener's flow identifier. */
  lemma EveryMessageCarriesTheFlow(suites: seq<Suite>, flowId: string)
    ensures var read := ReadAll(PrintAll(RunMessages(suites, flowId)));
            read.Some? && forall m | m in read.value :: m.flowId == flowId && (m.TestStarted? ==> !m.capture)
  {
    StreamReadsBack(RunMessages(suites, flowId));
    RunCarriesFlow(suites, flowId);
    NormalsCarryFlow(RunMessages(suites, flowId), flowId);
  }

  /**
   From the text printed for any run a reader learns, for each test in order: its suite and name,
   that it failed exactly if some part did not pass, the first summary of a failing part or the word
   failed, the texts of the failing parts in order, and its duration.
   */
  lemma EachTestIsTold(suites: seq<Suite>, flowId: string)
    ensures var read := ReadAll(PrintAll(RunMessages(suites, flowId)));
            && read.Some? && Follow(read.value, Outside).Some?
            && var told := Follow(read.value, Outside).value;
               && |told| == |AllTests(suites)|
               && forall k | 0 <= k < |told| :: Tells(AllTests(suites)[k].0, AllTests(suites)[k].1, told[k])
  {
    RunReadsBack(suites, flowId);
    RunOutcomesAre(suites);
    forall k | 0 <= k < |AllTests(suites)|
      ensures Tells(AllTests(suites)[k].0, AllTests(suites)[k].1, RunOutcomes(suites)[k])
    {
      OutcomeTells(AllTests(suites)[k].0, AllTests(suites)[k].1);
    }
  }
}
