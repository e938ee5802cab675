/**
 The text of each service message spelled out, apart from any reader of it: what a build server
 that follows the TeamCity documentation finds in the stream.
 */
module MessageForms {
  import opened ServiceMessages
  import opened Sequences
  import opened ServiceText

  /** A whole message on lines of its own. */
  function Framed(kind: string, body: string): string {
    "\n##teamcity[" + kind + body + "]\n"
  }

  function Quoted(key: string, value: string): string {
    " " + key + "='" + Escape(value) + "'"
  }

  function QuotedFlow(flowId: string): string {
    if |flowId| > 0 then Quoted("flowId", flowId) else ""
  }

  lemma FormOfText(kind: string, props: seq<Property>)
    ensures Text(Raw(kind, props)) == Framed(kind, PropertiesText(props))
  {
  }

  lemma FormOfProperty(key: string, value: string)
    ensures PropertyText(Property(key, value)) == Quoted(key, value)
  {
  }

  lemma {:induction false} FormOfConcat(a: seq<Property>, b: seq<Property>)
    ensures PropertiesText(a + b) == PropertiesText(a) + PropertiesText(b)
  {
    if a == [] {
      assert a + b == b;
    } else {
      FormOfConcat(a[1..], b);
      TailOfConcat(a, b, 1);
      Assoc(PropertyText(a[0]), PropertiesText(a[1..]), PropertiesText(b));
    }
  }

  lemma FormOfOne(key: string, value: string)
    ensures PropertiesText([Property(key, value)]) == Quoted(key, value)
  {
    FormOfProperty(key, value);
    assert PropertiesText([]) == "";
  }

  lemma FormOfFlow(flowId: string)
    ensures PropertiesText(FlowProperty(flowId)) == QuotedFlow(flowId)
  {
    if |flowId| > 0 {
      FormOfOne("flowId", flowId);
    }
  }

  lemma FormOfNamed(name: string, rest: seq<Property>)
    ensures PropertiesText([Property("name", name)] + rest) == Quoted("name", name) + PropertiesText(rest)
  {
    FormOfOne("name", name);
    FormOfConcat([Property("name", name)], rest);
  }

  lemma FormOfTail(name: string, flowId: string, rest: seq<Property>)
    ensures PropertiesText([Property("name", name)] + FlowProperty(flowId) + rest)
         == Quoted("name", name) + QuotedFlow(flowId) + PropertiesText(rest)
  {
    FormOfConcat([Property("name", name)] + FlowProperty(flowId), rest);
    FormOfNamed(name, FlowProperty(flowId));
    FormOfFlow(flowId);
  }

  lemma FormOfSuites(name: string, flowId: string)
    ensures Print(SuiteStarted(name, flowId)) == Framed("testSuiteStarted", Quoted("name", name) + QuotedFlow(flowId))
    ensures Print(SuiteFinished(name, flowId)) == Framed("testSuiteFinished", Quoted("name", name) + QuotedFlow(flowId))
  {
    FormOfNamed(name, FlowProperty(flowId));
    FormOfFlow(flowId);
  }

  lemma FormOfTestStarted(name: string, flowId: string, capture: bool)
    ensures Print(TestStarted(name, flowId, capture))
         == Framed("testStarted", Quoted("name", name) + QuotedFlow(flowId)
                                  + if capture then Quoted("captureStandardOutput", "true") else "")
  {
    FormOfTail(name, flowId, if capture then [Property("captureStandardOutput", "true")] else []);
    FormOfOne("captureStandardOutput", "true");
  }

  lemma FormOfTestFinished(name: string, duration: int, flowId: string)
    ensures Print(TestFinished(name, duration, flowId))
         == Framed("testFinished", Quoted("name", name) + QuotedFlow(flowId)
                                   + if duration >= 0 then Quoted("duration", Decimal(duration)) else "")
  {
    FormOfTail(name, flowId, if duration >= 0 then [Property("duration", Decimal(duration))] else []);
    if duration >= 0 {
      FormOfOne("duration", Decimal(duration));
    }
  }

  lemma FormOfTestFailed(name: string, message: string, details: string, flowId: string)
    ensures Print(TestFailed(name, message, details, flowId))
         == Framed("testFailed", Quoted("name", name)
                                 + (Quoted("message", message) + (Quoted("details", details) + QuotedFlow(flowId))))
  {
    var n, m, d := Property("name", name), Property("message", message), Property("details", details);
    assert [n, m, d] + FlowProperty(flowId) == [n] + ([m] + ([d] + FlowProperty(flowId)));
    FormOfNamed(name, [m] + ([d] + FlowProperty(flowId)));
    FormOfConcat([m], [d] + FlowProperty(flowId));
    FormOfOne("message", message);
    FormOfConcat([d], FlowProperty(flowId));
    FormOfOne("details", details);
    FormOfFlow(flowId);
  }

  lemma FormOfTwo(key: string, name: string, value: string, flowId: string)
    ensures PropertiesText([Property("name", name), Property(key, value)] + FlowProperty(flowId))
         == Quoted("name", name) + (Quoted(key, value) + QuotedFlow(flowId))
  {
    var n, p := Property("name", name), Property(key, value);
    assert [n, p] + FlowProperty(flowId) == [n] + ([p] + FlowProperty(flowId));
    FormOfNamed(name, [p] + FlowProperty(flowId));
    FormOfConcat([p], FlowProperty(flowId));
    FormOfOne(key, value);
    FormOfFlow(flowId);
  }

  lemma FormOfTestIgnored(name: string, message: string, flowId: string)
    ensures Print(TestIgnored(name, message, flowId))
         == Framed("testIgnored", Quoted("name", name) + (Quoted("message", message) + QuotedFlow(flowId)))
  {
    FormOfTwo("message", name, message, flowId);
  }

  lemma FormOfTestOutput(name: string, output: string, flowId: string, isStdErr: bool)
    ensures Print(TestOutput(name, output, flowId, isStdErr))
         == Framed(if isStdErr then "testStdErr" else "testStdOut",
                   Quoted("name", name) + (Quoted("out", output) + QuotedFlow(flowId)))
  {
    FormOfTwo("out", name, output, flowId);
  }

  // ---------------------------------------------------------------------------------------
  // Escapes and numbers.

  /** The five escapes. */
  lemma SpecialsEscapeAs()
    ensures Escape("\n") == "|n" && Escape("\r") == "|r"
    ensures Escape("'") == "|'" && Escape("|") == "||" && Escape("]") == "|]"
  {
    assert Escape([]) == [];
  }

  lemma OthersStay(c: char)
    requires c != '\n' && c != '\r' && c != '\'' && c != '|' && c != ']'
    ensures Escape([c]) == [c]
  {
    assert Escape([]) == [];
  }

  /** Escaping goes character by character. */
  lemma {:induction false} EscapeConcat(s: string, t: string)
    ensures Escape(s + t) == Escape(s) + Escape(t)
  {
    if s == [] {
      assert s + t == t;
    } else {
      EscapeConcat(s[1..], t);
      TailOfConcat(s, t, 1);
      Assoc(EscapeChar(s[0]), Escape(s[1..]), Escape(t));
    }
  }

  /** Numbers are printed in as few digits as they need. */
  lemma {:induction false} NoLeadingZero(n: nat)
    ensures Decimal(n)[0] == '0' <==> n == 0
    ensures |Decimal(n)| == 1 <==> n < 10
  {
    if n >= 10 {
      NoLeadingZero(n / 10);
    }
  }
}
