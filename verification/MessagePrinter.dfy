/**
 The TeamcityMessages object: an output stream, and methods that write one message each.
 */
module MessagePrinter {
  import opened ServiceText
  import opened ServiceMessages

  lemma {:induction false} PropertiesAppend(props: seq<Property>, p: Property)
    ensures PropertiesText(props + [p]) == PropertiesText(props) + PropertyText(p)
  {
    if props == [] {
      assert props + [p] == [p];
      assert PropertiesText([p]) == PropertyText(p) + PropertiesText([]);
    } else {
      PropertiesAppend(props[1..], p);
      assert (props + [p])[1..] == props[1..] + [p];
    }
  }

  class TeamcityMessages {
    var out: string
    /** The message being written: where it starts in the stream, its name and its properties. */
    ghost var start: string
    ghost var kind: string
    ghost var props: seq<Property>

    ghost predicate Begun()
      reads this
    {
      out == start + HEADER + kind + PropertiesText(props)
    }

    constructor ()
      ensures out == PrintAll([])
    {
      out, start, kind, props := "", "", "", [];
    }

    method EscapeText(s: string) returns (result: string)
      ensures result == Escape(s)
    {
      result := "";
      for i := 0 to |s|
        invariant result == Escape(s[..i])
      {
        EscapeAppend(s[..i], s[i]);
        assert s[..i + 1] == s[..i] + [s[i]];
        match s[i]
        case '\n' => result := result + "|n";
        case '\r' => result := result + "|r";
        case '\'' => result := result + "|'";
        case '|' => result := result + "||";
        case ']' => result := result + "|]";
        case c => result := result + [c];
      }
      assert s[..|s|] == s;
    }

    method OpenMsg(name: string)
      modifies this
      ensures Begun() && start == old(out) && kind == name && props == []
    {
      start, kind, props := out, name, [];
      out := out + "\n" + "##teamcity[" + name;
      assert HEADER == "\n" + "##teamcity[";
      assert out == start + HEADER + kind;
    }

    method WriteProperty(name: string, value: string)
      requires Begun()
      modifies this
      ensures Begun() && start == old(start) && kind == old(kind)
      ensures props == old(props) + [Property(name, value)]
    {
      var escaped := EscapeText(value);
      PropertiesAppend(props, Property(name, value));
      out := out + (" " + name + "='" + escaped + "'");
      props := props + [Property(name, value)];
    }

    method CloseMsg()
      requires Begun()
      modifies this
      ensures out == old(start) + Text(Raw(old(kind), old(props)))
    {
      out := out + "]";
      out := out + "\n";
    }

    /** The flowId property that most messages end with, if there is one. */
    method WriteFlow(flowId: string)
      requires Begun()
      modifies this
      ensures Begun() && start == old(start) && kind == old(kind)
      ensures props == old(props) + FlowProperty(flowId)
    {
      if |flowId| > 0 {
        WriteProperty("flowId", flowId);
      }
    }

    method PrintSuiteStarted(name: string, flowId: string)
      modifies this
      ensures out == old(out) + Print(SuiteStarted(name, flowId))
    {
      OpenMsg("testSuiteStarted");
      WriteProperty("name", name);
      WriteFlow(flowId);
      assert props == RawOf(SuiteStarted(name, flowId)).props;
      CloseMsg();
    }

    method PrintSuiteFinished(name: string, flowId: string)
      modifies this
      ensures out == old(out) + Print(SuiteFinished(name, flowId))
    {
      OpenMsg("testSuiteFinished");
      WriteProperty("name", name);
      WriteFlow(flowId);
      assert props == RawOf(SuiteFinished(name, flowId)).props;
      CloseMsg();
    }

    method PrintTestStarted(name: string, flowId: string, capture: bool)
      modifies this
      ensures out == old(out) + Print(TestStarted(name, flowId, capture))
    {
      OpenMsg("testStarted");
      WriteProperty("name", name);
      WriteFlow(flowId);
      if capture {
        WriteProperty("captureStandardOutput", "true");
      }
      assert props == RawOf(TestStarted(name, flowId, capture)).props;
      CloseMsg();
    }

    method PrintTestFinished(name: string, duration: int, flowId: string)
      modifies this
      ensures out == old(out) + Print(TestFinished(name, duration, flowId))
    {
      OpenMsg("testFinished");
      WriteProperty("name", name);
      WriteFlow(flowId);
      if duration >= 0 {
        WriteProperty("duration", Decimal(duration));
      }
      assert props == RawOf(TestFinished(name, duration, flowId)).props;
      CloseMsg();
    }

    method PrintTestFailed(name: string, message: string, details: string, flowId: string)
      modifies this
      ensures out == old(out) + Print(TestFailed(name, message, details, flowId))
    {
      OpenMsg("testFailed");
      WriteProperty("name", name);
      WriteProperty("message", message);
      WriteProperty("details", details);
      WriteFlow(flowId);
      assert props == RawOf(TestFailed(name, message, details, flowId)).props;
      CloseMsg();
    }

    method PrintTestIgnored(name: string, message: string, flowId: string)
      modifies this
      ensures out == old(out) + Print(TestIgnored(name, message, flowId))
    {
      OpenMsg("testIgnored");
      WriteProperty("name", name);
      WriteProperty("message", message);
      WriteFlow(flowId);
      assert props == RawOf(TestIgnored(name, message, flowId)).props;
      CloseMsg();
    }

    method PrintTestOutput(name: string, output: string, flowId: string, isStdErr: bool)
      modifies this
      ensures out == old(out) + Print(TestOutput(name, output, flowId, isStdErr))
    {
      OpenMsg(if isStdErr then "testStdErr" else "testStdOut");
      WriteProperty("name", name);
      WriteProperty("out", output);
      WriteFlow(flowId);
      assert props == RawOf(TestOutput(name, output, flowId, isStdErr)).props;
      CloseMsg();
    }
  }
}
