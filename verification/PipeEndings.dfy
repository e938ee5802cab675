/**
 How operations of the asynchronous pipe end: what cancel, close and a refusal do to each, and what
 its future holds once its handler has run.
 */
module PipeEndings {
  import opened Cursors
  import opened PipeProtocol
  import opened PipeSafety

  /** What the handler makes of an operation that the kernel is done with. */
  function FutureOf(status: Status): Status {
    match status
    case Moved(_) => Resolved(Value)
    case Failed(code) => Resolved(Error(code))
    case _ => status
  }

  lemma HandlerResolves<K>(s: Pipe<K>, i: nat)
    requires Enabled(s, Handler(i))
    ensures var t := Step(s, Handler(i));
            && |t.ops| == |s.ops| && t.open == s.open
            && t.ops[i] == s.ops[i].(status := FutureOf(s.ops[i].status))
            && forall j | 0 <= j < |s.ops| && j != i :: t.ops[j] == s.ops[j]
  {
  }

  /** Running each handler left, from operation `from` on, resolves every future as its status says. */
  lemma {:induction false} HandlersResolve<K>(s: Pipe<K>, from: nat)
    requires from <= |s.ops| && ReadyFrom(s, from)
    ensures Feasible(s, Handlers(s.ops, from))
    ensures var t := Run(s, Handlers(s.ops, from));
            && |t.ops| == |s.ops| && t.open == s.open
            && forall i | 0 <= i < |s.ops| :: t.ops[i] == s.ops[i].(status := FutureOf(s.ops[i].status))
    decreases |s.ops| - from
  {
    if from < |s.ops| {
      if s.ops[from].Pending() {
        HandlerMakesReady(s, from);
        HandlerResolves(s, from);
        HandlersResolve(Step(s, Handler(from)), from + 1);
      } else {
        HandlersResolve(s, from + 1);
        assert Handlers(s.ops, from) == Handlers(s.ops, from + 1);
      }
    }
  }

  /** Every operation that waited has failed with `code`, and every other is as it was. */
  predicate WaitingFailed<K(==)>(before: seq<Op<K>>, after: seq<Op<K>>, code: int) {
    && |after| == |before|
    && forall i | 0 <= i < |before| ::
         after[i] == if before[i].status.Waiting? then before[i].(status := Failed(code)) else before[i]
  }

  /**
   Cancel, in any reachable state: every operation of either direction that waited fails as
   cancelled, and nothing else changes.
   */
  lemma CancelEndsWhatWaits<K>(s: Pipe<K>, es: seq<Event<K>>)
    requires Initial(s) && Feasible(s, es)
    ensures var t := Run(s, es);
            var c := Step(t, Cancel);
            && WaitingFailed(t.ops, c.ops, 125)
            && c.open == t.open && c.buffers == t.buffers && c.queue == t.queue && c.log == t.log
  {
  }

  /** Close does the same and shuts both ends. */
  lemma CloseEndsWhatWaits<K>(s: Pipe<K>, es: seq<Event<K>>)
    requires Initial(s) && Feasible(s, es)
    ensures var t := Run(s, es);
            var c := Step(t, Close);
            && WaitingFailed(t.ops, c.ops, 125)
            && !c.open && c.buffers == t.buffers && c.queue == t.queue && c.log == t.log
  {
  }

  /** What a future holds after cancel or close and its handler, by what the operation was before. */
  predicate EndedAs<K(==)>(before: Op<K>, after: Op<K>) {
    && after.dir == before.dir && after.key == before.key && after.start == before.start && after.len == before.len
    && match before.status
       case Waiting => after.status == Resolved(Error(125))
       case Moved(_) => after.status == Resolved(Value)
       case Failed(code) => after.status == Resolved(Error(code))
       case Resolved(_) => after.status == before.status
  }

  lemma FailedThenResolved<K>(before: Op<K>, mid: Op<K>, after: Op<K>)
    requires mid == if before.status.Waiting? then before.(status := Failed(125)) else before
    requires after == mid.(status := FutureOf(mid.status))
    ensures EndedAs(before, after)
  {
  }

  lemma EndingMakesReady<K>(s: Pipe<K>, es: seq<Event<K>>, closing: bool)
    requires Initial(s) && Feasible(s, es)
    ensures var t := Run(s, es);
            var c := Step(t, if closing then Close else Cancel);
            ReadyFrom(c, 0) && WaitingFailed(t.ops, c.ops, 125) && c.open == (t.open && !closing)
  {
    ReachableInv(s, es);
    var t := Run(s, es);
    var c := Step(t, if closing then Close else Cancel);
    forall i | 0 <= i < |c.ops| ensures c.ops[i].key in c.buffers && !c.ops[i].status.Waiting? {
      assert OpInv(t, t.ops[i]);
    }
  }

  /**
   Cancel or close, then one run of each handler left: every future is resolved, with the
   cancellation error exactly for the operations that were waiting, with a value for those that the
   kernel had served, and with its own error for those it had refused.
   */
  lemma FuturesAfterEnding<K>(s: Pipe<K>, es: seq<Event<K>>, closing: bool)
    requires Initial(s) && Feasible(s, es)
    ensures var t := Run(s, es);
            var c := Step(t, if closing then Close else Cancel);
            && Feasible(c, Handlers(c.ops, 0))
            && var d := Run(c, Handlers(c.ops, 0));
               && d.open == (t.open && !closing) && |d.ops| == |t.ops|
               && forall i | 0 <= i < |t.ops| :: EndedAs(t.ops[i], d.ops[i])
  {
    var t := Run(s, es);
    var c := Step(t, if closing then Close else Cancel);
    EndingMakesReady(s, es, closing);
    HandlersResolve(c, 0);
    var d := Run(c, Handlers(c.ops, 0));
    forall i | 0 <= i < |t.ops| ensures EndedAs(t.ops[i], d.ops[i]) {
      FailedThenResolved(t.ops[i], c.ops[i], d.ops[i]);
    }
  }

  /** A post on an open pipe waits for the kernel, after a cancel too; on a closed one it has failed. */
  lemma PostWaitsWhileOpen<K>(s: Pipe<K>, dir: Direction, key: K, len: nat)
    requires Enabled(s, Post(dir, key, len))
    ensures var t := Step(s, Post(dir, key, len));
            && |t.ops| == |s.ops| + 1 && t.ops[..|s.ops|] == s.ops
            && t.ops[|s.ops|] == Op(dir, key, s.buffers[key].pos, len, if s.open then Waiting else Failed(9))
            && t.open == s.open && t.buffers == s.buffers && t.queue == s.queue && t.log == s.log
  {
  }

  /** A refused operation alone fails, with the kernel's error, and its future gets that error. */
  lemma RefusalReachesTheFuture<K>(s: Pipe<K>, i: nat, code: int)
    requires Enabled(s, Refuse(i, code)) && s.ops[i].key in s.buffers
    ensures var t := Step(s, Refuse(i, code));
            && t == s.(ops := s.ops[i := s.ops[i].(status := Failed(code))])
            && Enabled(t, Handler(i))
            && Step(t, Handler(i)) == s.(ops := s.ops[i := s.ops[i].(status := Resolved(Error(code)))])
  {
  }

  /** The kernel can serve a waiting write always, and a waiting read while the pipe holds anything. */
  lemma WaitingCanBeServed<K>(s: Pipe<K>, es: seq<Event<K>>, i: nat)
    requires Initial(s) && Feasible(s, es) && i < |Run(s, es).ops| && Run(s, es).ops[i].status.Waiting?
    ensures var t := Run(s, es);
            (exists n: nat :: Enabled(t, Move(i, n)))
            <==> t.ops[i].dir.Write? || t.ops[i].len == 0 || t.queue != []
  {
    ReachableInv(s, es);
    var t := Run(s, es);
    assert OpInv(t, t.ops[i]);
    if t.ops[i].dir.Write? || t.ops[i].len == 0 || t.queue != [] {
      assert Enabled(t, Move(i, if t.ops[i].len == 0 then 0 else 1));
    }
  }
}
