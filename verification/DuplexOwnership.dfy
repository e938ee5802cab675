/**
 Duplexes and pipes as pairs of File slots: each of their operations is a run of File operations,
 so what every run keeps for File it keeps for them.
 */
module DuplexOwnership {
  import opened Options
  import opened Ownership
  import opened OwnershipSafety

  /** Plain operations on any slot, and the operations of the duplex with number `d`. */
  datatype Op =
    | Plain(event: Event)
    | OpenDuplex(d: nat, readEnd: int, writeEnd: int)
    | MoveDuplex(d: nat, from: nat)
    | SwapDuplex(d: nat, with: nat)
    | CloseDuplex(d: nat)
    | DestroyDuplex(d: nat)

  /** The slots of a duplex's two ends. */
  function In(d: nat): nat {
    2 * d
  }

  function Out(d: nat): nat {
    2 * d + 1
  }

  predicate IsDuplex(w: World, d: nat) {
    In(d) in w.live && Out(d) in w.live && w.live[In(d)].File? && w.live[Out(d)].File?
  }

  predicate IsFree(w: World, d: nat) {
    In(d) !in w.live && Out(d) !in w.live
  }

  predicate CanDo(w: World, op: Op) {
    match op
    case Plain(event) => Enabled(w, event)
    case OpenDuplex(d, r, o) =>
      IsFree(w, d) && r >= 0 && o >= 0 && r != o && r !in w.kernel.table && o !in w.kernel.table
    case MoveDuplex(d, from) => IsFree(w, d) && IsDuplex(w, from)
    case SwapDuplex(d, with) => IsDuplex(w, d) && IsDuplex(w, with)
    case CloseDuplex(d) => IsDuplex(w, d)
    case DestroyDuplex(d) => IsDuplex(w, d)
  }

  /** The world with the ends of one duplex replaced. */
  function WithEnds(live: map<nat, Handle>, d: nat, input: Handle, output: Handle): map<nat, Handle> {
    live[In(d) := input][Out(d) := output]
  }

  /** What each operation of a Duplex does to its ends, as the class itself states it. */
  function Do(w: World, op: Op): World
    requires CanDo(w, op)
  {
    match op
    case Plain(event) => Step(w, event)
    case OpenDuplex(d, r, o) =>
      World(Open(Open(w.kernel, r, None), o, None), WithEnds(w.live, d, File(r), File(o)))
    case MoveDuplex(d, from) =>
      var input, output := w.live[In(from)], w.live[Out(from)];
      w.(live := WithEnds(WithEnds(w.live, d, input, output), from, Emptied(input), Emptied(output)))
    case SwapDuplex(d, with) =>
      w.(live := WithEnds(WithEnds(w.live, d, w.live[In(with)], w.live[Out(with)]),
                          with, w.live[In(d)], w.live[Out(d)]))
    case CloseDuplex(d) =>
      var (k, input, output) := ClosePairOf(w.kernel, w.live[In(d)], w.live[Out(d)]);
      World(k, WithEnds(w.live, d, input, output))
    case DestroyDuplex(d) =>
      World(DestroyPairOf(w.kernel, w.live[In(d)], w.live[Out(d)]), w.live - {In(d), Out(d)})
  }

  /** The File operations that an operation goes through, in order. */
  function Parts(op: Op): seq<Event> {
    match op
    case Plain(event) => [event]
    case OpenDuplex(d, r, o) => [OpenFile(In(d), r), OpenFile(Out(d), o)]
    case MoveDuplex(d, from) => [MoveConstruct(In(d), In(from)), MoveConstruct(Out(d), Out(from))]
    case SwapDuplex(d, with) => [Swap(In(d), In(with)), Swap(Out(d), Out(with))]
    case CloseDuplex(d) => [CloseHandle(In(d)), CloseHandle(Out(d))]
    case DestroyDuplex(d) => [Destroy(Out(d)), Destroy(In(d))]
  }

  lemma RunOfOne(w: World, e: Event)
    requires Enabled(w, e)
    ensures Feasible(w, [e]) && Run(w, [e]) == Step(w, e)
  {
    assert Run(Step(w, e), [e][1..]) == Step(w, e);
  }

  lemma RunOfTwo(w: World, a: Event, b: Event)
    requires Enabled(w, a) && Enabled(Step(w, a), b)
    ensures Feasible(w, [a, b]) && Run(w, [a, b]) == Step(Step(w, a), b)
  {
    RunOfOne(Step(w, a), b);
    assert [a, b][1..] == [b];
  }

  lemma OpenIsARun(w: World, d: nat, r: int, o: int)
    requires CanDo(w, OpenDuplex(d, r, o))
    ensures Feasible(w, Parts(OpenDuplex(d, r, o)))
    ensures Run(w, Parts(OpenDuplex(d, r, o))) == Do(w, OpenDuplex(d, r, o))
  {
    RunOfTwo(w, OpenFile(In(d), r), OpenFile(Out(d), o));
  }

  lemma MoveIsARun(w: World, d: nat, from: nat)
    requires CanDo(w, MoveDuplex(d, from))
    ensures Feasible(w, Parts(MoveDuplex(d, from)))
    ensures Run(w, Parts(MoveDuplex(d, from))) == Do(w, MoveDuplex(d, from))
  {
    RunOfTwo(w, MoveConstruct(In(d), In(from)), MoveConstruct(Out(d), Out(from)));
    var t := Step(Step(w, MoveConstruct(In(d), In(from))), MoveConstruct(Out(d), Out(from)));
    assert t.live == Do(w, MoveDuplex(d, from)).live;
  }

  lemma SwapIsARun(w: World, d: nat, with: nat)
    requires CanDo(w, SwapDuplex(d, with))
    ensures Feasible(w, Parts(SwapDuplex(d, with)))
    ensures Run(w, Parts(SwapDuplex(d, with))) == Do(w, SwapDuplex(d, with))
  {
    RunOfTwo(w, Swap(In(d), In(with)), Swap(Out(d), Out(with)));
    var t := Step(Step(w, Swap(In(d), In(with))), Swap(Out(d), Out(with)));
    assert t.live == Do(w, SwapDuplex(d, with)).live;
  }

  lemma CloseIsARun(w: World, d: nat)
    requires CanDo(w, CloseDuplex(d))
    ensures Feasible(w, Parts(CloseDuplex(d))) && Run(w, Parts(CloseDuplex(d))) == Do(w, CloseDuplex(d))
  {
    RunOfTwo(w, CloseHandle(In(d)), CloseHandle(Out(d)));
  }

  lemma DestroyIsARun(w: World, d: nat)
    requires CanDo(w, DestroyDuplex(d))
    ensures Feasible(w, Parts(DestroyDuplex(d))) && Run(w, Parts(DestroyDuplex(d))) == Do(w, DestroyDuplex(d))
  {
    RunOfTwo(w, Destroy(Out(d)), Destroy(In(d)));
    assert w.live - {Out(d)} - {In(d)} == w.live - {In(d), Out(d)};
  }

  /** Each operation is the run of its File operations. */
  lemma OpIsARun(w: World, op: Op)
    requires CanDo(w, op)
    ensures Feasible(w, Parts(op)) && Run(w, Parts(op)) == Do(w, op)
  {
    match op
    case Plain(event) => RunOfOne(w, event);
    case OpenDuplex(d, r, o) => OpenIsARun(w, d, r, o);
    case MoveDuplex(d, from) => MoveIsARun(w, d, from);
    case SwapDuplex(d, with) => SwapIsARun(w, d, with);
    case CloseDuplex(d) => CloseIsARun(w, d);
    case DestroyDuplex(d) => DestroyIsARun(w, d);
  }

  predicate AllCanDo(w: World, ops: seq<Op>)
    decreases ops
  {
    ops == [] || (CanDo(w, ops[0]) && AllCanDo(Do(w, ops[0]), ops[1..]))
  }

  function DoAll(w: World, ops: seq<Op>): World
    requires AllCanDo(w, ops)
    decreases ops
  {
    if ops == [] then w else DoAll(Do(w, ops[0]), ops[1..])
  }

  function AllParts(ops: seq<Op>): seq<Event> {
    if ops == [] then [] else Parts(ops[0]) + AllParts(ops[1..])
  }

  lemma {:induction false} RunConcat(w: World, es: seq<Event>, more: seq<Event>)
    requires Feasible(w, es) && Feasible(Run(w, es), more)
    ensures Feasible(w, es + more) && Run(w, es + more) == Run(Run(w, es), more)
    decreases es
  {
    if es == [] {
      assert es + more == more;
    } else {
      RunConcat(Step(w, es[0]), es[1..], more);
      assert (es + more)[1..] == es[1..] + more;
    }
  }

  lemma {:induction false} OpsAreARun(w: World, ops: seq<Op>)
    requires AllCanDo(w, ops)
    ensures Feasible(w, AllParts(ops)) && Run(w, AllParts(ops)) == DoAll(w, ops)
    decreases ops
  {
    if ops != [] {
      OpIsARun(w, ops[0]);
      OpsAreARun(Do(w, ops[0]), ops[1..]);
      RunConcat(w, Parts(ops[0]), AllParts(ops[1..]));
    }
  }

  /**
   Over every run of operations on duplexes, pipes and single handles: the valid ends of two
   duplexes, and the two ends of one, are different open descriptors.
   */
  lemma DuplexEndsAreDistinct(ops: seq<Op>, d: nat, e: nat)
    requires AllCanDo(EMPTY, ops) && IsDuplex(DoAll(EMPTY, ops), d) && IsDuplex(DoAll(EMPTY, ops), e)
    ensures var w := DoAll(EMPTY, ops);
            var input, output := w.live[In(d)].fd, w.live[Out(d)].fd;
            && (input != INVALID_FD ==> input in w.kernel.table && input != output && input != w.live[Out(e)].fd)
            && (output != INVALID_FD ==> output in w.kernel.table)
            && (d != e && input != INVALID_FD ==> input != w.live[In(e)].fd)
            && (d != e && output != INVALID_FD ==> output != w.live[Out(e)].fd)
  {
    OpsAreARun(EMPTY, ops);
    DistinctOwners(AllParts(ops));
  }

  /** On those runs every close hits, nothing is closed twice, and nothing stays open at the end. */
  lemma DuplexesNeverLeak(ops: seq<Op>)
    requires AllCanDo(EMPTY, ops)
    ensures var w := DoAll(EMPTY, ops);
            && w.kernel.faults == 0
            && (forall i, j | 0 <= i < j < |w.kernel.closed| ::
                  w.kernel.closed[i].instance != w.kernel.closed[j].instance)
            && (w.live == map[] ==> w.kernel.table == map[] && |w.kernel.closed| == w.kernel.opens)
  {
    OpsAreARun(EMPTY, ops);
    ClosedOnceAndNoLeak(AllParts(ops));
  }
}
