/**
 The signal dispatcher: one process-wide multimap from signals to handlers, and chaining to the
 handler that was installed before.
 */
module Signals {
  import opened Sequences

  /** An attached function, or the wrapper around a handler found at attach time. */
  datatype Handler = User(id: nat) | Previous(id: nat)

  /** What the kernel does on a signal: nothing of the program's, our dispatcher, or another function. */
  datatype Disposition = Default | Dispatcher | Outside(id: nat)

  datatype Entry = Entry(signum: int, handler: Handler)

  datatype Call = Call(handler: Handler, signum: int)

  datatype Process = Process(mapping: seq<Entry>, dispositions: map<int, Disposition>)

  datatype Attach = Attach(signum: int, id: nat)

  function DispositionOf(dispositions: map<int, Disposition>, signum: int): Disposition {
    if signum in dispositions then dispositions[signum] else Default
  }

  // ---------------------------------------------------------------------------------------
  // The multimap.

  ghost predicate Sorted(mapping: seq<Entry>) {
    forall i, j :: 0 <= i < j < |mapping| ==> mapping[i].signum <= mapping[j].signum
  }

  /** Insertion goes after every entry of a smaller or equal key. */
  function Emplace(mapping: seq<Entry>, e: Entry): (r: seq<Entry>)
    ensures forall x | x in r :: x == e || x in mapping
  {
    if mapping == [] || mapping[0].signum > e.signum then [e] + mapping
    else [mapping[0]] + Emplace(mapping[1..], e)
  }

  /** The handlers of one signal, in iteration order: the sequence the multimap stands for. */
  function Chain(mapping: seq<Entry>, signum: int): seq<Handler> {
    if mapping == [] then []
    else (if mapping[0].signum == signum then [mapping[0].handler] else []) + Chain(mapping[1..], signum)
  }

  lemma {:induction false} ChainOfConcat(a: seq<Entry>, b: seq<Entry>, signum: int)
    ensures Chain(a + b, signum) == Chain(a, signum) + Chain(b, signum)
  {
    if a == [] {
      assert a + b == b;
    } else {
      ChainOfConcat(a[1..], b, signum);
      TailOfConcat(a, b, 1);
      Assoc(if a[0].signum == signum then [a[0].handler] else [], Chain(a[1..], signum), Chain(b, signum));
    }
  }

  lemma {:induction false} ChainOfOthers(mapping: seq<Entry>, signum: int)
    requires forall i | 0 <= i < |mapping| :: mapping[i].signum != signum
    ensures Chain(mapping, signum) == []
  {
    if mapping != [] {
      ChainOfOthers(mapping[1..], signum);
    }
  }

  lemma {:induction false} EmplaceKeepsOrder(mapping: seq<Entry>, e: Entry)
    requires Sorted(mapping)
    ensures Sorted(Emplace(mapping, e))
  {
    if mapping != [] && mapping[0].signum <= e.signum {
      EmplaceKeepsOrder(mapping[1..], e);
      forall x | x in Emplace(mapping[1..], e) ensures mapping[0].signum <= x.signum {
        if x != e {
          var i :| 0 <= i < |mapping[1..]| && mapping[1..][i] == x;
          assert mapping[i + 1] == x;
        }
      }
    }
  }

  /** Inserting appends to the chain of that signal, and changes no other. */
  lemma {:induction false} EmplaceAppends(mapping: seq<Entry>, e: Entry, signum: int)
    requires Sorted(mapping)
    ensures Chain(Emplace(mapping, e), signum)
         == Chain(mapping, signum) + (if signum == e.signum then [e.handler] else [])
  {
    var r := Emplace(mapping, e);
    if mapping == [] || mapping[0].signum > e.signum {
      assert r[1..] == mapping;
      if signum == e.signum {
        ChainOfOthers(mapping, signum);
      }
    } else {
      EmplaceAppends(mapping[1..], e, signum);
      assert r[1..] == Emplace(mapping[1..], e);
    }
  }

  // ---------------------------------------------------------------------------------------
  // Attaching.

  /** Install the dispatcher; keep another function found there in front of the new handler. */
  function AttachStep(p: Process, a: Attach): Process {
    var found := DispositionOf(p.dispositions, a.signum);
    var chained := if found.Outside? then Emplace(p.mapping, Entry(a.signum, Previous(found.id))) else p.mapping;
    Process(Emplace(chained, Entry(a.signum, User(a.id))), p.dispositions[a.signum := Dispatcher])
  }

  function Run(p: Process, attaches: seq<Attach>): Process {
    if attaches == [] then p
    else AttachStep(Run(p, attaches[..|attaches| - 1]), attaches[|attaches| - 1])
  }

  /** No handler attached, and the dispatcher installed nowhere. */
  predicate Untouched(p: Process) {
    p.mapping == [] && forall s | s in p.dispositions :: !p.dispositions[s].Dispatcher?
  }

  /** The functions attached to one signal, in order. */
  function Attached(attaches: seq<Attach>, signum: int): seq<Handler> {
    if attaches == [] then []
    else
      var last := attaches[|attaches| - 1];
      Attached(attaches[..|attaches| - 1], signum) + (if last.signum == signum then [User(last.id)] else [])
  }

  /** The handler that was there first, if there was one and anything was attached. */
  function Original(p: Process, attaches: seq<Attach>, signum: int): seq<Handler> {
    var first := DispositionOf(p.dispositions, signum);
    if first.Outside? && Attached(attaches, signum) != [] then [Previous(first.id)] else []
  }

  lemma AttachAppends(p: Process, a: Attach, signum: int)
    requires Sorted(p.mapping)
    ensures Sorted(AttachStep(p, a).mapping)
    ensures var found := DispositionOf(p.dispositions, a.signum);
            Chain(AttachStep(p, a).mapping, signum)
            == Chain(p.mapping, signum)
             + (if signum != a.signum then []
                else (if found.Outside? then [Previous(found.id)] else []) + [User(a.id)])
  {
    var found := DispositionOf(p.dispositions, a.signum);
    if found.Outside? {
      EmplaceKeepsOrder(p.mapping, Entry(a.signum, Previous(found.id)));
      EmplaceKeepsOrder(Emplace(p.mapping, Entry(a.signum, Previous(found.id))), Entry(a.signum, User(a.id)));
      var e := Entry(a.signum, Previous(found.id));
      EmplaceAppends(p.mapping, e, signum);
      EmplaceAppends(Emplace(p.mapping, e), Entry(a.signum, User(a.id)), signum);
    } else {
      EmplaceKeepsOrder(p.mapping, Entry(a.signum, User(a.id)));
      EmplaceAppends(p.mapping, Entry(a.signum, User(a.id)), signum);
    }
  }

  /**
   After any run of attaches with no outside change, the chain of a signal is its original
   handler, once, then its attached handlers in the order they were attached.
   */
  lemma {:induction false} ChainIsOriginalThenAttached(p: Process, attaches: seq<Attach>, signum: int)
    requires Untouched(p)
    ensures Sorted(Run(p, attaches).mapping)
    ensures Chain(Run(p, attaches).mapping, signum) == Original(p, attaches, signum) + Attached(attaches, signum)
    ensures DispositionOf(Run(p, attaches).dispositions, signum)
         == if Attached(attaches, signum) == [] then DispositionOf(p.dispositions, signum) else Dispatcher
  {
    if attaches != [] {
      var front, last := attaches[..|attaches| - 1], attaches[|attaches| - 1];
      ChainIsOriginalThenAttached(p, front, signum);
      AttachAppends(Run(p, front), last, signum);
    }
  }

  // ---------------------------------------------------------------------------------------
  // Delivery.

  function CallAll(handlers: seq<Handler>, signum: int): (r: seq<Call>)
    ensures |r| == |handlers|
    ensures forall i | 0 <= i < |r| :: r[i] == Call(handlers[i], signum)
  {
    seq(|handlers|, i requires 0 <= i < |handlers| => Call(handlers[i], signum))
  }

  /** What the program runs when the kernel delivers a signal. */
  function Deliver(p: Process, signum: int): seq<Call> {
    match DispositionOf(p.dispositions, signum)
    case Default => []
    case Outside(id) => [Call(Previous(id), signum)]
    case Dispatcher => CallAll(Chain(p.mapping, signum), signum)
  }

  /**
   Delivering a signal calls the original handler first, if there was one, then each attached
   handler in attach order, each once and with that signal's number.
   */
  lemma DeliveryCallsEachOnce(p: Process, attaches: seq<Attach>, signum: int)
    requires Untouched(p)
    ensures var first := DispositionOf(p.dispositions, signum);
            Deliver(Run(p, attaches), signum)
            == CallAll((if first.Outside? then [Previous(first.id)] else []) + Attached(attaches, signum), signum)
  {
    ChainIsOriginalThenAttached(p, attaches, signum);
  }

  lemma ChainOfLonger(mapping: seq<Entry>, lo: nat, i: nat, signum: int)
    requires lo <= i < |mapping| && mapping[i].signum == signum
    ensures Chain(mapping[lo..i + 1], signum) == Chain(mapping[lo..i], signum) + [mapping[i].handler]
  {
    assert mapping[lo..i + 1] == mapping[lo..i] + [mapping[i]];
    ChainOfConcat(mapping[lo..i], [mapping[i]], signum);
  }

  /** The chain lies within the equal range. */
  lemma ChainOfRange(mapping: seq<Entry>, lo: nat, hi: nat, signum: int)
    requires lo <= hi <= |mapping|
    requires forall i | 0 <= i < |mapping| :: lo <= i < hi <==> mapping[i].signum == signum
    ensures Chain(mapping, signum) == Chain(mapping[lo..hi], signum)
  {
    ChainOfOthers(mapping[..lo], signum);
    ChainOfOthers(mapping[hi..], signum);
    assert mapping[..hi] == mapping[..lo] + mapping[lo..hi];
    ChainOfConcat(mapping[..lo], mapping[lo..hi], signum);
    assert mapping == mapping[..hi] + mapping[hi..];
    ChainOfConcat(mapping[..hi], mapping[hi..], signum);
  }

  class SignalDispatcher {
    /** The multimap, as the sequence its iterators walk. */
    var mapping: seq<Entry>
    /** The kernel's table of actions. */
    var dispositions: map<int, Disposition>

    ghost function View(): Process
      reads this
    {
      Process(mapping, dispositions)
    }

    constructor (installed: map<int, Disposition>)
      requires forall s | s in installed :: !installed[s].Dispatcher?
      ensures Untouched(View()) && dispositions == installed
    {
      mapping := [];
      dispositions := installed;
    }

    method AttachHandler(signum: int, id: nat)
      modifies this
      ensures View() == AttachStep(old(View()), Attach(signum, id))
    {
      var oldAction := DispositionOf(dispositions, signum);
      dispositions := dispositions[signum := Dispatcher];
      if oldAction.Outside? {
        mapping := Emplace(mapping, Entry(signum, Previous(oldAction.id)));
      }
      mapping := Emplace(mapping, Entry(signum, User(id)));
    }

    /** Walk the equal range of the signal and call each handler in it. */
    method HandleSignal(signum: int) returns (calls: seq<Call>)
      requires Sorted(mapping)
      ensures calls == CallAll(Chain(mapping, signum), signum)
    {
      var lo, hi := EqualRange(signum);
      calls := [];
      var i := lo;
      while i < hi
        invariant lo <= i <= hi
        invariant calls == CallAll(Chain(mapping[lo..i], signum), signum)
      {
        ChainOfLonger(mapping, lo, i, signum);
        calls := calls + [Call(mapping[i].handler, signum)];
        i := i + 1;
      }
      ChainOfRange(mapping, lo, hi, signum);
    }

    /** The bounds between which exactly the entries of one key lie. */
    method EqualRange(signum: int) returns (lo: nat, hi: nat)
      requires Sorted(mapping)
      ensures lo <= hi <= |mapping|
      ensures forall i | 0 <= i < |mapping| :: lo <= i < hi <==> mapping[i].signum == signum
    {
      lo := 0;
      while lo < |mapping| && mapping[lo].signum < signum
        invariant lo <= |mapping|
        invariant forall i | 0 <= i < lo :: mapping[i].signum < signum
      {
        lo := lo + 1;
      }
      hi := lo;
      while hi < |mapping| && mapping[hi].signum == signum
        invariant lo <= hi <= |mapping|
        invariant forall i | lo <= i < hi :: mapping[i].signum == signum
      {
        hi := hi + 1;
      }
    }
  }
}
