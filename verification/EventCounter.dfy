/**
 The asynchronous event: notify adds one to an eventfd counter, and a wait that completes takes
 all of it. Posting a wait, the kernel's read and the completion handler are separate steps.
 */
module EventCounter {

  /** The largest value an eventfd counter can hold; a write that would pass it fails. */
  const MAX_COUNTER: nat := 0xFFFF_FFFF_FFFF_FFFE

  datatype Wait = Pending | Drained(n: nat) | Refused | Done(n: nat) | Failed

  /** `notified` counts the successful notifies. */
  datatype Counter = Counter(value: nat, waits: seq<Wait>, notified: nat)

  datatype Event = Notify | PostWait | KernelReads(i: nat) | KernelRefuses(i: nat) | Handler(i: nat)

  predicate Initial(s: Counter) {
    s.value == 0 && s.waits == [] && s.notified == 0
  }

  /** A non-blocking read of an eventfd succeeds only while the counter is not zero. */
  predicate Enabled(s: Counter, e: Event) {
    match e
    case Notify => true
    case PostWait => true
    case KernelReads(i) => i < |s.waits| && s.waits[i].Pending? && s.value > 0
    case KernelRefuses(i) => i < |s.waits| && s.waits[i].Pending?
    case Handler(i) => i < |s.waits| && (s.waits[i].Drained? || s.waits[i].Refused?)
  }

  function Step(s: Counter, e: Event): Counter
    requires Enabled(s, e)
  {
    match e
    case Notify =>
      if s.value == MAX_COUNTER then s else s.(value := s.value + 1, notified := s.notified + 1)
    case PostWait => s.(waits := s.waits + [Pending])
    case KernelReads(i) => s.(value := 0, waits := s.waits[i := Drained(s.value)])
    case KernelRefuses(i) => s.(waits := s.waits[i := Refused])
    case Handler(i) =>
      s.(waits := s.waits[i := if s.waits[i].Drained? then Done(s.waits[i].n) else Failed])
  }

  predicate Feasible(s: Counter, es: seq<Event>)
    decreases es
  {
    es == [] || (Enabled(s, es[0]) && Feasible(Step(s, es[0]), es[1..]))
  }

  function Run(s: Counter, es: seq<Event>): Counter
    requires Feasible(s, es)
    decreases es
  {
    if es == [] then s else Run(Step(s, es[0]), es[1..])
  }

  function Share(w: Wait): nat {
    match w
    case Drained(n) => n
    case Done(n) => n
    case _ => 0
  }

  /** What all waits took from the counter. */
  function Consumed(waits: seq<Wait>): nat {
    if waits == [] then 0 else Consumed(waits[..|waits| - 1]) + Share(waits[|waits| - 1])
  }

  /** How many waits completed with a value. */
  function Completions(waits: seq<Wait>): nat {
    if waits == [] then 0
    else Completions(waits[..|waits| - 1]) + (if waits[|waits| - 1].Done? then 1 else 0)
  }

  lemma {:induction false} ConsumedUpdate(waits: seq<Wait>, i: nat, w: Wait)
    requires i < |waits|
    ensures Consumed(waits[i := w]) == Consumed(waits) - Share(waits[i]) + Share(w)
  {
    var last := |waits| - 1;
    if i == last {
      assert waits[i := w][..last] == waits[..last];
    } else {
      ConsumedUpdate(waits[..last], i, w);
      assert waits[i := w][..last] == waits[..last][i := w];
    }
  }

  predicate Inv(s: Counter) {
    && Consumed(s.waits) + s.value == s.notified
    && s.value <= MAX_COUNTER
    && forall w | w in s.waits :: (w.Drained? || w.Done?) ==> Share(w) > 0
  }

  lemma StepKeepsInv(s: Counter, e: Event)
    requires Inv(s) && Enabled(s, e)
    ensures Inv(Step(s, e))
  {
    var t := Step(s, e);
    match e
    case Notify =>
    case PostWait =>
      assert t.waits[..|t.waits| - 1] == s.waits;
    case KernelReads(i) => ConsumedUpdate(s.waits, i, t.waits[i]);
    case KernelRefuses(i) => ConsumedUpdate(s.waits, i, t.waits[i]);
    case Handler(i) =>
      assert s.waits[i] in s.waits;
      ConsumedUpdate(s.waits, i, t.waits[i]);
  }

  lemma {:induction false} RunKeepsInv(s: Counter, es: seq<Event>)
    requires Inv(s) && Feasible(s, es)
    ensures Inv(Run(s, es))
    decreases es
  {
    if es != [] {
      StepKeepsInv(s, es[0]);
      RunKeepsInv(Step(s, es[0]), es[1..]);
    }
  }

  lemma {:induction false} EachCompletionConsumes(waits: seq<Wait>)
    requires forall w | w in waits :: (w.Drained? || w.Done?) ==> Share(w) > 0
    ensures Completions(waits) <= Consumed(waits)
  {
    if waits != [] {
      EachCompletionConsumes(waits[..|waits| - 1]);
      assert waits[|waits| - 1] in waits;
    }
  }

  /**
   Over every run, what waits consumed plus what the counter holds is the number of successful
   notifies, so waits never complete more often than notify was called.
   */
  lemma NotifiesAreConserved(s: Counter, es: seq<Event>)
    requires Initial(s) && Feasible(s, es)
    ensures var t := Run(s, es);
            Consumed(t.waits) + t.value == t.notified && Completions(t.waits) <= t.notified
  {
    RunKeepsInv(s, es);
    EachCompletionConsumes(Run(s, es).waits);
  }

  /**
   No wake-up is lost: a posted wait is blocked exactly while every successful notify has been
   consumed by some wait.
   */
  lemma BlockedOnlyWhenAllConsumed(s: Counter, es: seq<Event>, i: nat)
    requires Initial(s) && Feasible(s, es) && i < |Run(s, es).waits| && Run(s, es).waits[i].Pending?
    ensures var t := Run(s, es);
            Enabled(t, KernelReads(i)) <==> Consumed(t.waits) < t.notified
  {
    RunKeepsInv(s, es);
  }

  /** A notify adds one unless the counter is at its maximum, and then it changes nothing. */
  lemma NotifyAddsUnlessFull(s: Counter)
    ensures var t := Step(s, Notify);
            && t.waits == s.waits
            && (s.value != 0xFFFF_FFFF_FFFF_FFFE ==> t.value == s.value + 1 && t.notified == s.notified + 1)
            && (s.value == 0xFFFF_FFFF_FFFF_FFFE ==> t == s)
  {
  }

  /**
   A wait that the kernel serves takes the whole counter, so that no other wait can be served until
   the next notify, and its handler completes it with a value.
   */
  lemma ServedWaitTakesAll(s: Counter, es: seq<Event>, i: nat)
    requires Initial(s) && Feasible(s, es) && Enabled(Run(s, es), KernelReads(i))
    ensures var t := Run(s, es);
            var served := Step(t, KernelReads(i));
            && served.value == 0 && served.notified == t.notified
            && (forall j :: !Enabled(served, KernelReads(j)))
            && Enabled(served, Handler(i))
            && Step(served, Handler(i)) == Counter(0, t.waits[i := Done(t.value)], t.notified) && t.value > 0
  {
    RunKeepsInv(s, es);
  }

  /** A wait that the kernel refuses takes nothing, and its handler ends it with an error. */
  lemma RefusedWaitTakesNothing(s: Counter, i: nat)
    requires Enabled(s, KernelRefuses(i))
    ensures var refused := Step(s, KernelRefuses(i));
            && Enabled(refused, Handler(i))
            && Step(refused, Handler(i)) == s.(waits := s.waits[i := Failed])
  {
  }

  class EventImpl {
    /** The kernel's counter behind the descriptor. */
    var counter: nat
    var waits: seq<Wait>
    var readBuffer: nat
    ghost var notified: nat

    ghost function View(): Counter
      reads this
    {
      Counter(counter, waits, notified)
    }

    constructor ()
      ensures Initial(View())
    {
      counter, waits, readBuffer, notified := 0, [], 0, 0;
    }

    /** False stands for the exception raised when the write fails. */
    method NotifyOnce() returns (ok: bool)
      modifies this
      ensures View() == Step(old(View()), Notify)
      ensures ok <==> notified == old(notified) + 1
    {
      ok := counter != MAX_COUNTER;
      if ok {
        counter := counter + 1;
        notified := notified + 1;
      }
    }

    method AsyncWait() returns (i: nat)
      modifies this
      ensures View() == Step(old(View()), PostWait)
      ensures i == |old(waits)| && waits[i].Pending?
    {
      i := |waits|;
      waits := waits + [Pending];
    }

    /** The read stores the counter in the one buffer all waits share, and resets it. */
    method KernelRead(i: nat)
      requires Enabled(View(), KernelReads(i))
      modifies this
      ensures View() == Step(old(View()), KernelReads(i)) && readBuffer == old(counter)
    {
      readBuffer := counter;
      waits := waits[i := Drained(counter)];
      counter := 0;
    }

    method OnRead(i: nat)
      requires Enabled(View(), Handler(i))
      modifies this
      ensures View() == Step(old(View()), Handler(i))
    {
      waits := waits[i := if waits[i].Drained? then Done(waits[i].n) else Failed];
    }
  }
}
