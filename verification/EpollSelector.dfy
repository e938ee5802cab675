/**
 The epoll back end over its reserved vector, and its agreement with the poll back end.
 */
module EpollSelector {
  import opened Options
  import opened Registrations
  import opened EpollTable
  import PollSelector

  // <sys/epoll.h>.
  const EPOLLIN: bv32 := 0x001
  const EPOLLOUT: bv32 := 0x004
  const EPOLLERR: bv32 := 0x008
  const EPOLLHUP: bv32 := 0x010

  /** A descriptor that the kernel finds ready. */
  datatype Ready = Ready(fd: int, events: bv32)

  /** What epoll_wait stores for it: the pointer given at registration, and the events. */
  datatype Reported = Reported(slot: nat, events: bv32)

  datatype WaitReturn = Interrupted | Failed(errno: int) | Returned(ready: seq<Ready>)

  /** The kernel reports registered descriptors, each at most once, and no more than there is room for. */
  predicate WaitContract(interest: map<int, nat>, room: nat, w: WaitReturn) {
    w.Returned? ==> |w.ready| <= room && Registereds(interest, w.ready) && DistinctReady(w.ready)
  }

  predicate Registereds(interest: map<int, nat>, ready: seq<Ready>) {
    forall i | 0 <= i < |ready| :: ready[i].fd in interest
  }

  predicate DistinctReady(ready: seq<Ready>) {
    forall i, j | 0 <= i < j < |ready| :: ready[i].fd != ready[j].fd
  }

  function Stored(interest: map<int, nat>, ready: seq<Ready>): (r: seq<Reported>)
    requires Registereds(interest, ready)
    ensures |r| == |ready|
  {
    seq(|ready|, i requires 0 <= i < |ready| => Reported(interest[ready[i].fd], ready[i].events))
  }

  function NativeMask(events: bv32): bv32 {
    (if events & PollSelector.READ != 0 then EPOLLIN else 0)
    | (if events & PollSelector.WRITE != 0 then EPOLLOUT else 0)
    | (if events & PollSelector.ERROR != 0 then EPOLLERR else 0)
    | (if events & PollSelector.HUP != 0 then EPOLLHUP else 0)
  }

  function EventFlags(native: bv32): bv32 {
    (if native & EPOLLIN != 0 then PollSelector.READ else 0)
    | (if native & EPOLLOUT != 0 then PollSelector.WRITE else 0)
    | (if native & EPOLLERR != 0 then PollSelector.ERROR else 0)
    | (if native & EPOLLHUP != 0 then PollSelector.HUP else 0)
  }

  /** Read, Write, Error and Hup, bit by bit, whichever way they are translated. */
  predicate SameFourBits(a: bv32, b: bv32) {
    && (a & 0x01 != 0 <==> b & 0x01 != 0)
    && (a & 0x04 != 0 <==> b & 0x04 != 0)
    && (a & 0x08 != 0 <==> b & 0x08 != 0)
    && (a & 0x10 != 0 <==> b & 0x10 != 0)
  }

  lemma TranslationsKeepBits(bits: bv32)
    ensures SameFourBits(bits, NativeMask(bits)) && NativeMask(bits) & !0x1D == 0
    ensures SameFourBits(bits, EventFlags(bits)) && EventFlags(bits) & !0x1D == 0
  {
  }

  /** On this back end the selectable flags and the reported ones are the same four. */
  lemma FlagsSurviveTheRoundTrip(events: bv32)
    ensures EventFlags(NativeMask(events))
         == events & (PollSelector.READ | PollSelector.WRITE | PollSelector.ERROR | PollSelector.HUP)
  {
  }

  const MAX_ATTEMPTS := 3

  /** The first answer that is not an interruption, among the attempts that are made. */
  function FirstAnswer(kernel: seq<WaitReturn>, attempts: nat): WaitReturn
    requires attempts <= |kernel|
  {
    if attempts == 0 then Interrupted
    else if !kernel[0].Interrupted? then kernel[0]
    else FirstAnswer(kernel[1..], attempts - 1)
  }

  /** What a report stands for, given what lies in the vector's memory. */
  function EventAt(memory: seq<Entry>, r: Reported): PollSelector.Event
    requires r.slot < |memory|
  {
    PollSelector.Event(memory[r.slot].fd, EventFlags(r.events), memory[r.slot].data)
  }

  predicate Within(reported: seq<Reported>, limit: nat) {
    forall i | 0 <= i < |reported| :: reported[i].slot < limit
  }

  function EventsOf(memory: seq<Entry>, reported: seq<Reported>): (r: seq<PollSelector.Event>)
    requires Within(reported, |memory|)
    ensures |r| == |reported|
  {
    seq(|reported|, i requires 0 <= i < |reported| => EventAt(memory, reported[i]))
  }

  /** The waits before the i-th were all interrupted. */
  predicate InterruptedUntil(kernel: seq<WaitReturn>, i: nat)
    requires i <= |kernel|
  {
    forall j | 0 <= j < i :: kernel[j].Interrupted?
  }

  /** Up to three waits: the first that is not interrupted decides. */
  lemma ThreeAttempts(kernel: seq<WaitReturn>)
    requires |kernel| >= 3
    ensures MAX_ATTEMPTS <= |kernel|
    ensures forall i | 0 <= i < 3 && InterruptedUntil(kernel, i) && !kernel[i].Interrupted? ::
              FirstAnswer(kernel, MAX_ATTEMPTS) == kernel[i]
    ensures InterruptedUntil(kernel, 3) ==> FirstAnswer(kernel, MAX_ATTEMPTS) == Interrupted
    ensures InterruptedUntil(kernel, 3)
         || exists i :: 0 <= i < 3 && InterruptedUntil(kernel, i) && !kernel[i].Interrupted?
  {
    assert kernel[1..][0] == kernel[1] && kernel[1..][1..] == kernel[2..] && kernel[2..][0] == kernel[2];
    assert FirstAnswer(kernel[2..], 1) == kernel[2];
    assert InterruptedUntil(kernel, 0);
    assert kernel[0].Interrupted? ==> InterruptedUntil(kernel, 1);
    assert kernel[0].Interrupted? && kernel[1].Interrupted? ==> InterruptedUntil(kernel, 2);
  }

  class EPollSelectorImpl {
    /** The reserved memory of the vector, and how much of it is in use. */
    const storage: array<Entry>
    var size: nat
    /** The kernel's epoll set. */
    var interest: map<int, nat>
    var evlist: seq<Reported>

    ghost predicate Valid()
      reads this
    {
      size <= storage.Length && forall fd | fd in interest :: interest[fd] < storage.Length
    }

    ghost function View(): Epoll
      reads this, storage
      requires Valid()
    {
      Epoll(storage[..size], interest)
    }

    constructor (maxReportedEvents: nat)
      requires maxReportedEvents > 0
      ensures Valid() && View() == Run<bv32>([]) && storage.Length == |evlist| == maxReportedEvents
      ensures fresh(storage)
    {
      storage := new Entry[maxReportedEvents](_ => Entry(0, 0));
      size := 0;
      interest := map[];
      evlist := seq(maxReportedEvents, _ => Reported(0, 0));
    }

    method AddFd(fd: int, events: bv32, data: nat)
      requires Valid() && size < storage.Length && fd !in interest
      modifies this, storage
      ensures Valid() && View() == Step(old(View()), Add(Registration(fd, NativeMask(events), data)))
    {
      var native: bv32 := 0;
      if events & PollSelector.READ != 0 {
        native := native | EPOLLIN;
      }
      if events & PollSelector.WRITE != 0 {
        native := native | EPOLLOUT;
      }
      if events & PollSelector.ERROR != 0 {
        native := native | EPOLLERR;
      }
      if events & PollSelector.HUP != 0 {
        native := native | EPOLLHUP;
      }
      AddRaw(fd, native, data);
    }

    /** Push the entry, and register a pointer to where it now lies. */
    method AddRaw(fd: int, nativeEvents: bv32, data: nat)
      requires Valid() && size < storage.Length && fd !in interest
      modifies this, storage
      ensures Valid() && View() == Step(old(View()), Add(Registration(fd, nativeEvents, data)))
    {
      storage[size] := Entry(fd, data);
      size := size + 1;
      interest := interest[fd := size - 1];
    }

    /** Deregister, ignoring that there may be nothing to, then compact the vector in place. */
    method RemoveFd(fd: int)
      requires Valid()
      modifies this, storage
      ensures Valid() && View() == Step(old(View()), Op<bv32>.Remove(fd))
    {
      interest := interest - {fd};
      ghost var was := storage[..size];
      var write, read := 0, 0;
      while read < size
        invariant 0 <= write <= read <= size == old(size) <= storage.Length
        invariant storage[..write] == Without(was[..read], SlotFd, fd)
        invariant storage[read..size] == was[read..]
        invariant interest == old(interest) - {fd}
      {
        assert storage[read] == storage[read..size][0] == was[read];
        assert was[..read + 1][..read] == was[..read];
        if storage[read].fd != fd {
          storage[write] := storage[read];
          write := write + 1;
        }
        assert was[read + 1..] == was[read..][1..];
        read := read + 1;
      }
      assert was[..read] == was;
      size := write;
    }

    /** Wait, allowing three interruptions in a row before giving up with nothing ready. */
    method Poll(kernel: seq<WaitReturn>) returns (r: PollSelector.Result<PollSelector.Range>)
      requires |kernel| >= 3
      requires forall w | w in kernel :: WaitContract(interest, |evlist|, w)
      modifies `evlist
      ensures |evlist| == old(|evlist|)
      ensures match FirstAnswer(kernel, MAX_ATTEMPTS)
              case Interrupted => r == PollSelector.Ok(PollSelector.Range(0, 0)) && evlist == old(evlist)
              case Failed(errno) => r == PollSelector.Raised(errno) && evlist == old(evlist)
              case Returned(ready) =>
                && Registereds(interest, ready) && |ready| <= |evlist|
                && r == PollSelector.Ok(PollSelector.Range(0, |ready|))
                && evlist == Stored(interest, ready) + old(evlist)[|ready|..]
      ensures forall i | 0 <= i < 3 && InterruptedUntil(kernel, i) ::
                && (kernel[i].Failed? ==> r == PollSelector.Raised(kernel[i].errno))
                && (kernel[i].Returned? ==> r == PollSelector.Ok(PollSelector.Range(0, |kernel[i].ready|)))
      ensures InterruptedUntil(kernel, 3) ==> r == PollSelector.Ok(PollSelector.Range(0, 0))
    {
      ThreeAttempts(kernel);
      for i := 0 to MAX_ATTEMPTS
        invariant evlist == old(evlist)
        invariant FirstAnswer(kernel, MAX_ATTEMPTS) == FirstAnswer(kernel[i..], MAX_ATTEMPTS - i)
      {
        assert kernel[i..][0] == kernel[i] && kernel[i..][1..] == kernel[i + 1..];
        match kernel[i]
        case Failed(errno) => return PollSelector.Raised(errno);
        case Returned(ready) =>
          assert WaitContract(interest, |evlist|, kernel[i]);
          evlist := Stored(interest, ready) + evlist[|ready|..];
          return PollSelector.Ok(PollSelector.Range(0, |ready|));
        case Interrupted =>
      }
      r := PollSelector.Ok(PollSelector.Range(0, 0));
    }

    /** Follow the stored pointer into the memory of the vector. */
    method GetEvent(i: nat) returns (e: PollSelector.Event)
      requires Valid() && i < |evlist| && evlist[i].slot < storage.Length
      ensures e == EventAt(storage[..], evlist[i])
    {
      var ev := evlist[i];
      var selected := storage[ev.slot];
      var flags: bv32 := 0;
      if ev.events & EPOLLIN != 0 {
        flags := flags | PollSelector.READ;
      }
      if ev.events & EPOLLOUT != 0 {
        flags := flags | PollSelector.WRITE;
      }
      if ev.events & EPOLLERR != 0 {
        flags := flags | PollSelector.ERROR;
      }
      if ev.events & EPOLLHUP != 0 {
        flags := flags | PollSelector.HUP;
      }
      e := PollSelector.Event(selected.fd, flags, selected.data);
    }

    method Advance(offset: nat) returns (i: nat)
      ensures i == offset + 1
    {
      i := offset + 1;
    }
  }

  // ---------------------------------------------------------------------------------------
  // Iterating.

  /** The iterator of the poll back end, over this one. */
  class Iterator {
    const selector: EPollSelectorImpl
    var index: nat
    const size: nat

    constructor (impl: EPollSelectorImpl, range: PollSelector.Range)
      ensures selector == impl && index == range.firstReady && size == range.count
    {
      selector := impl;
      index, size := range.firstReady, range.count;
    }

    /** `operator++`: false stands for the out-of-range exception. */
    method Next() returns (ok: bool)
      modifies this
      ensures ok <==> old(index) < size
      ensures index == if ok then old(index) + 1 else old(index)
    {
      ok := index < size;
      if ok {
        index := selector.Advance(index);
      }
    }
  }

  /** Walk an iterator to its end: one event per report, in the kernel's order, and then it throws. */
  method Drain(selector: EPollSelectorImpl, count: nat) returns (events: seq<PollSelector.Event>)
    requires selector.Valid() && count <= |selector.evlist|
    requires Within(selector.evlist[..count], selector.storage.Length)
    ensures events == EventsOf(selector.storage[..], selector.evlist[..count])
  {
    var it := new Iterator(selector, PollSelector.Range(0, count));
    events := [];
    while it.index != it.size
      invariant it.index <= it.size
      invariant events == EventsOf(selector.storage[..], selector.evlist[..count])[..it.index]
      decreases it.size - it.index
    {
      assert selector.evlist[..count][it.index] == selector.evlist[it.index];
      var e := selector.GetEvent(it.index);
      events := events + [e];
      var ok := it.Next();
    }
    var past := it.Next();
    assert !past;
  }

  /** One event per ready descriptor, in order: the entry its pointer leads to, and the kernel's flags. */
  predicate Handed(memory: seq<Entry>, interest: map<int, nat>, ready: seq<Ready>, events: seq<PollSelector.Event>) {
    && |events| == |ready|
    && forall k | 0 <= k < |ready| ::
         && ready[k].fd in interest && interest[ready[k].fd] < |memory|
         && events[k].fd == memory[interest[ready[k].fd]].fd
         && events[k].data == memory[interest[ready[k].fd]].data
         && SameFourBits(ready[k].events, events[k].events) && events[k].events & !0x1D == 0
  }

  lemma EventsAreHanded(memory: seq<Entry>, interest: map<int, nat>, ready: seq<Ready>)
    requires Registereds(interest, ready) && Within(Stored(interest, ready), |memory|)
    ensures Handed(memory, interest, ready, EventsOf(memory, Stored(interest, ready)))
  {
    forall k | 0 <= k < |ready|
      ensures SameFourBits(ready[k].events, EventFlags(ready[k].events)) && EventFlags(ready[k].events) & !0x1D == 0
      ensures interest[ready[k].fd] < |memory|
    {
      TranslationsKeepBits(ready[k].events);
      assert Stored(interest, ready)[k].slot == interest[ready[k].fd];
    }
  }

  /** One round of a client: poll, then iterate to the end. */
  method PollAndDrain(selector: EPollSelectorImpl, kernel: seq<WaitReturn>)
    returns (r: PollSelector.Result<seq<PollSelector.Event>>)
    requires selector.Valid() && |kernel| >= 3
    requires forall w | w in kernel :: WaitContract(selector.interest, |selector.evlist|, w)
    modifies selector`evlist
    ensures selector.Valid() && selector.View() == old(selector.View())
    ensures match FirstAnswer(kernel, MAX_ATTEMPTS)
            case Interrupted => r == PollSelector.Ok([])
            case Failed(errno) => r == PollSelector.Raised(errno)
            case Returned(ready) =>
              && Registereds(selector.interest, ready)
              && Within(Stored(selector.interest, ready), |selector.storage[..]|)
              && r == PollSelector.Ok(EventsOf(selector.storage[..], Stored(selector.interest, ready)))
    ensures forall i | 0 <= i < 3 && InterruptedUntil(kernel, i) ::
              && (kernel[i].Failed? ==> r == PollSelector.Raised(kernel[i].errno))
              && (kernel[i].Returned? ==>
                    r.Ok? && Handed(selector.storage[..], selector.interest, kernel[i].ready, r.value))
    ensures r == PollSelector.Ok([])
       <==> || InterruptedUntil(kernel, 3)
            || exists i :: 0 <= i < 3 && InterruptedUntil(kernel, i) && kernel[i] == Returned([])
  {
    ThreeAttempts(kernel);
    var range := selector.Poll(kernel);
    if range.Raised? {
      return PollSelector.Raised(range.errno);
    }
    ghost var answer := FirstAnswer(kernel, MAX_ATTEMPTS);
    if answer.Returned? {
      assert selector.evlist[..range.value.count] == Stored(selector.interest, answer.ready);
    }
    var events := Drain(selector, range.value.count);
    r := PollSelector.Ok(events);
    if answer.Returned? {
      EventsAreHanded(selector.storage[..], selector.interest, answer.ready);
    }
  }

  // ---------------------------------------------------------------------------------------
  // Agreement.

  /** The (descriptor, data) pairs in a list of events, in their order. */
  function Pairs(events: seq<PollSelector.Event>): (r: seq<Entry>)
    ensures |r| == |events|
  {
    seq(|events|, i requires 0 <= i < |events| => Entry(events[i].fd, events[i].data))
  }

  function Somes(entries: seq<Entry>): (r: seq<Option<Entry>>)
    ensures |r| == |entries|
  {
    seq(|entries|, i requires 0 <= i < |entries| => Some(entries[i]))
  }

  /** What the stored pointers of the descriptors in `order` designate. */
  function HandedOut(s: Epoll, order: seq<int>): (r: seq<Option<Entry>>)
    ensures |r| == |order|
  {
    seq(|order|, i requires 0 <= i < |order| => if order[i] in s.interest then Designated(s, order[i]) else None)
  }

  predicate NoDuplicates<T(==)>(s: seq<T>) {
    forall i, j | 0 <= i < j < |s| :: s[i] != s[j]
  }

  lemma {:induction false} CountOnce<T>(s: seq<T>, x: T)
    requires NoDuplicates(s)
    ensures multiset(s)[x] == if x in s then 1 else 0
  {
    if s != [] {
      var front, last := s[..|s| - 1], s[|s| - 1];
      assert s == front + [last];
      CountOnce(front, x);
    }
  }

  lemma SameElements<T>(a: seq<T>, b: seq<T>)
    requires NoDuplicates(a) && NoDuplicates(b) && forall x :: x in a <==> x in b
    ensures multiset(a) == multiset(b)
  {
    forall x ensures multiset(a)[x] == multiset(b)[x] {
      CountOnce(a, x);
      CountOnce(b, x);
    }
  }

  predicate ReadyAt<M>(table: seq<Registration<M>>, revents: seq<bv16>, fd: int)
    requires |table| == |revents|
  {
    exists i :: 0 <= i < |table| && revents[i] != 0 && table[i].fd == fd
  }

  /** `order` lists just the descriptors that are ready, once each. */
  ghost predicate ListsReady<M>(table: seq<Registration<M>>, revents: seq<bv16>, order: seq<int>)
    requires |table| == |revents|
  {
    && NoDuplicates(order)
    && (forall i | 0 <= i < |table| && revents[i] != 0 :: table[i].fd in order)
    && (forall fd | fd in order :: ReadyAt(table, revents, fd))
  }

  /** The pairs that the poll back end hands out. */
  function PollPairs<M>(table: seq<Registration<M>>, revents: seq<bv16>): seq<Entry>
    requires |table| == |revents|
  {
    Pairs(PollSelector.Reports(table, revents, |revents|))
  }

  /** What epoll designates in `order` is, up to order, what poll hands out. */
  ghost predicate Agree<M>(ops: seq<Op<M>>, revents: seq<bv16>, order: seq<int>)
    requires |revents| == |Table(ops)|
  {
    multiset(HandedOut(Run(ops), order)) == multiset(Somes(PollPairs(Table(ops), revents)))
  }

  /** The pairs of the poll back end come in the order of their slots. */
  lemma PollPairsAt<M>(table: seq<Registration<M>>, revents: seq<bv16>)
    requires |table| == |revents|
    ensures var ready, pairs := PollSelector.Ready(revents, |revents|), PollPairs(table, revents);
            && |pairs| == |ready|
            && forall k | 0 <= k < |ready| :: ready[k] < |table| && pairs[k] == EntryOf(table[ready[k]])
  {
    PollSelector.ReportsPerReadySlot(table, revents, |revents|);
  }

  lemma PollPairsMembers<M>(table: seq<Registration<M>>, revents: seq<bv16>)
    requires |table| == |revents| && Distinct(table)
    ensures NoDuplicates(PollPairs(table, revents))
    ensures forall i | 0 <= i < |table| && revents[i] != 0 :: EntryOf(table[i]) in PollPairs(table, revents)
    ensures forall e | e in PollPairs(table, revents) ::
              exists i :: 0 <= i < |table| && revents[i] != 0 && EntryOf(table[i]) == e
  {
    var ready, pairs := PollSelector.Ready(revents, |revents|), PollPairs(table, revents);
    PollPairsAt(table, revents);
    PollSelector.ReadyIsExact(revents, |revents|);
    forall i | 0 <= i < |table| && revents[i] != 0 ensures EntryOf(table[i]) in pairs {
      assert i in ready;
      var k :| 0 <= k < |ready| && ready[k] == i;
      assert pairs[k] == EntryOf(table[i]);
    }
    forall e | e in pairs ensures exists i :: 0 <= i < |table| && revents[i] != 0 && EntryOf(table[i]) == e {
      var k :| 0 <= k < |pairs| && pairs[k] == e;
      assert ready[k] in ready;
    }
  }

  /** Up to order, the registrations behind `order` are the pairs of the poll back end. */
  lemma ReadyUpToOrder<M>(table: seq<Registration<M>>, revents: seq<bv16>, order: seq<int>, pairs: seq<Entry>)
    requires |table| == |revents| && Distinct(table) && ListsReady(table, revents, order) && |pairs| == |order|
    requires forall k, i | 0 <= k < |order| && 0 <= i < |table| && table[i].fd == order[k] ::
               pairs[k] == EntryOf(table[i])
    ensures NoDuplicates(pairs)
    ensures forall e :: e in pairs <==> e in PollPairs(table, revents)
  {
    PollPairsMembers(table, revents);
    forall k | 0 <= k < |order| ensures pairs[k].fd == order[k] && pairs[k] in PollPairs(table, revents) {
      assert order[k] in order && ReadyAt(table, revents, order[k]);
    }
    forall e | e in PollPairs(table, revents) ensures e in pairs {
      var i :| 0 <= i < |table| && revents[i] != 0 && EntryOf(table[i]) == e;
      var k :| 0 <= k < |order| && order[k] == table[i].fd;
      assert pairs[k] == e;
    }
  }

  lemma SomesKeep(entries: seq<Entry>)
    requires NoDuplicates(entries)
    ensures NoDuplicates(Somes(entries))
    ensures forall e :: Some(e) in Somes(entries) <==> e in entries
    ensures None !in Somes(entries)
  {
    forall e | e in entries ensures Some(e) in Somes(entries) {
      var i :| 0 <= i < |entries| && entries[i] == e;
      assert Somes(entries)[i] == Some(e);
    }
  }

  lemma SomesUpToOrder(a: seq<Entry>, b: seq<Entry>)
    requires NoDuplicates(a) && NoDuplicates(b) && forall e :: e in a <==> e in b
    ensures multiset(Somes(a)) == multiset(Somes(b))
  {
    SomesKeep(a);
    SomesKeep(b);
    forall x ensures x in Somes(a) <==> x in Somes(b) {
      if x.Some? {
        assert x == Some(x.value);
      }
    }
    SameElements(Somes(a), Somes(b));
  }

  /** The registration of each descriptor in `order`. */
  function Registrants<M>(table: seq<Registration<M>>, order: seq<int>): (r: seq<Entry>)
    requires forall fd | fd in order :: Registered(table, fd)
    ensures |r| == |order|
  {
    seq(|order|, i requires 0 <= i < |order| => EntryOf(table[Index(table, order[i])]))
  }

  lemma ReadyAreRegistered<M>(table: seq<Registration<M>>, revents: seq<bv16>, order: seq<int>)
    requires |table| == |revents| && Distinct(table) && ListsReady(table, revents, order)
    ensures forall fd | fd in order :: Registered(table, fd)
    ensures NoDuplicates(Registrants(table, order)) && NoDuplicates(PollPairs(table, revents))
    ensures forall e :: e in Registrants(table, order) <==> e in PollPairs(table, revents)
  {
    forall fd | fd in order ensures Registered(table, fd) {
      assert ReadyAt(table, revents, fd);
    }
    var pairs := Registrants(table, order);
    forall k, i | 0 <= k < |order| && 0 <= i < |table| && table[i].fd == order[k]
      ensures pairs[k] == EntryOf(table[i])
    {
      IndexIsUnique(table, i);
    }
    ReadyUpToOrder(table, revents, order, pairs);
    PollPairsMembers(table, revents);
  }

  /** While every pointer designates its own entry, epoll designates the registrations themselves. */
  lemma FaithfulHandsOutRegistrants<M>(ops: seq<Op<M>>, order: seq<int>)
    requires DistinctAdds(ops) && Faithful(ops)
    requires forall fd | fd in order :: Registered(Table(ops), fd)
    ensures HandedOut(Run(ops), order) == Somes(Registrants(Table(ops), order))
    ensures forall fd | fd in order :: fd in Run(ops).interest && Designated(Run(ops), fd).Some?
  {
    var table, s := Table(ops), Run(ops);
    forall fd | fd in order ensures fd in s.interest && Designated(s, fd) == Some(EntryOf(table[Index(table, fd)])) {
      ReportedAsItselfIffUnshifted(ops, Index(table, fd));
    }
    forall k | 0 <= k < |order| ensures HandedOut(s, order)[k] == Somes(Registrants(table, order))[k] {
      assert order[k] in order;
    }
  }

  lemma AgreeWhereFaithful<M>(ops: seq<Op<M>>, revents: seq<bv16>, order: seq<int>)
    requires DistinctAdds(ops) && Faithful(ops)
    requires |revents| == |Table(ops)| && ListsReady(Table(ops), revents, order)
    ensures Agree(ops, revents, order)
  {
    RunKeepsInv(ops);
    ReadyAreRegistered(Table(ops), revents, order);
    FaithfulHandsOutRegistrants(ops, order);
    SomesUpToOrder(Registrants(Table(ops), order), PollPairs(Table(ops), revents));
  }

  /** The kernel's answer when just the slot at `i` is ready. */
  function OnlyAt(n: nat, i: nat): (r: seq<bv16>)
    ensures |r| == n
  {
    seq(n, k requires 0 <= k < n => if k == i then PollSelector.POLLIN else 0)
  }

  /** Agreement on a single ready slot makes its pointer designate its own entry. */
  lemma AgreementForcesFaith<M>(ops: seq<Op<M>>, i: nat)
    requires DistinctAdds(ops) && i < |Table(ops)|
    ensures ListsReady(Table(ops), OnlyAt(|Table(ops)|, i), [Table(ops)[i].fd])
    ensures Agree(ops, OnlyAt(|Table(ops)|, i), [Table(ops)[i].fd]) ==> Shift(ops, Table(ops)[i].fd) == 0
  {
    var table, s := Table(ops), Run(ops);
    var revents, order := OnlyAt(|table|, i), [table[i].fd];
    RunKeepsInv(ops);
    assert ReadyAt(table, revents, table[i].fd) by {
      assert revents[i] != 0;
    }
    if Agree(ops, revents, order) {
      ReportedAsItselfIffUnshifted(ops, i);
      var handed, pairs := HandedOut(s, order), PollPairs(table, revents);
      PollPairsMembers(table, revents);
      assert handed == [Designated(s, table[i].fd)];
      assert Designated(s, table[i].fd) in multiset(handed);
      assert Designated(s, table[i].fd) in Somes(pairs);
      var k :| 0 <= k < |pairs| && Somes(pairs)[k] == Designated(s, table[i].fd);
      assert pairs[k] in pairs;
    }
  }

  /**
   After any run of distinct adds and any removes, both back ends hand out the same (descriptor,
   data) pairs, up to order, for every set of ready descriptors exactly when every stored pointer
   designates its own entry.
   */
  lemma BackEndsAgreeIffFaithful<M>(ops: seq<Op<M>>)
    requires DistinctAdds(ops)
    ensures (forall revents, order |
               |revents| == |Table(ops)| && ListsReady(Table(ops), revents, order) :: Agree(ops, revents, order))
       <==> Faithful(ops)
  {
    if Faithful(ops) {
      forall revents, order | |revents| == |Table(ops)| && ListsReady(Table(ops), revents, order)
        ensures Agree(ops, revents, order)
      {
        AgreeWhereFaithful(ops, revents, order);
      }
    }
    forall i | 0 <= i < |Table(ops)|
      ensures ListsReady(Table(ops), OnlyAt(|Table(ops)|, i), [Table(ops)[i].fd])
      ensures Agree(ops, OnlyAt(|Table(ops)|, i), [Table(ops)[i].fd]) ==> Shift(ops, Table(ops)[i].fd) == 0
    {
      AgreementForcesFaith(ops, i);
    }
  }

  /** It is enough that each remove took an absent descriptor or the one registered last. */
  lemma BackEndsAgree<M>(ops: seq<Op<M>>, revents: seq<bv16>, order: seq<int>)
    requires DistinctAdds(ops) && LastOnly(ops)
    requires |revents| == |Table(ops)| && ListsReady(Table(ops), revents, order)
    ensures Agree(ops, revents, order)
  {
    LastOnlyIsFaithful(ops);
    AgreeWhereFaithful(ops, revents, order);
  }

  function Fds(ready: seq<Ready>): (r: seq<int>)
    ensures |r| == |ready|
  {
    seq(|ready|, i requires 0 <= i < |ready| => ready[i].fd)
  }

  /** The same calls, made to two back ends that translate masks differently. */
  predicate SameCalls<M, N>(ops: seq<Op<M>>, others: seq<Op<N>>) {
    |ops| == |others| && forall i | 0 <= i < |ops| :: SameCall(ops[i], others[i])
  }

  predicate SameCall<M, N>(op: Op<M>, other: Op<N>) {
    match (op, other)
    case (Add(a), Add(b)) => EntryOf(a) == EntryOf(b)
    case (Remove(a), Remove(b)) => a == b
    case _ => false
  }

  predicate SameEntries<M, N>(table: seq<Registration<M>>, other: seq<Registration<N>>) {
    |table| == |other| && forall i | 0 <= i < |table| :: EntryOf(table[i]) == EntryOf(other[i])
  }

  lemma {:induction false} WithoutSame<M, N>(table: seq<Registration<M>>, other: seq<Registration<N>>, fd: int)
    requires SameEntries(table, other)
    ensures SameEntries(Without(table, FdOf<M>, fd), Without(other, FdOf<N>, fd))
  {
    if table != [] {
      var last := |table| - 1;
      WithoutSame(table[..last], other[..last], fd);
      assert EntryOf(table[last]) == EntryOf(other[last]);
      assert FdOf(table[last]) == FdOf(other[last]);
    }
  }

  lemma {:induction false} SameCallsSameEntries<M, N>(ops: seq<Op<M>>, others: seq<Op<N>>)
    requires SameCalls(ops, others)
    ensures SameEntries(Table(ops), Table(others))
  {
    if ops != [] {
      var last := |ops| - 1;
      SameCallsSameEntries(ops[..last], others[..last]);
      assert SameCall(ops[last], others[last]);
      if ops[last].Remove? {
        WithoutSame(Table(ops[..last]), Table(others[..last]), ops[last].fd);
      }
    }
  }

  lemma {:induction false} SameEntriesSameReports<M, N>(
      table: seq<Registration<M>>, other: seq<Registration<N>>, revents: seq<bv16>, n: nat)
    requires SameEntries(table, other) && n <= |table| == |revents|
    ensures PollSelector.Reports(table, revents, n) == PollSelector.Reports(other, revents, n)
  {
    if n > 0 {
      SameEntriesSameReports(table, other, revents, n - 1);
      assert EntryOf(table[n - 1]) == EntryOf(other[n - 1]);
    }
  }

  /**
   The same for the events that `PollAndDrain` of the two back ends return after the same calls:
   `memory` is what lies in the epoll back end's reserved vector.
   */
  lemma DrainsAgree<M, N>(
      ops: seq<Op<M>>, others: seq<Op<N>>, revents: seq<bv16>, ready: seq<Ready>, memory: seq<Entry>)
    requires SameCalls(ops, others) && DistinctAdds(ops) && Faithful(ops) && Run(ops).slots <= memory
    requires |revents| == |Table(others)| == |Table(ops)| && ListsReady(Table(ops), revents, Fds(ready))
    ensures Registereds(Run(ops).interest, ready) && Within(Stored(Run(ops).interest, ready), |memory|)
    ensures var epoll := EventsOf(memory, Stored(Run(ops).interest, ready));
            var poll := PollSelector.Reports(Table(others), revents, |revents|);
            |epoll| == |poll| && multiset(Pairs(epoll)) == multiset(Pairs(poll))
  {
    var table, s, order := Table(ops), Run(ops), Fds(ready);
    SameCallsSameEntries(ops, others);
    SameEntriesSameReports(table, Table(others), revents, |revents|);
    RegistrantsInMemory(ops, revents, ready, memory);
    var epoll := EventsOf(memory, Stored(s.interest, ready));
    assert Pairs(epoll) == Registrants(table, order);
    SameElements(Pairs(epoll), PollPairs(table, revents));
    assert |multiset(Pairs(epoll))| == |multiset(PollPairs(table, revents))|;
  }

  lemma RegistrantsInMemory<M>(ops: seq<Op<M>>, revents: seq<bv16>, ready: seq<Ready>, memory: seq<Entry>)
    requires DistinctAdds(ops) && Faithful(ops) && Run(ops).slots <= memory
    requires |revents| == |Table(ops)| && ListsReady(Table(ops), revents, Fds(ready))
    ensures var s, order := Run(ops), Fds(ready);
            && (forall fd | fd in order :: Registered(Table(ops), fd))
            && (forall i | 0 <= i < |ready| ::
                  && ready[i].fd in s.interest && s.interest[ready[i].fd] < |s.slots|
                  && memory[s.interest[ready[i].fd]] == Registrants(Table(ops), order)[i])
            && NoDuplicates(Registrants(Table(ops), order)) && NoDuplicates(PollPairs(Table(ops), revents))
            && forall e :: e in Registrants(Table(ops), order) <==> e in PollPairs(Table(ops), revents)
  {
    var table, s, order := Table(ops), Run(ops), Fds(ready);
    RunKeepsInv(ops);
    ReadyAreRegistered(table, revents, order);
    FaithfulHandsOutRegistrants(ops, order);
    forall i | 0 <= i < |ready|
      ensures ready[i].fd in s.interest && s.interest[ready[i].fd] < |s.slots|
      ensures memory[s.interest[ready[i].fd]] == Registrants(table, order)[i]
    {
      assert order[i] in order;
      assert HandedOut(s, order)[i] == Somes(Registrants(table, order))[i];
    }
  }

  /**
   Removing an entry breaks the report of every later one that was right: it is handed out as
   the entry after it, and the last one as nothing that is still there.
   */
  lemma RemovingEarlierEntryBreaksLaterReports<M>(ops: seq<Op<M>>, k: nat, j: nat)
    requires DistinctAdds(ops) && k < j < |Table(ops)| && Shift(ops, Table(ops)[j].fd) == 0
    ensures var was := Table(ops);
            var s := Run(ops + [Remove(was[k].fd)]);
            && was[j].fd in s.interest
            && Designated(s, was[j].fd) == if j + 1 < |was| then Some(EntryOf(was[j + 1])) else None
  {
    var all := ops + [Remove(Table(ops)[k].fd)];
    LaterEntryAfterRemove(ops, k, j);
    PointerDesignates(all, j - 1);
  }

  lemma RemoveKeepsDistinctAdds<M>(ops: seq<Op<M>>, fd: int)
    requires DistinctAdds(ops)
    ensures DistinctAdds(ops + [Op<M>.Remove(fd)])
  {
    var all := ops + [Op<M>.Remove(fd)];
    assert all[..|all| - 1] == ops;
  }

  lemma TableAfterRemove<M>(ops: seq<Op<M>>, k: nat, j: nat)
    requires Distinct(Table(ops)) && k < j < |Table(ops)|
    ensures var was, table := Table(ops), Table(ops + [Remove(Table(ops)[k].fd)]);
            && |table| == |was| - 1 && table[j - 1] == was[j]
            && (j + 1 < |was| ==> table[j] == was[j + 1])
  {
    RemoveAtTable(ops, k);
    assert Before(j - 1, k) == j && Before(j, k) == j + 1;
  }

  lemma LaterEntryAfterRemove<M>(ops: seq<Op<M>>, k: nat, j: nat)
    requires DistinctAdds(ops) && k < j < |Table(ops)|
    ensures var was := Table(ops);
            var all := ops + [Remove(was[k].fd)];
            && DistinctAdds(all)
            && |Table(all)| == |was| - 1
            && Table(all)[j - 1] == was[j]
            && (j + 1 < |was| ==> Table(all)[j] == was[j + 1])
            && Shift(all, was[j].fd) == Shift(ops, was[j].fd) + 1
  {
    assert Distinct(Table(ops)) by {
      RunKeepsInv(ops);
    }
    RemoveKeepsDistinctAdds(ops, Table(ops)[k].fd);
    TableAfterRemove(ops, k, j);
    RemoveAtShift(ops, k, j);
  }

  lemma TwoAdds<M>(a: Registration<M>, b: Registration<M>)
    requires a.fd != b.fd
    ensures DistinctAdds([Add(a), Add(b)]) && Table([Add(a), Add(b)]) == [a, b] && Shift([Add(a), Add(b)], b.fd) == 0
  {
    assert [Add(a), Add(b)][..1] == [Add(a)] && [Add(a)][..0] == [];
    assert Table([Add(a)]) == [a];
    assert !Registered([a], b.fd);
    assert DistinctAdds([Add(a)]);
  }

  /** A run that loses a registered descriptor: two adds and a remove of the first. */
  lemma SecondIsLost<M>(a: Registration<M>, b: Registration<M>)
    requires a.fd != b.fd
    ensures var ops := [Add(a), Add(b)] + [Remove(a.fd)];
            && DistinctAdds(ops) && |Table(ops)| == 1 && Table(ops)[0] == b
            && b.fd in Run(ops).interest && Designated(Run(ops), b.fd) == None
  {
    TwoAdds(a, b);
    LaterEntryAfterRemove([Add(a), Add(b)], 0, 1);
    RemovingEarlierEntryBreaksLaterReports([Add(a), Add(b)], 0, 1);
  }
}
