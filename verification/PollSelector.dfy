/**
 The poll(2) back end: two parallel vectors, and an iterator that skips slots that are not ready.

 The vectors' sizes are taken to fit the 32-bit size type.
 */
module PollSelector {
  import opened Registrations

  // Selector::Events.
  const READ: bv32 := 0x001
  const WRITE: bv32 := 0x004
  const ERROR: bv32 := 0x008
  const HUP: bv32 := 0x010

  // <poll.h> on Linux.
  const POLLIN: bv16 := 0x001
  const POLLPRI: bv16 := 0x002
  const POLLOUT: bv16 := 0x004
  const POLLERR: bv16 := 0x008
  const POLLHUP: bv16 := 0x010
  const POLLNVAL: bv16 := 0x020
  const POLLRDHUP: bv16 := 0x2000

  datatype PollFd = PollFd(fd: int, events: bv16, revents: bv16)

  /** What the user gets for one ready slot. */
  datatype Event = Event(fd: int, events: bv32, data: nat)

  /** One return of poll(2): an error, or what it stored in each revents. */
  datatype PollReturn = Failed(errno: int) | Returned(revents: seq<bv16>)

  datatype Result<+T> = Ok(value: T) | Raised(errno: int)

  datatype Range = Range(firstReady: nat, count: nat)

  function PollMask(events: bv32): bv16 {
    (if events & READ != 0 then POLLIN | POLLPRI else 0)
    | (if events & WRITE != 0 then POLLOUT else 0)
    | (if events & HUP != 0 then POLLRDHUP else 0)
  }

  function EventFlags(revents: bv16): bv32 {
    (if revents & POLLIN != 0 || revents & POLLPRI != 0 then READ else 0)
    | (if revents & POLLOUT != 0 then WRITE else 0)
    | (if revents & POLLERR != 0 then ERROR else 0)
    | (if revents & POLLRDHUP != 0 then HUP else 0)
  }

  /** What the flags of an event tell of the kernel's answer: Read, Write, Error and Hup, bit by bit. */
  predicate Tells(revents: bv16, flags: bv32) {
    && (flags & 0x01 != 0 <==> revents & 0x0003 != 0)
    && (flags & 0x04 != 0 <==> revents & 0x0004 != 0)
    && (flags & 0x08 != 0 <==> revents & 0x0008 != 0)
    && (flags & 0x10 != 0 <==> revents & 0x2000 != 0)
    && flags & !0x1D == 0
  }

  lemma FlagsTell(revents: bv16)
    ensures Tells(revents, EventFlags(revents))
  {
  }

  /** What a mask requests for a selection: reading with urgent data, writing, and the peer's hang-up. */
  predicate Requests(events: bv32, mask: bv16) {
    && (mask & 0x0001 != 0 <==> events & 0x01 != 0)
    && (mask & 0x0002 != 0 <==> events & 0x01 != 0)
    && (mask & 0x0004 != 0 <==> events & 0x04 != 0)
    && (mask & 0x2000 != 0 <==> events & 0x10 != 0)
    && mask & !0x2007 == 0
  }

  lemma MaskRequests(events: bv32)
    ensures Requests(events, PollMask(events))
  {
  }

  /** IEEE Std 1003.1: only requested events and the three unrequested ones; none if fd < 0. */
  predicate Conforms(p: PollFd, revents: bv16) {
    && revents & !(p.events | POLLERR | POLLHUP | POLLNVAL) == 0
    && (p.fd < 0 ==> revents == 0)
  }

  predicate PollContract(fds: seq<PollFd>, r: PollReturn) {
    r.Returned? ==> |r.revents| == |fds| && forall i | 0 <= i < |fds| :: Conforms(fds[i], r.revents[i])
  }

  // ---------------------------------------------------------------------------------------
  // Ready slots.

  /** The indices below `n` with a non-zero answer. */
  function Ready(revents: seq<bv16>, n: nat): seq<nat>
    requires n <= |revents|
  {
    if n == 0 then [] else Ready(revents, n - 1) + (if revents[n - 1] != 0 then [n - 1] else [])
  }

  lemma {:induction false} ReadyMembers(revents: seq<bv16>, n: nat)
    requires n <= |revents|
    ensures forall i: nat :: i in Ready(revents, n) <==> i < n && revents[i] != 0
  {
    if n > 0 {
      ReadyMembers(revents, n - 1);
      forall i: nat ensures i in Ready(revents, n) <==> i < n && revents[i] != 0 {
        assert i in Ready(revents, n) <==> i in Ready(revents, n - 1) || (i == n - 1 && revents[n - 1] != 0);
      }
    }
  }

  lemma {:induction false} ReadyAscends(revents: seq<bv16>, n: nat)
    requires n <= |revents|
    ensures Ascending(Ready(revents, n))
  {
    if n > 0 {
      ReadyAscends(revents, n - 1);
      ReadyMembers(revents, n - 1);
      var front := Ready(revents, n - 1);
      forall i | 0 <= i < |front| ensures front[i] < n - 1 {
        assert front[i] in front;
      }
    }
  }

  /** Ready slots come once each, in ascending order, and are exactly the non-zero ones. */
  lemma ReadyIsExact(revents: seq<bv16>, n: nat)
    requires n <= |revents|
    ensures Ascending(Ready(revents, n))
    ensures forall i: nat :: i in Ready(revents, n) <==> i < n && revents[i] != 0
  {
    ReadyMembers(revents, n);
    ReadyAscends(revents, n);
  }

  /** What iterating should hand out: one event per ready slot, in registration order. */
  function Reports<M>(table: seq<Registration<M>>, revents: seq<bv16>, n: nat): seq<Event>
    requires n <= |table| == |revents|
  {
    if n == 0 then []
    else
      Reports(table, revents, n - 1)
      + (if revents[n - 1] != 0
         then [Event(table[n - 1].fd, EventFlags(revents[n - 1]), table[n - 1].data)]
         else [])
  }

  lemma {:induction false} ReportsPerReadySlot<M>(table: seq<Registration<M>>, revents: seq<bv16>, n: nat)
    requires n <= |table| == |revents|
    ensures |Reports(table, revents, n)| == |Ready(revents, n)|
    ensures forall k | 0 <= k < |Ready(revents, n)| ::
              var slot := Ready(revents, n)[k];
              slot < n && Reports(table, revents, n)[k]
                       == Event(table[slot].fd, EventFlags(revents[slot]), table[slot].data)
  {
    if n > 0 {
      ReportsPerReadySlot(table, revents, n - 1);
    }
  }

  /** The k-th report is that of the k-th ready slot, and its flags tell of that slot's answer. */
  lemma ReportsTell<M>(table: seq<Registration<M>>, revents: seq<bv16>)
    requires |table| == |revents|
    ensures var reports, ready := Reports(table, revents, |revents|), Ready(revents, |revents|);
            && |reports| == |ready|
            && forall k | 0 <= k < |ready| ::
                 && ready[k] < |table| && reports[k].fd == table[ready[k]].fd
                 && reports[k].data == table[ready[k]].data && Tells(revents[ready[k]], reports[k].events)
  {
    ReportsPerReadySlot(table, revents, |revents|);
    var ready := Ready(revents, |revents|);
    forall k | 0 <= k < |ready| && ready[k] < |revents|
      ensures Tells(revents[ready[k]], EventFlags(revents[ready[k]]))
    {
      FlagsTell(revents[ready[k]]);
    }
  }

  /** Slots between two reported ones are silent, so skipping them loses no report. */
  lemma {:induction false} SilentSlotsAddNothing<M>(table: seq<Registration<M>>, revents: seq<bv16>, from: nat, to: nat)
    requires from <= to <= |table| == |revents|
    requires forall i | from <= i < to :: revents[i] == 0
    ensures Reports(table, revents, to) == Reports(table, revents, from)
  {
    if from < to {
      SilentSlotsAddNothing(table, revents, from, to - 1);
    }
  }

  /** A mask that `add` makes from some selection, as opposed to a raw one. */
  ghost predicate FromAdd(mask: bv16) {
    exists events: bv32 :: mask == PollMask(events)
  }

  /** Nothing but a hang-up or an invalid descriptor, neither of which is translated. */
  predicate OnlyUntranslated(revents: bv16) {
    revents & !(POLLHUP | POLLNVAL) == 0
  }

  /** Whatever is selected, the kernel may answer with a hang-up alone, and that gives no flag. */
  lemma NoSelectionPreventsSilence(events: bv32, fd: int, was: bv16)
    requires fd >= 0
    ensures Conforms(PollFd(fd, PollMask(events), was), POLLHUP) && EventFlags(POLLHUP) == 0
    ensures Conforms(PollFd(fd, PollMask(events), was), POLLNVAL) && EventFlags(POLLNVAL) == 0
  {
  }

  lemma FlaglessIff(p: PollFd, revents: bv16)
    requires FromAdd(p.events) && Conforms(p, revents)
    ensures EventFlags(revents) == 0 <==> OnlyUntranslated(revents)
  {
    var events: bv32 :| p.events == PollMask(events);
    assert p.events & !(POLLIN | POLLPRI | POLLOUT | POLLRDHUP) == 0;
  }

  /** Every report of the slots below `n` carries a flag exactly when none of them is silent. */
  lemma {:induction false} ReportsCarryFlagsIff(
      fds: seq<PollFd>, table: seq<Registration<bv16>>, revents: seq<bv16>, n: nat)
    requires n <= |fds| == |table| == |revents|
    requires forall i | 0 <= i < n :: table[i].mask == fds[i].events
    requires forall i | 0 <= i < n :: FromAdd(fds[i].events) && Conforms(fds[i], revents[i])
    ensures (forall e | e in Reports(table, revents, n) :: e.events != 0)
       <==> (forall i | 0 <= i < n && revents[i] != 0 :: !OnlyUntranslated(revents[i]))
  {
    if n > 0 {
      ReportsCarryFlagsIff(fds, table, revents, n - 1);
      FlaglessIff(fds[n - 1], revents[n - 1]);
      var front, all := Reports(table, revents, n - 1), Reports(table, revents, n);
      if revents[n - 1] != 0 {
        var last := Event(table[n - 1].fd, EventFlags(revents[n - 1]), table[n - 1].data);
        assert all == front + [last];
        assert last in all && forall e | e in front :: e in all;
      }
    }
  }

  /**
   A kernel that keeps its contract never makes the selector report a flag that was not selected,
   other than an error; and when every requested condition holds, just the selected flags come out.
   */
  lemma ReportsWhatWasSelected(events: bv32, fd: int, was: bv16, revents: bv16)
    requires Conforms(PollFd(fd, PollMask(events), was), revents)
    ensures EventFlags(revents) & !(events | ERROR) == 0
    ensures EventFlags(PollMask(events)) == events & (READ | WRITE | HUP)
  {
  }

  // ---------------------------------------------------------------------------------------
  // The object.

  class PollSelectorImpl {
    var selectables: seq<Entry>
    var pollfds: seq<PollFd>

    /** The two vectors are tightly coupled. */
    ghost predicate Valid()
      reads this
    {
      Aligned(selectables, pollfds)
    }

    ghost function View(): seq<Registration<bv16>>
      reads this
      requires Valid()
    {
      Zip(selectables, pollfds)
    }

    ghost function Revents(): seq<bv16>
      reads this
    {
      seq(|pollfds|, i requires 0 <= i < |pollfds| reads this => pollfds[i].revents)
    }

    constructor ()
      ensures Valid() && View() == Table<bv16>([])
    {
      selectables, pollfds := [], [];
    }

    /** `add` of a descriptor with a mask of Selector::Events. */
    method AddFd(fd: int, events: bv32, data: nat)
      requires Valid()
      modifies this
      ensures Valid() && View() == Apply(old(View()), Add(Registration(fd, PollMask(events), data)))
      ensures Requests(events, PollMask(events))
    {
      var pollEvents: bv16 := 0;
      if events & READ != 0 {
        pollEvents := pollEvents | POLLIN | POLLPRI;
      }
      if events & WRITE != 0 {
        pollEvents := pollEvents | POLLOUT;
      }
      if events & HUP != 0 {
        pollEvents := pollEvents | POLLRDHUP;
      }
      AddRaw(fd, pollEvents as bv32, data);
      assert (pollEvents as bv32 & 0xFFFF) as bv16 == pollEvents;
      MaskRequests(events);
    }

    /** A native mask is cut to the 16 bits of a pollfd. */
    method AddRaw(fd: int, nativeEvents: bv32, data: nat)
      requires Valid()
      modifies this
      ensures Valid()
      ensures View() == Apply(old(View()), Add(Registration(fd, (nativeEvents & 0xFFFF) as bv16, data)))
    {
      selectables := selectables + [Entry(fd, data)];
      pollfds := pollfds + [PollFd(fd, (nativeEvents & 0xFFFF) as bv16, 0)];
    }

    method RemoveFd(fd: int)
      requires Valid()
      modifies this
      ensures Valid() && View() == Apply(old(View()), Remove(fd))
    {
      FilteringKeepsAlignment(selectables, pollfds, fd);
      selectables := RemoveIf(selectables, EntryFd, fd);
      pollfds := RemoveIf(pollfds, PollFdFd, fd);
    }

    /** Ask the kernel, then stand on the first ready slot. */
    method Poll(kernel: PollReturn) returns (r: Result<Range>)
      requires Valid() && PollContract(pollfds, kernel)
      modifies this
      ensures Valid() && View() == old(View())
      ensures kernel.Failed? ==> r == Raised(kernel.errno)
      ensures kernel.Returned? ==>
                && Revents() == kernel.revents && r.Ok?
                && (Ready(Revents(), |pollfds|) == [] ==> r.value.firstReady == r.value.count)
                && (Ready(Revents(), |pollfds|) != [] ==>
                      r.value == Range(Ready(Revents(), |pollfds|)[0], |pollfds|))
    {
      if kernel.Failed? {
        return Raised(kernel.errno);
      }
      ghost var was := View();
      var fds := pollfds;
      pollfds := seq(|fds|, i requires 0 <= i < |fds| => fds[i].(revents := kernel.revents[i]));
      assert Revents() == kernel.revents;
      assert View() == was;
      ReadyIsExact(Revents(), |pollfds|);
      var count := CountReady();
      if count == 0 {
        return Ok(Range(0, 0));
      }
      var first := FindFirstReady(0, |pollfds|);
      ghost var ready := Ready(Revents(), |pollfds|);
      assert ready[0] in ready;
      assert first in ready;
      r := Ok(Range(first, |pollfds|));
    }

    /** The number poll(2) returns: how many slots have a non-zero answer. */
    method CountReady() returns (count: nat)
      ensures count == |Ready(Revents(), |pollfds|)|
    {
      count := 0;
      for i := 0 to |pollfds|
        invariant count == |Ready(Revents(), i)|
      {
        if pollfds[i].revents != 0 {
          count := count + 1;
        }
      }
    }

    method FindFirstReady(offset: nat, pollCount: nat) returns (i: nat)
      requires pollCount == |pollfds|
      ensures offset <= i || i == pollCount
      ensures i <= pollCount
      ensures forall j | offset <= j < i :: Revents()[j] == 0
      ensures i < pollCount ==> Revents()[i] != 0
    {
      i := offset;
      while i < pollCount
        invariant offset <= i
        invariant forall j | offset <= j < i && j < pollCount :: Revents()[j] == 0
      {
        if pollfds[i].revents != 0 {
          return;
        }
        i := i + 1;
      }
      i := pollCount;
    }

    method GetEvent(i: nat) returns (e: Event)
      requires Valid() && i < |pollfds|
      ensures e == Event(View()[i].fd, EventFlags(Revents()[i]), View()[i].data)
    {
      var p, s := pollfds[i], selectables[i];
      var flags: bv32 := 0;
      if p.revents & POLLIN != 0 || p.revents & POLLPRI != 0 {
        flags := flags | READ;
      }
      if p.revents & POLLOUT != 0 {
        flags := flags | WRITE;
      }
      if p.revents & POLLERR != 0 {
        flags := flags | ERROR;
      }
      if p.revents & POLLRDHUP != 0 {
        flags := flags | HUP;
      }
      e := Event(s.fd, flags, s.data);
    }

    /** The next ready slot after `offset`, or the number of slots. */
    method Advance(offset: nat) returns (i: nat)
      ensures i <= |pollfds|
      ensures offset < i || i == |pollfds|
      ensures forall j | offset < j < i :: Revents()[j] == 0
      ensures i < |pollfds| ==> Revents()[i] != 0
    {
      if offset >= |pollfds| {
        return |pollfds|;
      }
      i := FindFirstReady(offset + 1, |pollfds|);
    }
  }

  function EntryFd(e: Entry): int {
    e.fd
  }

  function PollFdFd(p: PollFd): int {
    p.fd
  }

  predicate Aligned(a: seq<Entry>, b: seq<PollFd>) {
    |a| == |b| && forall i | 0 <= i < |a| :: a[i].fd == b[i].fd
  }

  function Zip(a: seq<Entry>, b: seq<PollFd>): (r: seq<Registration<bv16>>)
    requires |a| == |b|
    ensures |r| == |a|
  {
    seq(|a|, i requires 0 <= i < |a| => Registration(a[i].fd, b[i].events, a[i].data))
  }

  lemma ZipAppend(a: seq<Entry>, b: seq<PollFd>, e: Entry, p: PollFd)
    requires |a| == |b|
    ensures Zip(a + [e], b + [p]) == Zip(a, b) + [Registration(e.fd, p.events, e.data)]
  {
  }

  /** Filtering the two vectors one after the other is filtering the table they stand for. */
  lemma {:induction false} FilteringKeepsAlignment(a: seq<Entry>, b: seq<PollFd>, fd: int)
    requires Aligned(a, b)
    ensures Aligned(Without(a, EntryFd, fd), Without(b, PollFdFd, fd))
    ensures Zip(Without(a, EntryFd, fd), Without(b, PollFdFd, fd)) == Without(Zip(a, b), FdOf<bv16>, fd)
  {
    if a != [] {
      var n := |a| - 1;
      FilteringKeepsAlignment(a[..n], b[..n], fd);
      WithoutLast(a, EntryFd, fd);
      WithoutLast(b, PollFdFd, fd);
      WithoutLast(Zip(a, b), FdOf<bv16>, fd);
      assert Zip(a, b)[..n] == Zip(a[..n], b[..n]);
      if a[n].fd != fd {
        ZipAppend(Without(a[..n], EntryFd, fd), Without(b[..n], PollFdFd, fd), a[n], b[n]);
      }
    }
  }

  // ---------------------------------------------------------------------------------------
  // Iterating.

  class Iterator {
    const selector: PollSelectorImpl
    var index: nat
    const size: nat

    constructor (impl: PollSelectorImpl, range: Range)
      ensures selector == impl && index == range.firstReady && size == range.count
    {
      selector := impl;
      index, size := range.firstReady, range.count;
    }

    /** `operator++`: false stands for the out-of-range exception. */
    method Next() returns (ok: bool)
      modifies this
      ensures ok <==> old(index) < size
      ensures !ok ==> index == old(index)
      ensures ok ==>
                && index <= |selector.pollfds|
                && (old(index) < index || index == |selector.pollfds|)
                && (forall j | old(index) < j < index :: selector.Revents()[j] == 0)
                && (index < |selector.pollfds| ==> selector.Revents()[index] != 0)
    {
      ok := index < size;
      if ok {
        index := selector.Advance(index);
      }
    }
  }

  /**
   Walk an iterator from `poll` to its end, as a client does: the events are the reports of the
   ready slots, in registration order, and stepping on from the end throws.
   */
  method Drain(selector: PollSelectorImpl, range: Range) returns (events: seq<Event>)
    requires selector.Valid()
    requires Ready(selector.Revents(), |selector.pollfds|) == [] ==> range.firstReady == range.count
    requires Ready(selector.Revents(), |selector.pollfds|) != [] ==>
               range == Range(Ready(selector.Revents(), |selector.pollfds|)[0], |selector.pollfds|)
    ensures events == Reports(selector.View(), selector.Revents(), |selector.pollfds|)
    ensures |events| == |Ready(selector.Revents(), |selector.pollfds|)|
  {
    ReportsPerReadySlot(selector.View(), selector.Revents(), |selector.pollfds|);
    var it := new Iterator(selector, range);
    events := [];
    ghost var n := |selector.pollfds|;
    ghost var table, revents := selector.View(), selector.Revents();
    FirstReportIsAhead(table, revents);
    while it.index != it.size
      invariant it.index <= it.size
      invariant it.size == n || it.index == it.size
      invariant it.index < it.size ==> revents[it.index] != 0
      invariant events == Reports(table, revents, if it.index == it.size then n else it.index)
      decreases it.size - it.index
    {
      ghost var was := it.index;
      var e := selector.GetEvent(it.index);
      events := events + [e];
      var ok := it.Next();
      assert selector.Revents() == revents;
      NextReport(table, revents, was, it.index);
    }
    var past := it.Next();
    assert !past;
  }

  /**
   One round of a client: poll, then iterate to the end. It gets the reports of exactly the slots
   the kernel answered, as many as poll(2) counted, and the table is as it was. Where no mask was
   added raw, all events carry a flag exactly when no slot was answered with hang-up or invalid
   alone.
   */
  method PollAndDrain(selector: PollSelectorImpl, kernel: PollReturn) returns (r: Result<seq<Event>>)
    requires selector.Valid() && PollContract(selector.pollfds, kernel)
    modifies selector
    ensures selector.Valid() && selector.View() == old(selector.View())
    ensures kernel.Failed? ==> r == Raised(kernel.errno)
    ensures kernel.Returned? ==>
              && r.Ok? && |kernel.revents| == |selector.View()|
              && r.value == Reports(selector.View(), kernel.revents, |kernel.revents|)
              && |r.value| == |Ready(kernel.revents, |kernel.revents|)|
    ensures kernel.Returned? ==>
              forall k | 0 <= k < |r.value| ::
                var slot := Ready(kernel.revents, |kernel.revents|)[k];
                && slot < |selector.View()|
                && r.value[k].fd == selector.View()[slot].fd && r.value[k].data == selector.View()[slot].data
                && Tells(kernel.revents[slot], r.value[k].events)
    ensures kernel.Returned? && (forall x | x in selector.View() :: FromAdd(x.mask)) ==>
              ((forall e | e in r.value :: e.events != 0)
               <==> forall i | 0 <= i < |kernel.revents| && kernel.revents[i] != 0 ::
                      !OnlyUntranslated(kernel.revents[i]))
  {
    ghost var table, fds := selector.View(), selector.pollfds;
    var range := selector.Poll(kernel);
    if range.Raised? {
      return Raised(range.errno);
    }
    var events := Drain(selector, range.value);
    ReportsTell(table, kernel.revents);
    if forall x | x in table :: FromAdd(x.mask) {
      forall i | 0 <= i < |table| ensures FromAdd(fds[i].events) {
        assert table[i] in table;
      }
      ReportsCarryFlagsIff(fds, table, kernel.revents, |fds|);
    }
    r := Ok(events);
  }

  lemma NextReport<M>(table: seq<Registration<M>>, revents: seq<bv16>, slot: nat, next: nat)
    requires slot < next <= |table| == |revents| && revents[slot] != 0
    requires forall i | slot < i < next :: revents[i] == 0
    ensures Reports(table, revents, next)
         == Reports(table, revents, slot) + [Event(table[slot].fd, EventFlags(revents[slot]), table[slot].data)]
  {
    SilentSlotsAddNothing(table, revents, slot + 1, next);
  }

  /** Where `poll` starts the iterator, nothing has been passed over. */
  lemma FirstReportIsAhead<M>(table: seq<Registration<M>>, revents: seq<bv16>)
    requires |table| == |revents|
    ensures var ready := Ready(revents, |revents|);
            if ready == [] then Reports(table, revents, |revents|) == []
            else ready[0] < |revents| && revents[ready[0]] != 0 && Reports(table, revents, ready[0]) == []
  {
    ReadyIsExact(revents, |revents|);
    ReportsPerReadySlot(table, revents, |revents|);
    var ready := Ready(revents, |revents|);
    if ready != [] {
      assert ready[0] in ready;
      SilentBefore(revents, |revents|);
      SilentSlotsAddNothing(table, revents, 0, ready[0]);
    }
  }

  /** Nothing before the first ready slot is ready. */
  lemma SilentBefore(revents: seq<bv16>, n: nat)
    requires n <= |revents| && Ready(revents, n) != []
    ensures forall i | 0 <= i < Ready(revents, n)[0] && i < n :: revents[i] == 0
  {
    ReadyIsExact(revents, n);
    var ready := Ready(revents, n);
    forall i | i in ready ensures ready[0] <= i {
      var k :| 0 <= k < |ready| && ready[k] == i;
    }
  }
}
