/**
 What the epoll back end's stored pointers designate.

 Registering hands the kernel a pointer into a vector, modelled by the index of its slot. The
 vector was reserved for the expected number of entries, so within that capacity a push never
 moves it; a remove, though, shifts the later entries down while their pointers stay.
 */
module EpollTable {
  import opened Options
  import opened Registrations

  /** The vector, and for every descriptor in the epoll set the slot its pointer names. */
  datatype Epoll = Epoll(slots: seq<Entry>, interest: map<int, nat>)

  function EntryOf<M>(r: Registration<M>): Entry {
    Entry(r.fd, r.data)
  }

  function SlotFd(e: Entry): int {
    e.fd
  }

  function Step<M>(s: Epoll, op: Op<M>): Epoll {
    match op
    case Add(entry) => Epoll(s.slots + [EntryOf(entry)], s.interest[entry.fd := |s.slots|])
    case Remove(fd) => Epoll(Without(s.slots, SlotFd, fd), s.interest - {fd})
  }

  function Run<M>(ops: seq<Op<M>>): Epoll {
    if ops == [] then Epoll([], map[]) else Step(Run(ops[..|ops| - 1]), ops[|ops| - 1])
  }

  /** What following the kernel's pointer for `fd` yields; past the end nothing is there. */
  function Designated(s: Epoll, fd: int): Option<Entry>
    requires fd in s.interest
  {
    if s.interest[fd] < |s.slots| then Some(s.slots[s.interest[fd]]) else None
  }

  // ---------------------------------------------------------------------------------------
  // Tables of distinct descriptors.

  predicate Registered<M>(table: seq<Registration<M>>, fd: int) {
    exists i :: 0 <= i < |table| && table[i].fd == fd
  }

  predicate Distinct<M>(table: seq<Registration<M>>) {
    forall i, j | 0 <= i < j < |table| :: table[i].fd != table[j].fd
  }

  function Index<M>(table: seq<Registration<M>>, fd: int): (i: nat)
    requires Registered(table, fd)
    ensures i < |table| && table[i].fd == fd
  {
    var last := |table| - 1;
    if table[last].fd == fd then last else Index(table[..last], fd)
  }

  lemma IndexIsUnique<M>(table: seq<Registration<M>>, i: nat)
    requires Distinct(table) && i < |table|
    ensures Index(table, table[i].fd) == i
  {
  }

  lemma AbsentFromFront<M>(table: seq<Registration<M>>, fd: int)
    requires !Registered(table, fd) && table != []
    ensures !Registered(table[..|table| - 1], fd) && table[|table| - 1].fd != fd
  {
    assert forall i | 0 <= i < |table| - 1 :: table[..|table| - 1][i] == table[i];
    assert table[|table| - 1].fd == fd ==> Registered(table, fd);
  }

  lemma {:induction false} WithoutAbsent<M>(table: seq<Registration<M>>, fd: int)
    requires !Registered(table, fd)
    ensures Without(table, FdOf<M>, fd) == table
  {
    if table != [] {
      AbsentFromFront(table, fd);
      WithoutAbsent(table[..|table| - 1], fd);
      WithoutLast(table, FdOf<M>, fd);
    }
  }

  lemma {:induction false} WithoutAt<M>(table: seq<Registration<M>>, k: nat)
    requires Distinct(table) && k < |table|
    ensures Without(table, FdOf<M>, table[k].fd) == table[..k] + table[k + 1..]
  {
    var last := |table| - 1;
    assert FdOf(table[last]) == table[last].fd;
    if k == last {
      assert !Registered(table[..last], table[k].fd);
      WithoutAbsent(table[..last], table[k].fd);
      assert table[k + 1..] == [];
    } else {
      WithoutAt(table[..last], k);
      assert table[..last][..k] == table[..k];
      assert table[..last][k + 1..] + [table[last]] == table[k + 1..];
    }
  }

  lemma {:induction false} WithoutSlots<M>(table: seq<Registration<M>>, slots: seq<Entry>, fd: int)
    requires |slots| == |table| && forall i | 0 <= i < |slots| :: slots[i] == EntryOf(table[i])
    ensures |Without(slots, SlotFd, fd)| == |Without(table, FdOf<M>, fd)|
    ensures forall i | 0 <= i < |Without(slots, SlotFd, fd)| ::
              Without(slots, SlotFd, fd)[i] == EntryOf(Without(table, FdOf<M>, fd)[i])
  {
    if slots != [] {
      var last := |slots| - 1;
      WithoutSlots(table[..last], slots[..last], fd);
      assert SlotFd(slots[last]) == FdOf(table[last]);
    }
  }

  // ---------------------------------------------------------------------------------------
  // Every run of distinct adds.

  /** No add names a descriptor that is registered at that moment. */
  predicate DistinctAdds<M>(ops: seq<Op<M>>) {
    ops == [] || (
      var front, op := ops[..|ops| - 1], ops[|ops| - 1];
      DistinctAdds(front) && (op.Add? ==> !Registered(Table(front), op.entry.fd)))
  }

  /** How many entries registered before `fd` have been removed since `fd` was added. */
  function Shift<M>(ops: seq<Op<M>>, fd: int): nat {
    if ops == [] then 0
    else
      var front, op := ops[..|ops| - 1], ops[|ops| - 1];
      match op
      case Add(entry) => if entry.fd == fd then 0 else Shift(front, fd)
      case Remove(gone) => Shift(front, fd) + (if Earlier(Table(front), gone, fd) then 1 else 0)
  }

  predicate Earlier<M>(table: seq<Registration<M>>, first: int, second: int) {
    Registered(table, first) && Registered(table, second) && Index(table, first) < Index(table, second)
  }

  ghost predicate TableInv<M>(ops: seq<Op<M>>, s: Epoll) {
    var table := Table(ops);
    && Distinct(table)
    && |s.slots| == |table|
    && (forall i | 0 <= i < |table| :: s.slots[i] == EntryOf(table[i]))
    && (forall fd :: fd in s.interest <==> Registered(table, fd))
    && (forall i | 0 <= i < |table| ::
          table[i].fd in s.interest && s.interest[table[i].fd] == i + Shift(ops, table[i].fd))
  }

  lemma AddKeepsInv<M>(ops: seq<Op<M>>, s: Epoll, entry: Registration<M>)
    requires TableInv(ops, s) && !Registered(Table(ops), entry.fd)
    ensures TableInv(ops + [Add(entry)], Step(s, Op<M>.Add(entry)))
  {
    var all := ops + [Add(entry)];
    var t := Step(s, Op<M>.Add(entry));
    assert all[..|all| - 1] == ops;
    var was, table := Table(ops), Table(all);
    assert table == was + [entry];
    forall fd ensures fd in t.interest <==> Registered(table, fd) {
      if fd == entry.fd {
        assert table[|was|].fd == fd;
      } else if Registered(was, fd) {
        assert table[Index(was, fd)].fd == fd;
      }
    }
    forall i | 0 <= i < |table| ensures
      table[i].fd in t.interest && t.interest[table[i].fd] == i + Shift(all, table[i].fd)
    {
      if i < |was| {
        assert table[i] == was[i];
      }
    }
  }

  lemma RemoveAbsentKeepsInv<M>(ops: seq<Op<M>>, s: Epoll, fd: int)
    requires TableInv(ops, s) && !Registered(Table(ops), fd)
    ensures TableInv(ops + [Remove(fd)], Step(s, Op<M>.Remove(fd)))
  {
    var all := ops + [Remove(fd)];
    assert all[..|all| - 1] == ops;
    WithoutAbsent(Table(ops), fd);
    WithoutSlots(Table(ops), s.slots, fd);
    assert fd !in s.interest;
  }

  /** Where the entries of the table after a remove at `k` were before it. */
  function Before(i: nat, k: nat): nat {
    if i < k then i else i + 1
  }

  lemma RemoveAtTable<M>(ops: seq<Op<M>>, k: nat)
    requires Distinct(Table(ops)) && k < |Table(ops)|
    ensures var was, table := Table(ops), Table(ops + [Remove(Table(ops)[k].fd)]);
            && |table| == |was| - 1 && Distinct(table)
            && forall i | 0 <= i < |table| :: table[i] == was[Before(i, k)]
  {
    var was := Table(ops);
    var all := ops + [Remove(was[k].fd)];
    assert all[..|all| - 1] == ops;
    WithoutAt(was, k);
    assert Table(all) == was[..k] + was[k + 1..];
  }

  lemma RemoveAtRegistered<M>(was: seq<Registration<M>>, table: seq<Registration<M>>, k: nat, fd: int)
    requires Distinct(was) && k < |was| && |table| == |was| - 1
    requires forall i | 0 <= i < |table| :: table[i] == was[Before(i, k)]
    ensures Registered(table, fd) <==> Registered(was, fd) && fd != was[k].fd
  {
    if Registered(was, fd) && fd != was[k].fd {
      var i := Index(was, fd);
      assert table[if i < k then i else i - 1].fd == fd;
    }
    if Registered(table, fd) {
      assert was[Before(Index(table, fd), k)].fd == fd;
    }
  }

  lemma RemoveAtShift<M>(ops: seq<Op<M>>, k: nat, j: nat)
    requires Distinct(Table(ops)) && k < |Table(ops)| && j < |Table(ops)| && j != k
    ensures var was := Table(ops);
            Shift(ops + [Remove(was[k].fd)], was[j].fd) == Shift(ops, was[j].fd) + (if k < j then 1 else 0)
  {
    var was := Table(ops);
    var all := ops + [Remove(was[k].fd)];
    assert all[..|all| - 1] == ops;
    IndexIsUnique(was, k);
    IndexIsUnique(was, j);
  }

  lemma RemoveAtKeepsInv<M>(ops: seq<Op<M>>, s: Epoll, k: nat)
    requires TableInv(ops, s) && k < |Table(ops)|
    ensures var fd := Table(ops)[k].fd; TableInv(ops + [Remove(fd)], Step(s, Op<M>.Remove(fd)))
  {
    var was, fd := Table(ops), Table(ops)[k].fd;
    var all := ops + [Remove(fd)];
    assert all[..|all| - 1] == ops;
    WithoutSlots(was, s.slots, fd);
    RemoveAtTable(ops, k);
    var table := Table(all);
    forall g ensures g in s.interest - {fd} <==> Registered(table, g) {
      RemoveAtRegistered(was, table, k, g);
    }
    forall i | 0 <= i < |table| ensures
      table[i].fd in s.interest - {fd} && (s.interest - {fd})[table[i].fd] == i + Shift(all, table[i].fd)
    {
      RemoveAtShift(ops, k, Before(i, k));
    }
  }

  lemma {:induction false} RunKeepsInv<M>(ops: seq<Op<M>>)
    requires DistinctAdds(ops)
    ensures TableInv(ops, Run(ops))
  {
    if ops != [] {
      var front, op := ops[..|ops| - 1], ops[|ops| - 1];
      RunKeepsInv(front);
      assert front + [op] == ops;
      match op
      case Add(entry) => AddKeepsInv(front, Run(front), entry);
      case Remove(fd) =>
        if Registered(Table(front), fd) {
          RemoveAtKeepsInv(front, Run(front), Index(Table(front), fd));
        } else {
          RemoveAbsentKeepsInv(front, Run(front), fd);
        }
    }
  }

  /**
   The shift law, for every run of distinct adds and any removes: the pointer for the entry at
   position `i` designates the entry that many places further on as entries before it have been
   removed since it was added, and nothing if the table ends before that.
   */
  lemma PointerDesignates<M>(ops: seq<Op<M>>, i: nat)
    requires DistinctAdds(ops) && i < |Table(ops)|
    ensures var table, s := Table(ops), Run(ops);
            var at := i + Shift(ops, table[i].fd);
            && table[i].fd in s.interest
            && Designated(s, table[i].fd) == if at < |table| then Some(EntryOf(table[at])) else None
  {
    RunKeepsInv(ops);
  }

  /** A descriptor is reported as itself exactly when nothing before it has been removed. */
  lemma ReportedAsItselfIffUnshifted<M>(ops: seq<Op<M>>, i: nat)
    requires DistinctAdds(ops) && i < |Table(ops)|
    ensures var table, s := Table(ops), Run(ops);
            && table[i].fd in s.interest
            && (Designated(s, table[i].fd) == Some(EntryOf(table[i])) <==> Shift(ops, table[i].fd) == 0)
  {
    RunKeepsInv(ops);
    PointerDesignates(ops, i);
  }

  /** Every registered descriptor is reported as itself. */
  ghost predicate Faithful<M>(ops: seq<Op<M>>) {
    forall i | 0 <= i < |Table(ops)| :: Shift(ops, Table(ops)[i].fd) == 0
  }

  lemma RemoveAbsentKeepsFaithful<M>(ops: seq<Op<M>>, fd: int)
    requires Faithful(ops) && !Registered(Table(ops), fd)
    ensures Faithful(ops + [Remove(fd)])
  {
    var all := ops + [Remove(fd)];
    assert all[..|all| - 1] == ops;
    WithoutAbsent(Table(ops), fd);
    forall i | 0 <= i < |Table(all)| ensures Shift(all, Table(all)[i].fd) == 0 {
      assert Table(all)[i] == Table(ops)[i];
    }
  }

  lemma RemoveAtKeepsFaithfulIff<M>(ops: seq<Op<M>>, k: nat)
    requires Distinct(Table(ops)) && Faithful(ops) && k < |Table(ops)|
    ensures Faithful(ops + [Remove(Table(ops)[k].fd)]) <==> k == |Table(ops)| - 1
  {
    var was := Table(ops);
    var all := ops + [Remove(was[k].fd)];
    RemoveAtTable(ops, k);
    forall i | 0 <= i < |Table(all)|
      ensures Table(all)[i] == was[Before(i, k)]
      ensures Shift(all, Table(all)[i].fd) == if k < Before(i, k) then 1 else 0
    {
      RemoveAtShift(ops, k, Before(i, k));
    }
    if k < |was| - 1 {
      assert Shift(all, Table(all)[k].fd) == 1;
    }
  }

  /** A remove keeps all reports right exactly when it takes an absent or the last descriptor. */
  lemma RemoveKeepsFaithfulIff<M>(ops: seq<Op<M>>, fd: int)
    requires DistinctAdds(ops) && Faithful(ops)
    ensures Faithful(ops + [Remove(fd)])
       <==> !Registered(Table(ops), fd) || Index(Table(ops), fd) == |Table(ops)| - 1
  {
    if Registered(Table(ops), fd) {
      assert Distinct(Table(ops)) by {
        RunKeepsInv(ops);
      }
      RemoveAtKeepsFaithfulIff(ops, Index(Table(ops), fd));
    } else {
      RemoveAbsentKeepsFaithful(ops, fd);
    }
  }

  /** Every remove takes a descriptor that is not registered or the one registered last. */
  predicate LastOnly<M>(ops: seq<Op<M>>) {
    ops == [] || (
      var front, op := ops[..|ops| - 1], ops[|ops| - 1];
      && LastOnly(front)
      && (op.Remove? && Registered(Table(front), op.fd) ==>
            Index(Table(front), op.fd) == |Table(front)| - 1))
  }

  lemma {:induction false} LastOnlyIsFaithful<M>(ops: seq<Op<M>>)
    requires DistinctAdds(ops) && LastOnly(ops)
    ensures Faithful(ops)
  {
    if ops != [] {
      var front, op := ops[..|ops| - 1], ops[|ops| - 1];
      LastOnlyIsFaithful(front);
      assert front + [op] == ops;
      match op
      case Add(entry) =>
        forall i | 0 <= i < |Table(ops)| ensures Shift(ops, Table(ops)[i].fd) == 0 {
          if i < |Table(front)| {
            assert Table(ops)[i] == Table(front)[i];
          }
        }
      case Remove(fd) => RemoveKeepsFaithfulIff(front, fd);
    }
  }
}
