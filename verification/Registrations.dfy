/**
 What a selector stands for: a table of registrations in the order they were added.

 Data pointers are opaque and named by numbers. The event mask keeps the type its back end uses.
 */
module Registrations {

  datatype Entry = Entry(fd: int, data: nat)

  datatype Registration<M> = Registration(fd: int, mask: M, data: nat)

  datatype Op<M> = Add(entry: Registration<M>) | Remove(fd: int)

  /** What is left of a list when every element for `fd` is taken out. */
  function Without<T>(v: seq<T>, fdOf: T -> int, fd: int): seq<T> {
    if v == [] then []
    else
      var last := v[|v| - 1];
      Without(v[..|v| - 1], fdOf, fd) + (if fdOf(last) == fd then [] else [last])
  }

  lemma WithoutLast<T>(v: seq<T>, fdOf: T -> int, fd: int)
    requires v != []
    ensures var front, last := v[..|v| - 1], v[|v| - 1];
            Without(v, fdOf, fd) == Without(front, fdOf, fd) + (if fdOf(last) == fd then [] else [last])
  {
  }

  /** The indices of the elements that stay. */
  function Kept<T>(v: seq<T>, fdOf: T -> int, fd: int): seq<nat> {
    if v == [] then []
    else
      var last := |v| - 1;
      Kept(v[..last], fdOf, fd) + (if fdOf(v[last]) == fd then [] else [last])
  }

  ghost predicate Ascending(s: seq<nat>) {
    forall i, j :: 0 <= i < j < |s| ==> s[i] < s[j]
  }

  /**
   Filtering keeps exactly the elements for other descriptors, each as it was, in their order.
   */
  lemma {:induction false} WithoutKeepsOthersInOrder<T>(v: seq<T>, fdOf: T -> int, fd: int)
    ensures var kept := Kept(v, fdOf, fd);
            && Ascending(kept)
            && (forall i: nat :: i in kept <==> i < |v| && fdOf(v[i]) != fd)
            && |Without(v, fdOf, fd)| == |kept|
            && forall k | 0 <= k < |kept| :: kept[k] < |v| && Without(v, fdOf, fd)[k] == v[kept[k]]
  {
    if v != [] {
      var last := |v| - 1;
      WithoutKeepsOthersInOrder(v[..last], fdOf, fd);
      var front, kept := Kept(v[..last], fdOf, fd), Kept(v, fdOf, fd);
      forall i: nat ensures i in kept <==> i < |v| && fdOf(v[i]) != fd {
        assert i in kept <==> i in front || (i == last && fdOf(v[last]) != fd);
        if i < last {
          assert v[..last][i] == v[i];
        }
      }
      forall k | 0 <= k < |kept| ensures kept[k] < |v| && Without(v, fdOf, fd)[k] == v[kept[k]] {
        if k < |front| {
          assert front[k] in front;
        }
      }
    }
  }

  /** `std::remove_if` by descriptor followed by `erase`: compact in place, then cut the tail. */
  method RemoveIf<T>(v: seq<T>, fdOf: T -> int, fd: int) returns (r: seq<T>)
    ensures r == Without(v, fdOf, fd)
  {
    r := v;
    var write, read := 0, 0;
    while read < |r|
      invariant 0 <= write <= read <= |r| == |v|
      invariant r[..write] == Without(v[..read], fdOf, fd)
      invariant r[read..] == v[read..]
    {
      assert r[read] == r[read..][0] == v[read..][0] == v[read];
      assert v[..read + 1][..read] == v[..read];
      if fdOf(r[read]) != fd {
        r := r[write := r[read]];
        write := write + 1;
      }
      assert v[read + 1..] == v[read..][1..];
      read := read + 1;
    }
    assert v[..read] == v;
    r := r[..write];
  }

  // ---------------------------------------------------------------------------------------
  // Runs of add and remove.

  function FdOf<M>(r: Registration<M>): int {
    r.fd
  }

  function Apply<M>(table: seq<Registration<M>>, op: Op<M>): seq<Registration<M>> {
    match op
    case Add(entry) => table + [entry]
    case Remove(fd) => Without(table, FdOf<M>, fd)
  }

  function Table<M>(ops: seq<Op<M>>): seq<Registration<M>> {
    if ops == [] then [] else Apply(Table(ops[..|ops| - 1]), ops[|ops| - 1])
  }

  /** The add at `i` was not undone by a later remove of its descriptor. */
  predicate Stands<M(==)>(ops: seq<Op<M>>, i: nat)
    requires i < |ops|
  {
    ops[i].Add? && forall j | i < j < |ops| && ops[j].Remove? :: ops[j].fd != ops[i].entry.fd
  }

  /** The adds among the first `n` operations that stand at the end of all of them. */
  function Standing<M(==)>(ops: seq<Op<M>>, n: nat): seq<Registration<M>>
    requires n <= |ops|
  {
    if n == 0 then []
    else Standing(ops, n - 1) + (if Stands(ops, n - 1) then [ops[n - 1].entry] else [])
  }

  lemma {:induction false} StandingAfterAdd<M>(ops: seq<Op<M>>, op: Op<M>, n: nat)
    requires n <= |ops| && op.Add?
    ensures Standing(ops + [op], n) == Standing(ops, n)
  {
    if n > 0 {
      StandingAfterAdd(ops, op, n - 1);
      assert Stands(ops + [op], n - 1) <==> Stands(ops, n - 1) by {
        if Stands(ops, n - 1) {
          forall j | n - 1 < j < |ops + [op]| && (ops + [op])[j].Remove?
            ensures (ops + [op])[j].fd != ops[n - 1].entry.fd
          {
            assert (ops + [op])[j] == ops[j];
          }
        }
        if Stands(ops + [op], n - 1) {
          forall j | n - 1 < j < |ops| && ops[j].Remove? ensures ops[j].fd != ops[n - 1].entry.fd {
            assert (ops + [op])[j] == ops[j];
          }
        }
      }
    }
  }

  lemma {:induction false} StandingAfterRemove<M>(ops: seq<Op<M>>, op: Op<M>, n: nat)
    requires n <= |ops| && op.Remove?
    ensures Standing(ops + [op], n) == Without(Standing(ops, n), FdOf<M>, op.fd)
  {
    if n > 0 {
      StandingAfterRemove(ops, op, n - 1);
      var all, i := ops + [op], n - 1;
      assert Stands(all, i) <==> Stands(ops, i) && ops[i].entry.fd != op.fd by {
        if Stands(ops, i) && ops[i].entry.fd != op.fd {
          forall j | i < j < |all| && all[j].Remove? ensures all[j].fd != ops[i].entry.fd {
            if j < |ops| {
              assert all[j] == ops[j];
            }
          }
        }
        if Stands(all, i) {
          assert all[|ops|] == op;
          forall j | i < j < |ops| && ops[j].Remove? ensures ops[j].fd != ops[i].entry.fd {
            assert all[j] == ops[j];
          }
        }
      }
      var was := Standing(ops, n);
      assert all[i] == ops[i];
      if Stands(ops, i) {
        assert was == Standing(ops, i) + [ops[i].entry];
        assert was[..|was| - 1] == Standing(ops, i);
        assert FdOf(was[|was| - 1]) == ops[i].entry.fd;
      } else {
        assert Standing(all, n) == Standing(all, i);
        assert was == Standing(ops, i);
      }
    }
  }

  /**
   After any run, the table holds exactly the registrations whose descriptor no later remove
   named, in the order they were added.
   */
  lemma {:induction false} TableIsWhatStands<M>(ops: seq<Op<M>>)
    ensures Table(ops) == Standing(ops, |ops|)
  {
    if ops != [] {
      var front, op := ops[..|ops| - 1], ops[|ops| - 1];
      TableIsWhatStands(front);
      assert front + [op] == ops;
      if op.Add? {
        StandingAfterAdd(front, op, |front|);
      } else {
        StandingAfterRemove(front, op, |front|);
      }
    }
  }
}
