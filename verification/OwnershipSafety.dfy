/**
 Descriptor safety: over every run, live valid handles own distinct open descriptors, nothing is
 closed twice or leaked, and created shared memory is unlinked once by its last owner.
 */
module OwnershipSafety {
  import opened Options
  import opened Ownership

  // ---------------------------------------------------------------------------------------
  // Opening.

  lemma {:induction false} LaterNameChangesNothing(
      closed: seq<Closing>, names: map<nat, string>, instance: nat, name: string)
    requires forall c | c in closed :: c.instance != instance
    ensures NamesDestroyed(closed, names[instance := name]) == NamesDestroyed(closed, names)
  {
    if closed != [] {
      assert closed[|closed| - 1] in closed;
      LaterNameChangesNothing(closed[..|closed| - 1], names, instance, name);
    }
  }

  lemma OpenKernel(k: Kernel, fd: int, name: Option<string>)
    requires KernelInv(k) && fd !in k.table
    ensures KernelInv(Open(k, fd, name))
  {
    var v := Open(k, fd, name);
    forall n: nat | n < v.opens ensures IsOpen(v, n) || IsClosed(v, n) {
      if n == k.opens {
        assert v.table[fd] == n;
      } else if IsOpen(k, n) {
        var f :| f in k.table && k.table[f] == n;
        assert v.table[f] == n;
      } else {
        assert IsClosed(k, n);
      }
    }
  }

  lemma OpenOneToOne(w: World, slot: nat, fd: int, h: Handle, name: Option<string>)
    requires OneToOne(w) && slot !in w.live && fd >= 0 && fd !in w.kernel.table && h.fd == fd
    ensures OneToOne(World(Open(w.kernel, fd, name), w.live[slot := h]))
  {
    var v := World(Open(w.kernel, fd, name), w.live[slot := h]);
    forall s, f | Owns(v.live, s, f) ensures f in v.kernel.table && (s != slot ==> Owns(w.live, s, f)) {
      if s != slot {
        assert Owns(w.live, s, f);
      }
    }
    forall f | f in v.kernel.table ensures exists s :: Owns(v.live, s, f) {
      if f == fd {
        assert Owns(v.live, slot, fd);
      } else {
        var s :| Owns(w.live, s, f);
        assert Owns(v.live, s, f);
      }
    }
  }

  lemma OpenHandles(w: World, slot: nat, fd: int, h: Handle, name: Option<string>)
    requires Inv(w) && slot !in w.live && fd >= 0 && fd !in w.kernel.table && h.fd == fd
    requires match h
             case File(_) => name.None?
             case Buffered(_, stream) => name.None? && stream == Some(fd)
             case Shared(_, path) => path == name
    ensures var v := World(Open(w.kernel, fd, name), w.live[slot := h]);
            OnlySharedAreNamed(v) && forall s | s in v.live :: HandleInv(v.kernel, v.live[s])
  {
    var v := World(Open(w.kernel, fd, name), w.live[slot := h]);
    assert w.kernel.opens !in w.kernel.names;
    forall s | s in v.live ensures HandleInv(v.kernel, v.live[s]) {
      if s != slot {
        assert HandleInv(w.kernel, w.live[s]);
        if v.live[s].fd != INVALID_FD {
          assert Owns(w.live, s, v.live[s].fd);
        }
      }
    }
    forall s, f | Owns(v.live, s, f) && f in v.kernel.table && !v.live[s].Shared?
      ensures v.kernel.table[f] !in v.kernel.names
    {
      if s != slot {
        assert Owns(w.live, s, f);
      }
    }
  }

  lemma OpenKeepsInv(w: World, slot: nat, fd: int, h: Handle, name: Option<string>)
    requires Inv(w) && slot !in w.live && fd >= 0 && fd !in w.kernel.table && h.fd == fd
    requires match h
             case File(_) => name.None?
             case Buffered(_, stream) => name.None? && stream == Some(fd)
             case Shared(_, path) => path == name
    ensures Inv(World(Open(w.kernel, fd, name), w.live[slot := h]))
  {
    OpenKernel(w.kernel, fd, name);
    OpenOneToOne(w, slot, fd, h, name);
    OpenHandles(w, slot, fd, h, name);
    if name.Some? {
      LaterNameChangesNothing(w.kernel.closed, w.kernel.names, w.kernel.opens, name.value);
    }
  }

  // ---------------------------------------------------------------------------------------
  // Moving and swapping.

  /** Where a slot's handle came from when two slots trade places. */
  function Traded(slot: nat, a: nat, b: nat): nat {
    if slot == a then b else if slot == b then a else slot
  }

  lemma TradeKeepsInv(w: World, v: World, a: nat, b: nat)
    requires Inv(w) && v.kernel == w.kernel
    requires forall s, fd :: Owns(v.live, s, fd) <==> Owns(w.live, Traded(s, a, b), fd)
    requires forall s, fd | Owns(v.live, s, fd) :: v.live[s] == w.live[Traded(s, a, b)]
    requires forall s | s in v.live :: v.live[s].fd == INVALID_FD ==> HandleInv(v.kernel, v.live[s])
    ensures Inv(v)
  {
    forall fd | fd in v.kernel.table ensures fd >= 0 && exists s :: Owns(v.live, s, fd) {
      var s :| Owns(w.live, s, fd);
      assert Owns(v.live, Traded(s, a, b), fd);
    }
    forall s | s in v.live ensures HandleInv(v.kernel, v.live[s]) {
      if v.live[s].fd != INVALID_FD {
        assert Owns(v.live, s, v.live[s].fd);
        assert HandleInv(w.kernel, w.live[Traded(s, a, b)]);
      }
    }
  }

  lemma SwapKeepsInv(w: World, a: nat, b: nat)
    requires Inv(w) && Enabled(w, Swap(a, b))
    ensures Inv(Step(w, Swap(a, b)))
  {
    forall s | s in w.live ensures HandleInv(w.kernel, w.live[s]) {
    }
    TradeKeepsInv(w, Step(w, Swap(a, b)), a, b);
  }

  lemma MoveKeepsInv(w: World, slot: nat, from: nat)
    requires Inv(w) && Enabled(w, MoveConstruct(slot, from))
    ensures Inv(Step(w, MoveConstruct(slot, from)))
  {
    forall s | s in w.live ensures HandleInv(w.kernel, w.live[s]) {
    }
    TradeKeepsInv(w, Step(w, MoveConstruct(slot, from)), slot, from);
  }

  // ---------------------------------------------------------------------------------------
  // Closing.

  lemma CloseAccounts(k: Kernel, fd: int, destroyed: bool)
    requires KernelInv(k) && fd in k.table
    ensures forall n: nat | n < k.opens :: IsOpen(Close(k, fd, destroyed), n) || IsClosed(Close(k, fd, destroyed), n)
  {
    var v := Close(k, fd, destroyed);
    forall n: nat | n < k.opens ensures IsOpen(v, n) || IsClosed(v, n) {
      if n == k.table[fd] {
        assert v.closed[|k.closed|].instance == n;
      } else if IsOpen(k, n) {
        var f :| f in k.table && k.table[f] == n;
        assert v.table[f] == n;
      } else {
        var i :| 0 <= i < |k.closed| && k.closed[i].instance == n;
        assert v.closed[i].instance == n;
      }
    }
  }

  lemma CloseKernel(k: Kernel, fd: int, destroyed: bool)
    requires KernelInv(k) && fd in k.table
    ensures KernelInv(Close(k, fd, destroyed))
  {
    var v := Close(k, fd, destroyed);
    CloseAccounts(k, fd, destroyed);
    assert |v.table| == |k.table| - 1 by {
      assert v.table.Keys == k.table.Keys - {fd};
    }
    forall c | c in v.closed ensures c.instance < v.opens {
      if c !in k.closed {
        assert c == Closing(k.table[fd], destroyed);
      }
    }
    forall i, j | 0 <= i < j < |v.closed| ensures v.closed[i].instance != v.closed[j].instance {
      if j == |k.closed| {
        assert k.closed[i].instance != k.table[fd];
      }
    }
  }

  /** Slot `slot` gives up its descriptor, by staying with an invalid one or by going away. */
  lemma CloseOneToOne(w: World, v: World, slot: nat, fd: int)
    requires OneToOne(w) && Owns(w.live, slot, fd)
    requires v.kernel.table == w.kernel.table - {fd}
    requires slot in v.live ==> v.live[slot].fd == INVALID_FD
    requires forall s | s != slot :: (s in v.live <==> s in w.live) && (s in w.live ==> v.live[s] == w.live[s])
    ensures OneToOne(v)
  {
    forall s, f | Owns(v.live, s, f) ensures f in v.kernel.table && Owns(w.live, s, f) {
      assert Owns(w.live, s, f);
    }
    forall f | f in v.kernel.table ensures f >= 0 && exists s :: Owns(v.live, s, f) {
      var s :| Owns(w.live, s, f);
      assert Owns(v.live, s, f);
    }
  }

  lemma CloseHandles(w: World, v: World, slot: nat, fd: int)
    requires Inv(w) && Owns(w.live, slot, fd)
    requires v.kernel.table == w.kernel.table - {fd} && v.kernel.names == w.kernel.names
    requires slot in v.live ==> v.live[slot].fd == INVALID_FD && HandleInv(v.kernel, v.live[slot])
    requires forall s | s != slot :: (s in v.live <==> s in w.live) && (s in w.live ==> v.live[s] == w.live[s])
    ensures OnlySharedAreNamed(v) && forall s | s in v.live :: HandleInv(v.kernel, v.live[s])
  {
    forall s | s in v.live ensures HandleInv(v.kernel, v.live[s]) {
      if s != slot {
        assert HandleInv(w.kernel, w.live[s]);
      }
    }
    forall s, f | Owns(v.live, s, f) && f in v.kernel.table && !v.live[s].Shared?
      ensures v.kernel.table[f] !in v.kernel.names
    {
      assert Owns(w.live, s, f);
    }
  }

  lemma CloseNames(k: Kernel, fd: int, destroyed: bool)
    requires fd in k.table
    ensures var v, n := Close(k, fd, destroyed), k.table[fd];
            NamesDestroyed(v.closed, v.names)
            == NamesDestroyed(k.closed, k.names) + (if destroyed && n in k.names then [k.names[n]] else [])
  {
    var v := Close(k, fd, destroyed);
    assert v.closed[..|v.closed| - 1] == k.closed;
  }

  /** A handle that owns a descriptor closes just that one. */
  lemma ClosesItsOwn(k: Kernel, h: Handle)
    requires HandleInv(k, h) && h.fd != INVALID_FD
    ensures CloseOf(k, h).0 == Close(k, h.fd, false) && CloseOf(k, h).1.fd == INVALID_FD
    ensures CloseOf(k, h).1.Buffered? ==> CloseOf(k, h).1.stream == None
    ensures DestroyOf(k, h)
         == if h.Shared? && h.path.Some? then Unlink(Close(k, h.fd, true), h.path.value) else Close(k, h.fd, true)
  {
  }

  lemma CloseKeepsInv(w: World, slot: nat)
    requires Inv(w) && slot in w.live
    ensures Inv(Step(w, CloseHandle(slot)))
  {
    var v, h, fd := Step(w, CloseHandle(slot)), w.live[slot], w.live[slot].fd;
    assert HandleInv(w.kernel, h);
    if fd == INVALID_FD {
      assert v == w;
    } else {
      assert Owns(w.live, slot, fd);
      ClosesItsOwn(w.kernel, h);
      CloseKernel(w.kernel, fd, false);
      CloseOneToOne(w, v, slot, fd);
      CloseHandles(w, v, slot, fd);
      CloseNames(w.kernel, fd, false);
    }
  }

  lemma UnlinkKernel(k: Kernel, name: string)
    requires KernelInv(k)
    ensures KernelInv(Unlink(k, name))
  {
    forall n: nat | n < k.opens ensures IsOpen(Unlink(k, name), n) || IsClosed(Unlink(k, name), n) {
      assert IsOpen(k, n) || IsClosed(k, n);
    }
  }

  lemma DestroyOwned(w: World, slot: nat)
    requires Inv(w) && slot in w.live && w.live[slot].fd != INVALID_FD
    ensures Inv(Step(w, Destroy(slot)))
  {
    var v, h, fd := Step(w, Destroy(slot)), w.live[slot], w.live[slot].fd;
    assert HandleInv(w.kernel, h);
    assert Owns(w.live, slot, fd);
    ClosesItsOwn(w.kernel, h);
    CloseKernel(w.kernel, fd, true);
    if h.Shared? && h.path.Some? {
      UnlinkKernel(Close(w.kernel, fd, true), h.path.value);
    }
    CloseOneToOne(w, v, slot, fd);
    CloseHandles(w, v, slot, fd);
    CloseNames(w.kernel, fd, true);
  }

  lemma DestroyInvalid(w: World, slot: nat)
    requires Inv(w) && slot in w.live && w.live[slot].fd == INVALID_FD
    ensures Inv(Step(w, Destroy(slot)))
  {
    var v := Step(w, Destroy(slot));
    assert HandleInv(w.kernel, w.live[slot]);
    assert v.kernel == w.kernel;
    TradeKeepsInv(w, v, slot, slot);
  }

  // ---------------------------------------------------------------------------------------
  // Runs.

  lemma StepKeepsInv(w: World, e: Event)
    requires Inv(w) && Enabled(w, e)
    ensures Inv(Step(w, e))
  {
    match e
    case OpenFile(slot, fd) => OpenKeepsInv(w, slot, fd, File(fd), None);
    case OpenBuffered(slot, fd) => OpenKeepsInv(w, slot, fd, Buffered(fd, Some(fd)), None);
    case CreateShared(slot, fd, name) => OpenKeepsInv(w, slot, fd, Shared(fd, Some(name)), Some(name));
    case OpenShared(slot, fd) => OpenKeepsInv(w, slot, fd, Shared(fd, None), None);
    case MoveConstruct(slot, from) => MoveKeepsInv(w, slot, from);
    case Swap(slot, with) => SwapKeepsInv(w, slot, with);
    case CloseHandle(slot) => CloseKeepsInv(w, slot);
    case Destroy(slot) =>
      if w.live[slot].fd == INVALID_FD {
        DestroyInvalid(w, slot);
      } else {
        DestroyOwned(w, slot);
      }
  }

  lemma {:induction false} RunKeepsInv(w: World, es: seq<Event>)
    requires Inv(w) && Feasible(w, es)
    ensures Inv(Run(w, es))
    decreases es
  {
    if es != [] {
      StepKeepsInv(w, es[0]);
      RunKeepsInv(Step(w, es[0]), es[1..]);
    }
  }

  lemma OwnersAreDistinct(w: World)
    requires OneToOne(w)
    ensures forall s | s in w.live && w.live[s].fd != INVALID_FD :: w.live[s].fd in w.kernel.table
    ensures forall s, t | s in w.live && t in w.live && s != t && w.live[s].fd != INVALID_FD ::
              w.live[s].fd != w.live[t].fd
    ensures forall fd | fd in w.kernel.table :: exists s :: s in w.live && w.live[s].fd == fd
  {
    forall s | s in w.live && w.live[s].fd != INVALID_FD ensures Owns(w.live, s, w.live[s].fd) {
    }
    forall fd | fd in w.kernel.table ensures exists s :: s in w.live && w.live[s].fd == fd {
      var s :| Owns(w.live, s, fd);
    }
  }

  /** Live valid handles own pairwise distinct descriptors, all open, and no other is open. */
  lemma DistinctOwners(es: seq<Event>)
    requires Feasible(EMPTY, es)
    ensures var w := Run(EMPTY, es);
            && (forall s | s in w.live && w.live[s].fd != INVALID_FD :: w.live[s].fd in w.kernel.table)
            && (forall s, t | s in w.live && t in w.live && s != t && w.live[s].fd != INVALID_FD ::
                  w.live[s].fd != w.live[t].fd)
            && (forall fd | fd in w.kernel.table :: exists s :: s in w.live && w.live[s].fd == fd)
  {
    RunKeepsInv(EMPTY, es);
    OwnersAreDistinct(Run(EMPTY, es));
  }

  lemma OpenMeansOwned(w: World)
    requires OneToOne(w)
    ensures w.live == map[] ==> w.kernel.table == map[]
  {
    forall fd ensures fd in w.kernel.table ==> exists s :: s in w.live {
      if fd in w.kernel.table {
        var s :| Owns(w.live, s, fd);
        assert s in w.live;
      }
    }
    assert w.live == map[] ==> forall fd :: fd !in w.kernel.table;
  }

  /**
   Every close hits an open descriptor, no instance is closed twice, and opens are exactly the
   instances closed so far and those still open; with no handle left, all have been closed.
   */
  lemma ClosedOnceAndNoLeak(es: seq<Event>)
    requires Feasible(EMPTY, es)
    ensures var k := Run(EMPTY, es).kernel;
            && k.faults == 0
            && (forall i, j | 0 <= i < j < |k.closed| :: k.closed[i].instance != k.closed[j].instance)
            && |k.table| + |k.closed| == k.opens
            && (Run(EMPTY, es).live == map[] ==>
                  k.table == map[] && forall n: nat | n < k.opens :: IsClosed(k, n))
  {
    RunKeepsInv(EMPTY, es);
    OpenMeansOwned(Run(EMPTY, es));
  }

  /** Through any moves and swaps a created name stays with the descriptor it was created with. */
  lemma NameStaysWithDescriptor(es: seq<Event>, slot: nat)
    requires Feasible(EMPTY, es) && slot in Run(EMPTY, es).live
    requires Run(EMPTY, es).live[slot].Shared? && Run(EMPTY, es).live[slot].fd != INVALID_FD
    ensures var w := Run(EMPTY, es);
            var h := w.live[slot];
            && h.fd in w.kernel.table
            && h.path == if w.kernel.table[h.fd] in w.kernel.names
                         then Some(w.kernel.names[w.kernel.table[h.fd]]) else None
  {
    RunKeepsInv(EMPTY, es);
    var w := Run(EMPTY, es);
    assert Owns(w.live, slot, w.live[slot].fd);
    assert HandleInv(w.kernel, w.live[slot]);
  }

  /** A created segment's descriptor carries its name from the start, an opened one's carries none. */
  lemma OnlyCreatedAreNamed(w: World, slot: nat, fd: int, name: string)
    requires Inv(w) && slot !in w.live && fd >= 0 && fd !in w.kernel.table
    ensures var c := Step(w, CreateShared(slot, fd, name));
            && c.live[slot] == Shared(fd, Some(name)) && fd in c.kernel.table
            && c.kernel.table[fd] in c.kernel.names && c.kernel.names[c.kernel.table[fd]] == name
    ensures var o := Step(w, OpenShared(slot, fd));
            o.live[slot] == Shared(fd, None) && fd in o.kernel.table && o.kernel.table[fd] !in o.kernel.names
  {
  }

  /**
   Destroying the owner of a named descriptor unlinks that name; closing unlinks nothing, and
   neither does destroying the handle afterwards.
   */
  lemma DestroyUnlinksCloseDoesNot(es: seq<Event>, slot: nat)
    requires Feasible(EMPTY, es) && slot in Run(EMPTY, es).live
    requires Run(EMPTY, es).live[slot].Shared? && Run(EMPTY, es).live[slot].fd != INVALID_FD
    ensures var w := Run(EMPTY, es);
            var h, k := w.live[slot], w.kernel;
            && h.fd in k.table
            && Step(w, Destroy(slot)).kernel.unlinked
               == k.unlinked + (if k.table[h.fd] in k.names then [k.names[k.table[h.fd]]] else [])
            && var c := Step(w, CloseHandle(slot));
               && c.live[slot].fd == INVALID_FD && h.fd !in c.kernel.table
               && c.kernel.unlinked == k.unlinked && Step(c, Destroy(slot)).kernel.unlinked == k.unlinked
  {
    NameStaysWithDescriptor(es, slot);
  }

  /**
   The names unlinked are, in order, those of the created instances that a destructor ended, and
   none for an instance that close() ended. No instance ends twice, so it is once each.
   */
  lemma UnlinkedByLastOwner(es: seq<Event>)
    requires Feasible(EMPTY, es)
    ensures var k := Run(EMPTY, es).kernel;
            && k.unlinked == NamesDestroyed(k.closed, k.names)
            && forall i, j | 0 <= i < j < |k.closed| :: k.closed[i].instance != k.closed[j].instance
  {
    RunKeepsInv(EMPTY, es);
  }
}
