/**
 Who owns which file descriptor, over every run of the handle types' operations.

 Handles sit in numbered slots. A Duplex is two File slots, and each of its operations is
 the run of File operations its two ends go through. The kernel keeps its table of open descriptors
 and, for the proofs, gives every successful open an instance number of its own, because the
 numbers of closed descriptors come back.
 */
module Ownership {
  import opened Options

  const INVALID_FD := -1

  /** What ended an instance: a call to close(), or a destructor. */
  datatype Closing = Closing(instance: nat, destroyed: bool)

  /**
   `names` maps an instance to the shared-memory name it was created with. `unlinked` logs the
   names given to shm_unlink; `faults` counts closes of descriptors that were not open.
   */
  datatype Kernel = Kernel(
    table: map<int, nat>,
    opens: nat,
    closed: seq<Closing>,
    names: map<nat, string>,
    unlinked: seq<string>,
    faults: nat)

  /** A BufferedFile is a File with a stream on top; the stream closes the descriptor. */
  datatype Handle =
    | File(fd: int)
    | Buffered(fd: int, stream: Option<int>)
    | Shared(fd: int, path: Option<string>)

  datatype World = World(kernel: Kernel, live: map<nat, Handle>)

  /** A move assignment is a swap in every one of these classes. */
  datatype Event =
    | OpenFile(slot: nat, fd: int)
    | OpenBuffered(slot: nat, fd: int)
    | CreateShared(slot: nat, fd: int, name: string)
    | OpenShared(slot: nat, fd: int)
    | MoveConstruct(slot: nat, from: nat)
    | Swap(slot: nat, with: nat)
    | CloseHandle(slot: nat)
    | Destroy(slot: nat)

  const EMPTY_KERNEL := Kernel(map[], 0, [], map[], [], 0)
  const EMPTY := World(EMPTY_KERNEL, map[])

  // ---------------------------------------------------------------------------------------
  // The kernel.

  function Open(k: Kernel, fd: int, name: Option<string>): Kernel {
    k.(table := k.table[fd := k.opens],
       opens := k.opens + 1,
       names := if name.Some? then k.names[k.opens := name.value] else k.names)
  }

  function Close(k: Kernel, fd: int, destroyed: bool): Kernel {
    if fd in k.table
    then k.(table := k.table - {fd}, closed := k.closed + [Closing(k.table[fd], destroyed)])
    else k.(faults := k.faults + 1)
  }

  function Unlink(k: Kernel, name: string): Kernel {
    k.(unlinked := k.unlinked + [name])
  }

  // ---------------------------------------------------------------------------------------
  // The handle types.

  /** close() of each type; an invalid File does nothing, an invalid SharedMemory throws. */
  function CloseOf(k: Kernel, h: Handle): (Kernel, Handle) {
    match h
    case File(fd) =>
      if fd == INVALID_FD then (k, h) else (Close(k, fd, false), File(INVALID_FD))
    case Buffered(fd, stream) =>
      (if stream.Some? then Close(k, stream.value, false) else k, Buffered(INVALID_FD, None))
    case Shared(fd, path) =>
      if fd == INVALID_FD then (k, h) else (Close(k, fd, false), Shared(INVALID_FD, path))
  }

  /** The destructors; the one of SharedMemory also unlinks the name it was created with. */
  function DestroyOf(k: Kernel, h: Handle): Kernel {
    match h
    case File(fd) => if fd == INVALID_FD then k else Close(k, fd, true)
    case Buffered(fd, stream) => if stream.Some? then Close(k, stream.value, true) else k
    case Shared(fd, path) =>
      if fd == INVALID_FD then k
      else if path.Some? then Unlink(Close(k, fd, true), path.value)
      else Close(k, fd, true)
  }

  /** close() of a Duplex: the read end, then the write end. */
  function ClosePairOf(k: Kernel, input: Handle, output: Handle): (Kernel, Handle, Handle) {
    var (mid, i) := CloseOf(k, input);
    var (end, o) := CloseOf(mid, output);
    (end, i, o)
  }

  /** The destructor of a Duplex: its members in reverse order. */
  function DestroyPairOf(k: Kernel, input: Handle, output: Handle): Kernel {
    DestroyOf(DestroyOf(k, output), input)
  }

  /** What a move constructor leaves behind; BufferedFile's is declared but not defined. */
  function Emptied(h: Handle): Handle
    requires !h.Buffered?
  {
    if h.File? then File(INVALID_FD) else Shared(INVALID_FD, None)
  }

  predicate SameType(g: Handle, h: Handle) {
    g.File? == h.File? && g.Buffered? == h.Buffered?
  }

  // ---------------------------------------------------------------------------------------
  // Runs.

  /** System calls succeed, and open hands out a descriptor that is not open yet. */
  predicate Enabled(w: World, e: Event) {
    match e
    case OpenFile(slot, fd) => slot !in w.live && fd >= 0 && fd !in w.kernel.table
    case OpenBuffered(slot, fd) => slot !in w.live && fd >= 0 && fd !in w.kernel.table
    case CreateShared(slot, fd, _) => slot !in w.live && fd >= 0 && fd !in w.kernel.table
    case OpenShared(slot, fd) => slot !in w.live && fd >= 0 && fd !in w.kernel.table
    case MoveConstruct(slot, from) => slot !in w.live && from in w.live && !w.live[from].Buffered?
    case Swap(slot, with) => slot in w.live && with in w.live && SameType(w.live[slot], w.live[with])
    case CloseHandle(slot) => slot in w.live
    case Destroy(slot) => slot in w.live
  }

  function Step(w: World, e: Event): World
    requires Enabled(w, e)
  {
    match e
    case OpenFile(slot, fd) => World(Open(w.kernel, fd, None), w.live[slot := File(fd)])
    case OpenBuffered(slot, fd) => World(Open(w.kernel, fd, None), w.live[slot := Buffered(fd, Some(fd))])
    case CreateShared(slot, fd, name) =>
      World(Open(w.kernel, fd, Some(name)), w.live[slot := Shared(fd, Some(name))])
    case OpenShared(slot, fd) => World(Open(w.kernel, fd, None), w.live[slot := Shared(fd, None)])
    case MoveConstruct(slot, from) =>
      w.(live := w.live[slot := w.live[from]][from := Emptied(w.live[from])])
    case Swap(slot, with) =>
      w.(live := w.live[slot := w.live[with]][with := w.live[slot]])
    case CloseHandle(slot) =>
      var (k, h) := CloseOf(w.kernel, w.live[slot]);
      World(k, w.live[slot := h])
    case Destroy(slot) => World(DestroyOf(w.kernel, w.live[slot]), w.live - {slot})
  }

  predicate Feasible(w: World, es: seq<Event>)
    decreases es
  {
    es == [] || (Enabled(w, es[0]) && Feasible(Step(w, es[0]), es[1..]))
  }

  function Run(w: World, es: seq<Event>): World
    requires Feasible(w, es)
    decreases es
  {
    if es == [] then w else Run(Step(w, es[0]), es[1..])
  }

  // ---------------------------------------------------------------------------------------
  // Ownership.

  predicate Owns(live: map<nat, Handle>, slot: nat, fd: int) {
    slot in live && live[slot].fd == fd && fd != INVALID_FD
  }

  /** Valid handles and open descriptors correspond one to one. */
  ghost predicate OneToOne(w: World) {
    && (forall slot, fd | Owns(w.live, slot, fd) :: fd in w.kernel.table)
    && (forall a, b, fd | Owns(w.live, a, fd) && Owns(w.live, b, fd) :: a == b)
    && (forall fd | fd in w.kernel.table :: fd >= 0 && exists slot :: Owns(w.live, slot, fd))
  }

  /** A stream stands on its file's descriptor; a name belongs to the instance it was created for. */
  predicate HandleInv(k: Kernel, h: Handle) {
    match h
    case File(_) => true
    case Buffered(fd, stream) => stream == if fd == INVALID_FD then None else Some(fd)
    case Shared(fd, path) =>
      fd != INVALID_FD && fd in k.table ==>
        path == if k.table[fd] in k.names then Some(k.names[k.table[fd]]) else None
  }

  ghost predicate OnlySharedAreNamed(w: World) {
    forall slot, fd | Owns(w.live, slot, fd) && fd in w.kernel.table && !w.live[slot].Shared? ::
      w.kernel.table[fd] !in w.kernel.names
  }

  /** Instances are numbered in the order of their opens, and each is open or closed, not both. */
  ghost predicate KernelInv(k: Kernel) {
    && k.faults == 0
    && (forall fd | fd in k.table :: k.table[fd] < k.opens)
    && (forall f, g | f in k.table && g in k.table && f != g :: k.table[f] != k.table[g])
    && (forall c | c in k.closed :: c.instance < k.opens)
    && (forall i, fd | 0 <= i < |k.closed| && fd in k.table :: k.closed[i].instance != k.table[fd])
    && (forall i, j | 0 <= i < j < |k.closed| :: k.closed[i].instance != k.closed[j].instance)
    && (forall n | n in k.names :: n < k.opens)
    && |k.table| + |k.closed| == k.opens
    && (forall n: nat | n < k.opens :: IsOpen(k, n) || IsClosed(k, n))
  }

  ghost predicate IsOpen(k: Kernel, n: nat) {
    exists fd :: fd in k.table && k.table[fd] == n
  }

  predicate IsClosed(k: Kernel, n: nat) {
    exists i :: 0 <= i < |k.closed| && k.closed[i].instance == n
  }

  /** The names of the instances that destructors ended, in that order. */
  function NamesDestroyed(closed: seq<Closing>, names: map<nat, string>): seq<string> {
    if closed == [] then []
    else
      var last := closed[|closed| - 1];
      NamesDestroyed(closed[..|closed| - 1], names)
      + (if last.destroyed && last.instance in names then [names[last.instance]] else [])
  }

  ghost predicate Inv(w: World) {
    && OneToOne(w) && KernelInv(w.kernel) && OnlySharedAreNamed(w)
    && (forall slot | slot in w.live :: HandleInv(w.kernel, w.live[slot]))
    && w.kernel.unlinked == NamesDestroyed(w.kernel.closed, w.kernel.names)
  }
}
