/**
 The asynchronous pipe as a protocol between posts, the kernel and completion handlers.

 A post fixes the byte range of an operation. Later the kernel moves some of those bytes, once,
 between the range and the pipe; later still the completion handler advances the caller's
 cursor and resolves the promise. Cancel and close can come between any two of these.
 */
module PipeProtocol {
  import opened Cursors

  datatype Direction = Read | Write

  /** How a promise was resolved. */
  datatype Outcome = Value | Error(code: int)

  datatype Status = Waiting | Moved(n: nat) | Failed(code: int) | Resolved(outcome: Outcome)

  datatype Op<K> = Op(dir: Direction, key: K, start: nat, len: nat, status: Status) {
    predicate Pending() {
      !status.Resolved?
    }
  }

  /** One kernel transfer: the operation it served, its cursor, and the bytes. */
  datatype Chunk<K> = Chunk(op: nat, dir: Direction, key: K, data: seq<byte>)

  /**
   Cursors are named by keys; different keys have different memory. `queue` is what the kernel
   pipe holds; `log` is the history of transfers in the order the kernel did them.
   */
  datatype Pipe<K> = Pipe(
    open: bool,
    ops: seq<Op<K>>,
    buffers: map<K, Buffer>,
    queue: seq<byte>,
    log: seq<Chunk<K>>)

  datatype Event<K> =
    | Post(dir: Direction, key: K, len: nat)
    | Move(i: nat, n: nat)
    | Refuse(i: nat, code: int)
    | Handler(i: nat)
    | Cancel
    | Close

  const ABORTED: int := 125
  const BAD_DESCRIPTOR: int := 9

  predicate Busy<K(==)>(ops: seq<Op<K>>, key: K) {
    exists i | 0 <= i < |ops| :: ops[i].key == key && ops[i].Pending()
  }

  /**
   A caller posts within the room of a cursor it has no other operation on. A transfer moves at
   least one byte of a range that has any, and a read no more than the pipe holds.
   */
  predicate Enabled<K(==)>(s: Pipe<K>, e: Event<K>) {
    match e
    case Post(_, key, len) =>
      key in s.buffers && s.buffers[key].pos + len <= |s.buffers[key].mem| && !Busy(s.ops, key)
    case Move(i, n) =>
      && s.open && i < |s.ops| && s.ops[i].status.Waiting?
      && n <= s.ops[i].len && (n == 0 ==> s.ops[i].len == 0)
      && s.ops[i].key in s.buffers && s.ops[i].start + s.ops[i].len <= |s.buffers[s.ops[i].key].mem|
      && (s.ops[i].dir.Read? ==> n <= |s.queue|)
    case Refuse(i, _) => s.open && i < |s.ops| && s.ops[i].status.Waiting?
    case Handler(i) =>
      && i < |s.ops| && (s.ops[i].status.Moved? || s.ops[i].status.Failed?)
      && s.ops[i].key in s.buffers
    case Cancel => true
    case Close => true
  }

  /** Operations the kernel has not served complete with an error; served ones are left alone. */
  function AbortWaiting<K>(ops: seq<Op<K>>): (r: seq<Op<K>>)
    ensures |r| == |ops|
  {
    seq(|ops|, i requires 0 <= i < |ops| =>
      if ops[i].status.Waiting? then ops[i].(status := Failed(ABORTED)) else ops[i])
  }

  function SetStatus<K>(ops: seq<Op<K>>, i: nat, status: Status): seq<Op<K>>
    requires i < |ops|
  {
    ops[i := ops[i].(status := status)]
  }

  function Step<K(==)>(s: Pipe<K>, e: Event<K>): Pipe<K>
    requires Enabled(s, e)
  {
    match e
    case Post(dir, key, len) =>
      var status := if s.open then Waiting else Failed(BAD_DESCRIPTOR);
      s.(ops := s.ops + [Op(dir, key, s.buffers[key].pos, len, status)])
    case Move(i, n) => Transfer(s, i, n)
    case Refuse(i, code) => s.(ops := SetStatus(s.ops, i, Failed(code)))
    case Handler(i) => Complete(s, i)
    case Cancel => s.(ops := AbortWaiting(s.ops))
    case Close => s.(open := false, ops := AbortWaiting(s.ops))
  }

  function Transfer<K(==)>(s: Pipe<K>, i: nat, n: nat): Pipe<K>
    requires Enabled(s, Move(i, n))
  {
    var op := s.ops[i];
    var buf := s.buffers[op.key];
    var served := SetStatus(s.ops, i, Moved(n));
    match op.dir
    case Read =>
      var data := s.queue[..n];
      s.(ops := served,
         buffers := s.buffers[op.key := buf.(mem := Store(buf.mem, op.start, data))],
         queue := s.queue[n..],
         log := s.log + [Chunk(i, Read, op.key, data)])
    case Write =>
      var data := buf.mem[op.start..op.start + n];
      s.(ops := served,
         queue := s.queue + data,
         log := s.log + [Chunk(i, Write, op.key, data)])
  }

  /** The handler advances the cursor on success only, then resolves the promise. */
  function Complete<K(==)>(s: Pipe<K>, i: nat): Pipe<K>
    requires Enabled(s, Handler(i))
  {
    var op := s.ops[i];
    match op.status
    case Moved(n) =>
      var buf := s.buffers[op.key];
      s.(ops := SetStatus(s.ops, i, Resolved(Value)),
         buffers := s.buffers[op.key := buf.(pos := buf.pos + n)])
    case _ => s.(ops := SetStatus(s.ops, i, Resolved(Error(op.status.code))))
  }

  predicate Feasible<K(==)>(s: Pipe<K>, es: seq<Event<K>>)
    decreases es
  {
    es == [] || (Enabled(s, es[0]) && Feasible(Step(s, es[0]), es[1..]))
  }

  function Run<K(==)>(s: Pipe<K>, es: seq<Event<K>>): Pipe<K>
    requires Feasible(s, es)
    decreases es
  {
    if es == [] then s else Run(Step(s, es[0]), es[1..])
  }

  /** An open pipe that nothing has been posted on, with the caller's buffers. */
  predicate Initial<K(==)>(s: Pipe<K>) {
    && s.open && s.ops == [] && s.queue == [] && s.log == []
    && forall k | k in s.buffers :: s.buffers[k].Valid()
  }

  // ---------------------------------------------------------------------------------------
  // Histories.

  /** All bytes moved in one direction, in kernel order. */
  function Moves<K>(log: seq<Chunk<K>>, dir: Direction): seq<byte> {
    if log == [] then []
    else Moves(log[..|log| - 1], dir) + (if log[|log| - 1].dir == dir then log[|log| - 1].data else [])
  }

  /** All bytes moved through one cursor, in kernel order. */
  function Share<K(==)>(log: seq<Chunk<K>>, key: K): seq<byte> {
    if log == [] then []
    else Share(log[..|log| - 1], key) + (if log[|log| - 1].key == key then log[|log| - 1].data else [])
  }

  /** How often the kernel served an operation. */
  function TimesServed<K>(log: seq<Chunk<K>>, i: nat): nat {
    if log == [] then 0
    else TimesServed(log[..|log| - 1], i) + (if log[|log| - 1].op == i then 1 else 0)
  }

  /** Bytes the kernel moved for a cursor whose handler has not run yet. */
  function Ahead<K(==)>(ops: seq<Op<K>>, key: K): nat {
    if ops == [] then 0 else Ahead(ops[..|ops| - 1], key) + Lead(ops[|ops| - 1], key)
  }

  function Lead<K(==)>(op: Op<K>, key: K): nat {
    if op.key == key && op.status.Moved? then op.status.n else 0
  }

  lemma {:induction false} AheadUpdate<K>(ops: seq<Op<K>>, i: nat, op: Op<K>, key: K)
    requires i < |ops|
    ensures Ahead(ops[i := op], key) == Ahead(ops, key) - Lead(ops[i], key) + Lead(op, key)
  {
    var last := |ops| - 1;
    if i == last {
      assert ops[i := op][..last] == ops[..last];
    } else {
      AheadUpdate(ops[..last], i, op, key);
      assert ops[i := op][..last] == ops[..last][i := op];
    }
  }

  lemma {:induction false} AheadOfNone<K>(ops: seq<Op<K>>, key: K)
    requires forall i | 0 <= i < |ops| :: ops[i].key == key ==> !ops[i].status.Moved?
    ensures Ahead(ops, key) == 0
  {
    if ops != [] {
      AheadOfNone(ops[..|ops| - 1], key);
    }
  }

  lemma {:induction false} AheadOfAborted<K>(ops: seq<Op<K>>, key: K)
    ensures Ahead(AbortWaiting(ops), key) == Ahead(ops, key)
  {
    if ops != [] {
      AheadOfAborted(ops[..|ops| - 1], key);
      assert AbortWaiting(ops)[..|ops| - 1] == AbortWaiting(ops[..|ops| - 1]);
    }
  }
}
