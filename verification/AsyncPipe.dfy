/**
 The asynchronous pipe object: its methods and handlers, over the callers' own cursors.

 A posted operation keeps a reference to its cursor, as the completion handlers capture it.
 */
module AsyncPipe {
  import opened Cursors
  import opened PipeProtocol
  import opened PipeSafety

  class PipeImpl {
    var isOpen: bool
    var ops: seq<Op<Cursor>>
    /** The bytes in the kernel pipe between the two descriptors. */
    var queue: seq<byte>
    ghost var log: seq<Chunk<Cursor>>
    /** The cursors the program uses with this pipe. */
    ghost const cursors: set<Cursor>

    /** Cursors have memory of their own, and posted ranges start where their cursors stand. */
    ghost predicate Valid()
      reads this, cursors, set c | c in cursors :: c.storage
    {
      && (forall c, d | c in cursors && d in cursors && c != d :: c.storage != d.storage)
      && OpsInv(View())
    }

    ghost function View(): Pipe<Cursor>
      reads this, cursors, set c | c in cursors :: c.storage
    {
      Pipe(isOpen, ops, Buffers(), queue, log)
    }

    ghost function Buffers(): map<Cursor, Buffer>
      reads this, cursors, set c | c in cursors :: c.storage
    {
      map c | c in cursors :: c.View()
    }

    constructor (ghost users: set<Cursor>)
      requires forall c, d | c in users && d in users && c != d :: c.storage != d.storage
      requires forall c | c in users :: c.Valid()
      ensures cursors == users && Valid() && Initial(View())
    {
      isOpen := true;
      ops, queue := [], [];
      log := [];
      cursors := users;
    }

    method AsyncRead(dest: Cursor, bytesToRead: nat)
      requires Valid() && Enabled(View(), Post(Read, dest, bytesToRead))
      modifies `ops
      ensures Valid() && View() == Step(old(View()), Post(Read, dest, bytesToRead))
    {
      PostOp(Read, dest, bytesToRead);
    }

    method AsyncWrite(src: Cursor, bytesToWrite: nat)
      requires Valid() && Enabled(View(), Post(Write, src, bytesToWrite))
      modifies `ops
      ensures Valid() && View() == Step(old(View()), Post(Write, src, bytesToWrite))
    {
      PostOp(Write, src, bytesToWrite);
    }

    /** The range is fixed now: it starts at the cursor's position at this moment. */
    method PostOp(dir: Direction, cursor: Cursor, len: nat)
      requires Valid() && Enabled(View(), Post(dir, cursor, len))
      modifies `ops
      ensures Valid() && View() == Step(old(View()), Post(dir, cursor, len))
    {
      var status := if isOpen then Waiting else Failed(BAD_DESCRIPTOR);
      ghost var was := View();
      ops := ops + [Op(dir, cursor, cursor.position, len, status)];
      PostOps(was, dir, cursor, len);
    }

    /** Store into the memory of one cursor; every other cursor's is its own and stays. */
    method StoreFor(cursor: Cursor, at: nat, data: seq<byte>)
      requires cursor in cursors && at + |data| <= cursor.storage.Length
      requires forall c, d | c in cursors && d in cursors && c != d :: c.storage != d.storage
      modifies cursor.storage
      ensures var buf := old(cursor.View());
              Buffers() == old(Buffers())[cursor := buf.(mem := Store(buf.mem, at, data))]
    {
      ghost var was := Buffers();
      cursor.Fill(at, data);
      assert forall c | c in cursors && c != cursor :: c.View() == was[c];
    }

    /** The kernel fills some of a read's range from the pipe. */
    method KernelReads(i: nat, n: nat)
      requires Valid() && Enabled(View(), Move(i, n)) && ops[i].dir.Read?
      modifies this, ops[i].key.storage
      ensures Valid() && View() == Step(old(View()), Move(i, n))
    {
      ghost var was := View();
      TransferOps(was, i, n);
      var op := ops[i];
      StoreFor(op.key, op.start, queue[..n]);
      RecordRead(i, n);
    }

    /** What a read leaves in the pipe, and its part of the history. */
    method RecordRead(i: nat, n: nat)
      requires i < |ops| && n <= |queue|
      modifies `queue, `log, `ops
      ensures queue == old(queue)[n..]
      ensures log == old(log) + [Chunk(i, Read, old(ops)[i].key, old(queue)[..n])]
      ensures ops == SetStatus(old(ops), i, Moved(n))
    {
      log := log + [Chunk(i, Read, ops[i].key, queue[..n])];
      queue := queue[n..];
      ops := SetStatus(ops, i, Moved(n));
    }

    /** The kernel takes some of a write's range into the pipe. */
    method KernelWrites(i: nat, n: nat)
      requires Valid() && Enabled(View(), Move(i, n)) && ops[i].dir.Write?
      modifies this
      ensures Valid() && View() == Step(old(View()), Move(i, n))
    {
      ghost var was := View();
      TransferOps(was, i, n);
      var op := ops[i];
      var data := op.key.storage[op.start..op.start + n];
      assert data == was.buffers[op.key].mem[op.start..op.start + n];
      RecordWrite(i, data);
    }

    method RecordWrite(i: nat, data: seq<byte>)
      requires i < |ops|
      modifies `queue, `log, `ops
      ensures queue == old(queue) + data
      ensures log == old(log) + [Chunk(i, Write, old(ops)[i].key, data)]
      ensures ops == SetStatus(old(ops), i, Moved(|data|))
    {
      log := log + [Chunk(i, Write, ops[i].key, data)];
      queue := queue + data;
      ops := SetStatus(ops, i, Moved(|data|));
    }

    /** The kernel reports an error for an operation. */
    method KernelRefuses(i: nat, code: int)
      requires Valid() && Enabled(View(), Refuse(i, code))
      modifies `ops
      ensures Valid() && View() == Step(old(View()), Refuse(i, code))
    {
      ghost var was := View();
      ops := SetStatus(ops, i, Failed(code));
      RefuseOps(was, i, code);
    }

    /** The completion handler of both directions. */
    method OnComplete(i: nat)
      requires Valid() && Enabled(View(), Handler(i))
      modifies `ops, ops[i].key
      ensures Valid() && View() == Step(old(View()), Handler(i))
    {
      CompleteOps(View(), i);
      assert OpInv(View(), ops[i]);
      if ops[i].status.Moved? {
        Deliver(i);
      } else {
        ops := SetStatus(ops, i, Resolved(Error(ops[i].status.code)));
      }
    }

    /** Success: advance the cursor, then set the promise's value. */
    method Deliver(i: nat)
      requires i < |ops| && ops[i].status.Moved? && ops[i].key in cursors
      requires ops[i].key.position + ops[i].status.n <= ops[i].key.storage.Length
      modifies `ops, ops[i].key
      ensures View() == Complete(old(View()), i)
    {
      ghost var was := View();
      var op := ops[i];
      var advanced := op.key.Advance(op.status.n);
      ops := SetStatus(ops, i, Resolved(Value));
      assert View().buffers == was.buffers[op.key := Buffer(was.buffers[op.key].mem, op.key.position)];
    }

    method CancelAll()
      requires Valid()
      modifies `ops
      ensures Valid() && View() == Step(old(View()), Cancel)
    {
      AbortOps(View(), isOpen);
      AbortEach();
    }

    method AbortEach()
      modifies `ops
      ensures ops == AbortWaiting(old(ops))
    {
      var i := 0;
      while i < |ops|
        invariant 0 <= i <= |ops| == |old(ops)|
        invariant ops[..i] == AbortWaiting(old(ops))[..i]
        invariant ops[i..] == old(ops)[i..]
      {
        var op := ops[i];
        assert op == old(ops)[i];
        if op.status.Waiting? {
          ops := ops[i := op.(status := Failed(ABORTED))];
        }
        i := i + 1;
      }
    }

    method CloseBoth()
      requires Valid()
      modifies `ops, `isOpen
      ensures Valid() && View() == Step(old(View()), Close)
    {
      AbortOps(View(), false);
      CancelAll();
      isOpen := false;
    }
  }
}
