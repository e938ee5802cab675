/**
 What every run of the asynchronous pipe keeps: no byte is lost, duplicated or reordered, each
 cursor moves by its own share, and each promise is resolved once, with a value exactly when
 its bytes moved.
 */
module PipeSafety {
  import opened Cursors
  import opened PipeProtocol

  // ---------------------------------------------------------------------------------------
  // Invariants.

  /** The bytes that were read, then those still in the pipe, are the bytes that were written. */
  predicate FlowInv<K>(s: Pipe<K>) {
    Moves(s.log, Read) + s.queue == Moves(s.log, Write)
  }

  predicate OpInv<K(==)>(s: Pipe<K>, op: Op<K>) {
    && op.key in s.buffers
    && (op.Pending() ==> op.start == s.buffers[op.key].pos && op.start + op.len <= |s.buffers[op.key].mem|)
    && (op.status.Moved? ==> op.status.n <= op.len)
  }

  predicate OpsInv<K(==)>(s: Pipe<K>) {
    && (forall i | 0 <= i < |s.ops| :: OpInv(s, s.ops[i]))
    && (forall i, j | 0 <= i < j < |s.ops| && s.ops[i].Pending() && s.ops[j].Pending() :: s.ops[i].key != s.ops[j].key)
    && (!s.open ==> forall i | 0 <= i < |s.ops| :: !s.ops[i].status.Waiting?)
  }

  predicate Served<K(==)>(op: Op<K>) {
    op.status.Moved? || op.status == Resolved(Value)
  }

  predicate ServedInv<K(==)>(s: Pipe<K>) {
    && (forall i | 0 <= i < |s.ops| :: TimesServed(s.log, i) == if Served(s.ops[i]) then 1 else 0)
    && (forall c | c in s.log :: c.op < |s.ops|)
  }

  /**
   From where the cursor started to `ahead` bytes past its position lie exactly the bytes moved
   through it, in order; the memory around them is as it was.
   */
  predicate KeyInv(was: Buffer, buf: Buffer, ahead: nat, share: seq<byte>) {
    && was.pos <= buf.pos && buf.pos + ahead <= |buf.mem| == |was.mem|
    && buf.mem[..was.pos] == was.mem[..was.pos]
    && buf.mem[was.pos..buf.pos + ahead] == share
    && buf.mem[buf.pos + ahead..] == was.mem[buf.pos + ahead..]
  }

  predicate DataInv<K(==)>(s: Pipe<K>, init: map<K, Buffer>) {
    s.buffers.Keys == init.Keys && forall k | k in init :: KeyHolds(s, init, k)
  }

  predicate KeyHolds<K(==)>(s: Pipe<K>, init: map<K, Buffer>, k: K)
    requires k in init && k in s.buffers
  {
    KeyInv(init[k], s.buffers[k], Ahead(s.ops, k), Share(s.log, k))
  }

  predicate Inv<K(==)>(s: Pipe<K>, init: map<K, Buffer>) {
    FlowInv(s) && OpsInv(s) && ServedInv(s) && DataInv(s, init)
  }

  // ---------------------------------------------------------------------------------------
  // The kernel serves an operation.

  lemma LastChunk<K>(log: seq<Chunk<K>>, c: Chunk<K>)
    ensures (log + [c])[..|log + [c]| - 1] == log && (log + [c])[|log + [c]| - 1] == c
  {
  }

  lemma OnlyPending<K>(s: Pipe<K>, i: nat)
    requires OpsInv(s) && i < |s.ops| && s.ops[i].status.Waiting?
    ensures Ahead(s.ops, s.ops[i].key) == 0
  {
    AheadOfNone(s.ops, s.ops[i].key);
  }

  lemma TransferFlow<K>(s: Pipe<K>, i: nat, n: nat)
    requires FlowInv(s) && Enabled(s, Move(i, n))
    ensures FlowInv(Transfer(s, i, n))
  {
  }

  lemma TransferOps<K>(s: Pipe<K>, i: nat, n: nat)
    requires OpsInv(s) && Enabled(s, Move(i, n))
    ensures OpsInv(Transfer(s, i, n))
  {
  }

  lemma TransferServed<K>(s: Pipe<K>, i: nat, n: nat)
    requires ServedInv(s) && Enabled(s, Move(i, n))
    ensures ServedInv(Transfer(s, i, n))
  {
  }

  lemma ReadExtends(was: Buffer, buf: Buffer, share: seq<byte>, data: seq<byte>)
    requires KeyInv(was, buf, 0, share) && buf.pos + |data| <= |buf.mem|
    ensures KeyInv(was, buf.(mem := Store(buf.mem, buf.pos, data)), |data|, share + data)
  {
    var mem := Store(buf.mem, buf.pos, data);
    assert mem[..was.pos] == mem[..buf.pos][..was.pos];
    assert mem[was.pos..buf.pos + |data|] == mem[..buf.pos][was.pos..] + mem[buf.pos..buf.pos + |data|];
    assert mem[buf.pos + |data|..] == buf.mem[buf.pos..][|data|..];
  }

  lemma WriteExtends(was: Buffer, buf: Buffer, share: seq<byte>, n: nat)
    requires KeyInv(was, buf, 0, share) && buf.pos + n <= |buf.mem|
    ensures KeyInv(was, buf, n, share + buf.mem[buf.pos..buf.pos + n])
  {
    assert buf.mem[was.pos..buf.pos + n] == buf.mem[was.pos..buf.pos] + buf.mem[buf.pos..buf.pos + n];
    assert buf.mem[buf.pos + n..] == buf.mem[buf.pos..][n..];
  }

  lemma ServedBooks<K>(s: Pipe<K>, i: nat, n: nat)
    requires OpsInv(s) && Enabled(s, Move(i, n))
    ensures var t, op := Transfer(s, i, n), s.ops[i];
            && Ahead(s.ops, op.key) == 0 && Ahead(t.ops, op.key) == n
            && Share(t.log, op.key) == Share(s.log, op.key) + t.log[|s.log|].data
  {
    var t := Transfer(s, i, n);
    LastChunk(s.log, t.log[|s.log|]);
    OnlyPending(s, i);
    AheadUpdate(s.ops, i, t.ops[i], s.ops[i].key);
  }

  lemma ServedKey<K>(s: Pipe<K>, i: nat, n: nat, was: Buffer, share: seq<byte>)
    requires OpsInv(s) && Enabled(s, Move(i, n)) && KeyInv(was, s.buffers[s.ops[i].key], 0, share)
    ensures var t, k := Transfer(s, i, n), s.ops[i].key;
            KeyInv(was, t.buffers[k], n, share + t.log[|s.log|].data)
  {
    var op := s.ops[i];
    assert OpInv(s, op);
    if op.dir.Read? {
      ReadExtends(was, s.buffers[op.key], share, s.queue[..n]);
    } else {
      WriteExtends(was, s.buffers[op.key], share, n);
    }
  }

  lemma OtherKey<K>(s: Pipe<K>, i: nat, n: nat, k: K)
    requires Enabled(s, Move(i, n)) && k != s.ops[i].key && k in s.buffers
    ensures var t := Transfer(s, i, n);
            k in t.buffers && t.buffers[k] == s.buffers[k]
            && Ahead(t.ops, k) == Ahead(s.ops, k) && Share(t.log, k) == Share(s.log, k)
  {
    var t := Transfer(s, i, n);
    LastChunk(s.log, t.log[|s.log|]);
    AheadUpdate(s.ops, i, t.ops[i], k);
    assert Share(t.log, k) == Share(s.log, k) + [];
  }

  lemma TransferKey<K>(s: Pipe<K>, init: map<K, Buffer>, i: nat, n: nat)
    requires OpsInv(s) && Enabled(s, Move(i, n)) && s.ops[i].key in init && KeyHolds(s, init, s.ops[i].key)
    ensures KeyHolds(Transfer(s, i, n), init, s.ops[i].key)
  {
    var k := s.ops[i].key;
    ServedBooks(s, i, n);
    ServedKey(s, i, n, init[k], Share(s.log, k));
  }

  lemma TransferData<K>(s: Pipe<K>, init: map<K, Buffer>, i: nat, n: nat)
    requires OpsInv(s) && DataInv(s, init) && Enabled(s, Move(i, n))
    ensures DataInv(Transfer(s, i, n), init)
  {
    var t := Transfer(s, i, n);
    forall k | k in init ensures KeyHolds(t, init, k) {
      assert KeyHolds(s, init, k);
      if k == s.ops[i].key {
        TransferKey(s, init, i, n);
      } else {
        OtherKey(s, i, n, k);
      }
    }
  }

  // ---------------------------------------------------------------------------------------
  // A handler runs.

  lemma CompleteOps<K>(s: Pipe<K>, i: nat)
    requires OpsInv(s) && Enabled(s, Handler(i))
    ensures OpsInv(Complete(s, i))
  {
  }

  lemma CompleteServed<K>(s: Pipe<K>, i: nat)
    requires ServedInv(s) && Enabled(s, Handler(i))
    ensures ServedInv(Complete(s, i))
  {
  }

  lemma CompleteKey<K>(s: Pipe<K>, i: nat, k: K)
    requires OpsInv(s) && Enabled(s, Handler(i)) && k in s.buffers
    ensures var t := Complete(s, i);
            && k in t.buffers && t.buffers[k].mem == s.buffers[k].mem
            && t.buffers[k].pos >= s.buffers[k].pos
            && t.buffers[k].pos + Ahead(t.ops, k) == s.buffers[k].pos + Ahead(s.ops, k)
  {
    AheadUpdate(s.ops, i, Complete(s, i).ops[i], k);
  }

  lemma AdvanceKeeps(was: Buffer, buf: Buffer, ahead: nat, share: seq<byte>, now: Buffer, left: nat)
    requires KeyInv(was, buf, ahead, share)
    requires now.mem == buf.mem && now.pos >= buf.pos && now.pos + left == buf.pos + ahead
    ensures KeyInv(was, now, left, share)
  {
  }

  lemma CompleteData<K>(s: Pipe<K>, init: map<K, Buffer>, i: nat)
    requires OpsInv(s) && DataInv(s, init) && Enabled(s, Handler(i))
    ensures DataInv(Complete(s, i), init)
  {
    var t := Complete(s, i);
    forall k | k in init ensures KeyHolds(t, init, k) {
      assert KeyHolds(s, init, k);
      CompleteKey(s, i, k);
      AdvanceKeeps(init[k], s.buffers[k], Ahead(s.ops, k), Share(s.log, k), t.buffers[k], Ahead(t.ops, k));
    }
  }

  // ---------------------------------------------------------------------------------------
  // Posts, refusals, cancel and close move no byte.

  lemma PostOps<K>(s: Pipe<K>, dir: Direction, key: K, len: nat)
    requires OpsInv(s) && Enabled(s, Post(dir, key, len))
    ensures OpsInv(Step(s, Post(dir, key, len)))
  {
  }

  lemma PostServed<K>(s: Pipe<K>, dir: Direction, key: K, len: nat)
    requires ServedInv(s) && Enabled(s, Post(dir, key, len))
    ensures ServedInv(Step(s, Post(dir, key, len)))
  {
    NeverServed(s.log, |s.ops|);
  }

  lemma {:induction false} NeverServed<K>(log: seq<Chunk<K>>, i: nat)
    requires forall c | c in log :: c.op < i
    ensures TimesServed(log, i) == 0
  {
    if log != [] {
      NeverServed(log[..|log| - 1], i);
    }
  }

  lemma PostData<K>(s: Pipe<K>, init: map<K, Buffer>, dir: Direction, key: K, len: nat)
    requires DataInv(s, init) && Enabled(s, Post(dir, key, len))
    ensures DataInv(Step(s, Post(dir, key, len)), init)
  {
    var t := Step(s, Post(dir, key, len));
    assert t.ops[..|t.ops| - 1] == s.ops;
    SameAheadKeepsData(s, init, t);
  }

  /** Ending operations that were not served leaves every cursor where it was. */
  lemma SameAheadKeepsData<K>(s: Pipe<K>, init: map<K, Buffer>, t: Pipe<K>)
    requires DataInv(s, init) && t.buffers == s.buffers && t.log == s.log
    requires forall k | k in init :: Ahead(t.ops, k) == Ahead(s.ops, k)
    ensures DataInv(t, init)
  {
  }

  lemma RefuseOps<K>(s: Pipe<K>, i: nat, code: int)
    requires OpsInv(s) && Enabled(s, Refuse(i, code))
    ensures OpsInv(Step(s, Refuse(i, code)))
  {
  }

  lemma RefuseServed<K>(s: Pipe<K>, i: nat, code: int)
    requires ServedInv(s) && Enabled(s, Refuse(i, code))
    ensures ServedInv(Step(s, Refuse(i, code)))
  {
  }

  lemma RefuseKeepsInv<K>(s: Pipe<K>, init: map<K, Buffer>, i: nat, code: int)
    requires Inv(s, init) && Enabled(s, Refuse(i, code))
    ensures Inv(Step(s, Refuse(i, code)), init)
  {
    var t := Step(s, Refuse(i, code));
    RefuseOps(s, i, code);
    RefuseServed(s, i, code);
    forall k | k in init ensures Ahead(t.ops, k) == Ahead(s.ops, k) {
      AheadUpdate(s.ops, i, t.ops[i], k);
    }
    SameAheadKeepsData(s, init, t);
  }

  lemma AbortOps<K>(s: Pipe<K>, open: bool)
    requires OpsInv(s) && (open ==> s.open)
    ensures OpsInv(s.(open := open, ops := AbortWaiting(s.ops)))
  {
  }

  lemma AbortServed<K>(s: Pipe<K>, open: bool)
    requires ServedInv(s)
    ensures ServedInv(s.(open := open, ops := AbortWaiting(s.ops)))
  {
  }

  lemma AbortData<K>(s: Pipe<K>, init: map<K, Buffer>, open: bool)
    requires DataInv(s, init)
    ensures DataInv(s.(open := open, ops := AbortWaiting(s.ops)), init)
  {
    var t := s.(open := open, ops := AbortWaiting(s.ops));
    forall k | k in init ensures Ahead(t.ops, k) == Ahead(s.ops, k) {
      AheadOfAborted(s.ops, k);
    }
    SameAheadKeepsData(s, init, t);
  }

  lemma AbortKeepsInv<K>(s: Pipe<K>, init: map<K, Buffer>, open: bool)
    requires Inv(s, init) && (open ==> s.open)
    ensures Inv(s.(open := open, ops := AbortWaiting(s.ops)), init)
  {
    AbortOps(s, open);
    AbortServed(s, open);
    AbortData(s, init, open);
  }

  // ---------------------------------------------------------------------------------------
  // Runs.

  lemma PostKeepsInv<K>(s: Pipe<K>, init: map<K, Buffer>, dir: Direction, key: K, len: nat)
    requires Inv(s, init) && Enabled(s, Post(dir, key, len))
    ensures Inv(Step(s, Post(dir, key, len)), init)
  {
    PostOps(s, dir, key, len);
    PostServed(s, dir, key, len);
    PostData(s, init, dir, key, len);
  }

  lemma TransferKeepsInv<K>(s: Pipe<K>, init: map<K, Buffer>, i: nat, n: nat)
    requires Inv(s, init) && Enabled(s, Move(i, n))
    ensures Inv(Transfer(s, i, n), init)
  {
    TransferFlow(s, i, n);
    TransferOps(s, i, n);
    TransferServed(s, i, n);
    TransferData(s, init, i, n);
  }

  lemma CompleteKeepsInv<K>(s: Pipe<K>, init: map<K, Buffer>, i: nat)
    requires Inv(s, init) && Enabled(s, Handler(i))
    ensures Inv(Complete(s, i), init)
  {
    CompleteOps(s, i);
    CompleteServed(s, i);
    CompleteData(s, init, i);
  }

  lemma StepKeepsInv<K>(s: Pipe<K>, init: map<K, Buffer>, e: Event<K>)
    requires Inv(s, init) && Enabled(s, e)
    ensures Inv(Step(s, e), init)
  {
    match e
    case Post(dir, key, len) => PostKeepsInv(s, init, dir, key, len);
    case Move(i, n) => TransferKeepsInv(s, init, i, n);
    case Refuse(i, code) => RefuseKeepsInv(s, init, i, code);
    case Handler(i) => CompleteKeepsInv(s, init, i);
    case Cancel => AbortKeepsInv(s, init, s.open);
    case Close => AbortKeepsInv(s, init, false);
  }

  lemma {:induction false} RunKeepsInv<K>(s: Pipe<K>, init: map<K, Buffer>, es: seq<Event<K>>)
    requires Inv(s, init) && Feasible(s, es)
    ensures Inv(Run(s, es), init)
    decreases es
  {
    if es != [] {
      StepKeepsInv(s, init, es[0]);
      RunKeepsInv(Step(s, es[0]), init, es[1..]);
    }
  }

  lemma ReachableInv<K>(s: Pipe<K>, es: seq<Event<K>>)
    requires Initial(s) && Feasible(s, es)
    ensures Inv(Run(s, es), s.buffers)
  {
    forall k | k in s.buffers ensures KeyHolds(s, s.buffers, k) {
      assert s.buffers[k].Valid();
    }
    RunKeepsInv(s, s.buffers, es);
  }

  /**
   Conservation, over every run: the bytes that reads placed, in order, followed by the bytes in
   the kernel pipe, are the bytes that writes took, in order.
   */
  lemma BytesAreConserved<K>(s: Pipe<K>, es: seq<Event<K>>)
    requires Initial(s) && Feasible(s, es)
    ensures var t := Run(s, es); Moves(t.log, Read) + t.queue == Moves(t.log, Write)
  {
    ReachableInv(s, es);
  }

  lemma ShareLiesInPlace(was: Buffer, now: Buffer, share: seq<byte>)
    requires KeyInv(was, now, 0, share)
    ensures now.pos == was.pos + |share| <= |now.mem| == |was.mem| && now.mem == Store(was.mem, was.pos, share)
  {
    assert now.mem == now.mem[..was.pos] + now.mem[was.pos..now.pos] + now.mem[now.pos..];
  }

  /**
   A cursor with no operation in flight has moved over exactly its own share of the transfers,
   which lies where the cursor passed; the rest of its memory is untouched.
   */
  lemma CursorMovedByItsShare<K>(s: Pipe<K>, es: seq<Event<K>>, key: K)
    requires Initial(s) && Feasible(s, es) && key in s.buffers
    requires !Busy(Run(s, es).ops, key)
    ensures key in Run(s, es).buffers
    ensures var was, t := s.buffers[key], Run(s, es);
            var now := t.buffers[key];
            && now.pos == was.pos + |Share(t.log, key)| <= |now.mem| == |was.mem|
            && now.mem == Store(was.mem, was.pos, Share(t.log, key))
  {
    ReachableInv(s, es);
    var t := Run(s, es);
    var was, now := s.buffers[key], t.buffers[key];
    AheadOfNone(t.ops, key);
    assert KeyHolds(t, s.buffers, key);
    ShareLiesInPlace(was, now, Share(t.log, key));
  }

  /** An operation that was served can no longer fail, and one that failed was never served. */
  lemma ValueExactlyWhenServed<K>(s: Pipe<K>, es: seq<Event<K>>, i: nat)
    requires Initial(s) && Feasible(s, es) && i < |Run(s, es).ops|
    ensures var t := Run(s, es);
            && TimesServed(t.log, i) <= 1
            && (t.ops[i].status.Resolved? ==> (t.ops[i].status.outcome.Value? <==> TimesServed(t.log, i) == 1))
            && (t.ops[i].status.Waiting? || t.ops[i].status.Failed? ==> TimesServed(t.log, i) == 0)
  {
    ReachableInv(s, es);
    assert TimesServed(Run(s, es).log, i) == if Served(Run(s, es).ops[i]) then 1 else 0;
  }

  function Posts<K>(es: seq<Event<K>>): nat {
    if es == [] then 0 else (if es[0].Post? then 1 else 0) + Posts(es[1..])
  }

  /** Each post adds one operation; a resolved promise keeps its outcome for ever. */
  lemma {:induction false} ResolvedForGood<K>(s: Pipe<K>, es: seq<Event<K>>)
    requires Feasible(s, es)
    ensures |Run(s, es).ops| == |s.ops| + Posts(es)
    ensures forall i | 0 <= i < |s.ops| && s.ops[i].status.Resolved? :: Run(s, es).ops[i] == s.ops[i]
    decreases es
  {
    if es != [] {
      ResolvedForGood(Step(s, es[0]), es[1..]);
    }
  }

  // ---------------------------------------------------------------------------------------
  // Nothing stays pending once the pipe is closed and the loop has run.

  /** The handlers left to run, from operation `from` on. */
  function Handlers<K>(ops: seq<Op<K>>, from: nat): seq<Event<K>>
    requires from <= |ops|
    decreases |ops| - from
  {
    if from == |ops| then []
    else (if ops[from].Pending() then [Handler(from)] else []) + Handlers(ops, from + 1)
  }

  lemma {:induction false} HandlersAgree<K>(ops: seq<Op<K>>, others: seq<Op<K>>, from: nat)
    requires from <= |ops| == |others| && ops[from..] == others[from..]
    ensures Handlers(ops, from) == Handlers(others, from)
    decreases |ops| - from
  {
    if from < |ops| {
      assert ops[from] == ops[from..][0] == others[from..][0] == others[from];
      assert ops[from + 1..] == ops[from..][1..];
      HandlersAgree(ops, others, from + 1);
    }
  }

  predicate ReadyFrom<K(==)>(s: Pipe<K>, from: nat)
    requires from <= |s.ops|
  {
    && (forall i | 0 <= i < |s.ops| :: s.ops[i].key in s.buffers && !s.ops[i].status.Waiting?)
    && (forall i | 0 <= i < from :: !s.ops[i].Pending())
  }

  lemma HandlerMakesReady<K>(s: Pipe<K>, from: nat)
    requires from < |s.ops| && ReadyFrom(s, from) && s.ops[from].Pending()
    ensures Enabled(s, Handler(from))
    ensures var t := Step(s, Handler(from));
            && |t.ops| == |s.ops| && ReadyFrom(t, from + 1)
            && Handlers(s.ops, from) == [Handler(from)] + Handlers(t.ops, from + 1)
  {
    HandlersAgree(s.ops, Step(s, Handler(from)).ops, from + 1);
  }

  lemma {:induction false} HandlersDrain<K>(s: Pipe<K>, from: nat)
    requires from <= |s.ops| && ReadyFrom(s, from)
    ensures Feasible(s, Handlers(s.ops, from))
    ensures var t := Run(s, Handlers(s.ops, from));
            |t.ops| == |s.ops| && forall i | 0 <= i < |t.ops| :: !t.ops[i].Pending()
    decreases |s.ops| - from
  {
    if from < |s.ops| {
      if s.ops[from].Pending() {
        HandlerMakesReady(s, from);
        HandlersDrain(Step(s, Handler(from)), from + 1);
      } else {
        HandlersDrain(s, from + 1);
        assert Handlers(s.ops, from) == Handlers(s.ops, from + 1);
      }
    }
  }

  /** From every reachable state, closing and running each handler once resolves every promise. */
  lemma ClosingResolvesEverything<K>(s: Pipe<K>, es: seq<Event<K>>)
    requires Initial(s) && Feasible(s, es)
    ensures var closed := Step(Run(s, es), Close);
            && Feasible(closed, Handlers(closed.ops, 0))
            && var t := Run(closed, Handlers(closed.ops, 0));
               |t.ops| == |closed.ops| && forall i | 0 <= i < |t.ops| :: t.ops[i].status.Resolved?
  {
    ReachableInv(s, es);
    var closed := Step(Run(s, es), Close);
    forall i | 0 <= i < |closed.ops| ensures closed.ops[i].key in closed.buffers {
      assert OpInv(Run(s, es), Run(s, es).ops[i]);
    }
    HandlersDrain(closed, 0);
  }

  // ---------------------------------------------------------------------------------------
  // One source and one destination.

  predicate OneWay<K(==)>(log: seq<Chunk<K>>, src: K, dst: K) {
    forall c | c in log :: c.key == if c.dir.Write? then src else dst
  }

  lemma {:induction false} SharesOfOneWay<K>(log: seq<Chunk<K>>, src: K, dst: K)
    requires src != dst && OneWay(log, src, dst)
    ensures Share(log, src) == Moves(log, Write) && Share(log, dst) == Moves(log, Read)
  {
    if log != [] {
      SharesOfOneWay(log[..|log| - 1], src, dst);
      assert log[|log| - 1] in log;
    }
  }

  predicate PostsOneWay<K(==)>(es: seq<Event<K>>, src: K, dst: K) {
    forall e | e in es && e.Post? :: e.key == if e.dir.Write? then src else dst
  }

  predicate OpsOneWay<K(==)>(ops: seq<Op<K>>, src: K, dst: K) {
    forall i | 0 <= i < |ops| :: ops[i].key == if ops[i].dir.Write? then src else dst
  }

  lemma {:induction false} RunOneWay<K>(s: Pipe<K>, es: seq<Event<K>>, src: K, dst: K)
    requires Feasible(s, es) && OneWay(s.log, src, dst) && OpsOneWay(s.ops, src, dst) && PostsOneWay(es, src, dst)
    ensures OneWay(Run(s, es).log, src, dst)
    decreases es
  {
    if es != [] {
      var t := Step(s, es[0]);
      assert es[0] in es;
      assert OneWay(t.log, src, dst);
      assert OpsOneWay(t.ops, src, dst);
      RunOneWay(t, es[1..], src, dst);
    }
  }

  /**
   A writer with one source and a reader with one destination: when neither has an operation in
   flight, what the reader's cursor passed is a prefix of what the writer's cursor passed, and
   the rest of that is what the pipe still holds.
   */
  lemma ReaderSeesWriter<K>(s: Pipe<K>, es: seq<Event<K>>, src: K, dst: K)
    requires Initial(s) && Feasible(s, es) && src != dst && src in s.buffers && dst in s.buffers
    requires PostsOneWay(es, src, dst)
    requires !Busy(Run(s, es).ops, src) && !Busy(Run(s, es).ops, dst)
    ensures var t := Run(s, es);
            && src in t.buffers && dst in t.buffers
            && s.buffers[dst].pos <= t.buffers[dst].pos <= |t.buffers[dst].mem|
            && s.buffers[src].pos <= t.buffers[src].pos <= |s.buffers[src].mem|
            && t.buffers[dst].mem[s.buffers[dst].pos..t.buffers[dst].pos] + t.queue
            == s.buffers[src].mem[s.buffers[src].pos..t.buffers[src].pos]
  {
    var t := Run(s, es);
    RunOneWay(s, es, src, dst);
    SharesOfOneWay(t.log, src, dst);
    BytesAreConserved(s, es);
    CursorMovedByItsShare(s, es, src);
    CursorMovedByItsShare(s, es, dst);
    SourceKeeps(s, es, src, dst);
  }

  /** No transfer changes the memory of a source. */
  lemma {:induction false} SourceKeeps<K>(s: Pipe<K>, es: seq<Event<K>>, src: K, dst: K)
    requires Feasible(s, es) && OpsOneWay(s.ops, src, dst) && PostsOneWay(es, src, dst)
    requires src != dst && src in s.buffers
    ensures src in Run(s, es).buffers && Run(s, es).buffers[src].mem == s.buffers[src].mem
    decreases es
  {
    if es != [] {
      var t := Step(s, es[0]);
      assert es[0] in es;
      assert OpsOneWay(t.ops, src, dst);
      assert t.buffers[src].mem == s.buffers[src].mem;
      SourceKeeps(t, es[1..], src, dst);
    }
  }
}
