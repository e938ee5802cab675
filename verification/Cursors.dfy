/**
 Byte buffers and the position cursors that the library's readers and writers keep over them.

 ByteReader and ByteWriter come from libsolace, which is not part of this model: both are a
 position that runs over a fixed range of memory, so one class stands for the two.
 */
module Cursors {

  type byte = x: int | 0 <= x < 256

  /** The memory a cursor runs over, and how far it has got, as values. */
  datatype Buffer = Buffer(mem: seq<byte>, pos: nat) {
    predicate Valid() {
      pos <= |mem|
    }

    function Remaining(): nat
      requires Valid()
    {
      |mem| - pos
    }
  }

  /** `dst` with `bytes` stored from index `at` on. */
  function Store(dst: seq<byte>, at: nat, bytes: seq<byte>): (r: seq<byte>)
    requires at + |bytes| <= |dst|
    ensures |r| == |dst|
    ensures r[..at] == dst[..at]
    ensures r[at..at + |bytes|] == bytes
    ensures r[at + |bytes|..] == dst[at + |bytes|..]
  {
    dst[..at] + bytes + dst[at + |bytes|..]
  }

  class Cursor {
    const storage: array<byte>
    var position: nat

    ghost predicate Valid()
      reads this
    {
      position <= storage.Length
    }

    ghost function View(): Buffer
      reads this, storage
    {
      Buffer(storage[..], position)
    }

    /** Wrap a piece of memory. */
    constructor (memory: array<byte>)
      ensures Valid() && storage == memory && position == 0
    {
      storage := memory;
      position := 0;
    }

    method Remaining() returns (n: nat)
      requires Valid()
      ensures n == View().Remaining()
    {
      n := storage.Length - position;
    }

    /** Move forward over bytes that are already in place; refuses to pass the limit. */
    method Advance(n: nat) returns (ok: bool)
      requires Valid()
      modifies this
      ensures Valid()
      ensures ok <==> old(position) + n <= storage.Length
      ensures position == if ok then old(position) + n else old(position)
    {
      ok := position + n <= storage.Length;
      if ok {
        position := position + n;
      }
    }

    /** `clear` of a writer and `rewind` of a reader: start over from the first byte. */
    method Rewind()
      modifies this
      ensures Valid() && position == 0
    {
      position := 0;
    }

    /** Store bytes into the memory without moving the position, as a transfer does. */
    method Fill(at: nat, bytes: seq<byte>)
      requires at + |bytes| <= storage.Length
      modifies storage
      ensures storage[..] == Store(old(storage[..]), at, bytes)
    {
      forall i | 0 <= i < |bytes| {
        storage[at + i] := bytes[i];
      }
      assert storage[..] == Store(old(storage[..]), at, bytes);
    }

    /** Append one byte at the position; refuses to write past the limit. */
    method Write(b: byte) returns (ok: bool)
      requires Valid()
      modifies this, storage
      ensures Valid()
      ensures ok <==> old(position) < storage.Length
      ensures ok ==> View() == Buffer(old(storage[..])[old(position) := b], old(position) + 1)
      ensures !ok ==> View() == old(View())
    {
      ok := position < storage.Length;
      if ok {
        storage[position] := b;
        position := position + 1;
      }
    }
  }
}
