/**
 The Session object of the asynchronous server example, over its two arrays and cursors.

 Each handler is a method; what it does to the object is the step of the echo protocol.
 */
module EchoSession {
  import opened Cursors
  import opened Base16
  import opened Echo

  class SessionObject {
    const alphabet: seq<byte>
    const inBuffer: array<byte>
    const outBuffer: array<byte>
    const writer: Cursor
    const reader: Cursor
    var phase: Phase
    ghost var taken: seq<byte>
    ghost var sent: seq<byte>

    ghost predicate Valid()
      reads this, writer, reader, inBuffer, outBuffer
    {
      && |alphabet| == 16
      && inBuffer != outBuffer && writer != reader
      && writer.storage == inBuffer && reader.storage == outBuffer
      && WellFormed(View())
    }

    ghost function View(): Session
      reads this, writer, reader, inBuffer, outBuffer
    {
      Session(phase, Buffer(inBuffer[..], writer.position), Buffer(outBuffer[..], reader.position), taken, sent)
    }

    constructor (symbols: seq<byte>)
      requires |symbols| == 16
      ensures Valid() && Initial(View()) && alphabet == symbols
      ensures fresh(writer) && fresh(reader) && fresh(inBuffer) && fresh(outBuffer)
    {
      var input := new byte[IN_SIZE](_ => 0);
      var output := new byte[OUT_SIZE](_ => 0);
      var w := new Cursor(input);
      var r := new Cursor(output);
      alphabet := symbols;
      inBuffer, outBuffer := input, output;
      writer, reader := w, r;
      phase := Fresh;
      taken, sent := [], [];
    }

    /** Clear the in-buffer and post a read for all of it. */
    method DoRead(stopped: bool)
      requires Valid() && Enabled(View(), Begin(stopped))
      modifies this, writer
      ensures Valid() && View() == Step(alphabet, old(View()), Begin(stopped))
    {
      PostRead(stopped);
    }

    /** The body that DoRead and the write handler share. */
    method PostRead(stopped: bool)
      requires |alphabet| == 16 && inBuffer != outBuffer && writer != reader
      requires writer.storage == inBuffer && reader.storage == outBuffer
      requires BuffersFit(View())
      modifies this, writer
      ensures Valid() && View() == Echo.DoRead(old(View()), stopped)
    {
      if stopped {
        phase := Ended;
        return;
      }
      writer.Rewind();
      var room := writer.Remaining();
      phase := Reading(Transfer(writer.position, room, 0));
    }

    /** The kernel stores some bytes of the posted range; no handler has run yet. */
    method KernelStores(bytes: seq<byte>)
      requires Valid() && Enabled(View(), KernelRead(bytes))
      modifies this, inBuffer
      ensures Valid() && View() == Step(alphabet, old(View()), KernelRead(bytes))
    {
      writer.Fill(phase.op.start + phase.op.moved, bytes);
      phase := Reading(phase.op.(moved := phase.op.moved + |bytes|));
      taken := taken + bytes;
    }

    /** Append the Base16 text of `data` through a cursor. */
    method EncodeInto(response: Cursor, data: seq<byte>)
      requires |alphabet| == 16 && response.Valid() && response.position == 0
      requires 2 * |data| <= response.storage.Length
      modifies response, response.storage
      ensures response.Valid() && response.position == 2 * |data|
      ensures response.storage[..response.position] == Encode(alphabet, data)
    {
      for i := 0 to |data|
        invariant response.Valid() && response.position == 2 * i
        invariant response.storage[..2 * i] == Encode(alphabet, data[..i])
      {
        EncodeAppend(alphabet, data[..i], data[i]);
        assert data[..i + 1] == data[..i] + [data[i]];
        var ok := response.Write(alphabet[data[i] / 16]);
        ok := response.Write(alphabet[data[i] % 16]);
        assert response.storage[..2 * i + 2]
            == response.storage[..2 * i] + [alphabet[data[i] / 16], alphabet[data[i] % 16]];
      }
      assert data[..|data|] == data;
    }

    /** The read is complete: advance, encode, end the line, and post the write of all of it. */
    method OnRead()
      requires Valid() && Enabled(View(), ReadHandler)
      modifies this, writer, outBuffer
      ensures Valid() && View() == Step(alphabet, old(View()), ReadHandler)
    {
      var advanced := writer.Advance(phase.op.len);
      var response := new Cursor(outBuffer);
      var data := inBuffer[..writer.position];
      EncodeInto(response, data);
      var ended := response.Write(NEWLINE);
      assert outBuffer[..] == Answer(alphabet, data);
      var room := reader.Remaining();
      phase := Writing(Transfer(reader.position, room, 0));
    }

    /** The kernel takes some bytes of the posted range; no handler has run yet. */
    method KernelTakes(n: nat) returns (bytes: seq<byte>)
      requires Valid() && Enabled(View(), KernelWrite(n))
      modifies this
      ensures Valid() && View() == Step(alphabet, old(View()), KernelWrite(n))
      ensures sent == old(sent) + bytes
    {
      var from := phase.op.start + phase.op.moved;
      bytes := outBuffer[from..from + n];
      assert bytes == outBuffer[..][from..from + n];
      phase := Writing(phase.op.(moved := phase.op.moved + n));
      sent := sent + bytes;
    }

    /** The write is complete: rewind the reader and read again. */
    method OnWrite(stopped: bool)
      requires Valid() && Enabled(View(), WriteHandler(stopped))
      modifies this, writer, reader
      ensures Valid() && View() == Step(alphabet, old(View()), WriteHandler(stopped))
    {
      var advanced := reader.Advance(phase.op.len);
      reader.Rewind();
      PostRead(stopped);
    }

    /** A failed operation has no continuation, so nothing is posted again. */
    method OnError()
      requires Valid() && Enabled(View(), Fail)
      modifies this
      ensures Valid() && View() == Step(alphabet, old(View()), Fail)
    {
      phase := Ended;
    }
  }

  /** The connection handler: a session of its own for the connection, and its first read. */
  method OnNewConnection(symbols: seq<byte>, stopped: bool) returns (session: SessionObject, ghost initial: Session)
    requires |symbols| == 16
    ensures fresh(session) && session.Valid() && session.alphabet == symbols
    ensures Initial(initial) && session.View() == Step(symbols, initial, Begin(stopped))
  {
    session := new SessionObject(symbols);
    initial := session.View();
    session.DoRead(stopped);
  }
}
