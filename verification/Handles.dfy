/**
 The handle classes over the kernel: File, BufferedFile, Duplex (and Pipe), SharedMemory.

 Every method's effect is stated by the operation of the ownership model it performs.
 */
module Handles {
  import opened Options
  import opened Ownership

  class Os {
    var state: Kernel

    constructor ()
      ensures state == EMPTY_KERNEL
    {
      state := EMPTY_KERNEL;
    }

    /** open(2), fopen, one end of pipe(2) or shm_open: the kernel hands out a descriptor. */
    method OpenAs(fd: int, name: Option<string>)
      requires fd >= 0 && fd !in state.table
      modifies this
      ensures state == Open(old(state), fd, name)
    {
      state := Open(state, fd, name);
    }

    /** close(2). */
    method CloseFd(fd: int, destroyed: bool)
      modifies this
      ensures state == Ownership.Close(old(state), fd, destroyed)
    {
      state := Ownership.Close(state, fd, destroyed);
    }

    /** shm_unlink(3). */
    method UnlinkName(name: string)
      modifies this
      ensures state == Unlink(old(state), name)
    {
      state := Unlink(state, name);
    }
  }

  class FileHandle {
    var fd: int

    function View(): Handle
      reads this
    {
      File(fd)
    }

    constructor FromFd(fid: int)
      ensures View() == File(fid)
    {
      fd := fid;
    }

    constructor Move(other: FileHandle)
      modifies other
      ensures View() == old(other.View()) && other.View() == Emptied(old(other.View()))
      ensures fd == old(other.fd) && other.fd == -1
    {
      fd := other.fd;
      new;
      var was := other.InvalidateFd();
    }

    method InvalidateFd() returns (was: int)
      modifies this
      ensures was == old(fd) && fd == INVALID_FD
    {
      was := fd;
      fd := INVALID_FD;
    }

    /** None stands for the NotOpen exception. */
    method ValidateFd() returns (valid: Option<int>)
      ensures valid == if fd == INVALID_FD then None else Some(fd)
    {
      valid := if fd == INVALID_FD then None else Some(fd);
    }

    /** Also what move assignment does. */
    method SwapWith(rhs: FileHandle)
      modifies this, rhs
      ensures View() == old(rhs.View()) && rhs.View() == old(View())
    {
      var mine := fd;
      fd := rhs.fd;
      rhs.fd := mine;
    }

    method CloseHandle(os: Os)
      modifies this, os
      ensures (os.state, View()) == CloseOf(old(os.state), old(View()))
      ensures fd == -1
    {
      CloseUnlessClosed(os, false);
    }

    /** The destructor: close if opened. */
    method Destroy(os: Os)
      modifies this, os
      ensures os.state == DestroyOf(old(os.state), old(View()))
    {
      CloseUnlessClosed(os, true);
    }

    method CloseUnlessClosed(os: Os, destroyed: bool)
      modifies this, os
      ensures fd == INVALID_FD
      ensures os.state
           == if old(fd) == INVALID_FD then old(os.state) else Ownership.Close(old(os.state), old(fd), destroyed)
    {
      if fd == INVALID_FD {
        return;
      }
      var valid := ValidateFd();
      os.CloseFd(valid.value, destroyed);
      var was := InvalidateFd();
    }
  }

  class BufferedFile {
    const base: FileHandle
    var stream: Option<int>

    function View(): Handle
      reads this, base
    {
      Buffered(base.fd, stream)
    }

    /** Wrap an open stream; the descriptor is the stream's own. */
    constructor (fp: int)
      ensures View() == Buffered(fp, Some(fp)) && fresh(base)
    {
      var file := new FileHandle.FromFd(fp);
      base := file;
      stream := Some(fp);
    }

    method SwapWith(rhs: BufferedFile)
      requires base == rhs.base ==> this == rhs
      modifies this, rhs, base, rhs.base
      ensures View() == old(rhs.View()) && rhs.View() == old(View())
    {
      var mine := stream;
      stream := rhs.stream;
      rhs.stream := mine;
      base.SwapWith(rhs.base);
    }

    method CloseHandle(os: Os)
      modifies this, base, os
      ensures (os.state, View()) == CloseOf(old(os.state), old(View()))
      ensures base.fd == -1 && stream.None?
    {
      CloseStream(os, false);
    }

    /** The destructor closes, then the base class destructor finds an invalid descriptor. */
    method Destroy(os: Os)
      modifies this, base, os
      ensures os.state == DestroyOf(old(os.state), old(View()))
    {
      CloseStream(os, true);
      base.Destroy(os);
    }

    method CloseStream(os: Os, destroyed: bool)
      modifies this, base, os
      ensures View() == Buffered(INVALID_FD, None)
      ensures os.state
           == match old(stream)
              case Some(fd) => Ownership.Close(old(os.state), fd, destroyed)
              case None => old(os.state)
    {
      if stream.Some? {
        os.CloseFd(stream.value, destroyed);
        stream := None;
      }
      var was := base.InvalidateFd();
    }
  }

  class DuplexHandle {
    const input: FileHandle
    const output: FileHandle

    ghost predicate Apart()
    {
      input != output
    }

    /** Each end is moved out of the argument it came in. */
    constructor (inFile: FileHandle, outFile: FileHandle)
      requires inFile != outFile
      modifies inFile, outFile
      ensures Apart() && fresh(input) && fresh(output)
      ensures input.View() == old(inFile.View()) && inFile.View() == Emptied(old(inFile.View()))
      ensures output.View() == old(outFile.View()) && outFile.View() == Emptied(old(outFile.View()))
    {
      var i := new FileHandle.Move(inFile);
      var o := new FileHandle.Move(outFile);
      input, output := i, o;
    }

    /** Temporary files wrap the descriptors; they are empty by the time they are destroyed. */
    constructor FromFds(os: Os, inFid: int, outFid: int)
      modifies os
      ensures Apart() && fresh(input) && fresh(output)
      ensures input.View() == File(inFid) && output.View() == File(outFid)
      ensures os.state == old(os.state)
    {
      var inFile := new FileHandle.FromFd(inFid);
      var outFile := new FileHandle.FromFd(outFid);
      var i := new FileHandle.Move(inFile);
      var o := new FileHandle.Move(outFile);
      input, output := i, o;
      new;
      outFile.Destroy(os);
      inFile.Destroy(os);
    }

    constructor Move(rhs: DuplexHandle)
      requires rhs.Apart()
      modifies rhs.input, rhs.output
      ensures Apart() && fresh(input) && fresh(output)
      ensures input.View() == old(rhs.input.View()) && rhs.input.View() == Emptied(old(rhs.input.View()))
      ensures output.View() == old(rhs.output.View()) && rhs.output.View() == Emptied(old(rhs.output.View()))
    {
      var i := new FileHandle.Move(rhs.input);
      var o := new FileHandle.Move(rhs.output);
      input, output := i, o;
    }

    /** Swap, and move assignment; swapping a duplex with itself changes nothing. */
    method SwapWith(rhs: DuplexHandle)
      requires Apart() && rhs.Apart()
      requires this == rhs || {input, output} !! {rhs.input, rhs.output}
      modifies input, output, rhs.input, rhs.output
      ensures input.View() == old(rhs.input.View()) && rhs.input.View() == old(input.View())
      ensures output.View() == old(rhs.output.View()) && rhs.output.View() == old(output.View())
    {
      input.SwapWith(rhs.input);
      output.SwapWith(rhs.output);
    }

    /** Opened while either end is. */
    method IsOpened() returns (isOpen: bool)
      ensures isOpen <==> input.fd != INVALID_FD || output.fd != INVALID_FD
    {
      isOpen := input.fd != INVALID_FD || output.fd != INVALID_FD;
    }

    method CloseHandle(os: Os)
      requires Apart()
      modifies input, output, os
      ensures (os.state, input.View(), output.View())
           == ClosePairOf(old(os.state), old(input.View()), old(output.View()))
    {
      input.CloseHandle(os);
      output.CloseHandle(os);
    }

    /** Members are destroyed in reverse order. */
    method Destroy(os: Os)
      requires Apart()
      modifies input, output, os
      ensures os.state == DestroyPairOf(old(os.state), old(input.View()), old(output.View()))
    {
      output.Destroy(os);
      input.Destroy(os);
    }
  }

  /** An end is open, as `isOpened` asks, exactly when closing the duplex reaches the kernel. */
  lemma OpenedIffCloseHasWork(k: Kernel, input: Handle, output: Handle)
    requires input.File? && output.File?
    ensures input.fd != INVALID_FD || output.fd != INVALID_FD
       <==> CloseOf(CloseOf(k, input).0, output).0 != k
    ensures var after := CloseOf(CloseOf(k, input).0, output).0;
            CloseOf(after, CloseOf(k, input).1).0 == after && CloseOf(after, CloseOf(k, output).1).0 == after
  {
    var mid := CloseOf(k, input).0;
    var after := CloseOf(mid, output).0;
    assert input.fd != INVALID_FD ==> |mid.closed| + mid.faults == |k.closed| + k.faults + 1;
    assert output.fd != INVALID_FD ==> |after.closed| + after.faults == |mid.closed| + mid.faults + 1;
  }

  /** The Pipe constructor: pipe(2), a duplex around both ends, and one move of it. */
  method CreatePipe(os: Os, readEnd: int, writeEnd: int) returns (pipe: DuplexHandle)
    requires readEnd >= 0 && writeEnd >= 0 && readEnd != writeEnd
    requires readEnd !in os.state.table && writeEnd !in os.state.table
    modifies os
    ensures fresh(pipe) && pipe.Apart() && fresh(pipe.input) && fresh(pipe.output)
    ensures pipe.input.View() == File(readEnd) && pipe.output.View() == File(writeEnd)
    ensures os.state == Open(Open(old(os.state), readEnd, None), writeEnd, None)
  {
    var fds := new int[2];
    os.OpenAs(readEnd, None);
    os.OpenAs(writeEnd, None);
    fds[0], fds[1] := readEnd, writeEnd;
    var duplex := new DuplexHandle.FromFds(os, fds[0], fds[1]);
    pipe := new DuplexHandle.Move(duplex);
    duplex.Destroy(os);
  }

  const NAME_MAX := 255

  class SharedMemory {
    var fd: int
    var linkedPath: Option<string>

    function View(): Handle
      reads this
    {
      Shared(fd, linkedPath)
    }

    constructor FromFd(fid: int, path: Option<string>)
      ensures View() == Shared(fid, path)
    {
      fd := fid;
      linkedPath := path;
    }

    constructor Move(other: SharedMemory)
      modifies other
      ensures View() == old(other.View()) && other.View() == Emptied(old(other.View()))
      ensures fd == old(other.fd) && linkedPath == old(other.linkedPath)
      ensures other.fd == -1 && other.linkedPath.None?
    {
      fd := other.fd;
      linkedPath := other.linkedPath;
      new;
      other.linkedPath := None;
      other.fd := INVALID_FD;
    }

    method SwapWith(rhs: SharedMemory)
      modifies this, rhs
      ensures View() == old(rhs.View()) && rhs.View() == old(View())
    {
      var myFd, myPath := fd, linkedPath;
      fd, linkedPath := rhs.fd, rhs.linkedPath;
      rhs.fd, rhs.linkedPath := myFd, myPath;
    }

    /** Closing an invalid handle throws NotOpen and changes nothing; the path stays behind. */
    method CloseHandle(os: Os) returns (ok: bool)
      modifies this, os
      ensures ok <==> old(fd) != -1
      ensures (os.state, View()) == CloseOf(old(os.state), old(View()))
      ensures fd == -1 && linkedPath == old(linkedPath)
    {
      ok := fd != INVALID_FD;
      if ok {
        os.CloseFd(fd, false);
        fd := INVALID_FD;
      }
    }

    method Destroy(os: Os)
      modifies this, os
      ensures os.state == DestroyOf(old(os.state), old(View()))
    {
      if fd != INVALID_FD {
        os.CloseFd(fd, true);
        fd := INVALID_FD;
        if linkedPath.Some? {
          os.UnlinkName(linkedPath.value);
        }
      }
    }
  }

  /** `create` throws on an empty size or a long name before it asks the kernel for anything. */
  method CreateSharedMemory(os: Os, name: string, memSize: nat, fd: int) returns (made: Option<SharedMemory>)
    requires fd >= 0 && fd !in os.state.table
    modifies os
    ensures made.Some? <==> memSize > 0 && |name| < 255
    ensures made.None? ==> os.state == old(os.state)
    ensures made.Some? ==>
              && fresh(made.value) && made.value.View() == Shared(fd, Some(name))
              && os.state == Open(old(os.state), fd, Some(name))
  {
    if memSize == 0 || |name| >= NAME_MAX {
      return None;
    }
    os.OpenAs(fd, Some(name));
    var memory := new SharedMemory.FromFd(fd, Some(name));
    made := Some(memory);
  }

  /** `open` takes no name along, so its handle never unlinks. */
  method OpenSharedMemory(os: Os, name: string, fd: int) returns (made: Option<SharedMemory>)
    requires fd >= 0 && fd !in os.state.table
    modifies os
    ensures made.Some? <==> |name| < 255
    ensures made.None? ==> os.state == old(os.state)
    ensures made.Some? ==>
              && fresh(made.value) && made.value.View() == Shared(fd, None)
              && os.state == Open(old(os.state), fd, None)
  {
    if |name| >= NAME_MAX {
      return None;
    }
    os.OpenAs(fd, None);
    var memory := new SharedMemory.FromFd(fd, None);
    made := Some(memory);
  }
}
