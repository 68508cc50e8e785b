/** The pipe object: two descriptors overwritten by closes and moves. */
module Pipes {
  import opened PipeSpec

  /** The kernel's table of the descriptors that pipes opened. */
  class Kernel {
    var open: set<nat>

    constructor ()
      ensures open == {}
    {
      open := {};
    }

    method Close(fd: int) returns (closed: bool)
      modifies this
      ensures closed <==> fd in old(open)
      ensures open == if closed then old(open) - {fd} else old(open)
    {
      closed := fd in open;
      if closed {
        open := open - {fd};
      }
    }
  }

  class Pipe {
    var fd: array<int>

    ghost predicate Valid()
      reads this
    {
      fd.Length == 2
    }

    ghost function Own(): Ends
      reads this, fd
      requires Valid()
    {
      Ends(fd[0], fd[1])
    }

    static function Index(ep: EndPoint): (i: nat)
      ensures i < 2
    {
      if ep.ReadEnd? then 0 else 1
    }

    /** `read` and `write` are the descriptors that the kernel hands out. */
    constructor (kernel: Kernel, read: nat, write: nat)
      requires Legal(World(kernel.open, map[]), Create(0, read, write))
      modifies kernel
      ensures Valid() && fresh(fd) && fd[Index(ReadEnd)] == read && fd[Index(WriteEnd)] == write
      ensures World(kernel.open, map[0 := Own()]) == Step(World(old(kernel.open), map[]), Create(0, read, write)).0
    {
      fd := new int[2];
      new;
      fd[0], fd[1] := read, write;
      kernel.open := kernel.open + {read, write};
    }

    method IsOpen(ep: EndPoint) returns (isOpen: bool)
      requires Valid()
      ensures isOpen <==> Own().At(ep) != CLOSED
    {
      isOpen := fd[Index(ep)] != CLOSED;
    }

    method Close(kernel: Kernel, ep: EndPoint) returns (status: Status)
      requires Valid()
      modifies kernel, fd
      ensures Valid() && (kernel.open, Own(), status) == CloseEnd(old(kernel.open), old(Own()), ep)
    {
      var isOpen := IsOpen(ep);
      if !isOpen {
        return Ok;
      }
      var closed := kernel.Close(fd[Index(ep)]);
      if !closed {
        return ErrorClosing;
      }
      fd[Index(ep)] := CLOSED;
      status := Ok;
    }

    method CloseBothEnds(kernel: Kernel) returns (status: Status)
      requires Valid()
      modifies kernel, fd
      ensures Valid() && (kernel.open, Own(), status) == CloseBoth(old(kernel.open), old(Own()))
    {
      status := Close(kernel, ReadEnd);
      if status.Ok? {
        status := Close(kernel, WriteEnd);
      }
    }

    constructor MoveFrom(other: Pipe)
      requires other.Valid()
      modifies other.fd
      ensures Valid() && fresh(fd) && other.Valid()
      ensures var w := World({}, map[1 := old(other.Own())]);
              World({}, map[0 := Own(), 1 := other.Own()]) == Step(w, MoveConstruct(0, 1)).0
    {
      fd := new int[2];
      new;
      fd[0], fd[1] := other.fd[0], other.fd[1];
      other.fd[0], other.fd[1] := CLOSED, CLOSED;
    }

    /** The source may be this very pipe. */
    method Assign(kernel: Kernel, other: Pipe) returns (status: Status)
      requires Valid() && other.Valid() && (other != this ==> other.fd != fd)
      modifies kernel, fd, other.fd
      ensures Valid() && other.Valid()
      ensures other != this ==>
                var w := World(old(kernel.open), map[0 := old(Own()), 1 := old(other.Own())]);
                (World(kernel.open, map[0 := Own(), 1 := other.Own()]), status) == Step(w, MoveAssign(0, 1))
      ensures other == this ==>
                var w := World(old(kernel.open), map[0 := old(Own())]);
                (World(kernel.open, map[0 := Own()]), status) == Step(w, MoveAssign(0, 0))
    {
      ghost var w := World(kernel.open, map[0 := Own(), 1 := other.Own()]);
      ghost var self := World(kernel.open, map[0 := Own()]);
      status := CloseBothEnds(kernel);
      if status.Ok? {
        fd[0], fd[1] := other.fd[0], other.fd[1];
        other.fd[0], other.fd[1] := CLOSED, CLOSED;
      }
      if other != this {
        assert Step(w, MoveAssign(0, 1)).0.pipes == map[0 := Own(), 1 := other.Own()];
      } else {
        assert Step(self, MoveAssign(0, 0)).0.pipes == map[0 := Own()];
      }
    }
  }
}
