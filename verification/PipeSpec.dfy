/** Pipe objects as owners of descriptors: creation, close, move construction, move assignment
    and destruction, on values, together with the closes the kernel refuses. */
module PipeSpec {
  const CLOSED := -1

  datatype EndPoint = ReadEnd | WriteEnd

  /** The two descriptors of a pipe object, each CLOSED or owned. */
  datatype Ends = Ends(read: int, write: int) {
    function At(ep: EndPoint): int { if ep.ReadEnd? then read else write }
    function With(ep: EndPoint, fd: int): Ends { if ep.ReadEnd? then Ends(fd, write) else Ends(read, fd) }
  }

  const BOTH_CLOSED := Ends(CLOSED, CLOSED)

  /** The kernel refuses to close a descriptor that is not open. */
  datatype Status = Ok | ErrorClosing

  /** Closing an end point: nothing when it is closed already; on an error it is left as it is. */
  function CloseEnd(open: set<nat>, ends: Ends, ep: EndPoint): (set<nat>, Ends, Status) {
    var fd := ends.At(ep);
    if fd == CLOSED then (open, ends, Ok)
    else if fd !in open then (open, ends, ErrorClosing)
    else (open - {fd}, ends.With(ep, CLOSED), Ok)
  }

  /** Closing the read end, then the write end. */
  function CloseBoth(open: set<nat>, ends: Ends): (set<nat>, Ends, Status) {
    var (open', ends', status) := CloseEnd(open, ends, ReadEnd);
    if status.Ok? then CloseEnd(open', ends', WriteEnd) else (open', ends', status)
  }

  type Name = nat

  /** The descriptors that pipes opened and nobody closed, and the pipe objects alive. */
  datatype World = World(open: set<nat>, pipes: map<Name, Ends>)

  datatype Op =
    | Create(name: Name, read: nat, write: nat)      // with the descriptors the kernel hands out
    | Close(name: Name, ep: EndPoint)
    | MoveConstruct(name: Name, from: Name)
    | MoveAssign(name: Name, from: Name)
    | Destroy(name: Name)

  /** What the language demands: new objects have new names, the others are alive; and the
      kernel hands out two descriptors that are not in use. */
  predicate Legal(w: World, op: Op) {
    match op
    case Create(name, read, write) =>
      name !in w.pipes && read != write && read !in w.open && write !in w.open
    case Close(name, _) => name in w.pipes
    case MoveConstruct(name, from) => name !in w.pipes && from in w.pipes
    case MoveAssign(name, from) => name in w.pipes && from in w.pipes
    case Destroy(name) => name in w.pipes
  }

  function Step(w: World, op: Op): (World, Status)
    requires Legal(w, op)
  {
    match op
    case Create(name, read, write) =>
      (World(w.open + {read, write}, w.pipes[name := Ends(read, write)]), Ok)
    case Close(name, ep) =>
      var (open, ends, status) := CloseEnd(w.open, w.pipes[name], ep);
      (World(open, w.pipes[name := ends]), status)
    case MoveConstruct(name, from) =>
      (World(w.open, w.pipes[name := w.pipes[from]][from := BOTH_CLOSED]), Ok)
    case MoveAssign(name, from) =>
      var (open, ends, status) := CloseBoth(w.open, w.pipes[name]);
      var w' := World(open, w.pipes[name := ends]);
      if !status.Ok? then (w', status) else
        // `from` may be `name`: its descriptors are read after the two closes
        (World(open, w'.pipes[name := w'.pipes[from]][from := BOTH_CLOSED]), Ok)
    case Destroy(name) =>
      var (open, ends, status) := CloseBoth(w.open, w.pipes[name]);
      (World(open, w.pipes - {name}), status)
  }

  // ----- Ownership -----

  predicate Owns(w: World, name: Name, ep: EndPoint, fd: int) {
    name in w.pipes && w.pipes[name].At(ep) == fd && fd != CLOSED
  }

  /** Every owned descriptor is open, every open one is owned, and by one end of one pipe. */
  ghost predicate Owned(w: World) {
    && CLOSED !in w.open
    && (forall name, ep | name in w.pipes && w.pipes[name].At(ep) != CLOSED :: w.pipes[name].At(ep) in w.open)
    && (forall name, ep, name', ep' | name in w.pipes && name' in w.pipes
          && w.pipes[name].At(ep) != CLOSED && w.pipes[name].At(ep) == w.pipes[name'].At(ep') ::
          name == name' && ep == ep')
    && (forall fd | fd in w.open :: exists name, ep :: Owns(w, name, ep, fd))
  }

  /** Releasing one end of a pipe that owns it: the close succeeds and ownership stays exact. */
  lemma CloseKeepsOwned(w: World, name: Name, ep: EndPoint)
    requires Owned(w) && name in w.pipes
    ensures var (w', status) := Step(w, Close(name, ep));
            status.Ok? && Owned(w') && w'.pipes[name].At(ep) == CLOSED
            && (forall ep' | ep' != ep :: w'.pipes[name].At(ep') == w.pipes[name].At(ep'))
  {
    var w' := Step(w, Close(name, ep)).0;
    forall name', ep' | name' in w.pipes
      ensures w'.pipes[name'].At(ep') == if name' == name && ep' == ep then CLOSED else w.pipes[name'].At(ep')
    {
    }
    forall fd | fd in w'.open ensures exists name', ep' :: Owns(w', name', ep', fd) {
      var name', ep' :| Owns(w, name', ep', fd);
      assert Owns(w', name', ep', fd);
    }
  }

  /** Both ends released: what move assignment and destruction start with. */
  lemma CloseBothKeepsOwned(w: World, name: Name)
    requires Owned(w) && name in w.pipes
    ensures var (open, ends, status) := CloseBoth(w.open, w.pipes[name]);
            && status.Ok? && ends == BOTH_CLOSED
            && Owned(World(open, w.pipes[name := BOTH_CLOSED]))
            && open == w.open - {w.pipes[name].read, w.pipes[name].write}
  {
    CloseKeepsOwned(w, name, ReadEnd);
    var w1 := Step(w, Close(name, ReadEnd)).0;
    CloseKeepsOwned(w1, name, WriteEnd);
    var w2 := Step(w1, Close(name, WriteEnd)).0;
    assert w2.pipes[name] == BOTH_CLOSED;
    assert w2.pipes == w.pipes[name := BOTH_CLOSED];
  }

  lemma CreateKeepsOwned(w: World, name: Name, read: nat, write: nat)
    requires Owned(w) && Legal(w, Create(name, read, write))
    ensures Owned(Step(w, Create(name, read, write)).0)
  {
    var w' := Step(w, Create(name, read, write)).0;
    assert w'.pipes[name].At(ReadEnd) == read && w'.pipes[name].At(WriteEnd) == write;
    forall fd | fd in w'.open ensures exists name', ep' :: Owns(w', name', ep', fd) {
      if fd == read {
        assert Owns(w', name, ReadEnd, fd);
      } else if fd == write {
        assert Owns(w', name, WriteEnd, fd);
      } else {
        var name', ep' :| Owns(w, name', ep', fd);
        assert Owns(w', name', ep', fd);
      }
    }
  }

  /** A transfer hands both descriptors over to an object that has none. */
  lemma TransferKeepsOwned(w: World, name: Name, from: Name, w': World)
    requires Owned(w) && from in w.pipes && (name in w.pipes ==> w.pipes[name] == BOTH_CLOSED)
    requires w'.open == w.open && w'.pipes == w.pipes[name := w.pipes[from]][from := BOTH_CLOSED]
    ensures Owned(w')
  {
    if name != from {
      forall fd | fd in w'.open ensures exists name', ep' :: Owns(w', name', ep', fd) {
        var name', ep' :| Owns(w, name', ep', fd);
        assert Owns(w', if name' == from then name else name', ep', fd);
      }
    } else {
      assert w'.pipes == w.pipes[from := BOTH_CLOSED];
      forall fd | fd in w'.open ensures exists name', ep' :: Owns(w', name', ep', fd) {
        var name', ep' :| Owns(w, name', ep', fd);
        assert Owns(w', name', ep', fd);
      }
    }
  }

  lemma ForgetKeepsOwned(w: World, name: Name)
    requires Owned(w) && name in w.pipes && w.pipes[name] == BOTH_CLOSED
    ensures Owned(World(w.open, w.pipes - {name}))
  {
    var w' := World(w.open, w.pipes - {name});
    forall fd | fd in w'.open ensures exists name', ep' :: Owns(w', name', ep', fd) {
      var name', ep' :| Owns(w, name', ep', fd);
      assert Owns(w', name', ep', fd);
    }
  }

  /** No operation on an exactly owned world makes the kernel refuse a close, and each keeps
      ownership exact. */
  lemma StepKeepsOwned(w: World, op: Op)
    requires Owned(w) && Legal(w, op)
    ensures Step(w, op).1.Ok? && Owned(Step(w, op).0)
  {
    var w' := Step(w, op).0;
    match op
    case Create(name, read, write) => CreateKeepsOwned(w, name, read, write);
    case Close(name, ep) => CloseKeepsOwned(w, name, ep);
    case MoveConstruct(name, from) => TransferKeepsOwned(w, name, from, w');
    case MoveAssign(name, from) =>
      CloseBothKeepsOwned(w, name);
      var closed := World(CloseBoth(w.open, w.pipes[name]).0, w.pipes[name := BOTH_CLOSED]);
      TransferKeepsOwned(closed, name, from, w');
    case Destroy(name) =>
      CloseBothKeepsOwned(w, name);
      var closed := World(CloseBoth(w.open, w.pipes[name]).0, w.pipes[name := BOTH_CLOSED]);
      ForgetKeepsOwned(closed, name);
      assert closed.pipes - {name} == w.pipes - {name};
  }

  // ----- What each operation does -----

  /** A move hands the descriptors over without touching the kernel; assigning a pipe to itself
      closes it. */
  lemma MovesTransfer(w: World, name: Name, from: Name)
    requires Owned(w) && Legal(w, MoveAssign(name, from))
    ensures var w' := Step(w, MoveAssign(name, from)).0;
            && w'.open == w.open - {w.pipes[name].read, w.pipes[name].write}
            && w'.pipes[from] == BOTH_CLOSED
            && (name != from ==> w'.pipes[name] == w.pipes[from])
            && (forall other | other in w.pipes && other != name && other != from ::
                  other in w'.pipes && w'.pipes[other] == w.pipes[other])
  {
    CloseBothKeepsOwned(w, name);
  }

  /** Who owns what after an operation, given who owned what before. */
  predicate OwnsAfter(w: World, op: Op, name: Name, ep: EndPoint, fd: int) {
    match op
    case Create(created, read, write) =>
      if name == created then fd == (if ep.ReadEnd? then read else write) else Owns(w, name, ep, fd)
    case Close(closing, closed) => Owns(w, name, ep, fd) && !(name == closing && ep == closed)
    case MoveConstruct(to, from) =>
      if name == to then Owns(w, from, ep, fd) else name != from && Owns(w, name, ep, fd)
    case MoveAssign(to, from) =>
      name != from && if name == to then Owns(w, from, ep, fd) else Owns(w, name, ep, fd)
    case Destroy(destroyed) => name != destroyed && Owns(w, name, ep, fd)
  }

  /** The pipes that there are after an operation. */
  function NamesAfter(w: World, op: Op): set<Name> {
    match op
    case Create(name, _, _) => w.pipes.Keys + {name}
    case MoveConstruct(name, _) => w.pipes.Keys + {name}
    case Destroy(name) => w.pipes.Keys - {name}
    case _ => w.pipes.Keys
  }

  lemma TransferChangesOwners(w: World, to: Name, from: Name, w': World, name: Name, ep: EndPoint, fd: int)
    requires from in w.pipes && w'.pipes.Keys == w.pipes.Keys + {to} && w'.pipes[from] == BOTH_CLOSED
    requires to != from ==> w'.pipes[to] == w.pipes[from]
    requires name in w.pipes && name != to && name != from ==> w'.pipes[name] == w.pipes[name]
    ensures Owns(w', name, ep, fd) <==> OwnsAfter(w, MoveAssign(to, from), name, ep, fd)
  {
  }

  lemma MoveAssignChangesOwners(w: World, to: Name, from: Name, name: Name, ep: EndPoint, fd: int)
    requires Owned(w) && Legal(w, MoveAssign(to, from))
    ensures Owns(Step(w, MoveAssign(to, from)).0, name, ep, fd) <==> OwnsAfter(w, MoveAssign(to, from), name, ep, fd)
    ensures Step(w, MoveAssign(to, from)).0.pipes.Keys == w.pipes.Keys
  {
    MovesTransfer(w, to, from);
    CloseBothKeepsOwned(w, to);
    TransferChangesOwners(w, to, from, Step(w, MoveAssign(to, from)).0, name, ep, fd);
  }

  /** A creation owns the two descriptors in their places, a close and a destruction release
      exactly their own, and a move hands over both in their places: for every end of every
      pipe, the descriptor it owns afterwards is the stated one. */
  lemma StepChangesOwners(w: World, op: Op, name: Name, ep: EndPoint, fd: int)
    requires Owned(w) && Legal(w, op)
    ensures Owns(Step(w, op).0, name, ep, fd) <==> OwnsAfter(w, op, name, ep, fd)
    ensures Step(w, op).0.pipes.Keys == NamesAfter(w, op)
  {
    match op
    case Close(closing, closed) => CloseKeepsOwned(w, closing, closed);
    case MoveAssign(to, from) => MoveAssignChangesOwners(w, to, from, name, ep, fd);
    case Destroy(destroyed) => CloseBothKeepsOwned(w, destroyed);
    case _ =>
  }

  /** A close is refused exactly for a descriptor that is not open, and then nothing changes. */
  lemma CloseRefused(open: set<nat>, ends: Ends, ep: EndPoint)
    ensures CloseEnd(open, ends, ep).2.ErrorClosing? <==> ends.At(ep) != CLOSED && ends.At(ep) !in open
    ensures CloseEnd(open, ends, ep).2.ErrorClosing? ==>
              CloseEnd(open, ends, ep).0 == open && CloseEnd(open, ends, ep).1 == ends
    ensures CloseEnd(open, ends, ReadEnd).2.ErrorClosing? ==> CloseBoth(open, ends) == (open, ends, ErrorClosing)
  {
  }

  /** An assignment whose close is refused takes nothing from the source. */
  lemma RefusedAssignStops(w: World, name: Name, from: Name)
    requires Legal(w, MoveAssign(name, from)) && Step(w, MoveAssign(name, from)).1.ErrorClosing?
    ensures Step(w, MoveAssign(name, from)) ==
            if Step(w, Close(name, ReadEnd)).1.ErrorClosing? then Step(w, Close(name, ReadEnd))
            else Step(Step(w, Close(name, ReadEnd)).0, Close(name, WriteEnd))
    ensures name != from ==> Step(w, MoveAssign(name, from)).0.pipes[from] == w.pipes[from]
  {
    var w' := Step(w, Close(name, ReadEnd)).0;
    var ends := CloseBoth(w.open, w.pipes[name]).1;
    assert w'.pipes[name := ends] == w.pipes[name := ends];
  }

  // ----- Whole runs -----

  ghost predicate LegalRun(w: World, ops: seq<Op>)
    decreases |ops|
  {
    ops == [] || (Legal(w, ops[0]) && LegalRun(Step(w, ops[0]).0, ops[1..]))
  }

  function Run(w: World, ops: seq<Op>): (World, Status)
    requires LegalRun(w, ops)
    decreases |ops|
  {
    if ops == [] then (w, Ok) else
      var (w', status) := Step(w, ops[0]);
      if status.Ok? then Run(w', ops[1..]) else (w', status)
  }

  /** Over any run no close is refused, so no descriptor is closed twice, every open one has
      exactly one owner, and none is left when all the pipes are gone. */
  lemma {:induction false} RunKeepsOwned(w: World, ops: seq<Op>)
    requires Owned(w) && LegalRun(w, ops)
    ensures var (w', status) := Run(w, ops);
            status.Ok? && Owned(w') && (w'.pipes == map[] ==> w'.open == {})
    decreases |ops|
  {
    if ops == [] {
      if w.pipes == map[] {
        assert forall name, ep, fd :: !Owns(w, name, ep, fd);
      }
    } else {
      StepKeepsOwned(w, ops[0]);
      RunKeepsOwned(Step(w, ops[0]).0, ops[1..]);
    }
  }
}
