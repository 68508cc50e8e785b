/** The bookkeeping of the CPU hopper as functions on values, with the errors it can raise.

    A hopper maps each process to a CPU and remembers which CPUs are taken.  Binding a
    process updates both, whether or not the operating system accepted the binding. */
module HopperSpec {
  import opened OrderedKeys
  import opened Processes

  datatype Hopper = Hopper(cpuOf: map<Pid, nat>, taken: seq<bool>) {
    /** Every recorded CPU is an index of the allocation vector. */
    ghost predicate Bounded() {
      forall pid | pid in cpuOf :: cpuOf[pid] < |taken|
    }
  }

  datatype Status = Ok | NoAvailableCpus | TooManyProcesses

  function Init(numCpus: nat): Hopper {
    Hopper(map[], seq(numCpus, _ => false))
  }

  /** The first CPU that is not taken, or the number of CPUs when all are. */
  function FirstFree(taken: seq<bool>, from: nat := 0): (cpu: nat)
    requires from <= |taken|
    ensures from <= cpu <= |taken|
    ensures cpu < |taken| ==> !taken[cpu]
    ensures forall c :: from <= c < cpu ==> taken[c]
    decreases |taken| - from
  {
    if from == |taken| || !taken[from] then from else FirstFree(taken, from + 1)
  }

  function Bind(s: Hopper, pid: Pid, cpu: nat): Hopper
    requires cpu < |s.taken|
  {
    Hopper(s.cpuOf[pid := cpu], s.taken[cpu := true])
  }

  /** Adding a process binds it first and only then complains about a full machine. */
  function Add(s: Hopper, pid: Pid): (Hopper, Status) {
    var cpu := FirstFree(s.taken);
    if cpu == |s.taken| then
      (s, NoAvailableCpus)
    else
      var s' := Bind(s, pid, cpu);
      (s', if |s'.cpuOf| == |s'.taken| then TooManyProcesses else Ok)
  }

  /** One process hops: `cpu` is the CPU it leaves, freed only after the new one is taken. */
  function HopOne(s: Hopper, pid: Pid, cpu: nat): (Hopper, Status)
    requires cpu < |s.taken|
  {
    var target := FirstFree(s.taken);
    if target == |s.taken| then
      (s, NoAvailableCpus)
    else
      var s' := Bind(s, pid, target);
      (s'.(taken := s'.taken[cpu := false]), Ok)
  }

  /** The listed processes hop one after the other, up to the first error. */
  ghost function HopList(s: Hopper, pids: seq<Pid>): (Hopper, Status)
    requires s.Bounded()
    requires forall pid | pid in pids :: pid in s.cpuOf
    decreases |pids|
  {
    if pids == [] then
      (s, Ok)
    else
      var (s', status) := HopOne(s, pids[0], s.cpuOf[pids[0]]);
      if status.Ok? then HopList(s', pids[1..]) else (s', status)
  }

  /** A hop changes one entry, and no keys. */
  lemma HopOneShape(s: Hopper, pid: Pid)
    requires s.Bounded() && pid in s.cpuOf
    ensures var s' := HopOne(s, pid, s.cpuOf[pid]).0;
            s'.Bounded() && s'.cpuOf.Keys == s.cpuOf.Keys && |s'.taken| == |s.taken|
  {
  }

  lemma HopListUnfold(s: Hopper, pid: Pid, more: seq<Pid>)
    requires s.Bounded() && pid in s.cpuOf
    requires forall p | p in more :: p in s.cpuOf
    ensures HopOne(s, pid, s.cpuOf[pid]).0.Bounded()
    ensures HopOne(s, pid, s.cpuOf[pid]).0.cpuOf.Keys == s.cpuOf.Keys
    ensures forall p | p in [pid] + more :: p in s.cpuOf
    ensures HopList(s, [pid] + more) ==
            var (s', status) := HopOne(s, pid, s.cpuOf[pid]);
            if status.Ok? then HopList(s', more) else (s', status)
  {
    HopOneShape(s, pid);
    assert ([pid] + more)[1..] == more;
  }

  /** One hop of all the processes, in pid order. */
  ghost function HopAll(s: Hopper): (Hopper, Status)
    requires s.Bounded()
  {
    HopList(s, InOrder(s.cpuOf.Keys))
  }

  /** One step of an iteration: the least remaining process hops. */
  lemma NextHop(s: Hopper, rest: set<Pid>, order: seq<Pid>, pid: Pid) returns (s': Hopper, status: Status)
    requires s.Bounded() && rest <= s.cpuOf.Keys && Enumerates(order, rest)
    requires IsLeast(pid, rest)
    ensures (s', status) == HopOne(s, pid, s.cpuOf[pid])
    ensures s'.Bounded() && s'.cpuOf.Keys == s.cpuOf.Keys
    ensures order != [] && Enumerates(order[1..], rest - {pid})
    ensures HopList(s, order) == if status.Ok? then HopList(s', order[1..]) else (s', status)
  {
    LeastIsFirst(rest, order, pid);
    HopListUnfold(s, pid, order[1..]);
    HopOneShape(s, pid);
    s', status := HopOne(s, pid, s.cpuOf[pid]).0, HopOne(s, pid, s.cpuOf[pid]).1;
  }
}
