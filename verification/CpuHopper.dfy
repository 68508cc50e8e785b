/** The CPU hopper itself: the map and the allocation vector updated in place. */
module CpuHoppers {
  import opened OrderedKeys
  import opened HopperSpec
  import opened Processes

  class CpuHopper {
    var cpuMapping: map<Pid, nat>
    const allocatedCpus: array<bool>

    ghost function State(): Hopper
      reads this, allocatedCpus
    {
      Hopper(cpuMapping, allocatedCpus[..])
    }

    ghost predicate Valid()
      reads this, allocatedCpus
    {
      State().Bounded()
    }

    constructor (hardwareConcurrency: nat)
      ensures Valid() && fresh(allocatedCpus)
      ensures State() == Init(hardwareConcurrency)
    {
      cpuMapping := map[];
      allocatedCpus := new bool[hardwareConcurrency](_ => false);
    }

    /** Linear search for the first CPU that is not allocated. */
    method FindAvailableCpu() returns (cpu: nat)
      ensures cpu == FirstFree(allocatedCpus[..])
    {
      cpu := 0;
      while cpu < allocatedCpus.Length && allocatedCpus[cpu]
        invariant cpu <= allocatedCpus.Length
        invariant forall c :: 0 <= c < cpu ==> allocatedCpus[c]
      {
        cpu := cpu + 1;
      }
    }

    method BindProcess(pid: Pid, cpu: nat)
      requires Valid() && cpu < allocatedCpus.Length
      modifies this`cpuMapping, allocatedCpus
      ensures Valid() && State() == Bind(old(State()), pid, cpu)
    {
      cpuMapping := cpuMapping[pid := cpu];
      allocatedCpus[cpu] := true;
    }

    method AddProcess(pid: Pid) returns (status: Status)
      requires Valid()
      modifies this`cpuMapping, allocatedCpus
      ensures Valid() && (State(), status) == Add(old(State()), pid)
    {
      var cpu := FindAvailableCpu();
      if cpu == allocatedCpus.Length {
        return NoAvailableCpus;
      }
      BindProcess(pid, cpu);
      status := if |cpuMapping| == allocatedCpus.Length then TooManyProcesses else Ok;
    }

    /** `cpu` is a copy of the entry that the binding overwrites. */
    method HopProcess(pid: Pid, cpu: nat) returns (status: Status)
      requires Valid() && cpu < allocatedCpus.Length
      modifies this`cpuMapping, allocatedCpus
      ensures Valid() && (State(), status) == HopOne(old(State()), pid, cpu)
    {
      var newCpu := FindAvailableCpu();
      if newCpu == allocatedCpus.Length {
        return NoAvailableCpus;
      }
      BindProcess(pid, newCpu);
      allocatedCpus[cpu] := false;
      status := Ok;
    }

    /** Visits the entries in increasing pid order; a hop changes values but no keys. */
    method HopProcesses() returns (status: Status)
      requires Valid()
      modifies this`cpuMapping, allocatedCpus
      ensures Valid() && (State(), status) == HopAll(old(State()))
    {
      var rest := cpuMapping.Keys;
      ghost var order, goal := InOrder(rest), HopAll(State());
      status := Ok;
      while rest != {} && status.Ok?
        invariant Valid() && rest <= cpuMapping.Keys && Enumerates(order, rest)
        invariant if status.Ok? then HopList(State(), order) == goal else (State(), status) == goal
        decreases rest
      {
        ghost var least := LeastExists(rest);
        var pid :| pid in rest && IsLeast(pid, rest);
        ghost var next, outcome := NextHop(State(), rest, order, pid);
        status := HopProcess(pid, cpuMapping[pid]);
        rest, order := rest - {pid}, order[1..];
      }
    }
  }
}
