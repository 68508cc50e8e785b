/** Runs of the CPU hopper: additions and rounds in any order, stopped by the first error. */
module HopperRuns {
  import opened OrderedKeys
  import opened HopperSpec
  import opened HopperRotation
  import opened Processes

  datatype Op = AddProcess(pid: Pid) | HopProcesses

  lemma {:induction false} HopListKeepsBounds(s: Hopper, pids: seq<Pid>)
    requires s.Bounded() && forall pid | pid in pids :: pid in s.cpuOf
    ensures HopList(s, pids).0.Bounded()
    decreases |pids|
  {
    if pids != [] {
      HopOneShape(s, pids[0]);
      var (s', status) := HopOne(s, pids[0], s.cpuOf[pids[0]]);
      if status.Ok? {
        HopListKeepsBounds(s', pids[1..]);
      }
    }
  }

  ghost function Step(s: Hopper, op: Op): (result: (Hopper, Status))
    requires s.Bounded()
    ensures result.0.Bounded()
  {
    match op
    case AddProcess(pid) => Add(s, pid)
    case HopProcesses =>
      HopListKeepsBounds(s, InOrder(s.cpuOf.Keys));
      HopAll(s)
  }

  /** The state a run ends in, the status of its last operation, and how many succeeded. */
  datatype Outcome = Outcome(state: Hopper, status: Status, done: nat)

  ghost function Run(s: Hopper, ops: seq<Op>): (outcome: Outcome)
    requires s.Bounded()
    ensures outcome.done <= |ops|
    ensures outcome.status.Ok? ==> outcome.done == |ops|
    decreases |ops|
  {
    if ops == [] then
      Outcome(s, Ok, 0)
    else
      var (s', status) := Step(s, ops[0]);
      if !status.Ok? then Outcome(s', status, 0) else
        var rest := Run(s', ops[1..]);
        rest.(done := rest.done + 1)
  }

  function Additions(ops: seq<Op>): seq<Pid> {
    if ops == [] then []
    else (if ops[0].AddProcess? then [ops[0].pid] else []) + Additions(ops[1..])
  }

  /** The pids are pairwise different and not yet on the machine. */
  ghost predicate AllNew(pids: seq<Pid>, s: Hopper) {
    && (forall i, j | 0 <= i < j < |pids| :: pids[i] != pids[j])
    && (forall i | 0 <= i < |pids| :: pids[i] !in s.cpuOf)
  }

  /** How many more processes a machine can take: one CPU always has to stay free. */
  ghost function Room(s: Hopper): int {
    |s.taken| - |s.cpuOf| - 1
  }

  lemma SameOrderSameKeys(order: seq<Pid>, keys: set<Pid>, keys': set<Pid>)
    requires Enumerates(order, keys) && Enumerates(order, keys')
    ensures keys == keys'
  {
    assert forall pid :: pid in keys <==> pid in keys';
  }

  lemma HopStepKeepsCompact(s: Hopper) returns (s': Hopper)
    requires Compact(s) && s.Bounded()
    ensures Step(s, HopProcesses) == (s', Ok) && Compact(s')
    ensures |s'.taken| == |s.taken| && s'.cpuOf.Keys == s.cpuOf.Keys && |s'.cpuOf| == |s.cpuOf|
  {
    var order, ring := LayoutExists(s);
    s' := RoundRotates(order, ring, s);
    SameOrderSameKeys(order, s.cpuOf.Keys, s'.cpuOf.Keys);
  }

  lemma AddStepKeepsCompact(s: Hopper, pid: Pid) returns (s': Hopper)
    requires Compact(s) && s.Bounded() && pid !in s.cpuOf && Room(s) > 0
    ensures Step(s, AddProcess(pid)) == (s', Ok) && Compact(s')
    ensures |s'.taken| == |s.taken| && s'.cpuOf.Keys == s.cpuOf.Keys + {pid} && |s'.cpuOf| == |s.cpuOf| + 1
  {
    AddKeepsCompact(s, pid);
    s' := Add(s, pid).0;
  }

  lemma StepKeepsCompact(s: Hopper, op: Op) returns (s': Hopper)
    requires Compact(s) && s.Bounded()
    requires op.AddProcess? ==> op.pid !in s.cpuOf && Room(s) > 0
    ensures Step(s, op) == (s', Ok) && Compact(s') && |s'.taken| == |s.taken|
    ensures s'.cpuOf.Keys == s.cpuOf.Keys + (if op.AddProcess? then {op.pid} else {})
    ensures |s'.cpuOf| == |s.cpuOf| + (if op.AddProcess? then 1 else 0)
  {
    if op.AddProcess? {
      s' := AddStepKeepsCompact(s, op.pid);
    } else {
      s' := HopStepKeepsCompact(s);
    }
  }

  lemma SuffixIsNew(pids: seq<Pid>, first: seq<Pid>, s: Hopper, s': Hopper)
    requires AllNew(first + pids, s) && |first| <= 1
    requires s'.cpuOf.Keys == s.cpuOf.Keys + (if first != [] then {first[0]} else {})
    ensures AllNew(pids, s')
  {
    var all := first + pids;
    assert forall i | 0 <= i < |pids| :: pids[i] == all[|first| + i];
    assert forall i | 0 <= i < |first| :: first[i] == all[i];
  }

  lemma AdditionsUnfold(ops: seq<Op>)
    requires ops != []
    ensures Additions(ops) == (if ops[0].AddProcess? then [ops[0].pid] else []) + Additions(ops[1..])
  {
  }

  /** The operations that fit leave a compact machine with the new processes on it. */
  ghost predicate Fits(s: Hopper, ops: seq<Op>, outcome: Outcome) {
    && outcome.status.Ok? && outcome.done == |ops| && Compact(outcome.state)
    && |outcome.state.taken| == |s.taken|
    && |outcome.state.cpuOf| == |s.cpuOf| + |Additions(ops)|
  }

  /** The run stopped at the addition that took the last CPU. */
  ghost predicate Overflows(s: Hopper, ops: seq<Op>, outcome: Outcome) {
    && outcome.status.TooManyProcesses? && outcome.done < |ops|
    && ops[outcome.done].AddProcess?
    && |Additions(ops[..outcome.done])| == Room(s)
  }

  ghost predicate Expected(s: Hopper, ops: seq<Op>, outcome: Outcome) {
    if |Additions(ops)| <= Room(s) then Fits(s, ops, outcome) else Overflows(s, ops, outcome)
  }

  lemma OneStepOn(s: Hopper, op: Op, ops: seq<Op>, s': Hopper, outcome: Outcome)
    requires s.Bounded() && s'.Bounded() && ops != [] && op == ops[0] && Step(s, op) == (s', Ok)
    requires outcome == Run(s', ops[1..]) && |s'.taken| == |s.taken|
    requires |s'.cpuOf| == |s.cpuOf| + (if op.AddProcess? then 1 else 0)
    requires Expected(s', ops[1..], outcome)
    ensures Expected(s, ops, Run(s, ops))
  {
    AdditionsUnfold(ops);
    if Overflows(s', ops[1..], outcome) {
      var front := ops[..outcome.done + 1];
      AdditionsUnfold(front);
      assert front[1..] == ops[1..][..outcome.done];
    }
  }

  lemma NoRoomLeft(s: Hopper, ops: seq<Op>)
    requires Compact(s) && s.Bounded() && ops != [] && ops[0].AddProcess?
    requires ops[0].pid !in s.cpuOf && Room(s) == 0
    ensures Expected(s, ops, Run(s, ops))
  {
    AdditionsUnfold(ops);
    AddKeepsCompact(s, ops[0].pid);
    assert ops[..0] == [];
  }

  /** A run whose additions fit keeps the invariant throughout; one with more additions than
      fit gets as far as the addition that fills the last CPU and fails there, as too many
      processes.  No run of new pids fails in the search for a free CPU. */
  lemma {:induction false} RunOfNewPids(s: Hopper, ops: seq<Op>)
    requires Compact(s) && s.Bounded() && AllNew(Additions(ops), s)
    ensures Expected(s, ops, Run(s, ops))
    decreases |ops|
  {
    if ops != [] {
      var op, rest := ops[0], ops[1..];
      AdditionsUnfold(ops);
      var first := if op.AddProcess? then [op.pid] else [];
      assert op.AddProcess? ==> Additions(ops)[0] == op.pid;
      if op.AddProcess? && Room(s) == 0 {
        NoRoomLeft(s, ops);
      } else {
        var s' := StepKeepsCompact(s, op);
        SuffixIsNew(Additions(rest), first, s, s');
        RunOfNewPids(s', rest);
        OneStepOn(s, op, ops, s', Run(s', rest));
      }
    }
  }

  /** From an empty machine: the run succeeds exactly when it adds fewer processes than there
      are CPUs, and then CPUs above the number of processes are never taken. */
  lemma RunFromEmptyMachine(numCpus: nat, ops: seq<Op>)
    requires numCpus > 0 && AllNew(Additions(ops), Init(numCpus))
    ensures Init(numCpus).Bounded()
    ensures Run(Init(numCpus), ops).status ==
            if |Additions(ops)| < numCpus then Ok else TooManyProcesses
    ensures |Additions(ops)| < numCpus ==>
              var s := Run(Init(numCpus), ops).state;
              && Compact(s) && |s.cpuOf| == |Additions(ops)|
              && (forall c | |Additions(ops)| < c < |s.taken| :: !s.taken[c])
              && (forall c | 0 <= c < |s.taken| ::
                    s.taken[c] <==> exists pid :: pid in s.cpuOf && s.cpuOf[pid] == c)
  {
    var s0 := Init(numCpus);
    InitIsCompact(numCpus);
    RunOfNewPids(s0, ops);
    if |Additions(ops)| < numCpus {
      var s := Run(s0, ops).state;
      forall c: nat | c < |s.taken|
        ensures s.taken[c] <==> exists pid :: pid in s.cpuOf && s.cpuOf[pid] == c
      {
        TakenIsTheImage(s, c);
      }
    }
  }

  // ----- Pids added again -----

  /** A CPU that is taken though no process is on it. */
  ghost predicate Orphan(s: Hopper, cpu: nat) {
    cpu < |s.taken| && s.taken[cpu] && forall pid | pid in s.cpuOf :: s.cpuOf[pid] != cpu
  }

  lemma OrphanIsNotCompact(s: Hopper, cpu: nat)
    requires Orphan(s, cpu)
    ensures !Compact(s)
  {
    if Compact(s) {
      TakenIsTheImage(s, cpu);
      assert false;
    }
  }

  /** A pid that is added again leaves its old CPU behind. */
  lemma AddingAgainOrphans(s: Hopper, pid: Pid)
    requires Compact(s) && pid in s.cpuOf
    ensures Add(s, pid).1.Ok? && Orphan(Add(s, pid).0, s.cpuOf[pid])
  {
    AddIsCompactIffNew(s, pid);
  }

  lemma {:induction false} HopListKeepsOrphan(s: Hopper, pids: seq<Pid>, cpu: nat)
    requires s.Bounded() && (forall pid | pid in pids :: pid in s.cpuOf) && Orphan(s, cpu)
    ensures Orphan(HopList(s, pids).0, cpu)
    decreases |pids|
  {
    if pids != [] {
      HopOneShape(s, pids[0]);
      var (s', status) := HopOne(s, pids[0], s.cpuOf[pids[0]]);
      if status.Ok? {
        HopListKeepsOrphan(s', pids[1..], cpu);
      }
    }
  }

  /** No operation ever frees such a CPU. */
  lemma {:induction false} RunKeepsOrphan(s: Hopper, ops: seq<Op>, cpu: nat)
    requires s.Bounded() && Orphan(s, cpu)
    ensures Orphan(Run(s, ops).state, cpu)
    decreases |ops|
  {
    if ops != [] {
      if ops[0].HopProcesses? {
        HopListKeepsOrphan(s, InOrder(s.cpuOf.Keys), cpu);
      }
      var (s', status) := Step(s, ops[0]);
      if status.Ok? {
        RunKeepsOrphan(s', ops[1..], cpu);
      }
    }
  }

  /** The new pids of a run are those of its rest and that of its first operation. */
  lemma AllNewUnfold(s: Hopper, op: Op, pids: seq<Pid>, s': Hopper)
    requires op.AddProcess? ==> op.pid !in s.cpuOf
    requires s'.cpuOf.Keys == s.cpuOf.Keys + (if op.AddProcess? then {op.pid} else {})
    ensures AllNew((if op.AddProcess? then [op.pid] else []) + pids, s) <==> AllNew(pids, s')
  {
    var first := if op.AddProcess? then [op.pid] else [];
    if AllNew(first + pids, s) {
      SuffixIsNew(pids, first, s, s');
    }
  }

  /** A run ends in an exact allocation if and only if the pids it adds are new, pairwise too,
      and leave one CPU free. */
  lemma {:induction false} RunIsCompactIffNew(s: Hopper, ops: seq<Op>)
    requires Compact(s) && s.Bounded()
    ensures Compact(Run(s, ops).state) <==> AllNew(Additions(ops), s) && |Additions(ops)| <= Room(s)
    decreases |ops|
  {
    if ops != [] {
      var op, rest := ops[0], ops[1..];
      AdditionsUnfold(ops);
      if op.AddProcess? && op.pid in s.cpuOf {
        AddingAgainOrphans(s, op.pid);
        RunKeepsOrphan(Add(s, op.pid).0, rest, s.cpuOf[op.pid]);
        OrphanIsNotCompact(Run(s, ops).state, s.cpuOf[op.pid]);
        assert Additions(ops)[0] == op.pid;
      } else if op.AddProcess? && Room(s) == 0 {
        AddIsCompactIffNew(s, op.pid);
      } else {
        var s' := StepKeepsCompact(s, op);
        AllNewUnfold(s, op, Additions(rest), s');
        RunIsCompactIffNew(s', rest);
      }
    }
  }

  // ----- A full machine -----

  ghost predicate Full(s: Hopper) {
    forall c | 0 <= c < |s.taken| :: s.taken[c]
  }

  /** On a full machine every addition and every round fails in the search, without a change;
      only a round over nobody does not search. */
  lemma FullMachineIsStuck(s: Hopper, pid: Pid)
    requires Full(s) && s.Bounded()
    ensures Add(s, pid) == (s, NoAvailableCpus)
    ensures HopAll(s) == (s, if s.cpuOf == map[] then Ok else NoAvailableCpus)
  {
    var order := InOrder(s.cpuOf.Keys);
    InOrderIs(order, s.cpuOf.Keys);
    if order != [] {
      assert order[0] in order;
      HopListUnfold(s, order[0], order[1..]);
      assert order == [order[0]] + order[1..];
    } else {
      assert s.cpuOf.Keys == {};
    }
  }

  /** The addition that takes the last CPU leaves a full machine behind. */
  lemma OverflowFills(s: Hopper, pid: Pid)
    requires Compact(s) && pid !in s.cpuOf && Room(s) == 0
    ensures Add(s, pid).1.TooManyProcesses? && Full(Add(s, pid).0) && Add(s, pid).0.Bounded()
    ensures Add(s, pid).0.cpuOf == s.cpuOf[pid := Hole(s)]
  {
    AddKeepsCompact(s, pid);
  }

  /** On a machine without CPUs the first addition already finds none. */
  lemma NoCpusAtAll(pid: Pid)
    ensures Add(Init(0), pid) == (Init(0), NoAvailableCpus)
  {
  }

  // ----- Draining the creation events, then hopping -----

  function AddEach(pids: seq<Pid>): seq<Op> {
    seq(|pids|, i requires 0 <= i < |pids| => AddProcess(pids[i]))
  }

  lemma AddEachUnfold(pids: seq<Pid>, k: nat)
    requires k < |pids|
    ensures AddEach(pids[k..]) != [] && AddEach(pids[k..])[0] == AddProcess(pids[k])
    ensures AddEach(pids[k..])[1..] == AddEach(pids[k + 1..])
  {
    assert pids[k..][1..] == pids[k + 1..];
  }

  /** The first k creations: creation i went to CPU i. */
  ghost predicate OnTheirCpus(pids: seq<Pid>, k: nat, cpuOf: map<Pid, nat>)
    requires k <= |pids|
  {
    && (forall pid | pid in cpuOf :: cpuOf[pid] < k && pids[cpuOf[pid]] == pid)
    && (forall i | 0 <= i < k :: pids[i] in cpuOf && cpuOf[pids[i]] == i)
  }

  /** The state after the first k creations: creation i went to CPU i, and CPU k is the hole. */
  ghost predicate Lined(pids: seq<Pid>, k: nat, s: Hopper) {
    k <= |pids| && Compact(s) && |s.cpuOf| == k && Hole(s) == k && OnTheirCpus(pids, k, s.cpuOf)
  }

  lemma OneMoreOnItsCpu(pids: seq<Pid>, k: nat, cpuOf: map<Pid, nat>)
    requires k < |pids| && OnTheirCpus(pids, k, cpuOf)
    requires forall i, j | 0 <= i < j < |pids| :: pids[i] != pids[j]
    ensures pids[k] !in cpuOf && OnTheirCpus(pids, k + 1, cpuOf[pids[k] := k])
  {
  }

  lemma LinedStep(pids: seq<Pid>, k: nat, s: Hopper)
    requires Lined(pids, k, s) && k < |pids| && k + 1 < |s.taken|
    requires forall i, j | 0 <= i < j < |pids| :: pids[i] != pids[j]
    ensures pids[k] !in s.cpuOf && Add(s, pids[k]).1.Ok?
    ensures Lined(pids, k + 1, Add(s, pids[k]).0) && |Add(s, pids[k]).0.taken| == |s.taken|
  {
    OneMoreOnItsCpu(pids, k, s.cpuOf);
    AddKeepsCompact(s, pids[k]);
  }

  /** Processes created one after the other start on the CPUs 0, 1, 2, .. */
  lemma {:induction false} CreationsLineUp(pids: seq<Pid>, k: nat, s: Hopper) returns (s': Hopper)
    requires s.Bounded() && Lined(pids, k, s) && |pids| < |s.taken|
    requires forall i, j | 0 <= i < j < |pids| :: pids[i] != pids[j]
    ensures Run(s, AddEach(pids[k..])) == Outcome(s', Ok, |pids| - k)
    ensures Lined(pids, |pids|, s') && |s'.taken| == |s.taken|
    decreases |pids| - k
  {
    if k == |pids| {
      s' := s;
    } else {
      LinedStep(pids, k, s);
      s' := CreationsLineUp(pids, k + 1, Add(s, pids[k]).0);
      AddEachUnfold(pids, k);
    }
  }
}
