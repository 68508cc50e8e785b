/** The CPU hopper driven by the monitor's loop: every loop body is a round of hops, every
    creation event an addition. */
module HopperEventLoop {
  import opened OrderedKeys
  import opened HopperSpec
  import opened HopperRotation
  import opened HopperRuns
  import opened Processes
  import M = ExecMonitor

  /** What the thread's actions are to the hopper. */
  function Ops(log: seq<M.Action>): seq<Op> {
    seq(|log|, i requires 0 <= i < |log| => if log[i].LoopBody? then HopProcesses else AddProcess(log[i].event))
  }

  function Handles(pids: seq<Pid>): seq<M.Action> {
    seq(|pids|, i requires 0 <= i < |pids| => M.Handle(pids[i]))
  }

  function Bodies(k: nat): seq<M.Action> {
    seq(k, _ => M.LoopBody)
  }

  // ----- The thread's actions when every event precedes its start -----

  /** The first iteration runs the loop body and handles all the events, the later ones only
      run the loop body. */
  ghost predicate Shape(s: M.State) {
    && M.Inv(s)
    && (s.thread.NotStarted? ==> s.log == [] && s.iterations == 0 && s.handled == [])
    && (!s.thread.NotStarted? && s.iterations == 0 ==>
          if s.thread.Draining? || s.thread.Handling? then s.log == [M.LoopBody] + Handles(s.handled)
          else s.log == [] && s.handled == [])
    && (s.iterations > 0 ==>
          && !s.thread.NotStarted? && !s.thread.Handling? && s.handled == s.enqueued && s.queue == []
          && s.log == [M.LoopBody] + Handles(s.enqueued)
                      + Bodies(s.iterations - 1 + if s.thread.Draining? then 1 else 0))
  }

  lemma StepKeepsShape(s: M.State, step: M.Step)
    requires Shape(s) && M.Enabled(s, step)
    requires step.Enqueue? ==> s.thread.NotStarted?
    ensures Shape(M.Next(s, step))
  {
    var s' := M.Next(s, step);
    M.StepKeepsInv(s, step);
    if step.HandleEvent? {
      assert Handles(s'.handled) == Handles(s.handled) + [M.Handle(s.thread.event)];
    } else if step.PopEvent? && s.queue == [] && s.iterations == 0 {
      assert Bodies(0) == [];
      assert s.handled == s.enqueued;
    } else if step.RunLoopBody? {
      if s.iterations > 0 {
        assert Bodies(s.iterations) == Bodies(s.iterations - 1) + [M.LoopBody];
      } else {
        assert Handles([]) == [];
      }
    }
  }

  /** All the events so far precede the start of the thread. */
  predicate AllEarly(s: M.State) {
    s.thread.NotStarted? || s.beforeStart == |s.enqueued|
  }

  lemma EarlyBefore(s: M.State, step: M.Step)
    requires M.Inv(s) && M.Enabled(s, step) && AllEarly(M.Next(s, step))
    ensures AllEarly(s) && (step.Enqueue? ==> s.thread.NotStarted?)
  {
  }

  lemma {:induction false} RunHasShape(states: seq<M.State>, steps: seq<M.Step>, t: nat)
    requires M.Follows(states, steps) && states[0] == M.Init() && t < |states| && AllEarly(states[t])
    ensures Shape(states[t])
  {
    if t > 0 {
      M.EventsAreDelivered(states, steps, t - 1);
      EarlyBefore(states[t - 1], steps[t - 1]);
      RunHasShape(states, steps, t - 1);
      StepKeepsShape(states[t - 1], steps[t - 1]);
    }
  }

  // ----- The hopper's run over those actions -----

  lemma {:induction false} RunAppend(s: Hopper, a: seq<Op>, b: seq<Op>)
    requires s.Bounded() && Run(s, a).status.Ok? && Run(s, a).state.Bounded()
    ensures Run(s, a + b).state == Run(Run(s, a).state, b).state
    ensures Run(s, a + b).status == Run(Run(s, a).state, b).status
    decreases |a|
  {
    if a == [] {
      assert a + b == b;
    } else {
      assert (a + b)[0] == a[0] && (a + b)[1..] == a[1..] + b;
      RunAppend(Step(s, a[0]).0, a[1..], b);
    }
  }

  function Hops(k: nat): seq<Op> {
    seq(k, _ => HopProcesses)
  }

  lemma {:induction false} RunHops(s: Hopper, k: nat)
    requires Compact(s) && s.Bounded()
    ensures Run(s, Hops(k)).status.Ok? && Run(s, Hops(k)).state == Rounds(s, k)
  {
    if k > 0 {
      RunHops(s, k - 1);
      assert Hops(k) == Hops(k - 1) + [HopProcesses];
      RunAppend(s, Hops(k - 1), [HopProcesses]);
      RunOneHop(Rounds(s, k - 1));
    } else {
      assert Hops(0) == [];
    }
  }

  lemma RunOneHop(s: Hopper)
    requires Compact(s) && s.Bounded()
    ensures Run(s, [HopProcesses]).status.Ok? && Run(s, [HopProcesses]).state == HopAll(s).0
  {
    RoundKeepsCompact(s);
    var after := Step(s, HopProcesses).0;
    assert [HopProcesses][1..] == [];
    assert Run(after, []) == Outcome(after, Ok, 0);
  }

  lemma HoppingNobody(numCpus: nat)
    requires numCpus > 0
    ensures Init(numCpus).Bounded() && Compact(Init(numCpus)) && HopAll(Init(numCpus)) == (Init(numCpus), Ok)
  {
    InitIsCompact(numCpus);
    InOrderIs([], Init(numCpus).cpuOf.Keys);
  }

  lemma FirstIteration(numCpus: nat, pids: seq<Pid>) returns (s: Hopper)
    requires |pids| < numCpus
    requires forall i, j | 0 <= i < j < |pids| :: pids[i] != pids[j]
    ensures Init(numCpus).Bounded()
    ensures Run(Init(numCpus), [HopProcesses] + AddEach(pids)).status.Ok?
    ensures Run(Init(numCpus), [HopProcesses] + AddEach(pids)).state == s
    ensures Lined(pids, |pids|, s)
  {
    HoppingNobody(numCpus);
    RunOneHop(Init(numCpus));
    s := CreationsLineUp(pids, 0, Init(numCpus));
    assert pids[0..] == pids;
    RunAppend(Init(numCpus), [HopProcesses], AddEach(pids));
  }

  lemma OpsOfShape(pids: seq<Pid>, k: nat)
    ensures Ops([M.LoopBody] + Handles(pids) + Bodies(k)) == [HopProcesses] + AddEach(pids) + Hops(k)
  {
  }

  lemma DistinctIsAllNew(numCpus: nat, pids: seq<Pid>)
    requires forall i, j | 0 <= i < j < |pids| :: pids[i] != pids[j]
    ensures AllNew(pids, Init(numCpus))
  {
  }

  /** After m complete iterations over n events from before the start, with n below the number
      of CPUs: creation k started on CPU k, the hole was CPU n, and the initial ring has turned
      m - 1 times. */
  lemma LoopRotatesProcesses(numCpus: nat, states: seq<M.State>, steps: seq<M.Step>, t: nat)
    returns (first: Hopper, order: seq<Pid>, ring: seq<nat>)
    requires M.Follows(states, steps) && states[0] == M.Init() && t < |states|
    requires states[t].beforeStart == |states[t].enqueued| < numCpus
    requires states[t].iterations > 0 && !states[t].thread.Draining?
    requires forall i, j | 0 <= i < j < |states[t].enqueued| :: states[t].enqueued[i] != states[t].enqueued[j]
    ensures Lined(states[t].enqueued, |states[t].enqueued|, first)
    ensures Layout(order, ring, first) && ring[0] == |states[t].enqueued|
    ensures Init(numCpus).Bounded() && Run(Init(numCpus), Ops(states[t].log)).status.Ok?
    ensures Layout(order, TurnedRing(ring, states[t].iterations - 1), Run(Init(numCpus), Ops(states[t].log)).state)
  {
    var s := states[t];
    var hops := s.iterations - 1;
    RunHasShape(states, steps, t);
    OpsOfShape(s.enqueued, hops);
    first := FirstIteration(numCpus, s.enqueued);
    order, ring := LayoutExists(first);
    RunHops(first, hops);
    RunAppend(Init(numCpus), [HopProcesses] + AddEach(s.enqueued), Hops(hops));
    var last := RoundsTurnTheRing(order, ring, first, hops);
  }

  lemma {:induction false} AdditionsOfAddEach(pids: seq<Pid>)
    ensures Additions(AddEach(pids)) == pids
  {
    if pids != [] {
      AddEachUnfold(pids, 0);
      assert pids[0..] == pids;
      AdditionsOfAddEach(pids[1..]);
      AdditionsUnfold(AddEach(pids));
    }
  }

  lemma {:induction false} AdditionsAppend(a: seq<Op>, b: seq<Op>)
    ensures Additions(a + b) == Additions(a) + Additions(b)
    decreases |a|
  {
    if a == [] {
      assert a + b == b;
    } else {
      AdditionsUnfold(a);
      AdditionsUnfold(a + b);
      assert (a + b)[0] == a[0] && (a + b)[1..] == a[1..] + b;
      AdditionsAppend(a[1..], b);
    }
  }

  lemma {:induction false} HopsAddNobody(k: nat)
    ensures Additions(Hops(k)) == []
  {
    if k > 0 {
      AdditionsUnfold(Hops(k));
      assert Hops(k)[1..] == Hops(k - 1);
      HopsAddNobody(k - 1);
    }
  }

  /** One round over nobody, an addition per pid, and k rounds. */
  function LoopOps(pids: seq<Pid>, k: nat): seq<Op> {
    [HopProcesses] + AddEach(pids) + Hops(k)
  }

  lemma AdditionsOfLoop(pids: seq<Pid>, k: nat)
    ensures Additions(LoopOps(pids, k)) == pids
  {
    var ops := LoopOps(pids, k);
    AdditionsUnfold(ops);
    assert ops[1..] == AddEach(pids) + Hops(k);
    AdditionsAppend(AddEach(pids), Hops(k));
    AdditionsOfAddEach(pids);
    HopsAddNobody(k);
  }

  /** The addition that has j additions before it is the j-th operation after the first round. */
  lemma AdditionsBefore(pids: seq<Pid>, k: nat, done: nat)
    requires done < |LoopOps(pids, k)| && LoopOps(pids, k)[done].AddProcess?
    ensures done > 0 && |Additions(LoopOps(pids, k)[..done])| == done - 1
  {
    var front := LoopOps(pids, k)[..done];
    AdditionsUnfold(front);
    assert front[1..] == AddEach(pids[..done - 1]);
    AdditionsOfAddEach(pids[..done - 1]);
  }

  lemma LoopOpsFailWhenFull(numCpus: nat, pids: seq<Pid>, k: nat)
    requires numCpus > 0
    requires forall i, j | 0 <= i < j < |pids| :: pids[i] != pids[j]
    ensures Init(numCpus).Bounded()
    ensures var outcome := Run(Init(numCpus), LoopOps(pids, k));
            if |pids| < numCpus then outcome.status.Ok?
            else outcome.status.TooManyProcesses? && outcome.done == numCpus
  {
    var ops := LoopOps(pids, k);
    HoppingNobody(numCpus);
    AdditionsOfLoop(pids, k);
    DistinctIsAllNew(numCpus, pids);
    RunOfNewPids(Init(numCpus), ops);
    var outcome := Run(Init(numCpus), ops);
    if |pids| >= numCpus {
      AdditionsBefore(pids, k, outcome.done);
    }
  }

  lemma LogIsLoopOps(s: M.State) returns (k: nat)
    requires Shape(s) && s.log != []
    ensures Ops(s.log) == LoopOps(s.handled, k)
  {
    k := if s.iterations == 0 then 0 else s.iterations - 1 + if s.thread.Draining? then 1 else 0;
    assert s.log == [M.LoopBody] + Handles(s.handled) + Bodies(k);
    OpsOfShape(s.handled, k);
  }

  lemma HandledAreDistinct(s: M.State)
    requires M.Inv(s) && forall i, j | 0 <= i < j < |s.enqueued| :: s.enqueued[i] != s.enqueued[j]
    ensures forall i, j | 0 <= i < j < |s.handled| :: s.handled[i] != s.handled[j]
  {
    assert forall i | 0 <= i < |s.handled| :: s.handled[i] == s.enqueued[i];
  }

  /** At any time in the loop the hopper has failed exactly if as many creations have been
      handled as there are CPUs: it then failed in the first iteration, at the addition that
      takes the last CPU, as too many processes. */
  lemma LoopFailsWhenFull(numCpus: nat, states: seq<M.State>, steps: seq<M.Step>, t: nat)
    requires M.Follows(states, steps) && states[0] == M.Init() && t < |states| && AllEarly(states[t])
    requires numCpus > 0
    requires forall i, j | 0 <= i < j < |states[t].enqueued| :: states[t].enqueued[i] != states[t].enqueued[j]
    ensures Init(numCpus).Bounded()
    ensures var outcome := Run(Init(numCpus), Ops(states[t].log));
            if |states[t].handled| < numCpus then outcome.status.Ok? && outcome.done == |states[t].log|
            else outcome.status.TooManyProcesses? && outcome.done == numCpus
  {
    var s := states[t];
    RunHasShape(states, steps, t);
    if s.log == [] {
      assert Ops(s.log) == [];
    } else {
      var k := LogIsLoopOps(s);
      HandledAreDistinct(s);
      LoopOpsFailWhenFull(numCpus, s.handled, k);
    }
  }
}
