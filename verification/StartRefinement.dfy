/** The handshake as the first half of a manager run: what the parent and its children do with
    forks, signals and pipes is, seen from the process objects, what the main thread of
    ManagerRun does in one move per process, up to the start of the monitor thread. */
module StartRefinement {
  import opened Processes
  import H = Handshake
  import M = ManagerRun
  import PM = ProcessMonitor
  import EM = ExecMonitor

  // ----- What a state of the handshake looks like to the manager -----

  /** The k-th entry of the map belongs to the k-th registration. */
  function StatusOf(pids: seq<Pid>, k: nat): map<Pid, nat>
    requires k <= |pids|
  {
    if k == 0 then map[] else StatusOf(pids, k - 1)[pids[k - 1] := k - 1]
  }

  /** The process monitor after k registrations. */
  function Registered(pids: seq<Pid>, k: nat): PM.State
    requires k <= |pids|
  {
    PM.State(StatusOf(pids, k), seq(k, i requires 0 <= i < k => PM.Registration(pids[i], PM.Waiting)),
             [], PM.Idle, [], [])
  }

  /** The execution monitor after k creation events, its thread not yet started. */
  function Enqueued(pids: seq<Pid>, k: nat): EM.State
    requires k <= |pids|
  {
    EM.State(pids[..k], EM.NotStarted, false, pids[..k], 0, [], [], 0, 0, 0)
  }

  /** A fork takes the manager to its next process, a go byte to the next start. */
  function MainOf(parent: H.Parent): M.Main {
    match parent
    case Preparing(i, stage) => M.Preparing(if stage.Construct? || stage.Fork? then i else i + 1)
    case Registering(i) => M.Registering(i)
    case PreparingMonitor => M.PreparingMonitor
    case Going(i) => M.Starting(i)
    case Closing(i) => M.Starting(i + 1)
    case AllStarted => M.StartingMonitor
    case Killed(_) => M.Killed
  }

  function ChildOf(kid: H.Kid, exit: int): M.Child {
    M.Child(if kid.pc.NotForked? then M.NotForked else if kid.pc.Dead? then M.Zombie(exit) else M.Alive,
            false, false, 0)
  }

  predicate InRange(parent: H.Parent, n: nat) {
    M.ForkedBy(MainOf(parent), n) <= n && M.RegisteredBy(MainOf(parent), n) <= n
  }

  function ChildrenOf(kids: seq<H.Kid>, exits: seq<int>): seq<M.Child>
    requires |kids| == |exits|
  {
    seq(|kids|, i requires 0 <= i < |kids| => ChildOf(kids[i], exits[i]))
  }

  /** `exits` are the statuses the children end with, if they die. */
  function StateOf(s: H.State, pids: seq<Pid>, exits: seq<int>): M.State
    requires |pids| == |exits| == |s.kids| && InRange(s.parent, |pids|)
  {
    var main, n := MainOf(s.parent), |pids|;
    M.State(main, ChildrenOf(s.kids, exits),
            Registered(pids, M.RegisteredBy(main, n)), Enqueued(pids, M.ForkedBy(main, n)))
  }

  lemma InvIsInRange(s: H.State)
    requires H.Inv(s)
    ensures InRange(s.parent, |s.kids|)
  {
  }

  // ----- Every step is a move of the manager, an exit of a child, or none -----

  lemma {:induction false} OnlyPidsSoFar(pids: seq<Pid>, k: nat, pid: Pid)
    requires k <= |pids| && pid in StatusOf(pids, k)
    ensures pid in pids[..k]
  {
    if pid != pids[k - 1] {
      OnlyPidsSoFar(pids, k - 1, pid);
      assert pids[..k] == pids[..k - 1] + [pids[k - 1]];
    }
  }

  lemma OneMoreRegistered(pids: seq<Pid>, k: nat)
    requires k < |pids| && M.DistinctPids(pids)
    ensures PM.Enabled(Registered(pids, k), PM.Add(pids[k]))
    ensures PM.Next(Registered(pids, k), PM.Add(pids[k])) == Registered(pids, k + 1)
  {
    if pids[k] in StatusOf(pids, k) {
      OnlyPidsSoFar(pids, k, pids[k]);
      assert false;
    }
  }

  lemma OneMoreEnqueued(pids: seq<Pid>, k: nat)
    requires k < |pids|
    ensures EM.Next(Enqueued(pids, k), EM.Enqueue(pids[k])) == Enqueued(pids, k + 1)
  {
    assert pids[..k + 1] == pids[..k] + [pids[k]];
  }

  /** What the next step of the parent or a child is to the manager. */
  ghost function Moves(s: H.State, step: H.Step, exits: seq<int>): seq<M.Step>
    requires H.Enabled(s, step) && |exits| == |s.kids|
  {
    match step
    case ParentMoves =>
      if s.parent.Closing? || (s.parent.Preparing? && s.parent.child < |s.kids| && !s.parent.stage.Fork?) then []
      else [M.MainMoves]
    case KidMoves(i) => if H.KidMove(s, i).pc.Dead? then [M.ChildExits(i, exits[i])] else []
    case KidDies(i) => [M.ChildExits(i, exits[i])]
  }

  /** The manager takes the listed moves, at most one, from a to b. */
  ghost predicate Takes(a: M.State, moves: seq<M.Step>, b: M.State, pids: seq<Pid>) {
    if moves == [] then a == b
    else |moves| == 1 && M.Enabled(a, moves[0]) && |a.children| == |pids| && M.Next(a, moves[0], pids) == b
  }

  lemma ChildChanges(kids: seq<H.Kid>, exits: seq<int>, i: nat, kid: H.Kid)
    requires i < |kids| == |exits|
    ensures ChildrenOf(kids[i := kid], exits) == ChildrenOf(kids, exits)[i := ChildOf(kid, exits[i])]
  {
  }

  lemma ForkRefines(s: H.State, i: nat, pids: seq<Pid>, exits: seq<int>)
    requires H.Inv(s) && s.parent == H.Preparing(i, H.Fork) && i < |s.kids|
    requires |pids| == |exits| == |s.kids|
    ensures InRange(s.parent, |pids|) && H.ParentCanMove(s) && InRange(H.ParentMove(s).parent, |pids|)
    ensures Takes(StateOf(s, pids, exits), [M.MainMoves], StateOf(H.ParentMove(s), pids, exits), pids)
  {
    ChildChanges(s.kids, exits, i, H.ParentMove(s).kids[i]);
    OneMoreEnqueued(pids, i);
  }

  lemma PrepareStutters(s: H.State, i: nat, pids: seq<Pid>, exits: seq<int>)
    requires H.Inv(s) && H.ParentCanMove(s)
    requires s.parent.Preparing? && s.parent.child == i < |s.kids| && !s.parent.stage.Fork?
    requires |pids| == |exits| == |s.kids|
    ensures InRange(s.parent, |pids|) && InRange(H.ParentMove(s).parent, |pids|)
    ensures StateOf(H.ParentMove(s), pids, exits) == StateOf(s, pids, exits)
  {
    var s' := H.ParentMove(s);
    assert s'.kids == s.kids[i := s'.kids[i]];
    ChildChanges(s.kids, exits, i, s'.kids[i]);
  }

  lemma RegisterRefines(s: H.State, pids: seq<Pid>, exits: seq<int>)
    requires H.Inv(s) && s.parent.Registering? && |pids| == |exits| == |s.kids| && M.DistinctPids(pids)
    ensures InRange(s.parent, |pids|) && H.ParentCanMove(s) && InRange(H.ParentMove(s).parent, |pids|)
    ensures Takes(StateOf(s, pids, exits), [M.MainMoves], StateOf(H.ParentMove(s), pids, exits), pids)
  {
    if s.parent.child < |pids| {
      OneMoreRegistered(pids, s.parent.child);
    }
  }

  lemma GoRefines(s: H.State, i: nat, pids: seq<Pid>, exits: seq<int>)
    requires H.Inv(s) && s.parent == H.Going(i) && |pids| == |exits| == |s.kids|
    ensures InRange(s.parent, |pids|) && H.ParentCanMove(s) && InRange(H.ParentMove(s).parent, |pids|)
    ensures Takes(StateOf(s, pids, exits), [M.MainMoves], StateOf(H.ParentMove(s), pids, exits), pids)
  {
    if i < |s.kids| {
      var s' := H.ParentMove(s);
      H.NoReaderIffDead(s, i);
      assert H.KidInv(s.parent, i, s.kids[i]);
      assert s'.kids == s.kids[i := s'.kids[i]];
      ChildChanges(s.kids, exits, i, s'.kids[i]);
    }
  }

  lemma ParentRefines(s: H.State, pids: seq<Pid>, exits: seq<int>)
    requires H.Inv(s) && H.ParentCanMove(s) && |pids| == |exits| == |s.kids| && M.DistinctPids(pids)
    ensures InRange(s.parent, |pids|) && InRange(H.ParentMove(s).parent, |pids|)
    ensures Takes(StateOf(s, pids, exits), Moves(s, H.ParentMoves, exits), StateOf(H.ParentMove(s), pids, exits), pids)
  {
    match s.parent
    case Preparing(i, stage) =>
      if i < |s.kids| {
        if stage.Fork? {
          ForkRefines(s, i, pids, exits);
        } else {
          PrepareStutters(s, i, pids, exits);
        }
      }
    case Registering(_) => RegisterRefines(s, pids, exits);
    case Going(i) => GoRefines(s, i, pids, exits);
    case _ =>
  }

  /** A child that goes on is as alive to the manager as before, one that dies exits. */
  lemma KidChangeRefines(s: H.State, i: nat, kid: H.Kid, pids: seq<Pid>, exits: seq<int>)
    requires i < |s.kids| && !s.kids[i].pc.NotForked? && !s.kids[i].pc.Dead? && !kid.pc.NotForked?
    requires |pids| == |exits| == |s.kids| && InRange(s.parent, |pids|)
    ensures Takes(StateOf(s, pids, exits), if kid.pc.Dead? then [M.ChildExits(i, exits[i])] else [],
                  StateOf(s.(kids := s.kids[i := kid]), pids, exits), pids)
  {
    ChildChanges(s.kids, exits, i, kid);
  }

  lemma ChildRefines(s: H.State, step: H.Step, pids: seq<Pid>, exits: seq<int>)
    requires H.Enabled(s, step) && !step.ParentMoves?
    requires |pids| == |exits| == |s.kids| && InRange(s.parent, |pids|)
    ensures H.Next(s, step).parent == s.parent
    ensures Takes(StateOf(s, pids, exits), Moves(s, step, exits), StateOf(H.Next(s, step), pids, exits), pids)
  {
    var i := step.child;
    KidChangeRefines(s, i, H.Next(s, step).kids[i], pids, exits);
  }

  /** Every step of the handshake is a move of the manager, an exit of a child, or invisible. */
  lemma StepRefines(s: H.State, step: H.Step, pids: seq<Pid>, exits: seq<int>)
    requires H.Inv(s) && H.Enabled(s, step) && |pids| == |exits| == |s.kids| && M.DistinctPids(pids)
    ensures H.Inv(H.Next(s, step)) && |H.Next(s, step).kids| == |s.kids|
    ensures InRange(s.parent, |pids|) && InRange(H.Next(s, step).parent, |pids|)
    ensures Takes(StateOf(s, pids, exits), Moves(s, step, exits), StateOf(H.Next(s, step), pids, exits), pids)
  {
    H.StepKeepsInv(s, step);
    InvIsInRange(s);
    if step.ParentMoves? {
      ParentRefines(s, pids, exits);
    } else {
      ChildRefines(s, step, pids, exits);
    }
  }

  // ----- Whole runs -----

  lemma InitRefines(pids: seq<Pid>, exits: seq<int>)
    requires |pids| == |exits|
    ensures InRange(H.Init(|pids|).parent, |pids|)
    ensures StateOf(H.Init(|pids|), pids, exits) == M.Init(|pids|)
  {
  }

  lemma ExtendBy(states: seq<M.State>, steps: seq<M.Step>, moves: seq<M.Step>, last: M.State, pids: seq<Pid>)
    returns (states': seq<M.State>, steps': seq<M.Step>)
    requires M.Follows(states, steps, pids) && Takes(states[|steps|], moves, last, pids)
    ensures M.Follows(states', steps', pids) && states'[|steps'|] == last
  {
    if moves == [] {
      states', steps' := states, steps;
    } else {
      M.ExtendRun(states, steps, pids, moves[0]);
      states', steps' := states + [last], steps + moves;
    }
  }

  /** Every run of the handshake is a run of the manager that has got as far. */
  lemma RunsRefine(states: seq<H.State>, steps: seq<H.Step>, pids: seq<Pid>, exits: seq<int>, t: nat)
    returns (mStates: seq<M.State>, mSteps: seq<M.Step>)
    requires H.Follows(states, steps) && states[0] == H.Init(|pids|) && t < |states|
    requires |pids| == |exits| && M.DistinctPids(pids)
    ensures H.Inv(states[t]) && |states[t].kids| == |pids| && InRange(states[t].parent, |pids|)
    ensures M.Follows(mStates, mSteps, pids) && mStates[|mSteps|] == StateOf(states[t], pids, exits)
  {
    H.EveryRunKeepsInv(|pids|, states, steps, 0);
    InitRefines(pids, exits);
    mStates, mSteps := [M.Init(|pids|)], [];
    for i := 0 to t
      invariant H.Inv(states[i]) && |states[i].kids| == |pids| && InRange(states[i].parent, |pids|)
      invariant M.Follows(mStates, mSteps, pids) && mStates[|mSteps|] == StateOf(states[i], pids, exits)
    {
      StepRefines(states[i], steps[i], pids, exits);
      var moves, next := Moves(states[i], steps[i], exits), StateOf(states[i + 1], pids, exits);
      mStates, mSteps := ExtendBy(mStates, mSteps, moves, next, pids);
    }
  }

  /** From any point of the handshake, with a benchmark and as long as no child has died, the
      manager can be carried on to the return of start_impl. */
  lemma UndisturbedStartReturns(states: seq<H.State>, steps: seq<H.Step>, pids: seq<Pid>, exits: seq<int>, t: nat)
    returns (mStates: seq<M.State>, mSteps: seq<M.Step>)
    requires H.Follows(states, steps) && states[0] == H.Init(|pids|) && t < |states|
    requires |pids| == |exits| > 0 && M.DistinctPids(pids) && H.NobodyDead(states[t])
    ensures |states[t].kids| == |pids| && InRange(states[t].parent, |pids|)
    ensures M.Follows(mStates, mSteps, pids) && StateOf(states[t], pids, exits) in mStates
    ensures mStates[|mSteps|].main.Done?
  {
    var prefix, prefixSteps := RunsRefine(states, steps, pids, exits, t);
    mStates, mSteps := M.SomeRunReturns(prefix, prefixSteps, pids);
    assert mStates[|prefixSteps|] == prefix[|prefixSteps|];
  }
}
