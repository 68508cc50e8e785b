/** A whole run of the simple manager: preparing the benchmarks, registering the waiters,
    starting, waiting for the first to end, stopping the monitor thread, killing the rest, and
    destroying the process monitor, against every interleaving with the children, the waiter
    threads and the monitor thread.

    Assumed of the operating system: waitpid succeeds, pids are not reused, a killed child ends
    in the end, and the manager's reads and writes of the flags are atomic. */
module ManagerRun {
  import opened OrderedKeys
  import opened Processes
  import opened Tallies
  import PM = ProcessMonitor
  import EM = ExecMonitor

  datatype Life = NotForked | Alive | Zombie(status: int) | Reaped(status: int)

  datatype Child = Child(
    life: Life,
    signalled: bool,                        // SIGKILL is on its way
    marked: bool,                           // terminated_ of the process object
    reaps: nat                              // how often waitpid returned it
  )

  /** Where start_impl is; index n of a loop is its exit. */
  datatype Main =
    | Preparing(i: nat)
    | Registering(i: nat)
    | PreparingMonitor
    | Starting(i: nat)
    | StartingMonitor
    | Waiting                               // in wait_for_any
    | Ending
    | Joining
    | Killing(i: nat)
    | Destroying(rest: set<Pid>)            // the entries whose future is still to be waited for
    | Done
    | Killed                                // by SIGPIPE, starting a child that had died

  datatype State = State(main: Main, children: seq<Child>, mon: PM.State, em: EM.State)

  datatype Step =
    | MainMoves
    | ChildExits(i: nat, status: int)       // on its own, or by the signal
    | Reap(i: nat)                          // waitpid returns in the child's waiter,
    | Mark(i: nat)                          // which marks the process as terminated,
    | Push(i: nat)                          // pushes the pid
    | Complete(i: nat)                      // and completes the future
    | ThreadMoves(step: EM.Step)            // the monitor thread

  function Init(n: nat): State {
    State(Preparing(0), seq(n, _ => Child(NotForked, false, false, 0)), PM.Init(), EM.Init())
  }

  /** The i-th child gets the i-th pid. */
  ghost predicate DistinctPids(pids: seq<Pid>) {
    forall i, j | 0 <= i < j < |pids| :: pids[i] != pids[j]
  }

  predicate Completed(mon: PM.State, pid: Pid) {
    pid in mon.status && mon.status[pid] < |mon.registrations|
    && (mon.registrations[mon.status[pid]].phase.Ready? || mon.registrations[mon.status[pid]].phase.Failed?)
  }

  ghost predicate MainCanMove(s: State) {
    match s.main
    case Waiting => PM.Enabled(s.mon, PM.Pop) || PM.Enabled(s.mon, PM.Collect)
    case Joining => s.em.thread.Finished?
    case Destroying(rest) => forall pid | IsLeast(pid, rest) :: Completed(s.mon, pid)
    case Done => false
    case Killed => false
    case _ => true
  }

  predicate WaiterAt(s: State, i: nat, step: PM.Step) {
    i < |s.children| && PM.Enabled(s.mon, step)
  }

  ghost predicate Enabled(s: State, step: Step) {
    match step
    case MainMoves => MainCanMove(s)
    case ChildExits(i, _) => i < |s.children| && s.children[i].life.Alive?
    case Reap(i) => i < |s.children| && s.children[i].life.Zombie?
                    && PM.Enabled(s.mon, PM.WaitSucceeds(i, s.children[i].life.status))
    case Mark(i) => WaiterAt(s, i, PM.Push(i)) && !s.children[i].marked
    case Push(i) => WaiterAt(s, i, PM.Push(i)) && s.children[i].marked
    case Complete(i) => WaiterAt(s, i, PM.Complete(i))
    case ThreadMoves(step) => EM.ByThread(step) && EM.Enabled(s.em, step)
  }

  /** kill_process: nothing for a process marked as terminated; a kill of one that is reaped but
      not marked fails, and the failure is caught. */
  function Kill(child: Child): Child {
    if child.marked || child.life.Reaped? then child else child.(signalled := true)
  }

  ghost function MainMove(s: State, pids: seq<Pid>): State
    requires MainCanMove(s) && |pids| == |s.children|
  {
    var n := |s.children|;
    match s.main
    case Preparing(i) =>
      if i >= n then s.(main := Registering(0)) else
        s.(main := Preparing(i + 1), children := s.children[i := s.children[i].(life := Alive)],
           em := EM.Next(s.em, EM.Enqueue(pids[i])))
    case Registering(i) =>
      if i >= n then s.(main := PreparingMonitor)
      else if PM.Enabled(s.mon, PM.Add(pids[i])) then
        s.(main := Registering(i + 1), mon := PM.Next(s.mon, PM.Add(pids[i])))
      else s
    case PreparingMonitor => s.(main := Starting(0))
    case Starting(i) =>
      if i >= n then s.(main := StartingMonitor)
      else if s.children[i].life.Alive? then s.(main := Starting(i + 1)) else s.(main := Killed)
    case StartingMonitor =>
      if EM.Enabled(s.em, EM.Start) && PM.Enabled(s.mon, PM.CallWaitForAny) then
        s.(main := Waiting, em := EM.Next(s.em, EM.Start), mon := PM.Next(s.mon, PM.CallWaitForAny))
      else s
    case Waiting =>
      if PM.Enabled(s.mon, PM.Pop) then s.(mon := PM.Next(s.mon, PM.Pop))
      else
        var mon := PM.Next(s.mon, PM.Collect);
        s.(main := if mon.owner.Idle? then Ending else Killed, mon := mon)
    case Ending =>
      s.(main := Joining,
         em := if EM.Enabled(s.em, EM.EndExecution) then EM.Next(s.em, EM.EndExecution) else s.em)
    case Joining => s.(main := Killing(0))
    case Killing(i) =>
      if i >= n then s.(main := Destroying(s.mon.status.Keys))
      else s.(main := Killing(i + 1), children := s.children[i := Kill(s.children[i])])
    case Destroying(rest) =>
      if rest == {} then s.(main := Done)
      else s.(main := Destroying(rest - (set pid | pid in rest && IsLeast(pid, rest))))
    case Done => s
    case Killed => s
  }

  ghost function Next(s: State, step: Step, pids: seq<Pid>): State
    requires Enabled(s, step) && |pids| == |s.children|
  {
    match step
    case MainMoves => MainMove(s, pids)
    case ChildExits(i, status) => s.(children := s.children[i := s.children[i].(life := Zombie(status))])
    case Reap(i) =>
      var status := s.children[i].life.status;
      s.(children := s.children[i := s.children[i].(life := Reaped(status), reaps := s.children[i].reaps + 1)],
         mon := PM.Next(s.mon, PM.WaitSucceeds(i, status)))
    case Mark(i) => s.(children := s.children[i := s.children[i].(marked := true)])
    case Push(i) => s.(mon := PM.Next(s.mon, PM.Push(i)))
    case Complete(i) => s.(mon := PM.Next(s.mon, PM.Complete(i)))
    case ThreadMoves(step) => s.(em := EM.Next(s.em, step))
  }

  // ----- The invariant -----

  function ForkedBy(main: Main, n: nat): nat {
    if main.Preparing? then main.i else n
  }

  function RegisteredBy(main: Main, n: nat): nat {
    if main.Preparing? then 0 else if main.Registering? then main.i else n
  }

  predicate BeforeThread(main: Main) {
    main.Preparing? || main.Registering? || main.PreparingMonitor?
    || main.Starting? || main.StartingMonitor? || main.Killed?
  }

  predicate AfterEnd(main: Main) {
    main.Joining? || main.Killing? || main.Destroying? || main.Done?
  }

  predicate AfterJoin(main: Main) {
    main.Killing? || main.Destroying? || main.Done?
  }

  function KilledBy(main: Main, n: nat): nat {
    if main.Killing? then main.i else if main.Destroying? || main.Done? then n else 0
  }

  ghost predicate MainInv(s: State, pids: seq<Pid>) {
    && |pids| == |s.children| && DistinctPids(pids)
    && (s.main.Preparing? || s.main.Registering? || s.main.Starting? || s.main.Killing? ==> s.main.i <= |pids|)
  }

  ghost predicate MonInv(main: Main, mon: PM.State, pids: seq<Pid>) {
    && PM.Inv(mon)
    && |mon.registrations| == RegisteredBy(main, |pids|) <= |pids|
    && (forall r | 0 <= r < |mon.registrations| ::
          mon.registrations[r].pid == pids[r] && !mon.registrations[r].phase.Failed?)
    && (if main.Waiting? then mon.owner.Popping? || mon.owner.Holding? else mon.owner.Idle?)
    && |mon.returned| == if main.Ending? || AfterEnd(main) then 1 else 0
  }

  ghost predicate EmInv(main: Main, em: EM.State, pids: seq<Pid>) {
    && EM.Inv(em)
    && (em.thread.NotStarted? <==> BeforeThread(main))
    && (em.over <==> AfterEnd(main))
    && (AfterJoin(main) ==> em.thread.Finished?)
    && ForkedBy(main, |pids|) <= |pids| && em.enqueued == pids[..ForkedBy(main, |pids|)]
  }

  /** The child, its waiter and its process object agree. */
  ghost predicate ChildOk(main: Main, n: nat, mon: PM.State, i: nat, child: Child) {
    && (child.life.NotForked? <==> i >= ForkedBy(main, n))
    && (child.life.Reaped? <==> i < |mon.registrations| && !mon.registrations[i].phase.Waiting?)
    && (child.life.Reaped? ==>
          !mon.registrations[i].phase.Failed? && mon.registrations[i].phase.status == child.life.status)
    && child.reaps == (if child.life.Reaped? then 1 else 0)
    && (child.marked ==> child.life.Reaped?)
    && (child.life.Reaped? && !mon.registrations[i].phase.Obtained? ==> child.marked)
    && (i < KilledBy(main, n) && child.life.Alive? ==> child.signalled)
  }

  ghost predicate ChildrenInv(main: Main, n: nat, mon: PM.State, children: seq<Child>) {
    forall i | 0 <= i < |children| :: ChildOk(main, n, mon, i, children[i])
  }

  ghost predicate DestroyInv(main: Main, mon: PM.State) {
    && (main.Destroying? ==> main.rest <= mon.status.Keys)
    && (main.Destroying? ==> forall pid | pid in mon.status :: pid in main.rest || Completed(mon, pid))
    && (main.Done? ==> forall pid | pid in mon.status :: Completed(mon, pid))
  }

  ghost predicate Inv(s: State, pids: seq<Pid>) {
    && MainInv(s, pids)
    && MonInv(s.main, s.mon, pids)
    && EmInv(s.main, s.em, pids)
    && ChildrenInv(s.main, |pids|, s.mon, s.children)
    && DestroyInv(s.main, s.mon)
  }

  lemma InitHasMonInv(pids: seq<Pid>)
    ensures MonInv(Preparing(0), PM.Init(), pids) && EmInv(Preparing(0), EM.Init(), pids)
  {
    assert pids[..0] == [];
  }

  lemma InitHasInv(pids: seq<Pid>)
    requires DistinctPids(pids)
    ensures Inv(Init(|pids|), pids)
  {
    InitHasMonInv(pids);
  }

  /** New pids are never refused. */
  lemma RegistrationIsNew(mon: PM.State, pids: seq<Pid>, i: nat)
    requires MonInv(Registering(i), mon, pids) && DistinctPids(pids) && i < |pids|
    ensures !PM.Refused(mon, pids[i])
  {
    forall pid | pid in mon.status ensures pid != pids[i] {
      var r := mon.status[pid];
      assert r < i && pids[r] == mon.registrations[r].pid == pid;
    }
  }

  lemma RegisterKeepsMonInv(mon: PM.State, pids: seq<Pid>, i: nat) returns (mon': PM.State)
    requires MonInv(Registering(i), mon, pids) && DistinctPids(pids) && i < |pids|
    ensures PM.Enabled(mon, PM.Add(pids[i])) && mon' == PM.Next(mon, PM.Add(pids[i]))
    ensures MonInv(Registering(i + 1), mon', pids)
    ensures mon'.registrations == mon.registrations + [PM.Registration(pids[i], PM.Waiting)]
  {
    RegistrationIsNew(mon, pids, i);
    PM.StepKeepsInv(mon, PM.Add(pids[i]));
    mon' := PM.Next(mon, PM.Add(pids[i]));
  }

  lemma RegisterKeepsChildrenInv(children: seq<Child>, mon: PM.State, mon': PM.State, n: nat, i: nat, pid: Pid)
    requires ChildrenInv(Registering(i), n, mon, children)
    requires mon'.registrations == mon.registrations + [PM.Registration(pid, PM.Waiting)]
    requires i == |mon.registrations| < n == |children|
    ensures ChildrenInv(Registering(i + 1), n, mon', children)
  {
    forall k | 0 <= k < |children| ensures ChildOk(Registering(i + 1), n, mon', k, children[k]) {
      assert ChildOk(Registering(i), n, mon, k, children[k]);
    }
  }

  lemma RegisterKeepsInv(s: State, pids: seq<Pid>)
    requires Inv(s, pids) && s.main.Registering?
    ensures Inv(MainMove(s, pids), pids)
  {
    var i := s.main.i;
    if i < |pids| {
      var mon' := RegisterKeepsMonInv(s.mon, pids, i);
      RegisterKeepsChildrenInv(s.children, s.mon, mon', |pids|, i, pids[i]);
    }
  }

  lemma PrepareKeepsInv(s: State, pids: seq<Pid>)
    requires Inv(s, pids) && s.main.Preparing?
    ensures Inv(MainMove(s, pids), pids)
  {
    var i := s.main.i;
    if i < |pids| {
      EM.StepKeepsInv(s.em, EM.Enqueue(pids[i]));
      assert pids[..i + 1] == pids[..i] + [pids[i]];
    }
  }

  // The parts of the invariant when the main thread moves on and their own part of the state
  // does not change.

  lemma MonInvElsewhere(main: Main, main': Main, mon: PM.State, pids: seq<Pid>)
    requires MonInv(main, mon, pids) && RegisteredBy(main', |pids|) == RegisteredBy(main, |pids|)
    requires !main.Waiting? && !main'.Waiting?
    requires (main'.Ending? || AfterEnd(main')) <==> (main.Ending? || AfterEnd(main))
    ensures MonInv(main', mon, pids)
  {
  }

  lemma EmInvElsewhere(main: Main, main': Main, em: EM.State, pids: seq<Pid>)
    requires EmInv(main, em, pids) && ForkedBy(main', |pids|) == ForkedBy(main, |pids|)
    requires BeforeThread(main') <==> BeforeThread(main)
    requires AfterEnd(main') <==> AfterEnd(main)
    requires AfterJoin(main') ==> em.thread.Finished?
    ensures EmInv(main', em, pids)
  {
  }

  lemma ChildrenInvElsewhere(main: Main, main': Main, mon: PM.State, mon': PM.State, n: nat, children: seq<Child>)
    requires ChildrenInv(main, n, mon, children) && mon'.registrations == mon.registrations
    requires ForkedBy(main', n) == ForkedBy(main, n) && KilledBy(main', n) == KilledBy(main, n)
    ensures ChildrenInv(main', n, mon', children)
  {
    forall k | 0 <= k < |children| ensures ChildOk(main', n, mon', k, children[k]) {
      assert ChildOk(main, n, mon, k, children[k]);
    }
  }

  /** The pop and the collection of wait_for_any. */
  lemma WaitKeepsMonInv(mon: PM.State, pids: seq<Pid>, step: PM.Step) returns (mon': PM.State)
    requires MonInv(Waiting, mon, pids) && PM.Enabled(mon, step) && (step.Pop? || step.Collect?)
    ensures mon' == PM.Next(mon, step) && mon'.registrations == mon.registrations
    ensures MonInv(if step.Pop? then Waiting else Ending, mon', pids)
  {
    PM.StepKeepsInv(mon, step);
    PM.LookupCannotFail(mon);
    mon' := PM.Next(mon, step);
  }

  lemma PopKeepsInv(s: State, pids: seq<Pid>)
    requires Inv(s, pids) && s.main.Waiting? && PM.Enabled(s.mon, PM.Pop)
    ensures Inv(MainMove(s, pids), pids)
  {
    var mon' := WaitKeepsMonInv(s.mon, pids, PM.Pop);
    ChildrenInvElsewhere(s.main, s.main, s.mon, mon', |pids|, s.children);
  }

  lemma CollectKeepsInv(s: State, pids: seq<Pid>)
    requires Inv(s, pids) && s.main.Waiting? && !PM.Enabled(s.mon, PM.Pop) && PM.Enabled(s.mon, PM.Collect)
    ensures Inv(MainMove(s, pids), pids)
  {
    var mon' := WaitKeepsMonInv(s.mon, pids, PM.Collect);
    ChildrenInvElsewhere(s.main, Ending, s.mon, mon', |pids|, s.children);
    EmInvElsewhere(s.main, Ending, s.em, pids);
  }

  lemma StartKeepsMonInv(mon: PM.State, pids: seq<Pid>) returns (mon': PM.State)
    requires MonInv(StartingMonitor, mon, pids)
    ensures PM.Enabled(mon, PM.CallWaitForAny) && mon' == PM.Next(mon, PM.CallWaitForAny)
    ensures MonInv(Waiting, mon', pids) && mon'.registrations == mon.registrations
  {
    PM.StepKeepsInv(mon, PM.CallWaitForAny);
    mon' := PM.Next(mon, PM.CallWaitForAny);
  }

  lemma StartKeepsEmInv(em: EM.State, pids: seq<Pid>) returns (em': EM.State)
    requires EmInv(StartingMonitor, em, pids)
    ensures EM.Enabled(em, EM.Start) && em' == EM.Next(em, EM.Start) && EmInv(Waiting, em', pids)
  {
    EM.StepKeepsInv(em, EM.Start);
    em' := EM.Next(em, EM.Start);
  }

  lemma StartMonitorKeepsInv(s: State, pids: seq<Pid>)
    requires Inv(s, pids) && s.main.StartingMonitor?
    ensures Inv(MainMove(s, pids), pids)
  {
    var mon' := StartKeepsMonInv(s.mon, pids);
    var em' := StartKeepsEmInv(s.em, pids);
    ChildrenInvElsewhere(s.main, Waiting, s.mon, mon', |pids|, s.children);
  }

  lemma EndKeepsEmInv(em: EM.State, pids: seq<Pid>) returns (em': EM.State)
    requires EmInv(Ending, em, pids)
    ensures EM.Enabled(em, EM.EndExecution) && em' == EM.Next(em, EM.EndExecution) && EmInv(Joining, em', pids)
  {
    EM.StepKeepsInv(em, EM.EndExecution);
    em' := EM.Next(em, EM.EndExecution);
  }

  lemma EndKeepsInv(s: State, pids: seq<Pid>)
    requires Inv(s, pids) && s.main.Ending?
    ensures Inv(MainMove(s, pids), pids)
  {
    var em' := EndKeepsEmInv(s.em, pids);
    MonInvElsewhere(s.main, Joining, s.mon, pids);
    ChildrenInvElsewhere(s.main, Joining, s.mon, s.mon, |pids|, s.children);
  }

  lemma KillKeepsChildrenInv(children: seq<Child>, mon: PM.State, i: nat)
    requires ChildrenInv(Killing(i), |children|, mon, children) && i < |children|
    ensures ChildrenInv(Killing(i + 1), |children|, mon, children[i := Kill(children[i])])
  {
    var children' := children[i := Kill(children[i])];
    forall k | 0 <= k < |children| ensures ChildOk(Killing(i + 1), |children|, mon, k, children'[k]) {
      assert ChildOk(Killing(i), |children|, mon, k, children[k]);
    }
  }

  lemma KillKeepsInv(s: State, pids: seq<Pid>)
    requires Inv(s, pids) && s.main.Killing?
    ensures Inv(MainMove(s, pids), pids)
  {
    var s' := MainMove(s, pids);
    MonInvElsewhere(s.main, s'.main, s.mon, pids);
    EmInvElsewhere(s.main, s'.main, s.em, pids);
    if s.main.i < |pids| {
      KillKeepsChildrenInv(s.children, s.mon, s.main.i);
    } else {
      ChildrenInvElsewhere(s.main, s'.main, s.mon, s.mon, |pids|, s.children);
    }
  }

  lemma DestroyKeepsDestroyInv(s: State, pids: seq<Pid>)
    requires DestroyInv(s.main, s.mon) && s.main.Destroying? && MainCanMove(s) && |pids| == |s.children|
    ensures DestroyInv(MainMove(s, pids).main, s.mon)
  {
  }

  /** The moves of the main thread that change nothing but its program point. */
  lemma LoneMoveKeepsInv(s: State, pids: seq<Pid>)
    requires Inv(s, pids) && MainCanMove(s)
    requires s.main.PreparingMonitor? || s.main.Starting? || s.main.Joining? || s.main.Destroying?
    ensures Inv(MainMove(s, pids), pids)
  {
    var s' := MainMove(s, pids);
    MonInvElsewhere(s.main, s'.main, s.mon, pids);
    EmInvElsewhere(s.main, s'.main, s.em, pids);
    ChildrenInvElsewhere(s.main, s'.main, s.mon, s.mon, |pids|, s.children);
    if s.main.Destroying? {
      DestroyKeepsDestroyInv(s, pids);
    }
  }

  lemma MainMoveKeepsInv(s: State, pids: seq<Pid>)
    requires Inv(s, pids) && MainCanMove(s)
    ensures Inv(MainMove(s, pids), pids)
  {
    match s.main
    case Preparing(_) => PrepareKeepsInv(s, pids);
    case Registering(_) => RegisterKeepsInv(s, pids);
    case StartingMonitor => StartMonitorKeepsInv(s, pids);
    case Waiting =>
      if PM.Enabled(s.mon, PM.Pop) {
        PopKeepsInv(s, pids);
      } else {
        CollectKeepsInv(s, pids);
      }
    case Ending => EndKeepsInv(s, pids);
    case Killing(_) => KillKeepsInv(s, pids);
    case _ => LoneMoveKeepsInv(s, pids);
  }

  lemma WaiterKeepsDestroyInv(main: Main, mon: PM.State, step: PM.Step)
    requires DestroyInv(main, mon) && PM.Enabled(mon, step)
    requires step.Push? || step.Complete? || step.WaitSucceeds?
    ensures DestroyInv(main, PM.Next(mon, step))
  {
    assert forall pid | pid in mon.status && Completed(mon, pid) :: Completed(PM.Next(mon, step), pid);
  }

  /** A step of the waiter of child i leaves the other children's waiters alone. */
  lemma WaiterKeepsMonInv(main: Main, mon: PM.State, pids: seq<Pid>, i: nat, step: PM.Step)
    returns (mon': PM.State)
    requires MonInv(main, mon, pids) && DestroyInv(main, mon) && PM.Enabled(mon, step)
    requires step == PM.Push(i) || step == PM.Complete(i) || (step.WaitSucceeds? && step.registration == i)
    ensures mon' == PM.Next(mon, step) && MonInv(main, mon', pids) && DestroyInv(main, mon')
    ensures i < |mon.registrations| == |mon'.registrations|
    ensures forall r | 0 <= r < |mon.registrations| && r != i :: mon'.registrations[r] == mon.registrations[r]
    ensures mon'.status == mon.status
  {
    PM.StepKeepsInv(mon, step);
    WaiterKeepsDestroyInv(main, mon, step);
    mon' := PM.Next(mon, step);
  }

  lemma WaiterKeepsChildrenInv(main: Main, mon: PM.State, mon': PM.State, children: seq<Child>, i: nat, child: Child)
    requires ChildrenInv(main, |children|, mon, children) && i < |mon.registrations| == |mon'.registrations|
    requires i < |children| && ChildOk(main, |children|, mon', i, child)
    requires forall r | 0 <= r < |mon.registrations| && r != i :: mon'.registrations[r] == mon.registrations[r]
    ensures ChildrenInv(main, |children|, mon', children[i := child])
  {
    var children' := children[i := child];
    forall k | 0 <= k < |children| ensures ChildOk(main, |children|, mon', k, children'[k]) {
      assert ChildOk(main, |children|, mon, k, children[k]);
    }
  }

  lemma ReapKeepsChild(main: Main, n: nat, mon: PM.State, i: nat, child: Child)
    requires ChildOk(main, n, mon, i, child) && child.life.Zombie?
    requires PM.Enabled(mon, PM.WaitSucceeds(i, child.life.status))
    ensures ChildOk(main, n, PM.Next(mon, PM.WaitSucceeds(i, child.life.status)), i,
                    child.(life := Reaped(child.life.status), reaps := child.reaps + 1))
  {
  }

  lemma ReapKeepsInv(s: State, pids: seq<Pid>, i: nat)
    requires Inv(s, pids) && Enabled(s, Reap(i))
    ensures Inv(Next(s, Reap(i), pids), pids)
  {
    var child := s.children[i];
    var mon' := WaiterKeepsMonInv(s.main, s.mon, pids, i, PM.WaitSucceeds(i, child.life.status));
    assert ChildOk(s.main, |pids|, s.mon, i, child);
    ReapKeepsChild(s.main, |pids|, s.mon, i, child);
    WaiterKeepsChildrenInv(s.main, s.mon, mon', s.children, i, Next(s, Reap(i), pids).children[i]);
  }

  lemma PushKeepsChild(main: Main, n: nat, mon: PM.State, i: nat, child: Child, step: PM.Step)
    requires ChildOk(main, n, mon, i, child) && PM.Enabled(mon, step)
    requires (step == PM.Push(i) && child.marked) || step == PM.Complete(i)
    ensures ChildOk(main, n, PM.Next(mon, step), i, child)
  {
  }

  lemma PushKeepsInv(s: State, pids: seq<Pid>, i: nat, step: Step)
    requires Inv(s, pids) && Enabled(s, step) && (step == Push(i) || step == Complete(i))
    ensures Inv(Next(s, step, pids), pids)
  {
    var pmStep := if step.Push? then PM.Push(i) else PM.Complete(i);
    var mon' := WaiterKeepsMonInv(s.main, s.mon, pids, i, pmStep);
    assert ChildOk(s.main, |pids|, s.mon, i, s.children[i]);
    PushKeepsChild(s.main, |pids|, s.mon, i, s.children[i], pmStep);
    WaiterKeepsChildrenInv(s.main, s.mon, mon', s.children, i, s.children[i]);
    assert s.children == s.children[i := s.children[i]];
  }

  lemma MarkKeepsInv(s: State, pids: seq<Pid>, i: nat)
    requires Inv(s, pids) && Enabled(s, Mark(i))
    ensures Inv(Next(s, Mark(i), pids), pids)
  {
    assert ChildOk(s.main, |pids|, s.mon, i, s.children[i]);
    WaiterKeepsChildrenInv(s.main, s.mon, s.mon, s.children, i, s.children[i].(marked := true));
  }

  lemma ExitKeepsInv(s: State, pids: seq<Pid>, i: nat, status: int)
    requires Inv(s, pids) && Enabled(s, ChildExits(i, status))
    ensures Inv(Next(s, ChildExits(i, status), pids), pids)
  {
    var children' := Next(s, ChildExits(i, status), pids).children;
    forall k | 0 <= k < |children'| ensures ChildOk(s.main, |pids|, s.mon, k, children'[k]) {
      assert ChildOk(s.main, |pids|, s.mon, k, s.children[k]);
    }
  }

  lemma ThreadKeepsInv(s: State, pids: seq<Pid>, step: EM.Step)
    requires Inv(s, pids) && Enabled(s, ThreadMoves(step))
    ensures Inv(Next(s, ThreadMoves(step), pids), pids)
  {
    EM.StepKeepsInv(s.em, step);
  }

  lemma StepKeepsInv(s: State, step: Step, pids: seq<Pid>)
    requires Inv(s, pids) && Enabled(s, step)
    ensures Inv(Next(s, step, pids), pids)
  {
    match step
    case MainMoves => MainMoveKeepsInv(s, pids);
    case ThreadMoves(emStep) => ThreadKeepsInv(s, pids, emStep);
    case Reap(i) => ReapKeepsInv(s, pids, i);
    case Push(i) => PushKeepsInv(s, pids, i, step);
    case Complete(i) => PushKeepsInv(s, pids, i, step);
    case Mark(i) => MarkKeepsInv(s, pids, i);
    case ChildExits(i, status) => ExitKeepsInv(s, pids, i, status);
  }

  // ----- Whole runs -----

  ghost predicate Follows(states: seq<State>, steps: seq<Step>, pids: seq<Pid>) {
    && |states| == |steps| + 1 && DistinctPids(pids) && states[0] == Init(|pids|)
    && (forall t | 0 <= t < |states| :: |states[t].children| == |pids|)
    && (forall t | 0 <= t < |steps| :: Enabled(states[t], steps[t]) && states[t + 1] == Next(states[t], steps[t], pids))
  }

  lemma {:induction false} EveryRunKeepsInv(states: seq<State>, steps: seq<Step>, pids: seq<Pid>, t: nat)
    requires Follows(states, steps, pids) && t < |states|
    ensures Inv(states[t], pids)
  {
    if t == 0 {
      InitHasInv(pids);
    } else {
      EveryRunKeepsInv(states, steps, pids, t - 1);
      StepKeepsInv(states[t - 1], steps[t - 1], pids);
    }
  }

  /** When start_impl returns, there was a benchmark, every child has been reaped exactly once
      and is marked as terminated, every waiter has completed, and the monitor thread has
      finished with the end flag set. */
  lemma EveryChildIsReaped(states: seq<State>, steps: seq<Step>, pids: seq<Pid>, t: nat)
    requires Follows(states, steps, pids) && t < |states| && states[t].main.Done?
    ensures |pids| > 0
    ensures forall i | 0 <= i < |pids| ::
              && states[t].children[i].life.Reaped? && states[t].children[i].reaps == 1
              && states[t].children[i].marked
    ensures states[t].em.thread.Finished? && states[t].em.over && |states[t].mon.returned| == 1
  {
    var s := states[t];
    EveryRunKeepsInv(states, steps, pids, t);
    FirstReturned(s, pids);
    forall i | 0 <= i < |pids|
      ensures s.children[i].life.Reaped? && s.children[i].reaps == 1 && s.children[i].marked
    {
      WaiterIsThrough(s, pids, i);
    }
  }

  lemma FirstReturned(s: State, pids: seq<Pid>)
    requires Inv(s, pids) && |s.mon.returned| == 1
    ensures |pids| > 0
  {
    assert s.mon.returned[0].registration < |s.mon.registrations|;
  }

  lemma WaiterIsThrough(s: State, pids: seq<Pid>, i: nat)
    requires Inv(s, pids) && s.main.Done? && i < |pids|
    ensures s.mon.registrations[i].phase.Ready?
    ensures s.children[i].life.Reaped? && s.children[i].reaps == 1 && s.children[i].marked
  {
    assert ChildOk(s.main, |pids|, s.mon, i, s.children[i]);
    if !s.mon.registrations[i].phase.Ready? {
      PM.IncompleteIsOutstanding(s.mon, i);
    }
  }

  /** In every state of every run no child is reaped more than once, and a process object is
      marked as terminated only after its child was reaped. */
  lemma NeverReapedTwice(states: seq<State>, steps: seq<Step>, pids: seq<Pid>, t: nat, i: nat)
    requires Follows(states, steps, pids) && t < |states| && i < |pids|
    ensures states[t].children[i].reaps <= 1
    ensures states[t].children[i].marked ==> states[t].children[i].reaps == 1
  {
    EveryRunKeepsInv(states, steps, pids, t);
    assert ChildOk(states[t].main, |pids|, states[t].mon, i, states[t].children[i]);
  }

  // ----- Signals and exits -----

  /** A child gets its signal in its own turn of the last loop, exactly if it is neither marked nor
      reaped by then: kill_process returns early for a marked process, and a kill between the reap
      and the mark finds nobody. */
  lemma SignalsAreForTheUnreaped(s: State, step: Step, pids: seq<Pid>, i: nat)
    requires Inv(s, pids) && Enabled(s, step) && i < |pids|
    ensures Next(s, step, pids).children[i].signalled <==>
              || s.children[i].signalled
              || (step.MainMoves? && s.main == Killing(i) && !s.children[i].marked && !s.children[i].life.Reaped?)
  {
  }

  /** The same along a run: whoever has been signalled was so at one step, unmarked and unreaped. */
  lemma {:induction false} SignalledBeforeReaped(states: seq<State>, steps: seq<Step>, pids: seq<Pid>, t: nat, i: nat)
    returns (k: nat)
    requires Follows(states, steps, pids) && t < |states| && i < |pids| && states[t].children[i].signalled
    ensures k < t && states[k].main == Killing(i) && steps[k] == MainMoves
    ensures !states[k].children[i].marked && !states[k].children[i].life.Reaped?
  {
    if t > 0 {
      EveryRunKeepsInv(states, steps, pids, t - 1);
      SignalsAreForTheUnreaped(states[t - 1], steps[t - 1], pids, i);
      if states[t - 1].children[i].signalled {
        k := SignalledBeforeReaped(states, steps, pids, t - 1, i);
      } else {
        k := t - 1;
      }
    }
  }

  /** The start of a child that has ended, reaped or not, kills the manager. */
  lemma StartKillsUnlessAlive(states: seq<State>, steps: seq<Step>, pids: seq<Pid>, t: nat)
    requires Follows(states, steps, pids) && t < |steps| && steps[t] == MainMoves
    requires states[t].main.Starting? && states[t].main.i < |pids|
    ensures var life := states[t].children[states[t].main.i].life;
            && (states[t + 1].main.Killed? <==> life.Zombie? || life.Reaped?)
            && (states[t + 1].main == Starting(states[t].main.i + 1) <==> life.Alive?)
  {
    EveryRunKeepsInv(states, steps, pids, t);
    assert ChildOk(states[t].main, |pids|, states[t].mon, states[t].main.i, states[t].children[states[t].main.i]);
  }

  predicate HasEnded(life: Life) { life.Zombie? || life.Reaped? }

  lemma LifeOfAStep(s: State, step: Step, pids: seq<Pid>, i: nat)
    requires Inv(s, pids) && Enabled(s, step) && i < |pids|
    ensures var life, life' := s.children[i].life, Next(s, step, pids).children[i].life;
            HasEnded(life') ==>
              if HasEnded(life) then life'.status == life.status else step == ChildExits(i, life'.status)
  {
    assert ChildOk(s.main, |pids|, s.mon, i, s.children[i]);
    if step.MainMoves? && s.main.Preparing? && s.main.i < |pids| {
      assert ChildOk(s.main, |pids|, s.mon, s.main.i, s.children[s.main.i]);
    }
  }

  /** A child that has ended has the status it exited with. */
  lemma {:induction false} EndedAsItExited(states: seq<State>, steps: seq<Step>, pids: seq<Pid>, t: nat, i: nat)
    returns (k: nat)
    requires Follows(states, steps, pids) && t < |states| && i < |pids| && HasEnded(states[t].children[i].life)
    ensures k < t && steps[k] == ChildExits(i, states[t].children[i].life.status)
  {
    if t > 0 {
      EveryRunKeepsInv(states, steps, pids, t - 1);
      LifeOfAStep(states[t - 1], steps[t - 1], pids, i);
      if HasEnded(states[t - 1].children[i].life) {
        k := EndedAsItExited(states, steps, pids, t - 1, i);
      } else {
        k := t - 1;
      }
    }
  }

  /** What wait_for_any returns to start_impl is the pid of a benchmark together with the status
      that this benchmark exited with. */
  lemma ReturnsAnExit(states: seq<State>, steps: seq<Step>, pids: seq<Pid>, t: nat) returns (i: nat, k: nat)
    requires Follows(states, steps, pids) && t < |states| && |states[t].mon.returned| == 1
    ensures i < |pids| && states[t].mon.returned[0].pid == pids[i]
    ensures k < t && steps[k] == ChildExits(i, states[t].mon.returned[0].status)
  {
    var s := states[t];
    EveryRunKeepsInv(states, steps, pids, t);
    i := s.mon.returned[0].registration;
    assert s.mon.registrations[i].phase == PM.Ready(s.mon.returned[0].status, 0);
    assert ChildOk(s.main, |pids|, s.mon, i, s.children[i]);
    k := EndedAsItExited(states, steps, pids, t, i);
  }

  // ----- Progress -----

  /** A waiter whose wait has returned, or could return, and that has not completed, can move. */
  lemma WaiterCanMove(s: State, pids: seq<Pid>, i: nat) returns (step: Step)
    requires Inv(s, pids) && i < |s.mon.registrations| && !s.mon.registrations[i].phase.Ready?
    requires !s.children[i].life.Alive?
    ensures Enabled(s, step) && (step == Reap(i) || step == Mark(i) || step == Push(i) || step == Complete(i))
  {
    assert ChildOk(s.main, |pids|, s.mon, i, s.children[i]);
    var phase := s.mon.registrations[i].phase;
    step := if phase.Waiting? then Reap(i)
            else if phase.Obtained? then (if s.children[i].marked then Push(i) else Mark(i))
            else Complete(i);
  }

  /** Nothing in the run can go on before some benchmark ends. */
  ghost predicate AwaitsFirstExit(s: State) {
    s.main.Waiting? && forall i | 0 <= i < |s.children| :: s.children[i].life.Alive?
  }

  lemma WaitCanMove(s: State, pids: seq<Pid>) returns (step: Step)
    requires Inv(s, pids) && s.main.Waiting? && !AwaitsFirstExit(s)
    ensures Enabled(s, step) && !step.ChildExits? && !step.ThreadMoves?
  {
    if s.mon.owner.Holding? {
      var held := PM.HeldIsOutstanding(s.mon);
      assert !s.mon.registrations[held].phase.Failed?;
      if s.mon.registrations[held].phase.Ready? {
        step := MainMoves;
      } else {
        assert ChildOk(s.main, |pids|, s.mon, held, s.children[held]);
        step := WaiterCanMove(s, pids, held);
      }
    } else if s.mon.queue != [] {
      step := MainMoves;
    } else {
      var i :| 0 <= i < |s.children| && !s.children[i].life.Alive?;
      assert ChildOk(s.main, |pids|, s.mon, i, s.children[i]);
      assert !s.mon.registrations[i].phase.Ready?;
      step := WaiterCanMove(s, pids, i);
    }
  }

  lemma DestroyCanMove(s: State, pids: seq<Pid>) returns (step: Step)
    requires Inv(s, pids) && s.main.Destroying?
    ensures Enabled(s, step) && !step.ThreadMoves?
    ensures step.ChildExits? ==> s.children[step.i].signalled
  {
    if MainCanMove(s) {
      step := MainMoves;
    } else {
      var pid :| IsLeast(pid, s.main.rest) && !Completed(s.mon, pid);
      var i := s.mon.status[pid];
      assert ChildOk(s.main, |pids|, s.mon, i, s.children[i]);
      if s.children[i].life.Alive? {
        step := ChildExits(i, 9);
      } else {
        step := WaiterCanMove(s, pids, i);
      }
    }
  }

  /** No interleaving deadlocks: until start_impl has returned, or the manager was killed, some
      step other than a voluntary exit can be taken, except that wait_for_any waits for the
      first benchmark to end. */
  lemma NoDeadlock(s: State, pids: seq<Pid>) returns (step: Step)
    requires Inv(s, pids) && !s.main.Done? && !s.main.Killed? && !AwaitsFirstExit(s)
    ensures Enabled(s, step) && (step.ChildExits? ==> s.children[step.i].signalled)
    ensures step.ThreadMoves? ==> s.em.over
  {
    match s.main
    case Waiting => step := WaitCanMove(s, pids);
    case Destroying(_) => step := DestroyCanMove(s, pids);
    case Joining =>
      if s.em.thread.Finished? {
        step := MainMoves;
      } else {
        var emStep := EM.ThreadNeverWaits(s.em);
        step := ThreadMoves(emStep);
      }
    case _ => step := MainMoves;
  }

  lemma PushesNeedRegistrations(mon: PM.State)
    requires PM.Inv(mon)
    ensures mon.pushes != [] ==> mon.registrations != []
  {
    assert mon.pushes != [] ==> mon.pushes[0] < |mon.registrations|;
  }

  /** Without benchmarks wait_for_any never returns. */
  lemma NoBenchmarksNeverReturns(states: seq<State>, steps: seq<Step>, t: nat)
    requires Follows(states, steps, []) && t < |states|
    ensures !states[t].main.Done? && (states[t].main.Waiting? ==> !MainCanMove(states[t]))
  {
    var s := states[t];
    EveryRunKeepsInv(states, steps, [], t);
    PushesNeedRegistrations(s.mon);
    if |s.mon.returned| == 1 {
      FirstReturned(s, []);
    }
  }

  // ----- Termination -----

  function ChildWork(child: Child): nat {
    match child.life
    case NotForked => 3
    case Alive => 3
    case Zombie(_) => 2
    case Reaped(_) => if child.marked then 0 else 1
  }

  function MainWork(main: Main, n: nat): int {
    match main
    case Preparing(i) => (n - i) + 7 * n + 12
    case Registering(i) => 4 * (n - i) + 3 * n + 11
    case PreparingMonitor => 3 * n + 10
    case Starting(i) => (n - i) + 2 * n + 9
    case StartingMonitor => 2 * n + 8
    case Waiting => 2 * n + 5
    case Ending => 2 * n + 4
    case Joining => 2 * n + 3
    case Killing(i) => (n - i) + n + 2
    case Destroying(rest) => |rest| + 1
    case Done => 0
    case Killed => 0
  }

  /** The monitor thread counts once the execution is over; before, it loops as it likes. */
  function ThreadWork(em: EM.State, n: nat): nat {
    if em.over then EM.Work(em) else 2 * n + 4
  }

  ghost function TotalWork(s: State): int {
    var n := |s.children|;
    MainWork(s.main, n) + Tally(s.children, ChildWork) + PM.TotalWork(s.mon) + ThreadWork(s.em, n)
  }

  predicate Useful(s: State, step: Step) {
    step.ThreadMoves? ==> s.em.over
  }

  ghost function PidSet(pids: seq<Pid>): set<Pid> {
    set i | 0 <= i < |pids| :: pids[i]
  }

  lemma {:induction false} PidSetSize(pids: seq<Pid>)
    ensures |PidSet(pids)| <= |pids|
  {
    if pids != [] {
      PidSetSize(pids[1..]);
      assert PidSet(pids) == {pids[0]} + PidSet(pids[1..]) by {
        forall pid | pid in PidSet(pids) ensures pid in {pids[0]} + PidSet(pids[1..]) {
          var i :| 0 <= i < |pids| && pids[i] == pid;
          assert i > 0 ==> pids[1..][i - 1] == pid;
        }
        forall pid | pid in PidSet(pids[1..]) ensures pid in PidSet(pids) {
          var i :| 0 <= i < |pids[1..]| && pids[1..][i] == pid;
          assert pids[i + 1] == pid;
        }
      }
    }
  }

  lemma Subset<T>(a: set<T>, b: set<T>)
    requires a <= b
    ensures |a| <= |b|
  {
    assert b == a + (b - a);
  }

  lemma FewEntries(s: State, pids: seq<Pid>)
    requires Inv(s, pids)
    ensures |s.mon.status.Keys| <= |pids|
  {
    PidSetSize(pids);
    forall pid | pid in s.mon.status.Keys ensures pid in PidSet(pids) {
      assert pids[s.mon.status[pid]] == pid;
    }
    Subset(s.mon.status.Keys, PidSet(pids));
  }

  lemma LeastShrinks(rest: set<Pid>)
    requires rest != {}
    ensures |rest - (set pid | pid in rest && IsLeast(pid, rest))| < |rest|
  {
    var least := LeastExists(rest);
    assert (set pid | pid in rest && IsLeast(pid, rest)) == {least};
  }

  lemma OneChildChanged(children: seq<Child>, i: nat, child: Child)
    requires i < |children|
    ensures Tally(children[i := child], ChildWork)
            == Tally(children, ChildWork) - ChildWork(children[i]) + ChildWork(child)
  {
    TallyUpdate(children, i, child, ChildWork);
  }

  lemma PrepareUsesUpWork(s: State, pids: seq<Pid>)
    requires Inv(s, pids) && s.main.Preparing?
    ensures TotalWork(MainMove(s, pids)) < TotalWork(s)
  {
    var i := s.main.i;
    if i < |pids| {
      assert ChildOk(s.main, |pids|, s.mon, i, s.children[i]);
      OneChildChanged(s.children, i, s.children[i].(life := Alive));
    }
  }

  lemma RegisterUsesUpWork(s: State, pids: seq<Pid>)
    requires Inv(s, pids) && s.main.Registering?
    ensures TotalWork(MainMove(s, pids)) < TotalWork(s)
  {
    var i := s.main.i;
    if i < |pids| {
      RegistrationIsNew(s.mon, pids, i);
      TallyAppend(s.mon.registrations, PM.Registration(pids[i], PM.Waiting), PM.WaiterWork);
    }
  }

  lemma WaitUsesUpWork(s: State, pids: seq<Pid>)
    requires Inv(s, pids) && s.main.Waiting? && MainCanMove(s)
    ensures TotalWork(MainMove(s, pids)) < TotalWork(s)
  {
    PM.LookupCannotFail(s.mon);
    if PM.Enabled(s.mon, PM.Pop) {
      PM.StepsUseUpWork(s.mon, PM.Pop);
    } else {
      PM.StepsUseUpWork(s.mon, PM.Collect);
    }
  }

  lemma KillUsesUpWork(s: State, pids: seq<Pid>)
    requires Inv(s, pids) && s.main.Killing?
    ensures TotalWork(MainMove(s, pids)) < TotalWork(s)
  {
    var i := s.main.i;
    if i < |pids| {
      OneChildChanged(s.children, i, Kill(s.children[i]));
    } else {
      FewEntries(s, pids);
    }
  }

  lemma DestroyUsesUpWork(s: State, pids: seq<Pid>)
    requires Inv(s, pids) && s.main.Destroying? && MainCanMove(s)
    ensures TotalWork(MainMove(s, pids)) < TotalWork(s)
  {
    if s.main.rest != {} {
      LeastShrinks(s.main.rest);
    }
  }

  lemma EndUsesUpWork(s: State, pids: seq<Pid>)
    requires Inv(s, pids) && s.main.Ending?
    ensures TotalWork(MainMove(s, pids)) < TotalWork(s)
  {
    assert |s.em.queue| <= |pids|;
  }

  lemma StartMonitorUsesUpWork(s: State, pids: seq<Pid>)
    requires MonInv(s.main, s.mon, pids) && EmInv(s.main, s.em, pids) && |pids| == |s.children|
    requires s.main.StartingMonitor?
    ensures TotalWork(MainMove(s, pids)) < TotalWork(s)
  {
    var s' := MainMove(s, pids);
    assert s'.children == s.children && !s.em.over && !s'.em.over;
    assert PM.TotalWork(s'.mon) == PM.TotalWork(s.mon) + 2;
  }

  lemma OtherMovesUseUpWork(s: State, pids: seq<Pid>)
    requires Inv(s, pids) && MainCanMove(s)
    requires s.main.PreparingMonitor? || s.main.Starting? || s.main.Joining?
    ensures TotalWork(MainMove(s, pids)) < TotalWork(s)
  {
    var s' := MainMove(s, pids);
    assert s'.children == s.children && s'.mon == s.mon && s'.em == s.em;
    assert MainWork(s'.main, |pids|) < MainWork(s.main, |pids|);
  }

  lemma MainUsesUpWork(s: State, pids: seq<Pid>)
    requires Inv(s, pids) && MainCanMove(s)
    ensures TotalWork(MainMove(s, pids)) < TotalWork(s)
  {
    match s.main
    case Preparing(_) => PrepareUsesUpWork(s, pids);
    case Registering(_) => RegisterUsesUpWork(s, pids);
    case Waiting => WaitUsesUpWork(s, pids);
    case Killing(_) => KillUsesUpWork(s, pids);
    case Destroying(_) => DestroyUsesUpWork(s, pids);
    case StartingMonitor => StartMonitorUsesUpWork(s, pids);
    case Ending => EndUsesUpWork(s, pids);
    case _ => OtherMovesUseUpWork(s, pids);
  }

  lemma WaiterUsesUpWork(s: State, pids: seq<Pid>, step: Step)
    requires Inv(s, pids) && Enabled(s, step) && (step.Reap? || step.Push? || step.Complete?)
    ensures TotalWork(Next(s, step, pids)) < TotalWork(s)
  {
    match step
    case Reap(i) =>
      PM.StepsUseUpWork(s.mon, PM.WaitSucceeds(i, s.children[i].life.status));
      OneChildChanged(s.children, i, Next(s, step, pids).children[i]);
    case Push(i) => PM.StepsUseUpWork(s.mon, PM.Push(i));
    case Complete(i) => PM.StepsUseUpWork(s.mon, PM.Complete(i));
  }

  lemma ExitUsesUpWork(s: State, pids: seq<Pid>, i: nat, status: int)
    requires Enabled(s, ChildExits(i, status)) && |pids| == |s.children|
    ensures TotalWork(Next(s, ChildExits(i, status), pids)) < TotalWork(s)
  {
    OneChildChanged(s.children, i, s.children[i].(life := Zombie(status)));
  }

  lemma MarkUsesUpWork(s: State, pids: seq<Pid>, i: nat)
    requires Inv(s, pids) && Enabled(s, Mark(i))
    ensures TotalWork(Next(s, Mark(i), pids)) < TotalWork(s)
  {
    assert ChildOk(s.main, |pids|, s.mon, i, s.children[i]);
    OneChildChanged(s.children, i, s.children[i].(marked := true));
  }

  lemma ThreadUsesUpWork(s: State, pids: seq<Pid>, step: EM.Step)
    requires Enabled(s, ThreadMoves(step)) && |pids| == |s.children|
    ensures TotalWork(Next(s, ThreadMoves(step), pids)) + (if s.em.over then 1 else 0) <= TotalWork(s)
  {
    if s.em.over {
      EM.WorkAfterEnd(s.em, step);
    }
  }

  /** Every step uses up work, but for the monitor thread's before the end of the execution. */
  lemma StepsUseUpWork(s: State, step: Step, pids: seq<Pid>)
    requires Inv(s, pids) && Enabled(s, step)
    ensures TotalWork(Next(s, step, pids)) + (if Useful(s, step) then 1 else 0) <= TotalWork(s)
  {
    match step
    case MainMoves => MainUsesUpWork(s, pids);
    case ThreadMoves(emStep) => ThreadUsesUpWork(s, pids, emStep);
    case ChildExits(i, status) => ExitUsesUpWork(s, pids, i, status);
    case Mark(i) => MarkUsesUpWork(s, pids, i);
    case _ => WaiterUsesUpWork(s, pids, step);
  }

  lemma WorkIsNotNegative(s: State, pids: seq<Pid>)
    requires Inv(s, pids)
    ensures TotalWork(s) >= 0
  {
  }

  ghost function UsefulSteps(states: seq<State>, steps: seq<Step>, t: nat): nat
    requires t <= |steps| < |states|
  {
    if t == 0 then 0
    else UsefulSteps(states, steps, t - 1) + if Useful(states[t - 1], steps[t - 1]) then 1 else 0
  }

  /** A run takes a bounded number of steps besides those of the monitor thread's loop, so with
      a fair scheduler, and once a benchmark has ended, start_impl returns. */
  lemma {:induction false} UsefulStepsAreBounded(states: seq<State>, steps: seq<Step>, pids: seq<Pid>, t: nat)
    requires Follows(states, steps, pids) && t <= |steps|
    ensures Inv(states[t], pids) && TotalWork(states[t]) >= 0
    ensures UsefulSteps(states, steps, t) + TotalWork(states[t]) <= TotalWork(states[0])
  {
    EveryRunKeepsInv(states, steps, pids, t);
    WorkIsNotNegative(states[t], pids);
    if t > 0 {
      UsefulStepsAreBounded(states, steps, pids, t - 1);
      StepsUseUpWork(states[t - 1], steps[t - 1], pids);
    }
  }

  /** Before the monitor thread starts, every child forked so far is alive. */
  ghost predicate Undisturbed(s: State) {
    && !s.main.Killed?
    && (BeforeThread(s.main) ==>
          forall i | 0 <= i < |s.children| :: s.children[i].life.NotForked? || s.children[i].life.Alive?)
  }

  lemma MainMoveLeavesUndisturbed(s: State, pids: seq<Pid>)
    requires Inv(s, pids) && Undisturbed(s) && BeforeThread(s.main)
    ensures MainCanMove(s) && Undisturbed(MainMove(s, pids))
  {
    assert s.main.Starting? && s.main.i < |pids| ==> ChildOk(s.main, |pids|, s.mon, s.main.i, s.children[s.main.i]);
  }

  /** The step of a run that lets benchmark 0 end first. */
  lemma UndisturbedStep(s: State, pids: seq<Pid>) returns (step: Step)
    requires Inv(s, pids) && Undisturbed(s) && !s.main.Done? && |pids| > 0
    ensures Enabled(s, step) && Useful(s, step) && Undisturbed(Next(s, step, pids))
  {
    if BeforeThread(s.main) {
      MainMoveLeavesUndisturbed(s, pids);
      step := MainMoves;
    } else {
      step := ChildExits(0, 0);
      if !AwaitsFirstExit(s) {
        step := NoDeadlock(s, pids);
      }
      StepKeepsInv(s, step, pids);
      NotKilledAfterStart(s, step, pids);
    }
  }

  lemma NotKilledAfterStart(s: State, step: Step, pids: seq<Pid>)
    requires Inv(s, pids) && Enabled(s, step) && !BeforeThread(s.main)
    ensures !BeforeThread(Next(s, step, pids).main)
  {
    PM.LookupCannotFail(s.mon);
  }

  lemma ExtendRun(states: seq<State>, steps: seq<Step>, pids: seq<Pid>, step: Step)
    requires Follows(states, steps, pids) && Enabled(states[|steps|], step)
    ensures Follows(states + [Next(states[|steps|], step, pids)], steps + [step], pids)
  {
  }

  /** start_impl does return: with a benchmark there is a run that ends in its return. */
  lemma {:induction false} SomeRunReturns(states: seq<State>, steps: seq<Step>, pids: seq<Pid>)
    returns (states': seq<State>, steps': seq<Step>)
    requires Follows(states, steps, pids) && |pids| > 0 && Undisturbed(states[|steps|])
    ensures Follows(states', steps', pids) && states <= states' && states'[|steps'|].main.Done?
    decreases TotalWork(states[|steps|])
  {
    var s := states[|steps|];
    if s.main.Done? {
      return states, steps;
    }
    UsefulStepsAreBounded(states, steps, pids, |steps|);
    var step := UndisturbedStep(s, pids);
    StepsUseUpWork(s, step, pids);
    ExtendRun(states, steps, pids, step);
    var next := Next(s, step, pids);
    states', steps' := SomeRunReturns(states + [next], steps + [step], pids);
  }
}
