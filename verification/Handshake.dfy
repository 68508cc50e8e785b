/** Forking the benchmarks, holding them before exec, and letting them go: the manager as the
    parent of n children, with two pipes per child.

    The kernel's side follows POSIX: a fork copies the parent's open ends, an exec drops the
    close-on-exec ones, a read takes a byte or, when no write end of the pipe is open anywhere,
    reports end of file, and a write to a pipe without readers kills the writer. */
module Handshake {
  import opened Tallies

  /** An end of the go pipe or of the ready pipe of a child. */
  datatype End = GoRead(child: nat) | GoWrite(child: nat) | ReadyRead(child: nat) | ReadyWrite(child: nat)

  /** The go pipe is created with O_CLOEXEC, the ready pipe is not. */
  predicate CloseOnExec(end: End) { end.GoRead? || end.GoWrite? }

  // ----- Programs -----

  /** Preparing one benchmark: sync_process's constructor, process::start, wait_for_child and
      the creation event. */
  datatype Stage =
    | Construct
    | Fork
    | DropReadyWrite
    | DropGoRead
    | AwaitReady
    | DropReadyRead
    | Enqueue

  /** The manager's thread in start_impl; index n of a loop is its exit. */
  datatype Parent =
    | Preparing(child: nat, stage: Stage)
    | Registering(child: nat)
    | PreparingMonitor
    | Going(child: nat)                     // about to write the go byte
    | Closing(child: nat)                   // wrote it, about to close its end
    | AllStarted
    | Killed(child: nat)                    // by SIGPIPE, writing the go byte

  /** wait_for_parent and the exec, in the child. */
  datatype KidPc =
    | NotForked
    | JoinGroup
    | DropsReadyRead
    | DropsGoWrite
    | Signal
    | DropsReadyWrite
    | Hold
    | Exec
    | Runs
    | Dead

  datatype Kid = Kid(
    pc: KidPc,
    ends: set<End>,                         // open in this child
    readyBytes: nat,                        // in its two pipes
    goBytes: nat,
    ownGroup: bool,
    signalled: bool,                        // history: it wrote the ready byte,
    released: bool,                         // took the go byte,
    execed: bool                            // and went through exec
  )

  datatype State = State(
    parent: Parent,
    parentEnds: set<End>,
    kids: seq<Kid>,
    events: seq<nat>,                       // creation events enqueued, in order
    registered: seq<nat>,                   // waiters started, in order
    monitorPrepared: bool
  )

  const UNBORN := Kid(NotForked, {}, 0, 0, false, false, false, false)

  function Init(n: nat): State {
    State(Preparing(0, Construct), {}, seq(n, _ => UNBORN), [], [], false)
  }

  // ----- The kernel -----

  ghost predicate OpenNowhere(s: State, end: End) {
    end !in s.parentEnds && forall k | 0 <= k < |s.kids| :: end !in s.kids[k].ends
  }

  // ----- Steps -----

  datatype Step = ParentMoves | KidMoves(child: nat) | KidDies(child: nat)

  ghost predicate ParentCanMove(s: State) {
    match s.parent
    case Preparing(i, AwaitReady) =>
      i < |s.kids| && (s.kids[i].readyBytes > 0 || OpenNowhere(s, ReadyWrite(i)))
    case Preparing(i, Construct) => true
    case Preparing(i, _) => i < |s.kids|
    case Closing(i) => i < |s.kids|
    case AllStarted => false
    case Killed(_) => false
    case _ => true
  }

  ghost predicate KidCanMove(s: State, i: nat) {
    && i < |s.kids|
    && !s.kids[i].pc.NotForked? && !s.kids[i].pc.Runs? && !s.kids[i].pc.Dead?
    && (s.kids[i].pc.Hold? ==> s.kids[i].goBytes > 0 || OpenNowhere(s, GoWrite(i)))
  }

  ghost predicate Enabled(s: State, step: Step) {
    match step
    case ParentMoves => ParentCanMove(s)
    case KidMoves(i) => KidCanMove(s, i)
    case KidDies(i) => i < |s.kids| && !s.kids[i].pc.NotForked? && !s.kids[i].pc.Dead?
  }

  function NextStage(i: nat, stage: Stage): Parent {
    match stage
    case Construct => Preparing(i, Fork)
    case Fork => Preparing(i, DropReadyWrite)
    case DropReadyWrite => Preparing(i, DropGoRead)
    case DropGoRead => Preparing(i, AwaitReady)
    case AwaitReady => Preparing(i, DropReadyRead)
    case DropReadyRead => Preparing(i, Enqueue)
    case Enqueue => Preparing(i + 1, Construct)
  }

  ghost function PrepareMove(s: State, i: nat, stage: Stage): State
    requires s.parent == Preparing(i, stage) && i < |s.kids| && ParentCanMove(s)
  {
    var s' := s.(parent := NextStage(i, stage));
    match stage
    case Construct => s'.(parentEnds := s.parentEnds + {GoRead(i), GoWrite(i), ReadyRead(i), ReadyWrite(i)})
    case Fork => s'.(kids := s.kids[i := s.kids[i].(pc := JoinGroup, ends := s.parentEnds)])
    case DropReadyWrite => s'.(parentEnds := s.parentEnds - {ReadyWrite(i)})
    case DropGoRead => s'.(parentEnds := s.parentEnds - {GoRead(i)})
    case AwaitReady =>
      if s.kids[i].readyBytes > 0 then
        s'.(kids := s.kids[i := s.kids[i].(readyBytes := s.kids[i].readyBytes - 1)])
      else s'
    case DropReadyRead => s'.(parentEnds := s.parentEnds - {ReadyRead(i)})
    case Enqueue => s'.(events := s.events + [i])
  }

  ghost function ParentMove(s: State): State
    requires ParentCanMove(s)
  {
    match s.parent
    case Preparing(i, stage) =>
      if i < |s.kids| then PrepareMove(s, i, stage) else s.(parent := Registering(0))
    case Registering(i) =>
      if i < |s.kids| then s.(parent := Registering(i + 1), registered := s.registered + [i])
      else s.(parent := PreparingMonitor)
    case PreparingMonitor => s.(parent := Going(0), monitorPrepared := true)
    case Going(i) =>
      if i >= |s.kids| then s.(parent := AllStarted)
      else if OpenNowhere(s, GoRead(i)) then s.(parent := Killed(i), parentEnds := {})
      else s.(parent := Closing(i), kids := s.kids[i := s.kids[i].(goBytes := s.kids[i].goBytes + 1)])
    case Closing(i) => s.(parent := Going(i + 1), parentEnds := s.parentEnds - {GoWrite(i)})
    case AllStarted => s
    case Killed(_) => s
  }

  function Buried(kid: Kid): Kid {
    kid.(pc := Dead, ends := {})
  }

  ghost function KidMove(s: State, i: nat): Kid
    requires KidCanMove(s, i)
  {
    var kid := s.kids[i];
    match kid.pc
    case JoinGroup => kid.(pc := DropsReadyRead, ownGroup := true)
    case DropsReadyRead => kid.(pc := DropsGoWrite, ends := kid.ends - {ReadyRead(i)})
    case DropsGoWrite => kid.(pc := Signal, ends := kid.ends - {GoWrite(i)})
    case Signal =>
      if OpenNowhere(s, ReadyRead(i)) then Buried(kid)
      else kid.(pc := DropsReadyWrite, readyBytes := kid.readyBytes + 1, signalled := true)
    case DropsReadyWrite => kid.(pc := Hold, ends := kid.ends - {ReadyWrite(i)})
    case Hold =>
      if kid.goBytes > 0 then kid.(pc := Exec, goBytes := kid.goBytes - 1, released := true)
      else kid.(pc := Exec)
    case Exec => kid.(pc := Runs, ends := (set end | end in kid.ends && !CloseOnExec(end)), execed := true)
    case _ => kid
  }

  ghost function Next(s: State, step: Step): State
    requires Enabled(s, step)
  {
    match step
    case ParentMoves => ParentMove(s)
    case KidMoves(i) => s.(kids := s.kids[i := KidMove(s, i)])
    case KidDies(i) => s.(kids := s.kids[i := Buried(s.kids[i])])
  }

  // ----- What the program points say -----

  /** Child i has been forked. */
  predicate Forked(parent: Parent, i: nat) {
    parent.Preparing? ==> i < parent.child || (i == parent.child && !parent.stage.Construct? && !parent.stage.Fork?)
  }

  /** The call of prepare for child i has read the ready pipe. */
  predicate Answered(parent: Parent, i: nat) {
    parent.Preparing? ==>
      i < parent.child || (i == parent.child && (parent.stage.DropReadyRead? || parent.stage.Enqueue?))
  }

  /** The go byte for child i has been written by its own start. */
  predicate Started(parent: Parent, i: nat) {
    match parent
    case Going(k) => i < k
    case Closing(k) => i <= k
    case AllStarted => true
    case Killed(k) => i < k
    case _ => false
  }

  /** The ends of the child being prepared that the parent has open. */
  predicate HasWhilePreparing(stage: Stage, end: End) {
    match stage
    case Construct => false
    case Fork => true
    case DropReadyWrite => true
    case DropGoRead => !end.ReadyWrite?
    case AwaitReady => end.GoWrite? || end.ReadyRead?
    case DropReadyRead => end.GoWrite? || end.ReadyRead?
    case Enqueue => end.GoWrite?
  }

  /** The ends that the parent has open. */
  predicate ParentHas(parent: Parent, n: nat, end: End) {
    end.child < n &&
    match parent
    case Preparing(i, stage) =>
      (end.child < i && end.GoWrite?) || (end.child == i && HasWhilePreparing(stage, end))
    case Registering(_) => end.GoWrite?
    case PreparingMonitor => end.GoWrite?
    case Going(i) => end.GoWrite? && end.child >= i
    case Closing(i) => end.GoWrite? && end.child >= i
    case AllStarted => false
    case Killed(_) => false
  }

  /** The ends that child i has open: its own, as far as it has not dropped them, and the go
      write ends of the children forked before it. */
  predicate KidHas(pc: KidPc, i: nat, end: End) {
    match pc
    case NotForked => false
    case JoinGroup => end.child == i || (end.GoWrite? && end.child < i)
    case DropsReadyRead => end.child == i || (end.GoWrite? && end.child < i)
    case DropsGoWrite => (end.child == i && !end.ReadyRead?) || (end.GoWrite? && end.child < i)
    case Signal => (end.child == i && (end.GoRead? || end.ReadyWrite?)) || (end.GoWrite? && end.child < i)
    case DropsReadyWrite => (end.child == i && (end.GoRead? || end.ReadyWrite?)) || (end.GoWrite? && end.child < i)
    case Hold => (end.child == i && end.GoRead?) || (end.GoWrite? && end.child < i)
    case Exec => (end.child == i && end.GoRead?) || (end.GoWrite? && end.child < i)
    case Runs => false
    case Dead => false
  }

  /** The child is at or past the point where it signals that it is ready. */
  predicate PastSignal(pc: KidPc) { pc.DropsReadyWrite? || pc.Hold? || pc.Exec? || pc.Runs? }

  // ----- The invariant -----

  ghost predicate ParentInv(s: State) {
    && (forall end :: end in s.parentEnds <==> ParentHas(s.parent, |s.kids|, end))
    && (match s.parent
        case Preparing(i, stage) => i < |s.kids| || (i == |s.kids| && stage.Construct?)
        case Registering(i) => i <= |s.kids|
        case Going(i) => i <= |s.kids|
        case Closing(i) => i < |s.kids|
        case Killed(i) => i < |s.kids| && s.kids[i].pc.Dead?
        case _ => true)
    && s.events == seq(if s.parent.Preparing? then s.parent.child else |s.kids|, i => i)
    && s.registered == seq(if s.parent.Preparing? then 0
                           else if s.parent.Registering? then s.parent.child else |s.kids|, i => i)
    && (s.monitorPrepared <==> !s.parent.Preparing? && !s.parent.Registering? && !s.parent.PreparingMonitor?)
  }

  ghost predicate KidInv(parent: Parent, i: nat, kid: Kid) {
    && (kid.pc.NotForked? <==> !Forked(parent, i))
    && (forall end :: end in kid.ends <==> KidHas(kid.pc, i, end))
    && (kid.pc.NotForked? || kid.pc.JoinGroup? ==> !kid.ownGroup)
    && (kid.ownGroup || kid.pc.NotForked? || kid.pc.JoinGroup? || kid.pc.Dead?)
    && (kid.signalled ==> kid.ownGroup)
    && (PastSignal(kid.pc) ==> kid.signalled)
    && (kid.signalled ==> PastSignal(kid.pc) || kid.pc.Dead?)
    && kid.readyBytes == (if kid.signalled && !Answered(parent, i) then 1 else 0)
    && (Answered(parent, i) ==> kid.signalled || kid.pc.Dead?)
    && kid.goBytes == (if Started(parent, i) && !kid.released then 1 else 0)
    && (kid.released ==> Started(parent, i))
    && (kid.pc.Runs? ==> kid.execed) && (kid.execed ==> kid.pc.Runs? || kid.pc.Dead?)
    && (kid.released ==> kid.pc.Exec? || kid.pc.Runs? || kid.pc.Dead?)
    && (kid.pc.Exec? || kid.pc.Runs? || kid.execed ==> kid.released || parent.Killed?)
  }

  ghost predicate Inv(s: State) {
    && ParentInv(s)
    && (forall i | 0 <= i < |s.kids| :: KidInv(s.parent, i, s.kids[i]))
  }

  lemma InitHasInv(n: nat)
    ensures Inv(Init(n))
  {
  }

  /** While the parent reads the ready pipe, only its child can hold the write end. */
  lemma ReadyWriteOnlyInChild(s: State, i: nat)
    requires Inv(s) && s.parent == Preparing(i, AwaitReady)
    ensures OpenNowhere(s, ReadyWrite(i)) <==> ReadyWrite(i) !in s.kids[i].ends
  {
    assert ReadyWrite(i) !in s.parentEnds;
    forall k | 0 <= k < |s.kids| && k != i ensures ReadyWrite(i) !in s.kids[k].ends {
    }
  }

  /** A held child sees end of file only when its parent is gone. */
  lemma GoWriteHeldByParent(s: State, i: nat)
    requires Inv(s) && i < |s.kids| && s.kids[i].pc.Hold? && OpenNowhere(s, GoWrite(i)) && s.kids[i].goBytes == 0
    ensures s.parent.Killed?
  {
    assert GoWrite(i) !in s.parentEnds;
  }

  /** A go pipe loses its last reader when its child dies. */
  lemma NoReaderIffDead(s: State, i: nat)
    requires Inv(s) && s.parent == Going(i) && i < |s.kids|
    ensures OpenNowhere(s, GoRead(i)) <==> s.kids[i].pc.Dead?
  {
    assert KidInv(s.parent, i, s.kids[i]);
    assert GoRead(i) in s.kids[i].ends <==> KidHas(s.kids[i].pc, i, GoRead(i));
    if s.kids[i].pc.Dead? {
      forall k | 0 <= k < |s.kids| ensures GoRead(i) !in s.kids[k].ends {
        assert KidInv(s.parent, k, s.kids[k]);
      }
    }
  }

  lemma PrepareMoveKeepsParentInv(s: State, i: nat, stage: Stage)
    requires Inv(s) && s.parent == Preparing(i, stage) && i < |s.kids| && ParentCanMove(s)
    ensures ParentInv(PrepareMove(s, i, stage))
  {
  }

  lemma PrepareMoveKeepsInv(s: State, i: nat, stage: Stage)
    requires Inv(s) && s.parent == Preparing(i, stage) && i < |s.kids| && ParentCanMove(s)
    ensures Inv(PrepareMove(s, i, stage))
  {
    var s' := PrepareMove(s, i, stage);
    PrepareMoveKeepsParentInv(s, i, stage);
    if stage.AwaitReady? {
      ReadyWriteOnlyInChild(s, i);
    }
    forall k | 0 <= k < |s.kids| ensures KidInv(s'.parent, k, s'.kids[k]) {
      assert KidInv(s.parent, k, s.kids[k]);
    }
  }

  lemma ParentMoveKeepsInv(s: State)
    requires Inv(s) && ParentCanMove(s)
    ensures Inv(ParentMove(s))
  {
    if s.parent.Preparing? && s.parent.child < |s.kids| {
      PrepareMoveKeepsInv(s, s.parent.child, s.parent.stage);
    } else {
      if s.parent.Going? && s.parent.child < |s.kids| {
        NoReaderIffDead(s, s.parent.child);
      }
      var s' := ParentMove(s);
      forall k | 0 <= k < |s.kids| ensures KidInv(s'.parent, k, s'.kids[k]) {
        assert KidInv(s.parent, k, s.kids[k]);
      }
    }
  }

  lemma KidMoveKeepsInv(s: State, i: nat)
    requires Inv(s) && KidCanMove(s, i)
    ensures KidInv(s.parent, i, KidMove(s, i))
  {
    if s.kids[i].pc.Hold? && s.kids[i].goBytes == 0 {
      GoWriteHeldByParent(s, i);
    }
  }

  lemma StepKeepsInv(s: State, step: Step)
    requires Inv(s) && Enabled(s, step)
    ensures Inv(Next(s, step))
  {
    match step
    case ParentMoves => ParentMoveKeepsInv(s);
    case KidMoves(i) => KidMoveKeepsInv(s, i);
    case KidDies(i) =>
  }

  // ----- Whole runs -----

  ghost predicate Follows(states: seq<State>, steps: seq<Step>) {
    && |states| == |steps| + 1
    && (forall i | 0 <= i < |steps| :: Enabled(states[i], steps[i]) && states[i + 1] == Next(states[i], steps[i]))
  }

  lemma {:induction false} EveryRunKeepsInv(n: nat, states: seq<State>, steps: seq<Step>, t: nat)
    requires Follows(states, steps) && states[0] == Init(n) && t < |states|
    ensures Inv(states[t]) && |states[t].kids| == n
  {
    if t == 0 {
      InitHasInv(n);
    } else {
      EveryRunKeepsInv(n, states, steps, t - 1);
      StepKeepsInv(states[t - 1], steps[t - 1]);
    }
  }

  predicate Alive(kid: Kid) { !kid.pc.NotForked? && !kid.pc.Dead? }

  /** A child is held from its fork to its own start: it is past its hold only when the parent
      has written its go byte, or has been killed.  When prepare returns for a living child,
      the child leads its own process group. */
  lemma HeldUntilOwnStart(n: nat, states: seq<State>, steps: seq<Step>, t: nat, i: nat)
    requires Follows(states, steps) && states[0] == Init(n) && t < |states| && i < n
    ensures |states[t].kids| == n
    ensures states[t].kids[i].execed || states[t].kids[i].pc.Exec? || states[t].kids[i].pc.Runs? ==>
              Started(states[t].parent, i) || states[t].parent.Killed?
    ensures Answered(states[t].parent, i) && Alive(states[t].kids[i]) ==> states[t].kids[i].ownGroup
  {
    EveryRunKeepsInv(n, states, steps, t);
    assert KidInv(states[t].parent, i, states[t].kids[i]);
  }

  /** The barrier: once any benchmark has gone through exec, all have been forked, all creation
      events are enqueued and all waiters registered, in order, and the monitor is prepared. */
  lemma NoExecBeforeAllPrepared(n: nat, states: seq<State>, steps: seq<Step>, t: nat, i: nat)
    requires Follows(states, steps) && states[0] == Init(n) && t < |states| && i < n
    ensures |states[t].kids| == n
    ensures states[t].kids[i].execed ==>
              var s := states[t];
              && (forall k | 0 <= k < n :: !s.kids[k].pc.NotForked?)
              && s.events == seq(n, k => k) && s.registered == seq(n, k => k)
              && s.monitorPrepared
  {
    var s := states[t];
    EveryRunKeepsInv(n, states, steps, t);
    assert KidInv(s.parent, i, s.kids[i]);
    assert forall k | 0 <= k < n :: KidInv(s.parent, k, s.kids[k]);
  }

  /** A running benchmark has none of the pipe ends open, neither its own nor a sibling's. */
  lemma NoDescriptorSurvivesExec(n: nat, states: seq<State>, steps: seq<Step>, t: nat, i: nat)
    requires Follows(states, steps) && states[0] == Init(n) && t < |states| && i < n
    ensures |states[t].kids| == n
    ensures states[t].kids[i].pc.Runs? ==> states[t].kids[i].ends == {}
  {
    EveryRunKeepsInv(n, states, steps, t);
    assert KidInv(states[t].parent, i, states[t].kids[i]);
    assert states[t].kids[i].pc.Runs? ==> forall end :: end !in states[t].kids[i].ends;
  }

  /** An exec would not close the ends of ready pipes: none is open by then because the child has
      dropped those of its own, and no sibling's existed at its fork. */
  lemma ExecKeepsReadyEnds(s: State, i: nat)
    requires KidCanMove(s, i) && s.kids[i].pc.Exec?
    ensures forall end :: end in KidMove(s, i).ends <==> end in s.kids[i].ends && (end.ReadyRead? || end.ReadyWrite?)
    ensures Inv(s) ==> forall end | end in s.kids[i].ends :: !end.ReadyRead? && !end.ReadyWrite?
  {
    if Inv(s) {
      assert KidInv(s.parent, i, s.kids[i]);
    }
  }

  /** Starting a child kills the manager exactly when that child is dead by then. */
  lemma StartFailsIffChildDead(n: nat, states: seq<State>, steps: seq<Step>, t: nat, i: nat)
    requires Follows(states, steps) && states[0] == Init(n) && t < |states|
    requires states[t].parent == Going(i) && i < n
    ensures ParentCanMove(states[t]) && |states[t].kids| == n
    ensures ParentMove(states[t]).parent == if states[t].kids[i].pc.Dead? then Killed(i) else Closing(i)
  {
    EveryRunKeepsInv(n, states, steps, t);
    NoReaderIffDead(states[t], i);
  }

  // ----- Progress -----

  /** The parent is through, and every child runs its benchmark or is dead. */
  predicate Settled(kid: Kid) { kid.pc.Runs? || kid.pc.Dead? }

  ghost predicate Final(s: State) {
    && (s.parent.AllStarted? || s.parent.Killed?)
    && (forall i | 0 <= i < |s.kids| :: Settled(s.kids[i]))
  }

  /** A parent waiting for a child's signal gets it, or end of file, or the child can move. */
  lemma PrepareIsNotStuck(s: State, i: nat)
    requires Inv(s) && s.parent == Preparing(i, AwaitReady)
    ensures ParentCanMove(s) || KidCanMove(s, i)
    ensures s.kids[i].pc.Dead? ==> ParentCanMove(s)
  {
    assert KidInv(s.parent, i, s.kids[i]);
    ReadyWriteOnlyInChild(s, i);
    assert ReadyWrite(i) in s.kids[i].ends <==> KidHas(s.kids[i].pc, i, ReadyWrite(i));
  }

  lemma {:induction false} LastUnsettled(kids: seq<Kid>, bound: nat) returns (last: nat)
    requires bound <= |kids| && exists i :: 0 <= i < bound && !Settled(kids[i])
    requires forall k | bound <= k < |kids| :: Settled(kids[k])
    ensures last < |kids| && !Settled(kids[last])
    ensures forall k | last < k < |kids| :: Settled(kids[k])
  {
    if Settled(kids[bound - 1]) {
      last := LastUnsettled(kids, bound - 1);
    } else {
      last := bound - 1;
    }
  }

  /** With the parent through or gone, the last child not yet settled can always move. */
  lemma LastChildCanMove(s: State, last: nat)
    requires Inv(s) && (s.parent.AllStarted? || s.parent.Killed?)
    requires last < |s.kids| && !Settled(s.kids[last])
    requires forall k | last < k < |s.kids| :: Settled(s.kids[k])
    ensures KidCanMove(s, last)
  {
    assert KidInv(s.parent, last, s.kids[last]);
    if s.kids[last].pc.Hold? && s.kids[last].goBytes == 0 {
      forall k | 0 <= k < |s.kids| ensures GoWrite(last) !in s.kids[k].ends {
        assert KidInv(s.parent, k, s.kids[k]);
      }
    }
  }

  /** No interleaving deadlocks: until everything is settled the parent or a child can move. */
  lemma NoDeadlock(s: State) returns (step: Step)
    requires Inv(s) && !Final(s)
    ensures !step.KidDies? && Enabled(s, step)
  {
    if s.parent.AllStarted? || s.parent.Killed? {
      var last := LastUnsettled(s.kids, |s.kids|);
      LastChildCanMove(s, last);
      step := KidMoves(last);
    } else if s.parent.Preparing? && s.parent.stage.AwaitReady? {
      PrepareIsNotStuck(s, s.parent.child);
      step := if ParentCanMove(s) then ParentMoves else KidMoves(s.parent.child);
    } else {
      step := ParentMoves;
    }
  }

  function KidWork(kid: Kid): nat {
    match kid.pc
    case NotForked => 8
    case JoinGroup => 8
    case DropsReadyRead => 7
    case DropsGoWrite => 6
    case Signal => 5
    case DropsReadyWrite => 4
    case Hold => 3
    case Exec => 2
    case Runs => 1
    case Dead => 0
  }

  function StageWork(stage: Stage): nat {
    match stage
    case Construct => 7
    case Fork => 6
    case DropReadyWrite => 5
    case DropGoRead => 4
    case AwaitReady => 3
    case DropReadyRead => 2
    case Enqueue => 1
  }

  function ParentWork(parent: Parent, n: nat): int {
    match parent
    case Preparing(i, stage) => 10 * (n - i) + StageWork(stage) + 4 + 3 * n
    case Registering(i) => (n - i) + 3 + 2 * n
    case PreparingMonitor => 2 * n + 2
    case Going(i) => 2 * (n - i) + 1
    case Closing(i) => 2 * (n - i)
    case AllStarted => 0
    case Killed(_) => 0
  }

  ghost function TotalWork(s: State): int {
    ParentWork(s.parent, |s.kids|) + Tally(s.kids, KidWork)
  }

  lemma OneKidChanged(kids: seq<Kid>, i: nat, kid: Kid)
    requires i < |kids|
    ensures Tally(kids[i := kid], KidWork) == Tally(kids, KidWork) - KidWork(kids[i]) + KidWork(kid)
  {
    TallyUpdate(kids, i, kid, KidWork);
  }

  lemma PrepareUsesUpWork(s: State, i: nat, stage: Stage)
    requires Inv(s) && s.parent == Preparing(i, stage) && i < |s.kids| && ParentCanMove(s)
    ensures TotalWork(PrepareMove(s, i, stage)) < TotalWork(s)
  {
    var s' := PrepareMove(s, i, stage);
    OneKidChanged(s.kids, i, s'.kids[i]);
    assert s'.kids == s.kids[i := s'.kids[i]];
    assert KidInv(s.parent, i, s.kids[i]);
  }

  lemma GoUsesUpWork(s: State, i: nat)
    requires s.parent == Going(i) && i <= |s.kids|
    ensures TotalWork(ParentMove(s)) < TotalWork(s)
  {
    if i < |s.kids| {
      var s' := ParentMove(s);
      OneKidChanged(s.kids, i, s'.kids[i]);
      assert s'.kids == s.kids[i := s'.kids[i]];
    }
  }

  /** The moves that touch no child. */
  lemma LoneMoveUsesUpWork(s: State)
    requires ParentInv(s) && ParentCanMove(s) && !s.parent.Going?
    requires s.parent.Preparing? ==> s.parent.child >= |s.kids|
    ensures TotalWork(ParentMove(s)) < TotalWork(s)
  {
    assert ParentMove(s).kids == s.kids;
  }

  lemma ParentUsesUpWork(s: State)
    requires Inv(s) && ParentCanMove(s)
    ensures TotalWork(ParentMove(s)) < TotalWork(s)
  {
    if s.parent.Preparing? && s.parent.child < |s.kids| {
      PrepareUsesUpWork(s, s.parent.child, s.parent.stage);
    } else if s.parent.Going? {
      GoUsesUpWork(s, s.parent.child);
    } else {
      LoneMoveUsesUpWork(s);
    }
  }

  lemma WorkIsNotNegative(s: State)
    requires ParentInv(s)
    ensures TotalWork(s) >= 0
  {
  }

  lemma KidUsesUpWork(s: State, i: nat)
    requires Inv(s) && KidCanMove(s, i)
    ensures KidWork(KidMove(s, i)) < KidWork(s.kids[i])
  {
    assert KidInv(s.parent, i, s.kids[i]);
  }

  lemma StepLowersWork(s: State, step: Step)
    requires Inv(s) && Enabled(s, step)
    ensures TotalWork(Next(s, step)) < TotalWork(s)
  {
    if step.ParentMoves? {
      ParentUsesUpWork(s);
    } else {
      var i := step.child;
      if step.KidMoves? {
        KidUsesUpWork(s, i);
      }
      OneKidChanged(s.kids, i, Next(s, step).kids[i]);
    }
  }

  /** Every step, a death included, uses up work. */
  lemma StepsUseUpWork(s: State, step: Step)
    requires Inv(s) && Enabled(s, step)
    ensures 0 <= TotalWork(Next(s, step)) < TotalWork(s)
  {
    StepLowersWork(s, step);
    StepKeepsInv(s, step);
    WorkIsNotNegative(Next(s, step));
  }

  /** So every run is finite, and one that cannot go on has everything settled; if no child has
      died, the manager has started them all. */
  lemma {:induction false} RunsEndSettled(n: nat, states: seq<State>, steps: seq<Step>, t: nat)
    requires Follows(states, steps) && states[0] == Init(n) && t < |states|
    ensures Inv(states[t]) && t + TotalWork(states[t]) <= TotalWork(Init(n))
    ensures (forall step: Step | !step.KidDies? :: !Enabled(states[t], step)) ==> Final(states[t])
    ensures Final(states[t]) && (forall i | 0 <= i < |states[t].kids| :: !states[t].kids[i].pc.Dead?) ==>
              states[t].parent.AllStarted?
  {
    EveryRunKeepsInv(n, states, steps, t);
    if t > 0 {
      RunsEndSettled(n, states, steps, t - 1);
      StepsUseUpWork(states[t - 1], steps[t - 1]);
    }
    if !Final(states[t]) {
      var step := NoDeadlock(states[t]);
    }
  }

  /** A child dies only by its own death: not by a signal into a closed pipe, nor by the end of
      file that it reads when the manager is gone. */
  lemma {:induction false} DeadOnlyByDying(n: nat, states: seq<State>, steps: seq<Step>, t: nat, i: nat)
    returns (k: nat)
    requires Follows(states, steps) && states[0] == Init(n) && t < |states| && i < |states[t].kids|
    requires states[t].kids[i].pc.Dead?
    ensures k < t && steps[k] == KidDies(i)
  {
    if t > 0 {
      EveryRunKeepsInv(n, states, steps, t - 1);
      EveryRunKeepsInv(n, states, steps, t);
      if states[t - 1].kids[i].pc.Dead? {
        k := DeadOnlyByDying(n, states, steps, t - 1, i);
      } else {
        k := t - 1;
        DiesByDying(states[t - 1], steps[t - 1], i);
      }
    }
  }

  lemma DiesByDying(s: State, step: Step, i: nat)
    requires Inv(s) && Enabled(s, step) && i < |s.kids| == |Next(s, step).kids|
    requires !s.kids[i].pc.Dead? && Next(s, step).kids[i].pc.Dead?
    ensures step == KidDies(i)
  {
    if step == KidMoves(i) {
      SignalIsRead(s, i);
    }
  }

  /** So where a run stops, everyone who was not killed runs its benchmark, also when the manager
      was killed. */
  lemma SurvivorsRun(n: nat, states: seq<State>, steps: seq<Step>, t: nat, i: nat)
    requires Follows(states, steps) && states[0] == Init(n) && t < |states| && i < n
    requires forall step: Step | !step.KidDies? :: !Enabled(states[t], step)
    requires forall k | 0 <= k < t :: steps[k] != KidDies(i)
    ensures |states[t].kids| == n && states[t].kids[i].pc.Runs? && states[t].kids[i].execed
  {
    RunsEndSettled(n, states, steps, t);
    EveryRunKeepsInv(n, states, steps, t);
    if states[t].kids[i].pc.Dead? {
      var k := DeadOnlyByDying(n, states, steps, t, i);
    }
    assert KidInv(states[t].parent, i, states[t].kids[i]);
    assert Settled(states[t].kids[i]);
  }

  // ----- A child that dies while it is held -----

  ghost predicate NobodyDead(s: State) {
    forall i | 0 <= i < |s.kids| :: !s.kids[i].pc.Dead?
  }

  /** The parent has not yet written the go byte of child i. */
  predicate Approaching(parent: Parent, i: nat) {
    match parent
    case Going(k) => k <= i
    case Closing(k) => k < i
    case AllStarted => false
    case Killed(_) => false
    case _ => true
  }

  /** A child never signals into a pipe that its parent has closed already. */
  lemma SignalIsRead(s: State, i: nat)
    requires Inv(s) && KidCanMove(s, i)
    ensures !KidMove(s, i).pc.Dead?
  {
    assert KidInv(s.parent, i, s.kids[i]);
    if s.kids[i].pc.Signal? {
      assert !s.parent.Killed?;
      assert ParentHas(s.parent, |s.kids|, ReadyRead(i));
    }
  }

  lemma ParentApproaches(s: State, i: nat)
    requires Inv(s) && NobodyDead(s) && i < |s.kids| && ParentCanMove(s)
    requires Approaching(s.parent, i) && s.parent != Going(i)
    ensures Approaching(ParentMove(s).parent, i) && NobodyDead(ParentMove(s))
  {
    if s.parent.Going? {
      NoReaderIffDead(s, s.parent.child);
    }
  }

  lemma ApproachingStep(s: State, i: nat) returns (step: Step)
    requires Inv(s) && NobodyDead(s) && i < |s.kids|
    requires Approaching(s.parent, i) && s.parent != Going(i)
    ensures Enabled(s, step) && !step.KidDies?
    ensures Approaching(Next(s, step).parent, i) && NobodyDead(Next(s, step))
  {
    step := NoDeadlock(s);
    match step
    case ParentMoves => ParentApproaches(s, i);
    case KidMoves(k) => SignalIsRead(s, k);
  }

  lemma ExtendRun(states: seq<State>, steps: seq<Step>, step: Step)
    requires Follows(states, steps) && Enabled(states[|steps|], step)
    ensures Follows(states + [Next(states[|steps|], step)], steps + [step])
  {
  }

  /** A run without deaths that has not started child i can be continued, without deaths, to
      the point where it is about to. */
  lemma {:induction false} ReachStart(n: nat, i: nat, states: seq<State>, steps: seq<Step>)
    returns (states': seq<State>, steps': seq<Step>)
    requires Follows(states, steps) && states[0] == Init(n) && i < n == |states[|steps|].kids|
    requires NobodyDead(states[|steps|]) && Approaching(states[|steps|].parent, i)
    requires forall k | 0 <= k < |steps| :: !steps[k].KidDies?
    ensures Follows(states', steps') && states <= states'
    ensures NobodyDead(states'[|steps'|]) && states'[|steps'|].parent == Going(i)
    ensures forall k | 0 <= k < |steps'| :: !steps'[k].KidDies?
    decreases TotalWork(states[|steps|])
  {
    var s := states[|steps|];
    if s.parent == Going(i) {
      return states, steps;
    }
    EveryRunKeepsInv(n, states, steps, |steps|);
    var step := ApproachingStep(s, i);
    StepsUseUpWork(s, step);
    ExtendRun(states, steps, step);
    states', steps' := ReachStart(n, i, states + [Next(s, step)], steps + [step]);
  }

  lemma HeldWhenAboutToStart(s: State, i: nat)
    requires Inv(s) && s.parent == Going(i) && i < |s.kids| && !s.kids[i].pc.Dead?
    ensures (s.kids[i].pc.DropsReadyWrite? || s.kids[i].pc.Hold?) && !s.kids[i].released
  {
    assert KidInv(s.parent, i, s.kids[i]);
  }

  /** It does happen, for any number of children and any one of them: in this run nobody dies
      but child i, which had signalled and was held, and the manager is killed starting it. */
  lemma DyingChildKillsManager(n: nat, i: nat) returns (states: seq<State>, steps: seq<Step>, t: nat)
    requires i < n
    ensures Follows(states, steps) && states[0] == Init(n) && |steps| == t + 2
    ensures forall k | 0 <= k < t :: !steps[k].KidDies?
    ensures i < |states[t].kids| && !states[t].kids[i].released
    ensures states[t].kids[i].pc.DropsReadyWrite? || states[t].kids[i].pc.Hold?
    ensures steps[t] == KidDies(i) && steps[t + 1] == ParentMoves && states[t + 2].parent == Killed(i)
  {
    states, steps := ReachStart(n, i, [Init(n)], []);
    t := |steps|;
    EveryRunKeepsInv(n, states, steps, t);
    HeldWhenAboutToStart(states[t], i);
    ExtendRun(states, steps, KidDies(i));
    states, steps := states + [Next(states[t], KidDies(i))], steps + [KidDies(i)];
    StartFailsIffChildDead(n, states, steps, t + 1, i);
    ExtendRun(states, steps, ParentMoves);
    states, steps := states + [ParentMove(states[t + 1])], steps + [ParentMoves];
  }
}
