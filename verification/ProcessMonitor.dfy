/** The process monitor: one waiter thread per registration, one owner thread.

    A waiter waits for its process, pushes the pid, and then completes its future.  The owner
    registers pids and, in `wait_for_any`, pops a pid, looks it up, waits for the future, and
    erases the entry.  The queue takes effect at one instant per push and pop, as module
    ConcurrentQueue shows. */
module ProcessMonitor {
  import opened Processes
  import opened Tallies

  /** How far a waiter has got; `slot` is its position in the order of the pushes. */
  datatype Phase =
    | Waiting
    | Obtained(status: int)                 // the wait succeeded, nothing pushed yet
    | Pushed(status: int, slot: nat)        // pushed, the future not yet complete
    | Ready(status: int, slot: nat)         // the future holds the status
    | Failed                                // the wait failed, the future holds the exception

  datatype Registration = Registration(pid: Pid, phase: Phase)

  datatype Owner =
    | Idle
    | Popping                               // in wait_for_any, at the queue
    | Holding(pid: Pid)                     // popped, about to look up and get
    | AssertionFailed
    | Threw                                 // the future rethrew the waiter's exception

  datatype Result = Result(registration: nat, pid: Pid, status: int)

  datatype State = State(
    status: map<Pid, nat>,                  // pid to registration, for those not yet returned
    registrations: seq<Registration>,
    queue: seq<Pid>,
    owner: Owner,
    pushes: seq<nat>,                       // the registrations that pushed, in order
    returned: seq<Result>                   // what wait_for_any has returned, in order
  )

  datatype Step =
    | Add(pid: Pid)
    | CallWaitForAny
      // the operating system's answers to the waiters
    | WaitSucceeds(registration: nat, answer: int)
    | WaitFails(registration: nat)
      // the monitor's own steps
    | Push(registration: nat)
    | Complete(registration: nat)
    | Pop
    | Collect

  predicate Internal(step: Step) {
    step.Push? || step.Complete? || step.Pop? || step.Collect?
  }

  predicate ByEnvironment(step: Step) {
    step.WaitSucceeds? || step.WaitFails?
  }

  function Init(): State {
    State(map[], [], [], Idle, [], [])
  }

  predicate Enabled(s: State, step: Step) {
    match step
    case Add(_) => s.owner.Idle?
    case CallWaitForAny => s.owner.Idle?
    case WaitSucceeds(r, _) => r < |s.registrations| && s.registrations[r].phase.Waiting?
    case WaitFails(r) => r < |s.registrations| && s.registrations[r].phase.Waiting?
    case Push(r) => r < |s.registrations| && s.registrations[r].phase.Obtained?
    case Complete(r) => r < |s.registrations| && s.registrations[r].phase.Pushed?
    case Pop => s.owner.Popping? && s.queue != []
    case Collect =>
      s.owner.Holding? && (
        s.owner.pid !in s.status || s.status[s.owner.pid] >= |s.registrations| ||
        var phase := s.registrations[s.status[s.owner.pid]].phase;
        phase.Ready? || phase.Failed?)
  }

  /** A pid that is still registered is refused, and the refusal changes nothing. */
  predicate Refused(s: State, pid: Pid) {
    pid in s.status
  }

  function Phased(s: State, r: nat, phase: Phase): State
    requires r < |s.registrations|
  {
    s.(registrations := s.registrations[r := s.registrations[r].(phase := phase)])
  }

  function Next(s: State, step: Step): State
    requires Enabled(s, step)
  {
    match step
    case Add(pid) =>
      if Refused(s, pid) then s else
        s.(status := s.status[pid := |s.registrations|],
           registrations := s.registrations + [Registration(pid, Waiting)])
    case CallWaitForAny => s.(owner := Popping)
    case WaitSucceeds(r, answer) => Phased(s, r, Obtained(answer))
    case WaitFails(r) => Phased(s, r, Failed)
    case Push(r) =>
      Phased(s, r, Pushed(s.registrations[r].phase.status, |s.pushes|))
      .(queue := s.queue + [s.registrations[r].pid], pushes := s.pushes + [r])
    case Complete(r) =>
      var phase := s.registrations[r].phase;
      Phased(s, r, Ready(phase.status, phase.slot))
    case Pop => s.(owner := Holding(s.queue[0]), queue := s.queue[1..])
    case Collect =>
      var pid := s.owner.pid;
      if pid !in s.status || s.status[pid] >= |s.registrations| then s.(owner := AssertionFailed)
      else
        var r := s.status[pid];
        if s.registrations[r].phase.Failed? then s.(owner := Threw) else
          s.(owner := Idle, status := s.status - {pid},
             returned := s.returned + [Result(r, pid, s.registrations[r].phase.status)])
  }

  // ----- The invariant -----

  predicate HasPushed(phase: Phase) { phase.Pushed? || phase.Ready? }

  predicate Outstanding(s: State, r: nat) {
    r < |s.registrations| && s.registrations[r].pid in s.status && s.status[s.registrations[r].pid] == r
  }

  /** The pushes that the owner has popped: those returned, and one it may be holding. */
  function Popped(s: State): nat {
    |s.returned| + if s.owner.Holding? then 1 else 0
  }

  ghost predicate StatusInv(s: State) {
    forall pid | pid in s.status ::
      s.status[pid] < |s.registrations| && s.registrations[s.status[pid]].pid == pid
  }

  /** The order of the pushes and the phases of the waiters tell the same story. */
  ghost predicate PushInv(s: State) {
    && (forall i | 0 <= i < |s.pushes| ::
          && s.pushes[i] < |s.registrations|
          && HasPushed(s.registrations[s.pushes[i]].phase)
          && s.registrations[s.pushes[i]].phase.slot == i)
    && (forall r | 0 <= r < |s.registrations| && HasPushed(s.registrations[r].phase) ::
          s.registrations[r].phase.slot < |s.pushes| && s.pushes[s.registrations[r].phase.slot] == r)
  }

  /** The queue is what was pushed and not yet popped, in order. */
  ghost predicate QueueInv(s: State) {
    && |s.pushes| == Popped(s) + |s.queue|
    && (forall i | 0 <= i < |s.pushes| :: s.pushes[i] < |s.registrations|)
    && (forall j | Popped(s) <= j < |s.pushes| ::
          s.queue[j - Popped(s)] == s.registrations[s.pushes[j]].pid)
    && (s.owner.Holding? ==> s.owner.pid == s.registrations[s.pushes[|s.returned|]].pid)
    && !s.owner.AssertionFailed? && !s.owner.Threw?
  }

  /** The results are the first pushes, each with the status its own waiter obtained. */
  ghost predicate ReturnedInv(s: State) {
    && |s.returned| <= |s.pushes|
    && (forall i | 0 <= i < |s.returned| ::
          var result := s.returned[i];
          && result.registration == s.pushes[i] < |s.registrations|
          && s.registrations[result.registration].pid == result.pid
          && s.registrations[result.registration].phase == Ready(result.status, i))
  }

  /** A registration is outstanding until its push has been returned. */
  ghost predicate OutstandingInv(s: State) {
    forall r | 0 <= r < |s.registrations| ::
      Outstanding(s, r) <==>
      !(HasPushed(s.registrations[r].phase) && s.registrations[r].phase.slot < |s.returned|)
  }

  ghost predicate Inv(s: State) {
    StatusInv(s) && PushInv(s) && QueueInv(s) && ReturnedInv(s) && OutstandingInv(s)
  }

  lemma AddKeepsInv(s: State, pid: Pid)
    requires Inv(s) && Enabled(s, Add(pid))
    ensures Inv(Next(s, Add(pid)))
  {
    var s' := Next(s, Add(pid));
    if !Refused(s, pid) {
      forall r | 0 <= r < |s'.registrations|
        ensures Outstanding(s', r) <==>
                !(HasPushed(s'.registrations[r].phase) && s'.registrations[r].phase.slot < |s'.returned|)
      {
        assert r < |s.registrations| ==> (Outstanding(s, r) <==> Outstanding(s', r));
      }
    }
  }

  /** A step of a waiter changes no pid and no entry of the map. */
  lemma WaiterKeepsOutstandingInv(s: State, s': State, r: nat)
    requires OutstandingInv(s) && r < |s.registrations| == |s'.registrations|
    requires s'.status == s.status && |s'.returned| == |s.returned|
    requires s'.registrations[r].pid == s.registrations[r].pid
    requires forall q | 0 <= q < |s.registrations| && q != r :: s'.registrations[q] == s.registrations[q]
    requires (HasPushed(s'.registrations[r].phase) && s'.registrations[r].phase.slot < |s.returned|) <==>
             (HasPushed(s.registrations[r].phase) && s.registrations[r].phase.slot < |s.returned|)
    ensures OutstandingInv(s')
  {
    assert forall q | 0 <= q < |s.registrations| :: Outstanding(s, q) <==> Outstanding(s', q);
  }

  /** An answer to a waiter touches nothing that is pushed or returned. */
  lemma AnswerKeepsInv(s: State, r: nat, phase: Phase)
    requires Inv(s) && r < |s.registrations| && s.registrations[r].phase.Waiting?
    requires phase.Obtained? || phase.Failed?
    ensures Inv(Phased(s, r, phase))
  {
    WaiterKeepsOutstandingInv(s, Phased(s, r, phase), r);
  }

  lemma CompleteKeepsInv(s: State, r: nat)
    requires Inv(s) && Enabled(s, Complete(r))
    ensures Inv(Next(s, Complete(r)))
  {
    WaiterKeepsOutstandingInv(s, Next(s, Complete(r)), r);
  }

  lemma PushKeepsPushInv(s: State, r: nat)
    requires PushInv(s) && Enabled(s, Push(r))
    ensures PushInv(Next(s, Push(r)))
  {
  }

  lemma PushKeepsQueueInv(s: State, r: nat)
    requires QueueInv(s) && Enabled(s, Push(r))
    ensures QueueInv(Next(s, Push(r)))
  {
  }

  lemma PushKeepsInv(s: State, r: nat)
    requires Inv(s) && Enabled(s, Push(r))
    ensures Inv(Next(s, Push(r)))
  {
    PushKeepsPushInv(s, r);
    PushKeepsQueueInv(s, r);
    WaiterKeepsOutstandingInv(s, Next(s, Push(r)), r);
  }

  /** What the owner is holding: the oldest push not yet returned, still registered. */
  lemma HeldIsOutstanding(s: State) returns (r: nat)
    requires Inv(s) && s.owner.Holding?
    ensures r == s.pushes[|s.returned|] && Outstanding(s, r) && s.registrations[r].pid == s.owner.pid
    ensures HasPushed(s.registrations[r].phase) && s.registrations[r].phase.slot == |s.returned|
    ensures s.owner.pid in s.status && s.status[s.owner.pid] == r
  {
    r := s.pushes[|s.returned|];
  }

  lemma CollectKeepsOutstandingInv(s: State, held: nat)
    requires Inv(s) && Enabled(s, Collect) && held < |s.registrations|
    requires s.owner.pid in s.status && s.status[s.owner.pid] == held
    requires s.registrations[held].phase.Ready? && s.registrations[held].phase.slot == |s.returned|
    requires s.pushes[|s.returned|] == held
    ensures OutstandingInv(Next(s, Collect))
  {
    var s' := Next(s, Collect);
    forall r | 0 <= r < |s.registrations|
      ensures Outstanding(s', r) <==>
              !(HasPushed(s'.registrations[r].phase) && s'.registrations[r].phase.slot < |s'.returned|)
    {
      assert Outstanding(s', r) <==> Outstanding(s, r) && r != held;
    }
  }

  lemma CollectKeepsInv(s: State)
    requires Inv(s) && Enabled(s, Collect)
    ensures Inv(Next(s, Collect))
  {
    var held := HeldIsOutstanding(s);
    CollectKeepsOutstandingInv(s, held);
  }

  lemma StepKeepsInv(s: State, step: Step)
    requires Inv(s) && Enabled(s, step)
    ensures Inv(Next(s, step))
  {
    match step
    case Add(pid) => AddKeepsInv(s, pid);
    case Push(r) => PushKeepsInv(s, r);
    case Collect => CollectKeepsInv(s);
    case Pop =>
    case CallWaitForAny =>
    case WaitSucceeds(r, answer) => AnswerKeepsInv(s, r, Obtained(answer));
    case WaitFails(r) => AnswerKeepsInv(s, r, Failed);
    case Complete(r) => CompleteKeepsInv(s, r);
  }

  // ----- Whole runs -----

  ghost predicate Follows(states: seq<State>, steps: seq<Step>) {
    && |states| == |steps| + 1
    && (forall i | 0 <= i < |steps| :: Enabled(states[i], steps[i]) && states[i + 1] == Next(states[i], steps[i]))
  }

  lemma {:induction false} EveryRunKeepsInv(states: seq<State>, steps: seq<Step>, i: nat)
    requires Follows(states, steps) && states[0] == Init() && i < |states|
    ensures Inv(states[i])
  {
    if i > 0 {
      EveryRunKeepsInv(states, steps, i - 1);
      StepKeepsInv(states[i - 1], steps[i - 1]);
    }
  }

  ghost predicate WasReturned(s: State, r: nat) {
    exists i :: 0 <= i < |s.returned| && s.returned[i].registration == r
  }

  ghost predicate IsRegistered(s: State, r: nat) {
    exists pid :: pid in s.status && s.status[pid] == r
  }

  /** Every registration is either still in the map or has been returned, and not both; the
      results are different registrations in the order in which the waiters pushed, each with
      the pid it was made for and the status its own waiter obtained. */
  lemma RegistrationsAreConserved(s: State)
    requires Inv(s)
    ensures forall r | 0 <= r < |s.registrations| :: IsRegistered(s, r) <==> !WasReturned(s, r)
    ensures forall r: nat | IsRegistered(s, r) || WasReturned(s, r) :: r < |s.registrations|
    ensures forall i, j | 0 <= i < j < |s.returned| :: s.returned[i].registration != s.returned[j].registration
    ensures forall i | 0 <= i < |s.returned| ::
              var result := s.returned[i];
              && i < |s.pushes| && result.registration == s.pushes[i]
              && s.registrations[result.registration] == Registration(result.pid, Ready(result.status, i))
  {
    forall r: nat | r < |s.registrations| ensures IsRegistered(s, r) <==> !WasReturned(s, r) {
      var phase := s.registrations[r].phase;
      if Outstanding(s, r) {
        assert s.registrations[r].pid in s.status;
        forall i | 0 <= i < |s.returned| ensures s.returned[i].registration != r {
        }
      } else {
        assert s.returned[phase.slot].registration == r;
        forall pid | pid in s.status ensures s.status[pid] != r {
        }
      }
    }
  }

  /** No pid is queued twice and all that are queued or held are registered, so the lookup
      succeeds; a future is only read for a waiter that has pushed, so it holds no exception. */
  lemma LookupCannotFail(s: State)
    requires Inv(s)
    ensures forall i, j | 0 <= i < j < |s.queue| :: s.queue[i] != s.queue[j]
    ensures forall i | 0 <= i < |s.queue| :: s.queue[i] in s.status
    ensures s.owner.Holding? ==> s.owner.pid in s.status && s.owner.pid !in s.queue
    ensures s.owner.Holding? ==> HasPushed(s.registrations[s.status[s.owner.pid]].phase)
    ensures !s.owner.AssertionFailed? && !s.owner.Threw?
  {
    if s.owner.Holding? {
      var held := HeldIsOutstanding(s);
    }
    forall i | 0 <= i < |s.queue| ensures s.queue[i] in s.status && s.status[s.queue[i]] == s.pushes[Popped(s) + i] {
      var r := s.pushes[Popped(s) + i];
      assert Outstanding(s, r);
      assert s.queue[Popped(s) + i - Popped(s)] == s.registrations[r].pid;
    }
  }

  /** The last answer to a waiter, or its registration, at the step the phase dates from. */
  lemma RegistrationOfAStep(s: State, step: Step, r: nat)
    requires Enabled(s, step) && r < |Next(s, step).registrations|
    ensures var phase := Next(s, step).registrations[r].phase;
            if r >= |s.registrations| then
              r == |s.registrations| && step == Add(Next(s, step).registrations[r].pid) && phase.Waiting?
              && Next(s, step).registrations[r].pid !in s.status
            else
              && Next(s, step).registrations[r].pid == s.registrations[r].pid
              && (phase.Failed? ==> s.registrations[r].phase.Failed? || step == WaitFails(r))
              && (HasStatus(phase) ==>
                    if HasStatus(s.registrations[r].phase) then phase.status == s.registrations[r].phase.status
                    else step == WaitSucceeds(r, phase.status))
  {
  }

  predicate HasStatus(phase: Phase) { phase.Obtained? || phase.Pushed? || phase.Ready? }

  /** A registration is that of an accepted addition, its status what its wait returned. */
  lemma {:induction false} RegistrationIsTrue(states: seq<State>, steps: seq<Step>, t: nat, r: nat)
    returns (added: nat, answered: nat)
    requires Follows(states, steps) && states[0] == Init() && t < |states| && r < |states[t].registrations|
    ensures added < t && steps[added] == Add(states[t].registrations[r].pid)
    ensures |states[added].registrations| == r && states[t].registrations[r].pid !in states[added].status
    ensures HasStatus(states[t].registrations[r].phase) ==>
              added < answered < t && steps[answered] == WaitSucceeds(r, states[t].registrations[r].phase.status)
  {
    added, answered := 0, 0;
    if t > 0 {
      RegistrationOfAStep(states[t - 1], steps[t - 1], r);
      if r >= |states[t - 1].registrations| {
        added := t - 1;
      } else {
        added, answered := RegistrationIsTrue(states, steps, t - 1, r);
        if !HasStatus(states[t - 1].registrations[r].phase) {
          answered := t - 1;
        }
      }
    }
  }

  /** Each result of wait_for_any is a pid that was added, with the status that the wait for it
      returned. */
  lemma ResultsAreAnswers(states: seq<State>, steps: seq<Step>, t: nat, i: nat) returns (added: nat, answered: nat)
    requires Follows(states, steps) && states[0] == Init() && t < |states| && i < |states[t].returned|
    ensures var result := states[t].returned[i];
            && added < answered < t && steps[added] == Add(result.pid)
            && |states[added].registrations| == result.registration
            && steps[answered] == WaitSucceeds(result.registration, result.status)
  {
    EveryRunKeepsInv(states, steps, t);
    var r := states[t].returned[i].registration;
    assert r < |states[t].registrations|;
    added, answered := RegistrationIsTrue(states, steps, t, r);
  }

  /** What would make wait_for_any fail, in any state: a held pid without an entry is an assertion
      failure, a failed wait behind the entry is rethrown, and only otherwise it returns. */
  lemma CollectFails(s: State)
    requires Enabled(s, Collect)
    ensures var pid, s' := s.owner.pid, Next(s, Collect);
            var known := pid in s.status && s.status[pid] < |s.registrations|;
            && (s'.owner.AssertionFailed? <==> !known)
            && (s'.owner.Threw? <==> known && s.registrations[s.status[pid]].phase.Failed?)
            && (s'.owner.Idle? <==> known && s.registrations[s.status[pid]].phase.Ready?)
            && (!s'.owner.Idle? ==> s'.returned == s.returned && s'.status == s.status)
  {
  }

  // ----- Progress -----

  /** What a waiter still has to do, the wait included. */
  function WaiterWork(registration: Registration): nat {
    match registration.phase
    case Waiting => 3
    case Obtained(_) => 2
    case Pushed(_, _) => 1
    case Ready(_, _) => 0
    case Failed => 0
  }

  ghost function TotalWork(s: State): nat {
    Tally(s.registrations, WaiterWork)
    + (if s.owner.Popping? then 2 else if s.owner.Holding? then 1 else 0)
  }

  /** Between two calls of the owner, every step uses up work. */
  lemma StepsUseUpWork(s: State, step: Step)
    requires Inv(s) && Enabled(s, step) && (Internal(step) || ByEnvironment(step))
    ensures TotalWork(Next(s, step)) < TotalWork(s)
  {
    if !step.Pop? && !step.Collect? {
      var r := step.registration;
      TallyUpdate(s.registrations, r, Next(s, step).registrations[r], WaiterWork);
    }
  }

  /** An outstanding registration whose wait succeeded. */
  predicate Ended(s: State, r: nat) {
    Outstanding(s, r) && !s.registrations[r].phase.Waiting? && !s.registrations[r].phase.Failed?
  }

  /** While some outstanding process has ended, or the owner holds a pid, a call of wait_for_any
      can be moved on: a waiter can push or complete, or the owner can pop or collect. */
  lemma EndedMeansProgress(s: State, r: nat) returns (step: Step)
    requires Inv(s) && (s.owner.Holding? || (s.owner.Popping? && Ended(s, r)))
    ensures Internal(step) && Enabled(s, step)
    ensures s.owner.Popping? ==> step.Push? || step.Pop?
  {
    if s.owner.Holding? {
      var held := HeldIsOutstanding(s);
      step := if s.registrations[held].phase.Pushed? then Complete(held) else Collect;
    } else if s.registrations[r].phase.Obtained? {
      step := Push(r);
    } else {
      assert s.registrations[r].phase.slot < |s.pushes|;
      step := Pop;
    }
  }

  /** A call of wait_for_any that began with the results `before` is at the queue while `r` has
      ended, or holds a pid, or has returned one more result. */
  predicate OnItsWay(s: State, before: seq<Result>, r: nat) {
    || (s.owner.Popping? && s.returned == before && Ended(s, r))
    || (s.owner.Holding? && s.returned == before)
    || (s.owner.Idle? && |s.returned| == |before| + 1 && before <= s.returned)
  }

  lemma CallStaysOnItsWay(s: State, step: Step, before: seq<Result>, r: nat)
    requires Inv(s) && OnItsWay(s, before, r)
    requires Enabled(s, step) && (Internal(step) || ByEnvironment(step))
    ensures OnItsWay(Next(s, step), before, r)
  {
    if step.Collect? {
      LookupCannotFail(s);
    }
  }

  /** Once an outstanding process has ended, wait_for_any returns: in every run from there, with
      any answers to the other waiters, only so many steps are possible, and when no waiter and
      not the owner can move any more, the call has returned with one more result. */
  lemma {:induction false} EndedCallsReturn(states: seq<State>, steps: seq<Step>, r: nat, t: nat)
    requires Follows(states, steps) && t < |states|
    requires Inv(states[0]) && states[0].owner.Popping? && Ended(states[0], r)
    requires forall k | 0 <= k < |steps| :: Internal(steps[k]) || ByEnvironment(steps[k])
    ensures Inv(states[t]) && t + TotalWork(states[t]) <= TotalWork(states[0])
    ensures OnItsWay(states[t], states[0].returned, r)
    ensures (forall step | Internal(step) :: !Enabled(states[t], step)) ==>
              && states[t].owner.Idle? && states[0].returned <= states[t].returned
              && |states[t].returned| == |states[0].returned| + 1
  {
    if t > 0 {
      EndedCallsReturn(states, steps, r, t - 1);
      StepKeepsInv(states[t - 1], steps[t - 1]);
      StepsUseUpWork(states[t - 1], steps[t - 1]);
      CallStaysOnItsWay(states[t - 1], steps[t - 1], states[0].returned, r);
    }
    if !states[t].owner.Idle? {
      var step := EndedMeansProgress(states[t], r);
    }
  }

  /** A waiter that has not completed has not been returned either. */
  lemma IncompleteIsOutstanding(s: State, r: nat)
    requires Inv(s) && r < |s.registrations| && !s.registrations[r].phase.Ready?
    ensures Outstanding(s, r)
  {
    var phase := s.registrations[r].phase;
    assert phase.Pushed? && phase.slot < |s.returned| ==> s.returned[phase.slot].registration == r;
  }

  lemma ObtainedHasEnded(s: State, r: nat)
    requires Inv(s) && r < |s.registrations| && s.registrations[r].phase.Obtained?
    ensures Ended(s, r)
  {
    IncompleteIsOutstanding(s, r);
  }

  lemma QueueFrontHasEnded(s: State)
    requires Inv(s) && s.owner.Popping? && s.queue != []
    ensures Ended(s, s.pushes[|s.returned|])
  {
  }

  /** The steps that bring a call of wait_for_any closer to its return. */
  predicate MovesOn(step: Step) { step.Push? || step.Pop? || step.Collect? }

  /** wait_for_any hangs on the operating system exactly when no outstanding wait has succeeded. */
  lemma BlockedIffNoneEnded(s: State)
    requires Inv(s) && s.owner.Popping?
    ensures (forall step | MovesOn(step) :: !Enabled(s, step)) <==> (forall r: nat :: !Ended(s, r))
  {
    if r: nat :| Ended(s, r) {
      var step := EndedMeansProgress(s, r);
      assert MovesOn(step) && Enabled(s, step);
    } else {
      forall step | MovesOn(step) ensures !Enabled(s, step) {
        if step.Push? && Enabled(s, step) {
          ObtainedHasEnded(s, step.registration);
          assert false;
        } else if step.Pop? && Enabled(s, step) {
          QueueFrontHasEnded(s);
          assert false;
        }
      }
    }
  }

  lemma FailedWaitsEnableNothing(s: State, step: Step)
    requires Inv(s) && s.owner.Popping?
    requires forall r: nat | Outstanding(s, r) :: s.registrations[r].phase.Failed?
    ensures !Enabled(s, step)
  {
    if Enabled(s, step) {
      if step.Pop? {
        QueueFrontHasEnded(s);
      } else {
        IncompleteIsOutstanding(s, step.registration);
      }
      assert false;
    }
  }

  lemma UnfailedWaitEnablesAStep(s: State, r: nat) returns (step: Step)
    requires Inv(s) && s.owner.Popping? && Outstanding(s, r) && !s.registrations[r].phase.Failed?
    ensures Enabled(s, step)
  {
    if s.registrations[r].phase.Waiting? {
      step := WaitSucceeds(r, 0);
    } else {
      step := EndedMeansProgress(s, r);
    }
  }

  /** In wait_for_any nothing at all can change the state any more exactly when all the
      outstanding waits have failed; then it never returns. */
  lemma AllFailedBlocksForever(s: State)
    requires Inv(s) && s.owner.Popping?
    ensures (forall step :: !Enabled(s, step)) <==>
            (forall r: nat | Outstanding(s, r) :: s.registrations[r].phase.Failed?)
  {
    if r: nat :| Outstanding(s, r) && !s.registrations[r].phase.Failed? {
      var step := UnfailedWaitEnablesAStep(s, r);
      assert Enabled(s, step);
    } else {
      forall step ensures !Enabled(s, step) {
        FailedWaitsEnableNothing(s, step);
      }
    }
  }

  /** It does happen: one registration whose wait fails is enough. */
  lemma FailedWaitHangs(pid: Pid) returns (states: seq<State>)
    ensures Follows(states, [Add(pid), CallWaitForAny, WaitFails(0)]) && states[0] == Init()
    ensures states[3].owner.Popping? && forall step :: !Enabled(states[3], step)
  {
    var s1 := Next(Init(), Add(pid));
    var s2 := Next(s1, CallWaitForAny);
    states := [Init(), s1, s2, Next(s2, WaitFails(0))];
  }
}
