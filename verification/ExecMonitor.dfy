/** The execution monitor: a thread that alternates its loop body with draining the event queue
    until it sees that the execution is over, while other threads enqueue events. */
module ExecMonitor {
  import opened Processes

  datatype Thread =
    | NotStarted
    | AtCheck                               // about to read the end flag
    | InLoopBody
    | Draining                              // in process_events, about to pop without waiting
    | Handling(event: Pid)
    | Finished

  /** What the thread has done, in order. */
  datatype Action = LoopBody | Handle(event: Pid)

  datatype State = State(
    queue: seq<Pid>,
    thread: Thread,
    over: bool,
    enqueued: seq<Pid>,                     // history of the events, in order,
    beforeStart: nat,                       // how many of them precede the start of the thread,
    handled: seq<Pid>,
    log: seq<Action>,
    iterations: nat,                        // complete iterations,
    bodies: nat,                            // loop bodies run so far,
    bodiesAtEnd: nat                        // and when the execution ended
  )

  datatype Step =
    | Enqueue(event: Pid)
    | Start
    | EndExecution
      // the thread
    | Check
    | RunLoopBody
    | PopEvent
    | HandleEvent

  predicate ByThread(step: Step) {
    step.Check? || step.RunLoopBody? || step.PopEvent? || step.HandleEvent?
  }

  function Init(): State {
    State([], NotStarted, false, [], 0, [], [], 0, 0, 0)
  }

  predicate Enabled(s: State, step: Step) {
    match step
    case Enqueue(_) => true
    case Start => s.thread.NotStarted?
    case EndExecution => !s.over
    case Check => s.thread.AtCheck?
    case RunLoopBody => s.thread.InLoopBody?
    case PopEvent => s.thread.Draining?
    case HandleEvent => s.thread.Handling?
  }

  function Next(s: State, step: Step): State
    requires Enabled(s, step)
  {
    match step
    case Enqueue(event) => s.(queue := s.queue + [event], enqueued := s.enqueued + [event])
    case Start => s.(thread := AtCheck, beforeStart := |s.enqueued|)
    case EndExecution => s.(over := true, bodiesAtEnd := s.bodies)
    case Check => s.(thread := if s.over then Finished else InLoopBody)
    case RunLoopBody => s.(thread := Draining, log := s.log + [LoopBody], bodies := s.bodies + 1)
    case PopEvent =>
      if s.queue == [] then s.(thread := AtCheck, iterations := s.iterations + 1)
      else s.(thread := Handling(s.queue[0]), queue := s.queue[1..])
    case HandleEvent =>
      s.(thread := Draining, handled := s.handled + [s.thread.event], log := s.log + [Handle(s.thread.event)])
  }

  // ----- Delivery -----

  function InFlight(s: State): seq<Pid> {
    if s.thread.Handling? then [s.thread.event] else []
  }

  ghost predicate Inv(s: State) {
    && s.enqueued == s.handled + InFlight(s) + s.queue
    && s.beforeStart <= |s.enqueued|
    && (s.iterations > 0 ==> s.beforeStart <= |s.handled|)
    && (s.thread.NotStarted? ==> s.log == [] && s.iterations == 0 && s.bodies == 0)
    && (s.thread.Finished? ==> s.over)
    && (s.over ==> s.bodies + (if s.thread.InLoopBody? then 1 else 0) <= s.bodiesAtEnd + 1)
    && (!s.over ==> s.bodiesAtEnd == 0)
    && (s.over && (s.thread.AtCheck? || s.thread.InLoopBody?) ==>
          s.bodies <= s.bodiesAtEnd + 1 && (s.thread.InLoopBody? ==> s.bodies == s.bodiesAtEnd))
  }

  lemma StepKeepsInv(s: State, step: Step)
    requires Inv(s) && Enabled(s, step)
    ensures Inv(Next(s, step))
  {
    if step.PopEvent? && s.queue != [] {
      assert s.queue == [s.queue[0]] + s.queue[1..];
    }
  }

  ghost predicate Follows(states: seq<State>, steps: seq<Step>) {
    && |states| == |steps| + 1
    && (forall i | 0 <= i < |steps| :: Enabled(states[i], steps[i]) && states[i + 1] == Next(states[i], steps[i]))
  }

  /** In every run: handled events, then one being handled, then the queued ones are the enqueued
      events in order, each once.  A complete iteration has handled all the events from before
      the start.  At most one loop body runs after the end of the execution, and the thread
      finishes only after it. */
  lemma {:induction false} EventsAreDelivered(states: seq<State>, steps: seq<Step>, t: nat)
    requires Follows(states, steps) && states[0] == Init() && t < |states|
    ensures Inv(states[t])
    ensures states[t].enqueued == states[t].handled + InFlight(states[t]) + states[t].queue
    ensures states[t].iterations > 0 ==> states[t].enqueued[..states[t].beforeStart] <= states[t].handled
    ensures states[t].over ==> states[t].bodies <= states[t].bodiesAtEnd + 1
    ensures states[t].thread.Finished? ==> states[t].over
  {
    if t > 0 {
      EventsAreDelivered(states, steps, t - 1);
      StepKeepsInv(states[t - 1], steps[t - 1]);
    }
  }

  /** At the end of every iteration the events handled are all those enqueued so far. */
  lemma IterationHandlesEverything(states: seq<State>, steps: seq<Step>, t: nat)
    requires Follows(states, steps) && states[0] == Init() && t < |steps|
    requires states[t + 1].iterations > states[t].iterations
    ensures states[t + 1].handled == states[t + 1].enqueued
  {
    EventsAreDelivered(states, steps, t + 1);
  }

  // ----- The histories and the loop -----

  /** The events enqueued by a sequence of steps, in order. */
  function EventsOf(steps: seq<Step>): seq<Pid> {
    if steps == [] then []
    else
      var last := steps[|steps| - 1];
      EventsOf(steps[..|steps| - 1]) + if last.Enqueue? then [last.event] else []
  }

  /** What the thread has done, taken from the steps and the events it was handling. */
  ghost function LogOf(states: seq<State>, steps: seq<Step>, t: nat): seq<Action>
    requires t <= |steps| < |states|
  {
    if t == 0 then [] else
      LogOf(states, steps, t - 1) +
      if steps[t - 1].RunLoopBody? then [LoopBody]
      else if steps[t - 1].HandleEvent? && states[t - 1].thread.Handling? then [Handle(states[t - 1].thread.event)]
      else []
  }

  function HandledIn(log: seq<Action>): seq<Pid> {
    if log == [] then []
    else
      var last := log[|log| - 1];
      HandledIn(log[..|log| - 1]) + if last.Handle? then [last.event] else []
  }

  function BodiesIn(log: seq<Action>): nat {
    if log == [] then 0 else BodiesIn(log[..|log| - 1]) + if log[|log| - 1].LoopBody? then 1 else 0
  }

  lemma LogExtended(log: seq<Action>, action: Action)
    ensures HandledIn(log + [action]) == HandledIn(log) + if action.Handle? then [action.event] else []
    ensures BodiesIn(log + [action]) == BodiesIn(log) + if action.LoopBody? then 1 else 0
  {
    assert (log + [action])[..|log|] == log;
  }

  /** The checks that found the execution not over. */
  ghost function PassedChecks(states: seq<State>, steps: seq<Step>, t: nat): nat
    requires t <= |steps| < |states|
  {
    if t == 0 then 0
    else PassedChecks(states, steps, t - 1) + if steps[t - 1].Check? && !states[t - 1].over then 1 else 0
  }

  /** The checks that found it over. */
  ghost function FailedChecks(states: seq<State>, steps: seq<Step>, t: nat): nat
    requires t <= |steps| < |states|
  {
    if t == 0 then 0
    else FailedChecks(states, steps, t - 1) + if steps[t - 1].Check? && states[t - 1].over then 1 else 0
  }

  /** The pops that found the queue empty. */
  ghost function EmptyPops(states: seq<State>, steps: seq<Step>, t: nat): nat
    requires t <= |steps| < |states|
  {
    if t == 0 then 0
    else EmptyPops(states, steps, t - 1) + if steps[t - 1].PopEvent? && states[t - 1].queue == [] then 1 else 0
  }

  /** Where the counts of the loop stand: each passed check is followed by one loop body, and each
      loop body by one drain of the queue; the first failed check is the thread's end. */
  ghost predicate InLoop(s: State, passed: nat, failed: nat, empty: nat) {
    && passed == s.bodies + (if s.thread.InLoopBody? then 1 else 0)
    && s.bodies == s.iterations + (if s.thread.Draining? || s.thread.Handling? then 1 else 0)
    && s.iterations == empty && failed == (if s.thread.Finished? then 1 else 0)
  }

  lemma {:induction false} EventsAreTrue(states: seq<State>, steps: seq<Step>, t: nat)
    requires Follows(states, steps) && states[0] == Init() && t < |states|
    ensures states[t].enqueued == EventsOf(steps[..t])
  {
    if t > 0 {
      EventsAreTrue(states, steps, t - 1);
      assert steps[..t][..t - 1] == steps[..t - 1];
    }
  }

  predicate LogAgrees(s: State) {
    s.handled == HandledIn(s.log) && s.bodies == BodiesIn(s.log)
  }

  lemma StepKeepsLog(s: State, step: Step)
    requires LogAgrees(s) && Enabled(s, step)
    ensures LogAgrees(Next(s, step))
    ensures Next(s, step).log == s.log + if step.RunLoopBody? then [LoopBody]
                                         else if step.HandleEvent? then [Handle(s.thread.event)] else []
  {
    if step.RunLoopBody? {
      LogExtended(s.log, LoopBody);
    } else if step.HandleEvent? {
      LogExtended(s.log, Handle(s.thread.event));
    }
  }

  lemma {:induction false} LogIsTrue(states: seq<State>, steps: seq<Step>, t: nat)
    requires Follows(states, steps) && states[0] == Init() && t < |states|
    ensures states[t].log == LogOf(states, steps, t) && LogAgrees(states[t])
  {
    if t > 0 {
      LogIsTrue(states, steps, t - 1);
      StepKeepsLog(states[t - 1], steps[t - 1]);
    }
  }

  lemma {:induction false} LoopIsTrue(states: seq<State>, steps: seq<Step>, t: nat)
    requires Follows(states, steps) && states[0] == Init() && t < |states|
    ensures InLoop(states[t], PassedChecks(states, steps, t), FailedChecks(states, steps, t),
                   EmptyPops(states, steps, t))
  {
    if t > 0 {
      LoopIsTrue(states, steps, t - 1);
    }
  }

  /** The recorded events and actions are those of the run, in order, and the thread alternates
      checks, loop bodies and drains of the queue. */
  lemma HistoryIsTrue(states: seq<State>, steps: seq<Step>, t: nat)
    requires Follows(states, steps) && states[0] == Init() && t < |states|
    ensures states[t].enqueued == EventsOf(steps[..t])
    ensures states[t].log == LogOf(states, steps, t)
    ensures states[t].handled == HandledIn(states[t].log) && states[t].bodies == BodiesIn(states[t].log)
    ensures InLoop(states[t], PassedChecks(states, steps, t), FailedChecks(states, steps, t),
                   EmptyPops(states, steps, t))
  {
    EventsAreTrue(states, steps, t);
    LogIsTrue(states, steps, t);
    LoopIsTrue(states, steps, t);
  }

  /** What precedes the start of the thread, and the end of the execution, is recorded there. */
  lemma {:induction false} RecordedAt(states: seq<State>, steps: seq<Step>, k: nat, t: nat)
    requires Follows(states, steps) && states[0] == Init() && k < t < |states|
    ensures steps[k].Start? ==> !states[t].thread.NotStarted? && states[t].beforeStart == |EventsOf(steps[..k])|
    ensures steps[k].EndExecution? ==> states[t].over && states[t].bodiesAtEnd == BodiesIn(states[k].log)
  {
    if t == k + 1 {
      HistoryIsTrue(states, steps, k);
    } else {
      RecordedAt(states, steps, k, t - 1);
    }
  }

  /** A thread that starts after the end of the execution runs no loop body. */
  lemma NothingAfterEarlyEnd() returns (states: seq<State>)
    ensures Follows(states, [EndExecution, Start, Check]) && states[0] == Init()
    ensures states[3].thread.Finished? && states[3].log == []
  {
    var s1 := Next(Init(), EndExecution);
    var s2 := Next(s1, Start);
    states := [Init(), s1, s2, Next(s2, Check)];
  }

  /** An event that arrives while the thread is draining is handled in the same iteration. */
  lemma LateEventIsHandled(s: State, event: Pid) returns (states: seq<State>)
    requires s.thread.Draining? && s.queue == []
    ensures Follows(states, [Enqueue(event), PopEvent, HandleEvent, PopEvent]) && states[0] == s
    ensures states[3].iterations == s.iterations && states[3].handled == s.handled + [event]
    ensures states[4].iterations == s.iterations + 1 && states[4].queue == []
  {
    var s1 := Next(s, Enqueue(event));
    var s2 := Next(s1, PopEvent);
    var s3 := Next(s2, HandleEvent);
    states := [s, s1, s2, s3, Next(s3, PopEvent)];
  }

  // ----- Termination -----

  /** What the thread has still to do once the execution is over. */
  function Work(s: State): nat {
    2 * |s.queue| + (match s.thread
                     case NotStarted => 2
                     case AtCheck => 1
                     case InLoopBody => 3
                     case Draining => 2
                     case Handling(_) => 3
                     case Finished => 0)
  }

  function ThreadSteps(steps: seq<Step>): nat {
    if steps == [] then 0 else ThreadSteps(steps[..|steps| - 1]) + if ByThread(steps[|steps| - 1]) then 1 else 0
  }

  function Enqueues(steps: seq<Step>): nat {
    if steps == [] then 0 else Enqueues(steps[..|steps| - 1]) + if steps[|steps| - 1].Enqueue? then 1 else 0
  }

  lemma WorkAfterEnd(s: State, step: Step)
    requires s.over && Enabled(s, step)
    ensures Next(s, step).over
    ensures Work(Next(s, step)) + (if ByThread(step) then 1 else 0) <= Work(s) + (if step.Enqueue? then 2 else 0)
  {
  }

  /** After the end of the execution the thread takes only so many more steps: with finitely
      many events it finishes, and `join` returns. */
  lemma {:induction false} ThreadFinishes(states: seq<State>, steps: seq<Step>, t: nat)
    requires Follows(states, steps) && states[0].over && t <= |steps|
    ensures states[t].over
    ensures Work(states[t]) + ThreadSteps(steps[..t]) <= Work(states[0]) + 2 * Enqueues(steps[..t])
  {
    if t > 0 {
      ThreadFinishes(states, steps, t - 1);
      WorkAfterEnd(states[t - 1], steps[t - 1]);
      assert steps[..t][..t - 1] == steps[..t - 1];
    }
  }

  /** A started thread that has not finished can always take its next step.  That a pop is one
      such step rests on its timeout of zero: ConcurrentQueue.TimedPopNeverBlocks. */
  lemma ThreadNeverWaits(s: State) returns (step: Step)
    requires !s.thread.NotStarted? && !s.thread.Finished?
    ensures ByThread(step) && Enabled(s, step)
  {
    step := match s.thread
      case AtCheck => Check
      case InLoopBody => RunLoopBody
      case Draining => PopEvent
      case Handling(_) => HandleEvent;
  }
}
