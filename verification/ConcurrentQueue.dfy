/** The concurrent queue: any number of threads pushing, popping, and popping with a timeout,
    over one mutex and one condition variable.

    A push notifies after it released the mutex, a waiter sleeps only while it does not hold
    the mutex, and it may wake up for no reason.  Each step below is one action of one thread
    between two points where others can intervene. */
module ConcurrentQueue {
  import opened Tallies

  type Tid = nat
  datatype Option<T> = None | Some(value: T)

  /** Where a thread is in its current call. */
  datatype Pc<T> =
    | Idle
      // push
    | PushWantsMutex(value: T)
    | PushHoldsMutex(value: T)
    | PushDone                                         // the value is in the queue, the mutex still held
    | PushNotifies                                     // the mutex is free, the notification still due
      // pop, blocking or timed
    | PopWantsMutex(timed: bool)                       // on entry, and after every wake-up
    | PopChecks(timed: bool)                           // holds the mutex, will look at the queue
    | PopSleeps(timed: bool)
    | PopExpired                                       // timed out, wants the mutex for a last look
    | PopLastCheck                                     // holds the mutex for that look
    | PopReturns(timed: bool, result: Option<T>)       // holds the mutex, has the answer

  datatype State<T> = State(
    queue: seq<T>,
    holder: Option<Tid>,
    threads: seq<Pc<T>>,
    pushed: seq<T>,                                    // everything pushed so far, in order
    popped: seq<T>                                     // everything handed to a consumer, in order
  )

  datatype Step<T> =
    | Spawn
    | CallPush(tid: Tid, value: T)
    | CallPop(tid: Tid, timed: bool)
    | SpuriousWakeup(tid: Tid)
    | Timeout(tid: Tid)
      // the queue's own steps
    | Acquire(tid: Tid)
    | Append(tid: Tid)
    | Release(tid: Tid)
    | Notify(tid: Tid, woken: Option<Tid>)
    | Look(tid: Tid)

  predicate Internal<T>(step: Step<T>) {
    step.Acquire? || step.Append? || step.Release? || step.Notify? || step.Look?
  }

  function Init<T>(): State<T> {
    State([], None, [], [], [])
  }

  predicate Asleep<T>(s: State<T>, tid: Tid) {
    tid < |s.threads| && s.threads[tid].PopSleeps?
  }

  predicate NobodyAsleep<T>(s: State<T>) {
    forall tid | 0 <= tid < |s.threads| :: !s.threads[tid].PopSleeps?
  }

  ghost predicate Enabled<T>(s: State<T>, step: Step<T>) {
    if step.Spawn? then true else
      step.tid < |s.threads| &&
      var pc := s.threads[step.tid];
      match step
      case CallPush(_, _) => pc.Idle?
      case CallPop(_, _) => pc.Idle?
      case SpuriousWakeup(_) => pc.PopSleeps?
      case Timeout(_) => pc.PopSleeps? && pc.timed
      case Acquire(_) => (pc.PushWantsMutex? || pc.PopWantsMutex? || pc.PopExpired?) && s.holder.None?
      case Append(_) => pc.PushHoldsMutex?
      case Release(_) => pc.PushDone? || pc.PopReturns?
      case Notify(_, woken) =>
        pc.PushNotifies? && if woken.Some? then Asleep(s, woken.value) else NobodyAsleep(s)
      case Look(_) => pc.PopChecks? || pc.PopLastCheck?
  }

  function At<T>(s: State<T>, tid: Tid, pc: Pc<T>): State<T>
    requires tid < |s.threads|
  {
    s.(threads := s.threads[tid := pc])
  }

  /** A consumer holding the mutex looks at the queue: it takes the front if there is one,
      else goes to sleep and gives up the mutex, or reports failure when its time is over. */
  function LookAround<T>(s: State<T>, tid: Tid): State<T>
    requires tid < |s.threads| && (s.threads[tid].PopChecks? || s.threads[tid].PopLastCheck?)
  {
    var pc := s.threads[tid];
    var timed := pc.PopLastCheck? || pc.timed;
    if s.queue != [] then
      At(s, tid, PopReturns(timed, Some(s.queue[0])))
      .(queue := s.queue[1..], popped := s.popped + [s.queue[0]])
    else if pc.PopChecks? then
      At(s, tid, PopSleeps(timed)).(holder := None)
    else
      At(s, tid, PopReturns(timed, None))
  }

  ghost function Next<T>(s: State<T>, step: Step<T>): State<T>
    requires Enabled(s, step)
  {
    match step
    case Spawn => s.(threads := s.threads + [Idle])
    case CallPush(tid, value) => At(s, tid, PushWantsMutex(value))
    case CallPop(tid, timed) => At(s, tid, PopWantsMutex(timed))
    case SpuriousWakeup(tid) => At(s, tid, PopWantsMutex(s.threads[tid].timed))
    case Timeout(tid) => At(s, tid, PopExpired)
    case Acquire(tid) =>
      var pc := s.threads[tid];
      At(s, tid, if pc.PushWantsMutex? then PushHoldsMutex(pc.value)
                 else if pc.PopWantsMutex? then PopChecks(pc.timed) else PopLastCheck)
      .(holder := Some(tid))
    case Append(tid) =>
      var value := s.threads[tid].value;
      At(s, tid, PushDone).(queue := s.queue + [value], pushed := s.pushed + [value])
    case Release(tid) =>
      At(s, tid, if s.threads[tid].PushDone? then PushNotifies else Idle).(holder := None)
    case Notify(tid, woken) =>
      var s' := At(s, tid, Idle);
      if woken.Some? then At(s', woken.value, PopWantsMutex(s.threads[woken.value].timed)) else s'
    case Look(tid) => LookAround(s, tid)
  }

  // ----- The invariant -----

  predicate NeedsMutex<T>(pc: Pc<T>) {
    pc.PushHoldsMutex? || pc.PushDone? || pc.PopChecks? || pc.PopLastCheck? || pc.PopReturns?
  }

  /** Pushed but not yet notified. */
  function Pending<T>(pc: Pc<T>): nat { if pc.PushDone? || pc.PushNotifies? then 1 else 0 }

  /** Still going to look at the queue. */
  function Awake<T>(pc: Pc<T>): nat {
    if pc.PopWantsMutex? || pc.PopChecks? || pc.PopExpired? || pc.PopLastCheck? then 1 else 0
  }

  function Sleeping<T>(pc: Pc<T>): nat { if pc.PopSleeps? then 1 else 0 }

  ghost predicate MutexIsExclusive<T>(s: State<T>) {
    forall tid | 0 <= tid < |s.threads| :: NeedsMutex(s.threads[tid]) <==> s.holder == Some(tid)
  }

  /** While some consumer sleeps, every queued value has a notification still to come or a
      consumer that will look at the queue. */
  ghost predicate NoLostWakeup<T>(s: State<T>) {
    Tally(s.threads, Sleeping) > 0 ==>
      |s.queue| <= Tally(s.threads, Pending) + Tally(s.threads, Awake)
  }

  ghost predicate BlockingPopsSucceed<T>(s: State<T>) {
    forall tid | 0 <= tid < |s.threads| && s.threads[tid].PopReturns? && !s.threads[tid].timed ::
      s.threads[tid].result.Some?
  }

  ghost predicate Inv<T>(s: State<T>) {
    && MutexIsExclusive(s)
    && (s.holder.Some? ==> s.holder.value < |s.threads|)
    && s.pushed == s.popped + s.queue
    && NoLostWakeup(s)
    && BlockingPopsSucceed(s)
  }

  /** How the counts change when one thread moves. */
  lemma Moved<T>(s: State<T>, tid: Tid, pc: Pc<T>)
    requires tid < |s.threads|
    ensures var before, after := s.threads, s.threads[tid := pc];
            && Tally(after, Sleeping) + Sleeping(before[tid]) == Tally(before, Sleeping) + Sleeping(pc)
            && Tally(after, Pending) + Pending(before[tid]) == Tally(before, Pending) + Pending(pc)
            && Tally(after, Awake) + Awake(before[tid]) == Tally(before, Awake) + Awake(pc)
  {
    TallyUpdate(s.threads, tid, pc, Sleeping);
    TallyUpdate(s.threads, tid, pc, Pending);
    TallyUpdate(s.threads, tid, pc, Awake);
  }

  lemma NotifyKeepsNoLostWakeup<T>(s: State<T>, tid: Tid, woken: Option<Tid>)
    requires Inv(s) && Enabled(s, Notify(tid, woken))
    ensures NoLostWakeup(Next(s, Notify(tid, woken)))
  {
    Moved(s, tid, Idle);
    var s' := At(s, tid, Idle);
    if woken.Some? {
      Moved(s', woken.value, PopWantsMutex(s.threads[woken.value].timed));
    } else if Tally(s'.threads, Sleeping) > 0 {
      var sleeper := TallyWitness(s'.threads, Sleeping);
      assert false;
    }
  }

  lemma SpawnKeepsNoLostWakeup<T>(s: State<T>)
    requires NoLostWakeup(s)
    ensures NoLostWakeup(Next(s, Spawn))
  {
    TallyAppend(s.threads, Idle, Sleeping);
    TallyAppend(s.threads, Idle, Pending);
    TallyAppend(s.threads, Idle, Awake);
  }

  lemma LookKeepsNoLostWakeup<T>(s: State<T>, tid: Tid)
    requires NoLostWakeup(s) && Enabled(s, Look(tid))
    ensures NoLostWakeup(Next(s, Look(tid)))
  {
    Moved(s, tid, Next(s, Look(tid)).threads[tid]);
  }

  lemma MoveKeepsNoLostWakeup<T>(s: State<T>, step: Step<T>)
    requires NoLostWakeup(s) && Enabled(s, step) && !step.Spawn? && !step.Notify? && !step.Look?
    ensures NoLostWakeup(Next(s, step))
  {
    Moved(s, step.tid, Next(s, step).threads[step.tid]);
  }

  lemma StepKeepsNoLostWakeup<T>(s: State<T>, step: Step<T>)
    requires Inv(s) && Enabled(s, step)
    ensures NoLostWakeup(Next(s, step))
  {
    match step
    case Notify(tid, woken) => NotifyKeepsNoLostWakeup(s, tid, woken);
    case Spawn => SpawnKeepsNoLostWakeup(s);
    case Look(tid) => LookKeepsNoLostWakeup(s, tid);
    case _ => MoveKeepsNoLostWakeup(s, step);
  }

  lemma StepKeepsMutex<T>(s: State<T>, step: Step<T>)
    requires Inv(s) && Enabled(s, step)
    ensures MutexIsExclusive(Next(s, step))
    ensures Next(s, step).holder.Some? ==> Next(s, step).holder.value < |Next(s, step).threads|
  {
  }

  lemma StepKeepsOrder<T>(s: State<T>, step: Step<T>)
    requires Inv(s) && Enabled(s, step)
    ensures Next(s, step).pushed == Next(s, step).popped + Next(s, step).queue
  {
    if step.Look? && s.queue != [] {
      assert s.queue == [s.queue[0]] + s.queue[1..];
    }
  }

  lemma StepKeepsResults<T>(s: State<T>, step: Step<T>)
    requires Inv(s) && Enabled(s, step)
    ensures BlockingPopsSucceed(Next(s, step))
  {
  }

  lemma StepKeepsInv<T>(s: State<T>, step: Step<T>)
    requires Inv(s) && Enabled(s, step)
    ensures Inv(Next(s, step))
  {
    StepKeepsNoLostWakeup(s, step);
    StepKeepsMutex(s, step);
    StepKeepsOrder(s, step);
    StepKeepsResults(s, step);
  }

  // ----- Whole runs -----

  ghost predicate Follows<T>(states: seq<State<T>>, steps: seq<Step<T>>) {
    && |states| == |steps| + 1
    && (forall i | 0 <= i < |steps| :: Enabled(states[i], steps[i]) && states[i + 1] == Next(states[i], steps[i]))
  }

  /** In every state of every run the queue is what was pushed and not yet popped, in order,
      no sleeping consumer is forgotten, and no blocking pop comes back empty-handed. */
  lemma {:induction false} EveryRunKeepsInv<T>(states: seq<State<T>>, steps: seq<Step<T>>, i: nat)
    requires Follows(states, steps) && states[0] == Init() && i < |states|
    ensures Inv(states[i])
  {
    if i > 0 {
      EveryRunKeepsInv(states, steps, i - 1);
      StepKeepsInv(states[i - 1], steps[i - 1]);
    }
  }

  // ----- The queue as one atomic object -----

  datatype AtomicStep<T> = Push(value: T) | Pop(value: T) | Stutter

  /** What a step does to a queue whose operations take effect at one instant. */
  ghost function Abstract<T>(s: State<T>, step: Step<T>): AtomicStep<T>
    requires Enabled(s, step)
  {
    if step.Append? then Push(s.threads[step.tid].value)
    else if step.Look? && s.queue != [] then Pop(s.queue[0])
    else Stutter
  }

  function AtomicNext<T>(queue: seq<T>, step: AtomicStep<T>): seq<T>
    requires step.Pop? ==> queue != []
  {
    match step
    case Push(value) => queue + [value]
    case Pop(_) => queue[1..]
    case Stutter => queue
  }

  /** Every step is a push, a pop of the front, or nothing at all to the contents; the pop is
      by a consumer that then has the front as its result, and a consumer that gives up does so
      only when it has timed out and sees an empty queue. */
  lemma RefinesAtomicQueue<T>(s: State<T>, step: Step<T>)
    requires Inv(s) && Enabled(s, step)
    ensures Abstract(s, step).Pop? ==> s.queue != []
    ensures Next(s, step).queue == AtomicNext(s.queue, Abstract(s, step))
    ensures Abstract(s, step).Pop? ==>
              && s.queue[0] == Abstract(s, step).value
              && Next(s, step).threads[step.tid].PopReturns?
              && Next(s, step).threads[step.tid].result == Some(s.queue[0])
    ensures forall tid | 0 <= tid < |s.threads| ::
              Next(s, step).threads[tid].PopReturns? && !s.threads[tid].PopReturns? ==>
                && step == Look(tid)
                && (Next(s, step).threads[tid].result.None? ==> s.threads[tid].PopLastCheck? && s.queue == [])
  {
  }

  // ----- Calls -----

  /** In the push of `value`, which is not in the queue yet. */
  predicate AboutToPush<T(==)>(pc: Pc<T>, value: T) {
    pc == PushWantsMutex(value) || pc == PushHoldsMutex(value)
  }

  /** Step k of the run puts `value` into the queue, behind all others. */
  ghost predicate Appends<T>(states: seq<State<T>>, steps: seq<Step<T>>, k: nat, tid: Tid, value: T) {
    && k < |steps| == |states| - 1 && steps[k] == Append(tid)
    && states[k + 1].queue == states[k].queue + [value]
    && states[k + 1].pushed == states[k].pushed + [value]
  }

  lemma StepOfPush<T>(s: State<T>, step: Step<T>, tid: Tid, value: T)
    requires Enabled(s, step) && tid < |s.threads| && step != Release(tid)
    requires AboutToPush(s.threads[tid], value) || s.threads[tid].PushDone?
    ensures var s' := Next(s, step);
            && tid < |s'.threads|
            && (s.threads[tid].PushDone? ==> s'.threads[tid].PushDone? && step != Append(tid))
            && (!s.threads[tid].PushDone? && step != Append(tid) ==> AboutToPush(s'.threads[tid], value))
            && (step == Append(tid) ==>
                  s'.threads[tid].PushDone? && s'.queue == s.queue + [value] && s'.pushed == s.pushed + [value])
  {
  }

  /** While a push has not released the mutex, it has appended its own value once, or not yet. */
  lemma {:induction false} PushInProgress<T>(states: seq<State<T>>, steps: seq<Step<T>>, c: nat, i: nat,
                                             tid: Tid, value: T) returns (appended: nat)
    requires Follows(states, steps) && c < i <= |steps| && steps[c] == CallPush(tid, value)
    requires forall k | c < k < i :: steps[k] != Release(tid)
    ensures tid < |states[i].threads|
    ensures appended <= i && (forall k | c < k < i && steps[k] == Append(tid) :: k == appended)
    ensures if appended == i then AboutToPush(states[i].threads[tid], value)
            else states[i].threads[tid].PushDone? && c < appended && Appends(states, steps, appended, tid, value)
  {
    if i == c + 1 {
      appended := i;
    } else {
      var before := PushInProgress(states, steps, c, i - 1, tid, value);
      StepOfPush(states[i - 1], steps[i - 1], tid, value);
      appended := if before < i - 1 then before else if steps[i - 1] == Append(tid) then i - 1 else i;
    }
  }

  /** A push puts the value it was called with into the queue, once, before it returns. */
  lemma PushTakesEffect<T>(states: seq<State<T>>, steps: seq<Step<T>>, c: nat, i: nat, tid: Tid, value: T)
    returns (appended: nat)
    requires Follows(states, steps) && c < i < |steps| && steps[c] == CallPush(tid, value)
    requires steps[i] == Release(tid) && forall k | c < k < i :: steps[k] != Release(tid)
    ensures c < appended < i && Appends(states, steps, appended, tid, value)
    ensures forall k | c < k < i && steps[k] == Append(tid) :: k == appended
  {
    appended := PushInProgress(states, steps, c, i, tid, value);
  }

  predicate InPop<T>(pc: Pc<T>) {
    pc.PopWantsMutex? || pc.PopChecks? || pc.PopSleeps? || pc.PopExpired? || pc.PopLastCheck? || pc.PopReturns?
  }

  predicate InTimedPop<T>(pc: Pc<T>) {
    InPop(pc) && (pc.PopExpired? || pc.PopLastCheck? || pc.timed)
  }

  /** At step k of the run the thread times out, in a pop that began at step c. */
  ghost predicate TimesOut<T>(steps: seq<Step<T>>, c: nat, k: nat, tid: Tid) {
    c < k < |steps| && steps[k] == Timeout(tid)
  }

  /** A look at the queue gives the front, which it removes, or on an empty queue nothing. */
  predicate Finds<T(==)>(s: State<T>, s': State<T>, result: Option<T>) {
    if s.queue == [] then result.None? && s'.queue == []
    else result == Some(s.queue[0]) && s'.queue == s.queue[1..]
  }

  /** At step k the thread looks at the queue and finds `result`. */
  ghost predicate LooksUp<T>(states: seq<State<T>>, steps: seq<Step<T>>, k: nat, tid: Tid, result: Option<T>) {
    k < |steps| == |states| - 1 && steps[k] == Look(tid) && Finds(states[k], states[k + 1], result)
  }

  lemma StepOfPop<T>(s: State<T>, step: Step<T>, tid: Tid)
    requires Enabled(s, step) && tid < |s.threads| && step != Release(tid) && InPop(s.threads[tid])
    ensures var s' := Next(s, step);
            && tid < |s'.threads| && InPop(s'.threads[tid])
            && (InTimedPop(s'.threads[tid]) <==> InTimedPop(s.threads[tid]))
            && (s'.threads[tid].PopExpired? || s'.threads[tid].PopLastCheck? ==>
                  s.threads[tid].PopExpired? || s.threads[tid].PopLastCheck? || step == Timeout(tid))
            && (s'.threads[tid].PopReturns? ==>
                  if s.threads[tid].PopReturns? then s'.threads[tid] == s.threads[tid] && step != Look(tid)
                  else step == Look(tid) && Finds(s, s', s'.threads[tid].result)
                       && (s'.threads[tid].result.None? ==> s.threads[tid].PopLastCheck?))
            && (step == Timeout(tid) ==> s.threads[tid].PopSleeps?)
  {
  }

  /** Where a pop stands that began at step c: it is of the kind it was called as, has timed out
      before its last check, and has as its result what it found in its last look. */
  ghost predicate PopStands<T>(states: seq<State<T>>, steps: seq<Step<T>>, c: nat, i: nat, tid: Tid, timed: bool,
                               looked: nat, expired: nat)
    requires i < |states|
  {
    && tid < |states[i].threads| && InPop(states[i].threads[tid])
    && (InTimedPop(states[i].threads[tid]) <==> timed)
    && (states[i].threads[tid].PopExpired? || states[i].threads[tid].PopLastCheck? ==>
          expired < i && TimesOut(steps, c, expired, tid))
    && (states[i].threads[tid].PopReturns? ==>
          && c < looked < i && LooksUp(states, steps, looked, tid, states[i].threads[tid].result)
          && (states[i].threads[tid].result.None? ==> expired < looked && TimesOut(steps, c, expired, tid)))
  }

  lemma PopGoesOn<T>(states: seq<State<T>>, steps: seq<Step<T>>, c: nat, i: nat, tid: Tid, timed: bool,
                     looked: nat, expired: nat) returns (looked': nat, expired': nat)
    requires Follows(states, steps) && c < i < |steps| && steps[i] != Release(tid)
    requires PopStands(states, steps, c, i, tid, timed, looked, expired)
    ensures PopStands(states, steps, c, i + 1, tid, timed, looked', expired')
  {
    StepOfPop(states[i], steps[i], tid);
    looked' := if steps[i] == Look(tid) then i else looked;
    expired' := if steps[i] == Timeout(tid) then i else expired;
  }

  /** So it stands through all wake-ups, until it releases the mutex. */
  lemma PopInProgress<T>(states: seq<State<T>>, steps: seq<Step<T>>, c: nat, i: nat, tid: Tid, timed: bool)
    returns (looked: nat, expired: nat)
    requires Follows(states, steps) && c < i <= |steps| && steps[c] == CallPop(tid, timed)
    requires forall k | c < k < i :: steps[k] != Release(tid)
    ensures PopStands(states, steps, c, i, tid, timed, looked, expired)
  {
    looked, expired := 0, 0;
    for j := c + 1 to i
      invariant PopStands(states, steps, c, j, tid, timed, looked, expired)
    {
      looked, expired := PopGoesOn(states, steps, c, j, tid, timed, looked, expired);
    }
  }

  /** A pop returns what was the front when it looked for the last time; a blocking pop always has
      a value, and a timed one has none only if it timed out before and found the queue empty. */
  lemma PopTakesEffect<T>(states: seq<State<T>>, steps: seq<Step<T>>, c: nat, i: nat, tid: Tid, timed: bool)
    returns (result: Option<T>, looked: nat, expired: nat)
    requires Follows(states, steps) && c < i < |steps| && steps[c] == CallPop(tid, timed)
    requires steps[i] == Release(tid) && forall k | c < k < i :: steps[k] != Release(tid)
    ensures tid < |states[i].threads| && states[i].threads[tid] == PopReturns(timed, result)
    ensures c < looked < i && LooksUp(states, steps, looked, tid, result)
    ensures result.None? ==> timed && expired < looked && TimesOut(steps, c, expired, tid)
  {
    looked, expired := PopInProgress(states, steps, c, i, tid, timed);
    result := states[i].threads[tid].result;
    if result.None? {
      TimeoutNeedsTimedPop(states, steps, c, expired, tid, timed);
    }
  }

  /** Only a pop that was called with a timeout times out. */
  lemma TimeoutNeedsTimedPop<T>(states: seq<State<T>>, steps: seq<Step<T>>, c: nat, k: nat, tid: Tid, timed: bool)
    requires Follows(states, steps) && c < k < |steps| && steps[c] == CallPop(tid, timed)
    requires steps[k] == Timeout(tid) && forall j | c < j < k :: steps[j] != Release(tid)
    ensures timed
  {
    var looked, expired := PopInProgress(states, steps, c, k, tid, timed);
  }

  /** After its timeout a pop does not sleep again: it looks once more and returns. */
  lemma {:induction false} ExpiredPopReturns<T>(states: seq<State<T>>, steps: seq<Step<T>>, k: nat, i: nat, tid: Tid)
    requires Follows(states, steps) && k < i <= |steps| && steps[k] == Timeout(tid)
    requires forall j | k < j < i :: steps[j] != Release(tid)
    ensures tid < |states[i].threads|
    ensures var pc := states[i].threads[tid];
            pc.PopExpired? || pc.PopLastCheck? || pc.PopReturns?
  {
    if i > k + 1 {
      ExpiredPopReturns(states, steps, k, i - 1, tid);
    }
  }

  /** There can be any number of threads. */
  lemma {:induction false} ThreadsCanBeSpawned<T>(n: nat) returns (states: seq<State<T>>)
    ensures Follows(states, seq(n, _ => Spawn)) && states[0] == Init()
    ensures states[n] == Init().(threads := seq(n, _ => Idle))
  {
    if n == 0 {
      states := [Init()];
    } else {
      var before := ThreadsCanBeSpawned<T>(n - 1);
      states := before + [Next(before[n - 1], Spawn)];
    }
  }

  /** A consumer that wakes up for no reason looks, finds nothing, and sleeps again. */
  lemma SpuriousWakeupIsHarmless<T>(s: State<T>, tid: Tid) returns (states: seq<State<T>>)
    requires Asleep(s, tid) && s.holder.None? && s.queue == []
    ensures Follows(states, [SpuriousWakeup(tid), Acquire(tid), Look(tid)]) && states[0] == s && states[3] == s
  {
    var s1 := Next(s, SpuriousWakeup(tid));
    var s2 := Next(s1, Acquire(tid));
    var s3 := Next(s2, Look(tid));
    states := [s, s1, s2, s3];
    assert s3.threads == s.threads;
  }

  ghost predicate Undisturbed<T>(s: State<T>, tid: Tid) {
    tid < |s.threads| && s.threads[tid].Idle? && s.holder.None? && NobodyAsleep(s)
  }

  /** An idle thread can push any value, and if nobody interferes the call is through after five
      steps. */
  lemma UndisturbedPush<T>(s: State<T>, tid: Tid, value: T) returns (states: seq<State<T>>)
    requires Undisturbed(s, tid)
    ensures Follows(states, [CallPush(tid, value), Acquire(tid), Append(tid), Release(tid), Notify(tid, None)])
    ensures states[0] == s && states[5] == s.(queue := s.queue + [value], pushed := s.pushed + [value])
  {
    var s1 := Next(s, CallPush(tid, value));
    var s2 := Next(s1, Acquire(tid));
    var s3 := Next(s2, Append(tid));
    var s4 := Next(s3, Release(tid));
    var s5 := Next(s4, Notify(tid, None));
    states := [s, s1, s2, s3, s4, s5];
    assert s5.threads == s.threads;
  }

  /** It can pop, with and without a timeout, and has the front when it releases the mutex. */
  lemma UndisturbedPop<T>(s: State<T>, tid: Tid, timed: bool) returns (states: seq<State<T>>)
    requires Undisturbed(s, tid) && s.queue != []
    ensures Follows(states, [CallPop(tid, timed), Acquire(tid), Look(tid), Release(tid)]) && states[0] == s
    ensures tid < |states[3].threads| && states[3].threads[tid] == PopReturns(timed, Some(s.queue[0]))
    ensures states[4] == s.(queue := s.queue[1..], popped := s.popped + [s.queue[0]])
  {
    var s1 := Next(s, CallPop(tid, timed));
    var s2 := Next(s1, Acquire(tid));
    var s3 := Next(s2, Look(tid));
    var s4 := Next(s3, Release(tid));
    states := [s, s1, s2, s3, s4];
    assert s4.threads == s.threads;
  }

  // ----- Progress -----

  /** A step of the queue itself that the thread can take now. */
  lemma HolderCanMove<T>(s: State<T>) returns (step: Step<T>)
    requires Inv(s) && s.holder.Some?
    ensures Internal(step) && Enabled(s, step)
  {
    var tid := s.holder.value;
    var pc := s.threads[tid];
    assert NeedsMutex(pc);
    step := if pc.PushHoldsMutex? then Append(tid)
            else if pc.PushDone? || pc.PopReturns? then Release(tid) else Look(tid);
  }

  lemma NotifierCanMove<T>(s: State<T>, tid: Tid) returns (step: Step<T>)
    requires tid < |s.threads| && s.threads[tid].PushNotifies?
    ensures Internal(step) && Enabled(s, step)
  {
    if sleeper :| 0 <= sleeper < |s.threads| && s.threads[sleeper].PopSleeps? {
      step := Notify(tid, Some(sleeper));
    } else {
      step := Notify(tid, None);
    }
  }

  /** A thread in the middle of a call, and not asleep, can always be moved on or is only
      waiting for a thread that can. */
  lemma BusyMeansProgress<T>(s: State<T>, tid: Tid) returns (step: Step<T>)
    requires Inv(s) && tid < |s.threads| && !s.threads[tid].Idle? && !s.threads[tid].PopSleeps?
    ensures Internal(step) && Enabled(s, step)
  {
    if s.holder.Some? {
      step := HolderCanMove(s);
    } else if s.threads[tid].PushNotifies? {
      step := NotifierCanMove(s, tid);
    } else {
      assert !NeedsMutex(s.threads[tid]);
      step := Acquire(tid);
    }
  }

  /** A value in the queue and a consumer asleep: some thread can advance the queue without
      waiting for a timeout, a spurious wake-up, or another call. */
  lemma SleeperIsNotStranded<T>(s: State<T>) returns (step: Step<T>)
    requires Inv(s) && s.queue != [] && !NobodyAsleep(s)
    ensures Internal(step) && Enabled(s, step)
  {
    var sleeper :| 0 <= sleeper < |s.threads| && s.threads[sleeper].PopSleeps?;
    TallyAtLeast(s.threads, sleeper, Sleeping);
    var tid: Tid;
    if Tally(s.threads, Pending) > 0 {
      tid := TallyWitness(s.threads, Pending);
    } else {
      tid := TallyWitness(s.threads, Awake);
    }
    step := BusyMeansProgress(s, tid);
  }

  /** A timed pop never depends on a push: its timeout can expire, or it, or the thread that has
      the mutex it wants, can go on. */
  lemma TimedPopNeverBlocks<T>(s: State<T>, tid: Tid) returns (step: Step<T>)
    requires Inv(s) && tid < |s.threads| && InTimedPop(s.threads[tid])
    ensures Enabled(s, step) && (Internal(step) || step == Timeout(tid))
  {
    if s.threads[tid].PopSleeps? {
      step := Timeout(tid);
    } else {
      step := BusyMeansProgress(s, tid);
    }
  }

  /** So for a pop that was called with a timeout, as long as it has not returned. */
  lemma TimedCallsNeverBlock<T>(states: seq<State<T>>, steps: seq<Step<T>>, c: nat, i: nat, tid: Tid)
    returns (step: Step<T>)
    requires Follows(states, steps) && states[0] == Init() && c < i <= |steps|
    requires steps[c] == CallPop(tid, true) && forall k | c < k < i :: steps[k] != Release(tid)
    ensures Enabled(states[i], step) && (Internal(step) || step == Timeout(tid))
  {
    var looked, expired := PopInProgress(states, steps, c, i, tid, true);
    EveryRunKeepsInv(states, steps, i);
    step := TimedPopNeverBlocks(states[i], tid);
  }

  /** How much a thread can still do on its own. */
  function Work<T>(pc: Pc<T>): nat {
    match pc
    case Idle => 0
    case PushWantsMutex(_) => 8
    case PushHoldsMutex(_) => 7
    case PushDone => 6
    case PushNotifies => 5
    case PopWantsMutex(_) => 3
    case PopChecks(_) => 2
    case PopSleeps(_) => 0
    case PopExpired => 3
    case PopLastCheck => 2
    case PopReturns(_, _) => 1
  }

  ghost function TotalWork<T>(s: State<T>): nat { Tally(s.threads, Work) }

  lemma NotifyUsesUpWork<T>(s: State<T>, tid: Tid, woken: Option<Tid>)
    requires Enabled(s, Notify(tid, woken))
    ensures TotalWork(Next(s, Notify(tid, woken))) < TotalWork(s)
  {
    TallyUpdate(s.threads, tid, Idle, Work);
    if woken.Some? {
      var s' := At(s, tid, Idle);
      TallyUpdate(s'.threads, woken.value, PopWantsMutex(s.threads[woken.value].timed), Work);
    }
  }

  lemma InternalStepsUseUpWork<T>(s: State<T>, step: Step<T>)
    requires Inv(s) && Enabled(s, step) && Internal(step)
    ensures TotalWork(Next(s, step)) < TotalWork(s)
  {
    if step.Notify? {
      NotifyUsesUpWork(s, step.tid, step.woken);
    } else {
      TallyUpdate(s.threads, step.tid, Next(s, step).threads[step.tid], Work);
    }
  }

  /** Left to itself the queue comes to rest: no run of its own steps is longer than the work
      there was at the start. */
  lemma {:induction false} InternalRunsAreShort<T>(states: seq<State<T>>, steps: seq<Step<T>>, i: nat)
    requires Follows(states, steps) && Inv(states[0]) && i <= |steps|
    requires forall k | 0 <= k < |steps| :: Internal(steps[k])
    ensures Inv(states[i]) && i + TotalWork(states[i]) <= TotalWork(states[0])
  {
    if i > 0 {
      InternalRunsAreShort(states, steps, i - 1);
      StepKeepsInv(states[i - 1], steps[i - 1]);
      InternalStepsUseUpWork(states[i - 1], steps[i - 1]);
    }
  }

  ghost predicate AtRest<T(!new)>(s: State<T>) {
    forall step: Step<T> | Internal(step) :: !Enabled(s, step)
  }

  /** At rest every call has returned except those of consumers that sleep before an empty
      queue: no value and no wake-up has been lost. */
  lemma AtRestOnlyEmptyHandedSleep<T(!new)>(s: State<T>)
    requires Inv(s)
    ensures AtRest(s) <==> forall tid | 0 <= tid < |s.threads| ::
                             s.threads[tid].Idle? || (s.threads[tid].PopSleeps? && s.queue == [])
  {
    if AtRest(s) {
      forall tid | 0 <= tid < |s.threads|
        ensures s.threads[tid].Idle? || (s.threads[tid].PopSleeps? && s.queue == [])
      {
        if !s.threads[tid].Idle? && !s.threads[tid].PopSleeps? {
          var step := BusyMeansProgress(s, tid);
          assert false;
        } else if s.threads[tid].PopSleeps? && s.queue != [] {
          var step := SleeperIsNotStranded(s);
          assert false;
        }
      }
    }
  }
}
