/** Reading a batch of events: all the reads come first, then the samples are stored one by one,
    and an exception leaves what was done before it. */
module BatchSpec {
  import opened PerfSpec

  datatype Answer = Answered(counts: Counts) | ReadError

  datatype Batch = Batch(events: seq<Event>, samples: seq<Sample>)

  /** How a batch ends: normally, or with the read or the scale of some event throwing. */
  datatype End = Normal | ReadThrew(at: nat) | ScaleThrew(at: nat, why: Outcome)

  function ReadOne(e: Event, answer: Answer): Event {
    if answer.Answered? then e.(count := answer.counts) else e
  }

  /** The events from i on are read, up to the first error. */
  function ReadFrom(events: seq<Event>, answers: seq<Answer>, i: nat): (seq<Event>, End)
    requires i <= |events| == |answers|
    decreases |events| - i
  {
    if i == |events| then (events, Normal)
    else if answers[i].ReadError? then (events, ReadThrew(i))
    else ReadFrom(events[i := ReadOne(events[i], answers[i])], answers, i + 1)
  }

  /** The events from i on are scaled and their samples stored, up to the first exception. */
  function ScaleFrom(b: Batch, mode: Mode, i: nat): (Batch, End)
    requires i <= |b.events| == |b.samples|
    decreases |b.events| - i
  {
    if i == |b.events| then (b, Normal)
    else
      var (e, outcome) := Scale(b.events[i], mode);
      if !outcome.Sampled? then (b, ScaleThrew(i, outcome))
      else ScaleFrom(Batch(b.events[i := e], b.samples[i := outcome.sample]), mode, i + 1)
  }

  function ReadEvents(b: Batch, answers: seq<Answer>, mode: Mode): (result: (Batch, End))
    requires |b.events| == |b.samples| == |answers|
  {
    var (events, end) := ReadFrom(b.events, answers, 0);
    if !end.Normal? then (Batch(events, b.samples), end)
    else
      ReadFromKeepsSize(b.events, answers, 0);
      ScaleFrom(Batch(events, b.samples), mode, 0)
  }

  lemma {:induction false} ReadFromKeepsSize(events: seq<Event>, answers: seq<Answer>, i: nat)
    requires i <= |events| == |answers|
    ensures |ReadFrom(events, answers, i).0| == |events|
    decreases |events| - i
  {
    if i < |events| && answers[i].Answered? {
      ReadFromKeepsSize(events[i := ReadOne(events[i], answers[i])], answers, i + 1);
    }
  }

  // ----- n independent events -----

  /** Event by event: where the reads stop, and what they leave. */
  lemma {:induction false} ReadsAreIndependent(events: seq<Event>, answers: seq<Answer>, i: nat)
    requires i <= |events| == |answers|
    ensures var (events', end) := ReadFrom(events, answers, i);
            var stop := if end.ReadThrew? then end.at else |events|;
            && !end.ScaleThrew? && i <= stop <= |events| == |events'|
            && (end.ReadThrew? ==> stop < |events| && answers[stop].ReadError?)
            && (forall k | i <= k < stop :: answers[k].Answered?)
            && (forall k | 0 <= k < |events| ::
                  events'[k] == if i <= k < stop then ReadOne(events[k], answers[k]) else events[k])
    decreases |events| - i
  {
    if i < |events| && answers[i].Answered? {
      ReadsAreIndependent(events[i := ReadOne(events[i], answers[i])], answers, i + 1);
    }
  }

  /** `b'` has the events from i up to `stop` scaled and their samples stored, the rest as in `b`. */
  ghost predicate ScaledBetween(b: Batch, mode: Mode, i: nat, stop: nat, b': Batch) {
    && i <= stop <= |b.events| == |b.samples| == |b'.events| == |b'.samples|
    && (forall k | 0 <= k < |b.events| ::
          b'.events[k] == if i <= k < stop then Scale(b.events[k], mode).0 else b.events[k])
    && (forall k | i <= k < stop :: Scale(b.events[k], mode).1 == Sampled(b'.samples[k]))
    && (forall k | 0 <= k < |b.events| && !(i <= k < stop) :: b'.samples[k] == b.samples[k])
  }

  lemma OneMoreScaled(b: Batch, mode: Mode, i: nat, stop: nat, b': Batch)
    requires i < |b.events| == |b.samples| && Scale(b.events[i], mode).1.Sampled?
    requires ScaledBetween(Batch(b.events[i := Scale(b.events[i], mode).0],
                                 b.samples[i := Scale(b.events[i], mode).1.sample]), mode, i + 1, stop, b')
    ensures ScaledBetween(b, mode, i, stop, b')
  {
  }

  lemma {:induction false} ScalesAreIndependent(b: Batch, mode: Mode, i: nat) returns (stop: nat)
    requires i <= |b.events| == |b.samples|
    ensures ScaledBetween(b, mode, i, stop, ScaleFrom(b, mode, i).0)
    ensures ScaleFrom(b, mode, i).1 == if stop == |b.events| then Normal
                                       else ScaleThrew(stop, Scale(b.events[stop], mode).1)
    ensures stop < |b.events| ==> !Scale(b.events[stop], mode).1.Sampled?
    decreases |b.events| - i
  {
    stop := i;
    if i < |b.events| {
      var (e, outcome) := Scale(b.events[i], mode);
      if outcome.Sampled? {
        var next := Batch(b.events[i := e], b.samples[i := outcome.sample]);
        stop := ScalesAreIndependent(next, mode, i + 1);
        OneMoreScaled(b, mode, i, stop, ScaleFrom(next, mode, i + 1).0);
      }
    }
  }

  /** The event after its own read. */
  function Fresh(b: Batch, answers: seq<Answer>, k: nat): Event
    requires k < |b.events| == |answers|
  {
    ReadOne(b.events[k], answers[k])
  }

  /** A batch is n events read and then scaled on their own.  When every read succeeds, either
      every scale does and sample k is that of event k; or the scale of some event is the first
      to throw, exactly the samples before it are replaced, and exactly the events before it
      have been scaled.  `stop` is that event, or the number of events. */
  lemma BatchIsIndependentEvents(b: Batch, answers: seq<Answer>, mode: Mode) returns (stop: nat)
    requires |b.events| == |b.samples| == |answers|
    requires forall k | 0 <= k < |answers| :: answers[k].Answered?
    ensures var (b', end) := ReadEvents(b, answers, mode);
            && stop <= |b.events| == |b'.events| == |b'.samples|
            && (end == if stop == |b.events| then Normal else ScaleThrew(stop, Scale(Fresh(b, answers, stop), mode).1))
            && (stop < |b.events| ==> !Scale(Fresh(b, answers, stop), mode).1.Sampled?)
            && (forall k | 0 <= k < stop ::
                  && b'.events[k] == Scale(Fresh(b, answers, k), mode).0
                  && Scale(Fresh(b, answers, k), mode).1 == Sampled(b'.samples[k]))
            && (forall k | stop <= k < |b.events| ::
                  b'.events[k] == Fresh(b, answers, k) && b'.samples[k] == b.samples[k])
  {
    var events := ReadFrom(b.events, answers, 0).0;
    ReadsAreIndependent(b.events, answers, 0);
    assert forall k | 0 <= k < |events| :: events[k] == Fresh(b, answers, k);
    stop := ScalesAreIndependent(Batch(events, b.samples), mode, 0);
  }

  /** When a read throws, no sample and no `prev` changes: only the events read before it have
      new counts. */
  lemma FailedReadStoresNothing(b: Batch, answers: seq<Answer>, mode: Mode, at: nat)
    requires |b.events| == |b.samples| == |answers| && at < |answers| && answers[at].ReadError?
    requires forall k | 0 <= k < at :: answers[k].Answered?
    ensures var (b', end) := ReadEvents(b, answers, mode);
            && end == ReadThrew(at) && b'.samples == b.samples && |b'.events| == |b.events|
            && (forall k | 0 <= k < |b.events| ::
                  b'.events[k] == if k < at then Fresh(b, answers, k) else b.events[k])
  {
    ReadsAreIndependent(b.events, answers, 0);
  }

  /** The events before a throwing one have moved on in relative mode, all others have not. */
  lemma PrevAfterBatch(b: Batch, answers: seq<Answer>, mode: Mode) returns (stop: nat)
    requires |b.events| == |b.samples| == |answers|
    requires forall k | 0 <= k < |answers| :: answers[k].Answered?
    ensures var (b', end) := ReadEvents(b, answers, mode);
            && stop == (if end.ScaleThrew? then end.at else |b.events|) <= |b.events| == |b'.events|
            && (forall k | 0 <= k < |b.events| :: b'.events[k].count == answers[k].counts
                  && b'.events[k].prev == if k < stop && mode.Relative? then answers[k].counts else b.events[k].prev)
  {
    stop := BatchIsIndependentEvents(b, answers, mode);
  }
}
