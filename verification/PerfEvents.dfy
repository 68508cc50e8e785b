/** The event and the event manager as objects that overwrite their counts and samples. */
module PerfEvents {
  import opened PerfSpec
  import B = BatchSpec

  class PerfEvent {
    var count: Counts
    var prev: Counts

    ghost function State(): Event
      reads this
    {
      Event(count, prev)
    }

    /** A new event has no previous sample; its counts mean nothing before the first read. */
    constructor (unread: Counts)
      ensures State() == Event(unread, ZERO)
    {
      count, prev := unread, ZERO;
    }

    /** `answer` is what the implementation reads, or its failure. */
    method Read(answer: B.Answer) returns (ok: bool)
      modifies this`count
      ensures ok <==> answer.Answered?
      ensures State() == B.ReadOne(old(State()), answer)
    {
      ok := answer.Answered?;
      if ok {
        count := answer.counts;
      }
    }

    method Scale(mode: Mode) returns (outcome: Outcome)
      modifies this`prev
      ensures (State(), outcome) == PerfSpec.Scale(old(State()), mode)
    {
      var value, enabled, running := count.raw, count.enabled, count.running;
      if running > enabled {
        return RanLongerThanEnabled;
      }
      if running == 0 && value != prev.raw {
        return UnexpectedValue;
      }
      if mode.Relative? {
        value := Sub64(value, prev.raw);
        enabled := Sub64(enabled, prev.enabled);
        running := Sub64(running, prev.running);
        prev := count;
      }
      if running == 0 {
        return Sampled(Sample(0.0, Finite(0.0), enabled > 0));
      }
      if enabled == 0 {
        return Sampled(Sample(0.0, Infinite, true));     // running / 0.0, and value / infinity
      }
      var scaling := running as real / enabled as real;
      return Sampled(Sample(value as real / scaling, Finite(scaling), true));
    }
  }

  class EventManager {
    const events: seq<PerfEvent>
    const latestSamples: array<Sample>

    ghost predicate Valid() {
      && |events| == latestSamples.Length
      && (forall i, j | 0 <= i < j < |events| :: events[i] != events[j])
    }

    ghost function Events(): (s: seq<Event>)
      reads events
      ensures |s| == |events|
      ensures forall i | 0 <= i < |events| :: s[i] == events[i].State()
    {
      seq(|events|, i requires 0 <= i < |events| reads events => events[i].State())
    }

    ghost function State(): B.Batch
      reads events, latestSamples
    {
      B.Batch(Events(), latestSamples[..])
    }

    constructor (events: seq<PerfEvent>, empty: Sample)
      requires forall i, j | 0 <= i < j < |events| :: events[i] != events[j]
      ensures Valid() && this.events == events && fresh(latestSamples)
      ensures latestSamples[..] == seq(|events|, _ => empty)
    {
      this.events := events;
      latestSamples := new Sample[|events|](_ => empty);
    }

    method ReadAll(answers: seq<B.Answer>) returns (end: B.End)
      requires Valid() && |answers| == |events|
      modifies events
      ensures (Events(), end) == B.ReadFrom(old(Events()), answers, 0)
    {
      ghost var start := Events();
      for i := 0 to |events|
        invariant B.ReadFrom(Events(), answers, i) == B.ReadFrom(start, answers, 0)
      {
        ghost var before := Events();
        var ok := events[i].Read(answers[i]);
        if !ok {
          assert Events() == before;
          return B.ReadThrew(i);
        }
        assert Events() == before[i := B.ReadOne(before[i], answers[i])];
      }
      end := B.Normal;
    }

    /** The body of the second loop: event i is scaled and, unless that throws, its sample stored. */
    method ScaleOne(mode: Mode, i: nat) returns (outcome: Outcome)
      requires Valid() && i < |events|
      modifies events[i], latestSamples
      ensures Events() == old(Events())[i := PerfSpec.Scale(old(Events())[i], mode).0]
      ensures outcome == PerfSpec.Scale(old(Events())[i], mode).1
      ensures latestSamples[..] == if outcome.Sampled? then old(latestSamples[..])[i := outcome.sample]
                                   else old(latestSamples[..])
    {
      outcome := events[i].Scale(mode);
      if outcome.Sampled? {
        latestSamples[i] := outcome.sample;
      }
    }

    method ScaleAll(mode: Mode) returns (end: B.End)
      requires Valid()
      modifies events, latestSamples
      ensures (State(), end) == B.ScaleFrom(old(State()), mode, 0)
    {
      ghost var start := State();
      for i := 0 to |events|
        invariant B.ScaleFrom(State(), mode, i) == B.ScaleFrom(start, mode, 0)
      {
        ghost var before := State();
        var outcome := ScaleOne(mode, i);
        if !outcome.Sampled? {
          assert State() == before;
          return B.ScaleThrew(i, outcome);
        }
      }
      end := B.Normal;
    }

    method ReadEvents(answers: seq<B.Answer>, mode: Mode) returns (end: B.End)
      requires Valid() && |answers| == |events|
      modifies events, latestSamples
      ensures (State(), end) == B.ReadEvents(old(State()), answers, mode)
    {
      end := ReadAll(answers);
      if end.Normal? {
        end := ScaleAll(mode);
      }
    }
  }
}
