/** Reading and scaling performance counters: 64-bit counts with wrap-around, doubles as reals,
    and the division by zero that IEEE arithmetic answers with an infinity. */
module PerfSpec {
  const WRAP: int := 0x1_0000_0000_0000_0000

  type u64 = x: int | 0 <= x < WRAP

  /** Unsigned subtraction. */
  function Sub64(a: u64, b: u64): u64 { if a >= b then a - b else a - b + WRAP }

  function Add64(a: u64, b: u64): u64 { if a + b < WRAP then a + b else a + b - WRAP }

  datatype Counts = Counts(raw: u64, enabled: u64, running: u64) {
    function Minus(other: Counts): Counts {
      Counts(Sub64(raw, other.raw), Sub64(enabled, other.enabled), Sub64(running, other.running))
    }

    function Plus(other: Counts): Counts {
      Counts(Add64(raw, other.raw), Add64(enabled, other.enabled), Add64(running, other.running))
    }
  }

  const ZERO := Counts(0, 0, 0)

  datatype Double = Finite(value: real) | Infinite

  datatype Sample = Sample(value: real, scaling: Double, enabled: bool)

  datatype Mode = Relative | Aggregated

  datatype Outcome =
    | Sampled(sample: Sample)
    | RanLongerThanEnabled                  // the two exceptions
    | UnexpectedValue

  /** The current counts and those of the last relative sample. */
  datatype Event = Event(count: Counts, prev: Counts)

  /** What a sample is made from: the counts, or in relative mode their increase. */
  function Basis(e: Event, mode: Mode): Counts {
    if mode.Relative? then e.count.Minus(e.prev) else e.count
  }

  function MakeSample(d: Counts): Sample {
    if d.running == 0 then Sample(0.0, Finite(0.0), d.enabled > 0)
    else if d.enabled == 0 then Sample(0.0, Infinite, true)
    else
      var scaling := d.running as real / d.enabled as real;
      Sample(d.raw as real / scaling, Finite(scaling), true)
  }

  function Scale(e: Event, mode: Mode): (Event, Outcome) {
    if e.count.running > e.count.enabled then (e, RanLongerThanEnabled)
    else if e.count.running == 0 && e.count.raw != e.prev.raw then (e, UnexpectedValue)
    else (if mode.Relative? then e.(prev := e.count) else e, Sampled(MakeSample(Basis(e, mode))))
  }

  // ----- What one sample says -----

  /** The raw counts can be had back from the sample. */
  predicate Recovers(sample: Sample, raw: u64) {
    sample.scaling.Finite? && sample.value * sample.scaling.value == raw as real
  }

  lemma DivideBack(raw: real, running: real, enabled: real)
    requires raw >= 0.0 && running > 0.0 && enabled > 0.0
    ensures running / enabled > 0.0
    ensures raw / (running / enabled) * (running / enabled) == raw
    ensures running <= enabled ==> running / enabled <= 1.0 && raw / (running / enabled) >= raw
    ensures running > enabled ==> running / enabled > 1.0
  {
    var scaling := running / enabled;
    assert scaling * enabled == running;
    var value := raw / scaling;
    assert value * scaling == raw;
    if running <= enabled {
      assert scaling <= 1.0;
      assert value * (1.0 - scaling) >= 0.0;
    }
  }

  lemma MadeSampleIsSound(d: Counts)
    ensures var sample := MakeSample(d);
            && ((sample.scaling.Finite? && 0.0 <= sample.scaling.value <= 1.0) <==> d.running <= d.enabled)
            && (Recovers(sample, d.raw) <==> if d.running == 0 then d.raw == 0 else d.enabled > 0)
            && (0 < d.running <= d.enabled ==> sample.value >= d.raw as real)
  {
    if d.running > 0 && d.enabled > 0 {
      DivideBack(d.raw as real, d.running as real, d.enabled as real);
    }
  }

  /** What the two exceptions leave: a running time within the enabled time, and, unless the
      event ran at all, the raw count of the last relative sample. */
  predicate Plausible(e: Event) {
    e.count.running <= e.count.enabled && (e.count.running == 0 ==> e.count.raw == e.prev.raw)
  }

  predicate ScaledWithinOne(outcome: Outcome) {
    outcome.Sampled? && outcome.sample.scaling.Finite? && 0.0 <= outcome.sample.scaling.value <= 1.0
  }

  /** The sample of an event that counted `raw` while it was running for `running` of the time
      `enabled`: the scaling is the share of the time it ran, and the value is the count scaled
      up to the whole time. */
  predicate IsScaled(sample: Sample, raw: int, enabled: int, running: int) {
    if running == 0 then sample == Sample(0.0, Finite(0.0), enabled > 0)
    else if enabled == 0 then sample == Sample(0.0, Infinite, true)
    else
      && sample.enabled && sample.scaling.Finite?
      && sample.scaling.value * enabled as real == running as real
      && sample.value * running as real == raw as real * enabled as real
  }

  lemma CrossMultiply(raw: real, running: real, enabled: real)
    requires running > 0.0 && enabled > 0.0
    ensures running / enabled > 0.0 && running / enabled * enabled == running
    ensures raw / (running / enabled) * running == raw * enabled
  {
    var scaling := running / enabled;
    var value := raw / scaling;
    assert scaling * enabled == running && value * scaling == raw;
    assert value * running == value * (scaling * enabled) == value * scaling * enabled;
  }

  lemma MadeSampleIsScaled(d: Counts)
    ensures IsScaled(MakeSample(d), d.raw, d.enabled, d.running)
  {
    if d.running > 0 && d.enabled > 0 {
      CrossMultiply(d.raw as real, d.running as real, d.enabled as real);
    }
  }

  /** The increase modulo 2^64. */
  function Increase(before: int, now: int): int { (now - before) % WRAP }

  /** A relative call scales the increases since the last one, modulo 2^64, and makes the counts
      the next to start from; when it throws the event is as before. */
  lemma RelativeSampleIsScaled(e: Event)
    ensures Scale(e, Relative) ==
            (if e.count.running > e.count.enabled then (e, RanLongerThanEnabled)
             else if !Plausible(e) then (e, UnexpectedValue)
             else (Event(e.count, e.count), Scale(e, Relative).1))
    ensures Plausible(e) ==> Scale(e, Relative).1.Sampled?
    ensures Plausible(e) ==>
              IsScaled(Scale(e, Relative).1.sample, Increase(e.prev.raw, e.count.raw),
                       Increase(e.prev.enabled, e.count.enabled), Increase(e.prev.running, e.count.running))
  {
    SubIsIncrease(e.prev.raw, e.count.raw);
    SubIsIncrease(e.prev.enabled, e.count.enabled);
    SubIsIncrease(e.prev.running, e.count.running);
    MadeSampleIsScaled(Basis(e, Relative));
  }

  lemma SubIsIncrease(before: u64, now: u64)
    ensures Sub64(now, before) == Increase(before, now)
    ensures before <= now ==> Increase(before, now) == now - before
  {
  }

  /** Without a wrap these are the differences. */
  lemma AdvancingSampleIsScaled(e: Event)
    requires Plausible(e) && e.prev.raw <= e.count.raw
    requires e.prev.enabled <= e.count.enabled && e.prev.running <= e.count.running
    ensures Scale(e, Relative).1.Sampled?
    ensures IsScaled(Scale(e, Relative).1.sample, e.count.raw - e.prev.raw,
                     e.count.enabled - e.prev.enabled, e.count.running - e.prev.running)
  {
    RelativeSampleIsScaled(e);
    SubIsIncrease(e.prev.raw, e.count.raw);
    SubIsIncrease(e.prev.enabled, e.count.enabled);
    SubIsIncrease(e.prev.running, e.count.running);
  }

  /** An aggregated call scales the counts themselves, and leaves the event alone. */
  lemma AggregatedSampleIsScaled(e: Event)
    ensures Scale(e, Aggregated) ==
            (e, if e.count.running > e.count.enabled then RanLongerThanEnabled
                else if !Plausible(e) then UnexpectedValue else Scale(e, Aggregated).1)
    ensures Plausible(e) ==> Scale(e, Aggregated).1.Sampled?
    ensures Plausible(e) ==>
              IsScaled(Scale(e, Aggregated).1.sample, e.count.raw, e.count.enabled, e.count.running)
  {
    MadeSampleIsScaled(Basis(e, Aggregated));
  }

  /** A call gives a sample exactly for plausible counts.  The sample has its scaling between 0
      and 1 exactly when moreover the event ran, since the last relative sample or at all, for
      no longer than it was enabled; and the counts can be had back exactly when moreover they
      are zero without a running time, or there is an enabled time. */
  lemma SampleIsSound(e: Event, mode: Mode)
    ensures var outcome, d := Scale(e, mode).1, Basis(e, mode);
            && (outcome.Sampled? <==> Plausible(e))
            && (ScaledWithinOne(outcome) <==> Plausible(e) && d.running <= d.enabled)
            && (outcome.Sampled? && Recovers(outcome.sample, d.raw) <==>
                  Plausible(e) && if d.running == 0 then d.raw == 0 else d.enabled > 0)
            && (outcome.Sampled? && 0 < d.running <= d.enabled ==> outcome.sample.value >= d.raw as real)
  {
    MadeSampleIsSound(Basis(e, mode));
  }

  // ----- Runs of reads and scales -----

  datatype Call = Read(answer: Counts) | ReadFails | ScaleIn(mode: Mode)

  function Step(e: Event, call: Call): Event {
    match call
    case Read(answer) => e.(count := answer)
    case ReadFails => e
    case ScaleIn(mode) => Scale(e, mode).0
  }

  function Run(e: Event, calls: seq<Call>): Event
    decreases |calls|
  {
    if calls == [] then e else Run(Step(e, calls[0]), calls[1..])
  }

  /** Only the totals are compared, not the increases: a new event gets a scaling above 1,
      or an infinite one, although it never ran for longer than it was enabled. */
  lemma ScalingAboveOne(unread: Counts)
    ensures var e := Run(Event(unread, ZERO), [Read(Counts(0, 15, 5)), ScaleIn(Relative), Read(Counts(6, 20, 15))]);
            Scale(e, Relative).1 == Sampled(Sample(3.0, Finite(2.0), true))
    ensures var e := Run(Event(unread, ZERO), [Read(Counts(0, 20, 5)), ScaleIn(Relative), Read(Counts(6, 20, 15))]);
            Scale(e, Relative).1 == Sampled(Sample(0.0, Infinite, true))
  {
    RunOfThree(Event(unread, ZERO), Read(Counts(0, 15, 5)), ScaleIn(Relative), Read(Counts(6, 20, 15)));
    RunOfThree(Event(unread, ZERO), Read(Counts(0, 20, 5)), ScaleIn(Relative), Read(Counts(6, 20, 15)));
  }

  lemma RunOfThree(e: Event, first: Call, second: Call, third: Call)
    ensures Run(e, [first, second, third]) == Step(Step(Step(e, first), second), third)
  {
    var e', e'' := Step(e, first), Step(Step(e, first), second);
    assert [first, second, third][1..] == [second, third] && [second, third][1..] == [third];
    assert Run(e', [second, third]) == Run(e'', [third]);
  }

  /** The counts of an event are those of the last successful read. */
  lemma {:induction false} CountIsLastAnswer(e: Event, calls: seq<Call>, last: nat)
    requires last < |calls| && calls[last].Read?
    requires forall i | last < i < |calls| :: !calls[i].Read?
    ensures Run(e, calls).count == calls[last].answer
    decreases |calls|
  {
    if last > 0 {
      CountIsLastAnswer(Step(e, calls[0]), calls[1..], last - 1);
    } else {
      NoReadNoChange(Step(e, calls[0]), calls[1..]);
    }
  }

  lemma {:induction false} NoReadNoChange(e: Event, calls: seq<Call>)
    requires forall i | 0 <= i < |calls| :: !calls[i].Read?
    ensures Run(e, calls).count == e.count
    decreases |calls|
  {
    if calls != [] {
      NoReadNoChange(Step(e, calls[0]), calls[1..]);
    }
  }

  predicate RelativeSuccess(e: Event, call: Call) {
    call.ScaleIn? && call.mode.Relative? && Scale(e, call.mode).1.Sampled?
  }

  /** The increases that the successful relative calls were made from, added up. */
  function TotalIncrease(e: Event, calls: seq<Call>): Counts
    decreases |calls|
  {
    if calls == [] then ZERO
    else
      (if RelativeSuccess(e, calls[0]) then Basis(e, Relative) else ZERO)
      .Plus(TotalIncrease(Step(e, calls[0]), calls[1..]))
  }

  lemma AddUp(a: u64, b: u64, c: u64)
    ensures Add64(Sub64(b, a), Sub64(c, b)) == Sub64(c, a)
    ensures Add64(0, a) == a
  {
  }

  /** Nothing is lost or counted twice: over any run, in any mix of modes and with any failing
      calls, the increases add up to what separates the first `prev` from the last. */
  lemma {:induction false} IncreasesAddUp(e: Event, calls: seq<Call>)
    ensures TotalIncrease(e, calls) == Run(e, calls).prev.Minus(e.prev)
    decreases |calls|
  {
    if calls != [] {
      var e' := Step(e, calls[0]);
      var last := Run(e, calls).prev;
      IncreasesAddUp(e', calls[1..]);
      AddUp(e.prev.raw, e'.prev.raw, last.raw);
      AddUp(e.prev.enabled, e'.prev.enabled, last.enabled);
      AddUp(e.prev.running, e'.prev.running, last.running);
    }
  }

  /** From a new event the increases add up to `prev` itself. */
  lemma NewEventAddsUp(count: Counts, calls: seq<Call>)
    ensures TotalIncrease(Event(count, ZERO), calls) == Run(Event(count, ZERO), calls).prev
  {
    IncreasesAddUp(Event(count, ZERO), calls);
  }

  // ----- True counts -----

  /** The raw count as it would be without a bound: when last read, and at the last successful
      relative sample. */
  datatype Truth = Truth(now: nat, last: nat)

  predicate Represents(e: Event, truth: Truth) {
    e.count.raw == truth.now % WRAP && e.prev.raw == truth.last % WRAP
  }

  /** The true counts after a run in which the count stood at totals[i] at the i-th call. */
  function TruthAfter(e: Event, truth: Truth, calls: seq<Call>, totals: seq<nat>): Truth
    requires |totals| == |calls|
    decreases |calls|
  {
    if calls == [] then truth else
      var truth' := if calls[0].Read? then truth.(now := totals[0])
                    else if RelativeSuccess(e, calls[0]) then truth.(last := truth.now) else truth;
      TruthAfter(Step(e, calls[0]), truth', calls[1..], totals[1..])
  }

  /** The count never falls, and every answer is the count modulo 2^64. */
  predicate Counting(now: nat, calls: seq<Call>, totals: seq<nat>)
    requires |totals| == |calls|
  {
    && (forall i | 0 <= i < |totals| :: now <= totals[i])
    && (forall i, j | 0 <= i < j < |totals| :: totals[i] <= totals[j])
    && (forall i | 0 <= i < |calls| && calls[i].Read? :: calls[i].answer.raw == totals[i] % WRAP)
  }

  /** The difference is the true increase, also when the count wrapped, exactly if that is
      below 2^64. */
  lemma IncreaseIsTrue(before: nat, now: nat)
    requires before <= now
    ensures Sub64(now % WRAP, before % WRAP) == now - before <==> now - before < WRAP
  {
    var a, b := now / WRAP, before / WRAP;
    assert now == a * WRAP + now % WRAP && before == b * WRAP + before % WRAP;
  }

  lemma {:induction false} RunRepresentsTruth(e: Event, truth: Truth, calls: seq<Call>, totals: seq<nat>)
    requires |totals| == |calls| && Counting(truth.now, calls, totals)
    requires Represents(e, truth) && truth.last <= truth.now
    ensures var after := TruthAfter(e, truth, calls, totals);
            Represents(Run(e, calls), after) && after.last <= after.now
    decreases |calls|
  {
    if calls != [] {
      var truth' := if calls[0].Read? then truth.(now := totals[0])
                    else if RelativeSuccess(e, calls[0]) then truth.(last := truth.now) else truth;
      assert Counting(truth'.now, calls[1..], totals[1..]);
      RunRepresentsTruth(Step(e, calls[0]), truth', calls[1..], totals[1..]);
    }
  }

  /** After any run of a new event that begins with a read, a relative sample is made from the
      true increase since the last successful one if and only if that is below 2^64, however
      often the count wrapped before, and in any mix of modes and failing calls. */
  lemma IncreasesAreTrue(unread: Counts, calls: seq<Call>, totals: seq<nat>)
    requires |totals| == |calls| && Counting(0, calls, totals) && calls != [] && calls[0].Read?
    ensures var e := Run(Event(unread, ZERO), calls);
            var truth := TruthAfter(Event(unread, ZERO), Truth(0, 0), calls, totals);
            && truth.last <= truth.now
            && (Basis(e, Relative).raw == truth.now - truth.last <==> truth.now - truth.last < WRAP)
  {
    var e, truth := Event(calls[0].answer, ZERO), Truth(totals[0], 0);
    assert Counting(totals[0], calls[1..], totals[1..]);
    RunRepresentsTruth(e, truth, calls[1..], totals[1..]);
    var after := TruthAfter(e, truth, calls[1..], totals[1..]);
    IncreaseIsTrue(after.last, after.now);
  }

  function RelativeOutcomes(e: Event, calls: seq<Call>): seq<Outcome>
    decreases |calls|
  {
    if calls == [] then []
    else
      (if calls[0].ScaleIn? && calls[0].mode.Relative? then [Scale(e, Relative).1] else [])
      + RelativeOutcomes(Step(e, calls[0]), calls[1..])
  }

  function WithoutAggregated(calls: seq<Call>): seq<Call> {
    if calls == [] then []
    else (if calls[0] == ScaleIn(Aggregated) then [] else [calls[0]]) + WithoutAggregated(calls[1..])
  }

  /** Aggregated calls leave no trace in the relative samples, nor in the event. */
  lemma {:induction false} AggregatedCallsDoNotMatter(e: Event, calls: seq<Call>)
    ensures RelativeOutcomes(e, WithoutAggregated(calls)) == RelativeOutcomes(e, calls)
    ensures Run(e, WithoutAggregated(calls)) == Run(e, calls)
    decreases |calls|
  {
    if calls != [] {
      var kept, rest := WithoutAggregated(calls), WithoutAggregated(calls[1..]);
      AggregatedCallsDoNotMatter(Step(e, calls[0]), calls[1..]);
      if calls[0] == ScaleIn(Aggregated) {
        assert kept == rest && Step(e, calls[0]) == e;
      } else {
        assert kept[0] == calls[0] && kept[1..] == rest;
      }
    }
  }

  // ----- Counters that behave -----

  /** The times never run backwards, running advances no faster than enabled, and the raw count
      changes only while running advances. */
  predicate Advances(a: Counts, b: Counts) {
    && a.enabled <= b.enabled && a.running <= b.running
    && b.running - a.running <= b.enabled - a.enabled
    && (a.raw == b.raw || a.running < b.running)
  }

  /** Every answer advances from the one before. */
  predicate AnswersAdvance(last: Counts, calls: seq<Call>)
    decreases |calls|
  {
    calls == [] ||
    if calls[0].Read? then Advances(last, calls[0].answer) && AnswersAdvance(calls[0].answer, calls[1..])
    else AnswersAdvance(last, calls[1..])
  }

  /** What a sample of the given increases has to be. */
  predicate Sound(outcome: Outcome, raw: u64, enabled: int, running: int) {
    && ScaledWithinOne(outcome) && IsScaled(outcome.sample, raw, enabled, running)
    && Recovers(outcome.sample, raw) && outcome.sample.value >= raw as real
  }

  /** The counts that a call in the given mode starts from. */
  function Start(e: Event, mode: Mode): Counts {
    if mode.Relative? then e.prev else ZERO
  }

  predicate SoundCall(e: Event, mode: Mode) {
    var start := Start(e, mode);
    Sound(Scale(e, mode).1, Increase(start.raw, e.count.raw),
          e.count.enabled - start.enabled, e.count.running - start.running)
  }

  lemma ScaleIsSound(e: Event, mode: Mode)
    requires Advances(ZERO, e.prev) && Advances(e.prev, e.count)
    ensures SoundCall(e, mode)
  {
    var d, start := Basis(e, mode), Start(e, mode);
    SubIsIncrease(start.raw, e.count.raw);
    SubIsIncrease(start.enabled, e.count.enabled);
    SubIsIncrease(start.running, e.count.running);
    SampleIsSound(e, mode);
    MadeSampleIsScaled(d);
    assert d.running <= d.enabled && (d.running == 0 ==> d.raw == 0);
  }

  /** With counters that behave no call ever throws or divides by zero, and every sample is the
      increase scaled up by a scaling between 0 and 1, which gives it back. */
  lemma {:induction false} EverySampleIsSound(e: Event, calls: seq<Call>, i: nat)
    requires Advances(ZERO, e.prev) && Advances(e.prev, e.count) && AnswersAdvance(e.count, calls)
    requires i < |calls| && calls[i].ScaleIn?
    ensures SoundCall(Run(e, calls[..i]), calls[i].mode)
    decreases i
  {
    if i == 0 {
      ScaleIsSound(e, calls[0].mode);
    } else {
      EverySampleIsSound(Step(e, calls[0]), calls[1..], i - 1);
      assert calls[..i][1..] == calls[1..][..i - 1];
    }
  }

  /** So for a new event, whose counts mean nothing before the first read. */
  lemma EverySampleOfNewEventIsSound(unread: Counts, calls: seq<Call>, i: nat)
    requires calls != [] && calls[0].Read? && AnswersAdvance(ZERO, calls)
    requires i < |calls| && calls[i].ScaleIn?
    ensures SoundCall(Run(Event(unread, ZERO), calls[..i]), calls[i].mode)
  {
    EverySampleIsSound(Event(calls[0].answer, ZERO), calls[1..], i - 1);
    assert calls[..i][1..] == calls[1..][..i - 1];
  }
}
