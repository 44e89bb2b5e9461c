/** RTP timestamps from nanosecond durations (webrtc/track.go, webrtc/media_transport.go): integer tick conversion with a
    carried remainder, for the 32-bit timestamp field of section 5.1 of RFC 3550. */
module RtpTiming {

  import opened Options

  const NANOS: nat := 1_000_000_000
  const U32: nat := 0x1_0000_0000
  const U64: nat := 0x1_0000_0000_0000_0000
  const MAX_DURATION: nat := 0x7fff_ffff_ffff_ffff
  const HALF: nat := 0x8000_0000

  /** The largest clock rate at which no duration overflows the 64-bit products. */
  const SAFE_CLOCK: nat := 2_000_000_000

  function Whole(clock: nat, duration: nat): nat { duration / NANOS * clock % U64 }

  function Fraction(clock: nat, remainder: nat, duration: nat): nat { (duration % NANOS * clock + remainder) % U64 }

  /** durationToTicks, with its 64-bit products: the ticks and the new remainder. */
  function Convert(clock: nat, remainder: nat, duration: nat): (nat, nat) {
    var whole, fraction := Whole(clock, duration), Fraction(clock, remainder, duration);
    if whole >= U32 - 1 then (U32 - 1, 0)
    else if whole + fraction / NANOS > U32 - 1 then (U32 - 1, 0)
    else (whole + fraction / NANOS, fraction % NANOS)
  }

  class TrackBinding {
    var remainder: nat

    constructor ()
      ensures remainder == 0
    {
      remainder := 0;
    }

    method DurationToTicks(clock: nat, duration: nat) returns (ticks: nat)
      requires duration <= MAX_DURATION && clock < U32
      modifies this
      ensures (ticks, remainder) == Convert(clock, old(remainder), duration)
    {
      var maxTicks := U32 - 1;
      var seconds, nanoseconds := duration / NANOS, duration % NANOS;
      var wholeTicks := seconds * clock % U64;
      if wholeTicks >= maxTicks {
        remainder := 0;
        return maxTicks;
      }
      var fractional := (nanoseconds * clock + remainder) % U64;
      ticks := wholeTicks + fractional / NANOS;
      remainder := fractional % NANOS;
      if ticks > maxTicks {
        remainder := 0;
        return maxTicks;
      }
    }
  }

  // ---- overflow

  ghost predicate Overflows(clock: nat, remainder: nat, duration: nat) {
    duration / NANOS * clock >= U64 || duration % NANOS * clock + remainder >= U64
  }

  lemma Multiply(a: nat, b: nat, c: nat, d: nat)
    requires a <= b && c <= d
    ensures a * c <= b * d
  {
  }

  /** No 64-bit step overflows, for any duration and remainder, exactly up to the safe clock rate. */
  lemma OverflowBound(clock: nat)
    requires clock < U32
    ensures (forall d: nat, r: nat | d <= MAX_DURATION && r < NANOS :: !Overflows(clock, r, d)) <==> clock <= SAFE_CLOCK
  {
    if clock <= SAFE_CLOCK {
      forall d: nat, r: nat | d <= MAX_DURATION && r < NANOS ensures !Overflows(clock, r, d) {
        Multiply(d / NANOS, MAX_DURATION / NANOS, clock, SAFE_CLOCK);
        Multiply(d % NANOS, NANOS, clock, SAFE_CLOCK);
      }
    } else {
      var d := 9_223_372_036 * NANOS;
      assert d / NANOS == 9_223_372_036 && d <= MAX_DURATION;
      Multiply(9_223_372_036, d / NANOS, SAFE_CLOCK + 1, clock);
      assert Overflows(clock, 0, d);
    }
  }

  // ---- exactness

  lemma SplitDuration(clock: nat, duration: nat)
    ensures duration * clock == duration / NANOS * clock * NANOS + duration % NANOS * clock
  {
  }

  lemma DivideSum(a: nat, b: nat)
    ensures (a * NANOS + b) / NANOS == a + b / NANOS && (a * NANOS + b) % NANOS == b % NANOS
  {
  }

  /** Without overflow a conversion is exact up to saturation: ticks and remainder together carry every nanosecond. */
  lemma ConvertIsExact(clock: nat, remainder: nat, duration: nat)
    requires remainder < NANOS && !Overflows(clock, remainder, duration)
    ensures var n := duration * clock + remainder;
      if duration / NANOS * clock < U32 - 1 && n / NANOS <= U32 - 1
      then Convert(clock, remainder, duration) == (n / NANOS, n % NANOS)
      else Convert(clock, remainder, duration) == (U32 - 1, 0) && n / NANOS >= U32 - 1
  {
    var whole, fraction := duration / NANOS * clock, duration % NANOS * clock + remainder;
    SplitDuration(clock, duration);
    DivideSum(whole, fraction);
    assert Whole(clock, duration) == whole && Fraction(clock, remainder, duration) == fraction;
  }

  /** At any 32-bit clock rate only the whole seconds can overflow, and then the conversion would saturate. */
  lemma UnsaturatedIsSafe(clock: nat, remainder: nat, duration: nat)
    requires clock < U32 && remainder < NANOS && duration / NANOS * clock < U64
    ensures !Overflows(clock, remainder, duration)
  {
    Multiply(duration % NANOS, NANOS, clock, U32);
  }

  lemma ConvertConserves(clock: nat, remainder: nat, duration: nat)
    requires clock < U32 && remainder < NANOS && Unsaturated(clock, remainder, duration)
    ensures var (ticks, r) := Convert(clock, remainder, duration);
      ticks * NANOS + r == duration * clock + remainder && r < NANOS
  {
    UnsaturatedIsSafe(clock, remainder, duration);
    ConvertIsExact(clock, remainder, duration);
  }

  /** The total ticks of a sequence of durations on one binding, and the remainder left. */
  function ConvertAll(clock: nat, remainder: nat, durations: seq<nat>): (nat, nat) {
    if durations == [] then (0, remainder)
    else
      var (total, r) := ConvertAll(clock, remainder, durations[..|durations| - 1]);
      var (ticks, r') := Convert(clock, r, durations[|durations| - 1]);
      (total + ticks, r')
  }

  function Sum(durations: seq<nat>): nat {
    if durations == [] then 0 else Sum(durations[..|durations| - 1]) + durations[|durations| - 1]
  }

  /** The conversion keeps the remainder: it does not saturate. */
  ghost predicate Unsaturated(clock: nat, remainder: nat, duration: nat) {
    duration / NANOS * clock < U32 - 1 && (duration * clock + remainder) / NANOS <= U32 - 1
  }

  ghost predicate AllUnsaturated(clock: nat, remainder: nat, durations: seq<nat>) {
    forall i | 0 <= i < |durations| ::
      Unsaturated(clock, ConvertAll(clock, remainder, durations[..i]).1, durations[i])
  }

  lemma Distribute(a: nat, b: nat, c: nat)
    ensures (a + b) * c == a * c + b * c
  {
  }

  /** Nothing is lost over any sequence of durations: ticks emitted, in nanosecond units, and the remainder add up to the
      total time; and the remainder stays below one tick. */
  lemma {:induction false} NothingIsLost(clock: nat, remainder: nat, durations: seq<nat>)
    requires clock < U32 && remainder < NANOS && AllUnsaturated(clock, remainder, durations)
    ensures var (total, r) := ConvertAll(clock, remainder, durations);
      total * NANOS + r == Sum(durations) * clock + remainder && r < NANOS
  {
    hide Convert, Unsaturated;
    if durations != [] {
      var n := |durations| - 1;
      var front, last := durations[..n], durations[n];
      assert forall i | 0 <= i < n :: front[..i] == durations[..i];
      NothingIsLost(clock, remainder, front);
      var (total, r) := ConvertAll(clock, remainder, front);
      ConvertConserves(clock, r, last);
      hide AllUnsaturated, ConvertAll, Sum;
      AddsUp(clock, Sum(front), last, total, Convert(clock, r, last).0);
    }
  }

  lemma AddsUp(clock: nat, before: nat, last: nat, total: nat, ticks: nat)
    ensures (before + last) * clock == before * clock + last * clock && (total + ticks) * NANOS == total * NANOS + ticks * NANOS
  {
    Distribute(before, last, clock);
  }

  // ---- the video writer

  function MinimumTick(clock: nat): nat
    requires clock > 0
  {
    (NANOS + clock - 1) / clock
  }

  function MaximumGap(clock: nat): nat
    requires clock > 0
  {
    (U32 - 1) / 2 * NANOS / clock
  }

  /** positiveDiscontinuityDuration */
  function Positive(duration: int, clock: nat): nat
    requires clock > 0
  {
    if duration > 0 then duration else MinimumTick(clock)
  }

  /** A gap in production time that is neither backwards nor too long. */
  predicate Continuous(gap: int, clock: nat)
    requires clock > 0
  {
    0 < gap <= MaximumGap(clock)
  }

  /** The timestamp advance for a sample `gap` nanoseconds after the previous one, whose own duration is `duration`. */
  function Advance(gap: int, duration: int, clock: nat): nat
    requires clock > 0
  {
    if !Continuous(gap, clock) then Positive(duration, clock)
    else if gap < MinimumTick(clock) then MinimumTick(clock)
    else gap
  }

  lemma DivideBounds(a: nat, b: nat)
    requires b > 0
    ensures a / b * b <= a < (a / b + 1) * b
  {
  }

  /** One tick takes at least the minimum tick, and the maximum gap stays below half the timestamp range. */
  lemma TickBounds(clock: nat)
    requires 0 < clock < U32
    ensures NANOS <= MinimumTick(clock) * clock && (MinimumTick(clock) - 1) * clock < NANOS
    ensures MaximumGap(clock) * clock <= (HALF - 1) * NANOS < (MaximumGap(clock) + 1) * clock
    ensures 1 <= MinimumTick(clock) <= MaximumGap(clock) <= MAX_DURATION
  {
  }

  /** The advance is long enough for a tick and short enough to read as forward. */
  predicate InRange(advance: nat, clock: nat)
    requires clock > 0
  {
    MinimumTick(clock) <= advance <= MaximumGap(clock)
  }

  /** An advance in range moves the timestamp by at least one tick and less than half its range. */
  lemma RangeAdvances(clock: nat, remainder: nat, advance: nat)
    requires 0 < clock < U32 && remainder < NANOS && InRange(advance, clock)
    ensures Unsaturated(clock, remainder, advance)
    ensures 1 <= Convert(clock, remainder, advance).0 < HALF
  {
    TickBounds(clock);
    Multiply(MinimumTick(clock), advance, clock, clock);
    Multiply(advance, MaximumGap(clock), clock, clock);
    SplitDuration(clock, advance);
    UnsaturatedIsSafe(clock, remainder, advance);
    ConvertIsExact(clock, remainder, advance);
    var n := advance * clock + remainder;
    assert NANOS <= n < HALF * NANOS;
    DivideBounds(n, NANOS);
    assert advance / NANOS * clock * NANOS <= n;
  }

  lemma ShortConvertsToNothing(clock: nat, duration: nat)
    requires 0 < clock < U32 && duration < MinimumTick(clock)
    ensures Convert(clock, 0, duration).0 == 0
  {
    TickBounds(clock);
    Multiply(duration, MinimumTick(clock) - 1, clock, clock);
    SplitDuration(clock, duration);
    UnsaturatedIsSafe(clock, 0, duration);
    ConvertIsExact(clock, 0, duration);
  }

  /** The shortest duration that moves the timestamp at every remainder: alone it makes a tick, and nothing shorter does. */
  ghost predicate Shortest(duration: nat, clock: nat) {
    && (forall r: nat | r < NANOS :: Convert(clock, r, duration).0 >= 1)
    && (forall d: nat | d < duration :: Convert(clock, 0, d).0 == 0)
  }

  lemma MinimumIsShortest(clock: nat)
    requires 0 < clock < U32
    ensures Shortest(MinimumTick(clock), clock)
  {
    TickBounds(clock);
    forall r: nat | r < NANOS ensures Convert(clock, r, MinimumTick(clock)).0 >= 1 {
      RangeAdvances(clock, r, MinimumTick(clock));
    }
    forall d: nat | d < MinimumTick(clock) ensures Convert(clock, 0, d).0 == 0 {
      ShortConvertsToNothing(clock, d);
    }
  }

  /** A sample without a positive duration advances by the shortest time that moves the timestamp; any other by its own. */
  lemma PositiveIsShortest(clock: nat, duration: int)
    requires 0 < clock < U32
    ensures if duration <= 0 then Shortest(Positive(duration, clock), clock) else Positive(duration, clock) == duration
  {
    hide Convert, Shortest, MinimumTick, MaximumGap;
    MinimumIsShortest(clock);
  }

  /** The longest gap keeps the step below half the timestamp range at every remainder, and any longer one does not. */
  lemma MaximumIsLongest(clock: nat)
    requires 0 < clock < U32
    ensures forall r: nat | r < NANOS :: Convert(clock, r, MaximumGap(clock)).0 < HALF
    ensures Convert(clock, NANOS - 1, MaximumGap(clock) + 1).0 >= HALF
  {
    TickBounds(clock);
    var gap := MaximumGap(clock);
    forall r: nat | r < NANOS ensures Convert(clock, r, gap).0 < HALF {
      RangeAdvances(clock, r, gap);
    }
    OneMoreFits(clock, gap);
    hide MaximumGap, Convert;
    LongStepsOverrun(clock, gap + 1);
  }

  lemma OneMoreFits(clock: nat, gap: nat)
    requires clock < U32 && gap * clock <= HALF * NANOS
    ensures (gap + 1) / NANOS * clock < U64
  {
    Distribute(gap, 1, clock);
    WholeIsBelow(clock, gap + 1);
    FewSeconds((gap + 1) / NANOS * clock, (gap + 1) * clock);
  }

  lemma WholeIsBelow(clock: nat, duration: nat)
    ensures duration / NANOS * clock * NANOS <= duration * clock
  {
    SplitDuration(clock, duration);
    Multiply(0, duration % NANOS, 0, clock);
  }

  lemma FewSeconds(whole: nat, product: nat)
    requires whole * NANOS <= product <= HALF * NANOS + U32
    ensures whole < U64
  {
  }

  lemma LongStepsOverrun(clock: nat, duration: nat)
    requires 0 < clock < U32 && MaximumGap(clock) < duration && duration / NANOS * clock < U64
    ensures Convert(clock, NANOS - 1, duration).0 >= HALF
  {
    TickBounds(clock);
    Multiply(MaximumGap(clock) + 1, duration, clock, clock);
    UnsaturatedIsSafe(clock, NANOS - 1, duration);
    ConvertIsExact(clock, NANOS - 1, duration);
    var n := duration * clock + (NANOS - 1);
    assert n >= HALF * NANOS;
    DivideBounds(n, NANOS);
  }

  /** At a discontinuity the sample's own duration decides: unless its seconds overflow, every remainder gives a forward
      step exactly when that duration is not positive or lies between one tick and the maximum gap. */
  lemma DiscontinuityAdvances(clock: nat, duration: int)
    requires 0 < clock < U32 && (duration > 0 ==> duration / NANOS * clock < U64)
    ensures (forall r: nat | r < NANOS :: 1 <= Convert(clock, r, Positive(duration, clock)).0 < HALF) <==>
            duration <= 0 || InRange(duration, clock)
  {
    TickBounds(clock);
    var advance := Positive(duration, clock);
    if duration <= 0 || InRange(duration, clock) {
      forall r: nat | r < NANOS ensures 1 <= Convert(clock, r, advance).0 < HALF {
        RangeAdvances(clock, r, advance);
      }
    } else if duration < MinimumTick(clock) {
      ShortConvertsToNothing(clock, advance);
    } else {
      LongStepsOverrun(clock, advance);
    }
  }

  // ---- runs of the writer

  datatype Sample = Sample(producedAt: int, duration: int)

  /** `timestamp` is the packetizer's field, `ticks` the running total and `advanced` the nanoseconds asked for. */
  datatype Writer = Writer(previous: Option<int>, remainder: nat, ticks: nat, timestamp: nat, advanced: nat)

  function Start(timestamp: nat): Writer { Writer(None, 0, 0, timestamp, 0) }

  function AdvanceFor(w: Writer, clock: nat, s: Sample): nat
    requires clock > 0
  {
    if w.previous.None? then 0 else Advance(s.producedAt - w.previous.value, s.duration, clock)
  }

  function Write(w: Writer, clock: nat, s: Sample): Writer
    requires clock > 0
  {
    var advance := AdvanceFor(w, clock, s);
    var (ticks, remainder) := Convert(clock, w.remainder, advance);
    Writer(Some(s.producedAt), remainder, w.ticks + ticks, (w.timestamp + ticks) % U32, w.advanced + advance)
  }

  function WriteAll(w: Writer, clock: nat, samples: seq<Sample>): Writer
    requires clock > 0
  {
    if samples == [] then w else Write(WriteAll(w, clock, samples[..|samples| - 1]), clock, samples[|samples| - 1])
  }

  /** The elapsed RTP time the writer reports. */
  function Elapsed(ticks: nat, clock: nat): nat
    requires clock > 0
  {
    ticks / clock * NANOS + ticks % clock * NANOS / clock
  }

  class VideoWriter {
    const clock: nat
    var previous: Option<int>
    var remainder: nat
    var ticks: nat
    var timestamp: nat
    ghost var advanced: nat

    ghost function View(): Writer
      reads this
    {
      Writer(previous, remainder, ticks, timestamp, advanced)
    }

    constructor (clock: nat, timestamp: nat)
      ensures this.clock == clock && View() == Start(timestamp)
    {
      this.clock, this.timestamp := clock, timestamp;
      previous, remainder, ticks, advanced := None, 0, 0, 0;
    }

    method WriteSample(s: Sample) returns (elapsed: nat)
      requires 0 < clock
      modifies this
      ensures View() == Write(old(View()), clock, s) && elapsed == Elapsed(ticks, clock)
    {
      hide Convert;
      var advance := 0;
      if previous.Some? {
        advance := s.producedAt - previous.value;
        var minimumTick, maximumGap := MinimumTick(clock), MaximumGap(clock);
        if advance <= 0 || advance > maximumGap {
          advance := Positive(s.duration, clock);
        } else if advance < minimumTick {
          advance := minimumTick;
        }
      }
      var step: (nat, nat) := Convert(clock, remainder, advance);
      remainder, timestamp, ticks := step.1, (timestamp + step.0) % U32, ticks + step.0;
      previous := Some(s.producedAt);
      advanced := advanced + advance;
      elapsed := ticks / clock * NANOS + ticks % clock * NANOS / clock;
    }
  }

  /** Every discontinuity in the run has a duration that moves the timestamp forward. */
  ghost predicate Steady(samples: seq<Sample>, clock: nat)
    requires clock > 0
  {
    forall i | 0 < i < |samples| ::
      Continuous(samples[i].producedAt - samples[i - 1].producedAt, clock) ||
      samples[i].duration <= 0 || InRange(samples[i].duration, clock)
  }

  lemma AdvanceInRange(gap: int, duration: int, clock: nat)
    requires 0 < clock < U32
    requires Continuous(gap, clock) || duration <= 0 || InRange(duration, clock)
    ensures InRange(Advance(gap, duration, clock), clock)
  {
    TickBounds(clock);
  }

  ghost predicate Exact(w: Writer, clock: nat) {
    w.remainder < NANOS && w.ticks * NANOS + w.remainder == w.advanced * clock
  }

  /** Over every steady run, each sample after the first moves the timestamp forward: by at least one tick and less than
      half the 32-bit range; and ticks and remainder account for every nanosecond asked for. */
  lemma {:induction false} TimestampsMoveForward(clock: nat, timestamp: nat, samples: seq<Sample>)
    requires 0 < clock < U32 && timestamp < U32 && Steady(samples, clock)
    ensures var w := WriteAll(Start(timestamp), clock, samples);
      && Exact(w, clock) && w.timestamp < U32
      && (samples != [] ==> w.previous == Some(samples[|samples| - 1].producedAt))
    ensures |samples| > 1 ==>
      var before := WriteAll(Start(timestamp), clock, samples[..|samples| - 1]).timestamp;
      1 <= (WriteAll(Start(timestamp), clock, samples).timestamp - before) % U32 < HALF
  {
    hide Convert, Advance, InRange, Continuous;
    if samples != [] {
      var n := |samples| - 1;
      var front, last := samples[..n], samples[n];
      TimestampsMoveForward(clock, timestamp, front);
      var w := WriteAll(Start(timestamp), clock, front);
      var advance := AdvanceFor(w, clock, last);
      if n == 0 {
        FirstIsZero(clock);
      } else {
        assert w.previous == Some(samples[n - 1].producedAt);
        AdvanceInRange(last.producedAt - samples[n - 1].producedAt, last.duration, clock);
        OneStep(w, clock, last, advance);
      }
    }
  }

  lemma FirstIsZero(clock: nat)
    requires 0 < clock < U32
    ensures Convert(clock, 0, 0) == (0, 0)
  {
  }

  lemma OneStep(w: Writer, clock: nat, s: Sample, advance: nat)
    requires 0 < clock < U32 && Exact(w, clock) && w.timestamp < U32
    requires advance == AdvanceFor(w, clock, s) && InRange(advance, clock)
    ensures Exact(Write(w, clock, s), clock)
    ensures 1 <= (Write(w, clock, s).timestamp - w.timestamp) % U32 < HALF
  {
    TickBounds(clock);
    RangeAdvances(clock, w.remainder, advance);
    hide *;
    ConvertConserves(clock, w.remainder, advance);
    StepIsExact(w, clock, s, advance);
    StepMoves(w, clock, s, advance);
  }

  lemma StepIsExact(w: Writer, clock: nat, s: Sample, advance: nat)
    requires 0 < clock && Exact(w, clock) && advance == AdvanceFor(w, clock, s)
    requires var (ticks, r) := Convert(clock, w.remainder, advance);
      ticks * NANOS + r == advance * clock + w.remainder && r < NANOS
    ensures Exact(Write(w, clock, s), clock)
  {
    hide AdvanceFor, Convert;
    Distribute(w.ticks, Convert(clock, w.remainder, advance).0, NANOS);
    Distribute(w.advanced, advance, clock);
  }

  lemma StepMoves(w: Writer, clock: nat, s: Sample, advance: nat)
    requires 0 < clock && w.timestamp < U32 && advance == AdvanceFor(w, clock, s)
    requires 1 <= Convert(clock, w.remainder, advance).0 < HALF
    ensures 1 <= (Write(w, clock, s).timestamp - w.timestamp) % U32 < HALF
  {
    hide AdvanceFor, Convert;
  }

  /** What one sample adds to the time accounted for: its gap, unless that is too short for a tick; at a discontinuity its own
      duration; and where these do not move the timestamp, the shortest time that does. */
  ghost predicate Adds(added: int, gap: int, duration: int, clock: nat)
    requires clock > 0
  {
    if Continuous(gap, clock) && Convert(clock, 0, gap).0 >= 1 then added == gap
    else if !Continuous(gap, clock) && duration > 0 then added == duration
    else added >= 0 && Shortest(added, clock)
  }

  lemma AdvanceAdds(gap: int, duration: int, clock: nat)
    requires 0 < clock < U32
    ensures Adds(Advance(gap, duration, clock), gap, duration, clock)
  {
    if Continuous(gap, clock) { ShortGapMakesNoTick(gap, clock); }
    hide Convert, MinimumTick, MaximumGap, Shortest, Continuous, Positive;
    MinimumIsShortest(clock);
    PositiveIsShortest(clock, duration);
  }

  lemma ShortGapMakesNoTick(gap: nat, clock: nat)
    requires 0 < clock < U32 && Continuous(gap, clock)
    ensures Convert(clock, 0, gap).0 >= 1 <==> MinimumTick(clock) <= gap
  {
    if gap < MinimumTick(clock) {
      ShortConvertsToNothing(clock, gap);
    } else {
      RangeAdvances(clock, 0, gap);
    }
  }

  lemma TicksFollow(w: Writer, v: Writer, clock: nat)
    requires Exact(w, clock) && Exact(v, clock)
    ensures TicksMatch(v.ticks - w.ticks, v.advanced - w.advanced, clock)
  {
    assert (v.ticks - w.ticks) * NANOS == v.ticks * NANOS - w.ticks * NANOS;
    assert (v.advanced - w.advanced) * clock == v.advanced * clock - w.advanced * clock;
  }

  /** The ticks are less than one away from the time. */
  ghost predicate TicksMatch(ticks: int, time: int, clock: nat) {
    time * clock < (ticks + 1) * NANOS && (ticks - 1) * NANOS < time * clock
  }

  /** In every steady run each sample after the first adds exactly that time, and its ticks are within one of it. */
  lemma EachSampleAddsItsTime(clock: nat, timestamp: nat, samples: seq<Sample>)
    requires 0 < clock < U32 && timestamp < U32 && |samples| > 1 && Steady(samples, clock)
    ensures var n := |samples| - 1;
      var w, v := WriteAll(Start(timestamp), clock, samples[..n]), WriteAll(Start(timestamp), clock, samples);
      && Adds(v.advanced - w.advanced, samples[n].producedAt - samples[n - 1].producedAt, samples[n].duration, clock)
      && TicksMatch(v.ticks - w.ticks, v.advanced - w.advanced, clock)
  {
    var n := |samples| - 1;
    var w, v := WriteAll(Start(timestamp), clock, samples[..n]), WriteAll(Start(timestamp), clock, samples);
    TimestampsMoveForward(clock, timestamp, samples[..n]);
    TimestampsMoveForward(clock, timestamp, samples);
    AdvanceAdds(samples[n].producedAt - samples[n - 1].producedAt, samples[n].duration, clock);
    hide Adds, Convert, Advance, TicksMatch, Steady;
    TicksFollow(w, v, clock);
    hide Exact;
    assert v == Write(w, clock, samples[n]);
  }

  /** The exception happens: at a discontinuity a positive duration shorter than a tick leaves the timestamp where it is. */
  lemma ShortDurationStalls(clock: nat, timestamp: nat, t: int, d: int)
    requires 0 < clock < U32 && timestamp < U32 && 0 < d < MinimumTick(clock)
    ensures WriteAll(Start(timestamp), clock, [Sample(t, 0), Sample(t, d)]).timestamp == timestamp
  {
    TwoSamples(Start(timestamp), clock, Sample(t, 0), Sample(t, d));
    FirstStaysPut(clock, timestamp, Sample(t, 0));
    ShortConvertsToNothing(clock, d);
    hide Convert, MinimumTick, MaximumGap;
  }

  lemma TwoSamples(w: Writer, clock: nat, a: Sample, b: Sample)
    requires clock > 0
    ensures WriteAll(w, clock, [a, b]) == Write(Write(w, clock, a), clock, b)
  {
    hide Write;
    assert [a, b][..1] == [a] && [a][..0] == [];
    assert WriteAll(w, clock, [a]) == Write(WriteAll(w, clock, []), clock, a);
  }

  lemma FirstStaysPut(clock: nat, timestamp: nat, s: Sample)
    requires 0 < clock < U32 && timestamp < U32
    ensures Write(Start(timestamp), clock, s) == Writer(Some(s.producedAt), 0, 0, timestamp, 0)
  {
    FirstIsZero(clock);
    hide Convert;
  }

  // ---- drift

  lemma ElapsedIsFloor(ticks: nat, clock: nat)
    requires clock > 0
    ensures Elapsed(ticks, clock) * clock <= ticks * NANOS < (Elapsed(ticks, clock) + 1) * clock
  {
  }

  lemma Behind(w: Writer, clock: nat, e: nat)
    requires clock > 0 && Exact(w, clock) && e * clock <= w.ticks * NANOS
    ensures e <= w.advanced
  {
  }

  /** Reported RTP time is never ahead of the time asked for, and never more than one tick and one nanosecond behind. */
  lemma DriftIsBounded(w: Writer, clock: nat)
    requires clock > 0 && Exact(w, clock)
    ensures var e := Elapsed(w.ticks, clock); e <= w.advanced && (w.advanced - e) * clock < NANOS + clock
  {
    var e := Elapsed(w.ticks, clock);
    ElapsedIsFloor(w.ticks, clock);
    Behind(w, clock, e);
    Distribute(w.advanced - e, e, clock);
    Distribute(e, 1, clock);
  }

  /** Each gap between samples is used as it is: no discontinuity and no minimum-tick bump. */
  ghost predicate Regular(samples: seq<Sample>, clock: nat)
    requires clock > 0
  {
    forall i | 0 < i < |samples| ::
      MinimumTick(clock) <= samples[i].producedAt - samples[i - 1].producedAt <= MaximumGap(clock)
  }

  lemma {:induction false} RegularAdvance(clock: nat, timestamp: nat, samples: seq<Sample>)
    requires 0 < clock < U32 && samples != [] && Regular(samples, clock)
    ensures var w := WriteAll(Start(timestamp), clock, samples);
      && w.advanced == samples[|samples| - 1].producedAt - samples[0].producedAt
      && w.previous == Some(samples[|samples| - 1].producedAt)
  {
    hide Convert;
    TickBounds(clock);
    var n := |samples| - 1;
    if n > 0 {
      RegularAdvance(clock, timestamp, samples[..n]);
    }
  }

  /** In a run without discontinuities or bumps, RTP time stays within one tick and one nanosecond of produced time,
      however long the run. */
  lemma ProducedTimeIsKept(clock: nat, timestamp: nat, samples: seq<Sample>)
    requires 0 < clock < U32 && timestamp < U32 && samples != [] && Regular(samples, clock)
    ensures var elapsed := samples[|samples| - 1].producedAt - samples[0].producedAt;
      var e := Elapsed(WriteAll(Start(timestamp), clock, samples).ticks, clock);
      e <= elapsed && (elapsed - e) * clock < NANOS + clock
  {
    assert Steady(samples, clock) by { TickBounds(clock); }
    hide MinimumTick, MaximumGap;
    TimestampsMoveForward(clock, timestamp, samples);
    RegularAdvance(clock, timestamp, samples);
    DriftIsBounded(WriteAll(Start(timestamp), clock, samples), clock);
  }
}
