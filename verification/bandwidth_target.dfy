/** The target bitrate of one peer's bandwidth estimator (webrtc/bandwidth_estimator.go). Times are nanoseconds; the
    power of 1.08 is a parameter, known only by its laws. */
module BandwidthTarget {

  import opened Options
  import opened Numbers

  const MIN_BITRATE := 100_000
  const MAX_BITRATE := 50_000_000
  const LOSS_INTERVAL := 200_000_000
  const NANOS := 1_000_000_000

  datatype Delay = Delay(state: string, measurement: real, estimate: real, threshold: real, targetBitrate: int)

  /** The inputs of one update: the detector's statistics, the measured sent rate and the encoder's rate. */
  datatype Observation = Observation(now: int, delay: Delay, loss: real, sent: nat, encoder: int)

  datatype State = State(
    target: int, limited: bool, lastDelay: Delay, lastIncrease: Option<int>, lastLossDecrease: Option<int>)

  function Clamp(bitrate: int): int {
    Min(Max(bitrate, MIN_BITRATE), MAX_BITRATE)
  }

  /** Conversion of a float to an integer drops the fraction. */
  function Trunc(x: real): int {
    if x >= 0.0 then x.Floor else -((-x).Floor)
  }

  function Seconds(nanoseconds: int): real {
    nanoseconds as real / 1_000_000_000.0
  }

  /** The laws of x => 1.08^x. */
  ghost predicate IsPower(pow: real -> real) {
    && pow(0.0) == 1.0 && pow(1.0) == 1.08
    && (forall x, y :: pow(x + y) == pow(x) * pow(y))
    && (forall x, y :: x <= y ==> pow(x) <= pow(y))
  }

  predicate Limited(s: State, o: Observation) {
    var budget := Min(s.target, o.encoder) as real;
    if o.sent as real < 0.65 * budget then true
    else if o.sent as real > 0.80 * budget then false
    else s.limited
  }

  function Elapsed(s: State, now: int): real {
    if s.lastIncrease.None? || Seconds(now - s.lastIncrease.value) > 1.0 then 1.0
    else Seconds(now - s.lastIncrease.value)
  }

  function Times(target: int, factor: real): real {
    target as real * factor
  }

  function Raised(target: int, elapsed: real, pow: real -> real): int {
    Trunc(Times(target, pow(elapsed)))
  }

  function Lowered(target: int, loss: real): int {
    Trunc(Times(target, 1.0 - 0.5 * loss))
  }

  function Increased(s: State, o: Observation, pow: real -> real): int {
    Clamp(Min(Raised(s.target, Elapsed(s, o.now), pow), Max(s.target, Trunc(1.5 * o.sent as real))))
  }

  /** The step for the delay-based decision, after the application limit was set. */
  function OnDelay(s: State, o: Observation, pow: real -> real): State {
    if o.delay == s.lastDelay || s.limited then s.(lastDelay := o.delay)
    else if o.delay.state == "decrease" then
      s.(lastDelay := o.delay, target := Min(s.target, Clamp(o.delay.targetBitrate)), lastIncrease := Some(o.now))
    else if o.delay.state == "increase" then
      s.(lastDelay := o.delay, target := Increased(s, o, pow), lastIncrease := Some(o.now))
    else s.(lastDelay := o.delay)
  }

  predicate LossFires(s: State, o: Observation) {
    o.loss > 0.1 && (s.lastLossDecrease.None? || o.now - s.lastLossDecrease.value > LOSS_INTERVAL)
  }

  function OnLoss(s: State, o: Observation): State {
    if LossFires(s, o) then
      s.(target := Clamp(Lowered(s.target, o.loss)), lastLossDecrease := Some(o.now))
    else s
  }

  function Next(s: State, o: Observation, pow: real -> real): State {
    OnLoss(OnDelay(s.(limited := Limited(s, o)), o, pow), o)
  }

  function Run(s: State, obs: seq<Observation>, pow: real -> real): State {
    if obs == [] then s else Next(Run(s, obs[..|obs| - 1], pow), obs[|obs| - 1], pow)
  }

  function Initial(bitrate: int): State {
    State(Clamp(bitrate), false, Delay("", 0.0, 0.0, 0.0, 0), None, None)
  }

  predicate InBounds(s: State) {
    MIN_BITRATE <= s.target <= MAX_BITRATE
  }

  /** The clock does not go back. The source takes `now` before the lock, and a peer with audio has two RTCP readers, so
      updates may also be applied out of order. */
  predicate Monotone(obs: seq<Observation>) {
    forall i, j | 0 <= i <= j < |obs| :: obs[i].now <= obs[j].now
  }

  /** How far the stamps of a run move forward in all. */
  ghost function Forward(obs: seq<Observation>): nat {
    if |obs| <= 1 then 0
    else Forward(obs[..|obs| - 1]) + Max(0, obs[|obs| - 1].now - obs[|obs| - 2].now)
  }

  /** The same with at most one second for each update: what the run can pay for growth. */
  ghost function Credit(obs: seq<Observation>): nat {
    if |obs| <= 1 then 0
    else Credit(obs[..|obs| - 1]) + Move(obs[|obs| - 2].now, obs[|obs| - 1].now)
  }

  function Move(now: int, later: int): nat {
    Min(NANOS, Max(0, later - now))
  }

  // ---- The laws of the power ----

  ghost predicate Within(a: int, b: int, factor: real) {
    a as real <= Times(b, factor)
  }

  lemma PowerAdds(pow: real -> real, x: real, y: real)
    requires IsPower(pow)
    ensures pow(x + y) == pow(x) * pow(y)
  {
  }

  lemma PowerGrows(pow: real -> real, x: real, y: real)
    requires IsPower(pow) && x <= y
    ensures pow(x) <= pow(y) && (0.0 <= x ==> 1.0 <= pow(x))
  {
  }

  lemma TruncIsBelow(x: real)
    ensures x >= 0.0 ==> 0 <= Trunc(x) && Trunc(x) as real <= x
    ensures x < 0.0 ==> Trunc(x) <= 0
  {
  }

  // ---- One update ----

  lemma ElapsedFits(t: State, now: int)
    ensures Elapsed(t, now) <= 1.0
    ensures t.lastIncrease.Some? ==> Elapsed(t, now) <= Seconds(Min(NANOS, now - t.lastIncrease.value))
    ensures t.lastIncrease.None? || t.lastIncrease.value <= now ==> 0.0 <= Elapsed(t, now)
  {
  }

  /** An increase raises the target at most by the factor of its elapsed time, and only up to what was sent. */
  lemma IncreaseIsBounded(s: State, o: Observation, pow: real -> real)
    requires InBounds(s)
    ensures MIN_BITRATE <= Increased(s, o, pow) <= MAX_BITRATE
    ensures Increased(s, o, pow) > s.target ==>
      && Within(Increased(s, o, pow), s.target, pow(Elapsed(s, o.now)))
      && Increased(s, o, pow) as real <= 1.5 * o.sent as real
  {
    hide Times, Elapsed, Trunc;
    TruncIsBelow(Times(s.target, pow(Elapsed(s, o.now))));
    TruncIsBelow(1.5 * o.sent as real);
  }

  /** An increase lowers the target only if its stamp lies before the last decision's. */
  lemma IncreaseLowersOnlyBackwards(s: State, o: Observation, pow: real -> real)
    requires InBounds(s) && IsPower(pow)
    ensures Increased(s, o, pow) < s.target ==> s.lastIncrease.Some? && o.now < s.lastIncrease.value
  {
    hide IsPower;
    if s.lastIncrease.None? || s.lastIncrease.value <= o.now {
      var e := Elapsed(s, o.now);
      ElapsedFits(s, o.now);
      hide Elapsed;
      PowerGrows(pow, 0.0, e);
      RaisedIsAbove(s.target, e, pow);
      hide Raised, Trunc;
    }
  }

  lemma RaisedIsAbove(target: nat, elapsed: real, pow: real -> real)
    requires 1.0 <= pow(elapsed)
    ensures target <= Raised(target, elapsed, pow)
  {
  }

  lemma LossNeverRaises(s: State, o: Observation)
    requires InBounds(s)
    ensures InBounds(OnLoss(s, o)) && OnLoss(s, o).target <= s.target
    ensures OnLoss(s, o).target < s.target ==> LossFires(s, o)
  {
  }

  /** Why the target moves: it rises only on a fresh increase decision while video uses its budget, never beyond one and
      a half times what was sent; it falls only for loss, or while video uses its budget on a fresh decrease decision or
      an increase stamped before the last decision; and while application-limited only loss moves it, and only down. */
  lemma WhyTheTargetMoves(s: State, o: Observation, pow: real -> real)
    requires InBounds(s)
    ensures InBounds(Next(s, o, pow))
    ensures Next(s, o, pow).target > s.target ==>
      && o.delay != s.lastDelay && o.delay.state == "increase" && !Next(s, o, pow).limited
      && Next(s, o, pow).target as real <= 1.5 * o.sent as real
    ensures IsPower(pow) && Next(s, o, pow).target < s.target ==>
      || LossFires(s, o)
      || (&& o.delay != s.lastDelay && !Next(s, o, pow).limited
          && (|| o.delay.state == "decrease"
              || (o.delay.state == "increase" && s.lastIncrease.Some? && o.now < s.lastIncrease.value)))
    ensures Next(s, o, pow).limited && Next(s, o, pow).target != s.target ==>
      LossFires(s, o) && Next(s, o, pow).target < s.target
    ensures Next(s, o, pow).lastLossDecrease == if LossFires(s, o) then Some(o.now) else s.lastLossDecrease
  {
    var limited := s.(limited := Limited(s, o));
    hide IsPower, Increased, Within;
    IncreaseIsBounded(limited, o, pow);
    if IsPower(pow) { IncreaseLowersOnlyBackwards(limited, o, pow); }
    LossNeverRaises(OnDelay(limited, o, pow), o);
    hide Trunc, Lowered;
  }

  // ---- Whole runs ----

  /** Every run keeps the bounds, whatever the stamps and whatever the power function returns. */
  lemma {:induction false} StaysInBounds(s: State, obs: seq<Observation>, pow: real -> real)
    requires InBounds(s)
    ensures InBounds(Run(s, obs, pow))
  {
    if obs != [] {
      StaysInBounds(s, obs[..|obs| - 1], pow);
      WhyTheTargetMoves(Run(s, obs[..|obs| - 1], pow), obs[|obs| - 1], pow);
      hide Next;
    }
  }

  /** The growth so far is paid for by one second and the credit spent up to the last delay decision; what has come in
      since then covers the next one. */
  ghost predicate Paid(s: State, t: State, now: int, credit: nat, pow: real -> real) {
    t.target > s.target ==>
      && t.lastIncrease.Some?
      && exists spent: nat | spent <= credit ::
           Covers(credit - spent, now - t.lastIncrease.value) && Within(t.target, s.target, Growth(pow, spent))
  }

  /** Enough credit for an increase after this time. */
  predicate Covers(credit: int, elapsed: int) {
    Min(NANOS, elapsed) <= credit
  }

  /** The factor for one second and `span` more nanoseconds. */
  function Growth(pow: real -> real, span: int): real {
    pow(1.0 + Seconds(span))
  }

  lemma WithinMore(a: int, b: int, f: real, g: real)
    requires Within(a, b, f) && f <= g && b >= 0
    ensures Within(a, b, g)
  {
  }

  lemma WithinTwice(a: int, b: int, c: nat, f: real, g: real, h: real)
    requires Within(a, b, f) && Within(b, c, g) && f >= 0.0 && g * f <= h
    ensures Within(a, c, h)
  {
  }

  lemma WithinAtLeast(a: int, b: int, f: real)
    requires a <= b && 0 <= b && 1.0 <= f
    ensures Within(a, b, f)
  {
  }

  /** What an increase takes never exceeds what the time since the last decision pays for. */
  lemma GrowthExtends(pow: real -> real, span: nat, more: int, elapsed: real, end: int)
    requires IsPower(pow) && elapsed <= Seconds(more) && span + more <= end
    ensures Growth(pow, span) * pow(elapsed) <= Growth(pow, end)
  {
    hide IsPower;
    PowerAdds(pow, 1.0 + Seconds(span), elapsed);
    PowerGrows(pow, 1.0 + Seconds(span) + elapsed, 1.0 + Seconds(end));
  }

  lemma GrowthGrows(pow: real -> real, a: int, b: int)
    requires IsPower(pow) && a <= b
    ensures Growth(pow, a) <= Growth(pow, b) && (0 <= a ==> pow(1.0) <= Growth(pow, a) && 1.0 <= Growth(pow, a))
  {
    hide IsPower;
    PowerGrows(pow, 1.0 + Seconds(a), 1.0 + Seconds(b));
    if 0 <= a { PowerGrows(pow, 1.0, 1.0 + Seconds(a)); }
  }

  lemma TimePasses(s: State, t: State, now: int, credit: nat, later: int, pow: real -> real)
    requires Paid(s, t, now, credit, pow)
    ensures Paid(s, t, later, credit + Move(now, later), pow)
  {
    hide Within, Growth;
    if t.target > s.target {
      var spent: nat :| spent <= credit && Covers(credit - spent, now - t.lastIncrease.value)
        && Within(t.target, s.target, Growth(pow, spent));
      assert Within(t.target, s.target, Growth(pow, spent));
    }
  }

  lemma FactorIsPositive(a: nat, b: nat, f: real)
    requires a > b && Within(a, b, f)
    ensures f >= 0.0
  {
  }

  /** A raise takes no more than has been paid for. */
  lemma RaiseIsPaid(s: State, t: State, now: int, credit: nat, pow: real -> real, r: int)
    requires InBounds(s) && InBounds(t) && IsPower(pow) && Paid(s, t, now, credit, pow)
    requires r > t.target && Within(r, t.target, pow(Elapsed(t, now)))
    ensures Within(r, s.target, Growth(pow, credit))
  {
    hide IsPower, Elapsed, Within, Growth;
    var e := Elapsed(t, now);
    ElapsedFits(t, now);
    FactorIsPositive(r, t.target, pow(e));
    if t.target <= s.target {
      PowerGrows(pow, e, 1.0);
      GrowthGrows(pow, 0, credit);
      WithinAtLeast(t.target, s.target, 1.0);
      WithinTwice(r, t.target, s.target, pow(e), 1.0, Growth(pow, credit));
    } else {
      var at := t.lastIncrease.value;
      var spent: nat :| spent <= credit && Covers(credit - spent, now - at)
        && Within(t.target, s.target, Growth(pow, spent));
      GrowthExtends(pow, spent, Min(NANOS, now - at), e, credit);
      WithinTwice(r, t.target, s.target, pow(e), Growth(pow, spent), Growth(pow, credit));
    }
  }

  lemma LowerIsPaid(s: State, t: State, now: int, credit: nat, pow: real -> real, r: int)
    requires InBounds(s) && IsPower(pow) && Paid(s, t, now, credit, pow) && s.target < r <= t.target
    ensures Within(r, s.target, Growth(pow, credit))
  {
    hide IsPower, Within, Growth;
    var spent: nat :| spent <= credit && Within(t.target, s.target, Growth(pow, spent));
    GrowthGrows(pow, spent, credit);
    WithinMore(t.target, s.target, Growth(pow, spent), Growth(pow, credit));
    BelowIsWithin(r, t.target, s.target, Growth(pow, credit));
  }

  lemma BelowIsWithin(a: int, b: int, c: int, f: real)
    requires a <= b && Within(b, c, f)
    ensures Within(a, c, f)
  {
  }

  lemma PaidByDelay(s: State, t: State, o: Observation, credit: nat, pow: real -> real)
    requires InBounds(s) && InBounds(t) && IsPower(pow) && Paid(s, t, o.now, credit, pow)
    ensures Paid(s, OnDelay(t, o, pow), o.now, credit, pow) && InBounds(OnDelay(t, o, pow))
  {
    hide IsPower, Elapsed, Increased, Within, Growth;
    IncreaseIsBounded(t, o, pow);
    var d := OnDelay(t, o, pow);
    if d.target > s.target && (d.target != t.target || d.lastIncrease != t.lastIncrease) {
      if d.target > t.target {
        RaiseIsPaid(s, t, o.now, credit, pow, d.target);
      } else {
        LowerIsPaid(s, t, o.now, credit, pow, d.target);
      }
      assert Within(d.target, s.target, Growth(pow, credit));
    }
  }

  lemma PaidByNext(s: State, t: State, o: Observation, credit: nat, pow: real -> real)
    requires InBounds(s) && InBounds(t) && IsPower(pow) && Paid(s, t, o.now, credit, pow)
    ensures Paid(s, Next(t, o, pow), o.now, credit, pow)
  {
    var limited := t.(limited := Limited(t, o));
    hide IsPower, OnDelay, Limited, Within, Growth;
    PaidByDelay(s, limited, o, credit, pow);
    var delayed := OnDelay(limited, o, pow);
    LossNeverRaises(delayed, o);
    hide Trunc, Clamp, LossFires;
    var r := OnLoss(delayed, o);
    if r.target > s.target {
      var spent: nat :| spent <= credit && Covers(credit - spent, o.now - delayed.lastIncrease.value)
        && Within(delayed.target, s.target, Growth(pow, spent));
      BelowIsWithin(r.target, delayed.target, s.target, Growth(pow, spent));
    }
  }

  lemma {:induction false} StaysPaid(s: State, obs: seq<Observation>, pow: real -> real)
    requires InBounds(s) && IsPower(pow) && obs != []
    ensures Paid(s, Run(s, obs, pow), obs[|obs| - 1].now, Credit(obs), pow)
  {
    hide IsPower, Next;
    var rest, last := obs[..|obs| - 1], obs[|obs| - 1];
    var t := Run(s, rest, pow);
    if rest != [] {
      assert rest[|rest| - 1] == obs[|obs| - 2];
      StaysPaid(s, rest, pow);
      TimePasses(s, t, rest[|rest| - 1].now, Credit(rest), last.now, pow);
    }
    StaysInBounds(s, rest, pow);
    hide Paid;
    assert Paid(s, t, last.now, Credit(obs), pow) by { PaidAtStart(s, last.now, pow); }
    PaidByNext(s, t, last, Credit(obs), pow);
  }

  lemma PaidAtStart(s: State, now: int, pow: real -> real)
    ensures Paid(s, s, now, 0, pow)
  {
  }

  /** Over every window of every run, the target grows at most by 1.08 to the power of one plus the seconds the clock moved
      forward, counting at most one second for each update. */
  lemma GrowthIsBounded(s: State, obs: seq<Observation>, pow: real -> real)
    requires InBounds(s) && IsPower(pow)
    ensures Run(s, obs, pow).target as real <= s.target as real * pow(1.0 + Seconds(Credit(obs)))
  {
    hide IsPower, Run, Credit, Seconds;
    var end := Run(s, obs, pow);
    GrowthGrows(pow, 0, Credit(obs));
    StaysInBounds(s, obs, pow);
    if obs == [] {
      NoUpdate(s, pow);
    } else {
      StaysPaid(s, obs, pow);
    }
    if end.target <= s.target {
      WithinAtLeast(end.target, s.target, Growth(pow, Credit(obs)));
    } else {
      LowerIsPaid(s, end, obs[|obs| - 1].now, Credit(obs), pow, end.target);
    }
  }

  lemma NoUpdate(s: State, pow: real -> real)
    ensures Run(s, [], pow) == s
  {
  }

  /** That is never more than the time the clock moved forward, which is never less than the time elapsed from the first
      update to the last, and equal to it if and only if no update is stamped before an earlier one. */
  lemma {:induction false} CreditAgainstElapsed(obs: seq<Observation>)
    requires obs != []
    ensures Credit(obs) <= Forward(obs) && obs[|obs| - 1].now - obs[0].now <= Forward(obs)
    ensures Forward(obs) == obs[|obs| - 1].now - obs[0].now <==> Monotone(obs)
  {
    if |obs| > 1 {
      var rest, n := obs[..|obs| - 1], |obs| - 1;
      CreditAgainstElapsed(rest);
      assert rest[|rest| - 1] == obs[n - 1];
      if Forward(obs) == obs[n].now - obs[0].now {
        assert Monotone(rest) && obs[n - 1].now <= obs[n].now;
        forall i, j | 0 <= i <= j < |obs| ensures obs[i].now <= obs[j].now {
          assert obs[i] == (if i < n then rest[i] else obs[n]) && rest[n - 1] == obs[n - 1];
          if j == n && i < n { assert rest[i].now <= rest[n - 1].now; }
          if j < n { assert rest[i].now <= rest[j].now; }
        }
      }
      if Monotone(obs) {
        assert obs[n - 1].now <= obs[n].now;
        forall i, j | 0 <= i <= j < |rest| ensures rest[i].now <= rest[j].now {
          assert rest[i] == obs[i] && rest[j] == obs[j];
        }
      }
    }
  }

  /** Out of order the elapsed time is no bound: three updates between equal stamps grow the target by 1.08 twice, whenever
      the decision in between is stamped at least a second earlier. */
  lemma OutOfOrderGrowsFurther(pow: real -> real, s: State, up: Delay, down: Delay, t: int, back: int)
    requires IsPower(pow) && up.state == "increase" && down.state == "decrease" && down.targetBitrate == MAX_BITRATE
    requires s == Initial(100_000) && up != s.lastDelay && back <= t - NANOS
    ensures var obs := [Observation(t, up, 0.0, 1_000_000, MAX_BITRATE),
                        Observation(back, down, 0.0, 1_000_000, MAX_BITRATE),
                        Observation(t, up, 0.0, 1_000_000, MAX_BITRATE)];
      Run(s, obs, pow).target as real > s.target as real * pow(1.0 + Seconds(obs[2].now - obs[0].now))
  {
    var a, b := Observation(t, up, 0.0, 1_000_000, MAX_BITRATE), Observation(back, down, 0.0, 1_000_000, MAX_BITRATE);
    assert pow(1.0) == 1.08;
    hide IsPower;
    ThreeUpdates(s, a, b, a, pow);
    var s1 := Next(s, a, pow);
    assert s1.target == 108_000 && s1.lastIncrease == Some(t) && s1.lastDelay == up;
    DownThenUp(s1, a, b, pow);
    hide Next, Run;
  }

  lemma DownThenUp(s1: State, a: Observation, b: Observation, pow: real -> real)
    requires s1.target == 108_000 && pow(1.0) == 1.08 && a.delay.state == "increase" && b.delay.state == "decrease"
    requires b.delay != s1.lastDelay && b.delay.targetBitrate == MAX_BITRATE && b.now <= a.now - NANOS
    requires a.sent == b.sent == 1_000_000 && a.encoder == b.encoder == MAX_BITRATE && a.loss == b.loss == 0.0
    ensures Next(Next(s1, b, pow), a, pow).target == 116_640
  {
    var s2 := Next(s1, b, pow);
    assert s2.target == 108_000 && s2.lastIncrease == Some(b.now) && s2.lastDelay == b.delay;
    assert Elapsed(s2, a.now) == 1.0;
  }

  lemma ThreeUpdates(s: State, a: Observation, b: Observation, c: Observation, pow: real -> real)
    ensures Run(s, [a, b, c], pow) == Next(Next(Next(s, a, pow), b, pow), c, pow)
  {
    hide Next;
    RunSnoc(s, [], a, pow);
    RunSnoc(s, [a], b, pow);
    RunSnoc(s, [a, b], c, pow);
    NoUpdate(s, pow);
    assert [] + [a] == [a] && [a] + [b] == [a, b] && [a, b] + [c] == [a, b, c];
  }

  lemma RunSnoc(s: State, obs: seq<Observation>, o: Observation, pow: real -> real)
    ensures Run(s, obs + [o], pow) == Next(Run(s, obs, pow), o, pow)
  {
    assert (obs + [o])[..|obs|] == obs;
  }

  /** The stamps of the updates that lowered the target for loss. */
  ghost function LossStamps(s: State, obs: seq<Observation>, pow: real -> real): seq<int> {
    if obs == [] then []
    else
      var rest, last := obs[..|obs| - 1], obs[|obs| - 1];
      LossStamps(s, rest, pow) + if LossFires(Run(s, rest, pow), last) then [last.now] else []
  }

  /** How many updates of the run moved the target at all. */
  ghost function Moves(s: State, obs: seq<Observation>, pow: real -> real): nat {
    if obs == [] then 0
    else
      var rest := obs[..|obs| - 1];
      Moves(s, rest, pow) + if Run(s, obs, pow).target != Run(s, rest, pow).target then 1 else 0
  }

  lemma NextStampsLoss(s: State, o: Observation, pow: real -> real)
    ensures Next(s, o, pow).lastLossDecrease == if LossFires(s, o) then Some(o.now) else s.lastLossDecrease
  {
  }

  ghost predicate Apart(stamps: seq<int>) {
    forall k | 0 < k < |stamps| :: stamps[k] - stamps[k - 1] > LOSS_INTERVAL
  }

  lemma ApartSnoc(stamps: seq<int>, now: int)
    requires Apart(stamps) && (stamps != [] ==> now - stamps[|stamps| - 1] > LOSS_INTERVAL)
    ensures Apart(stamps + [now])
  {
  }

  /** The stamps are apart, the first also from the last one before them, and `t` remembers the last. */
  ghost predicate Stamped(s: State, t: State, stamps: seq<int>) {
    && Apart(stamps)
    && (stamps != [] && s.lastLossDecrease.Some? ==> stamps[0] - s.lastLossDecrease.value > LOSS_INTERVAL)
    && t.lastLossDecrease == if stamps == [] then s.lastLossDecrease else Some(stamps[|stamps| - 1])
  }

  lemma StampedNext(s: State, t: State, stamps: seq<int>, o: Observation, pow: real -> real)
    requires Stamped(s, t, stamps)
    ensures Stamped(s, Next(t, o, pow), stamps + if LossFires(t, o) then [o.now] else [])
  {
    NextStampsLoss(t, o, pow);
    hide Next, Apart;
    if LossFires(t, o) { ApartSnoc(stamps, o.now); } else { assert stamps + [] == stamps; }
  }

  /** Loss decreases are more than the interval apart, whatever updates come between and in whatever order they are
      applied; the first keeps that distance from the last one before the run. */
  lemma {:induction false} LossDecreasesAreApart(s: State, obs: seq<Observation>, pow: real -> real)
    ensures Stamped(s, Run(s, obs, pow), LossStamps(s, obs, pow))
  {
    if obs != [] {
      var rest := obs[..|obs| - 1];
      LossDecreasesAreApart(s, rest, pow);
      StampedNext(s, Run(s, rest, pow), LossStamps(s, rest, pow), obs[|obs| - 1], pow);
      hide Next, Stamped;
    }
  }

  lemma {:induction false} StampsSpread(stamps: seq<int>)
    requires Apart(stamps)
    ensures |stamps| > 1 ==> stamps[|stamps| - 1] - stamps[0] > (|stamps| - 1) * LOSS_INTERVAL
  {
    if |stamps| > 1 { StampsSpread(stamps[..|stamps| - 1]); }
  }

  /** Whether every update of the run left the sender application-limited. */
  ghost predicate AlwaysLimited(s: State, obs: seq<Observation>, pow: real -> real) {
    forall k | 1 <= k <= |obs| :: Run(s, obs[..k], pow).limited
  }

  lemma {:induction false} LimitedOnlyLoses(s: State, obs: seq<Observation>, pow: real -> real)
    requires InBounds(s) && AlwaysLimited(s, obs, pow)
    ensures Run(s, obs, pow).target <= s.target
    ensures Moves(s, obs, pow) <= |LossStamps(s, obs, pow)|
    ensures Moves(s, obs, pow) == 0 ==> Run(s, obs, pow).target == s.target
  {
    if obs != [] {
      var rest, last := obs[..|obs| - 1], obs[|obs| - 1];
      forall k | 1 <= k <= |rest| ensures Run(s, rest[..k], pow).limited {
        assert rest[..k] == obs[..k];
      }
      assert obs[..|obs|] == obs;
      StaysInBounds(s, rest, pow);
      LimitedOnlyLoses(s, rest, pow);
      hide IsPower;
      WhyTheTargetMoves(Run(s, rest, pow), last, pow);
      hide Next;
    }
  }

  /** While the sender stays application-limited the target is held: only loss moves it, only down, and n moves span more
      than n - 1 intervals. */
  lemma HeldWhileLimited(s: State, obs: seq<Observation>, pow: real -> real)
    requires InBounds(s) && AlwaysLimited(s, obs, pow)
    ensures Run(s, obs, pow).target <= s.target
    ensures (forall i | 0 <= i < |obs| :: obs[i].loss <= 0.1) ==> Run(s, obs, pow).target == s.target
    ensures var stamps := LossStamps(s, obs, pow);
      Moves(s, obs, pow) <= |stamps| &&
      (Moves(s, obs, pow) > 1 ==> stamps[|stamps| - 1] - stamps[0] > (Moves(s, obs, pow) - 1) * LOSS_INTERVAL)
  {
    LimitedOnlyLoses(s, obs, pow);
    hide AlwaysLimited;
    LossDecreasesAreApart(s, obs, pow);
    StampsSpread(LossStamps(s, obs, pow));
    hide Stamped, Apart;
    if forall i | 0 <= i < |obs| :: obs[i].loss <= 0.1 { NoLossNoDecrease(s, obs, pow); }
    hide Run, LossStamps, Moves;
  }

  lemma {:induction false} NoLossNoDecrease(s: State, obs: seq<Observation>, pow: real -> real)
    requires forall i | 0 <= i < |obs| :: obs[i].loss <= 0.1
    ensures LossStamps(s, obs, pow) == []
  {
    if obs != [] { NoLossNoDecrease(s, obs[..|obs| - 1], pow); }
  }

  // ---- Decisions take effect

  /** The application limit has hysteresis: it is entered below 65 percent of the budget and left above 80. */
  lemma LimitHasHysteresis(s: State, o: Observation, pow: real -> real)
    ensures var budget := (if s.target < o.encoder then s.target else o.encoder) as real;
      Next(s, o, pow).limited <==> 100.0 * o.sent as real < 65.0 * budget || (s.limited && 100.0 * o.sent as real <= 80.0 * budget)
    ensures Next(s, o, pow).lastDelay == o.delay
  {
    hide Increased, Lowered;
  }

  /** A fresh decrease decision while video uses its budget brings the target down to the detector's, or to the floor, unless it
      is there already. */
  lemma DecreaseTakesEffect(s: State, o: Observation, pow: real -> real)
    requires InBounds(s) && o.delay != s.lastDelay && o.delay.state == "decrease"
    requires !Next(s, o, pow).limited && !LossFires(s, o)
    ensures var t := Next(s, o, pow);
      && t.lastIncrease == Some(o.now)
      && t.target == if s.target <= o.delay.targetBitrate || s.target == MIN_BITRATE then s.target
                     else if o.delay.targetBitrate < MIN_BITRATE then MIN_BITRATE else o.delay.targetBitrate
  {
    hide Increased, Lowered, Limited;
  }

  /** A fresh increase decision while video uses its budget raises the target by the full factor of its elapsed time, to the
      next bit per second, unless what was sent or the upper bound stops it short. */
  lemma IncreaseTakesEffect(s: State, o: Observation, pow: real -> real)
    requires InBounds(s) && o.delay != s.lastDelay && o.delay.state == "increase"
    requires !Next(s, o, pow).limited && !LossFires(s, o) && pow(Elapsed(s, o.now)) >= 1.0
    ensures var t := Next(s, o, pow);
      && t.lastIncrease == Some(o.now) && s.target <= t.target
      && (|| t.target == MAX_BITRATE
          || t.target as real > Times(s.target, pow(Elapsed(s, o.now))) - 1.0
          || t.target as real > 1.5 * o.sent as real - 1.0)
  {
    SameElapsed(s, Limited(s, o), o.now);
    hide Limited, Lowered, Elapsed;
    RaisedIsAbove(s.target, Elapsed(s, o.now), pow);
    RaisedIsNear(s.target, Elapsed(s, o.now), pow);
    hide Raised;
  }

  lemma SameElapsed(s: State, limited: bool, now: int)
    ensures Elapsed(s.(limited := limited), now) == Elapsed(s, now)
  {
  }

  lemma RaisedIsNear(target: nat, elapsed: real, pow: real -> real)
    requires pow(elapsed) >= 1.0
    ensures Raised(target, elapsed, pow) as real > Times(target, pow(elapsed)) - 1.0
  {
  }

  /** The elapsed time of an increase is that since the last decision, at most a second, and a second for the first. */
  lemma ElapsedIsCapped(s: State, now: int)
    ensures s.lastIncrease.None? ==> Elapsed(s, now) == 1.0
    ensures s.lastIncrease.Some? && now - s.lastIncrease.value >= NANOS ==> Elapsed(s, now) == 1.0
    ensures s.lastIncrease.Some? && now - s.lastIncrease.value < NANOS ==>
      Elapsed(s, now) * 1_000_000_000.0 == (now - s.lastIncrease.value) as real
  {
  }

  /** A loss above a tenth takes half its share off the target, in every state, once the interval has passed. */
  lemma LossTakesEffect(s: State, o: Observation, pow: real -> real)
    requires InBounds(s) && LossFires(s, o) && o.delay == s.lastDelay
    ensures var t := Next(s, o, pow);
      && t.lastLossDecrease == Some(o.now)
      && (t.target == MIN_BITRATE ||
          Times(s.target, 1.0 - 0.5 * o.loss) - 1.0 < t.target as real <= Times(s.target, 1.0 - 0.5 * o.loss))
      && (t.target == MIN_BITRATE ==> Times(s.target, 1.0 - 0.5 * o.loss) < (MIN_BITRATE + 1) as real)
  {
    hide Limited, Increased, Times;
    var lowered := Times(s.target, 1.0 - 0.5 * o.loss);
    LoweredIsBelow(s.target, o.loss);
  }

  lemma LoweredIsBelow(target: nat, loss: real)
    requires loss > 0.1
    ensures Lowered(target, loss) <= target
  {
  }

  lemma LossFiresExactly(s: State, o: Observation)
    ensures LossFires(s, o) <==>
      10.0 * o.loss > 1.0 && (s.lastLossDecrease.Some? ==> o.now - s.lastLossDecrease.value > 200_000_000)
  {
  }

  /** An estimator starts at the bitrate it is given, or at the nearer bound, without a limit or a past decision. */
  lemma StartsInBounds(bitrate: int)
    ensures InBounds(Initial(bitrate)) && (MIN_BITRATE <= bitrate <= MAX_BITRATE ==> Initial(bitrate).target == bitrate)
    ensures bitrate < MIN_BITRATE ==> Initial(bitrate).target == MIN_BITRATE
    ensures !Initial(bitrate).limited && Initial(bitrate).lastIncrease.None? && Initial(bitrate).lastLossDecrease.None?
  {
  }

  // ---- The object ----

  class Estimator {
    var target: int
    var applicationLimited: bool
    var lastDelay: Delay
    var lastIncrease: Option<int>
    var lastLossDecrease: Option<int>

    function Value(): State
      reads this
    {
      State(target, applicationLimited, lastDelay, lastIncrease, lastLossDecrease)
    }

    constructor (bitrate: int)
      ensures Value() == Initial(bitrate) && InBounds(Value())
    {
      target := Clamp(bitrate);
      applicationLimited, lastDelay := false, Delay("", 0.0, 0.0, 0.0, 0);
      lastIncrease, lastLossDecrease := None, None;
    }

    /** Returns whether the target changed, which is when the change callback runs. */
    method Update(o: Observation, pow: real -> real) returns (changed: bool)
      modifies this
      ensures Value() == Next(old(Value()), o, pow)
      ensures changed == (target != old(target))
    {
      hide Trunc, Clamp, Min, Max, Seconds, Raised, Lowered;
      var previous := target;
      var budget := Min(target, o.encoder) as real;
      if o.sent as real < 0.65 * budget {
        applicationLimited := true;
      } else if o.sent as real > 0.80 * budget {
        applicationLimited := false;
      }
      ghost var limited := old(Value()).(limited := Limited(old(Value()), o));
      assert Value() == limited;
      hide Limited;
      var isNew := o.delay != lastDelay;
      lastDelay := o.delay;
      if isNew && !applicationLimited {
        if o.delay.state == "decrease" {
          target := Min(target, Clamp(o.delay.targetBitrate));
          lastIncrease := Some(o.now);
        } else if o.delay.state == "increase" {
          var elapsed := 1.0;
          if lastIncrease.Some? && Seconds(o.now - lastIncrease.value) <= 1.0 {
            elapsed := Seconds(o.now - lastIncrease.value);
          }
          assert elapsed == Elapsed(limited, o.now);
          hide Elapsed;
          var increased := Raised(target, elapsed, pow);
          var ceiling := Max(target, Trunc(1.5 * o.sent as real));
          target := Clamp(Min(increased, ceiling));
          lastIncrease := Some(o.now);
        }
      }
      assert Value() == OnDelay(limited, o, pow);
      hide OnDelay;
      if o.loss > 0.1 && (lastLossDecrease.None? || o.now - lastLossDecrease.value > LOSS_INTERVAL) {
        target := Clamp(Lowered(target, o.loss));
        lastLossDecrease := Some(o.now);
      }
      changed := target != previous;
    }
  }
}
