/** The shared encoder's rate: the congestion limit of the WebRTC service (webrtc/service.go) against the range checks of
    the media service it drives (media/media.go). Rates are Kbit/s, peer estimates bit/s. */
module EncoderRate {
  import opened Numbers
  import BandwidthTarget

  const MIN_RATE := 100
  const MIN_STEP := 250
  const STEP_DIVISOR := 20

  datatype Quality = Quality(
    profile: string, option: string, width: int, height: int, framerate: int, bitrate: int)

  datatype Phase = Waiting | Running | Stopped

  /** How the media service answered one SetBitrate call. */
  datatype Outcome = Accepted | TooLow | NotRunning | TooHigh | Failed

  /** `actual` is the rate of the running encoder, `recorded` what the WebRTC service believes it to be, `peers` the
      estimates of the peers that are not closing. */
  datatype State = State(
    phase: Phase, quality: Quality, actual: int, recorded: int, peers: map<nat, int>, calls: seq<Outcome>)

  // ---- The media service ----

  predicate ValuesOk(q: Quality) {
    && 320 <= q.width <= 7680 && q.width % 2 == 0
    && 240 <= q.height <= 4320 && q.height % 2 == 0
    && 1 <= q.framerate <= 120 && MIN_RATE <= q.bitrate
  }

  function SetOutcome(s: State, rate: int, works: bool): Outcome {
    if rate < MIN_RATE then TooLow
    else if !s.phase.Running? then NotRunning
    else if rate > s.quality.bitrate then TooHigh
    else if !works then Failed
    else Accepted
  }

  function SetBitrate(s: State, rate: int, works: bool): State {
    s.(calls := s.calls + [SetOutcome(s, rate, works)],
       actual := if SetOutcome(s, rate, works).Accepted? then rate else s.actual)
  }

  /** Whether a quality update succeeds; `permitted` says that the profile and option exist and the profile's limits hold. */
  predicate Updates(s: State, q: Quality, permitted: bool, works: bool) {
    permitted && ValuesOk(q) && s.phase.Running? && (q == s.quality || works)
  }

  // ---- The congestion limit ----

  /** The least of the requested rate and every peer's estimate. */
  ghost predicate IsLeast(peers: map<nat, int>, requested: int, rate: int) {
    && rate <= requested && (forall p | p in peers :: rate <= peers[p] / 1000)
    && (rate == requested || exists p :: p in peers && rate == peers[p] / 1000)
  }

  ghost predicate IsLimit(peers: map<nat, int>, requested: int, rate: int) {
    exists least :: IsLeast(peers, requested, least) && rate == Max(least, MIN_RATE)
  }

  lemma LimitIsUnique(peers: map<nat, int>, requested: int, a: int, b: int)
    requires IsLimit(peers, requested, a) && IsLimit(peers, requested, b)
    ensures a == b
  {
  }

  lemma LeastGrows(peers: map<nat, int>, requested: int, rate: int, p: nat, estimate: int)
    requires IsLeast(peers, requested, rate) && p !in peers
    ensures IsLeast(peers[p := estimate], requested, if estimate / 1000 < rate then estimate / 1000 else rate)
  {
    var more := peers[p := estimate];
    assert more[p] == estimate;
    if estimate / 1000 >= rate && rate != requested {
      var x :| x in peers && rate == peers[x] / 1000;
      assert more[x] == peers[x];
    }
  }

  lemma {:induction false} LimitExists(peers: map<nat, int>, requested: int) returns (rate: int)
    ensures IsLeast(peers, requested, rate)
    decreases |peers|
  {
    if peers == map[] {
      rate := requested;
    } else {
      var p :| p in peers;
      var fewer := peers - {p};
      assert |fewer| < |peers| by { assert fewer.Keys == peers.Keys - {p}; }
      var rest := LimitExists(fewer, requested);
      LeastGrows(fewer, requested, rest, p, peers[p]);
      assert fewer[p := peers[p]] == peers;
      rate := if peers[p] / 1000 < rest then peers[p] / 1000 else rest;
    }
  }

  ghost function Limit(peers: map<nat, int>, requested: int): (rate: int)
    ensures IsLimit(peers, requested, rate)
  {
    assert exists least :: IsLeast(peers, requested, least) by { var least := LimitExists(peers, requested); }
    var least :| IsLeast(peers, requested, least);
    Max(least, MIN_RATE)
  }

  /** With estimates that keep the estimator's bounds the floor never raises the limit: the encoder never outruns the
      slowest open peer's estimate. */
  lemma FloorIsIdle(peers: map<nat, int>, requested: int)
    requires MIN_RATE <= requested && forall p | p in peers :: BandwidthTarget.MIN_BITRATE <= peers[p]
    ensures IsLeast(peers, requested, Limit(peers, requested))
  {
  }

  /** Whether a wanted rate is close enough to leave the encoder alone. */
  predicate Parked(recorded: int, requested: int, wanted: int) {
    || wanted == recorded
    || (wanted != requested && -Max(MIN_STEP, recorded / STEP_DIVISOR) < wanted - recorded
        && wanted - recorded < Max(MIN_STEP, recorded / STEP_DIVISOR))
  }

  ghost function Apply(s: State, works: bool): State {
    var wanted := Limit(s.peers, s.quality.bitrate);
    if Parked(s.recorded, s.quality.bitrate, wanted) then s
    else
      var t := SetBitrate(s, wanted, works);
      t.(recorded := if SetOutcome(s, wanted, works).Accepted? then wanted else s.recorded)
  }

  /** The quality update before the congestion limit is applied again. */
  function Updated(s: State, q: Quality): State {
    s.(quality := q, recorded := q.bitrate, actual := if q == s.quality then s.actual else q.bitrate)
  }

  datatype Step =
    | Start
    | Stop
    | Estimate(peer: nat, rate: int)
    | Arrive(peer: nat, rate: int, works: bool)
    | Leave(peer: nat)
    | Recheck(works: bool)
    | Update(quality: Quality, permitted: bool, works: bool, limitWorks: bool)

  ghost function Next(s: State, step: Step): State {
    match step
    case Start => if s.phase.Waiting? then s.(phase := Running, actual := s.quality.bitrate) else s
    case Stop => if s.phase.Running? then s.(phase := Stopped) else s
    case Estimate(p, rate) => if p in s.peers then s.(peers := s.peers[p := rate]) else s
    case Arrive(p, rate, works) => Apply(s.(peers := s.peers[p := rate]), works)
    case Leave(p) => s.(peers := s.peers - {p})
    case Recheck(works) => Apply(s, works)
    case Update(q, permitted, works, limitWorks) =>
      if Updates(s, q, permitted, works) then Apply(Updated(s, q), limitWorks) else s
  }

  ghost function Run(q: Quality, steps: seq<Step>): State {
    if steps == [] then State(Waiting, q, q.bitrate, q.bitrate, map[], [])
    else Next(Run(q, steps[..|steps| - 1]), steps[|steps| - 1])
  }

  // ---- Every run ----

  ghost predicate Inv(s: State) {
    && MIN_RATE <= s.recorded <= s.quality.bitrate
    && MIN_RATE <= s.actual <= s.quality.bitrate
    && (forall i | 0 <= i < |s.calls| :: !s.calls[i].TooLow? && !s.calls[i].TooHigh?)
  }

  lemma ApplyKeeps(s: State, works: bool)
    requires Inv(s)
    ensures Inv(Apply(s, works))
  {
  }

  lemma NextKeeps(s: State, step: Step)
    requires Inv(s)
    ensures Inv(Next(s, step))
  {
    hide Apply;
    match step
    case Start =>
    case Stop =>
    case Estimate(p, rate) =>
    case Arrive(p, rate, works) => ApplyKeeps(s.(peers := s.peers[p := rate]), works);
    case Leave(p) =>
    case Recheck(works) => ApplyKeeps(s, works);
    case Update(q, permitted, works, limitWorks) =>
      if Updates(s, q, permitted, works) { ApplyKeeps(Updated(s, q), limitWorks); }
  }

  /** In every run the recorded rate and the encoder's rate stay between 100 and the requested rate, and no SetBitrate
      call is refused by a range check. */
  lemma {:induction false} RunsKeep(q: Quality, steps: seq<Step>)
    requires ValuesOk(q)
    ensures Inv(Run(q, steps))
  {
    if steps != [] {
      RunsKeep(q, steps[..|steps| - 1]);
      hide Next, Inv;
      NextKeeps(Run(q, steps[..|steps| - 1]), steps[|steps| - 1]);
    }
  }

  // ---- Recorded against actual ----

  ghost predicate InSync(s: State) {
    match s.phase
    case Waiting => s.recorded == s.quality.bitrate
    case Running => s.recorded == s.actual
    case Stopped => true
  }

  /** An update to the quality already in force, while congestion holds the encoder below it, that is followed by no
      successful change of the rate. */
  ghost predicate Forgets(s: State, step: Step) {
    && step.Update? && Updates(s, step.quality, step.permitted, step.works)
    && step.quality == s.quality && s.recorded != s.quality.bitrate
    && var wanted := Limit(s.peers, s.quality.bitrate);
       Parked(s.quality.bitrate, s.quality.bitrate, wanted) || !step.limitWorks
  }

  /** From a state in sync, one step loses the encoder's rate if and only if it is such an update. */
  lemma SyncIsLostExactly(s: State, step: Step)
    requires Inv(s) && InSync(s)
    ensures InSync(Next(s, step)) <==> !Forgets(s, step)
  {
  }

  ghost predicate NeverForgets(q: Quality, steps: seq<Step>) {
    forall i | 0 <= i < |steps| :: !Forgets(Run(q, steps[..i]), steps[i])
  }

  lemma {:induction false} RunsStayInSync(q: Quality, steps: seq<Step>)
    requires ValuesOk(q) && NeverForgets(q, steps)
    ensures InSync(Run(q, steps))
  {
    if steps != [] {
      var rest, last := steps[..|steps| - 1], steps[|steps| - 1];
      forall i | 0 <= i < |rest| ensures !Forgets(Run(q, rest[..i]), rest[i]) {
        assert rest[..i] == steps[..i];
      }
      RunsStayInSync(q, rest);
      RunsKeep(q, rest);
      assert !Forgets(Run(q, rest), last);
      SyncIsLostExactly(Run(q, rest), last);
      hide Next, Forgets, Inv;
    }
  }

  /** The exception happens: an update that changes nothing makes the service believe in 10000 Kbit/s while the encoder
      runs at 9400. */
  lemma NoOpUpdateForgets(q: Quality)
    requires ValuesOk(q) && q.bitrate == 10000
    ensures var s := Run(q, [Start, Arrive(1, 9_400_000, true), Estimate(1, 9_600_000), Update(q, true, true, true)]);
      s.phase.Running? && s.recorded == 10000 && s.actual == 9400
  {
    var s0, s1, s2, s3 :=
      Start, Arrive(1, 9_400_000, true), Estimate(1, 9_600_000), Update(q, true, true, true);
    var init := State(Waiting, q, q.bitrate, q.bitrate, map[], []);
    OnePeerLimit(1, 9_400_000, 10000);
    OnePeerLimit(1, 9_600_000, 10000);
    hide Limit;
    var a := Next(init, s0);
    var b := Next(a, s1);
    assert b == State(Running, q, 9400, 9400, map[1 := 9_400_000], [Accepted]);
    var c := Next(b, s2);
    assert c.peers == map[1 := 9_600_000];
    var d := Next(c, s3);
    assert d.recorded == 10000 && d.actual == 9400;
    hide Next;
    assert [s0, s1, s2, s3][..3] == [s0, s1, s2] && [s0, s1, s2][..2] == [s0, s1] && [s0, s1][..1] == [s0];
    assert [s0][..0] == [];
    assert Run(q, [s0]) == a && Run(q, [s0, s1]) == b && Run(q, [s0, s1, s2]) == c;
  }

  lemma OnePeerLimit(peer: nat, rate: int, requested: int)
    requires rate / 1000 < requested && rate / 1000 >= MIN_RATE
    ensures Limit(map[peer := rate], requested) == rate / 1000
  {
    var peers := map[peer := rate];
    assert peer in peers && rate / 1000 == peers[peer] / 1000;
    assert IsLeast(peers, requested, rate / 1000);
    LimitIsUnique(peers, requested, Limit(peers, requested), rate / 1000);
  }

  /** Where the limit ends up: a running encoder that takes the rate is set to it, unless the limit is below the requested rate
      and less than 250 Kbit/s or a twentieth of the recorded rate away, when nothing is done. */
  lemma LimitIsTracked(s: State)
    requires Inv(s) && s.phase.Running?
    ensures var limit, t := Limit(s.peers, s.quality.bitrate), Apply(s, true);
      var away := if limit > s.recorded then limit - s.recorded else s.recorded - limit;
      if limit == s.recorded then t == s
      else if limit != s.quality.bitrate && (away < 250 || 20 * (away + 1) <= s.recorded) then t == s
      else t == s.(recorded := limit, actual := limit, calls := s.calls + [Accepted])
  {
    var limit := Limit(s.peers, s.quality.bitrate);
    assert IsLimit(s.peers, s.quality.bitrate, limit);
    hide Limit;
  }

  /** A call that the media service cannot serve changes neither rate. */
  lemma FailedLimitChangesNothing(s: State, works: bool)
    requires !s.phase.Running? || !works
    ensures var t := Apply(s, works); t.recorded == s.recorded && t.actual == s.actual && t.quality == s.quality
  {
    hide Limit;
  }

  /** An update succeeds if and only if it is permitted, its values are in range, the service runs, and the encoder takes it
      where it differs; a failed update changes nothing. */
  lemma UpdatesExactly(s: State, q: Quality, permitted: bool, works: bool, limitWorks: bool)
    ensures var t := Next(s, Update(q, permitted, works, limitWorks));
      if permitted && s.phase.Running? && (q == s.quality || works)
         && 320 <= q.width <= 7680 && q.width % 2 == 0 && 240 <= q.height <= 4320 && q.height % 2 == 0
         && 1 <= q.framerate <= 120 && 100 <= q.bitrate
      then t.quality == q && t.phase.Running?
      else t == s
  {
    hide Limit;
  }

  /** A SetBitrate call is answered by the first check that fails, and changes the encoder exactly if none does. */
  lemma SetBitrateIsChecked(s: State, rate: int, works: bool)
    ensures var o := SetOutcome(s, rate, works);
      && (o == TooLow <==> rate < 100)
      && (o == NotRunning <==> 100 <= rate && s.phase != Running)
      && (o == TooHigh <==> 100 <= rate && s.phase == Running && s.quality.bitrate < rate)
      && (o == Accepted <==> 100 <= rate <= s.quality.bitrate && s.phase == Running && works)
      && SetBitrate(s, rate, works).actual == if o == Accepted then rate else s.actual
  {
  }

  /** The service runs once, from its first start to its stop; the limit follows arrivals and rechecks at once. */
  lemma RunsOnce(s: State, p: nat, rate: int)
    ensures Next(s, Start) == if s.phase.Waiting? then s.(phase := Running, actual := s.quality.bitrate) else s
    ensures Next(s, Stop).phase == if s.phase.Running? then Stopped else s.phase
    ensures Next(s, Estimate(p, rate)).peers == if p in s.peers then s.peers[p := rate] else s.peers
    ensures Next(s, Leave(p)).peers == s.peers - {p}
    ensures Next(s, Recheck(true)) == Apply(s, true)
    ensures Next(s, Arrive(p, rate, true)) == Apply(s.(peers := s.peers[p := rate]), true)
  {
    hide Limit, Parked;
  }

  // ---- The object ----

  /** The WebRTC service's side of the rate, and the media service it calls. */
  class Service {
    var phase: Phase
    var quality: Quality
    var actual: int
    var recorded: int
    var peers: map<nat, int>
    ghost var calls: seq<Outcome>

    ghost function Value(): State
      reads this
    {
      State(phase, quality, actual, recorded, peers, calls)
    }

    constructor (q: Quality)
      ensures Value() == State(Waiting, q, q.bitrate, q.bitrate, map[], [])
    {
      phase, quality, actual, recorded, peers, calls := Waiting, q, q.bitrate, q.bitrate, map[], [];
    }

    /** The media service's live rate change. */
    method MediaSetBitrate(rate: int, works: bool) returns (outcome: Outcome)
      modifies this`actual, this`calls
      ensures Value() == SetBitrate(old(Value()), rate, works)
      ensures outcome == SetOutcome(old(Value()), rate, works)
    {
      outcome :=
        if rate < MIN_RATE then TooLow
        else if !phase.Running? then NotRunning
        else if rate > quality.bitrate then TooHigh
        else if !works then Failed
        else Accepted;
      if outcome.Accepted? { actual := rate; }
      calls := calls + [outcome];
    }

    /** The least of the requested rate and the estimates, never below 100. */
    method FindLimit() returns (rate: int)
      ensures rate == Limit(peers, quality.bitrate)
    {
      rate := quality.bitrate;
      var left, seen := peers, map[];
      while left != map[]
        invariant forall p | p in seen :: p in peers && seen[p] == peers[p]
        invariant forall p | p in left :: p in peers && left[p] == peers[p] && p !in seen
        invariant forall p | p in peers :: p in left || p in seen
        invariant IsLeast(seen, quality.bitrate, rate)
        decreases |left|
      {
        var p :| p in left;
        LeastGrows(seen, quality.bitrate, rate, p, left[p]);
        if left[p] / 1000 < rate { rate := left[p] / 1000; }
        seen := seen[p := left[p]];
        assert (left - {p}).Keys == left.Keys - {p};
        left := left - {p};
      }
      assert seen == peers;
      ghost var least := rate;
      if rate < MIN_RATE { rate := MIN_RATE; }
      assert IsLeast(peers, quality.bitrate, least) && rate == Max(least, MIN_RATE);
      LimitIsUnique(peers, quality.bitrate, rate, Limit(peers, quality.bitrate));
    }

    /** Applies the congestion limit. On success the recorded rate is the limit, or is close to it while the limit is below
        the requested rate; so full recovery always restores the requested rate. */
    method ApplyCongestion(works: bool) returns (ok: bool)
      modifies this`actual, this`recorded, this`calls
      ensures Value() == Apply(old(Value()), works)
      ensures ok ==> Parked(recorded, quality.bitrate, Limit(peers, quality.bitrate))
      ensures ok && Limit(peers, quality.bitrate) == quality.bitrate ==> recorded == quality.bitrate
      ensures !ok ==> recorded == old(recorded) && actual == old(actual)
    {
      hide Limit;
      var requested := quality.bitrate;
      var wanted := FindLimit();
      if wanted == recorded { return true; }
      var difference := wanted - recorded;
      if difference < 0 { difference := -difference; }
      if wanted != requested && difference < Max(MIN_STEP, recorded / STEP_DIVISOR) { return true; }
      var outcome := MediaSetBitrate(wanted, works);
      if !outcome.Accepted? { return false; }
      recorded := wanted;
      ok := true;
    }

    /** The quality update: the media service first, then the recorded rate, then the congestion limit. */
    method UpdateQuality(q: Quality, permitted: bool, works: bool, limitWorks: bool) returns (ok: bool)
      modifies this`quality, this`actual, this`recorded, this`calls
      ensures Value() == Next(old(Value()), Update(q, permitted, works, limitWorks))
      ensures ok ==> quality == q && Parked(recorded, q.bitrate, Limit(peers, q.bitrate))
    {
      hide Limit, Apply;
      if !permitted || !ValuesOk(q) || !phase.Running? { return false; }
      if q != quality {
        if !works { return false; }
        actual := q.bitrate;
        quality := q;
      }
      recorded := q.bitrate;
      assert Value() == Updated(old(Value()), q);
      ok := ApplyCongestion(limitWorks);
    }
  }
}
