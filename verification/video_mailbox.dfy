/** The one-place video mailbox of a peer and the keyframe gate before it (webrtc/media_transport.go, webrtc/peer.go,
    webrtc/service.go). The producer, the consumer and target selection run concurrently; each atomic access or locked
    section is one step. */
module VideoMailbox {

  import opened Options

  datatype Sample = Sample(keyFrame: bool, payload: nat)

  /** Put: a pending keyframe is not replaced by a delta frame. */
  function Put(pending: Option<Sample>, sample: Sample): (Option<Sample>, bool, bool) {
    if pending.Some? && pending.value.keyFrame && !sample.keyFrame then (pending, false, false)
    else (Some(sample), true, pending.Some?)
  }

  class Mailbox {
    var pending: Option<Sample>
    var wake: bool

    constructor ()
      ensures pending == None && !wake
    {
      pending, wake := None, false;
    }

    method PutSample(sample: Sample) returns (accepted: bool, replaced: bool)
      modifies this
      ensures (pending, accepted, replaced) == Put(old(pending), sample)
      ensures wake == (old(wake) || accepted)
    {
      if pending.Some? && pending.value.keyFrame && !sample.keyFrame { return false, false; }
      replaced := pending.Some?;
      pending := Some(sample);
      wake := true;
      accepted := true;
    }

    method TakeSample() returns (found: Option<Sample>)
      modifies this`pending
      ensures found == old(pending) && pending == None
    {
      found := pending;
      pending := None;
    }
  }

  // ---- runs

  /** The producer in enqueueVideo. */
  datatype Producer =
    | Idle
    | Passed(sample: Sample)   // the keyframe gate let it through
    | Opening                  // a keyframe was put; the gate is about to open

  datatype Consumer = Looking | Waiting

  /** `gate` is videoNeedsKeyframe. `raced` records that a selection cleared the mailbox at a moment that lets
      a delta frame in. */
  datatype State = State(
    connected: bool, gate: bool, pending: Option<Sample>, wake: bool, producer: Producer, consumer: Consumer,
    selecting: bool, seen: nat, dropped: nat, cleared: nat, taken: seq<Sample>, raced: bool)

  const Initial := State(false, false, None, false, Idle, Looking, false, 0, 0, 0, [], false)

  datatype Step =
    | Connect
    | Disconnect
    | Enqueue(sample: Sample)
    | Produce
    | Consume
    | ReceiveToken
    | Select                 // SelectTarget closes the gate
    | Clear                  // and then clears the mailbox
    | TargetLost             // in the producer's own goroutine

  /** A clear after which no delta frame can get in before the next keyframe. */
  predicate CleanClear(s: State) {
    match s.producer
    case Idle => s.gate || !s.connected
    case Passed(sample) => sample.keyFrame
    case Opening => false
  }

  function ClearPending(s: State): State {
    s.(pending := None, cleared := s.cleared + (if s.pending.Some? then 1 else 0))
  }

  function ProduceNext(s: State): State {
    match s.producer
    case Idle => s
    case Opening => s.(gate := false, producer := Idle)
    case Passed(sample) =>
      var r := Put(s.pending, sample);
      s.(pending := r.0, wake := s.wake || r.1, dropped := s.dropped + (if !r.1 || r.2 then 1 else 0),
         producer := if r.1 && sample.keyFrame then Opening else Idle)
  }

  function Next(s: State, step: Step): State {
    match step
    case Connect => s.(gate := true, connected := true)
    case Disconnect => s.(connected := false)
    case Enqueue(sample) =>
      if !s.connected || !s.producer.Idle? then s
      else if s.gate && !sample.keyFrame then s.(seen := s.seen + 1, dropped := s.dropped + 1)
      else s.(seen := s.seen + 1, producer := Passed(sample))
    case Produce => ProduceNext(s)
    case Consume =>
      if s.consumer.Waiting? then s
      else if s.pending.Some? then s.(pending := None, taken := s.taken + [s.pending.value])
      else s.(consumer := Waiting)
    case ReceiveToken =>
      if s.wake && s.consumer.Waiting? then s.(wake := false, consumer := Looking) else s
    case Select => if s.connected then s.(gate := true, selecting := true) else s
    case Clear =>
      if s.selecting then ClearPending(s).(selecting := false, raced := s.raced || (s.taken == [] && !CleanClear(s))) else s
    case TargetLost => if s.producer.Idle? then ClearPending(s.(gate := true)) else s
  }

  function Exec(s: State, steps: seq<Step>): State {
    if steps == [] then s else Next(Exec(s, steps[..|steps| - 1]), steps[|steps| - 1])
  }

  function Count(b: bool): nat { if b then 1 else 0 }

  /** Every sample seen is dropped, taken, cleared, pending or on its way in. */
  ghost predicate Accounted(s: State) {
    s.seen == s.dropped + |s.taken| + s.cleared + Count(s.pending.Some?) + Count(s.producer.Passed?)
  }

  /** Until the first take a pending sample is a keyframe, and a sample past the gate finds one pending. */
  ghost predicate OpensWithKey(s: State) {
    if s.taken != [] then s.taken[0].keyFrame
    else
      && (s.pending.Some? ==> s.pending.value.keyFrame)
      && (!CleanClear(s) ==> s.pending.Some?)
  }

  ghost predicate Invariant(s: State) {
    && Accounted(s)
    && (s.pending.Some? ==> s.wake || s.consumer.Looking?)
    && (!s.raced ==> OpensWithKey(s))
  }

  lemma ProduceAccounts(s: State)
    requires Accounted(s)
    ensures Accounted(ProduceNext(s))
  {
  }

  lemma StepAccounts(s: State, step: Step)
    requires Accounted(s)
    ensures Accounted(Next(s, step))
  {
    hide ProduceNext, CleanClear;
    match step
    case Produce => ProduceAccounts(s);
    case Consume =>
    case Clear =>
    case TargetLost =>
    case _ => hide ClearPending;
  }

  lemma StepOpensWithKey(s: State, step: Step)
    requires !s.raced ==> OpensWithKey(s)
    ensures !Next(s, step).raced ==> OpensWithKey(Next(s, step))
  {
    match step
    case Produce => ProduceOpensWithKey(s);
    case Clear =>
    case TargetLost =>
    case _ => hide ClearPending;
  }

  lemma ProduceOpensWithKey(s: State)
    requires !s.raced ==> OpensWithKey(s)
    ensures !s.raced ==> OpensWithKey(ProduceNext(s))
  {
  }

  lemma StepKeeps(s: State, step: Step)
    requires Invariant(s)
    ensures Invariant(Next(s, step))
  {
    hide Accounted, OpensWithKey;
    StepAccounts(s, step);
    StepOpensWithKey(s, step);
  }

  lemma {:induction false} RunsKeep(steps: seq<Step>)
    ensures Invariant(Exec(Initial, steps))
  {
    if steps != [] {
      RunsKeep(steps[..|steps| - 1]);
      StepKeeps(Exec(Initial, steps[..|steps| - 1]), steps[|steps| - 1]);
    }
  }

  /** In every run no wake-up is lost, and without a clear every sample seen was dropped, taken or is pending. */
  lemma NothingIsLost(steps: seq<Step>)
    ensures var s := Exec(Initial, steps);
      && (s.pending.Some? ==> s.wake || s.consumer.Looking?)
      && (s.cleared == 0 && !s.producer.Passed? ==> s.seen == s.dropped + |s.taken| + Count(s.pending.Some?))
  {
    RunsKeep(steps);
  }

  /** The first sample a peer takes is a keyframe in every run in which each clear before it is clean: a target selection's
      clear finds a keyframe about to be put, or no sample under way and the gate closed or the peer unconnected. */
  lemma FirstTakenIsKey(steps: seq<Step>)
    ensures var s := Exec(Initial, steps);
      !s.raced && s.taken != [] ==> s.taken[0].keyFrame
  {
    RunsKeep(steps);
  }

  lemma Extend(s: State, steps: seq<Step>, step: Step) returns (more: seq<Step>)
    ensures more == steps + [step] && Exec(s, more) == Next(Exec(s, steps), step)
  {
    more := steps + [step];
    assert more[..|steps|] == steps;
  }

  /** What the producer's put leaves behind. */
  ghost predicate DeltaPending(t: State, s: State) {
    t.pending.Some? && !t.pending.value.keyFrame && t.wake && t.taken == s.taken
  }

  lemma PutDelta(s: State)
    requires s.pending.None? && s.producer.Passed? && !s.producer.sample.keyFrame
    ensures DeltaPending(Next(s, Produce), s)
  {
  }

  /** With the gate open, a delta frame is offered and put. */
  lemma OfferedGetsIn(s: State)
    requires s.connected && s.pending.None? && s.producer.Idle? && !s.gate
    ensures DeltaPending(Exec(s, [Enqueue(Sample(false, 1)), Produce]), s)
  {
    var t := Next(s, Enqueue(Sample(false, 1)));
    TwoSteps(s, Enqueue(Sample(false, 1)), Produce);
    PutDelta(t);
  }

  /** A keyframe opens the gate, also for a peer that has just connected. */
  lemma GateOpens(s: State)
    requires s.producer.Opening?
    ensures Exec(s, [Connect, Produce]) == s.(connected := true, gate := false, producer := Idle)
  {
    TwoSteps(s, Connect, Produce);
  }

  lemma TwoSteps(s: State, a: Step, b: Step)
    ensures Exec(s, [a, b]) == Next(Next(s, a), b)
  {
    hide Next;
    assert [a, b][..1] == [a] && [a][..0] == [];
    assert Exec(s, [a]) == Next(Exec(s, []), a);
  }

  lemma {:induction false} ExecAppends(s: State, a: seq<Step>, b: seq<Step>)
    ensures Exec(s, a + b) == Exec(Exec(s, a), b)
    decreases |b|
  {
    if b == [] {
      assert a + b == a;
    } else {
      var rest := b[..|b| - 1];
      assert (a + b)[..|a + b| - 1] == a + rest && (a + b)[|a + b| - 1] == b[|b| - 1];
      ExecAppends(s, a, rest);
      hide Next;
    }
  }

  /** With an empty mailbox and an unclean moment, the producer can put a delta frame. */
  lemma DeltaGetsIn(s: State) returns (steps: seq<Step>)
    requires s.pending.None? && !CleanClear(s)
    ensures Clear !in steps && Select !in steps
    ensures DeltaPending(Exec(s, steps), s)
  {
    hide Exec, Next;
    var offer := [Enqueue(Sample(false, 1)), Produce];
    match s.producer
    case Passed(_) =>
      steps := Extend(s, [], Produce);
      NoSteps(s);
      PutDelta(s);
    case Idle =>
      steps := offer;
      OfferedGetsIn(s);
    case Opening =>
      steps := [Connect, Produce] + offer;
      GateOpens(s);
      OfferedGetsIn(s.(connected := true, gate := false, producer := Idle));
      ExecAppends(s, [Connect, Produce], offer);
  }

  lemma NoSteps(s: State)
    ensures Exec(s, []) == s
  {
  }

  /** The condition on clears is exact: after any other clear before the first take, some run takes a delta frame first
      although no selection interferes again. */
  lemma UncleanClearMayLeaveDeltaFirst(s: State) returns (steps: seq<Step>)
    requires s.selecting && s.taken == [] && !CleanClear(s)
    ensures Clear !in steps && Select !in steps
    ensures var t := Exec(Next(s, Clear), steps); t.taken != [] && !t.taken[0].keyFrame
  {
    var c := Next(s, Clear);
    steps := DeltaGetsIn(c);
    hide Exec, CleanClear;
    steps := Extend(c, steps, ReceiveToken);
    steps := Extend(c, steps, Consume);
  }

  /** And such a state is reachable: a keyframe is put and opens the gate, then a target is selected while a delta frame
      is past the gate. */
  lemma UncleanClearIsReachable() returns (steps: seq<Step>)
    ensures var s := Exec(Initial, steps); s.selecting && s.taken == [] && !CleanClear(s)
  {
    steps := [];
    assert Exec(Initial, steps) == Initial;
    hide Exec;
    steps := Extend(Initial, steps, Connect);
    steps := Extend(Initial, steps, Enqueue(Sample(true, 0)));
    steps := Extend(Initial, steps, Produce);
    steps := Extend(Initial, steps, Produce);
    steps := Extend(Initial, steps, Enqueue(Sample(false, 1)));
    steps := Extend(Initial, steps, Select);
  }

  /** Only a delta frame behind a pending keyframe is refused; any other sample is what is pending afterwards. */
  lemma PutKeepsBest(pending: Option<Sample>, sample: Sample)
    ensures var (after, accepted, replaced) := Put(pending, sample);
      && (!accepted <==> pending.Some? && pending.value.keyFrame && !sample.keyFrame)
      && after == (if accepted then Some(sample) else pending)
      && (replaced <==> accepted && pending.Some?)
  {
  }

  /** A sample that a connected peer may have gets through: a keyframe always, a delta frame once the gate is open and no
      keyframe is pending. A keyframe opens the gate. */
  lemma SampleGetsThrough(s: State, sample: Sample)
    requires s.connected && s.producer.Idle?
    requires sample.keyFrame || (!s.gate && !(s.pending.Some? && s.pending.value.keyFrame))
    ensures var t := Exec(s, [Enqueue(sample), Produce, Produce]);
      && t.pending == Some(sample) && t.producer.Idle? && (sample.keyFrame ==> !t.gate) && t.seen == s.seen + 1 && t.connected
      && Exec(t, [ReceiveToken, Consume]).taken == s.taken + [sample]
  {
    var e := Enqueue(sample);
    TwoSteps(s, e, Produce);
    Snoc(s, [e, Produce], Produce);
    assert [e, Produce] + [Produce] == [e, Produce, Produce];
    SampleIsPut(s, sample);
    hide Exec, Next;
    var t := Exec(s, [e, Produce, Produce]);
    TwoSteps(t, ReceiveToken, Consume);
    SampleIsTaken(t, sample);
  }

  lemma SampleIsPut(s: State, sample: Sample)
    requires s.connected && s.producer.Idle?
    requires sample.keyFrame || (!s.gate && !(s.pending.Some? && s.pending.value.keyFrame))
    ensures var t := Next(Next(Next(s, Enqueue(sample)), Produce), Produce);
      && t.pending == Some(sample) && t.producer.Idle? && (sample.keyFrame ==> !t.gate) && t.seen == s.seen + 1
      && t.connected && t.taken == s.taken && t.wake
  {
    var a := Next(s, Enqueue(sample));
    assert a == s.(seen := s.seen + 1, producer := Passed(sample));
    var b := Next(a, Produce);
    assert b.pending == Some(sample) && b.wake && b.producer == if sample.keyFrame then Producer.Opening else Idle;
  }

  lemma SampleIsTaken(t: State, sample: Sample)
    requires t.pending == Some(sample) && t.wake
    ensures Next(Next(t, ReceiveToken), Consume).taken == t.taken + [sample]
  {
  }

  lemma Snoc(s: State, steps: seq<Step>, step: Step)
    ensures Exec(s, steps + [step]) == Next(Exec(s, steps), step)
  {
    assert (steps + [step])[..|steps|] == steps;
  }

  /** A delta frame before the gate is open is dropped, and a peer that is not connected sees nothing. */
  lemma GateHoldsBack(s: State, sample: Sample)
    ensures !s.connected ==> Next(s, Enqueue(sample)) == s
    ensures s.connected && s.producer.Idle? && s.gate && !sample.keyFrame ==>
      Next(s, Enqueue(sample)) == s.(seen := s.seen + 1, dropped := s.dropped + 1)
    ensures Next(s, Connect).gate && Next(s, Connect).connected && !Next(s, Disconnect).connected
    ensures s.connected ==> Next(s, Select).gate && Next(Next(s, Select), Clear).pending.None?
    ensures s.producer.Idle? ==> Next(s, TargetLost).gate && Next(s, TargetLost).pending.None?
  {
  }

  /** A consumer waits until the token comes, one that waits takes nothing, and a clear follows its selection. */
  lemma ConsumerWaits(s: State)
    ensures Next(s, ReceiveToken) == if s.wake && s.consumer.Waiting? then s.(wake := false, consumer := Looking) else s
    ensures s.consumer.Waiting? ==> Next(s, Consume) == s
    ensures s.consumer.Looking? && s.pending.None? ==> Next(s, Consume) == s.(consumer := Waiting)
    ensures !s.connected ==> Next(s, Select) == s
    ensures !s.selecting ==> Next(s, Clear) == s
    ensures s.selecting ==> !Next(s, Clear).selecting && (Next(s, Clear).raced <==> s.raced || (s.taken == [] && !CleanClear(s)))
  {
  }
}
