/** What the sender is told against what passed the worker's lease check (input/controller.go): the transcript of event calls
    is the delivered events in order, and every event left out is one the sender has no use for. */
module InputTranscript {
  import opened Options
  import opened InputEvents
  import opened InputController
  import opened InputSafety

  /** The events of the sender calls made on behalf of events. */
  ghost function Sent(calls: seq<Call>): seq<Queued> {
    if calls == [] then []
    else
      var before, last := Sent(calls[..|calls| - 1]), calls[|calls| - 1];
      if last.ForEvent? then before + [last.queued] else before
  }

  /** The worker makes no sender call for the entry: its owner already holds or has let go of the code, the code stays down
      for another owner, the sender takes no text, or the type is one that no submit accepts. */
  predicate Skipped(s: State, q: Queued)
    requires q.owner in s.owners && s.sender.Some?
  {
    match q.event
    case Press(_, c, hold) =>
      (c in s.owners[q.owner].held) == hold || CountOf(s.pressed, c) != (if hold then 0 else 1)
    case Text(_, _) => !s.sender.value
    case Unknown(_) => true
    case _ => false
  }

  /** The entry the worker holds passes the lease check. */
  predicate Passes(s: State) {
    s.inFlight.Some? && !s.closed && Live(s, s.inFlight.value) && s.sender.Some?
  }

  lemma {:induction false} LettingGoSendsNothing(a: seq<Call>, b: seq<Call>)
    requires a <= b && forall i | |a| <= i < |b| :: b[i].LetGo?
    ensures Sent(b) == Sent(a)
  {
    if |a| == |b| {
      assert a == b;
    } else {
      LettingGoSendsNothing(a, b[..|b| - 1]);
    }
  }

  lemma SentSnoc(calls: seq<Call>, q: Queued, ok: bool)
    ensures Sent(calls + [ForEvent(q, ok)]) == Sent(calls) + [q]
  {
    assert (calls + [ForEvent(q, ok)])[..|calls|] == calls;
  }

  lemma FailureSendsNothing(s: State, q: Queued, env: Environment)
    ensures Sent(FailDelivery(s, q, env).calls) == Sent(s.calls) && FailDelivery(s, q, env).delivered == s.delivered
  {
    FailDeliveryLetsGo(s, q, env);
    LettingGoSendsNothing(s.calls, FailDelivery(s, q, env).calls);
  }

  lemma DeliverSends(s: State, q: Queued, env: Environment)
    requires q.owner in s.owners && s.sender.Some?
    ensures Sent(Deliver(s, q, env).calls) == Sent(s.calls) + if Skipped(s, q) then [] else [q]
    ensures Deliver(s, q, env).delivered == s.delivered
  {
    hide FailDelivery, Sent;
    var called := s.(calls := s.calls + [ForEvent(q, env(|s.calls|))]);
    SentSnoc(s.calls, q, env(|s.calls|));
    FailureSendsNothing(called, q, env);
    FailureSendsNothing(s, q, env);
  }

  /** The entry that a step takes past the lease check, if it does. */
  function Taken(s: State, step: Step): seq<Queued> {
    if step.Handling? && Passes(s) then [s.inFlight.value] else []
  }

  /** The entry that a step delivers and does not skip. */
  function Kept(s: State, step: Step): seq<Queued> {
    if step.Handling? && Passes(s) && !Skipped(s, s.inFlight.value) then [s.inFlight.value] else []
  }

  /** One step of any kind: the sender hears of an event exactly when the worker delivers one that is not skipped. */
  lemma StepSends(cfg: Config, s: State, step: Step, env: Environment)
    ensures Next(cfg, s, step, env).delivered == s.delivered + Taken(s, step)
    ensures Sent(Next(cfg, s, step, env).calls) == Sent(s.calls) + Kept(s, step)
  {
    hide Sent, Deliver, RevokeAll, RevokeOwner, MergeLast, Enabled;
    match step
    case Handling =>
      if Passes(s) {
        DeliverSends(s.(inFlight := None, delivered := s.delivered + [s.inFlight.value]), s.inFlight.value, env);
      }
    case Submitting(owner, e) => RevocationSends(s, owner, env);
    case Releasing(owner) => RevocationSends(s, owner, env);
    case Revoking => RevocationOfAllSends(s, env);
    case Closing => RevocationOfAllSends(s.(closed := true), env);
    case _ =>
  }

  lemma RevocationSends(s: State, owner: nat, env: Environment)
    ensures Sent(RevokeOwner(s, owner, env).calls) == Sent(s.calls) && RevokeOwner(s, owner, env).delivered == s.delivered
  {
    RevokeOwnerLetsGo(s, owner, env);
    LettingGoSendsNothing(s.calls, RevokeOwner(s, owner, env).calls);
  }

  lemma RevocationOfAllSends(s: State, env: Environment)
    ensures Sent(RevokeAll(s, env).calls) == Sent(s.calls) && RevokeAll(s, env).delivered == s.delivered
  {
    RevokeAllLetsGo(s, env);
    LettingGoSendsNothing(s.calls, RevokeAll(s, env).calls);
  }

  /** In a reachable state a skipped press is of a code the sender already holds down, and a skipped release is by an owner
      who does not hold the code or while another does. */
  lemma SkippedIsRedundant(cfg: Config, steps: seq<Step>, env: Environment, q: Queued)
    requires var s := Exec(cfg, Initial, steps, env);
      q.owner in s.owners && s.sender.Some? && q.event.Press? && Skipped(s, q)
    ensures var s := Exec(cfg, Initial, steps, env);
      var holders := Holders(s.owners, q.event.code);
      if q.event.pressed then q.event.code in Outstanding(s.calls) && q.event.code in Down(s.calls)
      else q.owner !in holders || exists o :: o in holders && o != q.owner
  {
    var s := Exec(cfg, Initial, steps, env);
    var c := q.event.code;
    HeldCodesAreCounted(cfg, steps, env);
    SenderAgrees(cfg, steps, env);
    hide Exec;
    var holders := Holders(s.owners, c);
    assert CountOf(s.pressed, c) == |holders|;
    assert q.owner in holders <==> c in s.owners[q.owner].held;
    if q.event.pressed {
      assert holders != {};
    } else if q.owner in holders {
      assert |holders - {q.owner}| > 0;
      var o :| o in holders - {q.owner};
    }
  }

  /** The entries that passed the lease check in a run, in order. */
  ghost function AllTaken(cfg: Config, steps: seq<Step>, env: Environment): seq<Queued> {
    if steps == [] then []
    else
      var front := steps[..|steps| - 1];
      AllTaken(cfg, front, env) + Taken(Exec(cfg, Initial, front, env), steps[|steps| - 1])
  }

  /** Those of them that were not skipped. */
  ghost function AllKept(cfg: Config, steps: seq<Step>, env: Environment): seq<Queued> {
    if steps == [] then []
    else
      var front := steps[..|steps| - 1];
      AllKept(cfg, front, env) + Kept(Exec(cfg, Initial, front, env), steps[|steps| - 1])
  }

  /** In every run the sender's event calls are the delivered events, in order, with exactly the skipped ones left out. */
  lemma {:induction false} TranscriptIsDelivered(cfg: Config, steps: seq<Step>, env: Environment)
    ensures Exec(cfg, Initial, steps, env).delivered == AllTaken(cfg, steps, env)
    ensures Sent(Exec(cfg, Initial, steps, env).calls) == AllKept(cfg, steps, env)
  {
    if steps != [] {
      var front := steps[..|steps| - 1];
      TranscriptIsDelivered(cfg, front, env);
      StepSends(cfg, Exec(cfg, Initial, front, env), steps[|steps| - 1], env);
      hide Next, Sent, Taken, Kept;
    }
  }
}
