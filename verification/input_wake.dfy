/** The worker's wake token (input/controller.go): appending an entry leaves a token, coalescing into one does not, and the
    worker that receives it drains the queue before it waits again. */
module InputWake {
  import opened Options
  import opened InputEvents
  import opened InputController
  import opened InputSafety
  import opened InputHistory

  datatype Worker = Waiting | Draining | Stopped

  datatype Controlled = Controlled(state: State, wake: bool, worker: Worker)

  const AtStart := Controlled(Initial, false, Waiting)

  datatype Turn =
    | Call(step: Step)     // any call on the controller
    | Receive              // the worker takes the token
    | Drain                // its next look at the queue
    | Deliver              // the entry it took
    | Stop                 // the stop channel of a closed controller

  /** The submit puts a new entry at the end of the queue. */
  predicate Appends(cfg: Config, s: State, owner: nat, e: Event) {
    && !s.closed && owner in s.owners && Enabled(cfg, e).Done?
    && MergeLast(s.queue, Queued(owner, s.owners[owner].generation, e), cfg.limit).None?
    && s.owners[owner].queued < cfg.queueSize
  }

  function Turned(cfg: Config, c: Controlled, turn: Turn, env: Environment): Controlled {
    match turn
    case Call(step) =>
      if step.Dequeuing? || step.Handling? then c
      else c.(state := Next(cfg, c.state, step, env),
              wake := c.wake || (step.Submitting? && Appends(cfg, c.state, step.owner, step.event)))
    case Receive => if c.wake && c.worker.Waiting? then c.(wake := false, worker := Draining) else c
    case Drain =>
      if !c.worker.Draining? || c.state.inFlight.Some? then c
      else if c.state.queue == [] then c.(worker := Waiting)
      else c.(state := Dequeue(c.state))
    case Deliver => if c.worker.Draining? then c.(state := Handle(c.state, env)) else c
    case Stop => if c.state.closed && c.worker.Waiting? then c.(worker := Stopped) else c
  }

  function Play(cfg: Config, c: Controlled, turns: seq<Turn>, env: Environment): Controlled {
    if turns == [] then c else Turned(cfg, Play(cfg, c, turns[..|turns| - 1], env), turns[|turns| - 1], env)
  }

  /** A queue that is not empty has a worker at it, or one that will find the token. */
  ghost predicate Awake(cfg: Config, c: Controlled) {
    && Safe(cfg, c.state)
    && (c.state.inFlight.Some? ==> c.worker.Draining?)
    && (c.worker.Stopped? ==> c.state.closed)
    && (c.state.queue != [] ==> c.wake || c.worker.Draining?)
  }

  lemma NoOwnersNoQueue(cfg: Config, s: State)
    requires Safe(cfg, s) && s.owners == map[]
    ensures s.queue == []
  {
    assert s.queue == [] || Live(s, s.queue[0]);
  }

  /** The call leaves the worker's entry alone and fills an empty queue only as `appends` says. */
  ghost predicate Fills(s: State, t: State, appends: bool) {
    t.inFlight == s.inFlight && (s.closed ==> t.closed) && (s.queue == [] && t.queue != [] ==> appends)
  }

  lemma SubmitFills(cfg: Config, s: State, owner: nat, e: Event, env: Environment)
    ensures Fills(s, Submit(cfg, s, owner, e, env).0, Appends(cfg, s, owner, e))
  {
    hide RevokeOwner, MergeLast, Enabled;
    RevokedQueue(s, owner, env);
    if owner in s.owners {
      MergeLastKeepsLease(s.queue, Queued(owner, s.owners[owner].generation, e), cfg.limit);
    }
  }

  lemma CallFills(cfg: Config, s: State, step: Step, env: Environment)
    requires Safe(cfg, s) && !step.Dequeuing? && !step.Handling?
    ensures Fills(s, Next(cfg, s, step, env), step.Submitting? && Appends(cfg, s, step.owner, step.event))
  {
    hide HeldExcept, LeasesOk, QueueOk, Appends, Submit, RevokeOwner, RevokeAll;
    match step
    case Submitting(owner, e) => SubmitFills(cfg, s, owner, e, env);
    case Releasing(owner) => RevokedQueue(s, owner, env);
    case Revoking => AllRevokedQueue(s, env);
    case Closing => AllRevokedQueue(s.(closed := true), env);
    case _ =>
  }

  lemma RevokedQueue(s: State, owner: nat, env: Environment)
    ensures var t := RevokeOwner(s, owner, env);
      t.inFlight == s.inFlight && t.closed == s.closed && (s.queue == [] ==> t.queue == [])
  {
    RevokeOwnerLetsGo(s, owner, env);
  }

  lemma AllRevokedQueue(s: State, env: Environment)
    ensures var t := RevokeAll(s, env);
      t.inFlight == s.inFlight && t.closed == s.closed && (s.queue == [] ==> t.queue == [])
  {
    RevokeAllLetsGo(s, env);
    RevokeAllHistory(s, env);
    hide RevokeAll;
    var t := RevokeAll(s, env);
    assert t.queue == [] || t.queue[0] in s.queue;
  }

  lemma DequeueTakes(s: State)
    requires s.queue != [] && s.inFlight.None?
    ensures Dequeue(s).queue == s.queue[1..] && Dequeue(s).inFlight == Some(s.queue[0]) && Dequeue(s).closed == s.closed
  {
  }

  /** The queue is as it was, unless every lease has ended. */
  ghost predicate Leaves(s: State, t: State) {
    t.inFlight == s.inFlight && t.closed == s.closed && (t.queue == s.queue || t.owners == map[])
  }

  lemma FailureLeaves(s: State, q: Queued, env: Environment)
    ensures Leaves(s, FailDelivery(s, q, env)) && Leaves(s, FailDelivery(s.(calls := s.calls + [ForEvent(q, env(|s.calls|))]), q, env))
  {
    hide FailDelivery;
    FailDeliveryHistory(s, q, env);
    FailDeliveryHistory(s.(calls := s.calls + [ForEvent(q, env(|s.calls|))]), q, env);
  }

  lemma DeliverLeaves(s: State, q: Queued, env: Environment)
    requires q.owner in s.owners && s.sender.Some?
    ensures Leaves(s, InputController.Deliver(s, q, env))
  {
    FailureLeaves(s, q, env);
    SameLeaves(s, q, env);
    hide FailDelivery, Leaves, Toggle;
    match q.event
    case Press(_, code, hold) => ToggleLeaves(s, q, code, hold, env);
    case _ =>
  }

  lemma SameLeaves(s: State, q: Queued, env: Environment)
    ensures Leaves(s, s) && Leaves(s, s.(calls := s.calls + [ForEvent(q, env(|s.calls|))]))
  {
  }

  lemma ToggleLeaves(s: State, q: Queued, code: Code, hold: bool, env: Environment)
    requires q.owner in s.owners
    ensures Leaves(s, Toggle(s, q, code, hold, env))
  {
    FailureLeaves(s, q, env);
    hide FailDelivery;
  }

  /** Delivering leaves the queue as it is, or empties it because every lease has ended. */
  lemma DeliveryLeavesQueue(cfg: Config, s: State, env: Environment)
    requires Safe(cfg, s)
    ensures var t := Handle(s, env);
      t.inFlight == None && t.closed == s.closed && (t.queue == s.queue || t.queue == [])
  {
    IsHandle(cfg, s, env);
    hide Safe;
    if s.inFlight.Some? && !s.closed && Live(s, s.inFlight.value) && s.sender.Some? {
      DeliverLeaves(s.(inFlight := None, delivered := s.delivered + [s.inFlight.value]), s.inFlight.value, env);
      hide InputController.Deliver;
      if Handle(s, env).owners == map[] { NoOwnersNoQueue(cfg, Handle(s, env)); }
    }
  }

  lemma TurnKeepsAwake(cfg: Config, c: Controlled, turn: Turn, env: Environment)
    requires Awake(cfg, c)
    ensures Awake(cfg, Turned(cfg, c, turn, env))
  {
    hide Next, Dequeue, Handle, Safe, Appends;
    match turn
    case Call(step) =>
      if !step.Dequeuing? && !step.Handling? {
        StepKeeps(cfg, c.state, step, env);
        CallFills(cfg, c.state, step, env);
      }
    case Drain =>
      if c.state.queue != [] && c.state.inFlight.None? {
        IsDequeue(cfg, c.state, env);
        DequeueTakes(c.state);
      }
    case Deliver =>
      IsHandle(cfg, c.state, env);
      DeliveryLeavesQueue(cfg, c.state, env);
    case _ =>
  }

  lemma IsDequeue(cfg: Config, s: State, env: Environment)
    requires Safe(cfg, s)
    ensures Safe(cfg, Dequeue(s))
  {
    hide Safe, Dequeue;
    StepKeeps(cfg, s, Dequeuing, env);
  }

  lemma IsHandle(cfg: Config, s: State, env: Environment)
    requires Safe(cfg, s)
    ensures Safe(cfg, Handle(s, env))
  {
    hide Safe, Handle;
    StepKeeps(cfg, s, Handling, env);
  }

  /** In every run a queue that is not empty has a token or a draining worker, although coalescing sends no token. */
  lemma {:induction false} NoWakeUpIsLost(cfg: Config, turns: seq<Turn>, env: Environment)
    ensures Awake(cfg, Play(cfg, AtStart, turns, env))
    ensures var c := Play(cfg, AtStart, turns, env);
      c.state.queue != [] ==> c.worker.Draining? || (c.worker.Waiting? && c.wake)
  {
    if turns == [] {
      RunsAreSafe(cfg, [], env);
    } else {
      NoWakeUpIsLost(cfg, turns[..|turns| - 1], env);
      TurnKeepsAwake(cfg, Play(cfg, AtStart, turns[..|turns| - 1], env), turns[|turns| - 1], env);
    }
    var c := Play(cfg, AtStart, turns, env);
    hide Play, Turned;
    if c.state.closed { NoOwnersNoQueue(cfg, c.state); }
  }

  lemma {:induction false} WithoutOwnerShorter(queue: seq<Queued>, owner: nat)
    ensures |WithoutOwner(queue, owner)| <= |queue|
  {
    if queue != [] { WithoutOwnerShorter(queue[..|queue| - 1], owner); }
  }

  /** A submit leaves a token exactly if it makes the queue longer. */
  lemma TokenForEachAppend(cfg: Config, s: State, owner: nat, e: Event, env: Environment)
    ensures |Submit(cfg, s, owner, e, env).0.queue| > |s.queue| <==> Appends(cfg, s, owner, e)
  {
    RevokedShorter(s, owner, env);
    if owner in s.owners {
      MergeLastKeepsLease(s.queue, Queued(owner, s.owners[owner].generation, e), cfg.limit);
    }
    hide RevokeOwner, MergeLast, Enabled;
  }

  lemma RevokedShorter(s: State, owner: nat, env: Environment)
    ensures |RevokeOwner(s, owner, env).queue| <= |s.queue|
  {
    WithoutOwnerShorter(s.queue, owner);
  }

  /** A waiting worker takes the token and drains; one with nothing left waits again; the stop channel ends a waiting one. */
  lemma WorkerTurns(cfg: Config, c: Controlled, step: Step, env: Environment)
    ensures !step.Dequeuing? && !step.Handling? ==> Turned(cfg, c, Call(step), env).state == Next(cfg, c.state, step, env)
    ensures Turned(cfg, c, Receive, env) == if c.wake && c.worker == Waiting then Controlled(c.state, false, Draining) else c
    ensures c.worker == Draining && c.state.inFlight.None? && c.state.queue == [] ==>
      Turned(cfg, c, Drain, env) == Controlled(c.state, c.wake, Waiting)
    ensures c.worker != Draining ==> Turned(cfg, c, Drain, env) == Turned(cfg, c, Turn.Deliver, env) == c
    ensures Turned(cfg, c, Stop, env) == if c.state.closed && c.worker == Waiting then c.(worker := Stopped) else c
  {
    hide Handle, Dequeue, Next;
  }

  lemma {:induction false} PlayAppends(cfg: Config, c: Controlled, a: seq<Turn>, b: seq<Turn>, env: Environment)
    ensures Play(cfg, c, a + b, env) == Play(cfg, Play(cfg, c, a, env), b, env)
    decreases |b|
  {
    if b == [] {
      assert a + b == a;
    } else {
      var rest := b[..|b| - 1];
      assert (a + b)[..|a + b| - 1] == a + rest && (a + b)[|a + b| - 1] == b[|b| - 1];
      PlayAppends(cfg, c, a, rest, env);
      hide Turned;
    }
  }

  lemma PlayOne(cfg: Config, c: Controlled, turn: Turn, env: Environment)
    ensures Play(cfg, c, [turn], env) == Turned(cfg, c, turn, env) && Play(cfg, c, [], env) == c
  {
    hide Turned;
    assert [turn][..0] == [];
  }

  ghost function Distance(c: Controlled): nat {
    2 * |c.state.queue| + (if c.state.inFlight.Some? then 1 else 0) + (if c.worker.Draining? then 0 else 1)
  }

  /** The worker's own next turn while there is something to deliver. */
  function WorkerTurn(c: Controlled): Turn {
    if !c.worker.Draining? then Receive else if c.state.inFlight.Some? then Deliver else Drain
  }

  lemma TurnIsNearer(cfg: Config, c: Controlled, env: Environment)
    requires Awake(cfg, c) && (c.state.queue != [] || c.state.inFlight.Some?)
    ensures Distance(Turned(cfg, c, WorkerTurn(c), env)) < Distance(c)
  {
    if c.state.closed { NoOwnersNoQueue(cfg, c.state); }
    if c.state.inFlight.Some? {
      DeliveryLeavesQueue(cfg, c.state, env);
    } else {
      DequeueTakes(c.state);
    }
    hide Dequeue, Handle, Safe;
  }

  /** From every reachable state the worker's own turns deliver everything that is queued. */
  lemma {:induction false} WorkerCanDrain(cfg: Config, c: Controlled, env: Environment) returns (turns: seq<Turn>)
    requires Awake(cfg, c)
    ensures var d := Play(cfg, c, turns, env); d.state.queue == [] && d.state.inFlight.None?
    ensures forall i | 0 <= i < |turns| :: !turns[i].Call? && !turns[i].Stop?
    decreases Distance(c)
  {
    hide Play, Turned;
    var turn := WorkerTurn(c);
    PlayOne(cfg, c, turn, env);
    if c.state.queue == [] && c.state.inFlight.None? {
      turns := [];
    } else {
      TurnIsNearer(cfg, c, env);
      TurnKeepsAwake(cfg, c, turn, env);
      hide Awake, Distance;
      var rest := WorkerCanDrain(cfg, Turned(cfg, c, turn, env), env);
      PlayAppends(cfg, c, [turn], rest, env);
      turns := [turn] + rest;
    }
  }
}
