/** What the calls on the input controller answer and change (input/controller.go): when a lease is granted, an event taken or
    coalesced, and a lease ended. */
module InputCalls {
  import opened Options
  import opened InputEvents
  import opened InputController
  import opened InputSafety
  import opened InputHistory

  /** The steps of a run are these calls. */
  lemma StepsAreCalls(cfg: Config, s: State, owner: nat, e: Event, status: Status, a: Authorization, text: bool, env: Environment)
    ensures Next(cfg, s, Attaching(a, text), env) == Attach(s, a, text).0
    ensures Next(cfg, s, Unavailable(a), env) == s.(authorization := a)
    ensures Next(cfg, s, Acquiring(owner, status), env) == Acquire(cfg, s, owner, status).0
    ensures Next(cfg, s, Submitting(owner, e), env) == Submit(cfg, s, owner, e, env).0
    ensures Next(cfg, s, Releasing(owner), env) == Release(s, owner, env).0
    ensures Next(cfg, s, Closing, env) == Close(s, env)
    ensures Next(cfg, s, Dequeuing, env) == Dequeue(s) && Next(cfg, s, Handling, env) == Handle(s, env)
  {
    hide Attach, Acquire, Submit, Release, Close, Dequeue, Handle;
  }

  // ---- leases

  /** Every configured device class is authorized and reported ready. */
  predicate DevicesReady(cfg: Config, authorization: Authorization, status: Status) {
    && (cfg.pointer ==> authorization.pointer && status.pointer)
    && (cfg.keyboard ==> authorization.keyboard && status.keyboard)
  }

  /** An owner without a lease has one after the call if and only if the controller is open and enabled, its sender attached
      and connected, its devices ready, and, under locking, nobody else owns input. A refusal changes nothing; a grant adds
      this lease, under the next number, and changes nothing else. */
  lemma AcquireGrantsExactly(cfg: Config, s: State, owner: nat, status: Status)
    requires owner !in s.owners
    ensures var (t, outcome) := Acquire(cfg, s, owner, status);
      && (owner in t.owners <==>
            && !s.closed && cfg.enabled && s.sender.Some? && status.connected
            && DevicesReady(cfg, s.authorization, status) && (cfg.locking ==> s.owners == map[]))
      && (outcome == Done <==> owner in t.owners)
      && (outcome.Failed? ==> t == s)
      && (outcome == Done ==>
            t == s.(generation := s.generation + 1, owners := s.owners[owner := Owner(s.generation + 1, 0, {})]))
  {
    assert |s.owners| == 0 <==> s.owners == map[];
  }

  /** An owner that has a lease keeps it as it is; the answer tells whether input is open, enabled and authorized. */
  lemma ReacquireKeepsLease(cfg: Config, s: State, owner: nat, status: Status)
    requires owner in s.owners
    ensures var (t, outcome) := Acquire(cfg, s, owner, status);
      && t == s
      && (outcome == Done <==>
            && !s.closed && cfg.enabled
            && (cfg.pointer ==> s.authorization.pointer) && (cfg.keyboard ==> s.authorization.keyboard))
  {
  }

  /** The answer names the first requirement that is not met, in the order of the checks. */
  lemma RefusalNamesFirstReason(cfg: Config, s: State, owner: nat, status: Status)
    requires owner !in s.owners
    ensures var outcome := Acquire(cfg, s, owner, status).1;
      && (outcome == Failed(Closed) <==> s.closed)
      && (outcome == Failed(Disabled) <==> !s.closed && !cfg.enabled)
      && (!s.closed && cfg.enabled ==>
            && (outcome == Failed(PointerUnauthorized) <==> cfg.pointer && !s.authorization.pointer)
            && (outcome == Failed(KeyboardUnauthorized) <==>
                  (cfg.pointer ==> s.authorization.pointer) && cfg.keyboard && !s.authorization.keyboard)
            && (outcome == Failed(Busy) ==> cfg.locking && s.owners != map[])
            && (outcome == Failed(NotReady) ==>
                  s.sender.None? || !status.connected || (cfg.pointer && !status.pointer) || (cfg.keyboard && !status.keyboard)))
  {
  }

  /** In every run a granted lease has a number above that of every lease, past or present. */
  lemma GrantIsNew(cfg: Config, steps: seq<Step>, env: Environment, owner: nat, status: Status)
    requires var s := Exec(cfg, Initial, steps, env); owner !in s.owners && Acquire(cfg, s, owner, status).1 == Done
    ensures var s := Exec(cfg, Initial, steps, env);
      var g := Acquire(cfg, s, owner, status).0.owners[owner].generation;
      && (forall o | o in s.owners :: s.owners[o].generation < g)
      && (forall q | q in s.accepted || q in s.delivered || q in s.queue :: q.generation < g)
  {
    EveryLeaseIsFaithful(cfg, steps, env, 0);
    RunsAreSafe(cfg, steps, env);
    var s := Exec(cfg, Initial, steps, env);
    hide Exec, HeldExcept, QueueOk;
    assert forall q | q in s.queue :: q in Pending(s);
  }

  /** Attaching works once, on an open controller, and takes effect whole. */
  lemma AttachWorksOnce(s: State, authorization: Authorization, takesText: bool)
    ensures var (t, outcome) := Attach(s, authorization, takesText);
      && (outcome == Done <==> !s.closed && s.sender.None?)
      && t == if outcome == Done then s.(authorization := authorization, sender := Some(takesText)) else s
    ensures Attach(s, authorization, takesText).1.Failed? ==>
      Attach(s, authorization, takesText).1 == Failed(if s.closed then Closed else AlreadyAttached)
  {
  }

  /** In every safe state, as every run is in, a release ends its owner's lease and drops its entries, and no other lease. */
  lemma ReleaseEndsOneLease(cfg: Config, s: State, owner: nat, env: Environment)
    requires Safe(cfg, s)
    ensures var (t, outcome) := Release(s, owner, env);
      && (outcome == Done <==> owner in s.owners) && (outcome.Failed? ==> outcome == Failed(NotOwner) && t == s)
      && t.owners == s.owners - {owner} && t.closed == s.closed && forall q | q in t.queue :: q.owner != owner
  {
    RevokeOwnerEmpties(cfg, s, owner, env);
    hide RevokeOwner, Invariant;
  }

  /** A revocation ends every lease and empties the queue; so does closing, for good. */
  lemma RevocationEndsAllLeases(cfg: Config, s: State, env: Environment)
    requires Safe(cfg, s)
    ensures var t := Next(cfg, s, Revoking, env); t.owners == map[] && t.queue == [] && t.closed == s.closed
  {
    RevokeAllEmpties(cfg, s, env);
    hide RevokeAll, Invariant;
  }

  lemma CloseEndsAllLeases(cfg: Config, s: State, env: Environment)
    requires Safe(cfg, s)
    ensures var t := Close(s, env); t.owners == map[] && t.queue == [] && t.closed && (s.closed ==> t == s)
  {
    ClosedKeeps(cfg, s);
    RevokeAllEmpties(cfg, s.(closed := true), env);
    assert s.queue == [] || Live(s, s.queue[0]);
    hide RevokeAll, HeldExcept, LeasesOk;
  }

  lemma ClosedKeeps(cfg: Config, s: State)
    requires Invariant(cfg, s)
    ensures Invariant(cfg, s.(closed := true))
  {
    var t := s.(closed := true);
    forall i | 0 <= i < |t.queue| ensures Live(t, t.queue[i]) {
      assert Live(s, s.queue[i]);
    }
  }

  lemma RevokeOwnerEmpties(cfg: Config, s: State, owner: nat, env: Environment)
    requires Invariant(cfg, s)
    ensures var t := RevokeOwner(s, owner, env);
      t.owners == s.owners - {owner} && t.closed == s.closed && forall q | q in t.queue :: q.owner != owner
  {
    RevokeOwnerKeeps(cfg, s, owner, env, {});
    RevokeOwnerLetsGo(s, owner, env);
    WithoutOwnerKeeps(s.queue, owner);
    if owner !in s.owners {
      forall i | 0 <= i < |s.queue| ensures s.queue[i].owner != owner {
        assert Live(s, s.queue[i]);
      }
    }
  }

  lemma RevokeAllEmpties(cfg: Config, s: State, env: Environment)
    requires Invariant(cfg, s)
    ensures var t := RevokeAll(s, env); t.owners == map[] && t.queue == [] && t.closed == s.closed
  {
    RevokeAllKeeps(cfg, s, env);
    RevokeAllLetsGo(s, env);
    var t := RevokeAll(s, env);
    assert t.queue == [] || Live(t, t.queue[0]);
  }

  // ---- events

  /** Two events go into one if and only if both are absolute positions, or both relative motions or both scrolls without a
      stop whose sums stay finite. */
  predicate Fuses(last: Event, e: Event, limit: real) {
    || (last.PointerAbsolute? && e.PointerAbsolute?)
    || (&& last.PointerRelative? && e.PointerRelative?
        && -limit <= last.dx + e.dx <= limit && -limit <= last.dy + e.dy <= limit)
    || (&& last.Scroll? && e.Scroll? && !last.stopHorizontal && !last.stopVertical && !e.stopHorizontal && !e.stopVertical
        && -limit <= last.horizontal + e.horizontal <= limit && -limit <= last.vertical + e.vertical <= limit)
  }

  lemma MergesExactly(last: Event, e: Event, limit: real)
    ensures Merge(last, e, limit).Some? <==> Fuses(last, e, limit)
    ensures Merge(last, e, limit).Some? ==> Merge(last, e, limit).value.sequence == e.sequence
  {
  }

  /** The device class an event needs is configured. */
  predicate Allowed(cfg: Config, e: Event) {
    match e
    case Press(_, code, _) => if code.KeyCode? then cfg.keyboard else cfg.pointer
    case Text(_, _) => cfg.keyboard
    case Unknown(_) => false
    case _ => cfg.pointer
  }

  /** The entry goes into the queue's last one. */
  predicate Joins(cfg: Config, s: State, owner: nat, e: Event)
    requires owner in s.owners
  {
    && s.queue != [] && s.queue[|s.queue| - 1].owner == owner
    && s.queue[|s.queue| - 1].generation == s.owners[owner].generation
    && Fuses(s.queue[|s.queue| - 1].event, e, cfg.limit)
  }

  /** An event is taken if and only if the controller is open, the submitter owns input, the event's device class is
      configured, and it joins the last entry or the owner's queue has room; otherwise the answer says why. A full queue
      costs the owner its lease; any other refusal changes nothing. */
  lemma SubmitTakesExactly(cfg: Config, s: State, owner: nat, e: Event, env: Environment)
    ensures var (t, outcome) := Submit(cfg, s, owner, e, env);
      if s.closed then outcome == Failed(Closed) && t == s
      else if owner !in s.owners then outcome == Failed(NotOwner) && t == s
      else if !Allowed(cfg, e) then
        && t == s
        && outcome == Failed(if e.Unknown? then InvalidEvent
                             else if e.Text? || (e.Press? && e.code.KeyCode?) then KeyboardOff else PointerOff)
      else if Joins(cfg, s, owner, e) then
        outcome == Done && |t.queue| == |s.queue| && t.owners == s.owners
        && t.accepted == s.accepted + [Queued(owner, s.owners[owner].generation, e)]
      else if s.owners[owner].queued < cfg.queueSize then
        var q := Queued(owner, s.owners[owner].generation, e);
        && outcome == Done && t.queue == s.queue + [q] && t.accepted == s.accepted + [q]
        && t.owners == s.owners[owner := s.owners[owner].(queued := s.owners[owner].queued + 1)]
      else outcome == Failed(Overloaded) && t.owners == s.owners - {owner} && t.accepted == s.accepted
  {
    hide RevokeOwner, Enabled, MergeLast, Allowed, Joins;
    RevokeOwnerLetsGo(s, owner, env);
    RevokedOwners(s, owner, env);
    EnabledExactly(cfg, e);
    if owner in s.owners { JoinsExactly(cfg, s, owner, e); }
  }

  lemma EnabledExactly(cfg: Config, e: Event)
    ensures Enabled(cfg, e).Done? <==> Allowed(cfg, e)
    ensures !Allowed(cfg, e) ==>
      Enabled(cfg, e) == Failed(if e.Unknown? then InvalidEvent
                                else if e.Text? || (e.Press? && e.code.KeyCode?) then KeyboardOff else PointerOff)
  {
  }

  lemma JoinsExactly(cfg: Config, s: State, owner: nat, e: Event)
    requires owner in s.owners
    ensures MergeLast(s.queue, Queued(owner, s.owners[owner].generation, e), cfg.limit).Some? <==> Joins(cfg, s, owner, e)
    ensures Joins(cfg, s, owner, e) ==> s.queue != []
  {
    if s.queue != [] { MergesExactly(s.queue[|s.queue| - 1].event, e, cfg.limit); }
    hide Merge, Fuses;
  }

  lemma RevokedOwners(s: State, owner: nat, env: Environment)
    ensures RevokeOwner(s, owner, env).owners == s.owners - {owner}
  {
    if owner !in s.owners { assert s.owners - {owner} == s.owners; }
  }

  /** What the worker does with the entry it took: nothing more if the controller is closed, the lease has ended or there is no
      sender; otherwise a key or button it acts on changes its owner's hold, unless the sender refuses and every lease ends. */
  lemma HandleHoldsExactly(s: State, env: Environment)
    requires s.inFlight.Some? && !s.closed && Live(s, s.inFlight.value) && s.sender.Some?
    requires s.inFlight.value.event.Press?
    ensures var q, t := s.inFlight.value, Handle(s, env);
      var c, calls := q.event.code, CountOf(s.pressed, q.event.code) == (if q.event.pressed then 0 else 1);
      if (c in s.owners[q.owner].held) != q.event.pressed && calls && !env(|s.calls|) then t.owners == map[]
      else
        && t.owners.Keys == s.owners.Keys && (c in t.owners[q.owner].held <==> q.event.pressed)
        && (forall o, d | o in s.owners && (o != q.owner || d != c) ::
              d in t.owners[o].held <==> d in s.owners[o].held)
  {
    var q := s.inFlight.value;
    hide Toggle;
    ToggleHoldsExactly(s.(inFlight := None, delivered := s.delivered + [q]), q, q.event.code, q.event.pressed, env);
  }

  lemma ToggleHoldsExactly(s: State, q: Queued, c: Code, hold: bool, env: Environment)
    requires q.owner in s.owners
    ensures var t := Toggle(s, q, c, hold, env);
      if CountOf(s.pressed, c) == (if hold then 0 else 1) && !env(|s.calls|) then t.owners == map[]
      else
        && t.owners.Keys == s.owners.Keys && (c in t.owners[q.owner].held <==> hold)
        && (forall o, d | o in s.owners && (o != q.owner || d != c) ::
              d in t.owners[o].held <==> d in s.owners[o].held)
  {
    hide FailDelivery, Hold;
    var called := s.(calls := s.calls + [ForEvent(q, env(|s.calls|))]);
    FailDeliveryHistory(called, q, env);
    HoldsExactly(s, q, c, hold);
    HoldsExactly(called, q, c, hold);
  }

  lemma HoldsExactly(s: State, q: Queued, c: Code, hold: bool)
    requires q.owner in s.owners
    ensures var t := Hold(s, q, c, hold);
      && t.owners.Keys == s.owners.Keys && (c in t.owners[q.owner].held <==> hold)
      && (forall o, d | o in s.owners && (o != q.owner || d != c) ::
            d in t.owners[o].held <==> d in s.owners[o].held)
  {
  }

  /** An entry whose lease lives is delivered. */
  lemma HandleDelivers(s: State, env: Environment)
    requires s.inFlight.Some? && !s.closed && Live(s, s.inFlight.value) && s.sender.Some?
    ensures Handle(s, env) ==
      Deliver(s.(inFlight := None, delivered := s.delivered + [s.inFlight.value]), s.inFlight.value, env)
  {
    hide Deliver;
  }

  /** Delivered pointer, scroll and text entries make one sender call each: if it succeeds nothing else changes, and if it
      fails every lease ends. A text that the sender does not take ends every lease without a call. */
  lemma DeliverSendsExactly(s: State, q: Queued, env: Environment)
    requires q.owner in s.owners && s.sender.Some? && !q.event.Press? && !q.event.Unknown?
    ensures var t := Deliver(s, q, env);
      if q.event.Text? && !s.sender.value then t.owners == map[] && OnlyLetsGo(s, t)
      else if env(|s.calls|) then t == s.(calls := s.calls + [ForEvent(q, true)])
      else t.owners == map[] && |s.calls| < |t.calls| && t.calls[|s.calls|] == ForEvent(q, false)
  {
    hide FailDelivery, Send, Toggle, OnlyLetsGo;
    FailDeliveryHistory(s, q, env);
    SendEndsOnFailure(s, q, env);
  }

  lemma SendEndsOnFailure(s: State, q: Queued, env: Environment)
    ensures var t := Send(s, q, env);
      if env(|s.calls|) then t == s.(calls := s.calls + [ForEvent(q, true)])
      else t.owners == map[] && |s.calls| < |t.calls| && t.calls[|s.calls|] == ForEvent(q, false)
  {
    var called := s.(calls := s.calls + [ForEvent(q, env(|s.calls|))]);
    FailDeliveryHistory(called, q, env);
    hide FailDelivery;
    assert called.calls[|s.calls|] == ForEvent(q, env(|s.calls|));
  }

  /** An entry is dropped, and nothing else changes, when the controller is closed, its lease has ended or no sender is
      attached. */
  lemma HandleDropsExactly(s: State, env: Environment)
    requires s.inFlight.Some? && (s.closed || !Live(s, s.inFlight.value) || s.sender.None?)
    ensures Handle(s, env) == s.(inFlight := None)
  {
  }
}
