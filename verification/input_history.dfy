/** Coalescing preserves meaning: what the worker delivers means what was submitted, lease by lease in every run, and
    in the global order while no lease ends. */
module InputHistory {
  import opened Options
  import opened InputEvents
  import opened InputController
  import opened InputSafety
  import Ascending

  /** Events of the entries whose lease number `f` selects. */
  ghost function Select(entries: seq<Queued>, f: nat -> bool): seq<Event> {
    if entries == [] then []
    else
      var front, last := Select(entries[..|entries| - 1], f), entries[|entries| - 1];
      if f(last.generation) then front + [last.event] else front
  }

  /** Entries taken or still to be taken by the worker, oldest first. */
  ghost function Pending(s: State): seq<Queued> {
    (if s.inFlight.Some? then [s.inFlight.value] else []) + s.queue
  }

  /** Delivered and pending events of the selected leases are the accepted ones, coalesced. */
  ghost predicate Faithful(s: State, f: nat -> bool) {
    Coalesces(Select(s.delivered + Pending(s), f), Select(s.accepted, f))
  }

  ghost predicate Granted(s: State, g: nat) {
    exists o :: o in s.owners && s.owners[o].generation == g
  }

  ghost const Every: nat -> bool := _ => true

  ghost function Only(g: nat): nat -> bool {
    n => n == g
  }

  /** What was delivered under an ended lease is a coalesced prefix of what was accepted under it. */
  ghost predicate PrefixDelivered(s: State, g: nat) {
    exists k: nat | k <= |Select(s.accepted, Only(g))| ::
      Coalesces(Select(s.delivered, Only(g)), Select(s.accepted, Only(g))[..k])
  }

  ghost predicate LeaseFaithful(s: State, g: nat) {
    if Granted(s, g) then Faithful(s, Only(g)) else PrefixDelivered(s, g)
  }

  /** Lease numbers in the history were granted before; a lease number belongs to one owner. */
  ghost predicate Numbered(s: State) {
    && (forall q | q in s.accepted :: q.generation <= s.generation)
    && (forall q | q in s.delivered :: q.generation <= s.generation)
    && (forall q | q in Pending(s) :: q.generation <= s.generation)
    && (s.inFlight.Some? ==> forall o | o in s.owners ::
          s.owners[o].generation == s.inFlight.value.generation ==> o == s.inFlight.value.owner)
  }

  // ---- selections

  lemma {:induction false} SelectConcat(a: seq<Queued>, b: seq<Queued>, f: nat -> bool)
    ensures Select(a + b, f) == Select(a, f) + Select(b, f)
  {
    if b == [] {
      assert a + b == a;
    } else {
      SelectConcat(a, b[..|b| - 1], f);
      assert (a + b)[..|a + b| - 1] == a + b[..|b| - 1];
    }
  }

  lemma {:induction false} SelectNone(entries: seq<Queued>, f: nat -> bool)
    requires forall q | q in entries :: !f(q.generation)
    ensures Select(entries, f) == []
  {
    if entries != [] {
      SelectNone(entries[..|entries| - 1], f);
    }
  }

  lemma SelectSnoc(entries: seq<Queued>, q: Queued, f: nat -> bool)
    ensures Select(entries + [q], f) == if f(q.generation) then Select(entries, f) + [q.event] else Select(entries, f)
  {
  }

  lemma {:induction false} SelectWithoutOwner(queue: seq<Queued>, owner: nat, f: nat -> bool)
    requires forall q | q in queue && q.owner == owner :: !f(q.generation)
    ensures Select(WithoutOwner(queue, owner), f) == Select(queue, f)
  {
    if queue != [] {
      var front, last := queue[..|queue| - 1], queue[|queue| - 1];
      SelectWithoutOwner(front, owner, f);
      SelectSnoc(WithoutOwner(front, owner), last, f);
      assert last in queue;
    }
  }

  // ---- submitting

  lemma AppendIsFaithful(s: State, q: Queued, owners: map<nat, Owner>, f: nat -> bool)
    requires Faithful(s, f)
    ensures Faithful(s.(queue := s.queue + [q], accepted := s.accepted + [q], owners := owners), f)
  {
    var t := s.(queue := s.queue + [q], accepted := s.accepted + [q], owners := owners);
    assert t.delivered + Pending(t) == s.delivered + Pending(s) + [q];
    SelectSnoc(s.delivered + Pending(s), q, f);
    SelectSnoc(s.accepted, q, f);
    if f(q.generation) {
      CoalescesAppend(Select(s.delivered + Pending(s), f), Select(s.accepted, f), q.event);
    }
  }

  lemma MergeIsFaithful(s: State, q: Queued, limit: real, f: nat -> bool)
    requires MergeLast(s.queue, q, limit).Some? && Faithful(s, f)
    ensures s.queue != [] && Faithful(s.(accepted := s.accepted + [q],
              queue := s.queue[..|s.queue| - 1] + [MergeLast(s.queue, q, limit).value]), f)
  {
    hide Merge, Coalesces;
    var front, last := s.queue[..|s.queue| - 1], s.queue[|s.queue| - 1];
    var merged := MergeLast(s.queue, q, limit).value;
    var t := s.(queue := front + [merged], accepted := s.accepted + [q]);
    var rest := s.delivered + Pending(s.(queue := front));
    assert s.delivered + Pending(s) == rest + [last];
    assert t.delivered + Pending(t) == rest + [merged];
    SelectSnoc(rest, last, f);
    SelectSnoc(rest, merged, f);
    SelectSnoc(s.accepted, q, f);
    if f(q.generation) {
      CoalescesMerge(Select(rest, f), last.event, Select(s.accepted, f), q.event, limit);
    }
  }

  lemma SubmitIsFaithful(cfg: Config, s: State, owner: nat, e: Event, env: Environment, f: nat -> bool)
    requires Faithful(s, f) && Submit(cfg, s, owner, e, env).1 != Failed(Overloaded)
    ensures Faithful(Submit(cfg, s, owner, e, env).0, f)
    ensures forall g :: Granted(Submit(cfg, s, owner, e, env).0, g) <==> Granted(s, g)
  {
    hide Faithful, MergeLast;
    var t := Submit(cfg, s, owner, e, env).0;
    assert t.owners.Keys == s.owners.Keys && forall o | o in s.owners :: t.owners[o].generation == s.owners[o].generation;
    if t != s {
      var q := Queued(owner, s.owners[owner].generation, e);
      if MergeLast(s.queue, q, cfg.limit).Some? {
        MergeIsFaithful(s, q, cfg.limit, f);
      } else {
        AppendIsFaithful(s, q, t.owners, f);
      }
    }
  }

  // ---- ending leases

  lemma EndLease(s: State, t: State, g: nat)
    requires LeaseFaithful(s, g) && !Granted(t, g)
    requires t.delivered == s.delivered && t.accepted == s.accepted
    ensures LeaseFaithful(t, g)
  {
    if Granted(s, g) {
      var f := Only(g);
      var done, all := Select(s.delivered, f), Select(s.delivered + Pending(s), f);
      SelectConcat(s.delivered, Pending(s), f);
      var k := CoalescesPrefix(all, Select(s.accepted, f), |done|);
      assert all[..|done|] == done;
    }
  }

  lemma PendingSelects(s: State, t: State, f: nat -> bool)
    requires t.delivered == s.delivered && t.accepted == s.accepted
    requires Select(Pending(t), f) == Select(Pending(s), f) && Faithful(s, f)
    ensures Faithful(t, f)
  {
    SelectConcat(s.delivered, Pending(s), f);
    SelectConcat(t.delivered, Pending(t), f);
  }

  lemma RevokeOwnerIsFaithful(cfg: Config, s: State, owner: nat, env: Environment, g: nat)
    requires Invariant(cfg, s) && LeaseFaithful(s, g)
    ensures LeaseFaithful(RevokeOwner(s, owner, env), g)
  {
    hide Faithful, HeldExcept;
    var t := RevokeOwner(s, owner, env);
    RevokeOwnerLetsGo(s, owner, env);
    if owner in s.owners {
      if Granted(t, g) {
        var p :| p in t.owners && t.owners[p].generation == g;
        assert p in s.owners && Granted(s, g);
        var taken := if s.inFlight.Some? then [s.inFlight.value] else [];
        forall q | q in s.queue && q.owner == owner ensures q.generation != g {
          var i :| 0 <= i < |s.queue| && s.queue[i] == q;
          assert Live(s, s.queue[i]);
        }
        SelectWithoutOwner(s.queue, owner, Only(g));
        SelectConcat(taken, s.queue, Only(g));
        SelectConcat(taken, t.queue, Only(g));
        PendingSelects(s, t, Only(g));
      } else {
        EndLease(s, t, g);
      }
    }
  }

  // ---- the worker

  lemma DequeueIsFaithful(s: State, f: nat -> bool)
    requires Faithful(s, f)
    ensures Faithful(Dequeue(s), f)
    ensures forall g :: Granted(Dequeue(s), g) <==> Granted(s, g)
    ensures Dequeue(s).delivered == s.delivered && Dequeue(s).accepted == s.accepted
  {
    var t := Dequeue(s);
    assert Pending(t) == Pending(s);
    assert t.owners.Keys == s.owners.Keys && forall o | o in s.owners :: t.owners[o].generation == s.owners[o].generation;
  }

  /** Delivering leaves the history alone; it ends every lease or none. */
  lemma DeliverHistory(s: State, q: Queued, env: Environment)
    requires q.owner in s.owners && s.sender.Some?
    ensures var t := Deliver(s, q, env);
      && t.delivered == s.delivered && t.accepted == s.accepted && t.inFlight == s.inFlight
      && t.generation == s.generation
      && (t.owners == map[] || (t.queue == s.queue && t.owners.Keys == s.owners.Keys &&
            forall o | o in s.owners :: t.owners[o].generation == s.owners[o].generation))
      && forall p | p in t.queue :: p in s.queue
  {
    hide FailDelivery;
    var called := s.(calls := s.calls + [ForEvent(q, env(|s.calls|))]);
    FailDeliveryHistory(s, q, env);
    FailDeliveryHistory(called, q, env);
  }

  lemma {:induction false} RevokeOwnersHistory(s: State, owners: seq<nat>, env: Environment)
    ensures var t := RevokeOwners(s, owners, env);
      t.owners.Keys == s.owners.Keys - Elements(owners) && forall q | q in t.queue :: q in s.queue
    decreases |owners|
  {
    if owners != [] {
      var front, last := owners[..|owners| - 1], owners[|owners| - 1];
      RevokeOwnersHistory(s, front, env);
      WithoutOwnerKeeps(RevokeOwners(s, front, env).queue, last);
      assert Elements(owners) == Elements(front) + {last};
    }
  }

  lemma RevokeAllHistory(s: State, env: Environment)
    ensures RevokeAll(s, env).owners == map[] && forall q | q in RevokeAll(s, env).queue :: q in s.queue
  {
    var owners := Ascending.List(s.owners.Keys, (o: nat) => o);
    RevokeOwnersHistory(s, owners, env);
    assert Elements(owners) == s.owners.Keys;
    assert RevokeAll(s, env).owners.Keys == {};
  }

  lemma FailDeliveryHistory(s: State, q: Queued, env: Environment)
    ensures FailDelivery(s, q, env).owners == map[] && OnlyLetsGo(s, FailDelivery(s, q, env))
    ensures forall p | p in FailDelivery(s, q, env).queue :: p in s.queue
  {
    FailDeliveryLetsGo(s, q, env);
    WithoutOwnerKeeps(s.queue, q.owner);
    RevokeAllHistory(RevokeOwner(s, q.owner, env), env);
  }

  /** The worker drops an entry only when its lease has ended. */
  lemma DropIsFaithful(s: State, f: nat -> bool)
    requires s.inFlight.Some? && !f(s.inFlight.value.generation) && Faithful(s, f)
    ensures Faithful(s.(inFlight := None), f)
  {
    var q, t := s.inFlight.value, s.(inFlight := None);
    SelectConcat([q], s.queue, f);
    SelectNone([q], f);
    assert Pending(t) == s.queue;
    PendingSelects(s, t, f);
  }

  lemma TakeIsFaithful(s: State, f: nat -> bool)
    requires s.inFlight.Some? && Faithful(s, f)
    ensures Faithful(s.(inFlight := None, delivered := s.delivered + [s.inFlight.value]), f)
  {
    var t := s.(inFlight := None, delivered := s.delivered + [s.inFlight.value]);
    assert t.delivered + Pending(t) == s.delivered + Pending(s);
  }

  lemma HandleIsFaithful(cfg: Config, s: State, env: Environment, g: nat)
    requires Safe(cfg, s) && Numbered(s) && LeaseFaithful(s, g)
    ensures LeaseFaithful(Handle(s, env), g)
  {
    hide Faithful, Deliver, HeldExcept, QueueOk;
    if s.inFlight.Some? {
      var q := s.inFlight.value;
      if s.closed || !Live(s, q) || s.sender.None? {
        if Granted(s, g) {
          DropIsFaithful(s, Only(g));
        }
        assert Granted(s.(inFlight := None), g) == Granted(s, g);
      } else {
        var t := s.(inFlight := None, delivered := s.delivered + [q]);
        assert Granted(t, g) == Granted(s, g);
        if Granted(s, g) {
          TakeIsFaithful(s, Only(g));
        } else {
          SelectSnoc(s.delivered, q, Only(g));
        }
        DeliverIsFaithful(t, q, env, g);
      }
    }
  }

  lemma DeliverIsFaithful(s: State, q: Queued, env: Environment, g: nat)
    requires LeaseFaithful(s, g) && q.owner in s.owners && s.sender.Some?
    ensures LeaseFaithful(Deliver(s, q, env), g)
  {
    hide Faithful, Deliver;
    var t := Deliver(s, q, env);
    DeliverHistory(s, q, env);
    if t.owners == map[] {
      EndLease(s, t, g);
    } else {
      assert Granted(t, g) == Granted(s, g);
      assert Pending(t) == Pending(s);
      if Granted(s, g) { PendingSelects(s, t, Only(g)); }
    }
  }

  // ---- granting a lease

  lemma AcquireIsFaithful(cfg: Config, s: State, owner: nat, status: Status, g: nat)
    requires Safe(cfg, s) && Numbered(s) && LeaseFaithful(s, g)
    ensures LeaseFaithful(Acquire(cfg, s, owner, status).0, g)
  {
    hide Faithful, HeldExcept, QueueOk;
    var t := Acquire(cfg, s, owner, status).0;
    if t != s {
      assert t.owners[owner].generation == t.generation;
      if g == t.generation {
        FreshIsFaithful(s, t);
      } else {
        if Granted(s, g) {
          var o :| o in s.owners && s.owners[o].generation == g;
          assert t.owners[o].generation == g;
        }
        if Granted(s, g) { PendingSelects(s, t, Only(g)); }
      }
    }
  }

  lemma FreshIsFaithful(s: State, t: State)
    requires Numbered(s) && t.generation > s.generation && Pending(t) == Pending(s)
    requires t.delivered == s.delivered && t.accepted == s.accepted && Granted(t, t.generation)
    ensures LeaseFaithful(t, t.generation)
  {
    SelectNone(s.delivered + Pending(s), Only(t.generation));
    SelectNone(s.accepted, Only(t.generation));
  }

  // ---- runs

  lemma NumberedStays(cfg: Config, s: State, step: Step, env: Environment)
    requires Safe(cfg, s) && Numbered(s)
    ensures Numbered(Next(cfg, s, step, env))
  {
    hide HeldExcept, QueueOk, Handle, RevokeAll;
    match step
    case Submitting(owner, e) => SubmitNumbered(cfg, s, owner, e, env);
    case Releasing(owner) => RevokeOwnerNumbered(s, owner, env);
    case Revoking =>
      RevokeAllLetsGo(s, env);
      RevokeAllHistory(s, env);
    case Closing =>
      RevokeAllLetsGo(s.(closed := true), env);
      RevokeAllHistory(s.(closed := true), env);
    case Dequeuing => DequeueNumbered(cfg, s);
    case Handling => HandleNumbered(s, env);
    case _ =>
  }

  lemma DequeueNumbered(cfg: Config, s: State)
    requires Numbered(s) && LeasesOk(cfg, s) && QueueOk(cfg, s)
    ensures Numbered(Dequeue(s))
  {
  }

  lemma RevokeOwnerNumbered(s: State, owner: nat, env: Environment)
    requires Numbered(s)
    ensures Numbered(RevokeOwner(s, owner, env))
  {
    RevokeOwnerLetsGo(s, owner, env);
    WithoutOwnerKeeps(s.queue, owner);
  }

  lemma MergeLastKeepsLease(queue: seq<Queued>, q: Queued, limit: real)
    ensures var m := MergeLast(queue, q, limit);
      m.Some? ==> queue != [] && m.value.owner == q.owner && m.value.generation == q.generation
  {
  }

  lemma MergedNumbered(s: State, q: Queued, entry: Queued)
    requires Numbered(s) && q.generation <= s.generation && entry.generation == q.generation && s.queue != []
    ensures Numbered(s.(queue := s.queue[..|s.queue| - 1] + [entry], accepted := s.accepted + [q]))
  {
  }

  lemma AppendedNumbered(s: State, q: Queued)
    requires Numbered(s) && q.generation <= s.generation && q.owner in s.owners
    ensures var o := s.owners[q.owner];
      Numbered(s.(queue := s.queue + [q], accepted := s.accepted + [q],
                  owners := s.owners[q.owner := o.(queued := o.queued + 1)]))
  {
  }

  lemma SubmitNumbered(cfg: Config, s: State, owner: nat, e: Event, env: Environment)
    requires Numbered(s) && (owner in s.owners ==> s.owners[owner].generation <= s.generation)
    ensures Numbered(Submit(cfg, s, owner, e, env).0)
  {
    hide MergeLast, RevokeOwner, Enabled, Numbered, Merge;
    RevokeOwnerNumbered(s, owner, env);
    if owner in s.owners {
      var q := Queued(owner, s.owners[owner].generation, e);
      var m := MergeLast(s.queue, q, cfg.limit);
      MergeLastKeepsLease(s.queue, q, cfg.limit);
      if m.Some? {
        MergedNumbered(s, q, m.value);
      } else {
        AppendedNumbered(s, q);
      }
    }
  }

  lemma HandleNumbered(s: State, env: Environment)
    requires Numbered(s)
    ensures Numbered(Handle(s, env))
  {
    hide Deliver;
    if s.inFlight.Some? && !s.closed && Live(s, s.inFlight.value) && s.sender.Some? {
      DeliverHistory(s.(inFlight := None, delivered := s.delivered + [s.inFlight.value]), s.inFlight.value, env);
    }
  }

  lemma StepIsFaithful(cfg: Config, s: State, step: Step, env: Environment, g: nat)
    requires Safe(cfg, s) && Numbered(s) && LeaseFaithful(s, g)
    ensures LeaseFaithful(Next(cfg, s, step, env), g)
  {
    hide Faithful, HeldExcept, LeasesOk, QueueOk, Handle, RevokeAll, RevokeOwner, Acquire;
    match step
    case Acquiring(owner, status) => AcquireIsFaithful(cfg, s, owner, status, g);
    case Submitting(owner, e) =>
      if Submit(cfg, s, owner, e, env).1 == Failed(Overloaded) {
        RevokeOwnerIsFaithful(cfg, s, owner, env, g);
      } else {
        SubmitLease(cfg, s, owner, e, env, g);
      }
    case Releasing(owner) => RevokeOwnerIsFaithful(cfg, s, owner, env, g);
    case Revoking =>
      RevokeAllLetsGo(s, env);
      RevokeAllHistory(s, env);
      EndLease(s, RevokeAll(s, env), g);
    case Closing =>
      var c := s.(closed := true);
      RevokeAllLetsGo(c, env);
      RevokeAllHistory(c, env);
      if !s.closed { EndLease(s, RevokeAll(c, env), g); }
    case Dequeuing => DequeueLease(s, g);
    case Handling => HandleIsFaithful(cfg, s, env, g);
    case _ => SetUpLease(cfg, s, step, env, g);
  }

  lemma SubmitLease(cfg: Config, s: State, owner: nat, e: Event, env: Environment, g: nat)
    requires LeaseFaithful(s, g) && Submit(cfg, s, owner, e, env).1 != Failed(Overloaded) && LeasesOk(cfg, s)
    ensures LeaseFaithful(Submit(cfg, s, owner, e, env).0, g)
  {
    hide Faithful;
    var t := Submit(cfg, s, owner, e, env).0;
    if Granted(s, g) {
      SubmitIsFaithful(cfg, s, owner, e, env, Only(g));
    } else if t != s {
      assert t.owners.Keys == s.owners.Keys && forall o | o in s.owners :: t.owners[o].generation == s.owners[o].generation;
      SelectSnoc(s.accepted, Queued(owner, s.owners[owner].generation, e), Only(g));
    }
  }

  lemma DequeueLease(s: State, g: nat)
    requires LeaseFaithful(s, g)
    ensures LeaseFaithful(Dequeue(s), g)
  {
    hide Faithful;
    var t := Dequeue(s);
    assert t.owners.Keys == s.owners.Keys && forall o | o in s.owners :: t.owners[o].generation == s.owners[o].generation;
    if Granted(s, g) {
      DequeueIsFaithful(s, Only(g));
    }
  }

  lemma SetUpLease(cfg: Config, s: State, step: Step, env: Environment, g: nat)
    requires LeaseFaithful(s, g) && (step.Attaching? || step.Unavailable?)
    ensures LeaseFaithful(Next(cfg, s, step, env), g)
  {
  }

  /** In every run and for every lease: while the lease lives, what was delivered and is still to be delivered under it
      is a coalescing of all it accepted; after it ends, what was delivered is a coalescing of a prefix. */
  lemma {:induction false} EveryLeaseIsFaithful(cfg: Config, steps: seq<Step>, env: Environment, g: nat)
    ensures LeaseFaithful(Exec(cfg, Initial, steps, env), g)
    ensures Numbered(Exec(cfg, Initial, steps, env))
  {
    if steps == [] {
      assert Select([], Only(g))[..0] == [];
    } else {
      var front := steps[..|steps| - 1];
      EveryLeaseIsFaithful(cfg, front, env, g);
      RunsAreSafe(cfg, front, env);
      var s := Exec(cfg, Initial, front, env);
      StepIsFaithful(cfg, s, steps[|steps| - 1], env, g);
      NumberedStays(cfg, s, steps[|steps| - 1], env);
    }
  }

  // ---- while no lease ends

  ghost predicate LeasesStay(s: State, t: State) {
    forall o | o in s.owners :: o in t.owners && t.owners[o].generation == s.owners[o].generation
  }

  /** No step of the run ends a lease. */
  ghost predicate NoLeaseEnds(cfg: Config, steps: seq<Step>, env: Environment) {
    forall i | 0 <= i < |steps| :: LeasesStay(Exec(cfg, Initial, steps[..i], env), Exec(cfg, Initial, steps[..i + 1], env))
  }

  ghost predicate AllFaithful(s: State) {
    Faithful(s, Every) && (s.inFlight.Some? ==> Live(s, s.inFlight.value))
  }

  lemma StepKeepsOrder(cfg: Config, s: State, step: Step, env: Environment)
    requires Safe(cfg, s) && AllFaithful(s) && LeasesStay(s, Next(cfg, s, step, env))
    ensures AllFaithful(Next(cfg, s, step, env))
  {
    hide Faithful, HeldExcept, Submit, Handle, Deliver, RevokeAll;
    var t := Next(cfg, s, step, env);
    match step
    case Submitting(owner, e) => SubmitKeepsOrder(cfg, s, owner, e, env);
    case Revoking =>
      RevokeAllHistory(s, env);
      RevokeAllOfNone(s, env);
    case Closing =>
      RevokeAllHistory(s.(closed := true), env);
      RevokeAllOfNone(s.(closed := true), env);
      if !s.closed { PendingSelects(s, t, Every); }
    case Dequeuing =>
      DequeueIsFaithful(s, Every);
      if s.queue != [] { assert Live(s, s.queue[0]); }
    case Handling => HandleKeepsOrder(s, env);
    case Releasing(_) =>
    case _ => PendingSelects(s, t, Every);
  }

  lemma RevokeAllOfNone(s: State, env: Environment)
    requires s.owners == map[]
    ensures RevokeAll(s, env) == s
  {
  }

  lemma SubmitKeepsOrder(cfg: Config, s: State, owner: nat, e: Event, env: Environment)
    requires AllFaithful(s) && LeasesStay(s, Submit(cfg, s, owner, e, env).0)
    ensures AllFaithful(Submit(cfg, s, owner, e, env).0)
  {
    hide Faithful;
    var t := Submit(cfg, s, owner, e, env).0;
    if owner in s.owners {
      assert owner in t.owners;
      assert Submit(cfg, s, owner, e, env).1 != Failed(Overloaded);
      SubmitIsFaithful(cfg, s, owner, e, env, Every);
      assert t.inFlight == s.inFlight;
    }
  }

  lemma HandleKeepsOrder(s: State, env: Environment)
    requires AllFaithful(s) && LeasesStay(s, Handle(s, env)) && (s.owners != map[] ==> s.sender.Some? && !s.closed)
    ensures AllFaithful(Handle(s, env))
  {
    hide Faithful, Deliver;
    if s.inFlight.Some? {
      var q := s.inFlight.value;
      var taken := s.(inFlight := None, delivered := s.delivered + [q]);
      TakeIsFaithful(s, Every);
      DeliverHistory(taken, q, env);
      var t := Handle(s, env);
      assert q.owner in t.owners;
      assert Pending(t) == Pending(taken);
      PendingSelects(taken, t, Every);
    }
  }

  /** While no lease ends, delivered and pending events of all owners together are, in the global order, a coalescing
      of everything submitted: same transitions, same pointer and scroll at each of them, same total. */
  lemma {:induction false} OrderIsFaithful(cfg: Config, steps: seq<Step>, env: Environment)
    requires NoLeaseEnds(cfg, steps, env)
    ensures AllFaithful(Exec(cfg, Initial, steps, env))
  {
    if steps != [] {
      var front := steps[..|steps| - 1];
      forall i | 0 <= i < |front|
        ensures LeasesStay(Exec(cfg, Initial, front[..i], env), Exec(cfg, Initial, front[..i + 1], env)) {
        assert front[..i] == steps[..i] && front[..i + 1] == steps[..i + 1];
      }
      OrderIsFaithful(cfg, front, env);
      RunsAreSafe(cfg, front, env);
      var i := |steps| - 1;
      assert steps[..i] == front && steps[..i + 1] == steps;
      StepKeepsOrder(cfg, Exec(cfg, Initial, front, env), steps[i], env);
    }
  }

  /** Once the queue has drained, no desktop can tell the delivered events from the submitted ones. */
  lemma DrainedMeansSubmitted(cfg: Config, steps: seq<Step>, env: Environment, d: Desktop)
    requires NoLeaseEnds(cfg, steps, env)
    requires Pending(Exec(cfg, Initial, steps, env)) == []
    ensures var s := Exec(cfg, Initial, steps, env);
      ApplyAll(d, Select(s.delivered, Every)) == ApplyAll(d, Select(s.accepted, Every))
  {
    OrderIsFaithful(cfg, steps, env);
    var s := Exec(cfg, Initial, steps, env);
    assert s.delivered + Pending(s) == s.delivered;
    CoalescesMeaning(Select(s.delivered, Every), Select(s.accepted, Every));
  }
}
