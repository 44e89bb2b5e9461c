/** The controller object of input/controller.go: its methods change the fields in place and are proved against the
    functions of InputController. Each method is one mutex-protected section. */
module InputObject {
  import opened Options
  import opened InputEvents
  import Spec = InputController
  import Ascending

  class Controller {
    const cfg: Spec.Config
    const env: Spec.Environment

    var closed: bool
    var authorization: Spec.Authorization
    var sender: Option<bool>
    var generation: nat
    var owners: map<nat, Spec.Owner>
    var pressed: map<Code, int>
    var queue: seq<Spec.Queued>
    var inFlight: Option<Spec.Queued>
    var calls: seq<Spec.Call>
    ghost var accepted: seq<Spec.Queued>
    ghost var delivered: seq<Spec.Queued>

    ghost function View(): Spec.State
      reads this
    {
      Spec.State(closed, authorization, sender, generation, owners, pressed, queue, inFlight, calls, accepted, delivered)
    }

    constructor (cfg: Spec.Config, env: Spec.Environment)
      ensures this.cfg == cfg && this.env == env && View() == Spec.Initial
    {
      this.cfg, this.env := cfg, env;
      closed, authorization, sender, generation := false, Spec.Authorization(false, false), None, 0;
      owners, pressed, queue, inFlight, calls := map[], map[], [], None, [];
      accepted, delivered := [], [];
    }

    method Attach(authorization: Spec.Authorization, takesText: bool) returns (r: Spec.Outcome)
      modifies this
      ensures (View(), r) == Spec.Attach(old(View()), authorization, takesText)
    {
      if closed { return Spec.Failed(Spec.Closed); }
      if sender.Some? { return Spec.Failed(Spec.AlreadyAttached); }
      this.authorization, sender := authorization, Some(takesText);
      r := Spec.Done;
    }

    method Acquire(owner: nat, status: Spec.Status) returns (r: Spec.Outcome)
      modifies this
      ensures (View(), r) == Spec.Acquire(cfg, old(View()), owner, status)
    {
      if closed { return Spec.Failed(Spec.Closed); }
      if !cfg.enabled { return Spec.Failed(Spec.Disabled); }
      if cfg.pointer && !authorization.pointer { return Spec.Failed(Spec.PointerUnauthorized); }
      if cfg.keyboard && !authorization.keyboard { return Spec.Failed(Spec.KeyboardUnauthorized); }
      if owner in owners { return Spec.Done; }
      if cfg.locking && |owners| != 0 { return Spec.Failed(Spec.Busy); }
      if sender.None? { return Spec.Failed(Spec.NotReady); }
      if !status.connected || (cfg.pointer && !status.pointer) || (cfg.keyboard && !status.keyboard) {
        return Spec.Failed(Spec.NotReady);
      }
      generation := generation + 1;
      owners := owners[owner := Spec.Owner(generation, 0, {})];
      r := Spec.Done;
    }

    method Submit(owner: nat, event: Event) returns (r: Spec.Outcome)
      modifies this
      ensures (View(), r) == Spec.Submit(cfg, old(View()), owner, event, env)
    {
      if closed { return Spec.Failed(Spec.Closed); }
      if owner !in owners { return Spec.Failed(Spec.NotOwner); }
      r := Spec.Enabled(cfg, event);
      if r.Failed? { return; }
      var state := owners[owner];
      var queued := Spec.Queued(owner, state.generation, event);
      if |queue| > 0 {
        var last := queue[|queue| - 1];
        if last.owner == queued.owner && last.generation == queued.generation {
          var merged := Merge(last.event, event, cfg.limit);
          if merged.Some? {
            ghost var front := queue[..|queue| - 1];
            queue := queue[|queue| - 1 := last.(event := merged.value)];
            accepted := accepted + [queued];
            assert queue == front + [last.(event := merged.value)];
            return;
          }
        }
      }
      if state.queued < cfg.queueSize {
        queue := queue + [queued];
        owners := owners[owner := state.(queued := state.queued + 1)];
        accepted := accepted + [queued];
        return;
      }
      RevokeOwner(owner);
      r := Spec.Failed(Spec.Overloaded);
    }

    method Release(owner: nat) returns (r: Spec.Outcome)
      modifies this
      ensures (View(), r) == Spec.Release(old(View()), owner, env)
    {
      if owner !in owners { return Spec.Failed(Spec.NotOwner); }
      RevokeOwner(owner);
      r := Spec.Done;
    }

    method Close()
      modifies this
      ensures View() == Spec.Close(old(View()), env)
    {
      if !closed {
        closed := true;
        RevokeAll();
      }
    }

    /** The worker takes the oldest entry from the queue. */
    method Dequeue()
      modifies this
      ensures View() == Spec.Dequeue(old(View()))
    {
      if |queue| == 0 || inFlight.Some? { return; }
      var queued := queue[0];
      queue := queue[1..];
      inFlight := Some(queued);
      if queued.owner in owners && owners[queued.owner].generation == queued.generation {
        owners := owners[queued.owner := owners[queued.owner].(queued := owners[queued.owner].queued - 1)];
      }
    }

    method CallSender(queued: Spec.Queued) returns (ok: bool)
      modifies this`calls
      ensures ok == env(|old(calls)|) && calls == old(calls) + [Spec.ForEvent(queued, ok)]
    {
      ok := env(|calls|);
      calls := calls + [Spec.ForEvent(queued, ok)];
    }

    /** The worker handles the entry it took. */
    method Handle()
      modifies this
      ensures View() == Spec.Handle(old(View()), env)
    {
      hide Spec.Deliver, Spec.RevokeOwner, Spec.RevokeAll;
      if inFlight.None? { return; }
      var queued := inFlight.value;
      inFlight := None;
      if closed || queued.owner !in owners || owners[queued.owner].generation != queued.generation || sender.None? {
        return;
      }
      delivered := delivered + [queued];
      var ok := Deliver(queued);
      if !ok {
        RevokeOwner(queued.owner);
        RevokeAll();
      }
    }

    method Deliver(queued: Spec.Queued) returns (ok: bool)
      requires queued.owner in owners && sender.Some?
      modifies this`calls, this`owners, this`pressed
      ensures ok ==> View() == Spec.Deliver(old(View()), queued, env)
      ensures !ok ==> Spec.FailDelivery(View(), queued, env) == Spec.Deliver(old(View()), queued, env)
    {
      hide Spec.FailDelivery, Spec.Toggle;
      ok := true;
      match queued.event {
        case Press(_, code, hold) =>
          if (code in owners[queued.owner].held) != hold { ok := Toggle(queued, code, hold); }
        case Text(_, _) =>
          if sender.value { ok := CallSender(queued); } else { ok := false; }
        case Unknown(_) =>
        case _ => ok := CallSender(queued);
      }
    }

    method Toggle(queued: Spec.Queued, code: Code, hold: bool) returns (ok: bool)
      requires queued.owner in owners
      modifies this`calls, this`owners, this`pressed
      ensures ok ==> View() == Spec.Toggle(old(View()), queued, code, hold, env)
      ensures !ok ==> Spec.FailDelivery(View(), queued, env) == Spec.Toggle(old(View()), queued, code, hold, env)
    {
      ok := true;
      var count := Spec.CountOf(pressed, code);
      var state := owners[queued.owner];
      if hold {
        if count == 0 { ok := CallSender(queued); }
        if ok {
          owners := owners[queued.owner := state.(held := state.held + {code})];
          pressed := pressed[code := count + 1];
        }
      } else {
        if count == 1 { ok := CallSender(queued); }
        if ok {
          owners := owners[queued.owner := state.(held := state.held - {code})];
          pressed := if count == 1 then pressed - {code} else pressed[code := count - 1];
        }
      }
    }

    method LetGo(code: Code)
      modifies this`pressed, this`calls
      ensures View() == Spec.LetGoOf(old(View()), code, env)
    {
      var count := Spec.CountOf(pressed, code);
      if count == 1 {
        if sender.Some? { calls := calls + [Spec.LetGo(code, env(|calls|))]; }
        pressed := pressed - {code};
      } else {
        pressed := pressed[code := count - 1];
      }
    }

    method LetGoOfAll(codes: seq<Code>)
      modifies this`pressed, this`calls
      ensures View() == Spec.LetGoOfAll(old(View()), codes, env)
    {
      hide Spec.LetGoOf;
      for i := 0 to |codes|
        invariant View() == Spec.LetGoOfAll(old(View()), codes[..i], env)
      {
        LetGo(codes[i]);
        assert codes[..i + 1][..i] == codes[..i];
      }
      assert codes[..|codes|] == codes;
    }

    method FilterQueue(owner: nat)
      modifies this`queue
      ensures queue == Spec.WithoutOwner(old(queue), owner)
    {
      var kept: seq<Spec.Queued> := [];
      for i := 0 to |queue|
        invariant kept == Spec.WithoutOwner(queue[..i], owner)
      {
        assert queue[..i + 1][..i] == queue[..i];
        if queue[i].owner != owner { kept := kept + [queue[i]]; }
      }
      assert queue[..|queue|] == queue;
      queue := kept;
    }

    /** Lets go of what the owner holds, drops its lease and filters its entries out of the queue. */
    method RevokeOwner(owner: nat)
      modifies this
      ensures View() == Spec.RevokeOwner(old(View()), owner, env)
    {
      hide Spec.ReleaseOrder, Spec.LetGoOfAll, Spec.WithoutOwner;
      if owner in owners {
        LetGoOfAll(Spec.ReleaseOrder(owners[owner].held));
        owners := owners - {owner};
        FilterQueue(owner);
      }
    }

    method RevokeAll()
      modifies this
      ensures View() == Spec.RevokeAll(old(View()), env)
    {
      var order := Ascending.List(owners.Keys, (o: nat) => o);
      for i := 0 to |order|
        invariant View() == Spec.RevokeOwners(old(View()), order[..i], env)
      {
        RevokeOneMore(old(View()), order, i, env);
        hide Spec.RevokeOwners, Spec.RevokeOwner;
        RevokeOwner(order[i]);
      }
      assert order[..|order|] == order;
    }
  }

  lemma RevokeOneMore(s: Spec.State, order: seq<nat>, i: nat, env: Spec.Environment)
    requires i < |order|
    ensures Spec.RevokeOwners(s, order[..i + 1], env) ==
      Spec.RevokeOwner(Spec.RevokeOwners(s, order[..i], env), order[i], env)
    ensures Spec.RevokeOwners(s, order[..0], env) == s
  {
    assert order[..i + 1][..i] == order[..i];
  }
}
