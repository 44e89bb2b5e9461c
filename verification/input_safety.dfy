/** What every run of the input controller keeps: held codes are counted exactly, the sender's transcript agrees with
    the counts, and queued events belong to live leases. */
module InputSafety {
  import opened Options
  import opened InputEvents
  import opened InputController
  import Ascending

  // ---- held codes and the sender's transcript

  ghost function Holders(owners: map<nat, Owner>, c: Code): set<nat> {
    set o | o in owners && c in owners[o].held
  }

  /** Codes whose last accepted press has had no release call since, whether or not that release succeeded. */
  ghost function Outstanding(calls: seq<Call>): set<Code> {
    if calls == [] then {}
    else
      var before := Outstanding(calls[..|calls| - 1]);
      match calls[|calls| - 1]
      case ForEvent(Queued(_, _, Press(_, c, true)), ok) => if ok then before + {c} else before
      case ForEvent(Queued(_, _, Press(_, c, false)), _) => before - {c}
      case ForEvent(_, _) => before
      case LetGo(c, _) => before - {c}
  }

  /** Codes a sender that obeys every successful call keeps down. */
  ghost function Down(calls: seq<Call>): set<Code> {
    if calls == [] then {}
    else
      var before := Down(calls[..|calls| - 1]);
      match calls[|calls| - 1]
      case ForEvent(Queued(_, _, Press(_, c, true)), ok) => if ok then before + {c} else before
      case ForEvent(Queued(_, _, Press(_, c, false)), ok) => if ok then before - {c} else before
      case ForEvent(_, _) => before
      case LetGo(c, ok) => if ok then before - {c} else before
  }

  ghost predicate CountsHolders(owners: map<nat, Owner>, pressed: map<Code, int>) {
    && (forall c :: CountOf(pressed, c) == |Holders(owners, c)|)
    && (forall c | c in pressed :: pressed[c] > 0)
  }

  /** The counts are exact, and the transcript leaves outstanding exactly the counted codes outside `gone`. */
  ghost predicate HeldExcept(s: State, gone: set<Code>) {
    && CountsHolders(s.owners, s.pressed)
    && Outstanding(s.calls) == s.pressed.Keys - gone
    && (forall c | c in gone :: CountOf(s.pressed, c) == 1)
  }

  // ---- leases and the queue

  ghost function Entries(queue: seq<Queued>, owner: nat): nat {
    if queue == [] then 0
    else Entries(queue[..|queue| - 1], owner) + if queue[|queue| - 1].owner == owner then 1 else 0
  }

  ghost predicate LeasesOk(cfg: Config, s: State) {
    && (forall o | o in s.owners :: 0 < s.owners[o].generation <= s.generation)
    && (forall o, p | o in s.owners && p in s.owners && s.owners[o].generation == s.owners[p].generation :: o == p)
    && (s.owners != map[] ==> s.sender.Some?)
    && (cfg.locking ==> |s.owners| <= 1)
    && (s.inFlight.Some? ==> s.inFlight.value.generation <= s.generation)
  }

  ghost predicate QueueOk(cfg: Config, s: State) {
    && (forall i | 0 <= i < |s.queue| :: Live(s, s.queue[i]))
    && (forall o | o in s.owners :: s.owners[o].queued == Entries(s.queue, o) <= cfg.queueSize)
  }

  ghost predicate InvariantExcept(cfg: Config, s: State, gone: set<Code>) {
    HeldExcept(s, gone) && LeasesOk(cfg, s) && QueueOk(cfg, s)
  }

  ghost predicate Invariant(cfg: Config, s: State) {
    InvariantExcept(cfg, s, {})
  }

  /** The invariant, and a closed controller has no owners. */
  ghost predicate Safe(cfg: Config, s: State) {
    Invariant(cfg, s) && (s.closed ==> s.owners == map[])
  }

  /** Nothing but held codes, owners, the queue and the end of the transcript differ; the new calls only let go. */
  ghost predicate OnlyLetsGo(s: State, t: State) {
    && t == s.(owners := t.owners, pressed := t.pressed, queue := t.queue, calls := t.calls)
    && s.calls <= t.calls
    && forall i | |s.calls| <= i < |t.calls| :: t.calls[i].LetGo?
  }

  // ---- what a revocation leaves alone

  lemma LetsGoTwice(s: State, t: State, u: State)
    requires OnlyLetsGo(s, t) && OnlyLetsGo(t, u)
    ensures OnlyLetsGo(s, u)
  {
  }

  lemma {:induction false} LetGoOfAllLetsGo(s: State, codes: seq<Code>, env: Environment)
    ensures OnlyLetsGo(s, LetGoOfAll(s, codes, env))
    ensures LetGoOfAll(s, codes, env).owners == s.owners && LetGoOfAll(s, codes, env).queue == s.queue
    decreases |codes|
  {
    if codes != [] {
      var front, last := codes[..|codes| - 1], codes[|codes| - 1];
      LetGoOfAllLetsGo(s, front, env);
      var t := LetGoOfAll(s, front, env);
      LetsGoTwice(s, t, LetGoOf(t, last, env));
    }
  }

  lemma RevokeOwnerLetsGo(s: State, owner: nat, env: Environment)
    ensures OnlyLetsGo(s, RevokeOwner(s, owner, env))
  {
    if owner in s.owners {
      LetGoOfAllLetsGo(s, ReleaseOrder(s.owners[owner].held), env);
    }
  }

  lemma {:induction false} RevokeOwnersLetsGo(s: State, owners: seq<nat>, env: Environment)
    ensures OnlyLetsGo(s, RevokeOwners(s, owners, env))
    decreases |owners|
  {
    if owners != [] {
      var front, last := owners[..|owners| - 1], owners[|owners| - 1];
      RevokeOwnersLetsGo(s, front, env);
      var t := RevokeOwners(s, front, env);
      RevokeOwnerLetsGo(t, last, env);
      LetsGoTwice(s, t, RevokeOwner(t, last, env));
    }
  }

  lemma RevokeAllLetsGo(s: State, env: Environment)
    ensures OnlyLetsGo(s, RevokeAll(s, env))
  {
    RevokeOwnersLetsGo(s, Ascending.List(s.owners.Keys, (o: nat) => o), env);
  }

  lemma FailDeliveryLetsGo(s: State, q: Queued, env: Environment)
    ensures OnlyLetsGo(s, FailDelivery(s, q, env))
  {
    var t := RevokeOwner(s, q.owner, env);
    RevokeOwnerLetsGo(s, q.owner, env);
    RevokeAllLetsGo(t, env);
    LetsGoTwice(s, t, RevokeAll(t, env));
  }

  // ---- letting go of held codes

  ghost function Elements<T>(s: seq<T>): set<T> {
    set x | x in s
  }

  lemma LetGoOfKeeps(s: State, code: Code, env: Environment, gone: set<Code>)
    requires s.sender.Some? && CountOf(s.pressed, code) >= 1
    requires forall c | c in s.pressed :: s.pressed[c] > 0
    requires Outstanding(s.calls) == s.pressed.Keys - gone
    requires code in gone ==> CountOf(s.pressed, code) == 1
    ensures var t := LetGoOf(s, code, env);
      && (forall c :: CountOf(t.pressed, c) == CountOf(s.pressed, c) - if c == code then 1 else 0)
      && (forall c | c in t.pressed :: t.pressed[c] > 0)
      && Outstanding(t.calls) == t.pressed.Keys - (gone - {code})
  {
  }

  lemma {:induction false} LetGoOfAllKeeps(s: State, codes: seq<Code>, env: Environment, gone: set<Code>)
    requires s.sender.Some?
    requires forall i, j | 0 <= i < j < |codes| :: codes[i] != codes[j]
    requires forall c | c in codes :: CountOf(s.pressed, c) >= 1
    requires forall c | c in s.pressed :: s.pressed[c] > 0
    requires Outstanding(s.calls) == s.pressed.Keys - gone
    requires forall c | c in gone :: CountOf(s.pressed, c) == 1
    ensures var t := LetGoOfAll(s, codes, env);
      && (forall c :: CountOf(t.pressed, c) == CountOf(s.pressed, c) - if c in codes then 1 else 0)
      && (forall c | c in t.pressed :: t.pressed[c] > 0)
      && Outstanding(t.calls) == t.pressed.Keys - (gone - Elements(codes))
    decreases |codes|
  {
    if codes != [] {
      var front, last := codes[..|codes| - 1], codes[|codes| - 1];
      LetGoOfAllKeeps(s, front, env, gone);
      LetGoOfAllLetsGo(s, front, env);
      var t := LetGoOfAll(s, front, env);
      assert last !in front && last in codes;
      LetGoOfKeeps(t, last, env, gone - Elements(front));
      assert gone - Elements(front) - {last} == gone - Elements(codes);
      assert forall c :: c in codes <==> c in front || c == last;
    }
  }

  lemma ReleaseOrderLists(held: set<Code>)
    ensures forall c :: c in ReleaseOrder(held) <==> c in held
    ensures forall i, j | 0 <= i < j < |ReleaseOrder(held)| :: ReleaseOrder(held)[i] != ReleaseOrder(held)[j]
  {
    var keys := Ascending.List(Keys(held), (c: Code) => c.n);
    var buttons := Ascending.List(Buttons(held), (c: Code) => c.n);
    DistinctConcat(keys, buttons);
  }

  lemma DistinctConcat(keys: seq<Code>, buttons: seq<Code>)
    requires forall i, j | 0 <= i < j < |keys| :: keys[i].n < keys[j].n
    requires forall i, j | 0 <= i < j < |buttons| :: buttons[i].n < buttons[j].n
    requires (forall c | c in keys :: c.KeyCode?) && (forall c | c in buttons :: c.ButtonCode?)
    ensures forall i, j | 0 <= i < j < |keys + buttons| :: (keys + buttons)[i] != (keys + buttons)[j]
  {
    var all := keys + buttons;
    forall i, j | 0 <= i < j < |all| ensures all[i] != all[j] {
      if j < |keys| {
        assert all[i] == keys[i] && all[j] == keys[j];
      } else if |keys| <= i {
        assert all[i] == buttons[i - |keys|] && all[j] == buttons[j - |keys|];
      } else {
        assert all[i] in keys && all[j] in buttons;
      }
    }
  }

  // ---- ending leases

  lemma {:induction false} WithoutOwnerKeeps(queue: seq<Queued>, owner: nat)
    ensures forall q | q in WithoutOwner(queue, owner) :: q in queue && q.owner != owner
    ensures forall p | p != owner :: Entries(WithoutOwner(queue, owner), p) == Entries(queue, p)
  {
    if queue != [] {
      var front := queue[..|queue| - 1];
      WithoutOwnerKeeps(front, owner);
      var kept := WithoutOwner(front, owner) + [queue[|queue| - 1]];
      assert kept[..|kept| - 1] == WithoutOwner(front, owner);
    }
  }

  lemma RevokeOwnerCounts(owners: map<nat, Owner>, pressed: map<Code, int>, pressed': map<Code, int>, owner: nat)
    requires owner in owners && CountsHolders(owners, pressed)
    requires forall c :: CountOf(pressed', c) == CountOf(pressed, c) - if c in owners[owner].held then 1 else 0
    requires forall c | c in pressed' :: pressed'[c] > 0
    ensures CountsHolders(owners - {owner}, pressed')
  {
    forall c ensures CountOf(pressed', c) == |Holders(owners - {owner}, c)| {
      assert CountOf(pressed, c) == |Holders(owners, c)|;
      assert Holders(owners - {owner}, c) == Holders(owners, c) - {owner};
      assert owner in Holders(owners, c) <==> c in owners[owner].held;
    }
  }

  lemma HeldIsCounted(owners: map<nat, Owner>, pressed: map<Code, int>, owner: nat, c: Code)
    requires owner in owners && CountsHolders(owners, pressed) && c in owners[owner].held
    ensures CountOf(pressed, c) >= 1
  {
    assert CountOf(pressed, c) == |Holders(owners, c)|;
    assert owner in Holders(owners, c);
  }

  /** Ending a lease lets go of what the owner holds, including codes whose release call has just failed. */
  lemma RevokeOwnerKeepsHeld(s: State, owner: nat, env: Environment, gone: set<Code>)
    requires owner in s.owners && s.sender.Some? && HeldExcept(s, gone) && gone <= s.owners[owner].held
    ensures HeldExcept(RevokeOwner(s, owner, env), {})
  {
    var held := s.owners[owner].held;
    var codes := ReleaseOrder(held);
    ReleaseOrderLists(held);
    forall c | c in codes ensures CountOf(s.pressed, c) >= 1 {
      HeldIsCounted(s.owners, s.pressed, owner, c);
    }
    LetGoOfAllKeeps(s, codes, env, gone);
    LetGoOfAllLetsGo(s, codes, env);
    var t := LetGoOfAll(s, codes, env);
    assert gone - Elements(codes) == {};
    RevokeOwnerCounts(s.owners, s.pressed, t.pressed, owner);
  }

  lemma RevokeOwnerKeeps(cfg: Config, s: State, owner: nat, env: Environment, gone: set<Code>)
    requires InvariantExcept(cfg, s, gone)
    requires if owner in s.owners then gone <= s.owners[owner].held else gone == {}
    ensures Invariant(cfg, RevokeOwner(s, owner, env))
    ensures RevokeOwner(s, owner, env).owners == s.owners - {owner}
  {
    if owner in s.owners {
      RevokeOwnerKeepsHeld(s, owner, env, gone);
      RevokeOwnerLetsGo(s, owner, env);
      WithoutOwnerKeeps(s.queue, owner);
      var t := RevokeOwner(s, owner, env);
      assert (s.owners - {owner}).Keys == s.owners.Keys - {owner};
      forall i | 0 <= i < |t.queue| ensures Live(t, t.queue[i]) {
        assert t.queue[i] in t.queue;
      }
    } else {
      assert s.owners - {owner} == s.owners;
    }
  }

  lemma {:induction false} RevokeOwnersKeeps(cfg: Config, s: State, owners: seq<nat>, env: Environment)
    requires Invariant(cfg, s)
    ensures Invariant(cfg, RevokeOwners(s, owners, env))
    ensures RevokeOwners(s, owners, env).owners.Keys == s.owners.Keys - Elements(owners)
    decreases |owners|
  {
    hide HeldExcept, LeasesOk, QueueOk;
    if owners != [] {
      var front, last := owners[..|owners| - 1], owners[|owners| - 1];
      RevokeOwnersKeeps(cfg, s, front, env);
      var t := RevokeOwners(s, front, env);
      RevokeOwnerKeeps(cfg, t, last, env, {});
      assert Elements(owners) == Elements(front) + {last};
    }
  }

  lemma RevokeAllKeeps(cfg: Config, s: State, env: Environment)
    requires Invariant(cfg, s)
    ensures Invariant(cfg, RevokeAll(s, env)) && RevokeAll(s, env).owners == map[]
  {
    hide HeldExcept, LeasesOk, QueueOk;
    var owners := Ascending.List(s.owners.Keys, (o: nat) => o);
    RevokeOwnersKeeps(cfg, s, owners, env);
    var t := RevokeOwners(s, owners, env);
    assert Elements(owners) == s.owners.Keys;
    assert t.owners.Keys == {};
  }

  /** After a failed sender call every lease has ended and no code is counted. */
  lemma FailDeliveryKeeps(cfg: Config, s: State, q: Queued, env: Environment, gone: set<Code>)
    requires InvariantExcept(cfg, s, gone) && q.owner in s.owners && gone <= s.owners[q.owner].held
    ensures Invariant(cfg, FailDelivery(s, q, env)) && FailDelivery(s, q, env).owners == map[]
  {
    RevokeOwnerKeeps(cfg, s, q.owner, env, gone);
    var t := RevokeOwner(s, q.owner, env);
    RevokeAllKeeps(cfg, t, env);
  }

  // ---- the worker

  lemma {:induction false} EntriesFront(queue: seq<Queued>, owner: nat)
    requires queue != []
    ensures Entries(queue, owner) == Entries(queue[1..], owner) + if queue[0].owner == owner then 1 else 0
  {
    if |queue| > 1 {
      var front := queue[..|queue| - 1];
      EntriesFront(front, owner);
      assert queue[1..][..|queue[1..]| - 1] == front[1..];
    }
  }

  lemma DequeueKeeps(cfg: Config, s: State)
    requires Invariant(cfg, s)
    ensures Invariant(cfg, Dequeue(s))
  {
    if s.queue != [] && s.inFlight.None? {
      var t := Dequeue(s);
      assert Live(s, s.queue[0]);
      assert t.owners.Keys == s.owners.Keys;
      DequeueKeepsQueue(cfg, s);
      hide QueueOk;
      SameHeld(s.owners, t.owners, s.pressed);
      hide CountsHolders;
    }
  }

  lemma SameHeld(a: map<nat, Owner>, b: map<nat, Owner>, pressed: map<Code, int>)
    requires CountsHolders(a, pressed) && a.Keys == b.Keys && forall o | o in a :: a[o].held == b[o].held
    ensures CountsHolders(b, pressed)
  {
    forall c ensures Holders(b, c) == Holders(a, c) {
    }
  }

  lemma DequeueKeepsQueue(cfg: Config, s: State)
    requires QueueOk(cfg, s) && s.queue != [] && s.inFlight.None?
    ensures QueueOk(cfg, Dequeue(s))
  {
    var t := Dequeue(s);
    assert Live(s, s.queue[0]);
    forall o | o in t.owners ensures t.owners[o].queued == Entries(t.queue, o) <= cfg.queueSize {
      EntriesFront(s.queue, o);
    }
    forall i | 0 <= i < |t.queue| ensures Live(t, t.queue[i]) {
      assert Live(s, s.queue[i + 1]);
    }
  }

  lemma HoldersAfter(owners: map<nat, Owner>, owner: nat, c: Code, hold: bool, d: Code)
    requires owner in owners
    ensures var o := owners[owner];
      Holders(owners[owner := o.(held := if hold then o.held + {c} else o.held - {c})], d) ==
      if d != c then Holders(owners, d) else if hold then Holders(owners, d) + {owner} else Holders(owners, d) - {owner}
  {
  }

  lemma HoldCounts(owners: map<nat, Owner>, pressed: map<Code, int>, owner: nat, c: Code, hold: bool,
                   owners': map<nat, Owner>, pressed': map<Code, int>)
    requires owner in owners && CountsHolders(owners, pressed) && (c in owners[owner].held) != hold
    requires owners' == owners[owner := owners[owner].(held := if hold then owners[owner].held + {c} else owners[owner].held - {c})]
    requires forall d :: CountOf(pressed', d) == CountOf(pressed, d) + if d != c then 0 else if hold then 1 else -1
    requires forall d | d in pressed' :: pressed'[d] > 0
    ensures CountsHolders(owners', pressed')
  {
    forall d ensures CountOf(pressed', d) == |Holders(owners', d)| {
      HoldersAfter(owners, owner, c, hold, d);
      assert CountOf(pressed, d) == |Holders(owners, d)|;
      assert owner in Holders(owners, c) <==> !hold;
    }
  }

  /** Only held codes differ: the leases and the queue are the same in both states. */
  ghost predicate SameLeases(s: State, t: State) {
    && t == s.(owners := t.owners, pressed := t.pressed) && t.owners.Keys == s.owners.Keys
    && forall o | o in s.owners ::
         t.owners[o].generation == s.owners[o].generation && t.owners[o].queued == s.owners[o].queued
  }

  lemma SameLeasesOk(cfg: Config, s: State, t: State)
    requires SameLeases(s, t) && LeasesOk(cfg, s)
    ensures LeasesOk(cfg, t)
  {
    assert |t.owners| == |t.owners.Keys| == |s.owners|;
  }

  lemma SameQueueOk(cfg: Config, s: State, t: State)
    requires SameLeases(s, t) && QueueOk(cfg, s)
    ensures QueueOk(cfg, t)
  {
    forall i | 0 <= i < |t.queue| ensures Live(t, t.queue[i]) {
      assert Live(s, s.queue[i]);
    }
  }

  /** Holding or dropping a code keeps the leases and the queue as they are. */
  lemma HoldKeepsLeases(cfg: Config, s: State, q: Queued, c: Code, hold: bool)
    requires q.owner in s.owners && LeasesOk(cfg, s) && QueueOk(cfg, s)
    ensures LeasesOk(cfg, Hold(s, q, c, hold)) && QueueOk(cfg, Hold(s, q, c, hold))
  {
    hide LeasesOk, QueueOk;
    var t := Hold(s, q, c, hold);
    SameLeasesOk(cfg, s, t);
    SameQueueOk(cfg, s, t);
  }

  lemma HoldKeepsCounts(s: State, q: Queued, c: Code, hold: bool)
    requires q.owner in s.owners && CountsHolders(s.owners, s.pressed) && (c in s.owners[q.owner].held) != hold
    ensures CountsHolders(Hold(s, q, c, hold).owners, Hold(s, q, c, hold).pressed)
    ensures Hold(s, q, c, hold).pressed.Keys ==
      if hold then s.pressed.Keys + {c} else if CountOf(s.pressed, c) == 1 then s.pressed.Keys - {c} else s.pressed.Keys
  {
    var t := Hold(s, q, c, hold);
    if !hold {
      HeldIsCounted(s.owners, s.pressed, q.owner, c);
    } else {
      assert CountOf(s.pressed, c) == |Holders(s.owners, c)|;
    }
    HoldCounts(s.owners, s.pressed, q.owner, c, hold, t.owners, t.pressed);
  }

  /** Another owner holds the code too, or comes to hold it: nothing is sent and the keys of the count stay. */
  lemma HoldQuietly(s: State, q: Queued, c: Code, hold: bool)
    requires HeldExcept(s, {}) && q.owner in s.owners && (c in s.owners[q.owner].held) != hold
    requires CountOf(s.pressed, c) != if hold then 0 else 1
    ensures HeldExcept(Hold(s, q, c, hold), {})
  {
    HoldKeepsCounts(s, q, c, hold);
    if hold {
      assert c in s.pressed.Keys;
      assert s.pressed.Keys + {c} == s.pressed.Keys;
    }
  }

  lemma OutstandingAfterCall(calls: seq<Call>, q: Queued)
    requires q.event.Press?
    ensures Outstanding(calls + [ForEvent(q, true)]) ==
      if q.event.pressed then Outstanding(calls) + {q.event.code} else Outstanding(calls) - {q.event.code}
  {
    assert (calls + [ForEvent(q, true)])[..|calls|] == calls;
  }

  /** The sender took the press or release: the transcript and the count change together. */
  lemma HoldAfterCall(s: State, q: Queued, c: Code, hold: bool)
    requires HeldExcept(s, {}) && q.owner in s.owners && (c in s.owners[q.owner].held) != hold
    requires q.event.Press? && q.event.code == c && q.event.pressed == hold
    requires CountOf(s.pressed, c) == if hold then 0 else 1
    ensures HeldExcept(Hold(s.(calls := s.calls + [ForEvent(q, true)]), q, c, hold), {})
  {
    hide CountsHolders, Outstanding;
    OutstandingAfterCall(s.calls, q);
    HoldKeepsCounts(s, q, c, hold);
  }

  /** The sender refused: after a refused release the code is counted but no longer outstanding. */
  lemma CallRefused(s: State, q: Queued, c: Code, hold: bool)
    requires HeldExcept(s, {}) && CountOf(s.pressed, c) == if hold then 0 else 1
    requires q.event.Press? && q.event.code == c && q.event.pressed == hold
    ensures HeldExcept(s.(calls := s.calls + [ForEvent(q, false)]), if hold then {} else {c})
  {
  }

  lemma ToggleKeeps(cfg: Config, s: State, q: Queued, c: Code, hold: bool, env: Environment)
    requires Invariant(cfg, s) && q.owner in s.owners && (c in s.owners[q.owner].held) != hold
    requires q.event.Press? && q.event.code == c && q.event.pressed == hold
    ensures Invariant(cfg, Toggle(s, q, c, hold, env))
  {
    hide HeldExcept;
    var called := s.(calls := s.calls + [ForEvent(q, env(|s.calls|))]);
    assert LeasesOk(cfg, called) && QueueOk(cfg, called);
    hide LeasesOk, QueueOk, FailDelivery;
    if CountOf(s.pressed, c) != (if hold then 0 else 1) {
      HoldQuietly(s, q, c, hold);
      HoldKeepsLeases(cfg, s, q, c, hold);
    } else if env(|s.calls|) {
      HoldAfterCall(s, q, c, hold);
      HoldKeepsLeases(cfg, called, q, c, hold);
    } else {
      CallRefused(s, q, c, hold);
      FailDeliveryKeeps(cfg, called, q, env, if hold then {} else {c});
    }
  }

  lemma SendKeeps(cfg: Config, s: State, q: Queued, env: Environment)
    requires Invariant(cfg, s) && q.owner in s.owners && !q.event.Press?
    ensures Invariant(cfg, Send(s, q, env))
  {
    var called := s.(calls := s.calls + [ForEvent(q, env(|s.calls|))]);
    assert called.calls[..|called.calls| - 1] == s.calls;
    assert Invariant(cfg, called);
    if !env(|s.calls|) {
      FailDeliveryKeeps(cfg, called, q, env, {});
    }
  }

  lemma DeliverKeeps(cfg: Config, s: State, q: Queued, env: Environment)
    requires Invariant(cfg, s) && q.owner in s.owners && s.sender.Some?
    ensures Invariant(cfg, Deliver(s, q, env))
  {
    hide HeldExcept, LeasesOk, QueueOk, FailDelivery, Send, Toggle;
    match q.event
    case Press(_, code, hold) =>
      if (code in s.owners[q.owner].held) != hold {
        ToggleKeeps(cfg, s, q, code, hold, env);
      }
    case Text(_, _) =>
      if s.sender.value { SendKeeps(cfg, s, q, env); } else { FailDeliveryKeeps(cfg, s, q, env, {}); }
    case Unknown(_) =>
    case _ => SendKeeps(cfg, s, q, env);
  }

  lemma HandleKeeps(cfg: Config, s: State, env: Environment)
    requires Invariant(cfg, s)
    ensures Invariant(cfg, Handle(s, env))
  {
    hide Deliver, HeldExcept, LeasesOk, QueueOk;
    if s.inFlight.Some? {
      var q := s.inFlight.value;
      TakenKeeps(cfg, s, s.delivered);
      TakenKeeps(cfg, s, s.delivered + [q]);
      if !s.closed && Live(s, q) && s.sender.Some? {
        DeliverKeeps(cfg, s.(inFlight := None, delivered := s.delivered + [q]), q, env);
      }
    }
  }

  lemma TakenKeeps(cfg: Config, s: State, delivered: seq<Queued>)
    requires Invariant(cfg, s)
    ensures Invariant(cfg, s.(inFlight := None, delivered := delivered))
  {
    var t := s.(inFlight := None, delivered := delivered);
    forall i | 0 <= i < |t.queue| ensures Live(t, t.queue[i]) {
      assert Live(s, s.queue[i]);
    }
  }

  // ---- calls

  lemma SubmitKeeps(cfg: Config, s: State, owner: nat, e: Event, env: Environment)
    requires Invariant(cfg, s)
    ensures Invariant(cfg, Submit(cfg, s, owner, e, env).0)
  {
    hide HeldExcept, LeasesOk, QueueOk, RevokeOwner, MergeLast;
    if !s.closed && owner in s.owners && Enabled(cfg, e).Done? {
      var q := Queued(owner, s.owners[owner].generation, e);
      if MergeLast(s.queue, q, cfg.limit).Some? {
        MergeKeeps(cfg, s, q);
      } else if s.owners[owner].queued < cfg.queueSize {
        AppendKeeps(cfg, s, owner, q);
      } else {
        RevokeOwnerKeeps(cfg, s, owner, env, {});
      }
    }
  }

  lemma MergeKeeps(cfg: Config, s: State, q: Queued)
    requires Invariant(cfg, s) && MergeLast(s.queue, q, cfg.limit).Some?
    ensures s.queue != [] && Invariant(cfg, s.(accepted := s.accepted + [q],
              queue := s.queue[..|s.queue| - 1] + [MergeLast(s.queue, q, cfg.limit).value]))
  {
  }

  lemma AppendKeeps(cfg: Config, s: State, owner: nat, q: Queued)
    requires Invariant(cfg, s) && owner in s.owners && s.owners[owner].queued < cfg.queueSize
    requires q.owner == owner && q.generation == s.owners[owner].generation
    ensures Invariant(cfg, s.(queue := s.queue + [q], accepted := s.accepted + [q],
              owners := s.owners[owner := s.owners[owner].(queued := s.owners[owner].queued + 1)]))
  {
    var t := s.(queue := s.queue + [q], accepted := s.accepted + [q],
                owners := s.owners[owner := s.owners[owner].(queued := s.owners[owner].queued + 1)]);
    assert t.owners.Keys == s.owners.Keys;
    SameHeld(s.owners, t.owners, s.pressed);
    AppendKeepsQueue(cfg, s, t, owner, q);
    hide CountsHolders, QueueOk;
  }

  lemma AppendKeepsQueue(cfg: Config, s: State, t: State, owner: nat, q: Queued)
    requires QueueOk(cfg, s) && owner in s.owners && s.owners[owner].queued < cfg.queueSize
    requires q.owner == owner && q.generation == s.owners[owner].generation
    requires t.queue == s.queue + [q] && t.owners == s.owners[owner := s.owners[owner].(queued := s.owners[owner].queued + 1)]
    ensures QueueOk(cfg, t)
  {
    assert t.queue[..|t.queue| - 1] == s.queue;
    forall i | 0 <= i < |t.queue| ensures Live(t, t.queue[i]) {
      if i < |s.queue| { assert Live(s, s.queue[i]); }
    }
  }

  lemma AcquireKeeps(cfg: Config, s: State, owner: nat, status: Status)
    requires Invariant(cfg, s)
    ensures Invariant(cfg, Acquire(cfg, s, owner, status).0)
  {
    var t := Acquire(cfg, s, owner, status).0;
    if t != s {
      assert t == s.(generation := t.generation, owners := t.owners);
      AcquireKeepsHeld(s.owners, s.pressed, owner, t.generation);
      AcquireKeepsQueue(cfg, s, owner);
      hide CountsHolders, QueueOk;
    }
  }

  lemma AcquireKeepsHeld(owners: map<nat, Owner>, pressed: map<Code, int>, owner: nat, generation: nat)
    requires CountsHolders(owners, pressed) && owner !in owners
    ensures CountsHolders(owners[owner := Owner(generation, 0, {})], pressed)
  {
    var more := owners[owner := Owner(generation, 0, {})];
    forall c ensures Holders(more, c) == Holders(owners, c) {
    }
  }

  lemma AcquireKeepsQueue(cfg: Config, s: State, owner: nat)
    requires QueueOk(cfg, s) && owner !in s.owners
    ensures QueueOk(cfg,
      s.(generation := s.generation + 1, owners := s.owners[owner := Owner(s.generation + 1, 0, {})]))
  {
    var t := s.(generation := s.generation + 1, owners := s.owners[owner := Owner(s.generation + 1, 0, {})]);
    forall i | 0 <= i < |t.queue| ensures Live(t, t.queue[i]) {
      assert Live(s, s.queue[i]);
    }
    NoEntries(s, owner, |s.queue|);
  }

  lemma {:induction false} NoEntries(s: State, owner: nat, n: nat)
    requires owner !in s.owners && n <= |s.queue|
    requires forall i | 0 <= i < |s.queue| :: Live(s, s.queue[i])
    ensures Entries(s.queue[..n], owner) == 0
    ensures n == |s.queue| ==> Entries(s.queue, owner) == 0
  {
    if n > 0 {
      NoEntries(s, owner, n - 1);
      assert s.queue[..n][..n - 1] == s.queue[..n - 1];
      assert Live(s, s.queue[n - 1]);
    }
    assert n == |s.queue| ==> s.queue[..n] == s.queue;
  }

  // ---- runs

  lemma AttachKeeps(cfg: Config, s: State, authorization: Authorization, takesText: bool)
    requires Invariant(cfg, s)
    ensures Invariant(cfg, Attach(s, authorization, takesText).0)
    ensures Invariant(cfg, s.(authorization := authorization)) && Invariant(cfg, s.(closed := true))
  {
  }

  lemma StepKeeps(cfg: Config, s: State, step: Step, env: Environment)
    requires Safe(cfg, s)
    ensures Safe(cfg, Next(cfg, s, step, env))
  {
    hide HeldExcept, LeasesOk, QueueOk, Submit, Handle, RevokeOwner, RevokeAll;
    match step
    case Attaching(authorization, takesText) => AttachKeeps(cfg, s, authorization, takesText);
    case Unavailable(authorization) => AttachKeeps(cfg, s, authorization, false);
    case Acquiring(owner, status) => AcquireKeeps(cfg, s, owner, status);
    case Submitting(owner, e) =>
      SubmitKeeps(cfg, s, owner, e, env);
      SubmitCalls(cfg, s, owner, e, env);
    case Releasing(owner) =>
      RevokeOwnerKeeps(cfg, s, owner, env, {});
      RevokeOwnerLetsGo(s, owner, env);
    case Revoking => RevokeAllKeeps(cfg, s, env);
    case Closing =>
      AttachKeeps(cfg, s, s.authorization, false);
      RevokeAllKeeps(cfg, s.(closed := true), env);
    case Dequeuing => DequeueKeeps(cfg, s);
    case Handling =>
      HandleKeeps(cfg, s, env);
      HandleCalls(s, env);
  }

  /** Every call a step makes on behalf of an event is made under the event's own, still live lease. */
  ghost predicate CallsUnderLease(s: State, t: State) {
    && s.calls <= t.calls
    && forall i | |s.calls| <= i < |t.calls| :: t.calls[i].ForEvent? ==> Live(s, t.calls[i].queued)
  }

  lemma SubmitCalls(cfg: Config, s: State, owner: nat, e: Event, env: Environment)
    ensures CallsUnderLease(s, Submit(cfg, s, owner, e, env).0)
    ensures Submit(cfg, s, owner, e, env).0.closed == s.closed
    ensures s.closed ==> Submit(cfg, s, owner, e, env).0 == s
  {
    hide RevokeOwner, MergeLast, Enabled;
    RevokeOwnerLetsGo(s, owner, env);
  }

  lemma SendCalls(s: State, q: Queued, ok: bool, env: Environment)
    requires Live(s, q)
    ensures CallsUnderLease(s, s.(calls := s.calls + [ForEvent(q, ok)]))
    ensures var t := FailDelivery(s.(calls := s.calls + [ForEvent(q, ok)]), q, env);
      CallsUnderLease(s, t) && t.closed == s.closed
  {
    var called := s.(calls := s.calls + [ForEvent(q, ok)]);
    FailDeliveryLetsGo(called, q, env);
    var t := FailDelivery(called, q, env);
    assert t.calls[|s.calls|] == called.calls[|s.calls|];
  }

  lemma HandleCalls(s: State, env: Environment)
    ensures CallsUnderLease(s, Handle(s, env))
    ensures Handle(s, env).closed == s.closed && (s.closed ==> Handle(s, env).owners == s.owners)
  {
    hide FailDelivery;
    if s.inFlight.Some? && !s.closed && Live(s, s.inFlight.value) && s.sender.Some? {
      var q := s.inFlight.value;
      var t := s.(inFlight := None, delivered := s.delivered + [q]);
      SendCalls(t, q, env(|t.calls|), env);
      FailDeliveryLetsGo(t, q, env);
    }
  }

  lemma StepCalls(cfg: Config, s: State, step: Step, env: Environment)
    ensures CallsUnderLease(s, Next(cfg, s, step, env))
  {
    match step
    case Submitting(owner, e) => SubmitCalls(cfg, s, owner, e, env);
    case Releasing(owner) => RevokeOwnerLetsGo(s, owner, env);
    case Revoking => RevokeAllLetsGo(s, env);
    case Closing => RevokeAllLetsGo(s.(closed := true), env);
    case Handling => HandleCalls(s, env);
    case _ =>
  }

  lemma {:induction false} RunsAreSafe(cfg: Config, steps: seq<Step>, env: Environment)
    ensures Safe(cfg, Exec(cfg, Initial, steps, env))
  {
    if steps == [] {
      forall c ensures Holders(Initial.owners, c) == {} {
      }
    } else {
      RunsAreSafe(cfg, steps[..|steps| - 1], env);
      StepKeeps(cfg, Exec(cfg, Initial, steps[..|steps| - 1], env), steps[|steps| - 1], env);
    }
  }

  // ---- the main results

  /** In every reachable state each code's shared count is the number of owners holding it, no zero entry is kept, and
      the counted codes are exactly those pressed without a later release call, whatever sender calls failed. */
  lemma HeldCodesAreCounted(cfg: Config, steps: seq<Step>, env: Environment)
    ensures var s := Exec(cfg, Initial, steps, env);
      && (forall c :: CountOf(s.pressed, c) == |Holders(s.owners, c)|)
      && (forall c | c in s.pressed :: s.pressed[c] > 0)
      && Outstanding(s.calls) == s.pressed.Keys
      && (s.owners == map[] ==> Outstanding(s.calls) == {})
  {
    RunsAreSafe(cfg, steps, env);
    var s := Exec(cfg, Initial, steps, env);
    if s.owners == map[] {
      forall c ensures c !in s.pressed {
        assert CountOf(s.pressed, c) == |Holders(s.owners, c)|;
        assert Holders(s.owners, c) == {};
      }
    }
  }

  ghost predicate ReleasesSucceed(calls: seq<Call>) {
    forall i | 0 <= i < |calls| && !calls[i].ok ::
      calls[i].ForEvent? && (calls[i].queued.event.Press? ==> calls[i].queued.event.pressed)
  }

  lemma {:induction false} OutstandingIsDown(calls: seq<Call>)
    ensures Outstanding(calls) <= Down(calls)
    ensures ReleasesSucceed(calls) ==> Outstanding(calls) == Down(calls)
  {
    if calls != [] {
      OutstandingIsDown(calls[..|calls| - 1]);
    }
  }

  /** While no release call fails, the codes the sender holds down are exactly the codes some owner holds. */
  lemma SenderAgrees(cfg: Config, steps: seq<Step>, env: Environment)
    ensures var s := Exec(cfg, Initial, steps, env);
      && s.pressed.Keys <= Down(s.calls)
      && (ReleasesSucceed(s.calls) ==> forall c :: c in Down(s.calls) <==> Holders(s.owners, c) != {})
  {
    var s := Exec(cfg, Initial, steps, env);
    HeldCodesAreCounted(cfg, steps, env);
    OutstandingIsDown(s.calls);
    forall c ensures c in s.pressed <==> Holders(s.owners, c) != {} {
      assert CountOf(s.pressed, c) == |Holders(s.owners, c)|;
    }
  }

  /** The lease numbered `g` was granted and has since ended. */
  ghost predicate Ended(s: State, g: nat) {
    g <= s.generation && forall o | o in s.owners :: s.owners[o].generation != g
  }

  lemma {:induction false} RevokeOwnersEnds(s: State, owners: seq<nat>, env: Environment, g: nat)
    requires Ended(s, g)
    ensures Ended(RevokeOwners(s, owners, env), g)
    decreases |owners|
  {
    if owners != [] {
      var front := owners[..|owners| - 1];
      RevokeOwnersEnds(s, front, env, g);
      RevokeOwnerEnds(RevokeOwners(s, front, env), owners[|owners| - 1], env, g);
    }
  }

  lemma RevokeOwnerEnds(s: State, owner: nat, env: Environment, g: nat)
    requires Ended(s, g)
    ensures Ended(RevokeOwner(s, owner, env), g)
  {
    RevokeOwnerLetsGo(s, owner, env);
  }

  lemma FailDeliveryEnds(s: State, q: Queued, env: Environment, g: nat)
    requires Ended(s, g)
    ensures Ended(FailDelivery(s, q, env), g)
  {
    RevokeOwnerEnds(s, q.owner, env, g);
    var t := RevokeOwner(s, q.owner, env);
    RevokeOwnersEnds(t, Ascending.List(t.owners.Keys, (o: nat) => o), env, g);
  }

  lemma HandleEnds(s: State, env: Environment, g: nat)
    requires Ended(s, g)
    ensures Ended(Handle(s, env), g)
  {
    hide FailDelivery;
    if s.inFlight.Some? && !s.closed && Live(s, s.inFlight.value) && s.sender.Some? {
      var q := s.inFlight.value;
      var t := s.(inFlight := None, delivered := s.delivered + [q]);
      FailDeliveryEnds(t, q, env, g);
      FailDeliveryEnds(t.(calls := t.calls + [ForEvent(q, env(|t.calls|))]), q, env, g);
    }
  }

  lemma EndedStays(cfg: Config, s: State, step: Step, env: Environment, g: nat)
    requires Ended(s, g)
    ensures Ended(Next(cfg, s, step, env), g)
  {
    hide Handle, RevokeOwner, RevokeOwners;
    match step
    case Submitting(owner, e) => RevokeOwnerEnds(s, owner, env, g);
    case Releasing(owner) => RevokeOwnerEnds(s, owner, env, g);
    case Revoking => RevokeOwnersEnds(s, Ascending.List(s.owners.Keys, (o: nat) => o), env, g);
    case Closing => RevokeOwnersEnds(s.(closed := true), Ascending.List(s.owners.Keys, (o: nat) => o), env, g);
    case Handling => HandleEnds(s, env, g);
    case _ =>
  }

  lemma ExecSnoc(cfg: Config, steps: seq<Step>, step: Step, env: Environment)
    ensures Exec(cfg, Initial, steps + [step], env) == Next(cfg, Exec(cfg, Initial, steps, env), step, env)
  {
    assert (steps + [step])[..|steps|] == steps;
  }

  lemma SilentOnward(s: State, m: State, t: State, g: nat)
    requires s.calls <= m.calls && Ended(m, g) && CallsUnderLease(m, t)
    requires forall i | |s.calls| <= i < |m.calls| :: m.calls[i].ForEvent? ==> m.calls[i].queued.generation != g
    ensures s.calls <= t.calls
    ensures forall i | |s.calls| <= i < |t.calls| :: t.calls[i].ForEvent? ==> t.calls[i].queued.generation != g
  {
    forall i | |s.calls| <= i < |t.calls| && t.calls[i].ForEvent? ensures t.calls[i].queued.generation != g {
      if i < |m.calls| { assert t.calls[i] == m.calls[i]; }
    }
  }

  /** Once a lease has ended, no run brings one of its events to the sender: not an event the worker had already taken
      from the queue, and not after the same owner has acquired again. */
  lemma {:induction false} EndedLeaseIsSilent(cfg: Config, before: seq<Step>, after: seq<Step>, env: Environment, g: nat)
    requires Ended(Exec(cfg, Initial, before, env), g)
    ensures var s, t := Exec(cfg, Initial, before, env), Exec(cfg, Initial, before + after, env);
      && Ended(t, g) && s.calls <= t.calls
      && forall i | |s.calls| <= i < |t.calls| :: t.calls[i].ForEvent? ==> t.calls[i].queued.generation != g
  {
    if after == [] {
      assert before + after == before;
    } else {
      var front, last := after[..|after| - 1], after[|after| - 1];
      EndedLeaseIsSilent(cfg, before, front, env, g);
      assert before + after == before + front + [last];
      ExecSnoc(cfg, before + front, last, env);
      hide Next, Exec;
      var s, m := Exec(cfg, Initial, before, env), Exec(cfg, Initial, before + front, env);
      EndedStays(cfg, m, last, env, g);
      StepCalls(cfg, m, last, env);
      SilentOnward(s, m, Next(cfg, m, last, env), g);
    }
  }

  /** Every queued entry is under its owner's live lease, each owner's count is its share of the queue and within
      bounds, owners imply a sender, and locking admits one owner at most. */
  lemma QueueIsLive(cfg: Config, steps: seq<Step>, env: Environment)
    ensures var s := Exec(cfg, Initial, steps, env);
      && (forall i | 0 <= i < |s.queue| :: Live(s, s.queue[i]))
      && (forall o | o in s.owners :: s.owners[o].queued == Entries(s.queue, o) <= cfg.queueSize)
      && (s.owners != map[] ==> s.sender.Some? && !s.closed)
      && (cfg.locking ==> |s.owners| <= 1)
  {
    RunsAreSafe(cfg, steps, env);
  }
}
