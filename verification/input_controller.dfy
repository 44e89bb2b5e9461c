/** A finite set listed in ascending rank, as the controller lists codes and owners before releasing them. */
module Ascending {

  ghost predicate Injective<T(!new)>(s: set<T>, rank: T -> nat) {
    forall a, b | a in s && b in s && rank(a) == rank(b) :: a == b
  }

  predicate IsLeast<T(!new)>(s: set<T>, rank: T -> nat, m: T) {
    m in s && forall x | x in s :: rank(m) <= rank(x)
  }

  lemma {:induction false} Least<T(!new)>(s: set<T>, rank: T -> nat) returns (m: T)
    requires s != {}
    ensures IsLeast(s, rank, m)
  {
    var first :| first in s;
    var rest := s - {first};
    m := first;
    if rest != {} {
      var n := Least(rest, rank);
      if rank(n) < rank(first) {
        m := n;
      }
    }
    forall x | x in s ensures rank(m) <= rank(x) {
      assert x == first || x in rest;
    }
  }

  /** The sequence holds exactly the members of the set, in ascending rank. */
  ghost predicate Lists<T(!new)>(s: set<T>, rank: T -> nat, r: seq<T>) {
    (forall x :: x in r <==> x in s) && (forall i, j | 0 <= i < j < |r| :: rank(r[i]) < rank(r[j]))
  }

  lemma LeastFirst<T(!new)>(s: set<T>, rank: T -> nat, m: T, rest: seq<T>)
    requires Injective(s, rank) && IsLeast(s, rank, m) && Lists(s - {m}, rank, rest)
    ensures Lists(s, rank, [m] + rest)
  {
    forall j | 0 <= j < |rest| ensures rank(m) < rank(rest[j]) {
      assert rest[j] in s - {m};
    }
  }

  function List<T(==,!new)>(s: set<T>, rank: T -> nat): (r: seq<T>)
    requires Injective(s, rank)
    ensures Lists(s, rank, r)
  {
    if s == {} then []
    else
      assert exists m :: IsLeast(s, rank, m) by { var least := Least(s, rank); }
      var m :| IsLeast(s, rank, m);
      var rest := List(s - {m}, rank);
      LeastFirst(s, rank, m, rest);
      [m] + rest
  }
}

/** The input controller of input/controller.go as a function of its state: the specification the class below
    implements. A run is any sequence of calls, worker steps and sender outcomes. */
module InputController {
  import opened Options
  import opened InputEvents
  import Ascending

  datatype Config = Config(enabled: bool, locking: bool, pointer: bool, keyboard: bool, queueSize: nat, limit: real)

  datatype Authorization = Authorization(pointer: bool, keyboard: bool)

  datatype Status = Status(connected: bool, pointer: bool, keyboard: bool)

  datatype Owner = Owner(generation: nat, queued: int, held: set<Code>)

  datatype Queued = Queued(owner: nat, generation: nat, event: Event)

  /** One call on the sender: on behalf of a queued event, or to let go of a held code. */
  datatype Call = ForEvent(queued: Queued, ok: bool) | LetGo(code: Code, ok: bool)

  datatype Error = Closed | Disabled | PointerUnauthorized | KeyboardUnauthorized | Busy | NotReady | NotOwner
                 | Overloaded | KeyboardOff | PointerOff | InvalidEvent | AlreadyAttached

  datatype Outcome = Done | Failed(error: Error)

  /** `sender` holds whether the attached sender takes text. `calls` is the transcript of sender calls; `accepted`
      lists every event a submit took, `delivered` every queued event that passed the worker's lease check. */
  datatype State = State(
    closed: bool,
    authorization: Authorization,
    sender: Option<bool>,
    generation: nat,
    owners: map<nat, Owner>,
    pressed: map<Code, int>,
    queue: seq<Queued>,
    inFlight: Option<Queued>,
    calls: seq<Call>,
    accepted: seq<Queued>,
    delivered: seq<Queued>)

  /** Whether the sender's k-th call succeeds; an arbitrary environment. */
  type Environment = nat -> bool

  const Initial := State(false, Authorization(false, false), None, 0, map[], map[], [], None, [], [], [])

  // ---- revocation

  function Keys(held: set<Code>): set<Code> { set c | c in held && c.KeyCode? }

  function Buttons(held: set<Code>): set<Code> { set c | c in held && c.ButtonCode? }

  /** Held codes in release order: ascending keys, then ascending buttons. */
  function ReleaseOrder(held: set<Code>): seq<Code> {
    Ascending.List(Keys(held), (c: Code) => c.n) + Ascending.List(Buttons(held), (c: Code) => c.n)
  }

  function CountOf(pressed: map<Code, int>, code: Code): int {
    if code in pressed then pressed[code] else 0
  }

  function LetGoOf(s: State, code: Code, env: Environment): State {
    if CountOf(s.pressed, code) == 1 then
      s.(pressed := s.pressed - {code},
         calls := if s.sender.Some? then s.calls + [LetGo(code, env(|s.calls|))] else s.calls)
    else
      s.(pressed := s.pressed[code := CountOf(s.pressed, code) - 1])
  }

  function LetGoOfAll(s: State, codes: seq<Code>, env: Environment): State
    decreases |codes|
  {
    if codes == [] then s else LetGoOf(LetGoOfAll(s, codes[..|codes| - 1], env), codes[|codes| - 1], env)
  }

  function WithoutOwner(queue: seq<Queued>, owner: nat): seq<Queued> {
    if queue == [] then []
    else
      var front := WithoutOwner(queue[..|queue| - 1], owner);
      if queue[|queue| - 1].owner == owner then front else front + [queue[|queue| - 1]]
  }

  function RevokeOwner(s: State, owner: nat, env: Environment): State {
    if owner !in s.owners then s
    else
      var released := LetGoOfAll(s, ReleaseOrder(s.owners[owner].held), env);
      released.(owners := s.owners - {owner}, queue := WithoutOwner(s.queue, owner))
  }

  function RevokeOwners(s: State, owners: seq<nat>, env: Environment): State
    decreases |owners|
  {
    if owners == [] then s
    else RevokeOwner(RevokeOwners(s, owners[..|owners| - 1], env), owners[|owners| - 1], env)
  }

  function RevokeAll(s: State, env: Environment): State {
    RevokeOwners(s, Ascending.List(s.owners.Keys, (o: nat) => o), env)
  }

  // ---- calls

  function Attach(s: State, authorization: Authorization, takesText: bool): (State, Outcome) {
    if s.closed then (s, Failed(Closed))
    else if s.sender.Some? then (s, Failed(AlreadyAttached))
    else (s.(authorization := authorization, sender := Some(takesText)), Done)
  }

  function Acquire(cfg: Config, s: State, owner: nat, status: Status): (State, Outcome) {
    if s.closed then (s, Failed(Closed))
    else if !cfg.enabled then (s, Failed(Disabled))
    else if cfg.pointer && !s.authorization.pointer then (s, Failed(PointerUnauthorized))
    else if cfg.keyboard && !s.authorization.keyboard then (s, Failed(KeyboardUnauthorized))
    else if owner in s.owners then (s, Done)
    else if cfg.locking && |s.owners| != 0 then (s, Failed(Busy))
    else if s.sender.None? then (s, Failed(NotReady))
    else if !status.connected || (cfg.pointer && !status.pointer) || (cfg.keyboard && !status.keyboard) then
      (s, Failed(NotReady))
    else
      (s.(generation := s.generation + 1, owners := s.owners[owner := Owner(s.generation + 1, 0, {})]), Done)
  }

  function Enabled(cfg: Config, e: Event): Outcome {
    match e
    case Press(_, KeyCode(_), _) => if cfg.keyboard then Done else Failed(KeyboardOff)
    case Text(_, _) => if cfg.keyboard then Done else Failed(KeyboardOff)
    case Unknown(_) => Failed(InvalidEvent)
    case _ => if cfg.pointer then Done else Failed(PointerOff)
  }

  /** The coalesced last entry, when the new entry goes into it. */
  function MergeLast(queue: seq<Queued>, q: Queued, limit: real): Option<Queued> {
    if queue == [] then None
    else
      var last := queue[|queue| - 1];
      if last.owner != q.owner || last.generation != q.generation then None
      else match Merge(last.event, q.event, limit)
           case None => None
           case Some(e) => Some(last.(event := e))
  }

  function Submit(cfg: Config, s: State, owner: nat, e: Event, env: Environment): (State, Outcome) {
    if s.closed then (s, Failed(Closed))
    else if owner !in s.owners then (s, Failed(NotOwner))
    else if Enabled(cfg, e).Failed? then (s, Enabled(cfg, e))
    else
      var q := Queued(owner, s.owners[owner].generation, e);
      match MergeLast(s.queue, q, cfg.limit)
      case Some(last) => (s.(queue := s.queue[..|s.queue| - 1] + [last], accepted := s.accepted + [q]), Done)
      case None =>
        if s.owners[owner].queued < cfg.queueSize then
          (s.(queue := s.queue + [q], accepted := s.accepted + [q],
              owners := s.owners[owner := s.owners[owner].(queued := s.owners[owner].queued + 1)]), Done)
        else (RevokeOwner(s, owner, env), Failed(Overloaded))
  }

  function Release(s: State, owner: nat, env: Environment): (State, Outcome) {
    if owner in s.owners then (RevokeOwner(s, owner, env), Done) else (s, Failed(NotOwner))
  }

  function Close(s: State, env: Environment): State {
    if s.closed then s else RevokeAll(s.(closed := true), env)
  }

  // ---- the worker

  function Dequeue(s: State): State {
    if s.queue == [] || s.inFlight.Some? then s
    else
      var q := s.queue[0];
      var owners := if Live(s, q) then s.owners[q.owner := s.owners[q.owner].(queued := s.owners[q.owner].queued - 1)]
                    else s.owners;
      s.(queue := s.queue[1..], inFlight := Some(q), owners := owners)
  }

  /** The lease the entry was queued under is still the owner's lease. */
  predicate Live(s: State, q: Queued) {
    q.owner in s.owners && s.owners[q.owner].generation == q.generation
  }

  /** A sender call failed: the event's owner goes first, then every other owner. */
  function FailDelivery(s: State, q: Queued, env: Environment): State {
    RevokeAll(RevokeOwner(s, q.owner, env), env)
  }

  function Send(s: State, q: Queued, env: Environment): State {
    var called := s.(calls := s.calls + [ForEvent(q, env(|s.calls|))]);
    if env(|s.calls|) then called else FailDelivery(called, q, env)
  }

  /** Makes `code` held, or no longer held, by the entry's owner, and counts it so. */
  function Hold(s: State, q: Queued, code: Code, hold: bool): State
    requires q.owner in s.owners
  {
    var o, count := s.owners[q.owner], CountOf(s.pressed, code);
    if hold then
      s.(owners := s.owners[q.owner := o.(held := o.held + {code})], pressed := s.pressed[code := count + 1])
    else
      s.(owners := s.owners[q.owner := o.(held := o.held - {code})],
         pressed := if count == 1 then s.pressed - {code} else s.pressed[code := count - 1])
  }

  /** A key or button event reaches the sender only when it changes whether any owner holds the code. */
  function Toggle(s: State, q: Queued, code: Code, hold: bool, env: Environment): State
    requires q.owner in s.owners
  {
    if CountOf(s.pressed, code) != (if hold then 0 else 1) then Hold(s, q, code, hold)
    else
      var called := s.(calls := s.calls + [ForEvent(q, env(|s.calls|))]);
      if env(|s.calls|) then Hold(called, q, code, hold) else FailDelivery(called, q, env)
  }

  function Deliver(s: State, q: Queued, env: Environment): State
    requires q.owner in s.owners && s.sender.Some?
  {
    match q.event
    case Press(_, code, hold) => if (code in s.owners[q.owner].held) == hold then s else Toggle(s, q, code, hold, env)
    case Text(_, _) => if s.sender.value then Send(s, q, env) else FailDelivery(s, q, env)
    case Unknown(_) => s
    case _ => Send(s, q, env)
  }

  function Handle(s: State, env: Environment): State {
    if s.inFlight.None? then s
    else
      var q, s' := s.inFlight.value, s.(inFlight := None);
      if s.closed || !Live(s, q) || s.sender.None? then s'
      else Deliver(s'.(delivered := s.delivered + [q]), q, env)
  }

  // ---- runs

  datatype Step =
    | Attaching(authorization: Authorization, takesText: bool)
    | Unavailable(authorization: Authorization)
    | Acquiring(owner: nat, status: Status)
    | Submitting(owner: nat, event: Event)
    | Releasing(owner: nat)
    | Revoking
    | Closing
    | Dequeuing
    | Handling

  function Next(cfg: Config, s: State, step: Step, env: Environment): State {
    match step
    case Attaching(authorization, takesText) => Attach(s, authorization, takesText).0
    case Unavailable(authorization) => s.(authorization := authorization)
    case Acquiring(owner, status) => Acquire(cfg, s, owner, status).0
    case Submitting(owner, e) => Submit(cfg, s, owner, e, env).0
    case Releasing(owner) => Release(s, owner, env).0
    case Revoking => RevokeAll(s, env)
    case Closing => Close(s, env)
    case Dequeuing => Dequeue(s)
    case Handling => Handle(s, env)
  }

  function Exec(cfg: Config, s: State, steps: seq<Step>, env: Environment): State {
    if steps == [] then s else Next(cfg, Exec(cfg, s, steps[..|steps| - 1], env), steps[|steps| - 1], env)
  }
}
