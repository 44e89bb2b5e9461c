/** Peer admission and shutdown: reservations, registration, owned goroutines and the close sequence
    (webrtc/service.go, webrtc/peer.go). */
module Admission {

  /** The service's side. `signals` counts how often closeDone was closed. */
  datatype Desk = Desk(
    closed: bool, signalled: bool, signals: nat, reservations: int, registered: set<nat>, active: bool, nextId: nat)

  predicate Refuses(d: Desk, max: nat) {
    d.closed || d.reservations >= max
  }

  function Reserve(d: Desk, max: nat): Desk {
    if Refuses(d, max) then d else d.(nextId := d.nextId + 1, reservations := d.reservations + 1)
  }

  function Register(d: Desk, p: nat): Desk {
    if d.closed then d
    else d.(registered := d.registered + {p}, active := if d.registered == {} then true else d.active)
  }

  function Signal(d: Desk): Desk {
    if d.closed && d.reservations == 0 && !d.signalled then d.(signalled := true, signals := d.signals + 1) else d
  }

  function Release(d: Desk): Desk {
    Signal(d.(reservations := d.reservations - 1))
  }

  function Remove(d: Desk, p: nat): Desk {
    if p !in d.registered then d
    else d.(registered := d.registered - {p}, active := if d.registered - {p} == {} then false else d.active)
  }

  function Shut(d: Desk): Desk {
    if d.closed then d else Signal(d.(closed := true)).(active := false)
  }

  /** Where newPeer stands; `Failing` is every path that ends in giving the reservation back. */
  datatype Builder = Reserved | Failing | Built | Gone

  /** Where finishClose stands: not begun, waiting for owned goroutines, then past each of its steps. */
  datatype Finisher = Idle | Waiting | Drained | Removed | Released | Ended

  /** One connection attempt. `releases` counts its releaseReservation calls, `dones` how often `done` was closed. */
  datatype Conn = Conn(builder: Builder, finisher: Finisher, ownedOpen: bool, owned: nat, releases: nat, dones: nat)

  datatype State = State(max: nat, desk: Desk, conns: map<nat, Conn>)

  datatype Step =
    | Admit
    | Fail(p: nat)
    | Enter(p: nat)
    | GiveUp(p: nat)
    | GoOwned(p: nat)
    | OwnedEnds(p: nat)
    | CloseWith(p: nat)
    | Drain(p: nat)
    | Leave(p: nat)
    | GiveBack(p: nat)
    | Finish(p: nat)
    | CloseService

  predicate Enabled(s: State, step: Step) {
    if step.Admit? || step.CloseService? then true
    else if step.p !in s.conns then false
    else
      var c := s.conns[step.p];
      match step
      case Fail(_) => c.builder.Reserved?
      case Enter(_) => c.builder.Reserved?
      case GiveUp(_) => c.builder.Failing?
      case GoOwned(_) => c.builder.Built? && c.ownedOpen
      case OwnedEnds(_) => c.owned > 0
      case CloseWith(_) => c.builder.Built? && c.finisher.Idle?
      case Drain(_) => c.finisher.Waiting? && c.owned == 0
      case Leave(_) => c.finisher.Drained?
      case GiveBack(_) => c.finisher.Removed?
      case Finish(_) => c.finisher.Released?
      case _ => true
  }

  /** The connection after a step of its own. */
  function NextConn(c: Conn, step: Step, closed: bool): Conn {
    match step
    case Fail(_) => c.(builder := Failing)
    case Enter(_) => c.(builder := if closed then Failing else Built)
    case GiveUp(_) => c.(builder := Gone, releases := c.releases + 1)
    case GoOwned(_) => c.(owned := c.owned + 1)
    case OwnedEnds(_) => if c.owned > 0 then c.(owned := c.owned - 1) else c
    case CloseWith(_) => c.(ownedOpen := false, finisher := Waiting)
    case Drain(_) => c.(finisher := Drained)
    case Leave(_) => c.(finisher := Removed)
    case GiveBack(_) => c.(finisher := Released, releases := c.releases + 1)
    case Finish(_) => c.(finisher := Ended, dones := c.dones + 1)
    case _ => c
  }

  function NextDesk(d: Desk, step: Step): Desk {
    match step
    case Enter(p) => Register(d, p)
    case GiveUp(_) => Release(d)
    case Leave(p) => Remove(d, p)
    case GiveBack(_) => Release(d)
    case _ => d
  }

  function Next(s: State, step: Step): State {
    if !Enabled(s, step) then s
    else
      match step
      case Admit =>
        var d := Reserve(s.desk, s.max);
        if Refuses(s.desk, s.max) then s
        else s.(desk := d, conns := s.conns[d.nextId := Conn(Reserved, Idle, true, 0, 0, 0)])
      case CloseService => s.(desk := Shut(s.desk))
      case _ =>
        s.(desk := NextDesk(s.desk, step),
           conns := s.conns[step.p := NextConn(s.conns[step.p], step, s.desk.closed)])
  }

  function Run(s: State, steps: seq<Step>): State {
    if steps == [] then s else Next(Run(s, steps[..|steps| - 1]), steps[|steps| - 1])
  }

  function Initial(max: nat): State {
    State(max, Desk(false, false, 0, 0, {}, false, 0), map[])
  }

  // ---- The invariant ----

  predicate Holds(c: Conn) {
    match c.builder
    case Reserved => true
    case Failing => true
    case Built => !c.finisher.Released? && !c.finisher.Ended?
    case Gone => false
  }

  predicate Listed(c: Conn) {
    c.builder.Built? && (c.finisher.Idle? || c.finisher.Waiting? || c.finisher.Drained?)
  }

  function Holding(s: State): set<nat> {
    set p | p in s.conns && Holds(s.conns[p])
  }

  /** Released once or still holding; done only after the last owned goroutine. */
  predicate ConnOk(c: Conn) {
    && c.releases == (if Holds(c) then 0 else 1)
    && c.dones == (if c.finisher.Ended? then 1 else 0)
    && (!c.builder.Built? ==> c.finisher.Idle? && c.owned == 0)
    && (!c.finisher.Idle? ==> !c.ownedOpen)
    && (!c.finisher.Idle? && !c.finisher.Waiting? ==> c.owned == 0)
  }

  predicate DeskOk(d: Desk, max: nat) {
    && d.reservations <= max
    && (d.active <==> d.registered != {} && !d.closed)
    && (d.signalled <==> d.closed && d.reservations == 0)
    && d.signals == (if d.signalled then 1 else 0)
  }

  ghost predicate Inv(s: State) {
    && DeskOk(s.desk, s.max)
    && (forall p | p in s.conns :: ConnOk(s.conns[p]) && p <= s.desk.nextId)
    && (forall p :: p in s.desk.registered <==> p in s.conns && Listed(s.conns[p]))
    && s.desk.reservations == |Holding(s)|
  }

  /** A step of one connection that keeps the reservation, or gives it back. */
  lemma HoldingAfter(s: State, step: Step)
    requires Inv(s) && Enabled(s, step) && !step.Admit? && !step.CloseService?
    ensures Holding(Next(s, step)) ==
      if step.GiveUp? || step.GiveBack? then Holding(s) - {step.p} else Holding(s)
    ensures step.GiveUp? || step.GiveBack? ==> step.p in Holding(s)
  {
  }

  lemma HoldingAfterAdmit(s: State)
    requires Inv(s) && !Refuses(s.desk, s.max)
    ensures Holding(Next(s, Admit)) == Holding(s) + {s.desk.nextId + 1} && s.desk.nextId + 1 !in Holding(s)
  {
  }

  lemma ListedAfter(s: State, step: Step)
    requires Inv(s) && Enabled(s, step)
    ensures var t := Next(s, step); forall p :: p in t.desk.registered <==> p in t.conns && Listed(t.conns[p])
  {
    hide DeskOk, Holding;
    match step
    case Admit => hide ConnOk;
    case CloseService => hide ConnOk;
    case _ => ListedConn(s.conns[step.p], step, s.desk.closed); hide Listed;
  }

  /** Which steps list a connection, and which take it off the list. */
  lemma ListedConn(c: Conn, step: Step, closed: bool)
    requires ConnOk(c) && !step.Admit? && !step.CloseService? && Enabled(State(0, Initial(0).desk, map[step.p := c]), step)
    ensures Listed(NextConn(c, step, closed)) <==>
      (Listed(c) && !step.Leave?) || (step.Enter? && !closed)
    ensures step.Enter? ==> !Listed(c)
  {
  }

  lemma DeskAfter(s: State, step: Step)
    requires Inv(s) && Enabled(s, step)
    ensures DeskOk(Next(s, step).desk, s.max) && s.desk.nextId <= Next(s, step).desk.nextId
    ensures Next(s, step).desk.reservations == s.desk.reservations +
      (if step.Admit? && !Refuses(s.desk, s.max) then 1 else if step.GiveUp? || step.GiveBack? then -1 else 0)
  {
    if step.GiveUp? || step.GiveBack? {
      HoldingAfter(s, step);
      assert |Holding(s)| > 0;
    }
    hide ConnOk, Holding, NextConn;
  }

  lemma ConnsAfter(s: State, step: Step)
    requires Inv(s) && Enabled(s, step)
    ensures var t := Next(s, step); forall p | p in t.conns :: ConnOk(t.conns[p]) && p <= t.desk.nextId
  {
  }

  lemma ReservationsAfter(s: State, step: Step)
    requires Inv(s) && Enabled(s, step)
    ensures Next(s, step).desk.reservations == |Holding(Next(s, step))|
  {
    DeskAfter(s, step);
    if step.Admit? {
      if !Refuses(s.desk, s.max) { HoldingAfterAdmit(s); }
    } else if step.CloseService? {
      assert Holding(Next(s, step)) == Holding(s);
    } else {
      HoldingAfter(s, step);
    }
    hide Next, Holding, DeskOk, ConnOk, Listed;
  }

  lemma NextKeeps(s: State, step: Step)
    requires Inv(s)
    ensures Inv(Next(s, step)) && Next(s, step).max == s.max
  {
    hide DeskOk, ConnOk, Listed, Holding, NextConn, NextDesk, Reserve, Shut;
    if Enabled(s, step) {
      ListedAfter(s, step);
      DeskAfter(s, step);
      ConnsAfter(s, step);
      ReservationsAfter(s, step);
      MaxStays(s, step);
      hide Next;
    }
  }

  lemma MaxStays(s: State, step: Step)
    ensures Next(s, step).max == s.max
  {
  }

  /** Every run: no more peers are registered than reserved and no more reserved than allowed; each reservation is held or
      released once; the source is active exactly while the service is open and a peer registered; closeDone is closed
      once, exactly when the service is closed with no reservation left; and a peer is done once, after the last goroutine
      it owned, with none started since. */
  lemma {:induction false} RunsKeep(max: nat, steps: seq<Step>)
    ensures Inv(Run(Initial(max), steps)) && Run(Initial(max), steps).max == max
    ensures var d := Run(Initial(max), steps).desk; |d.registered| <= d.reservations <= max
  {
    if steps != [] {
      RunsKeep(max, steps[..|steps| - 1]);
      NextKeeps(Run(Initial(max), steps[..|steps| - 1]), steps[|steps| - 1]);
      hide Next;
    }
    var s := Run(Initial(max), steps);
    assert s.desk.registered <= Holding(s);
    Cardinality(s.desk.registered, Holding(s));
  }

  lemma Cardinality(a: set<nat>, b: set<nat>)
    requires a <= b
    ensures |a| <= |b|
  {
    assert b == a + (b - a);
  }

  // ---- Shutdown can always finish ----

  /** How far a connection is from giving its reservation back. */
  function Distance(c: Conn): nat {
    match c.builder
    case Reserved => 2
    case Failing => 1
    case Gone => 0
    case Built =>
      match c.finisher
      case Idle => c.owned + 5
      case Waiting => c.owned + 4
      case Drained => 3
      case Removed => 2
      case Released => 0
      case Ended => 0
  }

  /** The connection's next step towards its end. */
  function Onward(p: nat, c: Conn): Step {
    match c.builder
    case Reserved => Fail(p)
    case Failing => GiveUp(p)
    case Gone => GiveUp(p)
    case Built =>
      match c.finisher
      case Idle => CloseWith(p)
      case Waiting => if c.owned > 0 then OwnedEnds(p) else Drain(p)
      case Drained => Leave(p)
      case Removed => GiveBack(p)
      case Released => Finish(p)
      case Ended => Finish(p)
  }

  lemma OnwardIsNearer(s: State, p: nat)
    requires p in s.conns && Holds(s.conns[p])
    ensures var step := Onward(p, s.conns[p]);
      && Enabled(s, step) && !step.Admit? && !step.CloseService? && step.p == p
      && p in Next(s, step).conns && Distance(Next(s, step).conns[p]) < Distance(s.conns[p])
      && (step.GiveUp? || step.GiveBack? <==> !Holds(Next(s, step).conns[p]))
  {
  }

  lemma {:induction false} RunAppends(s: State, a: seq<Step>, b: seq<Step>)
    ensures Run(s, a + b) == Run(Run(s, a), b)
    decreases |b|
  {
    if b == [] {
      assert a + b == a;
    } else {
      var rest := b[..|b| - 1];
      assert (a + b)[..|a + b| - 1] == a + rest && (a + b)[|a + b| - 1] == b[|b| - 1];
      RunAppends(s, a, rest);
    }
  }

  /** From any state in which a connection holds its reservation, its own steps alone can give it back. */
  lemma {:induction false} OneCanLeave(s: State, p: nat) returns (steps: seq<Step>)
    requires Inv(s) && p in Holding(s)
    ensures Inv(Run(s, steps)) && Holding(Run(s, steps)) == Holding(s) - {p}
    ensures Run(s, steps).desk.closed == s.desk.closed
    ensures forall i | 0 <= i < |steps| :: !steps[i].Admit? && !steps[i].CloseService? && steps[i].p == p
    decreases Distance(s.conns[p])
  {
    OnwardIsNearer(s, p);
    var step := Onward(p, s.conns[p]);
    var t := Next(s, step);
    NextKeeps(s, step);
    HoldingAfter(s, step);
    ClosedStays(s, step);
    assert Run(s, [step]) == t by { assert [step][..0] == []; assert Run(s, []) == s; }
    steps := [step];
    if p in Holding(t) {
      hide Next, Inv, Onward;
      var more := OneCanLeave(t, p);
      RunAppends(s, [step], more);
      steps := [step] + more;
    }
  }

  lemma ClosedStays(s: State, step: Step)
    requires !step.CloseService?
    ensures Next(s, step).desk.closed == s.desk.closed
  {
  }

  /** Whatever happened before, once the service is closed its peers' own steps can bring it to the point where closeDone
      is closed: no run gets stuck with a reservation nobody will release. */
  lemma {:induction false} ShutdownCanFinish(s: State) returns (steps: seq<Step>)
    requires Inv(s) && s.desk.closed
    ensures Run(s, steps).desk.signalled && Run(s, steps).desk.signals == 1
    ensures forall i | 0 <= i < |steps| ::
      !steps[i].Admit? && !steps[i].CloseService? && steps[i].p in Holding(s)
    decreases |Holding(s)|
  {
    if Holding(s) == {} {
      steps := [];
    } else {
      var p :| p in Holding(s);
      var first := OneCanLeave(s, p);
      var t := Run(s, first);
      assert |Holding(t)| < |Holding(s)|;
      var rest := ShutdownCanFinish(t);
      RunAppends(s, first, rest);
      steps := first + rest;
    }
  }

  /** In every run admission is refused if and only if the service is closed or exactly the allowed number of reservations is
      held; otherwise it makes one new reservation. */
  lemma RefusedExactly(max: nat, steps: seq<Step>)
    ensures var s := Run(Initial(max), steps);
      && (Refuses(s.desk, max) <==> s.desk.closed || |Holding(s)| == max)
      && (if Refuses(s.desk, max) then Next(s, Admit) == s
          else Holding(Next(s, Admit)) == Holding(s) + {s.desk.nextId + 1} && s.desk.nextId + 1 !in s.conns)
  {
    RunsKeep(max, steps);
    var s := Run(Initial(max), steps);
    hide Run;
    if !Refuses(s.desk, max) { HoldingAfterAdmit(s); }
    hide Holding, ConnOk, Listed;
  }

  /** An admitted peer of an open service is registered, and the source active; it may start goroutines until it closes. */
  lemma AdmittedIsRegistered(s: State)
    requires Inv(s) && !Refuses(s.desk, s.max)
    ensures var id := s.desk.nextId + 1;
      var t := Next(Next(s, Admit), Enter(id));
      && id in t.desk.registered && t.desk.active && t.conns[id].builder.Built? && t.conns[id].ownedOpen
      && t.desk.reservations == s.desk.reservations + 1
      && Next(t, GoOwned(id)).conns[id].owned == 1
      && !Next(t, CloseWith(id)).conns[id].ownedOpen && Next(Next(t, CloseWith(id)), GoOwned(id)).conns[id].owned == 0
  {
    hide Holding, ConnOk, Listed;
  }

  /** A peer whose construction fails, or that meets a closed service, gives its reservation back unregistered. */
  lemma FailedIsReleased(s: State, id: nat)
    requires Inv(s) && id in s.conns && s.conns[id].builder.Reserved?
    ensures var t := Next(Next(s, Fail(id)), GiveUp(id));
      t.conns[id].builder.Gone? && t.desk.reservations == s.desk.reservations - 1 && t.desk.registered == s.desk.registered
    ensures s.desk.closed ==> Next(s, Enter(id)).conns[id].builder.Failing? && Next(s, Enter(id)).desk == s.desk
  {
    hide Holding, ConnOk, Listed;
  }

  /** Closing the service closes it for good, deactivates the source and keeps its peers until they close; a second close and a
      refused reservation change nothing. */
  lemma ClosingCloses(s: State)
    ensures var t := Next(s, CloseService);
      && t.desk.closed && t.conns == s.conns && t.desk.registered == s.desk.registered
      && t.desk.reservations == s.desk.reservations
      && (if s.desk.closed then t == s else !t.desk.active)
    ensures Refuses(s.desk, s.max) ==> Reserve(s.desk, s.max) == s.desk
  {
  }

  /** A connection that has given its reservation back after closing is done with its next step, once. */
  lemma DoneComesLast(s: State, id: nat)
    requires Inv(s) && id in s.conns && s.conns[id].finisher.Released?
    ensures var t := Next(s, Finish(id));
      t.conns[id] == s.conns[id].(finisher := Ended, dones := 1) && t.desk == s.desk && Next(t, Finish(id)) == t
  {
    hide Holding, DeskOk, Listed;
  }

  // ---- The objects ----

  class Service {
    const maxPeers: nat
    var closed: bool
    var closeDoneClosed: bool
    var reservations: int
    var peers: set<nat>
    var active: bool
    var nextId: nat
    ghost var signals: nat

    ghost function Value(): Desk
      reads this
    {
      Desk(closed, closeDoneClosed, signals, reservations, peers, active, nextId)
    }

    constructor (max: nat)
      ensures Value() == Initial(max).desk && maxPeers == max
    {
      maxPeers, closed, closeDoneClosed, reservations, peers, active, nextId := max, false, false, 0, {}, false, 0;
      signals := 0;
    }

    /** The new peer's identity, or none when the service is closed or full. */
    method ReservePeer() returns (ok: bool, id: nat)
      modifies this
      ensures Value() == Reserve(old(Value()), maxPeers)
      ensures ok == !Refuses(old(Value()), maxPeers)
      ensures ok ==> id == nextId
    {
      if closed || reservations >= maxPeers { return false, 0; }
      nextId := nextId + 1;
      reservations := reservations + 1;
      return true, nextId;
    }

    method RegisterPeer(p: nat) returns (ok: bool)
      modifies this
      ensures Value() == Register(old(Value()), p) && ok == !old(closed)
    {
      if closed { return false; }
      var first := peers == {};
      peers := peers + {p};
      if first { active := true; }
      return true;
    }

    method ReleaseReservation()
      modifies this
      ensures Value() == Release(old(Value()))
    {
      reservations := reservations - 1;
      if closed && reservations == 0 && !closeDoneClosed {
        closeDoneClosed, signals := true, signals + 1;
      }
    }

    method RemovePeer(p: nat) returns (removed: bool)
      modifies this
      ensures Value() == Remove(old(Value()), p) && removed == (p in old(peers))
    {
      removed := p in peers;
      if removed {
        peers := peers - {p};
        if peers == {} { active := false; }
      }
    }

    /** Returns the peers to close, or none when the service was closed before. */
    method Close() returns (toClose: set<nat>)
      modifies this
      ensures Value() == Shut(old(Value()))
      ensures toClose == if old(closed) then {} else peers
    {
      if closed { return {}; }
      closed := true;
      if reservations == 0 && !closeDoneClosed {
        closeDoneClosed, signals := true, signals + 1;
      }
      active := false;
      toClose := peers;
    }
  }

  /** A registered peer's goroutines and its closing. */
  class PeerLife {
    const id: nat
    var ownedOpen: bool
    var owned: nat
    var closing: bool
    var doneClosed: bool

    /** The peer between its steps: what it holds follows from its fields. */
    ghost function View(): Conn
      reads this
    {
      Conn(Built, if doneClosed then Ended else if closing then Waiting else Idle, ownedOpen, owned,
           if doneClosed then 1 else 0, if doneClosed then 1 else 0)
    }

    constructor (id: nat)
      ensures this.id == id && ConnOk(View()) && Listed(View()) && owned == 0
    {
      this.id, ownedOpen, owned, closing, doneClosed := id, true, 0, false, false;
    }

    /** Starts an owned goroutine unless the peer is closing. */
    method GoOwned() returns (started: bool)
      requires ConnOk(View())
      modifies this
      ensures ConnOk(View()) && started == old(ownedOpen)
      ensures View() == if started then NextConn(old(View()), Step.GoOwned(id), false) else old(View())
    {
      if !ownedOpen { return false; }
      owned := owned + 1;
      started := true;
    }

    method OwnedEnds()
      requires ConnOk(View()) && owned > 0
      modifies this
      ensures ConnOk(View()) && View() == NextConn(old(View()), Step.OwnedEnds(id), false)
    {
      owned := owned - 1;
    }

    /** The first call shuts the door for goroutines and begins the finish; every later call does nothing. */
    method CloseWith() returns (first: bool)
      requires ConnOk(View())
      modifies this
      ensures ConnOk(View()) && first == !old(closing || doneClosed) && !ownedOpen
      ensures View() == if first then NextConn(old(View()), Step.CloseWith(id), false) else old(View())
    {
      if closing || doneClosed { return false; }
      ownedOpen, closing := false, true;
      first := true;
    }

    /** What follows the wait for owned goroutines: unlisted, the reservation given back, and only then done. */
    method FinishClose(service: Service)
      requires ConnOk(View()) && closing && !doneClosed && owned == 0
      modifies this, service
      ensures ConnOk(View()) && View().finisher.Ended? && !Holds(View()) && owned == 0
      ensures service.Value() == Release(Remove(old(service.Value()), id))
    {
      var removed := service.RemovePeer(id);
      service.ReleaseReservation();
      doneClosed := true;
    }
  }
}
