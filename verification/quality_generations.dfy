/** Closing the peers a profile change leaves behind (webrtc/service.go, webrtc/control.go, webrtc/peer.go). */
module QualityGenerations {

  import opened CodecCompat

  /** What a peer negotiated, and what a profile asks for. */
  datatype Offer = Offer(codec: Codec, transform: string)

  datatype Requester = Nobody | Peer(id: nat)

  /** An entry of a close list that nobody has checked yet. */
  datatype Task = Task(peer: nat, generation: nat)

  /** `peers` are the open peers and what they negotiated, `tasks` the unchecked close-list entries, `doomed` the peers some
      thread will close whatever happens next, and `listed` the profile in force at the last change of generation. */
  datatype State = State(
    offer: Offer, peers: map<nat, Offer>, nextId: nat, generation: nat, tasks: set<Task>, doomed: set<nat>, listed: Offer)

  predicate Incompatible(peer: Offer, offer: Offer) {
    !Compatible(peer.codec, offer.codec) || peer.transform != offer.transform
  }

  function Stale(peers: map<nat, Offer>, offer: Offer): set<nat> {
    set p | p in peers && Incompatible(peers[p], offer)
  }

  function Asking(requester: Requester): set<nat> {
    if requester.Peer? then {requester.id} else {}
  }

  function Names(list: seq<nat>): set<nat> {
    set p | p in list
  }

  function TasksFor(peers: set<nat>, generation: nat): (tasks: set<Task>)
    ensures forall p :: Task(p, generation) in tasks <==> p in peers
  {
    set p | p in peers :: Task(p, generation)
  }

  /** The media service has accepted the update; `listed` says that the rest of the update succeeded too. */
  function Update(s: State, offer: Offer, requester: Requester, listed: bool): State {
    var stale := Stale(s.peers, offer);
    if !listed || stale == {} then s.(offer := offer)
    else s.(offer := offer, generation := s.generation + 1, listed := offer,
            tasks := s.tasks + TasksFor(stale - Asking(requester), s.generation + 1),
            doomed := s.doomed + (stale * Asking(requester)))
  }

  datatype Step =
    | Updated(offer: Offer, requester: Requester)
    | HalfUpdated(offer: Offer)
    | Arrive
    | Check(task: Task)
    | Close(peer: nat)

  function Next(s: State, step: Step): State {
    match step
    case Updated(offer, requester) => Update(s, offer, requester, true)
    case HalfUpdated(offer) => Update(s, offer, Nobody, false)
    case Arrive => s.(nextId := s.nextId + 1, peers := s.peers[s.nextId + 1 := s.offer])
    case Check(task) =>
      if task !in s.tasks then s
      else s.(tasks := s.tasks - {task},
              doomed := if task.generation == s.generation then s.doomed + {task.peer} else s.doomed)
    case Close(p) => s.(peers := s.peers - {p}, doomed := s.doomed - {p})
  }

  function Run(s: State, steps: seq<Step>): State {
    if steps == [] then s else Next(Run(s, steps[..|steps| - 1]), steps[|steps| - 1])
  }

  function Initial(offer: Offer): State {
    State(offer, map[], 0, 0, {}, {}, offer)
  }

  // ---- The invariant ----

  ghost predicate Due(s: State, p: nat) {
    p in s.doomed || Task(p, s.generation) in s.tasks
  }

  /** Every incompatible open peer is going to be closed. */
  ghost predicate Covered(s: State) {
    forall p | p in s.peers && Incompatible(s.peers[p], s.offer) :: Due(s, p)
  }

  /** The list of the current generation names only peers that the profile it was made for leaves behind. */
  ghost predicate ListsAreRight(s: State) {
    forall p | p in s.peers && Task(p, s.generation) in s.tasks :: Incompatible(s.peers[p], s.listed)
  }

  ghost predicate Accounted(s: State) {
    && (forall p | p in s.peers :: p <= s.nextId)
    && (forall t | t in s.tasks :: t.generation <= s.generation && t.peer <= s.nextId)
  }

  ghost predicate Inv(s: State) {
    Accounted(s) && ListsAreRight(s)
  }

  lemma SelfCompatible(offer: Offer)
    ensures !Incompatible(offer, offer)
  {
  }

  lemma NextAccounts(s: State, step: Step)
    requires Accounted(s)
    ensures Accounted(Next(s, step))
  {
  }

  lemma NextLists(s: State, step: Step)
    requires Inv(s)
    ensures ListsAreRight(Next(s, step))
  {
  }

  lemma UpdateCovers(s: State, offer: Offer, requester: Requester)
    ensures Covered(Update(s, offer, requester, true))
  {
    hide Incompatible;
    var t := Update(s, offer, requester, true);
    forall p | p in t.peers && Incompatible(t.peers[p], t.offer) ensures Due(t, p) {
      assert p in Stale(s.peers, offer);
      if p !in Asking(requester) { assert Task(p, s.generation + 1) in t.tasks; }
    }
  }

  /** A step keeps every incompatible peer covered if and only if it is not an update that failed after the media service
      had switched, leaving some open peer behind that nothing was going to close. */
  lemma CoverIsKeptExactly(s: State, step: Step)
    requires Inv(s) && Covered(s)
    ensures Covered(Next(s, step)) <==>
      !(step.HalfUpdated? && exists p :: p in s.peers && Incompatible(s.peers[p], step.offer) && !Due(s, p))
  {
    SelfCompatible(s.offer);
    hide Incompatible;
    match step
    case Updated(offer, requester) => UpdateCovers(s, offer, requester);
    case HalfUpdated(offer) =>
      assert Next(s, step) == s.(offer := offer);
    case Arrive =>
    case Check(task) =>
      var t := Next(s, step);
      forall p | p in t.peers && Incompatible(t.peers[p], t.offer) ensures Due(t, p) {
        assert Due(s, p);
      }
    case Close(p) =>
  }

  ghost predicate NoHalfUpdate(steps: seq<Step>) {
    forall i | 0 <= i < |steps| :: !steps[i].HalfUpdated?
  }

  lemma {:induction false} RunsKeepLists(offer: Offer, steps: seq<Step>)
    ensures Inv(Run(Initial(offer), steps))
  {
    if steps != [] {
      var s := Run(Initial(offer), steps[..|steps| - 1]);
      RunsKeepLists(offer, steps[..|steps| - 1]);
      NextAccounts(s, steps[|steps| - 1]);
      NextLists(s, steps[|steps| - 1]);
      hide Next;
    }
  }

  /** After any sequence of successful updates, arrivals, checks and closes, every open incompatible peer is about to be
      closed or on the list of the current generation. */
  lemma {:induction false} RunsKeepCover(offer: Offer, steps: seq<Step>)
    requires NoHalfUpdate(steps)
    ensures Covered(Run(Initial(offer), steps))
  {
    if steps != [] {
      RunsKeepCover(offer, steps[..|steps| - 1]);
      RunsKeepLists(offer, steps[..|steps| - 1]);
      hide Next, Covered, Inv;
      CoverIsKeptExactly(Run(Initial(offer), steps[..|steps| - 1]), steps[|steps| - 1]);
      assert !steps[|steps| - 1].HalfUpdated?;
    }
  }

  /** Once the lists are processed no incompatible peer is left: each open peer that negotiated no empty parameter carries
      exactly the profile in force. */
  lemma NoneSurvives(offer: Offer, steps: seq<Step>)
    requires NoHalfUpdate(steps)
    requires Run(Initial(offer), steps).tasks == {} && Run(Initial(offer), steps).doomed == {}
    ensures forall p | p in Run(Initial(offer), steps).peers :: var s := Run(Initial(offer), steps);
      !Incompatible(s.peers[p], s.offer) && (NoEmptyParameter(s.peers[p].codec) ==> s.peers[p] == s.offer)
  {
    RunsKeepCover(offer, steps);
    var s := Run(Initial(offer), steps);
    hide Run;
    forall p | p in s.peers
      ensures !Incompatible(s.peers[p], s.offer) && (NoEmptyParameter(s.peers[p].codec) ==> s.peers[p] == s.offer)
    {
      assert !Due(s, p);
      assert Compatible(s.peers[p].codec, s.offer.codec);
      if NoEmptyParameter(s.peers[p].codec) { EqualIfCompatible(s.peers[p].codec, s.offer.codec); }
    }
  }

  /** The list of the current generation names only peers that the profile in force leaves behind. */
  ghost predicate ClosesRightly(s: State) {
    forall p | p in s.peers && Task(p, s.generation) in s.tasks :: Incompatible(s.peers[p], s.offer)
  }

  /** The step changes the profile without making a new list, though the list in force names a peer the new profile suits. */
  ghost predicate Outdates(s: State, step: Step) {
    && (step.HalfUpdated? || (step.Updated? && Stale(s.peers, step.offer) == {}))
    && exists p :: p in s.peers && Task(p, s.generation) in s.tasks && !Incompatible(s.peers[p], step.offer)
  }

  /** A step makes the current list name a compatible peer if and only if it is such a change. */
  lemma RightnessIsKeptExactly(s: State, step: Step)
    requires Inv(s) && ClosesRightly(s)
    ensures ClosesRightly(Next(s, step)) <==> !Outdates(s, step)
  {
    NextLists(s, step);
    hide Incompatible;
    match step
    case Updated(offer, requester) =>
      if Stale(s.peers, offer) != {} { assert Next(s, step).listed == Next(s, step).offer; }
    case HalfUpdated(offer) =>
      assert Next(s, step) == s.(offer := offer);
    case Arrive =>
      forall p | p in s.peers ensures p <= s.nextId {
      }
    case Check(task) =>
    case Close(p) =>
  }

  ghost predicate NeverOutdates(offer: Offer, steps: seq<Step>) {
    forall i | 0 <= i < |steps| :: !Outdates(Run(Initial(offer), steps[..i]), steps[i])
  }

  /** In every run without such a change, every peer the current list closes is incompatible when it is checked. */
  lemma {:induction false} RunsCloseRightly(offer: Offer, steps: seq<Step>)
    requires NeverOutdates(offer, steps)
    ensures ClosesRightly(Run(Initial(offer), steps))
  {
    if steps != [] {
      var rest, last := steps[..|steps| - 1], steps[|steps| - 1];
      forall i | 0 <= i < |rest| ensures !Outdates(Run(Initial(offer), rest[..i]), rest[i]) {
        assert rest[..i] == steps[..i];
      }
      RunsCloseRightly(offer, rest);
      RunsKeepLists(offer, rest);
      assert !Outdates(Run(Initial(offer), rest), last);
      RightnessIsKeptExactly(Run(Initial(offer), rest), last);
      hide Next, Inv, Outdates, ClosesRightly;
    }
  }

  /** In every run at all, a close list closes only incompatible peers as long as the profile is the one it was made for. */
  lemma ListsCloseOnlyIncompatible(offer: Offer, steps: seq<Step>, task: Task)
    requires var s := Run(Initial(offer), steps);
      task in s.tasks && task.generation == s.generation && task.peer in s.peers && s.listed == s.offer
    ensures var s := Run(Initial(offer), steps); Incompatible(s.peers[task.peer], s.offer)
  {
    RunsKeepLists(offer, steps);
  }

  lemma RunSnoc(s: State, steps: seq<Step>, step: Step)
    ensures Run(s, steps + [step]) == Next(Run(s, steps), step)
  {
    assert (steps + [step])[..|steps|] == steps;
  }

  lemma FirstSteps(s: State, a: Step, b: Step, c: Step)
    ensures Run(s, [a, b]) == Next(Next(s, a), b) && Run(s, [a, b, c]) == Next(Run(s, [a, b]), c)
  {
    RunSnoc(s, [], a);
    RunSnoc(s, [a], b);
    RunSnoc(s, [a, b], c);
    hide Next;
    assert [] + [a] == [a] && [a] + [b] == [a, b] && [a, b] + [c] == [a, b, c];
    assert Run(s, []) == s;
  }

  /** The exception happens: when the profile returns before the list is processed, no peer is stale, so the generation
      stays and the old list closes a compatible peer. */
  lemma ReturningProfileStillCloses(a: Offer, b: Offer)
    requires Incompatible(a, b)
    ensures var s := Run(Initial(a), [Arrive, Updated(b, Nobody), Updated(a, Nobody), Check(Task(1, 1))]);
      s.doomed == {1} && s.peers == map[1 := a] && s.offer == a && !Incompatible(s.peers[1], s.offer)
  {
    SelfCompatible(a);
    hide Incompatible;
    var s0, s1, s2, s3 := Arrive, Updated(b, Nobody), Updated(a, Nobody), Check(Task(1, 1));
    var x := Next(Initial(a), s0);
    assert x == State(a, map[1 := a], 1, 0, {}, {}, a);
    assert Stale(x.peers, b) == {1};
    var y := Next(x, s1);
    assert TasksFor({1}, 1) == {Task(1, 1)} && {1} - Asking(Nobody) == {1};
    assert y.tasks == {Task(1, 1)} && y.doomed == {};
    assert Stale(y.peers, a) == {};
    var z := Next(y, s2);
    assert Next(z, s3).doomed == {1};
    hide Next;
    FirstSteps(Initial(a), s0, s1, s2);
    RunSnoc(Initial(a), [s0, s1, s2], s3);
    assert [s0, s1, s2] + [s3] == [s0, s1, s2, s3];
  }

  /** It happens too when the update back to the old profile fails after the switch, stale peers or not. */
  lemma HalfReturnStillCloses(a: Offer, b: Offer)
    requires Incompatible(a, b)
    ensures var s := Run(Initial(a), [Arrive, Updated(b, Nobody), HalfUpdated(a)]);
      Task(1, s.generation) in s.tasks && s.peers == map[1 := a] && s.offer == a && !Incompatible(s.peers[1], s.offer)
  {
    SelfCompatible(a);
    hide Incompatible;
    var s0, s1, s2 := Arrive, Updated(b, Nobody), HalfUpdated(a);
    var x := Next(Initial(a), s0);
    assert x == State(a, map[1 := a], 1, 0, {}, {}, a);
    assert Stale(x.peers, b) == {1};
    var y := Next(x, s1);
    assert {1} - Asking(Nobody) == {1};
    assert Task(1, 1) in y.tasks && y.generation == 1;
    assert Next(y, s2) == y.(offer := a);
    hide Next;
    FirstSteps(Initial(a), s0, s1, s2);
  }

  /** The other exception: the limit fails after the switch, and the old peer stays with nobody to close it. */
  lemma HalfUpdateLeavesPeer(a: Offer, b: Offer)
    requires Incompatible(a, b)
    ensures var s := Run(Initial(a), [Arrive, HalfUpdated(b)]);
      1 in s.peers && Incompatible(s.peers[1], s.offer) && s.tasks == {} && s.doomed == {}
  {
    hide Incompatible;
    FirstSteps(Initial(a), Arrive, HalfUpdated(b), Arrive);
  }

  lemma {:induction false} RunAppends(s: State, a: seq<Step>, b: seq<Step>)
    ensures Run(s, a + b) == Run(Run(s, a), b)
    decreases |b|
  {
    if b == [] {
      assert a + b == a;
    } else {
      var rest := b[..|b| - 1];
      assert (a + b)[..|a + b| - 1] == a + rest && (a + b)[|a + b| - 1] == b[|b| - 1];
      RunAppends(s, a, rest);
      hide Next;
    }
  }

  /** From every state the checks of its lists and the closes they lead to empty the lists and close every due peer, and leave
      every other peer open. */
  lemma {:induction false} ListsCanBeProcessed(s: State) returns (steps: seq<Step>)
    ensures Run(s, steps).tasks == {} && Run(s, steps).doomed == {} && SameUndue(s, Run(s, steps))
    ensures forall p :: p in Run(s, steps).peers <==> p in s.peers && !Due(s, p)
    ensures forall i | 0 <= i < |steps| :: steps[i].Check? || steps[i].Close?
    decreases |s.tasks|, |s.doomed|
  {
    if s.tasks == {} && s.doomed == {} {
      steps := [];
      assert Run(s, []) == s;
    } else {
      var step: Step;
      if s.tasks != {} {
        var task :| task in s.tasks;
        step := Check(task);
      } else {
        var p :| p in s.doomed;
        step := Close(p);
      }
      ProcessingKeepsDue(s, step);
      RunSnoc(s, [], step);
      assert [] + [step] == [step] && Run(s, []) == s;
      hide Due, Run, Next, SameUndue;
      var t := Next(s, step);
      var rest := ListsCanBeProcessed(t);
      RunAppends(s, [step], rest);
      steps := [step] + rest;
      UndueTwice(s, t, Run(s, steps));
    }
  }

  /** The peers that are not due are the same, and as they were. */
  ghost predicate SameUndue(s: State, t: State) {
    && (forall p :: p in t.peers && !Due(t, p) <==> p in s.peers && !Due(s, p))
    && (forall p | p in t.peers :: p in s.peers && t.peers[p] == s.peers[p])
    && t.offer == s.offer && t.generation == s.generation
  }

  lemma UndueTwice(s: State, t: State, u: State)
    requires SameUndue(s, t) && SameUndue(t, u) && u.tasks == {} && u.doomed == {}
    ensures SameUndue(s, u) && forall p :: p in u.peers <==> p in s.peers && !Due(s, p)
  {
    forall p ensures p in u.peers <==> p in s.peers && !Due(s, p) {
      assert !Due(u, p);
    }
  }

  /** Checking a task or closing a doomed peer leaves exactly the other peers open or due as they were. */
  lemma ProcessingKeepsDue(s: State, step: Step)
    requires (step.Check? && step.task in s.tasks) || (step.Close? && step.peer in s.doomed && s.tasks == {})
    ensures var t := Next(s, step);
      && SameUndue(s, t)
      && (if step.Check? then |t.tasks| < |s.tasks| else t.tasks == {} && |t.doomed| < |s.doomed|)
  {
    if step.Check? { assert |s.tasks - {step.task}| == |s.tasks| - 1; }
    if step.Close? { assert |s.doomed - {step.peer}| == |s.doomed| - 1; }
  }

  // ---- The object ----

  class Service {
    var offer: Offer
    var peers: map<nat, Offer>
    var nextId: nat
    var generation: nat
    ghost var tasks: set<Task>
    ghost var doomed: set<nat>
    ghost var listed: Offer

    ghost function Value(): State
      reads this
    {
      State(offer, peers, nextId, generation, tasks, doomed, listed)
    }

    constructor (o: Offer)
      ensures Value() == Initial(o)
    {
      offer, peers, nextId, generation, tasks, doomed, listed := o, map[], 0, 0, {}, {}, o;
    }

    /** Goes over the open peers and returns those to close, apart from the requester. */
    method FindStale(requester: Requester) returns (list: seq<nat>, reconnect: bool)
      ensures Names(list) == Stale(peers, offer) - Asking(requester)
      ensures forall i, j | 0 <= i < j < |list| :: list[i] != list[j]
      ensures reconnect <==> requester.Peer? && requester.id in Stale(peers, offer)
    {
      hide Incompatible;
      list, reconnect := [], false;
      var left := peers.Keys;
      while left != {}
        invariant left <= peers.Keys
        invariant forall p | p in list :: p in peers.Keys - left
        invariant forall i, j | 0 <= i < j < |list| :: list[i] != list[j]
        invariant forall p | p in peers.Keys - left ::
          p in list <==> Incompatible(peers[p], offer) && p !in Asking(requester)
        invariant reconnect <==>
          requester.Peer? && requester.id in peers.Keys - left && Incompatible(peers[requester.id], offer)
        decreases left
      {
        var p :| p in left;
        left := left - {p};
        if !Incompatible(peers[p], offer) { continue; }
        if requester == Peer(p) {
          reconnect := true;
          continue;
        }
        list := list + [p];
      }
    }

    /** The part of an update after the media service accepted it. */
    method UpdateQuality(o: Offer, requester: Requester, works: bool) returns (list: seq<nat>, made: nat, reconnect: bool)
      modifies this
      ensures Value() == Update(old(Value()), o, requester, works)
      ensures works ==> Names(list) == Stale(peers, offer) - Asking(requester)
      ensures works && |list| > 0 ==> made == generation && tasks == old(tasks) + TasksFor(Names(list), made)
    {
      hide Stale, TasksFor;
      offer := o;
      list, made, reconnect := [], 0, false;
      if !works { return; }
      list, reconnect := FindStale(requester);
      ghost var stale := Stale(peers, offer);
      ghost var names := Names(list);
      assert |list| > 0 ==> list[0] in names;
      assert stale * Asking(requester) == if reconnect then {requester.id} else {};
      assert stale == names + stale * Asking(requester);
      assert stale == {} <==> !reconnect && |list| == 0;
      if reconnect || |list| > 0 {
        generation := generation + 1;
        made := generation;
        tasks := tasks + TasksFor(names, made);
        doomed := doomed + if reconnect then {requester.id} else {};
        listed := o;
      }
    }

    /** Returns whether the peer is closed. */
    method ClosePeerForProfileChange(task: Task) returns (close: bool)
      requires task in tasks
      modifies this`tasks, this`doomed
      ensures Value() == Next(old(Value()), Check(task))
      ensures close <==> task.generation == generation
      ensures close ==> task.peer in doomed
    {
      close := generation == task.generation;
      tasks := tasks - {task};
      if close { doomed := doomed + {task.peer}; }
    }
  }
}
