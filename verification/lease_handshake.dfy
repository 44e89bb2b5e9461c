/** The input lease of one peer against its data channels (webrtc/control.go, webrtc/peer.go, webrtc/service.go).
    A handler runs as a task: each mutex-protected section, atomic read and controller call is one step, and steps of
    different tasks interleave freely. */
module LeaseHandshake {

  import opened Options

  /** What an acquire records before it asks the controller, and its revocation callback carries. */
  datatype Record = Record(control: nat, input: nat, motion: nat, inputGeneration: nat, motionGeneration: nat, lease: nat)

  /** The channel an input message came in on, and its generation when the message was checked. */
  datatype Origin = Origin(motion: bool, channel: nat, generation: nat)

  datatype Task =
    | Invalidating                                                    // will advance the lease generation, then release
    | Releasing                                                       // will release the lease
    | Stopping                                                        // closeWith not yet entered
    | Reading(control: nat)                                           // acquire: control channel was current
    | Marking(control: nat, input: nat, motion: nat)                  // acquire: channels read
    | Asking(record: Record)                                          // acquire: lease generation advanced
    | Granted(record: Record)                                         // acquire: controller granted
    | ControlSeen(record: Record, controlOk: bool)                    // acquire: control channel re-read
    | InputSeen(record: Record, controlOk: bool, inputOk: bool)       // acquire: input channels re-read
    | Revoked(record: Record)                                         // controller revoked, callback not yet run
    | Checking(event: Origin)                                         // input message: channel current, generation noted
    | Owning(event: Origin)                                           // input message: channel checked again
    | Submitting(event: Origin)                                       // input message: the peer owned a lease

  /** `owns` is the controller's lease, `last` the record of the latest granted acquire. */
  datatype Peer = Peer(
    control: Option<nat>, input: Option<nat>, motion: Option<nat>,
    inputGeneration: nat, motionGeneration: nat, leaseGeneration: nat,
    closing: bool, closeEntered: bool, owns: bool, last: Record, tasks: map<nat, Task>)

  const Initial := Peer(None, None, None, 0, 0, 0, false, false, false, Record(0, 0, 0, 0, 0, 0), map[])

  datatype Step =
    | SetControl(id: nat, channel: nat)
    | SetInput(id: nat, channel: nat)
    | SetMotion(id: nat, channel: nat)
    | ControlClosed(id: nat, channel: nat)
    | InputClosed(id: nat, channel: nat, generation: nat)
    | MotionClosed(id: nat, channel: nat, generation: nat)
    | AcquireRequest(id: nat, channel: nat)
    | ReleaseRequest(id: nat, channel: nat)
    | InputMessage(id: nat, motion: bool, channel: nat)
    | TargetChange(id: nat)
    | ControllerRevokes(id: nat)
    | CloseWith(id: nat)
    | ServiceStops(id: nat)
    | Advance(id: nat, granted: bool)

  function Spawn(p: Peer, id: nat, task: Task): Peer {
    p.(tasks := p.tasks[id := task])
  }

  function Finish(p: Peer, id: nat): Peer {
    p.(tasks := p.tasks - {id})
  }

  /** What the first section of a handler does to the peer. */
  function Opening(p: Peer, step: Step): Peer {
    match step
    case SetControl(_, c) => p.(control := Some(c))
    case SetInput(_, c) =>
      p.(input := Some(c), inputGeneration := p.inputGeneration + 1, leaseGeneration := p.leaseGeneration + 1)
    case SetMotion(_, c) =>
      p.(motion := Some(c), motionGeneration := p.motionGeneration + 1, leaseGeneration := p.leaseGeneration + 1)
    case ControlClosed(_, c) => if p.control == Some(c) then p.(control := None) else p
    case InputClosed(_, c, g) =>
      if p.input == Some(c) && p.inputGeneration == g
      then p.(input := None, leaseGeneration := p.leaseGeneration + 1) else p
    case MotionClosed(_, c, g) =>
      if p.motion == Some(c) && p.motionGeneration == g
      then p.(motion := None, leaseGeneration := p.leaseGeneration + 1) else p
    case ControllerRevokes(_) => p.(owns := false)
    case CloseWith(_) => p.(closeEntered := true, closing := true)
    case ServiceStops(_) => p.(closing := true)
    case _ => p
  }

  /** What the handler is left with after its first section, if anything. */
  function First(p: Peer, step: Step): Option<Task> {
    match step
    case SetControl(_, _) => if p.control.Some? then Some(Invalidating) else None
    case SetInput(_, _) => if p.input.Some? then Some(Releasing) else None
    case SetMotion(_, _) => if p.motion.Some? then Some(Releasing) else None
    case ControlClosed(_, c) => if p.control == Some(c) then Some(Invalidating) else None
    case InputClosed(_, c, g) => if p.input == Some(c) && p.inputGeneration == g then Some(Releasing) else None
    case MotionClosed(_, c, g) => if p.motion == Some(c) && p.motionGeneration == g then Some(Releasing) else None
    case AcquireRequest(_, c) => if p.control == Some(c) && !p.closing then Some(Reading(c)) else None
    case ReleaseRequest(_, c) => if p.control == Some(c) && !p.closing then Some(Releasing) else None
    case TargetChange(_) => Some(Invalidating)
    case ControllerRevokes(_) => if p.owns then Some(Revoked(p.last)) else None
    case CloseWith(_) => if p.closeEntered then None else Some(Invalidating)
    case ServiceStops(_) => Some(Stopping)
    case InputMessage(_, motion, c) =>
      var origin := Origin(motion, c, if motion then p.motionGeneration else p.inputGeneration);
      if OriginCurrent(p, origin) && !p.closing then Some(Checking(origin)) else None
    case Advance(_, _) => None
  }

  /** New tasks take unused ids. */
  function Begin(p: Peer, step: Step): Peer {
    var q, first := Opening(p, step), First(p, step);
    if first.Some? then Spawn(q, step.id, first.value) else q
  }

  /** The message's channel is still the peer's, under the same generation. */
  predicate OriginCurrent(p: Peer, o: Origin) {
    if o.motion then p.motion == Some(o.channel) && p.motionGeneration == o.generation
    else p.input == Some(o.channel) && p.inputGeneration == o.generation
  }

  /** What a task does to the peer in its next section. */
  function Effect(p: Peer, task: Task, granted: bool): Peer {
    match task
    case Invalidating => p.(leaseGeneration := p.leaseGeneration + 1)
    case Releasing => p.(owns := false)
    case Stopping => p.(closeEntered := true)
    case Marking(_, _, _) => p.(leaseGeneration := p.leaseGeneration + 1)
    case Asking(r) => if granted then p.(owns := true, last := r) else p
    case Revoked(r) =>
      if p.input.Some? && p.motion.Some? && p.inputGeneration == r.inputGeneration &&
         p.motionGeneration == r.motionGeneration && p.leaseGeneration == r.lease && !p.closing
      then p.(input := None, motion := None, inputGeneration := p.inputGeneration + 1,
              motionGeneration := p.motionGeneration + 1, leaseGeneration := p.leaseGeneration + 1)
      else p
    case _ => p
  }

  /** What is left of the task after that section, if anything. */
  function Rest(p: Peer, task: Task, granted: bool): Option<Task> {
    match task
    case Invalidating => Some(Releasing)
    case Releasing => None
    case Stopping => if p.closeEntered then None else Some(Invalidating)
    case Reading(c) =>
      if p.input.Some? && p.motion.Some? then Some(Marking(c, p.input.value, p.motion.value)) else None
    case Marking(c, i, m) =>
      if p.input == Some(i) && p.motion == Some(m) && !p.closing then
        Some(Asking(Record(c, i, m, p.inputGeneration, p.motionGeneration, p.leaseGeneration + 1)))
      else None
    case Asking(r) => if granted then Some(Granted(r)) else None
    case Granted(r) => Some(ControlSeen(r, p.control == Some(r.control)))
    case ControlSeen(r, controlOk) =>
      Some(InputSeen(r, controlOk, InputCurrent(p, r) && p.leaseGeneration == r.lease))
    case InputSeen(r, controlOk, inputOk) => if controlOk && inputOk && !p.closing then None else Some(Invalidating)
    case Revoked(_) => None
    case Checking(o) => if OriginCurrent(p, o) && !p.closing then Some(Owning(o)) else None
    case Owning(o) => if p.owns then Some(Submitting(o)) else None
    case Submitting(_) => None
  }

  function Continue(p: Peer, id: nat, granted: bool): Peer
    requires id in p.tasks
  {
    var q, rest := Effect(p, p.tasks[id], granted), Rest(p, p.tasks[id], granted);
    if rest.Some? then Spawn(q, id, rest.value) else Finish(q, id)
  }

  predicate InputCurrent(p: Peer, r: Record) {
    && p.input == Some(r.input) && p.inputGeneration == r.inputGeneration
    && p.motion == Some(r.motion) && p.motionGeneration == r.motionGeneration
  }

  function Next(p: Peer, step: Step): Peer {
    match step
    case Advance(id, granted) => if id in p.tasks then Continue(p, id, granted) else p
    case _ => if step.id in p.tasks then p else Begin(p, step)
  }

  function Exec(p: Peer, steps: seq<Step>): Peer {
    if steps == [] then p else Next(Exec(p, steps[..|steps| - 1]), steps[|steps| - 1])
  }

  // ---- the invariant

  /** The task will release the lease whatever happens meanwhile. */
  ghost predicate WillRelease(p: Peer, task: Task) {
    match task
    case Invalidating => true
    case Releasing => true
    case Stopping => !p.closeEntered
    case ControlSeen(_, controlOk) => !controlOk
    case InputSeen(_, controlOk, inputOk) => !controlOk || !inputOk
    case _ => false
  }

  ghost predicate Doomed(p: Peer) {
    exists id :: id in p.tasks && WillRelease(p, p.tasks[id])
  }

  ghost predicate Has(p: Peer, task: Task) {
    exists id :: id in p.tasks && p.tasks[id] == task
  }

  /** No pending revocation callback would take the channels away. */
  ghost predicate Undisturbed(p: Peer) {
    forall id | id in p.tasks && p.tasks[id].Revoked? :: p.tasks[id].record.lease != p.leaseGeneration
  }

  /** The latest grant is still to be checked in full, or the part already checked still holds. */
  ghost predicate GrantHolds(p: Peer) {
    || Has(p, Granted(p.last))
    || (Has(p, ControlSeen(p.last, true)) && p.control == Some(p.last.control))
    || (&& p.control == Some(p.last.control) && InputCurrent(p, p.last) && Undisturbed(p)
        && (Has(p, InputSeen(p.last, true, true)) || !p.closing))
  }

  /** Lease numbers are handed out once, and a revoked one is never granted again. */
  ghost predicate LeaseNumbers(p: Peer) {
    && p.last.lease <= p.leaseGeneration
    && (forall id | id in p.tasks && (p.tasks[id].Asking? || p.tasks[id].Revoked?) ::
          p.tasks[id].record.lease <= p.leaseGeneration)
    && (forall a, b | a in p.tasks && b in p.tasks && a != b && p.tasks[a].Asking? && (p.tasks[b].Asking? || p.tasks[b].Revoked?) ::
          p.tasks[a].record.lease != p.tasks[b].record.lease)
    && (p.owns ==> forall a | a in p.tasks && (p.tasks[a].Asking? || p.tasks[a].Revoked?) ::
          p.tasks[a].record.lease != p.last.lease)
  }

  ghost predicate ClosesOnce(p: Peer) {
    (p.closeEntered || exists id :: id in p.tasks && p.tasks[id].Stopping?) ==> p.closing
  }

  ghost predicate Invariant(p: Peer) {
    LeaseNumbers(p) && ClosesOnce(p) && (p.owns ==> Doomed(p) || GrantHolds(p))
  }

  lemma Dooms(p: Peer, id: nat)
    requires id in p.tasks && WillRelease(p, p.tasks[id])
    ensures Doomed(p)
  {
  }

  /** Tasks other than `id` are the same in both states. */
  ghost predicate OthersStay(p: Peer, q: Peer, id: nat) {
    forall w | w != id :: (w in q.tasks <==> w in p.tasks) && (w in p.tasks ==> q.tasks[w] == p.tasks[w])
  }

  lemma DoomStays(p: Peer, q: Peer, id: nat)
    requires Doomed(p) && OthersStay(p, q, id) && (p.closeEntered == q.closeEntered || Doomed(q))
    requires id in p.tasks && WillRelease(p, p.tasks[id]) ==> Doomed(q)
    ensures Doomed(q)
  {
  }

  lemma HasStays(p: Peer, q: Peer, id: nat, task: Task)
    requires Has(p, task) && OthersStay(p, q, id)
    requires id in p.tasks ==> p.tasks[id] != task || (id in q.tasks && q.tasks[id] == task)
    ensures Has(q, task)
  {
  }

  // ---- first sections

  /** A task holding a lease number that a later grant or callback may use. */
  ghost predicate Numbered(p: Peer, id: nat) {
    id in p.tasks && (p.tasks[id].Asking? || p.tasks[id].Revoked?)
  }

  lemma NumbersStay(p: Peer, q: Peer, id: nat)
    requires LeaseNumbers(p) && OthersStay(p, q, id)
    requires Numbered(q, id) ==> Numbered(p, id) && q.tasks[id] == p.tasks[id]
    requires q.leaseGeneration >= p.leaseGeneration && q.last == p.last && (q.owns ==> p.owns)
    ensures LeaseNumbers(q)
  {
  }

  /** One section starts, moves or ends its own task only. */
  lemma OwnTaskOnly(p: Peer, q: Peer, id: nat)
    requires q.tasks == p.tasks || q.tasks == p.tasks - {id} || (id in q.tasks && q.tasks == p.tasks[id := q.tasks[id]])
    ensures OthersStay(p, q, id)
  {
  }

  lemma RevokeKeepsNumbers(p: Peer, id: nat)
    requires LeaseNumbers(p) && p.owns && id !in p.tasks
    ensures LeaseNumbers(Spawn(p.(owns := false), id, Revoked(p.last)))
  {
  }

  lemma FirstIsNumbered(p: Peer, step: Step)
    requires First(p, step).Some?
    ensures !First(p, step).value.Asking? && (First(p, step).value.Stopping? ==> step.ServiceStops?)
    ensures First(p, step).value.Revoked? ==> step.ControllerRevokes? && p.owns && First(p, step).value == Revoked(p.last)
  {
    hide OriginCurrent;
  }

  lemma OpeningTouches(p: Peer, step: Step)
    ensures var q := Opening(p, step);
      && q.tasks == p.tasks && p.leaseGeneration <= q.leaseGeneration && q.last == p.last && (q.owns ==> p.owns)
      && (p.closing ==> q.closing) && (q.closeEntered ==> p.closeEntered || q.closing)
      && (step.ControllerRevokes? ==> q == p.(owns := false)) && (step.ServiceStops? ==> q.closing)
  {
  }

  lemma BeginKeepsNumbers(p: Peer, step: Step)
    requires LeaseNumbers(p) && step.id !in p.tasks
    ensures LeaseNumbers(Begin(p, step))
  {
    OpeningTouches(p, step);
    if First(p, step).Some? { FirstIsNumbered(p, step); }
    hide LeaseNumbers, OthersStay, Opening, First;
    var q := Begin(p, step);
    if step.ControllerRevokes? && First(p, step).Some? {
      RevokeKeepsNumbers(p, step.id);
      if !First(p, step).value.Revoked? {
        OwnTaskOnly(p, q, step.id);
        NumbersStay(p, q, step.id);
      }
    } else {
      OwnTaskOnly(p, q, step.id);
      NumbersStay(p, q, step.id);
    }
  }

  /** A first section that dooms no lease leaves a control channel in place, and with all three channels in place it leaves
      everything as it is, unless the lease is gone. */
  lemma QuietBegin(p: Peer, step: Step)
    requires ClosesOnce(p) && !(First(p, step).Some? && WillRelease(Opening(p, step), First(p, step).value))
    ensures p.control.Some? ==> Opening(p, step).control == p.control
    ensures p.control.Some? && p.input.Some? && p.motion.Some? && Opening(p, step).owns ==> Opening(p, step) == p || step.ServiceStops?
    ensures step.ServiceStops? ==> Opening(p, step) == p.(closing := true) && p.closeEntered
  {
    hide OriginCurrent;
  }

  /** The latest record's checks carry over to a state that differs in another handler's task only. */
  lemma GrantStays(p: Peer, q: Peer, id: nat)
    requires GrantHolds(p) && OthersStay(p, q, id) && id !in p.tasks && q.last == p.last
    requires p.control.Some? ==> q.control == p.control
    requires p.control == Some(p.last.control) && InputCurrent(p, p.last) ==> q == p.(tasks := q.tasks)
    requires id in q.tasks ==> !q.tasks[id].Revoked?
    ensures GrantHolds(q)
  {
    if Has(p, Granted(p.last)) {
      HasStays(p, q, id, Granted(p.last));
    } else if Has(p, ControlSeen(p.last, true)) && p.control == Some(p.last.control) {
      HasStays(p, q, id, ControlSeen(p.last, true));
    } else if Has(p, InputSeen(p.last, true, true)) {
      HasStays(p, q, id, InputSeen(p.last, true, true));
    }
  }

  lemma BeginKeepsGrant(p: Peer, step: Step)
    requires Invariant(p) && step.id !in p.tasks
    ensures Begin(p, step).owns ==> Doomed(Begin(p, step)) || GrantHolds(Begin(p, step))
  {
    var q, id := Begin(p, step), step.id;
    OpeningTouches(p, step);
    OwnTaskOnly(p, q, id);
    if First(p, step).Some? { FirstIsNumbered(p, step); }
    if First(p, step).Some? && WillRelease(Opening(p, step), First(p, step).value) {
      Dooms(q, id);
    } else if q.owns {
      QuietBegin(p, step);
      hide LeaseNumbers, GrantHolds, OthersStay, Opening, First;
      if Doomed(p) {
        StillDoomed(p, q, id);
      } else {
        GrantStays(p, q, id);
      }
    }
  }

  lemma StillDoomed(p: Peer, q: Peer, id: nat)
    requires Doomed(p) && OthersStay(p, q, id) && id !in p.tasks && (q.closeEntered == p.closeEntered)
    ensures Doomed(q)
  {
    DoomStays(p, q, id);
  }

  // ---- later sections

  lemma RestIsNumbered(p: Peer, task: Task, granted: bool)
    requires Rest(p, task, granted).Some?
    ensures !Rest(p, task, granted).value.Revoked? && !Rest(p, task, granted).value.Stopping?
    ensures Rest(p, task, granted).value.Asking? ==> task.Marking?
  {
  }

  lemma EffectTouches(p: Peer, task: Task, granted: bool)
    ensures var q := Effect(p, task, granted);
      q.tasks == p.tasks && p.leaseGeneration <= q.leaseGeneration && q.control == p.control && q.closing == p.closing
    ensures !(task.Asking? && granted) ==>
      Effect(p, task, granted).last == p.last && (Effect(p, task, granted).owns ==> p.owns)
    ensures !Effect(p, task, granted).closeEntered || p.closeEntered || task.Stopping?
  {
  }

  lemma GrantKeepsNumbers(p: Peer, id: nat)
    requires LeaseNumbers(p) && id in p.tasks && p.tasks[id].Asking?
    ensures LeaseNumbers(Continue(p, id, true))
  {
  }

  /** A new lease number is above every other. */
  lemma AskKeepsNumbers(p: Peer, q: Peer, id: nat)
    requires LeaseNumbers(p) && OthersStay(p, q, id) && id in q.tasks && q.tasks[id].Asking?
    requires q.tasks[id].record.lease == q.leaseGeneration == p.leaseGeneration + 1 && q.last == p.last && (q.owns ==> p.owns)
    ensures LeaseNumbers(q)
  {
    forall w | w != id && Numbered(q, w) ensures Numbered(p, w) && q.tasks[w] == p.tasks[w] {
    }
  }

  lemma MarkKeepsNumbers(p: Peer, id: nat, granted: bool)
    requires LeaseNumbers(p) && id in p.tasks && p.tasks[id].Marking?
    ensures LeaseNumbers(Continue(p, id, granted))
  {
    hide LeaseNumbers, OthersStay;
    var q := Continue(p, id, granted);
    OwnTaskOnly(p, q, id);
    if Rest(p, p.tasks[id], granted).Some? {
      AskKeepsNumbers(p, q, id);
    } else {
      NumbersStay(p, q, id);
    }
  }

  lemma ContinueKeepsNumbers(p: Peer, id: nat, granted: bool)
    requires LeaseNumbers(p) && id in p.tasks
    ensures LeaseNumbers(Continue(p, id, granted))
  {
    hide LeaseNumbers, OthersStay;
    if p.tasks[id].Asking? && granted {
      GrantKeepsNumbers(p, id);
    } else if p.tasks[id].Marking? {
      MarkKeepsNumbers(p, id, granted);
    } else {
      EffectTouches(p, p.tasks[id], granted);
      if Rest(p, p.tasks[id], granted).Some? { RestIsNumbered(p, p.tasks[id], granted); }
      hide Effect, Rest;
      OwnTaskOnly(p, Continue(p, id, granted), id);
      NumbersStay(p, Continue(p, id, granted), id);
    }
  }

  lemma ContinueKeepsGrant(p: Peer, id: nat, granted: bool)
    requires Invariant(p) && id in p.tasks
    ensures Continue(p, id, granted).owns ==> Doomed(Continue(p, id, granted)) || GrantHolds(Continue(p, id, granted))
  {
    var q := Continue(p, id, granted);
    var task := p.tasks[id];
    EffectTouches(p, task, granted);
    OwnTaskOnly(p, q, id);
    hide LeaseNumbers, OthersStay, InputCurrent, Undisturbed, OriginCurrent;
    if q.owns {
      if id in q.tasks && WillRelease(q, q.tasks[id]) {
        Dooms(q, id);
      } else if task.Asking? && granted {
        assert id in q.tasks && q.tasks[id] == Granted(q.last);
      } else if Doomed(p) {
        DoomStays(p, q, id);
      } else {
        KeptGrant(p, q, id, granted);
      }
    }
  }

  lemma KeptGrant(p: Peer, q: Peer, id: nat, granted: bool)
    requires Invariant(p) && p.owns && !Doomed(p) && id in p.tasks && q == Continue(p, id, granted) && q.owns
    requires !(p.tasks[id].Asking? && granted) && OthersStay(p, q, id)
    requires !(id in q.tasks && WillRelease(q, q.tasks[id]))
    ensures GrantHolds(q)
  {
    hide Undisturbed, LeaseNumbers;
    var task := p.tasks[id];
    if Has(p, Granted(p.last)) {
      if task == Granted(p.last) {
        assert q.tasks[id] == ControlSeen(q.last, true);
      } else {
        HasStays(p, q, id, Granted(p.last));
      }
    } else if Has(p, ControlSeen(p.last, true)) && p.control == Some(p.last.control) {
      if task == ControlSeen(p.last, true) {
        assert q.tasks[id] == InputSeen(q.last, true, true);
        CheckedIsUndisturbed(p, q, id);
      } else {
        HasStays(p, q, id, ControlSeen(p.last, true));
      }
    } else {
      KeptCurrent(p, q, id, granted);
      if Has(p, InputSeen(p.last, true, true)) && task != InputSeen(p.last, true, true) {
        HasStays(p, q, id, InputSeen(p.last, true, true));
      }
    }
  }

  /** A grant that passes its last channel check cannot be undone by an older revocation callback. */
  lemma CheckedIsUndisturbed(p: Peer, q: Peer, id: nat)
    requires LeaseNumbers(p) && p.owns && p.leaseGeneration == p.last.lease
    requires id in p.tasks && p.tasks[id].ControlSeen? && OthersStay(p, q, id) && q.leaseGeneration == p.leaseGeneration
    requires id in q.tasks && q.tasks[id].InputSeen?
    ensures Undisturbed(q)
  {
  }

  /** Only a matching revocation callback takes channels away, and only a grant changes the latest record. */
  lemma ContinueTouches(p: Peer, id: nat, granted: bool)
    requires id in p.tasks && !(p.tasks[id].Asking? && granted)
    requires p.tasks[id].Revoked? ==> p.tasks[id].record.lease != p.leaseGeneration
    ensures var q := Continue(p, id, granted);
      && q.control == p.control && q.input == p.input && q.motion == p.motion
      && q.inputGeneration == p.inputGeneration && q.motionGeneration == p.motionGeneration
      && q.last == p.last && p.leaseGeneration <= q.leaseGeneration
      && (id in q.tasks ==> !q.tasks[id].Revoked?)
  {
    if Rest(p, p.tasks[id], granted).Some? { RestIsNumbered(p, p.tasks[id], granted); }
    hide Rest;
  }

  lemma KeptCurrent(p: Peer, q: Peer, id: nat, granted: bool)
    requires LeaseNumbers(p) && id in p.tasks && q == Continue(p, id, granted) && OthersStay(p, q, id)
    requires p.control == Some(p.last.control) && InputCurrent(p, p.last) && Undisturbed(p)
    requires !(p.tasks[id].Asking? && granted)
    ensures q.control == Some(q.last.control) && InputCurrent(q, q.last) && Undisturbed(q)
  {
    hide Continue;
    ContinueTouches(p, id, granted);
    forall w | w in q.tasks && q.tasks[w].Revoked? ensures q.tasks[w].record.lease != q.leaseGeneration {
      assert w in p.tasks && p.tasks[w].Revoked?;
    }
  }

  // ---- runs

  lemma StepClosesOnce(p: Peer, step: Step)
    requires ClosesOnce(p)
    ensures ClosesOnce(Next(p, step))
  {
    if step.Advance? {
      if step.id in p.tasks { ContinueClosesOnce(p, step.id, step.granted); }
      hide Continue;
    } else {
      var q := Next(p, step);
      if !q.closing {
        forall id | id in q.tasks ensures !q.tasks[id].Stopping? {
          assert id in p.tasks ==> !p.tasks[id].Stopping?;
        }
      }
    }
  }

  lemma ContinueClosesOnce(p: Peer, id: nat, granted: bool)
    requires ClosesOnce(p) && id in p.tasks
    ensures ClosesOnce(Continue(p, id, granted))
  {
  }

  lemma StepKeeps(p: Peer, step: Step)
    requires Invariant(p)
    ensures Invariant(Next(p, step))
  {
    hide LeaseNumbers, GrantHolds, Doomed, OthersStay;
    StepClosesOnce(p, step);
    if step.Advance? {
      if step.id in p.tasks {
        ContinueKeepsNumbers(p, step.id, step.granted);
        ContinueKeepsGrant(p, step.id, step.granted);
      }
    } else if step.id !in p.tasks {
      BeginKeepsNumbers(p, step);
      BeginKeepsGrant(p, step);
    }
  }

  lemma {:induction false} RunsKeep(steps: seq<Step>)
    ensures Invariant(Exec(Initial, steps))
  {
    if steps != [] {
      RunsKeep(steps[..|steps| - 1]);
      StepKeeps(Exec(Initial, steps[..|steps| - 1]), steps[|steps| - 1]);
    }
  }

  /** In every interleaving, once no handler is in flight the peer owns the lease only if it is not closing and the
      control, input and motion channels its acquire recorded are the current ones. */
  lemma LeaseNeedsItsChannels(steps: seq<Step>)
    ensures var p := Exec(Initial, steps);
      p.tasks == map[] && p.owns ==> !p.closing && p.control == Some(p.last.control) && InputCurrent(p, p.last)
  {
    RunsKeep(steps);
  }

  /** While handlers are in flight, a peer that owns the lease without its channels, or while closing, has a handler
      under way that will release it or has yet to check the grant. */
  lemma StaleLeaseIsWatched(steps: seq<Step>)
    ensures var p := Exec(Initial, steps);
      p.owns && (p.closing || p.control != Some(p.last.control) || !InputCurrent(p, p.last)) ==>
        Doomed(p) || Has(p, Granted(p.last)) || Has(p, ControlSeen(p.last, true)) || Has(p, InputSeen(p.last, true, true))
  {
    RunsKeep(steps);
  }

  // ---- handlers that run undisturbed

  /** A handler's first section and up to three more; sections after its end do nothing. */
  function Alone(step: Step): seq<Step> {
    [step, Advance(step.id, true), Advance(step.id, true), Advance(step.id, true)]
  }

  function Thrice(p: Peer, id: nat): Peer {
    Next(Next(Next(p, Advance(id, true)), Advance(id, true)), Advance(id, true))
  }

  lemma AloneRuns(p: Peer, step: Step)
    ensures Exec(p, Alone(step)) == Thrice(Next(p, step), step.id)
  {
    hide Next;
    var a := Advance(step.id, true);
    assert Alone(step)[..3] == [step, a, a] && [step, a, a][..2] == [step, a] && [step, a][..1] == [step] && [step][..0] == [];
    assert Exec(p, [step]) == Next(Exec(p, []), step);
    assert Exec(p, [step, a, a]) == Next(Exec(p, [step, a]), a);
  }

  lemma NothingLeft(p: Peer, id: nat)
    requires id !in p.tasks
    ensures Next(p, Advance(id, true)) == p
  {
  }

  /** A task that will release the lease does so and leaves the other tasks alone. */
  lemma ReleasersRelease(p: Peer, id: nat)
    requires id !in p.tasks
    ensures Thrice(Spawn(p, id, Releasing), id) == p.(owns := false)
    ensures Thrice(Spawn(p, id, Invalidating), id) == p.(leaseGeneration := p.leaseGeneration + 1, owns := false)
    ensures !p.closeEntered ==>
      Thrice(Spawn(p, id, Stopping), id) == p.(closeEntered := true, leaseGeneration := p.leaseGeneration + 1, owns := false)
    ensures p.closeEntered ==> Thrice(Spawn(p, id, Stopping), id) == p
    ensures Thrice(p, id) == p
  {
    var q := p.(leaseGeneration := p.leaseGeneration + 1);
    var c := p.(closeEntered := true);
    Moves(p, id, Releasing);
    Moves(p, id, Invalidating);
    Moves(q, id, Releasing);
    Moves(p, id, Stopping);
    Moves(c, id, Invalidating);
    Moves(c.(leaseGeneration := p.leaseGeneration + 1), id, Releasing);
    NothingLeft(p, id);
    NothingLeft(p.(owns := false), id);
    NothingLeft(q.(owns := false), id);
    hide Next, Spawn;
  }

  /** A release request on the current control channel of a peer that is not closing gives the lease up and changes nothing
      else; any other release request changes nothing. */
  lemma ReleaseRequestReleases(p: Peer, id: nat, c: nat)
    requires id !in p.tasks
    ensures Exec(p, Alone(ReleaseRequest(id, c))) ==
      if p.control == Some(c) && !p.closing then p.(owns := false) else p
  {
    AloneRuns(p, ReleaseRequest(id, c));
    ReleasersRelease(p, id);
    hide Exec, Thrice;
  }

  /** A target change gives the lease up and outdates every acquire under way. */
  lemma TargetChangeReleases(p: Peer, id: nat)
    requires id !in p.tasks
    ensures Exec(p, Alone(TargetChange(id))) == p.(leaseGeneration := p.leaseGeneration + 1, owns := false)
  {
    AloneRuns(p, TargetChange(id));
    ReleasersRelease(p, id);
    hide Exec, Thrice;
  }

  /** A new control channel takes its place; one that replaces another costs the lease. */
  lemma NewControlChannel(p: Peer, id: nat, c: nat)
    requires id !in p.tasks
    ensures Exec(p, Alone(SetControl(id, c))) ==
      if p.control.None? then p.(control := Some(c))
      else p.(control := Some(c), leaseGeneration := p.leaseGeneration + 1, owns := false)
  {
    AloneRuns(p, SetControl(id, c));
    ReleasersRelease(Opening(p, SetControl(id, c)), id);
    hide Exec, Thrice, Alone;
  }

  /** So with the input channels, which also outdate every acquire under way. */
  lemma NewInputChannel(p: Peer, id: nat, c: nat)
    requires id !in p.tasks
    ensures Exec(p, Alone(SetInput(id, c))) ==
      p.(input := Some(c), inputGeneration := p.inputGeneration + 1, leaseGeneration := p.leaseGeneration + 1,
         owns := p.owns && p.input.None?)
  {
    var q := Opening(p, SetInput(id, c));
    assert Next(p, SetInput(id, c)) == if p.input.Some? then Spawn(q, id, Releasing) else q;
    assert q == p.(input := Some(c), inputGeneration := p.inputGeneration + 1, leaseGeneration := p.leaseGeneration + 1);
    hide Exec, Thrice, Alone, Next, Spawn, Opening;
    AloneRuns(p, SetInput(id, c));
    ReleasersRelease(q, id);
  }

  lemma NewMotionChannel(p: Peer, id: nat, c: nat)
    requires id !in p.tasks
    ensures Exec(p, Alone(SetMotion(id, c))) ==
      p.(motion := Some(c), motionGeneration := p.motionGeneration + 1, leaseGeneration := p.leaseGeneration + 1,
         owns := p.owns && p.motion.None?)
  {
    var q := Opening(p, SetMotion(id, c));
    assert Next(p, SetMotion(id, c)) == if p.motion.Some? then Spawn(q, id, Releasing) else q;
    assert q == p.(motion := Some(c), motionGeneration := p.motionGeneration + 1, leaseGeneration := p.leaseGeneration + 1);
    hide Exec, Thrice, Alone, Next, Spawn, Opening;
    AloneRuns(p, SetMotion(id, c));
    ReleasersRelease(q, id);
  }

  /** The current control channel's end costs the lease; the end of any other channel changes nothing. */
  lemma ClosedControlChannel(p: Peer, id: nat, c: nat)
    requires id !in p.tasks
    ensures Exec(p, Alone(ControlClosed(id, c))) ==
      if p.control == Some(c) then p.(control := None, leaseGeneration := p.leaseGeneration + 1, owns := false) else p
  {
    AloneRuns(p, ControlClosed(id, c));
    ReleasersRelease(Opening(p, ControlClosed(id, c)), id);
    hide Exec, Thrice, Alone;
  }

  lemma ClosedInputChannel(p: Peer, id: nat, c: nat, g: nat)
    requires id !in p.tasks
    ensures Exec(p, Alone(InputClosed(id, c, g))) ==
      if p.input == Some(c) && p.inputGeneration == g
      then p.(input := None, leaseGeneration := p.leaseGeneration + 1, owns := false) else p
  {
    AloneRuns(p, InputClosed(id, c, g));
    ReleasersRelease(Opening(p, InputClosed(id, c, g)), id);
    hide Exec, Thrice, Alone;
  }

  lemma ClosedMotionChannel(p: Peer, id: nat, c: nat, g: nat)
    requires id !in p.tasks
    ensures Exec(p, Alone(MotionClosed(id, c, g))) ==
      if p.motion == Some(c) && p.motionGeneration == g
      then p.(motion := None, leaseGeneration := p.leaseGeneration + 1, owns := false) else p
  {
    AloneRuns(p, MotionClosed(id, c, g));
    ReleasersRelease(Opening(p, MotionClosed(id, c, g)), id);
    hide Exec, Thrice, Alone;
  }

  /** Closing marks the peer and gives the lease up, once; and so, later, does a peer whose service stops. */
  lemma CloseReleases(p: Peer, id: nat)
    requires id !in p.tasks && ClosesOnce(p)
    ensures Exec(p, Alone(CloseWith(id))) ==
      if p.closeEntered then p
      else p.(closing := true, closeEntered := true, leaseGeneration := p.leaseGeneration + 1, owns := false)
  {
    AloneRuns(p, CloseWith(id));
    ReleasersRelease(Opening(p, CloseWith(id)), id);
    hide Exec, Thrice, Alone;
  }

  lemma StopReleases(p: Peer, id: nat)
    requires id !in p.tasks && ClosesOnce(p)
    ensures Exec(p, Alone(ServiceStops(id))) ==
      if p.closeEntered then p
      else p.(closing := true, closeEntered := true, leaseGeneration := p.leaseGeneration + 1, owns := false)
  {
    AloneRuns(p, ServiceStops(id));
    ReleasersRelease(Opening(p, ServiceStops(id)), id);
    hide Exec, Thrice, Alone;
  }

  /** A lease the controller takes away goes with both input channels, so that the browser opens new ones, unless a channel or
      the lease number has changed since it was granted or the peer is closing. */
  lemma RevocationClosesChannels(p: Peer, id: nat)
    requires id !in p.tasks && p.owns
    ensures var r := p.last;
      Exec(p, Alone(ControllerRevokes(id))) ==
      if p.input.Some? && p.motion.Some? && p.inputGeneration == r.inputGeneration && p.motionGeneration == r.motionGeneration
         && p.leaseGeneration == r.lease && !p.closing
      then p.(owns := false, input := None, motion := None, inputGeneration := p.inputGeneration + 1,
              motionGeneration := p.motionGeneration + 1, leaseGeneration := p.leaseGeneration + 1)
      else p.(owns := false)
  {
    var q := p.(owns := false);
    AloneRuns(p, ControllerRevokes(id));
    Moves(q, id, Revoked(p.last));
    EffectTouches(q, Revoked(p.last), true);
    NothingLeft(Effect(q, Revoked(p.last), true), id);
    assert Next(p, ControllerRevokes(id)) == Spawn(q, id, Revoked(p.last));
    hide Exec, Next, Spawn, Alone;
  }

  /** An acquire that asks on another channel, while closing or without both input channels changes nothing, and one that the
      controller refuses has only used up a lease number. */
  lemma AcquireRefused(p: Peer, id: nat, c: nat, r: Record)
    requires id !in p.tasks
    ensures p.control != Some(c) || p.closing || p.input.None? || p.motion.None? ==>
      Exec(p, Alone(AcquireRequest(id, c))) == p
    ensures Next(Spawn(p, id, Asking(r)), Advance(id, false)) == p
  {
    AloneRuns(p, AcquireRequest(id, c));
    Moves(p, id, Reading(c));
    NothingLeft(p, id);
    Respawn(p, id, Asking(r), Asking(r));
    hide Exec, Alone;
  }

  /** A message reaches the controller in three checks: its channel is current and the peer not closing, the same again with
      the generation noted, and the peer owns a lease; otherwise it is dropped, and nothing else changes. */
  lemma MessagesAreChecked(p: Peer, id: nat, motion: bool, c: nat, o: Origin)
    requires id !in p.tasks
    ensures var current := if motion then p.motion == Some(c) else p.input == Some(c);
      Next(p, InputMessage(id, motion, c)) ==
      if current && !p.closing
      then Spawn(p, id, Checking(Origin(motion, c, if motion then p.motionGeneration else p.inputGeneration))) else p
    ensures Next(Spawn(p, id, Checking(o)), Advance(id, true)) ==
      if OriginCurrent(p, o) && !p.closing then Spawn(p, id, Owning(o)) else p
    ensures Next(Spawn(p, id, Owning(o)), Advance(id, true)) == if p.owns then Spawn(p, id, Submitting(o)) else p
    ensures Next(Spawn(p, id, Submitting(o)), Advance(id, true)) == p
  {
    Moves(p, id, Checking(o));
    Moves(p, id, Owning(o));
    Moves(p, id, Submitting(o));
    hide Spawn;
  }

  // ---- input messages

  /** No handler in flight will release the lease or has yet to check its channels. */
  ghost predicate Settled(p: Peer) {
    !Doomed(p) && !Has(p, Granted(p.last)) && !Has(p, ControlSeen(p.last, true))
  }

  /** The lease was granted for the channel the message came in on. */
  predicate Belongs(p: Peer, o: Origin) {
    if o.motion then p.last.motion == o.channel && p.last.motionGeneration == o.generation
    else p.last.input == o.channel && p.last.inputGeneration == o.generation
  }

  /** Submitting asks the controller for nothing but a lease of this peer. In every run, an event about to be submitted under
      a settled lease belongs to that lease if and only if its channel is still current, which the handler checked before
      it asked for the owner and does not check again. */
  lemma SubmissionBelongsExactly(steps: seq<Step>, id: nat)
    requires var p := Exec(Initial, steps); id in p.tasks && p.tasks[id].Submitting? && p.owns && Settled(p)
    ensures var p := Exec(Initial, steps); Belongs(p, p.tasks[id].event) <==> OriginCurrent(p, p.tasks[id].event)
  {
    RunsKeep(steps);
  }

  lemma Extend(p: Peer, steps: seq<Step>, step: Step) returns (more: seq<Step>)
    ensures more == steps + [step] && Exec(p, more) == Next(Exec(p, steps), step)
  {
    more := steps + [step];
    assert more[..|steps|] == steps;
  }

  lemma Respawn(p: Peer, id: nat, task: Task, next: Task)
    ensures Spawn(Spawn(p, id, task), id, next) == Spawn(p, id, next)
    ensures id !in p.tasks ==> Finish(Spawn(p, id, task), id) == p
  {
    assert id !in p.tasks ==> p.tasks[id := task] - {id} == p.tasks;
  }

  /** One later section of a task, seen from the peer without it. */
  lemma Moves(p: Peer, id: nat, task: Task)
    requires id !in p.tasks
    ensures var q, rest := Effect(p, task, true), Rest(p, task, true);
      Next(Spawn(p, id, task), Advance(id, true)) == if rest.Some? then Spawn(q, id, rest.value) else q
  {
    hide InputCurrent, OriginCurrent;
    var q, rest := Effect(p, task, true), Rest(p, task, true);
    EffectTouches(p, task, true);
    assert Effect(Spawn(p, id, task), task, true) == Spawn(q, id, task);
    assert Rest(Spawn(p, id, task), task, true) == rest by { InputCurrentIgnoresTasks(p, id, task); }
    Respawn(q, id, task, if rest.Some? then rest.value else task);
    hide Effect, Rest;
  }

  lemma InputCurrentIgnoresTasks(p: Peer, id: nat, task: Task)
    ensures forall r :: InputCurrent(Spawn(p, id, task), r) == InputCurrent(p, r)
    ensures forall o :: OriginCurrent(Spawn(p, id, task), o) == OriginCurrent(p, o)
  {
  }

  /** The peer with the lease an undisturbed acquire is granted. */
  function Acquired(p: Peer): Peer
    requires p.control.Some? && p.input.Some? && p.motion.Some?
  {
    p.(leaseGeneration := p.leaseGeneration + 1, owns := true,
       last := Record(p.control.value, p.input.value, p.motion.value, p.inputGeneration, p.motionGeneration,
                      p.leaseGeneration + 1))
  }

  /** With its channels in place, a peer whose acquire runs undisturbed gets the lease, and nothing else changes. */
  lemma AcquireSucceeds(start: Peer, before: seq<Step>, p: Peer, id: nat) returns (steps: seq<Step>)
    requires Exec(start, before) == p && id !in p.tasks && !p.closing
    requires p.control.Some? && p.input.Some? && p.motion.Some?
    ensures Exec(start, steps) == Acquired(p)
  {
    var q, a, r := p.(leaseGeneration := p.leaseGeneration + 1), Acquired(p), Acquired(p).last;
    steps := AcquireAsks(start, before, p, id);
    GrantedStages(p);
    hide Effect, Rest, Spawn, Exec, Next;
    assert a.tasks == q.tasks == p.tasks;
    hide Acquired;
    steps := Onward(start, steps, q, id, Asking(r));
    steps := Onward(start, steps, a, id, Granted(r));
    steps := Onward(start, steps, a, id, ControlSeen(r, true));
    steps := Onward(start, steps, a, id, InputSeen(r, true, true));
  }

  /** The last sections of an acquire that nothing disturbs. */
  lemma GrantedStages(p: Peer)
    requires p.control.Some? && p.input.Some? && p.motion.Some? && !p.closing
    ensures var q, a, r := p.(leaseGeneration := p.leaseGeneration + 1), Acquired(p), Acquired(p).last;
      && Effect(q, Asking(r), true) == a && Rest(q, Asking(r), true) == Some(Granted(r))
      && Effect(a, Granted(r), true) == a && Rest(a, Granted(r), true) == Some(ControlSeen(r, true))
      && Effect(a, ControlSeen(r, true), true) == a && Rest(a, ControlSeen(r, true), true) == Some(InputSeen(r, true, true))
      && Effect(a, InputSeen(r, true, true), true) == a && Rest(a, InputSeen(r, true, true), true) == None
  {
  }

  lemma Onward(start: Peer, steps: seq<Step>, p: Peer, id: nat, task: Task) returns (more: seq<Step>)
    requires Exec(start, steps) == Spawn(p, id, task) && id !in p.tasks
    ensures var q, rest := Effect(p, task, true), Rest(p, task, true);
      Exec(start, more) == if rest.Some? then Spawn(q, id, rest.value) else q
  {
    hide Effect, Rest, Spawn, Exec, Next;
    Moves(p, id, task);
    more := Extend(start, steps, Advance(id, true));
  }

  lemma AcquireAsks(start: Peer, before: seq<Step>, p: Peer, id: nat) returns (steps: seq<Step>)
    requires Exec(start, before) == p && id !in p.tasks && !p.closing
    requires p.control.Some? && p.input.Some? && p.motion.Some?
    ensures Exec(start, steps) == Spawn(p.(leaseGeneration := p.leaseGeneration + 1), id, Asking(Acquired(p).last))
  {
    var c := p.control.value;
    hide Exec;
    steps := Extend(start, before, AcquireRequest(id, c));
    assert Exec(start, steps) == Spawn(p, id, Reading(c));
    hide Next, Spawn;
    steps := Onward(start, steps, p, id, Reading(c));
    steps := Onward(start, steps, p, id, Marking(c, p.input.value, p.motion.value));
  }

  /** A connected peer: control channel 0, input channel 1, motion channel 2. */
  const Connected := Initial.(control := Some(0), input := Some(1), motion := Some(2), inputGeneration := 1,
                              motionGeneration := 1, leaseGeneration := 2)

  lemma ConnectedIsReachable() returns (steps: seq<Step>)
    ensures Exec(Initial, steps) == Connected
  {
    steps := [];
    assert Exec(Initial, steps) == Initial;
    hide Exec;
    steps := Extend(Initial, steps, SetControl(0, 0));
    steps := Extend(Initial, steps, SetInput(0, 1));
    steps := Extend(Initial, steps, SetMotion(0, 2));
  }

  /** A message on the current channel passes its channel checks. */
  lemma MessageIsTaken(start: Peer, before: seq<Step>, p: Peer, id: nat, o: Origin) returns (steps: seq<Step>)
    requires Exec(start, before) == p && id !in p.tasks && !p.closing && OriginCurrent(p, o)
    ensures Exec(start, steps) == Spawn(p, id, Owning(o))
  {
    hide Exec;
    steps := Extend(start, before, InputMessage(id, o.motion, o.channel));
    assert Exec(start, steps) == Spawn(p, id, Checking(o));
    hide Next;
    steps := Onward(start, steps, p, id, Checking(o));
  }

  /** A connected peer with the lease, one of whose messages from channel 1 has passed its channel checks. */
  lemma MessagePassesChecks() returns (steps: seq<Step>)
    ensures Exec(Initial, steps) == Spawn(Acquired(Connected), 20, Owning(Origin(false, 1, 1)))
  {
    steps := ConnectedIsReachable();
    steps := AcquireSucceeds(Initial, steps, Connected, 10);
    hide Exec;
    steps := MessageIsTaken(Initial, steps, Acquired(Connected), 20, Origin(false, 1, 1));
  }

  /** Its lease is then released because the input channel is replaced. */
  lemma ChannelIsReplaced() returns (steps: seq<Step>)
    ensures Exec(Initial, steps) ==
      Spawn(Replaced(Acquired(Connected)).(owns := false), 20, Owning(Origin(false, 1, 1)))
  {
    var o, b := Origin(false, 1, 1), Replaced(Acquired(Connected));
    steps := MessagePassesChecks();
    hide Exec;
    steps := Extend(Initial, steps, SetInput(30, 3));
    assert Exec(Initial, steps) == Spawn(Spawn(b, 20, Owning(o)), 30, Releasing);
    hide Next;
    steps := Onward(Initial, steps, Spawn(b, 20, Owning(o)), 30, Releasing);
  }

  function Replaced(p: Peer): Peer {
    p.(input := Some(3), inputGeneration := p.inputGeneration + 1, leaseGeneration := p.leaseGeneration + 1)
  }

  /** The input channel is replaced between the check and the submission and the lease granted anew: the old channel's
      event goes under the new channel's lease. */
  lemma OldEventUnderNewLease() returns (steps: seq<Step>)
    ensures var p := Exec(Initial, steps);
      20 in p.tasks && p.tasks[20] == Submitting(Origin(false, 1, 1)) && p.owns && Settled(p) && p.last.input == 3
  {
    var o, c := Origin(false, 1, 1), Replaced(Acquired(Connected)).(owns := false);
    steps := ChannelIsReplaced();
    hide Exec;
    steps := AcquireSucceeds(Initial, steps, Spawn(c, 20, Owning(o)), 11);
    assert Acquired(Spawn(c, 20, Owning(o))) == Spawn(Acquired(c), 20, Owning(o));
    hide Next;
    steps := Onward(Initial, steps, Acquired(c), 20, Owning(o));
    OnlySubmitting(Acquired(c), 20, o);
  }

  lemma OnlySubmitting(p: Peer, id: nat, o: Origin)
    requires p.tasks == map[]
    ensures Settled(Spawn(p, id, Submitting(o)))
  {
  }

  lemma ReplacedBeforeRelease() returns (steps: seq<Step>)
    ensures Exec(Initial, steps) == Spawn(Replaced(Acquired(Connected)), 30, Releasing)
  {
    steps := ConnectedIsReachable();
    steps := AcquireSucceeds(Initial, steps, Connected, 10);
    hide Exec;
    steps := Extend(Initial, steps, SetInput(30, 3));
  }

  /** And a lease that is about to be released may take the event of a channel it was never granted for, though that channel
      is current. */
  lemma NewEventUnderOldLease() returns (steps: seq<Step>)
    ensures var p := Exec(Initial, steps);
      var o := Origin(false, 3, 2);
      20 in p.tasks && p.tasks[20] == Submitting(o) && p.owns && OriginCurrent(p, o) && p.last.input == 1
  {
    var o, b := Origin(false, 3, 2), Spawn(Replaced(Acquired(Connected)), 30, Releasing);
    steps := ReplacedBeforeRelease();
    hide Exec, Next;
    steps := MessageIsTaken(Initial, steps, b, 20, o);
    steps := Onward(Initial, steps, b, 20, Owning(o));
  }
}
