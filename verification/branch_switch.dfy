/** Replacing the encoder branch of a running video pipeline (media/persistent_pipeline.go). Each branch has one
    streaming thread; steps of the threads, of failures and of the one replacement in progress interleave freely. */
module BranchSwitch {

  import opened Options

  /** Where the streaming thread of a branch is in handleSample. GStreamer does not call back after a flow other than OK. */
  datatype Stage =
    | Idle
    | Pulled(keyFrame: bool)      // a sample pulled, stop not seen
    | Waiting                     // a keyframe waiting for activation or stop
    | Ready(keyFrame: bool)       // about to take the emit lock
    | Emitting(keyFrame: bool)    // stop not seen under the emit lock
    | Halted

  datatype Branch = Branch(active: bool, ready: bool, stopped: bool, failed: bool, stage: Stage)

  /** ReplaceQuality, which runs under replaceMu. */
  datatype Replacement =
    | Nothing
    | Starting(previous: nat, next: nat)      // candidate started, not published
    | Published(previous: nat, next: nat)     // candidate published, waiting for its keyframe
    | Promoting(previous: nat, next: nat)     // keyframe seen
    | Activating(previous: nat, next: nat)    // branch swapped, old branch told to stop, waiting for its emit in flight
    | RollingBack(previous: nat, next: nat)   // failed: candidate withdrawn, not yet stopped

  datatype Emitted = Emitted(generation: nat, keyFrame: bool)

  /** `top` is the latest promoted generation, `emitted` everything handed to the sample channel. */
  datatype Pipeline = Pipeline(
    branches: map<nat, Branch>, branch: Option<nat>, candidate: Option<nat>, nextGeneration: nat,
    replacement: Replacement, top: nat, emitted: seq<Emitted>)

  const Fresh := Branch(false, false, false, false, Idle)

  /** The initial branch is generation 1 and active from the start. */
  const Initial := Pipeline(map[1 := Fresh.(active := true)], Some(1), None, 2, Nothing, 1, [])

  datatype Step =
    | Pull(g: nat, keyFrame: bool)
    | Stream(g: nat, ok: bool)       // the streaming thread's next step; ok: the buffer maps, the emit is taken
    | Fail(g: nat)                   // setErr
    | FailStops(g: nat)              // Fail goes on to Stop
    | ReplaceBegins
    | ReplaceGoesOn(ok: bool)        // the replacement's next step; ok: no error, timeout or property failure
    | Close

  function SetStage(p: Pipeline, g: nat, stage: Stage): Pipeline
    requires g in p.branches
  {
    p.(branches := p.branches[g := p.branches[g].(stage := stage)])
  }

  function StreamNext(p: Pipeline, g: nat, ok: bool): Pipeline
    requires g in p.branches
  {
    var b := p.branches[g];
    match b.stage
    case Idle => if ok then p else SetStage(p, g, Halted)
    case Halted => p
    case Pulled(key) =>
      if b.active then SetStage(p, g, Ready(key))
      else if !key then SetStage(p, g, Idle)
      else p.(branches := p.branches[g := b.(ready := true, stage := Waiting)])
    case Waiting =>
      if b.active && (ok || !b.stopped) then SetStage(p, g, Ready(true))
      else if b.stopped then SetStage(p, g, Halted)
      else p
    case Ready(key) => SetStage(p, g, if ok && !b.stopped then Emitting(key) else Halted)
    case Emitting(key) =>
      if ok then SetStage(p, g, Idle).(emitted := p.emitted + [Emitted(g, key)]) else SetStage(p, g, Halted)
  }

  function StopBranch(p: Pipeline, g: nat): Pipeline {
    if g in p.branches then p.(branches := p.branches[g := p.branches[g].(stopped := true)]) else p
  }

  function Withdraw(p: Pipeline, previous: nat, next: nat): Pipeline {
    p.(candidate := if p.candidate == Some(next) then None else p.candidate, replacement := RollingBack(previous, next))
  }

  function ReplaceNext(p: Pipeline, ok: bool): Pipeline {
    match p.replacement
    case Nothing => p
    case Starting(previous, next) =>
      if ok && p.branch == Some(previous) && !BranchFailed(p, next)
      then p.(candidate := Some(next), replacement := Published(previous, next))
      else Withdraw(p, previous, next)
    case Published(previous, next) =>
      if !ok then Withdraw(p, previous, next)
      else if next in p.branches && p.branches[next].ready then p.(replacement := Promoting(previous, next))
      else p
    case Promoting(previous, next) =>
      if ok && p.branch == Some(previous) && p.candidate == Some(next) && !BranchFailed(p, next) &&
         next in p.branches && !p.branches[next].stopped
      then StopBranch(p, previous).(branch := Some(next), candidate := None, replacement := Activating(previous, next), top := next)
      else Withdraw(p, previous, next)
    case Activating(previous, next) =>
      if (previous in p.branches && p.branches[previous].stage.Emitting?) || next !in p.branches then p
      else p.(branches := p.branches[next := p.branches[next].(active := true)], replacement := Nothing)
    case RollingBack(previous, next) => StopBranch(p, next).(replacement := Nothing)
  }

  predicate BranchFailed(p: Pipeline, g: nat) {
    g in p.branches && p.branches[g].failed
  }

  /** Whether errMu of branch `g` is held by an activation. */
  predicate BeingActivated(p: Pipeline, g: nat) {
    p.replacement.Activating? && p.replacement.next == g
  }

  function CloseAll(p: Pipeline): Pipeline {
    var q := if p.branch.Some? then StopBranch(p, p.branch.value) else p;
    q.(branch := None, candidate := None)
  }

  function Next(p: Pipeline, step: Step): Pipeline {
    match step
    case Pull(g, key) =>
      if g in p.branches && p.branches[g].stage.Idle?
      then SetStage(p, g, if p.branches[g].stopped then Halted else Pulled(key)) else p
    case Stream(g, ok) => if g in p.branches then StreamNext(p, g, ok) else p
    case Fail(g) =>
      if g in p.branches && !BeingActivated(p, g) then p.(branches := p.branches[g := p.branches[g].(failed := true)]) else p
    case FailStops(g) => if BranchFailed(p, g) then StopBranch(p, g) else p
    case ReplaceBegins =>
      if p.replacement.Nothing? && p.branch.Some? then
        p.(branches := p.branches[p.nextGeneration := Fresh], nextGeneration := p.nextGeneration + 1,
           replacement := Starting(p.branch.value, p.nextGeneration))
      else p
    case ReplaceGoesOn(ok) => ReplaceNext(p, ok)
    case Close => if p.replacement.Nothing? then CloseAll(p) else p
  }

  function Exec(p: Pipeline, steps: seq<Step>): Pipeline {
    if steps == [] then p else Next(Exec(p, steps[..|steps| - 1]), steps[|steps| - 1])
  }

  // ---- the invariant

  /** The last generation allowed to emit: the old one until its emit in flight has ended. */
  ghost function Emitter(p: Pipeline): nat {
    if p.replacement.Activating? then p.replacement.previous else p.top
  }

  ghost predicate BranchOk(p: Pipeline, g: nat, b: Branch) {
    && 1 <= g < p.nextGeneration
    // only the promoted branch and a candidate in progress run; only promoted ones are active
    && (g != p.top && !(!p.replacement.Nothing? && p.replacement.next == g) ==> b.stopped)
    && (b.active ==> g <= Emitter(p))
    && (b.stage.Emitting? ==> g == Emitter(p))
    && (!b.active ==> !b.stage.Ready? && !b.stage.Emitting?)
    // a branch that offered a keyframe keeps it until activation
    && (b.ready && !b.active ==> b.stage.Waiting? || b.stage.Halted?)
    && (b.stage.Waiting? ==> b.ready)
  }

  ghost predicate BranchesOk(p: Pipeline) {
    && p.top in p.branches && Emitter(p) in p.branches
    && forall g | g in p.branches :: BranchOk(p, g, p.branches[g])
  }

  ghost predicate ReplacementOk(p: Pipeline) {
    && p.top in p.branches
    && (p.branch.Some? ==> p.branch.value == p.top)
    && match p.replacement
       case Nothing => p.branches[p.top].active
       case Activating(previous, next) =>
         previous < next == p.top && p.branch == Some(next) && previous in p.branches && p.branches[previous].stopped &&
         p.branches[next].ready && !p.branches[next].active
       case r =>
         p.branch == Some(r.previous) && r.previous < r.next && r.previous in p.branches && r.next in p.branches && p.branches[r.previous].active &&
         (r.Promoting? ==> p.branches[r.next].ready)
  }

  /** The emitter has yet to emit, and is not the initial branch: what it emits first is the keyframe it waited with. */
  ghost predicate FirstIsKey(p: Pipeline) {
    var e := Emitter(p);
    (e in p.branches && p.emitted != [] && p.emitted[|p.emitted| - 1].generation < e && p.branches[e].active) ==>
      match p.branches[e].stage
      case Waiting => true
      case Ready(key) => key
      case Emitting(key) => key
      case Halted => true
      case _ => false
  }

  /** Generations never go back, and each change of generation is at a keyframe. */
  ghost predicate Seamless(emitted: seq<Emitted>) {
    forall i | 0 < i < |emitted| ::
      && emitted[i - 1].generation <= emitted[i].generation
      && (emitted[i - 1].generation != emitted[i].generation ==> emitted[i].keyFrame)
  }

  ghost predicate EmittedOk(p: Pipeline) {
    && Seamless(p.emitted)
    && (p.emitted != [] ==> p.emitted[|p.emitted| - 1].generation <= Emitter(p))
  }

  /** The active branch is stopped only after it failed. */
  ghost predicate ActiveRuns(p: Pipeline) {
    p.branch.Some? && p.branch.value in p.branches && p.branches[p.branch.value].stopped ==> p.branches[p.branch.value].failed
  }

  ghost predicate Invariant(p: Pipeline) {
    BranchesOk(p) && ReplacementOk(p) && FirstIsKey(p) && EmittedOk(p) && ActiveRuns(p)
  }

  /** One branch changes, in a way that keeps it in order. */
  lemma BranchChange(p: Pipeline, q: Pipeline, g: nat)
    requires BranchesOk(p) && g in p.branches && g in q.branches
    requires q.branches == p.branches[g := q.branches[g]]
    requires q.nextGeneration == p.nextGeneration && q.replacement == p.replacement && q.top == p.top
    requires BranchOk(p, g, q.branches[g])
    ensures BranchesOk(q)
  {
  }

  lemma StreamKeepsBranch(p: Pipeline, g: nat, ok: bool)
    requires g in p.branches && BranchOk(p, g, p.branches[g])
    requires p.branches[g].active && !p.branches[g].stopped ==> g == Emitter(p)
    ensures g in StreamNext(p, g, ok).branches && BranchOk(p, g, StreamNext(p, g, ok).branches[g])
  {
  }

  lemma StreamKeepsBranches(p: Pipeline, g: nat, ok: bool)
    requires BranchesOk(p) && ReplacementOk(p) && g in p.branches
    ensures BranchesOk(StreamNext(p, g, ok)) && ReplacementOk(StreamNext(p, g, ok))
  {
    hide StreamNext;
    assert BranchOk(p, g, p.branches[g]);
    StreamKeepsBranch(p, g, ok);
    StreamTouches(p, g, ok);
    BranchChange(p, StreamNext(p, g, ok), g);
  }

  /** A streaming step touches its own branch's stage and readiness; only an accepted emit adds to the output. */
  lemma StreamTouches(p: Pipeline, g: nat, ok: bool)
    requires g in p.branches
    ensures var q, b := StreamNext(p, g, ok), p.branches[g];
      && q == p.(branches := q.branches, emitted := q.emitted)
      && g in q.branches && q.branches == p.branches[g := b.(ready := q.branches[g].ready, stage := q.branches[g].stage)]
      && (b.ready ==> q.branches[g].ready)
      && q.emitted == if b.stage.Emitting? && ok then p.emitted + [Emitted(g, b.stage.keyFrame)] else p.emitted
  {
  }

  lemma StreamKeepsEmitted(p: Pipeline, g: nat, ok: bool)
    requires Invariant(p) && g in p.branches
    ensures EmittedOk(StreamNext(p, g, ok)) && ActiveRuns(StreamNext(p, g, ok))
  {
    assert BranchOk(p, g, p.branches[g]);
    hide StreamNext, BranchesOk, ReplacementOk, Seamless;
    StreamTouches(p, g, ok);
    if p.branches[g].stage.Emitting? && ok {
      EmitKeeps(p, g);
    }
  }

  lemma EmitKeeps(p: Pipeline, g: nat)
    requires FirstIsKey(p) && EmittedOk(p) && g in p.branches && g == Emitter(p)
    requires p.branches[g].stage.Emitting? && p.branches[g].active
    ensures Seamless(p.emitted + [Emitted(g, p.branches[g].stage.keyFrame)])
  {
  }

  lemma StreamKeepsFirst(p: Pipeline, g: nat, ok: bool)
    requires Invariant(p) && g in p.branches
    ensures FirstIsKey(StreamNext(p, g, ok))
  {
    assert BranchOk(p, g, p.branches[g]);
    StreamTouches(p, g, ok);
    if g == Emitter(p) {
      hide BranchesOk, ReplacementOk, Seamless, ActiveRuns;
      EmitterKeepsFirst(p, g, ok);
    } else {
      hide StreamNext, ReplacementOk, Seamless, ActiveRuns;
    }
  }

  lemma EmitterKeepsFirst(p: Pipeline, g: nat, ok: bool)
    requires g in p.branches && g == Emitter(p) && BranchOk(p, g, p.branches[g]) && FirstIsKey(p)
    ensures FirstIsKey(StreamNext(p, g, ok))
  {
  }

  lemma PullKeeps(p: Pipeline, g: nat, keyFrame: bool)
    requires Invariant(p)
    ensures Invariant(Next(p, Pull(g, keyFrame)))
  {
    var q := Next(p, Pull(g, keyFrame));
    if q != p {
      assert BranchOk(p, g, p.branches[g]);
      BranchChange(p, q, g);
    }
  }

  lemma FailKeeps(p: Pipeline, g: nat)
    requires Invariant(p)
    ensures Invariant(Next(p, Fail(g)))
  {
    var q := Next(p, Fail(g));
    if q != p {
      assert BranchOk(p, g, p.branches[g]);
      BranchChange(p, q, g);
    }
  }

  lemma StopKeeps(p: Pipeline, g: nat)
    requires Invariant(p) && (p.branch == Some(g) ==> BranchFailed(p, g))
    ensures Invariant(StopBranch(p, g))
  {
    var q := StopBranch(p, g);
    if q != p {
      assert BranchOk(p, g, p.branches[g]);
      BranchChange(p, q, g);
    }
  }

  lemma BeginKeeps(p: Pipeline)
    requires Invariant(p)
    ensures Invariant(Next(p, ReplaceBegins))
  {
  }

  lemma WithdrawKeeps(p: Pipeline)
    requires Invariant(p) && !p.replacement.Nothing? && !p.replacement.Activating?
    ensures Invariant(Withdraw(p, p.replacement.previous, p.replacement.next))
  {
  }

  /** The swap itself: from here the old branch can only finish an emit already under way. */
  lemma PromoteKeeps(p: Pipeline)
    requires Invariant(p) && p.replacement.Promoting?
    requires var q := ReplaceNext(p, true); q.replacement.Activating?
    ensures Invariant(ReplaceNext(p, true))
  {
  }

  /** Activation: the old branch has stopped emitting, and the candidate still holds its keyframe. */
  lemma ActivateKeeps(p: Pipeline, ok: bool)
    requires Invariant(p) && p.replacement.Activating?
    ensures Invariant(ReplaceNext(p, ok))
  {
  }

  lemma RollBackKeeps(p: Pipeline, ok: bool)
    requires Invariant(p) && p.replacement.RollingBack?
    ensures Invariant(ReplaceNext(p, ok))
  {
    var q := ReplaceNext(p, ok);
    forall h | h in q.branches ensures BranchOk(q, h, q.branches[h]) {
      assert BranchOk(p, h, p.branches[h]);
    }
  }

  lemma AwaitKeeps(p: Pipeline, ok: bool)
    requires Invariant(p) && (p.replacement.Starting? || p.replacement.Published?)
    ensures Invariant(ReplaceNext(p, ok))
  {
  }

  lemma CloseKeeps(p: Pipeline)
    requires Invariant(p)
    ensures Invariant(Next(p, Close))
  {
    var q := Next(p, Close);
    forall h | h in q.branches ensures BranchOk(q, h, q.branches[h]) {
      assert BranchOk(p, h, p.branches[h]);
    }
  }

  lemma StepKeeps(p: Pipeline, step: Step)
    requires Invariant(p)
    ensures Invariant(Next(p, step))
  {
    hide BranchesOk, ReplacementOk, FirstIsKey, EmittedOk, ActiveRuns, StreamNext;
    match step
    case Pull(g, key) => PullKeeps(p, g, key);
    case Stream(g, ok) =>
      if g in p.branches {
        StreamKeepsBranches(p, g, ok);
        StreamKeepsEmitted(p, g, ok);
        StreamKeepsFirst(p, g, ok);
      }
    case Fail(g) => FailKeeps(p, g);
    case FailStops(g) => if BranchFailed(p, g) { StopKeeps(p, g); }
    case ReplaceBegins => BeginKeeps(p);
    case ReplaceGoesOn(ok) => ReplaceKeeps(p, ok);
    case Close => CloseKeeps(p);
  }

  lemma ReplaceKeeps(p: Pipeline, ok: bool)
    requires Invariant(p)
    ensures Invariant(ReplaceNext(p, ok))
  {
    hide BranchesOk, ReplacementOk, FirstIsKey, EmittedOk, ActiveRuns, StopBranch;
    match p.replacement
    case Nothing =>
    case Promoting(_, _) => if ReplaceNext(p, ok).replacement.Activating? { PromoteKeeps(p); } else { WithdrawKeeps(p); }
    case Activating(_, _) => ActivateKeeps(p, ok);
    case RollingBack(_, _) => RollBackKeeps(p, ok);
    case _ => AwaitKeeps(p, ok);
  }

  lemma {:induction false} RunsKeep(steps: seq<Step>)
    ensures Invariant(Exec(Initial, steps))
  {
    if steps != [] {
      RunsKeep(steps[..|steps| - 1]);
      StepKeeps(Exec(Initial, steps[..|steps| - 1]), steps[|steps| - 1]);
    }
  }

  /** In every run the emitted generations never decrease, so an old branch emits nothing once a new one has started,
      and every change of generation happens at a keyframe. */
  lemma SwitchesAreSeamless(steps: seq<Step>, i: nat, j: nat)
    requires i < j < |Exec(Initial, steps).emitted|
    ensures var e := Exec(Initial, steps).emitted;
      && e[i].generation <= e[j].generation
      && (e[j - 1].generation != e[j].generation ==> e[j].keyFrame)
  {
    RunsKeep(steps);
    Ordered(Exec(Initial, steps).emitted, i, j);
  }

  lemma {:induction false} Ordered(emitted: seq<Emitted>, i: nat, j: nat)
    requires Seamless(emitted) && i <= j < |emitted|
    ensures emitted[i].generation <= emitted[j].generation
  {
    if i < j {
      Ordered(emitted, i, j - 1);
      assert emitted[j - 1].generation <= emitted[j].generation;
    }
  }

  /** A replacement that has failed left the active branch in place, still active and stopped only if it failed itself. */
  lemma FailedReplacementChangesNothing(steps: seq<Step>)
    ensures var p := Exec(Initial, steps);
      p.replacement.RollingBack? ==>
        var g := p.replacement.previous;
        && p.branch == Some(g) && g in p.branches && p.branches[g].active
        && (p.branches[g].stopped ==> p.branches[g].failed)
        && ReplaceNext(p, true).branch == Some(g) && ReplaceNext(p, true).branches[g] == p.branches[g]
  {
    RunsKeep(steps);
  }

  // ---- replacements succeed

  lemma Extend(start: Pipeline, steps: seq<Step>, step: Step) returns (more: seq<Step>)
    ensures more == steps + [step] && Exec(start, more) == Next(Exec(start, steps), step)
  {
    more := steps + [step];
    assert more[..|steps|] == steps;
  }

  /** Steps of the replacement, and of the streaming threads of its branches. */
  predicate OwnStep(step: Step, previous: nat, next: nat) {
    match step
    case ReplaceBegins => true
    case ReplaceGoesOn(ok) => ok
    case Pull(g, _) => g == next
    case Stream(g, ok) => (g == next && ok) || (g == previous && !ok)   // the old branch's emit in flight is told to stop
    case _ => false
  }

  /** The pipeline with a candidate that waits with its keyframe. */
  function Offering(p: Pipeline, previous: nat, next: nat): Pipeline {
    p.(branches := p.branches[next := Fresh.(ready := true, stage := Waiting)], nextGeneration := next + 1,
       candidate := Some(next), replacement := Published(previous, next))
  }

  /** Beginning, publishing the candidate, and its first keyframe. */
  lemma CandidateOffers(p: Pipeline, g: nat) returns (steps: seq<Step>)
    requires p.replacement.Nothing? && p.branch == Some(g) && p.nextGeneration !in p.branches
    ensures Exec(p, steps) == Offering(p, g, p.nextGeneration)
    ensures forall i | 0 <= i < |steps| :: OwnStep(steps[i], g, p.nextGeneration)
  {
    var n := p.nextGeneration;
    steps := [];
    assert Exec(p, steps) == p;
    hide Exec;
    steps := Extend(p, steps, ReplaceBegins);
    var q := p.(branches := p.branches[n := Fresh], nextGeneration := n + 1, replacement := Starting(g, n));
    assert Exec(p, steps) == q;
    steps := Extend(p, steps, ReplaceGoesOn(true));
    q := q.(candidate := Some(n), replacement := Published(g, n));
    assert Exec(p, steps) == q;
    steps := Extend(p, steps, Pull(n, true));
    q := q.(branches := p.branches[n := Fresh.(stage := Pulled(true))]);
    assert Exec(p, steps) == q;
    steps := Extend(p, steps, Stream(n, true));
    assert Exec(p, steps) == Offering(p, g, n);
  }

  /** The pipeline at the moment of the swap: the old branch told to stop, the candidate not yet active. */
  function Swapped(p: Pipeline, previous: nat, next: nat): Pipeline
    requires previous in p.branches
  {
    var b := p.branches[previous].(stopped := true);
    p.(branches := p.branches[next := Fresh.(ready := true, stage := Waiting)][previous := b],
       nextGeneration := next + 1, branch := Some(next), candidate := None, replacement := Activating(previous, next), top := next)
  }

  lemma CandidateIsSwapped(p: Pipeline, steps: seq<Step>, q: Pipeline, g: nat) returns (more: seq<Step>)
    requires p.branch == Some(g) && g in p.branches && p.nextGeneration !in p.branches && q == Offering(p, g, p.nextGeneration)
    requires Exec(p, steps) == q && forall i | 0 <= i < |steps| :: OwnStep(steps[i], g, p.nextGeneration)
    ensures Exec(p, more) == Swapped(p, g, p.nextGeneration)
    ensures forall i | 0 <= i < |more| :: OwnStep(more[i], g, p.nextGeneration)
  {
    var n := p.nextGeneration;
    hide Exec;
    more := Extend(p, steps, ReplaceGoesOn(true));
    assert Exec(p, more) == q.(replacement := Promoting(g, n));
    more := Extend(p, more, ReplaceGoesOn(true));
  }

  /** A replacement done: the candidate is the active branch, the old one stopped and no longer emitting. */
  ghost predicate Replaced(p: Pipeline, q: Pipeline, previous: nat, next: nat) {
    && q.branch == Some(next) && q.candidate.None? && q.replacement.Nothing?
    && next in q.branches && q.branches[next] == Fresh.(active := true, ready := true, stage := Waiting)
    && previous in q.branches && q.branches[previous].stopped && !q.branches[previous].stage.Emitting?
    && q.emitted == p.emitted
  }

  lemma SwappedIsActivated(p: Pipeline, steps: seq<Step>, g: nat) returns (more: seq<Step>)
    requires p.branch == Some(g) && g in p.branches && p.nextGeneration !in p.branches
    requires Exec(p, steps) == Swapped(p, g, p.nextGeneration)
    requires forall i | 0 <= i < |steps| :: OwnStep(steps[i], g, p.nextGeneration)
    ensures Replaced(p, Exec(p, more), g, p.nextGeneration)
    ensures forall i | 0 <= i < |more| :: OwnStep(more[i], g, p.nextGeneration)
  {
    hide Exec;
    more := steps;
    if p.branches[g].stage.Emitting? {
      more := Extend(p, more, Stream(g, false));
    }
    more := Extend(p, more, ReplaceGoesOn(true));
  }

  /** From every reachable state with a current branch and no replacement under way, a replacement whose steps meet no error
      and whose candidate brings a keyframe ends with the candidate active in place of the old branch. */
  lemma ReplacementSucceeds(before: seq<Step>) returns (steps: seq<Step>)
    requires var p := Exec(Initial, before); p.replacement.Nothing? && p.branch.Some?
    ensures var p := Exec(Initial, before);
      && Replaced(p, Exec(p, steps), p.branch.value, p.nextGeneration)
      && forall i | 0 <= i < |steps| :: OwnStep(steps[i], p.branch.value, p.nextGeneration)
  {
    RunsKeep(before);
    var p := Exec(Initial, before);
    assert p.nextGeneration !in p.branches && p.branch.value in p.branches;
    hide Exec, Invariant;
    steps := CandidateOffers(p, p.branch.value);
    steps := CandidateIsSwapped(p, steps, Offering(p, p.branch.value, p.nextGeneration), p.branch.value);
    steps := SwappedIsActivated(p, steps, p.branch.value);
  }

  /** And what the new branch emits next is the keyframe it waited with. */
  lemma ReplacementEmitsKeyframe(p: Pipeline, q: Pipeline, previous: nat, next: nat)
    requires Replaced(p, q, previous, next)
    ensures Exec(q, [Stream(next, true), Stream(next, true), Stream(next, true)]).emitted == p.emitted + [Emitted(next, true)]
  {
    var e := Stream(next, true);
    var a := Next(q, e);
    assert a == SetStage(q, next, Ready(true));
    var b := Next(a, e);
    assert b.branches[next].stage == Emitting(true) && b.emitted == q.emitted;
    var c := Next(b, e);
    assert c.emitted == q.emitted + [Emitted(next, true)];
    hide Next;
    ThreeSteps(q, e, e, e);
  }

  lemma ThreeSteps(p: Pipeline, a: Step, b: Step, c: Step)
    ensures Exec(p, [a, b, c]) == Next(Next(Next(p, a), b), c)
  {
    hide Next;
    assert [a, b, c][..2] == [a, b] && [a, b][..1] == [a] && [a][..0] == [];
    assert Exec(p, [a]) == Next(Exec(p, []), a);
    assert Exec(p, [a, b]) == Next(Exec(p, [a]), b);
  }

  /** In every run a replacement is rolled back if and only if its step reports an error, or its candidate is found failed
      before it is published, or failed or stopped before it is promoted; the branches it began with never change meanwhile. */
  lemma RolledBackExactly(before: seq<Step>, ok: bool)
    requires var p := Exec(Initial, before);
      p.replacement.Starting? || p.replacement.Published? || p.replacement.Promoting?
    ensures var p := Exec(Initial, before);
      var r, q := p.replacement, ReplaceNext(p, ok);
      && p.branch == Some(r.previous) && r.next in p.branches && r.previous in q.branches
      && (q.replacement.RollingBack? <==>
            || !ok
            || (r.Starting? && BranchFailed(p, r.next))
            || (r.Promoting? && (BranchFailed(p, r.next) || p.branches[r.next].stopped || p.candidate != Some(r.next))))
      && (q.replacement.RollingBack? ==>
            q.candidate == (if p.candidate == Some(r.next) then None else p.candidate) && q.branch == p.branch)
      && (!q.replacement.RollingBack? ==>
            match r
            case Starting(previous, next) => q.replacement == Published(previous, next) && q.candidate == Some(next)
            case Published(previous, next) =>
              q.replacement == if p.branches[next].ready then Promoting(previous, next) else r
            case Promoting(previous, next) =>
              q.replacement == Activating(previous, next) && q.branch == Some(next) && q.branches[previous].stopped
            case _ => true)
  {
    RunsKeep(before);
    hide BranchesOk, FirstIsKey, EmittedOk, ActiveRuns, Exec;
  }

  /** A running active branch emits every sample it pulls. */
  lemma ActiveBranchEmits(p: Pipeline, g: nat, key: bool)
    requires g in p.branches && p.branches[g].active && !p.branches[g].stopped && p.branches[g].stage.Idle?
    ensures var q := Next(p, Pull(g, key));
      Exec(q, [Stream(g, true), Stream(g, true), Stream(g, true)]) == p.(emitted := p.emitted + [Emitted(g, key)])
  {
    var e := Stream(g, true);
    var q := Next(p, Pull(g, key));
    assert q == SetStage(p, g, Pulled(key));
    var a := Next(q, e);
    assert a == SetStage(p, g, Ready(key));
    var b := Next(a, e);
    assert b == SetStage(p, g, Emitting(key));
    var c := Next(b, e);
    assert SetStage(p, g, Idle) == p;
    assert c == p.(emitted := p.emitted + [Emitted(g, key)]);
    hide Next;
    ThreeSteps(q, e, e, e);
  }

  /** A branch that is not active emits nothing: it lets a delta frame go and offers a keyframe. */
  lemma CandidateOffersKeyframes(p: Pipeline, g: nat, key: bool)
    requires g in p.branches && !p.branches[g].active && !p.branches[g].stopped && p.branches[g].stage.Idle?
    ensures var q := Next(Next(p, Pull(g, key)), Stream(g, true));
      q == if key then p.(branches := p.branches[g := p.branches[g].(ready := true, stage := Waiting)]) else p
  {
    assert SetStage(p, g, Idle) == p;
  }

  /** A failure marks the branch and stops it, unless an activation of that very branch is under way, which waits for the
      activation to end; closing stops the active branch and leaves none. */
  lemma FailureStops(p: Pipeline, g: nat)
    requires g in p.branches
    ensures var q := Next(Next(p, Fail(g)), FailStops(g));
      if p.replacement.Activating? && p.replacement.next == g && !p.branches[g].failed then q == p
      else q.branches[g].failed && q.branches[g].stopped && q.branch == p.branch
  {
  }

  lemma ClosingStops(before: seq<Step>)
    requires Exec(Initial, before).replacement.Nothing?
    ensures var p := Exec(Initial, before);
      var q := Next(p, Close);
      && q.branch.None? && q.candidate.None? && q.emitted == p.emitted
      && (p.branch.Some? ==> p.branch.value in q.branches && q.branches[p.branch.value].stopped)
  {
    RunsKeep(before);
    hide Exec, BranchesOk, FirstIsKey, EmittedOk;
  }

  /** A candidate that is rolled back is stopped. */
  lemma RollBackStops(before: seq<Step>, ok: bool)
    requires Exec(Initial, before).replacement.RollingBack?
    ensures var p := Exec(Initial, before);
      var q := ReplaceNext(p, ok);
      q.replacement.Nothing? && p.replacement.next in q.branches && q.branches[p.replacement.next].stopped && q.branch == p.branch
  {
    RunsKeep(before);
    hide Exec, BranchesOk, FirstIsKey, EmittedOk;
  }

  /** A streaming thread ends when its pull or map fails and when it finds its branch stopped: before activation, while it
      waits, and under the emit lock; a waiting one goes on once active. */
  lemma StoppedBranchEnds(p: Pipeline, g: nat, key: bool, ok: bool)
    requires g in p.branches
    ensures var b := p.branches[g];
      && (b.stage.Idle? && b.stopped ==> Next(p, Pull(g, key)) == SetStage(p, g, Halted))
      && (b.stage.Idle? ==> Next(p, Stream(g, false)) == SetStage(p, g, Halted) && Next(p, Stream(g, true)) == p)
      && (b.stage.Waiting? && b.stopped && !b.active ==> Next(p, Stream(g, ok)) == SetStage(p, g, Halted))
      && (b.stage.Waiting? && !b.stopped && !b.active ==> Next(p, Stream(g, ok)) == p)
      && (b.stage.Waiting? && b.active ==>
            Next(p, Stream(g, ok)) == SetStage(p, g, if b.stopped && !ok then Halted else Ready(true)))
      && (b.stage.Ready? && (b.stopped || !ok) ==> Next(p, Stream(g, ok)) == SetStage(p, g, Halted))
      && (b.stage.Emitting? && !ok ==> Next(p, Stream(g, ok)) == SetStage(p, g, Halted))
      && (b.stage.Halted? ==> Next(p, Stream(g, ok)) == p && Next(p, Pull(g, key)) == p)
  {
  }
}
