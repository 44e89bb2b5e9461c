/** The reference-counted latest-sample slot between capture and the encoder pumps (media/persistent_pipeline.go).
    Any number of capture callbacks and pumps run concurrently; each works through its own task. */
module SampleSlot {

  import opened Options

  /** The slot's fields; `references` counts, per sample, the references taken and not yet dropped. The `changed` channels
      are numbered in the order they are made: those below `changed` have been closed. */
  datatype Slot = Slot(sample: Option<nat>, sequence: nat, closed: bool, changed: nat, references: multiset<nat>)

  /** Nothing new comes with the channel to wait on. */
  datatype Found = Closed | Nothing(changed: nat) | Sample(sample: nat, sequence: nat)

  /** The locked section of Store, for a sample already retained: the previous sample to drop, or a refusal. */
  function Put(s: Slot, sample: nat): (Slot, Option<nat>, bool) {
    if s.closed then (s, Some(sample), false)
    else (s.(sample := Some(sample), sequence := s.sequence + 1, changed := s.changed + 1), s.sample, true)
  }

  /** Next: a new reference to the sample unless the caller has seen it. */
  function Get(s: Slot, after: nat): (Slot, Found) {
    if s.closed then (s, Closed)
    else if s.sample.Some? && s.sequence != after then
      (s.(references := s.references + multiset{s.sample.value}), Sample(s.sample.value, s.sequence))
    else (s, Nothing(s.changed))
  }

  function Shut(s: Slot): (Slot, Option<nat>) {
    if s.closed then (s, None) else (s.(closed := true, sample := None, changed := s.changed + 1), s.sample)
  }

  class VideoSampleSlot {
    var sample: Option<nat>
    var sequence: nat
    var closed: bool
    var changed: nat
    var references: multiset<nat>

    ghost function View(): Slot
      reads this
    {
      Slot(sample, sequence, closed, changed, references)
    }

    constructor ()
      ensures View() == Slot(None, 0, false, 0, multiset{})
    {
      sample, sequence, closed, changed, references := None, 0, false, 0, multiset{};
    }

    method Store(retained: nat) returns (drop: Option<nat>, stored: bool)
      modifies this
      ensures (View(), drop, stored) == Put(old(View()), retained)
    {
      if closed { return Some(retained), false; }
      drop := sample;
      sample := Some(retained);
      sequence := sequence + 1;
      changed := changed + 1;
      stored := true;
    }

    method Next(after: nat) returns (found: Found)
      modifies this
      ensures (View(), found) == Get(old(View()), after)
    {
      if closed { return Closed; }
      if sample.Some? && sequence != after {
        references := references + multiset{sample.value};
        return Sample(sample.value, sequence);
      }
      found := Nothing(changed);
    }

    method Close() returns (drop: Option<nat>)
      modifies this
      ensures (View(), drop) == Shut(old(View()))
    {
      if closed { return None; }
      closed := true;
      drop := sample;
      sample := None;
      changed := changed + 1;
    }
  }

  // ---- runs

  datatype Task =
    | Free
    | Capturing(sample: nat)                            // the callback's own reference
    | Retained(sample: nat)                             // and one more, for the slot
    | Storing(sample: nat, drop: Option<nat>)           // after the locked section; `drop` still to be unreferenced
    | Pumping(seen: seq<nat>)                           // sequence numbers this pump got, oldest first
    | Waiting(seen: seq<nat>, changed: nat)             // on this channel
    | Copying(seen: seq<nat>, sample: nat, sequence: nat)
    | Closing(drop: Option<nat>)

  datatype State = State(slot: Slot, tasks: seq<Task>)

  datatype Step =
    | Capture(t: nat, sample: nat)   // a new sample arrives with one reference
    | StartPump(t: nat)
    | StartClose(t: nat)
    | Go(t: nat)

  function Last(seen: seq<nat>): nat {
    if seen == [] then 0 else seen[|seen| - 1]
  }

  function Ref(s: Slot, sample: nat): Slot {
    s.(references := s.references + multiset{sample})
  }

  function Unref(s: Slot, sample: Option<nat>): Slot {
    if sample.None? then s else s.(references := s.references - multiset{sample.value})
  }

  function Advance(slot: Slot, task: Task): (Slot, Task) {
    match task
    case Free => (slot, task)
    case Capturing(sample) => (Ref(slot, sample), Retained(sample))
    case Retained(sample) => (Put(slot, sample).0, Storing(sample, Put(slot, sample).1))
    case Storing(sample, drop) => (Unref(Unref(slot, drop), Some(sample)), Free)
    case Pumping(seen) =>
      (match Get(slot, Last(seen))
       case (s, Closed) => (s, Free)
       case (s, Nothing(changed)) => (s, Waiting(seen, changed))
       case (s, Sample(sample, sequence)) => (s, Copying(seen, sample, sequence)))
    case Waiting(seen, changed) => (slot, if changed < slot.changed then Pumping(seen) else task)
    case Copying(seen, sample, sequence) => (Unref(slot, Some(sample)), Pumping(seen + [sequence]))
    case Closing(drop) => (Unref(slot, drop), Free)
  }

  function Next(s: State, step: Step): State {
    if step.t >= |s.tasks| then s
    else
      match step
      case Capture(t, sample) =>
        if s.tasks[t].Free? then State(Ref(s.slot, sample), s.tasks[t := Capturing(sample)]) else s
      case StartPump(t) => if s.tasks[t].Free? then s.(tasks := s.tasks[t := Pumping([])]) else s
      case StartClose(t) =>
        if s.tasks[t].Free? then State(Shut(s.slot).0, s.tasks[t := Closing(Shut(s.slot).1)]) else s
      case Go(t) => State(Advance(s.slot, s.tasks[t]).0, s.tasks[t := Advance(s.slot, s.tasks[t]).1])
  }

  function Exec(s: State, steps: seq<Step>): State {
    if steps == [] then s else Next(Exec(s, steps[..|steps| - 1]), steps[|steps| - 1])
  }

  function Start(n: nat): State {
    State(Slot(None, 0, false, 0, multiset{}), seq(n, _ => Free))
  }

  // ---- conservation

  ghost function One(sample: Option<nat>, x: nat): nat {
    if sample == Some(x) then 1 else 0
  }

  /** The references to sample `x` that a task has yet to drop. */
  ghost function Held(task: Task, x: nat): nat {
    match task
    case Free => 0
    case Capturing(sample) => One(Some(sample), x)
    case Retained(sample) => 2 * One(Some(sample), x)
    case Storing(sample, drop) => One(Some(sample), x) + One(drop, x)
    case Pumping(_) => 0
    case Waiting(_, _) => 0
    case Copying(_, sample, _) => One(Some(sample), x)
    case Closing(drop) => One(drop, x)
  }

  ghost function AllHeld(tasks: seq<Task>, x: nat): nat {
    if tasks == [] then 0 else AllHeld(tasks[..|tasks| - 1], x) + Held(tasks[|tasks| - 1], x)
  }

  ghost predicate Conserved(s: State, x: nat) {
    s.slot.references[x] == AllHeld(s.tasks, x) + One(s.slot.sample, x)
  }

  /** Replacing one task moves exactly the references that task gains or drops. */
  lemma {:induction false} HeldUpdate(tasks: seq<Task>, t: nat, task: Task, x: nat)
    requires t < |tasks|
    ensures AllHeld(tasks[t := task], x) == AllHeld(tasks, x) - Held(tasks[t], x) + Held(task, x)
    ensures Held(tasks[t], x) <= AllHeld(tasks, x)
  {
    var front, next := tasks[..|tasks| - 1], tasks[t := task];
    if t == |tasks| - 1 {
      assert next[..|next| - 1] == front;
    } else {
      HeldUpdate(front, t, task, x);
      assert next[..|next| - 1] == front[t := task];
    }
  }

  lemma RefCounts(s: Slot, sample: nat, x: nat)
    ensures Ref(s, sample) == s.(references := Ref(s, sample).references)
    ensures Ref(s, sample).references[x] == s.references[x] + One(Some(sample), x)
  {
  }

  lemma UnrefCounts(s: Slot, sample: Option<nat>, x: nat)
    ensures Unref(s, sample) == s.(references := Unref(s, sample).references)
    ensures One(sample, x) <= s.references[x] ==> Unref(s, sample).references[x] == s.references[x] - One(sample, x)
  {
  }

  lemma AdvanceConserves(slot: Slot, task: Task, others: nat, x: nat)
    requires slot.references[x] == others + Held(task, x) + One(slot.sample, x)
    ensures var (slot', task') := Advance(slot, task);
      slot'.references[x] == others + Held(task', x) + One(slot'.sample, x)
  {
    hide Ref, Unref;
    match task
    case Capturing(sample) => RefCounts(slot, sample, x);
    case Storing(sample, drop) =>
      UnrefCounts(slot, drop, x);
      UnrefCounts(Unref(slot, drop), Some(sample), x);
    case Copying(_, sample, _) => UnrefCounts(slot, Some(sample), x);
    case Closing(drop) => UnrefCounts(slot, drop, x);
    case _ =>
  }

  lemma StepConserves(s: State, step: Step, x: nat)
    requires Conserved(s, x)
    ensures Conserved(Next(s, step), x)
  {
    hide Advance, Held;
    var s' := Next(s, step);
    var t := step.t;
    if t < |s.tasks| {
      HeldUpdate(s.tasks, t, s'.tasks[t], x);
      if step.Go? {
        AdvanceConserves(s.slot, s.tasks[t], AllHeld(s.tasks, x) - Held(s.tasks[t], x), x);
      } else {
        BeginConserves(s.slot, s.tasks[t], step, AllHeld(s.tasks, x) - Held(s.tasks[t], x), x);
      }
    }
  }

  lemma BeginConserves(slot: Slot, task: Task, step: Step, others: nat, x: nat)
    requires slot.references[x] == others + Held(task, x) + One(slot.sample, x) && !step.Go?
    ensures var s' := Next(State(slot, [task]), step.(t := 0));
      s'.slot.references[x] == others + Held(s'.tasks[0], x) + One(s'.slot.sample, x)
  {
  }

  lemma {:induction false} StartHoldsNothing(n: nat, x: nat)
    ensures AllHeld(Start(n).tasks, x) == 0
  {
    if n > 0 {
      StartHoldsNothing(n - 1, x);
      assert Start(n).tasks[..n - 1] == Start(n - 1).tasks;
    }
  }

  /** In every run with any number of tasks, each sample's reference count is the number of references its holders
      have yet to drop; so a holder's sample is never freed under it, and a sample nobody holds is freed. */
  lemma {:induction false} ReferencesAreConserved(n: nat, steps: seq<Step>, x: nat)
    ensures var s := Exec(Start(n), steps);
      && |s.tasks| == n && s.slot.references[x] == AllHeld(s.tasks, x) + One(s.slot.sample, x)
      && forall t | 0 <= t < n :: Held(s.tasks[t], x) <= s.slot.references[x]
  {
    var s := Exec(Start(n), steps);
    if steps == [] {
      StartHoldsNothing(n, x);
    } else {
      ReferencesAreConserved(n, steps[..|steps| - 1], x);
      StepConserves(Exec(Start(n), steps[..|steps| - 1]), steps[|steps| - 1], x);
    }
    forall t | 0 <= t < n ensures Held(s.tasks[t], x) <= s.slot.references[x] {
      HeldUpdate(s.tasks, t, Free, x);
    }
  }

  // ---- order

  ghost predicate Increasing(seen: seq<nat>) {
    forall i, j | 0 <= i < j < |seen| :: seen[i] < seen[j]
  }

  ghost predicate TaskOk(slot: Slot, task: Task) {
    match task
    case Pumping(seen) => Increasing(seen) && Last(seen) <= slot.sequence
    case Waiting(seen, changed) =>
      && Increasing(seen) && Last(seen) <= slot.sequence && changed <= slot.changed
      && (changed == slot.changed ==> !slot.closed && (slot.sample.Some? ==> Last(seen) == slot.sequence))
    case Copying(seen, _, sequence) => Increasing(seen) && Last(seen) < sequence <= slot.sequence
    case _ => true
  }

  ghost predicate InOrder(s: State) {
    && (s.slot.closed ==> s.slot.sample.None?)
    && (s.slot.sample.Some? ==> s.slot.sequence > 0)
    && forall t | 0 <= t < |s.tasks| :: TaskOk(s.slot, s.tasks[t])
  }

  /** The slot moves forward, and what a waiting pump goes by changes only together with the channel. */
  ghost predicate Newer(slot: Slot, slot': Slot) {
    && slot.sequence <= slot'.sequence && slot.changed <= slot'.changed
    && (slot'.changed == slot.changed ==>
          slot'.closed == slot.closed && slot'.sample == slot.sample && slot'.sequence == slot.sequence)
  }

  lemma AdvanceKeepsOrder(slot: Slot, task: Task)
    requires (slot.closed ==> slot.sample.None?) && (slot.sample.Some? ==> slot.sequence > 0) && TaskOk(slot, task)
    ensures var slot' := Advance(slot, task).0;
      && (slot'.closed ==> slot'.sample.None?) && (slot'.sample.Some? ==> slot'.sequence > 0)
      && Newer(slot, slot') && TaskOk(slot', Advance(slot, task).1)
  {
    hide Increasing, Ref, Unref;
    match task
    case Capturing(sample) => RefCounts(slot, sample, 0);
    case Storing(sample, drop) =>
      UnrefCounts(slot, drop, 0);
      UnrefCounts(Unref(slot, drop), Some(sample), 0);
    case Copying(seen, sample, sequence) =>
      UnrefCounts(slot, Some(sample), 0);
      Extends(seen, sequence);
    case Closing(drop) => UnrefCounts(slot, drop, 0);
    case _ =>
  }

  lemma Empty()
    ensures Increasing([])
  {
  }

  lemma Extends(seen: seq<nat>, sequence: nat)
    requires Increasing(seen) && (seen == [] || Last(seen) < sequence)
    ensures Increasing(seen + [sequence])
  {
  }

  lemma StepKeepsOrder(s: State, step: Step)
    requires InOrder(s)
    ensures InOrder(Next(s, step))
  {
    hide Advance, Increasing;
    var s' := Next(s, step);
    if step.t < |s.tasks| {
      assert TaskOk(s.slot, s.tasks[step.t]);
      if step.Go? { AdvanceKeepsOrder(s.slot, s.tasks[step.t]); }
      Empty();
    }
    forall t | 0 <= t < |s'.tasks| ensures TaskOk(s'.slot, s'.tasks[t]) {
      assert TaskOk(s.slot, s.tasks[t]);
    }
  }

  /** In every run each pump sees strictly increasing sequence numbers, and a closed slot holds nothing. */
  lemma {:induction false} PumpsMoveForward(n: nat, steps: seq<Step>)
    ensures var s := Exec(Start(n), steps);
      && InOrder(s) && (s.slot.closed ==> s.slot.sample.None?)
      && forall t | 0 <= t < |s.tasks| && (s.tasks[t].Pumping? || s.tasks[t].Waiting?) :: Increasing(s.tasks[t].seen)
  {
    if steps != [] {
      PumpsMoveForward(n, steps[..|steps| - 1]);
      StepKeepsOrder(Exec(Start(n), steps[..|steps| - 1]), steps[|steps| - 1]);
    }
    var s := Exec(Start(n), steps);
    assert InOrder(s);
    hide Exec, Increasing;
    forall t | 0 <= t < |s.tasks| && (s.tasks[t].Pumping? || s.tasks[t].Waiting?) ensures Increasing(s.tasks[t].seen) {
      assert TaskOk(s.slot, s.tasks[t]);
    }
  }

  /** In every run no pump sleeps through a change: one that waits while the slot is closed or holds a sample it has not
      seen finds its channel closed, and its next step takes it back to the slot. */
  lemma NoPumpOversleeps(n: nat, steps: seq<Step>, t: nat)
    requires var s := Exec(Start(n), steps);
      t < |s.tasks| && s.tasks[t].Waiting? &&
      (s.slot.closed || (s.slot.sample.Some? && s.slot.sequence != Last(s.tasks[t].seen)))
    ensures var s := Exec(Start(n), steps);
      s.tasks[t].changed < s.slot.changed && Next(s, Go(t)).tasks[t] == Pumping(s.tasks[t].seen)
  {
    PumpsMoveForward(n, steps);
    var s := Exec(Start(n), steps);
    hide Exec;
    assert TaskOk(s.slot, s.tasks[t]);
  }

  // ---- what gets through

  /** After a store an open slot holds that very sample, and everyone who has not seen it gets it, with a reference; a closed
      slot hands it back. */
  lemma StoredIsFound(s: Slot, sample: nat, after: nat)
    requires after <= s.sequence
    ensures var (t, drop, stored) := Put(s, sample);
      if s.closed then t == s && drop == Some(sample) && !stored && Get(t, after) == (s, Closed)
      else
        && drop == s.sample && stored && t.sequence == s.sequence + 1 && t.references == s.references
        && Get(t, after).1 == Sample(sample, t.sequence)
        && Get(t, after).0 == t.(references := t.references + multiset{sample})
        && Get(t, t.sequence).1 == Nothing(t.changed) && t.changed > s.changed
  {
  }

  lemma FourSteps(s: State, a: Step, b: Step, c: Step, d: Step)
    ensures Exec(s, [a, b]) == Next(Next(s, a), b)
    ensures Exec(s, [a, b, c, d]) == Next(Next(Next(Next(s, a), b), c), d)
  {
    hide Next;
    assert [a, b, c, d][..3] == [a, b, c] && [a, b, c][..2] == [a, b] && [a, b][..1] == [a] && [a][..0] == [];
    assert Exec(s, [a]) == Next(Exec(s, []), a);
    assert Exec(s, [a, b, c]) == Next(Exec(s, [a, b]), c);
  }

  /** A capture callback that runs through leaves its sample in an open slot, and in a closed one nothing. */
  lemma CaptureStores(s: State, t: nat, sample: nat)
    requires t < |s.tasks| && s.tasks[t].Free?
    ensures var e := Exec(s, [Capture(t, sample), Go(t), Go(t), Go(t)]);
      && e.tasks == s.tasks && e.slot.closed == s.slot.closed
      && (if s.slot.closed then e.slot.sample == s.slot.sample
          else e.slot.sample == Some(sample) && e.slot.sequence == s.slot.sequence + 1)
  {
    FourSteps(s, Capture(t, sample), Go(t), Go(t), Go(t));
    hide Exec, Ref, Unref;
    var a := Next(s, Capture(t, sample));
    RefCounts(s.slot, sample, 0);
    assert a.tasks == s.tasks[t := Capturing(sample)];
    var b := Next(a, Go(t));
    RefCounts(a.slot, sample, 0);
    assert b.tasks == s.tasks[t := Retained(sample)];
    var c := Next(b, Go(t));
    var drop := Put(b.slot, sample).1;
    assert c.tasks == s.tasks[t := Storing(sample, drop)];
    UnrefCounts(c.slot, drop, 0);
    UnrefCounts(Unref(c.slot, drop), Some(sample), 0);
    assert s.tasks[t := Free] == s.tasks;
  }

  /** A pump takes the sample it has not seen, waits when there is none, and ends when the slot is closed. */
  lemma PumpTakes(s: State, t: nat)
    requires t < |s.tasks| && s.tasks[t].Pumping?
    ensures var seen := s.tasks[t].seen;
      |Exec(s, [Go(t), Go(t)]).tasks| == |s.tasks| && Exec(s, [Go(t), Go(t)]).tasks[t] ==
      if s.slot.closed then Free
      else if s.slot.sample.Some? && s.slot.sequence != Last(seen) then Pumping(seen + [s.slot.sequence])
      else Waiting(seen, s.slot.changed)
  {
    FourSteps(s, Go(t), Go(t), Go(t), Go(t));
    hide Exec, Unref;
  }

  /** Closing closes, empties the slot and wakes every waiting pump. */
  lemma CloseCloses(s: State, t: nat)
    requires t < |s.tasks| && s.tasks[t].Free?
    ensures var e := Next(s, StartClose(t));
      && e.slot.closed && (!s.slot.closed ==> e.slot.sample.None? && e.slot.changed > s.slot.changed)
      && e.tasks[t] == Closing(if s.slot.closed then None else s.slot.sample)
  {
  }

  /** A pump starts having seen nothing. */
  lemma PumpStarts(s: State, t: nat)
    requires t < |s.tasks|
    ensures Next(s, StartPump(t)).tasks[t] == if s.tasks[t].Free? then Pumping([]) else s.tasks[t]
    ensures Next(s, StartPump(t)).slot == s.slot
  {
  }
}
