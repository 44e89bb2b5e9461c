/** The bounded audio mailbox of one peer (webrtc/media_transport.go): one producer, one consumer, one wake token. */
module AudioMailbox {

  const CAPACITY: nat := 4

  /** Put: a full mailbox loses its oldest entry. */
  function Put<T>(queue: seq<T>, sample: T): seq<T> {
    (if |queue| == CAPACITY then queue[1..] else queue) + [sample]
  }

  class Mailbox<T> {
    var queue: seq<T>
    var wake: bool

    constructor ()
      ensures queue == [] && !wake
    {
      queue, wake := [], false;
    }

    method PutSample(sample: T) returns (dropped: nat)
      requires |queue| <= CAPACITY
      modifies this
      ensures queue == Put(old(queue), sample) && wake && |queue| <= CAPACITY
      ensures dropped == if |old(queue)| == CAPACITY then 1 else 0
    {
      dropped := 0;
      if |queue| == CAPACITY {
        queue := queue[1..] + [sample];
        dropped := 1;
      } else {
        queue := queue + [sample];
      }
      wake := true;
    }

    /** The consumer, having received the token, takes the oldest entry and passes the token on if more is left. */
    method TakeSample() returns (found: seq<T>)
      modifies this
      ensures found == (if old(queue) == [] then [] else [old(queue)[0]]) && old(queue) == found + queue
      ensures wake == (old(wake) || |old(queue)| > 1)
    {
      found := [];
      if |queue| > 0 {
        found, queue := [queue[0]], queue[1..];
        if |queue| > 0 { wake := true; }
      }
    }
  }

  // ---- runs

  /** The consumer waits for the token, or holds it and is about to look. */
  datatype Consumer = Waiting | Awake

  /** Every sample is known by its position among the puts. `taken` lists what the consumer got, `lost` what was dropped. */
  datatype State = State(queue: seq<nat>, puts: nat, wake: bool, consumer: Consumer, taken: seq<nat>, lost: seq<nat>)

  const Initial := State([], 0, false, Waiting, [], [])

  datatype Step = PutNext | ReceiveToken | Look

  function Next(s: State, step: Step): State {
    match step
    case PutNext =>
      s.(queue := Put(s.queue, s.puts), puts := s.puts + 1, wake := true,
         lost := if |s.queue| == CAPACITY then s.lost + [s.queue[0]] else s.lost)
    case ReceiveToken =>
      if s.wake && s.consumer.Waiting? then s.(wake := false, consumer := Awake) else s
    case Look =>
      if s.consumer.Waiting? then s
      else if s.queue == [] then s.(consumer := Waiting)
      else s.(queue := s.queue[1..], taken := s.taken + [s.queue[0]], consumer := Waiting, wake := s.wake || |s.queue| > 1)
  }

  function Exec(s: State, steps: seq<Step>): State {
    if steps == [] then s else Next(Exec(s, steps[..|steps| - 1]), steps[|steps| - 1])
  }

  ghost predicate AscendingBelow(s: seq<nat>, n: nat) {
    (forall i, j | 0 <= i < j < |s| :: s[i] < s[j]) && (forall i | 0 <= i < |s| :: s[i] < n)
  }

  /** The mailbox holds the newest puts; everything older was taken or lost, once, in order. */
  ghost predicate Invariant(s: State) {
    && |s.queue| <= CAPACITY && |s.queue| <= s.puts
    && (forall i | 0 <= i < |s.queue| :: s.queue[i] == s.puts - |s.queue| + i)
    && AscendingBelow(s.taken, s.puts - |s.queue|) && AscendingBelow(s.lost, s.puts - |s.queue|)
    && |s.taken| + |s.lost| + |s.queue| == s.puts
    && (forall i, j | 0 <= i < |s.taken| && 0 <= j < |s.lost| :: s.taken[i] != s.lost[j])
    && (s.queue != [] ==> s.wake || s.consumer.Awake?)
  }

  lemma AppendAscending(s: seq<nat>, n: nat)
    requires AscendingBelow(s, n)
    ensures AscendingBelow(s + [n], n + 1) && AscendingBelow(s, n + 1)
  {
  }

  lemma PutKeeps(s: State)
    requires Invariant(s)
    ensures Invariant(Next(s, PutNext))
  {
    AppendAscending(s.taken, s.puts - |s.queue|);
    AppendAscending(s.lost, s.puts - |s.queue|);
    hide AscendingBelow;
    var t := Next(s, PutNext);
    forall i, j | 0 <= i < |t.taken| && 0 <= j < |t.lost| ensures t.taken[i] != t.lost[j] {
      TakenIsOlder(s, i);
    }
  }

  lemma TakenIsOlder(s: State, i: nat)
    requires Invariant(s)
    ensures i < |s.taken| ==> s.taken[i] < s.puts - |s.queue|
    ensures i < |s.lost| ==> s.lost[i] < s.puts - |s.queue|
  {
  }

  lemma LookKeeps(s: State)
    requires Invariant(s)
    ensures Invariant(Next(s, Look))
  {
  }

  lemma StepKeeps(s: State, step: Step)
    requires Invariant(s)
    ensures Invariant(Next(s, step))
  {
    match step
    case PutNext => PutKeeps(s);
    case ReceiveToken =>
    case Look => LookKeeps(s);
  }

  /** In every run the mailbox holds at most four samples, the newest ones; what the consumer gets is an
      order-preserving subsequence of the puts that misses only entries dropped as the oldest; and held samples always
      have a wake token or an awake consumer. */
  lemma {:induction false} RunsKeep(steps: seq<Step>)
    ensures Invariant(Exec(Initial, steps))
  {
    if steps != [] {
      RunsKeep(steps[..|steps| - 1]);
      StepKeeps(Exec(Initial, steps[..|steps| - 1]), steps[|steps| - 1]);
    }
  }

  /** A put keeps the newest four. */
  lemma PutKeepsNewest(queue: seq<nat>, sample: nat)
    requires |queue| <= CAPACITY
    ensures var all := queue + [sample];
      Put(queue, sample) == if |all| <= CAPACITY then all else all[|all| - CAPACITY..]
  {
  }

  /** An awake consumer takes the oldest entry, and one with nothing to take waits for the token. */
  lemma LookTakesOldest(s: State)
    requires s.consumer.Awake?
    ensures var t := Next(s, Look);
      if s.queue == [] then t == s.(consumer := Waiting)
      else t.taken == s.taken + [s.queue[0]] && t.queue == s.queue[1..] && t.lost == s.lost && t.puts == s.puts
    ensures Next(s.(consumer := Waiting, wake := true), ReceiveToken) == s.(wake := false)
  {
  }

  /** A consumer waits until the token comes, and one that waits looks at nothing. */
  lemma ConsumerWaits(s: State)
    ensures Next(s, ReceiveToken) == if s.wake && s.consumer.Waiting? then s.(wake := false, consumer := Awake) else s
    ensures s.consumer.Waiting? ==> Next(s, Look) == s
    ensures s.consumer.Awake? && s.queue != [] ==>
      Next(s, Look).consumer == Waiting && Next(s, Look).wake == (s.wake || |s.queue| >= 2)
  {
  }
}
