/** Publishing a selection to every subscriber's one-place channel while holding the controller's mutex
    (clipboard/controller.go). Subscribers receive at any moment, also between two channel operations of the publisher. */
module ClipboardPublisher {
  import opened Options
  import opened ClipboardFraming
  import opened ClipboardContent

  type Content = seq<Format>

  datatype Channel = Channel(slot: Option<Content>, open: bool, received: seq<Content>)

  /** The channel operation the publisher performs next. */
  datatype Operation = Offer | Drain | Force

  /** The mutex is held exactly while something is being published. */
  datatype Work = Free | Sending(content: Content, left: seq<nat>, operation: Operation)

  datatype Publisher = Publisher(
    channels: map<nat, Channel>, subscribers: set<nat>, latest: Option<Content>, nextID: nat, work: Work)

  const Initial := Publisher(map[], {}, None, 0, Free)

  datatype Step =
    | Subscribe
    | Unsubscribe(id: nat)
    | Forget                                      // attaching or losing the backend
    | PeerSets(header: ContentHeader, content: Content)
    | Publish(offered: seq<string>, found: seq<Option<seq<Byte>>>, order: seq<nat>)  // any order of the subscriber map
    | Go
    | Receive(id: nat)

  function SetSlot(p: Publisher, id: nat, slot: Option<Content>): Publisher
    requires id in p.channels
  {
    p.(channels := p.channels[id := p.channels[id].(slot := slot)])
  }

  /** A send on a full channel would block; the model then stays put. */
  function SendNext(p: Publisher): Publisher
    requires p.work.Sending? && p.work.left != [] && p.work.left[0] in p.channels
  {
    var Sending(content, left, operation) := p.work;
    var id := left[0];
    match operation
    case Offer =>
      if p.channels[id].slot.None? then SetSlot(p, id, Some(content)).(work := Sending(content, left[1..], Offer))
      else p.(work := Sending(content, left, Drain))
    case Drain => SetSlot(p, id, None).(work := Sending(content, left, Force))
    case Force =>
      if p.channels[id].slot.None? then SetSlot(p, id, Some(content)).(work := Sending(content, left[1..], Offer))
      else p
  }

  ghost predicate Lists(order: seq<nat>, ids: set<nat>) {
    && (forall i | 0 <= i < |order| :: order[i] in ids)
    && (forall id | id in ids :: id in order)
    && (forall i, j | 0 <= i < j < |order| :: order[i] != order[j])
  }

  /** `fold` is the case folding of the MIME types. A peer's content arrives under a header that passed the check, with the
      sizes it declared; a selection without a usable format is not published. */
  ghost function Next(p: Publisher, step: Step, fold: string -> string): Publisher {
    match step
    case Subscribe =>
      if p.work.Sending? then p
      else p.(nextID := p.nextID + 1, subscribers := p.subscribers + {p.nextID + 1},
              channels := p.channels[p.nextID + 1 := Channel(p.latest, true, [])])
    case Unsubscribe(id) =>
      if p.work.Sending? || id !in p.subscribers || id !in p.channels then p
      else p.(subscribers := p.subscribers - {id}, channels := p.channels[id := p.channels[id].(open := false)])
    case Forget => if p.work.Sending? then p else p.(latest := None)
    case PeerSets(header, content) =>
      if p.work.Sending? || !Acceptable(header) || Headers(content) != header.formats then p
      else p.(latest := Some(content))
    case Publish(offered, found, order) =>
      if p.work.Sending? || !Lists(order, p.subscribers) || |offered| != |found| then p
      else
        var content := Collected(offered, found, fold);
        if content == [] then p else p.(latest := Some(content), work := Sending(content, order, Offer))
    case Go =>
      if p.work.Free? then p
      else if p.work.left == [] then p.(work := Free)
      else if p.work.left[0] in p.channels then SendNext(p)
      else p
    case Receive(id) =>
      if id in p.channels && p.channels[id].slot.Some? then
        var c := p.channels[id];
        p.(channels := p.channels[id := c.(slot := None, received := c.received + [c.slot.value])])
      else p
  }

  ghost function Exec(p: Publisher, steps: seq<Step>, fold: string -> string): Publisher {
    if steps == [] then p else Next(Exec(p, steps[..|steps| - 1], fold), steps[|steps| - 1], fold)
  }

  /** The channel holds the content, or its subscriber took it last. */
  ghost predicate Got(c: Channel, content: Content) {
    c.slot == Some(content) || (c.slot.None? && c.received != [] && c.received[|c.received| - 1] == content)
  }

  ghost predicate Invariant(p: Publisher) {
    && (forall id | id in p.channels :: id <= p.nextID)
    && (forall id | id in p.subscribers :: id in p.channels && p.channels[id].open)
    && (p.work.Sending? ==>
          && (forall i | 0 <= i < |p.work.left| :: p.work.left[i] in p.subscribers)
          && (forall i, j | 0 <= i < j < |p.work.left| :: p.work.left[i] != p.work.left[j])
          && (forall id | id in p.subscribers && id !in p.work.left :: Got(p.channels[id], p.work.content))
          && (p.work.operation.Force? ==> p.work.left != [] && p.channels[p.work.left[0]].slot.None?))
  }

  lemma SendKeeps(p: Publisher)
    requires Invariant(p) && p.work.Sending? && p.work.left != []
    ensures p.work.left[0] in p.channels && Invariant(SendNext(p))
  {
  }

  lemma StepKeeps(p: Publisher, step: Step, fold: string -> string)
    requires Invariant(p)
    ensures Invariant(Next(p, step, fold))
  {
    hide Collected, Acceptable, Headers;
    match step
    case Go => if p.work.Sending? && p.work.left != [] { SendKeeps(p); }
    case _ =>
  }

  lemma {:induction false} RunsKeep(steps: seq<Step>, fold: string -> string)
    ensures Invariant(Exec(Initial, steps, fold))
  {
    if steps != [] {
      RunsKeep(steps[..|steps| - 1], fold);
      StepKeeps(Exec(Initial, steps[..|steps| - 1], fold), steps[|steps| - 1], fold);
      hide Next, Invariant;
    }
  }

  /** In every run the publisher only sends on open channels and its unconditional send finds the channel empty, so it
      never blocks and never panics; and when it has served everyone, each subscriber holds the content or has taken it. */
  lemma PublisherNeverBlocks(steps: seq<Step>, fold: string -> string)
    ensures var p := Exec(Initial, steps, fold);
      p.work.Sending? ==>
        if p.work.left == [] then forall id | id in p.subscribers :: id in p.channels && Got(p.channels[id], p.work.content)
        else
          var id := p.work.left[0];
          id in p.channels && p.channels[id].open && (p.work.operation.Force? ==> p.channels[id].slot.None?)
  {
    RunsKeep(steps, fold);
  }

  // ---- what the channels carry

  /** Content that passes the wire header check under any identifier. */
  ghost predicate Sendable(content: Content) {
    1 <= |content| <= MAX_FORMATS && Passes(Headers(content), |content|)
  }

  ghost predicate SlotSendable(slot: Option<Content>) {
    slot.Some? ==> Sendable(slot.value)
  }

  ghost predicate ChannelSendable(c: Channel) {
    SlotSendable(c.slot) && forall i | 0 <= i < |c.received| :: Sendable(c.received[i])
  }

  ghost predicate CarriesSendable(p: Publisher) {
    && SlotSendable(p.latest)
    && (p.work.Sending? ==> Sendable(p.work.content))
    && forall id | id in p.channels :: ChannelSendable(p.channels[id])
  }

  lemma StepCarries(p: Publisher, step: Step, fold: string -> string)
    requires CarriesSendable(p)
    ensures CarriesSendable(Next(p, step, fold))
  {
    match step
    case Publish(offered, found, order) =>
      if |offered| == |found| { PublishedIsAcceptable(offered, found, fold, "x"); }
      hide Collected, Passes, Headers;
    case PeerSets(header, content) => hide Passes;
    case Go =>
      if p.work.Sending? && p.work.left != [] && p.work.left[0] in p.channels { SendCarries(p); }
      hide Sendable, SendNext;
    case _ => hide Sendable, Collected;
  }

  lemma SendCarries(p: Publisher)
    requires CarriesSendable(p) && p.work.Sending? && p.work.left != [] && p.work.left[0] in p.channels
    ensures CarriesSendable(SendNext(p))
  {
    hide Sendable;
  }

  /** Whatever the desktop selects and the peers set, in every run all content held for a subscriber or handed to one
      passes the wire header check. */
  lemma {:induction false} ChannelsCarryAcceptable(steps: seq<Step>, fold: string -> string, id: string)
    requires 1 <= |id| <= 128
    ensures var p := Exec(Initial, steps, fold);
      && CarriesSendable(p)
      && forall c | c in p.channels && p.channels[c].slot.Some? ::
           Acceptable(ContentHeader(1, "clipboard.content", id, Headers(p.channels[c].slot.value)))
  {
    if steps != [] {
      ChannelsCarryAcceptable(steps[..|steps| - 1], fold, id);
      StepCarries(Exec(Initial, steps[..|steps| - 1], fold), steps[|steps| - 1], fold);
      hide Next;
    }
  }

  // ---- what the publisher achieves

  lemma {:induction false} ServeAll(p: Publisher, fold: string -> string) returns (steps: seq<Step>)
    requires Invariant(p) && p.work.Sending? && p.work.operation.Offer?
    ensures var q := Exec(p, steps, fold);
      && q.work.Sending? && q.work.left == [] && q.work.content == p.work.content && q.latest == p.latest
      && q.subscribers == p.subscribers && Invariant(q)
    ensures forall i | 0 <= i < |steps| :: steps[i].Go?
    decreases |p.work.left|
  {
    if p.work.left == [] {
      steps := [];
    } else {
      var q := ServeOne(p, fold);
      hide Invariant, Next;
      var rest := ServeAll(q.1, fold);
      ExecAppends(p, q.0, rest, fold);
      steps := q.0 + rest;
    }
  }

  /** One subscriber is served by one send, or by draining and sending. */
  lemma ServeOne(p: Publisher, fold: string -> string) returns (r: (seq<Step>, Publisher))
    requires Invariant(p) && p.work.Sending? && p.work.operation.Offer? && p.work.left != []
    ensures r.1 == Exec(p, r.0, fold) && Invariant(r.1) && forall i | 0 <= i < |r.0| :: r.0[i].Go?
    ensures var q := r.1;
      && q.work == Sending(p.work.content, p.work.left[1..], Offer)
      && q.latest == p.latest && q.subscribers == p.subscribers
  {
    SendKeeps(p);
    var a := Next(p, Go, fold);
    GoRuns(p, fold);
    if p.channels[p.work.left[0]].slot.None? {
      r := ([Go], a);
    } else {
      assert a.work == Sending(p.work.content, p.work.left, Drain);
      SendKeeps(a);
      var b := Next(a, Go, fold);
      SendKeeps(b);
      var c := Next(b, Go, fold);
      r := ([Go, Go, Go], c);
    }
    hide Invariant;
  }

  lemma GoRuns(p: Publisher, fold: string -> string)
    ensures Exec(p, [Go], fold) == Next(p, Go, fold)
    ensures Exec(p, [Go, Go, Go], fold) == Next(Next(Next(p, Go, fold), Go, fold), Go, fold)
  {
    hide Next;
    assert [Go, Go, Go][..2] == [Go, Go] && [Go, Go][..1] == [Go] && [Go][..0] == [];
    assert Exec(p, [], fold) == p;
    assert Exec(p, [Go, Go], fold) == Next(Exec(p, [Go], fold), Go, fold);
  }

  lemma {:induction false} ExecAppends(p: Publisher, a: seq<Step>, b: seq<Step>, fold: string -> string)
    ensures Exec(p, a + b, fold) == Exec(Exec(p, a, fold), b, fold)
    decreases |b|
  {
    if b == [] {
      assert a + b == a;
    } else {
      var rest := b[..|b| - 1];
      assert (a + b)[..|a + b| - 1] == a + rest && (a + b)[|a + b| - 1] == b[|b| - 1];
      ExecAppends(p, a, rest, fold);
      hide Next;
    }
  }

  /** From every reachable state in which nothing is being published, a selection with a usable format is published: the
      publisher's own steps, whatever the subscribers do or fail to do, bring it to every subscriber. */
  lemma PublishReachesEveryone(
    p: Publisher, offered: seq<string>, found: seq<Option<seq<Byte>>>, order: seq<nat>, fold: string -> string)
    returns (steps: seq<Step>)
    requires Invariant(p) && p.work.Free? && Lists(order, p.subscribers) && |offered| == |found|
    requires Collected(offered, found, fold) != []
    ensures var content := Collected(offered, found, fold);
      var q := Exec(Next(p, Publish(offered, found, order), fold), steps, fold);
      && q.latest == Some(content) && q.subscribers == p.subscribers && q.work.Sending? && q.work.left == []
      && (forall id | id in q.subscribers :: id in q.channels && Got(q.channels[id], content))
      && Next(q, Go, fold) == q.(work := Free)
    ensures forall i | 0 <= i < |steps| :: steps[i].Go?
  {
    StepKeeps(p, Publish(offered, found, order), fold);
    var q := Next(p, Publish(offered, found, order), fold);
    hide Collected, Exec;
    steps := ServeAll(q, fold);
  }

  /** A new subscriber starts with the latest content on an open channel of its own, and keeps the others' as they are; one
      that leaves finds its channel closed. */
  lemma SubscribersGetLatest(p: Publisher, fold: string -> string, id: nat)
    requires Invariant(p) && p.work.Free?
    ensures var q := Next(p, Subscribe, fold);
      && p.nextID + 1 !in p.channels && q.subscribers == p.subscribers + {p.nextID + 1}
      && q.channels == p.channels[p.nextID + 1 := Channel(p.latest, true, [])]
    ensures id in p.subscribers ==>
      var q := Next(p, Unsubscribe(id), fold);
      id !in q.subscribers && q.channels == p.channels[id := p.channels[id].(open := false)]
    ensures Next(p, Forget, fold).latest.None?
  {
  }

  /** What a peer sets becomes the latest content if and only if its header passes and declares it, while nothing is published. */
  lemma PeerSetsLatest(p: Publisher, header: ContentHeader, content: Content, fold: string -> string)
    ensures var q := Next(p, PeerSets(header, content), fold);
      if p.work.Free? && Acceptable(header) && Headers(content) == header.formats then q == p.(latest := Some(content)) else q == p
  {
    hide Acceptable, Headers;
  }

  /** A receive takes what the channel holds, at any moment; forgetting waits for the publisher. */
  lemma ReceiveTakes(p: Publisher, id: nat, fold: string -> string)
    ensures var q := Next(p, Receive(id), fold);
      if id in p.channels && p.channels[id].slot.Some? then
        q.channels[id].slot.None? && q.channels[id].received == p.channels[id].received + [p.channels[id].slot.value]
        && q == p.(channels := p.channels[id := q.channels[id]])
      else q == p
    ensures p.work.Sending? ==>
      Next(p, Forget, fold) == p && Next(p, Subscribe, fold) == p && Next(p, Unsubscribe(id), fold) == p
  {
  }
}
