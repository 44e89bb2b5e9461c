/** A clipboard header is handled in two locked sections, with the buffers made in between (webrtc/clipboard.go): the first
    reserves the channel, the second starts the transfer unless the reservation was lost. Chunks, timers, other headers and
    the replacement of the channel interleave freely. */
module ClipboardReservation {
  import opened ClipboardFraming

  /** A header between its two sections, with the generation its reservation got. */
  datatype Claim = Claim(sizes: seq<nat>, generation: nat)

  /** `link` is the receive state of one channel, `current` whether the channel is still the peer's, and `heard` the
      messages that took effect, each at one moment. */
  datatype Channel = Channel(
    link: Link, reserved: bool, generation: nat, current: bool, claims: map<nat, Claim>,
    heard: seq<Message>, delivered: seq<Outcome>)

  const Opened := Channel(Idle(0), false, 0, true, map[], [], [])

  datatype Step =
    | Claims(id: nat, sizes: seq<nat>, owned: bool)   // first section; whether the peer owns the input lease
    | Settles(id: nat)                                // second section
    | Chunk(chunk: seq<Byte>)
    | Fires(transfer: nat, activity: nat)
    | Detach                                          // replaced or closed: no longer the peer's channel
    | Clear                                           // and then emptied

  function Hear(c: Channel, m: Message): Channel {
    var (link, o) := Handle(c.link, m);
    c.(link := link, heard := c.heard + [m], delivered := if o.Delivered? then c.delivered + [o] else c.delivered)
  }

  /** The first section refuses a header from a peer without the lease, and one that finds the channel taken. */
  predicate Refuses(c: Channel, owned: bool) {
    !c.current || !owned || c.link.Receiving? || c.reserved
  }

  /** The second section finds the reservation of the first still in force. */
  predicate Holds(c: Channel, id: nat) {
    id in c.claims && c.current && c.claims[id].generation == c.generation
  }

  function Next(c: Channel, step: Step): Channel {
    match step
    case Claims(id, sizes, owned) =>
      if Refuses(c, owned) || id in c.claims then c
      else c.(reserved := true, generation := c.generation + 1, claims := c.claims[id := Claim(sizes, c.generation + 1)])
    case Settles(id) =>
      if id !in c.claims then c
      else
        var d := c.(claims := c.claims - {id},
                    reserved := c.reserved && c.claims[id].generation != c.generation);
        if Holds(c, id) then Hear(d, Header(c.claims[id].sizes)) else d
    case Chunk(chunk) =>
      if !c.current then c
      else if |chunk| > MAX_CHUNK then Hear(c.(reserved := false, generation := c.generation + 1), Binary(chunk))
      else Hear(c, Binary(chunk))
    case Fires(transfer, activity) => if c.current then Hear(c, Timer(transfer, activity)) else c
    case Detach => c.(current := false)
    case Clear => if c.current then c else c.(link := Idle(c.link.begun), reserved := false)
  }

  function Exec(steps: seq<Step>): Channel {
    if steps == [] then Opened else Next(Exec(steps[..|steps| - 1]), steps[|steps| - 1])
  }

  /** The channel is what the messages heard make of it when each is handled at one moment. */
  ghost predicate Refines(c: Channel) {
    && c.delivered == Deliveries(Idle(0), c.heard).1
    && (c.current ==> c.link == Deliveries(Idle(0), c.heard).0)
  }

  /** Claims have numbers of their own; the one in force reserves the channel, and nothing is received meanwhile. */
  ghost predicate Exclusive(c: Channel) {
    && (forall id | id in c.claims :: c.claims[id].generation <= c.generation)
    && (forall a, b | a in c.claims && b in c.claims && a != b :: c.claims[a].generation != c.claims[b].generation)
    && (forall id | id in c.claims :: c.current && c.claims[id].generation == c.generation ==> c.reserved)
    && (c.reserved ==> c.link.Idle?)
  }

  lemma HearRefines(c: Channel, m: Message)
    requires Refines(c) && c.current
    ensures Refines(Hear(c, m)) && Hear(c, m).current
  {
    DeliverySnoc(Idle(0), c.heard, m);
    hide Deliveries, Handle;
  }

  lemma StepRefines(c: Channel, step: Step)
    requires Refines(c)
    ensures Refines(Next(c, step))
  {
    hide Hear;
    match step
    case Settles(id) =>
      if Holds(c, id) {
        var d := c.(claims := c.claims - {id}, reserved := c.reserved && c.claims[id].generation != c.generation);
        HearRefines(d, Header(c.claims[id].sizes));
        hide Refines;
      }
    case Chunk(chunk) =>
      if c.current {
        HearRefines(c.(reserved := false, generation := c.generation + 1), Binary(chunk));
        HearRefines(c, Binary(chunk));
        hide Refines;
      }
    case Fires(transfer, activity) =>
      if c.current {
        HearRefines(c, Timer(transfer, activity));
        hide Refines;
      }
    case _ =>
  }

  /** Chunks and timers begin no transfer, so a reserved channel stays idle. */
  lemma IdleStays(l: Link, m: Message)
    requires l.Idle? && !m.Header?
    ensures Handle(l, m).0.Idle? && !Handle(l, m).1.Delivered?
  {
  }

  lemma StepExcludes(c: Channel, step: Step)
    requires Exclusive(c)
    ensures Exclusive(Next(c, step))
  {
    hide Handle;
    match step
    case Chunk(chunk) => if c.link.Idle? { IdleStays(c.link, Binary(chunk)); }
    case Fires(transfer, activity) => if c.link.Idle? { IdleStays(c.link, Timer(transfer, activity)); }
    case Settles(id) =>
      var d := Next(c, step);
      forall x | x in d.claims ensures d.current && d.claims[x].generation == d.generation ==> d.reserved {
        assert x in c.claims && c.claims[x] == d.claims[x];
      }
    case _ =>
  }

  /** In every interleaving the channel behaves as if each header that took effect had been handled at one moment: link and
      deliveries are those of the messages heard; and at most one header at a time can take effect, on a channel that is
      idle, so none is found busy at its second section. */
  lemma {:induction false} SectionsActAsOne(steps: seq<Step>)
    ensures Refines(Exec(steps)) && Exclusive(Exec(steps))
    ensures forall id | Holds(Exec(steps), id) :: Handle(Exec(steps).link, Header(Exec(steps).claims[id].sizes)).1 != Busy
    ensures forall a, b | Holds(Exec(steps), a) && Holds(Exec(steps), b) :: a == b
  {
    if steps != [] {
      SectionsActAsOne(steps[..|steps| - 1]);
      StepRefines(Exec(steps[..|steps| - 1]), steps[|steps| - 1]);
      StepExcludes(Exec(steps[..|steps| - 1]), steps[|steps| - 1]);
      hide Next, Refines;
    }
  }

  /** A reservation in force is lost by a step other than its own second section if and only if the channel is detached or a
      chunk beyond the size limit arrives. */
  lemma ReservationIsLostExactly(c: Channel, step: Step, id: nat)
    requires Exclusive(c) && Holds(c, id) && step != Settles(id)
    ensures Holds(Next(c, step), id) <==> !(step.Detach? || (step.Chunk? && |step.chunk| > MAX_CHUNK))
  {
    hide Handle;
  }

  /** A header that is not refused takes effect at its second section, if nothing comes between; a refused one has no effect. */
  lemma HeaderTakesEffect(c: Channel, id: nat, sizes: seq<nat>, owned: bool)
    requires Exclusive(c) && id !in c.claims
    ensures if !(c.current && owned && c.link.Idle? && !c.reserved) then Next(c, Claims(id, sizes, owned)) == c
      else
        var d := Next(Next(c, Claims(id, sizes, owned)), Settles(id));
        && Holds(Next(c, Claims(id, sizes, owned)), id)
        && d.link == Handle(c.link, Header(sizes)).0 && d.heard == c.heard + [Header(sizes)]
        && !d.reserved && d.claims == c.claims && d.current
  {
    hide Handle;
    assert c.claims[id := Claim(sizes, c.generation + 1)] - {id} == c.claims;
  }

  /** Chunks and timers of the current channel are heard, a detached channel hears nothing and ends empty. */
  lemma CurrentChannelHears(c: Channel, chunk: seq<Byte>, transfer: nat, activity: nat)
    ensures c.current ==>
      && Next(c, Chunk(chunk)).heard == c.heard + [Binary(chunk)]
      && Next(c, Chunk(chunk)).link == Handle(c.link, Binary(chunk)).0
      && Next(c, Fires(transfer, activity)).link == Handle(c.link, Timer(transfer, activity)).0
      && (|chunk| > MAX_CHUNK ==> !Next(c, Chunk(chunk)).reserved)
    ensures !c.current ==> Next(c, Chunk(chunk)) == c && Next(c, Clear).link.Idle? && !Next(c, Clear).reserved
    ensures !Next(c, Detach).current
  {
    hide Handle;
  }
}
