/** Length-declared clipboard framing (webrtc/clipboard.go, web/src/lib/desktop-connection.ts): a header declares the
    size of each format, and the payload follows in chunks cut anywhere. */
module ClipboardFraming {

  type Byte = x: int | 0 <= x < 256

  const MAX_CHUNK: nat := 64 * 1024

  function Sizes(data: seq<seq<Byte>>): seq<nat> {
    seq(|data|, i requires 0 <= i < |data| => |data[i]|)
  }

  function Total(sizes: seq<nat>): nat {
    if sizes == [] then 0 else Total(sizes[..|sizes| - 1]) + sizes[|sizes| - 1]
  }

  function Flatten(data: seq<seq<Byte>>): seq<Byte> {
    if data == [] then [] else Flatten(data[..|data| - 1]) + data[|data| - 1]
  }

  // ---- flattening

  lemma {:induction false} FlattenLength(data: seq<seq<Byte>>)
    ensures |Flatten(data)| == Total(Sizes(data))
  {
    if data != [] {
      FlattenLength(data[..|data| - 1]);
      assert Sizes(data)[..|data| - 1] == Sizes(data[..|data| - 1]);
    }
  }

  lemma {:induction false} TotalGrows(sizes: seq<nat>, n: nat)
    requires n <= |sizes|
    ensures Total(sizes[..n]) <= Total(sizes)
  {
    if n < |sizes| {
      var front := sizes[..|sizes| - 1];
      TotalGrows(front, n);
      assert front[..n] == sizes[..n];
    } else {
      assert sizes[..n] == sizes;
    }
  }

  /** The declared sizes determine how a flat payload splits into formats. */
  lemma {:induction false} FlattenInjective(a: seq<seq<Byte>>, b: seq<seq<Byte>>)
    requires Sizes(a) == Sizes(b) && Flatten(a) == Flatten(b)
    ensures a == b
  {
    assert |a| == |Sizes(a)| == |b|;
    if a != [] {
      var m := |a| - 1;
      var a', b' := a[..m], b[..m];
      assert Sizes(a)[m] == |a[m]| && Sizes(b)[m] == |b[m]|;
      assert Sizes(a') == Sizes(a)[..m] && Sizes(b') == Sizes(b)[..m];
      FlattenLength(a');
      FlattenLength(b');
      assert Flatten(a) == Flatten(a') + a[m] && Flatten(b) == Flatten(b') + b[m];
      assert Flatten(a') == Flatten(a)[..|Flatten(a')|] == Flatten(b');
      assert a[m] == Flatten(a)[|Flatten(a')|..] == b[m];
      FlattenInjective(a', b');
      assert a == a' + [a[m]] && b == b' + [b[m]];
    }
  }

  // ---- the link as a function of what has arrived

  /** A transfer collects bytes until the declared total. `begun` counts the transfers so far, so it tells one transfer
      from another, and `activity` numbers the timers one transfer has armed. */
  datatype Link = Idle(begun: nat) | Receiving(sizes: seq<nat>, bytes: seq<Byte>, begun: nat, activity: nat)

  datatype Message = Header(sizes: seq<nat>) | Binary(chunk: seq<Byte>) | Timer(transfer: nat, activity: nat)

  datatype Outcome = Quiet | Delivered(sizes: seq<nat>, payload: seq<Byte>) | Busy | Unexpected | Excess | TooLarge | TimedOut

  function Handle(l: Link, m: Message): (Link, Outcome) {
    match m
    case Header(sizes) =>
      if l.Receiving? then (l, Busy)
      else if Total(sizes) == 0 then (l, Delivered(sizes, []))
      else (Receiving(sizes, [], l.begun + 1, 1), Quiet)
    case Binary(chunk) =>
      if |chunk| > MAX_CHUNK then (Idle(l.begun), TooLarge)
      else if l.Idle? then (l, Unexpected)
      else if |l.bytes| + |chunk| > Total(l.sizes) then (Idle(l.begun), Excess)
      else if |l.bytes| + |chunk| == Total(l.sizes) then (Idle(l.begun), Delivered(l.sizes, l.bytes + chunk))
      else (l.(bytes := l.bytes + chunk, activity := l.activity + 1), Quiet)
    case Timer(transfer, activity) =>
      if l.Receiving? && l.begun == transfer && l.activity == activity then (Idle(l.begun), TimedOut) else (l, Quiet)
  }

  /** Everything a run of messages delivers, in order. */
  function Deliveries(l: Link, messages: seq<Message>): (Link, seq<Outcome>) {
    if messages == [] then (l, [])
    else
      var (before, out) := Deliveries(l, messages[..|messages| - 1]);
      var (after, o) := Handle(before, messages[|messages| - 1]);
      (after, if o.Delivered? then out + [o] else out)
  }

  function Chunked(chunks: seq<seq<Byte>>): seq<Message> {
    seq(|chunks|, i requires 0 <= i < |chunks| => Binary(chunks[i]))
  }

  lemma DeliverySnoc(l: Link, messages: seq<Message>, m: Message)
    ensures var (before, out) := Deliveries(l, messages);
      var (after, o) := Handle(before, m);
      Deliveries(l, messages + [m]) == (after, if o.Delivered? then out + [o] else out)
  {
  }

  lemma FlattenSnoc(chunks: seq<seq<Byte>>, chunk: seq<Byte>)
    ensures Flatten(chunks + [chunk]) == Flatten(chunks) + chunk
  {
  }

  lemma ChunkedSnoc(chunks: seq<seq<Byte>>, chunk: seq<Byte>)
    ensures Chunked(chunks + [chunk]) == Chunked(chunks) + [Binary(chunk)]
  {
  }

  /** Still collecting while bytes are missing; everything delivered, once, when the last byte is in. */
  ghost predicate Progress(sizes: seq<nat>, bytes: seq<Byte>, l: Link, out: seq<Outcome>) {
    if |bytes| == Total(sizes) then l.Idle? && out == [Delivered(sizes, bytes)]
    else out == [] && l.Receiving? && l.sizes == sizes && l.bytes == bytes
  }

  lemma OneChunk(sizes: seq<nat>, bytes: seq<Byte>, l: Link, out: seq<Outcome>, chunk: seq<Byte>)
    requires Progress(sizes, bytes, l, out) && |chunk| <= MAX_CHUNK && |bytes + chunk| <= Total(sizes)
    ensures var (after, o) := Handle(l, Binary(chunk));
      Progress(sizes, bytes + chunk, after, if o.Delivered? then out + [o] else out)
  {
    if |bytes| == Total(sizes) {
      assert bytes + chunk == bytes;
    }
  }

  /** A header and the chunks that follow it. */
  function Transfer(sizes: seq<nat>, chunks: seq<seq<Byte>>): seq<Message> {
    [Header(sizes)] + Chunked(chunks)
  }

  lemma TransferSnoc(sizes: seq<nat>, chunks: seq<seq<Byte>>, chunk: seq<Byte>)
    ensures Transfer(sizes, chunks + [chunk]) == Transfer(sizes, chunks) + [Binary(chunk)]
    ensures Transfer(sizes, []) == [] + [Header(sizes)]
  {
    ChunkedSnoc(chunks, chunk);
  }

  lemma {:induction false} AfterChunks(start: Link, sizes: seq<nat>, chunks: seq<seq<Byte>>)
    requires start.Idle?
    requires forall i | 0 <= i < |chunks| :: |chunks[i]| <= MAX_CHUNK
    requires |Flatten(chunks)| <= Total(sizes)
    ensures var (l, out) := Deliveries(start, Transfer(sizes, chunks));
      Progress(sizes, Flatten(chunks), l, out)
  {
    if chunks == [] {
      TransferSnoc(sizes, [], []);
      DeliverySnoc(start, [], Header(sizes));
    } else {
      hide *;
      var front, last := chunks[..|chunks| - 1], chunks[|chunks| - 1];
      assert chunks == front + [last];
      FlattenSnoc(front, last);
      TransferSnoc(sizes, front, last);
      AfterChunks(start, sizes, front);
      var (l, out) := Deliveries(start, Transfer(sizes, front));
      OneChunk(sizes, Flatten(front), l, out, last);
      DeliverySnoc(start, Transfer(sizes, front), Binary(last));
    }
  }

  /** For every content and every cut of its bytes into chunks, one payload is delivered, and splitting it by the declared
      sizes gives back exactly that content. */
  lemma RoundTrip(start: Link, data: seq<seq<Byte>>, chunks: seq<seq<Byte>>)
    requires start.Idle?
    requires Flatten(chunks) == Flatten(data) && forall i | 0 <= i < |chunks| :: |chunks[i]| <= MAX_CHUNK
    ensures var (l, out) := Deliveries(start, Transfer(Sizes(data), chunks));
      l.Idle? && out == [Delivered(Sizes(data), Flatten(data))]
    ensures forall received | Sizes(received) == Sizes(data) && Flatten(received) == Flatten(data) :: received == data
  {
    FlattenLength(data);
    AfterChunks(start, Sizes(data), chunks);
    forall received | Sizes(received) == Sizes(data) && Flatten(received) == Flatten(data) ensures received == data {
      FlattenInjective(received, data);
    }
  }

  /** A chunk that takes the payload past the declared total ends the transfer without delivering anything. */
  lemma ExcessIsRejected(start: Link, sizes: seq<nat>, chunks: seq<seq<Byte>>, chunk: seq<Byte>)
    requires start.Idle?
    requires forall i | 0 <= i < |chunks| :: |chunks[i]| <= MAX_CHUNK
    requires |Flatten(chunks)| < Total(sizes) < |Flatten(chunks)| + |chunk|
    ensures var (l, out) := Deliveries(start, Transfer(sizes, chunks + [chunk])); l.Idle? && out == []
  {
    AfterChunks(start, sizes, chunks);
    TransferSnoc(sizes, chunks, chunk);
    DeliverySnoc(start, Transfer(sizes, chunks), Binary(chunk));
    hide Transfer, Deliveries;
  }

  // ---- every run

  /** The chunks among the messages, joined. */
  ghost function Payload(messages: seq<Message>): seq<Byte> {
    if messages == [] then []
    else Payload(messages[..|messages| - 1]) +
         if messages[|messages| - 1].Binary? then messages[|messages| - 1].chunk else []
  }

  /** Some header declared these sizes, and the chunks since are exactly these bytes. */
  ghost predicate Framed(messages: seq<Message>, sizes: seq<nat>, bytes: seq<Byte>) {
    exists i | 0 <= i < |messages| :: messages[i] == Header(sizes) && Payload(messages[i + 1..]) == bytes
  }

  lemma FramedGrows(messages: seq<Message>, sizes: seq<nat>, bytes: seq<Byte>, m: Message)
    requires Framed(messages, sizes, bytes)
    ensures Framed(messages + [m], sizes, bytes + if m.Binary? then m.chunk else [])
  {
    var i :| 0 <= i < |messages| && messages[i] == Header(sizes) && Payload(messages[i + 1..]) == bytes;
    var all := messages + [m];
    assert all[i] == Header(sizes) && all[i + 1..] == messages[i + 1..] + [m];
    assert all[i + 1..][..|all[i + 1..]| - 1] == messages[i + 1..];
    assert Payload(all[i + 1..]) == bytes + if m.Binary? then m.chunk else [];
  }

  lemma FramedStarts(messages: seq<Message>, sizes: seq<nat>)
    ensures Framed(messages + [Header(sizes)], sizes, [])
  {
    var all := messages + [Header(sizes)];
    assert all[|messages|] == Header(sizes) && all[|messages| + 1..] == [];
  }

  /** A transfer under way holds exactly the chunks since its header, and fewer bytes than declared. */
  ghost predicate LinkFramed(messages: seq<Message>, l: Link) {
    l.Receiving? ==> Framed(messages, l.sizes, l.bytes) && |l.bytes| < Total(l.sizes)
  }

  /** A delivery holds exactly the chunks since its header, and as many bytes as declared. */
  ghost predicate OutcomeFramed(messages: seq<Message>, o: Outcome) {
    o.Delivered? ==> Framed(messages, o.sizes, o.payload) && |o.payload| == Total(o.sizes)
  }

  lemma HandleFrames(front: seq<Message>, l: Link, m: Message)
    requires LinkFramed(front, l)
    ensures LinkFramed(front + [m], Handle(l, m).0) && OutcomeFramed(front + [m], Handle(l, m).1)
  {
    if m.Header? { FramedStarts(front, m.sizes); }
    if l.Receiving? { FramedGrows(front, l.sizes, l.bytes, m); }
    hide Framed, Total;
  }

  /** Each outcome is a delivery framed by some prefix of the messages. */
  ghost predicate AllFramed(messages: seq<Message>, out: seq<Outcome>) {
    forall k | 0 <= k < |out| :: SomewhereFramed(messages, out[k])
  }

  ghost predicate SomewhereFramed(messages: seq<Message>, o: Outcome) {
    o.Delivered? && exists n | 0 <= n <= |messages| :: OutcomeFramed(messages[..n], o)
  }

  lemma FramedStay(front: seq<Message>, m: Message, out: seq<Outcome>)
    requires AllFramed(front, out)
    ensures AllFramed(front + [m], out)
  {
    hide OutcomeFramed;
    forall k | 0 <= k < |out| ensures SomewhereFramed(front + [m], out[k]) {
      assert SomewhereFramed(front, out[k]);
      var n :| 0 <= n <= |front| && OutcomeFramed(front[..n], out[k]);
      assert (front + [m])[..n] == front[..n];
    }
  }

  lemma OneMoreFramed(messages: seq<Message>, out: seq<Outcome>, o: Outcome)
    requires AllFramed(messages, out) && o.Delivered? && OutcomeFramed(messages, o)
    ensures AllFramed(messages, out + [o])
  {
    hide OutcomeFramed;
    assert messages[..|messages|] == messages;
    assert SomewhereFramed(messages, o);
  }

  /** After any messages at all, neither the transfer under way nor any delivery mixes in bytes of another transfer. */
  lemma {:induction false} NothingMixes(messages: seq<Message>)
    ensures var (l, out) := Deliveries(Idle(0), messages); LinkFramed(messages, l) && AllFramed(messages, out)
  {
    if messages != [] {
      var front, m := messages[..|messages| - 1], messages[|messages| - 1];
      NothingMixes(front);
      assert front + [m] == messages;
      var (l, out) := Deliveries(Idle(0), front);
      HandleFrames(front, l, m);
      FramedStay(front, m, out);
      hide LinkFramed, OutcomeFramed, AllFramed, Handle;
      var o := Handle(l, m).1;
      if o.Delivered? { OneMoreFramed(messages, out, o); }
    }
  }

  // ---- timers

  function After(messages: seq<Message>): Link {
    Deliveries(Idle(0), messages).0
  }

  /** The link waits for the timer with these numbers. */
  predicate Awaits(l: Link, transfer: nat, activity: nat) {
    l.Receiving? && l.begun == transfer && l.activity == activity
  }

  /** Message `j` is the one that armed the timer: the header of its transfer, or a chunk of it. */
  ghost predicate Arms(messages: seq<Message>, j: nat, transfer: nat, activity: nat) {
    && j < |messages| && (messages[j].Header? || messages[j].Binary?)
    && Awaits(After(messages[..j + 1]), transfer, activity) && !Awaits(After(messages[..j]), transfer, activity)
  }

  lemma AfterSnoc(messages: seq<Message>)
    requires messages != []
    ensures After(messages) == Handle(After(messages[..|messages| - 1]), messages[|messages| - 1]).0
  {
  }

  /** In every run a timer that ends a transfer was armed by a message of that very transfer, and no chunk and no change at
      all came since. */
  lemma {:induction false} TimersEndTheirOwnTransfer(messages: seq<Message>, transfer: nat, activity: nat) returns (j: nat)
    requires Handle(After(messages), Timer(transfer, activity)).1 == TimedOut
    ensures Arms(messages, j, transfer, activity) && After(messages[..j + 1]) == After(messages)
    ensures forall i | j < i < |messages| :: !messages[i].Binary?
  {
    assert messages != [] by { assert Deliveries(Idle(0), []) == (Idle(0), []); }
    var front := messages[..|messages| - 1];
    AfterSnoc(messages);
    assert messages[..|messages|] == messages;
    hide After;
    if Awaits(After(front), transfer, activity) {
      j := TimersEndTheirOwnTransfer(front, transfer, activity);
      assert front[..j + 1] == messages[..j + 1] && front[..j] == messages[..j];
    } else {
      j := |messages| - 1;
    }
  }

  /** What becomes of one message, outcome by outcome: a header is refused only during a transfer, which it leaves alone; a
      chunk only when it is too long, unexpected or too much; and a timer fires exactly when the link waits for it. */
  lemma OutcomesAreExact(l: Link, m: Message)
    ensures var (after, o) := Handle(l, m);
      && (o == Busy <==> m.Header? && l.Receiving?) && (o == TooLarge <==> m.Binary? && |m.chunk| > MAX_CHUNK)
      && (o == Unexpected <==> m.Binary? && |m.chunk| <= MAX_CHUNK && l.Idle?)
      && (o == Excess <==>
            m.Binary? && |m.chunk| <= MAX_CHUNK && l.Receiving? && Total(l.sizes) < |l.bytes| + |m.chunk|)
      && (o == TimedOut <==> m.Timer? && Awaits(l, m.transfer, m.activity))
      && (o == Busy || o == Unexpected ==> after == l) && (o == TooLarge || o == Excess || o == TimedOut ==> after.Idle?)
      && (m.Timer? && o != TimedOut ==> after == l && o == Quiet)
      && (m.Header? && l.Idle? && Total(m.sizes) > 0 ==>
            after.Receiving? && after.sizes == m.sizes && after.bytes == [] && after.begun > l.begun)
      && (m.Header? && l.Idle? && Total(m.sizes) == 0 ==> o == Delivered(m.sizes, []) && after == l)
      && (m.Binary? && o == Quiet ==> after.Receiving? && after.bytes == l.bytes + m.chunk && after.activity > l.activity)
  {
    hide Total;
  }

  /** The timer's moment has passed for good. */
  predicate Past(l: Link, transfer: nat, activity: nat) {
    l.begun > transfer || (l.begun == transfer && (l.Idle? || l.activity > activity))
  }

  lemma PastStays(l: Link, m: Message, transfer: nat, activity: nat)
    requires Past(l, transfer, activity) || Awaits(l, transfer, activity)
    ensures Past(Handle(l, m).0, transfer, activity) || Awaits(Handle(l, m).0, transfer, activity)
    ensures Past(l, transfer, activity) ==> Past(Handle(l, m).0, transfer, activity)
  {
  }

  lemma {:induction false} OncePast(messages: seq<Message>, i: nat, k: nat, transfer: nat, activity: nat)
    requires i <= k <= |messages| && Awaits(After(messages[..i]), transfer, activity)
    ensures Past(After(messages[..k]), transfer, activity) || Awaits(After(messages[..k]), transfer, activity)
  {
    if i < k {
      OncePast(messages, i, k - 1, transfer, activity);
      AfterSnoc(messages[..k]);
      assert messages[..k][..k - 1] == messages[..k - 1];
      hide After;
      PastStays(After(messages[..k - 1]), messages[k - 1], transfer, activity);
    }
  }

  /** And the numbers say which message that was: no two messages arm the same timer. */
  lemma TimersAreArmedOnce(messages: seq<Message>, i: nat, j: nat, transfer: nat, activity: nat)
    requires Arms(messages, i, transfer, activity) && Arms(messages, j, transfer, activity)
    ensures i == j
  {
    hide After;
    if i < j { OnlyOneArms(messages, i, j, transfer, activity); }
    if j < i { OnlyOneArms(messages, j, i, transfer, activity); }
  }

  lemma OnlyOneArms(messages: seq<Message>, i: nat, j: nat, transfer: nat, activity: nat)
    requires i < j < |messages| && Awaits(After(messages[..i + 1]), transfer, activity)
    requires !Awaits(After(messages[..j]), transfer, activity)
    ensures !Awaits(After(messages[..j + 1]), transfer, activity)
  {
    OncePast(messages, i + 1, j, transfer, activity);
    AfterSnoc(messages[..j + 1]);
    assert messages[..j + 1][..j] == messages[..j];
    hide After;
    PastStays(After(messages[..j]), messages[j], transfer, activity);
  }

  // ---- the receiver object

  predicate Fits(sizes: seq<nat>, buffers: seq<seq<Byte>>) {
    |buffers| == |sizes| && forall i | 0 <= i < |sizes| :: |buffers[i]| == sizes[i]
  }

  /** The bytes copied so far. */
  function Filled(buffers: seq<seq<Byte>>, index: nat, written: nat): seq<Byte>
    requires index <= |buffers| && (index < |buffers| ==> written <= |buffers[index]|)
  {
    Flatten(buffers[..index]) + if index < |buffers| then buffers[index][..written] else []
  }

  /** Overwriting the next bytes of the current format adds them to what is filled. */
  lemma FilledByCopy(buffers: seq<seq<Byte>>, index: nat, written: nat, piece: seq<Byte>)
    requires index < |buffers| && written + |piece| <= |buffers[index]|
    ensures var b := buffers[index];
      var after := buffers[index := b[..written] + piece + b[written + |piece|..]];
      && |after[index]| == |b| && Filled(after, index, written + |piece|) == Filled(buffers, index, written) + piece
      && (written + |piece| == |b| ==> Filled(after, index + 1, 0) == Filled(buffers, index, written) + piece)
  {
    var b := buffers[index];
    var after := buffers[index := b[..written] + piece + b[written + |piece|..]];
    assert after[..index] == buffers[..index];
    assert after[index][..written + |piece|] == b[..written] + piece;
    if written + |piece| == |b| {
      assert after[..index + 1] == after[..index] + [after[index]];
      FlattenSnoc(after[..index], after[index]);
      assert after[index][..|b|] == after[index];
    }
  }

  class Receiver {
    var receiving: bool
    var sizes: seq<nat>
    var buffers: seq<seq<Byte>>
    var index: nat
    var written: nat
    var begun: nat
    var activity: nat

    /** The current format is never full and never empty, which is why the copy loop always makes progress. */
    ghost predicate InOrder()
      reads this
    {
      && Fits(sizes, buffers)
      && index <= |sizes|
      && (if index < |sizes| then written < sizes[index] else written == 0)
    }

    ghost predicate Valid()
      reads this
    {
      InOrder() && (receiving ==> index < |sizes|)
    }

    ghost function View(): Link
      requires Valid()
      reads this
    {
      if receiving then Receiving(sizes, Filled(buffers, index, written), begun, activity) else Idle(begun)
    }

    constructor ()
      ensures Valid() && View() == Idle(0)
    {
      receiving, sizes, buffers, index, written, begun, activity := false, [], [], 0, 0, 0, 0;
    }

    method SkipEmpty()
      requires index <= |sizes| && written == 0 && Fits(sizes, buffers)
      modifies this`index
      ensures old(index) <= index <= |sizes| && (index < |sizes| ==> sizes[index] > 0)
      ensures Filled(buffers, index, 0) == Filled(buffers, old(index), 0)
    {
      while index < |sizes| && sizes[index] == 0
        invariant old(index) <= index <= |sizes|
        invariant Flatten(buffers[..index]) == Flatten(buffers[..old(index)])
      {
        assert buffers[..index + 1][..index] == buffers[..index] && buffers[index] == [];
        index := index + 1;
      }
    }

    /** Copies part of the chunk into the current format and moves on to the next format that has room. */
    method CopyInto(chunk: seq<Byte>, offset: nat) returns (next: nat)
      requires InOrder() && index < |sizes| && offset < |chunk|
      modifies this`buffers, this`index, this`written
      ensures InOrder() && offset < next <= |chunk|
      ensures Filled(buffers, index, written) == old(Filled(buffers, index, written)) + chunk[offset..next]
    {
      hide Filled;
      var available := sizes[index] - written;
      var copied := if available < |chunk| - offset then available else |chunk| - offset;
      next := offset + copied;
      FilledByCopy(buffers, index, written, chunk[offset..next]);
      var b := buffers[index];
      buffers := buffers[index := b[..written] + chunk[offset..next] + b[written + copied..]];
      written := written + copied;
      if written == sizes[index] {
        index, written := index + 1, 0;
        SkipEmpty();
      }
    }

    /** Copies as much of the chunk as the declared sizes have room for. */
    method Feed(chunk: seq<Byte>) returns (used: nat)
      requires InOrder()
      modifies this`buffers, this`index, this`written
      ensures InOrder() && used <= |chunk| && (used < |chunk| ==> index == |sizes|)
      ensures Filled(buffers, index, written) == old(Filled(buffers, index, written)) + chunk[..used]
    {
      used := 0;
      while used < |chunk| && index < |sizes|
        invariant InOrder() && used <= |chunk|
        invariant Filled(buffers, index, written) == old(Filled(buffers, index, written)) + chunk[..used]
      {
        ghost var start := used;
        used := CopyInto(chunk, used);
        assert chunk[..used] == chunk[..start] + chunk[start..used];
      }
    }

    /** Buffers of the declared sizes, at the first format that has room. */
    method Prepare(declared: seq<nat>)
      modifies this`sizes, this`buffers, this`index, this`written
      ensures InOrder() && sizes == declared && Filled(buffers, index, written) == []
    {
      sizes, index, written := declared, 0, 0;
      buffers := seq(|declared|, i requires 0 <= i < |declared| => seq(declared[i], _ => 0));
      SkipEmpty();
    }

    method OnHeader(declared: seq<nat>) returns (o: Outcome, content: seq<seq<Byte>>)
      requires Valid()
      modifies this
      ensures Valid() && (View(), o) == Handle(old(View()), Header(declared))
      ensures o.Delivered? ==> Sizes(content) == declared && Flatten(content) == o.payload
    {
      hide Total, Sizes, Flatten, Filled;
      content := [];
      if receiving { return Busy, []; }
      Prepare(declared);
      FilledLength(sizes, buffers, index, written);
      if index == |sizes| {
        o, content := Delivered(declared, []), buffers;
      } else {
        receiving, begun, activity, o := true, begun + 1, 1, Quiet;
      }
    }

    method OnBinary(chunk: seq<Byte>) returns (o: Outcome, content: seq<seq<Byte>>)
      requires Valid()
      modifies this
      ensures Valid() && (View(), o) == Handle(old(View()), Binary(chunk))
      ensures o.Delivered? ==> Sizes(content) == o.sizes && Flatten(content) == o.payload
    {
      hide Filled, Flatten, Total, Sizes;
      content := [];
      if |chunk| > MAX_CHUNK {
        receiving := false;
        return TooLarge, [];
      }
      if !receiving { return Unexpected, []; }
      activity := activity + 1;
      FilledLength(sizes, buffers, index, written);
      var used := Feed(chunk);
      FilledLength(sizes, buffers, index, written);
      assert chunk[..|chunk|] == chunk;
      if used < |chunk| {
        receiving, o := false, Excess;
      } else if index == |sizes| {
        receiving, o, content := false, Delivered(sizes, Flatten(buffers)), buffers;
      } else {
        o := Quiet;
      }
    }

    method OnTimer(transfer: nat, fired: nat) returns (o: Outcome)
      requires Valid()
      modifies this
      ensures Valid() && (View(), o) == Handle(old(View()), Timer(transfer, fired))
    {
      if !receiving || begun != transfer || activity != fired { return Quiet; }
      receiving, o := false, TimedOut;
    }
  }

  /** The declared total is reached exactly when every format has been passed. */
  lemma FilledLength(sizes: seq<nat>, buffers: seq<seq<Byte>>, index: nat, written: nat)
    requires Fits(sizes, buffers) && index <= |sizes|
    requires if index < |sizes| then written < sizes[index] else written == 0
    ensures |Filled(buffers, index, written)| <= Total(sizes)
    ensures |Filled(buffers, index, written)| == Total(sizes) <==> index == |sizes|
    ensures index == |sizes| ==> Filled(buffers, index, written) == Flatten(buffers)
    ensures Sizes(buffers) == sizes
  {
    FlattenLength(buffers[..index]);
    assert Sizes(buffers[..index]) == sizes[..index];
    if index < |sizes| {
      TotalGrows(sizes, index + 1);
      assert sizes[..index + 1][..index] == sizes[..index];
    } else {
      assert sizes[..index] == sizes && buffers[..index] == buffers;
    }
  }

  // ---- the writer

  /** Appends one format cut into chunks of at most `size` bytes. */
  method CutFormat(before: seq<seq<Byte>>, format: seq<Byte>, size: nat) returns (chunks: seq<seq<Byte>>)
    requires size > 0 && forall k | 0 <= k < |before| :: 0 < |before[k]| <= size
    ensures Flatten(chunks) == Flatten(before) + format
    ensures forall k | 0 <= k < |chunks| :: 0 < |chunks[k]| <= size
  {
    hide Flatten;
    chunks := before;
    var offset := 0;
    while offset < |format|
      invariant offset <= |format|
      invariant Flatten(chunks) == Flatten(before) + format[..offset]
      invariant forall k | 0 <= k < |chunks| :: 0 < |chunks[k]| <= size
    {
      var end := if offset + size < |format| then offset + size else |format|;
      FlattenSnoc(chunks, format[offset..end]);
      assert format[..end] == format[..offset] + format[offset..end];
      chunks := chunks + [format[offset..end]];
      offset := end;
    }
    assert format[..offset] == format;
  }

  /** The whole payload in chunks: 64 KiB each from the server, 16 KiB each from the browser. */
  method WriteChunks(data: seq<seq<Byte>>, size: nat) returns (chunks: seq<seq<Byte>>)
    requires size > 0
    ensures Flatten(chunks) == Flatten(data)
    ensures forall i | 0 <= i < |chunks| :: 0 < |chunks[i]| <= size
  {
    chunks := [];
    for i := 0 to |data|
      invariant Flatten(chunks) == Flatten(data[..i])
      invariant forall k | 0 <= k < |chunks| :: 0 < |chunks[k]| <= size
    {
      chunks := CutFormat(chunks, data[i], size);
      assert data[..i + 1] == data[..i] + [data[i]];
      FlattenSnoc(data[..i], data[i]);
    }
    assert data[..|data|] == data;
  }
}
