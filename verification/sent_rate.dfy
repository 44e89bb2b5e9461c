/** The ten-slot ring that measures the sent video rate (webrtc/bandwidth_estimator.go), against the full log of sends. */
module SentRate {

  /** One send: the bucket of its timestamp, and the bucket of the ring it was counted in. */
  datatype Send = Send(bucket: nat, counted: int, size: nat)

  /** The bucket, among the ten up to `current`, that shares a ring slot with `bucket`. */
  function InWindow(bucket: int, current: int): int {
    current - (current - bucket) % 10
  }

  /** Bytes counted in one bucket. */
  ghost function CountedIn(log: seq<Send>, bucket: int): nat {
    if log == [] then 0
    else CountedIn(log[..|log| - 1], bucket) + if log[|log| - 1].counted == bucket then log[|log| - 1].size else 0
  }

  /** Bytes counted in the ten buckets up to `current`. */
  ghost function Counted(log: seq<Send>, current: int): nat {
    if log == [] then 0
    else
      var last := log[|log| - 1];
      Counted(log[..|log| - 1], current) + if current - 10 < last.counted <= current then last.size else 0
  }

  /** Bytes really sent in the ten buckets up to `current`. */
  ghost function SentIn(log: seq<Send>, current: int): nat {
    if log == [] then 0
    else
      var last := log[|log| - 1];
      SentIn(log[..|log| - 1], current) + if current - 10 < last.bucket <= current then last.size else 0
  }

  /** Bytes of sends that were recorded ten or more buckets late and are still counted. */
  ghost function Late(log: seq<Send>, current: int): nat {
    if log == [] then 0
    else
      var last := log[|log| - 1];
      Late(log[..|log| - 1], current) +
      if last.bucket != last.counted && current - 10 < last.counted <= current then last.size else 0
  }

  /** Counted bytes whose slot is below `n`. */
  ghost function CountedBelow(log: seq<Send>, current: int, n: nat): nat {
    if log == [] then 0
    else
      var last := log[|log| - 1];
      CountedBelow(log[..|log| - 1], current, n) +
      if current - 10 < last.counted <= current && last.counted % 10 < n then last.size else 0
  }

  /** A send is counted in its own bucket unless it is ten or more buckets late, and then in a newer one. */
  ghost predicate LogOk(log: seq<Send>, current: int) {
    forall i | 0 <= i < |log| :: log[i].counted <= current && log[i].bucket <= log[i].counted &&
      (log[i].bucket != log[i].counted ==> log[i].bucket <= current - 10)
  }

  lemma {:induction false} NothingAhead(log: seq<Send>, current: int, bucket: int)
    requires LogOk(log, current) && bucket > current
    ensures CountedIn(log, bucket) == 0
  {
    if log != [] {
      assert log[|log| - 1].counted <= current;
      NothingAhead(log[..|log| - 1], current, bucket);
    }
  }

  /** A slot of the ring stands for exactly one bucket of the window. */
  lemma OneBucketPerSlot(bucket: int, current: int, slot: nat)
    requires current - 10 < bucket <= current && slot < 10
    ensures bucket % 10 == slot <==> bucket == InWindow(slot, current)
  {
  }

  lemma WindowOfSlot(slot: nat, current: int)
    requires slot < 10
    ensures current - 10 < InWindow(slot, current) <= current && InWindow(slot, current) % 10 == slot
  {
  }

  /** Moving the window by one bucket changes the meaning of one slot. */
  lemma NextSlot(current: int)
    ensures forall i | 0 <= i < 10 ::
      InWindow(i, current + 1) == if i == (current + 1) % 10 then current + 1 else InWindow(i, current)
  {
  }

  /** What recording one send adds to the log adds to the slot of its timestamp and to no other. */
  lemma SendIsCounted(log: seq<Send>, current: int, send: Send)
    requires LogOk(log, current) && send.bucket <= current && send.counted == InWindow(send.bucket, current)
    ensures LogOk(log + [send], current)
    ensures forall i | 0 <= i < 10 ::
      CountedIn(log + [send], InWindow(i, current)) ==
      CountedIn(log, InWindow(i, current)) + if i == send.bucket % 10 then send.size else 0
  {
    WindowOf(send.bucket, current);
    var all := log + [send];
    assert all[..|log|] == log;
    forall i | 0 <= i < 10 ensures CountedIn(all, InWindow(i, current)) ==
      CountedIn(log, InWindow(i, current)) + if i == send.bucket % 10 then send.size else 0
    {
      OneBucketPerSlot(send.counted, current, i);
      hide InWindow;
    }
  }

  lemma WindowOf(bucket: int, current: int)
    requires bucket <= current
    ensures bucket <= InWindow(bucket, current) <= current && InWindow(bucket, current) % 10 == bucket % 10
    ensures current - 10 < InWindow(bucket, current)
    ensures bucket == InWindow(bucket, current) <==> current - 10 < bucket
  {
  }

  lemma LogStays(log: seq<Send>, current: int, later: int)
    requires LogOk(log, current) && current <= later
    ensures LogOk(log, later)
  {
  }

  lemma {:induction false} OneSlotMore(log: seq<Send>, current: int, n: nat)
    requires n < 10
    ensures CountedBelow(log, current, n + 1) == CountedBelow(log, current, n) + CountedIn(log, InWindow(n, current))
  {
    if log != [] {
      var last := log[|log| - 1];
      OneSlotMore(log[..|log| - 1], current, n);
      WindowOfSlot(n, current);
      if current - 10 < last.counted <= current { OneBucketPerSlot(last.counted, current, n); }
      hide InWindow;
    }
  }

  lemma {:induction false} AllSlots(log: seq<Send>, current: int)
    ensures CountedBelow(log, current, 0) == 0 && CountedBelow(log, current, 10) == Counted(log, current)
  {
    if log != [] {
      AllSlots(log[..|log| - 1], current);
    }
  }

  /** The ring counts what was sent in the window, plus the late sends it still attributes to newer buckets; so it is
      right exactly when no such late send is counted. */
  lemma {:induction false} RingAgainstLog(log: seq<Send>, current: int)
    requires LogOk(log, current)
    ensures Counted(log, current) == SentIn(log, current) + Late(log, current)
    ensures Counted(log, current) == SentIn(log, current) <==> Late(log, current) == 0
    ensures (forall i | 0 <= i < |log| :: log[i].bucket == log[i].counted) ==> Late(log, current) == 0
  {
    if log != [] {
      assert log[|log| - 1].counted <= current;
      RingAgainstLog(log[..|log| - 1], current);
    }
  }

  /** The same without the ring: what is counted exceeds what was sent. */
  lemma LateIsCounted()
    ensures var log := [Send(5, InWindow(5, 15), 1)];
      LogOk(log, 15) && Counted(log, 15) == 1 && SentIn(log, 15) == 0
  {
    var log := [Send(5, InWindow(5, 15), 1)];
    assert log[..0] == [];
  }

  /** Late sends are counted: a byte of bucket 5 recorded at bucket 15 shows in a window that does not reach back to it. */
  method RecordLate() returns (rate: nat, ring: Ring)
    ensures fresh(ring) && fresh(ring.buckets) && ring.Valid()
    ensures rate == 16 && ring.log == [Send(5, 15, 1)] && SentIn(ring.log, ring.current) == 0
  {
    ring := new Ring();
    rate := ring.SentBitrate(15);
    ring.RecordSent(5, 1);
    assert ring.log == [Send(5, 15, 1)] && ring.log[..0] == [];
    rate := ring.SentBitrate(15);
  }

  class Ring {
    const buckets: array<nat>
    var current: nat
    ghost var log: seq<Send>

    /** Every slot holds the bytes counted in its bucket of the window. */
    ghost predicate Valid()
      reads this, buckets
    {
      && LogOk(log, current)
      && Holds(current)
    }

    ghost predicate Holds(end: int)
      reads this, buckets
    {
      && buckets.Length == 10
      && forall i | 0 <= i < 10 :: buckets[i] == CountedIn(log, InWindow(i, end))
    }

    constructor ()
      ensures Valid() && fresh(buckets) && log == [] && current == 0
    {
      buckets := new nat[10](_ => 0);
      current, log := 0, [];
    }

    method Advance(bucket: nat)
      requires Valid()
      modifies this`current, buckets
      ensures Valid() && current == if bucket > old(current) then bucket else old(current)
    {
      if bucket <= current { return; }
      var stale := if bucket - current < 10 then bucket - current else 10;
      ghost var before := current;
      for offset := 1 to stale + 1
        invariant LogOk(log, current) && current == before && unchanged(this`log)
        invariant Holds(current + offset - 1)
      {
        NextSlot(current + offset - 1);
        NothingAhead(log, current, current + offset);
        hide CountedIn, LogOk, InWindow;
        buckets[(current + offset) % 10] := 0;
      }
      current := bucket;
      LogStays(log, before, current);
      hide CountedIn, LogOk;
      forall i | 0 <= i < 10 ensures buckets[i] == CountedIn(log, InWindow(i, current)) {
        if bucket - before >= 10 {
          WindowOfSlot(i, before + 10);
          WindowOfSlot(i, bucket);
          NothingAhead(log, before, InWindow(i, before + 10));
          NothingAhead(log, before, InWindow(i, bucket));
        }
      }
    }

    method RecordSent(bucket: nat, size: nat)
      requires Valid()
      modifies this, buckets
      ensures Valid() && current == if bucket > old(current) then bucket else old(current)
      ensures log == old(log) + [Send(bucket, InWindow(bucket, current), size)]
    {
      hide CountedIn, LogOk, InWindow;
      Advance(bucket);
      var slot := bucket % 10;
      buckets[slot] := buckets[slot] + size;
      ghost var send := Send(bucket, InWindow(bucket, current), size);
      SendIsCounted(log, current, send);
      log := log + [send];
    }

    /** Bits per second over the half-second window: sixteen times the bytes. */
    method SentBitrate(bucket: nat) returns (rate: nat)
      requires Valid()
      modifies this`current, buckets
      ensures Valid() && current == if bucket > old(current) then bucket else old(current)
      ensures rate == 16 * (SentIn(log, current) + Late(log, current))
    {
      Advance(bucket);
      var total := 0;
      ghost var now := current;
      AllSlots(log, current);
      for i := 0 to 10
        invariant Valid() && current == now && total == CountedBelow(log, current, i)
      {
        OneSlotMore(log, current, i);
        hide CountedIn, CountedBelow, LogOk, InWindow;
        total := total + buckets[i];
      }
      RingAgainstLog(log, current);
      rate := total * 8 * 2;
    }
  }
}
