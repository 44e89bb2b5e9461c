/** Input events, and what a sequence of them means to the desktop that receives it. */
module InputEvents {

  import opened Options

  /** A key code or a button code. The controller keeps one pressed map per device class;
      tagging the code lets one map stand for both. */
  datatype Code = KeyCode(n: nat) | ButtonCode(n: nat)

  datatype Event =
    | PointerAbsolute(sequence: nat, x: real, y: real)
    | PointerRelative(sequence: nat, dx: real, dy: real)
    | Press(sequence: nat, code: Code, pressed: bool)
    | Scroll(sequence: nat, horizontal: real, vertical: real, stopHorizontal: bool, stopVertical: bool)
    | Text(sequence: nat, text: string)
    | Unknown(sequence: nat)

  datatype Point = Point(x: real, y: real)

  /** A key, button, text or scroll-stop event, with the pointer position and the total scroll it happened at. */
  datatype Transition = Transition(event: Event, at: Point, scrolled: Point)

  datatype Desktop = Desktop(pointer: Point, scrolled: Point, transitions: seq<Transition>)

  function Apply(d: Desktop, e: Event): Desktop {
    match e
    case PointerAbsolute(_, x, y) => d.(pointer := Point(x, y))
    case PointerRelative(_, dx, dy) => d.(pointer := Point(d.pointer.x + dx, d.pointer.y + dy))
    case Scroll(_, h, v, stopH, stopV) =>
      var moved := d.(scrolled := Point(d.scrolled.x + h, d.scrolled.y + v));
      if stopH || stopV then Record(moved, e) else moved
    case Press(_, _, _) => Record(d, e)
    case Text(_, _) => Record(d, e)
    case Unknown(_) => d
  }

  function Record(d: Desktop, e: Event): Desktop {
    d.(transitions := d.transitions + [Transition(e, d.pointer, d.scrolled)])
  }

  function ApplyAll(d: Desktop, events: seq<Event>): Desktop {
    if events == [] then d else Apply(ApplyAll(d, events[..|events| - 1]), events[|events| - 1])
  }

  /** Two event sequences mean the same when no desktop can tell them apart. */
  ghost predicate SameMeaning(a: seq<Event>, b: seq<Event>) {
    forall d :: ApplyAll(d, a) == ApplyAll(d, b)
  }

  /** A float64 sum is infinite when it leaves the finite range [-limit, limit]. */
  predicate IsInf(x: real, limit: real) {
    x < -limit || limit < x
  }

  /** The event that replaces the queue's last event when `e` is coalesced into it. */
  function Merge(last: Event, e: Event, limit: real): Option<Event> {
    match (last, e)
    case (PointerAbsolute(_, _, _), PointerAbsolute(_, _, _)) => Some(e)
    case (PointerRelative(_, dx, dy), PointerRelative(n, ex, ey)) =>
      if IsInf(dx + ex, limit) || IsInf(dy + ey, limit) then None
      else Some(PointerRelative(n, dx + ex, dy + ey))
    case (Scroll(_, h, v, sh, sv), Scroll(n, eh, ev, esh, esv)) =>
      if sh || sv || esh || esv || IsInf(h + eh, limit) || IsInf(v + ev, limit) then None
      else Some(Scroll(n, h + eh, v + ev, false, false))
    case _ => None
  }

  /** `merged` is `raw` cut into consecutive non-empty groups, each replaced by one event with the group's meaning. */
  ghost predicate Coalesces(merged: seq<Event>, raw: seq<Event>) {
    if merged == [] then raw == []
    else exists cut: nat | cut < |raw| ::
           Coalesces(merged[..|merged| - 1], raw[..cut]) &&
           SameMeaning([merged[|merged| - 1]], raw[cut..])
  }

  lemma {:induction false} ApplyAllConcat(d: Desktop, a: seq<Event>, b: seq<Event>)
    ensures ApplyAll(d, a + b) == ApplyAll(ApplyAll(d, a), b)
  {
    if b == [] {
      assert a + b == a;
    } else {
      var front := b[..|b| - 1];
      assert (a + b)[..|a + b| - 1] == a + front;
      ApplyAllConcat(d, a, front);
    }
  }

  lemma MeaningConcat(a: seq<Event>, a': seq<Event>, b: seq<Event>, b': seq<Event>)
    requires SameMeaning(a, a') && SameMeaning(b, b')
    ensures SameMeaning(a + b, a' + b')
  {
    forall d ensures ApplyAll(d, a + b) == ApplyAll(d, a' + b') {
      ApplyAllConcat(d, a, b);
      ApplyAllConcat(d, a', b');
    }
  }

  /** Coalescing two events never changes what the pair means. */
  lemma MergeKeepsMeaning(last: Event, e: Event, limit: real)
    requires Merge(last, e, limit).Some?
    ensures SameMeaning([Merge(last, e, limit).value], [last, e])
  {
  }

  lemma {:induction false} CoalescesMeaning(merged: seq<Event>, raw: seq<Event>)
    requires Coalesces(merged, raw)
    ensures SameMeaning(merged, raw)
  {
    if merged != [] {
      var front := merged[..|merged| - 1];
      var cut: nat :| cut < |raw| && Coalesces(front, raw[..cut]) && SameMeaning([merged[|merged| - 1]], raw[cut..]);
      CoalescesMeaning(front, raw[..cut]);
      MeaningConcat(front, raw[..cut], [merged[|merged| - 1]], raw[cut..]);
      assert front + [merged[|merged| - 1]] == merged;
      assert raw[..cut] + raw[cut..] == raw;
    }
  }

  /** Appending the same event to both sides starts a new group. */
  lemma CoalescesAppend(merged: seq<Event>, raw: seq<Event>, e: Event)
    requires Coalesces(merged, raw)
    ensures Coalesces(merged + [e], raw + [e])
  {
    var m, r := merged + [e], raw + [e];
    var cut := |raw|;
    assert m[..|m| - 1] == merged && r[..cut] == raw && r[cut..] == [e];
  }

  /** Merging an event into the last queued event extends the last group. */
  lemma CoalescesMerge(merged: seq<Event>, last: Event, raw: seq<Event>, e: Event, limit: real)
    requires Coalesces(merged + [last], raw)
    requires Merge(last, e, limit).Some?
    ensures Coalesces(merged + [Merge(last, e, limit).value], raw + [e])
  {
    var x := Merge(last, e, limit).value;
    var m, m', r' := merged + [last], merged + [x], raw + [e];
    assert m[..|m| - 1] == merged && m'[..|m'| - 1] == merged;
    var cut: nat :| cut < |raw| && Coalesces(merged, raw[..cut]) && SameMeaning([last], raw[cut..]);
    assert r'[..cut] == raw[..cut] && r'[cut..] == raw[cut..] + [e];
    MergeKeepsMeaning(last, e, limit);
    assert [last, e] == [last] + [e];
    MeaningConcat([last], raw[cut..], [e], [e]);
  }

  /** Every prefix of a coalesced sequence coalesces a prefix of the raw one. */
  lemma {:induction false} CoalescesPrefix(merged: seq<Event>, raw: seq<Event>, n: nat) returns (k: nat)
    requires Coalesces(merged, raw) && n <= |merged|
    ensures k <= |raw| && Coalesces(merged[..n], raw[..k])
  {
    if n == |merged| {
      k := |raw|;
      assert merged[..n] == merged && raw[..k] == raw;
    } else {
      var front := merged[..|merged| - 1];
      var cut: nat :| cut < |raw| && Coalesces(front, raw[..cut]) && SameMeaning([merged[|merged| - 1]], raw[cut..]);
      k := CoalescesPrefix(front, raw[..cut], n);
      assert front[..n] == merged[..n] && raw[..cut][..k] == raw[..k];
    }
  }
}
