/** Whether a peer's negotiated codec can carry another profile (webrtc/contracts.go). */
module CodecCompat {

  type Fmtp = map<string, string>

  datatype Codec = Codec(
    id: string, mimeType: string, clockRate: nat, channels: nat, payloadType: nat, payloader: string, fmtpLine: string,
    feedback: seq<(string, string)>, offer: Fmtp, answer: Fmtp)

  /** Reading a missing key gives the empty string. */
  function Lookup(m: Fmtp, key: string): string {
    if key in m then m[key] else ""
  }

  predicate FmtpAgrees(a: Fmtp, b: Fmtp) {
    |a| == |b| && forall key | key in a :: Lookup(b, key) == a[key]
  }

  /** The check in the order the source makes it; the directions of the map loops are the source's. */
  predicate Compatible(a: Codec, b: Codec) {
    && a.id == b.id && a.mimeType == b.mimeType && a.clockRate == b.clockRate && a.channels == b.channels
    && a.payloadType == b.payloadType && a.payloader == b.payloader && a.fmtpLine == b.fmtpLine
    && |a.feedback| == |b.feedback|
    && (forall i | 0 <= i < |a.feedback| :: a.feedback[i] == b.feedback[i])
    && FmtpAgrees(a.offer, b.offer) && FmtpAgrees(a.answer, b.answer)
  }

  predicate NoEmptyValue(m: Fmtp) {
    forall key | key in m :: m[key] != ""
  }

  predicate NoEmptyParameter(c: Codec) {
    NoEmptyValue(c.offer) && NoEmptyValue(c.answer)
  }

  /** With the same number of entries, agreement on all of `a` leaves no room for others. */
  lemma AgreementIsEquality(a: Fmtp, b: Fmtp)
    requires NoEmptyValue(a) && FmtpAgrees(a, b)
    ensures a == b
  {
    forall key | key in a ensures key in b && a[key] == b[key] {
      assert Lookup(b, key) == a[key];
    }
    SameSizeSubset(a.Keys, b.Keys);
  }

  lemma SameSizeSubset<T>(a: set<T>, b: set<T>)
    requires a <= b && |a| == |b|
    ensures a == b
  {
    assert b == a + (b - a);
    assert |b - a| == 0;
  }

  lemma LongerThanAll(keys: set<string>) returns (key: string)
    ensures forall k | k in keys :: |k| < |key|
  {
    if keys == {} {
      key := "";
    } else {
      var k :| k in keys;
      var rest := LongerThanAll(keys - {k});
      key := if |k| < |rest| then rest else k + "x";
      assert forall j | j in keys :: j == k || j in keys - {k};
    }
  }

  /** A parameter with an empty value can be renamed without the check noticing. */
  lemma RenamedAgrees(m: Fmtp, key: string, value: string) returns (other: Fmtp)
    requires key in m && m[key] == ""
    ensures FmtpAgrees(m, other) && other != m
  {
    var name := LongerThanAll(m.Keys);
    assert name !in m;
    other := (m - {key})[name := value];
    assert (m - {key}).Keys == m.Keys - {key};
    assert other.Keys == m.Keys - {key} + {name};
  }

  /** The check means equality exactly for the codecs without an empty parameter value. */
  lemma CompatibleIsEquality(c: Codec)
    ensures NoEmptyParameter(c) <==> (forall other :: Compatible(c, other) <==> c == other)
  {
    if NoEmptyParameter(c) {
      forall other ensures Compatible(c, other) <==> c == other {
        if Compatible(c, other) { EqualIfCompatible(c, other); }
      }
    } else if !NoEmptyValue(c.offer) {
      var key :| key in c.offer && c.offer[key] == "";
      var offer := RenamedAgrees(c.offer, key, "");
      assert Compatible(c, c.(offer := offer)) && c != c.(offer := offer);
    } else {
      var key :| key in c.answer && c.answer[key] == "";
      var answer := RenamedAgrees(c.answer, key, "");
      assert Compatible(c, c.(answer := answer)) && c != c.(answer := answer);
    }
  }

  lemma EqualIfCompatible(a: Codec, b: Codec)
    requires Compatible(a, b) && NoEmptyParameter(a)
    ensures a == b
  {
    AgreementIsEquality(a.offer, b.offer);
    AgreementIsEquality(a.answer, b.answer);
    assert a.feedback == b.feedback;
  }

  /** Nor is the check symmetric: the direction decides when a value is empty. */
  lemma CompatibleIsNotSymmetric(c: Codec)
    requires c.offer == map["x" := ""]
    ensures var other := c.(offer := map["y" := "1"]); Compatible(c, other) && !Compatible(other, c)
  {
  }
}
