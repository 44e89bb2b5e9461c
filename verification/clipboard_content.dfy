/** Which clipboard content goes on the wire: the header check (webrtc/clipboard.go) and the collection of a desktop
    selection (clipboard/controller.go), which only produces content that the check accepts. */
module ClipboardContent {
  import opened ClipboardFraming

  import opened Options

  const MAX_BYTES: nat := 32 * 1024 * 1024
  const MAX_FORMATS: nat := 8

  const Supported: set<string> :=
    {"text/plain", "text/html", "image/png", "image/jpeg", "image/webp", "image/gif", "image/svg+xml"}

  /** The part before the first semicolon. */
  function Base(value: string): string {
    if value == [] || value[0] == ';' then [] else [value[0]] + Base(value[1..])
  }

  /** `fold` stands for trimming white space and lowering the case. */
  function Normalize(value: string, fold: string -> string): string {
    var m := fold(Base(value));
    if m in Supported then m else ""
  }

  /** Trimming and lowering leave the supported types and the empty string alone. */
  ghost predicate Folds(fold: string -> string) {
    fold("") == "" && forall m | m in Supported :: fold(m) == m
  }

  datatype FormatHeader = FormatHeader(mime: string, size: int)

  datatype ContentHeader = ContentHeader(version: int, kind: string, id: string, formats: seq<FormatHeader>)

  function Sum(formats: seq<FormatHeader>): int {
    if formats == [] then 0 else Sum(formats[..|formats| - 1]) + formats[|formats| - 1].size
  }

  ghost predicate FormatOk(f: FormatHeader) {
    (f.mime in Supported || f.mime == "") && 0 <= f.size <= MAX_BYTES
  }

  /** What the header check accepts. An empty MIME type passes, because it normalizes to itself. */
  ghost predicate Acceptable(h: ContentHeader) {
    && h.version == 1 && h.kind == "clipboard.content" && 1 <= |h.id| <= 128
    && 1 <= |h.formats| <= MAX_FORMATS
    && Passes(h.formats, |h.formats|)
  }

  lemma {:induction false} BaseIsWhole(value: string)
    requires ';' !in value
    ensures Base(value) == value
  {
    if value != [] {
      BaseIsWhole(value[1..]);
    }
  }

  lemma NormalizeFixes(value: string, fold: string -> string)
    requires Folds(fold)
    ensures Normalize(value, fold) == value <==> value in Supported || value == ""
  {
    if value in Supported {
      assert ';' !in value;
      BaseIsWhole(value);
    }
  }

  lemma {:induction false} BaseCuts(a: string, b: string)
    requires ';' !in a
    ensures Base(a + ";" + b) == a
  {
    if a == [] {
      assert (a + ";" + b)[0] == ';';
    } else {
      assert (a + ";" + b)[1..] == a[1..] + ";" + b;
      BaseCuts(a[1..], b);
    }
  }

  /** Parameters after a semicolon do not matter, and what is left of a type is its folded form if that is supported, and
      nothing otherwise. */
  lemma NormalizeCuts(a: string, b: string, fold: string -> string)
    requires ';' !in a
    ensures Normalize(a + ";" + b, fold) == Normalize(a, fold)
    ensures Normalize(a, fold) == if fold(a) in Supported then fold(a) else ""
  {
    BaseCuts(a, b);
    BaseIsWhole(a);
  }

  lemma {:induction false} SumGrows(formats: seq<FormatHeader>, n: nat)
    requires n <= |formats| && forall i | 0 <= i < |formats| :: formats[i].size >= 0
    ensures Sum(formats[..n]) <= Sum(formats)
  {
    if n == |formats| {
      assert formats[..n] == formats;
    } else {
      var front := formats[..|formats| - 1];
      SumGrows(front, n);
      assert front[..n] == formats[..n];
    }
  }

  method Validate(h: ContentHeader, fold: string -> string) returns (ok: bool)
    requires Folds(fold)
    ensures ok <==> Acceptable(h)
  {
    if h.version != 1 || h.kind != "clipboard.content" || h.id == "" || |h.id| > 128 { return false; }
    if |h.formats| == 0 || |h.formats| > MAX_FORMATS { return false; }
    ok := ValidateFormats(h.formats, fold);
  }

  ghost function Mimes(formats: seq<FormatHeader>, n: nat): set<string>
    requires n <= |formats|
  {
    set k | 0 <= k < n :: formats[k].mime
  }

  /** The first `n` formats pass. */
  ghost predicate Passes(formats: seq<FormatHeader>, n: nat)
    requires n <= |formats|
  {
    && (forall k | 0 <= k < n :: FormatOk(formats[k]))
    && (forall i, j | 0 <= i < j < n :: formats[i].mime != formats[j].mime)
    && Sum(formats[..n]) <= MAX_BYTES
  }

  lemma PassesOneMore(formats: seq<FormatHeader>, n: nat)
    requires n < |formats| && Passes(formats, n)
    ensures Passes(formats, n + 1) <==>
      FormatOk(formats[n]) && formats[n].mime !in Mimes(formats, n) && Sum(formats[..n]) + formats[n].size <= MAX_BYTES
    ensures Sum(formats[..n + 1]) == Sum(formats[..n]) + formats[n].size
    ensures Mimes(formats, n + 1) == Mimes(formats, n) + {formats[n].mime}
  {
    assert formats[..n + 1][..n] == formats[..n];
  }

  lemma PassesPrefix(formats: seq<FormatHeader>, n: nat)
    requires n <= |formats| && Passes(formats, |formats|)
    ensures Passes(formats, n)
  {
    SumGrows(formats, n);
    assert formats[..|formats|] == formats;
  }

  method ValidateFormats(formats: seq<FormatHeader>, fold: string -> string) returns (ok: bool)
    requires Folds(fold)
    ensures ok <==> Passes(formats, |formats|)
  {
    var total := 0;
    var seen: set<string> := {};
    assert formats[..0] == [];
    hide Normalize, Passes, Mimes, Sum;
    for i := 0 to |formats|
      invariant Passes(formats, i) && seen == Mimes(formats, i) && total == Sum(formats[..i])
    {
      var format := formats[i];
      NormalizeFixes(format.mime, fold);
      PassesOneMore(formats, i);
      if Passes(formats, |formats|) { PassesPrefix(formats, i + 1); }
      if Normalize(format.mime, fold) != format.mime { return false; }
      if format.mime in seen { return false; }
      if format.size < 0 || format.size > MAX_BYTES { return false; }
      seen := seen + {format.mime};
      total := total + format.size;
      if total > MAX_BYTES { return false; }
    }
    return true;
  }

  /** A header with an untyped format is accepted. */
  lemma UntypedFormatIsAccepted()
    ensures Acceptable(ContentHeader(1, "clipboard.content", "x", [FormatHeader("", 0)]))
    ensures "" !in Supported
  {
  }

  /** Accepted formats all have a supported type exactly when none is untyped: the check misses nothing else. */
  lemma AcceptedTypes(h: ContentHeader)
    requires Acceptable(h)
    ensures (forall i | 0 <= i < |h.formats| :: h.formats[i].mime in Supported) <==>
            (forall i | 0 <= i < |h.formats| :: h.formats[i].mime != "")
  {
  }

  // ---- collecting a desktop selection

  datatype Format = Format(mime: string, data: seq<Byte>)

  function Headers(formats: seq<Format>): seq<FormatHeader> {
    seq(|formats|, i requires 0 <= i < |formats| => FormatHeader(formats[i].mime, |formats[i].data|))
  }

  /** What the controller publishes: supported types, each once, within the size limit. */
  ghost predicate Publishable(formats: seq<Format>) {
    Passes(Headers(formats), |formats|) && forall i | 0 <= i < |formats| :: formats[i].mime in Supported
  }

  function MimeSet(formats: seq<Format>): set<string> {
    set i | 0 <= i < |formats| :: formats[i].mime
  }

  /** A read that fails, a repeated type and a format that does not fit are left out. */
  predicate Wanted(taken: seq<Format>, mime: string, read: Option<seq<Byte>>) {
    && mime != "" && mime !in MimeSet(taken)
    && read.Some? && Sum(Headers(taken)) + |read.value| <= MAX_BYTES
  }

  function Collected(offered: seq<string>, found: seq<Option<seq<Byte>>>, fold: string -> string): seq<Format>
    requires |offered| == |found|
  {
    if offered == [] then []
    else
      var n := |offered| - 1;
      var taken := Collected(offered[..n], found[..n], fold);
      var mime := Normalize(offered[n], fold);
      if Wanted(taken, mime, found[n]) then taken + [Format(mime, found[n].value)] else taken
  }

  method Collect(offered: seq<string>, found: seq<Option<seq<Byte>>>, fold: string -> string) returns (formats: seq<Format>)
    requires |offered| == |found|
    ensures formats == Collected(offered, found, fold)
  {
    formats := [];
    var seen: set<string> := {};
    var total := 0;
    hide Normalize, Headers, MimeSet, Sum;
    HeadersOfNone();
    for i := 0 to |offered|
      invariant formats == Collected(offered[..i], found[..i], fold)
      invariant seen == MimeSet(formats)
      invariant total == Sum(Headers(formats))
    {
      assert offered[..i + 1][..i] == offered[..i] && found[..i + 1][..i] == found[..i];
      var mime := Normalize(offered[i], fold);
      if mime == "" || mime in seen || found[i].None? { continue; }
      var data := found[i].value;
      if total + |data| > MAX_BYTES { continue; }
      HeadersSnoc(formats, Format(mime, data));
      total := total + |data|;
      seen := seen + {mime};
      formats := formats + [Format(mime, data)];
    }
    assert offered[..|offered|] == offered && found[..|found|] == found;
  }

  /** The offers that were taken, in order: those at which the collection grew. */
  ghost function Sources(offered: seq<string>, found: seq<Option<seq<Byte>>>, fold: string -> string): seq<nat>
    requires |offered| == |found|
  {
    if offered == [] then []
    else
      var n := |offered| - 1;
      Sources(offered[..n], found[..n], fold) +
      if |Collected(offered, found, fold)| > |Collected(offered[..n], found[..n], fold)| then [n] else []
  }

  /** Offer `k` is of a supported type that no earlier taken offer has, was read, and fits beside those taken before it. */
  ghost predicate Takes(offered: seq<string>, found: seq<Option<seq<Byte>>>, fold: string -> string, k: nat)
    requires |offered| == |found| && k < |offered|
  {
    && Normalize(offered[k], fold) in Supported && found[k].Some?
    && (forall j | 0 <= j < k && j in Sources(offered, found, fold) ::
          Normalize(offered[j], fold) != Normalize(offered[k], fold))
    && Sum(Headers(Collected(offered[..k], found[..k], fold))) + |found[k].value| <= MAX_BYTES
  }

  /** The sources are offers in order, and each format has the type and the bytes of its own offer. */
  ghost predicate From(
    offered: seq<string>, found: seq<Option<seq<Byte>>>, fold: string -> string, src: seq<nat>, formats: seq<Format>)
    requires |offered| == |found|
  {
    && |src| == |formats|
    && (forall i, j | 0 <= i < j < |src| :: src[i] < src[j])
    && (forall i | 0 <= i < |src| ::
          && src[i] < |offered| && found[src[i]].Some?
          && formats[i] == Format(Normalize(offered[src[i]], fold), found[src[i]].value))
  }

  ghost predicate Sourced(offered: seq<string>, found: seq<Option<seq<Byte>>>, fold: string -> string)
    requires |offered| == |found|
  {
    From(offered, found, fold, Sources(offered, found, fold), Collected(offered, found, fold))
  }

  lemma FromMore(
    offered: seq<string>, found: seq<Option<seq<Byte>>>, fold: string -> string, src: seq<nat>, formats: seq<Format>)
    requires |offered| == |found| && offered != []
    requires From(offered[..|offered| - 1], found[..|offered| - 1], fold, src, formats)
    ensures From(offered, found, fold, src, formats)
    ensures var n := |offered| - 1;
      found[n].Some? ==>
        From(offered, found, fold, src + [n], formats + [Format(Normalize(offered[n], fold), found[n].value)])
  {
    hide Normalize;
  }

  /** One more offer: taken exactly if wanted, at the end. */
  lemma OneMoreOffer(offered: seq<string>, found: seq<Option<seq<Byte>>>, fold: string -> string)
    requires |offered| == |found| && offered != []
    ensures var n := |offered| - 1;
      var taken, src := Collected(offered[..n], found[..n], fold), Sources(offered[..n], found[..n], fold);
      if Wanted(taken, Normalize(offered[n], fold), found[n]) then
        && Collected(offered, found, fold) == taken + [Format(Normalize(offered[n], fold), found[n].value)]
        && Sources(offered, found, fold) == src + [n]
      else Collected(offered, found, fold) == taken && Sources(offered, found, fold) == src
  {
    hide Normalize, Wanted;
  }

  lemma {:induction false} CollectedIsSourced(offered: seq<string>, found: seq<Option<seq<Byte>>>, fold: string -> string)
    requires |offered| == |found|
    ensures Sourced(offered, found, fold)
  {
    if offered != [] {
      var n := |offered| - 1;
      CollectedIsSourced(offered[..n], found[..n], fold);
      OneMoreOffer(offered, found, fold);
      hide Normalize, Collected, Sources, From, MimeSet, Headers;
      FromMore(offered, found, fold, Sources(offered[..n], found[..n], fold), Collected(offered[..n], found[..n], fold));
    }
  }

  /** The sources below `n` do not depend on later offers. */
  lemma {:induction false} SourcesPrefix(offered: seq<string>, found: seq<Option<seq<Byte>>>, fold: string -> string, n: nat)
    requires |offered| == |found| && n <= |offered|
    ensures forall j | 0 <= j < n :: j in Sources(offered, found, fold) <==> j in Sources(offered[..n], found[..n], fold)
  {
    if n == |offered| {
      assert offered[..n] == offered && found[..n] == found;
    } else {
      var m := |offered| - 1;
      SourcesPrefix(offered[..m], found[..m], fold, n);
      assert offered[..m][..n] == offered[..n] && found[..m][..n] == found[..n];
      OneMoreOffer(offered, found, fold);
      hide Sources;
    }
  }

  /** A type is among the formats taken so far exactly if a taken offer has it. */
  lemma TypeIsTaken(offered: seq<string>, found: seq<Option<seq<Byte>>>, fold: string -> string, mime: string)
    requires |offered| == |found|
    ensures mime in MimeSet(Collected(offered, found, fold)) <==>
      exists j :: 0 <= j < |offered| && j in Sources(offered, found, fold) && Normalize(offered[j], fold) == mime
  {
    CollectedIsSourced(offered, found, fold);
    hide Normalize, Collected, Sources;
    var src, formats := Sources(offered, found, fold), Collected(offered, found, fold);
    if mime in MimeSet(formats) {
      var i :| 0 <= i < |formats| && formats[i].mime == mime;
      assert src[i] in src && Normalize(offered[src[i]], fold) == mime;
    }
    if j :| 0 <= j < |offered| && j in src && Normalize(offered[j], fold) == mime {
      var i :| 0 <= i < |src| && src[i] == j;
      assert formats[i].mime == mime;
    }
  }

  /** An offer is taken if and only if its type is supported, no earlier taken offer has it, its read succeeded and it fits
      beside those taken before; and each format taken has the type and the bytes of its own offer. */
  lemma CollectsExactly(offered: seq<string>, found: seq<Option<seq<Byte>>>, fold: string -> string)
    requires |offered| == |found|
    ensures Sourced(offered, found, fold)
    ensures forall k | 0 <= k < |offered| :: k in Sources(offered, found, fold) <==> Takes(offered, found, fold, k)
  {
    CollectedIsSourced(offered, found, fold);
    forall k | 0 <= k < |offered| ensures k in Sources(offered, found, fold) <==> Takes(offered, found, fold, k) {
      OfferIsTakenExactly(offered, found, fold, k);
    }
  }

  lemma OfferIsTakenExactly(offered: seq<string>, found: seq<Option<seq<Byte>>>, fold: string -> string, k: nat)
    requires |offered| == |found| && k < |offered|
    ensures k in Sources(offered, found, fold) <==> Takes(offered, found, fold, k)
  {
    var o, f := offered[..k + 1], found[..k + 1];
    assert o[..k] == offered[..k] && f[..k] == found[..k];
    SourcesPrefix(offered, found, fold, k + 1);
    LastIsSource(o, f, fold);
    WantedExactly(offered, found, fold, k);
    hide Normalize, Collected, Sources, Wanted, Takes;
  }

  lemma LastIsSource(offered: seq<string>, found: seq<Option<seq<Byte>>>, fold: string -> string)
    requires |offered| == |found| && offered != []
    ensures var n := |offered| - 1;
      n in Sources(offered, found, fold) <==>
      Wanted(Collected(offered[..n], found[..n], fold), Normalize(offered[n], fold), found[n])
  {
    var n := |offered| - 1;
    CollectedIsSourced(offered[..n], found[..n], fold);
    OneMoreOffer(offered, found, fold);
    hide Normalize, Collected, Sources, Wanted;
    assert n !in Sources(offered[..n], found[..n], fold);
  }

  lemma WantedExactly(offered: seq<string>, found: seq<Option<seq<Byte>>>, fold: string -> string, k: nat)
    requires |offered| == |found| && k < |offered|
    ensures Wanted(Collected(offered[..k], found[..k], fold), Normalize(offered[k], fold), found[k]) <==>
      Takes(offered, found, fold, k)
  {
    var mime := Normalize(offered[k], fold);
    assert mime in Supported <==> mime != "";
    hide Normalize, Collected, Sources, MimeSet, Headers, Sum;
    SourcesPrefix(offered, found, fold, k);
    TypeIsTaken(offered[..k], found[..k], fold, mime);
    assert forall j | 0 <= j < k :: offered[..k][j] == offered[j];
  }

  lemma HeadersOfNone()
    ensures Sum(Headers([])) == 0 && MimeSet([]) == {}
  {
  }

  lemma HeadersSnoc(formats: seq<Format>, f: Format)
    ensures Headers(formats + [f]) == Headers(formats) + [FormatHeader(f.mime, |f.data|)]
    ensures Sum(Headers(formats + [f])) == Sum(Headers(formats)) + |f.data|
    ensures MimeSet(formats + [f]) == MimeSet(formats) + {f.mime}
  {
    var all, hs := formats + [f], Headers(formats + [f]);
    assert hs[..|hs| - 1] == Headers(formats);
    assert forall i | 0 <= i < |formats| :: all[i] == formats[i];
    assert all[|formats|].mime == f.mime;
    forall m | m in MimeSet(formats) ensures m in MimeSet(all) {
      var i :| 0 <= i < |formats| && formats[i].mime == m;
      assert all[i].mime == m;
    }
  }

  lemma {:induction false} CollectedIsPublishable(offered: seq<string>, found: seq<Option<seq<Byte>>>, fold: string -> string)
    requires |offered| == |found|
    ensures Publishable(Collected(offered, found, fold))
  {
    if offered != [] {
      var n := |offered| - 1;
      var taken := Collected(offered[..n], found[..n], fold);
      CollectedIsPublishable(offered[..n], found[..n], fold);
      var mime := Normalize(offered[n], fold);
      if Wanted(taken, mime, found[n]) {
        WantedIsPublishable(taken, Format(mime, found[n].value));
      }
    }
  }

  lemma WantedIsPublishable(taken: seq<Format>, f: Format)
    requires Publishable(taken) && f.mime in Supported && f.mime !in MimeSet(taken)
    requires Sum(Headers(taken)) + |f.data| <= MAX_BYTES
    ensures Publishable(taken + [f])
  {
    var hs, all := Headers(taken), Headers(taken + [f]);
    HeadersSnoc(taken, f);
    assert all[..|hs|] == hs && hs[..|hs|] == hs;
    SumIsNatural(hs);
    assert Passes(all, |hs|);
    NewMime(taken, f);
    hide Headers, Sum, MimeSet, Mimes;
    PassesOneMore(all, |hs|);
  }

  lemma NewMime(taken: seq<Format>, f: Format)
    requires f.mime !in MimeSet(taken)
    ensures |Headers(taken + [f])| == |taken| + 1 && f.mime !in Mimes(Headers(taken + [f]), |taken|)
    ensures Headers(taken + [f])[|taken|] == FormatHeader(f.mime, |f.data|)
  {
  }

  lemma {:induction false} SumIsNatural(formats: seq<FormatHeader>)
    requires forall i | 0 <= i < |formats| :: formats[i].size >= 0
    ensures Sum(formats) >= 0
  {
    if formats != [] {
      SumIsNatural(formats[..|formats| - 1]);
    }
  }

  /** There are seven supported types, so distinct ones never exceed the wire limit of eight formats. */
  lemma {:induction false} Pigeonhole(mimes: seq<string>, types: set<string>)
    requires forall i | 0 <= i < |mimes| :: mimes[i] in types
    requires forall i, j | 0 <= i < j < |mimes| :: mimes[i] != mimes[j]
    ensures |mimes| <= |types|
  {
    if mimes != [] {
      var last := mimes[|mimes| - 1];
      Pigeonhole(mimes[..|mimes| - 1], types - {last});
    }
  }

  /** Whatever the desktop offers and whichever reads succeed, a published selection passes the wire header check. */
  lemma PublishedIsAcceptable(offered: seq<string>, found: seq<Option<seq<Byte>>>, fold: string -> string, id: string)
    requires |offered| == |found| && 1 <= |id| <= 128
    ensures var formats := Collected(offered, found, fold);
      formats != [] ==> Acceptable(ContentHeader(1, "clipboard.content", id, Headers(formats)))
  {
    var formats := Collected(offered, found, fold);
    CollectedIsPublishable(offered, found, fold);
    var mimes := seq(|formats|, i requires 0 <= i < |formats| => formats[i].mime);
    assert forall i | 0 <= i < |formats| :: Headers(formats)[i].mime == formats[i].mime;
    Pigeonhole(mimes, Supported);
    assert |Supported| <= 7;
  }
}
