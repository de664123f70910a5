/**
 * The Zipkin serializer: a batch of traces is flattened into one list of span views, and each
 * view exposes its span through the fields of Zipkin's JSON span object.
 */
module ZipkinSerializer {
  import opened Spans
  import opened Text
  import opened Hex

  /**
   * The tag that carries the span kind (the tracer's `Tags.SpanKind`); the properties below need
   * only that it differs from the two status keys.
   */
  const SpanKindKey: string := "span.kind"
  const StatusCodeKey: string := "otel.status_code"
  const ErrorKey: string := "error"
  const ServiceNameKey: string := "serviceName"

  /** The span tags as a dictionary filled in order, with the span-kind tag left out. */
  function KindFree(tags: seq<(string, string)>): map<string, string>
  {
    if |tags| == 0 then map[]
    else
      var m := KindFree(tags[..|tags| - 1]);
      var (key, value) := tags[|tags| - 1];
      if key == SpanKindKey then m else m[key := value]
  }

  /** The status keys written over the tag dictionary, after the OpenTelemetry Zipkin exporter convention. */
  function StatusOverlay(m: map<string, string>, status: Status): map<string, string>
  {
    match status.code
    case Unset => m
    case Ok => m[StatusCodeKey := "OK"]
    case Error =>
      m[StatusCodeKey := "ERROR"][ErrorKey := match status.description case Some(d) => d case None => ""]
  }

  /** The tags of a Zipkin span. */
  function TagMap(span: Span<string>): map<string, string>
  {
    StatusOverlay(KindFree(span.tags), span.status)
  }

  /**
   * Apart from the keys in `reserved`, `m` holds exactly the span tags other than the
   * span kind, each with the value its last occurrence gives it.
   */
  ghost predicate HoldsTagsExcept(m: map<string, string>, tags: seq<(string, string)>, reserved: set<string>)
  {
    forall k :: k !in reserved ==>
      (k in m <==> k != SpanKindKey && LastValue(tags, k).Some?) &&
      (k in m ==> m[k] == LastValue(tags, k).value)
  }

  lemma {:induction false} KindFreeIsLastWrite(tags: seq<(string, string)>)
    ensures SpanKindKey !in KindFree(tags)
    ensures HoldsTagsExcept(KindFree(tags), tags, {})
  {
    if |tags| > 0 {
      KindFreeIsLastWrite(tags[..|tags| - 1]);
    }
  }

  /**
   * The Zipkin tag map never holds the span-kind key; every other span tag keeps the value of
   * its last occurrence unless a status key overwrites it; ok sets the status code, and error
   * sets the status code and puts the description (or "") under `error`.
   */
  lemma TagMapProperties(span: Span<string>)
    ensures SpanKindKey !in TagMap(span)
    ensures span.status.code == Unset ==> HoldsTagsExcept(TagMap(span), span.tags, {})
    ensures span.status.code == Ok ==>
              HoldsTagsExcept(TagMap(span), span.tags, {StatusCodeKey}) &&
              StatusCodeKey in TagMap(span) && TagMap(span)[StatusCodeKey] == "OK"
    ensures span.status.code == Error ==>
              HoldsTagsExcept(TagMap(span), span.tags, {StatusCodeKey, ErrorKey}) &&
              StatusCodeKey in TagMap(span) && TagMap(span)[StatusCodeKey] == "ERROR" &&
              ErrorKey in TagMap(span) &&
              TagMap(span)[ErrorKey] == (if span.status.description.Some? then span.status.description.value else "")
  {
    KindFreeIsLastWrite(span.tags);
  }

  /** Builds the tag dictionary: every span tag but the span kind, then the status keys. */
  method BuildTags(span: Span<string>) returns (tags: map<string, string>)
    ensures tags == TagMap(span)
  {
    tags := map[];
    var i := 0;
    while i < |span.tags|
      invariant 0 <= i <= |span.tags|
      invariant tags == KindFree(span.tags[..i])
    {
      assert span.tags[..i + 1][..i] == span.tags[..i];
      var (key, value) := span.tags[i];
      if key != SpanKindKey {
        tags := tags[key := value];
      }
      i := i + 1;
    }
    assert span.tags[..i] == span.tags;
    match span.status.code {
      case Ok =>
        tags := tags[StatusCodeKey := "OK"];
      case Error =>
        tags := tags[StatusCodeKey := "ERROR"];
        tags := tags[ErrorKey := if span.status.description.Some? then span.status.description.value else ""];
      case Unset =>
    }
  }

  /** The view of one span that the JSON encoder walks; its tags are computed once, at construction. */
  class ZipkinSpan {
    const span: Span<string>
    const tags: map<string, string>

    constructor (span: Span<string>)
      ensures this.span == span
      ensures Tags() == TagMap(span)
    {
      var t := BuildTags(span);
      this.span := span;
      this.tags := t;
    }

    /** The span id in `x16` form. */
    function Id(): (r: string)
      ensures |r| == 16
      ensures forall i :: 0 <= i < |r| ==> IsHexDigit(r[i])
      ensures Parse(r) == span.spanId
    {
      X16(span.spanId)
    }

    /** The parent id in `x16` form, or null (omitted from the JSON) for a root span. */
    function ParentId(): (r: Option<string>)
      ensures r.None? <==> span.parentId.None?
      ensures r.Some? ==> |r.value| == 16 && (forall i :: 0 <= i < 16 ==> IsHexDigit(r.value[i]))
      ensures r.Some? ==> Parse(r.value) == span.parentId.value
    {
      match span.parentId
      case Some(p) => Some(X16(p))
      case None => None
    }

    /** The operation name, as the source span holds it. */
    function Name(): (r: string)
      ensures r == span.operationName
    {
      span.operationName
    }

    /** The span-kind tag, upper-cased, or null when the span has none. */
    function Kind(): (r: Option<string>)
      ensures r.None? <==> forall i :: 0 <= i < |span.tags| ==> span.tags[i].0 != SpanKindKey
      ensures r.Some? ==> exists i :: 0 <= i < |span.tags| && span.tags[i].0 == SpanKindKey &&
                                     r.value == ToUpperInvariant(span.tags[i].1) &&
                                     forall j :: i < j < |span.tags| ==> span.tags[j].0 != SpanKindKey
      ensures r.Some? ==> forall i :: 0 <= i < |r.value| ==> !('a' <= r.value[i] <= 'z')
    {
      LastValueIsLastWrite(span.tags, SpanKindKey);
      match LastValue(span.tags, SpanKindKey)
      case Some(kind) => Some(ToUpperInvariant(kind))
      case None => None
    }

    /** The local endpoint: the span's service name, or the tracer's default when that is blank. */
    function LocalEndpoint(defaultServiceName: string): (r: map<string, string>)
      ensures r.Keys == {ServiceNameKey}
      ensures !IsNullOrWhiteSpace(span.serviceName) ==> r[ServiceNameKey] == span.serviceName.value
      ensures IsNullOrWhiteSpace(span.serviceName) ==> r[ServiceNameKey] == defaultServiceName
      ensures !IsNullOrWhiteSpace(Some(defaultServiceName)) ==> !IsNullOrWhiteSpace(Some(r[ServiceNameKey]))
    {
      var actualServiceName := if !IsNullOrWhiteSpace(span.serviceName) then span.serviceName.value
                               else defaultServiceName;
      map[ServiceNameKey := actualServiceName]
    }

    function Tags(): map<string, string>
    {
      tags
    }
  }

  /** A span whose kind tag is "server" reports the kind "SERVER". */
  lemma ServerKindExample(z: ZipkinSpan)
    requires z.span.tags == [(SpanKindKey, "server")]
    ensures z.Kind() == Some("SERVER")
  {
    assert LastValue(z.span.tags, SpanKindKey) == Some("server");
    var upper := ToUpperInvariant("server");
    assert upper[0] == 'S' && upper[1] == 'E' && upper[2] == 'R';
    assert upper[3] == 'V' && upper[4] == 'E' && upper[5] == 'R';
    assert upper == "SERVER";
  }

  /** All spans of a batch, trace after trace, each trace in its own order. */
  function Flatten(traces: seq<seq<Span<string>>>): seq<Span<string>>
  {
    if |traces| == 0 then [] else Flatten(traces[..|traces| - 1]) + traces[|traces| - 1]
  }

  function TotalSpans(traces: seq<seq<Span<string>>>): nat
  {
    if |traces| == 0 then 0 else TotalSpans(traces[..|traces| - 1]) + |traces[|traces| - 1]|
  }

  lemma {:induction false} FlattenLength(traces: seq<seq<Span<string>>>)
    ensures |Flatten(traces)| == TotalSpans(traces)
  {
    if |traces| > 0 {
      FlattenLength(traces[..|traces| - 1]);
    }
  }

  /** Span `s` of trace `t` sits after all spans of the traces before `t`. */
  lemma {:induction false} FlattenAt(traces: seq<seq<Span<string>>>, t: nat, s: nat)
    requires t < |traces| && s < |traces[t]|
    ensures TotalSpans(traces[..t]) + s < |Flatten(traces)|
    ensures Flatten(traces)[TotalSpans(traces[..t]) + s] == traces[t][s]
  {
    var init := traces[..|traces| - 1];
    FlattenLength(init);
    FlattenLength(traces);
    if t == |traces| - 1 {
      assert traces[..t] == init;
    } else {
      FlattenAt(init, t, s);
      assert init[..t] == traces[..t];
    }
  }

  /** Builds one span view per span of the batch, in trace-major, then span order. */
  method Serialize(traces: seq<seq<Span<string>>>) returns (zipkinTraces: seq<ZipkinSpan>)
    ensures |zipkinTraces| == |Flatten(traces)| == TotalSpans(traces)
    ensures forall k :: 0 <= k < |zipkinTraces| ==>
              zipkinTraces[k].span == Flatten(traces)[k] && zipkinTraces[k].Tags() == TagMap(Flatten(traces)[k])
  {
    zipkinTraces := [];
    var i := 0;
    while i < |traces|
      invariant 0 <= i <= |traces|
      invariant |zipkinTraces| == |Flatten(traces[..i])|
      invariant forall k :: 0 <= k < |zipkinTraces| ==>
                  zipkinTraces[k].span == Flatten(traces[..i])[k] && zipkinTraces[k].Tags() == TagMap(zipkinTraces[k].span)
    {
      var trace := traces[i];
      ghost var done := Flatten(traces[..i]);
      var j := 0;
      while j < |trace|
        invariant 0 <= j <= |trace|
        invariant |zipkinTraces| == |done| + j
        invariant forall k :: 0 <= k < |zipkinTraces| ==>
                    zipkinTraces[k].span == (done + trace[..j])[k] && zipkinTraces[k].Tags() == TagMap(zipkinTraces[k].span)
      {
        var zspan := new ZipkinSpan(trace[j]);
        zipkinTraces := zipkinTraces + [zspan];
        assert done + trace[..j + 1] == (done + trace[..j]) + [trace[j]];
        j := j + 1;
      }
      assert trace[..j] == trace;
      assert traces[..i + 1][..i] == traces[..i];
      i := i + 1;
    }
    assert traces[..i] == traces;
    FlattenLength(traces);
  }
}
