/**
 * The Jaeger converter: a finished span becomes a Jaeger span record with epoch-microsecond
 * times, millisecond-truncated duration and a typed tag list that ends with the status tags.
 */
module JaegerConverter {
  import opened Spans

  // Calendar constants, derived from the 4/100/400-year cycles of the proleptic Gregorian calendar.
  const DaysPerYear: int := 365
  const DaysPer4Years: int := DaysPerYear * 4 + 1
  const DaysPer100Years: int := DaysPer4Years * 25 - 1
  const DaysPer400Years: int := DaysPer100Years * 4 + 1
  /** Days from 0001-01-01 to 1969-12-31. */
  const DaysTo1970: int := DaysPer400Years * 4 + DaysPer100Years * 3 + DaysPer4Years * 17 + DaysPerYear

  // The `TimeSpan` tick constants of .NET: a tick is 100 nanoseconds.
  const TicksPerMillisecond: int := 10_000
  const TicksPerDay: int := TicksPerMillisecond * 1000 * 60 * 60 * 24

  const UnixEpochTicks: int := DaysTo1970 * TicksPerDay
  const TicksPerMicrosecond: int := TicksPerMillisecond / 1000
  const UnixEpochMicroseconds: int := UnixEpochTicks / TicksPerMicrosecond

  lemma CalendarConstants()
    ensures DaysPer4Years == 1461 && DaysPer100Years == 36524 && DaysPer400Years == 146097
    ensures DaysTo1970 == 719_162
    ensures TicksPerMicrosecond == 10
    ensures UnixEpochTicks == 621_355_968_000_000_000
    ensures UnixEpochMicroseconds == 62_135_596_800_000_000
  {
  }

  /**
   * Microseconds since the Unix epoch of a UTC `DateTime`. The sub-microsecond ticks are
   * dropped before the epoch is subtracted, so the result is the floor of the exact
   * microsecond offset, also for instants before 1970.
   */
  function ToEpochMicroseconds(utcTicks: DateTimeTicks): (r: Int64)
    ensures UnixEpochTicks + r * TicksPerMicrosecond <= utcTicks
    ensures utcTicks < UnixEpochTicks + (r + 1) * TicksPerMicrosecond
  {
    var microseconds := utcTicks / TicksPerMicrosecond;
    microseconds - UnixEpochMicroseconds
  }

  lemma EpochIsZero()
    ensures ToEpochMicroseconds(UnixEpochTicks) == 0
    ensures ToEpochMicroseconds(UnixEpochTicks - TicksPerMicrosecond) == -1
    ensures ToEpochMicroseconds(UnixEpochTicks - 1) == -1
  {
  }

  /** Ticks below one microsecond never change the result. */
  lemma SubMicrosecondTicksDiscarded(t: DateTimeTicks)
    ensures ToEpochMicroseconds(t) == ToEpochMicroseconds(t - t % TicksPerMicrosecond)
  {
  }

  lemma EpochMicrosecondsMonotone(s: DateTimeTicks, t: DateTimeTicks)
    requires s <= t
    ensures ToEpochMicroseconds(s) <= ToEpochMicroseconds(t)
  {
  }

  /**
   * Why the truncation comes first: subtracting the epoch in ticks and then truncating toward
   * zero, as C# division does, would report the tick just before the epoch as 0, not -1.
   */
  lemma TruncatingAfterSubtractingIsOffByOne()
    ensures TruncDiv(UnixEpochTicks - 1 - UnixEpochTicks, TicksPerMicrosecond) == 0
    ensures ToEpochMicroseconds(UnixEpochTicks - 1) == -1
  {
  }

  /** C# integer division and `(long)` casts of doubles: truncation toward zero. */
  function TruncDiv(a: int, b: int): int
    requires b > 0
  {
    if a >= 0 then a / b else -((-a) / b)
  }

  function Abs(x: int): nat
  {
    if x < 0 then -x else x
  }

  /**
   * The Jaeger duration: whole milliseconds of the span's duration, times 1000. The
   * millisecond count truncates toward zero, as the cast of `TotalMilliseconds` to `long` does.
   */
  function JaegerDuration(durationTicks: Int64): (r: Int64)
    ensures r % 1000 == 0
    ensures Abs(r) <= Abs(durationTicks) / TicksPerMicrosecond < Abs(r) + 1000
    ensures r > 0 ==> durationTicks > 0
    ensures r < 0 ==> durationTicks < 0
  {
    TruncDiv(durationTicks, TicksPerMillisecond) * 1000
  }

  /** For a non-negative duration: whole milliseconds, never more than the true microseconds. */
  lemma JaegerDurationOfNonNegative(durationTicks: Int64)
    requires 0 <= durationTicks
    ensures JaegerDuration(durationTicks) == (durationTicks / TicksPerMillisecond) * 1000
    ensures 0 <= JaegerDuration(durationTicks) <= durationTicks / TicksPerMicrosecond
  {
  }

  /** A span of 1500.7 microseconds (15007 ticks) is reported as lasting 1000 microseconds. */
  lemma JaegerDurationExample()
    ensures JaegerDuration(15_007) == 1000
    ensures 15_007 / TicksPerMicrosecond == 1500
  {
  }

  datatype JaegerTagType = STRING | DOUBLE | BOOL | LONG

  /** The payload of a DOUBLE tag: a `double` as is, or a `float` to be widened by `Convert.ToDouble`. */
  datatype DoubleValue = Native(d: Float64) | Widened(f: Float32)

  /** A Jaeger tag: a key, its type, and one value field per type. */
  datatype JaegerTag = JaegerTag(
    key: string,
    vType: JaegerTagType,
    vStr: Option<string>,
    vDouble: Option<DoubleValue>,
    vBool: Option<bool>,
    vLong: Option<Int64>)

  /** Exactly the value field that `vType` names is set. */
  predicate WellFormed(t: JaegerTag)
  {
    (t.vStr.Some? <==> t.vType == STRING) &&
    (t.vDouble.Some? <==> t.vType == DOUBLE) &&
    (t.vBool.Some? <==> t.vType == BOOL) &&
    (t.vLong.Some? <==> t.vType == LONG)
  }

  function StringTag(key: string, s: string): JaegerTag
  {
    JaegerTag(key, STRING, Some(s), None, None, None)
  }

  function BoolTag(key: string, b: bool): JaegerTag
  {
    JaegerTag(key, BOOL, None, None, Some(b), None)
  }

  /** The tag for one span attribute, chosen by the runtime type of its value. */
  function ToJaegerTag(attribute: (string, Value)): (r: JaegerTag)
    ensures r.key == attribute.0 && WellFormed(r)
    ensures r.vType == LONG <==> attribute.1.VInt32? || attribute.1.VInt64?
    ensures r.vType == DOUBLE <==> attribute.1.VFloat? || attribute.1.VDouble?
    ensures r.vType == BOOL <==> attribute.1.VBool?
    ensures r.vType == STRING <==> attribute.1.VStr? || attribute.1.VOther?
    ensures attribute.1.VInt32? ==> r.vLong == Some(attribute.1.i)
    ensures attribute.1.VInt64? ==> r.vLong == Some(attribute.1.l)
    ensures attribute.1.VFloat? ==> r.vDouble == Some(Widened(attribute.1.f))
    ensures attribute.1.VDouble? ==> r.vDouble == Some(Native(attribute.1.d))
    ensures attribute.1.VBool? ==> r.vBool == Some(attribute.1.b)
    ensures attribute.1.VStr? ==> r.vStr == Some(attribute.1.s)
    ensures attribute.1.VOther? ==> r.vStr == Some(attribute.1.text)
  {
    var key := attribute.0;
    match attribute.1
    case VStr(s) => StringTag(key, s)
    case VInt32(i) => JaegerTag(key, LONG, None, None, None, Some(i))
    case VInt64(l) => JaegerTag(key, LONG, None, None, None, Some(l))
    case VFloat(f) => JaegerTag(key, DOUBLE, None, Some(Widened(f)), None, None)
    case VDouble(d) => JaegerTag(key, DOUBLE, None, Some(Native(d)), None, None)
    case VBool(b) => BoolTag(key, b)
    case VOther(text) => StringTag(key, text)
  }

  /** An `int` 5 and a `long` 5 both become the LONG tag 5. */
  lemma IntegerWidths()
    ensures ToJaegerTag(("n", VInt32(5))) == ToJaegerTag(("n", VInt64(5)))
    ensures ToJaegerTag(("n", VInt32(5))).vLong == Some(5)
  {
  }

  const StatusCodeKey: string := "otel.status_code"
  const StatusDescriptionKey: string := "otel.status_description"
  const ErrorKey: string := "error"

  /** The tags that report the span status, after the OpenTelemetry Jaeger exporter convention. */
  function StatusTags(status: Status): (r: seq<JaegerTag>)
    ensures forall i :: 0 <= i < |r| ==> WellFormed(r[i])
  {
    match status.code
    case Unset => []
    case Ok => [StringTag(StatusCodeKey, "OK")]
    case Error =>
      var description := match status.description case Some(d) => d case None => "";
      [BoolTag(ErrorKey, true), StringTag(StatusCodeKey, "ERROR"), StringTag(StatusDescriptionKey, description)]
  }

  /** The span's own tags, converted one by one. */
  function ConvertTags(tags: seq<(string, Value)>): seq<JaegerTag>
  {
    if |tags| == 0 then [] else ConvertTags(tags[..|tags| - 1]) + [ToJaegerTag(tags[|tags| - 1])]
  }

  lemma {:induction false} ConvertTagsAt(tags: seq<(string, Value)>)
    ensures |ConvertTags(tags)| == |tags|
    ensures forall i :: 0 <= i < |tags| ==> ConvertTags(tags)[i] == ToJaegerTag(tags[i])
  {
    if |tags| > 0 {
      var init := tags[..|tags| - 1];
      ConvertTagsAt(init);
      assert forall i :: 0 <= i < |init| ==> init[i] == tags[i];
    }
  }

  /** The whole tag list of the Jaeger span. */
  function JaegerTags(span: Span<Value>): seq<JaegerTag>
  {
    ConvertTags(span.tags) + StatusTags(span.status)
  }

  /**
   * The tag list holds the span's n tags converted in order, then exactly the status tags:
   * none when unset, the status code when ok, and error, code and description when in error.
   */
  lemma JaegerTagsLayout(span: Span<Value>)
    ensures var r, n := JaegerTags(span), |span.tags|;
      n <= |r| &&
      (forall i :: 0 <= i < n ==> r[i] == ToJaegerTag(span.tags[i])) &&
      (forall i :: 0 <= i < |r| ==> WellFormed(r[i])) &&
      (span.status.code == Unset ==> |r| == n) &&
      (span.status.code == Ok ==> r[n..] == [JaegerTag("otel.status_code", STRING, Some("OK"), None, None, None)]) &&
      (span.status.code == Error ==> r[n..] == [
         JaegerTag("error", BOOL, None, None, Some(true), None),
         JaegerTag("otel.status_code", STRING, Some("ERROR"), None, None, None),
         JaegerTag("otel.status_description", STRING,
                   Some(if span.status.description.Some? then span.status.description.value else ""),
                   None, None, None)])
  {
    ConvertTagsAt(span.tags);
    var r, n := JaegerTags(span), |span.tags|;
    assert r[n..] == StatusTags(span.status);
  }

  /** Builds the tag list: each span tag in order, then the status tags. */
  method ToJaegerTags(span: Span<Value>) returns (list: seq<JaegerTag>)
    ensures list == JaegerTags(span)
  {
    list := [];
    var i := 0;
    while i < |span.tags|
      invariant 0 <= i <= |span.tags|
      invariant list == ConvertTags(span.tags[..i])
    {
      assert span.tags[..i + 1][..i] == span.tags[..i];
      list := list + [ToJaegerTag(span.tags[i])];
      i := i + 1;
    }
    assert span.tags[..i] == span.tags;
    match span.status.code {
      case Ok =>
        list := list + [StringTag(StatusCodeKey, "OK")];
      case Error =>
        list := list + [BoolTag(ErrorKey, true)];
        list := list + [StringTag(StatusCodeKey, "ERROR")];
        var description := if span.status.description.Some? then span.status.description.value else "";
        list := list + [StringTag(StatusDescriptionKey, description)];
      case Unset =>
    }
  }

  /** A status of error with description "boom" ends the tag list with these three tags. */
  lemma ErrorStatusExample(span: Span<Value>)
    requires span.status == Status(Error, Some("boom"))
    ensures |JaegerTags(span)| == |span.tags| + 3
    ensures JaegerTags(span)[|span.tags|..] ==
            [BoolTag("error", true), StringTag("otel.status_code", "ERROR"), StringTag("otel.status_description", "boom")]
  {
    ConvertTagsAt(span.tags);
  }

  // Span references and logs are threaded in elsewhere; their element types are placeholders here.
  datatype JaegerSpanRef = JaegerSpanRef
  datatype JaegerLog = JaegerLog

  datatype JaegerSpan = JaegerSpan(
    traceIdLow: Int64,
    traceIdHigh: Int64,
    spanId: Int64,
    parentSpanId: Int64,
    operationName: string,
    flags: Int32,
    startTime: Int64,
    duration: Int64,
    references: seq<JaegerSpanRef>,
    tags: seq<JaegerTag>,
    logs: seq<JaegerLog>)

  /** The "sampled" flag. */
  const SampledFlag: Int32 := 0x1

  /** The Jaeger span record of a finished span. */
  function ToJaegerSpan(span: Span<Value>): (r: JaegerSpan)
    ensures r.flags == 1
    ensures r.traceIdLow == span.traceIdLow && r.traceIdHigh == span.traceIdHigh
    ensures r.spanId % TwoTo64 == span.spanId
    ensures span.parentId.None? ==> r.parentSpanId == 0
    ensures span.parentId.Some? ==> r.parentSpanId % TwoTo64 == span.parentId.value
    ensures r.operationName == span.operationName
    ensures UnixEpochTicks + r.startTime * TicksPerMicrosecond <= span.startUtcTicks
    ensures span.startUtcTicks < UnixEpochTicks + (r.startTime + 1) * TicksPerMicrosecond
    ensures r.duration == JaegerDuration(span.durationTicks)
    ensures r.references == [] && r.logs == []
    ensures r.tags == JaegerTags(span)
  {
    JaegerSpan(
      traceIdLow := span.traceIdLow,
      traceIdHigh := span.traceIdHigh,
      spanId := ToInt64(span.spanId),
      parentSpanId := ToInt64(match span.parentId case Some(p) => p case None => 0),
      operationName := span.operationName,
      flags := SampledFlag,
      startTime := ToEpochMicroseconds(span.startUtcTicks),
      duration := JaegerDuration(span.durationTicks),
      references := [],
      tags := JaegerTags(span),
      logs := [])
  }
}
