# Span export to Jaeger and Zipkin, modelled in Dafny

This project models how a tracer's exporters translate a finished span into two backend shapes.

- **Jaeger converter** (`JaegerConverter`, jaeger.dfy). A span becomes a Jaeger span record:
  - the start time in microseconds since the Unix epoch;
  - the duration truncated to whole milliseconds, then multiplied by 1000;
  - the "sampled" flag;
  - a parent id of 0 for a root span;
  - empty references and logs;
  - a typed tag list. Each span tag becomes a STRING, LONG, DOUBLE or BOOL tag, and the
    status tags of the OpenTelemetry Jaeger exporter convention follow them.
- **Zipkin serializer** (`ZipkinSerializer`, zipkin.dfy):
  - a batch of traces is flattened into one list of span views;
  - each view gives the span and parent ids as 16-digit lower-case hex;
  - the span kind is upper-cased;
  - the local endpoint is the service name, or the default name when that is blank;
  - the tag dictionary leaves out the span kind and is overlaid with the status keys of the
    OpenTelemetry Zipkin exporter convention. It is computed once, when the view is built.
- **Shared pieces:**
  - `Spans` (spans.dfy): the source span and its value types;
  - `Text` (text.dfy): .NET's `IsNullOrWhiteSpace` and `ToUpperInvariant`;
  - `Hex` (hex.dfy): the `x16` format, with a parser that inverts it.

Modelling decisions:

- **Tag value type.** Both converters read the span's tags through the same `GetAllTags()` method,
  which is not part of this model. `BuildTags` assigns those values into a
  `Dictionary<string, string>` with no cast (ZipkinSerializer.cs lines 105-110), so the
  source's span-tag values are strings on both paths. The Jaeger loop boxes each value to
  `object` (ConverterExtensions.cs line 57), and only a direct call of `ToJaegerTag`, which
  takes any `KeyValuePair<string, object>` (line 77), can reach its non-string cases. The model
  keeps the value type as a parameter of `Span<V>`: the Jaeger side reads `Span<Value>`, so
  that every case of `ToJaegerTag` is covered, and the Zipkin side reads `Span<string>`. As a
  consequence, no lemma here relates the Jaeger and the Zipkin output of one span.
- **`Value`** is the closed union `VStr | VInt32 | VInt64 | VFloat | VDouble | VBool | VOther`.
  `VOther` carries the text that the object's `ToString()` returns. Float and double payloads
  are opaque bit patterns.
- **`GetTag`** (the span-kind lookup) is not part of this model. The model reads the value of
  the last tag with that key, which is what a dictionary filled from the same tags in order
  would hold.
- **Span-kind key.** The span-kind key is the tracer's `Tags.SpanKind`, taken to be
  `"span.kind"`. No property depends on the literal, as long as it differs from the status
  keys `otel.status_code` and `error`.
- **Default service name.** The process-wide default service name (`Tracer.Instance`) is a
  parameter of `LocalEndpoint`.
- **Id casts.** The `(long)` casts of the `ulong` span and parent ids are written out as
  two's-complement reinterpretation (`Spans.ToInt64`).
- **Zipkin span view.** The view is a class with `const` fields. The source computes the tag
  dictionary in the constructor, and the `Tags` getter returns that same dictionary.
- **Batches.** `Serialize` returns the flattened list of views. Its JSON encoding is left out.

Behaviour of the code that the model keeps:

- **Null tag collection.** A null tag collection is not treated as empty. `BuildTags`
  dereferences `spanTags.Count` after a null-conditional access (ZipkinSerializer.cs lines
  104-105), so it would throw. The model has no null tag collection.
- **Eager tags.** The Zipkin view computes its tags once, in its constructor
  (ZipkinSerializer.cs line 45), not on access.
- **Overwriting.** The status keys overwrite same-named span tags in the Zipkin dictionary,
  for example a span tag `error` (ZipkinSerializer.cs lines 118-122). In the Jaeger list they
  are appended after the span's own tags.

## Model

| member | source | states |
|---|---|---|
| `Spans.ToInt64` | src/Datadog.Trace/Agent/Jaeger/ConverterExtensions.cs:32-33 | the `(long)` cast of a `ulong` id keeps its 64 bits: the result modulo 2^64 is the id, and it is negative exactly when the id is at least 2^63 |
| `Spans.LastValueIsLastWrite` | src/Datadog.Trace/Agent/Zipkin/ZipkinSerializer.cs:106-111 | the lookup finds nothing exactly when no tag has the key; otherwise it finds the value of the last entry with that key |
| `Text.ToUpperInvariant` | src/Datadog.Trace/Agent/Zipkin/ZipkinSerializer.cs:80-81 | same length, each character upper-cased, no lower-case ASCII letter remains |
| `Text.NotBlankWithNonWhiteSpace` | src/Datadog.Trace/Agent/Zipkin/ZipkinSerializer.cs:88 | `string.IsNullOrWhiteSpace`: any string with a character outside the white-space set is not blank |
| `Text.BlankStrings` | src/Datadog.Trace/Agent/Zipkin/ZipkinSerializer.cs:88 | `string.IsNullOrWhiteSpace`: null, empty and all-white-space strings (U+0009..U+000D, U+0085 and the Unicode space, line and paragraph separators) are blank; " a " and U+200B are not |
| `Hex.X16` | src/Datadog.Trace/Agent/Zipkin/ZipkinSerializer.cs:50 | `x16` gives exactly 16 characters from 0-9a-f, and parsing them as hex gives back the id |
| `Hex.FormatParse` | src/Datadog.Trace/Agent/Zipkin/ZipkinSerializer.cs:50 | zero-padded hex formatting of any number that fits the width parses back to that number |
| `Hex.X16Injective` | src/Datadog.Trace/Agent/Zipkin/ZipkinSerializer.cs:50 | distinct ids have distinct `x16` strings |
| `JaegerConverter.CalendarConstants` | src/Datadog.Trace/Agent/Jaeger/ConverterExtensions.cs:9-25 | the cycle-derived constants evaluate to 1461, 36524, 146097; DaysTo1970 = 719,162; TicksPerMicrosecond = 10; the epoch is 62,135,596,800,000,000 microseconds |
| `JaegerConverter.ToEpochMicroseconds` | src/Datadog.Trace/Agent/Jaeger/ConverterExtensions.cs:43-49 | the result is the floor of the microseconds elapsed since the Unix epoch, for instants before and after it |
| `JaegerConverter.EpochIsZero` | src/Datadog.Trace/Agent/Jaeger/ConverterExtensions.cs:43-49 | the epoch gives 0; one microsecond earlier, and also one tick earlier, gives -1 |
| `JaegerConverter.SubMicrosecondTicksDiscarded` | src/Datadog.Trace/Agent/Jaeger/ConverterExtensions.cs:45-48 | ticks `t` and `t - t % 10` convert to the same value |
| `JaegerConverter.EpochMicrosecondsMonotone` | src/Datadog.Trace/Agent/Jaeger/ConverterExtensions.cs:45-48 | the conversion never decreases as the tick count grows |
| `JaegerConverter.TruncatingAfterSubtractingIsOffByOne` | src/Datadog.Trace/Agent/Jaeger/ConverterExtensions.cs:45-46 | subtracting first and then truncating toward zero would give 0 for the tick before the epoch; the code gives -1 |
| `JaegerConverter.JaegerDuration` | src/Datadog.Trace/Agent/Jaeger/ConverterExtensions.cs:37 | the duration is a multiple of 1000, is within 1000 microseconds of the true microsecond duration and not above it in magnitude, and is zero or has the sign of the input |
| `JaegerConverter.JaegerDurationOfNonNegative` | src/Datadog.Trace/Agent/Jaeger/ConverterExtensions.cs:37 | a non-negative duration gives whole milliseconds times 1000, never more than the true microsecond duration |
| `JaegerConverter.JaegerDurationExample` | src/Datadog.Trace/Agent/Jaeger/ConverterExtensions.cs:37 | 15007 ticks (1500.7 microseconds) gives 1000 |
| `JaegerConverter.ToJaegerTag` | src/Datadog.Trace/Agent/Jaeger/ConverterExtensions.cs:77-89 | the key is kept; exactly one value field is set, the one the type names; int and long give LONG with the same number, float and double give DOUBLE, bool gives BOOL, string gives STRING, anything else gives STRING of its text |
| `JaegerConverter.IntegerWidths` | src/Datadog.Trace/Agent/Jaeger/ConverterExtensions.cs:82-83 | an `int` 5 and a `long` 5 give the same LONG tag 5 |
| `JaegerConverter.StatusTags` | src/Datadog.Trace/Agent/Jaeger/ConverterExtensions.cs:60-72 | every status tag has exactly one value field set, the one its type names |
| `JaegerConverter.ConvertTagsAt` | src/Datadog.Trace/Agent/Jaeger/ConverterExtensions.cs:55-58 | the converted list has one tag per span tag, each converted in place and in order |
| `JaegerConverter.JaegerTagsLayout` | src/Datadog.Trace/Agent/Jaeger/ConverterExtensions.cs:51-75 | the span's n tags come first, in order. Then unset adds nothing, ok adds exactly `otel.status_code="OK"`, and error adds exactly `error=true` (BOOL), `otel.status_code="ERROR"`, `otel.status_description` (the description or ""). Every tag is well formed |
| `JaegerConverter.ToJaegerTags` | src/Datadog.Trace/Agent/Jaeger/ConverterExtensions.cs:51-75 | the list built by the loop and the status switch is exactly the tag list above |
| `JaegerConverter.ErrorStatusExample` | src/Datadog.Trace/Agent/Jaeger/ConverterExtensions.cs:66-71 | error with description "boom" ends the list with `error=true`, `otel.status_code="ERROR"`, `otel.status_description="boom"` |
| `JaegerConverter.ToJaegerSpan` | src/Datadog.Trace/Agent/Jaeger/ConverterExtensions.cs:27-41 | flags are 1; trace halves and operation name are copied; span and parent ids keep their bits; the parent is 0 for a root span; the start time is the floored epoch microseconds; the duration is the truncated one; references and logs are empty; the tags are the list above |
| `ZipkinSerializer.KindFreeIsLastWrite` | src/Datadog.Trace/Agent/Zipkin/ZipkinSerializer.cs:104-112 | the dictionary never holds the span-kind key and holds every other span tag key with the value of its last occurrence, and nothing else |
| `ZipkinSerializer.TagMapProperties` | src/Datadog.Trace/Agent/Zipkin/ZipkinSerializer.cs:102-127 | no span-kind key. Unset: exactly the non-kind span tags. Ok: those tags, with `otel.status_code="OK"` set. Error: those tags, with `otel.status_code="ERROR"` set and `error` set to the description or "", overwriting earlier values |
| `ZipkinSerializer.BuildTags` | src/Datadog.Trace/Agent/Zipkin/ZipkinSerializer.cs:102-127 | the dictionary filled by the loop and the status switch is exactly the tag map above |
| `ZipkinSerializer.ZipkinSpan.constructor` | src/Datadog.Trace/Agent/Zipkin/ZipkinSerializer.cs:42-46 | the view keeps the span, and its `Tags` getter returns the tag map built at construction (lines 97-100) |
| `ZipkinSerializer.ZipkinSpan.Id` | src/Datadog.Trace/Agent/Zipkin/ZipkinSerializer.cs:48-51 | 16 lower-case hex digits that parse back to the span id |
| `ZipkinSerializer.ZipkinSpan.ParentId` | src/Datadog.Trace/Agent/Zipkin/ZipkinSerializer.cs:58-61 | null exactly when the span has no parent; otherwise 16 lower-case hex digits that parse back to the parent id |
| `ZipkinSerializer.ZipkinSpan.Name` | src/Datadog.Trace/Agent/Zipkin/ZipkinSerializer.cs:63-66 | the name is the span's operation name, unchanged |
| `ZipkinSerializer.ZipkinSpan.Kind` | src/Datadog.Trace/Agent/Zipkin/ZipkinSerializer.cs:78-82 | null exactly when no tag has the span-kind key; otherwise the upper-cased value of the last such tag, with no lower-case ASCII letter |
| `ZipkinSerializer.ZipkinSpan.LocalEndpoint` | src/Datadog.Trace/Agent/Zipkin/ZipkinSerializer.cs:84-95 | a map with the single key `serviceName`: the span's service name unless that is null, empty or white space, else the default; never blank when the default is not |
| `ZipkinSerializer.ServerKindExample` | src/Datadog.Trace/Agent/Zipkin/ZipkinSerializer.cs:78-82 | a kind tag "server" gives the kind "SERVER" |
| `ZipkinSerializer.FlattenLength` | src/Datadog.Trace/Agent/Zipkin/ZipkinSerializer.cs:19-28 | the flattened list is as long as the traces together |
| `ZipkinSerializer.FlattenAt` | src/Datadog.Trace/Agent/Zipkin/ZipkinSerializer.cs:21-28 | span `s` of trace `t` sits at the position after all spans of the earlier traces, plus `s` |
| `ZipkinSerializer.Serialize` | src/Datadog.Trace/Agent/Zipkin/ZipkinSerializer.cs:17-28 | one view per span, as many as the traces hold together, in trace-major then span order; each view's tags are the tag map of its span |

## Left out

- The JSON encoding of the span views is left out. This covers the JSON serializer, camelCase
  names, omitting null members, the UTF-8 writer without a byte-order mark and the output
  stream (ZipkinSerializer.cs lines 12-15 and 30-36). It is a vendored library plus stream
  I/O. `Serialize` stops at the list of views.
- The `TraceId`, `Timestamp` and `Duration` getters of the Zipkin view are left out. They call
  `TraceId.ToString()`, `ToUnixTimeMicroseconds` and `ToMicroseconds`, whose bodies are not part
  of this model.
- The Thrift encoding of the Jaeger span record is not part of this model. The element types of
  references and logs are placeholders, since the record always leaves them empty.
- `JaegerConverter.JaegerDuration`: the source computes `TotalMilliseconds` as a `double` and
  casts it to `long`. The model divides integer ticks by 10000, truncating toward zero.
  Rounding of very large tick counts in `double` is not modelled.
- `JaegerConverter.ToJaegerTag`: `Convert.ToDouble` of a `float` is kept as an unevaluated
  widening (`Widened`), because the model does no floating-point arithmetic.
- Null tag values are not modelled. The Jaeger conversion would reach `ToString()` on a null
  value and throw (ConverterExtensions.cs line 87). The Zipkin dictionary would hold the null
  value (ZipkinSerializer.cs line 110).
- `Text.ToUpperInvariant`: the model maps only the ASCII letters a-z. .NET's invariant culture
  also upper-cases other lower-case letters.
- Pooling in `PooledList` is not modelled. The list is a sequence.
- Null inputs other than tag values are not modelled: a null batch or a null trace in it
  (`foreach` would throw, ZipkinSerializer.cs lines 21-23), a null tag key (`entry.Key.Equals`
  would throw, line 108), and a null default service name (`LocalEndpoint` would map
  `serviceName` to null, line 90). The model's types have no null for any of them.
