/** The finished span that both exporters read, and the small value types it is built from. */
module Spans {

  datatype Option<+T> = None | Some(value: T)

  const TwoTo63: int := 0x8000_0000_0000_0000
  const TwoTo64: int := 0x1_0000_0000_0000_0000

  /** .NET `int`, `long` and `ulong`. */
  type Int32 = x: int | -0x8000_0000 <= x < 0x8000_0000
  type Int64 = x: int | -TwoTo63 <= x < TwoTo63
  type UInt64 = x: int | 0 <= x < TwoTo64

  /** The largest tick count a .NET `DateTime` can hold (9999-12-31 23:59:59.9999999). */
  const MaxDateTimeTicks: int := 3_155_378_975_999_999_999

  /** A `DateTime.Ticks` value: 100-nanosecond intervals since 0001-01-01 00:00:00. */
  type DateTimeTicks = t: int | 0 <= t <= MaxDateTimeTicks

  /** The `(long)` cast of a `ulong`: the same 64 bits read as two's complement. */
  function ToInt64(u: UInt64): (r: Int64)
    ensures r % TwoTo64 == u
    ensures 0 <= r <==> u < TwoTo63
  {
    if u < TwoTo63 then u else u - TwoTo64
  }

  /** IEEE 754 payloads are kept as their bit patterns: the model does no floating-point arithmetic. */
  datatype Float32 = Float32(bits: bv32)
  datatype Float64 = Float64(bits: bv64)

  /**
   * A dynamically typed tag value, closed over the runtime types the Jaeger converter dispatches on.
   * `VOther` stands for any other object and carries the text its `ToString()` returns.
   */
  datatype Value =
    | VStr(s: string)
    | VInt32(i: Int32)
    | VInt64(l: Int64)
    | VFloat(f: Float32)
    | VDouble(d: Float64)
    | VBool(b: bool)
    | VOther(text: string)

  datatype StatusCode = Unset | Ok | Error

  datatype Status = Status(code: StatusCode, description: Option<string>)

  /**
   * A finished span. `V` is the type of the values the span's tag collection yields;
   * the Jaeger converter reads them as `Value`, the Zipkin view as `string`.
   */
  datatype Span<V> = Span(
    traceIdHigh: Int64,
    traceIdLow: Int64,
    spanId: UInt64,
    parentId: Option<UInt64>,
    operationName: string,
    serviceName: Option<string>,
    startUtcTicks: DateTimeTicks,
    durationTicks: Int64,
    tags: seq<(string, V)>,
    status: Status)

  /**
   * The value stored under `key` by the last entry that has that key, as a dictionary
   * filled from `tags` in order would hold it.
   */
  function LastValue<V>(tags: seq<(string, V)>, key: string): Option<V>
  {
    if |tags| == 0 then None
    else if tags[|tags| - 1].0 == key then Some(tags[|tags| - 1].1)
    else LastValue(tags[..|tags| - 1], key)
  }

  /** `LastValue` finds exactly the entry of `key` that no later entry with that key follows. */
  lemma {:induction false} LastValueIsLastWrite<V>(tags: seq<(string, V)>, key: string)
    ensures LastValue(tags, key).None? <==> forall i :: 0 <= i < |tags| ==> tags[i].0 != key
    ensures LastValue(tags, key).Some? ==>
              exists i :: 0 <= i < |tags| && tags[i] == (key, LastValue(tags, key).value) &&
                          forall j :: i < j < |tags| ==> tags[j].0 != key
  {
    if |tags| > 0 {
      var init := tags[..|tags| - 1];
      LastValueIsLastWrite(init, key);
      if tags[|tags| - 1].0 == key {
        assert tags[|tags| - 1] == (key, LastValue(tags, key).value);
      } else {
        assert forall i :: 0 <= i < |init| ==> init[i] == tags[i];
        if LastValue(init, key).Some? {
          var i :| 0 <= i < |init| && init[i] == (key, LastValue(init, key).value) &&
                   forall j :: i < j < |init| ==> init[j].0 != key;
          assert tags[i] == (key, LastValue(tags, key).value);
        }
      }
    }
  }
}
