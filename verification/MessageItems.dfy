/** The fields of each message in the order in which `MarshalTo` writes them. */
module MessageItems {
  import opened ByteStrings
  import opened Messages
  import opened Varint
  import opened Parser
  import opened ParserLaws
  import opened Printer

  function StackItems(stack: seq<Bytes>): seq<Item> {
    if stack == [] then [] else [StringItem(3, stack[0])] + StackItems(stack[1..])
  }

  /** The entries of a map field, in the order `ks`. */
  function EntryItems(num: nat, kind: Kind, ks: seq<Bytes>, values: map<Bytes, Value>): seq<Item>
    requires forall k | k in ks :: k in values
  {
    if ks == [] then []
    else [EntryItem(num, kind, ks[0], values[ks[0]])] + EntryItems(num, kind, ks[1..], values)
  }

  function Words(m: map<Bytes, I64>): (r: map<Bytes, Value>)
    ensures r.Keys == m.Keys && forall k | k in r :: FitsMap(NumberMap, r[k])
  {
    map k | k in m :: Word(ToU64(m[k]))
  }

  function FloatWords(m: map<Bytes, U64>): (r: map<Bytes, Value>)
    ensures r.Keys == m.Keys && forall k | k in r :: FitsMap(FloatMap, r[k])
  {
    map k | k in m :: Word(m[k])
  }

  function Texts(m: map<Bytes, Bytes>): (r: map<Bytes, Value>)
    ensures r.Keys == m.Keys && forall k | k in r :: FitsMap(StringMap, r[k])
  {
    map k | k in m :: Text(m[k])
  }

  /** The fields of an error info as `MarshalTo` writes them. */
  ghost function ErrorItems(e: ErrorInfo, o: seq<Bytes>): seq<Item>
    requires OrdersError(o, e)
  {
    [NumberItem(1, ToU64(e.errorKind))] + (
    [StringItem(2, e.errorMessage)] + (
    StackItems(e.errorStack) + (
    [NumberItem(4, ToU64(e.errorOccurTime))] +
    EntryItems(256, StringMap, o, Texts(e.errorTags)))))
  }

  ghost function ErrorBytes(e: ErrorInfo, o: seq<Bytes>): Bytes
    requires OrdersError(o, e)
  {
    ItemsBytes(ErrorItems(e, o))
  }

  ghost function ErrorListItems(es: seq<ErrorInfo>, os: seq<seq<Bytes>>): seq<Item>
    requires |os| == |es| && forall i | 0 <= i < |os| :: OrdersError(os[i], es[i])
  {
    if es == [] then []
    else [MessageItem(70, ErrorMessage(es[0]), ErrorBytes(es[0], os[0]))] + ErrorListItems(es[1..], os[1..])
  }

  /** The fields of a span as `MarshalTo` writes them. */
  ghost function SpanItems(p: Span, o: SpanOrder): seq<Item>
    requires OrdersSpan(o, p)
  {
    SpanHeadItems(p, SpanMapItems(p, o))
  }

  /** The nine required fields, then the others. */
  function SpanHeadItems(p: Span, rest: seq<Item>): seq<Item> {
    [StringItem(1, p.spanId)] + (
    [StringItem(2, p.parentSpanId)] + (
    [StringItem(3, p.operationName)] + SpanNumberItems(p, rest)))
  }

  function SpanNumberItems(p: Span, rest: seq<Item>): seq<Item> {
    [NumberItem(4, ToU64(p.startTimeMillisecond))] + (
    [NumberItem(5, ToU64(p.endTimeMillisecond))] + (
    [NumberItem(6, ToU64(p.durationMicroseconds))] + (
    [NumberItem(7, ToU64(p.status))] + (
    [NumberItem(8, ToU64(p.spanType))] + (
    [NumberItem(9, ToU64(p.startTimeMicrosecond))] + rest)))))
  }

  /** A span with only the required fields of `p`. */
  function SpanHead(p: Span): Span {
    EMPTY_SPAN.(
      spanId := p.spanId, parentSpanId := p.parentSpanId, operationName := p.operationName,
      startTimeMillisecond := p.startTimeMillisecond, endTimeMillisecond := p.endTimeMillisecond,
      durationMicroseconds := p.durationMicroseconds, status := p.status, spanType := p.spanType,
      startTimeMicrosecond := p.startTimeMicrosecond)
  }

  ghost function SpanMapItems(p: Span, o: SpanOrder): seq<Item>
    requires OrdersSpan(o, p)
  {
    EntryItems(20, NumberMap, o.ints, Words(p.paramInt)) + (
    EntryItems(21, FloatMap, o.floats, FloatWords(p.paramFloat)) + (
    EntryItems(22, StringMap, o.strings, Texts(p.paramString)) + SpanTailItems(p, o)))
  }

  ghost function SpanTailItems(p: Span, o: SpanOrder): seq<Item>
    requires OrdersSpan(o, p)
  {
    [StringItem(40, p.resource)] + (
    [StringItem(60, p.callServiceType)] + (
    [StringItem(61, p.callService)] + (
    [StringItem(62, p.callResource)] +
    ErrorListItems(p.errorInfoList, o.errors))))
  }

  ghost function SpanBytes(p: Span, o: SpanOrder): Bytes
    requires OrdersSpan(o, p)
  {
    ItemsBytes(SpanItems(p, o))
  }

  ghost function SpanListItems(ps: seq<Span>, os: seq<SpanOrder>): seq<Item>
    requires |os| == |ps| && forall i | 0 <= i < |os| :: OrdersSpan(os[i], ps[i])
  {
    if ps == [] then []
    else [MessageItem(5, SpanMessage(ps[0]), SpanBytes(ps[0], os[0]))] + SpanListItems(ps[1..], os[1..])
  }

  /** The fields of a trace as `MarshalTo` writes them. */
  ghost function TraceItems(t: Trace, o: seq<SpanOrder>): seq<Item>
    requires OrdersTrace(o, t)
  {
    [StringItem(1, t.serviceType)] + (
    [StringItem(2, t.service)] + (
    [StringItem(3, t.traceId)] + (
    [StringItem(4, t.env)] + (
    SpanListItems(t.spans, o) + TraceTailItems(t)))))
  }

  function TraceTailItems(t: Trace): seq<Item> {
    [StringItem(6, t.containerId)] + (
    [NumberItem(7, ToU64(t.pid))] + (
    [NumberItem(8, ToU64(t.processStartTime))] + (
    [StringItem(9, t.instanceId)] + (
    [StringItem(64, t.appId)] + (
    [StringItem(65, t.hostname)] +
    [NumberItem(66, ToU64(t.apiTimeSeconds))])))))
  }

  ghost function TraceBytes(t: Trace, o: seq<SpanOrder>): Bytes
    requires OrdersTrace(o, t)
  {
    ItemsBytes(TraceItems(t, o))
  }
}
