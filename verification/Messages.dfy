/** The trace messages and, field by field, how a decoded value is stored into them. */
module Messages {
  import opened ByteStrings

  datatype ErrorInfo = ErrorInfo(
    errorKind: I32,
    errorMessage: Bytes,
    errorStack: seq<Bytes>,
    errorOccurTime: I64,
    errorTags: map<Bytes, Bytes>)

  /** `paramFloat` holds the 64 bits of each float64. */
  datatype Span = Span(
    spanId: Bytes,
    parentSpanId: Bytes,
    operationName: Bytes,
    startTimeMillisecond: I64,
    endTimeMillisecond: I64,
    durationMicroseconds: I64,
    status: I64,
    spanType: I32,
    startTimeMicrosecond: I64,
    paramInt: map<Bytes, I64>,
    paramFloat: map<Bytes, U64>,
    paramString: map<Bytes, Bytes>,
    resource: Bytes,
    callServiceType: Bytes,
    callService: Bytes,
    callResource: Bytes,
    errorInfoList: seq<ErrorInfo>)

  datatype Trace = Trace(
    serviceType: Bytes,
    service: Bytes,
    traceId: Bytes,
    env: Bytes,
    spans: seq<Span>,
    containerId: Bytes,
    pid: I64,
    processStartTime: I64,
    instanceId: Bytes,
    appId: Bytes,
    hostname: Bytes,
    apiTimeSeconds: I64)

  const EMPTY_ERROR_INFO := ErrorInfo(0, [], [], 0, map[])
  const EMPTY_SPAN := Span([], [], [], 0, 0, 0, 0, 0, 0, map[], map[], map[], [], [], [], [], [])
  const EMPTY_TRACE := Trace([], [], [], [], [], [], 0, 0, [], [], [], 0)

  /** Any of the three messages, so that their common decoding loop is specified once. */
  datatype Message = TraceMessage(trace: Trace) | SpanMessage(span: Span) | ErrorMessage(info: ErrorInfo)

  datatype Kind =
    | StringField
    | NumberField
    | MessageField
    | NumberMap
    | FloatMap
    | StringMap
    | UnknownField

  /** The type each message declares for a field number. */
  function KindOf(m: Message, num: int): Kind {
    match m
    case TraceMessage(_) =>
      if num == 1 || num == 2 || num == 3 || num == 4 || num == 6 || num == 9 || num == 64 || num == 65 then StringField
      else if num == 7 || num == 8 || num == 66 then NumberField
      else if num == 5 then MessageField
      else UnknownField
    case SpanMessage(_) =>
      if num == 1 || num == 2 || num == 3 || num == 40 || num == 60 || num == 61 || num == 62 then StringField
      else if num == 4 || num == 5 || num == 6 || num == 7 || num == 8 || num == 9 then NumberField
      else if num == 20 then NumberMap
      else if num == 21 then FloatMap
      else if num == 22 then StringMap
      else if num == 70 then MessageField
      else UnknownField
    case ErrorMessage(_) =>
      if num == 2 || num == 3 then StringField
      else if num == 1 || num == 4 then NumberField
      else if num == 256 then StringMap
      else UnknownField
  }

  /** The required fields of each message are 1, 2, ..., up to this number. */
  function RequiredCount(m: Message): nat {
    match m
    case TraceMessage(_) => 4
    case SpanMessage(_) => 9
    case ErrorMessage(_) => 0
  }

  predicate SameType(m: Message, n: Message) {
    m.TraceMessage? == n.TraceMessage? && m.SpanMessage? == n.SpanMessage?
  }

  function SetString(m: Message, num: int, s: Bytes): (r: Message)
    requires KindOf(m, num) == StringField
    ensures SameType(r, m)
  {
    match m
    case TraceMessage(t) =>
      TraceMessage(
        if num == 1 then t.(serviceType := s)
        else if num == 2 then t.(service := s)
        else if num == 3 then t.(traceId := s)
        else if num == 4 then t.(env := s)
        else if num == 6 then t.(containerId := s)
        else if num == 9 then t.(instanceId := s)
        else if num == 64 then t.(appId := s)
        else t.(hostname := s))
    case SpanMessage(p) =>
      SpanMessage(
        if num == 1 then p.(spanId := s)
        else if num == 2 then p.(parentSpanId := s)
        else if num == 3 then p.(operationName := s)
        else if num == 40 then p.(resource := s)
        else if num == 60 then p.(callServiceType := s)
        else if num == 61 then p.(callService := s)
        else p.(callResource := s))
    case ErrorMessage(e) =>
      ErrorMessage(
        if num == 2 then e.(errorMessage := s)
        else e.(errorStack := e.errorStack + [s]))
  }

  function SetNumber(m: Message, num: int, v: U64): (r: Message)
    requires KindOf(m, num) == NumberField
    ensures SameType(r, m)
  {
    match m
    case TraceMessage(t) =>
      TraceMessage(
        if num == 7 then t.(pid := ToI64(v))
        else if num == 8 then t.(processStartTime := ToI64(v))
        else t.(apiTimeSeconds := ToI64(v)))
    case SpanMessage(p) =>
      SpanMessage(
        if num == 4 then p.(startTimeMillisecond := ToI64(v))
        else if num == 5 then p.(endTimeMillisecond := ToI64(v))
        else if num == 6 then p.(durationMicroseconds := ToI64(v))
        else if num == 7 then p.(status := ToI64(v))
        else if num == 8 then p.(spanType := ToI32(v))
        else p.(startTimeMicrosecond := ToI64(v)))
    case ErrorMessage(e) =>
      ErrorMessage(
        if num == 1 then e.(errorKind := ToI32(v))
        else e.(errorOccurTime := ToI64(v)))
  }

  /** The empty message a nested field is decoded into. */
  function FreshSub(m: Message, num: int): Message
    requires KindOf(m, num) == MessageField
  {
    if m.TraceMessage? then SpanMessage(EMPTY_SPAN) else ErrorMessage(EMPTY_ERROR_INFO)
  }

  function AppendSub(m: Message, num: int, sub: Message): (r: Message)
    requires KindOf(m, num) == MessageField && SameType(sub, FreshSub(m, num))
    ensures SameType(r, m)
  {
    match m
    case TraceMessage(t) => TraceMessage(t.(spans := t.spans + [sub.span]))
    case SpanMessage(p) => SpanMessage(p.(errorInfoList := p.errorInfoList + [sub.info]))
  }

  predicate IsMap(k: Kind) {
    k == NumberMap || k == FloatMap || k == StringMap
  }

  /** The value of a map entry: a 64-bit word for int64 and float64, bytes for a string. */
  datatype Value = Word(bits: U64) | Text(s: Bytes)

  predicate FitsMap(k: Kind, v: Value) {
    IsMap(k) && (v.Text? <==> k == StringMap)
  }

  function ZeroValue(k: Kind): Value {
    if k == StringMap then Text([]) else Word(0)
  }

  function PutEntry(m: Message, num: int, key: Bytes, v: Value): (r: Message)
    requires FitsMap(KindOf(m, num), v)
    ensures SameType(r, m)
  {
    match m
    case SpanMessage(p) =>
      SpanMessage(
        if num == 20 then p.(paramInt := p.paramInt[key := ToI64(v.bits)])
        else if num == 21 then p.(paramFloat := p.paramFloat[key := v.bits])
        else p.(paramString := p.paramString[key := v.s]))
    case ErrorMessage(e) => ErrorMessage(e.(errorTags := e.errorTags[key := v.s]))
  }
}
