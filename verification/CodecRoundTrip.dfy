/** The codec's main law: decoding what was printed gives the message back, in whatever order maps are iterated. */
module CodecRoundTrip {
  import opened ByteStrings
  import opened Messages
  import opened Varint
  import opened Parser
  import opened ParserLaws
  import opened Printer
  import opened MessageItems

  lemma {:induction false} ItemsBytesAppend(xs: seq<Item>, ys: seq<Item>)
    ensures ItemsBytes(xs + ys) == ItemsBytes(xs) + ItemsBytes(ys)
  {
    hide ItemBytes;
    if xs == [] {
      assert xs + ys == ys;
    } else {
      assert (xs + ys)[0] == xs[0] && (xs + ys)[1..] == xs[1..] + ys;
      ItemsBytesAppend(xs[1..], ys);
    }
  }

  /** The bytes of a list of fields fit in a Go slice. */
  predicate Short(items: seq<Item>) {
    |ItemsBytes(items)| < TWO_63
  }

  /** What decoding the printed fields gives. */
  function Decode(items: seq<Item>, st: State): Result<State> {
    ReadFields(ItemsBytes(items), st)
  }

  lemma ShortCons(x: Item, xs: seq<Item>)
    requires Short([x] + xs)
    ensures Short(xs) && |ItemBytes(x)| < TWO_63
  {
    hide ItemBytes;
    assert ([x] + xs)[1..] == xs;
  }

  lemma NumberDecoded(num: nat, v: U64, xs: seq<Item>, st: State)
    requires KindOf(st.message, num) == NumberField && Short([NumberItem(num, v)] + xs)
    ensures Short(xs)
    ensures Decode([NumberItem(num, v)] + xs, st) == Decode(xs, Saw(st, num, SetNumber(st.message, num, v)))
  {
    hide ReadFields, ItemBytes, ItemsBytes, SetNumber;
    ShortCons(NumberItem(num, v), xs);
    StepRead(NumberItem(num, v), xs, st);
  }

  lemma StringDecoded(num: nat, s: Bytes, xs: seq<Item>, st: State)
    requires KindOf(st.message, num) == StringField && Short([StringItem(num, s)] + xs)
    ensures Short(xs)
    ensures Decode([StringItem(num, s)] + xs, st) == Decode(xs, Saw(st, num, SetString(st.message, num, s)))
  {
    hide ReadFields, ItemBytes, ItemsBytes, SetString;
    ShortCons(StringItem(num, s), xs);
    StepRead(StringItem(num, s), xs, st);
  }

  lemma EntryDecoded(num: nat, kind: Kind, key: Bytes, v: Value, xs: seq<Item>, st: State)
    requires FitsMap(kind, v) && KindOf(st.message, num) == kind && Short([EntryItem(num, kind, key, v)] + xs)
    ensures Short(xs)
    ensures Decode([EntryItem(num, kind, key, v)] + xs, st)
         == Decode(xs, Saw(st, num, PutEntry(st.message, num, key, v)))
  {
    hide ReadFields, ItemBytes, ItemsBytes, PutEntry;
    ShortCons(EntryItem(num, kind, key, v), xs);
    StepRead(EntryItem(num, kind, key, v), xs, st);
  }

  lemma {:induction false} StackDecoded(stack: seq<Bytes>, rest: seq<Item>, st: State, e: ErrorInfo)
    requires st.message == ErrorMessage(e) && Short(StackItems(stack) + rest)
    ensures Short(rest)
    ensures Decode(StackItems(stack) + rest, st)
         == Decode(rest, st.(message := ErrorMessage(e.(errorStack := e.errorStack + stack))))
  {
    hide Decode, Short;
    if stack == [] {
      assert StackItems(stack) + rest == rest && e.errorStack + stack == e.errorStack;
    } else {
      var x, xs := StringItem(3, stack[0]), StackItems(stack[1..]) + rest;
      assert StackItems(stack) + rest == [x] + xs;
      StringDecoded(3, stack[0], xs, st);
      var e' := e.(errorStack := e.errorStack + [stack[0]]);
      StackDecoded(stack[1..], rest, State(ErrorMessage(e'), st.seen), e');
      assert e'.errorStack + stack[1..] == e.errorStack + stack;
    }
  }

  lemma {:induction false} IntsDecoded(ks: seq<Bytes>, m: map<Bytes, I64>, rest: seq<Item>, st: State, p: Span)
    requires forall k | k in ks :: k in m
    requires st.message == SpanMessage(p) && Short(EntryItems(20, NumberMap, ks, Words(m)) + rest)
    ensures Short(rest)
    ensures Decode(EntryItems(20, NumberMap, ks, Words(m)) + rest, st)
         == Decode(rest, st.(message := SpanMessage(p.(paramInt := p.paramInt + Restrict(ks, m)))))
  {
    hide Decode, Short;
    if ks == [] {
      assert EntryItems(20, NumberMap, ks, Words(m)) + rest == rest && p.paramInt + Restrict(ks, m) == p.paramInt;
    } else {
      var x := EntryItem(20, NumberMap, ks[0], Word(ToU64(m[ks[0]])));
      var xs := EntryItems(20, NumberMap, ks[1..], Words(m)) + rest;
      assert EntryItems(20, NumberMap, ks, Words(m)) + rest == [x] + xs;
      EntryDecoded(20, NumberMap, ks[0], Word(ToU64(m[ks[0]])), xs, st);
      SignedRoundTrip(m[ks[0]]);
      var p' := p.(paramInt := p.paramInt[ks[0] := m[ks[0]]]);
      IntsDecoded(ks[1..], m, rest, State(SpanMessage(p'), st.seen), p');
      assert p'.paramInt + Restrict(ks[1..], m) == p.paramInt + Restrict(ks, m);
    }
  }

  lemma {:induction false} FloatsDecoded(ks: seq<Bytes>, m: map<Bytes, U64>, rest: seq<Item>, st: State, p: Span)
    requires forall k | k in ks :: k in m
    requires st.message == SpanMessage(p) && Short(EntryItems(21, FloatMap, ks, FloatWords(m)) + rest)
    ensures Short(rest)
    ensures Decode(EntryItems(21, FloatMap, ks, FloatWords(m)) + rest, st)
         == Decode(rest, st.(message := SpanMessage(p.(paramFloat := p.paramFloat + Restrict(ks, m)))))
  {
    hide Decode, Short;
    if ks == [] {
      assert EntryItems(21, FloatMap, ks, FloatWords(m)) + rest == rest;
      assert p.paramFloat + Restrict(ks, m) == p.paramFloat;
    } else {
      var x := EntryItem(21, FloatMap, ks[0], Word(m[ks[0]]));
      var xs := EntryItems(21, FloatMap, ks[1..], FloatWords(m)) + rest;
      assert EntryItems(21, FloatMap, ks, FloatWords(m)) + rest == [x] + xs;
      EntryDecoded(21, FloatMap, ks[0], Word(m[ks[0]]), xs, st);
      var p' := p.(paramFloat := p.paramFloat[ks[0] := m[ks[0]]]);
      FloatsDecoded(ks[1..], m, rest, State(SpanMessage(p'), st.seen), p');
      assert p'.paramFloat + Restrict(ks[1..], m) == p.paramFloat + Restrict(ks, m);
    }
  }

  /** The message with text entries added to its string map: field 22 of a span, field 256 of an error info. */
  function AddTexts(m: Message, entries: map<Bytes, Bytes>): Message {
    match m
    case TraceMessage(_) => m
    case SpanMessage(p) => SpanMessage(p.(paramString := p.paramString + entries))
    case ErrorMessage(e) => ErrorMessage(e.(errorTags := e.errorTags + entries))
  }

  lemma {:induction false} TextsDecoded(
    num: nat, ks: seq<Bytes>, m: map<Bytes, Bytes>, rest: seq<Item>, st: State)
    requires forall k | k in ks :: k in m
    requires KindOf(st.message, num) == StringMap && Short(EntryItems(num, StringMap, ks, Texts(m)) + rest)
    ensures Short(rest)
    ensures Decode(EntryItems(num, StringMap, ks, Texts(m)) + rest, st)
         == Decode(rest, st.(message := AddTexts(st.message, Restrict(ks, m))))
  {
    hide Decode, Short, AddTexts, PutEntry;
    if ks == [] {
      NoTexts(st.message, Restrict(ks, m));
      assert EntryItems(num, StringMap, ks, Texts(m)) + rest == rest;
    } else {
      var x := EntryItem(num, StringMap, ks[0], Text(m[ks[0]]));
      var xs := EntryItems(num, StringMap, ks[1..], Texts(m)) + rest;
      assert EntryItems(num, StringMap, ks, Texts(m)) + rest == [x] + xs;
      EntryDecoded(num, StringMap, ks[0], Text(m[ks[0]]), xs, st);
      var first := map[ks[0] := m[ks[0]]];
      var st' := st.(message := AddTexts(st.message, first));
      TextEntryStored(st.message, num, ks[0], m[ks[0]]);
      TextsDecoded(num, ks[1..], m, rest, st');
      assert first + Restrict(ks[1..], m) == Restrict(ks, m);
      AddTextsTwice(st.message, first, Restrict(ks[1..], m));
    }
  }

  lemma NoTexts(m: Message, none: map<Bytes, Bytes>)
    requires none == map[]
    ensures AddTexts(m, none) == m
  {
    match m
    case TraceMessage(_) =>
    case SpanMessage(p) => assert p.paramString + none == p.paramString;
    case ErrorMessage(e) => assert e.errorTags + none == e.errorTags;
  }

  lemma TextEntryStored(m: Message, num: nat, key: Bytes, text: Bytes)
    requires KindOf(m, num) == StringMap
    ensures PutEntry(m, num, key, Text(text)) == AddTexts(m, map[key := text])
    ensures num > RequiredCount(m)
  {
    match m
    case TraceMessage(_) =>
    case SpanMessage(p) => assert p.paramString[key := text] == p.paramString + map[key := text];
    case ErrorMessage(e) => assert e.errorTags[key := text] == e.errorTags + map[key := text];
  }

  lemma AddTextsTwice(m: Message, a: map<Bytes, Bytes>, b: map<Bytes, Bytes>)
    ensures AddTexts(AddTexts(m, a), b) == AddTexts(m, a + b)
  {
    match m
    case TraceMessage(_) =>
    case SpanMessage(p) => assert p.paramString + a + b == p.paramString + (a + b);
    case ErrorMessage(e) => assert e.errorTags + a + b == e.errorTags + (a + b);
  }

  lemma ErrorDecoded(e: ErrorInfo, o: seq<Bytes>)
    requires OrdersError(o, e) && Short(ErrorItems(e, o))
    ensures Decode(ErrorItems(e, o), State(ErrorMessage(EMPTY_ERROR_INFO), {})) == Ok(State(ErrorMessage(e), {}))
  {
    hide Decode, Short, EntryItems, StackItems;
    var tags := EntryItems(256, StringMap, o, Texts(e.errorTags));
    var i4 := [NumberItem(4, ToU64(e.errorOccurTime))] + tags;
    var i3 := StackItems(e.errorStack) + i4;
    var i2 := [StringItem(2, e.errorMessage)] + i3;
    SignedRoundTrip(e.errorKind);
    NumberDecoded(1, ToU64(e.errorKind), i2, State(ErrorMessage(EMPTY_ERROR_INFO), {}));
    var e1 := EMPTY_ERROR_INFO.(errorKind := e.errorKind);
    StringDecoded(2, e.errorMessage, i3, State(ErrorMessage(e1), {}));
    var e2 := e1.(errorMessage := e.errorMessage);
    StackDecoded(e.errorStack, i4, State(ErrorMessage(e2), {}), e2);
    assert [] + e.errorStack == e.errorStack;
    var e3 := e2.(errorStack := e.errorStack);
    SignedRoundTrip(e.errorOccurTime);
    NumberDecoded(4, ToU64(e.errorOccurTime), tags, State(ErrorMessage(e3), {}));
    var e4 := e3.(errorOccurTime := e.errorOccurTime);
    assert tags + [] == tags;
    TextsDecoded(256, o, e.errorTags, [], State(ErrorMessage(e4), {}));
    assert map[] + Restrict(o, e.errorTags) == e.errorTags;
    NothingLeft(State(ErrorMessage(e), {}));
  }

  lemma NothingLeft(st: State)
    ensures Decode([], st) == Ok(st)
  {
  }

  /** A message whose required fields were all seen is the result of decoding. */
  lemma DecodeToUnmarshal(items: seq<Item>, m: Message, st: State)
    requires Decode(items, State(m, {})) == Ok(st)
    requires forall num | 1 <= num <= RequiredCount(m) :: num in st.seen
    ensures Unmarshal(ItemsBytes(items), m) == Ok(st.message)
  {
    hide ReadFields, ItemsBytes;
  }

  /** Decoding an error info that was printed gives it back, whatever the order of its tags. */
  lemma ErrorRoundTrip(e: ErrorInfo, o: seq<Bytes>)
    requires OrdersError(o, e) && Short(ErrorItems(e, o))
    ensures Unmarshal(ErrorBytes(e, o), ErrorMessage(EMPTY_ERROR_INFO)) == Ok(ErrorMessage(e))
  {
    hide Decode, ErrorItems, ItemsBytes, Unmarshal;
    ErrorDecoded(e, o);
    DecodeToUnmarshal(ErrorItems(e, o), ErrorMessage(EMPTY_ERROR_INFO), State(ErrorMessage(e), {}));
  }

  lemma {:induction false} ErrorListDecoded(
    es: seq<ErrorInfo>, os: seq<seq<Bytes>>, rest: seq<Item>, st: State, p: Span)
    requires |os| == |es| && forall i | 0 <= i < |os| :: OrdersError(os[i], es[i])
    requires st.message == SpanMessage(p) && Short(ErrorListItems(es, os) + rest)
    ensures Short(rest)
    ensures Decode(ErrorListItems(es, os) + rest, st)
         == Decode(rest, st.(message := SpanMessage(p.(errorInfoList := p.errorInfoList + es))))
  {
    hide Decode, Short, ErrorBytes, OrdersError;
    if es == [] {
      assert ErrorListItems(es, os) + rest == rest && p.errorInfoList + es == p.errorInfoList;
    } else {
      var xs := ErrorListItems(es[1..], os[1..]) + rest;
      assert ErrorListItems(es, os) + rest
          == [MessageItem(70, ErrorMessage(es[0]), ErrorBytes(es[0], os[0]))] + xs;
      ErrorInListDecoded(es[0], os[0], xs, st, p);
      var p' := p.(errorInfoList := p.errorInfoList + [es[0]]);
      ErrorListDecoded(es[1..], os[1..], rest, State(SpanMessage(p'), st.seen), p');
      assert p'.errorInfoList + es[1..] == p.errorInfoList + es;
    }
  }

  /** The body of a nested field is shorter than the field. */
  lemma BodyShort(num: nat, sub: Message, items: seq<Item>, xs: seq<Item>)
    requires Short([MessageItem(num, sub, ItemsBytes(items))] + xs)
    ensures Short(items)
  {
    hide ItemsBytes;
    ShortCons(MessageItem(num, sub, ItemsBytes(items)), xs);
    var f := DelimitedField(num, ItemsBytes(items));
    assert EncodeField(f) == Tag(num, 2) + Payload(f);
  }

  lemma ErrorInListDecoded(e: ErrorInfo, o: seq<Bytes>, xs: seq<Item>, st: State, p: Span)
    requires OrdersError(o, e) && st.message == SpanMessage(p)
    requires Short([MessageItem(70, ErrorMessage(e), ErrorBytes(e, o))] + xs)
    ensures Short(xs)
    ensures Decode([MessageItem(70, ErrorMessage(e), ErrorBytes(e, o))] + xs, st)
         == Decode(xs, st.(message := SpanMessage(p.(errorInfoList := p.errorInfoList + [e]))))
  {
    hide Unmarshal, ReadFields, ItemBytes, ItemsBytes, ErrorItems;
    BodyShort(70, ErrorMessage(e), ErrorItems(e, o), xs);
    ErrorRoundTrip(e, o);
    ShortCons(MessageItem(70, ErrorMessage(e), ErrorBytes(e, o)), xs);
    StepRead(MessageItem(70, ErrorMessage(e), ErrorBytes(e, o)), xs, st);
  }

  /** The required fields 1, ..., n. */
  function Seen(n: nat): set<int> {
    if n == 0 then {} else Seen(n - 1) + {n}
  }

  lemma {:induction false} SeenMembers(n: nat)
    ensures forall num :: num in Seen(n) <==> 1 <= num <= n
  {
    if n > 0 {
      SeenMembers(n - 1);
    }
  }

  /** A required number of a span, read when all required fields before it have been seen. */
  lemma RequiredNumber(num: nat, v: U64, xs: seq<Item>, p: Span)
    requires 4 <= num <= 9 && Short([NumberItem(num, v)] + xs)
    ensures Short(xs)
    ensures Decode([NumberItem(num, v)] + xs, State(SpanMessage(p), Seen(num - 1)))
         == Decode(xs, State(SetNumber(SpanMessage(p), num, v), Seen(num)))
  {
    hide Decode, Short, SetNumber;
    NumberDecoded(num, v, xs, State(SpanMessage(p), Seen(num - 1)));
  }

  lemma SpanNumbersDecoded(p: Span, rest: seq<Item>, p3: Span)
    requires Short(SpanNumberItems(p, rest))
    requires p3 == EMPTY_SPAN.(spanId := p.spanId, parentSpanId := p.parentSpanId, operationName := p.operationName)
    ensures Short(rest)
    ensures Decode(SpanNumberItems(p, rest), State(SpanMessage(p3), Seen(3)))
         == Decode(rest, State(SpanMessage(SpanHead(p)), Seen(9)))
  {
    hide Decode, Short, Seen;
    var i9 := [NumberItem(9, ToU64(p.startTimeMicrosecond))] + rest;
    var i8 := [NumberItem(8, ToU64(p.spanType))] + i9;
    var i7 := [NumberItem(7, ToU64(p.status))] + i8;
    var i6 := [NumberItem(6, ToU64(p.durationMicroseconds))] + i7;
    var i5 := [NumberItem(5, ToU64(p.endTimeMillisecond))] + i6;
    SignedRoundTrip(p.startTimeMillisecond);
    RequiredNumber(4, ToU64(p.startTimeMillisecond), i5, p3);
    var p4 := p3.(startTimeMillisecond := p.startTimeMillisecond);
    SignedRoundTrip(p.endTimeMillisecond);
    RequiredNumber(5, ToU64(p.endTimeMillisecond), i6, p4);
    var p5 := p4.(endTimeMillisecond := p.endTimeMillisecond);
    SignedRoundTrip(p.durationMicroseconds);
    RequiredNumber(6, ToU64(p.durationMicroseconds), i7, p5);
    var p6 := p5.(durationMicroseconds := p.durationMicroseconds);
    SignedRoundTrip(p.status);
    RequiredNumber(7, ToU64(p.status), i8, p6);
    var p7 := p6.(status := p.status);
    SignedRoundTrip(p.spanType);
    RequiredNumber(8, ToU64(p.spanType), i9, p7);
    var p8 := p7.(spanType := p.spanType);
    SignedRoundTrip(p.startTimeMicrosecond);
    RequiredNumber(9, ToU64(p.startTimeMicrosecond), rest, p8);
  }

  /** The nine required fields of a span. */
  lemma SpanHeadDecoded(p: Span, rest: seq<Item>)
    requires Short(SpanHeadItems(p, rest))
    ensures Short(rest)
    ensures Decode(SpanHeadItems(p, rest), State(SpanMessage(EMPTY_SPAN), Seen(0)))
         == Decode(rest, State(SpanMessage(SpanHead(p)), Seen(9)))
  {
    hide Decode, Short, SpanNumberItems;
    var i4 := SpanNumberItems(p, rest);
    var i3 := [StringItem(3, p.operationName)] + i4;
    var i2 := [StringItem(2, p.parentSpanId)] + i3;
    StringDecoded(1, p.spanId, i2, State(SpanMessage(EMPTY_SPAN), Seen(0)));
    var p1 := EMPTY_SPAN.(spanId := p.spanId);
    StringDecoded(2, p.parentSpanId, i3, State(SpanMessage(p1), Seen(1)));
    var p2 := p1.(parentSpanId := p.parentSpanId);
    StringDecoded(3, p.operationName, i4, State(SpanMessage(p2), Seen(2)));
    SpanNumbersDecoded(p, rest, p2.(operationName := p.operationName));
  }

  lemma SpanTailDecoded(p: Span, o: SpanOrder, p0: Span, seen: set<int>)
    requires OrdersSpan(o, p) && Short(SpanTailItems(p, o))
    requires p0.errorInfoList == []
    ensures Decode(SpanTailItems(p, o), State(SpanMessage(p0), seen))
         == Ok(State(SpanMessage(p0.(resource := p.resource, callServiceType := p.callServiceType,
                                     callService := p.callService, callResource := p.callResource,
                                     errorInfoList := p.errorInfoList)), seen))
  {
    hide Decode, Short, ErrorListItems, OrdersError;
    var errors := ErrorListItems(p.errorInfoList, o.errors);
    var i62 := [StringItem(62, p.callResource)] + errors;
    var i61 := [StringItem(61, p.callService)] + i62;
    var i60 := [StringItem(60, p.callServiceType)] + i61;
    StringDecoded(40, p.resource, i60, State(SpanMessage(p0), seen));
    var p1 := p0.(resource := p.resource);
    StringDecoded(60, p.callServiceType, i61, State(SpanMessage(p1), seen));
    var p2 := p1.(callServiceType := p.callServiceType);
    StringDecoded(61, p.callService, i62, State(SpanMessage(p2), seen));
    var p3 := p2.(callService := p.callService);
    StringDecoded(62, p.callResource, errors, State(SpanMessage(p3), seen));
    var p4 := p3.(callResource := p.callResource);
    assert errors + [] == errors;
    ErrorListDecoded(p.errorInfoList, o.errors, [], State(SpanMessage(p4), seen), p4);
    assert [] + p.errorInfoList == p.errorInfoList;
    NothingLeft(State(SpanMessage(p4.(errorInfoList := p.errorInfoList)), seen));
  }

  lemma SpanMapsDecoded(p: Span, o: SpanOrder, p0: Span, seen: set<int>)
    requires OrdersSpan(o, p) && Short(SpanMapItems(p, o))
    requires p0.paramInt == map[] && p0.paramFloat == map[] && p0.paramString == map[]
    ensures Short(SpanTailItems(p, o))
    ensures Decode(SpanMapItems(p, o), State(SpanMessage(p0), seen))
         == Decode(SpanTailItems(p, o),
                   State(SpanMessage(p0.(paramInt := p.paramInt, paramFloat := p.paramFloat,
                                         paramString := p.paramString)), seen))
  {
    hide Decode, Short, EntryItems, SpanTailItems, Restrict;
    var tail := SpanTailItems(p, o);
    var texts := EntryItems(22, StringMap, o.strings, Texts(p.paramString)) + tail;
    var floats := EntryItems(21, FloatMap, o.floats, FloatWords(p.paramFloat)) + texts;
    IntsDecoded(o.ints, p.paramInt, floats, State(SpanMessage(p0), seen), p0);
    RestrictAll(o.ints, p.paramInt);
    var p1 := p0.(paramInt := p.paramInt);
    FloatsDecoded(o.floats, p.paramFloat, texts, State(SpanMessage(p1), seen), p1);
    RestrictAll(o.floats, p.paramFloat);
    var p2 := p1.(paramFloat := p.paramFloat);
    TextsDecoded(22, o.strings, p.paramString, tail, State(SpanMessage(p2), seen));
    RestrictAll(o.strings, p.paramString);
  }

  /** Decoding a span that was printed gives it back, whatever the order of its maps. */
  lemma SpanRoundTrip(p: Span, o: SpanOrder)
    requires OrdersSpan(o, p) && Short(SpanItems(p, o))
    ensures Unmarshal(SpanBytes(p, o), SpanMessage(EMPTY_SPAN)) == Ok(SpanMessage(p))
  {
    hide Decode, Short, ItemsBytes, Unmarshal, OrdersSpan, SpanMapItems, SpanTailItems, SpanHeadItems;
    var seen := Seen(9);
    SeenMembers(9);
    assert Seen(0) == {};
    SpanHeadDecoded(p, SpanMapItems(p, o));
    SpanMapsDecoded(p, o, SpanHead(p), seen);
    var p1 := SpanHead(p).(paramInt := p.paramInt, paramFloat := p.paramFloat, paramString := p.paramString);
    SpanTailDecoded(p, o, p1, seen);
    DecodeToUnmarshal(SpanItems(p, o), SpanMessage(EMPTY_SPAN), State(SpanMessage(p), seen));
  }

  lemma SpanInListDecoded(p: Span, o: SpanOrder, xs: seq<Item>, st: State, t: Trace)
    requires OrdersSpan(o, p) && st.message == TraceMessage(t)
    requires Short([MessageItem(5, SpanMessage(p), SpanBytes(p, o))] + xs)
    ensures Short(xs)
    ensures Decode([MessageItem(5, SpanMessage(p), SpanBytes(p, o))] + xs, st)
         == Decode(xs, st.(message := TraceMessage(t.(spans := t.spans + [p]))))
  {
    hide Unmarshal, ReadFields, ItemBytes, ItemsBytes, SpanItems, OrdersSpan;
    BodyShort(5, SpanMessage(p), SpanItems(p, o), xs);
    SpanRoundTrip(p, o);
    ShortCons(MessageItem(5, SpanMessage(p), SpanBytes(p, o)), xs);
    StepRead(MessageItem(5, SpanMessage(p), SpanBytes(p, o)), xs, st);
  }

  lemma {:induction false} SpanListDecoded(ps: seq<Span>, os: seq<SpanOrder>, rest: seq<Item>, st: State, t: Trace)
    requires |os| == |ps| && forall i | 0 <= i < |os| :: OrdersSpan(os[i], ps[i])
    requires st.message == TraceMessage(t) && Short(SpanListItems(ps, os) + rest)
    ensures Short(rest)
    ensures Decode(SpanListItems(ps, os) + rest, st)
         == Decode(rest, st.(message := TraceMessage(t.(spans := t.spans + ps))))
  {
    hide Decode, Short, SpanBytes, OrdersSpan;
    if ps == [] {
      assert SpanListItems(ps, os) + rest == rest && t.spans + ps == t.spans;
    } else {
      var xs := SpanListItems(ps[1..], os[1..]) + rest;
      assert SpanListItems(ps, os) + rest == [MessageItem(5, SpanMessage(ps[0]), SpanBytes(ps[0], os[0]))] + xs;
      SpanInListDecoded(ps[0], os[0], xs, st, t);
      var t' := t.(spans := t.spans + [ps[0]]);
      SpanListDecoded(ps[1..], os[1..], rest, State(TraceMessage(t'), st.seen), t');
      assert t'.spans + ps[1..] == t.spans + ps;
    }
  }

  lemma TraceTailDecoded(t: Trace, t0: Trace, seen: set<int>)
    requires Short(TraceTailItems(t))
    ensures Decode(TraceTailItems(t), State(TraceMessage(t0), seen))
         == Ok(State(TraceMessage(t0.(containerId := t.containerId, pid := t.pid,
                                      processStartTime := t.processStartTime, instanceId := t.instanceId,
                                      appId := t.appId, hostname := t.hostname,
                                      apiTimeSeconds := t.apiTimeSeconds)), seen))
  {
    hide Decode, Short;
    var i66 := [NumberItem(66, ToU64(t.apiTimeSeconds))];
    var i65 := [StringItem(65, t.hostname)] + i66;
    var i64 := [StringItem(64, t.appId)] + i65;
    var i9 := [StringItem(9, t.instanceId)] + i64;
    var i8 := [NumberItem(8, ToU64(t.processStartTime))] + i9;
    var i7 := [NumberItem(7, ToU64(t.pid))] + i8;
    StringDecoded(6, t.containerId, i7, State(TraceMessage(t0), seen));
    var t1 := t0.(containerId := t.containerId);
    SignedRoundTrip(t.pid);
    NumberDecoded(7, ToU64(t.pid), i8, State(TraceMessage(t1), seen));
    var t2 := t1.(pid := t.pid);
    SignedRoundTrip(t.processStartTime);
    NumberDecoded(8, ToU64(t.processStartTime), i9, State(TraceMessage(t2), seen));
    var t3 := t2.(processStartTime := t.processStartTime);
    StringDecoded(9, t.instanceId, i64, State(TraceMessage(t3), seen));
    var t4 := t3.(instanceId := t.instanceId);
    StringDecoded(64, t.appId, i65, State(TraceMessage(t4), seen));
    var t5 := t4.(appId := t.appId);
    StringDecoded(65, t.hostname, i66, State(TraceMessage(t5), seen));
    var t6 := t5.(hostname := t.hostname);
    SignedRoundTrip(t.apiTimeSeconds);
    assert i66 == [NumberItem(66, ToU64(t.apiTimeSeconds))] + [];
    NumberDecoded(66, ToU64(t.apiTimeSeconds), [], State(TraceMessage(t6), seen));
    NothingLeft(State(TraceMessage(t6.(apiTimeSeconds := t.apiTimeSeconds)), seen));
  }

  lemma TraceDecoded(t: Trace, o: seq<SpanOrder>)
    requires OrdersTrace(o, t) && Short(TraceItems(t, o))
    ensures Decode(TraceItems(t, o), State(TraceMessage(EMPTY_TRACE), Seen(0))) == Ok(State(TraceMessage(t), Seen(4)))
  {
    hide Decode, Short, SpanListItems, TraceTailItems, OrdersSpan;
    var tail := TraceTailItems(t);
    var i5 := SpanListItems(t.spans, o) + tail;
    var i4 := [StringItem(4, t.env)] + i5;
    var i3 := [StringItem(3, t.traceId)] + i4;
    var i2 := [StringItem(2, t.service)] + i3;
    StringDecoded(1, t.serviceType, i2, State(TraceMessage(EMPTY_TRACE), Seen(0)));
    var t1 := EMPTY_TRACE.(serviceType := t.serviceType);
    StringDecoded(2, t.service, i3, State(TraceMessage(t1), Seen(1)));
    var t2 := t1.(service := t.service);
    StringDecoded(3, t.traceId, i4, State(TraceMessage(t2), Seen(2)));
    var t3 := t2.(traceId := t.traceId);
    StringDecoded(4, t.env, i5, State(TraceMessage(t3), Seen(3)));
    var t4 := t3.(env := t.env);
    SpanListDecoded(t.spans, o, tail, State(TraceMessage(t4), Seen(4)), t4);
    assert [] + t.spans == t.spans;
    TraceTailDecoded(t, t4.(spans := t.spans), Seen(4));
  }

  /** Decoding a trace that was printed gives it back, whatever the order in which its maps were iterated. */
  lemma TraceRoundTrip(t: Trace, o: seq<SpanOrder>)
    requires OrdersTrace(o, t) && Short(TraceItems(t, o))
    ensures Unmarshal(TraceBytes(t, o), TraceMessage(EMPTY_TRACE)) == Ok(TraceMessage(t))
  {
    hide Decode, TraceItems, ItemsBytes, Unmarshal, OrdersTrace;
    assert Seen(0) == {};
    SeenMembers(4);
    TraceDecoded(t, o);
    DecodeToUnmarshal(TraceItems(t, o), TraceMessage(EMPTY_TRACE), State(TraceMessage(t), Seen(4)));
  }
}
