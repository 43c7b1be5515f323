/**
 * The generated `Size` functions. The order in which Go iterates each map is an input; the size does not depend
 * on it.
 */
module MessageSize {
  import opened ByteStrings
  import opened Messages
  import opened Varint
  import opened Parser
  import opened ParserLaws
  import opened Printer
  import opened MessageItems
  import opened CodecRoundTrip

  function Len(items: seq<Item>): nat {
    |ItemsBytes(items)|
  }

  lemma EmptyLen()
    ensures Len([]) == 0
  {
  }

  lemma LenAppend(xs: seq<Item>, ys: seq<Item>)
    ensures Len(xs + ys) == Len(xs) + Len(ys)
  {
    hide ItemsBytes;
    ItemsBytesAppend(xs, ys);
  }

  lemma LenCons(x: Item, xs: seq<Item>)
    ensures ItemsBytes([x] + xs) == ItemBytes(x) + ItemsBytes(xs)
    ensures Len([x] + xs) == |ItemBytes(x)| + Len(xs)
  {
    hide ItemBytes;
    assert ([x] + xs)[1..] == xs;
  }

  // ----- the size does not depend on the iteration order

  /** Taking one key out of the iteration order takes out its entry's bytes. */
  lemma {:induction false} RemoveKey(
    num: nat, kind: Kind, ks: seq<Bytes>, i: nat, values: map<Bytes, Value>)
    requires i < |ks| && forall k | k in ks :: k in values
    ensures forall k | k in ks[..i] + ks[i + 1..] :: k in values
    ensures Len(EntryItems(num, kind, ks, values))
         == |ItemBytes(EntryItem(num, kind, ks[i], values[ks[i]]))|
            + Len(EntryItems(num, kind, ks[..i] + ks[i + 1..], values))
    decreases i
  {
    hide Len, EntryItems, ItemBytes;
    RestMembers(ks, i);
    FirstEntry(num, kind, ks, values);
    if i == 0 {
      RestOfFirst(ks);
    } else {
      RestOfTail(ks, i);
      RemoveKey(num, kind, ks[1..], i - 1, values);
      FirstEntry(num, kind, ks[..i] + ks[i + 1..], values);
    }
  }

  lemma RestMembers(ks: seq<Bytes>, i: nat)
    requires i < |ks|
    ensures forall k | k in ks[..i] + ks[i + 1..] :: k in ks
  {
  }

  lemma RestOfFirst(ks: seq<Bytes>)
    requires ks != []
    ensures ks[..0] + ks[1..] == ks[1..]
  {
  }

  lemma RestOfTail(ks: seq<Bytes>, i: nat)
    requires 0 < i < |ks|
    ensures ks[1..][i - 1] == ks[i]
    ensures var rest := ks[..i] + ks[i + 1..];
            rest != [] && rest[0] == ks[0] && rest[1..] == ks[1..][..i - 1] + ks[1..][i..]
  {
  }

  lemma FirstEntry(num: nat, kind: Kind, ks: seq<Bytes>, values: map<Bytes, Value>)
    requires ks != [] && forall k | k in ks :: k in values
    ensures ks[0] in values
    ensures Len(EntryItems(num, kind, ks, values))
         == |ItemBytes(EntryItem(num, kind, ks[0], values[ks[0]]))| + Len(EntryItems(num, kind, ks[1..], values))
  {
    hide Len;
    assert ks[0] in ks;
    LenCons(EntryItem(num, kind, ks[0], values[ks[0]]), EntryItems(num, kind, ks[1..], values));
  }

  lemma TailMembers(ks: seq<Bytes>)
    requires NoDup(ks) && ks != []
    ensures NoDup(ks[1..]) && forall k :: k in ks[1..] <==> k in ks && k != ks[0]
  {
    RemoveMembers(ks, 0);
    assert ks[..0] + ks[1..] == ks[1..];
  }

  lemma {:induction false} EntryOrder(
    num: nat, kind: Kind, ks: seq<Bytes>, ls: seq<Bytes>, values: map<Bytes, Value>)
    requires NoDup(ks) && NoDup(ls) && (forall k :: k in ks <==> k in ls)
    requires forall k | k in ks :: k in values
    ensures Len(EntryItems(num, kind, ks, values)) == Len(EntryItems(num, kind, ls, values))
    decreases |ks|
  {
    hide Len, NoDup;
    if ks == [] {
      FirstMember(ls);
    } else {
      assert ks[0] in ls;
      var i :| 0 <= i < |ls| && ls[i] == ks[0];
      var others := ls[..i] + ls[i + 1..];
      RemoveKey(num, kind, ls, i, values);
      RemoveKey(num, kind, ks, 0, values);
      RemoveMembers(ls, i);
      TailMembers(ks);
      assert ks[..0] + ks[1..] == ks[1..];
      EntryOrder(num, kind, ks[1..], others, values);
    }
  }

  lemma ErrorOrder(e: ErrorInfo, o: seq<Bytes>, o': seq<Bytes>)
    requires OrdersError(o, e) && OrdersError(o', e)
    ensures |ErrorBytes(e, o)| == |ErrorBytes(e, o')|
  {
    var before := [NumberItem(1, ToU64(e.errorKind))] + ([StringItem(2, e.errorMessage)] + StackItems(e.errorStack));
    before := before + [NumberItem(4, ToU64(e.errorOccurTime))];
    forall q | OrdersError(q, e)
      ensures |ErrorBytes(e, q)| == Len(before) + Len(EntryItems(256, StringMap, q, Texts(e.errorTags)))
    {
      hide ItemsBytes;
      assert ErrorItems(e, q) == before + EntryItems(256, StringMap, q, Texts(e.errorTags));
      LenAppend(before, EntryItems(256, StringMap, q, Texts(e.errorTags)));
    }
    EntryOrder(256, StringMap, o, o', Texts(e.errorTags));
  }

  lemma BodyLength(num: nat, sub: Message, body: Bytes, body': Bytes)
    requires |body| == |body'|
    ensures |ItemBytes(MessageItem(num, sub, body))| == |ItemBytes(MessageItem(num, sub, body'))|
  {
    DelimitedSize(num, body);
    DelimitedSize(num, body');
  }

  lemma NumberLayout(num: nat, v: U64)
    ensures ItemBytes(NumberItem(num, v)) == Tag(num, 0) + Encode(v)
  {
    assert EncodeField(VarintField(num, v)) == Tag(num, 0) + Encode(v);
  }

  lemma DelimitedSize(num: nat, body: Bytes)
    ensures EncodeField(DelimitedField(num, body)) == Tag(num, 2) + Encode(|body|) + body
  {
  }

  lemma {:induction false} ErrorListOrder(es: seq<ErrorInfo>, os: seq<seq<Bytes>>, os': seq<seq<Bytes>>)
    requires |os| == |os'| == |es|
    requires forall i | 0 <= i < |os| :: OrdersError(os[i], es[i]) && OrdersError(os'[i], es[i])
    ensures Len(ErrorListItems(es, os)) == Len(ErrorListItems(es, os'))
    decreases |es|
  {
    hide Len, OrdersError, ErrorBytes;
    if es != [] {
      ErrorOrder(es[0], os[0], os'[0]);
      BodyLength(70, ErrorMessage(es[0]), ErrorBytes(es[0], os[0]), ErrorBytes(es[0], os'[0]));
      ErrorListOrder(es[1..], os[1..], os'[1..]);
      LenCons(MessageItem(70, ErrorMessage(es[0]), ErrorBytes(es[0], os[0])), ErrorListItems(es[1..], os[1..]));
      LenCons(MessageItem(70, ErrorMessage(es[0]), ErrorBytes(es[0], os'[0])), ErrorListItems(es[1..], os'[1..]));
    }
  }

  /** The strings between the maps and the error infos of a span. */
  function CallItems(p: Span): seq<Item> {
    [StringItem(40, p.resource)] + ([StringItem(60, p.callServiceType)] + (
    [StringItem(61, p.callService)] + [StringItem(62, p.callResource)]))
  }

  lemma SpanLength(p: Span, o: SpanOrder)
    requires OrdersSpan(o, p)
    ensures |SpanBytes(p, o)|
         == Len(SpanHeadItems(p, [])) + Len(EntryItems(20, NumberMap, o.ints, Words(p.paramInt)))
            + Len(EntryItems(21, FloatMap, o.floats, FloatWords(p.paramFloat)))
            + Len(EntryItems(22, StringMap, o.strings, Texts(p.paramString)))
            + Len(CallItems(p)) + Len(ErrorListItems(p.errorInfoList, o.errors))
  {
    hide ItemsBytes, EntryItems, ErrorListItems, OrdersError;
    var ints := EntryItems(20, NumberMap, o.ints, Words(p.paramInt));
    var floats := EntryItems(21, FloatMap, o.floats, FloatWords(p.paramFloat));
    var texts := EntryItems(22, StringMap, o.strings, Texts(p.paramString));
    var errors := ErrorListItems(p.errorInfoList, o.errors);
    assert SpanItems(p, o) == SpanHeadItems(p, []) + (ints + (floats + (texts + SpanTailItems(p, o))));
    assert SpanTailItems(p, o) == CallItems(p) + errors;
    hide SpanHeadItems, SpanTailItems, CallItems, SpanItems;
    LenAppend(SpanHeadItems(p, []), ints + (floats + (texts + SpanTailItems(p, o))));
    LenAppend(ints, floats + (texts + SpanTailItems(p, o)));
    LenAppend(floats, texts + SpanTailItems(p, o));
    LenAppend(texts, SpanTailItems(p, o));
    LenAppend(CallItems(p), errors);
  }

  lemma SpanOrderSize(p: Span, o: SpanOrder, o': SpanOrder)
    requires OrdersSpan(o, p) && OrdersSpan(o', p)
    ensures |SpanBytes(p, o)| == |SpanBytes(p, o')|
  {
    hide Len, SpanBytes, OrdersError;
    SpanLength(p, o);
    SpanLength(p, o');
    EntryOrder(20, NumberMap, o.ints, o'.ints, Words(p.paramInt));
    EntryOrder(21, FloatMap, o.floats, o'.floats, FloatWords(p.paramFloat));
    EntryOrder(22, StringMap, o.strings, o'.strings, Texts(p.paramString));
    ErrorListOrder(p.errorInfoList, o.errors, o'.errors);
  }

  lemma {:induction false} SpanListOrder(ps: seq<Span>, os: seq<SpanOrder>, os': seq<SpanOrder>)
    requires |os| == |os'| == |ps|
    requires forall i | 0 <= i < |os| :: OrdersSpan(os[i], ps[i]) && OrdersSpan(os'[i], ps[i])
    ensures Len(SpanListItems(ps, os)) == Len(SpanListItems(ps, os'))
    decreases |ps|
  {
    hide Len, OrdersSpan, SpanBytes;
    if ps != [] {
      SpanOrderSize(ps[0], os[0], os'[0]);
      BodyLength(5, SpanMessage(ps[0]), SpanBytes(ps[0], os[0]), SpanBytes(ps[0], os'[0]));
      SpanListOrder(ps[1..], os[1..], os'[1..]);
      LenCons(MessageItem(5, SpanMessage(ps[0]), SpanBytes(ps[0], os[0])), SpanListItems(ps[1..], os[1..]));
      LenCons(MessageItem(5, SpanMessage(ps[0]), SpanBytes(ps[0], os'[0])), SpanListItems(ps[1..], os'[1..]));
    }
  }

  /** A trace takes the same number of bytes whatever the order in which each of its maps is iterated. */
  lemma TraceOrderSize(t: Trace, o: seq<SpanOrder>, o': seq<SpanOrder>)
    requires OrdersTrace(o, t) && OrdersTrace(o', t)
    ensures |TraceBytes(t, o)| == |TraceBytes(t, o')|
  {
    hide ItemsBytes, OrdersSpan, SpanListItems;
    var head := [StringItem(1, t.serviceType)] + ([StringItem(2, t.service)] + (
                [StringItem(3, t.traceId)] + [StringItem(4, t.env)]));
    forall q | OrdersTrace(q, t)
      ensures |TraceBytes(t, q)| == Len(head) + Len(SpanListItems(t.spans, q)) + Len(TraceTailItems(t))
    {
      assert TraceItems(t, q) == head + (SpanListItems(t.spans, q) + TraceTailItems(t));
      LenAppend(head, SpanListItems(t.spans, q) + TraceTailItems(t));
      LenAppend(SpanListItems(t.spans, q), TraceTailItems(t));
    }
    SpanListOrder(t.spans, o, o');
  }

  // ----- Size

  method StringSize(tagLength: nat, s: Bytes, ghost num: nat) returns (n: nat)
    requires tagLength == |Tag(num, 2)| && |s| < TWO_63
    ensures n == |ItemBytes(StringItem(num, s))|
  {
    var k := SizeOf(|s|);
    DelimitedSize(num, s);
    n := tagLength + |s| + k;
  }

  method NumberSize(tagLength: nat, v: U64, ghost num: nat) returns (n: nat)
    requires tagLength == |Tag(num, 0)|
    ensures n == |ItemBytes(NumberItem(num, v))|
  {
    var k := SizeOf(v);
    NumberLayout(num, v);
    n := tagLength + k;
  }

  /** The size of a nested message of `l` bytes. */
  method BodySize(tagLength: nat, l: nat, ghost num: nat, ghost sub: Message, ghost body: Bytes) returns (n: nat)
    requires tagLength == |Tag(num, 2)| && l == |body| < TWO_63
    ensures n == |ItemBytes(MessageItem(num, sub, body))|
  {
    var k := SizeOf(l);
    DelimitedSize(num, body);
    n := tagLength + l + k;
  }

  lemma TagLengths()
    ensures Tag(1, 2) == [0x0a] && Tag(2, 2) == [0x12] && Tag(3, 2) == [0x1a] && Tag(4, 2) == [0x22]
    ensures Tag(5, 2) == [0x2a] && Tag(6, 2) == [0x32] && Tag(9, 2) == [0x4a]
    ensures Tag(1, 0) == [0x08] && Tag(2, 0) == [0x10] && Tag(2, 1) == [0x11] && Tag(4, 0) == [0x20]
    ensures Tag(5, 0) == [0x28] && Tag(6, 0) == [0x30] && Tag(7, 0) == [0x38] && Tag(8, 0) == [0x40]
    ensures Tag(9, 0) == [0x48]
  {
  }

  lemma LongTagLengths()
    ensures Tag(20, 2) == [0xa2, 0x01] && Tag(21, 2) == [0xaa, 0x01] && Tag(22, 2) == [0xb2, 0x01]
    ensures Tag(40, 2) == [0xc2, 0x02] && Tag(60, 2) == [0xe2, 0x03] && Tag(61, 2) == [0xea, 0x03]
    ensures Tag(62, 2) == [0xf2, 0x03] && Tag(64, 2) == [0x82, 0x04] && Tag(65, 2) == [0x8a, 0x04]
    ensures Tag(66, 0) == [0x90, 0x04] && Tag(70, 2) == [0xb2, 0x04] && Tag(256, 2) == [0x82, 0x10]
  {
  }

  /** `mapEntrySize` of the source: the bytes of one map entry without its tag and length. */
  method EntrySize(kind: Kind, key: Bytes, value: Value) returns (n: nat)
    requires FitsMap(kind, value) && |EntryBytes(kind, key, value)| < TWO_63
    ensures n == |EntryBytes(kind, key, value)|
  {
    TagLengths();
    var k := SizeOf(|key|);
    n := 1 + |key| + k + 1;
    match value
    case Word(bits) =>
      if kind == FloatMap {
        n := n + 8;
      } else {
        var v := SizeOf(bits);
        n := n + v;
      }
    case Text(s) =>
      var v := SizeOf(|s|);
      n := n + |s| + v;
  }

  lemma EntryShort(num: nat, kind: Kind, key: Bytes, value: Value, xs: seq<Item>)
    requires Short([EntryItem(num, kind, key, value)] + xs)
    ensures |EntryBytes(kind, key, value)| < TWO_63
    ensures |ItemBytes(EntryItem(num, kind, key, value))|
         == |Tag(num, 2)| + |Encode(|EntryBytes(kind, key, value)|)| + |EntryBytes(kind, key, value)|
  {
    hide EntryBytes, Tag, Encode;
    ShortCons(EntryItem(num, kind, key, value), xs);
    DelimitedSize(num, EntryBytes(kind, key, value));
  }

  /** The loop over one map of a span or of an error info, in the order `ks`. */
  method MapSize(num: nat, kind: Kind, ks: seq<Bytes>, values: map<Bytes, Value>) returns (n: nat)
    requires (forall k | k in ks :: k in values) && (forall k | k in values :: FitsMap(kind, values[k]))
    requires |Tag(num, 2)| == 2 && Short(EntryItems(num, kind, ks, values))
    ensures n == Len(EntryItems(num, kind, ks, values))
  {
    n := 0;
    var i := 0;
    assert ks[0..] == ks;
    while i < |ks|
      invariant 0 <= i <= |ks|
      invariant n + Len(EntryItems(num, kind, ks[i..], values)) == Len(EntryItems(num, kind, ks, values))
    {
      hide ItemsBytes, ItemBytes, Tag, EntryBytes;
      var key, value := ks[i], values[ks[i]];
      ghost var x, xs := EntryItem(num, kind, key, value), EntryItems(num, kind, ks[i + 1..], values);
      assert ks[i..][0] == key && ks[i..][1..] == ks[i + 1..];
      assert EntryItems(num, kind, ks[i..], values) == [x] + xs;
      EntryShort(num, kind, key, value, xs);
      LenCons(x, xs);
      var entry := EntrySize(kind, key, value);
      var k := SizeOf(entry);
      n := n + entry + 2 + k;
      i := i + 1;
    }
  }

  /** `ErrorInfo.Size` is exactly the number of bytes `MarshalTo` writes. */
  method ErrorSize(e: ErrorInfo, o: seq<Bytes>) returns (n: nat)
    requires OrdersError(o, e) && Short(ErrorItems(e, o))
    ensures n == |ErrorBytes(e, o)|
  {
    hide ItemsBytes, ItemBytes, Tag, EntryItems, StackItems;
    TagLengths();
    LongTagLengths();
    ghost var tags := EntryItems(256, StringMap, o, Texts(e.errorTags));
    ghost var i4 := [NumberItem(4, ToU64(e.errorOccurTime))] + tags;
    ghost var i3 := StackItems(e.errorStack) + i4;
    ghost var i2 := [StringItem(2, e.errorMessage)] + i3;
    var k := NumberSize(1, ToU64(e.errorKind), 1);
    n := k;
    LenCons(NumberItem(1, ToU64(e.errorKind)), i2);
    LenCons(StringItem(2, e.errorMessage), i3);
    ShortString(2, e.errorMessage, i3);
    k := StringSize(1, e.errorMessage, 2);
    n := n + k;
    LenAppend(StackItems(e.errorStack), i4);
    k := StackSize(e.errorStack);
    n := n + k;
    LenCons(NumberItem(4, ToU64(e.errorOccurTime)), tags);
    k := NumberSize(1, ToU64(e.errorOccurTime), 4);
    n := n + k;
    k := MapSize(256, StringMap, o, Texts(e.errorTags));
    n := n + k;
  }

  lemma ShortString(num: nat, s: Bytes, xs: seq<Item>)
    requires Short([StringItem(num, s)] + xs)
    ensures |s| < TWO_63 && Short(xs)
  {
    hide ItemsBytes, Tag, Encode;
    ShortCons(StringItem(num, s), xs);
    DelimitedSize(num, s);
  }

  /** The loop over the lines of an error stack. */
  method StackSize(stack: seq<Bytes>) returns (n: nat)
    requires Short(StackItems(stack))
    ensures n == Len(StackItems(stack))
  {
    TagLengths();
    n := 0;
    var i := 0;
    assert stack[0..] == stack;
    while i < |stack|
      invariant 0 <= i <= |stack|
      invariant n + Len(StackItems(stack[i..])) == Len(StackItems(stack))
    {
      hide ItemsBytes, ItemBytes, Tag;
      assert stack[i..][0] == stack[i] && stack[i..][1..] == stack[i + 1..];
      ShortString(3, stack[i], StackItems(stack[i + 1..]));
      LenCons(StringItem(3, stack[i]), StackItems(stack[i + 1..]));
      var k := StringSize(1, stack[i], 3);
      n := n + k;
      i := i + 1;
    }
  }

  /** The part of `Span.Size` before the maps. */
  method SpanHeadSize(p: Span, ghost rest: seq<Item>) returns (n: nat)
    requires Short(SpanHeadItems(p, rest))
    ensures n + Len(rest) == Len(SpanHeadItems(p, rest))
  {
    hide ItemsBytes, ItemBytes, Tag;
    TagLengths();
    ghost var i9 := [NumberItem(9, ToU64(p.startTimeMicrosecond))] + rest;
    ghost var i8 := [NumberItem(8, ToU64(p.spanType))] + i9;
    ghost var i7 := [NumberItem(7, ToU64(p.status))] + i8;
    ghost var i6 := [NumberItem(6, ToU64(p.durationMicroseconds))] + i7;
    ghost var i5 := [NumberItem(5, ToU64(p.endTimeMillisecond))] + i6;
    ghost var i4 := [NumberItem(4, ToU64(p.startTimeMillisecond))] + i5;
    ghost var i3 := [StringItem(3, p.operationName)] + i4;
    ghost var i2 := [StringItem(2, p.parentSpanId)] + i3;
    var k;
    n := 0;
    LenCons(StringItem(1, p.spanId), i2);
    ShortString(1, p.spanId, i2);
    k := StringSize(1, p.spanId, 1);
    n := n + k;
    LenCons(StringItem(2, p.parentSpanId), i3);
    ShortString(2, p.parentSpanId, i3);
    k := StringSize(1, p.parentSpanId, 2);
    n := n + k;
    LenCons(StringItem(3, p.operationName), i4);
    ShortString(3, p.operationName, i4);
    k := StringSize(1, p.operationName, 3);
    n := n + k;
    LenCons(NumberItem(4, ToU64(p.startTimeMillisecond)), i5);
    k := NumberSize(1, ToU64(p.startTimeMillisecond), 4);
    n := n + k;
    LenCons(NumberItem(5, ToU64(p.endTimeMillisecond)), i6);
    k := NumberSize(1, ToU64(p.endTimeMillisecond), 5);
    n := n + k;
    LenCons(NumberItem(6, ToU64(p.durationMicroseconds)), i7);
    k := NumberSize(1, ToU64(p.durationMicroseconds), 6);
    n := n + k;
    LenCons(NumberItem(7, ToU64(p.status)), i8);
    k := NumberSize(1, ToU64(p.status), 7);
    n := n + k;
    LenCons(NumberItem(8, ToU64(p.spanType)), i9);
    k := NumberSize(1, ToU64(p.spanType), 8);
    n := n + k;
    LenCons(NumberItem(9, ToU64(p.startTimeMicrosecond)), rest);
    k := NumberSize(1, ToU64(p.startTimeMicrosecond), 9);
    n := n + k;
  }

  /** The part of `Span.Size` after the maps. */
  method SpanTailSize(p: Span, o: SpanOrder) returns (n: nat)
    requires OrdersSpan(o, p) && Short(SpanTailItems(p, o))
    ensures n == Len(SpanTailItems(p, o))
  {
    hide ItemsBytes, ItemBytes, Tag, ErrorListItems, OrdersError;
    LongTagLengths();
    ghost var errors := ErrorListItems(p.errorInfoList, o.errors);
    ghost var i62 := [StringItem(62, p.callResource)] + errors;
    ghost var i61 := [StringItem(61, p.callService)] + i62;
    ghost var i60 := [StringItem(60, p.callServiceType)] + i61;
    var k;
    n := 0;
    LenCons(StringItem(40, p.resource), i60);
    ShortString(40, p.resource, i60);
    k := StringSize(2, p.resource, 40);
    n := n + k;
    LenCons(StringItem(60, p.callServiceType), i61);
    ShortString(60, p.callServiceType, i61);
    k := StringSize(2, p.callServiceType, 60);
    n := n + k;
    LenCons(StringItem(61, p.callService), i62);
    ShortString(61, p.callService, i62);
    k := StringSize(2, p.callService, 61);
    n := n + k;
    LenCons(StringItem(62, p.callResource), errors);
    ShortString(62, p.callResource, errors);
    k := StringSize(2, p.callResource, 62);
    n := n + k;
    k := ErrorListSize(p.errorInfoList, o.errors);
    n := n + k;
  }

  /** The items from an error info on, in terms of the items behind it. */
  lemma NextError(es: seq<ErrorInfo>, os: seq<seq<Bytes>>, i: nat)
    requires |os| == |es| && i < |es| && forall k | 0 <= k < |os| :: OrdersError(os[k], es[k])
    ensures ErrorListItems(es[i..], os[i..])
         == [MessageItem(70, ErrorMessage(es[i]), ErrorBytes(es[i], os[i]))]
            + ErrorListItems(es[i + 1..], os[i + 1..])
  {
    hide OrdersError, ErrorBytes;
    assert es[i..][1..] == es[i + 1..] && os[i..][1..] == os[i + 1..];
  }

  method ErrorListSize(es: seq<ErrorInfo>, os: seq<seq<Bytes>>) returns (n: nat)
    requires |os| == |es| && forall i | 0 <= i < |os| :: OrdersError(os[i], es[i])
    requires Short(ErrorListItems(es, os))
    ensures n == Len(ErrorListItems(es, os))
  {
    hide ItemBytes, Tag, OrdersError, ErrorItems;
    assert |Tag(70, 2)| == 2 by {
      LongTagLengths();
    }
    n := 0;
    var i := 0;
    assert es[0..] == es && os[0..] == os;
    while i < |es|
      invariant 0 <= i <= |es|
      invariant n + Len(ErrorListItems(es[i..], os[i..])) == Len(ErrorListItems(es, os))
    {
      hide ErrorListItems, ItemsBytes;
      ghost var x := MessageItem(70, ErrorMessage(es[i]), ErrorBytes(es[i], os[i]));
      ghost var xs := ErrorListItems(es[i + 1..], os[i + 1..]);
      NextError(es, os, i);
      BodyShort(70, ErrorMessage(es[i]), ErrorItems(es[i], os[i]), xs);
      LenCons(x, xs);
      var l := ErrorSize(es[i], os[i]);
      var k := BodySize(2, l, 70, ErrorMessage(es[i]), ErrorBytes(es[i], os[i]));
      n := n + k;
      i := i + 1;
    }
  }

  /** `Span.Size` is exactly the number of bytes `MarshalTo` writes. */
  method SpanSize(p: Span, o: SpanOrder) returns (n: nat)
    requires OrdersSpan(o, p) && Short(SpanItems(p, o))
    ensures n == |SpanBytes(p, o)|
  {
    hide ItemsBytes, ItemBytes, Tag, EntryItems, SpanHeadItems, SpanTailItems, OrdersError;
    LongTagLengths();
    ghost var tail := SpanTailItems(p, o);
    ghost var texts := EntryItems(22, StringMap, o.strings, Texts(p.paramString));
    ghost var floats := EntryItems(21, FloatMap, o.floats, FloatWords(p.paramFloat));
    ghost var ints := EntryItems(20, NumberMap, o.ints, Words(p.paramInt));
    LenAppend(ints, floats + (texts + tail));
    LenAppend(floats, texts + tail);
    LenAppend(texts, tail);
    n := SpanHeadSize(p, SpanMapItems(p, o));
    var k := MapSize(20, NumberMap, o.ints, Words(p.paramInt));
    n := n + k;
    k := MapSize(21, FloatMap, o.floats, FloatWords(p.paramFloat));
    n := n + k;
    k := MapSize(22, StringMap, o.strings, Texts(p.paramString));
    n := n + k;
    k := SpanTailSize(p, o);
    n := n + k;
  }

  method SpanListSize(ps: seq<Span>, os: seq<SpanOrder>) returns (n: nat)
    requires |os| == |ps| && forall i | 0 <= i < |os| :: OrdersSpan(os[i], ps[i])
    requires Short(SpanListItems(ps, os))
    ensures n == Len(SpanListItems(ps, os))
  {
    TagLengths();
    n := 0;
    var i := 0;
    assert ps[0..] == ps && os[0..] == os;
    while i < |ps|
      invariant 0 <= i <= |ps|
      invariant n + Len(SpanListItems(ps[i..], os[i..])) == Len(SpanListItems(ps, os))
    {
      hide ItemsBytes, ItemBytes, Tag, OrdersSpan, SpanItems, Len, SpanListItems;
      NextSpan(ps, os, i);
      var l := SpanSize(ps[i], os[i]);
      var k := BodySize(1, l, 5, SpanMessage(ps[i]), SpanBytes(ps[i], os[i]));
      n := n + k;
      i := i + 1;
    }
  }

  /** The first of the spans from `i` on. */
  lemma NextSpan(ps: seq<Span>, os: seq<SpanOrder>, i: nat)
    requires i < |ps| == |os| && forall k | 0 <= k < |os| :: OrdersSpan(os[k], ps[k])
    requires Short(SpanListItems(ps[i..], os[i..]))
    ensures Short(SpanListItems(ps[i + 1..], os[i + 1..])) && Short(SpanItems(ps[i], os[i]))
    ensures Len(SpanListItems(ps[i..], os[i..]))
         == |ItemBytes(MessageItem(5, SpanMessage(ps[i]), SpanBytes(ps[i], os[i])))|
            + Len(SpanListItems(ps[i + 1..], os[i + 1..]))
  {
    hide ItemsBytes, ItemBytes, Tag, OrdersSpan, SpanItems;
    var x := MessageItem(5, SpanMessage(ps[i]), SpanBytes(ps[i], os[i]));
    var xs := SpanListItems(ps[i + 1..], os[i + 1..]);
    assert ps[i..][1..] == ps[i + 1..] && os[i..][1..] == os[i + 1..];
    assert SpanListItems(ps[i..], os[i..]) == [x] + xs;
    BodyShort(5, SpanMessage(ps[i]), SpanItems(ps[i], os[i]), xs);
    LenCons(x, xs);
  }

  /** The part of `Trace.Size` after the spans. */
  method TraceTailSize(t: Trace) returns (n: nat)
    requires Short(TraceTailItems(t))
    ensures n == Len(TraceTailItems(t))
  {
    hide ItemsBytes, ItemBytes, Tag;
    TagLengths();
    LongTagLengths();
    ghost var i66 := [NumberItem(66, ToU64(t.apiTimeSeconds))];
    ghost var i65 := [StringItem(65, t.hostname)] + i66;
    ghost var i64 := [StringItem(64, t.appId)] + i65;
    ghost var i9 := [StringItem(9, t.instanceId)] + i64;
    ghost var i8 := [NumberItem(8, ToU64(t.processStartTime))] + i9;
    ghost var i7 := [NumberItem(7, ToU64(t.pid))] + i8;
    assert i66 == [NumberItem(66, ToU64(t.apiTimeSeconds))] + [];
    EmptyLen();
    var k;
    n := 0;
    LenCons(StringItem(6, t.containerId), i7);
    ShortString(6, t.containerId, i7);
    k := StringSize(1, t.containerId, 6);
    n := n + k;
    LenCons(NumberItem(7, ToU64(t.pid)), i8);
    k := NumberSize(1, ToU64(t.pid), 7);
    n := n + k;
    LenCons(NumberItem(8, ToU64(t.processStartTime)), i9);
    k := NumberSize(1, ToU64(t.processStartTime), 8);
    n := n + k;
    LenCons(StringItem(9, t.instanceId), i64);
    ShortString(9, t.instanceId, i64);
    k := StringSize(1, t.instanceId, 9);
    n := n + k;
    LenCons(StringItem(64, t.appId), i65);
    ShortString(64, t.appId, i65);
    k := StringSize(2, t.appId, 64);
    n := n + k;
    LenCons(StringItem(65, t.hostname), i66);
    ShortString(65, t.hostname, i66);
    k := StringSize(2, t.hostname, 65);
    n := n + k;
    LenCons(NumberItem(66, ToU64(t.apiTimeSeconds)), []);
    k := NumberSize(2, ToU64(t.apiTimeSeconds), 66);
    n := n + k;
  }

  /** `Trace.Size` is exactly the number of bytes `MarshalTo` writes, whatever order either iterates the maps in. */
  method TraceSize(t: Trace, o: seq<SpanOrder>) returns (n: nat)
    requires OrdersTrace(o, t) && Short(TraceItems(t, o))
    ensures forall o' | OrdersTrace(o', t) :: n == |TraceBytes(t, o')|
  {
    hide ItemsBytes, ItemBytes, Tag, SpanListItems, TraceTailItems, OrdersSpan;
    TagLengths();
    ghost var tail := TraceTailItems(t);
    ghost var i5 := SpanListItems(t.spans, o) + tail;
    ghost var i4 := [StringItem(4, t.env)] + i5;
    ghost var i3 := [StringItem(3, t.traceId)] + i4;
    ghost var i2 := [StringItem(2, t.service)] + i3;
    var k;
    n := 0;
    LenCons(StringItem(1, t.serviceType), i2);
    ShortString(1, t.serviceType, i2);
    k := StringSize(1, t.serviceType, 1);
    n := n + k;
    LenCons(StringItem(2, t.service), i3);
    ShortString(2, t.service, i3);
    k := StringSize(1, t.service, 2);
    n := n + k;
    LenCons(StringItem(3, t.traceId), i4);
    ShortString(3, t.traceId, i4);
    k := StringSize(1, t.traceId, 3);
    n := n + k;
    LenCons(StringItem(4, t.env), i5);
    ShortString(4, t.env, i5);
    k := StringSize(1, t.env, 4);
    n := n + k;
    LenAppend(SpanListItems(t.spans, o), tail);
    k := SpanListSize(t.spans, o);
    n := n + k;
    k := TraceTailSize(t);
    n := n + k;
    forall o' | OrdersTrace(o', t) ensures n == |TraceBytes(t, o')| {
      TraceOrderSize(t, o, o');
    }
  }
}
