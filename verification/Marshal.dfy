/**
 * The generated `MarshalTo` functions: writes into a preallocated array through a moving index. The order in which
 * Go iterates each map is an input; the sizes of nested messages may be computed in another order (`sizing`).
 */
module Marshal {
  import opened ByteStrings
  import opened Messages
  import opened Varint
  import opened ParserLaws
  import opened Printer
  import opened MessageItems
  import opened CodecRoundTrip
  import opened MessageSize

  /** `i += copy(dAtA[i:], s)` */
  method PutBytes(a: array<Byte>, index: nat, s: Bytes) returns (end: nat)
    requires index + |s| <= a.Length
    modifies a
    ensures end == index + |s|
    ensures a[..end] == old(a[..index]) + s
    ensures forall k | end <= k < a.Length :: a[k] == old(a[k])
  {
    forall k | 0 <= k < |s| {
      a[index + k] := s[k];
    }
    end := index + |s|;
  }

  /** A tag, a varint length and that many bytes. */
  method PutDelimited(a: array<Byte>, index: nat, tag: Bytes, s: Bytes) returns (end: nat)
    requires |s| < TWO_63 && index + |tag + Encode(|s|) + s| <= a.Length
    modifies a
    ensures end == index + |tag + Encode(|s|) + s|
    ensures a[..end] == old(a[..index]) + (tag + Encode(|s|) + s)
    ensures forall k | end <= k < a.Length :: a[k] == old(a[k])
  {
    hide Encode;
    end := PutBytes(a, index, tag);
    end := Write(a, end, |s|);
    end := PutBytes(a, end, s);
  }

  /** A string field. */
  method PutString(a: array<Byte>, index: nat, tag: Bytes, s: Bytes, ghost num: nat, ghost xs: seq<Item>)
    returns (end: nat)
    requires tag == Tag(num, 2)
    requires index + Len([StringItem(num, s)] + xs) <= a.Length && Short([StringItem(num, s)] + xs)
    modifies a
    ensures index <= end && end + Len(xs) == index + Len([StringItem(num, s)] + xs)
    ensures a[..end] + ItemsBytes(xs) == old(a[..index]) + ItemsBytes([StringItem(num, s)] + xs)
    ensures forall k | end <= k < a.Length :: a[k] == old(a[k])
  {
    hide ItemsBytes, Tag, Encode;
    ghost var before := a[..index];
    LenCons(StringItem(num, s), xs);
    ShortString(num, s, xs);
    DelimitedSize(num, s);
    end := PutDelimited(a, index, tag, s);
    assert a[..end] == before + ItemBytes(StringItem(num, s));
  }

  /** A tag and a varint. */
  method PutNumber(a: array<Byte>, index: nat, tag: Bytes, v: U64, ghost num: nat, ghost xs: seq<Item>)
    returns (end: nat)
    requires tag == Tag(num, 0)
    requires index + Len([NumberItem(num, v)] + xs) <= a.Length && Short([NumberItem(num, v)] + xs)
    modifies a
    ensures index <= end && end + Len(xs) == index + Len([NumberItem(num, v)] + xs)
    ensures a[..end] + ItemsBytes(xs) == old(a[..index]) + ItemsBytes([NumberItem(num, v)] + xs)
    ensures forall k | end <= k < a.Length :: a[k] == old(a[k])
  {
    hide ItemsBytes, Tag, Encode;
    ghost var before := a[..index];
    LenCons(NumberItem(num, v), xs);
    NumberLayout(num, v);
    end := PutBytes(a, index, tag);
    end := Write(a, end, v);
    assert a[..end] == before + ItemBytes(NumberItem(num, v));
  }

  /** A tag and the length of a nested message, whose body the caller writes next. */
  method PutHeader(a: array<Byte>, index: nat, tag: Bytes, length: nat) returns (end: nat)
    requires length < TWO_63 && index + |tag| + |Encode(length)| <= a.Length
    modifies a
    ensures end == index + |tag| + |Encode(length)|
    ensures a[..end] == old(a[..index]) + tag + Encode(length)
    ensures forall k | end <= k < a.Length :: a[k] == old(a[k])
  {
    end := PutBytes(a, index, tag);
    end := Write(a, end, length);
  }

  /** The value of a map entry, as its field 2. */
  method PutValue(a: array<Byte>, index: nat, kind: Kind, value: Value) returns (end: nat)
    requires FitsMap(kind, value) && (value.Text? ==> |value.s| < TWO_63)
    requires index + |ValueBytes(kind, value)| <= a.Length
    modifies a
    ensures end == index + |ValueBytes(kind, value)|
    ensures a[..end] == old(a[..index]) + ValueBytes(kind, value)
    ensures forall k | end <= k < a.Length :: a[k] == old(a[k])
  {
    TagLengths();
    hide Tag, Encode, LittleEndian;
    match value
    case Word(bits) =>
      ghost var before := a[..index];
      if kind == FloatMap {
        end := PutBytes(a, index, [0x11]);
        end := PutBytes(a, end, LittleEndian(bits, 8));
        Regroup(before, [0x11], LittleEndian(bits, 8));
      } else {
        end := PutBytes(a, index, [0x10]);
        end := Write(a, end, bits);
        Regroup(before, [0x10], Encode(bits));
      }
    case Text(s) =>
      end := PutDelimited(a, index, [0x12], s);
  }

  /** One map entry: its tag, `mapSize`, the key as field 1 and the value as field 2. */
  method PutEntry(a: array<Byte>, index: nat, tag: Bytes, kind: Kind, key: Bytes, value: Value,
                  ghost num: nat, ghost xs: seq<Item>)
    returns (end: nat)
    requires tag == Tag(num, 2) && FitsMap(kind, value)
    requires index + Len([EntryItem(num, kind, key, value)] + xs) <= a.Length
    requires Short([EntryItem(num, kind, key, value)] + xs)
    modifies a
    ensures index <= end && end + Len(xs) == index + Len([EntryItem(num, kind, key, value)] + xs)
    ensures a[..end] + ItemsBytes(xs) == old(a[..index]) + ItemsBytes([EntryItem(num, kind, key, value)] + xs)
    ensures forall k | end <= k < a.Length :: a[k] == old(a[k])
  {
    TagLengths();
    hide ItemsBytes, Tag, Encode, ValueBytes;
    ghost var before := a[..index];
    LenCons(EntryItem(num, kind, key, value), xs);
    EntryShort(num, kind, key, value, xs);
    DelimitedSize(num, EntryBytes(kind, key, value));
    var mapSize := EntrySize(kind, key, value);
    end := PutHeader(a, index, tag, mapSize);
    end := PutDelimited(a, end, [0x0a], key);
    end := PutValue(a, end, kind, value);
    assert a[..end] == before + (Tag(num, 2) + Encode(mapSize) + EntryBytes(kind, key, value));
    assert a[..end] == before + ItemBytes(EntryItem(num, kind, key, value));
  }

  /** The loop over one map, in the order `ks`. */
  method PutMap(a: array<Byte>, index: nat, tag: Bytes, num: nat, kind: Kind, ks: seq<Bytes>,
                values: map<Bytes, Value>, ghost xs: seq<Item>)
    returns (end: nat)
    requires tag == Tag(num, 2)
    requires (forall k | k in ks :: k in values) && (forall k | k in values :: FitsMap(kind, values[k]))
    requires index + Len(EntryItems(num, kind, ks, values) + xs) <= a.Length
    requires Short(EntryItems(num, kind, ks, values) + xs)
    modifies a
    ensures index <= end && end + Len(xs) == index + Len(EntryItems(num, kind, ks, values) + xs)
    ensures a[..end] + ItemsBytes(xs) == old(a[..index]) + ItemsBytes(EntryItems(num, kind, ks, values) + xs)
    ensures forall k | end <= k < a.Length :: a[k] == old(a[k])
  {
    hide ItemsBytes, Tag;
    end := index;
    var i := 0;
    ghost var all := EntryItems(num, kind, ks, values) + xs;
    assert ks[0..] == ks;
    while i < |ks|
      invariant 0 <= i <= |ks|
      invariant Short(EntryItems(num, kind, ks[i..], values) + xs)
      invariant end + Len(EntryItems(num, kind, ks[i..], values) + xs) == index + Len(all)
      invariant a[..end] + ItemsBytes(EntryItems(num, kind, ks[i..], values) + xs)
             == old(a[..index]) + ItemsBytes(all)
      invariant index <= end && forall k | end <= k < a.Length :: a[k] == old(a[k])
    {
      ghost var later := EntryItems(num, kind, ks[i + 1..], values) + xs;
      assert ks[i..][0] == ks[i] && ks[i..][1..] == ks[i + 1..];
      assert EntryItems(num, kind, ks[i..], values) + xs
          == [EntryItem(num, kind, ks[i], values[ks[i]])] + later;
      ShortCons(EntryItem(num, kind, ks[i], values[ks[i]]), later);
      end := PutEntry(a, end, tag, kind, ks[i], values[ks[i]], num, later);
      i := i + 1;
    }
    assert ks[i..] == [] && EntryItems(num, kind, [], values) + xs == xs;
  }

  /** The loop over the lines of an error stack. */
  method PutStack(a: array<Byte>, index: nat, stack: seq<Bytes>, ghost xs: seq<Item>) returns (end: nat)
    requires index + Len(StackItems(stack) + xs) <= a.Length && Short(StackItems(stack) + xs)
    modifies a
    ensures index <= end && end + Len(xs) == index + Len(StackItems(stack) + xs)
    ensures a[..end] + ItemsBytes(xs) == old(a[..index]) + ItemsBytes(StackItems(stack) + xs)
    ensures forall k | end <= k < a.Length :: a[k] == old(a[k])
  {
    hide ItemsBytes, Tag;
    TagLengths();
    end := index;
    var i := 0;
    ghost var all := StackItems(stack) + xs;
    assert stack[0..] == stack;
    while i < |stack|
      invariant 0 <= i <= |stack|
      invariant Short(StackItems(stack[i..]) + xs)
      invariant end + Len(StackItems(stack[i..]) + xs) == index + Len(all)
      invariant a[..end] + ItemsBytes(StackItems(stack[i..]) + xs) == old(a[..index]) + ItemsBytes(all)
      invariant index <= end && forall k | end <= k < a.Length :: a[k] == old(a[k])
    {
      ghost var later := StackItems(stack[i + 1..]) + xs;
      assert stack[i..][0] == stack[i] && stack[i..][1..] == stack[i + 1..];
      assert StackItems(stack[i..]) + xs == [StringItem(3, stack[i])] + later;
      ShortCons(StringItem(3, stack[i]), later);
      end := PutString(a, end, [0x1a], stack[i], 3, later);
      i := i + 1;
    }
    assert stack[i..] == [] && StackItems([]) + xs == xs;
  }

  /** `ErrorInfo.MarshalTo(dAtA[index:])` */
  method PutError(a: array<Byte>, index: nat, e: ErrorInfo, o: seq<Bytes>) returns (end: nat)
    requires OrdersError(o, e) && Short(ErrorItems(e, o)) && index + |ErrorBytes(e, o)| <= a.Length
    modifies a
    ensures end == index + |ErrorBytes(e, o)|
    ensures a[..end] == old(a[..index]) + ErrorBytes(e, o)
    ensures forall k | end <= k < a.Length :: a[k] == old(a[k])
  {
    hide ItemsBytes, ItemBytes, Tag, EntryItems, StackItems;
    TagLengths();
    LongTagLengths();
    EmptyLen();
    ghost var tags := EntryItems(256, StringMap, o, Texts(e.errorTags));
    ghost var i4 := [NumberItem(4, ToU64(e.errorOccurTime))] + tags;
    ghost var i3 := StackItems(e.errorStack) + i4;
    ghost var i2 := [StringItem(2, e.errorMessage)] + i3;
    assert tags + [] == tags;
    LenCons(NumberItem(1, ToU64(e.errorKind)), i2);
    LenCons(StringItem(2, e.errorMessage), i3);
    LenAppend(StackItems(e.errorStack), i4);
    LenCons(NumberItem(4, ToU64(e.errorOccurTime)), tags);
    end := PutNumber(a, index, [0x08], ToU64(e.errorKind), 1, i2);
    end := PutString(a, end, [0x12], e.errorMessage, 2, i3);
    end := PutStack(a, end, e.errorStack, i4);
    end := PutNumber(a, end, [0x20], ToU64(e.errorOccurTime), 4, tags);
    end := PutMap(a, end, [0x82, 0x10], 256, StringMap, o, Texts(e.errorTags), []);
    EmptyItems();
  }

  lemma EmptyItems()
    ensures ItemsBytes([]) == []
  {
  }

  /** One error info: its tag, its `Size` and its own fields. */
  method PutErrorsItem(a: array<Byte>, index: nat, e: ErrorInfo, o: seq<Bytes>, sizing: seq<Bytes>,
                  ghost xs: seq<Item>)
    returns (end: nat)
    requires OrdersError(o, e) && OrdersError(sizing, e)
    requires index + Len([MessageItem(70, ErrorMessage(e), ErrorBytes(e, o))] + xs) <= a.Length
    requires Short([MessageItem(70, ErrorMessage(e), ErrorBytes(e, o))] + xs)
    modifies a
    ensures index <= end && end + Len(xs) == index + Len([MessageItem(70, ErrorMessage(e), ErrorBytes(e, o))] + xs)
    ensures a[..end] + ItemsBytes(xs)
         == old(a[..index]) + ItemsBytes([MessageItem(70, ErrorMessage(e), ErrorBytes(e, o))] + xs)
    ensures forall k | end <= k < a.Length :: a[k] == old(a[k])
  {
    hide ItemsBytes, ItemBytes, Tag, Encode, ErrorItems, OrdersError;
    LongTagLengths();
    ghost var before := a[..index];
    ghost var x := MessageItem(70, ErrorMessage(e), ErrorBytes(e, o));
    LenCons(x, xs);
    BodyShort(70, ErrorMessage(e), ErrorItems(e, o), xs);
    DelimitedSize(70, ErrorBytes(e, o));
    BodyLayout(70, ErrorMessage(e), ErrorBytes(e, o));
    ErrorOrder(e, o, sizing);
    var l := ErrorSize(e, sizing);
    end := PutHeader(a, index, [0xb2, 0x04], l);
    end := PutError(a, end, e, o);
    assert a[..end] == before + ItemBytes(x);
  }

  /** The loop over the error infos of a span. */
  method PutErrors(a: array<Byte>, index: nat, es: seq<ErrorInfo>, os: seq<seq<Bytes>>, sizing: seq<seq<Bytes>>,
                  ghost xs: seq<Item>)
    returns (end: nat)
    requires |os| == |sizing| == |es|
    requires forall i | 0 <= i < |os| :: OrdersError(os[i], es[i]) && OrdersError(sizing[i], es[i])
    requires index + Len(ErrorListItems(es, os) + xs) <= a.Length && Short(ErrorListItems(es, os) + xs)
    modifies a
    ensures index <= end && end + Len(xs) == index + Len(ErrorListItems(es, os) + xs)
    ensures a[..end] + ItemsBytes(xs) == old(a[..index]) + ItemsBytes(ErrorListItems(es, os) + xs)
    ensures forall k | end <= k < a.Length :: a[k] == old(a[k])
  {
    hide ItemsBytes, ItemBytes, Tag, Encode, OrdersError, ErrorBytes;
    LongTagLengths();
    end := index;
    var i := 0;
    ghost var all := ErrorListItems(es, os) + xs;
    assert es[0..] == es && os[0..] == os;
    while i < |es|
      invariant 0 <= i <= |es|
      invariant Short(ErrorListItems(es[i..], os[i..]) + xs)
      invariant end + Len(ErrorListItems(es[i..], os[i..]) + xs) == index + Len(all)
      invariant a[..end] + ItemsBytes(ErrorListItems(es[i..], os[i..]) + xs) == old(a[..index]) + ItemsBytes(all)
      invariant index <= end && forall k | end <= k < a.Length :: a[k] == old(a[k])
    {
      ghost var later := ErrorListItems(es[i + 1..], os[i + 1..]) + xs;
      ghost var x := MessageItem(70, ErrorMessage(es[i]), ErrorBytes(es[i], os[i]));
      assert es[i..][0] == es[i] && es[i..][1..] == es[i + 1..];
      assert os[i..][0] == os[i] && os[i..][1..] == os[i + 1..];
      assert ErrorListItems(es[i..], os[i..]) + xs == [x] + later;
      ShortCons(x, later);
      end := PutErrorsItem(a, end, es[i], os[i], sizing[i], later);
      i := i + 1;
    }
    assert es[i..] == [] && ErrorListItems([], []) + xs == xs;
  }

  /** The part of `Span.MarshalTo` before the maps. */
  method PutSpanHead(a: array<Byte>, index: nat, p: Span, ghost rest: seq<Item>) returns (end: nat)
    requires index + Len(SpanHeadItems(p, rest)) <= a.Length && Short(SpanHeadItems(p, rest))
    modifies a
    ensures index <= end && end + Len(rest) == index + Len(SpanHeadItems(p, rest))
    ensures a[..end] + ItemsBytes(rest) == old(a[..index]) + ItemsBytes(SpanHeadItems(p, rest))
    ensures forall k | end <= k < a.Length :: a[k] == old(a[k])
  {
    hide ItemsBytes, ItemBytes, Tag;
    TagLengths();
    ghost var i9 := [NumberItem(9, ToU64(p.startTimeMicrosecond))] + rest;
    ghost var i8 := [NumberItem(8, ToU64(p.spanType))] + i9;
    ghost var i7 := [NumberItem(7, ToU64(p.status))] + i8;
    ghost var i6 := [NumberItem(6, ToU64(p.durationMicroseconds))] + i7;
    ghost var i5 := [NumberItem(5, ToU64(p.endTimeMillisecond))] + i6;
    ghost var i4 := [NumberItem(4, ToU64(p.startTimeMillisecond))] + i5;
    ghost var i3 := [StringItem(3, p.operationName)] + i4;
    ghost var i2 := [StringItem(2, p.parentSpanId)] + i3;
    ShortCons(StringItem(1, p.spanId), i2);
    end := PutString(a, index, [0x0a], p.spanId, 1, i2);
    ShortCons(StringItem(2, p.parentSpanId), i3);
    end := PutString(a, end, [0x12], p.parentSpanId, 2, i3);
    ShortCons(StringItem(3, p.operationName), i4);
    end := PutString(a, end, [0x1a], p.operationName, 3, i4);
    ShortCons(NumberItem(4, ToU64(p.startTimeMillisecond)), i5);
    end := PutNumber(a, end, [0x20], ToU64(p.startTimeMillisecond), 4, i5);
    ShortCons(NumberItem(5, ToU64(p.endTimeMillisecond)), i6);
    end := PutNumber(a, end, [0x28], ToU64(p.endTimeMillisecond), 5, i6);
    ShortCons(NumberItem(6, ToU64(p.durationMicroseconds)), i7);
    end := PutNumber(a, end, [0x30], ToU64(p.durationMicroseconds), 6, i7);
    ShortCons(NumberItem(7, ToU64(p.status)), i8);
    end := PutNumber(a, end, [0x38], ToU64(p.status), 7, i8);
    ShortCons(NumberItem(8, ToU64(p.spanType)), i9);
    end := PutNumber(a, end, [0x40], ToU64(p.spanType), 8, i9);
    ShortCons(NumberItem(9, ToU64(p.startTimeMicrosecond)), rest);
    end := PutNumber(a, end, [0x48], ToU64(p.startTimeMicrosecond), 9, rest);
  }

  /** The part of `Span.MarshalTo` after the maps. */
  method PutSpanTail(a: array<Byte>, index: nat, p: Span, o: SpanOrder, sizing: SpanOrder) returns (end: nat)
    requires OrdersSpan(o, p) && OrdersSpan(sizing, p)
    requires index + Len(SpanTailItems(p, o)) <= a.Length && Short(SpanTailItems(p, o))
    modifies a
    ensures end == index + Len(SpanTailItems(p, o))
    ensures a[..end] == old(a[..index]) + ItemsBytes(SpanTailItems(p, o))
    ensures forall k | end <= k < a.Length :: a[k] == old(a[k])
  {
    hide ItemsBytes, ItemBytes, Tag, ErrorListItems, OrdersError;
    LongTagLengths();
    EmptyItems();
    ghost var errors := ErrorListItems(p.errorInfoList, o.errors);
    ghost var i62 := [StringItem(62, p.callResource)] + errors;
    ghost var i61 := [StringItem(61, p.callService)] + i62;
    ghost var i60 := [StringItem(60, p.callServiceType)] + i61;
    ShortCons(StringItem(40, p.resource), i60);
    end := PutString(a, index, [0xc2, 0x02], p.resource, 40, i60);
    ShortCons(StringItem(60, p.callServiceType), i61);
    end := PutString(a, end, [0xe2, 0x03], p.callServiceType, 60, i61);
    ShortCons(StringItem(61, p.callService), i62);
    end := PutString(a, end, [0xea, 0x03], p.callService, 61, i62);
    ShortCons(StringItem(62, p.callResource), errors);
    end := PutString(a, end, [0xf2, 0x03], p.callResource, 62, errors);
    assert errors + [] == errors;
    end := PutErrors(a, end, p.errorInfoList, o.errors, sizing.errors, []);
  }

  /** `Span.MarshalTo(dAtA[index:])` */
  method PutSpan(a: array<Byte>, index: nat, p: Span, o: SpanOrder, sizing: SpanOrder) returns (end: nat)
    requires OrdersSpan(o, p) && OrdersSpan(sizing, p)
    requires Short(SpanItems(p, o)) && index + |SpanBytes(p, o)| <= a.Length
    modifies a
    ensures end == index + |SpanBytes(p, o)|
    ensures a[..end] == old(a[..index]) + SpanBytes(p, o)
    ensures forall k | end <= k < a.Length :: a[k] == old(a[k])
  {
    hide ItemsBytes, ItemBytes, Tag, EntryItems, SpanHeadItems, SpanTailItems, OrdersError;
    LongTagLengths();
    ghost var tail := SpanTailItems(p, o);
    ghost var texts := EntryItems(22, StringMap, o.strings, Texts(p.paramString));
    ghost var floats := EntryItems(21, FloatMap, o.floats, FloatWords(p.paramFloat));
    ghost var ints := EntryItems(20, NumberMap, o.ints, Words(p.paramInt));
    HeadLength(p, SpanMapItems(p, o));
    LenAppend(ints, floats + (texts + tail));
    LenAppend(floats, texts + tail);
    LenAppend(texts, tail);
    end := PutSpanHead(a, index, p, SpanMapItems(p, o));
    end := PutMap(a, end, [0xa2, 0x01], 20, NumberMap, o.ints, Words(p.paramInt), floats + (texts + tail));
    end := PutMap(a, end, [0xaa, 0x01], 21, FloatMap, o.floats, FloatWords(p.paramFloat), texts + tail);
    end := PutMap(a, end, [0xb2, 0x01], 22, StringMap, o.strings, Texts(p.paramString), tail);
    end := PutSpanTail(a, end, p, o, sizing);
  }

  lemma HeadLength(p: Span, rest: seq<Item>)
    ensures Len(rest) <= Len(SpanHeadItems(p, rest))
  {
    assert SpanHeadItems(p, rest) == SpanHeadItems(p, []) + rest;
    hide Len, SpanHeadItems;
    LenAppend(SpanHeadItems(p, []), rest);
  }

  lemma BodyLayout(num: nat, sub: Message, body: Bytes)
    ensures ItemBytes(MessageItem(num, sub, body)) == EncodeField(DelimitedField(num, body))
  {
  }

  /** One span: its tag, its `Size` and its own fields. */
  method PutSpansItem(a: array<Byte>, index: nat, e: Span, o: SpanOrder, sizing: SpanOrder, ghost xs: seq<Item>)
    returns (end: nat)
    requires OrdersSpan(o, e) && OrdersSpan(sizing, e)
    requires index + Len([MessageItem(5, SpanMessage(e), SpanBytes(e, o))] + xs) <= a.Length
    requires Short([MessageItem(5, SpanMessage(e), SpanBytes(e, o))] + xs)
    modifies a
    ensures index <= end && end + Len(xs) == index + Len([MessageItem(5, SpanMessage(e), SpanBytes(e, o))] + xs)
    ensures a[..end] + ItemsBytes(xs)
         == old(a[..index]) + ItemsBytes([MessageItem(5, SpanMessage(e), SpanBytes(e, o))] + xs)
    ensures forall k | end <= k < a.Length :: a[k] == old(a[k])
  {
    hide ItemsBytes, ItemBytes, Tag, Encode, SpanItems, OrdersSpan;
    TagLengths();
    ghost var before := a[..index];
    ghost var x := MessageItem(5, SpanMessage(e), SpanBytes(e, o));
    LenCons(x, xs);
    BodyShort(5, SpanMessage(e), SpanItems(e, o), xs);
    DelimitedSize(5, SpanBytes(e, o));
    BodyLayout(5, SpanMessage(e), SpanBytes(e, o));
    SpanOrderSize(e, o, sizing);
    var l := SpanSize(e, sizing);
    end := PutHeader(a, index, [0x2a], l);
    end := PutSpan(a, end, e, o, sizing);
    assert a[..end] == before + ItemBytes(x);
  }

  /** The loop over the spans of a trace. */
  method PutSpans(a: array<Byte>, index: nat, es: seq<Span>, os: seq<SpanOrder>, sizing: seq<SpanOrder>,
                  ghost xs: seq<Item>)
    returns (end: nat)
    requires |os| == |sizing| == |es|
    requires forall i | 0 <= i < |os| :: OrdersSpan(os[i], es[i]) && OrdersSpan(sizing[i], es[i])
    requires index + Len(SpanListItems(es, os) + xs) <= a.Length && Short(SpanListItems(es, os) + xs)
    modifies a
    ensures index <= end && end + Len(xs) == index + Len(SpanListItems(es, os) + xs)
    ensures a[..end] + ItemsBytes(xs) == old(a[..index]) + ItemsBytes(SpanListItems(es, os) + xs)
    ensures forall k | end <= k < a.Length :: a[k] == old(a[k])
  {
    hide ItemsBytes, ItemBytes, Tag, Encode, OrdersSpan, SpanBytes;
    TagLengths();
    end := index;
    var i := 0;
    ghost var all := SpanListItems(es, os) + xs;
    assert es[0..] == es && os[0..] == os;
    while i < |es|
      invariant 0 <= i <= |es|
      invariant Short(SpanListItems(es[i..], os[i..]) + xs)
      invariant end + Len(SpanListItems(es[i..], os[i..]) + xs) == index + Len(all)
      invariant a[..end] + ItemsBytes(SpanListItems(es[i..], os[i..]) + xs) == old(a[..index]) + ItemsBytes(all)
      invariant index <= end && forall k | end <= k < a.Length :: a[k] == old(a[k])
    {
      ghost var later := SpanListItems(es[i + 1..], os[i + 1..]) + xs;
      ghost var x := MessageItem(5, SpanMessage(es[i]), SpanBytes(es[i], os[i]));
      assert es[i..][0] == es[i] && es[i..][1..] == es[i + 1..];
      assert os[i..][0] == os[i] && os[i..][1..] == os[i + 1..];
      assert SpanListItems(es[i..], os[i..]) + xs == [x] + later;
      ShortCons(x, later);
      end := PutSpansItem(a, end, es[i], os[i], sizing[i], later);
      i := i + 1;
    }
    assert es[i..] == [] && SpanListItems([], []) + xs == xs;
  }

  /** The part of `Trace.MarshalTo` after the spans. */
  method PutTraceTail(a: array<Byte>, index: nat, t: Trace) returns (end: nat)
    requires index + Len(TraceTailItems(t)) <= a.Length && Short(TraceTailItems(t))
    modifies a
    ensures end == index + Len(TraceTailItems(t))
    ensures a[..end] == old(a[..index]) + ItemsBytes(TraceTailItems(t))
    ensures forall k | end <= k < a.Length :: a[k] == old(a[k])
  {
    hide ItemsBytes, ItemBytes, Tag;
    TagLengths();
    LongTagLengths();
    EmptyItems();
    ghost var i66 := [NumberItem(66, ToU64(t.apiTimeSeconds))];
    ghost var i65 := [StringItem(65, t.hostname)] + i66;
    ghost var i64 := [StringItem(64, t.appId)] + i65;
    ghost var i9 := [StringItem(9, t.instanceId)] + i64;
    ghost var i8 := [NumberItem(8, ToU64(t.processStartTime))] + i9;
    ghost var i7 := [NumberItem(7, ToU64(t.pid))] + i8;
    assert i66 == [NumberItem(66, ToU64(t.apiTimeSeconds))] + [];
    ShortCons(StringItem(6, t.containerId), i7);
    end := PutString(a, index, [0x32], t.containerId, 6, i7);
    ShortCons(NumberItem(7, ToU64(t.pid)), i8);
    end := PutNumber(a, end, [0x38], ToU64(t.pid), 7, i8);
    ShortCons(NumberItem(8, ToU64(t.processStartTime)), i9);
    end := PutNumber(a, end, [0x40], ToU64(t.processStartTime), 8, i9);
    ShortCons(StringItem(9, t.instanceId), i64);
    end := PutString(a, end, [0x4a], t.instanceId, 9, i64);
    ShortCons(StringItem(64, t.appId), i65);
    end := PutString(a, end, [0x82, 0x04], t.appId, 64, i65);
    ShortCons(StringItem(65, t.hostname), i66);
    end := PutString(a, end, [0x8a, 0x04], t.hostname, 65, i66);
    ShortCons(NumberItem(66, ToU64(t.apiTimeSeconds)), []);
    end := PutNumber(a, end, [0x90, 0x04], ToU64(t.apiTimeSeconds), 66, []);
  }

  /** `Trace.MarshalTo(dAtA[index:])`: writes exactly the trace's bytes and touches nothing after them. */
  method PutTrace(a: array<Byte>, index: nat, t: Trace, o: seq<SpanOrder>, sizing: seq<SpanOrder>) returns (end: nat)
    requires OrdersTrace(o, t) && OrdersTrace(sizing, t)
    requires Short(TraceItems(t, o)) && index + |TraceBytes(t, o)| <= a.Length
    modifies a
    ensures end == index + |TraceBytes(t, o)|
    ensures a[..end] == old(a[..index]) + TraceBytes(t, o)
    ensures forall k | end <= k < a.Length :: a[k] == old(a[k])
  {
    hide ItemsBytes, ItemBytes, Tag, SpanListItems, TraceTailItems, OrdersSpan;
    TagLengths();
    ghost var tail := TraceTailItems(t);
    ghost var i5 := SpanListItems(t.spans, o) + tail;
    ghost var i4 := [StringItem(4, t.env)] + i5;
    ghost var i3 := [StringItem(3, t.traceId)] + i4;
    ghost var i2 := [StringItem(2, t.service)] + i3;
    ShortCons(StringItem(1, t.serviceType), i2);
    end := PutString(a, index, [0x0a], t.serviceType, 1, i2);
    ShortCons(StringItem(2, t.service), i3);
    end := PutString(a, end, [0x12], t.service, 2, i3);
    ShortCons(StringItem(3, t.traceId), i4);
    end := PutString(a, end, [0x1a], t.traceId, 3, i4);
    ShortCons(StringItem(4, t.env), i5);
    end := PutString(a, end, [0x22], t.env, 4, i5);
    LenAppend(SpanListItems(t.spans, o), tail);
    end := PutSpans(a, end, t.spans, o, sizing, tail);
    end := PutTraceTail(a, end, t);
  }

  /**
   * `Trace.Marshal`: allocates what `Size` says and fills it completely. `sizing` is the order in which the maps
   * are iterated while sizes are computed, `o` the order in which they are written.
   */
  method MarshalTrace(t: Trace, o: seq<SpanOrder>, sizing: seq<SpanOrder>) returns (data: array<Byte>)
    requires OrdersTrace(o, t) && OrdersTrace(sizing, t) && Short(TraceItems(t, o))
    ensures fresh(data) && data[..] == TraceBytes(t, o)
  {
    hide ItemsBytes, TraceItems, OrdersTrace;
    TraceOrderSize(t, o, sizing);
    var size := TraceSize(t, sizing);
    data := new Byte[size];
    var n := PutTrace(data, 0, t, o, sizing);
    assert data[..n] == data[..];
  }
}
