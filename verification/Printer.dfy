/**
 * The bytes the generated `MarshalTo` functions write, for any order in which the maps are iterated, field by field,
 * and that each field decodes to the value it stands for.
 */
module Printer {
  import opened ByteStrings
  import opened Messages
  import opened Varint
  import opened Parser
  import opened ParserLaws

  /** The iteration order of each map of a span and of each of its error infos. */
  datatype SpanOrder = SpanOrder(ints: seq<Bytes>, floats: seq<Bytes>, strings: seq<Bytes>, errors: seq<seq<Bytes>>)

  ghost predicate OrdersError(o: seq<Bytes>, e: ErrorInfo) {
    Lists(o, e.errorTags)
  }

  ghost predicate OrdersSpan(o: SpanOrder, p: Span) {
    && Lists(o.ints, p.paramInt) && Lists(o.floats, p.paramFloat) && Lists(o.strings, p.paramString)
    && |o.errors| == |p.errorInfoList|
    && forall i | 0 <= i < |o.errors| :: OrdersError(o.errors[i], p.errorInfoList[i])
  }

  ghost predicate OrdersTrace(o: seq<SpanOrder>, t: Trace) {
    |o| == |t.spans| && forall i | 0 <= i < |o| :: OrdersSpan(o[i], t.spans[i])
  }

  /** One field as the printers write it, with the value it stands for. */
  datatype Item =
    | NumberItem(num: nat, v: U64)
    | StringItem(num: nat, s: Bytes)
    | MessageItem(num: nat, sub: Message, body: Bytes)
    | EntryItem(num: nat, kind: Kind, key: Bytes, value: Value)

  /** The layout of a map entry: the key as field 1, the value as field 2. */
  function EntryBytes(kind: Kind, key: Bytes, value: Value): Bytes {
    Tag(1, 2) + Encode(|key|) + key + ValueBytes(kind, value)
  }

  function ValueBytes(kind: Kind, value: Value): (r: Bytes)
    ensures value.Text? ==> |value.s| < |r|
  {
    match value
    case Word(bits) => if kind == FloatMap then Tag(2, 1) + LittleEndian(bits, 8) else Tag(2, 0) + Encode(bits)
    case Text(s) => Tag(2, 2) + Encode(|s|) + s
  }

  function FieldOf(it: Item): Field {
    match it
    case NumberItem(num, v) => VarintField(num, v)
    case StringItem(num, s) => DelimitedField(num, s)
    case MessageItem(num, _, body) => DelimitedField(num, body)
    case EntryItem(num, kind, key, value) => DelimitedField(num, EntryBytes(kind, key, value))
  }

  function ItemBytes(it: Item): (s: Bytes)
    ensures s != []
  {
    EncodeField(FieldOf(it))
  }

  function ItemsBytes(items: seq<Item>): Bytes {
    if items == [] then [] else ItemBytes(items[0]) + ItemsBytes(items[1..])
  }

  /** `it` is a field of `m`, no longer than a Go slice, and its body decodes to the value it stands for. */
  predicate Faithful(m: Message, it: Item) {
    && 0 < it.num < TWO_31
    && |ItemBytes(it)| < TWO_63
    && match it
       case NumberItem(num, _) => KindOf(m, num) == NumberField
       case StringItem(num, _) => KindOf(m, num) == StringField
       case MessageItem(num, sub, body) =>
         KindOf(m, num) == MessageField && Unmarshal(body, FreshSub(m, num)) == Ok(sub)
       case EntryItem(num, kind, _, value) => KindOf(m, num) == kind && FitsMap(kind, value)
  }

  /** The message after storing one field. */
  function Store(m: Message, it: Item): (r: Message)
    requires Faithful(m, it)
    ensures SameType(r, m)
  {
    match it
    case NumberItem(num, v) => SetNumber(m, num, v)
    case StringItem(num, s) => SetString(m, num, s)
    case MessageItem(num, sub, _) => AppendSub(m, num, sub)
    case EntryItem(num, _, key, value) => PutEntry(m, num, key, value)
  }

  lemma DelimitedRoundTrip(body: Bytes, rest: Bytes)
    requires |body| < TWO_63
    ensures ReadDelimited(Encode(|body|) + body + rest) == Ok((body, |Encode(|body|) + body|))
  {
    hide Read, Encode;
    RoundTrip(|body|, body + rest);
    assert Encode(|body|) + body + rest == Encode(|body|) + (body + rest);
    assert (Encode(|body|) + body + rest)[|Encode(|body|)|..|Encode(|body|) + body|] == body;
  }

  lemma ValueRoundTrip(kind: Kind, value: Value, rest: Bytes)
    requires FitsMap(kind, value) && (value.Text? ==> |value.s| < TWO_63)
    ensures var tag := Tag(2, if value.Text? then 2 else if kind == FloatMap then 1 else 0);
            && (ValueBytes(kind, value) + rest)[..|tag|] == tag
            && |tag| < |ValueBytes(kind, value)|
            && ReadValue(kind, (ValueBytes(kind, value) + rest)[|tag|..], ZeroValue(kind))
               == Ok((value, |ValueBytes(kind, value)| - |tag|))
  {
    hide Read, Tag, Encode, LittleEndian;
    match value
    case Word(bits) =>
      if kind == FloatMap {
        FloatRoundTrip(bits, rest);
        assert ValueBytes(kind, value) + rest == Tag(2, 1) + (LittleEndian(bits, 8) + rest);
      } else {
        RoundTrip(bits, rest);
        assert ValueBytes(kind, value) + rest == Tag(2, 0) + (Encode(bits) + rest);
      }
    case Text(s) =>
      DelimitedRoundTrip(s, rest);
      assert ValueBytes(kind, value) + rest == Tag(2, 2) + (Encode(|s|) + s + rest);
  }

  lemma FloatRoundTrip(bits: U64, rest: Bytes)
    ensures |LittleEndian(bits, 8)| == 8
    ensures ReadValue(FloatMap, LittleEndian(bits, 8) + rest, Word(0)) == Ok((Word(bits), 8))
  {
    hide LittleEndian;
    Pow256Values();
    LittleEndianRoundTrip(bits, 8);
    assert (LittleEndian(bits, 8) + rest)[..8] == LittleEndian(bits, 8);
  }

  /** The entry's key is read first, then its value, and nothing of the entry is left. */
  lemma EntryRoundTrip(kind: Kind, key: Bytes, value: Value, rest: Bytes)
    requires FitsMap(kind, value) && |EntryBytes(kind, key, value)| < TWO_63
    ensures ReadEntry(kind, EntryBytes(kind, key, value) + rest, 0, |EntryBytes(kind, key, value)|, [], ZeroValue(kind))
         == Ok((key, value))
  {
    hide ReadEntryItem, EntryBytes, ValueBytes;
    var entry := EntryBytes(kind, key, value);
    var zero := ZeroValue(kind);
    var s := entry + rest;
    var split := |entry| - |ValueBytes(kind, value)|;
    KeyItem(kind, key, value, rest);
    ValueItem(kind, key, value, rest);
    assert s[0..] == s;
    assert ReadEntry(kind, s, |entry|, |entry|, key, value) == Ok((key, value));
    assert ReadEntry(kind, s, split, |entry|, key, zero) == Ok((key, value));
  }

  lemma KeyItem(kind: Kind, key: Bytes, value: Value, rest: Bytes)
    requires FitsMap(kind, value) && |EntryBytes(kind, key, value)| < TWO_63
    ensures var entry := EntryBytes(kind, key, value);
            0 < |entry| && ReadEntryItem(kind, entry + rest, |entry|, [], ZeroValue(kind))
            == Ok((key, ZeroValue(kind), |entry| - |ValueBytes(kind, value)|))
  {
    hide Read, Tag, Encode, ValueBytes, ReadDelimited;
    var after := ValueBytes(kind, value) + rest;
    var s := EntryBytes(kind, key, value) + rest;
    assert s == Tag(1, 2) + (Encode(|key|) + key + after);
    ReadTag(1, 2, Encode(|key|) + key + after);
    DelimitedRoundTrip(key, after);
  }

  /** Of an item with the tag of a value, what follows the tag is read as the value. */
  lemma ValueBehindTag(kind: Kind, wireType: nat, after: Bytes, room: nat, key: Bytes, before: Value)
    requires wireType < 3 && FitsMap(kind, before) && 0 < room <= |Tag(2, wireType) + after|
    ensures ReadEntryItem(kind, Tag(2, wireType) + after, room, key, before)
         == match ReadValue(kind, after, before)
            case Ok((value, m)) => Ok((key, value, |Tag(2, wireType)| + m))
            case Err(e) => Err(e)
  {
    hide Read, Tag, ReadValue;
    ReadTag(2, wireType, after);
  }

  lemma ValueItem(kind: Kind, key: Bytes, value: Value, rest: Bytes)
    requires FitsMap(kind, value) && |EntryBytes(kind, key, value)| < TWO_63
    ensures var entry := EntryBytes(kind, key, value);
            var split := |entry| - |ValueBytes(kind, value)|;
            && 0 < split < |entry|
            && ReadEntryItem(kind, (entry + rest)[split..], |entry| - split, key, ZeroValue(kind))
               == Ok((key, value, |entry| - split))
  {
    hide Read, Tag, Encode, ReadValue, ReadEntryItem;
    var entry := EntryBytes(kind, key, value);
    var split := |entry| - |ValueBytes(kind, value)|;
    var s := ValueBytes(kind, value) + rest;
    assert (entry + rest)[split..] == s;
    var wireType := if value.Text? then 2 else if kind == FloatMap then 1 else 0;
    ValueRoundTrip(kind, value, rest);
    hide ValueBytes;
    var after := s[|Tag(2, wireType)|..];
    assert s == Tag(2, wireType) + after;
    ValueBehindTag(kind, wireType, after, |entry| - split, key, ZeroValue(kind));
  }

  /** What follows the tag of a faithful item decodes to what it stands for. */
  lemma PayloadRoundTrip(m: Message, it: Item, rest: Bytes)
    requires Faithful(m, it)
    ensures ReadPayload(Payload(FieldOf(it)) + rest, m, it.num) == Ok((Store(m, it), |Payload(FieldOf(it))|))
  {
    hide Read, Encode, Unmarshal, ReadEntry, ReadDelimited, EntryBytes;
    assert |Payload(FieldOf(it))| < TWO_63;
    match it
    case NumberItem(num, v) => RoundTrip(v, rest);
    case StringItem(num, s) => DelimitedRoundTrip(s, rest);
    case MessageItem(num, sub, body) => DelimitedRoundTrip(body, rest);
    case EntryItem(num, kind, key, value) =>
      var entry := EntryBytes(kind, key, value);
      var s := Encode(|entry|) + entry + rest;
      DelimitedRoundTrip(entry, rest);
      EntryRoundTrip(kind, key, value, rest);
      assert s[|Encode(|entry|)|..] == entry + rest;
  }

  lemma ItemRoundTrip(it: Item, rest: Bytes, st: State)
    requires Faithful(st.message, it)
    ensures ReadField(ItemBytes(it) + rest, st) == Ok((Saw(st, it.num, Store(st.message, it)), |ItemBytes(it)|))
  {
    hide Read, Tag, ReadPayload, Payload, Store, Skip;
    var f := FieldOf(it);
    assert ItemBytes(it) + rest == Tag(f.num, WireType(f)) + (Payload(f) + rest);
    ReadTag(f.num, WireType(f), Payload(f) + rest);
    PayloadRoundTrip(st.message, it, rest);
  }

  /** Decoding a printed list of fields stores the first and goes on with the others. */
  lemma StepRead(x: Item, xs: seq<Item>, st: State)
    requires Faithful(st.message, x)
    ensures ReadFields(ItemsBytes([x] + xs), st) == ReadFields(ItemsBytes(xs), Saw(st, x.num, Store(st.message, x)))
  {
    hide Store, ReadFields, ReadField, ItemBytes;
    assert ([x] + xs)[1..] == xs;
    ItemRoundTrip(x, ItemsBytes(xs), st);
    FieldThenRest(ItemBytes(x), ItemsBytes(xs), st, Saw(st, x.num, Store(st.message, x)));
  }
}
