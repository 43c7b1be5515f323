/**
 * Laws of the decoder that need no printer: a successful read never depends on the bytes after it, so decoding
 * a concatenation is decoding one part after the other, and unknown fields are transparent.
 */
module ParserLaws {
  import opened ByteStrings
  import opened Messages
  import opened Varint
  import opened Parser

  lemma ReadDelimitedExtend(s: Bytes, more: Bytes)
    requires ReadDelimited(s).Ok?
    ensures ReadDelimited(s + more) == ReadDelimited(s)
  {
    ReadExtend(s, more, 0, 0);
    var (word, n) := Read(s, 0, 0).value;
    assert (s + more)[n..n + ToI64(word)] == s[n..n + ToI64(word)];
  }

  lemma {:induction false} SkipExtend(s: Bytes, more: Bytes)
    requires s != [] && Skip(s).Ok?
    ensures Skip(s + more) == Skip(s)
    decreases |s|, 0
  {
    ReadExtend(s, more, 0, 0);
    var (wire, n) := Read(s, 0, 0).value;
    SkipPayloadExtend(wire % 8, s[n..], more);
    assert (s + more)[n..] == s[n..] + more;
  }

  lemma {:induction false} SkipPayloadExtend(wireType: nat, s: Bytes, more: Bytes)
    requires SkipPayload(wireType, s).Ok?
    ensures SkipPayload(wireType, s + more) == SkipPayload(wireType, s)
    decreases |s|, 2
  {
    if wireType == 0 || wireType == 2 {
      ReadExtend(s, more, 0, 0);
    } else if wireType == 3 {
      SkipGroupExtend(s, more);
    }
  }

  lemma {:induction false} SkipGroupExtend(s: Bytes, more: Bytes)
    requires SkipGroup(s).Ok?
    ensures SkipGroup(s + more) == SkipGroup(s)
    decreases |s|, 1
  {
    hide Read, Skip;
    ReadExtend(s, more, 0, 0);
    if Read(s, 0, 0).value.0 % 8 != 4 {
      SkipExtend(s, more);
      var m := Skip(s).value;
      SkipGroupExtend(s[m..], more);
      assert (s + more)[m..] == s[m..] + more;
    }
  }

  lemma ReadValueExtend(kind: Kind, s: Bytes, more: Bytes, before: Value)
    requires FitsMap(kind, before) && ReadValue(kind, s, before).Ok?
    ensures ReadValue(kind, s + more, before) == ReadValue(kind, s, before)
  {
    match kind
    case NumberMap => ReadExtend(s, more, 0, before.bits);
    case FloatMap => assert (s + more)[..8] == s[..8];
    case StringMap => ReadDelimitedExtend(s, more);
  }

  lemma ReadEntryItemExtend(kind: Kind, s: Bytes, more: Bytes, room: nat, key: Bytes, value: Value)
    requires FitsMap(kind, value) && 0 < room <= |s|
    requires ReadEntryItem(kind, s, room, key, value).Ok?
    ensures ReadEntryItem(kind, s + more, room, key, value) == ReadEntryItem(kind, s, room, key, value)
  {
    hide Read, ReadDelimited, ReadValue, Skip;
    ReadExtend(s, more, 0, 0);
    var (wire, n) := Read(s, 0, 0).value;
    assert (s + more)[n..] == s[n..] + more;
    var num := ToI32(wire / 8);
    if num == 1 {
      ReadDelimitedExtend(s[n..], more);
    } else if num == 2 {
      ReadValueExtend(kind, s[n..], more, value);
    } else {
      SkipExtend(s, more);
    }
  }

  lemma {:induction false} ReadEntryExtend(
    kind: Kind, s: Bytes, more: Bytes, consumed: nat, length: nat, key: Bytes, value: Value)
    requires FitsMap(kind, value) && consumed <= |s| && length <= |s|
    requires ReadEntry(kind, s, consumed, length, key, value).Ok?
    ensures ReadEntry(kind, s + more, consumed, length, key, value)
         == ReadEntry(kind, s, consumed, length, key, value)
    decreases |s| - consumed
  {
    hide ReadEntryItem;
    if consumed < length {
      assert (s + more)[consumed..] == s[consumed..] + more;
      ReadEntryItemExtend(kind, s[consumed..], more, length - consumed, key, value);
      var (key', value', n) := ReadEntryItem(kind, s[consumed..], length - consumed, key, value).value;
      ReadEntryExtend(kind, s, more, consumed + n, length, key', value');
    }
  }

  lemma ReadPayloadExtend(s: Bytes, more: Bytes, m: Message, num: int)
    requires KindOf(m, num) != UnknownField && ReadPayload(s, m, num).Ok?
    ensures ReadPayload(s + more, m, num) == ReadPayload(s, m, num)
  {
    hide Read, ReadDelimited, ReadEntry, Unmarshal, SetNumber, SetString, AppendSub, PutEntry;
    var kind := KindOf(m, num);
    if kind == NumberField {
      ReadExtend(s, more, 0, 0);
    } else {
      ReadDelimitedExtend(s, more);
      if IsMap(kind) {
        var (body, n) := ReadDelimited(s).value;
        var start := n - |body|;
        assert (s + more)[start..] == s[start..] + more;
        ReadEntryExtend(kind, s[start..], more, 0, |body|, [], ZeroValue(kind));
      }
    }
  }

  lemma ReadFieldExtend(s: Bytes, more: Bytes, st: State)
    requires s != [] && ReadField(s, st).Ok?
    ensures ReadField(s + more, st) == ReadField(s, st)
  {
    hide Read, ReadPayload, Skip;
    ReadExtend(s, more, 0, 0);
    var (wire, n) := Read(s, 0, 0).value;
    var num := ToI32(wire / 8);
    if KindOf(st.message, num) == UnknownField {
      SkipExtend(s, more);
    } else {
      assert (s + more)[n..] == s[n..] + more;
      ReadPayloadExtend(s[n..], more, st.message, num);
    }
  }

  /** Decoding `a + b` is decoding `b` into the message that decoding `a` gave. */
  lemma {:induction false} ConcatenationMerges(a: Bytes, b: Bytes, st: State)
    requires ReadFields(a, st).Ok?
    ensures ReadFields(a + b, st) == ReadFields(b, ReadFields(a, st).value)
    decreases |a|
  {
    hide ReadField;
    if a == [] {
      assert a + b == b;
    } else {
      ReadFieldExtend(a, b, st);
      var (st', n) := ReadField(a, st).value;
      ConcatenationMerges(a[n..], b, st');
      assert (a + b)[n..] == a[n..] + b;
    }
  }

  /** A well-formed field (sections 'Message Structure' and 'Groups'), groups nested to any depth. */
  datatype Field =
    | VarintField(num: nat, v: U64)
    | Fixed64Field(num: nat, bytes: Bytes)
    | DelimitedField(num: nat, body: Bytes)
    | GroupField(num: nat, fields: seq<Field>)
    | Fixed32Field(num: nat, bytes: Bytes)

  function WireType(f: Field): (w: nat)
    ensures w < 8 && w != 4
  {
    match f
    case VarintField(_, _) => 0
    case Fixed64Field(_, _) => 1
    case DelimitedField(_, _) => 2
    case GroupField(_, _) => 3
    case Fixed32Field(_, _) => 5
  }

  function Tag(num: nat, wireType: nat): (s: Bytes)
    ensures s != []
  {
    Encode(8 * num + wireType)
  }

  function EncodeField(f: Field): (s: Bytes)
    ensures s != []
    decreases f, 2
  {
    Tag(f.num, WireType(f)) + Payload(f)
  }

  function Payload(f: Field): Bytes
    decreases f, 1
  {
    match f
    case VarintField(_, v) => Encode(v)
    case Fixed64Field(_, bytes) => bytes
    case DelimitedField(_, body) => Encode(|body|) + body
    case GroupField(num, fields) => EncodeFields(fields) + Tag(num, 4)
    case Fixed32Field(_, bytes) => bytes
  }

  function EncodeFields(fields: seq<Field>): Bytes
    decreases fields, 0
  {
    if fields == [] then [] else EncodeField(fields[0]) + EncodeFields(fields[1..])
  }

  /** Field numbers the source accepts, and payloads of the right width. */
  predicate WellFormed(f: Field) {
    && 0 < f.num < TWO_31
    && match f
       case VarintField(_, _) => true
       case Fixed64Field(_, bytes) => |bytes| == 8
       case DelimitedField(_, body) => |body| < TWO_63
       case GroupField(_, fields) => forall g | g in fields :: WellFormed(g)
       case Fixed32Field(_, bytes) => |bytes| == 4
  }

  lemma TagParts(num: nat, wireType: nat)
    requires 0 < num < TWO_31 && wireType < 8
    ensures ToI32((8 * num + wireType) / 8) == num && (8 * num + wireType) % 8 == wireType
  {
    assert (8 * num + wireType) / 8 == num;
  }

  /** A tag is read back, and carries its field number and wire type through the 32-bit conversion. */
  lemma ReadTag(num: nat, wireType: nat, after: Bytes)
    requires 0 < num < TWO_31 && wireType < 8
    ensures Read(Tag(num, wireType) + after, 0, 0) == Ok((8 * num + wireType, |Tag(num, wireType)|))
    ensures (Tag(num, wireType) + after)[|Tag(num, wireType)|..] == after
    ensures ToI32((8 * num + wireType) / 8) == num && (8 * num + wireType) % 8 == wireType
  {
    TagParts(num, wireType);
    RoundTrip(8 * num + wireType, after);
  }

  /** `skip` passes over exactly one well-formed field, whatever follows it. */
  lemma {:induction false} SkipsField(f: Field, rest: Bytes)
    requires WellFormed(f)
    ensures Skip(EncodeField(f) + rest) == Ok(|EncodeField(f)|)
    decreases f, 1
  {
    hide Read, Tag, Payload, SkipPayload;
    assert EncodeField(f) + rest == Tag(f.num, WireType(f)) + (Payload(f) + rest);
    ReadTag(f.num, WireType(f), Payload(f) + rest);
    SkipsPayload(f, rest);
  }

  lemma {:induction false} SkipsPayload(f: Field, rest: Bytes)
    requires WellFormed(f)
    ensures SkipPayload(WireType(f), Payload(f) + rest) == Ok(|Payload(f)|)
    decreases f, 0
  {
    match f {
      case VarintField(_, v) =>
        RoundTrip(v, rest);
      case Fixed64Field(_, _) =>
      case DelimitedField(_, body) =>
        assert Payload(f) + rest == Encode(|body|) + (body + rest);
        RoundTrip(|body|, body + rest);
      case GroupField(num, fields) =>
        assert Payload(f) + rest == EncodeFields(fields) + (Tag(num, 4) + rest);
        SkipsGroup(fields, num, rest);
      case Fixed32Field(_, _) =>
    }
  }

  lemma {:induction false} SkipsGroup(fields: seq<Field>, num: nat, rest: Bytes)
    requires 0 < num < TWO_31
    requires forall g | g in fields :: WellFormed(g)
    ensures SkipGroup(EncodeFields(fields) + (Tag(num, 4) + rest)) == Ok(|EncodeFields(fields)| + |Tag(num, 4)|)
    decreases fields, 2
  {
    hide Skip, EncodeField, Tag, Read;
    var end := Tag(num, 4) + rest;
    if fields == [] {
      assert EncodeFields(fields) + end == end;
      ReadTag(num, 4, rest);
    } else {
      var first, others := fields[0], EncodeFields(fields[1..]) + end;
      assert first in fields && WellFormed(first);
      assert EncodeFields(fields) + end == EncodeField(first) + others;
      SkipsField(first, others);
      SkipsGroup(fields[1..], num, rest);
      GroupStep(first, others);
    }
  }

  /** Inside a group, a well-formed field is skipped and the rest of the group follows. */
  lemma GroupStep(f: Field, others: Bytes)
    requires WellFormed(f) && Skip(EncodeField(f) + others) == Ok(|EncodeField(f)|)
    ensures SkipGroup(EncodeField(f) + others)
         == match SkipGroup(others) case Ok(n) => Ok(|EncodeField(f)| + n) case Err(e) => Err(e)
  {
    hide Read, Skip, Tag, Payload;
    var s := EncodeField(f) + others;
    assert s == Tag(f.num, WireType(f)) + (Payload(f) + others);
    ReadTag(f.num, WireType(f), Payload(f) + others);
    assert s[|EncodeField(f)|..] == others;
  }

  lemma UnknownFieldSkipped(f: Field, after: Bytes, st: State)
    requires WellFormed(f) && KindOf(st.message, f.num) == UnknownField
    ensures ReadField(EncodeField(f) + after, st) == Ok((st, |EncodeField(f)|))
  {
    hide Read, Skip, Tag, Payload;
    assert EncodeField(f) + after == Tag(f.num, WireType(f)) + (Payload(f) + after);
    ReadTag(f.num, WireType(f), Payload(f) + after);
    SkipsField(f, after);
  }

  /** When the field at the front takes exactly `first`, decoding goes on with what follows. */
  lemma FieldThenRest(first: Bytes, after: Bytes, st: State, st': State)
    requires first != [] && ReadField(first + after, st) == Ok((st', |first|))
    ensures ReadFields(first + after, st) == ReadFields(after, st')
  {
    hide ReadField;
    assert (first + after)[|first|..] == after;
  }

  /** A field whose number the message does not declare changes nothing, wherever it stands between fields. */
  lemma UnknownFieldTransparent(before: Bytes, f: Field, after: Bytes, st: State)
    requires ReadFields(before, st).Ok?
    requires WellFormed(f) && KindOf(st.message, f.num) == UnknownField
    ensures ReadFields(before + EncodeField(f) + after, st) == ReadFields(before + after, st)
  {
    hide ReadFields, ReadField, EncodeField;
    var st' := ReadFields(before, st).value;
    ConcatenationMerges(before, EncodeField(f) + after, st);
    ConcatenationMerges(before, after, st);
    assert before + EncodeField(f) + after == before + (EncodeField(f) + after);
    UnknownFieldSkipped(f, after, st');
    FieldThenRest(EncodeField(f), after, st', st');
  }

  /** The same for a whole message, with its check for required fields. */
  lemma UnknownFieldIgnored(before: Bytes, f: Field, after: Bytes, m: Message)
    requires ReadFields(before, State(m, {})).Ok?
    requires WellFormed(f) && KindOf(m, f.num) == UnknownField
    ensures Unmarshal(before + EncodeField(f) + after, m) == Unmarshal(before + after, m)
  {
    hide ReadFields, EncodeField;
    UnknownFieldTransparent(before, f, after, State(m, {}));
  }
}
