/** Map entries in general: the parts of an entry in any order, repeated or missing, and unknown fields among them. */
module MapEntries {
  import opened ByteStrings
  import opened Messages
  import opened Varint
  import opened Parser
  import opened ParserLaws
  import opened Printer

  /** A part of a map entry: a key, a value, or a field with another number. */
  datatype Part = KeyPart(key: Bytes) | ValuePart(value: Value) | OtherPart(field: Field)

  predicate PartFits(kind: Kind, part: Part) {
    match part
    case KeyPart(key) => |key| < TWO_63
    case ValuePart(value) => FitsMap(kind, value) && (value.Text? ==> |value.s| < TWO_63)
    case OtherPart(f) => WellFormed(f) && f.num != 1 && f.num != 2
  }

  function PartBytes(kind: Kind, part: Part): (s: Bytes)
    ensures s != []
  {
    match part
    case KeyPart(key) => Tag(1, 2) + (Encode(|key|) + key)
    case ValuePart(value) => ValueBytes(kind, value)
    case OtherPart(f) => EncodeField(f)
  }

  function PartsBytes(kind: Kind, parts: seq<Part>): Bytes {
    if parts == [] then [] else PartBytes(kind, parts[0]) + PartsBytes(kind, parts[1..])
  }

  /** A key replaces the one before, and so does a value, except that those of a number map are or-ed. */
  function AfterPart(kind: Kind, key: Bytes, value: Value, part: Part): (r: (Bytes, Value))
    requires FitsMap(kind, value) && PartFits(kind, part)
    ensures FitsMap(kind, r.1)
  {
    match part
    case KeyPart(key') => (key', value)
    case ValuePart(value') => (key, if kind == NumberMap then Word(Or64(value.bits, value'.bits)) else value')
    case OtherPart(_) => (key, value)
  }

  function AfterParts(kind: Kind, key: Bytes, value: Value, parts: seq<Part>): (r: (Bytes, Value))
    requires FitsMap(kind, value) && forall i | 0 <= i < |parts| :: PartFits(kind, parts[i])
    ensures FitsMap(kind, r.1)
    decreases |parts|
  {
    if parts == [] then (key, value)
    else
      var (key', value') := AfterPart(kind, key, value, parts[0]);
      AfterParts(kind, key', value', parts[1..])
  }

  /** Each part is read on its own, however much of the entry and of the message follows. */
  lemma PartRead(kind: Kind, part: Part, more: Bytes, rest: Bytes, key: Bytes, value: Value)
    requires FitsMap(kind, value) && PartFits(kind, part)
    ensures var bytes, (key', value') := PartBytes(kind, part), AfterPart(kind, key, value, part);
            ReadEntryItem(kind, bytes + (more + rest), |bytes| + |more|, key, value) == Ok((key', value', |bytes|))
  {
    hide Read, Tag, Encode, ReadEntryItem, Skip;
    match part
    case KeyPart(key') => KeyRead(kind, key', more, rest, key, value);
    case ValuePart(value') => ValueRead(kind, value', more, rest, key, value);
    case OtherPart(f) => OtherRead(kind, f, more, rest, key, value);
  }

  lemma KeyRead(kind: Kind, key': Bytes, more: Bytes, rest: Bytes, key: Bytes, value: Value)
    requires FitsMap(kind, value) && |key'| < TWO_63
    ensures var bytes := Tag(1, 2) + (Encode(|key'|) + key');
            ReadEntryItem(kind, bytes + (more + rest), |bytes| + |more|, key, value) == Ok((key', value, |bytes|))
  {
    hide Read, Tag, Encode, ReadDelimited, ReadValue, Skip;
    var after := Encode(|key'|) + key' + (more + rest);
    assert Tag(1, 2) + (Encode(|key'|) + key') + (more + rest) == Tag(1, 2) + after;
    ReadTag(1, 2, after);
    DelimitedRoundTrip(key', more + rest);
  }

  lemma ValueRead(kind: Kind, value': Value, more: Bytes, rest: Bytes, key: Bytes, value: Value)
    requires FitsMap(kind, value) && FitsMap(kind, value') && (value'.Text? ==> |value'.s| < TWO_63)
    ensures var bytes := ValueBytes(kind, value');
            ReadEntryItem(kind, bytes + (more + rest), |bytes| + |more|, key, value)
            == Ok((key, if kind == NumberMap then Word(Or64(value.bits, value'.bits)) else value', |bytes|))
  {
    hide Read, Tag, Encode, ReadEntryItem, LittleEndian, Or64;
    var after := more + rest;
    match kind
    case NumberMap =>
      Assoc(Tag(2, 0), Encode(value'.bits), after);
      ValueBehindTag(kind, 0, Encode(value'.bits) + after, |ValueBytes(kind, value')| + |more|, key, value);
      RoundTrip(value'.bits, after);
      ReadOr(Encode(value'.bits) + after, 0, value.bits);
    case FloatMap =>
      Assoc(Tag(2, 1), LittleEndian(value'.bits, 8), after);
      ValueBehindTag(kind, 1, LittleEndian(value'.bits, 8) + after, |ValueBytes(kind, value')| + |more|, key, value);
      FloatRead(value'.bits, after, value);
    case StringMap =>
      Assoc(Tag(2, 2), Encode(|value'.s|) + value'.s, after);
      assert Tag(2, 2) + Encode(|value'.s|) + value'.s == Tag(2, 2) + (Encode(|value'.s|) + value'.s);
      ValueBehindTag(kind, 2, Encode(|value'.s|) + value'.s + after, |ValueBytes(kind, value')| + |more|, key, value);
      DelimitedRoundTrip(value'.s, after);
  }

  lemma Assoc(a: Bytes, b: Bytes, c: Bytes)
    ensures (a + b) + c == a + (b + c)
  {
  }

  lemma FloatRead(bits: U64, after: Bytes, before: Value)
    requires FitsMap(FloatMap, before)
    ensures ReadValue(FloatMap, LittleEndian(bits, 8) + after, before) == Ok((Word(bits), 8))
  {
    hide LittleEndian;
    FloatRoundTrip(bits, after);
  }

  lemma OtherRead(kind: Kind, f: Field, more: Bytes, rest: Bytes, key: Bytes, value: Value)
    requires FitsMap(kind, value) && WellFormed(f) && f.num != 1 && f.num != 2
    ensures var bytes := EncodeField(f);
            ReadEntryItem(kind, bytes + (more + rest), |bytes| + |more|, key, value) == Ok((key, value, |bytes|))
  {
    hide Read, Tag, Payload, Skip, ReadDelimited, ReadValue;
    var after := Payload(f) + (more + rest);
    assert EncodeField(f) + (more + rest) == Tag(f.num, WireType(f)) + after;
    ReadTag(f.num, WireType(f), after);
    SkipsField(f, more + rest);
  }

  /** The parts that are left of an entry, of which `before` has been read. */
  lemma {:induction false} PartsRead(kind: Kind, before: Bytes, parts: seq<Part>, rest: Bytes, key: Bytes, value: Value)
    requires FitsMap(kind, value) && forall i | 0 <= i < |parts| :: PartFits(kind, parts[i])
    ensures var length := |before| + |PartsBytes(kind, parts)|;
            ReadEntry(kind, before + PartsBytes(kind, parts) + rest, |before|, length, key, value)
            == Ok(AfterParts(kind, key, value, parts))
    decreases |parts|
  {
    hide ReadEntryItem, PartBytes, AfterPart, PartFits;
    if parts != [] {
      var bytes, more := PartBytes(kind, parts[0]), PartsBytes(kind, parts[1..]);
      var s := before + PartsBytes(kind, parts) + rest;
      var (key', value') := AfterPart(kind, key, value, parts[0]);
      assert s == (before + bytes) + more + rest;
      assert s[|before|..] == bytes + (more + rest);
      PartRead(kind, parts[0], more, rest, key, value);
      PartsRead(kind, before + bytes, parts[1..], rest, key', value');
    }
  }

  /**
   * Whatever parts an entry has, it decodes to the last key and the last value, or the or of the values of a number
   * map; a missing key is empty and a missing value zero, and fields with other numbers do not count.
   */
  lemma EntryOfParts(kind: Kind, parts: seq<Part>, rest: Bytes)
    requires IsMap(kind) && forall i | 0 <= i < |parts| :: PartFits(kind, parts[i])
    ensures var entry := PartsBytes(kind, parts);
            ReadEntry(kind, entry + rest, 0, |entry|, [], ZeroValue(kind))
            == Ok(AfterParts(kind, [], ZeroValue(kind), parts))
  {
    hide ReadEntry, PartsBytes, AfterParts, PartFits;
    PartsRead(kind, [], parts, rest, [], ZeroValue(kind));
    assert [] + PartsBytes(kind, parts) + rest == PartsBytes(kind, parts) + rest;
  }

  /** A key that runs past the declared end of its entry, but not past the message, is taken all the same. */
  lemma KeyOverrunsEntry(kind: Kind, key: Bytes, rest: Bytes, length: nat)
    requires IsMap(kind) && |key| < TWO_63 && 0 < length < |PartBytes(kind, KeyPart(key))|
    ensures ReadEntry(kind, PartBytes(kind, KeyPart(key)) + rest, 0, length, [], ZeroValue(kind))
         == Ok((key, ZeroValue(kind)))
  {
    hide Read, Tag, Encode, ReadDelimited, ReadValue, Skip;
    var bytes, zero := PartBytes(kind, KeyPart(key)), ZeroValue(kind);
    var s := bytes + rest;
    var after := Encode(|key|) + key + rest;
    assert s == Tag(1, 2) + after && s[0..] == s;
    ReadTag(1, 2, after);
    DelimitedRoundTrip(key, rest);
    assert ReadEntryItem(kind, s, length, [], zero) == Ok((key, zero, |bytes|));
    assert ReadEntry(kind, s, |bytes|, length, key, zero) == Ok((key, zero));
  }

  /** A field with another number that does so is refused. */
  lemma OtherOverrunsEntry(kind: Kind, f: Field, rest: Bytes, key: Bytes, value: Value, length: nat)
    requires FitsMap(kind, value) && WellFormed(f) && f.num != 1 && f.num != 2 && 0 < length < |EncodeField(f)|
    ensures ReadEntry(kind, EncodeField(f) + rest, 0, length, key, value) == Err(UnexpectedEOF)
  {
    hide Read, Tag, Payload, Skip, ReadDelimited, ReadValue;
    var s := EncodeField(f) + rest;
    assert s == Tag(f.num, WireType(f)) + (Payload(f) + rest) && s[0..] == s;
    ReadTag(f.num, WireType(f), Payload(f) + rest);
    SkipsField(f, rest);
    assert ReadEntryItem(kind, s, length, key, value) == Err(UnexpectedEOF);
  }

  // ----- repeated values of a number map

  function Values(vs: seq<U64>): (parts: seq<Part>)
    ensures |parts| == |vs| && forall i | 0 <= i < |parts| :: PartFits(NumberMap, parts[i])
  {
    seq(|vs|, i requires 0 <= i < |vs| => ValuePart(Word(vs[i])))
  }

  function OrAll(acc: U64, vs: seq<U64>): U64
    decreases |vs|
  {
    if vs == [] then acc else OrAll(Or64(acc, vs[0]), vs[1..])
  }

  lemma {:induction false} AfterValues(key: Bytes, acc: U64, vs: seq<U64>)
    ensures AfterParts(NumberMap, key, Word(acc), Values(vs)) == (key, Word(OrAll(acc, vs)))
    decreases |vs|
  {
    hide Or64;
    if vs != [] {
      assert Values(vs)[1..] == Values(vs[1..]);
      AfterValues(key, Or64(acc, vs[0]), vs[1..]);
    }
  }

  /** A map entry with a key and then any number of values. */
  function EntryWithValues(key: Bytes, vs: seq<U64>): Bytes {
    PartsBytes(NumberMap, [KeyPart(key)] + Values(vs))
  }

  /** It decodes to the key and the bitwise or of all the values. */
  lemma DuplicateValuesOred(key: Bytes, vs: seq<U64>, rest: Bytes)
    requires |key| < TWO_63
    ensures var entry := EntryWithValues(key, vs);
            ReadEntry(NumberMap, entry + rest, 0, |entry|, [], Word(0)) == Ok((key, Word(OrAll(0, vs))))
  {
    hide ReadEntry, PartsBytes, OrAll, Values;
    var parts := [KeyPart(key)] + Values(vs);
    assert parts[1..] == Values(vs);
    EntryOfParts(NumberMap, parts, rest);
    AfterValues(key, 0, vs);
  }

  /** The bits of `v` are among those of `w`. */
  predicate BitsWithin(v: U64, w: U64) {
    Or(v, w) == w
  }

  lemma {:induction false} OrAllWithin(acc: U64, vs: seq<U64>, w: U64)
    ensures BitsWithin(OrAll(acc, vs), w) <==> BitsWithin(acc, w) && forall v | v in vs :: BitsWithin(v, w)
    decreases |vs|
  {
    if vs != [] {
      OrAllWithin(Or64(acc, vs[0]), vs[1..], w);
      OrWithin(acc, vs[0], w);
      assert vs == [vs[0]] + vs[1..];
    }
  }

  lemma OrWithin(a: U64, b: U64, w: U64)
    ensures BitsWithin(Or64(a, b), w) <==> BitsWithin(a, w) && BitsWithin(b, w)
  {
    hide Or;
    OrAssociates(a, b, w);
    if BitsWithin(Or64(a, b), w) {
      OrAssociates(a, a, Or(b, w));
      OrIdempotent(a);
      OrAssociates(b, a, w);
      OrAssociates(b, b, Or(a, w));
      OrIdempotent(b);
      OrCommutes(a, b);
      OrAssociates(a, b, w);
    }
  }

  /** No value has bits that the or of all has not. */
  lemma OrAllContains(vs: seq<U64>, v: U64)
    requires v in vs
    ensures BitsWithin(v, OrAll(0, vs))
  {
    hide OrAll, Or;
    OrIdempotent(OrAll(0, vs));
    OrAllWithin(0, vs, OrAll(0, vs));
  }

  lemma WithinBoth(v: U64, w: U64)
    requires BitsWithin(v, w) && BitsWithin(w, v)
    ensures v == w
  {
    hide Or;
    OrCommutes(v, w);
  }

  /**
   * The last value wins, as the Protocol Buffers Encoding specification asks, if and only if no earlier value has a bit
   * that the last one has not.
   */
  lemma LastValueWinsIff(vs: seq<U64>)
    requires vs != []
    ensures OrAll(0, vs) == vs[|vs| - 1] <==> forall v | v in vs :: BitsWithin(v, vs[|vs| - 1])
  {
    hide OrAll, Or;
    var last := vs[|vs| - 1];
    assert last in vs;
    OrAllContains(vs, last);
    OrAllWithin(0, vs, last);
    ZeroWithin(last);
    OrIdempotent(last);
    if forall v | v in vs :: BitsWithin(v, last) {
      WithinBoth(OrAll(0, vs), last);
    }
  }

  lemma ZeroWithin(w: U64)
    ensures BitsWithin(0, w)
  {
  }

  /** Values 1 and then 2 of one entry decode to 3. */
  lemma OneThenTwoIsThree(key: Bytes, rest: Bytes)
    requires |key| < TWO_63
    ensures var entry := EntryWithValues(key, [1, 2]);
            ReadEntry(NumberMap, entry + rest, 0, |entry|, [], Word(0)) == Ok((key, Word(3)))
  {
    hide ReadEntry, EntryWithValues;
    DuplicateValuesOred(key, [1, 2], rest);
    var vs: seq<U64> := [1, 2];
    assert vs[1..] == [2] && vs[1..][1..] == [];
    assert Or(1, 2) == 3;
  }
}
