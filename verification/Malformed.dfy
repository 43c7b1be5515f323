/** What the decoder makes of bytes that are no message: it reports the error of the first thing that is wrong. */
module Malformed {
  import opened ByteStrings
  import opened Messages
  import opened Varint
  import opened Parser
  import opened ParserLaws
  import opened Printer

  // ----- varints

  /** A varint that has not ended after ten bytes overflows, and one that the input cuts off earlier is an early end. */
  lemma {:induction false} UnfinishedVarint(s: Bytes, rest: Bytes, shift: nat, acc: U64)
    requires forall i | 0 <= i < |s| :: s[i] >= 128
    ensures shift + 7 * |s| >= 64 ==> Read(s + rest, shift, acc) == Err(IntOverflow)
    ensures shift + 7 * |s| < 64 && rest == [] ==> Read(s + rest, shift, acc) == Err(UnexpectedEOF)
    decreases |s|
  {
    if s != [] && shift < 64 {
      assert (s + rest)[1..] == s[1..] + rest;
      UnfinishedVarint(s[1..], rest, shift + 7, Or64(acc, Chunk(s[0], shift)));
    }
  }

  lemma {:induction false} HighBits(v: nat, i: nat)
    requires i < |Encode(v)| - 1
    ensures Encode(v)[i] >= 128
  {
    if i > 0 {
      HighBits(v / 128, i - 1);
    }
  }

  /** Every proper prefix of a varint is an early end. */
  lemma CutVarint(v: U64, n: nat, acc: U64)
    requires n < |Encode(v)|
    ensures Read(Encode(v)[..n], 0, acc) == Err(UnexpectedEOF)
  {
    var s := Encode(v);
    forall i | 0 <= i < n ensures s[..n][i] >= 128 {
      HighBits(v, i);
    }
    RoundTrip(v, []);
    assert s + [] == s && s[..n] + s[n..] == s && s[..n] + [] == s[..n];
    UnfinishedVarint(s[..n], s[n..], 0, 0);
    UnfinishedVarint(s[..n], [], 0, acc);
  }

  lemma CutDelimited(body: Bytes, n: nat)
    requires |body| < TWO_63 && n < |Encode(|body|) + body|
    ensures ReadDelimited((Encode(|body|) + body)[..n]) == Err(UnexpectedEOF)
  {
    hide Read, Encode;
    var s, k := Encode(|body|) + body, |Encode(|body|)|;
    if n < k {
      assert s[..n] == Encode(|body|)[..n];
      CutVarint(|body|, n, 0);
    } else {
      assert s[..n] == Encode(|body|) + s[k..n];
      RoundTrip(|body|, s[k..n]);
    }
  }

  // ----- fields that are cut off

  /** The decoder asked to skip a field of which it has only a part finds the end too early, here or at its caller. */
  predicate RunsOut(r: Result<nat>, length: nat) {
    r == Err(UnexpectedEOF) || (r.Ok? && r.value > length)
  }

  lemma {:induction false} CutSkip(f: Field, n: nat)
    requires WellFormed(f) && 0 < n < |EncodeField(f)|
    ensures RunsOut(Skip(EncodeField(f)[..n]), n)
    decreases f, 1
  {
    hide Read, Tag, Payload, SkipPayload;
    var s, k := EncodeField(f)[..n], |Tag(f.num, WireType(f))|;
    if n < k {
      assert s == Tag(f.num, WireType(f))[..n];
      CutTag(f.num, WireType(f), n);
    } else {
      assert s == Tag(f.num, WireType(f)) + Payload(f)[..n - k];
      ReadTag(f.num, WireType(f), Payload(f)[..n - k]);
      CutPayload(f, n - k);
    }
  }

  lemma CutTag(num: nat, wireType: nat, n: nat)
    requires 0 < num < TWO_31 && wireType < 8 && n < |Tag(num, wireType)|
    ensures Read(Tag(num, wireType)[..n], 0, 0) == Err(UnexpectedEOF)
  {
    CutVarint(8 * num + wireType, n, 0);
  }

  lemma {:induction false} CutPayload(f: Field, n: nat)
    requires WellFormed(f) && n < |Payload(f)|
    ensures RunsOut(SkipPayload(WireType(f), Payload(f)[..n]), n)
    decreases f, 0
  {
    match f
    case VarintField(_, v) => CutVarint(v, n, 0);
    case Fixed64Field(_, _) =>
    case DelimitedField(_, body) =>
      var k := |Encode(|body|)|;
      if n < k {
        assert Payload(f)[..n] == Encode(|body|)[..n];
        CutVarint(|body|, n, 0);
      } else {
        assert Payload(f)[..n] == Encode(|body|) + body[..n - k];
        RoundTrip(|body|, body[..n - k]);
      }
    case GroupField(num, fields) => CutGroup(fields, num, n);
    case Fixed32Field(_, _) =>
  }

  lemma {:induction false} CutGroup(fields: seq<Field>, num: nat, n: nat)
    requires 0 < num < TWO_31 && forall g | g in fields :: WellFormed(g)
    requires n < |EncodeFields(fields) + Tag(num, 4)|
    ensures SkipGroup((EncodeFields(fields) + Tag(num, 4))[..n]) == Err(UnexpectedEOF)
    decreases fields, 2
  {
    hide Skip, EncodeField, Tag, Read;
    var s := (EncodeFields(fields) + Tag(num, 4))[..n];
    if fields == [] {
      assert s == Tag(num, 4)[..n];
      CutTag(num, 4, n);
    } else {
      var first, others := fields[0], EncodeFields(fields[1..]) + Tag(num, 4);
      assert first in fields;
      var k := |EncodeField(first)|;
      assert EncodeFields(fields) + Tag(num, 4) == EncodeField(first) + others;
      if n < k {
        assert s == EncodeField(first)[..n];
        CutFirst(first, n);
      } else {
        assert s == EncodeField(first) + others[..n - k];
        SkipsField(first, others[..n - k]);
        GroupStep(first, others[..n - k]);
        CutGroup(fields[1..], num, n - k);
      }
    }
  }

  lemma {:induction false} CutFirst(f: Field, n: nat)
    requires WellFormed(f) && n < |EncodeField(f)|
    ensures SkipGroup(EncodeField(f)[..n]) == Err(UnexpectedEOF)
    decreases f, 2
  {
    hide Read, Tag, Payload, Skip;
    var s, k := EncodeField(f)[..n], |Tag(f.num, WireType(f))|;
    if n < k {
      assert s == Tag(f.num, WireType(f))[..n];
      CutTag(f.num, WireType(f), n);
    } else {
      assert s == Tag(f.num, WireType(f)) + Payload(f)[..n - k];
      ReadTag(f.num, WireType(f), Payload(f)[..n - k]);
      CutSkip(f, n);
    }
  }

  /** The field has the wire type its number is declared with, or its number is not declared. */
  predicate Declared(m: Message, f: Field) {
    match KindOf(m, f.num)
    case UnknownField => true
    case NumberField => f.VarintField?
    case _ => f.DelimitedField?
  }

  lemma CutField(f: Field, n: nat, st: State)
    requires WellFormed(f) && Declared(st.message, f) && 0 < n < |EncodeField(f)|
    ensures ReadField(EncodeField(f)[..n], st) == Err(UnexpectedEOF)
  {
    hide Read, Tag, Payload, Skip, ReadPayload;
    var s, k := EncodeField(f)[..n], |Tag(f.num, WireType(f))|;
    if n < k {
      assert s == Tag(f.num, WireType(f))[..n];
      CutTag(f.num, WireType(f), n);
    } else {
      var after := Payload(f)[..n - k];
      assert s == Tag(f.num, WireType(f)) + after;
      ReadTag(f.num, WireType(f), after);
      if KindOf(st.message, f.num) == UnknownField {
        CutSkip(f, n);
      } else {
        CutDeclared(f, n - k, st.message);
      }
    }
  }

  lemma CutDeclared(f: Field, n: nat, m: Message)
    requires WellFormed(f) && Declared(m, f) && KindOf(m, f.num) != UnknownField && n < |Payload(f)|
    ensures ReadPayload(Payload(f)[..n], m, f.num) == Err(UnexpectedEOF)
  {
    hide Read, Encode, ReadDelimited, ReadEntry, Unmarshal;
    if f.VarintField? {
      CutVarint(f.v, n, 0);
    } else {
      CutDelimited(f.body, n);
    }
  }

  /** A message that ends inside a field of any kind, groups included, is refused as an early end. */
  lemma TruncatedRejected(before: Bytes, f: Field, n: nat, m: Message)
    requires ReadFields(before, State(m, {})).Ok?
    requires WellFormed(f) && Declared(m, f) && 0 < n < |EncodeField(f)|
    ensures Unmarshal(before + EncodeField(f)[..n], m) == Err(UnexpectedEOF)
  {
    hide ReadFields, ReadField, EncodeField;
    var st := ReadFields(before, State(m, {})).value;
    ConcatenationMerges(before, EncodeField(f)[..n], State(m, {}));
    SameKinds(m, st.message, f.num);
    CutField(f, n, st);
    FirstFails(EncodeField(f)[..n], st, UnexpectedEOF);
  }

  lemma SameKinds(m: Message, m': Message, num: int)
    requires SameType(m, m')
    ensures KindOf(m, num) == KindOf(m', num) && RequiredCount(m) == RequiredCount(m')
  {
  }

  lemma FirstFails(s: Bytes, st: State, e: Error)
    requires s != [] && ReadField(s, st) == Err(e)
    ensures ReadFields(s, st) == Err(e)
  {
    hide ReadField;
  }

  // ----- tags

  /**
   * What is wrong with a tag, if anything: an end of a group that was not begun, a field number that is not positive
   * as a 32-bit integer, a wire type other than the declared one, or one that does not exist.
   */
  function TagError(m: Message, num: int, wireType: nat): Option<Error> {
    if wireType == 4 then Some(EndGroup)
    else if num <= 0 then Some(IllegalTag(num))
    else
      match KindOf(m, num)
      case UnknownField => if wireType == 6 || wireType == 7 then Some(IllegalWireType(wireType)) else None
      case NumberField => if wireType != 0 then Some(WrongWireType(num)) else None
      case _ => if wireType != 2 then Some(WrongWireType(num)) else None
  }

  /** Behind any fields, a wrong tag of any 32-bit number is refused with its error, whatever follows it. */
  lemma WrongTagRejected(before: Bytes, num: nat, wireType: nat, after: Bytes, m: Message)
    requires ReadFields(before, State(m, {})).Ok?
    requires num < TWO_32 && wireType < 8 && TagError(m, ToI32(num), wireType).Some?
    ensures Unmarshal(before + (Tag(num, wireType) + after), m) == Err(TagError(m, ToI32(num), wireType).value)
  {
    hide ReadFields, ReadField, Tag;
    var st := ReadFields(before, State(m, {})).value;
    var s := Tag(num, wireType) + after;
    ConcatenationMerges(before, s, State(m, {}));
    SameKinds(m, st.message, ToI32(num));
    WrongTag(num, wireType, after, st);
    FirstFails(s, st, TagError(m, ToI32(num), wireType).value);
  }

  lemma WrongTag(num: nat, wireType: nat, after: Bytes, st: State)
    requires num < TWO_32 && wireType < 8 && TagError(st.message, ToI32(num), wireType).Some?
    ensures Tag(num, wireType) + after != []
    ensures ReadField(Tag(num, wireType) + after, st) == Err(TagError(st.message, ToI32(num), wireType).value)
  {
    hide Read, Encode, ReadPayload;
    var s := Tag(num, wireType) + after;
    RoundTrip(8 * num + wireType, after);
    assert (8 * num + wireType) / 8 == num && (8 * num + wireType) % 8 == wireType;
    assert wireType == 6 || wireType == 7 ==> Skip(s) == Err(IllegalWireType(wireType));
    assert wireType != 4 && 0 < ToI32(num) && KindOf(st.message, ToI32(num)) == UnknownField
       ==> ReadField(s, st) == Err(IllegalWireType(wireType));
  }

  /** A length that is negative as a 64-bit integer is refused. */
  lemma NegativeLengthRejected(before: Bytes, num: nat, length: U64, after: Bytes, m: Message)
    requires ReadFields(before, State(m, {})).Ok? && 0 < num < TWO_31 && length >= TWO_63
    requires KindOf(m, num) != NumberField
    ensures Unmarshal(before + (Tag(num, 2) + (Encode(length) + after)), m) == Err(InvalidLength)
  {
    hide ReadFields, ReadField, Tag, Encode;
    var st := ReadFields(before, State(m, {})).value;
    var s := Tag(num, 2) + (Encode(length) + after);
    ConcatenationMerges(before, s, State(m, {}));
    SameKinds(m, st.message, num);
    NegativeLength(num, length, after, st);
    FirstFails(s, st, InvalidLength);
  }

  lemma NegativeLength(num: nat, length: U64, after: Bytes, st: State)
    requires 0 < num < TWO_31 && length >= TWO_63 && KindOf(st.message, num) != NumberField
    ensures ReadField(Tag(num, 2) + (Encode(length) + after), st) == Err(InvalidLength)
  {
    hide Read, Encode, Tag, ReadEntry, Unmarshal, SkipGroup;
    var s := Tag(num, 2) + (Encode(length) + after);
    ReadTag(num, 2, Encode(length) + after);
    RoundTrip(length, after);
    assert SkipPayload(2, Encode(length) + after) == Err(InvalidLength);
    assert Skip(s) == Err(InvalidLength);
    assert ReadDelimited(Encode(length) + after) == Err(InvalidLength);
  }

  // ----- required fields

  /** The field numbers each message requires: up to 4 of a trace, up to 9 of a span, none of an error info. */
  predicate Requires(m: Message, num: int) {
    1 <= num <= (if m.TraceMessage? then 4 else if m.SpanMessage? then 9 else 0)
  }

  predicate Has(items: seq<Item>, num: int) {
    exists i | 0 <= i < |items| :: items[i].num == num
  }

  lemma {:induction false} AllSeen(items: seq<Item>, st: State)
    requires forall i | 0 <= i < |items| :: Faithful(st.message, items[i])
    ensures var r := ReadFields(ItemsBytes(items), st);
            && r.Ok?
            && forall num | Requires(st.message, num) :: num in r.value.seen <==> num in st.seen || Has(items, num)
    decreases |items|
  {
    hide Store, ReadFields, Faithful;
    if items == [] {
      NoFields(st);
    } else {
      var x, xs := items[0], items[1..];
      assert Faithful(st.message, x);
      var st' := Saw(st, x.num, Store(st.message, x));
      assert items == [x] + xs;
      StepRead(x, xs, st);
      forall i | 0 <= i < |xs| ensures Faithful(st'.message, xs[i]) {
        assert xs[i] == items[i + 1];
        StaysFaithful(st.message, st'.message, xs[i]);
      }
      AllSeen(xs, st');
      forall num | Requires(st.message, num) ensures Has(items, num) <==> x.num == num || Has(xs, num) {
        HasCons(x, xs, num);
      }
    }
  }

  lemma NoFields(st: State)
    ensures ReadFields(ItemsBytes([]), st) == Ok(st)
  {
  }

  lemma StaysFaithful(m: Message, m': Message, it: Item)
    requires Faithful(m, it) && SameType(m', m)
    ensures Faithful(m', it)
  {
    hide Unmarshal;
  }

  lemma HasCons(x: Item, xs: seq<Item>, num: int)
    ensures Has([x] + xs, num) <==> x.num == num || Has(xs, num)
  {
    var items := [x] + xs;
    if x.num == num {
      assert items[0].num == num;
    }
    if Has(xs, num) {
      var i :| 0 <= i < |xs| && xs[i].num == num;
      assert items[i + 1].num == num;
    }
  }

  /**
   * A list of well-formed fields decodes if and only if each required field is among them; otherwise the least that is
   * missing is reported.
   */
  lemma RequiredIff(items: seq<Item>, m: Message)
    requires forall i | 0 <= i < |items| :: Faithful(m, items[i])
    ensures var r := Unmarshal(ItemsBytes(items), m);
            && (r.Ok? <==> forall num | Requires(m, num) :: Has(items, num))
            && (r.Err? ==> r.error.RequiredNotSet? && Requires(m, r.error.num) && !Has(items, r.error.num)
                           && forall num | Requires(m, num) && num < r.error.num :: Has(items, num))
  {
    hide ReadFields, ItemsBytes, Faithful, Has;
    AllSeen(items, State(m, {}));
  }
}
