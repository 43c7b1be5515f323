/**
 * What the generated `Unmarshal` and `skip` functions compute, as functions of the bytes still to be read.
 * The loops themselves are in module Decoder and are proved equal to these functions.
 */
module Parser {
  import opened ByteStrings
  import opened Messages
  import opened Varint

  /** Reads a length and that many bytes; returns the bytes and how far the read went. */
  function ReadDelimited(s: Bytes): (r: Result<(Bytes, nat)>)
    ensures r.Ok? ==> 0 < r.value.1 <= |s| && |r.value.0| < r.value.1
  {
    var (word, n) :- Read(s, 0, 0);
    var length := ToI64(word);
    if length < 0 then Err(InvalidLength)
    else if n + length > |s| then Err(UnexpectedEOF)
    else Ok((s[n..n + length], n + length))
  }

  /**
   * How many bytes the field at the front of `s` takes. For fixed-width and length-delimited fields this may
   * be more than there are: the callers check.
   */
  function Skip(s: Bytes): (r: Result<nat>)
    requires s != []
    ensures r.Ok? ==> r.value > 0
    decreases |s|, 0
  {
    var (wire, n) :- Read(s, 0, 0);
    var m :- SkipPayload(wire % 8, s[n..]);
    Ok(n + m)
  }

  /** How many bytes follow a tag with this wire type. */
  function SkipPayload(wireType: nat, s: Bytes): (r: Result<nat>)
    decreases |s|, 2
  {
    match wireType
    case 0 =>
      var (_, n) :- Read(s, 0, 0);
      Ok(n)
    case 1 => Ok(8)
    case 2 =>
      var (word, n) :- Read(s, 0, 0);
      var length := ToI64(word);
      if length < 0 then Err(InvalidLength) else Ok(n + length)
    case 3 => SkipGroup(s)
    case 4 => Ok(0)
    case 5 => Ok(4)
    case _ => Err(IllegalWireType(wireType))
  }

  /** How many bytes the fields of a group take, up to and including the end-group tag. */
  function SkipGroup(s: Bytes): (r: Result<nat>)
    ensures r.Ok? ==> 0 < r.value <= |s|
    decreases |s|, 1
  {
    var (wire, n) :- Read(s, 0, 0);
    if wire % 8 == 4 then Ok(n)
    else
      var m :- Skip(s);
      if m > |s| then Err(UnexpectedEOF)
      else
        var rest :- SkipGroup(s[m..]);
        Ok(m + rest)
  }

  /**
   * Decodes one map entry. The entry occupies the first `length` bytes of `s`; `consumed` of them are read.
   * As in the source, a key or value is checked against the end of the message, not of the entry, and a
   * number value is or-ed into the one read before.
   */
  function ReadEntry(kind: Kind, s: Bytes, consumed: nat, length: nat, key: Bytes, value: Value)
    : (r: Result<(Bytes, Value)>)
    requires FitsMap(kind, value)
    requires consumed <= |s| && length <= |s|
    ensures r.Ok? ==> FitsMap(kind, r.value.1)
    decreases |s| - consumed
  {
    if consumed >= length then Ok((key, value))
    else
      var (key', value', n) :- ReadEntryItem(kind, s[consumed..], length - consumed, key, value);
      ReadEntry(kind, s, consumed + n, length, key', value')
  }

  /** Decodes the key, the value or an unknown field of an entry that has `room` bytes left. */
  function ReadEntryItem(kind: Kind, s: Bytes, room: nat, key: Bytes, value: Value)
    : (r: Result<(Bytes, Value, nat)>)
    requires FitsMap(kind, value) && 0 < room <= |s|
    ensures r.Ok? ==> FitsMap(kind, r.value.1) && 0 < r.value.2 <= |s|
  {
    var (wire, n) :- Read(s, 0, 0);
    var num := ToI32(wire / 8);
    if num == 1 then
      var (key', m) :- ReadDelimited(s[n..]);
      Ok((key', value, n + m))
    else if num == 2 then
      var (value', m) :- ReadValue(kind, s[n..], value);
      Ok((key, value', n + m))
    else
      var m :- Skip(s);
      if m > room then Err(UnexpectedEOF) else Ok((key, value, m))
  }

  /** Decodes the value of a map entry; `before` is the value so far. */
  function ReadValue(kind: Kind, s: Bytes, before: Value): (r: Result<(Value, nat)>)
    requires FitsMap(kind, before)
    ensures r.Ok? ==> r.value.1 <= |s| && FitsMap(kind, r.value.0)
  {
    match kind
    case NumberMap =>
      var (bits, n) :- Read(s, 0, before.bits);
      Ok((Word(bits), n))
    case FloatMap =>
      if |s| < 8 then Err(UnexpectedEOF)
      else
        Pow256Values();
        FromLittleEndianBound(s[..8]);
        Ok((Word(FromLittleEndian(s[..8])), 8))
    case StringMap =>
      var (text, n) :- ReadDelimited(s);
      Ok((Text(text), n))
  }

  /** A message being decoded and the required fields seen so far. */
  datatype State = State(message: Message, seen: set<int>)

  function Saw(st: State, num: int, m: Message): State {
    State(m, if 1 <= num <= RequiredCount(st.message) then st.seen + {num} else st.seen)
  }

  /** Decodes the field at the front of `s`; returns the new state and the bytes used. */
  function ReadField(s: Bytes, st: State): (r: Result<(State, nat)>)
    requires s != []
    ensures r.Ok? ==> 0 < r.value.1 <= |s| && SameType(r.value.0.message, st.message)
    decreases |s|, 0
  {
    var (wire, n) :- Read(s, 0, 0);
    var num, wireType := ToI32(wire / 8), wire % 8;
    var kind := KindOf(st.message, num);
    if wireType == 4 then Err(EndGroup)
    else if num <= 0 then Err(IllegalTag(num))
    else if kind == UnknownField then
      var m :- Skip(s);
      if m > |s| then Err(UnexpectedEOF) else Ok((st, m))
    else if wireType != (if kind == NumberField then 0 else 2) then Err(WrongWireType(num))
    else
      var (m, k) :- ReadPayload(s[n..], st.message, num);
      Ok((Saw(st, num, m), n + k))
  }

  /** Decodes what follows the tag of a declared field and stores it. */
  function ReadPayload(s: Bytes, m: Message, num: int): (r: Result<(Message, nat)>)
    requires KindOf(m, num) != UnknownField
    ensures r.Ok? ==> 0 < r.value.1 <= |s| && SameType(r.value.0, m)
    decreases |s|, 3
  {
    var kind := KindOf(m, num);
    if kind == NumberField then
      var (word, n) :- Read(s, 0, 0);
      Ok((SetNumber(m, num, word), n))
    else
      var (body, n) :- ReadDelimited(s);
      if kind == StringField then
        Ok((SetString(m, num, body), n))
      else if kind == MessageField then
        var sub :- Unmarshal(body, FreshSub(m, num));
        Ok((AppendSub(m, num, sub), n))
      else
        var (key, value) :- ReadEntry(kind, s[n - |body|..], 0, |body|, [], ZeroValue(kind));
        Ok((PutEntry(m, num, key, value), n))
  }

  /** Decodes field after field until nothing is left. */
  function ReadFields(s: Bytes, st: State): (r: Result<State>)
    ensures r.Ok? ==> SameType(r.value.message, st.message)
    decreases |s|, 1
  {
    if s == [] then Ok(st)
    else
      var (st', n) :- ReadField(s, st);
      ReadFields(s[n..], st')
  }

  /** The first of the required fields `from`, ..., `count`, if any, that is not among those seen. */
  function FirstMissing(from: nat, count: nat, seen: set<int>): (r: Option<nat>)
    ensures r.None? <==> forall num | from <= num <= count :: num in seen
    ensures r.Some? ==> from <= r.value <= count && r.value !in seen
    ensures r.Some? ==> forall num | from <= num < r.value :: num in seen
    decreases count + 1 - from
  {
    if from > count then None
    else if from !in seen then Some(from)
    else FirstMissing(from + 1, count, seen)
  }

  /** `m.Unmarshal(s)`: the message after decoding `s` into `m`, or the error. */
  function Unmarshal(s: Bytes, m: Message): (r: Result<Message>)
    ensures r.Ok? ==> SameType(r.value, m)
    decreases |s|, 2
  {
    var st :- ReadFields(s, State(m, {}));
    match FirstMissing(1, RequiredCount(m), st.seen)
    case Some(num) => Err(RequiredNotSet(num))
    case None => Ok(st.message)
  }
}
