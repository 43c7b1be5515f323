/** The metric record: type, joined name, value and tags, every string led by one byte of length. */
module MetricFormat {
  import opened Buffers
  import opened ByteStrings

  const MAX_STRING_LEN: nat := 255
  const DOT: Byte := 46

  datatype Tag = Tag(key: Bytes, value: Bytes)

  /** A metric; `bits` are the IEEE 754 bits of its value. */
  datatype Metric = Metric(mt: Byte, name: Bytes, bits: U64, tags: seq<Tag>)

  datatype FormatError = NameTooLong | TooManyTags | StringTooLong

  function JoinedName(prefix: Bytes, name: Bytes): Bytes {
    if prefix == [] then name else prefix + [DOT] + name
  }

  predicate TagFits(t: Tag) {
    |t.key| <= MAX_STRING_LEN && |t.value| <= MAX_STRING_LEN
  }

  predicate TagsFit(tags: seq<Tag>) {
    forall t | t in tags :: TagFits(t)
  }

  /** The limits of the format. */
  predicate Formats(prefix: Bytes, item: Metric) {
    |JoinedName(prefix, item.name)| <= MAX_STRING_LEN && |item.tags| <= MAX_STRING_LEN && TagsFit(item.tags)
  }

  function Str(s: Bytes): Bytes
    requires |s| <= MAX_STRING_LEN
  {
    [|s|] + s
  }

  function TagBytes(tags: seq<Tag>): Bytes
    requires TagsFit(tags)
  {
    if tags == [] then []
    else
      assert tags[0] in tags;
      Str(tags[0].key) + Str(tags[0].value) + TagBytes(tags[1..])
  }

  /** The record of a metric within the limits. */
  function MetricRecord(prefix: Bytes, item: Metric): (r: Record)
    requires Formats(prefix, item)
    ensures |r| >= 11
  {
    [item.mt] + Str(JoinedName(prefix, item.name)) + LittleEndian(item.bits, 8) + [|item.tags|] + TagBytes(item.tags)
  }

  // ----- a receiver that knows only the layout

  function ReadString(s: Bytes): Option<(Bytes, Bytes)> {
    if s == [] then None
    else
      var n: nat := s[0];
      if |s| < 1 + n then None else Some((s[1..1 + n], s[1 + n..]))
  }

  function ReadTag(s: Bytes): Option<(Tag, Bytes)> {
    match ReadString(s)
    case None => None
    case Some((key, rest)) =>
      match ReadString(rest)
      case None => None
      case Some((value, rest)) => Some((Tag(key, value), rest))
  }

  function ReadTags(s: Bytes, n: nat): Option<(seq<Tag>, Bytes)> {
    if n == 0 then Some(([], s))
    else
      match ReadTag(s)
      case None => None
      case Some((tag, rest)) =>
        match ReadTags(rest, n - 1)
        case None => None
        case Some((tags, rest)) => Some(([tag] + tags, rest))
  }

  /** The first record of `s` and what follows it. */
  function ReadRecord(s: Bytes): (r: Option<(Metric, Bytes)>)
    ensures r.Some? ==> |r.value.1| < |s|
  {
    if s == [] then None else ReadAfterType(s[0], s[1..])
  }

  function ReadAfterType(mt: Byte, s: Bytes): (r: Option<(Metric, Bytes)>)
    ensures r.Some? ==> |r.value.1| <= |s|
  {
    match ReadString(s)
    case None => None
    case Some((name, rest)) => if |rest| < 9 then None else ReadAfterName(mt, name, rest)
  }

  function ReadAfterName(mt: Byte, name: Bytes, s: Bytes): (r: Option<(Metric, Bytes)>)
    requires |s| >= 9
    ensures r.Some? ==> |r.value.1| <= |s|
  {
    ReadTagsShrinks(s[9..], s[8]);
    FromLittleEndianBound(s[..8]);
    Pow256Values();
    match ReadTags(s[9..], s[8])
    case None => None
    case Some((tags, rest)) => Some((Metric(mt, name, FromLittleEndian(s[..8]), tags), rest))
  }

  lemma {:induction false} ReadTagsShrinks(s: Bytes, n: nat)
    ensures ReadTags(s, n).Some? ==> |ReadTags(s, n).value.1| <= |s|
    decreases n
  {
    if n > 0 && ReadTag(s).Some? {
      ReadTagsShrinks(ReadTag(s).value.1, n - 1);
    }
  }

  /** A packet read record by record. */
  function ReadRecords(s: Bytes): Option<seq<Metric>>
    decreases |s|
  {
    if s == [] then Some([])
    else
      match ReadRecord(s)
      case None => None
      case Some((item, rest)) =>
        match ReadRecords(rest)
        case None => None
        case Some(items) => Some([item] + items)
  }

  // ----- round trips

  lemma StrReads(s: Bytes, rest: Bytes)
    requires |s| <= MAX_STRING_LEN
    ensures ReadString(Str(s) + rest) == Some((s, rest))
  {
    var t := Str(s) + rest;
    assert t[1..1 + |s|] == s && t[1 + |s|..] == rest;
  }

  lemma TagReads(t: Tag, rest: Bytes)
    requires TagFits(t)
    ensures ReadTag(Str(t.key) + Str(t.value) + rest) == Some((t, rest))
  {
    hide Str, ReadString;
    StrReads(t.key, Str(t.value) + rest);
    assert Str(t.key) + Str(t.value) + rest == Str(t.key) + (Str(t.value) + rest);
    StrReads(t.value, rest);
  }

  lemma {:induction false} TagsRead(tags: seq<Tag>, rest: Bytes)
    requires TagsFit(tags)
    ensures ReadTags(TagBytes(tags) + rest, |tags|) == Some((tags, rest))
    decreases |tags|
  {
    hide Str, ReadTag;
    if tags == [] {
      assert TagBytes(tags) + rest == rest;
    } else {
      var t := tags[0];
      assert t in tags;
      var more := TagBytes(tags[1..]) + rest;
      TagReads(t, more);
      Regroup(Str(t.key) + Str(t.value), TagBytes(tags[1..]), rest);
      TagsRead(tags[1..], rest);
      assert tags == [t] + tags[1..];
    }
  }

  /** What the receiver sees of an item: the item under its joined name. */
  function Received(prefix: Bytes, item: Metric): Metric {
    item.(name := JoinedName(prefix, item.name))
  }

  lemma AfterNameReads(prefix: Bytes, item: Metric, rest: Bytes)
    requires Formats(prefix, item)
    ensures var s := LittleEndian(item.bits, 8) + [|item.tags|] + (TagBytes(item.tags) + rest);
            ReadAfterName(item.mt, JoinedName(prefix, item.name), s) == Some((Received(prefix, item), rest))
  {
    hide LittleEndian, FromLittleEndian, TagBytes, ReadTags;
    Pow256Values();
    LittleEndianRoundTrip(item.bits, 8);
    var s := LittleEndian(item.bits, 8) + [|item.tags|] + (TagBytes(item.tags) + rest);
    assert s[..8] == LittleEndian(item.bits, 8) && s[9..] == TagBytes(item.tags) + rest;
    TagsRead(item.tags, rest);
  }

  /** A record is self-delimiting: whatever follows, the receiver gets type, joined name, value bits and tags back. */
  lemma RecordRoundTrip(prefix: Bytes, item: Metric, rest: Bytes)
    requires Formats(prefix, item)
    ensures ReadRecord(MetricRecord(prefix, item) + rest) == Some((Received(prefix, item), rest))
  {
    hide LittleEndian, TagBytes, Str, ReadAfterName, ReadString, JoinedName;
    var name := JoinedName(prefix, item.name);
    var s := LittleEndian(item.bits, 8) + [|item.tags|] + (TagBytes(item.tags) + rest);
    StrReads(name, s);
    assert (MetricRecord(prefix, item) + rest)[1..] == Str(name) + s;
    AfterNameReads(prefix, item, rest);
  }

  function MetricRecords(prefix: Bytes, items: seq<Metric>): seq<Record>
    requires forall i | i in items :: Formats(prefix, i)
  {
    if items == [] then []
    else
      assert items[0] in items;
      [MetricRecord(prefix, items[0])] + MetricRecords(prefix, items[1..])
  }

  function AllReceived(prefix: Bytes, items: seq<Metric>): seq<Metric> {
    if items == [] then [] else [Received(prefix, items[0])] + AllReceived(prefix, items[1..])
  }

  /** Records laid end to end read back as the items, in order. */
  lemma {:induction false} PacketRoundTrip(prefix: Bytes, items: seq<Metric>)
    requires forall i | i in items :: Formats(prefix, i)
    ensures ReadRecords(Concat(MetricRecords(prefix, items))) == Some(AllReceived(prefix, items))
    decreases |items|
  {
    hide ReadRecord, MetricRecord, Received, Formats;
    if items != [] {
      assert items[0] in items;
      var rs := MetricRecords(prefix, items);
      assert rs[0] == MetricRecord(prefix, items[0]) && rs[1..] == MetricRecords(prefix, items[1..]);
      RecordRoundTrip(prefix, items[0], Concat(rs[1..]));
      PacketRoundTrip(prefix, items[1..]);
    }
  }

  /** A receiver that knows the client's prefix takes it and the dot behind it off a name. */
  function OwnName(prefix: Bytes, name: Bytes): Option<Bytes> {
    if prefix == [] then Some(name)
    else if prefix + [46] <= name then Some(name[|prefix| + 1..])
    else None
  }

  /** So it gets every part of the metric back, name included, whatever the prefix is. */
  lemma MetricRecovered(prefix: Bytes, item: Metric, rest: Bytes)
    requires Formats(prefix, item)
    ensures var r := ReadRecord(MetricRecord(prefix, item) + rest);
            && r.Some? && r.value.1 == rest && OwnName(prefix, r.value.0.name) == Some(item.name)
            && r.value.0.mt == item.mt && r.value.0.bits == item.bits && r.value.0.tags == item.tags
  {
    hide MetricRecord, ReadRecord;
    RecordRoundTrip(prefix, item, rest);
    var name := JoinedName(prefix, item.name);
    if prefix != [] {
      assert name[..|prefix| + 1] == prefix + [DOT] && name[|prefix| + 1..] == item.name;
    }
  }

  /** The limits, part by part: a name with its prefix and dot, the number of tags, every key and value: 255 each. */
  lemma FormatsIff(prefix: Bytes, item: Metric)
    ensures Formats(prefix, item) <==>
            && (if prefix == [] then 0 else |prefix| + 1) + |item.name| <= 255
            && |item.tags| <= 255
            && forall i | 0 <= i < |item.tags| :: |item.tags[i].key| <= 255 && |item.tags[i].value| <= 255
  {
    if TagsFit(item.tags) {
      assert forall i | 0 <= i < |item.tags| :: TagFits(item.tags[i]);
    } else {
      var t :| t in item.tags && !TagFits(t);
    }
  }

  // ----- the writers

  /** `writeString` */
  method WriteString(buf: Buffer, s: Bytes) returns (err: Option<FormatError>)
    modifies buf
    ensures err.None? <==> |s| <= MAX_STRING_LEN
    ensures err.None? ==> buf.data == old(buf.data) + Str(s)
    ensures err.Some? ==> err.value == StringTooLong && buf.data == old(buf.data)
  {
    if |s| > MAX_STRING_LEN {
      return Some(StringTooLong);
    }
    buf.Write([|s|]);
    buf.Write(s);
    return None;
  }

  /** `writeName` */
  method WriteName(buf: Buffer, prefix: Bytes, name: Bytes) returns (err: Option<FormatError>)
    modifies buf
    ensures err.None? <==> |JoinedName(prefix, name)| <= MAX_STRING_LEN
    ensures err.None? ==> buf.data == old(buf.data) + Str(JoinedName(prefix, name))
    ensures err.Some? ==> buf.data == old(buf.data)
    ensures err.Some? ==> err.value == if prefix == [] then StringTooLong else NameTooLong
  {
    if prefix != [] {
      var length := |prefix| + |name| + 1;
      if length > MAX_STRING_LEN {
        return Some(NameTooLong);
      }
      buf.Write([length]);
      buf.Write(prefix);
      buf.Write([DOT]);
      buf.Write(name);
      return None;
    } else {
      err := WriteString(buf, name);
    }
  }

  /** One turn of the loop in `writeTags`: key, then value. */
  method WriteTag(buf: Buffer, tag: Tag) returns (err: Option<FormatError>)
    modifies buf
    ensures err.None? <==> TagFits(tag)
    ensures err.None? ==> buf.data == old(buf.data) + (Str(tag.key) + Str(tag.value))
    ensures err.Some? ==> err.value == StringTooLong && old(buf.data) <= buf.data
  {
    err := WriteString(buf, tag.key);
    if err.Some? {
      return;
    }
    err := WriteString(buf, tag.value);
  }

  lemma NoTags()
    ensures TagBytes([]) == []
  {
  }

  /** `writeTags`: on an error the tags before the offending one are already in the buffer. */
  method WriteTags(buf: Buffer, tags: seq<Tag>) returns (err: Option<FormatError>)
    modifies buf
    ensures err.None? <==> |tags| <= MAX_STRING_LEN && TagsFit(tags)
    ensures err.None? ==> buf.data == old(buf.data) + [|tags|] + TagBytes(tags)
    ensures err.Some? ==> old(buf.data) <= buf.data
    ensures err.Some? ==> err.value == if |tags| > MAX_STRING_LEN then TooManyTags else StringTooLong
  {
    if |tags| > MAX_STRING_LEN {
      return Some(TooManyTags);
    }
    buf.Write([|tags|]);
    err := WriteEachTag(buf, tags);
  }

  /** The loop of `writeTags`. */
  method WriteEachTag(buf: Buffer, tags: seq<Tag>) returns (err: Option<FormatError>)
    modifies buf
    ensures err.None? <==> TagsFit(tags)
    ensures err.None? ==> buf.data == old(buf.data) + TagBytes(tags)
    ensures err.Some? ==> err.value == StringTooLong && old(buf.data) <= buf.data
  {
    hide Str, TagFits, TagBytes;
    assert tags[..0] == [];
    NoTags();
    ghost var before := buf.data;
    var i := 0;
    while i < |tags|
      invariant 0 <= i <= |tags| && TagsFit(tags[..i])
      invariant buf.data == before + TagBytes(tags[..i])
    {
      assert tags[i] in tags;
      TagBytesSnoc(tags, i);
      err := WriteTag(buf, tags[i]);
      if err.Some? {
        return;
      }
      i := i + 1;
    }
    assert tags[..i] == tags;
    return None;
  }

  lemma {:induction false} TagBytesSnoc(tags: seq<Tag>, i: nat)
    requires i < |tags| && TagsFit(tags[..i])
    ensures TagsFit(tags[..i + 1]) <==> TagFits(tags[i])
    ensures TagFits(tags[i])
        ==> TagBytes(tags[..i + 1]) == TagBytes(tags[..i]) + (Str(tags[i].key) + Str(tags[i].value))
    decreases i
  {
    hide Str, TagFits;
    var xs, ys := tags[..i + 1], tags[..i];
    assert xs == ys + [tags[i]];
    if TagFits(tags[i]) {
      if i == 0 {
        assert xs[1..] == [] && TagBytes([]) == [];
      } else {
        assert tags[1..][..i - 1] == ys[1..] && tags[1..][..i] == xs[1..];
        TagBytesSnoc(tags[1..], i - 1);
      }
    } else {
      assert tags[i] in xs;
    }
  }

  /** `formatCommon`: it succeeds exactly within the limits, and then appends exactly the record. */
  method FormatCommon(buf: Buffer, prefix: Bytes, item: Metric) returns (err: Option<FormatError>)
    modifies buf
    ensures err.None? <==> Formats(prefix, item)
    ensures err.None? ==> buf.data == old(buf.data) + MetricRecord(prefix, item)
    ensures err.Some? ==> old(buf.data) <= buf.data
    ensures err.Some? ==> err.value == if |JoinedName(prefix, item.name)| > MAX_STRING_LEN
                                       then (if prefix == [] then StringTooLong else NameTooLong)
                                       else (if |item.tags| > MAX_STRING_LEN then TooManyTags else StringTooLong)
  {
    hide TagBytes, TagsFit, LittleEndian, Str;
    buf.Write([item.mt]);
    err := WriteName(buf, prefix, item.name);
    if err.Some? {
      return;
    }
    buf.Write(LittleEndian(item.bits, 8));
    ghost var before := buf.data;
    err := WriteTags(buf, item.tags);
    if err.None? {
      assert before == old(buf.data) + [item.mt] + Str(JoinedName(prefix, item.name)) + LittleEndian(item.bits, 8);
    }
  }
}
