/**
 * The send loop of the trace sender and of each log worker: one reused batch buffer with a reserved prefix, and a
 * worker that frames it in place (stream) or sends it as it is (datagram).
 */
module Sender {
  import opened ByteStrings
  import opened Messages
  import opened Printer
  import opened MessageItems
  import opened CodecRoundTrip
  import Marshal
  import MessageSize
  import Parser
  import Varint
  import opened Framing
  import opened Batching

  /** 4 bytes of length, then the marshalled message. */
  function SizePrefixed(body: Bytes): (s: Record)
    ensures |s| == 4 + |body|
  {
    LittleEndian(|body|, 4) + body
  }

  /** A record whose first 4 bytes tell how long the rest is. */
  predicate SelfDelimiting(record: Record) {
    |record| >= 4 && FromLittleEndian(record[..4]) == |record| - 4
  }

  /** A receiver that splits a body by the 4-byte lengths. */
  function ParseRecords(s: Bytes): Option<seq<Record>>
    decreases |s|
  {
    if s == [] then Some([])
    else if |s| < 4 || 4 + FromLittleEndian(s[..4]) > |s| then None
    else
      var n := 4 + FromLittleEndian(s[..4]);
      match ParseRecords(s[n..])
      case None => None
      case Some(rest) => Some([s[..n]] + rest)
  }

  lemma {:induction false} RecordsRoundTrip(records: seq<Record>)
    requires forall r | r in records :: SelfDelimiting(r)
    ensures ParseRecords(Concat(records)) == Some(records)
    decreases |records|
  {
    hide FromLittleEndian;
    if records != [] {
      var r := records[0];
      assert r in records;
      var s := Concat(records);
      assert s[..4] == r[..4];
      assert s[..|r|] == r && s[|r|..] == Concat(records[1..]);
      RecordsRoundTrip(records[1..]);
      assert records == [r] + records[1..];
    }
  }

  /** A record delimits itself exactly when its message is under 4 GiB. */
  lemma SizePrefixedDelimits(body: Bytes)
    ensures SelfDelimiting(SizePrefixed(body)) <==> |body| < TWO_32
    ensures SizePrefixed(body)[4..] == body
  {
    hide LittleEndian, FromLittleEndian;
    Pow256Values();
    assert SizePrefixed(body)[..4] == LittleEndian(|body|, 4);
    if |body| < TWO_32 {
      LittleEndianRoundTrip(|body|, 4);
    } else {
      FromLittleEndianBound(LittleEndian(|body|, 4));
    }
  }

  /** What one `BatchSend` of a batch body hands to the connection. */
  function Payload(stream: bool, tags: Bytes, body: Bytes): Bytes {
    if stream then Frame(tags, body) else body
  }

  function Payloads(stream: bool, tags: Bytes, batches: seq<seq<Record>>): seq<Bytes> {
    if batches == [] then []
    else Payloads(stream, tags, batches[..|batches| - 1]) + [Payload(stream, tags, Concat(batches[|batches| - 1]))]
  }

  lemma PayloadsSnoc(stream: bool, tags: Bytes, batches: seq<seq<Record>>, batch: seq<Record>)
    ensures Payloads(stream, tags, batches + [batch])
         == Payloads(stream, tags, batches) + [Payload(stream, tags, Concat(batch))]
  {
    assert (batches + [batch])[..|batches|] == batches;
  }

  class Loop {
    const bufferMaxSize: nat
    const offset: nat
    const tags: Bytes
    const stream: bool

    var batch: array<Byte>
    var length: nat           // len(batch); batch.Length is its capacity
    var wire: seq<Bytes>      // what has been handed to the connection
    ghost var st: State

    ghost function Configuration(): Config {
      Config(bufferMaxSize, offset)
    }

    ghost predicate Valid()
      reads this, batch
    {
      && offset == (if stream then 19 + |tags| else 0)
      && offset <= length <= batch.Length
      && batch[offset..length] == Concat(st.pending)
      && wire == Payloads(stream, tags, st.sent)
    }

    constructor (stream: bool, tags: Bytes, bufferMaxSize: nat)
      ensures Valid() && fresh(batch) && st == START && wire == []
      ensures this.stream == stream && this.tags == tags && this.bufferMaxSize == bufferMaxSize
    {
      this.stream, this.tags, this.bufferMaxSize := stream, tags, bufferMaxSize;
      var prefix := if stream then 19 + |tags| else 0;
      offset := prefix;
      batch := new Byte[bufferMaxSize + prefix];
      length := prefix;
      wire := [];
      st := START;
    }

    /** `BatchSend(data[..n], tags)`: the stream worker frames the data in place, in the room before the body. */
    method BatchSend(data: array<Byte>, n: nat)
      requires offset == (if stream then 19 + |tags| else 0)
      requires offset <= n <= data.Length
      modifies this`wire, data
      ensures wire == old(wire) + [Payload(stream, tags, old(data[offset..n]))]
      ensures forall k | offset <= k < data.Length :: data[k] == old(data[k])
    {
      if stream {
        EncodePreAllocated(data, n, tags);
      }
      wire := wire + [data[..n]];
    }

    /** The larger array `append` moves to when the capacity is used up. */
    method Grow(capacity: nat)
      requires Valid() && capacity >= length
      modifies this`batch
      ensures Valid() && fresh(batch) && batch.Length == capacity
      ensures batch[offset..length] == old(batch[offset..length])
    {
      hide Concat, Payloads;
      var larger := new Byte[capacity];
      forall k | 0 <= k < length {
        larger[k] := batch[k];
      }
      assert larger[offset..length] == batch[offset..length];
      batch := larger;
    }

    method AppendInPlace(record: Record)
      requires Valid() && length + |record| <= batch.Length
      modifies this`length, this`st, batch
      ensures Valid()
      ensures st == old(st).(pending := old(st).pending + [record])
    {
      hide Concat, Payloads;
      ConcatSnoc(st.pending, record);
      ghost var before := batch[offset..length];
      forall k | 0 <= k < |record| {
        batch[length + k] := record[k];
      }
      assert batch[offset..length] == before;
      assert batch[length..length + |record|] == record;
      assert batch[offset..length + |record|] == before + record;
      length := length + |record|;
      st := st.(pending := st.pending + [record]);
    }

    /** `batch = append(batch, record...)`: in place while the capacity lasts, else into a larger array. */
    method Append(record: Record)
      requires Valid()
      modifies this, batch
      ensures Valid() && (batch == old(batch) || fresh(batch))
      ensures st == old(st).(pending := old(st).pending + [record])
      ensures old(length) + |record| <= old(batch.Length) ==> batch == old(batch)
    {
      hide Concat, Payloads;
      if length + |record| > batch.Length {
        Grow(length + |record|);
      }
      AppendInPlace(record);
    }

    /** Sends the batch and truncates it to the reserved prefix; `empty` batches go out too. */
    method SendBatch()
      requires Valid()
      modifies this, batch
      ensures Valid() && batch == old(batch)
      ensures st == State([], old(st).sent + [old(st).pending])
    {
      hide Concat, Payload;
      PayloadsSnoc(stream, tags, st.sent, st.pending);
      BatchSend(batch, length);
      length := offset;
      st := State([], st.sent + [st.pending]);
      PackedEmpty([]);
      assert batch[offset..offset] == [];
    }

    /** A record longer than the buffer goes out at once, in a buffer of its own behind the same prefix. */
    method SendAlone(record: Record)
      requires Valid()
      modifies this`wire, this`st
      ensures Valid() && st == old(st).(sent := old(st).sent + [[record]])
    {
      hide Concat, Payload, Payloads;
      var alone := new Byte[offset + |record|];
      forall k | 0 <= k < |record| {
        alone[offset + k] := record[k];
      }
      assert alone[offset..offset + |record|] == record;
      OneRecord(record);
      PayloadsSnoc(stream, tags, st.sent, [record]);
      BatchSend(alone, offset + |record|);
      st := st.(sent := st.sent + [[record]]);
    }

    /** One event of the loop. */
    method Handle(e: Event)
      requires Valid()
      modifies this, batch
      ensures Valid() && (batch == old(batch) || fresh(batch))
      ensures st == Step(Configuration(), old(st), e)
    {
      hide Concat, Payload;
      PackedEmpty(st.pending);
      match e
      case Tick =>
        if length > offset {
          SendBatch();
        }
      case NilItem =>
      case Failed =>
      case Item(record) =>
        if length + |record| <= bufferMaxSize + offset {
          Append(record);
        } else if |record| > bufferMaxSize + offset {
          SendAlone(record);
        } else {
          SendBatch();
          Append(record);
          assert [] + [record] == [record];
        }
    }

    /** The whole loop, up to and including the flush when the channel is closed. */
    method SendLoop(events: seq<Event>)
      requires Valid() && st == START
      modifies this, batch
      ensures wire == Payloads(stream, tags, Flush(Run(Configuration(), events)).sent)
    {
      ghost var first := batch;
      var i := 0;
      while i < |events|
        invariant 0 <= i <= |events| && Valid() && (batch == first || fresh(batch))
        invariant st == Run(Configuration(), events[..i])
      {
        assert events[..i + 1][..i] == events[..i];
        Handle(events[i]);
        i := i + 1;
      }
      assert events[..i] == events;
      PackedEmpty(st.pending);
      if length > offset {
        SendBatch();
      }
    }
  }

  /** `sizePrefixData`: the record the loop builds from a trace; its 4-byte length is the size of what follows. */
  method TraceRecord(t: Trace, o: seq<SpanOrder>, sizing: seq<SpanOrder>) returns (data: array<Byte>)
    requires OrdersTrace(o, t) && OrdersTrace(sizing, t) && Short(TraceItems(t, o))
    ensures fresh(data) && data[..] == SizePrefixed(TraceBytes(t, o))
  {
    hide ItemsBytes, TraceItems, OrdersTrace, LittleEndian;
    MessageSize.TraceOrderSize(t, o, sizing);
    var size := MessageSize.TraceSize(t, sizing);
    data := new Byte[4 + size];
    PutLittleEndian(data, 0, size, 4);
    ghost var prefix := data[..4];
    var end := Marshal.PutTrace(data, 4, t, o, sizing);
    assert data[..] == data[..end];
  }

  /** The record of a trace under 4 GiB delimits itself, and what follows its length decodes to that trace. */
  lemma TraceRecordReads(t: Trace, o: seq<SpanOrder>)
    requires OrdersTrace(o, t) && Short(TraceItems(t, o)) && |TraceBytes(t, o)| < TWO_32
    ensures var record := SizePrefixed(TraceBytes(t, o));
            && SelfDelimiting(record)
            && Parser.Unmarshal(record[4..], TraceMessage(EMPTY_TRACE)) == Varint.Ok(TraceMessage(t))
  {
    hide TraceBytes, TraceItems, Parser.Unmarshal, SizePrefixed, SelfDelimiting, OrdersTrace, Short;
    SizePrefixedDelimits(TraceBytes(t, o));
    TraceRoundTrip(t, o);
  }

  lemma {:induction false} WireIsFrames(tags: Bytes, batches: seq<seq<Record>>)
    ensures Concat(Payloads(true, tags, batches)) == Frames(tags, Bodies(batches))
    decreases |batches|
  {
    hide Frame;
    if batches != [] {
      hide Concat;
      var n := |batches| - 1;
      WireIsFrames(tags, batches[..n]);
      ConcatSnoc(Payloads(true, tags, batches[..n]), Payload(true, tags, Concat(batches[n])));
      FramesSnoc(tags, batches[..n], batches[n]);
      assert batches == batches[..n] + [batches[n]];
    }
  }

  lemma {:induction false} FramesSnoc(tags: Bytes, batches: seq<seq<Record>>, last: seq<Record>)
    ensures Frames(tags, Bodies(batches + [last])) == Frames(tags, Bodies(batches)) + Frame(tags, Concat(last))
    decreases |batches|
  {
    hide Frame, Concat;
    if batches == [] {
      assert batches + [last] == [last] && [last][1..] == [];
      assert Bodies([last]) == [Concat(last)];
      assert [Concat(last)][1..] == [];
      assert Frames(tags, []) == [];
    } else {
      assert (batches + [last])[0] == batches[0] && (batches + [last])[1..] == batches[1..] + [last];
      FramesSnoc(tags, batches[1..], last);
      assert Bodies(batches)[1..] == Bodies(batches[1..]);
      assert Bodies(batches + [last])[1..] == Bodies(batches[1..] + [last]);
    }
  }

  lemma {:induction false} BodiesMembers(batches: seq<seq<Record>>, b: Bytes)
    requires b in Bodies(batches)
    ensures exists batch :: batch in batches && b == Concat(batch)
    decreases |batches|
  {
    if b == Concat(batches[0]) {
      assert batches[0] in batches;
    } else {
      BodiesMembers(batches[1..], b);
      var batch :| batch in batches[1..] && b == Concat(batch);
      assert batch in batches;
    }
  }

  /** No batch of a run is too long for the frame's 32-bit lengths. */
  lemma BatchFitsFrame(c: Config, tags: Bytes, events: seq<Event>, batch: seq<Record>)
    requires 13 + |tags| + c.limit + c.offset < TWO_32
    requires forall r | r in Accepted(events) :: 13 + |tags| + |r| < TWO_32
    requires batch in Flush(Run(c, events)).sent
    ensures Fits(tags, Concat(batch))
  {
    RunInvariant(c, events);
    assert BatchFits(c, batch);
    if |batch| == 1 && Oversize(c, batch[0]) {
      SentIsAccepted(c, events, batch, batch[0]);
      OneRecord(batch[0]);
      assert batch == [batch[0]];
    }
  }

  /**
   * End to end: a receiver that knows only the layouts splits the bytes a stream loop wrote into frames, and each
   * frame's body into records; together they are all the records the loop accepted, the ones that fit in order.
   */
  lemma StreamEndToEnd(c: Config, tags: Bytes, events: seq<Event>, big: bool)
    requires 13 + |tags| + c.limit + c.offset < TWO_32
    requires forall r | r in Accepted(events) :: SelfDelimiting(r) && 13 + |tags| + |r| < TWO_32
    ensures var sent := Flush(Run(c, events)).sent;
            && ParseFrames(Concat(Payloads(true, tags, sent))) == Some(Pairs(tags, Bodies(sent)))
            && (forall batch | batch in sent :: ParseRecords(Concat(batch)) == Some(batch))
            && Select(c, Flatten(sent), big) == Select(c, Accepted(events), big)
  {
    hide SelfDelimiting, ParseRecords, Run, Frame, ParseFrames, Frames, Pairs;
    var sent := Flush(Run(c, events)).sent;
    WireIsFrames(tags, sent);
    forall b | b in Bodies(sent) ensures Fits(tags, b) {
      BodiesMembers(sent, b);
      var batch :| batch in sent && b == Concat(batch);
      BatchFitsFrame(c, tags, events, batch);
    }
    StreamRoundTrip(tags, Bodies(sent));
    forall batch | batch in sent ensures ParseRecords(Concat(batch)) == Some(batch) {
      forall r | r in batch ensures SelfDelimiting(r) {
        SentIsAccepted(c, events, batch, r);
      }
      RecordsRoundTrip(batch);
    }
    ClosedSendsAll(c, events, big);
  }

  // ----- from traces to traces

  /** Traces with the map orders they were printed in; each fits its record. */
  ghost predicate Printable(ts: seq<Trace>, os: seq<seq<SpanOrder>>) {
    |os| == |ts| && forall i | 0 <= i < |ts| ::
      OrdersTrace(os[i], ts[i]) && Short(TraceItems(ts[i], os[i])) && |TraceBytes(ts[i], os[i])| < TWO_32
  }

  /** The records of a list of traces. */
  ghost function TraceRecords(ts: seq<Trace>, os: seq<seq<SpanOrder>>): seq<Record>
    requires Printable(ts, os)
    decreases |ts|
  {
    if ts == [] then []
    else
      var n := |ts| - 1;
      TraceRecords(ts[..n], os[..n]) + [SizePrefixed(TraceBytes(ts[n], os[n]))]
  }

  /** The traces whose records are (`big`) or are not oversize, in order. */
  ghost function SelectTraces(c: Config, ts: seq<Trace>, os: seq<seq<SpanOrder>>, big: bool): seq<Trace>
    requires Printable(ts, os)
    decreases |ts|
  {
    if ts == [] then []
    else
      var n := |ts| - 1;
      var before := SelectTraces(c, ts[..n], os[..n], big);
      if Oversize(c, SizePrefixed(TraceBytes(ts[n], os[n]))) == big then before + [ts[n]] else before
  }

  /** A receiver that decodes what follows the length of each record; one that does not decode gives nothing. */
  function DecodeRecords(records: seq<Record>): Option<seq<Trace>> {
    if records == [] then Some([])
    else
      var n := |records| - 1;
      var before, record := DecodeRecords(records[..n]), records[n];
      if before.None? || |record| < 4 then None
      else
        var m := Parser.Unmarshal(record[4..], TraceMessage(EMPTY_TRACE));
        if m.Ok? && m.value.TraceMessage? then Some(before.value + [m.value.trace]) else None
  }

  lemma DecodeSnoc(records: seq<Record>, t: Trace, o: seq<SpanOrder>)
    requires OrdersTrace(o, t) && Short(TraceItems(t, o)) && |TraceBytes(t, o)| < TWO_32
    requires DecodeRecords(records).Some?
    ensures DecodeRecords(records + [SizePrefixed(TraceBytes(t, o))]) == Some(DecodeRecords(records).value + [t])
  {
    hide TraceBytes, TraceItems, Parser.Unmarshal, OrdersTrace, Short;
    var more := records + [SizePrefixed(TraceBytes(t, o))];
    assert more[..|records|] == records;
    TraceRecordReads(t, o);
  }

  lemma {:induction false} RecordsDecode(c: Config, ts: seq<Trace>, os: seq<seq<SpanOrder>>, big: bool)
    requires Printable(ts, os)
    ensures DecodeRecords(Select(c, TraceRecords(ts, os), big)) == Some(SelectTraces(c, ts, os, big))
    ensures forall r | r in TraceRecords(ts, os) :: SelfDelimiting(r)
    decreases |ts|
  {
    hide TraceBytes, TraceItems, DecodeRecords, OrdersTrace, Short, SizePrefixed, SelfDelimiting;
    if ts == [] {
      NothingDecodes();
    } else {
      var n := |ts| - 1;
      var record := SizePrefixed(TraceBytes(ts[n], os[n]));
      var before := TraceRecords(ts[..n], os[..n]);
      RecordsDecode(c, ts[..n], os[..n], big);
      SizePrefixedDelimits(TraceBytes(ts[n], os[n]));
      assert (before + [record])[..|before|] == before;
      if Oversize(c, record) == big {
        DecodeSnoc(Select(c, before, big), ts[n], os[n]);
      }
    }
  }

  lemma NothingDecodes()
    ensures DecodeRecords([]) == Some([])
  {
  }

  /** A receiver of a stream: frames by the documented layout, records by their lengths. */
  function ReceiveBodies(frames: seq<(Bytes, Bytes)>): Option<seq<seq<Record>>> {
    if frames == [] then Some([])
    else
      match ParseRecords(frames[0].1)
      case None => None
      case Some(records) =>
        match ReceiveBodies(frames[1..])
        case None => None
        case Some(rest) => Some([records] + rest)
  }

  function Receive(wire: Bytes): Option<seq<seq<Record>>> {
    match ParseFrames(wire)
    case None => None
    case Some(frames) => ReceiveBodies(frames)
  }

  lemma {:induction false} BodiesReceived(tags: Bytes, batches: seq<seq<Record>>)
    requires forall batch | batch in batches :: ParseRecords(Concat(batch)) == Some(batch)
    ensures ReceiveBodies(Pairs(tags, Bodies(batches))) == Some(batches)
    decreases |batches|
  {
    hide ParseRecords, Concat;
    if batches != [] {
      assert batches[0] in batches;
      BodiesReceived(tags, batches[1..]);
      var bodies := Bodies(batches);
      assert bodies[0] == Concat(batches[0]) && bodies[1..] == Bodies(batches[1..]);
      assert Pairs(tags, bodies)[1..] == Pairs(tags, bodies[1..]);
      assert batches == [batches[0]] + batches[1..];
    }
  }

  /**
   * From traces to traces: when a stream loop accepted the records of these traces, a receiver of the bytes on the wire
   * gets batches of records, and decodes them to exactly these traces, the ones that fit in order and the oversize
   * ones in order.
   */
  lemma TracesEndToEnd(c: Config, tags: Bytes, events: seq<Event>, ts: seq<Trace>, os: seq<seq<SpanOrder>>, big: bool)
    requires 13 + |tags| + c.limit + c.offset < TWO_32
    requires Printable(ts, os) && Accepted(events) == TraceRecords(ts, os)
    requires forall r | r in Accepted(events) :: 13 + |tags| + |r| < TWO_32
    ensures var received := Receive(Concat(Payloads(true, tags, Flush(Run(c, events)).sent)));
            && received == Some(Flush(Run(c, events)).sent)
            && DecodeRecords(Select(c, Flatten(received.value), big)) == Some(SelectTraces(c, ts, os, big))
  {
    hide Run, Accepted, Select, ParseRecords, SelfDelimiting, Payloads, Bodies, Pairs, ParseFrames, DecodeRecords;
    hide TraceRecords, SelectTraces, Printable, ReceiveBodies, Concat, Flush;
    RecordsDecode(c, ts, os, big);
    StreamEndToEnd(c, tags, events, big);
    BodiesReceived(tags, Flush(Run(c, events)).sent);
  }

  // ----- datagrams

  /** A receiver of datagrams: each is the records of one batch. */
  function ReceiveDatagrams(datagrams: seq<Bytes>): Option<seq<seq<Record>>> {
    if datagrams == [] then Some([])
    else
      var n := |datagrams| - 1;
      match ReceiveDatagrams(datagrams[..n])
      case None => None
      case Some(before) =>
        match ParseRecords(datagrams[n])
        case None => None
        case Some(records) => Some(before + [records])
  }

  lemma {:induction false} DatagramsReceived(tags: Bytes, batches: seq<seq<Record>>)
    requires forall batch | batch in batches :: ParseRecords(Concat(batch)) == Some(batch)
    ensures ReceiveDatagrams(Payloads(false, tags, batches)) == Some(batches)
    decreases |batches|
  {
    hide ParseRecords, Concat;
    if batches != [] {
      var n := |batches| - 1;
      assert batches[n] in batches && batches == batches[..n] + [batches[n]];
      DatagramsReceived(tags, batches[..n]);
      var before := Payloads(false, tags, batches[..n]);
      assert Payloads(false, tags, batches)[..|before|] == before;
    }
  }

  /** From traces to traces over datagrams: whatever the sizes, a receiver of all of them decodes the same traces. */
  lemma TracesOverDatagrams(c: Config, tags: Bytes, events: seq<Event>, ts: seq<Trace>, os: seq<seq<SpanOrder>>,
                            big: bool)
    requires Printable(ts, os) && Accepted(events) == TraceRecords(ts, os)
    ensures var received := ReceiveDatagrams(Payloads(false, tags, Flush(Run(c, events)).sent));
            && received == Some(Flush(Run(c, events)).sent)
            && DecodeRecords(Select(c, Flatten(received.value), big)) == Some(SelectTraces(c, ts, os, big))
  {
    hide Run, Accepted, Select, ParseRecords, SelfDelimiting, Payloads, DecodeRecords, TraceRecords, SelectTraces;
    hide Printable, ReceiveDatagrams, Concat, Flush;
    var sent := Flush(Run(c, events)).sent;
    RecordsDecode(c, ts, os, big);
    forall batch | batch in sent ensures ParseRecords(Concat(batch)) == Some(batch) {
      forall r | r in batch ensures SelfDelimiting(r) {
        SentIsAccepted(c, events, batch, r);
      }
      RecordsRoundTrip(batch);
    }
    DatagramsReceived(tags, sent);
    ClosedSendsAll(c, events, big);
  }
}
