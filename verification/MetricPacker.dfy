/** The metrics workers: every item they receive is formatted and packed into packets of at most 8192 bytes. */
module MetricPacker {
  import opened Buffers
  import opened ByteStrings
  import opened MetricFormat
  import opened Batching

  /** maxPacketSize, and no reserved prefix. */
  const PACKETS := Config(8192, 0)

  /** What a worker takes from its channel: a batch, or nil, which asks for a flush. */
  type Message = Option<seq<Metric>>

  function EventOf(prefix: Bytes, metric: Metric): Event {
    if Formats(prefix, metric) then Item(MetricRecord(prefix, metric)) else Failed
  }

  function MetricEvents(prefix: Bytes, metrics: seq<Metric>): seq<Event> {
    if metrics == [] then []
    else MetricEvents(prefix, metrics[..|metrics| - 1]) + [EventOf(prefix, metrics[|metrics| - 1])]
  }

  function MessageEvents(prefix: Bytes, message: Message): seq<Event> {
    match message
    case None => [Tick]
    case Some(metrics) => MetricEvents(prefix, metrics)
  }

  /** The batching events a list of messages amounts to. */
  function Events(prefix: Bytes, messages: seq<Message>): seq<Event> {
    if messages == [] then []
    else Events(prefix, messages[..|messages| - 1]) + MessageEvents(prefix, messages[|messages| - 1])
  }

  /** The metrics in a list of messages that satisfy the limits of the format. */
  function Fitting(prefix: Bytes, metrics: seq<Metric>): seq<Metric> {
    if metrics == [] then []
    else
      var before, last := Fitting(prefix, metrics[..|metrics| - 1]), metrics[|metrics| - 1];
      if Formats(prefix, last) then before + [last] else before
  }

  function Contents(messages: seq<Message>): seq<Metric> {
    if messages == [] then []
    else
      Contents(messages[..|messages| - 1])
      + match messages[|messages| - 1] { case None => [] case Some(metrics) => metrics }
  }

  // ----- a worker

  class Worker {
    const prefix: Bytes
    const itemBuf: Buffer
    var packetBuf: Bytes
    var packets: seq<Bytes>      // what `SendPacket` was called with
    var formatError: nat
    ghost var st: State

    ghost predicate Valid()
      reads this
    {
      packetBuf == Concat(st.pending) && packets == Bodies(st.sent)
    }

    constructor (prefix: Bytes)
      ensures Valid() && fresh(itemBuf) && st == START && this.prefix == prefix && formatError == 0
    {
      this.prefix := prefix;
      itemBuf := new Buffer();
      packetBuf, packets, formatError, st := [], [], 0, START;
    }

    /** `sender.SendPacket(packetBuf)` and the truncation after it. */
    method SendPacketBuf()
      requires Valid()
      modifies this
      ensures Valid() && formatError == old(formatError)
      ensures st == State([], old(st).sent + [old(st).pending])
    {
      hide Concat, Bodies;
      BodiesSnoc(st.sent, st.pending);
      PackedEmpty([]);
      packets := packets + [packetBuf];
      packetBuf := [];
      st := State([], st.sent + [st.pending]);
    }

    method AppendRecord(data: Record)
      requires Valid()
      modifies this
      ensures Valid() && formatError == old(formatError)
      ensures st == old(st).(pending := old(st).pending + [data])
    {
      hide Concat, Bodies;
      ConcatSnoc(st.pending, data);
      packetBuf := packetBuf + data;
      st := st.(pending := st.pending + [data]);
    }

    /** One metric of a batch. The item buffer is reset first, so a failed format leaves nothing behind. */
    method PackMetric(metric: Metric)
      requires Valid()
      modifies this, itemBuf
      ensures Valid() && st == Step(PACKETS, old(st), EventOf(prefix, metric))
      ensures formatError == old(formatError) + (if Formats(prefix, metric) then 0 else 1)
    {
      hide Concat, Bodies, Formats, MetricRecord;
      itemBuf.Reset();
      var err := FormatCommon(itemBuf, prefix, metric);
      if err.Some? {
        formatError := formatError + 1;
        return;
      }
      var data: Record := itemBuf.data;
      assert data == MetricRecord(prefix, metric);
      if |packetBuf| + |data| <= PACKETS.limit {
        AppendRecord(data);
      } else if |data| > PACKETS.limit {
        BodiesSnoc(st.sent, [data]);
        OneRecord(data);
        packets := packets + [data];
        st := st.(sent := st.sent + [[data]]);
      } else {
        SendPacketBuf();
        AppendRecord(data);
        assert [] + [data] == [data];
      }
    }

    /** One message: a batch is packed metric by metric, nil sends what is in the packet buffer. */
    method Handle(message: Message, ghost before: seq<Event>)
      requires Valid() && st == Run(PACKETS, before)
      modifies this, itemBuf
      ensures Valid() && st == Run(PACKETS, before + MessageEvents(prefix, message))
      ensures formatError == old(formatError)
                           + match message { case None => 0 case Some(ms) => |ms| - |Fitting(prefix, ms)| }
    {
      hide Concat, Bodies, Formats;
      if message.Some? {
        var metrics := message.value;
        var i := 0;
        assert metrics[..0] == [] && before + [] == before;
        while i < |metrics|
          invariant 0 <= i <= |metrics| && Valid()
          invariant st == Run(PACKETS, before + MetricEvents(prefix, metrics[..i]))
          invariant formatError == old(formatError) + i - |Fitting(prefix, metrics[..i])|
        {
          PackMetric(metrics[i]);
          RunMetric(before, prefix, metrics, i);
          i := i + 1;
        }
        assert metrics[..i] == metrics;
      } else {
        FlushMessage(before, prefix, st);
        PackedEmpty(st.pending);
        if |packetBuf| != 0 {
          SendPacketBuf();
        }
      }
    }

    /** The whole loop over a closed channel, up to and including the last packet. */
    method SendLoop(messages: seq<Message>)
      requires Valid() && st == START
      modifies this, itemBuf
      ensures packets == Bodies(Flush(Run(PACKETS, Events(prefix, messages))).sent)
      ensures formatError == old(formatError) + |Contents(messages)| - |Fitting(prefix, Contents(messages))|
    {
      hide Concat, Bodies, Formats;
      var i := 0;
      assert messages[..0] == [];
      while i < |messages|
        invariant 0 <= i <= |messages| && Valid()
        invariant st == Run(PACKETS, Events(prefix, messages[..i]))
        invariant formatError == old(formatError) + |Contents(messages[..i])|
                               - |Fitting(prefix, Contents(messages[..i]))|
      {
        ghost var before := messages[..i];
        assert messages[..i + 1][..i] == before;
        Handle(messages[i], Events(prefix, before));
        FittingAppend(prefix, Contents(before), match messages[i] { case None => [] case Some(ms) => ms });
        i := i + 1;
      }
      assert messages[..i] == messages;
      PackedEmpty(st.pending);
      if |packetBuf| != 0 {
        SendPacketBuf();
      }
    }
  }

  lemma RunMetric(before: seq<Event>, prefix: Bytes, metrics: seq<Metric>, i: nat)
    requires i < |metrics|
    ensures Run(PACKETS, before + MetricEvents(prefix, metrics[..i + 1]))
         == Step(PACKETS, Run(PACKETS, before + MetricEvents(prefix, metrics[..i])), EventOf(prefix, metrics[i]))
    ensures |Fitting(prefix, metrics[..i + 1])|
         == |Fitting(prefix, metrics[..i])| + (if Formats(prefix, metrics[i]) then 1 else 0)
  {
    hide Formats, Step, EventOf;
    assert metrics[..i + 1][..i] == metrics[..i];
    var es := before + MetricEvents(prefix, metrics[..i]);
    assert before + MetricEvents(prefix, metrics[..i + 1]) == es + [EventOf(prefix, metrics[i])];
    assert (es + [EventOf(prefix, metrics[i])])[..|es|] == es;
  }

  lemma FlushMessage(before: seq<Event>, prefix: Bytes, st: State)
    requires st == Run(PACKETS, before)
    ensures Run(PACKETS, before + MessageEvents(prefix, None)) == Flush(st)
  {
    assert (before + [Tick])[..|before|] == before;
  }

  /** A nil message makes the worker send all it has packed: then nothing is pending. */
  lemma NilSendsAll(prefix: Bytes, messages: seq<Message>)
    ensures Run(PACKETS, Events(prefix, messages + [None])).pending == []
    ensures Flatten(Run(PACKETS, Events(prefix, messages + [None])).sent) == All(Run(PACKETS, Events(prefix, messages)))
  {
    assert (messages + [None])[..|messages|] == messages;
    TickFlushes(PACKETS, Events(prefix, messages));
  }

  lemma {:induction false} FittingAppend(prefix: Bytes, xs: seq<Metric>, ys: seq<Metric>)
    ensures Fitting(prefix, xs + ys) == Fitting(prefix, xs) + Fitting(prefix, ys)
    decreases |ys|
  {
    hide Formats;
    if ys == [] {
      assert xs + ys == xs;
    } else {
      var n := |ys| - 1;
      assert (xs + ys)[..|xs + ys| - 1] == xs + ys[..n] && (xs + ys)[|xs + ys| - 1] == ys[n];
      FittingAppend(prefix, xs, ys[..n]);
    }
  }

  // ----- what is accepted

  lemma {:induction false} FittingFormats(prefix: Bytes, metrics: seq<Metric>)
    ensures forall m | m in Fitting(prefix, metrics) :: Formats(prefix, m) && m in metrics
    decreases |metrics|
  {
    hide Formats;
    if metrics != [] {
      FittingFormats(prefix, metrics[..|metrics| - 1]);
    }
  }

  lemma {:induction false} RecordsAppend(prefix: Bytes, xs: seq<Metric>, ys: seq<Metric>)
    requires forall m | m in xs + ys :: Formats(prefix, m)
    ensures forall m | m in xs :: Formats(prefix, m)
    ensures forall m | m in ys :: Formats(prefix, m)
    ensures MetricRecords(prefix, xs + ys) == MetricRecords(prefix, xs) + MetricRecords(prefix, ys)
    decreases |xs|
  {
    hide Formats, MetricRecord;
    forall m | m in xs ensures Formats(prefix, m) {
      assert m in xs + ys;
    }
    forall m | m in ys ensures Formats(prefix, m) {
      assert m in xs + ys;
    }
    if xs == [] {
      assert xs + ys == ys;
    } else {
      assert (xs + ys)[0] == xs[0] && (xs + ys)[1..] == xs[1..] + ys;
      assert xs[0] in xs;
      RecordsAppend(prefix, xs[1..], ys);
    }
  }

  lemma {:induction false} AcceptedMetrics(prefix: Bytes, metrics: seq<Metric>)
    ensures forall m | m in Fitting(prefix, metrics) :: Formats(prefix, m)
    ensures Accepted(MetricEvents(prefix, metrics)) == MetricRecords(prefix, Fitting(prefix, metrics))
    decreases |metrics|
  {
    hide Formats, MetricRecord;
    FittingFormats(prefix, metrics);
    if metrics != [] {
      var before, last := metrics[..|metrics| - 1], metrics[|metrics| - 1];
      AcceptedMetrics(prefix, before);
      AcceptedSnoc(MetricEvents(prefix, before), EventOf(prefix, last));
      if Formats(prefix, last) {
        RecordsAppend(prefix, Fitting(prefix, before), [last]);
        OneMetric(prefix, last);
      }
    }
  }

  lemma OneMetric(prefix: Bytes, m: Metric)
    requires Formats(prefix, m)
    ensures MetricRecords(prefix, [m]) == [MetricRecord(prefix, m)]
  {
    assert [m][1..] == [];
  }

  /** What the workers accept is the records of exactly the metrics within the limits, in the order received. */
  lemma {:induction false} AcceptedAreFitting(prefix: Bytes, messages: seq<Message>)
    ensures forall m | m in Fitting(prefix, Contents(messages)) :: Formats(prefix, m)
    ensures Accepted(Events(prefix, messages)) == MetricRecords(prefix, Fitting(prefix, Contents(messages)))
    decreases |messages|
  {
    hide Formats, MetricRecord, Fitting, MetricEvents;
    FittingFormats(prefix, Contents(messages));
    if messages != [] {
      var n := |messages| - 1;
      var metrics := match messages[n] { case None => [] case Some(ms) => ms };
      AcceptedAreFitting(prefix, messages[..n]);
      FittingAppend(prefix, Contents(messages[..n]), metrics);
      AcceptedAppend(Events(prefix, messages[..n]), MessageEvents(prefix, messages[n]));
      AcceptedMessage(prefix, messages[n]);
      RecordsAppend(prefix, Fitting(prefix, Contents(messages[..n])), Fitting(prefix, metrics));
    } else {
      NothingFits(prefix);
    }
  }

  lemma NothingFits(prefix: Bytes)
    ensures Fitting(prefix, []) == [] && MetricRecords(prefix, []) == []
  {
  }

  lemma AcceptedMessage(prefix: Bytes, message: Message)
    ensures var metrics := match message { case None => [] case Some(ms) => ms };
            && (forall m | m in Fitting(prefix, metrics) :: Formats(prefix, m))
            && Accepted(MessageEvents(prefix, message)) == MetricRecords(prefix, Fitting(prefix, metrics))
  {
    hide Formats;
    match message
    case None =>
      AcceptedSnoc([], Tick);
      assert [] + [Tick] == [Tick];
    case Some(metrics) =>
      AcceptedMetrics(prefix, metrics);
  }

  // ----- the packets

  /** Records drawn from a list of metrics are the records of some of those metrics. */
  lemma {:induction false} WhoseRecords(prefix: Bytes, metrics: seq<Metric>, packet: seq<Record>)
    returns (ms: seq<Metric>)
    requires forall m | m in metrics :: Formats(prefix, m)
    requires forall r | r in packet :: r in MetricRecords(prefix, metrics)
    ensures forall m | m in ms :: m in metrics
    ensures packet == MetricRecords(prefix, ms)
    decreases |packet|
  {
    hide Formats, MetricRecord;
    if packet == [] {
      ms := [];
    } else {
      assert packet[0] in packet;
      var first := WhoseRecord(prefix, metrics, packet[0]);
      var rest := WhoseRecords(prefix, metrics, packet[1..]);
      ms := [first] + rest;
      assert ms[1..] == rest;
      assert packet == [packet[0]] + packet[1..];
    }
  }

  lemma {:induction false} WhoseRecord(prefix: Bytes, metrics: seq<Metric>, r: Bytes) returns (m: Metric)
    requires forall m | m in metrics :: Formats(prefix, m)
    requires r in MetricRecords(prefix, metrics)
    ensures m in metrics && r == MetricRecord(prefix, m)
    decreases |metrics|
  {
    hide Formats, MetricRecord;
    assert metrics[0] in metrics;
    if r == MetricRecord(prefix, metrics[0]) {
      m := metrics[0];
    } else {
      m := WhoseRecord(prefix, metrics[1..], r);
    }
  }

  /** A packet's bytes: not empty, over 8192 only if it is one record, and readable as metrics that were received. */
  ghost predicate GoodPacket(prefix: Bytes, metrics: seq<Metric>, packet: seq<Record>) {
    && packet != []
    && (|Concat(packet)| > PACKETS.limit ==> |packet| == 1)
    && exists ms: seq<Metric> ::
         && (forall m | m in ms :: m in metrics && Formats(prefix, m))
         && packet == MetricRecords(prefix, ms)
         && ReadRecords(Concat(packet)) == Some(AllReceived(prefix, ms))
  }

  /** So is every packet of a run that accepted exactly the records of the metrics within the limits. */
  lemma PacketIsGood(prefix: Bytes, events: seq<Event>, received: seq<Metric>, packet: seq<Record>)
    requires forall m | m in Fitting(prefix, received) :: Formats(prefix, m)
    requires Accepted(events) == MetricRecords(prefix, Fitting(prefix, received))
    requires packet in Flush(Run(PACKETS, events)).sent
    ensures GoodPacket(prefix, received, packet)
  {
    hide Formats, MetricRecord, MetricRecords, Run, Accepted, ReadRecords, AllReceived, Concat;
    RunInvariant(PACKETS, events);
    assert BatchFits(PACKETS, packet);
    var metrics := Fitting(prefix, received);
    FittingFormats(prefix, received);
    forall r | r in packet ensures r in MetricRecords(prefix, metrics) {
      SentIsAccepted(PACKETS, events, packet, r);
    }
    var ms := WhoseRecords(prefix, metrics, packet);
    PacketRoundTrip(prefix, ms);
  }

  /**
   * Every packet of a run reads back as metrics that were received and satisfy the limits; and the records sent are
   * those of exactly these metrics, none lost or repeated, in order among the ones that fit a packet and in order
   * among the ones that do not.
   */
  lemma PacketsParseBack(prefix: Bytes, messages: seq<Message>, big: bool)
    ensures forall m | m in Fitting(prefix, Contents(messages)) :: Formats(prefix, m)
    ensures var sent := Flush(Run(PACKETS, Events(prefix, messages))).sent;
            && (forall packet | packet in sent :: GoodPacket(prefix, Contents(messages), packet))
            && Select(PACKETS, Flatten(sent), big)
               == Select(PACKETS, MetricRecords(prefix, Fitting(prefix, Contents(messages))), big)
  {
    hide Formats, GoodPacket, Run, Select, MetricRecords;
    AcceptedAreFitting(prefix, messages);
    ClosedSendsAll(PACKETS, Events(prefix, messages), big);
    var sent := Flush(Run(PACKETS, Events(prefix, messages))).sent;
    forall packet | packet in sent ensures GoodPacket(prefix, Contents(messages), packet) {
      PacketIsGood(prefix, Events(prefix, messages), Contents(messages), packet);
    }
  }
}
