/**
 * Batching of encoded records, shared by the trace and log send loops and the metrics packer: what is pending and what
 * has been sent, as a function of the events a loop received.
 */
module Batching {
  import opened ByteStrings

  lemma PackedEmpty(records: seq<Record>)
    ensures |Concat(records)| == 0 <==> records == []
  {
  }

  lemma OneRecord(record: Record)
    ensures Concat([record]) == record
  {
    assert [record][1..] == [];
  }

  /**
   * What a send loop is told: to flush (its ticker fired), or its channel gave nil, a message that failed to encode, or
   * the record of one that did not.
   */
  datatype Event = Tick | NilItem | Failed | Item(record: Record)

  /** `limit` is the size a batch may have and `offset` the prefix reserved before it. */
  datatype Config = Config(limit: nat, offset: nat)

  datatype State = State(pending: seq<Record>, sent: seq<seq<Record>>)

  const START := State([], [])

  function Oversize(c: Config, record: Record): bool {
    |record| > c.limit + c.offset
  }

  function Flush(st: State): State {
    if st.pending == [] then st else State([], st.sent + [st.pending])
  }

  function Step(c: Config, st: State, e: Event): State {
    match e
    case Tick => Flush(st)
    case NilItem => st
    case Failed => st
    case Item(record) =>
      if |Concat(st.pending)| + |record| <= c.limit then st.(pending := st.pending + [record])
      else if Oversize(c, record) then st.(sent := st.sent + [[record]])
      else State([record], st.sent + [st.pending])
  }

  function Run(c: Config, events: seq<Event>): State {
    if events == [] then START else Step(c, Run(c, events[..|events| - 1]), events[|events| - 1])
  }

  /** The records that were encoded without error, in the order received. */
  function Accepted(events: seq<Event>): seq<Record> {
    if events == [] then []
    else
      var before, e := Accepted(events[..|events| - 1]), events[|events| - 1];
      if e.Item? then before + [e.record] else before
  }

  function Flatten(batches: seq<seq<Record>>): seq<Record> {
    if batches == [] then [] else Flatten(batches[..|batches| - 1]) + batches[|batches| - 1]
  }

  /** Everything sent and then everything pending. */
  function All(st: State): seq<Record> {
    Flatten(st.sent) + st.pending
  }

  /** The records that are (`big`) or are not oversize, in order. */
  function Select(c: Config, records: seq<Record>, big: bool): seq<Record> {
    if records == [] then []
    else
      var rest, last := Select(c, records[..|records| - 1], big), records[|records| - 1];
      if Oversize(c, last) == big then rest + [last] else rest
  }

  lemma {:induction false} SelectAppend(c: Config, xs: seq<Record>, ys: seq<Record>, big: bool)
    ensures Select(c, xs + ys, big) == Select(c, xs, big) + Select(c, ys, big)
    decreases |ys|
  {
    if ys == [] {
      assert xs + ys == xs;
    } else {
      var n := |ys| - 1;
      assert (xs + ys)[..|xs + ys| - 1] == xs + ys[..n] && (xs + ys)[|xs + ys| - 1] == ys[n];
      SelectAppend(c, xs, ys[..n], big);
    }
  }

  lemma FlattenSnoc(batches: seq<seq<Record>>, b: seq<Record>)
    ensures Flatten(batches + [b]) == Flatten(batches) + b
  {
    assert (batches + [b])[..|batches|] == batches;
  }

  /** Pending bytes never exceed what the source's capacity check leaves room for, and hold no oversize record. */
  predicate PendingFits(c: Config, pending: seq<Record>) {
    && |Concat(pending)| <= c.limit + c.offset
    && (c.offset == 0 ==> |Concat(pending)| <= c.limit)
    && forall b | b in pending :: !Oversize(c, b)
  }

  /** A batch on the wire is one oversize record alone, or fits; it is empty only when there is a reserved prefix. */
  predicate BatchFits(c: Config, batch: seq<Record>) {
    || (|batch| == 1 && Oversize(c, batch[0]))
    || (PendingFits(c, batch) && (c.offset == 0 ==> batch != []))
  }

  predicate Invariant(c: Config, st: State) {
    PendingFits(c, st.pending) && forall b | b in st.sent :: BatchFits(c, b)
  }

  lemma StepInvariant(c: Config, st: State, e: Event)
    requires Invariant(c, st)
    ensures Invariant(c, Step(c, st, e))
  {
    PackedEmpty([]);
    if e.Item? {
      ConcatSnoc(st.pending, e.record);
      ConcatSnoc([], e.record);
      assert [] + [e.record] == [e.record];
      PackedEmpty(st.pending);
    }
  }

  /** The sizes: over every run, no batch is larger than the configured room unless it is one oversize record. */
  lemma {:induction false} RunInvariant(c: Config, events: seq<Event>)
    ensures Invariant(c, Run(c, events))
    decreases |events|
  {
    if events != [] {
      RunInvariant(c, events[..|events| - 1]);
      StepInvariant(c, Run(c, events[..|events| - 1]), events[|events| - 1]);
    }
  }

  lemma StepKeepsRecords(c: Config, st: State, e: Event, big: bool)
    requires Invariant(c, st)
    ensures Select(c, All(Step(c, st, e)), big)
         == Select(c, All(st), big) + (if e.Item? then Select(c, [e.record], big) else [])
  {
    hide Select, Concat;
    match e {
      case Tick =>
        FlattenSnoc(st.sent, st.pending);
        assert Flatten(st.sent + [st.pending]) + [] == Flatten(st.sent) + st.pending;
        assert Select(c, All(st), big) + [] == Select(c, All(st), big);
      case NilItem =>
        assert Select(c, All(st), big) + [] == Select(c, All(st), big);
      case Failed =>
        assert Select(c, All(st), big) + [] == Select(c, All(st), big);
      case Item(record) =>
        if |Concat(st.pending)| + |record| <= c.limit {
          assert Flatten(st.sent) + (st.pending + [record]) == All(st) + [record];
          SelectAppend(c, All(st), [record], big);
        } else if Oversize(c, record) {
          FlattenSnoc(st.sent, [record]);
          OversizeOvertakes(c, Flatten(st.sent), st.pending, record, big);
        } else {
          FlattenSnoc(st.sent, st.pending);
          SelectAppend(c, All(st), [record], big);
        }
    }
  }

  /** A record sent at once overtakes only records that are not oversize. */
  lemma OversizeOvertakes(c: Config, sent: seq<Record>, pending: seq<Record>, record: Record, big: bool)
    requires Oversize(c, record) && forall b | b in pending :: !Oversize(c, b)
    ensures Select(c, sent + [record] + pending, big) == Select(c, sent + pending, big) + Select(c, [record], big)
  {
    SelectAppend(c, sent + [record], pending, big);
    SelectAppend(c, sent, [record], big);
    SelectAppend(c, sent, pending, big);
    if big {
      SelectNone(c, pending);
    } else {
      assert Select(c, [record], false) == [];
    }
  }

  lemma {:induction false} SelectNone(c: Config, records: seq<Record>)
    requires forall b | b in records :: !Oversize(c, b)
    ensures Select(c, records, true) == []
    decreases |records|
  {
    if records != [] {
      assert records[|records| - 1] in records;
      SelectNone(c, records[..|records| - 1]);
    }
  }

  /**
   * Over every run, the records that fit are sent or pending in the order received, and so, among themselves, are
   * the oversize ones: no record is lost, repeated, split or reordered within its class.
   */
  lemma {:induction false} RunKeepsRecords(c: Config, events: seq<Event>, big: bool)
    ensures Select(c, All(Run(c, events)), big) == Select(c, Accepted(events), big)
    decreases |events|
  {
    if events != [] {
      var before, e := events[..|events| - 1], events[|events| - 1];
      RunKeepsRecords(c, before, big);
      RunInvariant(c, before);
      StepKeepsRecords(c, Run(c, before), e, big);
      if e.Item? {
        SelectAppend(c, Accepted(before), [e.record], big);
      }
    } else {
      assert All(START) == [];
    }
  }

  /** When the channel is closed and the loop has flushed, everything accepted has been sent. */
  lemma ClosedSendsAll(c: Config, events: seq<Event>, big: bool)
    ensures Flush(Run(c, events)).pending == []
    ensures Select(c, Flatten(Flush(Run(c, events)).sent), big) == Select(c, Accepted(events), big)
  {
    var st := Run(c, events);
    RunKeepsRecords(c, events, big);
    FlattenSnoc(st.sent, st.pending);
    assert Flatten(st.sent) + [] == Flatten(st.sent);
  }

  lemma AcceptedSnoc(events: seq<Event>, e: Event)
    ensures Accepted(events + [e]) == Accepted(events) + (if e.Item? then [e.record] else [])
  {
    assert (events + [e])[..|events|] == events;
  }

  lemma {:induction false} AcceptedAppend(xs: seq<Event>, ys: seq<Event>)
    ensures Accepted(xs + ys) == Accepted(xs) + Accepted(ys)
    decreases |ys|
  {
    if ys == [] {
      assert xs + ys == xs;
    } else {
      var n := |ys| - 1;
      assert (xs + ys)[..|xs + ys| - 1] == xs + ys[..n] && (xs + ys)[|xs + ys| - 1] == ys[n];
      AcceptedAppend(xs, ys[..n]);
    }
  }

  /** The bytes of each batch. */
  function Bodies(batches: seq<seq<Record>>): seq<Bytes> {
    if batches == [] then [] else [Concat(batches[0])] + Bodies(batches[1..])
  }

  lemma {:induction false} BodiesSnoc(batches: seq<seq<Record>>, last: seq<Record>)
    ensures Bodies(batches + [last]) == Bodies(batches) + [Concat(last)]
    decreases |batches|
  {
    hide Concat;
    if batches == [] {
      assert batches + [last] == [last] && [last][1..] == [];
    } else {
      assert (batches + [last])[0] == batches[0] && (batches + [last])[1..] == batches[1..] + [last];
      BodiesSnoc(batches[1..], last);
    }
  }

  /** Nothing is sent that was not accepted. */
  lemma SentIsAccepted(c: Config, events: seq<Event>, batch: seq<Record>, r: Record)
    requires batch in Flush(Run(c, events)).sent && r in batch
    ensures r in Accepted(events)
  {
    hide Run, Accepted, Select, Flatten;
    var big := Oversize(c, r);
    var sent := Flush(Run(c, events)).sent;
    ClosedSendsAll(c, events, big);
    InFlatten(sent, batch, r);
    SelectMembers(c, Flatten(sent), big, r);
    SelectMembers(c, Accepted(events), big, r);
  }

  lemma {:induction false} InFlatten(batches: seq<seq<Record>>, batch: seq<Record>, r: Record)
    requires batch in batches && r in batch
    ensures r in Flatten(batches)
    decreases |batches|
  {
    if batch != batches[|batches| - 1] {
      InFlatten(batches[..|batches| - 1], batch, r);
    }
  }

  lemma {:induction false} SelectMembers(c: Config, records: seq<Record>, big: bool, r: Record)
    ensures r in Select(c, records, big) <==> r in records && Oversize(c, r) == big
    decreases |records|
  {
    if records != [] {
      SelectMembers(c, records[..|records| - 1], big, r);
      assert records == records[..|records| - 1] + [records[|records| - 1]];
    }
  }

  /** The one way an empty batch goes out: a record larger than the limit, but not oversize, with nothing pending. */
  lemma EmptyBatchSent(c: Config, st: State, record: Record)
    requires Invariant(c, st)
    ensures Step(c, st, Item(record)).sent == st.sent + [[]]
       <==> st.pending == [] && c.limit < |record| <= c.limit + c.offset
  {
    PackedEmpty(st.pending);
    var after := Step(c, st, Item(record)).sent;
    if after == st.sent + [[]] {
      assert after[|st.sent|] == [];
    }
  }

  // ----- when a batch goes out

  /** Whether an event makes a batch go out: a tick with something pending, or a record that does not fit beside it. */
  predicate Sends(c: Config, st: State, e: Event) {
    match e
    case Tick => st.pending != []
    case NilItem => false
    case Failed => false
    case Item(record) => |Concat(st.pending + [record])| > c.limit
  }

  /** Batches go out one at a time, and only when they must. */
  lemma SendsIff(c: Config, st: State, e: Event)
    ensures var after := Step(c, st, e);
            && (Sends(c, st, e) ==> |after.sent| == |st.sent| + 1 && st.sent == after.sent[..|st.sent|])
            && (!Sends(c, st, e) ==> after.sent == st.sent)
            && (!Sends(c, st, e) && e.Item? ==> after.pending == st.pending + [e.record])
            && (e.Tick? ==> after.pending == [])
  {
    hide Concat;
    if e.Item? {
      ConcatSnoc(st.pending, e.record);
    }
  }

  /** A tick leaves nothing pending, whatever came before. */
  lemma TickFlushes(c: Config, events: seq<Event>)
    ensures Run(c, events + [Tick]).pending == []
    ensures Flatten(Run(c, events + [Tick]).sent) == All(Run(c, events))
  {
    assert (events + [Tick])[..|events|] == events;
    var st := Run(c, events);
    FlattenSnoc(st.sent, st.pending);
    assert Flatten(st.sent) + [] == Flatten(st.sent);
  }

  /**
   * Why batch `k` of a run went out: at a tick, with all that was pending, or because the record that came then would
   * not have fitted beside what was pending. Then that went out, or the record itself if it is oversize.
   */
  lemma {:induction false} WhySent(c: Config, events: seq<Event>, k: nat) returns (n: nat)
    requires k < |Run(c, events).sent|
    ensures n < |events| && |Run(c, events[..n]).sent| == k && Sends(c, Run(c, events[..n]), events[n])
    ensures var pending, e, batch := Run(c, events[..n]).pending, events[n], Run(c, events).sent[k];
            batch == if e.Item? && Oversize(c, e.record) then [e.record] else pending
    decreases |events|
  {
    hide Concat, Oversize;
    n := |events| - 1;
    var before := Run(c, events[..n]);
    SendsIff(c, before, events[n]);
    if k < |before.sent| {
      var m := WhySent(c, events[..n], k);
      assert events[..n][..m] == events[..m];
      n := m;
    }
  }

  /** Every batch but the first has a record, and the batch before has no room for it. */
  predicate Tight(c: Config, batches: seq<seq<Record>>) {
    forall k | 0 < k < |batches| :: batches[k] != [] && |Concat(batches[k - 1] + [batches[k][0]])| > c.limit
  }

  lemma TightGrows(c: Config, sent: seq<seq<Record>>, pending: seq<Record>, record: Record)
    requires Tight(c, sent + [pending])
    ensures Tight(c, sent + [pending + [record]])
  {
    hide Concat;
    var was, now := sent + [pending], sent + [pending + [record]];
    forall k | 0 < k < |now| ensures now[k] != [] && |Concat(now[k - 1] + [now[k][0]])| > c.limit {
      assert was[k] != [] && now[k - 1] == was[k - 1] && now[k][0] == was[k][0];
    }
  }

  /** Without ticks and oversize records, no batch has room for the first record of the next. */
  lemma {:induction false} TightlyPacked(c: Config, events: seq<Event>)
    requires forall i | 0 <= i < |events| :: !events[i].Tick?
    requires forall r | r in Accepted(events) :: !Oversize(c, r)
    ensures Tight(c, Run(c, events).sent + [Run(c, events).pending])
    decreases |events|
  {
    hide Concat, Oversize;
    if events != [] {
      var n := |events| - 1;
      var e, before := events[n], Run(c, events[..n]);
      assert events == events[..n] + [e];
      AcceptedSnoc(events[..n], e);
      TightlyPacked(c, events[..n]);
      var was, now := before.sent + [before.pending], Run(c, events).sent + [Run(c, events).pending];
      if e.Item? {
        ConcatSnoc(before.pending, e.record);
        assert e.record in Accepted(events);
        if Sends(c, before, e) {
          assert now == was + [[e.record]];
        } else {
          TightGrows(c, before.sent, before.pending, e.record);
        }
      } else {
        assert now == was;
      }
    }
  }
}
