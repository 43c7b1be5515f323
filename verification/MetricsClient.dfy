/** The client's own steps on its shared buffers, each a move of the machine in `MetricPipeline`. */
module MetricsClient {
  import opened ByteStrings
  import opened MetricFormat
  import opened MetricDelivery
  import opened MetricPipeline
  import opened Totals

  /** A `*[]metricItem`. */
  class MetricItems {
    var items: seq<Metric>

    constructor ()
      ensures items == []
    {
      items := [];
    }
  }

  class Client {
    const config: Config
    var batchBuf: MetricItems
    var dataBuf: seq<Option<MetricItems>>
    var pool: seq<MetricItems>
    var metricBufferFull: nat
    ghost var s: State<MetricItems>

    ghost predicate Valid()
      reads this, s.store.Keys
    {
      && batchBuf == s.batch && dataBuf == s.channel && pool == s.pool && metricBufferFull == s.bufferFull
      && OneOwner(s)
      && forall b | b in s.store :: b.items == s.store[b]
    }

    constructor (config: Config, ghost workers: nat)
      ensures Valid() && fresh(batchBuf) && s == Init(batchBuf, workers) && this.config == config
    {
      this.config := config;
      var first := new MetricItems();
      batchBuf, dataBuf, pool, metricBufferFull := first, [], [], 0;
      s := Init(first, workers);
      new;
      InitInvariant(Config(0, []), first, workers);
    }

    /** `getMetricItems`: one of the pooled buffers, or a new one. */
    method GetMetricItems(choice: Option<nat>) returns (items: MetricItems, ghost g: Get<MetricItems>)
      requires choice.Some? ==> choice.value < |pool|
      modifies this`pool
      ensures choice.Some? ==> items == old(pool)[choice.value] && pool == Without(old(pool), choice.value)
      ensures choice.Some? ==> g == Pooled(choice.value)
      ensures choice.None? ==> fresh(items) && items.items == [] && pool == old(pool) && g == Fresh(items)
    {
      match choice
      case Some(i) =>
        items, g := pool[i], Pooled(i);
        pool := Without(pool, i);
      case None =>
        items := new MetricItems();
        g := Fresh(items);
    }

    /** `emitMetric` under its lock: a full batch is swapped out and returned. */
    method EmitLocked(metric: Metric, choice: Option<nat>)
      returns (flushBatch: Option<MetricItems>, ghost g: Get<MetricItems>)
      requires Valid() && (choice.Some? ==> choice.value < |pool|)
      modifies this, batchBuf
      ensures Valid() && (Full(old(s)) ==> CanGet(Appended(old(s), metric), g))
      ensures s == EmitStep(old(s), metric, g)
      ensures flushBatch == if Full(old(s)) then Some(old(batchBuf)) else None
      ensures old(batchBuf).items == old(batchBuf.items) + [metric]
      ensures flushBatch.Some? <==> |old(batchBuf.items)| + 1 >= 1000
    {
      hide Owned;
      Known(s);
      g := Fresh(batchBuf);
      batchBuf.items := batchBuf.items + [metric];
      AppendedOneOwner(s, metric);
      ghost var a := Appended(s, metric);
      if |batchBuf.items| >= BATCH_SIZE {
        flushBatch := Some(batchBuf);
        var next, got := GetMetricItems(choice);
        g := got;
        EmitOneOwner(s, metric, g);
        s := EmitStep(s, metric, g);
        batchBuf := next;
      } else {
        flushBatch := None;
        s := a;
      }
    }

    /** Its select: the batch goes into the channel if there is room, and is dropped and counted if there is not. */
    method OfferBatch(flushBatch: MetricItems, ghost i: nat)
      requires Valid() && !s.closed && i < |s.hands| && s.hands[i] == flushBatch
      modifies this
      ensures Valid() && s == OfferStep(config, old(s), i)
      ensures |old(dataBuf)| < config.capacity
          ==> dataBuf == old(dataBuf) + [Some(flushBatch)] && metricBufferFull == old(metricBufferFull)
      ensures |old(dataBuf)| >= config.capacity
          ==> dataBuf == old(dataBuf) && metricBufferFull == old(metricBufferFull) + 1
    {
      hide Total;
      forall h: MetricItems -> nat ensures Owned(OfferStep(config, s, i), h) == Owned(s, h) {
        OfferOwned(config, s, i, h);
      }
      s := OfferStep(config, s, i);
      if |dataBuf| < config.capacity {
        dataBuf := dataBuf + [Some(flushBatch)];
      } else {
        metricBufferFull := metricBufferFull + 1;
      }
    }

    /** `batchFlush` under its lock: a batch that is not empty is swapped out and returned. */
    method FlushLocked(last: bool, choice: Option<nat>)
      returns (flushBatch: Option<MetricItems>, ghost g: Get<MetricItems>)
      requires Valid() && (choice.Some? ==> choice.value < |pool|)
      requires s.phase == Looping && (last ==> s.stopping)
      modifies this
      ensures Valid() && (At(old(s).store, old(batchBuf)) != [] ==> CanGet(old(s), g))
      ensures s == TakeStep(old(s), last, g)
      ensures flushBatch == if old(batchBuf.items) != [] then Some(old(batchBuf)) else None
    {
      hide Owned;
      Known(s);
      g := Fresh(batchBuf);
      if |batchBuf.items| != 0 {
        flushBatch := Some(batchBuf);
        var next, got := GetMetricItems(choice);
        g := got;
        MoveOneOwner(config, s, Take(last, g));
        s := TakeStep(s, last, g);
        batchBuf := next;
      } else {
        flushBatch := None;
        MoveOneOwner(config, s, Take(last, g));
        s := TakeStep(s, last, g);
      }
    }

    /** The flusher's two sends, once the channel has room. */
    method Send(message: Option<MetricItems>)
      requires Valid() && |dataBuf| < config.capacity
      requires if message.Some? then s.phase.Pushing? && s.phase.buffer == message.value else s.phase.PushingNil?
      modifies this
      ensures Valid() && s == Apply(config, old(s), if message.Some? then Push else PushNil)
      ensures dataBuf == old(dataBuf) + [message]
    {
      hide Owned;
      ghost var move := if message.Some? then Push else PushNil;
      MoveOneOwner(config, s, move);
      s := Apply(config, s, move);
      dataBuf := dataBuf + [message];
    }

    /** A worker takes the oldest message. */
    method ReceiveMessage(ghost w: nat) returns (message: Option<MetricItems>)
      requires Valid() && dataBuf != [] && w < |s.workers| && s.workers[w].task == Idle
      modifies this
      ensures Valid() && message == old(dataBuf)[0] && s == ReceiveStep(old(s), w)
      ensures dataBuf == old(dataBuf)[1..]
    {
      hide Owned;
      MoveOneOwner(config, s, Receive(w));
      s := ReceiveStep(s, w);
      message := dataBuf[0];
      dataBuf := dataBuf[1..];
    }

    /** `putMetricItems`: the buffer is truncated and pooled. */
    method PutMetricItems(items: MetricItems, ghost w: nat)
      requires Valid() && w < |s.workers| && s.workers[w].task.Busy? && s.workers[w].task.buffer == items
      requires TaskLeft(s.store, s.workers[w].task) == []
      modifies this, items
      ensures Valid() && s == FinishStep(old(s), w)
      ensures items.items == [] && pool == old(pool) + [items]
    {
      hide Owned;
      Known(s);
      MoveOneOwner(config, s, Finish(w));
      s := FinishStep(s, w);
      items.items := [];
      pool := pool + [items];
    }
  }

  lemma EmitOneOwner<B>(s: State<B>, m: Metric, g: Get<B>)
    requires OneOwner(s) && (Full(s) ==> CanGet(Appended(s, m), g))
    ensures OneOwner(EmitStep(s, m, g))
  {
    MoveOneOwner(Config(0, []), s, Emit(m, g));
  }
}
