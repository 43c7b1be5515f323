/** Where the metrics client loses batches, and the order in which it hands metrics on, over every run. */
module MetricOrder {
  import opened ByteStrings
  import opened MetricFormat
  import opened MetricPacker
  import opened MetricPipeline
  import opened MetricDelivery
  import opened Totals
  import Batching

  // ----- losses

  /** An emitter offers its batch while the channel is full. */
  predicate Refuses<B>(c: Config, s: State<B>, move: Move<B>) {
    move.Offer? && |s.channel| >= c.capacity
  }

  lemma MoveRefuses<B>(c: Config, s: State<B>, move: Move<B>)
    requires Enabled(c, s, move)
    ensures var t := Apply(c, s, move);
            && t.bufferFull == s.bufferFull + (if Refuses(c, s, move) then 1 else 0)
            && t.dropped == s.dropped + (if Refuses(c, s, move) then [s.hands[move.i]] else [])
  {
    hide Formats, EventOf, TaskLeft;
    if move.Emit? {
      hide Full, CanGet;
      EmitLosesNothing(s, move.metric, move.get);
    }
  }

  lemma EmitLosesNothing<B>(s: State<B>, m: Metric, g: Get<B>)
    requires Full(s) ==> CanGet(Appended(s, m), g)
    ensures var t := EmitStep(s, m, g); t.bufferFull == s.bufferFull && t.dropped == s.dropped
  {
  }

  /** How often in a run a batch was offered to a full channel. */
  function Refusals<B(==)>(c: Config, s: State<B>, moves: seq<Move<B>>): nat {
    if moves == [] then 0
    else
      var n := |moves| - 1;
      var u := Run(c, s, moves[..n]);
      Refusals(c, s, moves[..n]) + (if u.Some? && Refuses(c, u.value, moves[n]) then 1 else 0)
  }

  /** In every reached state a move drops a batch if and only if it offers one while all of the channel is taken. */
  lemma DropsOnlyWhenFull<B>(c: Config, first: B, n: nat, moves: seq<Move<B>>, s: State<B>, move: Move<B>)
    requires Run(c, Init(first, n), moves) == Some(s) && Enabled(c, s, move)
    ensures Apply(c, s, move).bufferFull > s.bufferFull <==> move.Offer? && |s.channel| == c.capacity
    ensures Apply(c, s, move).dropped != s.dropped <==> move.Offer? && |s.channel| == c.capacity
  {
    hide Run, Apply, Enabled, OneOwner, Sizes, Accounts;
    RunKeeps(c, first, n, moves, s, Each());
    MoveRefuses(c, s, move);
  }

  /** Over every run: one batch is dropped, and counted, for each offer to a full channel, and no other is. */
  lemma {:induction false} DropsCounted<B>(c: Config, s: State<B>, moves: seq<Move<B>>, t: State<B>)
    requires Run(c, s, moves) == Some(t)
    ensures t.bufferFull == s.bufferFull + Refusals(c, s, moves)
    ensures |t.dropped| == |s.dropped| + Refusals(c, s, moves)
    decreases |moves|
  {
    if moves != [] {
      hide Apply, Enabled, Refuses;
      var u := Run(c, s, moves[..|moves| - 1]).value;
      DropsCounted(c, s, moves[..|moves| - 1], u);
      MoveRefuses(c, u, moves[|moves| - 1]);
    }
  }

  /** At every moment of the run the channel has room. */
  ghost predicate AlwaysRoom<B>(c: Config, s: State<B>, moves: seq<Move<B>>) {
    forall k | 0 <= k < |moves| && Run(c, s, moves[..k]).Some? :: |Run(c, s, moves[..k]).value.channel| < c.capacity
  }

  /** A client whose channel never fills loses nothing to it: what was emitted is undelivered, sent or malformed. */
  lemma NeverFullLosesNothing<B>(c: Config, first: B, n: nat, moves: seq<Move<B>>, s: State<B>)
    requires Run(c, Init(first, n), moves) == Some(s) && AlwaysRoom(c, Init(first, n), moves)
    ensures s.bufferFull == 0 && s.dropped == []
    ensures |s.emitted| == Undelivered(s, Each()) + Total(s.workers, FitCount(c.prefix)) + s.formatError
  {
    hide Run, Total, Undelivered;
    DropsCounted(c, Init(first, n), moves, s);
    NoRefusals(c, Init(first, n), moves);
    EmittedAccounted(c, first, n, moves, s);
  }

  lemma {:induction false} NoRefusals<B>(c: Config, s: State<B>, moves: seq<Move<B>>)
    requires AlwaysRoom(c, s, moves)
    ensures Refusals(c, s, moves) == 0
    decreases |moves|
  {
    hide Run;
    if moves != [] {
      var n := |moves| - 1;
      forall k | 0 <= k < n && Run(c, s, moves[..n][..k]).Some?
        ensures |Run(c, s, moves[..n][..k]).value.channel| < c.capacity
      {
        assert moves[..n][..k] == moves[..k];
      }
      NoRefusals(c, s, moves[..n]);
    }
  }

  // ----- the channel

  /** The message a move puts into the channel. */
  function Put<B>(c: Config, s: State<B>, move: Move<B>): seq<Option<B>> {
    match move
    case Offer(i) => if i < |s.hands| && |s.channel| < c.capacity then [Some(s.hands[i])] else []
    case Push => if s.phase.Pushing? then [Some(s.phase.buffer)] else []
    case PushNil => [None]
    case _ => []
  }

  /** The message a worker has taken, as it shows afterwards: it is busy with the batch, or nil left it idle. */
  function Got<B>(move: Move<B>, t: State<B>): seq<Option<B>> {
    if !move.Receive? || move.w >= |t.workers| then []
    else if t.workers[move.w].task.Busy? then [Some(t.workers[move.w].task.buffer)]
    else [None]
  }

  lemma MoveQueues<B>(c: Config, s: State<B>, move: Move<B>)
    requires Enabled(c, s, move)
    ensures s.channel + Put(c, s, move) == Got(move, Apply(c, s, move)) + Apply(c, s, move).channel
  {
    hide Formats, EventOf, TaskLeft, Full, CanGet;
    if move.Emit? {
      EmitQueues(s, move.metric, move.get);
    } else if move.Receive? {
      assert s.channel == [s.channel[0]] + s.channel[1..];
    }
  }

  lemma EmitQueues<B>(s: State<B>, m: Metric, g: Get<B>)
    requires Full(s) ==> CanGet(Appended(s, m), g)
    ensures var t := EmitStep(s, m, g); t.channel == s.channel && t.workers == s.workers
  {
  }

  /** All the messages put into the channel in a run, in order. */
  function AllPut<B(==)>(c: Config, s: State<B>, moves: seq<Move<B>>): seq<Option<B>>
    requires Run(c, s, moves).Some?
  {
    if moves == [] then []
    else
      var n := |moves| - 1;
      AllPut(c, s, moves[..n]) + Put(c, Run(c, s, moves[..n]).value, moves[n])
  }

  /** All the messages the workers took, in order. */
  function AllGot<B(==)>(c: Config, s: State<B>, moves: seq<Move<B>>): seq<Option<B>>
    requires Run(c, s, moves).Some?
  {
    if moves == [] then []
    else
      var n := |moves| - 1;
      AllGot(c, s, moves[..n]) + Got(moves[n], Run(c, s, moves).value)
  }

  /** Over every run the workers take the messages in the order in which emitters and flusher put them. */
  lemma {:induction false} FirstInFirstOut<B>(c: Config, s: State<B>, moves: seq<Move<B>>, t: State<B>)
    requires Run(c, s, moves) == Some(t)
    ensures s.channel + AllPut(c, s, moves) == AllGot(c, s, moves) + t.channel
    decreases |moves|
  {
    hide Apply, Enabled, Put, Got;
    if moves != [] {
      var n := |moves| - 1;
      var u := Run(c, s, moves[..n]).value;
      FirstInFirstOut(c, s, moves[..n], u);
      MoveQueues(c, u, moves[n]);
      Regroup(s.channel, AllPut(c, s, moves[..n]), Put(c, u, moves[n]), AllGot(c, s, moves[..n]), u.channel,
              Got(moves[n], t), t.channel);
    }
  }

  lemma Regroup<T>(s: seq<T>, puts: seq<T>, put: seq<T>, gots: seq<T>, u: seq<T>, got: seq<T>, t: seq<T>)
    requires s + puts == gots + u && u + put == got + t
    ensures s + (puts + put) == (gots + got) + t
  {
    assert s + (puts + put) == (s + puts) + put;
    assert (gots + u) + put == gots + (u + put);
    assert gots + (got + t) == (gots + got) + t;
  }

  function Nils<B>(messages: seq<Option<B>>): nat {
    if messages == [] then 0 else Nils(messages[..|messages| - 1]) + (if messages[|messages| - 1].None? then 1 else 0)
  }

  lemma {:induction false} NilsAppend<B>(xs: seq<Option<B>>, ys: seq<Option<B>>)
    requires |ys| <= 1
    ensures Nils(xs + ys) == Nils(xs) + (if ys == [None] then 1 else 0)
  {
    if ys == [] {
      assert xs + ys == xs;
    } else {
      assert (xs + ys)[..|xs|] == xs;
    }
  }

  /** How many flushes a run begins. */
  function Takes<B>(moves: seq<Move<B>>): nat {
    if moves == [] then 0 else Takes(moves[..|moves| - 1]) + (if moves[|moves| - 1].Take? then 1 else 0)
  }

  /** The flusher is on its way to put a nil. */
  function Owes<B>(p: Phase<B>): nat {
    if p.Pushing? || p.PushingNil? then 1 else 0
  }

  lemma MoveOwes<B>(c: Config, s: State<B>, move: Move<B>)
    requires Enabled(c, s, move)
    ensures |Put(c, s, move)| <= 1
    ensures (if Put(c, s, move) == [None] then 1 else 0) + Owes(Apply(c, s, move).phase)
         == Owes(s.phase) + (if move.Take? then 1 else 0)
  {
    hide Formats, EventOf, TaskLeft, Full;
    if move.Emit? {
      EmitPhase(s, move.metric, move.get);
    }
  }

  lemma EmitPhase<B>(s: State<B>, m: Metric, g: Get<B>)
    requires Full(s) ==> CanGet(Appended(s, m), g)
    ensures EmitStep(s, m, g).phase == s.phase
  {
  }

  /** Every flush, of an empty batch too, puts exactly one nil, which tells a worker to send what it has packed. */
  lemma {:induction false} NilPerFlush<B>(c: Config, s: State<B>, moves: seq<Move<B>>, t: State<B>)
    requires Run(c, s, moves) == Some(t)
    ensures Nils(AllPut(c, s, moves)) + Owes(t.phase) == Owes(s.phase) + Takes(moves)
    decreases |moves|
  {
    hide Apply, Enabled, Put, Owes;
    if moves != [] {
      var n := |moves| - 1;
      var u := Run(c, s, moves[..n]).value;
      NilPerFlush(c, s, moves[..n], u);
      MoveOwes(c, u, moves[n]);
      NilsAppend(AllPut(c, s, moves[..n]), Put(c, u, moves[n]));
    }
  }

  // ----- the metrics

  /** What a buffer contains changes only while it is the shared batch, and when a worker is done with it. */
  lemma ContentsKept<B>(c: Config, s: State<B>, move: Move<B>, b: B)
    requires Enabled(c, s, move)
    requires !(move.Emit? && b == s.batch) && !(move.Finish? && b == s.workers[move.w].task.buffer)
    ensures At(Apply(c, s, move).store, b) == At(s.store, b)
  {
    hide Formats, EventOf, TaskLeft, Full;
    match move
    case Emit(m, g) => EmitContents(s, m, g, b);
    case Take(last, g) => TakeContents(s, last, g, b);
    case _ =>
  }

  lemma EmitContents<B>(s: State<B>, m: Metric, g: Get<B>, b: B)
    requires (Full(s) ==> CanGet(Appended(s, m), g)) && b != s.batch
    ensures At(EmitStep(s, m, g).store, b) == At(s.store, b)
  {
  }

  lemma TakeContents<B>(s: State<B>, last: bool, g: Get<B>, b: B)
    requires At(s.store, s.batch) != [] ==> CanGet(s, g)
    ensures At(TakeStep(s, last, g).store, b) == At(s.store, b)
  {
  }

  /** The contents of the batch a move takes away from the emitters. */
  function SwappedOut<B(==)>(s: State<B>, t: State<B>): seq<Metric> {
    if t.batch == s.batch then []
    else if t.phase.Pushing? && !s.phase.Pushing? then At(t.store, t.phase.buffer)
    else if t.hands != [] then At(t.store, t.hands[|t.hands| - 1])
    else []
  }

  lemma MoveHandsOn<B>(c: Config, s: State<B>, move: Move<B>)
    requires OneOwner(s) && Sizes(s) && Enabled(c, s, move)
    ensures var t := Apply(c, s, move);
            SwappedOut(s, t) + At(t.store, t.batch) == At(s.store, s.batch) + (if move.Emit? then [move.metric] else [])
    ensures Apply(c, s, move).emitted == s.emitted + (if move.Emit? then [move.metric] else [])
  {
    hide Total, OneOwner, Waiting, Of, Sizes, Formats, EventOf, TaskLeft;
    match move
    case Emit(m, g) => EmitHandsOn(s, m, g);
    case Take(last, g) => TakeHandsOn(s, last, g);
    case Finish(w) => FinishStrands(s, w);
      SoleTask(s, w);
      OtherBuffer(s.store, s.workers[w].task.buffer, [], s.batch);
    case _ =>
  }

  /** The buffer that replaces the shared batch is another one. */
  lemma OtherBatch<B>(s: State<B>, g: Get<B>)
    requires OneOwner(s) && CanGet(s, g)
    ensures Replaced(s, g).batch != s.batch
    ensures At(Replaced(s, g).store, s.batch) == At(s.store, s.batch)
  {
    hide Total, OneOwner;
    Known(s);
    SoleBatch(s);
    if g.Pooled? {
      TotalMember(s.pool, g.i, Is(s.batch));
      assert Is(s.batch)(s.pool[g.i]) == 0;
    }
  }

  lemma EmitHandsOn<B>(s: State<B>, m: Metric, g: Get<B>)
    requires OneOwner(s) && Sizes(s) && (Full(s) ==> CanGet(Appended(s, m), g))
    ensures var t := EmitStep(s, m, g);
            && SwappedOut(s, t) + At(t.store, t.batch) == At(s.store, s.batch) + [m]
            && t.emitted == s.emitted + [m]
  {
    hide Total, OneOwner, Waiting, Of, Sizes;
    AppendedOneOwner(s, m);
    AppendedSizes(s, m);
    if Full(s) {
      ReplacedPool(Appended(s, m), g);
      OtherBatch(Appended(s, m), g);
    }
  }

  lemma TakeHandsOn<B>(s: State<B>, last: bool, g: Get<B>)
    requires OneOwner(s) && Sizes(s) && s.phase == Looping && (At(s.store, s.batch) != [] ==> CanGet(s, g))
    ensures var t := TakeStep(s, last, g);
            && SwappedOut(s, t) + At(t.store, t.batch) == At(s.store, s.batch)
            && t.emitted == s.emitted
  {
    hide Total, OneOwner, Waiting, Of;
    if At(s.store, s.batch) != [] {
      ReplacedPool(s, g);
      OtherBatch(s, g);
    }
  }

  /** All the metrics handed on in a run, batch after batch. */
  function HandedOn<B(==)>(c: Config, s: State<B>, moves: seq<Move<B>>): seq<Metric>
    requires Run(c, s, moves).Some?
  {
    if moves == [] then []
    else
      var n := |moves| - 1;
      HandedOn(c, s, moves[..n]) + SwappedOut(Run(c, s, moves[..n]).value, Run(c, s, moves).value)
  }

  /**
   * Over every run, the batches taken from the emitters, one after the other, and then the shared batch are exactly
   * the metrics emitted, in order.
   */
  lemma {:induction false} EmissionOrder<B>(c: Config, first: B, n: nat, moves: seq<Move<B>>, s: State<B>)
    requires Run(c, Init(first, n), moves) == Some(s)
    ensures HandedOn(c, Init(first, n), moves) + At(s.store, s.batch) == s.emitted
    decreases |moves|
  {
    hide Enabled, Apply, Invariant, SwappedOut;
    if moves != [] {
      var k := |moves| - 1;
      var u := Run(c, Init(first, n), moves[..k]).value;
      EmissionOrder(c, first, n, moves[..k], u);
      RunKeeps(c, first, n, moves[..k], u, Each());
      InvariantParts(c, u);
      MoveHandsOn(c, u, moves[k]);
      Regroup([], u.emitted, if moves[k].Emit? then [moves[k].metric] else [], HandedOn(c, Init(first, n), moves[..k]),
              At(u.store, u.batch), SwappedOut(u, s), At(s.store, s.batch));
      assert [] + u.emitted == u.emitted && [] + s.emitted == s.emitted;
    }
  }

  // ----- the workers

  /** The contents of the batch a move gives to worker `w`. */
  function Assigned<B(==)>(s: State<B>, move: Move<B>, w: nat): seq<Metric> {
    if move == Receive(w) && s.channel != [] && s.channel[0].Some? then At(s.store, s.channel[0].value) else []
  }

  lemma MoveTakesInOrder<B>(c: Config, s: State<B>, move: Move<B>, w: nat)
    requires OneOwner(s) && Enabled(c, s, move) && w < |s.workers|
    ensures var t := Apply(c, s, move);
            && |t.workers| == |s.workers|
            && t.workers[w].took + TaskLeft(t.store, t.workers[w].task)
               == s.workers[w].took + TaskLeft(s.store, s.workers[w].task) + Assigned(s, move, w)
  {
    if move == Receive(w) {
      ReceiveInOrder(s, w);
    } else if move == Pack(w) {
      PackInOrder(c.prefix, s, w);
    } else if move == Finish(w) {
      FinishInOrder(s, w);
    } else {
      BystanderInOrder(c, s, move, w);
    }
  }

  lemma ReceiveInOrder<B>(s: State<B>, w: nat)
    requires w < |s.workers| && s.channel != [] && s.workers[w].task == Idle
    ensures var t := ReceiveStep(s, w);
            && |t.workers| == |s.workers|
            && t.workers[w].took + TaskLeft(t.store, t.workers[w].task)
               == s.workers[w].took + TaskLeft(s.store, s.workers[w].task) + Assigned(s, Receive(w), w)
  {
    var t := ReceiveStep(s, w);
    assert s.workers[w].took + [] == s.workers[w].took;
    if s.channel[0].Some? {
      assert At(s.store, s.channel[0].value)[0..] == At(s.store, s.channel[0].value);
    }
  }

  lemma PackInOrder<B>(prefix: Bytes, s: State<B>, w: nat)
    requires w < |s.workers| && TaskLeft(s.store, s.workers[w].task) != []
    ensures var t := PackStep(prefix, s, w);
            && |t.workers| == |s.workers|
            && t.workers[w].took + TaskLeft(t.store, t.workers[w].task)
               == s.workers[w].took + TaskLeft(s.store, s.workers[w].task) + []
  {
    hide Formats, EventOf;
    var left := TaskLeft(s.store, s.workers[w].task);
    assert left == [left[0]] + left[1..];
    assert TaskLeft(s.store, PackStep(prefix, s, w).workers[w].task) == left[1..];
  }

  lemma FinishInOrder<B>(s: State<B>, w: nat)
    requires w < |s.workers| && s.workers[w].task.Busy? && TaskLeft(s.store, s.workers[w].task) == []
    ensures var t := FinishStep(s, w);
            && |t.workers| == |s.workers|
            && t.workers[w].took + TaskLeft(t.store, t.workers[w].task)
               == s.workers[w].took + TaskLeft(s.store, s.workers[w].task) + []
  {
  }

  /** A move of anyone else leaves the worker and the rest of its batch alone. */
  lemma BystanderInOrder<B>(c: Config, s: State<B>, move: Move<B>, w: nat)
    requires OneOwner(s) && Enabled(c, s, move) && w < |s.workers|
    requires move != Receive(w) && move != Pack(w) && move != Finish(w)
    ensures var t := Apply(c, s, move);
            && |t.workers| == |s.workers|
            && t.workers[w].took + TaskLeft(t.store, t.workers[w].task)
               == s.workers[w].took + TaskLeft(s.store, s.workers[w].task) + Assigned(s, move, w)
  {
    hide OneOwner, TaskLeft;
    var t := Apply(c, s, move);
    SameWorker(c, s, move, w);
    if s.workers[w].task.Busy? {
      var b := s.workers[w].task.buffer;
      SoleTask(s, w);
      if move.Finish? {
        TwoTasks(s, move.w, w);
      }
      ContentsKept(c, s, move, b);
      SameLeft(s.store, t.store, s.workers[w].task);
      hide Apply, Enabled;
    } else {
      NothingLeft(s.store, s.workers[w].task);
      NothingLeft(t.store, t.workers[w].task);
    }
  }

  lemma SameWorker<B>(c: Config, s: State<B>, move: Move<B>, w: nat)
    requires Enabled(c, s, move) && w < |s.workers|
    requires move != Receive(w) && move != Pack(w) && move != Finish(w)
    ensures var t := Apply(c, s, move);
            && |t.workers| == |s.workers| && t.workers[w].took == s.workers[w].took
            && (t.workers[w].task == s.workers[w].task || !(t.workers[w].task.Busy? || s.workers[w].task.Busy?))
  {
    hide Formats, EventOf, TaskLeft, Full;
    if move.Emit? {
      EmitQueues(s, move.metric, move.get);
    } else if move.Take? {
      TakeWorkers(s, move.last, move.get);
    }
  }

  lemma SameLeft<B>(store: map<B, seq<Metric>>, store': map<B, seq<Metric>>, task: Task<B>)
    requires task.Busy? && At(store', task.buffer) == At(store, task.buffer)
    ensures TaskLeft(store', task) == TaskLeft(store, task)
  {
  }

  lemma NothingLeft<B>(store: map<B, seq<Metric>>, task: Task<B>)
    requires !task.Busy?
    ensures TaskLeft(store, task) == []
  {
  }

  lemma TwoTasks<B>(s: State<B>, v: nat, w: nat)
    requires OneOwner(s) && v < |s.workers| && w < |s.workers| && v != w
    requires s.workers[v].task.Busy? && s.workers[w].task.Busy?
    ensures s.workers[v].task.buffer != s.workers[w].task.buffer
  {
    hide OneOwner, Total;
    var b, idle := s.workers[w].task.buffer, WorkerState(Idle, [], []);
    SoleTask(s, w);
    TotalUpdate(s.workers, w, idle, Working(Is(b)));
    TotalMember(s.workers[w := idle], v, Working(Is(b)));
    assert Working(Is(b))(s.workers[w]) == Is(b)(b) == 1 && Working(Is(b))(idle) == 0;
  }

  /** All the metrics worker `w` was given in a run. */
  function AllAssigned<B(==)>(c: Config, s: State<B>, moves: seq<Move<B>>, w: nat): seq<Metric>
    requires Run(c, s, moves).Some?
  {
    if moves == [] then []
    else
      var n := |moves| - 1;
      AllAssigned(c, s, moves[..n], w) + Assigned(Run(c, s, moves[..n]).value, moves[n], w)
  }

  /** Over every run, a worker takes up exactly the metrics of the batches it received, in order, up to where it is. */
  lemma {:induction false} WorkerTakesInOrder<B>(c: Config, first: B, n: nat, moves: seq<Move<B>>, s: State<B>, w: nat)
    requires Run(c, Init(first, n), moves) == Some(s) && w < n
    ensures |s.workers| == n
    ensures s.workers[w].took + TaskLeft(s.store, s.workers[w].task) == AllAssigned(c, Init(first, n), moves, w)
    decreases |moves|
  {
    hide Enabled, Apply, Invariant, Assigned, TaskLeft;
    RunKeeps(c, first, n, moves, s, Each());
    if moves == [] {
      AllIdle<B>(n);
      NothingLeft(s.store, s.workers[w].task);
    } else {
      var k := |moves| - 1;
      var u := Run(c, Init(first, n), moves[..k]).value;
      WorkerTakesInOrder(c, first, n, moves[..k], u, w);
      RunKeeps(c, first, n, moves[..k], u, Each());
      InvariantParts(c, u);
      MoveTakesInOrder(c, u, moves[k], w);
    }
  }

  /** A nil message makes its worker send everything in its packet buffer. */
  lemma NilFlushes<B>(c: Config, s: State<B>, w: nat)
    requires Enabled(c, s, Receive(w)) && s.channel[0] == None
    ensures var t := Apply(c, s, Receive(w));
            && t.channel == s.channel[1..]
            && Batching.Run(PACKETS, t.workers[w].history).pending == []
            && Batching.Flatten(Batching.Run(PACKETS, t.workers[w].history).sent)
               == Batching.All(Batching.Run(PACKETS, s.workers[w].history))
  {
    Batching.TickFlushes(PACKETS, s.workers[w].history);
  }
}
