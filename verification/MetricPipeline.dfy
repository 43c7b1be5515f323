/**
 * The metrics client as a machine: emitters, the flusher, the workers and `Close` take turns in any order. A buffer of
 * metrics is an element of `B`; `store` holds what each buffer contains.
 */
module MetricPipeline {
  import opened ByteStrings
  import opened MetricFormat
  import Batching
  import opened MetricPacker
  import opened Totals

  const BATCH_SIZE: nat := 1000

  /** The flusher: in its select, about to push a batch, about to push nil, returned. `last` marks the final flush. */
  datatype Phase<B> = Looping | Pushing(buffer: B, last: bool) | PushingNil(last: bool) | Stopped

  datatype Task<B> = Idle | Busy(buffer: B, next: nat) | Exited

  /** A worker: the metrics it has taken up, in order, and what it told its packet buffer. */
  datatype WorkerState<B> = WorkerState(task: Task<B>, took: seq<Metric>, history: seq<Batching.Event>)

  datatype State<B> = State(
    store: map<B, seq<Metric>>,
    batch: B,                          // batchBuf
    hands: seq<B>,                     // full batches between the emitter's unlock and its select
    phase: Phase<B>,
    channel: seq<Option<B>>,           // dataBuf; None is nil
    workers: seq<WorkerState<B>>,
    pool: seq<B>,
    dropped: seq<B>,
    emitted: seq<Metric>,
    bufferFull: nat,
    formatError: nat,
    stopping: bool,                    // flusherStop is closed
    closed: bool,                      // dataBuf is closed
    late: nat)                         // metrics emitted after the final flush took its batch

  datatype Config = Config(capacity: nat, prefix: Bytes)

  /** Where `getMetricItems` finds a buffer; the pool may forget any of its buffers at any time. */
  datatype Get<B> = Fresh(buffer: B) | Pooled(i: nat)

  datatype Move<B> =
    | Emit(metric: Metric, get: Get<B>)    // the locked part of `emitMetric`
    | Offer(i: nat)                        // its select with default
    | Take(last: bool, get: Get<B>)        // the locked part of `batchFlush`
    | Push | PushNil                       // its two sends
    | Stop | CloseChannel                  // `Close`
    | Receive(w: nat) | Pack(w: nat) | Finish(w: nat) | Exit(w: nat)
    | Forget(i: nat)

  // ----- buffers

  predicate CanGet<B(==)>(s: State<B>, g: Get<B>) {
    match g
    case Fresh(b) => b !in s.store
    case Pooled(i) => i < |s.pool|
  }

  /** The batch buffer is replaced; the old one is no longer anywhere until the caller puts it somewhere. */
  function Replaced<B(==)>(s: State<B>, g: Get<B>): State<B>
    requires CanGet(s, g)
  {
    match g
    case Fresh(b) => s.(batch := b, store := s.store[b := []])
    case Pooled(i) => s.(batch := s.pool[i], pool := Without(s.pool, i))
  }

  function At<B(==)>(store: map<B, seq<Metric>>, b: B): seq<Metric> {
    if b in store then store[b] else []
  }

  function Appended<B(==)>(s: State<B>, m: Metric): State<B> {
    s.(store := s.store[s.batch := At(s.store, s.batch) + [m]], emitted := s.emitted + [m],
       late := if FinalTaken(s.phase) then s.late + 1 else s.late)
  }

  predicate FinalTaken<B>(p: Phase<B>) {
    match p
    case Looping => false
    case Pushing(_, last) => last
    case PushingNil(last) => last
    case Stopped => true
  }

  // ----- steps

  /** One more metric makes a full batch. */
  predicate Full<B(==)>(s: State<B>) {
    |At(s.store, s.batch)| + 1 >= BATCH_SIZE
  }

  predicate Enabled<B(==)>(c: Config, s: State<B>, move: Move<B>) {
    match move
    case Emit(m, g) => Full(s) ==> CanGet(Appended(s, m), g)
    case Offer(i) => i < |s.hands| && !s.closed
    case Take(last, g) =>
      s.phase == Looping && (last ==> s.stopping) && (At(s.store, s.batch) != [] ==> CanGet(s, g))
    case Push => s.phase.Pushing? && |s.channel| < c.capacity
    case PushNil => s.phase.PushingNil? && |s.channel| < c.capacity
    case Stop => !s.stopping
    case CloseChannel => s.stopping && s.phase == Stopped && !s.closed
    case Receive(w) => w < |s.workers| && s.workers[w].task == Idle && s.channel != []
    case Pack(w) => w < |s.workers| && s.workers[w].task.Busy? && TaskLeft(s.store, s.workers[w].task) != []
    case Finish(w) => w < |s.workers| && s.workers[w].task.Busy? && TaskLeft(s.store, s.workers[w].task) == []
    case Exit(w) => w < |s.workers| && s.workers[w].task == Idle && s.channel == [] && s.closed
    case Forget(i) => i < |s.pool|
  }

  /** The metrics of its batch a worker has not taken up yet. */
  function TaskLeft<B(==)>(store: map<B, seq<Metric>>, task: Task<B>): seq<Metric> {
    if task.Busy? && task.next <= |At(store, task.buffer)| then At(store, task.buffer)[task.next..] else []
  }

  function EmitStep<B(==)>(s: State<B>, m: Metric, g: Get<B>): State<B>
    requires Full(s) ==> CanGet(Appended(s, m), g)
  {
    if Full(s) then Replaced(Appended(s, m), g).(hands := s.hands + [s.batch]) else Appended(s, m)
  }

  function OfferStep<B>(c: Config, s: State<B>, i: nat): State<B>
    requires i < |s.hands|
  {
    var s' := s.(hands := Without(s.hands, i));
    if |s.channel| < c.capacity then s'.(channel := s.channel + [Some(s.hands[i])])
    else s'.(dropped := s.dropped + [s.hands[i]], bufferFull := s.bufferFull + 1)
  }

  function TakeStep<B(==)>(s: State<B>, last: bool, g: Get<B>): State<B>
    requires At(s.store, s.batch) != [] ==> CanGet(s, g)
  {
    if At(s.store, s.batch) != [] then Replaced(s, g).(phase := Pushing(s.batch, last))
    else s.(phase := PushingNil(last))
  }

  function ReceiveStep<B>(s: State<B>, w: nat): State<B>
    requires w < |s.workers| && s.channel != []
  {
    var worker := s.workers[w];
    var worker' := match s.channel[0]
      case None => worker.(history := worker.history + [Batching.Tick])
      case Some(b) => worker.(task := Busy(b, 0));
    s.(channel := s.channel[1..], workers := s.workers[w := worker'])
  }

  function PackStep<B(==)>(prefix: Bytes, s: State<B>, w: nat): State<B>
    requires w < |s.workers| && TaskLeft(s.store, s.workers[w].task) != []
  {
    var worker := s.workers[w];
    var m := TaskLeft(s.store, worker.task)[0];
    var worker' := WorkerState(worker.task.(next := worker.task.next + 1), worker.took + [m],
                               worker.history + [EventOf(prefix, m)]);
    s.(workers := s.workers[w := worker'], formatError := s.formatError + (if Formats(prefix, m) then 0 else 1))
  }

  function FinishStep<B(==)>(s: State<B>, w: nat): State<B>
    requires w < |s.workers| && s.workers[w].task.Busy?
  {
    var b := s.workers[w].task.buffer;
    s.(store := s.store[b := []], pool := s.pool + [b], workers := s.workers[w := s.workers[w].(task := Idle)])
  }

  function ExitStep<B>(s: State<B>, w: nat): State<B>
    requires w < |s.workers|
  {
    var worker := s.workers[w];
    s.(workers := s.workers[w := WorkerState(Exited, worker.took, worker.history + [Batching.Tick])])
  }

  function Apply<B(==)>(c: Config, s: State<B>, move: Move<B>): State<B>
    requires Enabled(c, s, move)
  {
    match move
    case Emit(m, g) => EmitStep(s, m, g)
    case Offer(i) => OfferStep(c, s, i)
    case Take(last, g) => TakeStep(s, last, g)
    case Push => s.(phase := PushingNil(s.phase.last), channel := s.channel + [Some(s.phase.buffer)])
    case PushNil => s.(phase := if s.phase.last then Stopped else Looping, channel := s.channel + [None])
    case Stop => s.(stopping := true)
    case CloseChannel => s.(closed := true)
    case Receive(w) => ReceiveStep(s, w)
    case Pack(w) => PackStep(c.prefix, s, w)
    case Finish(w) => FinishStep(s, w)
    case Exit(w) => ExitStep(s, w)
    case Forget(i) => s.(pool := Without(s.pool, i))
  }

  function IdleWorkers<B>(n: nat): seq<WorkerState<B>> {
    if n == 0 then [] else IdleWorkers(n - 1) + [WorkerState(Idle, [], [])]
  }

  /** A client just started, with `n` workers. */
  function Init<B(==)>(first: B, n: nat): State<B> {
    State(map[first := []], first, [], Looping, [], IdleWorkers(n), [], [], [], 0, 0, false, false, 0)
  }

  /** The state a run of moves leads to, if each is enabled when its turn comes. */
  function Run<B(==)>(c: Config, s: State<B>, moves: seq<Move<B>>): Option<State<B>> {
    if moves == [] then Some(s)
    else
      var before, move := Run(c, s, moves[..|moves| - 1]), moves[|moves| - 1];
      if before.Some? && Enabled(c, before.value, move) then Some(Apply(c, before.value, move)) else None
  }

  // ----- weights

  /** The weight of the buffer a phase holds. */
  function InPhase<B>(p: Phase<B>, h: B -> nat): nat {
    if p.Pushing? then h(p.buffer) else 0
  }

  function Queued<B>(h: B -> nat): Option<B> -> nat {
    (m: Option<B>) => if m.Some? then h(m.value) else 0
  }

  function AtWork<B>(h: B -> nat, task: Task<B>): nat {
    if task.Busy? then h(task.buffer) else 0
  }

  function Working<B>(h: B -> nat): WorkerState<B> -> nat {
    (w: WorkerState<B>) => AtWork(h, w.task)
  }

  /** The weight of the buffers in an emitter's or the flusher's hands or in the channel. */
  function Waiting<B>(s: State<B>, h: B -> nat): nat {
    Total(s.hands, h) + InPhase(s.phase, h) + Total(s.channel, Queued(h))
  }

  /** The weight of all buffers that have an owner, once per owner. */
  function Owned<B>(s: State<B>, h: B -> nat): nat {
    h(s.batch) + Waiting(s, h) + Total(s.workers, Working(h)) + Total(s.dropped, h) + Total(s.pool, h)
  }

  function Is<B(==)>(b: B): B -> nat {
    (x: B) => if x == b then 1 else 0
  }

  function Unknown<B(==)>(store: map<B, seq<Metric>>): B -> nat {
    (x: B) => if x in store then 0 else 1
  }

  /** Every owned buffer is known and has exactly one owner. */
  predicate OneOwner<B(==)>(s: State<B>) {
    && Owned(s, Unknown(s.store)) == 0
    && forall b | b in s.store :: Owned(s, Is(b)) <= 1
  }

  /** The new buffer a move takes into use. */
  function Brought<B(==)>(s: State<B>, move: Move<B>, h: B -> nat): nat {
    match move
    case Emit(m, Fresh(b)) => if Full(s) then h(b) else 0
    case Take(_, Fresh(b)) => if At(s.store, s.batch) != [] then h(b) else 0
    case _ => 0
  }

  lemma ReplacedOwned<B>(s: State<B>, g: Get<B>, h: B -> nat)
    requires CanGet(s, g)
    ensures Waiting(Replaced(s, g), h) == Waiting(s, h)
    ensures Owned(Replaced(s, g), h) + h(s.batch) == Owned(s, h) + (if g.Fresh? then h(g.buffer) else 0)
  {
    hide Total;
    if g.Pooled? {
      TotalWithout(s.pool, g.i, h);
    }
  }

  lemma EmitOwned<B>(s: State<B>, m: Metric, g: Get<B>, h: B -> nat)
    requires Full(s) ==> CanGet(Appended(s, m), g)
    ensures Owned(EmitStep(s, m, g), h) == Owned(s, h) + Brought(s, Emit(m, g), h)
  {
    hide Total;
    if Full(s) {
      ReplacedOwned(Appended(s, m), g, h);
      TotalSnoc(s.hands, s.batch, h);
    }
  }

  lemma TakeOwned<B>(s: State<B>, last: bool, g: Get<B>, h: B -> nat)
    requires s.phase == Looping && (At(s.store, s.batch) != [] ==> CanGet(s, g))
    ensures Owned(TakeStep(s, last, g), h) == Owned(s, h) + Brought(s, Take(last, g), h)
  {
    hide Total;
    if At(s.store, s.batch) != [] {
      ReplacedOwned(s, g, h);
    }
  }

  lemma OfferOwned<B>(c: Config, s: State<B>, i: nat, h: B -> nat)
    requires i < |s.hands|
    ensures Owned(OfferStep(c, s, i), h) == Owned(s, h)
  {
    hide Total;
    TotalWithout(s.hands, i, h);
    TotalSnoc(s.channel, Some(s.hands[i]), Queued(h));
    TotalSnoc(s.dropped, s.hands[i], h);
  }

  lemma PushOwned<B>(s: State<B>, next: Phase<B>, h: B -> nat)
    requires !next.Pushing? && (s.phase.Pushing? || s.phase.PushingNil?)
    ensures var m := if s.phase.Pushing? then Some(s.phase.buffer) else None;
            Owned(s.(phase := next, channel := s.channel + [m]), h) == Owned(s, h)
  {
    hide Total;
    TotalSnoc(s.channel, if s.phase.Pushing? then Some(s.phase.buffer) else None, Queued(h));
  }

  lemma ReceiveOwned<B>(s: State<B>, w: nat, h: B -> nat)
    requires w < |s.workers| && s.channel != [] && s.workers[w].task == Idle
    ensures Owned(ReceiveStep(s, w), h) == Owned(s, h)
  {
    hide Total;
    TotalTail(s.channel, Queued(h));
    TotalUpdate(s.workers, w, ReceiveStep(s, w).workers[w], Working(h));
  }

  lemma FinishOwned<B>(s: State<B>, w: nat, h: B -> nat)
    requires w < |s.workers| && s.workers[w].task.Busy?
    ensures Owned(FinishStep(s, w), h) == Owned(s, h)
  {
    hide Total;
    TotalUpdate(s.workers, w, s.workers[w].(task := Idle), Working(h));
    TotalSnoc(s.pool, s.workers[w].task.buffer, h);
  }

  lemma WorkerOwned<B>(s: State<B>, w: nat, worker: WorkerState<B>, h: B -> nat)
    requires w < |s.workers| && Working(h)(worker) == Working(h)(s.workers[w])
    ensures Owned(s.(workers := s.workers[w := worker]), h) == Owned(s, h)
  {
    hide Total;
    TotalUpdate(s.workers, w, worker, Working(h));
  }

  lemma PackOwned<B>(prefix: Bytes, s: State<B>, w: nat, h: B -> nat)
    requires w < |s.workers| && TaskLeft(s.store, s.workers[w].task) != []
    ensures Owned(PackStep(prefix, s, w), h) == Owned(s, h)
  {
    hide Total, EventOf, Formats;
    TotalUpdate(s.workers, w, PackStep(prefix, s, w).workers[w], Working(h));
  }

  lemma ForgetOwned<B>(s: State<B>, i: nat, h: B -> nat)
    requires i < |s.pool|
    ensures Owned(s.(pool := Without(s.pool, i)), h) <= Owned(s, h)
  {
    hide Total;
    TotalWithout(s.pool, i, h);
  }

  /** A move hands buffers on, takes a new one into use, or forgets one: it never gives a buffer a second owner. */
  lemma MoveOwned<B>(c: Config, s: State<B>, move: Move<B>, h: B -> nat)
    requires Enabled(c, s, move)
    ensures Owned(Apply(c, s, move), h) <= Owned(s, h) + Brought(s, move, h)
  {
    hide Total, Owned, Full, TaskLeft, Replaced, Appended;
    match move
    case Emit(m, g) => EmitOwned(s, m, g, h);
    case Offer(i) => OfferOwned(c, s, i, h);
    case Take(last, g) => TakeOwned(s, last, g, h);
    case Push => PushOwned(s, PushingNil(s.phase.last), h);
    case PushNil => PushOwned(s, if s.phase.last then Stopped else Looping, h);
    case Stop => SameOwned(s, s.(stopping := true), h);
    case CloseChannel => SameOwned(s, s.(closed := true), h);
    case Receive(w) => ReceiveOwned(s, w, h);
    case Pack(w) => PackOwned(c.prefix, s, w, h);
    case Finish(w) => FinishOwned(s, w, h);
    case Exit(w) => WorkerOwned(s, w, ExitStep(s, w).workers[w], h);
    case Forget(i) => ForgetOwned(s, i, h);
  }

  lemma SameOwned<B>(s: State<B>, t: State<B>, h: B -> nat)
    requires s.batch == t.batch && s.hands == t.hands && s.phase == t.phase && s.channel == t.channel
    requires s.workers == t.workers && s.pool == t.pool && s.dropped == t.dropped
    ensures Owned(t, h) == Owned(s, h)
  {
  }

  lemma OwnedAtMost<B>(s: State<B>, f: B -> nat, g: B -> nat)
    requires forall x: B :: f(x) <= g(x)
    ensures Owned(s, f) <= Owned(s, g)
  {
    hide Total;
    TotalAtMost(s.hands, f, g);
    TotalAtMost(s.channel, Queued(f), Queued(g));
    TotalAtMost(s.workers, Working(f), Working(g));
    TotalAtMost(s.dropped, f, g);
    TotalAtMost(s.pool, f, g);
  }

  lemma Known<B>(s: State<B>)
    requires OneOwner(s)
    ensures s.batch in s.store
    ensures forall w | 0 <= w < |s.workers| && s.workers[w].task.Busy? :: s.workers[w].task.buffer in s.store
  {
    forall w | 0 <= w < |s.workers| && s.workers[w].task.Busy? ensures s.workers[w].task.buffer in s.store {
      TotalMember(s.workers, w, Working(Unknown(s.store)));
    }
  }

  /** Only the buffer a move brings is new to the store. */
  lemma NewKeys<B>(c: Config, s: State<B>, move: Move<B>)
    requires OneOwner(s) && Enabled(c, s, move)
    ensures s.store.Keys <= Apply(c, s, move).store.Keys
    ensures forall b | b in Apply(c, s, move).store && b !in s.store :: Brought(s, move, Is(b)) == 1
    ensures forall b | b in s.store :: Brought(s, move, Is(b)) == 0
    ensures Brought(s, move, Unknown(Apply(c, s, move).store)) == 0
  {
    hide Total, OneOwner, Owned, TaskLeft, EventOf, Formats;
    Known(s);
  }

  lemma MoveOneOwner<B>(c: Config, s: State<B>, move: Move<B>)
    requires OneOwner(s) && Enabled(c, s, move)
    ensures OneOwner(Apply(c, s, move))
  {
    hide Owned, Apply, Enabled, Brought;
    var t := Apply(c, s, move);
    NewKeys(c, s, move);
    OwnedAtMost(s, Unknown(t.store), Unknown(s.store));
    MoveOwned(c, s, move, Unknown(t.store));
    forall b | b in t.store ensures Owned(t, Is(b)) <= 1 {
      MoveOwned(c, s, move, Is(b));
      if b !in s.store {
        OwnedAtMost(s, Is(b), Unknown(s.store));
      }
    }
  }

  // ----- contents

  /** A weight of buffers that looks only at what they contain. */
  function Of<B(==)>(store: map<B, seq<Metric>>, q: seq<Metric> -> nat): B -> nat {
    (b: B) => q(At(store, b))
  }

  function LeftOf<B(==)>(store: map<B, seq<Metric>>, q: seq<Metric> -> nat): WorkerState<B> -> nat {
    (w: WorkerState<B>) => q(TaskLeft(store, w.task))
  }

  lemma OtherBuffer<B>(store: map<B, seq<Metric>>, k: B, x: seq<Metric>, b: B)
    requires Is(k)(b) == 0
    ensures At(store[k := x], b) == At(store, b)
  {
    assert b != k;
  }

  lemma TotalFrame<B>(xs: seq<B>, store: map<B, seq<Metric>>, k: B, x: seq<Metric>, q: seq<Metric> -> nat)
    requires Total(xs, Is(k)) == 0
    ensures Total(xs, Of(store[k := x], q)) == Total(xs, Of(store, q))
  {
    hide Total;
    forall i | 0 <= i < |xs| ensures Of(store[k := x], q)(xs[i]) == Of(store, q)(xs[i]) {
      TotalMember(xs, i, Is(k));
      OtherBuffer(store, k, x, xs[i]);
    }
    TotalSame(xs, Of(store[k := x], q), Of(store, q));
  }

  lemma WaitingFrame<B>(s: State<B>, k: B, x: seq<Metric>, q: seq<Metric> -> nat)
    requires Waiting(s, Is(k)) == 0
    ensures Waiting(s, Of(s.store[k := x], q)) == Waiting(s, Of(s.store, q))
  {
    hide Total;
    var f, g := Queued(Of(s.store[k := x], q)), Queued(Of(s.store, q));
    forall i | 0 <= i < |s.channel| ensures f(s.channel[i]) == g(s.channel[i]) {
      TotalMember(s.channel, i, Queued(Is(k)));
      if s.channel[i].Some? {
        OtherBuffer(s.store, k, x, s.channel[i].value);
      }
    }
    if s.phase.Pushing? {
      OtherBuffer(s.store, k, x, s.phase.buffer);
    }
    TotalSame(s.channel, f, g);
    TotalFrame(s.hands, s.store, k, x, q);
  }

  lemma LeftFrame<B>(s: State<B>, k: B, x: seq<Metric>, q: seq<Metric> -> nat)
    requires Total(s.workers, Working(Is(k))) == 0
    ensures Total(s.workers, LeftOf(s.store[k := x], q)) == Total(s.workers, LeftOf(s.store, q))
  {
    hide Total;
    var f, g := LeftOf(s.store[k := x], q), LeftOf(s.store, q);
    forall i | 0 <= i < |s.workers| ensures f(s.workers[i]) == g(s.workers[i]) {
      TotalMember(s.workers, i, Working(Is(k)));
      if s.workers[i].task.Busy? {
        assert Working(Is(k))(s.workers[i]) == Is(k)(s.workers[i].task.buffer);
        OtherBuffer(s.store, k, x, s.workers[i].task.buffer);
      }
      assert TaskLeft(s.store[k := x], s.workers[i].task) == TaskLeft(s.store, s.workers[i].task);
    }
    TotalSame(s.workers, f, g);
  }

  /** What a buffer contains does not matter to the places that do not hold it. */
  lemma Elsewhere<B>(s: State<B>, k: B, x: seq<Metric>, q: seq<Metric> -> nat)
    requires Waiting(s, Is(k)) == 0 && Total(s.workers, Working(Is(k))) == 0 && Total(s.dropped, Is(k)) == 0
    ensures Waiting(s, Of(s.store[k := x], q)) == Waiting(s, Of(s.store, q))
    ensures Total(s.hands, Of(s.store[k := x], q)) == Total(s.hands, Of(s.store, q))
    ensures Total(s.dropped, Of(s.store[k := x], q)) == Total(s.dropped, Of(s.store, q))
    ensures Total(s.workers, LeftOf(s.store[k := x], q)) == Total(s.workers, LeftOf(s.store, q))
  {
    hide Of, LeftOf, Total;
    WaitingFrame(s, k, x, q);
    TotalFrame(s.hands, s.store, k, x, q);
    TotalFrame(s.dropped, s.store, k, x, q);
    LeftFrame(s, k, x, q);
  }

  lemma SoleBatch<B>(s: State<B>)
    requires OneOwner(s)
    ensures var h := Is(s.batch);
            && Waiting(s, h) == 0 && Total(s.workers, Working(h)) == 0 && Total(s.dropped, h) == 0
            && Total(s.pool, h) == 0
  {
    hide Total, Waiting;
    Known(s);
    assert Owned(s, Is(s.batch)) <= 1;
  }

  lemma SoleTask<B>(s: State<B>, w: nat)
    requires OneOwner(s) && w < |s.workers| && s.workers[w].task.Busy?
    ensures var h := Is(s.workers[w].task.buffer);
            && h(s.batch) == 0 && Waiting(s, h) == 0 && Total(s.dropped, h) == 0 && Total(s.pool, h) == 0
            && Total(s.workers, Working(h)) == 1
  {
    hide Total, Waiting;
    Known(s);
    var b := s.workers[w].task.buffer;
    TotalMember(s.workers, w, Working(Is(b)));
    assert Working(Is(b))(s.workers[w]) == Is(b)(b);
    assert Owned(s, Is(b)) <= 1;
  }

  lemma Unowned<B>(s: State<B>, b: B)
    requires OneOwner(s) && b !in s.store
    ensures Owned(s, Is(b)) == 0
  {
    hide Total, Waiting, Owned;
    OwnedAtMost(s, Is(b), Unknown(s.store));
  }

  /** 0 exactly for a full batch. */
  function OffSize(): seq<Metric> -> nat {
    (xs: seq<Metric>) => if |xs| == BATCH_SIZE then 0 else 1
  }

  function Size(): seq<Metric> -> nat {
    (xs: seq<Metric>) => |xs|
  }

  /** The shared batch is never full; full batches stay full until sent or dropped; pooled buffers are empty. */
  predicate Sizes<B(==)>(s: State<B>) {
    && |At(s.store, s.batch)| < BATCH_SIZE
    && Total(s.hands, Of(s.store, OffSize())) == 0
    && Total(s.dropped, Of(s.store, OffSize())) == 0
    && |s.dropped| == s.bufferFull
    && Total(s.pool, Of(s.store, Size())) == 0
  }

  function Weigh(g: Metric -> nat): seq<Metric> -> nat {
    (xs: seq<Metric>) => Total(xs, g)
  }

  function Took<B>(g: Metric -> nat): WorkerState<B> -> nat {
    (w: WorkerState<B>) => Total(w.took, g)
  }

  /** The weight of the metrics in buffers that are still to be taken up by a worker. */
  function Undelivered<B(==)>(s: State<B>, g: Metric -> nat): nat {
    Total(At(s.store, s.batch), g) + Waiting(s, Of(s.store, Weigh(g))) + Total(s.workers, LeftOf(s.store, Weigh(g)))
  }

  /** Whatever metrics weigh: all that were emitted are undelivered, taken up by a worker, or dropped. */
  predicate Conserved<B(==)>(s: State<B>, g: Metric -> nat) {
    Total(s.emitted, g)
    == Undelivered(s, g) + Total(s.workers, Took(g)) + Total(s.dropped, Of(s.store, Weigh(g)))
  }

  // ----- emitting

  lemma AppendedOneOwner<B>(s: State<B>, m: Metric)
    requires OneOwner(s)
    ensures OneOwner(Appended(s, m))
  {
    hide Owned;
    Known(s);
    var t := Appended(s, m);
    OwnedAtMost(s, Unknown(t.store), Unknown(s.store));
    SameOwned(s, t, Unknown(t.store));
    forall b | b in t.store ensures Owned(t, Is(b)) <= 1 {
      SameOwned(s, t, Is(b));
    }
  }

  lemma AppendedKeeps<B>(s: State<B>, m: Metric, g: Metric -> nat)
    requires OneOwner(s) && Conserved(s, g)
    ensures Conserved(Appended(s, m), g)
  {
    hide Total, Of, LeftOf;
    SoleBatch(s);
    Elsewhere(s, s.batch, At(s.store, s.batch) + [m], Weigh(g));
    TotalSnoc(At(s.store, s.batch), m, g);
    TotalSnoc(s.emitted, m, g);
  }

  lemma AppendedSizes<B>(s: State<B>, m: Metric)
    requires OneOwner(s) && Sizes(s)
    ensures var t := Appended(s, m);
            && |At(t.store, t.batch)| == |At(s.store, s.batch)| + 1
            && Total(t.hands, Of(t.store, OffSize())) == 0
            && Total(t.dropped, Of(t.store, OffSize())) == 0
            && Total(t.pool, Of(t.store, Size())) == 0
  {
    hide Total, Waiting, Of, LeftOf;
    SoleBatch(s);
    Elsewhere(s, s.batch, At(s.store, s.batch) + [m], OffSize());
    TotalFrame(s.pool, s.store, s.batch, At(s.store, s.batch) + [m], Size());
  }

  /** A new batch buffer is empty, and the other places do not notice. */
  lemma ReplacedParts<B>(s: State<B>, g: Get<B>, q: seq<Metric> -> nat)
    requires OneOwner(s) && CanGet(s, g)
    ensures var t := Replaced(s, g);
            && Waiting(t, Of(t.store, q)) == Waiting(s, Of(s.store, q))
            && Total(t.hands, Of(t.store, q)) == Total(s.hands, Of(s.store, q))
            && Total(t.dropped, Of(t.store, q)) == Total(s.dropped, Of(s.store, q))
            && Total(t.workers, LeftOf(t.store, q)) == Total(s.workers, LeftOf(s.store, q))
            && At(t.store, s.batch) == At(s.store, s.batch)
  {
    hide Total, Of, LeftOf;
    Known(s);
    if g.Fresh? {
      Unowned(s, g.buffer);
      Elsewhere(s, g.buffer, [], q);
    }
  }

  lemma ReplacedPool<B>(s: State<B>, g: Get<B>)
    requires OneOwner(s) && CanGet(s, g) && Total(s.pool, Of(s.store, Size())) == 0
    ensures var t := Replaced(s, g); At(t.store, t.batch) == [] && Total(t.pool, Of(t.store, Size())) == 0
  {
    hide Total;
    if g.Fresh? {
      Unowned(s, g.buffer);
      TotalFrame(s.pool, s.store, g.buffer, [], Size());
    } else {
      TotalMember(s.pool, g.i, Of(s.store, Size()));
      assert Of(s.store, Size())(s.pool[g.i]) == |At(s.store, s.pool[g.i])|;
      TotalWithout(s.pool, g.i, Of(s.store, Size()));
    }
  }

  lemma EmitKeeps<B>(s: State<B>, m: Metric, g: Get<B>, weight: Metric -> nat)
    requires OneOwner(s) && Sizes(s) && Conserved(s, weight) && (Full(s) ==> CanGet(Appended(s, m), g))
    ensures Conserved(EmitStep(s, m, g), weight)
  {
    hide Total, LeftOf, OneOwner;
    var a := Appended(s, m);
    AppendedOneOwner(s, m);
    AppendedKeeps(s, m, weight);
    if Full(s) {
      var t := EmitStep(s, m, g);
      AppendedSizes(s, m);
      ReplacedParts(a, g, Weigh(weight));
      ReplacedPool(a, g);
      TotalSnoc(s.hands, s.batch, Of(t.store, Weigh(weight)));
      EmptyWeighsNothing(weight);
    }
  }

  lemma EmptyWeighsNothing(g: Metric -> nat)
    ensures Total([], g) == 0
  {
  }

  lemma EmitSizes<B>(s: State<B>, m: Metric, g: Get<B>)
    requires OneOwner(s) && Sizes(s) && (Full(s) ==> CanGet(Appended(s, m), g))
    ensures Sizes(EmitStep(s, m, g))
  {
    hide Total, LeftOf, OneOwner;
    var a := Appended(s, m);
    AppendedOneOwner(s, m);
    AppendedSizes(s, m);
    if Full(s) {
      var t := EmitStep(s, m, g);
      ReplacedParts(a, g, OffSize());
      ReplacedPool(a, g);
      TotalSnoc(s.hands, s.batch, Of(t.store, OffSize()));
      assert Of(t.store, OffSize())(s.batch) == 0;
    }
  }

  // ----- handing batches on

  lemma OfferKeeps<B>(c: Config, s: State<B>, i: nat, weight: Metric -> nat)
    requires i < |s.hands| && Conserved(s, weight)
    ensures Conserved(OfferStep(c, s, i), weight)
  {
    hide Total, LeftOf;
    var h := Of(s.store, Weigh(weight));
    TotalWithout(s.hands, i, h);
    TotalSnoc(s.channel, Some(s.hands[i]), Queued(h));
    TotalSnoc(s.dropped, s.hands[i], h);
  }

  lemma OfferSizes<B>(c: Config, s: State<B>, i: nat)
    requires i < |s.hands| && Sizes(s)
    ensures Sizes(OfferStep(c, s, i))
  {
    hide Total;
    var h := Of(s.store, OffSize());
    TotalWithout(s.hands, i, h);
    TotalMember(s.hands, i, h);
    TotalSnoc(s.dropped, s.hands[i], h);
  }

  lemma TakeKeeps<B>(s: State<B>, last: bool, g: Get<B>, weight: Metric -> nat)
    requires OneOwner(s) && Sizes(s) && Conserved(s, weight)
    requires s.phase == Looping && (At(s.store, s.batch) != [] ==> CanGet(s, g))
    ensures Conserved(TakeStep(s, last, g), weight)
  {
    hide Total, LeftOf, OneOwner;
    if At(s.store, s.batch) != [] {
      ReplacedParts(s, g, Weigh(weight));
      ReplacedPool(s, g);
      EmptyWeighsNothing(weight);
    }
  }

  lemma TakeSizes<B>(s: State<B>, last: bool, g: Get<B>)
    requires OneOwner(s) && Sizes(s)
    requires s.phase == Looping && (At(s.store, s.batch) != [] ==> CanGet(s, g))
    ensures Sizes(TakeStep(s, last, g))
    ensures var t := TakeStep(s, last, g); At(t.store, t.batch) == []
  {
    hide Total, LeftOf, OneOwner, Of;
    if At(s.store, s.batch) != [] {
      ReplacedParts(s, g, OffSize());
      ReplacedPool(s, g);
    }
  }

  lemma PushKeeps<B>(s: State<B>, next: Phase<B>, weight: Metric -> nat)
    requires !next.Pushing? && (s.phase.Pushing? || s.phase.PushingNil?) && Conserved(s, weight)
    ensures var m := if s.phase.Pushing? then Some(s.phase.buffer) else None;
            Conserved(s.(phase := next, channel := s.channel + [m]), weight)
  {
    hide Total, LeftOf;
    var m := if s.phase.Pushing? then Some(s.phase.buffer) else None;
    TotalSnoc(s.channel, m, Queued(Of(s.store, Weigh(weight))));
  }

  // ----- workers

  lemma ReceiveKeeps<B>(s: State<B>, w: nat, weight: Metric -> nat)
    requires w < |s.workers| && s.channel != [] && s.workers[w].task == Idle && Conserved(s, weight)
    ensures Conserved(ReceiveStep(s, w), weight)
  {
    hide Total;
    var worker := ReceiveStep(s, w).workers[w];
    TotalTail(s.channel, Queued(Of(s.store, Weigh(weight))));
    TotalUpdate(s.workers, w, worker, LeftOf(s.store, Weigh(weight)));
    TotalUpdate(s.workers, w, worker, Took(weight));
    EmptyWeighsNothing(weight);
    assert LeftOf(s.store, Weigh(weight))(s.workers[w]) == Total(TaskLeft(s.store, Idle), weight);
    assert LeftOf(s.store, Weigh(weight))(worker) == Total(TaskLeft(s.store, worker.task), weight);
    if s.channel[0].Some? {
      assert TaskLeft(s.store, worker.task) == At(s.store, s.channel[0].value);
    }
  }

  lemma PackKeeps<B>(prefix: Bytes, s: State<B>, w: nat, weight: Metric -> nat)
    requires w < |s.workers| && TaskLeft(s.store, s.workers[w].task) != [] && Conserved(s, weight)
    ensures Conserved(PackStep(prefix, s, w), weight)
  {
    hide Total, EventOf, Formats;
    var before, worker := s.workers[w], PackStep(prefix, s, w).workers[w];
    var left := TaskLeft(s.store, before.task);
    TotalUpdate(s.workers, w, worker, LeftOf(s.store, Weigh(weight)));
    TotalUpdate(s.workers, w, worker, Took(weight));
    TotalTail(left, weight);
    TotalSnoc(before.took, left[0], weight);
    assert TaskLeft(s.store, worker.task) == left[1..];
    assert LeftOf(s.store, Weigh(weight))(worker) == Total(left[1..], weight);
    assert LeftOf(s.store, Weigh(weight))(before) == Total(left, weight);
    assert Took(weight)(worker) == Total(before.took + [left[0]], weight);
  }

  /** A worker without metrics left may forget its task. */
  lemma IdleKeeps<B>(s: State<B>, w: nat, weight: Metric -> nat)
    requires w < |s.workers| && TaskLeft(s.store, s.workers[w].task) == [] && Conserved(s, weight)
    ensures Conserved(s.(workers := s.workers[w := s.workers[w].(task := Idle)]), weight)
  {
    hide Total;
    var before, worker := s.workers[w], s.workers[w].(task := Idle);
    TotalUpdate(s.workers, w, worker, LeftOf(s.store, Weigh(weight)));
    TotalUpdate(s.workers, w, worker, Took(weight));
    assert LeftOf(s.store, Weigh(weight))(before) == Total(TaskLeft(s.store, before.task), weight);
    assert LeftOf(s.store, Weigh(weight))(worker) == Total(TaskLeft(s.store, worker.task), weight);
    assert TaskLeft(s.store, before.task) == TaskLeft(s.store, worker.task);
    assert Took(weight)(worker) == Took(weight)(before);
  }

  lemma FinishKeeps<B>(s: State<B>, w: nat, weight: Metric -> nat)
    requires OneOwner(s) && Conserved(s, weight)
    requires w < |s.workers| && s.workers[w].task.Busy? && TaskLeft(s.store, s.workers[w].task) == []
    ensures Conserved(FinishStep(s, w), weight)
  {
    hide Total, LeftOf, Of, OneOwner;
    var b := s.workers[w].task.buffer;
    var t := s.(workers := s.workers[w := s.workers[w].(task := Idle)]);
    IdleKeeps(s, w, weight);
    SoleTask(s, w);
    TotalUpdate(s.workers, w, t.workers[w], Working(Is(b)));
    assert Working(Is(b))(s.workers[w]) == 1;
    Elsewhere(t, b, [], Weigh(weight));
  }

  lemma FinishSizes<B>(s: State<B>, w: nat)
    requires OneOwner(s) && Sizes(s) && w < |s.workers| && s.workers[w].task.Busy?
    ensures Sizes(FinishStep(s, w))
  {
    hide Total, LeftOf, OneOwner, Waiting;
    var b := s.workers[w].task.buffer;
    SoleTask(s, w);
    OtherBuffer(s.store, b, [], s.batch);
    TotalFrame(s.pool, s.store, b, [], Size());
    TotalSnoc(s.pool, b, Of(s.store[b := []], Size()));
    assert Of(s.store[b := []], Size())(b) == |At(s.store[b := []], b)|;
    TotalFrame(s.dropped, s.store, b, [], OffSize());
    HandsNotIn(s, b);
    TotalFrame(s.hands, s.store, b, [], OffSize());
  }

  lemma HandsNotIn<B>(s: State<B>, b: B)
    requires Waiting(s, Is(b)) == 0
    ensures Total(s.hands, Is(b)) == 0
  {
  }

  lemma ExitKeeps<B>(s: State<B>, w: nat, weight: Metric -> nat)
    requires w < |s.workers| && s.workers[w].task == Idle && Conserved(s, weight)
    ensures Conserved(ExitStep(s, w), weight)
  {
    hide Total;
    var before, worker := s.workers[w], ExitStep(s, w).workers[w];
    TotalUpdate(s.workers, w, worker, LeftOf(s.store, Weigh(weight)));
    TotalUpdate(s.workers, w, worker, Took(weight));
    assert LeftOf(s.store, Weigh(weight))(before) == Total(TaskLeft(s.store, before.task), weight);
    assert LeftOf(s.store, Weigh(weight))(worker) == Total(TaskLeft(s.store, worker.task), weight);
    assert TaskLeft(s.store, before.task) == TaskLeft(s.store, worker.task);
    assert Took(weight)(worker) == Took(weight)(before);
  }

  lemma SameConserved<B>(s: State<B>, t: State<B>, weight: Metric -> nat)
    requires s.batch == t.batch && s.hands == t.hands && s.phase == t.phase && s.channel == t.channel
    requires s.workers == t.workers && s.dropped == t.dropped && s.store == t.store && s.emitted == t.emitted
    ensures Conserved(t, weight) == Conserved(s, weight)
  {
  }

  /** No move loses or duplicates a metric. */
  lemma MoveConserved<B>(c: Config, s: State<B>, move: Move<B>, weight: Metric -> nat)
    requires OneOwner(s) && Sizes(s) && Conserved(s, weight) && Enabled(c, s, move)
    ensures Conserved(Apply(c, s, move), weight)
  {
    hide Total, OneOwner, Sizes, Conserved, Appended, Replaced, Full, TaskLeft;
    match move
    case Emit(m, g) => EmitKeeps(s, m, g, weight);
    case Offer(i) => OfferKeeps(c, s, i, weight);
    case Take(last, g) => TakeKeeps(s, last, g, weight);
    case Push => PushKeeps(s, PushingNil(s.phase.last), weight);
    case PushNil => PushKeeps(s, if s.phase.last then Stopped else Looping, weight);
    case Stop => SameConserved(s, s.(stopping := true), weight);
    case CloseChannel => SameConserved(s, s.(closed := true), weight);
    case Receive(w) => ReceiveKeeps(s, w, weight);
    case Pack(w) => PackKeeps(c.prefix, s, w, weight);
    case Finish(w) => FinishKeeps(s, w, weight);
    case Exit(w) => ExitKeeps(s, w, weight);
    case Forget(i) => SameConserved(s, s.(pool := Without(s.pool, i)), weight);
  }

  lemma SameSizes<B>(s: State<B>, t: State<B>)
    requires s.batch == t.batch && s.hands == t.hands && s.pool == t.pool && s.dropped == t.dropped
    requires s.store == t.store && s.bufferFull == t.bufferFull
    ensures Sizes(t) == Sizes(s)
  {
  }

  lemma ForgetSizes<B>(s: State<B>, i: nat)
    requires i < |s.pool| && Sizes(s)
    ensures Sizes(s.(pool := Without(s.pool, i)))
  {
    hide Total;
    TotalWithout(s.pool, i, Of(s.store, Size()));
  }

  lemma MoveSizes<B>(c: Config, s: State<B>, move: Move<B>)
    requires OneOwner(s) && Sizes(s) && Enabled(c, s, move)
    ensures Sizes(Apply(c, s, move))
  {
    hide Total, OneOwner, Sizes, Appended, Replaced, Full, TaskLeft, EventOf, Formats;
    match move
    case Emit(m, g) => EmitSizes(s, m, g);
    case Offer(i) => OfferSizes(c, s, i);
    case Take(last, g) => TakeSizes(s, last, g);
    case Finish(w) => FinishSizes(s, w);
    case Forget(i) => ForgetSizes(s, i);
    case _ => SameSizes(s, Apply(c, s, move));
  }
}
