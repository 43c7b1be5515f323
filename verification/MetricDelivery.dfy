/** What every run of the metrics client keeps, and what `Close` leaves behind. */
module MetricDelivery {
  import opened ByteStrings
  import opened MetricFormat
  import opened MetricPacker
  import opened MetricPipeline
  import opened Totals
  import Batching

  // ----- what the workers account for

  function FailureCount(prefix: Bytes, metrics: seq<Metric>): nat {
    if metrics == [] then 0
    else FailureCount(prefix, metrics[..|metrics| - 1]) + (if Formats(prefix, metrics[|metrics| - 1]) then 0 else 1)
  }

  lemma {:induction false} FitOrFail(prefix: Bytes, metrics: seq<Metric>)
    ensures |Fitting(prefix, metrics)| + FailureCount(prefix, metrics) == |metrics|
    decreases |metrics|
  {
    hide Formats;
    if metrics != [] {
      FitOrFail(prefix, metrics[..|metrics| - 1]);
    }
  }

  function Failures<B>(prefix: Bytes): WorkerState<B> -> nat {
    (w: WorkerState<B>) => FailureCount(prefix, w.took)
  }

  /** A worker put the records of exactly the metrics within the limits into its packets, in the order taken up. */
  predicate WorkerAccount<B>(prefix: Bytes, w: WorkerState<B>) {
    && (forall m | m in Fitting(prefix, w.took) :: Formats(prefix, m))
    && Batching.Accepted(w.history) == MetricRecords(prefix, Fitting(prefix, w.took))
    && (w.task.Exited? ==> Batching.Run(PACKETS, w.history).pending == [])
  }

  predicate Accounts<B>(prefix: Bytes, s: State<B>) {
    && (forall i | 0 <= i < |s.workers| :: WorkerAccount(prefix, s.workers[i]))
    && s.formatError == Total(s.workers, Failures(prefix))
  }

  lemma PackAccount<B>(prefix: Bytes, w: WorkerState<B>, next: Task<B>, m: Metric)
    requires WorkerAccount(prefix, w) && !next.Exited?
    ensures WorkerAccount(prefix, WorkerState(next, w.took + [m], w.history + [EventOf(prefix, m)]))
    ensures FailureCount(prefix, w.took + [m])
         == FailureCount(prefix, w.took) + (if Formats(prefix, m) then 0 else 1)
  {
    hide Formats, MetricRecord, MetricRecords, Fitting, Batching.Accepted;
    Batching.AcceptedSnoc(w.history, EventOf(prefix, m));
    FittingSnoc(prefix, w.took, m);
    FittingFormats(prefix, w.took + [m]);
    if Formats(prefix, m) {
      RecordsAppend(prefix, Fitting(prefix, w.took), [m]);
      OneMetric(prefix, m);
    } else {
      var fitting := Fitting(prefix, w.took);
      assert fitting + [] == fitting;
      assert Batching.Accepted(w.history) + [] == Batching.Accepted(w.history);
    }
    assert (w.took + [m])[..|w.took|] == w.took;
  }

  lemma FittingSnoc(prefix: Bytes, metrics: seq<Metric>, m: Metric)
    ensures Fitting(prefix, metrics + [m]) == Fitting(prefix, metrics) + (if Formats(prefix, m) then [m] else [])
  {
    assert (metrics + [m])[..|metrics|] == metrics;
  }

  /** Nil, and leaving the loop, send what is in the packet buffer. */
  lemma TickAccount<B>(prefix: Bytes, w: WorkerState<B>, next: Task<B>)
    requires WorkerAccount(prefix, w)
    ensures WorkerAccount(prefix, WorkerState(next, w.took, w.history + [Batching.Tick]))
  {
    hide Formats, MetricRecords, Fitting, Batching.Accepted;
    Batching.AcceptedSnoc(w.history, Batching.Tick);
    assert (w.history + [Batching.Tick])[..|w.history|] == w.history;
  }

  lemma UpdatedAccounts<B>(prefix: Bytes, s: State<B>, t: State<B>, w: nat, worker: WorkerState<B>)
    requires Accounts(prefix, s) && w < |s.workers| && t.workers == s.workers[w := worker]
    requires WorkerAccount(prefix, worker)
    requires t.formatError + FailureCount(prefix, s.workers[w].took)
          == s.formatError + FailureCount(prefix, worker.took)
    ensures Accounts(prefix, t)
  {
    hide Total, WorkerAccount;
    TotalUpdate(s.workers, w, worker, Failures(prefix));
  }

  lemma MoveAccounts<B>(c: Config, s: State<B>, move: Move<B>)
    requires Accounts(c.prefix, s) && Enabled(c, s, move)
    ensures Accounts(c.prefix, Apply(c, s, move))
  {
    hide Total, Formats, EventOf, Full, Accounts, WorkerAccount, FailureCount, TaskLeft, Appended, Replaced;
    var t := Apply(c, s, move);
    match move
    case Receive(w) =>
      AccountOf(c.prefix, s, w);
      if s.channel[0] == None {
        TickAccount(c.prefix, s.workers[w], s.workers[w].task);
      } else {
        RetaskAccount(c.prefix, s.workers[w], t.workers[w].task);
      }
      UpdatedAccounts(c.prefix, s, t, w, t.workers[w]);
    case Pack(w) =>
      AccountOf(c.prefix, s, w);
      PackAccount(c.prefix, s.workers[w], t.workers[w].task, TaskLeft(s.store, s.workers[w].task)[0]);
      UpdatedAccounts(c.prefix, s, t, w, t.workers[w]);
    case Finish(w) =>
      AccountOf(c.prefix, s, w);
      RetaskAccount(c.prefix, s.workers[w], t.workers[w].task);
      UpdatedAccounts(c.prefix, s, t, w, t.workers[w]);
    case Exit(w) =>
      AccountOf(c.prefix, s, w);
      TickAccount(c.prefix, s.workers[w], Exited);
      UpdatedAccounts(c.prefix, s, t, w, t.workers[w]);
    case Emit(m, g) =>
      EmitWorkers(s, m, g);
      SameAccounts(c.prefix, s, t);
    case Take(last, g) =>
      TakeWorkers(s, last, g);
      SameAccounts(c.prefix, s, t);
    case _ => SameAccounts(c.prefix, s, t);
  }

  lemma AccountOf<B>(prefix: Bytes, s: State<B>, w: nat)
    requires Accounts(prefix, s) && w < |s.workers|
    ensures WorkerAccount(prefix, s.workers[w])
  {
  }

  lemma RetaskAccount<B>(prefix: Bytes, w: WorkerState<B>, next: Task<B>)
    requires WorkerAccount(prefix, w) && !next.Exited?
    ensures WorkerAccount(prefix, w.(task := next))
  {
  }

  lemma SameAccounts<B>(prefix: Bytes, s: State<B>, t: State<B>)
    requires s.workers == t.workers && s.formatError == t.formatError
    ensures Accounts(prefix, t) == Accounts(prefix, s)
  {
  }

  lemma EmitWorkers<B>(s: State<B>, m: Metric, g: Get<B>)
    requires Full(s) ==> CanGet(Appended(s, m), g)
    ensures var t := EmitStep(s, m, g); t.workers == s.workers && t.formatError == s.formatError
  {
  }

  lemma TakeWorkers<B>(s: State<B>, last: bool, g: Get<B>)
    requires At(s.store, s.batch) != [] ==> CanGet(s, g)
    ensures var t := TakeStep(s, last, g); t.workers == s.workers && t.formatError == s.formatError
  {
  }

  // ----- the order of shutdown

  /** What remains in the shared batch after the final flush is what was emitted after it, less full batches. */
  predicate Phases<B(==)>(c: Config, s: State<B>) {
    && |s.channel| <= c.capacity
    && (s.closed ==> s.phase == Stopped && s.stopping)
    && (FinalTaken(s.phase) ==> s.stopping && |At(s.store, s.batch)| == s.late % BATCH_SIZE)
    && (!FinalTaken(s.phase) ==> s.late == 0)
    && forall i | 0 <= i < |s.workers| && s.workers[i].task.Exited? :: s.closed && s.channel == []
  }

  lemma EmitPhases<B>(c: Config, s: State<B>, m: Metric, g: Get<B>)
    requires OneOwner(s) && Sizes(s) && Phases(c, s) && (Full(s) ==> CanGet(Appended(s, m), g))
    ensures Phases(c, EmitStep(s, m, g))
  {
    hide Total, OneOwner, Waiting, Of;
    AppendedOneOwner(s, m);
    AppendedSizes(s, m);
    if Full(s) {
      ReplacedPool(Appended(s, m), g);
    }
  }

  lemma FinishPhases<B>(c: Config, s: State<B>, w: nat)
    requires OneOwner(s) && Phases(c, s) && w < |s.workers| && s.workers[w].task.Busy?
    ensures Phases(c, FinishStep(s, w))
  {
    hide Total, OneOwner, Waiting, Of;
    SoleTask(s, w);
    OtherBuffer(s.store, s.workers[w].task.buffer, [], s.batch);
  }

  lemma MovePhases<B>(c: Config, s: State<B>, move: Move<B>)
    requires OneOwner(s) && Sizes(s) && Phases(c, s) && Enabled(c, s, move)
    ensures Phases(c, Apply(c, s, move))
  {
    hide Total, OneOwner, Waiting, Of, EventOf, Formats, EmitStep, Sizes;
    match move
    case Emit(m, g) => EmitPhases(c, s, m, g);
    case Take(last, g) => TakeSizes(s, last, g);
    case Finish(w) => FinishPhases(c, s, w);
    case _ =>
  }

  // ----- all runs

  predicate Invariant<B(==)>(c: Config, s: State<B>) {
    OneOwner(s) && Sizes(s) && Accounts(c.prefix, s) && Phases(c, s)
  }

  lemma {:induction false} AllIdle<B>(n: nat)
    ensures forall i | 0 <= i < |IdleWorkers<B>(n)| :: IdleWorkers<B>(n)[i] == WorkerState(Idle, [], [])
  {
    if n > 0 {
      AllIdle<B>(n - 1);
    }
  }

  lemma {:induction false} InitTotals<B>(n: nat, f: WorkerState<B> -> nat)
    requires f(WorkerState(Idle, [], [])) == 0
    ensures Total(IdleWorkers<B>(n), f) == 0
  {
    if n > 0 {
      hide Total;
      InitTotals(n - 1, f);
      TotalSnoc(IdleWorkers<B>(n - 1), WorkerState(Idle, [], []), f);
    }
  }

  lemma InitInvariant<B>(c: Config, first: B, n: nat)
    ensures Invariant(c, Init(first, n))
  {
    hide IdleWorkers;
    var s := Init(first, n);
    InitTotals(n, Working(Unknown(s.store)));
    InitTotals(n, Working(Is(first)));
    InitTotals<B>(n, Failures(c.prefix));
    AllIdle<B>(n);
  }

  lemma InitConserved<B>(first: B, n: nat, weight: Metric -> nat)
    ensures Conserved(Init(first, n), weight)
  {
    hide IdleWorkers;
    var s := Init(first, n);
    assert LeftOf(s.store, Weigh(weight))(WorkerState(Idle, [], [])) == Total(TaskLeft(s.store, Idle), weight);
    InitTotals(n, LeftOf(s.store, Weigh(weight)));
    InitTotals<B>(n, Took(weight));
  }

  lemma MoveInvariant<B>(c: Config, s: State<B>, move: Move<B>)
    requires Invariant(c, s) && Enabled(c, s, move)
    ensures Invariant(c, Apply(c, s, move))
  {
    hide OneOwner, Sizes, Accounts, Phases, Enabled, Apply;
    MoveOneOwner(c, s, move);
    MoveSizes(c, s, move);
    MoveAccounts(c, s, move);
    MovePhases(c, s, move);
  }

  /**
   * In every state a run reaches: each buffer has one owner, pooled buffers are empty, every worker's packets account
   * for exactly the metrics within the limits it took up, and metrics are neither lost nor duplicated, whatever
   * they weigh.
   */
  lemma {:induction false} RunKeeps<B>(c: Config, first: B, n: nat, moves: seq<Move<B>>, s: State<B>,
                                       weight: Metric -> nat)
    requires Run(c, Init(first, n), moves) == Some(s)
    ensures Invariant(c, s) && Conserved(s, weight) && |s.workers| == n
    decreases |moves|
  {
    hide Invariant, Conserved, Enabled, Apply;
    if moves == [] {
      InitInvariant(c, first, n);
      InitConserved(first, n, weight);
      InitWorkers<B>(n);
    } else {
      var before := Run(c, Init(first, n), moves[..|moves| - 1]).value;
      var move := moves[|moves| - 1];
      RunKeeps(c, first, n, moves[..|moves| - 1], before, weight);
      InvariantParts(c, before);
      MoveInvariant(c, before, move);
      MoveConserved(c, before, move, weight);
      MoveWorkers(c, before, move);
    }
  }

  lemma InvariantParts<B>(c: Config, s: State<B>)
    requires Invariant(c, s)
    ensures OneOwner(s) && Sizes(s)
  {
  }

  lemma {:induction false} InitWorkers<B>(n: nat)
    ensures |IdleWorkers<B>(n)| == n
  {
    if n > 0 {
      InitWorkers<B>(n - 1);
    }
  }

  lemma MoveWorkers<B>(c: Config, s: State<B>, move: Move<B>)
    requires Enabled(c, s, move)
    ensures |Apply(c, s, move).workers| == |s.workers|
  {
    hide EventOf, Formats, TaskLeft;
  }

  // ----- counts

  function Each(): Metric -> nat {
    (m: Metric) => 1
  }

  /** How many metrics a worker took up that were within the limits. */
  function FitCount<B>(prefix: Bytes): WorkerState<B> -> nat {
    (w: WorkerState<B>) => |Fitting(prefix, w.took)|
  }

  lemma {:induction false} TookCounts<B>(prefix: Bytes, ws: seq<WorkerState<B>>)
    ensures Total(ws, Took(Each())) == Total(ws, FitCount(prefix)) + Total(ws, Failures(prefix))
    decreases |ws|
  {
    if ws != [] {
      var w := ws[|ws| - 1];
      TookCounts(prefix, ws[..|ws| - 1]);
      FitOrFail(prefix, w.took);
      TotalConstant(w.took, Each(), 1);
      hide Total, Fitting, FailureCount;
    }
  }

  lemma FullCounts<B>(xs: seq<B>, store: map<B, seq<Metric>>)
    requires Total(xs, Of(store, OffSize())) == 0
    ensures Total(xs, Of(store, Weigh(Each()))) == BATCH_SIZE * |xs|
  {
    hide Total;
    var h := Of(store, Weigh(Each()));
    forall i | 0 <= i < |xs| ensures h(xs[i]) == BATCH_SIZE {
      TotalMember(xs, i, Of(store, OffSize()));
      assert Of(store, OffSize())(xs[i]) == OffSize()(At(store, xs[i]));
      TotalConstant(At(store, xs[i]), Each(), 1);
    }
    TotalConstant(xs, h, BATCH_SIZE);
  }

  /**
   * Emitted = undelivered + formatted + format errors + 1000 for every batch the full channel refused, in every
   * state of every run.
   */
  lemma EmittedAccounted<B>(c: Config, first: B, n: nat, moves: seq<Move<B>>, s: State<B>)
    requires Run(c, Init(first, n), moves) == Some(s)
    ensures |s.emitted|
         == Undelivered(s, Each()) + Total(s.workers, FitCount(c.prefix)) + s.formatError + BATCH_SIZE * s.bufferFull
  {
    hide Total, OneOwner, Phases, Undelivered, Run;
    RunKeeps(c, first, n, moves, s, Each());
    TotalConstant(s.emitted, Each(), 1);
    TookCounts(c.prefix, s.workers);
    FullCounts(s.dropped, s.store);
  }

  // ----- closing

  predicate Closed<B>(s: State<B>) {
    s.closed && forall i | 0 <= i < |s.workers| :: s.workers[i].task.Exited?
  }

  /**
   * Once `Close` has returned and no emitter is between its two steps, nothing is in the channel, with the flusher or
   * with a worker, and no packet buffer holds a record: every metric is still in the shared batch, was taken up by
   * a worker, or was in a refused batch. The shared batch holds the metrics emitted after the final flush, modulo
   * full batches: it is empty if and only if their number is a multiple of 1000, so it is when there were none.
   */
  lemma ClosedDelivers<B>(c: Config, first: B, n: nat, moves: seq<Move<B>>, s: State<B>, weight: Metric -> nat)
    requires Run(c, Init(first, n), moves) == Some(s) && n > 0 && Closed(s) && s.hands == []
    ensures s.channel == [] && s.phase == Stopped
    ensures Total(s.emitted, weight) == Total(At(s.store, s.batch), weight) + Total(s.workers, Took(weight))
                                      + Total(s.dropped, Of(s.store, Weigh(weight)))
    ensures |At(s.store, s.batch)| == s.late % BATCH_SIZE
    ensures forall i | 0 <= i < |s.workers| :: Batching.Run(PACKETS, s.workers[i].history).pending == []
  {
    hide Total, OneOwner, Sizes, Run;
    RunKeeps(c, first, n, moves, s, weight);
    assert s.workers[0].task.Exited?;
    forall i | 0 <= i < n ensures LeftOf(s.store, Weigh(weight))(s.workers[i]) == 0 {
      EmptyWeighsNothing(weight);
      assert TaskLeft(s.store, s.workers[i].task) == [];
    }
    TotalConstant(s.workers, LeftOf(s.store, Weigh(weight)), 0);
    NothingWaiting(s, Of(s.store, Weigh(weight)));
    forall i | 0 <= i < n ensures Batching.Run(PACKETS, s.workers[i].history).pending == [] {
      AccountOf(c.prefix, s, i);
    }
  }

  lemma NothingWaiting<B>(s: State<B>, h: B -> nat)
    requires s.hands == [] && s.channel == [] && !s.phase.Pushing?
    ensures Waiting(s, h) == 0
  {
  }

  /**
   * And each worker has then sent the records of exactly the metrics within the limits it took up, in packets that a
   * receiver reads back as such metrics.
   */
  lemma ClosedSent<B>(c: Config, first: B, n: nat, moves: seq<Move<B>>, s: State<B>, w: nat, big: bool)
    requires Run(c, Init(first, n), moves) == Some(s) && Closed(s) && w < |s.workers|
    ensures var took, sent := Fitting(c.prefix, s.workers[w].took), Batching.Run(PACKETS, s.workers[w].history).sent;
            && (forall m | m in took :: Formats(c.prefix, m))
            && Batching.Select(PACKETS, Batching.Flatten(sent), big)
               == Batching.Select(PACKETS, MetricRecords(c.prefix, took), big)
            && forall packet | packet in sent :: GoodPacket(c.prefix, s.workers[w].took, packet)
  {
    hide Total, OneOwner, Sizes, Phases, Run, Batching.Run, Batching.Select, Formats, Conserved, GoodPacket;
    RunKeeps(c, first, n, moves, s, Each());
    AccountOf(c.prefix, s, w);
    var worker := s.workers[w];
    Batching.ClosedSendsAll(PACKETS, worker.history, big);
    forall packet | packet in Batching.Run(PACKETS, worker.history).sent
      ensures GoodPacket(c.prefix, worker.took, packet)
    {
      PacketIsGood(c.prefix, worker.history, worker.took, packet);
    }
  }

  // ----- emitting after Close

  /** An emitter's next step sends on the closed channel, which panics in Go. */
  predicate WouldPanic<B>(s: State<B>) {
    s.closed && s.hands != []
  }

  function Emits<B>(moves: seq<Move<B>>): nat {
    if moves == [] then 0
    else Emits(moves[..|moves| - 1]) + (if moves[|moves| - 1].Emit? then 1 else 0)
  }

  /** The metrics that can only end up in the hands of an emitter once the channel is closed. */
  function Stranded<B(==)>(s: State<B>): nat {
    BATCH_SIZE * |s.hands| + |At(s.store, s.batch)|
  }

  lemma EmitStrands<B>(s: State<B>, m: Metric, g: Get<B>)
    requires OneOwner(s) && Sizes(s) && (Full(s) ==> CanGet(Appended(s, m), g))
    ensures Stranded(EmitStep(s, m, g)) == Stranded(s) + 1
  {
    hide Total, OneOwner, Waiting, Of;
    AppendedOneOwner(s, m);
    AppendedSizes(s, m);
    if Full(s) {
      ReplacedPool(Appended(s, m), g);
    }
  }

  lemma FinishStrands<B>(s: State<B>, w: nat)
    requires OneOwner(s) && w < |s.workers| && s.workers[w].task.Busy?
    ensures Stranded(FinishStep(s, w)) == Stranded(s)
  {
    hide Total, OneOwner, Waiting, Of;
    SoleTask(s, w);
    OtherBuffer(s.store, s.workers[w].task.buffer, [], s.batch);
  }

  /** With the channel closed, an emit strands one more metric and every other move leaves their number alone. */
  lemma MoveStrands<B>(c: Config, s: State<B>, move: Move<B>)
    requires OneOwner(s) && Sizes(s) && Phases(c, s) && s.closed && Enabled(c, s, move)
    ensures Apply(c, s, move).closed
    ensures Stranded(Apply(c, s, move)) == Stranded(s) + (if move.Emit? then 1 else 0)
  {
    hide Total, OneOwner, Waiting, Of, EventOf, Formats, Stranded, Sizes;
    if move.Emit? {
      EmitStrands(s, move.metric, move.get);
      EmitCloses(s, move.metric, move.get);
    } else if move.Finish? {
      FinishStrands(s, move.w);
    } else if move.Stop? || move.Receive? || move.Pack? || move.Exit? || move.Forget? {
      SameStranded(s, Apply(c, s, move));
    }
  }

  lemma EmitCloses<B>(s: State<B>, m: Metric, g: Get<B>)
    requires Full(s) ==> CanGet(Appended(s, m), g)
    ensures EmitStep(s, m, g).closed == s.closed
  {
  }

  lemma SameStranded<B>(s: State<B>, t: State<B>)
    requires s.hands == t.hands && s.batch == t.batch && s.store == t.store
    ensures Stranded(t) == Stranded(s)
  {
  }

  lemma {:induction false} RunStrands<B>(c: Config, s: State<B>, moves: seq<Move<B>>, t: State<B>)
    requires Invariant(c, s) && s.closed && Run(c, s, moves) == Some(t)
    ensures Invariant(c, t) && t.closed && Stranded(t) == Stranded(s) + Emits(moves)
    decreases |moves|
  {
    hide Invariant, Stranded, Enabled, Apply;
    if moves != [] {
      var before := Run(c, s, moves[..|moves| - 1]).value;
      var move := moves[|moves| - 1];
      RunStrands(c, s, moves[..|moves| - 1], before);
      ClosedParts(c, before);
      MoveInvariant(c, before, move);
      MoveStrands(c, before, move);
    }
  }

  lemma ClosedParts<B>(c: Config, s: State<B>)
    requires Invariant(c, s)
    ensures OneOwner(s) && Sizes(s) && Phases(c, s)
    ensures s.closed ==> Stranded(s) == BATCH_SIZE * |s.hands| + s.late % BATCH_SIZE
  {
  }

  /**
   * When an emitter panics after `Close`: from any reached state with the channel closed, the batches in emitters'
   * hands are those already there and one for every 1000 metrics emitted after the final flush. So a send on the
   * closed channel is due if and only if there is such a batch or the metrics left in the shared batch and those
   * emitted since make up 1000.
   */
  lemma PanicIff<B>(c: Config, first: B, n: nat, earlier: seq<Move<B>>, s: State<B>, moves: seq<Move<B>>, t: State<B>)
    requires Run(c, Init(first, n), earlier) == Some(s) && s.closed && Run(c, s, moves) == Some(t)
    ensures |t.hands| == |s.hands| + (s.late % BATCH_SIZE + Emits(moves)) / BATCH_SIZE
    ensures WouldPanic(t) <==> s.hands != [] || s.late % BATCH_SIZE + Emits(moves) >= BATCH_SIZE
  {
    hide Run, Invariant, Stranded, Emits;
    RunKeeps(c, first, n, earlier, s, Each());
    RunStrands(c, s, moves, t);
    ClosedParts(c, s);
    ClosedParts(c, t);
  }

  // ----- Close returns

  /** The moves of `Close`, the flusher stopping, the workers and the emitters that are already past their lock. */
  predicate Closing<B>(move: Move<B>) {
    match move
    case Offer(_) => true
    case Take(last, _) => last
    case Push | PushNil | CloseChannel => true
    case Receive(_) => true
    case Pack(_) => true
    case Finish(_) => true
    case Exit(_) => true
    case Emit(_, _) => false
    case Stop => false
    case Forget(_) => false
  }

  lemma WorkerCan<B>(c: Config, s: State<B>, w: nat) returns (move: Move<B>)
    requires w < |s.workers| && !s.workers[w].task.Exited? && (s.channel != [] || s.workers[w].task.Busy? || s.closed)
    ensures Enabled(c, s, move) && Closing(move)
  {
    if s.workers[w].task.Busy? {
      move := if TaskLeft(s.store, s.workers[w].task) != [] then Pack(w) else Finish(w);
    } else {
      move := if s.channel != [] then Receive(w) else Exit(w);
    }
  }

  /** No deadlock: once `Close` has begun, some move towards its end is possible until it has returned. */
  lemma CloseProgresses<B>(c: Config, s: State<B>, g: Get<B>) returns (move: Move<B>)
    requires Invariant(c, s) && CanGet(s, g) && c.capacity > 0 && |s.workers| > 0
    requires s.stopping && !Closed(s)
    ensures Enabled(c, s, move) && Closing(move)
  {
    hide OneOwner, Sizes, Accounts, TaskLeft;
    if s.phase == Looping {
      move := Take(true, g);
    } else if s.phase != Stopped && |s.channel| < c.capacity {
      move := if s.phase.Pushing? then Push else PushNil;
    } else if s.phase != Stopped {
      move := WorkerCan(c, s, 0);
    } else if !s.closed {
      move := CloseChannel;
    } else {
      var w :| 0 <= w < |s.workers| && !s.workers[w].task.Exited?;
      move := WorkerCan(c, s, w);
    }
  }

  function PhaseRank<B>(s: State<B>): nat {
    match s.phase
    case Pushing(_, last) => if last then 6 else 12
    case PushingNil(last) => if last then 3 else 9
    case Looping => 7
    case Stopped => if s.closed then 0 else 1
  }

  function MessageRank<B>(): Option<B> -> nat {
    (m: Option<B>) => if m.Some? then 2 else 1
  }

  function WorkerRank<B>(): WorkerState<B> -> nat {
    (w: WorkerState<B>) => TaskRank(w.task)
  }

  function TaskRank<B>(task: Task<B>): nat {
    match task
    case Idle => 1
    case Busy(_, _) => 2
    case Exited => 0
  }

  /** How many closing moves can still happen, at most. */
  function Rank<B(==)>(s: State<B>): nat {
    Undelivered(s, Each()) + 3 * |s.hands| + Total(s.channel, MessageRank()) + Total(s.workers, WorkerRank())
    + PhaseRank(s)
  }

  /** Everything but the metrics themselves. */
  function Steps<B>(s: State<B>): nat {
    3 * |s.hands| + Total(s.channel, MessageRank()) + Total(s.workers, WorkerRank()) + PhaseRank(s)
  }

  lemma SendingSteps<B>(c: Config, s: State<B>, move: Move<B>)
    requires Enabled(c, s, move) && (move.Offer? || move.Push? || move.PushNil?)
    ensures Steps(Apply(c, s, move)) < Steps(s)
  {
    hide Total, EventOf, Formats, TaskLeft, At;
    match move
    case Offer(i) => TotalSnoc(s.channel, Some(s.hands[i]), MessageRank());
    case Push => TotalSnoc(s.channel, Some(s.phase.buffer), MessageRank());
    case PushNil => TotalSnoc(s.channel, None, MessageRank());
    case _ =>
  }

  lemma ClosingSteps<B>(c: Config, s: State<B>, move: Move<B>)
    requires Enabled(c, s, move) && Closing(move) && Phases(c, s)
    ensures var t := Apply(c, s, move);
            if move.Pack? then Steps(t) == Steps(s) else Steps(t) < Steps(s)
  {
    hide Total, EventOf, Formats, TaskLeft, At;
    var t := Apply(c, s, move);
    match move
    case Take(last, g) =>
    case CloseChannel =>
    case Receive(w) =>
      TotalTail(s.channel, MessageRank());
      TotalUpdate(s.workers, w, t.workers[w], WorkerRank());
    case Pack(w) => TotalUpdate(s.workers, w, t.workers[w], WorkerRank());
    case Finish(w) => TotalUpdate(s.workers, w, t.workers[w], WorkerRank());
    case Exit(w) => TotalUpdate(s.workers, w, t.workers[w], WorkerRank());
    case _ => SendingSteps(c, s, move);
  }

  lemma ClosingTakesUp<B>(c: Config, s: State<B>, move: Move<B>)
    requires Enabled(c, s, move) && Closing(move)
    ensures var t := Apply(c, s, move);
            && t.emitted == s.emitted && |t.dropped| >= |s.dropped|
            && Total(t.workers, Took(Each())) == Total(s.workers, Took(Each())) + (if move.Pack? then 1 else 0)
  {
    hide Total, EventOf, Formats, TaskLeft, At;
    var t := Apply(c, s, move);
    match move
    case Receive(w) => TotalUpdate(s.workers, w, t.workers[w], Took(Each()));
    case Pack(w) =>
      TotalUpdate(s.workers, w, t.workers[w], Took(Each()));
      TotalSnoc(s.workers[w].took, TaskLeft(s.store, s.workers[w].task)[0], Each());
      assert Took(Each())(t.workers[w]) == Total(t.workers[w].took, Each());
    case Finish(w) => TotalUpdate(s.workers, w, t.workers[w], Took(Each()));
    case Exit(w) => TotalUpdate(s.workers, w, t.workers[w], Took(Each()));
    case _ =>
  }

  /** No livelock either: every closing move uses up one of finitely many. */
  lemma CloseTerminates<B>(c: Config, s: State<B>, move: Move<B>)
    requires Invariant(c, s) && Conserved(s, Each()) && Enabled(c, s, move) && Closing(move)
    ensures Rank(Apply(c, s, move)) < Rank(s)
  {
    hide Total, OneOwner, Accounts, Phases, Undelivered, Apply, Enabled, Closing, Steps;
    var t := Apply(c, s, move);
    MoveInvariant(c, s, move);
    MoveConserved(c, s, move, Each());
    ClosingSteps(c, s, move);
    ClosingTakesUp(c, s, move);
    FullCounts(s.dropped, s.store);
    FullCounts(t.dropped, t.store);
    RankIs(s);
    RankIs(t);
  }

  lemma RankIs<B>(s: State<B>)
    ensures Rank(s) == Undelivered(s, Each()) + Steps(s)
  {
  }
}
