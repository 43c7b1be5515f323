/**
 * The life of one trace inside a process: spans start and finish on any threads; the finish that brings the count up
 * to the number of spans collects the trace. Each move is one atomic step of the source.
 */
module TraceLifecycle {
  import opened ByteStrings
  import opened Totals

  /** `finished` and `collected` are the two words the source compares and swaps; `counted` marks a counted finish. */
  datatype SpanState = SpanState(finished: bool, counted: bool, collected: bool)

  /** A call of `emitTrace`: not started, scanning index `next` of the `n` spans it saw, or done. */
  datatype Phase = Pending | Scanning(next: nat, n: nat) | Done

  /** `seen` is the number of spans when the count triggered the call; `batch` the indices of the spans it collected. */
  datatype Collector = Collector(seen: nat, phase: Phase, batch: seq<nat>, sent: bool)

  /** One trace; `sampled` is the decision `collect` tests, fixed before the first span is added. */
  datatype State = State(sampled: bool, spans: seq<SpanState>, finishCount: nat, collectors: seq<Collector>)

  datatype Move =
    | Start                        // `addSpan`
    | Finish(i: nat)               // the compare-and-swap of `finished`, won or lost
    | Count(i: nat)                // `finishSpan` under its lock, by the winner for span `i`
    | Snapshot(k: nat)             // `emitTrace` evaluates `range tc.spans`
    | Scan(k: nat)                 // the compare-and-swap of `collected` for one span
    | Send(k: nat, room: bool)     // its select with default

  const FRESH := SpanState(false, false, false)

  function Init(sampled: bool): State {
    State(sampled, [], 0, [])
  }

  predicate Enabled(s: State, move: Move) {
    match move
    case Start => true
    case Finish(i) => i < |s.spans|
    case Count(i) => i < |s.spans| && s.spans[i].finished && !s.spans[i].counted
    case Snapshot(k) => k < |s.collectors| && s.collectors[k].phase.Pending?
    case Scan(k) =>
      && k < |s.collectors| && s.collectors[k].phase.Scanning? && s.collectors[k].phase.next < s.collectors[k].phase.n
      && s.collectors[k].phase.next < |s.spans|
    case Send(k, _) =>
      k < |s.collectors| && s.collectors[k].phase.Scanning? && s.collectors[k].phase.next >= s.collectors[k].phase.n
  }

  function CountStep(s: State, i: nat): State
    requires i < |s.spans|
  {
    var t := s.(spans := s.spans[i := s.spans[i].(counted := true)], finishCount := s.finishCount + 1);
    if t.finishCount == |s.spans| && s.sampled
    then t.(collectors := s.collectors + [Collector(|s.spans|, Pending, [], false)])
    else t
  }

  function ScanStep(s: State, k: nat): State
    requires Enabled(s, Scan(k))
  {
    var c := s.collectors[k];
    var i := c.phase.next;
    var c' := c.(phase := c.phase.(next := i + 1), batch := if s.spans[i].collected then c.batch else c.batch + [i]);
    s.(spans := s.spans[i := s.spans[i].(collected := true)], collectors := s.collectors[k := c'])
  }

  function Apply(s: State, move: Move): State
    requires Enabled(s, move)
  {
    match move
    case Start => s.(spans := s.spans + [FRESH])
    case Finish(i) => s.(spans := s.spans[i := s.spans[i].(finished := true)])
    case Count(i) => CountStep(s, i)
    case Snapshot(k) => s.(collectors := s.collectors[k := s.collectors[k].(phase := Scanning(0, |s.spans|))])
    case Scan(k) => ScanStep(s, k)
    case Send(k, room) => s.(collectors := s.collectors[k := s.collectors[k].(phase := Done, sent := room)])
  }

  /** The state a run of moves leads to, if each is enabled when its turn comes. */
  function Run(s: State, moves: seq<Move>): Option<State> {
    if moves == [] then Some(s)
    else
      var before, move := Run(s, moves[..|moves| - 1]), moves[|moves| - 1];
      if before.Some? && Enabled(before.value, move) then Some(Apply(before.value, move)) else None
  }

  // ----- the count

  function One(): SpanState -> nat {
    (x: SpanState) => if x.counted then 1 else 0
  }

  /** The count is the number of counted spans, each of which has finished. */
  predicate CountRight(s: State) {
    && s.finishCount == Total(s.spans, One())
    && forall i | 0 <= i < |s.spans| && s.spans[i].counted :: s.spans[i].finished
  }

  lemma {:induction false} AtMostAll(spans: seq<SpanState>)
    ensures Total(spans, One()) <= |spans|
    ensures Total(spans, One()) == |spans| ==> forall i | 0 <= i < |spans| :: spans[i].counted
    decreases |spans|
  {
    if spans != [] {
      AtMostAll(spans[..|spans| - 1]);
    }
  }

  lemma MoveCount(s: State, move: Move)
    requires CountRight(s) && Enabled(s, move)
    ensures CountRight(Apply(s, move))
  {
    hide Total;
    var t := Apply(s, move);
    match move
    case Start => TotalSnoc(s.spans, FRESH, One());
    case Finish(i) => TotalUpdate(s.spans, i, t.spans[i], One());
    case Count(i) => TotalUpdate(s.spans, i, t.spans[i], One());
    case Snapshot(k) =>
    case Scan(k) =>
      var i := s.collectors[k].phase.next;
      TotalUpdate(s.spans, i, t.spans[i], One());
    case Send(k, _) =>
  }

  // ----- the batches

  /** How often span `i` is in the batch of a collector. */
  function Times(i: nat): Collector -> nat {
    (c: Collector) => multiset(c.batch)[i]
  }

  function Batches(s: State, i: nat): nat {
    Total(s.collectors, Times(i))
  }

  /** A span is in one batch if it is collected and in none otherwise. */
  predicate BatchesRight(s: State, i: nat) {
    Batches(s, i) == if i < |s.spans| && s.spans[i].collected then 1 else 0
  }

  lemma MoveBatches(s: State, move: Move, i: nat)
    requires BatchesRight(s, i) && Enabled(s, move)
    ensures BatchesRight(Apply(s, move), i)
  {
    hide Total;
    var t := Apply(s, move);
    match move
    case Start =>
    case Finish(j) =>
    case Count(j) =>
      if |t.collectors| > |s.collectors| {
        TotalSnoc(s.collectors, t.collectors[|s.collectors|], Times(i));
      }
    case Snapshot(k) => TotalUpdate(s.collectors, k, t.collectors[k], Times(i));
    case Scan(k) => TotalUpdate(s.collectors, k, t.collectors[k], Times(i));
    case Send(k, _) => TotalUpdate(s.collectors, k, t.collectors[k], Times(i));
  }

  // ----- coverage

  /** A collector that has not scanned span `i` yet but will. */
  predicate WillScan(c: Collector, i: nat) {
    c.phase.Pending? || (c.phase.Scanning? && c.phase.next <= i < c.phase.n)
  }

  ghost predicate Covered(s: State, i: nat)
    requires i < |s.spans|
  {
    s.spans[i].collected || exists k | 0 <= k < |s.collectors| :: WillScan(s.collectors[k], i)
  }

  /** Once every span is counted, each is collected or a collector is on its way to it. */
  ghost predicate Coverage(s: State) {
    s.sampled && s.finishCount == |s.spans| ==> forall i | 0 <= i < |s.spans| :: Covered(s, i)
  }

  lemma CoveredStays(s: State, move: Move, i: nat)
    requires Enabled(s, move) && i < |s.spans| && Covered(s, i)
    ensures Covered(Apply(s, move), i)
  {
    var t := Apply(s, move);
    if !s.spans[i].collected {
      var k :| 0 <= k < |s.collectors| && WillScan(s.collectors[k], i);
      assert WillScan(t.collectors[k], i) || t.spans[i].collected;
    }
  }

  lemma MoveCoverage(s: State, move: Move)
    requires CountRight(s) && Coverage(s) && Enabled(s, move)
    ensures Coverage(Apply(s, move))
  {
    hide Total, Covered;
    var t := Apply(s, move);
    if t.sampled && t.finishCount == |t.spans| {
      forall i | 0 <= i < |t.spans| ensures Covered(t, i) {
        if move.Count? {
          Triggered(s, move.i, i);
        } else if move.Start? {
          AtMostAll(s.spans);
        } else {
          CoveredStays(s, move, i);
        }
      }
    }
  }

  lemma Triggered(s: State, j: nat, i: nat)
    requires j < |s.spans| && i < |s.spans| && s.sampled && s.finishCount + 1 == |s.spans|
    ensures Covered(CountStep(s, j), i)
  {
    assert WillScan(CountStep(s, j).collectors[|s.collectors|], i);
  }

  // ----- the trigger

  /** Every span that was registered when a collector was triggered has finished, and the batch keeps scan order. */
  predicate CollectorRight(s: State, c: Collector) {
    && s.sampled && 0 < c.seen <= |s.spans|
    && (forall i | 0 <= i < c.seen :: s.spans[i].counted)
    && (c.phase.Pending? ==> c.batch == [])
    && (c.phase.Scanning? ==> c.phase.next <= c.phase.n <= |s.spans| && c.seen <= c.phase.n)
    && (forall a | 0 <= a < |c.batch| :: c.batch[a] < |s.spans| && s.spans[c.batch[a]].collected)
    && (forall a | 0 <= a < |c.batch| :: c.phase.Scanning? ==> c.batch[a] < c.phase.next)
    && forall a, b | 0 <= a < b < |c.batch| :: c.batch[a] < c.batch[b]
  }

  predicate CollectorsRight(s: State) {
    forall k | 0 <= k < |s.collectors| :: CollectorRight(s, s.collectors[k])
  }

  lemma CollectorStays(s: State, move: Move, c: Collector)
    requires Enabled(s, move) && CollectorRight(s, c)
    ensures CollectorRight(Apply(s, move), c)
  {
  }

  lemma MoveCollectors(s: State, move: Move)
    requires CountRight(s) && CollectorsRight(s) && Enabled(s, move)
    ensures CollectorsRight(Apply(s, move))
  {
    hide CollectorRight, Total;
    var t := Apply(s, move);
    forall k | 0 <= k < |t.collectors| ensures CollectorRight(t, t.collectors[k]) {
      if k < |s.collectors| && t.collectors[k] == s.collectors[k] {
        CollectorStays(s, move, s.collectors[k]);
      } else if move.Count? {
        NewCollector(s, move.i);
      } else {
        OneCollector(s, move, k);
      }
    }
  }

  lemma NewCollector(s: State, i: nat)
    requires CountRight(s) && Enabled(s, Count(i)) && s.sampled && s.finishCount + 1 == |s.spans|
    ensures var t := CountStep(s, i); CollectorRight(t, t.collectors[|s.collectors|])
  {
    hide Total;
    MoveCount(s, Count(i));
    AtMostAll(CountStep(s, i).spans);
  }

  lemma OneCollector(s: State, move: Move, k: nat)
    requires CollectorsRight(s) && Enabled(s, move) && k < |s.collectors|
    requires Apply(s, move).collectors[k] != s.collectors[k]
    ensures CollectorRight(Apply(s, move), Apply(s, move).collectors[k])
  {
    assert CollectorRight(s, s.collectors[k]);
  }

  // ----- all runs

  ghost predicate Invariant(s: State) {
    && CountRight(s) && Coverage(s) && CollectorsRight(s)
    && (!s.sampled ==> s.collectors == [])
  }

  lemma MoveInvariant(s: State, move: Move)
    requires Invariant(s) && Enabled(s, move)
    ensures Invariant(Apply(s, move))
  {
    hide CountRight, Coverage, CollectorsRight;
    MoveCount(s, move);
    MoveCoverage(s, move);
    MoveCollectors(s, move);
  }

  /** In every state of every run, whatever the interleaving. */
  lemma {:induction false} RunKeeps(sampled: bool, moves: seq<Move>, s: State, i: nat)
    requires Run(Init(sampled), moves) == Some(s)
    ensures Invariant(s) && BatchesRight(s, i) && s.sampled == sampled
    decreases |moves|
  {
    if moves != [] {
      hide Invariant, BatchesRight, Enabled, Apply;
      var before, move := Run(Init(sampled), moves[..|moves| - 1]).value, moves[|moves| - 1];
      RunKeeps(sampled, moves[..|moves| - 1], before, i);
      MoveInvariant(before, move);
      MoveBatches(before, move, i);
      SampledStays(before, move);
    }
  }

  lemma SampledStays(s: State, move: Move)
    requires Enabled(s, move)
    ensures Apply(s, move).sampled == s.sampled
  {
  }

  /** At every moment: each span is in at most one batch, and the count never passes the number of spans. */
  lemma AtMostOneBatch(sampled: bool, moves: seq<Move>, s: State, i: nat)
    requires Run(Init(sampled), moves) == Some(s)
    ensures Batches(s, i) <= 1 && s.finishCount <= |s.spans|
    ensures !sampled ==> Batches(s, i) == 0
  {
    RunKeeps(sampled, moves, s, i);
    AtMostAll(s.spans);
  }

  /**
   * A count triggers a collection exactly when it is the last one missing: every span registered at that moment has
   * finished and, with this one, been counted.
   */
  lemma TriggerMeansAllFinished(moves: seq<Move>, s: State, i: nat)
    requires Run(Init(true), moves) == Some(s) && Enabled(s, Count(i))
    ensures var t := Apply(s, Count(i));
            |t.collectors| > |s.collectors| <==> forall j | 0 <= j < |t.spans| :: t.spans[j].counted
    ensures forall j | 0 <= j < |s.spans| && s.spans[j].counted :: s.spans[j].finished
  {
    hide Total;
    RunKeeps(true, moves, s, i);
    var t := Apply(s, Count(i));
    MoveCount(s, Count(i));
    AtMostAll(t.spans);
    if forall j | 0 <= j < |t.spans| :: t.spans[j].counted {
      TotalConstant(t.spans, One(), 1);
    }
  }

  /**
   * That every registered span has finished is needed but not enough: with two spans finished and neither counted, the
   * first count does not trigger; the second will.
   */
  lemma FinishedButNotCounted() returns (moves: seq<Move>, s: State)
    ensures Run(Init(true), moves) == Some(s) && Enabled(s, Count(0))
    ensures forall j | 0 <= j < |s.spans| :: s.spans[j].finished
    ensures |Apply(s, Count(0)).collectors| == |s.collectors|
    ensures Enabled(Apply(s, Count(0)), Count(1))
    ensures |Apply(Apply(s, Count(0)), Count(1)).collectors| == |s.collectors| + 1
  {
    assert Run(Init(true), []) == Some(Init(true));
    hide Run;
    moves, s := Then(Init(true), [], Init(true), Start);
    moves, s := Then(Init(true), moves, s, Start);
    moves, s := Then(Init(true), moves, s, Finish(0));
    moves, s := Then(Init(true), moves, s, Finish(1));
  }

  /** Nobody is finishing a span or collecting, and every span has been finished. */
  predicate Quiet(s: State) {
    && (forall i | 0 <= i < |s.spans| :: s.spans[i].counted)
    && forall k | 0 <= k < |s.collectors| :: s.collectors[k].phase.Done?
  }

  /** Once every span has finished and every collect has run, each span of a sampled trace is in exactly one batch. */
  lemma ExactlyOneBatch(moves: seq<Move>, s: State, i: nat)
    requires Run(Init(true), moves) == Some(s) && Quiet(s) && i < |s.spans|
    ensures Batches(s, i) == 1
  {
    hide Total;
    RunKeeps(true, moves, s, i);
    TotalConstant(s.spans, One(), 1);
    assert Covered(s, i);
  }

  /**
   * The batches hold finished spans, except that a span started between the trigger of a collection and its scan is
   * swept up too, finished or not; `OnlyFinishedIff` says when.
   */
  lemma UnfinishedOnlyIfLate(moves: seq<Move>, s: State, k: nat, a: nat)
    requires Run(Init(true), moves) == Some(s) && k < |s.collectors| && a < |s.collectors[k].batch|
    ensures var i := s.collectors[k].batch[a];
            i < |s.spans| && (i < s.collectors[k].seen ==> s.spans[i].finished)
  {
    RunKeeps(true, moves, s, 0);
    assert CollectorRight(s, s.collectors[k]);
  }

  // ----- what the trace channel receives

  /** How often span `i` is in a batch that went into the trace channel. */
  function TimesSent(i: nat): Collector -> nat {
    (c: Collector) => if c.sent then multiset(c.batch)[i] else 0
  }

  function Deliveries(s: State, i: nat): nat {
    Total(s.collectors, TimesSent(i))
  }

  /** Collector `k` has sent its batch, or dropped it for want of room, if and only if the run says so; never twice. */
  predicate SendsRight(moves: seq<Move>, s: State, k: nat)
    requires k < |s.collectors|
  {
    && (s.collectors[k].sent <==> Send(k, true) in moves)
    && (s.collectors[k].phase.Done? <==> Send(k, true) in moves || Send(k, false) in moves)
    && !(Send(k, true) in moves && Send(k, false) in moves)
  }

  lemma {:induction false} RunSends(sampled: bool, moves: seq<Move>, s: State, k: nat)
    requires Run(Init(sampled), moves) == Some(s)
    ensures k < |s.collectors| ==> SendsRight(moves, s, k)
    ensures k >= |s.collectors| ==> Send(k, true) !in moves && Send(k, false) !in moves
    decreases |moves|
  {
    if moves != [] {
      hide Apply, Enabled, SendsRight;
      var n := |moves| - 1;
      var u := Run(Init(sampled), moves[..n]).value;
      RunSends(sampled, moves[..n], u, k);
      assert moves == moves[..n] + [moves[n]];
      MoveSends(moves[..n], u, moves[n], k);
    }
  }

  lemma MoveSends(moves: seq<Move>, s: State, move: Move, k: nat)
    requires Enabled(s, move)
    requires k < |s.collectors| ==> SendsRight(moves, s, k)
    requires k >= |s.collectors| ==> Send(k, true) !in moves && Send(k, false) !in moves
    ensures var t := Apply(s, move);
            && (k < |t.collectors| ==> SendsRight(moves + [move], t, k))
            && (k >= |t.collectors| ==> Send(k, true) !in moves + [move] && Send(k, false) !in moves + [move])
  {
  }

  /** In a quiet state the span in collector `k`'s batch has reached the trace channel, once, if there was room then. */
  lemma DeliveredIff(moves: seq<Move>, s: State, i: nat, k: nat)
    requires Run(Init(true), moves) == Some(s) && Quiet(s) && i < |s.spans|
    requires k < |s.collectors| && i in s.collectors[k].batch
    ensures Deliveries(s, i) == if Send(k, true) in moves then 1 else 0
    ensures Send(k, true) in moves <==> Send(k, false) !in moves
  {
    hide Total, Run;
    ExactlyOneBatch(moves, s, i);
    RunSends(true, moves, s, k);
    var c := s.collectors[k];
    var none := c.(batch := []);
    TotalUpdate(s.collectors, k, none, Times(i));
    TotalUpdate(s.collectors, k, none, TimesSent(i));
    TotalAtMost(s.collectors[k := none], TimesSent(i), Times(i));
    TotalMember(s.collectors, k, Times(i));
    assert Times(i)(c) == multiset(c.batch)[i] && Times(i)(none) == 0 && TimesSent(i)(none) == 0;
    assert multiset(c.batch)[i] >= 1;
  }

  lemma {:induction false} SomeBatch(cs: seq<Collector>, i: nat) returns (k: nat)
    requires Total(cs, Times(i)) > 0
    ensures k < |cs| && i in cs[k].batch
    decreases |cs|
  {
    k := |cs| - 1;
    if i !in cs[k].batch {
      assert multiset(cs[k].batch)[i] == 0;
      k := SomeBatch(cs[..k], i);
    }
  }

  /** So when the channel always has room, every span reaches it exactly once. */
  lemma AllDelivered(moves: seq<Move>, s: State, i: nat)
    requires Run(Init(true), moves) == Some(s) && Quiet(s) && i < |s.spans|
    requires forall k: nat :: Send(k, false) !in moves
    ensures Deliveries(s, i) == 1
  {
    hide Total, Run;
    ExactlyOneBatch(moves, s, i);
    var k := SomeBatch(s.collectors, i);
    DeliveredIff(moves, s, i, k);
  }

  // ----- a span started between the trigger and the scan

  lemma Then(start: State, moves: seq<Move>, s: State, move: Move) returns (more: seq<Move>, t: State)
    requires Run(start, moves) == Some(s) && Enabled(s, move)
    ensures t == Apply(s, move) && Run(start, more) == Some(t)
  {
    more, t := moves + [move], Apply(s, move);
    assert more[..|moves|] == moves;
  }

  /** Collector `k` has just taken its snapshot. */
  predicate JustSnapped(s: State, k: nat) {
    && k < |s.collectors| && s.collectors[k].phase == Scanning(0, |s.spans|) && s.collectors[k].batch == []
  }

  /** What a continuation keeps: flags only rise, and the batch takes spans of the snapshot not collected before. */
  predicate Continues(s: State, k: nat, t: State) {
    && k < |s.collectors| <= |t.collectors| && |s.spans| <= |t.spans|
    && (forall i | 0 <= i < |s.spans| :: (s.spans[i].finished ==> t.spans[i].finished))
    && (forall i | 0 <= i < |s.spans| :: (s.spans[i].collected ==> t.spans[i].collected))
    && !t.collectors[k].phase.Pending?
    && (t.collectors[k].phase.Scanning? ==> t.collectors[k].phase.n == |s.spans|)
    && forall a | 0 <= a < |t.collectors[k].batch| ::
         t.collectors[k].batch[a] < |s.spans| && !s.spans[t.collectors[k].batch[a]].collected
  }

  lemma MoveContinues(s: State, k: nat, t: State, move: Move)
    requires Continues(s, k, t) && Enabled(t, move)
    ensures Continues(s, k, Apply(t, move))
  {
    var c, c' := t.collectors[k], Apply(t, move).collectors[k];
    if move == Scan(k) {
      assert c'.batch == c.batch || c'.batch == c.batch + [c.phase.next];
    } else {
      assert c'.batch == c.batch;
    }
  }

  lemma {:induction false} RunContinues(s: State, k: nat, moves: seq<Move>, t: State)
    requires JustSnapped(s, k) && Run(s, moves) == Some(t)
    ensures Continues(s, k, t)
    decreases |moves|
  {
    if moves != [] {
      hide Continues, Enabled, Apply, JustSnapped;
      var u := Run(s, moves[..|moves| - 1]).value;
      RunContinues(s, k, moves[..|moves| - 1], u);
      MoveContinues(s, k, u, moves[|moves| - 1]);
    }
  }

  /** Every span in the batch of `k` has finished. */
  predicate OnlyFinished(s: State, k: nat) {
    k < |s.collectors| && forall a | 0 <= a < |s.collectors[k].batch| ::
      s.collectors[k].batch[a] < |s.spans| && s.spans[s.collectors[k].batch[a]].finished
  }

  /** Every span of the snapshot has finished, or somebody else has it. */
  predicate FinishedOrTaken(s: State) {
    forall i | 0 <= i < |s.spans| :: s.spans[i].finished || s.spans[i].collected
  }

  /** The collector scans, undisturbed, up to span `i`. */
  lemma {:induction false} ScanUpTo(s: State, k: nat, i: nat) returns (moves: seq<Move>, t: State)
    requires JustSnapped(s, k) && i <= |s.spans|
    ensures Run(s, moves) == Some(t) && k < |t.collectors| && |t.spans| == |s.spans|
    ensures t.collectors[k].phase == Scanning(i, |s.spans|)
    ensures forall j | 0 <= j < |s.spans| :: t.spans[j].finished == s.spans[j].finished
    ensures forall j | i <= j < |s.spans| :: t.spans[j] == s.spans[j]
    decreases i
  {
    if i == 0 {
      moves, t := [], s;
    } else {
      moves, t := ScanUpTo(s, k, i - 1);
      hide Run;
      moves, t := Then(s, moves, t, Scan(k));
    }
  }

  /** A span unfinished and uncollected at the snapshot is sent unfinished by the continuation that scans at once. */
  lemma SweptUpUnfinished(s: State, k: nat, i: nat) returns (moves: seq<Move>, t: State)
    requires JustSnapped(s, k) && i < |s.spans| && !s.spans[i].finished && !s.spans[i].collected
    ensures Run(s, moves) == Some(t) && !OnlyFinished(t, k)
    ensures k < |t.collectors| && i < |t.spans| && i in t.collectors[k].batch && !t.spans[i].finished
  {
    hide Run;
    moves, t := ScanUpTo(s, k, i);
    ghost var n := |t.collectors[k].batch|;
    moves, t := Then(s, moves, t, Scan(k));
    assert t.collectors[k].batch[n] == i;
  }

  lemma SnapshotTaken(before: seq<Move>, u: State, k: nat)
    requires Run(Init(true), before) == Some(u) && Enabled(u, Snapshot(k))
    ensures JustSnapped(Apply(u, Snapshot(k)), k) && Apply(u, Snapshot(k)).spans == u.spans
    ensures forall i | 0 <= i < u.collectors[k].seen :: i < |u.spans| && u.spans[i].finished
  {
    RunKeeps(true, before, u, 0);
    assert CollectorRight(u, u.collectors[k]);
  }

  /**
   * When a batch holds only finished spans: right after the snapshot of a collection in any run, its batch does so in
   * every continuation if and only if each span of the snapshot has finished or has been collected already.
   */
  lemma OnlyFinishedIff(before: seq<Move>, u: State, k: nat)
    requires Run(Init(true), before) == Some(u) && Enabled(u, Snapshot(k))
    ensures (forall moves :: Run(Apply(u, Snapshot(k)), moves).Some?
                         ==> OnlyFinished(Run(Apply(u, Snapshot(k)), moves).value, k))
       <==> FinishedOrTaken(u)
  {
    SnapshotTaken(before, u, k);
    var s := Apply(u, Snapshot(k));
    hide Run, Apply, Enabled;
    if FinishedOrTaken(u) {
      forall moves | Run(s, moves).Some? ensures OnlyFinished(Run(s, moves).value, k) {
        RunContinues(s, k, moves, Run(s, moves).value);
      }
    } else {
      var i :| 0 <= i < |u.spans| && !u.spans[i].finished && !u.spans[i].collected;
      var moves, t := SweptUpUnfinished(s, k, i);
    }
  }

  /**
   * Only spans started after the trigger can break this: the others have finished. Such a span, still unfinished and
   * uncollected at the snapshot, is sent unfinished in some continuation.
   */
  lemma LateSpanSent(before: seq<Move>, u: State, k: nat, i: nat) returns (moves: seq<Move>, t: State)
    requires Run(Init(true), before) == Some(u) && Enabled(u, Snapshot(k))
    requires i < |u.spans| && !u.spans[i].finished && !u.spans[i].collected
    ensures u.collectors[k].seen <= i
    ensures Run(Apply(u, Snapshot(k)), moves) == Some(t)
    ensures k < |t.collectors| && i < |t.spans| && i in t.collectors[k].batch && !t.spans[i].finished
  {
    SnapshotTaken(before, u, k);
    hide Run, Apply;
    moves, t := SweptUpUnfinished(Apply(u, Snapshot(k)), k, i);
  }

  /** The batch of `k` holds no span. */
  predicate BatchEmpty(s: State, k: nat) {
    k < |s.collectors| && s.collectors[k].batch == []
  }

  /** Every span of the snapshot has been collected by somebody else. */
  predicate AllTaken(s: State) {
    forall i | 0 <= i < |s.spans| :: s.spans[i].collected
  }

  /** A span uncollected at the snapshot is in the batch of the continuation that scans at once. */
  lemma SweptUp(s: State, k: nat, i: nat) returns (moves: seq<Move>, t: State)
    requires JustSnapped(s, k) && i < |s.spans| && !s.spans[i].collected
    ensures Run(s, moves) == Some(t) && !BatchEmpty(t, k)
  {
    hide Run;
    moves, t := ScanUpTo(s, k, i);
    ghost var n := |t.collectors[k].batch|;
    moves, t := Then(s, moves, t, Scan(k));
    assert t.collectors[k].batch[n] == i;
  }

  lemma SomeWasFree(s: State, k: nat, t: State)
    requires Continues(s, k, t) && !BatchEmpty(t, k)
    ensures !AllTaken(s)
  {
    assert !s.spans[t.collectors[k].batch[0]].collected;
  }

  /**
   * When a trace without spans is built: right after the snapshot of a collection in any run, its batch stays empty in
   * every continuation if and only if each span of the snapshot has been collected already.
   */
  lemma EmptyBatchIff(before: seq<Move>, u: State, k: nat)
    requires Run(Init(true), before) == Some(u) && Enabled(u, Snapshot(k))
    ensures (forall moves :: Run(Apply(u, Snapshot(k)), moves).Some?
                         ==> BatchEmpty(Run(Apply(u, Snapshot(k)), moves).value, k))
       <==> AllTaken(u)
  {
    SnapshotTaken(before, u, k);
    var s := Apply(u, Snapshot(k));
    hide Run, Apply, Enabled;
    if AllTaken(u) {
      forall moves | Run(s, moves).Some? ensures BatchEmpty(Run(s, moves).value, k) {
        var t := Run(s, moves).value;
        RunContinues(s, k, moves, t);
        if !BatchEmpty(t, k) {
          SomeWasFree(s, k, t);
        }
      }
    } else {
      var i :| 0 <= i < |u.spans| && !u.spans[i].collected;
      var moves, t := SweptUp(s, k, i);
    }
  }

  lemma FirstTriggered() returns (moves: seq<Move>, s: State)
    ensures Run(Init(true), moves) == Some(s)
    ensures s == State(true, [SpanState(true, true, false)], 1, [Collector(1, Pending, [], false)])
  {
    assert Run(Init(true), []) == Some(Init(true));
    hide Run;
    moves, s := Then(Init(true), [], Init(true), Start);
    moves, s := Then(Init(true), moves, s, Finish(0));
    moves, s := Then(Init(true), moves, s, Count(0));
  }

  /**
   * One span finishes and triggers the collection; another starts before the scan. It is in the batch although it has
   * not finished.
   */
  lemma UnfinishedSpanSent() returns (moves: seq<Move>, s: State)
    ensures Run(Init(true), moves) == Some(s)
    ensures s == State(true, [SpanState(true, true, true), SpanState(false, false, true)], 1,
                       [Collector(1, Done, [0, 1], true)])
  {
    hide Run;
    moves, s := FirstTriggered();
    moves, s := Then(Init(true), moves, s, Start);
    moves, s := Then(Init(true), moves, s, Snapshot(0));
    assert s.collectors == [Collector(1, Scanning(0, 2), [], false)];
    moves, s := Then(Init(true), moves, s, Scan(0));
    assert [] + [0] == [0] && [0] + [1] == [0, 1];
    assert s.collectors == [Collector(1, Scanning(1, 2), [0], false)];
    moves, s := Then(Init(true), moves, s, Scan(0));
    assert s.collectors == [Collector(1, Scanning(2, 2), [0, 1], false)];
    moves, s := Then(Init(true), moves, s, Send(0, true));
  }

  /** When it finishes, its own collection finds nothing left and sends an empty batch, as `EmptyBatchIff` says. */
  lemma EmptyBatchSent() returns (moves: seq<Move>, s: State)
    ensures Run(Init(true), moves) == Some(s) && Quiet(s)
    ensures s.collectors == [Collector(1, Done, [0, 1], true), Collector(2, Done, [], true)]
  {
    hide Run;
    moves, s := UnfinishedSpanSent();
    moves, s := Then(Init(true), moves, s, Finish(1));
    moves, s := Then(Init(true), moves, s, Count(1));
    assert s.collectors == [Collector(1, Done, [0, 1], true), Collector(2, Pending, [], false)];
    moves, s := Then(Init(true), moves, s, Snapshot(1));
    moves, s := Then(Init(true), moves, s, Scan(1));
    moves, s := Then(Init(true), moves, s, Scan(1));
    assert s.collectors == [Collector(1, Done, [0, 1], true), Collector(2, Scanning(2, 2), [], false)];
    moves, s := Then(Init(true), moves, s, Send(1, true));
  }

  // ----- the objects

  class Span {
    var finished: bool
    var collected: bool

    constructor ()
      ensures !finished && !collected
    {
      finished, collected := false, false;
    }

    /** `Finish` up to its compare-and-swap: only the winner goes on. */
    method TryFinish() returns (won: bool)
      modifies this`finished
      ensures finished && won == !old(finished)
    {
      won := !finished;
      finished := true;
    }

    /** The compare-and-swap of `emitTrace`. */
    method TryCollect() returns (won: bool)
      modifies this`collected
      ensures collected && won == !old(collected)
    {
      won := !collected;
      collected := true;
    }
  }

  class TraceContext {
    const sampled: bool
    var finishCount: nat
    var spans: seq<Span>
    ghost var s: State

    ghost predicate Valid()
      reads this, spans
    {
      && s.sampled == sampled && s.finishCount == finishCount && |s.spans| == |spans|
      && (forall i | 0 <= i < |spans| ::
            s.spans[i].finished == spans[i].finished && s.spans[i].collected == spans[i].collected)
      && forall i, j | 0 <= i < j < |spans| :: spans[i] != spans[j]
    }

    constructor (sampled: bool)
      ensures Valid() && s == Init(sampled) && spans == []
    {
      this.sampled := sampled;
      finishCount, spans, s := 0, [], Init(sampled);
    }

    /** `addSpan` */
    method AddSpan(x: Span)
      requires Valid() && x !in spans && !x.finished && !x.collected
      modifies this
      ensures Valid() && s == Apply(old(s), Start) && spans == old(spans) + [x]
    {
      spans := spans + [x];
      s := Apply(s, Start);
    }

    /** `Finish` of a span of this trace. */
    method FinishOne(x: Span, ghost i: nat) returns (won: bool)
      requires Valid() && i < |spans| && spans[i] == x
      modifies this`s, x`finished
      ensures Valid() && s == Apply(old(s), Finish(i)) && won == !old(s).spans[i].finished
    {
      won := x.TryFinish();
      s := Apply(s, Finish(i));
    }

    /** `finishSpan` under its lock, called by the winner for span `i`: whether the trace is now to be collected. */
    method FinishSpan(ghost i: nat) returns (finished: bool)
      requires Valid() && Enabled(s, Count(i))
      modifies this`s, this`finishCount
      ensures Valid() && s == Apply(old(s), Count(i))
      ensures finished && sampled <==> |s.collectors| > |old(s).collectors|
    {
      finished := false;
      finishCount := finishCount + 1;
      if finishCount == |spans| {
        finished := true;
      }
      s := Apply(s, Count(i));
    }

    /** One turn of the loop in `emitTrace`. */
    method CollectOne(i: nat, ghost k: nat) returns (won: bool)
      requires Valid() && i < |spans| && Enabled(s, Scan(k)) && s.collectors[k].phase.next == i
      modifies this`s, spans[i] as Span`collected
      ensures Valid() && s == Apply(old(s), Scan(k)) && won == !old(s).spans[i].collected
    {
      won := spans[i].TryCollect();
      s := Apply(s, Scan(k));
    }

    /** `emitTrace` from its snapshot on, when no other thread takes a step: it sends what nobody had collected. */
    method EmitTrace(ghost k: nat, room: bool) returns (batch: seq<nat>)
      requires Valid() && Enabled(s, Snapshot(k)) && s.collectors[k].batch == []
      modifies this`s, set x | x in spans
      ensures Valid() && k < |s.collectors|
      ensures s.collectors[k] == Collector(old(s).collectors[k].seen, Done, batch, room)
      ensures batch == Uncollected(old(s).spans, |old(s).spans|)
      ensures s.spans == AllCollected(old(s).spans, |old(s).spans|)
    {
      hide Apply, AllCollected, Uncollected, Enabled;
      ghost var before := s;
      Snapped(s, k);
      ghost var seen := s.collectors[k].seen;
      s := Apply(s, Snapshot(k));
      batch := [];
      var i := 0;
      while i < |spans|
        invariant 0 <= i <= |spans| == |before.spans| && Valid() && k < |s.collectors|
        invariant s.collectors[k] == Collector(seen, Scanning(i, |spans|), batch, before.collectors[k].sent)
        invariant batch == Uncollected(before.spans, i)
        invariant s.spans == AllCollected(before.spans, i)
      {
        hide Valid;
        ScanMore(before.spans, s, k, i);
        var won := CollectOne(i, k);
        if won {
          batch := batch + [i];
        }
        i := i + 1;
      }
      Sent(s, k, room);
      s := Apply(s, Send(k, room));
    }
  }

  lemma Snapped(s: State, k: nat)
    requires Enabled(s, Snapshot(k))
    ensures k < |s.collectors|
    ensures var t := Apply(s, Snapshot(k));
            && t.spans == s.spans == AllCollected(s.spans, 0)
            && t.sampled == s.sampled && t.finishCount == s.finishCount
            && k < |t.collectors| && t.collectors[k] == s.collectors[k].(phase := Scanning(0, |s.spans|))
    ensures Uncollected(s.spans, 0) == []
  {
  }

  lemma Sent(s: State, k: nat, room: bool)
    requires k < |s.collectors| && s.collectors[k].phase == Scanning(|s.spans|, |s.spans|)
    ensures Enabled(s, Send(k, room))
    ensures var t := Apply(s, Send(k, room));
            && t.spans == s.spans && t.sampled == s.sampled && t.finishCount == s.finishCount
            && k < |t.collectors| && t.collectors[k] == s.collectors[k].(phase := Done, sent := room)
  {
  }

  /** Run without interference, `EmitTrace` sends no span exactly when every span had been collected. */
  lemma {:induction false} UncollectedNone(spans: seq<SpanState>, n: nat)
    requires n <= |spans|
    ensures Uncollected(spans, n) == [] <==> forall i | 0 <= i < n :: spans[i].collected
    decreases n
  {
    if n > 0 {
      UncollectedNone(spans, n - 1);
    }
  }

  /** The spans with the first `n` collected. */
  function AllCollected(spans: seq<SpanState>, n: nat): (r: seq<SpanState>)
    requires n <= |spans|
    ensures |r| == |spans|
  {
    seq(|spans|, i requires 0 <= i < |spans| => if i < n then spans[i].(collected := true) else spans[i])
  }

  lemma ScanMore(spans: seq<SpanState>, s: State, k: nat, i: nat)
    requires i < |spans| && s.spans == AllCollected(spans, i) && k < |s.collectors|
    requires s.collectors[k].phase == Scanning(i, |spans|) && s.collectors[k].batch == Uncollected(spans, i)
    ensures Enabled(s, Scan(k)) && s.spans[i].collected == spans[i].collected
    ensures Uncollected(spans, i + 1) == Uncollected(spans, i) + (if spans[i].collected then [] else [i])
    ensures var t := Apply(s, Scan(k));
            && t.spans == AllCollected(spans, i + 1)
            && k < |t.collectors|
            && t.collectors[k]
               == s.collectors[k].(phase := Scanning(i + 1, |spans|), batch := Uncollected(spans, i + 1))
  {
  }

  /** The indices below `n` of the spans not collected yet. */
  function Uncollected(spans: seq<SpanState>, n: nat): seq<nat>
    requires n <= |spans|
  {
    if n == 0 then []
    else if spans[n - 1].collected then Uncollected(spans, n - 1)
    else Uncollected(spans, n - 1) + [n - 1]
  }
}
