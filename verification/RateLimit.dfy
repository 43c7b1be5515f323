/** The rate-limit trace sampler. Times are nanoseconds since Go's zero time; differences saturate as in `Time.Sub`. */
module RateLimit {
  import opened Division

  const MAX_DURATION: int := 0x7FFF_FFFF_FFFF_FFFF
  const MIN_DURATION: int := -0x8000_0000_0000_0000

  /** `t.Sub(u)` */
  function Sub(t: int, u: int): int {
    if t - u > MAX_DURATION then MAX_DURATION
    else if t - u < MIN_DURATION then MIN_DURATION
    else t - u
  }

  datatype State = State(last: int, noSampled: nat)

  /** A sampled call returns a positive weight, an unsampled one 0. */
  datatype Outcome = Outcome(sampled: bool, weight: nat)

  const START := State(0, 0)

  function Elapsed(st: State, now: int): int {
    Sub(now, st.last)
  }

  function Next(interval: int, st: State, now: int): State
    requires interval > 0
  {
    if Elapsed(st, now) < interval then st.(noSampled := st.noSampled + 1)
    else State(st.last + Elapsed(st, now) / interval * interval, 0)
  }

  function Decide(interval: int, st: State, now: int): Outcome {
    if Elapsed(st, now) < interval then Outcome(false, 0) else Outcome(true, st.noSampled + 1)
  }

  class Sampler {
    const interval: int
    var last: int
    var noSampled: nat

    constructor (interval: int)
      ensures this.interval == interval && State(last, noSampled) == START
    {
      this.interval := interval;
      last, noSampled := 0, 0;
    }

    /** `Sample`, with the clock reading as input. */
    method Sample(now: int) returns (sampled: bool, weight: nat)
      requires interval > 0
      modifies this
      ensures Outcome(sampled, weight) == Decide(interval, old(State(last, noSampled)), now)
      ensures State(last, noSampled) == Next(interval, old(State(last, noSampled)), now)
    {
      if Sub(now, last) < interval {
        noSampled := noSampled + 1;
        return false, 0;
      }
      weight := noSampled + 1;
      // the quotient truncates toward zero in Go and is floored here; it is not negative, so they agree
      last := last + Sub(now, last) / interval * interval;
      noSampled := 0;
      return true, weight;
    }
  }

  // ----- runs

  function Run(interval: int, times: seq<int>): State
    requires interval > 0
  {
    if times == [] then START
    else Next(interval, Run(interval, times[..|times| - 1]), times[|times| - 1])
  }

  /** What call `k` of a run returned. */
  function OutcomeAt(interval: int, times: seq<int>, k: nat): Outcome
    requires interval > 0 && k < |times|
  {
    Decide(interval, Run(interval, times[..k]), times[k])
  }

  function TotalWeight(interval: int, times: seq<int>): nat
    requires interval > 0
  {
    if times == [] then 0
    else
      var n := |times| - 1;
      TotalWeight(interval, times[..n]) + Decide(interval, Run(interval, times[..n]), times[n]).weight
  }

  predicate Nondecreasing(times: seq<int>) {
    forall i, j | 0 <= i <= j < |times| :: times[i] <= times[j]
  }

  /** Every call is counted once: in the weight of a sampled call or among those not yet reported. */
  lemma {:induction false} WeightsCountCalls(interval: int, times: seq<int>)
    requires interval > 0
    ensures TotalWeight(interval, times) + Run(interval, times).noSampled == |times|
    decreases |times|
  {
    if times != [] {
      WeightsCountCalls(interval, times[..|times| - 1]);
    }
  }

  lemma MultipleKept(interval: int, last: int, elapsed: int)
    requires interval > 0 && last % interval == 0 && elapsed >= interval
    ensures (last + elapsed / interval * interval) % interval == 0
    ensures last < last + elapsed / interval * interval <= last + elapsed
  {
    var m, q := last / interval, elapsed / interval;
    Subtract(m, -q, interval);
    Quotient(last + q * interval, interval, m + q, 0);
    if q <= 0 {
      Scale(q, 0, interval);
    } else {
      Scale(1, q, interval);
    }
  }

  /** `last` stays on the interval grid and never passes the clock, saturated differences included. */
  lemma {:induction false} LastOnGrid(interval: int, times: seq<int>)
    requires interval > 0 && Nondecreasing(times) && (times != [] ==> 0 <= times[0])
    ensures Run(interval, times).last % interval == 0
    ensures 0 <= Run(interval, times).last
    ensures times != [] ==> Run(interval, times).last <= times[|times| - 1]
    decreases |times|
  {
    if times != [] {
      var n := |times| - 1;
      LastOnGrid(interval, times[..n]);
      var st, now := Run(interval, times[..n]), times[n];
      assert n > 0 ==> times[n - 1] <= now;
      if Elapsed(st, now) >= interval {
        MultipleKept(interval, st.last, Elapsed(st, now));
      }
    }
  }

  /** `last` is the start of the grid cell that holds `now`. */
  predicate CaughtUp(interval: int, st: State, now: int) {
    interval > 0 && st.last == now / interval * interval
  }

  /** One call whose difference does not saturate is enough to catch up. */
  lemma CatchesUp(interval: int, st: State, now: int)
    requires interval > 0 && st.last % interval == 0 && st.last <= now && now - st.last <= MAX_DURATION
    ensures CaughtUp(interval, Next(interval, st, now), now)
  {
    var m, e := st.last / interval, now - st.last;
    var q, r := e / interval, e % interval;
    Subtract(m, -q, interval);
    Quotient(now, interval, m + q, r);
    if e < interval {
      Quotient(e, interval, 0, e);
    }
  }

  /** Once caught up, a call is sampled exactly when its cell is not the cell of the call before. */
  lemma SampledIffNewCell(interval: int, st: State, before: int, now: int)
    requires CaughtUp(interval, st, before) && before <= now && now - st.last <= MAX_DURATION
    ensures Decide(interval, st, now).sampled <==> now / interval != before / interval
    ensures CaughtUp(interval, Next(interval, st, now), now)
  {
    var m := before / interval;
    Quotient(st.last, interval, m, 0);
    CatchesUp(interval, st, now);
    var e := now - st.last;
    if e < interval {
      Quotient(now, interval, m, e);
    }
  }

  /** The clock reads times at which the sampler has caught up, with no gap of 292 years or more after that. */
  predicate SteadyFrom(interval: int, times: seq<int>, from: nat)
    requires interval > 0
  {
    && from < |times| && CaughtUp(interval, Run(interval, times[..from + 1]), times[from])
    && forall k | from < k < |times| :: times[k] - times[k - 1] + interval <= MAX_DURATION
  }

  lemma {:induction false} StaysCaughtUp(interval: int, times: seq<int>, from: nat, k: nat)
    requires interval > 0 && Nondecreasing(times) && SteadyFrom(interval, times, from)
    requires from <= k < |times|
    ensures CaughtUp(interval, Run(interval, times[..k + 1]), times[k])
    decreases k
  {
    if from < k {
      StaysCaughtUp(interval, times, from, k - 1);
      hide Next, CaughtUp;
      var st := Run(interval, times[..k]);
      assert times[..k + 1][..k] == times[..k];
      assert times[k - 1] <= times[k];
      CellStart(interval, st, times[k - 1]);
      SampledIffNewCell(interval, st, times[k - 1], times[k]);
    }
  }

  /**
   * Over a run with a nondecreasing clock, every call after the sampler has caught up is sampled exactly when it is
   * the first call in its cell of the interval grid.
   */
  lemma OneSamplePerCell(interval: int, times: seq<int>, from: nat, k: nat)
    requires interval > 0 && Nondecreasing(times) && SteadyFrom(interval, times, from)
    requires from < k < |times|
    ensures OutcomeAt(interval, times, k).sampled
       <==> forall j | from <= j < k :: times[j] / interval != times[k] / interval
  {
    hide Run;
    StaysCaughtUp(interval, times, from, k - 1);
    assert times[k - 1] <= times[k];
    assert times[k - 1] == times[k - 1] / interval * interval + times[k - 1] % interval;
    SampledIffNewCell(interval, Run(interval, times[..k]), times[k - 1], times[k]);
    NewCellAtOnce(interval, times, from, k);
  }

  /** On a nondecreasing clock a cell is new exactly when it is not that of the call before. */
  lemma NewCellAtOnce(interval: int, times: seq<int>, from: nat, k: nat)
    requires interval > 0 && Nondecreasing(times) && from < k < |times|
    ensures times[k] / interval != times[k - 1] / interval
       <==> forall j | from <= j < k :: times[j] / interval != times[k] / interval
  {
    forall j | from <= j < k && times[j] / interval == times[k] / interval
      ensures times[k - 1] / interval == times[k] / interval
    {
      DivMonotone(times[j], times[k - 1], interval);
      DivMonotone(times[k - 1], times[k], interval);
    }
  }

  lemma DivMonotone(a: int, b: int, interval: int)
    requires interval > 0 && a <= b
    ensures a / interval <= b / interval
  {
    var p, q := a / interval, b / interval;
    Subtract(p, q, interval);
    if q < p {
      Scale(1, p - q, interval);
    }
  }

  // ----- before the sampler has caught up

  /** A multiple of the interval that is not past `before` is the start of its cell or a whole cell behind. */
  lemma OnOrBehind(interval: int, last: int, before: int)
    requires interval > 0 && last % interval == 0 && last <= before
    ensures last == before / interval * interval || last + interval <= before
    ensures last <= before / interval * interval
  {
    var m, q := last / interval, before / interval;
    DivMonotone(last, before, interval);
    if m < q {
      Scale(m + 1, q, interval);
      Subtract(m, -1, interval);
    }
  }

  /**
   * Over every run with a nondecreasing clock, for every call but the first: it is sampled if and only if the sampler
   * had not caught up with the call before, or it is the first call in its cell.
   */
  lemma SampledIffBehindOrNewCell(interval: int, times: seq<int>, k: nat)
    requires 0 < interval <= MAX_DURATION && Nondecreasing(times) && 0 < k < |times| && 0 <= times[0]
    ensures OutcomeAt(interval, times, k).sampled
       <==> !CaughtUp(interval, Run(interval, times[..k]), times[k - 1])
            || times[k] / interval != times[k - 1] / interval
  {
    hide Run;
    var st, before, now := Run(interval, times[..k]), times[k - 1], times[k];
    LastOnGrid(interval, times[..k]);
    assert before <= now;
    OnOrBehind(interval, st.last, before);
    if CaughtUp(interval, st, before) {
      if now - st.last <= MAX_DURATION {
        SampledIffNewCell(interval, st, before, now);
      } else {
        FarAhead(interval, before, now);
      }
    }
  }

  /** A clock more than one interval past the start of a cell has left it. */
  lemma FarAhead(interval: int, before: int, now: int)
    requires interval > 0 && before / interval * interval + interval <= now
    ensures now / interval != before / interval
  {
    assert now == now / interval * interval + now % interval;
  }

  /** How far `last` moves when the difference saturates: the whole intervals in 292 years. */
  function Stride(interval: int): int
    requires interval > 0
  {
    MAX_DURATION / interval * interval
  }

  /** The clock starts after the zero time and has no gap of 292 years or more. */
  predicate Steady(interval: int, times: seq<int>) {
    && Nondecreasing(times) && (times != [] ==> 0 <= times[0])
    && forall j | 0 < j < |times| :: times[j] - times[j - 1] + interval <= MAX_DURATION
  }

  /** A call catches up or, if its difference saturates, takes `last` a stride further. */
  lemma CatchesUpOrStrides(interval: int, st: State, now: int)
    requires 0 < interval <= MAX_DURATION && st.last % interval == 0 && st.last <= now
    ensures now - st.last <= MAX_DURATION ==> CaughtUp(interval, Next(interval, st, now), now)
    ensures now - st.last > MAX_DURATION ==> Next(interval, st, now).last == st.last + Stride(interval)
  {
    if now - st.last <= MAX_DURATION {
      CatchesUp(interval, st, now);
    }
  }

  /** The start of the cell of `before` is less than an interval behind it. */
  lemma CellStart(interval: int, st: State, before: int)
    requires CaughtUp(interval, st, before)
    ensures before < st.last + interval
  {
    assert before == before / interval * interval + before % interval;
  }

  /** After `k` calls the sampler has caught up, or every one of them has taken `last` a stride further. */
  lemma {:induction false} CaughtUpOrStrides(interval: int, times: seq<int>, k: nat)
    requires 0 < interval <= MAX_DURATION && Steady(interval, times) && 0 < k <= |times|
    ensures CaughtUp(interval, Run(interval, times[..k]), times[k - 1])
         || Run(interval, times[..k]).last >= k * Stride(interval)
    decreases k
  {
    var st, now := Run(interval, times[..k - 1]), times[k - 1];
    assert times[..k][..k - 1] == times[..k - 1];
    RunNone(interval);
    LastOnGrid(interval, times[..k - 1]);
    hide Stride, Next, CaughtUp;
    assert Run(interval, times[..k]) == Next(interval, st, now);
    hide Run;
    Subtract(k, 1, Stride(interval));
    if k > 1 {
      CaughtUpOrStrides(interval, times, k - 1);
      assert times[k - 2] <= now && now - times[k - 2] + interval <= MAX_DURATION;
      if CaughtUp(interval, st, times[k - 2]) {
        CellStart(interval, st, times[k - 2]);
      }
    }
    CatchesUpOrStrides(interval, st, now);
  }

  lemma RunNone(interval: int)
    requires interval > 0
    ensures Run(interval, []) == START
  {
  }

  /** So the sampler has caught up at the latest when as many calls as strides fit below the clock have been made. */
  lemma CatchesUpInTime(interval: int, times: seq<int>, k: nat)
    requires 0 < interval <= MAX_DURATION && Steady(interval, times) && 0 < k <= |times|
    requires times[k - 1] < k * Stride(interval)
    ensures CaughtUp(interval, Run(interval, times[..k]), times[k - 1])
  {
    hide Run, Stride;
    CaughtUpOrStrides(interval, times, k);
    LastOnGrid(interval, times[..k]);
  }

  const SECOND: int := 1_000_000_000

  /** With an interval of at most a year, on a clock before the year 2038, that is the seventh call. */
  lemma SeventhCallCatchesUp(interval: int, times: seq<int>)
    requires 0 < interval <= 365 * 86_400 * SECOND && Steady(interval, times) && |times| >= 7
    requires times[6] < 64_280_000_000 * SECOND
    ensures CaughtUp(interval, Run(interval, times[..7]), times[6])
  {
    hide Run;
    assert MAX_DURATION == MAX_DURATION / interval * interval + MAX_DURATION % interval;
    CatchesUpInTime(interval, times, 7);
  }

  /** From then on there is one sample per cell: the first call in it. */
  lemma OneSamplePerCellInTime(interval: int, times: seq<int>, from: nat, k: nat)
    requires 0 < interval <= MAX_DURATION && Steady(interval, times) && from < k < |times|
    requires times[from] < (from + 1) * Stride(interval)
    ensures OutcomeAt(interval, times, k).sampled
       <==> forall j | from <= j < k :: times[j] / interval != times[k] / interval
  {
    hide Run, Stride;
    CatchesUpInTime(interval, times, from + 1);
    OneSamplePerCell(interval, times, from, k);
  }

  /**
   * A fresh sampler with a real clock, more than twice 2^63 ns after the zero time: the first difference saturates,
   * `last` is left behind by centuries, and the next call is sampled whenever it comes.
   */
  lemma FirstCallSaturates(interval: int, times: seq<int>)
    requires 0 < interval <= MAX_DURATION && Nondecreasing(times) && |times| > 1 && times[0] > 2 * MAX_DURATION
    ensures Run(interval, times[..1]).last == Stride(interval) <= MAX_DURATION
    ensures !CaughtUp(interval, Run(interval, times[..1]), times[0])
    ensures OutcomeAt(interval, times, 1).sampled
  {
    assert times[..1][..0] == [];
    MultipleKept(interval, 0, MAX_DURATION);
    assert times[0] == times[0] / interval * interval + times[0] % interval;
    SampledIffBehindOrNewCell(interval, times, 1);
  }
}
