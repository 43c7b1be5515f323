/** Starting spans, and a trace that crosses processes: one sampling decision from end to end. */
module TraceChain {
  import opened ByteStrings
  import opened Sampling
  import Binary = BinaryPropagation
  import Http = HttpPropagation
  import Utf8

  /** What a span started under `parent` says: the parent's trace, decision and baggage under a new span id. */
  function Child(parent: Context, spanId: Bytes, sampled: bool, weight: I64): Context {
    Context(parent.traceId, spanId, Settle(parent.decision, sampled, weight), parent.baggage)
  }

  const UNDECIDED := Decision(Unknown, 0, false, FlagsUnknown)

  /** A span without a parent. */
  function Root(traceId: Bytes, spanId: Bytes, sampled: bool, weight: I64): Context {
    Context(traceId, spanId, Settle(UNDECIDED, sampled, weight), map[])
  }

  // ----- the objects

  /** The part of a trace context every span of the process shares. */
  class TraceContext {
    var traceId: Bytes
    var decision: Decision

    constructor (traceId: Bytes, decision: Decision)
      ensures this.traceId == traceId && this.decision == decision
    {
      this.traceId, this.decision := traceId, decision;
    }

    /** The two settling blocks of `startSpan`, in place. */
    method SettleInPlace(sampled: bool, weight: I64)
      modifies this`decision
      ensures decision == Settle(old(decision), sampled, weight)
    {
      if decision.strategy == Unknown {
        if sampled {
          decision := decision.(strategy := Sampled, weight := weight);
        } else {
          decision := decision.(strategy := NotSampled);
        }
      }
      if decision.flags == FlagsUnknown {
        if decision.strategy == NotSampled {
          decision := decision.(flags := if decision.clientSampled then FlagsClient else FlagsNotSampled);
        } else if decision.strategy == Sampled {
          decision := decision.(flags := if decision.clientSampled then FlagsClientAndServer else FlagsServer);
        }
      }
    }
  }

  class SpanContext {
    const spanId: Bytes
    const parentSpanId: Bytes
    const traceContext: TraceContext
    var baggage: map<Bytes, Bytes>

    constructor (spanId: Bytes, parentSpanId: Bytes, traceContext: TraceContext, baggage: map<Bytes, Bytes>)
      ensures this.spanId == spanId && this.parentSpanId == parentSpanId && this.traceContext == traceContext
      ensures this.baggage == baggage
    {
      this.spanId, this.parentSpanId, this.traceContext, this.baggage := spanId, parentSpanId, traceContext, baggage;
    }

    function Says(): Context
      reads this, traceContext
    {
      Context(traceContext.traceId, spanId, traceContext.decision, baggage)
    }
  }

  /** A parent in the same process, one taken from a carrier, or none. */
  datatype Parent = Local(span: SpanContext) | Remote(ctx: Context) | NoParent

  /**
   * `startSpan` up to `addSpan`. A local child shares its parent's trace context object, and never changes it once the
   * decision in it is settled.
   */
  method StartSpan(parent: Parent, newTraceId: Bytes, newSpanId: Bytes, sampled: bool, weight: I64)
    returns (s: SpanContext)
    modifies if parent.Local? then {parent.span.traceContext} else {}
    ensures fresh(s) && s.spanId == newSpanId
    ensures parent.Local? ==> s.traceContext == parent.span.traceContext && s.parentSpanId == parent.span.spanId
    ensures parent.Local? ==> s.Says() == Child(old(parent.span.Says()), newSpanId, sampled, weight)
    ensures parent.Local? && old(Settled(parent.span.traceContext.decision))
        ==> parent.span.Says() == old(parent.span.Says())
    ensures parent.Remote? ==> fresh(s.traceContext) && s.parentSpanId == parent.ctx.spanId
    ensures parent.Remote? ==> s.Says() == Child(parent.ctx, newSpanId, sampled, weight)
    ensures parent.NoParent? ==> fresh(s.traceContext) && s.parentSpanId == []
    ensures parent.NoParent? ==> s.Says() == Root(newTraceId, newSpanId, sampled, weight)
  {
    var parentSpanId: Bytes := [];
    var traceCtx: TraceContext;
    var baggage: map<Bytes, Bytes> := map[];
    match parent {
      case Local(span) =>
        SettleOnce(span.traceContext.decision, sampled, weight, sampled, weight);
        parentSpanId := span.spanId;
        traceCtx := span.traceContext;
        baggage := span.baggage;
      case Remote(ctx) =>
        parentSpanId := ctx.spanId;
        traceCtx := new TraceContext(ctx.traceId, ctx.decision);
        baggage := ctx.baggage;
      case NoParent =>
        traceCtx := new TraceContext(newTraceId, UNDECIDED);
    }
    traceCtx.SettleInPlace(sampled, weight);
    s := new SpanContext(newSpanId, parentSpanId, traceCtx, baggage);
  }

  // ----- chains

  /** How the next span learns of its parent, with the orders in which the maps on the way are iterated. */
  datatype Carrier =
    | InMemory
    | HttpCarrier(written: seq<Bytes>, visited: seq<Bytes>)
    | BinaryCarrier(counted: seq<Bytes>, written: seq<Bytes>)

  /** One hop: the carrier, the id of the new span, and what the sampler there would answer. */
  datatype Hop = Hop(carrier: Carrier, spanId: Bytes, sampled: bool, weight: I64)

  /** The orders list the maps; binary lengths fit their fields. */
  ghost predicate Fits(c: Context, carrier: Carrier) {
    match carrier
    case InMemory => true
    case HttpCarrier(written, visited) =>
      Lists(written, c.baggage) && Lists(visited, Http.Injected(map[], c, written))
    case BinaryCarrier(counted, written) =>
      Lists(counted, c.baggage) && Lists(written, c.baggage) && Binary.Lengths(c)
  }

  /** What arrives when a context is injected into a fresh carrier and extracted. */
  ghost function Arrives(lib: Http.Library, c: Context, carrier: Carrier)
    : Option<Context>
    requires Fits(c, carrier)
  {
    match carrier
    case InMemory => Some(c)
    case HttpCarrier(written, visited) => Http.Extracted(lib, Http.Injected(map[], c, written), visited)
    case BinaryCarrier(counted, written) =>
      match Binary.Extracted(Binary.Injected(c, counted, written))
      case Got(ctx) => Some(ctx)
      case _ => None
  }

  /** Equal in everything the chain must keep. */
  predicate SameDecision(c: Context, d: Context) {
    && d.traceId == c.traceId && d.decision.strategy == c.decision.strategy && d.decision.weight == c.decision.weight
    && d.decision.flags == c.decision.flags
  }

  /** A context that can be passed on: settled, with ids and a 32-bit weight. */
  predicate Sendable(c: Context) {
    Settled(c.decision) && c.traceId != [] && c.spanId != [] && -TWO_31 <= c.decision.weight < TWO_31
  }

  lemma HopArrives(lib: Http.Library, c: Context, carrier: Carrier)
    requires Sendable(c) && Fits(c, carrier)
    ensures var r := Arrives(lib, c, carrier);
            && r.Some? && SameDecision(c, r.value) && r.value.spanId == c.spanId
            && (Http.LowerKeys(lib, c.baggage) ==> r.value.baggage == c.baggage)
  {
    hide Binary.Extracted, Binary.Injected, Binary.Lengths, Http.Injected, Http.VisitAll, Http.Entries, Http.LowerKeys;
    match carrier
    case InMemory =>
    case HttpCarrier(written, visited) =>
      Http.FieldsSurvive(lib, c, written, visited);
      if Http.LowerKeys(lib, c.baggage) {
        Http.LowerBaggageSurvives(lib, c, written, visited);
      }
    case BinaryCarrier(counted, written) => Binary.BinaryRoundTrip(c, counted, written);
  }

  /**
   * The spans along a chain that starts under `c`, each with the parent id it was given; it ends early if a carrier
   * loses the context.
   */
  ghost function Chain(lib: Http.Library, c: Context, hops: seq<Hop>)
    : seq<(Context, Bytes)>
    decreases |hops|
  {
    if hops == [] || !Fits(c, hops[0].carrier) then []
    else
      match Arrives(lib, c, hops[0].carrier)
      case None => []
      case Some(ctx) =>
        var next := Child(ctx, hops[0].spanId, hops[0].sampled, hops[0].weight);
        [(next, ctx.spanId)] + Chain(lib, next, hops[1..])
  }

  /** Each hop's orders and lengths are right for the context it carries, and new span ids are not empty. */
  ghost predicate ChainFits(lib: Http.Library, c: Context, hops: seq<Hop>)
    decreases |hops|
  {
    hops == [] ||
    (Fits(c, hops[0].carrier) && hops[0].spanId != [] &&
     match Arrives(lib, c, hops[0].carrier)
     case None => true
     case Some(ctx) =>
       ChainFits(lib, Child(ctx, hops[0].spanId, hops[0].sampled, hops[0].weight), hops[1..]))
  }

  function PreviousId(c: Context, chain: seq<(Context, Bytes)>, i: nat): Bytes
    requires i < |chain|
  {
    if i == 0 then c.spanId else chain[i - 1].0.spanId
  }

  lemma OneHop(lib: Http.Library, c: Context, hop: Hop)
    requires Sendable(c) && Fits(c, hop.carrier) && hop.spanId != []
    ensures var r := Arrives(lib, c, hop.carrier);
            && r.Some? && r.value.spanId == c.spanId
            && var next := Child(r.value, hop.spanId, hop.sampled, hop.weight);
               && SameDecision(c, next) && Sendable(next) && next.spanId == hop.spanId
               && (Http.LowerKeys(lib, c.baggage) ==> next.baggage == c.baggage)
  {
    hide Arrives, Fits, Http.LowerKeys;
    HopArrives(lib, c, hop.carrier);
    var ctx := Arrives(lib, c, hop.carrier).value;
    SettleOnce(ctx.decision, hop.sampled, hop.weight, hop.sampled, hop.weight);
  }

  /**
   * One decision per trace: along any chain of local children, HTTP and binary hops, whatever the samplers on the way
   * answer and whatever the baggage, no context is lost, trace id, strategy, weight and flags stay what the first
   * `startSpan` fixed, each parent id is the previous span id, and every process collects or none does. Baggage whose
   * keys are their own lower case travels along unchanged.
   */
  lemma {:induction false} OneDecision(lib: Http.Library, c: Context, hops: seq<Hop>)
    requires Sendable(c) && ChainFits(lib, c, hops)
    ensures var chain := Chain(lib, c, hops);
            && |chain| == |hops|
            && forall i | 0 <= i < |chain| ::
                 && SameDecision(c, chain[i].0) && Settled(chain[i].0.decision)
                 && chain[i].0.spanId == hops[i].spanId && chain[i].1 == PreviousId(c, chain, i)
                 && Collects(chain[i].0.decision) == Collects(c.decision)
                 && (Http.LowerKeys(lib, c.baggage) ==> chain[i].0.baggage == c.baggage)
    decreases |hops|
  {
    if hops != [] {
      OneHop(lib, c, hops[0]);
      hide Arrives, Fits, Child, Http.LowerKeys;
      var ctx := Arrives(lib, c, hops[0].carrier).value;
      var next := Child(ctx, hops[0].spanId, hops[0].sampled, hops[0].weight);
      OneDecision(lib, next, hops[1..]);
      var chain, rest := Chain(lib, c, hops), Chain(lib, next, hops[1..]);
      assert chain == [(next, ctx.spanId)] + rest;
      forall i | 0 <= i < |chain|
        ensures SameDecision(c, chain[i].0) && Settled(chain[i].0.decision)
        ensures chain[i].0.spanId == hops[i].spanId && chain[i].1 == PreviousId(c, chain, i)
        ensures Collects(chain[i].0.decision) == Collects(c.decision)
        ensures Http.LowerKeys(lib, c.baggage) ==> chain[i].0.baggage == c.baggage
      {
        if i > 0 {
          assert chain[i] == rest[i - 1];
          assert PreviousId(c, chain, i) == PreviousId(next, rest, i - 1);
        }
      }
    }
  }

  /** The first `startSpan`, with any parent or none, fixes a decision that can be passed on. */
  lemma FirstSpanSendable(p: Context, spanId: Bytes, sampled: bool, weight: I64)
    requires p.traceId != [] && spanId != [] && -TWO_31 <= p.decision.weight < TWO_31 && -TWO_31 <= weight < TWO_31
    ensures Sendable(Child(p, spanId, sampled, weight))
  {
    SettleOnce(p.decision, sampled, weight, sampled, weight);
  }

  /**
   * A span without a parent starts a trace under the new ids, without baggage, that is collected if and only if the
   * sampler took it, and then has the sampler's weight.
   */
  lemma RootDecides(traceId: Bytes, spanId: Bytes, sampled: bool, weight: I64)
    ensures var r := Root(traceId, spanId, sampled, weight);
            && r.traceId == traceId && r.spanId == spanId && r.baggage == map[]
            && (Collects(r.decision) <==> sampled) && (r.decision.strategy == Sampled <==> sampled)
            && r.decision.weight == (if sampled then weight else 0) && !r.decision.clientSampled
            && Settled(r.decision)
  {
    SamplerDecides(UNDECIDED, sampled, weight);
    SettleOnce(UNDECIDED, sampled, weight, sampled, weight);
    CollectsIffSomeoneSampled(UNDECIDED, sampled, weight);
  }

  /** So the sampler of the first process decides for every process the trace reaches. */
  lemma RootDecidesForAll(lib: Http.Library, traceId: Bytes, spanId: Bytes, sampled: bool, weight: I64, hops: seq<Hop>)
    requires traceId != [] && spanId != [] && -TWO_31 <= weight < TWO_31
    requires ChainFits(lib, Root(traceId, spanId, sampled, weight), hops)
    ensures var chain := Chain(lib, Root(traceId, spanId, sampled, weight), hops);
            && |chain| == |hops|
            && forall i | 0 <= i < |chain| ::
                 && chain[i].0.traceId == traceId && chain[i].0.baggage == map[]
                 && (Collects(chain[i].0.decision) <==> sampled)
                 && (chain[i].0.decision.strategy == Sampled <==> sampled)
                 && chain[i].0.decision.weight == (if sampled then weight else 0)
  {
    hide Root, Chain, ChainFits, Collects;
    var root := Root(traceId, spanId, sampled, weight);
    RootDecides(traceId, spanId, sampled, weight);
    OneDecision(lib, root, hops);
    assert Http.LowerKeys(lib, root.baggage);
  }

  /** With a parent whose strategy is unknown the sampler of this process decides; otherwise the parent has. */
  lemma ChildDecides(p: Context, spanId: Bytes, sampled: bool, weight: I64)
    ensures var c := Child(p, spanId, sampled, weight);
            && c.traceId == p.traceId && c.spanId == spanId && c.baggage == p.baggage && Settled(c.decision)
            && (c.decision.strategy == Sampled <==>
                 if p.decision.strategy == Unknown then sampled else p.decision.strategy == Sampled)
            && c.decision.weight == (if p.decision.strategy == Unknown && sampled then weight else p.decision.weight)
  {
    SamplerDecides(p.decision, sampled, weight);
    SettleOnce(p.decision, sampled, weight, sampled, weight);
  }

  /** A request that carries only the W3C header of a client. */
  ghost function ClientRequest(value: Bytes): Http.Header {
    map[Http.Canonical(Http.RUM_PARENT) := [value]]
  }

  /**
   * A trace that starts at a client: the first span takes over the client's ids, and the trace is collected if and only
   * if the client or this server samples it, here and, by `OneDecision`, in every process it reaches.
   */
  lemma ClientStartsTrace(lib: Http.Library, value: Bytes, traceId: Bytes,
                          clientSpan: Bytes, clientSampled: bool, spanId: Bytes, sampled: bool, weight: I64)
    requires lib.parseParent(value) == Some((traceId, clientSpan, clientSampled)) && traceId != [] && clientSpan != []
    ensures var r := Http.Extracted(lib, ClientRequest(value), [Http.Canonical(Http.RUM_PARENT)]);
            && r.Some? && r.value.traceId == traceId && r.value.spanId == clientSpan
            && (Collects(Child(r.value, spanId, sampled, weight).decision) <==> clientSampled || sampled)
  {
    hide Utf8.ToLower, Http.VisitAll, Http.Ascii, Http.Canonical;
    var key := Http.Canonical(Http.RUM_PARENT);
    Http.OneMoreEntry(lib, ClientRequest(value), [], key);
    assert [] + [key] == [key];
    Http.LowerCanonical(lib.fold, Http.RUM_PARENT);
    Http.NamesLowered(lib.fold);
    Http.Names();
    Http.StartVisit(lib);
    Http.VisitSnoc(lib, [], (Http.RUM_PARENT, value));
    assert [] + [(Http.RUM_PARENT, value)] == [(Http.RUM_PARENT, value)];
    var ctx := Http.VisitAll(lib, [(Http.RUM_PARENT, value)]);
    CollectsIffSomeoneSampled(ctx.decision, sampled, weight);
  }
}
