/**
 * When the order of Go's map iteration decides what `Extract` makes of a request: of any request, and of one in which
 * every name occurs once.
 */
module HeaderOrder {
  import opened ByteStrings
  import opened Decimal
  import opened Sampling
  import opened Totals
  import opened Utf8
  import opened HttpPropagation

  type Entry = (Bytes, Bytes)

  /** Each name of the request occurs once, with one value. */
  predicate OneEach(lib: Library, h: Header) {
    && (forall k | k in h :: |h[k]| == 1)
    && forall j, k | j in h && k in h && j != k :: ToLower(lib.fold, j) != ToLower(lib.fold, k)
  }

  function EntryOf(lib: Library, h: Header, k: Bytes): Entry
    requires k in h && |h[k]| == 1
  {
    (ToLower(lib.fold, k), h[k][0])
  }

  /** The context after visiting the headers in the order `ks`. */
  function Outcome(lib: Library, h: Header, ks: seq<Bytes>): Context
    requires forall k | k in ks :: k in h
  {
    VisitAll(lib, Entries(lib, h, ks))
  }

  /** A client header that names another trace or another parent span than this SDK's own header. */
  predicate IdsConflict(lib: Library, x: Entry, y: Entry) {
    x.0 == RUM_PARENT &&
    match lib.parseParent(x.1)
    case None => false
    case Some((traceId, spanId, _)) => (y.0 == TRACE_ID && y.1 != traceId) || (y.0 == SPAN_ID && y.1 != spanId)
  }

  /** A client state that names another application or origin than a baggage header. */
  predicate BaggageConflict(lib: Library, x: Entry, y: Entry) {
    x.0 == RUM_STATE &&
    match lib.parseState(x.1)
    case None => false
    case Some((appId, origin)) =>
      (y.0 == BAGGAGE + APP_ID && y.1 != appId) || (y.0 == BAGGAGE + ORIGIN && y.1 != origin)
  }

  predicate Conflict(lib: Library, x: Entry, y: Entry) {
    IdsConflict(lib, x, y) || BaggageConflict(lib, x, y)
  }

  /** Two headers of the request contradict each other. */
  ghost predicate Contradictory(lib: Library, h: Header)
    requires OneEach(lib, h)
  {
    exists j, k | j in h && k in h :: Conflict(lib, EntryOf(lib, h, j), EntryOf(lib, h, k))
  }

  // ----- what one visit sets

  function Override<T>(before: T, change: Option<T>): T {
    if change.Some? then change.value else before
  }

  /** At most one of two changes, or the same one. */
  predicate Agree<T(==)>(a: Option<T>, b: Option<T>) {
    a.None? || b.None? || a == b
  }

  function TraceIn(lib: Library, e: Entry): Option<Bytes> {
    if e.0 == TRACE_ID then Some(e.1)
    else if e.0 == RUM_PARENT && lib.parseParent(e.1).Some? then Some(lib.parseParent(e.1).value.0)
    else None
  }

  function SpanIn(lib: Library, e: Entry): Option<Bytes> {
    if e.0 == SPAN_ID then Some(e.1)
    else if e.0 == RUM_PARENT && lib.parseParent(e.1).Some? then Some(lib.parseParent(e.1).value.1)
    else None
  }

  function ClientIn(lib: Library, e: Entry): Option<bool> {
    if e.0 == RUM_PARENT && lib.parseParent(e.1).Some? then Some(lib.parseParent(e.1).value.2) else None
  }

  function StrategyIn(e: Entry): Option<Strategy> {
    if e.0 != SAMPLE_HIT then None
    else if Atoi(e.1) == 0 then Some(NotSampled)
    else if Atoi(e.1) == 1 then Some(Sampled)
    else None
  }

  function WeightIn(e: Entry): Option<I64> {
    if e.0 == SAMPLE_WEIGHT then Some(Atoi(e.1)) else None
  }

  function FlagsIn(e: Entry): Option<Flags> {
    if e.0 == SAMPLE_FLAGS then Some(FromInt32(ToI32(ToU64(Atoi(e.1))))) else None
  }

  function BaggageIn(lib: Library, e: Entry): map<Bytes, Bytes> {
    if e.0 == RUM_STATE && lib.parseState(e.1).Some? then
      map[APP_ID := lib.parseState(e.1).value.0][ORIGIN := lib.parseState(e.1).value.1]
    else if IsBaggage(e.0) then map[e.0[|BAGGAGE|..] := e.1]
    else map[]
  }

  lemma BaggageNames()
    ensures !IsBaggage(TRACE_ID) && !IsBaggage(SPAN_ID) && !IsBaggage(SAMPLE_HIT) && !IsBaggage(SAMPLE_WEIGHT)
    ensures !IsBaggage(SAMPLE_FLAGS) && !IsBaggage(RUM_PARENT) && !IsBaggage(RUM_STATE)
  {
    hide Ascii;
    Names();
  }

  /** What one visit, or several, set. */
  datatype Effect = Effect(trace: Option<Bytes>, span: Option<Bytes>, strategy: Option<Strategy>, weight: Option<I64>,
                           client: Option<bool>, flags: Option<Flags>, baggage: map<Bytes, Bytes>)

  const NO_EFFECT := Effect(None, None, None, None, None, None, map[])

  function EffectOf(lib: Library, e: Entry): Effect {
    Effect(TraceIn(lib, e), SpanIn(lib, e), StrategyIn(e), WeightIn(e), ClientIn(lib, e), FlagsIn(e), BaggageIn(lib, e))
  }

  function Apply(ctx: Context, f: Effect): Context {
    var d := ctx.decision;
    Context(Override(ctx.traceId, f.trace), Override(ctx.spanId, f.span),
            Decision(Override(d.strategy, f.strategy), Override(d.weight, f.weight),
                     Override(d.clientSampled, f.client), Override(d.flags, f.flags)),
            ctx.baggage + f.baggage)
  }

  function Later<T>(a: Option<T>, b: Option<T>): Option<T> {
    if b.Some? then b else a
  }

  /** First `f`, then `g`. */
  function Compose(f: Effect, g: Effect): Effect {
    Effect(Later(f.trace, g.trace), Later(f.span, g.span), Later(f.strategy, g.strategy), Later(f.weight, g.weight),
           Later(f.client, g.client), Later(f.flags, g.flags), f.baggage + g.baggage)
  }

  /** The effect of the values of one header, in their order. */
  function ValuesEffect(lib: Library, name: Bytes, vals: seq<Bytes>): Effect {
    if vals == [] then NO_EFFECT
    else Compose(ValuesEffect(lib, name, vals[..|vals| - 1]), EffectOf(lib, (name, vals[|vals| - 1])))
  }

  function HeaderEffect(lib: Library, h: Header, k: Bytes): Effect
    requires k in h
  {
    ValuesEffect(lib, ToLower(lib.fold, k), h[k])
  }

  lemma VisitSetsFields(lib: Library, ctx: Context, e: Entry)
    ensures Visit(lib, ctx, e.0, e.1).(baggage := map[]) == Apply(ctx, EffectOf(lib, e)).(baggage := map[])
  {
    Names();
    hide Ascii, Atoi, FromInt32, ToI32, ToU64, IsBaggage, BaggageIn;
  }

  lemma VisitSetsBaggage(lib: Library, ctx: Context, e: Entry)
    ensures Visit(lib, ctx, e.0, e.1).baggage == ctx.baggage + BaggageIn(lib, e)
  {
    Names();
    BaggageNames();
    hide Ascii, Atoi, FromInt32, ToI32, ToU64, IsBaggage, VisitHit;
  }

  /** A visit overrides each field on its own. */
  lemma VisitApplies(lib: Library, ctx: Context, e: Entry)
    ensures Visit(lib, ctx, e.0, e.1) == Apply(ctx, EffectOf(lib, e))
  {
    VisitSetsFields(lib, ctx, e);
    VisitSetsBaggage(lib, ctx, e);
    hide Visit, TraceIn, SpanIn, StrategyIn, WeightIn, ClientIn, FlagsIn, BaggageIn, Override;
  }

  lemma ApplyCompose(ctx: Context, f: Effect, g: Effect)
    ensures Apply(ctx, Compose(f, g)) == Apply(Apply(ctx, f), g)
  {
    assert ctx.baggage + (f.baggage + g.baggage) == ctx.baggage + f.baggage + g.baggage;
  }

  lemma ApplyNothing(ctx: Context)
    ensures Apply(ctx, NO_EFFECT) == ctx
  {
    assert ctx.baggage + map[] == ctx.baggage;
  }

  lemma {:induction false} VisitValues(lib: Library, entries: seq<Entry>, name: Bytes, vals: seq<Bytes>)
    ensures VisitAll(lib, entries + Values(name, vals)) == Apply(VisitAll(lib, entries), ValuesEffect(lib, name, vals))
    decreases |vals|
  {
    if vals == [] {
      ApplyNothing(VisitAll(lib, entries));
      assert entries + [] == entries;
    } else {
      hide VisitAll, Visit, EffectOf, Apply, Compose;
      var n := |vals| - 1;
      var e := (name, vals[n]);
      var before := entries + Values(name, vals[..n]);
      VisitValues(lib, entries, name, vals[..n]);
      assert entries + Values(name, vals) == before + [e];
      VisitSnoc(lib, before, e);
      VisitApplies(lib, VisitAll(lib, before), e);
      ApplyCompose(VisitAll(lib, entries), ValuesEffect(lib, name, vals[..n]), EffectOf(lib, e));
    }
  }

  // ----- when two headers commute

  /** Two headers set different fields, or the same values. */
  predicate Compatible(f: Effect, g: Effect) {
    && Agree(f.trace, g.trace) && Agree(f.span, g.span) && Agree(f.strategy, g.strategy) && Agree(f.weight, g.weight)
    && Agree(f.client, g.client) && Agree(f.flags, g.flags)
    && forall k | k in f.baggage && k in g.baggage :: f.baggage[k] == g.baggage[k]
  }

  lemma OverridesCommute<T>(x: T, a: Option<T>, b: Option<T>)
    ensures Override(Override(x, a), b) == Override(Override(x, b), a) <==> Agree(a, b)
  {
  }

  lemma MapsCommute(m: map<Bytes, Bytes>, a: map<Bytes, Bytes>, b: map<Bytes, Bytes>)
    ensures m + a + b == m + b + a <==> forall k | k in a && k in b :: a[k] == b[k]
  {
    if m + a + b == m + b + a {
      forall k | k in a && k in b ensures a[k] == b[k] {
        assert (m + a + b)[k] == b[k] && (m + b + a)[k] == a[k];
      }
    }
  }

  lemma EffectsCommute(ctx: Context, f: Effect, g: Effect)
    ensures Apply(Apply(ctx, f), g) == Apply(Apply(ctx, g), f) <==> Compatible(f, g)
  {
    var d := ctx.decision;
    OverridesCommute(ctx.traceId, f.trace, g.trace);
    OverridesCommute(ctx.spanId, f.span, g.span);
    OverridesCommute(d.strategy, f.strategy, g.strategy);
    OverridesCommute(d.weight, f.weight, g.weight);
    OverridesCommute(d.clientSampled, f.client, g.client);
    OverridesCommute(d.flags, f.flags, g.flags);
    MapsCommute(ctx.baggage, f.baggage, g.baggage);
    hide Override, Agree;
  }

  /** No two headers of the request set the same field to different values. */
  ghost predicate Consistent(lib: Library, h: Header) {
    forall j, k | j in h && k in h && j != k :: Compatible(HeaderEffect(lib, h, j), HeaderEffect(lib, h, k))
  }

  // ----- orders of a consistent request

  lemma OutcomeSnoc(lib: Library, h: Header, ks: seq<Bytes>, k: Bytes)
    requires (forall j | j in ks + [k] :: j in h) && k in h
    ensures forall j | j in ks :: j in h
    ensures Outcome(lib, h, ks + [k]) == Apply(Outcome(lib, h, ks), HeaderEffect(lib, h, k))
  {
    hide ToLower, VisitAll, Apply, ValuesEffect;
    forall j | j in ks ensures j in h {
      assert j in ks + [k];
    }
    assert (ks + [k])[..|ks|] == ks;
    VisitValues(lib, Entries(lib, h, ks), ToLower(lib.fold, k), h[k]);
  }

  /** Different keys of a consistent request. */
  ghost predicate Peaceful(lib: Library, h: Header, ks: seq<Bytes>) {
    Consistent(lib, h) && NoDup(ks) && forall k | k in ks :: k in h
  }

  /** A header can be visited last instead. */
  lemma {:induction false} VisitLast(lib: Library, h: Header, ks: seq<Bytes>, i: nat)
    requires Peaceful(lib, h, ks) && i < |ks|
    ensures forall k | k in Without(ks, i) + [ks[i]] :: k in h
    ensures Outcome(lib, h, ks) == Outcome(lib, h, Without(ks, i) + [ks[i]])
    decreases |ks|
  {
    hide Outcome, Apply, HeaderEffect, Compatible;
    var n := |ks| - 1;
    var init, last := ks[..n], ks[n];
    assert ks == init + [last];
    if i == n {
      assert Without(ks, i) + [ks[i]] == ks;
    } else {
      assert Peaceful(lib, h, init);
      VisitLast(lib, h, init, i);
      var w := Without(init, i);
      assert Without(ks, i) == w + [last];
      OutcomeSnoc(lib, h, init, last);
      OutcomeSnoc(lib, h, w, ks[i]);
      OutcomeSnoc(lib, h, w, last);
      OutcomeSnoc(lib, h, w + [last], ks[i]);
      EffectsCommute(Outcome(lib, h, w), HeaderEffect(lib, h, ks[i]), HeaderEffect(lib, h, last));
    }
  }

  /** Any two orders of the same headers give the same context. */
  lemma {:induction false} OrdersAgree(lib: Library, h: Header, xs: seq<Bytes>, ys: seq<Bytes>)
    requires Peaceful(lib, h, xs) && Peaceful(lib, h, ys) && forall k :: k in xs <==> k in ys
    ensures Outcome(lib, h, xs) == Outcome(lib, h, ys)
    decreases |ys|
  {
    hide Consistent, Outcome, Apply, HeaderEffect, NoDup;
    if ys == [] {
      FirstMember(xs);
    } else {
      var n := |ys| - 1;
      assert ys[n] in ys && ys[n] in xs;
      var i :| 0 <= i < |xs| && xs[i] == ys[n];
      VisitLast(lib, h, xs, i);
      RemoveMembers(xs, i);
      RemoveMembers(ys, n);
      assert ys[..n] + ys[n + 1..] == ys[..n] && ys[..n] + [ys[n]] == ys;
      var w := xs[..i] + xs[i + 1..];
      assert Without(xs, i) == w;
      forall k ensures k in w <==> k in ys[..n] {
        assert k in w <==> k in xs && k != xs[i];
        assert k in ys[..n] + ys[n + 1..] <==> k in ys && k != ys[n];
      }
      OrdersAgree(lib, h, Without(xs, i), ys[..n]);
      OutcomeSnoc(lib, h, Without(xs, i), ys[n]);
      OutcomeSnoc(lib, h, ys[..n], ys[n]);
    }
  }

  // ----- orders of an inconsistent one

  /** Every finite map can be listed. */
  lemma {:induction false} Listing<V>(m: map<Bytes, V>) returns (ks: seq<Bytes>)
    ensures Lists(ks, m)
    decreases |m|
  {
    if m == map[] {
      ks := [];
    } else {
      var k :| k in m;
      var rest := Listing(m - {k});
      ks := rest + [k];
      OneMore(rest, m, k);
    }
  }

  lemma TwoMore<V>(rest: seq<Bytes>, m: map<Bytes, V>, j: Bytes, k: Bytes)
    requires j in m && k in m && j != k && Lists(rest, m - {j, k})
    ensures Lists(rest + [j] + [k], m)
  {
    assert m - {j, k} == (m - {k}) - {j};
    OneMore(rest, m - {k}, j);
    OneMore(rest + [j], m, k);
  }

  lemma OneMore<V>(rest: seq<Bytes>, m: map<Bytes, V>, k: Bytes)
    requires k in m && Lists(rest, m - {k})
    ensures Lists(rest + [k], m)
  {
    assert forall a | 0 <= a < |rest| :: rest[a] in rest;
  }

  lemma OrdersDiffer(lib: Library, h: Header) returns (xs: seq<Bytes>, ys: seq<Bytes>)
    requires !Consistent(lib, h)
    ensures Lists(xs, h) && Lists(ys, h) && Outcome(lib, h, xs) != Outcome(lib, h, ys)
  {
    hide Outcome, Apply, HeaderEffect, Compatible;
    var j, k :| j in h && k in h && j != k && !Compatible(HeaderEffect(lib, h, j), HeaderEffect(lib, h, k));
    var rest := Listing(h - {j, k});
    EffectsCommute(Outcome(lib, h, rest), HeaderEffect(lib, h, j), HeaderEffect(lib, h, k));
    xs, ys := rest + [j] + [k], rest + [k] + [j];
    TwoMore(rest, h, j, k);
    TwoMore(rest, h, k, j);
    OutcomeSnoc(lib, h, rest, j);
    OutcomeSnoc(lib, h, rest + [j], k);
    OutcomeSnoc(lib, h, rest, k);
    OutcomeSnoc(lib, h, rest + [k], j);
  }

  /**
   * A request gives the same context in every order of Go's map iteration if and only if no two of its headers set the
   * same field to different values. Of a header with several values the last that sets a field counts.
   */
  lemma OrderIndependentIff(lib: Library, h: Header)
    ensures (forall xs, ys | Lists(xs, h) && Lists(ys, h) :: Outcome(lib, h, xs) == Outcome(lib, h, ys))
       <==> Consistent(lib, h)
  {
    hide Consistent, Outcome, NoDup;
    if Consistent(lib, h) {
      forall xs, ys | Lists(xs, h) && Lists(ys, h) ensures Outcome(lib, h, xs) == Outcome(lib, h, ys) {
        OrdersAgree(lib, h, xs, ys);
      }
    } else {
      var xs, ys := OrdersDiffer(lib, h);
    }
  }

  lemma ExtractedIs(lib: Library, h: Header, xs: seq<Bytes>)
    requires Lists(xs, h)
    ensures Extracted(lib, h, xs) == None || Extracted(lib, h, xs) == Some(Outcome(lib, h, xs))
  {
  }

  /** `Extract` returns the same in every order exactly for these requests and those that never yield both ids. */
  lemma ExtractOrderIff(lib: Library, h: Header)
    ensures (forall xs, ys | Lists(xs, h) && Lists(ys, h) :: Extracted(lib, h, xs) == Extracted(lib, h, ys))
       <==> Consistent(lib, h) || forall xs | Lists(xs, h) :: Extracted(lib, h, xs) == None
  {
    hide Consistent, Extracted, Outcome, NoDup;
    if Consistent(lib, h) {
      forall xs, ys | Lists(xs, h) && Lists(ys, h) ensures Extracted(lib, h, xs) == Extracted(lib, h, ys) {
        ExtractOrderIndependent(lib, h, xs, ys);
      }
    } else {
      var xs, ys := OrdersDiffer(lib, h);
      ExtractedIs(lib, h, xs);
      ExtractedIs(lib, h, ys);
    }
  }

  /** For a consistent request `Extract` returns the same in any two orders. */
  lemma ExtractOrderIndependent(lib: Library, h: Header, xs: seq<Bytes>, ys: seq<Bytes>)
    requires Consistent(lib, h) && Lists(xs, h) && Lists(ys, h)
    ensures Extracted(lib, h, xs) == Extracted(lib, h, ys)
  {
    hide Consistent, NoDup, VisitAll, Entries;
    OrdersAgree(lib, h, xs, ys);
  }

  // ----- requests with one value per name

  lemma BaggageKeys(name: Bytes)
    requires IsBaggage(name)
    ensures name == BAGGAGE + name[|BAGGAGE|..]
  {
  }

  lemma KeysDiffer()
    ensures APP_ID != ORIGIN
  {
    assert |APP_ID| == 14 && |ORIGIN| == 14;
    assert APP_ID[8] == 97 && ORIGIN[8] == 111;
  }

  /** Entries of different names that do not contradict each other set different fields, or the same value. */
  lemma FieldsAgree(lib: Library, x: Entry, y: Entry)
    requires x.0 != y.0 && !Conflict(lib, x, y) && !Conflict(lib, y, x)
    ensures Agree(TraceIn(lib, x), TraceIn(lib, y)) && Agree(SpanIn(lib, x), SpanIn(lib, y))
    ensures Agree(ClientIn(lib, x), ClientIn(lib, y)) && Agree(StrategyIn(x), StrategyIn(y))
    ensures Agree(WeightIn(x), WeightIn(y)) && Agree(FlagsIn(x), FlagsIn(y))
  {
    hide Ascii, Atoi, FromInt32, ToI32, ToU64, BaggageConflict;
  }

  lemma BaggageAgrees(lib: Library, x: Entry, y: Entry)
    requires x.0 != y.0 && !BaggageConflict(lib, x, y) && !BaggageConflict(lib, y, x)
    ensures forall k | k in BaggageIn(lib, x) && k in BaggageIn(lib, y) :: BaggageIn(lib, x)[k] == BaggageIn(lib, y)[k]
  {
    hide Ascii;
    KeysDiffer();
    if IsBaggage(x.0) {
      BaggageKeys(x.0);
    }
    if IsBaggage(y.0) {
      BaggageKeys(y.0);
    }
    hide IsBaggage;
  }

  lemma IdsDisagree(lib: Library, x: Entry, y: Entry)
    requires IdsConflict(lib, x, y)
    ensures x.0 != y.0 && !(Agree(TraceIn(lib, x), TraceIn(lib, y)) && Agree(SpanIn(lib, x), SpanIn(lib, y)))
  {
    Names();
    hide Ascii;
  }

  lemma StateDisagrees(lib: Library, x: Entry, y: Entry)
    requires BaggageConflict(lib, x, y)
    ensures x.0 != y.0
    ensures var key := y.0[|BAGGAGE|..];
            && key in BaggageIn(lib, x) && key in BaggageIn(lib, y)
            && BaggageIn(lib, x)[key] != BaggageIn(lib, y)[key]
  {
    hide Ascii;
    Names();
    KeysDiffer();
    BaggageNames();
    assert (BAGGAGE + APP_ID)[|BAGGAGE|..] == APP_ID && (BAGGAGE + ORIGIN)[|BAGGAGE|..] == ORIGIN;
    assert IsBaggage(BAGGAGE + APP_ID) && IsBaggage(BAGGAGE + ORIGIN);
  }

  lemma ConflictIff(lib: Library, x: Entry, y: Entry)
    ensures Conflict(lib, x, y) ==> x.0 != y.0
    ensures x.0 != y.0
        ==> (Compatible(EffectOf(lib, x), EffectOf(lib, y)) <==> !Conflict(lib, x, y) && !Conflict(lib, y, x))
  {
    hide TraceIn, SpanIn, StrategyIn, WeightIn, ClientIn, FlagsIn, BaggageIn;
    hide Ascii, Agree, IdsConflict, BaggageConflict;
    if IdsConflict(lib, x, y) {
      IdsDisagree(lib, x, y);
    } else if IdsConflict(lib, y, x) {
      IdsDisagree(lib, y, x);
      AgreeBack(TraceIn(lib, x), TraceIn(lib, y));
      AgreeBack(SpanIn(lib, x), SpanIn(lib, y));
    } else if BaggageConflict(lib, x, y) {
      StateDisagrees(lib, x, y);
    } else if BaggageConflict(lib, y, x) {
      StateDisagrees(lib, y, x);
    } else if x.0 != y.0 {
      FieldsAgree(lib, x, y);
      BaggageAgrees(lib, x, y);
    }
  }

  lemma AgreeBack<T>(a: Option<T>, b: Option<T>)
    ensures Agree(a, b) == Agree(b, a)
  {
  }

  lemma OneValueEffect(lib: Library, h: Header, k: Bytes)
    requires k in h && |h[k]| == 1
    ensures HeaderEffect(lib, h, k) == EffectOf(lib, EntryOf(lib, h, k))
  {
    hide EffectOf, ToLower;
    var name := ToLower(lib.fold, k);
    assert h[k][..0] == [];
    assert ValuesEffect(lib, name, h[k][..0]) == NO_EFFECT;
    var f := EffectOf(lib, EntryOf(lib, h, k));
    assert map[] + f.baggage == f.baggage;
    assert Compose(NO_EFFECT, f) == f;
  }

  /** When each name occurs once, with one value, inconsistent means that two headers contradict each other. */
  lemma ConsistentIff(lib: Library, h: Header)
    requires OneEach(lib, h)
    ensures Consistent(lib, h) <==> !Contradictory(lib, h)
  {
    hide HeaderEffect, EffectOf, Compatible, Conflict, ToLower;
    forall j, k | j in h && k in h
      ensures Conflict(lib, EntryOf(lib, h, j), EntryOf(lib, h, k)) ==> j != k
      ensures j != k ==> (Compatible(HeaderEffect(lib, h, j), HeaderEffect(lib, h, k))
                          <==> !Conflict(lib, EntryOf(lib, h, j), EntryOf(lib, h, k))
                               && !Conflict(lib, EntryOf(lib, h, k), EntryOf(lib, h, j)))
    {
      OneValueEffect(lib, h, j);
      OneValueEffect(lib, h, k);
      ConflictIff(lib, EntryOf(lib, h, j), EntryOf(lib, h, k));
    }
  }

  // ----- a request that contradicts itself

  /** A request that carries both this SDK's ids and a client's W3C header. */
  function MixedRequest(traceId: Bytes, spanId: Bytes, value: Bytes): Header {
    map[Canonical(TRACE_ID) := [traceId], Canonical(SPAN_ID) := [spanId], Canonical(RUM_PARENT) := [value]]
  }

  lemma OneVisit(lib: Library, h: Header, ks: seq<Bytes>, k: Bytes)
    requires (forall j | j in ks + [k] :: j in h) && k in h && |h[k]| == 1
    ensures forall j | j in ks :: j in h
    ensures var e := EntryOf(lib, h, k);
            Outcome(lib, h, ks + [k]) == Visit(lib, Outcome(lib, h, ks), e.0, e.1)
  {
    hide ToLower, Visit, VisitAll, Entries;
    OneMoreEntry(lib, h, ks, k);
    VisitSnoc(lib, Entries(lib, h, ks), EntryOf(lib, h, k));
  }

  lemma ThreeVisits(lib: Library, h: Header, x: Bytes, y: Bytes, z: Bytes)
    requires x in h && y in h && z in h && |h[x]| == |h[y]| == |h[z]| == 1
    ensures var a, b, c := EntryOf(lib, h, x), EntryOf(lib, h, y), EntryOf(lib, h, z);
            Outcome(lib, h, [x, y, z])
            == Visit(lib, Visit(lib, Visit(lib, NOTHING, a.0, a.1), b.0, b.1), c.0, c.1)
  {
    assert Outcome(lib, h, []) == NOTHING;
    hide Visit, EntryOf, Outcome;
    OneVisit(lib, h, [], x);
    OneVisit(lib, h, [x], y);
    OneVisit(lib, h, [x, y], z);
    assert [] + [x] == [x] && [x] + [y] == [x, y] && [x, y] + [z] == [x, y, z];
  }

  lemma MixedNames(lib: Library, traceId: Bytes, spanId: Bytes, value: Bytes)
    ensures var h := MixedRequest(traceId, spanId, value);
            && OneEach(lib, h)
            && EntryOf(lib, h, Canonical(TRACE_ID)) == (TRACE_ID, traceId)
            && EntryOf(lib, h, Canonical(SPAN_ID)) == (SPAN_ID, spanId)
            && EntryOf(lib, h, Canonical(RUM_PARENT)) == (RUM_PARENT, value)
  {
    hide ToLower, Canonical, Ascii;
    Names();
    NamesLowered(lib.fold);
    LowerCanonical(lib.fold, TRACE_ID);
    LowerCanonical(lib.fold, SPAN_ID);
    LowerCanonical(lib.fold, RUM_PARENT);
  }

  /** It contradicts itself unless the client names the same trace and span. */
  lemma MixedContradicts(lib: Library, traceId: Bytes, spanId: Bytes, value: Bytes)
    requires lib.parseParent(value).Some?
    ensures OneEach(lib, MixedRequest(traceId, spanId, value))
    ensures var (clientTrace, clientSpan, _) := lib.parseParent(value).value;
            Contradictory(lib, MixedRequest(traceId, spanId, value))
            <==> traceId != clientTrace || spanId != clientSpan
  {
    hide ToLower, Canonical, Ascii, EntryOf, OneEach;
    Names();
    MixedNames(lib, traceId, spanId, value);
    var h := MixedRequest(traceId, spanId, value);
    var (clientTrace, clientSpan, _) := lib.parseParent(value).value;
    var t, s, r := Canonical(TRACE_ID), Canonical(SPAN_ID), Canonical(RUM_PARENT);
    if traceId != clientTrace {
      assert Conflict(lib, EntryOf(lib, h, r), EntryOf(lib, h, t));
    } else if spanId != clientSpan {
      assert Conflict(lib, EntryOf(lib, h, r), EntryOf(lib, h, s));
    }
  }

  /** Of such a request, extract takes the ids it visits last, so the order of Go's map iteration decides the trace. */
  lemma LastIdsWin(lib: Library, traceId: Bytes, spanId: Bytes, value: Bytes, clientTrace: Bytes, clientSpan: Bytes,
                   clientSampled: bool)
    requires lib.parseParent(value) == Some((clientTrace, clientSpan, clientSampled))
    requires traceId != [] && spanId != [] && clientTrace != [] && clientSpan != []
    ensures var h := MixedRequest(traceId, spanId, value);
            var t, s, r := Canonical(TRACE_ID), Canonical(SPAN_ID), Canonical(RUM_PARENT);
            var clientLast, clientFirst := Extracted(lib, h, [t, s, r]), Extracted(lib, h, [r, t, s]);
            && clientLast.Some? && clientLast.value.traceId == clientTrace && clientLast.value.spanId == clientSpan
            && clientFirst.Some? && clientFirst.value.traceId == traceId && clientFirst.value.spanId == spanId
  {
    hide ToLower, Canonical, Ascii, VisitAll, Entries, EntryOf;
    Names();
    var h := MixedRequest(traceId, spanId, value);
    var t, s, r := Canonical(TRACE_ID), Canonical(SPAN_ID), Canonical(RUM_PARENT);
    MixedNames(lib, traceId, spanId, value);
    ThreeVisits(lib, h, t, s, r);
    ThreeVisits(lib, h, r, t, s);
  }
}
