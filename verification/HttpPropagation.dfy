/** The HTTP header carrier: inject and extract of a span context, for any order in which headers are visited. */
module HttpPropagation {
  import opened ByteStrings
  import opened Decimal
  import opened Sampling
  import opened Utf8

  /** `http.Header`: canonical field names and their values. */
  type Header = map<Bytes, seq<Bytes>>

  function Ascii(s: string): (r: Bytes)
    requires forall i | 0 <= i < |s| :: s[i] < 128 as char
    ensures |r| == |s| && IsAscii(r)
  {
    seq(|s|, i requires 0 <= i < |s| => s[i] as int)
  }

  const TRACE_ID: Bytes := Ascii("x-trace-id")
  const SPAN_ID: Bytes := Ascii("x-span-id")
  const SAMPLE_HIT: Bytes := Ascii("x-sample-hit")
  const SAMPLE_WEIGHT: Bytes := Ascii("x-sample-weight")
  const SAMPLE_FLAGS: Bytes := Ascii("x-sample-flags")
  const RUM_PARENT: Bytes := Ascii("x-rum-traceparent")
  const RUM_STATE: Bytes := Ascii("x-rum-tracestate")
  const BAGGAGE: Bytes := Ascii("x-baggage-")
  const APP_ID: Bytes := Ascii("apmplus.app_id")
  const ORIGIN: Bytes := Ascii("apmplus.origin")

  lemma NameLengths()
    ensures |TRACE_ID| == 10 && |SPAN_ID| == 9 && |SAMPLE_HIT| == 12 && |SAMPLE_WEIGHT| == 15 && |SAMPLE_FLAGS| == 14
    ensures |RUM_PARENT| == 17 && |RUM_STATE| == 16 && |BAGGAGE| == 10
    ensures TRACE_ID[2] != BAGGAGE[2] && SPAN_ID[2] != BAGGAGE[2] && SAMPLE_HIT[2] != BAGGAGE[2]
    ensures SAMPLE_WEIGHT[2] != BAGGAGE[2] && SAMPLE_FLAGS[2] != BAGGAGE[2]
    ensures RUM_PARENT[2] != BAGGAGE[2] && RUM_STATE[2] != BAGGAGE[2]
  {
  }

  lemma LowerLiteral(s: string)
    requires forall i | 0 <= i < |s| :: s[i] < 128 as char && !('A' <= s[i] <= 'Z')
    ensures LowerCase(Ascii(s))
  {
  }

  lemma LowerNames()
    ensures LowerCase(TRACE_ID) && LowerCase(SPAN_ID) && LowerCase(SAMPLE_HIT) && LowerCase(SAMPLE_WEIGHT)
    ensures LowerCase(SAMPLE_FLAGS) && LowerCase(BAGGAGE) && LowerCase(RUM_PARENT) && LowerCase(RUM_STATE)
  {
    hide Ascii, LowerCase;
    LowerLiteral("x-trace-id");
    LowerLiteral("x-span-id");
    LowerLiteral("x-sample-hit");
    LowerLiteral("x-sample-weight");
    LowerLiteral("x-sample-flags");
    LowerLiteral("x-baggage-");
    LowerLiteral("x-rum-traceparent");
    LowerLiteral("x-rum-tracestate");
  }

  /** The names differ in length, and in their third byte from every baggage header. */
  lemma Names()
    ensures |TRACE_ID| == 10 && |SPAN_ID| == 9 && |SAMPLE_HIT| == 12 && |SAMPLE_WEIGHT| == 15 && |SAMPLE_FLAGS| == 14
    ensures |RUM_PARENT| == 17 && |RUM_STATE| == 16 && |BAGGAGE| == 10
    ensures TRACE_ID[2] != BAGGAGE[2] && SPAN_ID[2] != BAGGAGE[2] && SAMPLE_HIT[2] != BAGGAGE[2]
    ensures SAMPLE_WEIGHT[2] != BAGGAGE[2] && SAMPLE_FLAGS[2] != BAGGAGE[2]
    ensures RUM_PARENT[2] != BAGGAGE[2] && RUM_STATE[2] != BAGGAGE[2]
  {
    hide Ascii;
    NameLengths();
  }

  /** The names are their own lower case. */
  lemma NamesLowered(fold: int -> int)
    ensures ToLower(fold, TRACE_ID) == TRACE_ID && ToLower(fold, SPAN_ID) == SPAN_ID
    ensures ToLower(fold, SAMPLE_HIT) == SAMPLE_HIT && ToLower(fold, SAMPLE_WEIGHT) == SAMPLE_WEIGHT
    ensures ToLower(fold, SAMPLE_FLAGS) == SAMPLE_FLAGS && ToLower(fold, BAGGAGE) == BAGGAGE
    ensures ToLower(fold, RUM_PARENT) == RUM_PARENT && ToLower(fold, RUM_STATE) == RUM_STATE
  {
    hide LowerCase, ToLower, IsAscii;
    LowerNames();
    LowerOfAscii(fold, TRACE_ID);
    LowerOfAscii(fold, SPAN_ID);
    LowerOfAscii(fold, SAMPLE_HIT);
    LowerOfAscii(fold, SAMPLE_WEIGHT);
    LowerOfAscii(fold, SAMPLE_FLAGS);
    LowerOfAscii(fold, BAGGAGE);
    LowerOfAscii(fold, RUM_PARENT);
    LowerOfAscii(fold, RUM_STATE);
  }

  predicate IsLower(b: Byte) {
    97 <= b <= 122
  }

  /** The token characters of section 3.2.6 of RFC 7230. */
  predicate IsToken(b: Byte) {
    || 48 <= b <= 57 || IsUpper(b) || IsLower(b)
    || b == 33 || 35 <= b <= 39 || b == 42 || b == 43 || b == 45 || b == 46 || b == 94 || b == 95 || b == 96
    || b == 124 || b == 126
  }

  function CanonicalByte(s: Bytes, i: nat): Byte
    requires i < |s|
  {
    if (i == 0 || s[i - 1] == 45) && IsLower(s[i]) then s[i] - 32
    else if i > 0 && s[i - 1] != 45 && IsUpper(s[i]) then s[i] + 32
    else s[i]
  }

  /** `http.CanonicalHeaderKey`: a name that is no token stays as it is. */
  function Canonical(s: Bytes): (r: Bytes)
    ensures |r| == |s|
  {
    if forall i | 0 <= i < |s| :: IsToken(s[i]) then seq(|s|, i requires 0 <= i < |s| => CanonicalByte(s, i)) else s
  }

  /** A canonical name differs in the case of ASCII letters only, so it is lowered to the same name. */
  lemma LowerCanonical(fold: int -> int, s: Bytes)
    ensures ToLower(fold, Canonical(s)) == ToLower(fold, s)
  {
    hide ToLower;
    if forall i | 0 <= i < |s| :: IsToken(s[i]) {
      LowerOfAscii(fold, s);
      LowerOfAscii(fold, Canonical(s));
      assert LowerAscii(Canonical(s)) == LowerAscii(s);
    }
  }

  predicate IsName(s: Bytes) {
    forall i | 0 <= i < |s| :: IsToken(s[i])
  }

  /** Names have the same canonical form exactly when they differ in the case of letters only. */
  lemma CanonicalIff(s: Bytes, t: Bytes)
    requires IsName(s) && IsName(t)
    ensures Canonical(s) == Canonical(t) <==> LowerAscii(s) == LowerAscii(t)
  {
    hide Canonical, LowerAscii, IsName;
    if Canonical(s) == Canonical(t) {
      CanonicalLowers(s);
      CanonicalLowers(t);
    }
    if LowerAscii(s) == LowerAscii(t) {
      SameCanonical(s, t);
    }
  }

  lemma CanonicalLowers(s: Bytes)
    ensures LowerAscii(Canonical(s)) == LowerAscii(s)
  {
    if IsName(s) {
      forall i | 0 <= i < |s| ensures LowerByte(Canonical(s)[i]) == LowerByte(s[i]) {
        CanonicalByteLowers(s, i);
      }
      assert LowerAscii(Canonical(s)) == LowerAscii(s);
    }
  }

  lemma SameCanonical(s: Bytes, t: Bytes)
    requires IsName(s) && IsName(t) && LowerAscii(s) == LowerAscii(t)
    ensures Canonical(s) == Canonical(t)
  {
    assert |s| == |LowerAscii(s)| == |t|;
    forall i | 0 <= i < |s| ensures CanonicalByte(s, i) == CanonicalByte(t, i) {
      assert LowerAscii(s)[i] == LowerAscii(t)[i];
      assert i > 0 ==> LowerAscii(s)[i - 1] == LowerAscii(t)[i - 1];
    }
    assert Canonical(s) == Canonical(t);
  }

  lemma CanonicalByteLowers(s: Bytes, i: nat)
    requires i < |s|
    ensures LowerByte(CanonicalByte(s, i)) == LowerByte(s[i])
  {
  }

  /** `Header.Set` */
  function Set(h: Header, key: Bytes, value: Bytes): Header {
    h[Canonical(key) := [value]]
  }

  // ----- inject

  function HitText(s: Strategy): Bytes {
    if s == Sampled then [ZERO + 1] else [ZERO]
  }

  function SetSample(h: Header, d: Decision): Header {
    if d.strategy == Unknown then h
    else Set(Set(h, SAMPLE_HIT, HitText(d.strategy)), SAMPLE_WEIGHT, Itoa(d.weight))
  }

  function SetBaggage(h: Header, ks: seq<Bytes>, m: map<Bytes, Bytes>): Header
    requires forall k | k in ks :: k in m
  {
    if ks == [] then h
    else
      assert ks[|ks| - 1] in ks;
      Set(SetBaggage(h, ks[..|ks| - 1], m), BAGGAGE + ks[|ks| - 1], m[ks[|ks| - 1]])
  }

  /** What `Inject` leaves in a carrier that held `h`; `ks` is the order of the baggage iteration. */
  function Injected(h: Header, c: Context, ks: seq<Bytes>): Header
    requires forall k | k in ks :: k in c.baggage
  {
    var ids := Set(Set(h, TRACE_ID, c.traceId), SPAN_ID, c.spanId);
    Set(SetBaggage(SetSample(ids, c.decision), ks, c.baggage), SAMPLE_FLAGS, FlagsText(c.decision.flags))
  }

  /** `Set` puts the value under the canonical name in place of what was there, and touches nothing else. */
  lemma SetReplaces(h: Header, key: Bytes, value: Bytes, other: Bytes)
    ensures Set(h, key, value)[Canonical(key)] == [value]
    ensures Canonical(key) != other ==> (other in Set(h, key, value) <==> other in h)
    ensures Canonical(key) != other && other in h ==> Set(h, key, value)[other] == h[other]
  {
  }

  /** A name is not the name of a baggage header. */
  lemma NotBaggage(name: Bytes, k: Bytes)
    requires IsAscii(name) && LowerCase(name) && |name| > 2 && name[2] != BAGGAGE[2] && |BAGGAGE| > 2
    requires IsAscii(BAGGAGE) && LowerCase(BAGGAGE)
    ensures Canonical(name) != Canonical(BAGGAGE + k)
  {
    var fold := (r: int) => r;
    hide ToLower, Ascii, LowerAscii, Canonical;
    LowerCanonical(fold, name);
    LowerCanonical(fold, BAGGAGE + k);
    LowerOfAscii(fold, name);
    LowerOfAscii(fold, BAGGAGE);
    LowerPrefix(fold, BAGGAGE, k);
    assert (BAGGAGE + ToLower(fold, k))[2] == BAGGAGE[2];
  }

  lemma {:induction false} BaggageKeeps(h: Header, ks: seq<Bytes>, m: map<Bytes, Bytes>, name: Bytes)
    requires forall k | k in ks :: k in m
    requires IsAscii(name) && LowerCase(name) && |name| > 2 && name[2] != BAGGAGE[2]
    requires Canonical(name) in h
    ensures Canonical(name) in SetBaggage(h, ks, m) && SetBaggage(h, ks, m)[Canonical(name)] == h[Canonical(name)]
    decreases |ks|
  {
    hide Ascii, Canonical, LowerCase;
    if ks != [] {
      var n := |ks| - 1;
      assert ks[n] in ks;
      BaggageKeeps(h, ks[..n], m, name);
      Names();
      LowerNames();
      NotBaggage(name, ks[n]);
      SetReplaces(SetBaggage(h, ks[..n], m), BAGGAGE + ks[n], m[ks[n]], Canonical(name));
    }
  }

  /**
   * Whatever the carrier held, inject leaves the context's own ids and flags under the names it uses, and its strategy
   * and weight if the strategy is known; if it is not, those of another trace stay.
   */
  lemma InjectReplaces(h: Header, c: Context, ks: seq<Bytes>)
    requires forall k | k in ks :: k in c.baggage
    ensures var t := Injected(h, c, ks);
            && Canonical(TRACE_ID) in t && t[Canonical(TRACE_ID)] == [c.traceId]
            && Canonical(SPAN_ID) in t && t[Canonical(SPAN_ID)] == [c.spanId]
            && Canonical(SAMPLE_FLAGS) in t && t[Canonical(SAMPLE_FLAGS)] == [FlagsText(c.decision.flags)]
            && (c.decision.strategy != Unknown ==>
                 && Canonical(SAMPLE_HIT) in t
                 && t[Canonical(SAMPLE_HIT)] == [if c.decision.strategy == Sampled then [49] else [48]]
                 && Canonical(SAMPLE_WEIGHT) in t && t[Canonical(SAMPLE_WEIGHT)] == [Itoa(c.decision.weight)])
            && (c.decision.strategy == Unknown && Canonical(SAMPLE_HIT) in h ==>
                 Canonical(SAMPLE_HIT) in t && t[Canonical(SAMPLE_HIT)] == h[Canonical(SAMPLE_HIT)])
            && (c.decision.strategy == Unknown && Canonical(SAMPLE_WEIGHT) in h ==>
                 Canonical(SAMPLE_WEIGHT) in t && t[Canonical(SAMPLE_WEIGHT)] == h[Canonical(SAMPLE_WEIGHT)])
  {
    hide Ascii, Canonical, SetBaggage, FlagsText, Itoa, LowerCase, IsAscii;
    Names();
    LowerNames();
    var h' := SetSample(Set(Set(h, TRACE_ID, c.traceId), SPAN_ID, c.spanId), c.decision);
    BaggageKeeps(h', ks, c.baggage, TRACE_ID);
    BaggageKeeps(h', ks, c.baggage, SPAN_ID);
    if Canonical(SAMPLE_HIT) in h' {
      BaggageKeeps(h', ks, c.baggage, SAMPLE_HIT);
    }
    if Canonical(SAMPLE_WEIGHT) in h' {
      BaggageKeeps(h', ks, c.baggage, SAMPLE_WEIGHT);
    }
  }

  /** The keys of a carrier that was only changed through `Set`. */
  predicate CanonicalKeys(h: Header) {
    forall k | k in h :: Canonical(k) == k
  }

  lemma {:induction false} BaggageCanonical(h: Header, ks: seq<Bytes>, m: map<Bytes, Bytes>)
    requires CanonicalKeys(h) && forall k | k in ks :: k in m
    ensures CanonicalKeys(SetBaggage(h, ks, m))
    decreases |ks|
  {
    hide Canonical;
    if ks != [] {
      var n := |ks| - 1;
      assert ks[n] in ks;
      BaggageCanonical(h, ks[..n], m);
      CanonicalTwice(BAGGAGE + ks[n]);
    }
  }

  lemma CanonicalTwice(s: Bytes)
    ensures Canonical(Canonical(s)) == Canonical(s)
  {
    if IsName(s) {
      var t := Canonical(s);
      forall i | 0 <= i < |s| ensures IsToken(t[i]) && CanonicalByte(t, i) == t[i] {
      }
      assert Canonical(t) == t;
    }
  }

  lemma IdNames()
    ensures IsName(TRACE_ID) && IsName(SPAN_ID)
    ensures LowerAscii(TRACE_ID) == TRACE_ID && LowerAscii(SPAN_ID) == SPAN_ID
  {
  }

  /** So in a carrier that held another trace, no name a receiver could take for an id, in any case, has another id. */
  lemma OneIdOnly(h: Header, c: Context, ks: seq<Bytes>, k: Bytes)
    requires CanonicalKeys(h) && forall k | k in ks :: k in c.baggage
    requires k in Injected(h, c, ks) && IsName(k)
    ensures LowerAscii(k) == TRACE_ID ==> Injected(h, c, ks)[k] == [c.traceId]
    ensures LowerAscii(k) == SPAN_ID ==> Injected(h, c, ks)[k] == [c.spanId]
  {
    hide Ascii, Canonical, SetBaggage, LowerAscii, IsName, HitText, FlagsText, Itoa;
    InjectReplaces(h, c, ks);
    CanonicalTwice(TRACE_ID);
    CanonicalTwice(SPAN_ID);
    CanonicalTwice(SAMPLE_HIT);
    CanonicalTwice(SAMPLE_WEIGHT);
    CanonicalTwice(SAMPLE_FLAGS);
    BaggageCanonical(SetSample(Set(Set(h, TRACE_ID, c.traceId), SPAN_ID, c.spanId), c.decision), ks, c.baggage);
    assert Canonical(k) == k;
    IdNames();
    CanonicalIff(k, TRACE_ID);
    CanonicalIff(k, SPAN_ID);
  }

  // ----- extract

  /**
   * Code outside this model. `parseParent` gives trace id, span id and whether the flags are 1, `parseState` gives
   * application id and origin, and `fold` is `unicode.ToLower` beyond ASCII.
   */
  datatype Library = Library(
    parseParent: Bytes -> Option<(Bytes, Bytes, bool)>,
    parseState: Bytes -> Option<(Bytes, Bytes)>,
    fold: int -> int)

  predicate IsBaggage(name: Bytes) {
    |name| >= |BAGGAGE| && name[..|BAGGAGE|] == BAGGAGE
  }

  function VisitHit(d: Decision, hit: I64): Decision {
    if hit == 0 then d.(strategy := NotSampled) else if hit == 1 then d.(strategy := Sampled) else d
  }

  /** The handler `Extract` runs for each value; `name` is the field name in lower case. */
  function Visit(lib: Library, ctx: Context, name: Bytes, value: Bytes): Context {
    if name == TRACE_ID then ctx.(traceId := value)
    else if name == SPAN_ID then ctx.(spanId := value)
    else if name == SAMPLE_HIT then ctx.(decision := VisitHit(ctx.decision, Atoi(value)))
    else if name == SAMPLE_WEIGHT then ctx.(decision := ctx.decision.(weight := Atoi(value)))
    else if name == RUM_PARENT then
      match lib.parseParent(value)
      case None => ctx
      case Some((traceId, spanId, sampled)) =>
        ctx.(traceId := traceId, spanId := spanId, decision := ctx.decision.(clientSampled := sampled))
    else if name == RUM_STATE then
      match lib.parseState(value)
      case None => ctx
      case Some((appId, origin)) => ctx.(baggage := ctx.baggage[APP_ID := appId][ORIGIN := origin])
    else if name == SAMPLE_FLAGS then
      ctx.(decision := ctx.decision.(flags := FromInt32(ToI32(ToU64(Atoi(value))))))
    else if IsBaggage(name) then ctx.(baggage := ctx.baggage[name[|BAGGAGE|..] := value])
    else ctx
  }

  const NOTHING := Context([], [], Decision(Unknown, 0, false, FlagsUnknown), map[])

  function VisitAll(lib: Library, entries: seq<(Bytes, Bytes)>): Context {
    if entries == [] then NOTHING
    else
      var (name, value) := entries[|entries| - 1];
      Visit(lib, VisitAll(lib, entries[..|entries| - 1]), name, value)
  }

  function Values(name: Bytes, vals: seq<Bytes>): seq<(Bytes, Bytes)> {
    if vals == [] then [] else Values(name, vals[..|vals| - 1]) + [(name, vals[|vals| - 1])]
  }

  /** The names, in lower case, and values of a header whose keys are visited in the order `ks`. */
  function Entries(lib: Library, h: Header, ks: seq<Bytes>): seq<(Bytes, Bytes)>
    requires forall k | k in ks :: k in h
  {
    if ks == [] then []
    else
      assert ks[|ks| - 1] in ks;
      Entries(lib, h, ks[..|ks| - 1]) + Values(ToLower(lib.fold, ks[|ks| - 1]), h[ks[|ks| - 1]])
  }

  /** What `Extract` returns: nothing unless both ids were found. */
  function Extracted(lib: Library, h: Header, ks: seq<Bytes>): Option<Context>
    requires forall k | k in ks :: k in h
  {
    var ctx := VisitAll(lib, Entries(lib, h, ks));
    if ctx.traceId == [] || ctx.spanId == [] then None else Some(ctx)
  }

  // ----- what an injected header says

  /** Every key is its own lower case. */
  predicate LowerKeys(lib: Library, m: map<Bytes, Bytes>) {
    forall k | k in m :: ToLower(lib.fold, k) == k
  }

  /** For ASCII keys that is: no upper-case letters. */
  lemma AsciiLowerKeys(lib: Library, m: map<Bytes, Bytes>)
    requires forall k | k in m :: IsAscii(k)
    ensures LowerKeys(lib, m) <==> forall k | k in m :: LowerCase(k)
  {
    forall k | k in m ensures ToLower(lib.fold, k) == k <==> LowerCase(k) {
      LowerOfAscii(lib.fold, k);
    }
  }

  /** An item of the baggage of `c` under the lower case of its key. */
  ghost predicate FromBaggage(lib: Library, c: Context, key: Bytes, value: Bytes) {
    exists k | k in c.baggage :: key == ToLower(lib.fold, k) && value == c.baggage[k]
  }

  /** An entry that agrees with the context it was injected from. */
  ghost predicate Agrees(lib: Library, c: Context, name: Bytes, value: Bytes) {
    && name != RUM_PARENT && name != RUM_STATE
    && (name == TRACE_ID ==> value == c.traceId)
    && (name == SPAN_ID ==> value == c.spanId)
    && (name == SAMPLE_HIT ==> c.decision.strategy != Unknown && value == HitText(c.decision.strategy))
    && (name == SAMPLE_WEIGHT ==> c.decision.strategy != Unknown && value == Itoa(c.decision.weight))
    && (name == SAMPLE_FLAGS ==> value == FlagsText(c.decision.flags))
    && (IsBaggage(name) ==> FromBaggage(lib, c, name[|BAGGAGE|..], value))
  }

  ghost predicate HeaderAgrees(lib: Library, c: Context, h: Header) {
    forall k | k in h :: |h[k]| == 1 && Agrees(lib, c, ToLower(lib.fold, k), h[k][0])
  }

  lemma SetAgrees(lib: Library, c: Context, h: Header, key: Bytes, value: Bytes)
    requires HeaderAgrees(lib, c, h) && Agrees(lib, c, ToLower(lib.fold, key), value)
    ensures HeaderAgrees(lib, c, Set(h, key, value))
    ensures h.Keys <= Set(h, key, value).Keys && Canonical(key) in Set(h, key, value)
  {
    hide Agrees;
    LowerCanonical(lib.fold, key);
  }

  lemma BaggageAgrees(lib: Library, c: Context, k: Bytes)
    requires k in c.baggage
    ensures ToLower(lib.fold, BAGGAGE + k) == BAGGAGE + ToLower(lib.fold, k)
    ensures Agrees(lib, c, ToLower(lib.fold, BAGGAGE + k), c.baggage[k])
  {
    hide ToLower, Ascii, LowerAscii;
    Names();
    NamesLowered(lib.fold);
    LowerOfAscii(lib.fold, BAGGAGE);
    LowerPrefix(lib.fold, BAGGAGE, k);
    var name := BAGGAGE + ToLower(lib.fold, k);
    assert name[2] == BAGGAGE[2];
    assert name[|BAGGAGE|..] == ToLower(lib.fold, k);
    assert FromBaggage(lib, c, name[|BAGGAGE|..], c.baggage[k]);
  }

  lemma {:induction false} SetBaggageAgrees(lib: Library, c: Context, h: Header, ks: seq<Bytes>)
    requires HeaderAgrees(lib, c, h) && forall k | k in ks :: k in c.baggage
    ensures var t := SetBaggage(h, ks, c.baggage);
            && HeaderAgrees(lib, c, t) && h.Keys <= t.Keys && forall k | k in ks :: Canonical(BAGGAGE + k) in t
    decreases |ks|
  {
    hide HeaderAgrees, Agrees, Canonical;
    if ks != [] {
      var k := ks[|ks| - 1];
      assert k in ks;
      SetBaggageAgrees(lib, c, h, ks[..|ks| - 1]);
      BaggageAgrees(lib, c, k);
      SetAgrees(lib, c, SetBaggage(h, ks[..|ks| - 1], c.baggage), BAGGAGE + k, c.baggage[k]);
    }
  }

  lemma NamesAgree(lib: Library, c: Context)
    ensures Agrees(lib, c, ToLower(lib.fold, TRACE_ID), c.traceId)
    ensures Agrees(lib, c, ToLower(lib.fold, SPAN_ID), c.spanId)
    ensures c.decision.strategy != Unknown
        ==> Agrees(lib, c, ToLower(lib.fold, SAMPLE_HIT), HitText(c.decision.strategy))
    ensures c.decision.strategy != Unknown ==> Agrees(lib, c, ToLower(lib.fold, SAMPLE_WEIGHT), Itoa(c.decision.weight))
    ensures Agrees(lib, c, ToLower(lib.fold, SAMPLE_FLAGS), FlagsText(c.decision.flags))
  {
    Names();
    NamesLowered(lib.fold);
    hide FromBaggage, Ascii, Itoa, FlagsText, HitText, ToLower;
  }

  /** The headers a fresh carrier holds after inject. */
  predicate Complete(c: Context, h: Header) {
    && Canonical(TRACE_ID) in h && Canonical(SPAN_ID) in h && Canonical(SAMPLE_FLAGS) in h
    && (c.decision.strategy != Unknown ==> Canonical(SAMPLE_HIT) in h && Canonical(SAMPLE_WEIGHT) in h)
    && forall k | k in c.baggage :: Canonical(BAGGAGE + k) in h
  }

  lemma InjectedAgrees(lib: Library, c: Context, ks: seq<Bytes>)
    requires Lists(ks, c.baggage)
    ensures HeaderAgrees(lib, c, Injected(map[], c, ks)) && Complete(c, Injected(map[], c, ks))
  {
    hide Agrees, HeaderAgrees, Canonical, FlagsText, HitText, Itoa, SetBaggage, ToLower;
    NamesAgree(lib, c);
    var h0: Header := map[];
    NothingDisagrees(lib, c);
    var h1 := Set(h0, TRACE_ID, c.traceId);
    SetAgrees(lib, c, h0, TRACE_ID, c.traceId);
    var h2 := Set(h1, SPAN_ID, c.spanId);
    SetAgrees(lib, c, h1, SPAN_ID, c.spanId);
    var h3 := SetSample(h2, c.decision);
    if c.decision.strategy != Unknown {
      SetAgrees(lib, c, h2, SAMPLE_HIT, HitText(c.decision.strategy));
      SetAgrees(lib, c, Set(h2, SAMPLE_HIT, HitText(c.decision.strategy)), SAMPLE_WEIGHT, Itoa(c.decision.weight));
    }
    SetBaggageAgrees(lib, c, h3, ks);
    SetAgrees(lib, c, SetBaggage(h3, ks, c.baggage), SAMPLE_FLAGS, FlagsText(c.decision.flags));
  }

  lemma NothingDisagrees(lib: Library, c: Context)
    ensures HeaderAgrees(lib, c, map[])
  {
  }

  // ----- visiting

  predicate Mentions(entries: seq<(Bytes, Bytes)>, name: Bytes) {
    exists i | 0 <= i < |entries| :: entries[i].0 == name
  }

  ghost predicate AllAgree(lib: Library, c: Context, entries: seq<(Bytes, Bytes)>) {
    forall i | 0 <= i < |entries| :: Agrees(lib, c, entries[i].0, entries[i].1)
  }

  lemma MentionsSnoc(entries: seq<(Bytes, Bytes)>, e: (Bytes, Bytes), name: Bytes)
    ensures Mentions(entries + [e], name) <==> Mentions(entries, name) || e.0 == name
  {
    var more := entries + [e];
    if Mentions(entries, name) {
      var i :| 0 <= i < |entries| && entries[i].0 == name;
      assert more[i].0 == name;
    }
    if e.0 == name {
      assert more[|entries|].0 == name;
    }
  }

  lemma {:induction false} EntriesAgree(lib: Library, c: Context, h: Header, ks: seq<Bytes>)
    requires HeaderAgrees(lib, c, h) && forall k | k in ks :: k in h
    ensures AllAgree(lib, c, Entries(lib, h, ks))
    ensures forall k | k in ks :: Mentions(Entries(lib, h, ks), ToLower(lib.fold, k))
    decreases |ks|
  {
    hide Agrees, ToLower;
    if ks != [] {
      var k := ks[|ks| - 1];
      var before := ks[..|ks| - 1];
      assert k in ks;
      EntriesAgree(lib, c, h, before);
      var e := (ToLower(lib.fold, k), h[k][0]);
      OneValue(ToLower(lib.fold, k), h[k]);
      assert Entries(lib, h, ks) == Entries(lib, h, before) + [e];
      forall j | j in ks ensures Mentions(Entries(lib, h, ks), ToLower(lib.fold, j)) {
        MentionsSnoc(Entries(lib, h, before), e, ToLower(lib.fold, j));
      }
    }
  }

  lemma OneValue(name: Bytes, vals: seq<Bytes>)
    requires |vals| == 1
    ensures Values(name, vals) == [(name, vals[0])]
  {
    assert vals[..0] == [];
  }

  /** One more key with one value. */
  lemma OneMoreEntry(lib: Library, h: Header, ks: seq<Bytes>, k: Bytes)
    requires (forall j | j in ks + [k] :: j in h) && k in h && |h[k]| == 1
    ensures forall j | j in ks :: j in h
    ensures Entries(lib, h, ks + [k]) == Entries(lib, h, ks) + [(ToLower(lib.fold, k), h[k][0])]
  {
    hide ToLower;
    forall j | j in ks ensures j in h {
      assert j in ks + [k];
    }
    assert (ks + [k])[..|ks|] == ks;
    OneValue(ToLower(lib.fold, k), h[k]);
  }

  /** Each fixed field is what the context says once its header has been visited, and untouched before. */
  predicate FieldsAgree(c: Context, entries: seq<(Bytes, Bytes)>, ctx: Context) {
    && ctx.traceId == (if Mentions(entries, TRACE_ID) then c.traceId else [])
    && ctx.spanId == (if Mentions(entries, SPAN_ID) then c.spanId else [])
    && ctx.decision.strategy == (if Mentions(entries, SAMPLE_HIT) then c.decision.strategy else Unknown)
    && ctx.decision.weight == (if Mentions(entries, SAMPLE_WEIGHT) then c.decision.weight else 0)
    && ctx.decision.flags == (if Mentions(entries, SAMPLE_FLAGS) then c.decision.flags else FlagsUnknown)
    && !ctx.decision.clientSampled
  }

  lemma AgreeingHit(d: Decision, s: Strategy)
    requires s != Unknown
    ensures VisitHit(d, Atoi(HitText(s))) == d.(strategy := s)
  {
    var hit: I64 := if s == Sampled then 1 else 0;
    assert HitText(s) == Itoa(hit);
    DecimalRoundTrip(hit);
  }

  lemma VisitFields(lib: Library, c: Context, before: seq<(Bytes, Bytes)>,
                    ctx: Context, e: (Bytes, Bytes))
    requires FieldsAgree(c, before, ctx) && Agrees(lib, c, e.0, e.1)
    ensures FieldsAgree(c, before + [e], Visit(lib, ctx, e.0, e.1))
  {
    Names();
    MentionsSnoc(before, e, TRACE_ID);
    MentionsSnoc(before, e, SPAN_ID);
    MentionsSnoc(before, e, SAMPLE_HIT);
    MentionsSnoc(before, e, SAMPLE_WEIGHT);
    MentionsSnoc(before, e, SAMPLE_FLAGS);
    hide Mentions, FromBaggage, Itoa, Atoi, FlagsText, HitText, IsBaggage, Ascii, VisitHit;
    if c.decision.strategy != Unknown {
      AgreeingHit(ctx.decision, c.decision.strategy);
    }
    DecimalRoundTrip(c.decision.weight);
    FlagsRoundTrip(c.decision.flags);
  }

  lemma {:induction false} AllFields(lib: Library, c: Context, entries: seq<(Bytes, Bytes)>)
    requires AllAgree(lib, c, entries)
    ensures FieldsAgree(c, entries, VisitAll(lib, entries))
    decreases |entries|
  {
    hide Agrees, Visit;
    if entries != [] {
      hide FieldsAgree;
      var before, e := entries[..|entries| - 1], entries[|entries| - 1];
      AllFields(lib, c, before);
      VisitFields(lib, c, before, VisitAll(lib, before), e);
      assert before + [e] == entries;
    }
  }

  ghost predicate AllFromBaggage(lib: Library, c: Context, m: map<Bytes, Bytes>) {
    forall k | k in m :: FromBaggage(lib, c, k, m[k])
  }

  /** The baggage seen so far is items of the context's own, under the lower case of their keys. */
  ghost predicate BaggageAgree(lib: Library, c: Context, entries: seq<(Bytes, Bytes)>, m: map<Bytes, Bytes>) {
    && AllFromBaggage(lib, c, m)
    && forall i | 0 <= i < |entries| && IsBaggage(entries[i].0) :: entries[i].0[|BAGGAGE|..] in m
  }

  lemma {:induction false} AllBaggage(lib: Library, c: Context,
                                      entries: seq<(Bytes, Bytes)>)
    requires AllAgree(lib, c, entries)
    ensures BaggageAgree(lib, c, entries, VisitAll(lib, entries).baggage)
    decreases |entries|
  {
    hide Ascii, Atoi, Itoa, FlagsText, HitText, VisitHit, FromBaggage;
    if entries != [] {
      var before, e := entries[..|entries| - 1], entries[|entries| - 1];
      assert Agrees(lib, c, e.0, e.1);
      AllBaggage(lib, c, before);
      Names();
    }
  }

  lemma Visited(lib: Library, c: Context, h: Header, ks: seq<Bytes>, name: Bytes)
    requires HeaderAgrees(lib, c, h) && Lists(ks, h) && Canonical(name) in h && ToLower(lib.fold, name) == name
    ensures Mentions(Entries(lib, h, ks), name)
  {
    hide HeaderAgrees, Mentions, ToLower;
    EntriesAgree(lib, c, h, ks);
    LowerCanonical(lib.fold, name);
  }

  lemma NotVisited(lib: Library, c: Context, h: Header, ks: seq<Bytes>)
    requires HeaderAgrees(lib, c, h) && Lists(ks, h) && c.decision.strategy == Unknown
    ensures !Mentions(Entries(lib, h, ks), SAMPLE_HIT) && !Mentions(Entries(lib, h, ks), SAMPLE_WEIGHT)
  {
    hide HeaderAgrees;
    EntriesAgree(lib, c, h, ks);
  }

  /**
   * Whatever the baggage and the orders: ids, strategy, weight and flags survive, except that the weight of an unknown
   * strategy is not sent.
   */
  lemma FieldsSurvive(lib: Library, c: Context, written: seq<Bytes>, visited: seq<Bytes>)
    requires Lists(written, c.baggage) && Lists(visited, Injected(map[], c, written))
    ensures var ctx := VisitAll(lib, Entries(lib, Injected(map[], c, written), visited));
            && ctx.traceId == c.traceId && ctx.spanId == c.spanId
            && ctx.decision == Decision(c.decision.strategy,
                                        if c.decision.strategy == Unknown then 0 else c.decision.weight,
                                        false, c.decision.flags)
  {
    hide Agrees, HeaderAgrees, Mentions, Injected, Canonical, Visit, Entries, ToLower;
    var h := Injected(map[], c, written);
    InjectedAgrees(lib, c, written);
    EntriesAgree(lib, c, h, visited);
    AllFields(lib, c, Entries(lib, h, visited));
    NamesLowered(lib.fold);
    Visited(lib, c, h, visited, TRACE_ID);
    Visited(lib, c, h, visited, SPAN_ID);
    Visited(lib, c, h, visited, SAMPLE_FLAGS);
    if c.decision.strategy == Unknown {
      NotVisited(lib, c, h, visited);
    } else {
      Visited(lib, c, h, visited, SAMPLE_HIT);
      Visited(lib, c, h, visited, SAMPLE_WEIGHT);
    }
  }

  /** What the baggage of an injected context looks like after extract. */
  lemma BaggageArrives(lib: Library, c: Context, written: seq<Bytes>, visited: seq<Bytes>)
    requires Lists(written, c.baggage) && Lists(visited, Injected(map[], c, written))
    ensures var m := VisitAll(lib, Entries(lib, Injected(map[], c, written), visited)).baggage;
            && AllFromBaggage(lib, c, m)
            && forall k | k in c.baggage :: ToLower(lib.fold, k) in m
  {
    hide Agrees, HeaderAgrees, Injected, Canonical, Visit, Entries, ToLower, Ascii;
    var h := Injected(map[], c, written);
    InjectedAgrees(lib, c, written);
    EntriesAgree(lib, c, h, visited);
    var es := Entries(lib, h, visited);
    AllBaggage(lib, c, es);
    forall k | k in c.baggage ensures ToLower(lib.fold, k) in VisitAll(lib, es).baggage {
      BaggageAgrees(lib, c, k);
      LowerCanonical(lib.fold, BAGGAGE + k);
      BaggageName(ToLower(lib.fold, k));
      var i :| 0 <= i < |es| && es[i].0 == BAGGAGE + ToLower(lib.fold, k);
    }
  }

  lemma BaggageName(k: Bytes)
    ensures IsBaggage(BAGGAGE + k) && (BAGGAGE + k)[|BAGGAGE|..] == k
  {
  }

  /** Baggage whose keys are their own lower case survives. */
  lemma LowerBaggageSurvives(lib: Library, c: Context, written: seq<Bytes>, visited: seq<Bytes>)
    requires Lists(written, c.baggage) && Lists(visited, Injected(map[], c, written)) && LowerKeys(lib, c.baggage)
    ensures VisitAll(lib, Entries(lib, Injected(map[], c, written), visited)).baggage == c.baggage
  {
    hide Injected, Entries, VisitAll, ToLower;
    BaggageArrives(lib, c, written, visited);
  }

  lemma LoweredKey(lib: Library, c: Context, key: Bytes, value: Bytes)
    requires Unicode(lib.fold) && FromBaggage(lib, c, key, value)
    ensures ToLower(lib.fold, key) == key
  {
    hide ToLower, Unicode;
    var k :| k in c.baggage && key == ToLower(lib.fold, k) && value == c.baggage[k];
    LowerTwice(lib.fold, k);
  }

  /** Whatever is extracted has keys that are their own lower case. */
  lemma ExtractedLowered(lib: Library, c: Context, m: map<Bytes, Bytes>)
    requires Unicode(lib.fold) && AllFromBaggage(lib, c, m)
    ensures LowerKeys(lib, m)
  {
    hide ToLower, Unicode, FromBaggage;
    forall k | k in m ensures ToLower(lib.fold, k) == k {
      LoweredKey(lib, c, k, m[k]);
    }
  }

  /** No other baggage does, by any tables in which lower case is settled: É comes back as é. */
  lemma BaggageSurvives(lib: Library, c: Context, written: seq<Bytes>, visited: seq<Bytes>)
    requires Lists(written, c.baggage) && Lists(visited, Injected(map[], c, written)) && Unicode(lib.fold)
    ensures VisitAll(lib, Entries(lib, Injected(map[], c, written), visited)).baggage == c.baggage
       <==> LowerKeys(lib, c.baggage)
  {
    hide Injected, Entries, VisitAll, ToLower, Unicode, AllFromBaggage, LowerKeys;
    var m := VisitAll(lib, Entries(lib, Injected(map[], c, written), visited)).baggage;
    BaggageArrives(lib, c, written, visited);
    ExtractedLowered(lib, c, m);
    if LowerKeys(lib, c.baggage) {
      LowerBaggageSurvives(lib, c, written, visited);
    }
  }

  /** A key that is no UTF-8 never survives, whatever the tables. */
  lemma MalformedKey(lib: Library, m: map<Bytes, Bytes>)
    requires [0xFF] in m
    ensures !LowerKeys(lib, m)
  {
    var key: Bytes := [0xFF];
    assert Decode(key) == RUNE_ERROR && Width(key, 0) == 1;
    assert key[1..] == [];
    var l := Encode(LowerRune(lib.fold, RUNE_ERROR));
    assert ToLower(lib.fold, key) == l + [];
    assert l == [] || l[0] != 0xFF;
  }

  /**
   * On a fresh carrier, extract after inject gives back ids, strategy, weight, flags and baggage, for every order of
   * the baggage and of the headers, if and only if both ids are non-empty, every baggage key is its own lower case,
   * and the strategy is determined or its weight is 0.
   */
  lemma HttpRoundTrip(lib: Library, c: Context, written: seq<Bytes>, visited: seq<Bytes>)
    requires Lists(written, c.baggage) && Lists(visited, Injected(map[], c, written)) && Unicode(lib.fold)
    ensures Extracted(lib, Injected(map[], c, written), visited) == Some(Received(c, c.decision.flags))
       <==> c.traceId != [] && c.spanId != [] && LowerKeys(lib, c.baggage)
            && (c.decision.strategy != Unknown || c.decision.weight == 0)
  {
    hide Injected, Entries, VisitAll, LowerKeys, Unicode;
    FieldsSurvive(lib, c, written, visited);
    BaggageSurvives(lib, c, written, visited);
  }

  // ----- the methods

  /** `HTTPHeadersCarrier` */
  class Carrier {
    var headers: Header

    constructor ()
      ensures headers == map[]
    {
      headers := map[];
    }

    method SetHeader(key: Bytes, value: Bytes)
      modifies this
      ensures headers == Set(old(headers), key, value)
    {
      headers := headers[Canonical(key) := [value]];
    }
  }

  /** `Inject`; `order` is the order of the baggage iteration. */
  method Inject(c: Context, carrier: Carrier, order: seq<Bytes>)
    requires forall k | k in order :: k in c.baggage
    modifies carrier
    ensures carrier.headers == Injected(old(carrier.headers), c, order)
  {
    hide Set;
    carrier.SetHeader(TRACE_ID, c.traceId);
    carrier.SetHeader(SPAN_ID, c.spanId);
    match c.decision.strategy {
      case Sampled =>
        carrier.SetHeader(SAMPLE_HIT, [ZERO + 1]);
        carrier.SetHeader(SAMPLE_WEIGHT, Itoa(c.decision.weight));
      case NotSampled =>
        carrier.SetHeader(SAMPLE_HIT, [ZERO]);
        carrier.SetHeader(SAMPLE_WEIGHT, Itoa(c.decision.weight));
      case Unknown =>
    }
    ghost var h := carrier.headers;
    assert order[..0] == [];
    var i := 0;
    while i < |order|
      invariant 0 <= i <= |order|
      invariant carrier.headers == SetBaggage(h, order[..i], c.baggage)
    {
      assert order[..i + 1][..i] == order[..i];
      carrier.SetHeader(BAGGAGE + order[i], c.baggage[order[i]]);
      i := i + 1;
    }
    assert order[..i] == order;
    carrier.SetHeader(SAMPLE_FLAGS, FlagsText(c.decision.flags));
  }

  lemma VisitSnoc(lib: Library, entries: seq<(Bytes, Bytes)>, e: (Bytes, Bytes))
    ensures VisitAll(lib, entries + [e])
         == Visit(lib, VisitAll(lib, entries), e.0, e.1)
  {
    assert (entries + [e])[..|entries|] == entries;
  }

  /** `Extract`; `order` is the order of the header iteration. */
  method Extract(lib: Library, carrier: Carrier, order: seq<Bytes>)
    returns (r: Option<Context>)
    requires forall k | k in order :: k in carrier.headers
    ensures r == Extracted(lib, carrier.headers, order)
  {
    hide Visit, ToLower, VisitAll;
    var h := carrier.headers;
    var ctx := NOTHING;
    StartVisit(lib);
    assert order[..0] == [];
    var i := 0;
    while i < |order|
      invariant 0 <= i <= |order|
      invariant ctx == VisitAll(lib, Entries(lib, h, order[..i]))
    {
      var name, vals := ToLower(lib.fold, order[i]), h[order[i]];
      ghost var before := Entries(lib, h, order[..i]);
      assert order[..i + 1][..i] == order[..i];
      assert vals[..0] == [] && before + [] == before;
      var j := 0;
      while j < |vals|
        invariant 0 <= j <= |vals|
        invariant ctx == VisitAll(lib, before + Values(name, vals[..j]))
      {
        assert vals[..j + 1][..j] == vals[..j];
        VisitSnoc(lib, before + Values(name, vals[..j]), (name, vals[j]));
        assert before + Values(name, vals[..j + 1]) == before + Values(name, vals[..j]) + [(name, vals[j])];
        ctx := Visit(lib, ctx, name, vals[j]);
        j := j + 1;
      }
      assert vals[..j] == vals;
      i := i + 1;
    }
    assert order[..i] == order;
    if ctx.traceId == [] || ctx.spanId == [] {
      return None;
    }
    return Some(ctx);
  }

  lemma StartVisit(lib: Library)
    ensures VisitAll(lib, []) == NOTHING
  {
  }
}
