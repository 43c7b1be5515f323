/** The binary carrier: inject and extract of a span context over little-endian 32-bit fields. */
module BinaryPropagation {
  import opened Buffers
  import opened ByteStrings
  import opened Division
  import opened Sampling

  /** `binary.Write` of an `int32` conversion. */
  function Int32(i: I64): Bytes {
    LittleEndian(ToU64(i), 4)
  }

  function Str(s: Bytes): Bytes {
    LittleEndian(|s|, 4) + s
  }

  function Pairs(ks: seq<Bytes>, m: map<Bytes, Bytes>): Bytes
    requires forall k | k in ks :: k in m
  {
    if ks == [] then []
    else
      assert ks[0] in ks;
      Str(ks[0]) + Str(m[ks[0]]) + Pairs(ks[1..], m)
  }

  function SampleFields(d: Decision): Bytes {
    match d.strategy
    case Sampled => Int32(1) + Int32(d.weight)
    case NotSampled => Int32(0) + Int32(d.weight)
    case Unknown => []
  }

  /** All that `Inject` writes before the flags. `counted` and `written` are the orders of its two map iterations. */
  function Body(c: Context, counted: seq<Bytes>, written: seq<Bytes>): Bytes
    requires forall k | k in written :: k in c.baggage
  {
    Str(c.traceId) + Str(c.spanId) + SampleFields(c.decision) + LittleEndian(|counted|, 4) + Pairs(written, c.baggage)
  }

  function Injected(c: Context, counted: seq<Bytes>, written: seq<Bytes>): Bytes
    requires forall k | k in written :: k in c.baggage
  {
    Body(c, counted, written) + Int32(Code(c.decision.flags))
  }

  // ----- extract

  /** A read gives a value, fails, or panics: `strings.Builder.Grow` does on a negative length. */
  datatype Outcome<+T> = Got(value: T) | Failed | Panicked

  function ReadInt32(s: Bytes): Outcome<(I32, Bytes)> {
    if |s| < 4 then Failed else Got((ToI32(FromLittleEndian(s[..4])), s[4..]))
  }

  function ReadString(s: Bytes): (r: Outcome<(Bytes, Bytes)>)
    ensures r.Got? ==> |r.value.1| + 4 <= |s|
  {
    match ReadInt32(s)
    case Got((l, rest)) =>
      if l < 0 then Panicked else if |rest| < l then Failed else Got((rest[..l], rest[l..]))
    case Failed => Failed
    case Panicked => Panicked
  }

  function ReadPairs(s: Bytes, n: int, m: map<Bytes, Bytes>): Outcome<(map<Bytes, Bytes>, Bytes)>
    decreases n
  {
    if n <= 0 then Got((m, s))
    else
      match ReadString(s)
      case Failed => Failed
      case Panicked => Panicked
      case Got((k, rest)) =>
        match ReadString(rest)
        case Failed => Failed
        case Panicked => Panicked
        case Got((v, rest)) => ReadPairs(rest, n - 1, m[k := v])
  }

  /** The optional last field: too few bytes leave the flags unknown. */
  function ReadFlags(s: Bytes): Flags {
    match ReadInt32(s)
    case Got((code, _)) => FromInt32(code)
    case _ => FlagsUnknown
  }

  function ReadBaggage(traceId: Bytes, spanId: Bytes, hit: I32, weight: I32, s: Bytes): Outcome<Context> {
    match ReadInt32(s)
    case Failed => Failed
    case Panicked => Panicked
    case Got((n, rest)) =>
      match ReadPairs(rest, n, map[])
      case Failed => Failed
      case Panicked => Panicked
      case Got((baggage, rest)) =>
        var strategy := if hit == 1 then Sampled else NotSampled;
        Got(Context(traceId, spanId, Decision(strategy, weight, false, ReadFlags(rest)), baggage))
  }

  function ReadSample(traceId: Bytes, spanId: Bytes, s: Bytes): Outcome<Context> {
    match ReadInt32(s)
    case Failed => Failed
    case Panicked => Panicked
    case Got((hit, rest)) =>
      match ReadInt32(rest)
      case Failed => Failed
      case Panicked => Panicked
      case Got((weight, rest)) => ReadBaggage(traceId, spanId, hit, weight, rest)
  }

  /** What `Extract` makes of the bytes in a carrier. */
  function Extracted(s: Bytes): Outcome<Context> {
    match ReadString(s)
    case Failed => Failed
    case Panicked => Panicked
    case Got((traceId, rest)) =>
      match ReadString(rest)
      case Failed => Failed
      case Panicked => Panicked
      case Got((spanId, rest)) => ReadSample(traceId, spanId, rest)
  }

  // ----- round trip

  lemma {:induction false} LittleEndianLow(v: nat, n: nat)
    ensures FromLittleEndian(LittleEndian(v, n)) == v % Pow256(n)
    decreases n
  {
    if n > 0 {
      LittleEndianLow(v / 256, n - 1);
      assert LittleEndian(v, n)[1..] == LittleEndian(v / 256, n - 1);
      ModSplit(v, Pow256(n - 1));
    }
  }

  lemma ModSplit(v: nat, p: nat)
    requires p > 0
    ensures v % (256 * p) == v % 256 + 256 * ((v / 256) % p)
  {
    var q, low := v / 256, v % 256;
    var k, r := q / p, q % p;
    assert v == 256 * (k * p + r) + low;
    assert 256 * (k * p) == k * (256 * p);
    Quotient(v, 256 * p, k, 256 * r + low);
  }

  /** A 32-bit value survives; any other 64-bit integer comes back as some 32-bit value. */
  lemma Int32Reads(i: I64, rest: Bytes)
    ensures ReadInt32(Int32(i) + rest).Got? && ReadInt32(Int32(i) + rest).value.1 == rest
    ensures ReadInt32(Int32(i) + rest).value.0 == i <==> -TWO_31 <= i < TWO_31
  {
    hide LittleEndian, FromLittleEndian;
    var s := Int32(i) + rest;
    assert s[..4] == Int32(i) && s[4..] == rest;
    LittleEndianLow(ToU64(i), 4);
    Pow256Values();
    var u: nat := ToU64(i);
    assert FromLittleEndian(s[..4]) == u % TWO_32;
    assert ToI32(u % TWO_32) == ToI32(u) by {
      assert (u % TWO_32) % TWO_32 == u % TWO_32;
    }
    if -TWO_31 <= i < TWO_31 {
      SignedRoundTrip(i);
    }
  }

  lemma LengthReads(n: nat, rest: Bytes)
    requires n < TWO_31
    ensures ReadInt32(LittleEndian(n, 4) + rest) == Got((n, rest))
  {
    hide LittleEndian, FromLittleEndian;
    var s := LittleEndian(n, 4) + rest;
    assert s[..4] == LittleEndian(n, 4) && s[4..] == rest;
    Pow256Values();
    LittleEndianRoundTrip(n, 4);
  }

  lemma StrReads(x: Bytes, rest: Bytes)
    requires |x| < TWO_31
    ensures ReadString(Str(x) + rest) == Got((x, rest))
  {
    hide LittleEndian, ReadInt32;
    LengthReads(|x|, x + rest);
    assert Str(x) + rest == LittleEndian(|x|, 4) + (x + rest);
  }

  /** Lengths that fit the 32-bit length fields. */
  predicate Lengths(c: Context) {
    && |c.traceId| < TWO_31 && |c.spanId| < TWO_31 && |c.baggage| < TWO_31
    && forall k | k in c.baggage :: |k| < TWO_31 && |c.baggage[k]| < TWO_31
  }

  lemma {:induction false} PairsRead(ks: seq<Bytes>, m: map<Bytes, Bytes>, m0: map<Bytes, Bytes>, rest: Bytes)
    requires forall k | k in ks :: k in m && |k| < TWO_31 && |m[k]| < TWO_31
    ensures ReadPairs(Pairs(ks, m) + rest, |ks|, m0) == Got((m0 + Restrict(ks, m), rest))
    decreases |ks|
  {
    hide Str, ReadString, Restrict;
    if ks == [] {
      assert Pairs(ks, m) + rest == rest;
      RestrictNone(m, m0);
    } else {
      var k := ks[0];
      assert k in ks;
      var more := Pairs(ks[1..], m) + rest;
      assert Pairs(ks, m) + rest == Str(k) + (Str(m[k]) + more);
      StrReads(k, Str(m[k]) + more);
      StrReads(m[k], more);
      PairsRead(ks[1..], m, m0[k := m[k]], rest);
      RestrictStep(ks, m, m0);
    }
  }

  lemma RestrictNone(m: map<Bytes, Bytes>, m0: map<Bytes, Bytes>)
    ensures m0 + Restrict([], m) == m0
  {
  }

  lemma RestrictStep(ks: seq<Bytes>, m: map<Bytes, Bytes>, m0: map<Bytes, Bytes>)
    requires ks != [] && forall k | k in ks :: k in m
    ensures m0[ks[0] := m[ks[0]]] + Restrict(ks[1..], m) == m0 + Restrict(ks, m)
  {
    assert forall k :: k in ks <==> k == ks[0] || k in ks[1..];
  }

  lemma {:induction false} ListLength<V>(ks: seq<Bytes>, m: map<Bytes, V>)
    requires Lists(ks, m)
    ensures |ks| == |m|
    decreases |ks|
  {
    if ks == [] {
      assert m == map[];
    } else {
      var m' := m - {ks[0]};
      assert ks[0] in ks;
      forall k ensures k in ks[1..] <==> k in m' {
        if k in ks[1..] {
          var i :| 0 <= i < |ks[1..]| && ks[1..][i] == k;
          assert ks[i + 1] == k && ks[0] != ks[i + 1];
          assert k in ks;
        }
        if k in m' {
          assert k in ks;
        }
      }
      ListLength(ks[1..], m');
      assert m.Keys == m'.Keys + {ks[0]};
    }
  }

  lemma AllPairsRead(c: Context, written: seq<Bytes>, rest: Bytes)
    requires Lengths(c) && Lists(written, c.baggage)
    ensures |written| == |c.baggage| < TWO_31
    ensures ReadPairs(Pairs(written, c.baggage) + rest, |written|, map[]) == Got((c.baggage, rest))
  {
    hide ReadPairs, Pairs, Restrict;
    ListLength(written, c.baggage);
    PairsRead(written, c.baggage, map[], rest);
    RestrictAll(written, c.baggage);
  }

  lemma BaggageReads(c: Context, counted: seq<Bytes>, written: seq<Bytes>, weight: I32, rest: Bytes)
    requires Lengths(c) && Lists(counted, c.baggage) && Lists(written, c.baggage)
    ensures var strategy := if c.decision.strategy == Sampled then Sampled else NotSampled;
            ReadBaggage(c.traceId, c.spanId, if strategy == Sampled then 1 else 0, weight,
                        LittleEndian(|counted|, 4) + Pairs(written, c.baggage) + rest)
            == Got(Context(c.traceId, c.spanId, Decision(strategy, weight, false, ReadFlags(rest)), c.baggage))
  {
    hide LittleEndian, ReadInt32, ReadPairs, ReadFlags, Pairs, Lengths, NoDup;
    AllPairsRead(c, written, rest);
    AllPairsRead(c, counted, rest);
    var s := Pairs(written, c.baggage) + rest;
    LengthReads(|counted|, s);
    assert LittleEndian(|counted|, 4) + Pairs(written, c.baggage) + rest == LittleEndian(|counted|, 4) + s;
  }

  lemma SampleReads(c: Context, hit: I32, counted: seq<Bytes>, written: seq<Bytes>, rest: Bytes)
    requires Lengths(c) && Lists(counted, c.baggage) && Lists(written, c.baggage)
    requires hit == if c.decision.strategy == Sampled then 1 else 0
    ensures var tail := LittleEndian(|counted|, 4) + Pairs(written, c.baggage) + rest;
            var r := ReadSample(c.traceId, c.spanId, Int32(hit) + (Int32(c.decision.weight) + tail));
            && r.Got? && (r.value.decision.weight == c.decision.weight <==> -TWO_31 <= c.decision.weight < TWO_31)
            && r.value == Context(c.traceId, c.spanId,
                                  Decision(if c.decision.strategy == Sampled then Sampled else NotSampled,
                                           r.value.decision.weight, false, ReadFlags(rest)), c.baggage)
  {
    hide Str, LittleEndian, Int32, ReadInt32, ReadFlags, ReadBaggage, Pairs, Lengths;
    var tail := LittleEndian(|counted|, 4) + Pairs(written, c.baggage) + rest;
    Int32Reads(hit, Int32(c.decision.weight) + tail);
    Int32Reads(c.decision.weight, tail);
    BaggageReads(c, counted, written, ReadInt32(Int32(c.decision.weight) + tail).value.0, rest);
  }

  lemma IdsRead(traceId: Bytes, spanId: Bytes, rest: Bytes)
    requires |traceId| < TWO_31 && |spanId| < TWO_31
    ensures Extracted(Str(traceId) + (Str(spanId) + rest)) == ReadSample(traceId, spanId, rest)
  {
    hide Str, ReadString, ReadSample;
    StrReads(traceId, Str(spanId) + rest);
    StrReads(spanId, rest);
  }

  lemma BodyLayout(c: Context, counted: seq<Bytes>, written: seq<Bytes>, rest: Bytes)
    requires c.decision.strategy != Unknown && forall k | k in written :: k in c.baggage
    ensures var tail := LittleEndian(|counted|, 4) + Pairs(written, c.baggage) + rest;
            var hit: I32 := if c.decision.strategy == Sampled then 1 else 0;
            Body(c, counted, written) + rest
            == Str(c.traceId) + (Str(c.spanId) + (Int32(hit) + (Int32(c.decision.weight) + tail)))
  {
    hide Str, LittleEndian, Int32, Pairs;
  }

  /** The bytes of a determined context up to the flags, followed by anything. */
  lemma BodyReads(c: Context, counted: seq<Bytes>, written: seq<Bytes>, rest: Bytes)
    requires Lengths(c) && Lists(counted, c.baggage) && Lists(written, c.baggage) && c.decision.strategy != Unknown
    ensures var r := Extracted(Body(c, counted, written) + rest);
            && r.Got? && r.value.decision.flags == ReadFlags(rest)
            && (r == Got(Received(c, ReadFlags(rest))) <==> -TWO_31 <= c.decision.weight < TWO_31)
  {
    var hit: I32 := if c.decision.strategy == Sampled then 1 else 0;
    SampleReads(c, hit, counted, written, rest);
    BodyLayout(c, counted, written, rest);
    hide Str, LittleEndian, Int32, ReadFlags, ReadSample, Extracted, Body, Pairs;
    var tail := LittleEndian(|counted|, 4) + Pairs(written, c.baggage) + rest;
    IdsRead(c.traceId, c.spanId, Int32(hit) + (Int32(c.decision.weight) + tail));
  }

  /** Whatever the bytes, an extracted strategy is never unknown and its weight is a 32-bit value. */
  lemma ExtractedDetermined(s: Bytes)
    ensures Extracted(s).Got? ==> Extracted(s).value.decision.strategy != Unknown
    ensures Extracted(s).Got? ==> -TWO_31 <= Extracted(s).value.decision.weight < TWO_31
  {
    hide ReadString, ReadInt32, ReadPairs, ReadFlags;
  }

  /**
   * Extract after inject gives back ids, strategy, weight, flags and baggage, for any two orders of the baggage, if and
   * only if the strategy is determined and the weight a 32-bit value.
   */
  lemma BinaryRoundTrip(c: Context, counted: seq<Bytes>, written: seq<Bytes>)
    requires Lengths(c) && Lists(counted, c.baggage) && Lists(written, c.baggage)
    ensures Extracted(Injected(c, counted, written)) == Got(Received(c, c.decision.flags))
       <==> c.decision.strategy != Unknown && -TWO_31 <= c.decision.weight < TWO_31
  {
    hide Extracted, Body, Lengths;
    ExtractedDetermined(Injected(c, counted, written));
    if c.decision.strategy != Unknown {
      FlagsRead(c.decision.flags);
      BodyReads(c, counted, written, Int32(Code(c.decision.flags)));
    }
  }

  lemma FlagsRead(f: Flags)
    ensures ReadFlags(Int32(Code(f))) == f
  {
    hide ReadInt32, Int32;
    Int32Reads(Code(f), []);
    assert Int32(Code(f)) + [] == Int32(Code(f));
    FlagsRoundTrip(f);
  }

  /** Without its last 4 bytes an injected context reads back the same, but with unknown flags. */
  lemma FlagsOptional(c: Context, counted: seq<Bytes>, written: seq<Bytes>)
    requires Lengths(c) && Lists(counted, c.baggage) && Lists(written, c.baggage)
    requires c.decision.strategy != Unknown && -TWO_31 <= c.decision.weight < TWO_31
    ensures var s := Injected(c, counted, written);
            |s| >= 4 && Extracted(s[..|s| - 4]) == Got(Received(c, FlagsUnknown))
  {
    hide Extracted, Body, Lengths;
    var s := Injected(c, counted, written);
    assert s[..|s| - 4] == Body(c, counted, written) + [];
    BodyReads(c, counted, written, []);
  }

  // ----- bytes that are no injected context

  lemma CutInt32(s: Bytes, n: nat)
    requires |s| == 4 && n < 4
    ensures ReadInt32(s[..n]) == Failed
  {
  }

  lemma CutString(x: Bytes, n: nat)
    requires |x| < TWO_31 && n < |Str(x)|
    ensures ReadString(Str(x)[..n]) == Failed
  {
    hide LittleEndian, ReadInt32;
    if n < 4 {
      assert Str(x)[..n] == LittleEndian(|x|, 4)[..n];
      CutInt32(LittleEndian(|x|, 4), n);
    } else {
      assert Str(x)[..n] == LittleEndian(|x|, 4) + x[..n - 4];
      LengthReads(|x|, x[..n - 4]);
    }
  }

  lemma {:induction false} CutPairs(ks: seq<Bytes>, m: map<Bytes, Bytes>, m0: map<Bytes, Bytes>, n: nat)
    requires forall k | k in ks :: k in m && |k| < TWO_31 && |m[k]| < TWO_31
    requires n < |Pairs(ks, m)|
    ensures ReadPairs(Pairs(ks, m)[..n], |ks|, m0) == Failed
    decreases |ks|
  {
    hide Str, ReadString;
    var k := ks[0];
    assert k in ks;
    var key, value, more := Str(k), Str(m[k]), Pairs(ks[1..], m);
    var s := Pairs(ks, m)[..n];
    if n < |key| {
      assert s == key[..n];
      CutString(k, n);
    } else if n - |key| < |value| {
      assert s == key + value[..n - |key|];
      StrReads(k, value[..n - |key|]);
      CutString(m[k], n - |key|);
    } else {
      var left := n - |key| - |value|;
      assert s == key + (value + more[..left]);
      StrReads(k, value + more[..left]);
      StrReads(m[k], more[..left]);
      CutPairs(ks[1..], m, m0[k := m[k]], left);
    }
  }

  lemma CutBaggage(c: Context, hit: I32, weight: I32, counted: seq<Bytes>, written: seq<Bytes>, n: nat)
    requires Lengths(c) && Lists(counted, c.baggage) && Lists(written, c.baggage)
    requires n < |LittleEndian(|counted|, 4) + Pairs(written, c.baggage)|
    ensures ReadBaggage(c.traceId, c.spanId, hit, weight, (LittleEndian(|counted|, 4) + Pairs(written, c.baggage))[..n])
         == Failed
  {
    hide LittleEndian, ReadInt32, ReadPairs, Pairs;
    ListLength(counted, c.baggage);
    ListLength(written, c.baggage);
    var head, pairs := LittleEndian(|counted|, 4), Pairs(written, c.baggage);
    if n < 4 {
      assert (head + pairs)[..n] == head[..n];
      CutInt32(head, n);
    } else {
      assert (head + pairs)[..n] == head + pairs[..n - 4];
      LengthReads(|counted|, pairs[..n - 4]);
      CutPairs(written, c.baggage, map[], n - 4);
    }
  }

  lemma CutSample(c: Context, hit: I32, counted: seq<Bytes>, written: seq<Bytes>, n: nat)
    requires Lengths(c) && Lists(counted, c.baggage) && Lists(written, c.baggage)
    requires var tail := LittleEndian(|counted|, 4) + Pairs(written, c.baggage); n < 8 + |tail|
    ensures var tail := LittleEndian(|counted|, 4) + Pairs(written, c.baggage);
            ReadSample(c.traceId, c.spanId, (Int32(hit) + (Int32(c.decision.weight) + tail))[..n]) == Failed
  {
    hide LittleEndian, ReadInt32, ReadBaggage, Pairs, Lengths;
    var w := Int32(c.decision.weight);
    var tail := LittleEndian(|counted|, 4) + Pairs(written, c.baggage);
    var s := (Int32(hit) + (w + tail))[..n];
    if n < 4 {
      assert s == Int32(hit)[..n];
      CutInt32(Int32(hit), n);
    } else {
      assert s == Int32(hit) + (w + tail)[..n - 4];
      Int32Reads(hit, (w + tail)[..n - 4]);
      if n < 8 {
        assert (w + tail)[..n - 4] == w[..n - 4];
        CutInt32(w, n - 4);
      } else {
        assert (w + tail)[..n - 4] == w + tail[..n - 8];
        Int32Reads(c.decision.weight, tail[..n - 8]);
        CutBaggage(c, hit, ReadInt32(w + tail[..n - 8]).value.0, counted, written, n - 8);
      }
    }
  }

  lemma CutIds(traceId: Bytes, spanId: Bytes, rest: Bytes, n: nat)
    requires |traceId| < TWO_31 && |spanId| < TWO_31
    ensures var s, k := Str(traceId) + (Str(spanId) + rest), |Str(traceId)| + |Str(spanId)|;
            && (n < k ==> Extracted(s[..n]) == Failed)
            && (k <= n <= |s| ==> Extracted(s[..n]) == ReadSample(traceId, spanId, rest[..n - k]))
  {
    hide Str, ReadString, ReadSample;
    var s, i, j := Str(traceId) + (Str(spanId) + rest), |Str(traceId)|, |Str(spanId)|;
    if n < i {
      assert s[..n] == Str(traceId)[..n];
      CutString(traceId, n);
    } else if n < i + j {
      assert s[..n] == Str(traceId) + Str(spanId)[..n - i];
      StrReads(traceId, Str(spanId)[..n - i]);
      CutString(spanId, n - i);
    } else if n <= |s| {
      assert s[..n] == Str(traceId) + (Str(spanId) + rest[..n - i - j]);
      IdsRead(traceId, spanId, rest[..n - i - j]);
    }
  }

  /**
   * An injected context that is cut off: extract fails if anything before the flags is missing, and gives unknown flags
   * if only bytes of those are.
   */
  lemma CutAnywhere(c: Context, counted: seq<Bytes>, written: seq<Bytes>, n: nat)
    requires Lengths(c) && Lists(counted, c.baggage) && Lists(written, c.baggage)
    requires c.decision.strategy != Unknown && -TWO_31 <= c.decision.weight < TWO_31
    requires n < |Injected(c, counted, written)|
    ensures Extracted(Injected(c, counted, written)[..n])
         == if n < |Body(c, counted, written)| then Failed else Got(Received(c, FlagsUnknown))
  {
    hide Str, LittleEndian, Int32, ReadSample, Extracted, Body, Pairs, Lengths, ReadFlags;
    var s, k := Injected(c, counted, written), |Body(c, counted, written)|;
    var flags := Int32(Code(c.decision.flags));
    LengthsOf(c);
    if n < k {
      var hit: I32 := if c.decision.strategy == Sampled then 1 else 0;
      var tail := LittleEndian(|counted|, 4) + Pairs(written, c.baggage);
      var fields := Int32(hit) + (Int32(c.decision.weight) + tail);
      BodyLayout(c, counted, written, []);
      assert Body(c, counted, written) + [] == Body(c, counted, written) && tail + [] == tail;
      assert s[..n] == (Str(c.traceId) + (Str(c.spanId) + fields))[..n];
      CutIds(c.traceId, c.spanId, fields, n);
      var ids := |Str(c.traceId)| + |Str(c.spanId)|;
      if ids <= n {
        CutSample(c, hit, counted, written, n - ids);
      }
    } else {
      assert s[..n] == Body(c, counted, written) + flags[..n - k];
      CutFlags(flags, n - k);
      BodyReads(c, counted, written, flags[..n - k]);
    }
  }

  lemma LengthsOf(c: Context)
    requires Lengths(c)
    ensures |c.traceId| < TWO_31 && |c.spanId| < TWO_31
    ensures forall i: I64 :: |Int32(i)| == 4
  {
  }

  lemma CutFlags(s: Bytes, n: nat)
    requires |s| == 4 && n < 4
    ensures ReadFlags(s[..n]) == FlagsUnknown
  {
  }

  /** A negative length panics, whether of an id or of a key of the baggage, and whatever follows. */
  lemma NegativeLengthPanics(traceId: Bytes, spanId: Bytes, hit: I32, weight: I32, n: I32, negative: I32, rest: Bytes)
    requires |traceId| < TWO_31 && |spanId| < TWO_31 && n > 0 && negative < 0
    ensures Extracted(Int32(negative) + rest) == Panicked
    ensures Extracted(Str(traceId) + (Int32(negative) + rest)) == Panicked
    ensures var pairs := Int32(n) + (Int32(negative) + rest);
            Extracted(Str(traceId) + (Str(spanId) + (Int32(hit) + (Int32(weight) + pairs)))) == Panicked
  {
    hide Str, Int32, ReadInt32;
    Int32Reads(negative, rest);
    Int32Reads(n, Int32(negative) + rest);
    Int32Reads(weight, Int32(n) + (Int32(negative) + rest));
    Int32Reads(hit, Int32(weight) + (Int32(n) + (Int32(negative) + rest)));
    StrReads(traceId, Int32(negative) + rest);
    IdsRead(traceId, spanId, Int32(hit) + (Int32(weight) + (Int32(n) + (Int32(negative) + rest))));
  }

  /** Of all the hit values only 1 means sampled. */
  lemma SampledIffOne(traceId: Bytes, spanId: Bytes, hit: I32, rest: Bytes)
    requires |traceId| < TWO_31 && |spanId| < TWO_31
    ensures var r := Extracted(Str(traceId) + (Str(spanId) + (Int32(hit) + rest)));
            r.Got? ==> (r.value.decision.strategy == Sampled <==> hit == 1)
  {
    hide Str, Int32, ReadInt32, ReadPairs, ReadFlags, Extracted;
    IdsRead(traceId, spanId, Int32(hit) + rest);
    Int32Reads(hit, rest);
  }

  // ----- the methods

  method WriteString(buf: Buffer, s: Bytes)
    modifies buf
    ensures buf.data == old(buf.data) + Str(s)
  {
    buf.Write(LittleEndian(|s|, 4));
    buf.Write(s);
  }

  /** The switch on the strategy: an unknown one is not written at all. */
  method WriteSample(buf: Buffer, d: Decision)
    modifies buf
    ensures buf.data == old(buf.data) + SampleFields(d)
  {
    hide Int32;
    match d.strategy {
      case Sampled =>
        buf.Write(Int32(1));
        buf.Write(Int32(d.weight));
      case NotSampled =>
        buf.Write(Int32(0));
        buf.Write(Int32(d.weight));
      case Unknown =>
    }
  }

  /** `Inject` */
  method Inject(c: Context, buf: Buffer, counted: seq<Bytes>, written: seq<Bytes>)
    requires forall k | k in written :: k in c.baggage
    modifies buf
    ensures buf.data == old(buf.data) + Injected(c, counted, written)
  {
    hide Str, Int32, LittleEndian, SampleFields, Pairs;
    WriteString(buf, c.traceId);
    WriteString(buf, c.spanId);
    WriteSample(buf, c.decision);
    var cnt := 0;
    for i := 0 to |counted|
      invariant cnt == i
    {
      cnt := cnt + 1;
    }
    buf.Write(LittleEndian(cnt, 4));
    ghost var before := buf.data;
    WritePairs(c, buf, written);
    buf.Write(Int32(Code(c.decision.flags)));
    assert buf.data == before + (Pairs(written, c.baggage) + Int32(Code(c.decision.flags)));
  }

  method WritePairs(c: Context, buf: Buffer, written: seq<Bytes>)
    requires forall k | k in written :: k in c.baggage
    modifies buf
    ensures buf.data == old(buf.data) + Pairs(written, c.baggage)
  {
    hide Str;
    var i := 0;
    assert written[..0] == [];
    while i < |written|
      invariant 0 <= i <= |written|
      invariant buf.data == old(buf.data) + Pairs(written[..i], c.baggage)
    {
      var k := written[i];
      PairsSnoc(written, i, c.baggage);
      ghost var before := buf.data;
      WriteString(buf, k);
      WriteString(buf, c.baggage[k]);
      assert buf.data == before + (Str(k) + Str(c.baggage[k]));
      i := i + 1;
    }
    assert written[..i] == written;
  }

  lemma {:induction false} PairsSnoc(ks: seq<Bytes>, i: nat, m: map<Bytes, Bytes>)
    requires i < |ks| && forall k | k in ks :: k in m
    ensures Pairs(ks[..i + 1], m) == Pairs(ks[..i], m) + (Str(ks[i]) + Str(m[ks[i]]))
    decreases i
  {
    hide Str;
    var xs, ys := ks[..i + 1], ks[..i];
    if i == 0 {
      assert xs[1..] == [];
    } else {
      assert xs[1..] == ks[1..][..i] && ys[1..] == ks[1..][..i - 1];
      PairsSnoc(ks[1..], i - 1, m);
    }
  }

  /** `binary.Read` into an `int32` */
  method ReadInt32From(buf: Buffer) returns (r: Outcome<I32>)
    modifies buf
    ensures match ReadInt32(old(buf.data))
            case Got((i, rest)) => r == Got(i) && buf.data == rest
            case Failed => r == Failed
            case Panicked => r == Panicked
  {
    var s := buf.Read(4);
    if |s| < 4 {
      return Failed;
    }
    assert old(buf.data)[..4] == s;
    return Got(ToI32(FromLittleEndian(s)));
  }

  /** `readString` */
  method ReadStringFrom(buf: Buffer) returns (r: Outcome<Bytes>)
    modifies buf
    ensures match ReadString(old(buf.data))
            case Got((s, rest)) => r == Got(s) && buf.data == rest
            case Failed => r == Failed
            case Panicked => r == Panicked
  {
    hide ReadInt32;
    var l := ReadInt32From(buf);
    match l
    case Failed => return Failed;
    case Panicked => return Panicked;
    case Got(n) =>
      if n < 0 {
        return Panicked;
      }
      ghost var rest := buf.data;
      var s := buf.Read(n);
      if |s| < n {
        return Failed;
      }
      assert rest[..n] == s && rest[n..] == buf.data;
      return Got(s);
  }

  /** The loop of `Extract` over the baggage. */
  method ReadPairsFrom(buf: Buffer, cnt: int) returns (r: Outcome<map<Bytes, Bytes>>)
    modifies buf
    ensures match ReadPairs(old(buf.data), cnt, map[])
            case Got((m, rest)) => r == Got(m) && buf.data == rest
            case Failed => r == Failed
            case Panicked => r == Panicked
  {
    hide ReadString;
    var baggage: map<Bytes, Bytes> := map[];
    var i := 0;
    while i < cnt
      invariant ReadPairs(buf.data, cnt - i, baggage) == ReadPairs(old(buf.data), cnt, map[])
    {
      var key := ReadStringFrom(buf);
      if !key.Got? {
        return if key.Failed? then Failed else Panicked;
      }
      var value := ReadStringFrom(buf);
      if !value.Got? {
        return if value.Failed? then Failed else Panicked;
      }
      baggage := baggage[key.value := value.value];
      i := i + 1;
    }
    return Got(baggage);
  }

  /** `Extract` */
  method Extract(buf: Buffer) returns (r: Outcome<Context>)
    modifies buf
    ensures r == Extracted(old(buf.data))
  {
    hide ReadString, ReadInt32, ReadPairs;
    var traceId := ReadStringFrom(buf);
    if !traceId.Got? {
      return if traceId.Failed? then Failed else Panicked;
    }
    var spanId := ReadStringFrom(buf);
    if !spanId.Got? {
      return if spanId.Failed? then Failed else Panicked;
    }
    var sampleHit := ReadInt32From(buf);
    if !sampleHit.Got? {
      return if sampleHit.Failed? then Failed else Panicked;
    }
    var sampleWeight := ReadInt32From(buf);
    if !sampleWeight.Got? {
      return if sampleWeight.Failed? then Failed else Panicked;
    }
    var cnt := ReadInt32From(buf);
    if !cnt.Got? {
      return if cnt.Failed? then Failed else Panicked;
    }
    var baggage := ReadPairsFrom(buf, cnt.value);
    if !baggage.Got? {
      return if baggage.Failed? then Failed else Panicked;
    }
    var flags := ReadInt32From(buf);
    return Got(Context(traceId.value, spanId.value,
                       Decision(if sampleHit.value == 1 then Sampled else NotSampled, sampleWeight.value, false,
                                if flags.Got? then FromInt32(flags.value) else FlagsUnknown),
                       baggage.value));
  }
}
