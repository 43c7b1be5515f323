/** Sample strategies and flags, and the decision `startSpan` fixes in a trace context. */
module Sampling {
  import opened ByteStrings
  import opened Decimal

  datatype Strategy = Unknown | NotSampled | Sampled

  /** The `SampleFlags` constants; their codes go over the wire. */
  datatype Flags = FlagsUnknown | FlagsNotSampled | FlagsClient | FlagsServer | FlagsClientAndServer

  function Code(f: Flags): I32 {
    match f
    case FlagsUnknown => -1
    case FlagsNotSampled => 0
    case FlagsClient => 1
    case FlagsServer => 2
    case FlagsClientAndServer => 3
  }

  /** `SampleFlagsFromInt32` */
  function FromInt32(flag: I32): Flags {
    match flag
    case 0 => FlagsNotSampled
    case 1 => FlagsClient
    case 2 => FlagsServer
    case 3 => FlagsClientAndServer
    case _ => FlagsUnknown
  }

  /** `ToString` */
  function FlagsText(f: Flags): Bytes {
    match f
    case FlagsNotSampled => [ZERO]
    case FlagsClient => [ZERO + 1]
    case FlagsServer => [ZERO + 2]
    case FlagsClientAndServer => [ZERO + 3]
    case FlagsUnknown => [MINUS, ZERO + 1]
  }

  /** `Sampled` */
  predicate FlagsSampled(f: Flags) {
    Code(f) > 0
  }

  /** Flags survive both forms in which they are sent. */
  lemma FlagsRoundTrip(f: Flags)
    ensures FromInt32(Code(f)) == f
    ensures FromInt32(ToI32(ToU64(Atoi(FlagsText(f))))) == f
  {
    var i: I64 := Code(f);
    assert FlagsText(f) == Itoa(i);
    DecimalRoundTrip(i);
    SignedRoundTrip(i);
  }

  /** What a trace context says about sampling. */
  datatype Decision = Decision(strategy: Strategy, weight: I64, clientSampled: bool, flags: Flags)

  /** The two blocks of `startSpan` that settle what is unknown; `sampled` and `weight` are the sampler's answer. */
  function Settle(d: Decision, sampled: bool, weight: I64): Decision {
    SettleFlags(if d.strategy != Unknown then d
                else if sampled then d.(strategy := Sampled, weight := weight)
                else d.(strategy := NotSampled))
  }

  function SettleFlags(d: Decision): Decision {
    if d.flags != FlagsUnknown then d
    else
      match d.strategy
      case NotSampled => d.(flags := if d.clientSampled then FlagsClient else FlagsNotSampled)
      case Sampled => d.(flags := if d.clientSampled then FlagsClientAndServer else FlagsServer)
      case Unknown => d
  }

  predicate Settled(d: Decision) {
    d.strategy != Unknown && d.flags != FlagsUnknown
  }

  /** `collect`: whether a finished trace is sent. */
  predicate Collects(d: Decision) {
    d.strategy == Sampled || FlagsSampled(d.flags)
  }

  /**
   * One pass settles the decision for good: no later answer of a sampler changes it, and a decision that was already
   * settled on arrival is kept as it is.
   */
  lemma SettleOnce(d: Decision, sampled: bool, weight: I64, later: bool, laterWeight: I64)
    ensures Settled(Settle(d, sampled, weight))
    ensures Settle(Settle(d, sampled, weight), later, laterWeight) == Settle(d, sampled, weight)
    ensures Settled(d) ==> Settle(d, sampled, weight) == d
    ensures d.strategy != Unknown ==> Settle(d, sampled, weight).strategy == d.strategy
    ensures d.flags != FlagsUnknown ==> Settle(d, sampled, weight).flags == d.flags
  {
  }

  /**
   * When the flags are settled here, they say exactly who sampled; so a trace is collected if and only if the client
   * or the server sampled it.
   */
  lemma CollectsIffSomeoneSampled(d: Decision, sampled: bool, weight: I64)
    requires d.flags == FlagsUnknown
    ensures var s := Settle(d, sampled, weight);
            && (Collects(s) <==> s.strategy == Sampled || s.clientSampled)
            && (s.flags == FlagsClient || s.flags == FlagsClientAndServer <==> s.clientSampled)
            && (s.flags == FlagsServer || s.flags == FlagsClientAndServer <==> s.strategy == Sampled)
  {
  }

  /**
   * What the sampler decides: only an unknown strategy, and with it the weight of a sampled trace. The flags settled
   * here have bit 0 for the client and bit 1 for the server, and what the client said is never changed.
   */
  lemma SamplerDecides(d: Decision, sampled: bool, weight: I64)
    ensures var s := Settle(d, sampled, weight);
            && (d.strategy == Unknown ==> (s.strategy == Sampled <==> sampled))
            && s.weight == (if d.strategy == Unknown && sampled then weight else d.weight)
            && (d.strategy != Unknown ==> s.strategy == d.strategy)
            && s.clientSampled == d.clientSampled
            && (d.flags == FlagsUnknown ==>
                 Code(s.flags) == (if d.clientSampled then 1 else 0) + (if s.strategy == Sampled then 2 else 0))
  {
  }

  /** What a `SpanContext` tells its callers. */
  datatype Context = Context(traceId: Bytes, spanId: Bytes, decision: Decision, baggage: map<Bytes, Bytes>)

  /** What the receiver gets: `ClientSampled` is not sent. */
  function Received(c: Context, flags: Flags): Context {
    c.(decision := Decision(c.decision.strategy, c.decision.weight, false, flags))
  }
}
