/** The stream frame: magic number, length, version, offsets, header and body, encoded in place. */
module Framing {
  import opened ByteStrings

  const MAGIC: nat := 31843
  const VERSION_1: Byte := 1
  const COMMON_PREFIX_LEN: nat := 6
  const VERSION_1_DATA_PREFIX_LEN: nat := 13

  /** `GetPrefixLen(version, header)` */
  function PrefixLen(version: nat, header: Bytes): int {
    if version == VERSION_1 then COMMON_PREFIX_LEN + VERSION_1_DATA_PREFIX_LEN + |header| else -1
  }

  /** The documented layout: `[magic, length], [version, body offset, body length, header length, header], [body]`. */
  function Frame(header: Bytes, body: Bytes): (s: Bytes)
    ensures |s| == 19 + |header| + |body|
  {
    FramePrefix(header, |body|) + body
  }

  function FramePrefix(header: Bytes, bodyLength: nat): (s: Bytes)
    ensures |s| == 19 + |header|
  {
    LittleEndian(MAGIC, 2) + LittleEndian(13 + |header| + bodyLength, 4) + [VERSION_1]
    + LittleEndian(13 + |header|, 4) + LittleEndian(bodyLength, 4) + LittleEndian(|header|, 4) + header
  }

  function U32At(s: Bytes, i: nat): nat
    requires i + 4 <= |s|
  {
    FromLittleEndian(s[i..i + 4])
  }

  /** A receiver that knows only the documented layout: header, body and the bytes the frame takes. */
  function ParseFrame(s: Bytes): Option<(Bytes, Bytes, nat)> {
    if |s| < 19 || FromLittleEndian(s[..2]) != MAGIC || s[6] != VERSION_1 then None
    else
      var length, bodyOffset, bodyLength, headerLength := U32At(s, 2), U32At(s, 7), U32At(s, 11), U32At(s, 15);
      if 6 + length > |s| || 13 + headerLength > bodyOffset || bodyOffset + bodyLength != length then None
      else Some((s[19..19 + headerLength], s[6 + bodyOffset..6 + length], 6 + length))
  }

  /** Lengths whose 32-bit fields do not overflow. */
  predicate Fits(header: Bytes, body: Bytes) {
    13 + |header| + |body| < TWO_32
  }

  lemma PrefixFields(header: Bytes, bodyLength: nat, rest: Bytes)
    requires 13 + |header| + bodyLength < TWO_32
    ensures var s := FramePrefix(header, bodyLength) + rest;
            && FromLittleEndian(s[..2]) == MAGIC && s[6] == VERSION_1
            && U32At(s, 2) == 13 + |header| + bodyLength && U32At(s, 7) == 13 + |header|
            && U32At(s, 11) == bodyLength && U32At(s, 15) == |header|
            && s[19..19 + |header|] == header && s[19 + |header|..] == rest
  {
    hide LittleEndian, FromLittleEndian;
    Pow256Values();
    LittleEndianRoundTrip(MAGIC, 2);
    LittleEndianRoundTrip(13 + |header| + bodyLength, 4);
    LittleEndianRoundTrip(13 + |header|, 4);
    LittleEndianRoundTrip(bodyLength, 4);
    LittleEndianRoundTrip(|header|, 4);
    var s := FramePrefix(header, bodyLength) + rest;
    assert s[..2] == LittleEndian(MAGIC, 2);
    assert s[2..6] == LittleEndian(13 + |header| + bodyLength, 4);
    assert s[7..11] == LittleEndian(13 + |header|, 4);
    assert s[11..15] == LittleEndian(bodyLength, 4);
    assert s[15..19] == LittleEndian(|header|, 4);
  }

  /**
   * The receiver recovers header and body and consumes exactly the frame, whatever follows it, if and only if
   * everything after the length field is shorter than 2^32 bytes.
   */
  lemma FrameRoundTrip(header: Bytes, body: Bytes, rest: Bytes)
    ensures ParseFrame(Frame(header, body) + rest) == Some((header, body, |Frame(header, body)|))
       <==> Fits(header, body)
  {
    hide LittleEndian, FromLittleEndian, FramePrefix;
    var s := Frame(header, body) + rest;
    if Fits(header, body) {
      PrefixFields(header, |body|, body + rest);
      assert s == FramePrefix(header, |body|) + (body + rest);
    } else {
      FromLittleEndianBound(s[2..6]);
      Pow256Values();
    }
  }

  /** `PutUintN(payload[i:i+n], uintN(v))` */
  method PutLittleEndian(payload: array<Byte>, i: nat, v: nat, n: nat)
    requires i + n <= payload.Length
    modifies payload
    ensures payload[..i + n] == old(payload[..i]) + LittleEndian(v, n)
    ensures forall k | i + n <= k < payload.Length :: payload[k] == old(payload[k])
  {
    var bytes := LittleEndian(v, n);
    forall k | 0 <= k < n {
      payload[i + k] := bytes[k];
    }
  }

  /** The writes both encoders end with: everything but the body, which is already in place. */
  method PutPrefix(payload: array<Byte>, header: Bytes, bodyLength: nat)
    requires 19 + |header| <= payload.Length
    modifies payload
    ensures payload[..19 + |header|] == FramePrefix(header, bodyLength)
    ensures forall k | 19 + |header| <= k < payload.Length :: payload[k] == old(payload[k])
  {
    hide LittleEndian;
    PutLittleEndian(payload, 0, MAGIC, 2);
    PutLittleEndian(payload, 2, 13 + |header| + bodyLength, 4);
    ghost var written := payload[..6];
    payload[6] := VERSION_1;
    assert payload[..7] == written + [VERSION_1];
    PutLittleEndian(payload, 7, 13 + |header|, 4);
    PutLittleEndian(payload, 11, bodyLength, 4);
    PutLittleEndian(payload, 15, |header|, 4);
    written := payload[..19];
    forall k | 0 <= k < |header| {
      payload[19 + k] := header[k];
    }
    assert payload[..19 + |header|] == written + header;
  }

  /** Go's `copy`: all reads happen before all writes, also when source and target overlap. */
  method CopyTo(payload: array<Byte>, start: nat, source: array<Byte>, length: nat)
    requires length <= source.Length && start + length <= payload.Length
    modifies payload
    ensures payload[start..start + length] == old(source[..length])
    ensures forall k | 0 <= k < start || start + length <= k < payload.Length :: payload[k] == old(payload[k])
  {
    forall k | 0 <= k < length {
      payload[start + k] := source[k];
    }
  }

  /**
   * `Encode`: `buffer[..length]` is the body and `buffer.Length` its capacity. When the capacity suffices the body
   * is moved up inside the same buffer, over itself if need be; the result is the same frame either way.
   */
  method Encode(buffer: array<Byte>, length: nat, header: Bytes) returns (payload: array<Byte>, total: nat)
    requires length <= buffer.Length
    modifies buffer
    ensures total == 19 + |header| + length <= payload.Length
    ensures payload[..total] == Frame(header, old(buffer[..length]))
    ensures payload == buffer <==> total <= buffer.Length
    ensures payload == buffer ==> forall k | total <= k < buffer.Length :: buffer[k] == old(buffer[k])
    ensures payload != buffer ==> fresh(payload) && buffer[..] == old(buffer[..])
  {
    ghost var body := buffer[..length];
    total := COMMON_PREFIX_LEN + VERSION_1_DATA_PREFIX_LEN + |header| + length;
    if buffer.Length < total {
      payload := new Byte[total];
    } else {
      payload := buffer;
    }
    var start := total - length;
    CopyTo(payload, start, buffer, length);
    assert payload[start..total] == body;
    PutPrefix(payload, header, length);
    assert payload[start..total] == body;
    assert payload[..total] == payload[..start] + payload[start..total];
  }

  /**
   * `EncodePreAllocated`: `payload[..length]` starts with room for the prefix. Only that room is written; a payload
   * too short to hold it is left alone.
   */
  method EncodePreAllocated(payload: array<Byte>, length: nat, header: Bytes)
    requires length <= payload.Length
    modifies payload
    ensures length >= 19 + |header| ==> payload[..length] == Frame(header, old(payload[19 + |header|..length]))
    ensures forall k | 19 + |header| <= k < payload.Length :: payload[k] == old(payload[k])
    ensures length < 19 + |header| ==> payload[..] == old(payload[..])
  {
    var prefix := PrefixLen(VERSION_1, header);
    if length < prefix {
      return;
    }
    ghost var body := payload[prefix..length];
    PutPrefix(payload, header, length - prefix);
    assert payload[prefix..length] == body;
    assert payload[..length] == payload[..prefix] + payload[prefix..length];
  }

  /** A stream of frames, split by the documented layout alone. */
  function ParseFrames(s: Bytes): Option<seq<(Bytes, Bytes)>>
    decreases |s|
  {
    if s == [] then Some([])
    else
      match ParseFrame(s)
      case None => None
      case Some((header, body, n)) =>
        match ParseFrames(s[n..])
        case None => None
        case Some(rest) => Some([(header, body)] + rest)
  }

  /** The frames of a list of bodies, one after the other. */
  function Frames(header: Bytes, bodies: seq<Bytes>): Bytes {
    if bodies == [] then [] else Frame(header, bodies[0]) + Frames(header, bodies[1..])
  }

  function Pairs(header: Bytes, bodies: seq<Bytes>): seq<(Bytes, Bytes)> {
    if bodies == [] then [] else [(header, bodies[0])] + Pairs(header, bodies[1..])
  }

  /** A byte stream made of frames splits into exactly those frames. */
  lemma {:induction false} StreamRoundTrip(header: Bytes, bodies: seq<Bytes>)
    requires forall b | b in bodies :: Fits(header, b)
    ensures ParseFrames(Frames(header, bodies)) == Some(Pairs(header, bodies))
    decreases |bodies|
  {
    hide ParseFrame, Frame;
    if bodies != [] {
      assert bodies[0] in bodies;
      var rest := Frames(header, bodies[1..]);
      FrameRoundTrip(header, bodies[0], rest);
      StreamRoundTrip(header, bodies[1..]);
      assert (Frame(header, bodies[0]) + rest)[|Frame(header, bodies[0])|..] == rest;
    }
  }
}
