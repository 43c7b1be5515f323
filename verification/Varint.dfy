/** Base 128 varints (Protocol Buffers Encoding, section 'Base 128 Varints'). */
module Varint {
  import opened ByteStrings

  datatype Error =
    | IntOverflow
    | UnexpectedEOF
    | InvalidLength
    | EndGroup
    | IllegalTag(num: int)
    | IllegalWireType(wireType: nat)
    | WrongWireType(num: int)
    | RequiredNotSet(num: int)

  datatype Result<+T> = Ok(value: T) | Err(error: Error) {
    predicate IsFailure() {
      Err?
    }
    function PropagateFailure<U>(): Result<U>
      requires Err?
    {
      Err(error)
    }
    function Extract(): T
      requires Ok?
    {
      value
    }
  }

  function Pow2(n: nat): (p: nat)
    ensures p > 0
  {
    if n == 0 then 1 else 2 * Pow2(n - 1)
  }

  /** Bitwise or. */
  function Or(a: nat, b: nat): nat
    decreases a + b
  {
    if a == 0 then b
    else if b == 0 then a
    else 2 * Or(a / 2, b / 2) + (if a % 2 == 1 || b % 2 == 1 then 1 else 0)
  }

  /** The bytes of `v`: groups of seven bits, least significant first, all but the last with the high bit set. */
  function Encode(v: nat): (s: Bytes)
    ensures |s| > 0
  {
    if v < 128 then [v] else [v % 128 + 128] + Encode(v / 128)
  }

  /** `(uint64(b) & 0x7F) << shift` in 64 bits. */
  function Chunk(b: Byte, shift: nat): U64 {
    b % 128 * Pow2(shift) % TWO_64
  }

  lemma {:induction false} OrBound(a: nat, b: nat, bits: nat)
    requires a < Pow2(bits) && b < Pow2(bits)
    ensures Or(a, b) < Pow2(bits)
    decreases a + b
  {
    if a != 0 && b != 0 {
      OrBound(a / 2, b / 2, bits - 1);
    }
  }

  lemma {:induction false} Pow2Plus(m: nat, n: nat)
    ensures Pow2(m + n) == Pow2(m) * Pow2(n)
  {
    if m > 0 {
      Pow2Plus(m - 1, n);
    }
  }

  lemma Pow2Small()
    ensures Pow2(7) == 128 && Pow2(8) == 256
  {
    assert Pow2(4) == 2 * Pow2(3) == 4 * Pow2(2);
    assert Pow2(6) == 2 * Pow2(5) == 4 * Pow2(4);
    assert Pow2(8) == 2 * Pow2(7) == 4 * Pow2(6);
  }

  lemma Pow2Values()
    ensures Pow2(7) == 128
    ensures Pow2(32) == TWO_32
    ensures Pow2(64) == TWO_64
  {
    hide Pow2;
    Pow2Small();
    Pow2Plus(8, 8);
    Pow2Plus(16, 16);
    Pow2Plus(32, 32);
  }

  lemma OrParts(a: nat, b: nat)
    ensures Or(a, b) / 2 == Or(a / 2, b / 2)
    ensures Or(a, b) % 2 == 1 <==> a % 2 == 1 || b % 2 == 1
  {
  }

  lemma {:induction false} OrAssociates(a: nat, b: nat, c: nat)
    ensures Or(Or(a, b), c) == Or(a, Or(b, c))
    decreases a + b + c
  {
    if a != 0 && b != 0 && c != 0 {
      OrAssociates(a / 2, b / 2, c / 2);
      OrParts(a, b);
      OrParts(b, c);
      OrParts(Or(a, b), c);
      OrParts(a, Or(b, c));
    }
  }

  lemma {:induction false} OrCommutes(a: nat, b: nat)
    ensures Or(a, b) == Or(b, a)
    decreases a + b
  {
    if a != 0 && b != 0 {
      OrCommutes(a / 2, b / 2);
    }
  }

  lemma {:induction false} OrIdempotent(a: nat)
    ensures Or(a, a) == a
    decreases a
  {
    if a != 0 {
      OrIdempotent(a / 2);
    }
  }

  /** `acc | word` on 64-bit words. */
  function Or64(acc: U64, word: U64): U64 {
    Pow2Values();
    OrBound(acc, word, 64);
    Or(acc, word)
  }

  /** Or-ing a word above the bits in use is addition. */
  lemma {:induction false} OrDisjoint(a: nat, m: nat, bits: nat)
    requires a < Pow2(bits)
    ensures Or(a, m * Pow2(bits)) == a + m * Pow2(bits)
  {
    if bits > 0 && a > 0 && m > 0 {
      var high := m * Pow2(bits - 1);
      assert m * Pow2(bits) == 2 * high;
      OrDisjoint(a / 2, m, bits - 1);
      assert high > 0;
      assert Or(a, 2 * high) == 2 * Or(a / 2, high) + a % 2;
    } else if m == 0 {
      assert m * Pow2(bits) == 0;
    }
  }

  /** Reads a varint at the front of `s`, or-ing its groups into `acc`; returns the word and the bytes used. */
  function Read(s: Bytes, shift: nat, acc: U64): (r: Result<(U64, nat)>)
    ensures r.Ok? ==> 0 < r.value.1 <= |s|
  {
    if shift >= 64 then Err(IntOverflow)
    else if s == [] then Err(UnexpectedEOF)
    else
      var acc' := Or64(acc, Chunk(s[0], shift));
      if s[0] < 128 then Ok((acc', 1))
      else
        var (v, n) :- Read(s[1..], shift + 7, acc');
        Ok((v, n + 1))
  }

  lemma {:induction false} Pow2Grows(m: nat, n: nat)
    requires m <= n
    ensures Pow2(m) <= Pow2(n)
    decreases n
  {
    if m < n {
      Pow2Grows(m, n - 1);
    }
  }

  lemma Distribute(low: nat, high: nat, base: nat, unit: nat)
    ensures (low + high * base) * unit == low * unit + high * (base * unit)
  {
  }

  lemma Multiply(x: nat, y: nat, unit: nat)
    requires x <= y
    ensures x * unit <= y * unit
  {
  }

  /** The arithmetic of one group: the low seven bits of `v` and the rest, shifted, make up the shifted `v`. */
  lemma SplitGroup(v: nat, shift: nat)
    ensures Pow2(shift + 7) == 128 * Pow2(shift)
    ensures v * Pow2(shift) == v % 128 * Pow2(shift) + v / 128 * Pow2(shift + 7)
    ensures v % 128 * Pow2(shift) <= 127 * Pow2(shift)
  {
    Pow2Plus(7, shift);
    Pow2Values();
    Distribute(v % 128, v / 128, 128, Pow2(shift));
    Multiply(v % 128, 127, Pow2(shift));
  }

  /** A shifted value that fits in 64 bits and has a second group leaves room for another shift. */
  lemma RoomForGroup(v: nat, shift: nat)
    requires v >= 128 && v * Pow2(shift) < TWO_64
    ensures shift + 7 < 64
  {
    SplitGroup(v, shift);
    Multiply(128, v, Pow2(shift));
    Pow2Values();
    if 64 <= shift + 7 {
      Pow2Grows(64, shift + 7);
    }
  }

  /** The low group of a shifted value that fits in 64 bits fits too, above the bits in use. */
  lemma LowGroupFits(v: nat, shift: nat, acc: U64)
    requires acc + v * Pow2(shift) < TWO_64
    ensures acc + v % 128 * Pow2(shift) < TWO_64 && 0 <= v % 128 * Pow2(shift)
  {
    hide Pow2;
    Multiply(v % 128, v, Pow2(shift));
    Multiply(0, v % 128, Pow2(shift));
  }

  lemma FirstByte(v: nat)
    ensures Encode(v)[0] % 128 == v % 128
  {
  }

  /** The first byte `Encode` writes contributes the low seven bits of its value. */
  lemma FirstChunk(v: nat, shift: nat, acc: U64)
    requires acc < Pow2(shift) && acc + v * Pow2(shift) < TWO_64
    ensures acc + v % 128 * Pow2(shift) < TWO_64
    ensures Or64(acc, Chunk(Encode(v)[0], shift)) == acc + v % 128 * Pow2(shift)
  {
    hide Pow2, Or, Encode;
    LowGroupFits(v, shift, acc);
    FirstByte(v);
    OrDisjoint(acc, v % 128, shift);
  }

  /** Reading back what `Encode` wrote, whatever follows, adds the value above the bits already in `acc`. */
  lemma {:induction false} ReadEncoded(v: nat, rest: Bytes, shift: nat, acc: U64)
    requires acc < Pow2(shift)
    requires acc + v * Pow2(shift) < TWO_64
    requires shift < 64
    ensures Read(Encode(v) + rest, shift, acc) == Ok((acc + v * Pow2(shift), |Encode(v)|))
    decreases v
  {
    hide Pow2, Or64, Chunk;
    var s := Encode(v) + rest;
    FirstChunk(v, shift, acc);
    SplitGroup(v, shift);
    if v >= 128 {
      RoomForGroup(v, shift);
      ReadEncoded(v / 128, rest, shift + 7, acc + v % 128 * Pow2(shift));
      assert s[1..] == Encode(v / 128) + rest;
    }
  }

  /** A varint written by `Encode` reads back as itself and the read stops exactly at its end. */
  lemma RoundTrip(v: U64, rest: Bytes)
    ensures Read(Encode(v) + rest, 0, 0) == Ok((v, |Encode(v)|))
  {
    ReadEncoded(v, rest, 0, 0);
  }

  /** What is in the accumulator before a read is or-ed into the word that is read. */
  lemma {:induction false} ReadOr(s: Bytes, shift: nat, acc: U64)
    requires Read(s, shift, 0).Ok?
    ensures Read(s, shift, acc) == Ok((Or64(acc, Read(s, shift, 0).value.0), Read(s, shift, 0).value.1))
    decreases |s|
  {
    var chunk := Chunk(s[0], shift);
    assert Or64(0, chunk) == chunk;
    if s[0] >= 128 {
      ReadFails(s[1..], shift + 7, chunk);
      ReadOr(s[1..], shift + 7, chunk);
      ReadOr(s[1..], shift + 7, Or64(acc, chunk));
      OrAssociates(acc, chunk, Read(s[1..], shift + 7, 0).value.0);
    }
  }

  /** Whether a read succeeds does not depend on the accumulator. */
  lemma {:induction false} ReadFails(s: Bytes, shift: nat, acc: U64)
    ensures Read(s, shift, acc).Ok? <==> Read(s, shift, 0).Ok?
    decreases |s|
  {
    if shift < 64 && s != [] && s[0] >= 128 {
      ReadFails(s[1..], shift + 7, Or64(acc, Chunk(s[0], shift)));
      ReadFails(s[1..], shift + 7, Or64(0, Chunk(s[0], shift)));
    }
  }

  /** A successful read never looks past the bytes it consumed. */
  lemma {:induction false} ReadExtend(s: Bytes, more: Bytes, shift: nat, acc: U64)
    requires Read(s, shift, acc).Ok?
    ensures Read(s + more, shift, acc) == Read(s, shift, acc)
    decreases |s|
  {
    if s[0] >= 128 {
      ReadExtend(s[1..], more, shift + 7, Or64(acc, Chunk(s[0], shift)));
      assert (s + more)[1..] == s[1..] + more;
    }
  }

  /** The number of bytes a varint takes. */
  method SizeOf(x: U64) returns (n: nat)
    ensures n == |Encode(x)|
  {
    n := 0;
    var rest := x;
    while true
      invariant n + |Encode(rest)| == |Encode(x)|
      decreases rest
    {
      n := n + 1;
      if rest / 128 == 0 {
        return;
      }
      rest := rest / 128;
    }
  }

  /** Writes `v` at `offset` and returns the index after it. */
  method Write(a: array<Byte>, offset: nat, v: U64) returns (end: nat)
    requires offset + |Encode(v)| <= a.Length
    modifies a
    ensures end == offset + |Encode(v)|
    ensures a[..end] == old(a[..offset]) + Encode(v)
    ensures forall k | end <= k < a.Length :: a[k] == old(a[k])
  {
    end := offset;
    var rest: nat := v;
    while rest >= 128
      invariant offset <= end && end + |Encode(rest)| == offset + |Encode(v)|
      invariant a[..end] + Encode(rest) == old(a[..offset]) + Encode(v)
      invariant forall k :: end <= k < a.Length ==> a[k] == old(a[k])
    {
      ghost var before := a[..end];
      a[end] := rest % 128 + 128;
      assert a[..end + 1] == before + [(rest % 128 + 128) as Byte];
      assert a[..end + 1] + Encode(rest / 128) == before + Encode(rest);
      rest := rest / 128;
      end := end + 1;
    }
    ghost var before := a[..end];
    a[end] := rest;
    end := end + 1;
    assert a[..end] == before + [rest as Byte];
  }

  /** The result of a read that started `k` bytes earlier. */
  function Advance(r: Result<(U64, nat)>, k: nat): Result<(U64, nat)> {
    match r
    case Ok((v, n)) => Ok((v, n + k))
    case Err(e) => Err(e)
  }

  /** The decoding loop repeated throughout the generated code, starting at `index` with `acc` already set. */
  method ReadAt(data: Bytes, index: nat, acc: U64) returns (r: Result<(U64, nat)>)
    requires index <= |data|
    ensures r == Advance(Read(data[index..], 0, acc), index)
  {
    var i, shift, wire := index, 0, acc;
    while true
      invariant index <= i <= |data|
      invariant Advance(Read(data[index..], 0, acc), index) == Advance(Read(data[i..], shift, wire), i)
      decreases |data| - i
    {
      if shift >= 64 {
        return Err(IntOverflow);
      }
      if i >= |data| {
        return Err(UnexpectedEOF);
      }
      var b := data[i];
      assert data[i..][0] == b && data[i..][1..] == data[i + 1..];
      i := i + 1;
      wire := Or64(wire, Chunk(b, shift));
      if b < 128 {
        return Ok((wire, i));
      }
      shift := shift + 7;
    }
  }
}
