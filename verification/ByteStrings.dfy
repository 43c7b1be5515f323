/** Bytes, fixed-width integers and the little-endian layouts every wire format here is built on. */
module ByteStrings {

  /** One byte of a Go `[]byte` or `string`. */
  type Byte = b: int | 0 <= b < 256

  type Bytes = seq<Byte>

  /** One encoded record, never empty. */
  type Record = s: Bytes | s != [] witness [0]

  const TWO_31: int := 0x8000_0000
  const TWO_32: int := 0x1_0000_0000
  const TWO_63: int := 0x8000_0000_0000_0000
  const TWO_64: int := 0x1_0000_0000_0000_0000

  type U32 = x: int | 0 <= x < 0x1_0000_0000
  type I32 = x: int | -0x8000_0000 <= x < 0x8000_0000
  type U64 = x: int | 0 <= x < 0x1_0000_0000_0000_0000
  type I64 = x: int | -0x8000_0000_0000_0000 <= x < 0x8000_0000_0000_0000

  datatype Option<+T> = None | Some(value: T)

  /** Go's conversion of a signed integer to `uint64`: sign extension, then reinterpretation. */
  function ToU64(i: I64): (u: U64) {
    if i < 0 then i + TWO_64 else i
  }

  /** Go's conversion `int64(u)` of a `uint64`. */
  function ToI64(u: U64): (i: I64)
    ensures ToU64(i) == u
  {
    if u < TWO_63 then u else u - TWO_64
  }

  /** Go's conversion `int32(u)`: the low 32 bits, read as two's complement. */
  function ToI32(u: nat): (i: I32)
    ensures (i - u) % TWO_32 == 0
  {
    var low := u % TWO_32;
    if low < TWO_31 then low else low - TWO_32
  }

  /** Converting to `uint64` and back loses nothing, for 64-bit and for sign-extended 32-bit values. */
  lemma SignedRoundTrip(i: I64)
    ensures ToI64(ToU64(i)) == i
    ensures -TWO_31 <= i < TWO_31 ==> ToI32(ToU64(i)) == i
  {
    if -TWO_31 <= i < 0 {
      assert ToU64(i) == i + TWO_32 + 0xFFFF_FFFF * TWO_32;
      assert ToU64(i) % TWO_32 == i + TWO_32;
    }
  }

  /** `n` bytes of `v`, least significant first; higher bits are dropped, as Go's `PutUintN(uintN(v))` does. */
  function LittleEndian(v: nat, n: nat): (s: Bytes)
    ensures |s| == n
  {
    if n == 0 then [] else [v % 256] + LittleEndian(v / 256, n - 1)
  }

  function FromLittleEndian(s: Bytes): nat {
    if s == [] then 0 else s[0] + 256 * FromLittleEndian(s[1..])
  }

  function Pow256(n: nat): (p: nat)
    ensures p > 0
  {
    if n == 0 then 1 else 256 * Pow256(n - 1)
  }

  lemma {:induction false} LittleEndianRoundTrip(v: nat, n: nat)
    requires v < Pow256(n)
    ensures FromLittleEndian(LittleEndian(v, n)) == v
  {
    if n > 0 {
      assert v / 256 < Pow256(n - 1);
      LittleEndianRoundTrip(v / 256, n - 1);
      assert LittleEndian(v, n)[1..] == LittleEndian(v / 256, n - 1);
    }
  }

  lemma {:induction false} FromLittleEndianBound(s: Bytes)
    ensures FromLittleEndian(s) < Pow256(|s|)
  {
    if s != [] {
      FromLittleEndianBound(s[1..]);
    }
  }

  lemma Pow256Values()
    ensures Pow256(2) == 0x1_0000
    ensures Pow256(4) == TWO_32
    ensures Pow256(8) == TWO_64
  {
    assert Pow256(2) == 256 * Pow256(1);
    assert Pow256(4) == 256 * Pow256(3) == 256 * (256 * Pow256(2));
    assert Pow256(6) == 256 * Pow256(5) == 256 * (256 * Pow256(4));
    assert Pow256(8) == 256 * Pow256(7) == 256 * (256 * Pow256(6));
  }

  predicate NoDup<T(==)>(s: seq<T>) {
    forall i, j :: 0 <= i < j < |s| ==> s[i] != s[j]
  }

  lemma FirstMember<T>(ls: seq<T>)
    ensures ls == [] || ls[0] in ls
  {
  }

  lemma RemoveMembers<T>(ls: seq<T>, i: nat)
    requires NoDup(ls) && i < |ls|
    ensures NoDup(ls[..i] + ls[i + 1..])
    ensures forall k :: k in ls[..i] + ls[i + 1..] <==> k in ls && k != ls[i]
  {
    var others := ls[..i] + ls[i + 1..];
    forall k | k in ls && k != ls[i] ensures k in others {
      var j :| 0 <= j < |ls| && ls[j] == k;
      assert others[if j < i then j else j - 1] == k;
    }
  }

  /** `ks` lists the keys of a map, each once: one of the orders in which Go may iterate it. */
  ghost predicate Lists<V>(ks: seq<Bytes>, m: map<Bytes, V>) {
    NoDup(ks) && (forall k :: k in ks <==> k in m)
  }

  /** The entries of `m` with keys `ks`. */
  function Restrict<V>(ks: seq<Bytes>, m: map<Bytes, V>): (r: map<Bytes, V>)
    requires forall k | k in ks :: k in m
    ensures forall k :: k in r <==> k in ks
    ensures forall k | k in ks :: r[k] == m[k]
  {
    map k | k in ks :: m[k]
  }

  lemma RestrictAll<V>(ks: seq<Bytes>, m: map<Bytes, V>)
    requires Lists(ks, m)
    ensures map[] + Restrict(ks, m) == m
  {
  }

  lemma Regroup<T>(a: seq<T>, b: seq<T>, c: seq<T>)
    ensures a + b + c == a + (b + c)
  {
  }

  /** The strings of a list laid end to end. */
  function Concat(parts: seq<Bytes>): Bytes {
    if parts == [] then [] else parts[0] + Concat(parts[1..])
  }

  lemma {:induction false} ConcatAppend(xs: seq<Bytes>, ys: seq<Bytes>)
    ensures Concat(xs + ys) == Concat(xs) + Concat(ys)
  {
    if xs == [] {
      assert xs + ys == ys;
    } else {
      assert (xs + ys)[0] == xs[0] && (xs + ys)[1..] == xs[1..] + ys;
      ConcatAppend(xs[1..], ys);
    }
  }

  lemma ConcatSnoc(xs: seq<Bytes>, y: Bytes)
    ensures Concat(xs + [y]) == Concat(xs) + y
  {
    ConcatAppend(xs, [y]);
    assert [y][1..] == [];
    assert Concat([y]) == y;
  }
}
