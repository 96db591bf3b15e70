/** Bytes, machine integers and the byte stream under every codec.

    Go's fixed-width integers are modelled by subset types of `int`; where an
    operation can leave the range, the wrap-around is written out with `Wrap32`
    and its relatives.
 */
module Bytes {
  type byte = b: int | 0 <= b < 256

  const U16: int := 0x1_0000
  const U31: int := 0x8000_0000
  const U32: int := 0x1_0000_0000
  const U63: int := 0x8000_0000_0000_0000
  const U64: int := 0x1_0000_0000_0000_0000

  type uint16 = x: int | 0 <= x < 0x1_0000
  type uint32 = x: int | 0 <= x < 0x1_0000_0000
  type int32 = x: int | -0x8000_0000 <= x < 0x8000_0000
  type int64 = x: int | -0x8000_0000_0000_0000 <= x < 0x8000_0000_0000_0000

  function Min(a: nat, b: nat): (m: nat) {
    if a < b then a else b
  }

  function Pow2(n: nat): (p: nat)
    ensures p > 0
  {
    if n == 0 then 1 else 2 * Pow2(n - 1)
  }

  lemma Pow2Values()
    ensures Pow2(8) == 256 && Pow2(16) == U16
  {
    assert Pow2(4) == 16 && Pow2(8) == 16 * Pow2(4) && Pow2(12) == 16 * Pow2(8) && Pow2(16) == 16 * Pow2(12);
  }

  /** Quotient and remainder, from the equation they solve. */
  lemma DivMod(x: int, d: nat, q: int, b: nat)
    requires b < d && x == d * q + b
    ensures x / d == q && x % d == b
  {
    var e := x / d - q;
    assert d * e == b - x % d;
  }

  /** Conversion to `uint32`: keep the low 32 bits. */
  function Wrap32(x: int): uint32 {
    x % U32
  }

  /** Conversion to `int32`: keep the low 32 bits, read as two's complement. */
  function Signed32(x: int): int32 {
    if x % U32 < U31 then x % U32 else x % U32 - U32
  }

  lemma SignedOfWrap32(x: int32)
    ensures Signed32(Wrap32(x)) == x
  {
  }

  lemma SmallSigned(n: nat)
    requires n < U31
    ensures Signed32(n) == n
  {
  }

  /** Conversion to `int64`: keep the low 64 bits, read as two's complement. */
  function Signed64(x: int): int64 {
    if x % U64 < U63 then x % U64 else x % U64 - U64
  }

  lemma SignedOfWrap64(x: int64)
    ensures Signed64(x % U64) == x
  {
  }

  /** What reading one item from a byte stream gives: the value and the bytes
      left behind, or the way the read failed. `Eof` is io.EOF, a stream with nothing
      left where bytes were wanted; `Short` is io.ErrUnexpectedEOF, one with too few;
      `Invalid` an error the code reports, `Panic` an index out of range. */
  datatype Read<+T> = Got(value: T, rest: seq<byte>) | Eof | Short | Invalid | Panic
  {
    predicate IsFailure() {
      !Got?
    }

    function PropagateFailure<U>(): Read<U>
      requires IsFailure()
    {
      match this
      case Eof => Eof
      case Short => Short
      case Invalid => Invalid
      case Panic => Panic
    }

    function Extract(): (T, seq<byte>)
      requires !IsFailure()
    {
      (value, rest)
    }
  }

  /** io.ReadFull: exactly n bytes, or failure. */
  function Take(s: seq<byte>, n: nat): (r: Read<seq<byte>>)
    ensures r.Got? ==> |r.value| == n && |r.rest| == |s| - n
  {
    if n <= |s| then Got(s[..n], s[n..]) else if s == [] then Eof else Short
  }

  function TakeByte(s: seq<byte>): (r: Read<byte>)
    ensures r.Got? ==> |r.rest| == |s| - 1
  {
    if |s| > 0 then Got(s[0], s[1..]) else Eof
  }

  /** Items read earlier, in front of those a read returns. */
  function Prepend<T>(xs: seq<T>, r: Read<seq<T>>): Read<seq<T>> {
    if r.Got? then Got(xs + r.value, r.rest) else r
  }

  lemma PrependNone<T>(r: Read<seq<T>>)
    ensures Prepend([], r) == r
  {
    if r.Got? {
      assert [] + r.value == r.value;
    }
  }

  lemma PrependConcat<T>(xs: seq<T>, ys: seq<T>, r: Read<seq<T>>)
    ensures Prepend(xs, Prepend(ys, r)) == Prepend(xs + ys, r)
  {
    if r.Got? {
      assert xs + (ys + r.value) == (xs + ys) + r.value;
    }
  }

  lemma TakePrefix(a: seq<byte>, rest: seq<byte>)
    ensures Take(a + rest, |a|) == Got(a, rest)
  {
    assert (a + rest)[..|a|] == a;
    assert (a + rest)[|a|..] == rest;
  }

  lemma Assoc(a: seq<byte>, b: seq<byte>, c: seq<byte>)
    ensures (a + b) + c == a + (b + c)
  {
  }

  lemma NoBytes(s: seq<byte>)
    ensures [] + s == s && s + [] == s
  {
  }

  lemma Assoc3(a: seq<byte>, b: seq<byte>, c: seq<byte>, d: seq<byte>)
    ensures ((a + b) + c) + d == a + ((b + c) + d)
  {
    Assoc(a, b, c);
    Assoc(a, b + c, d);
  }

  // ---------------------------------------------------------------- endianness

  function Pow256(n: nat): (p: nat)
    ensures p > 0
  {
    if n == 0 then 1 else 256 * Pow256(n - 1)
  }

  /** The low n bytes of v, least significant first (binary.LittleEndian.Put*). */
  function LE(n: nat, v: nat): (s: seq<byte>)
    ensures |s| == n
    decreases n, v
  {
    if n == 0 then [] else [v % 256] + LE(n - 1, v / 256)
  }

  /** The number whose little-endian digits are s (binary.LittleEndian.Uint*). */
  function FromLE(s: seq<byte>): (v: nat)
    ensures v < Pow256(|s|)
  {
    if s == [] then 0 else s[0] + 256 * FromLE(s[1..])
  }

  lemma {:induction false} FromLEofLE(n: nat, v: nat)
    requires v < Pow256(n)
    ensures FromLE(LE(n, v)) == v
  {
    if n > 0 {
      FromLEofLE(n - 1, v / 256);
      assert LE(n, v)[1..] == LE(n - 1, v / 256);
    }
  }

  lemma Pow256Values()
    ensures Pow256(1) == 256 && Pow256(2) == U16 && Pow256(4) == U32 && Pow256(8) == U64
  {
    assert Pow256(3) == 256 * Pow256(2);
    assert Pow256(4) == 256 * Pow256(3);
    assert Pow256(5) == 256 * Pow256(4);
    assert Pow256(6) == 256 * Pow256(5);
    assert Pow256(7) == 256 * Pow256(6);
  }

  // ------------------------------------------------------------------- streams

  /** An in-memory byte stream: `Write` appends, `ReadFull` takes from the front. */
  class Stream {
    var buf: seq<byte>

    constructor (content: seq<byte>)
      ensures buf == content
    {
      buf := content;
    }

    method Write(p: seq<byte>)
      modifies this
      ensures buf == old(buf) + p
    {
      buf := buf + p;
    }

    /** Consumes n bytes, or reports a short stream and leaves what is there. */
    method ReadFull(n: nat) returns (r: Read<seq<byte>>)
      modifies this
      ensures r == Take(old(buf), n)
      ensures buf == if r.Got? then r.rest else old(buf)
    {
      r := Take(buf, n);
      if r.Got? {
        buf := r.rest;
      }
    }
  }
}
