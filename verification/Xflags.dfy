/** The xmit flags that start a file-list entry (protocol/flist.go writeXflags and
    readXflags): a set of bits sent in one byte, two bytes or a varint, never as
    zero, because zero ends the list. */
module Xflags {
  import opened Bytes
  import opened WireInts

  // ------------------------------------------------------------------- bit lists

  /** Bits, least significant first. */
  function ToNat(x: seq<bool>): (n: nat) {
    if x == [] then 0 else (if x[0] then 1 else 0) + 2 * ToNat(x[1..])
  }

  function FromNat(n: nat, width: nat): (x: seq<bool>)
    ensures |x| == width
    decreases width, n
  {
    if width == 0 then [] else [n % 2 == 1] + FromNat(n / 2, width - 1)
  }

  lemma {:induction false} FromToNat(x: seq<bool>)
    ensures FromNat(ToNat(x), |x|) == x
    ensures ToNat(x) < Pow2(|x|)
  {
    if x != [] {
      FromToNat(x[1..]);
      assert x == [x[0]] + x[1..];
    }
  }

  lemma DoubleTimes(p: int, n: int)
    ensures 2 * (p * n) == (2 * p) * n
  {
  }

  lemma {:induction false} ToNatConcat(a: seq<bool>, b: seq<bool>)
    ensures ToNat(a + b) == ToNat(a) + Pow2(|a|) * ToNat(b)
  {
    if a == [] {
      assert a + b == b;
    } else {
      assert (a + b)[1..] == a[1..] + b && (a + b)[0] == a[0];
      ToNatConcat(a[1..], b);
      DoubleTimes(Pow2(|a| - 1), ToNat(b));
      assert ToNat(a + b) == (if a[0] then 1 else 0) + 2 * ToNat(a[1..] + b);
    }
  }

  lemma {:induction false} ToNatZero(x: seq<bool>)
    ensures ToNat(x) == 0 <==> forall i :: 0 <= i < |x| ==> !x[i]
  {
    if x != [] {
      ToNatZero(x[1..]);
      if ToNat(x) == 0 {
        assert forall i :: 0 < i < |x| ==> x[i] == x[1..][i - 1];
      }
    }
  }

  // ------------------------------------------------------------------- the flags

  const TOP_DIR := 0
  const SAME_MODE := 1
  const EXTENDED := 2
  const SAME_UID := 3
  const SAME_GID := 4
  const SAME_NAME := 5
  const LONG_NAME := 6
  const SAME_TIME := 7
  const SAME_RDEV := 8
  const NO_CONTENT := 8
  const HLINKED := 9
  const SAME_DEV := 10
  const USER_NAME := 10
  const MINOR8 := 11
  const GROUP_NAME := 11
  const HLINK_FIRST := 12
  const MOD_NSEC := 13
  const SAME_ATIME := 14

  /** Bits 0 to 15; nothing above is ever tested. */
  type Flags = x: seq<bool> | |x| == 16 witness seq(16, _ => false)

  function Low(x: Flags): (b: byte) {
    FromToNat(x[..8]);
    Pow2Values();
    ToNat(x[..8])
  }

  function High(x: Flags): (b: byte) {
    FromToNat(x[8..]);
    Pow2Values();
    ToNat(x[8..])
  }

  /** The flags as one number. */
  function Value(x: Flags): (n: nat) {
    var lo: int, hi: int := Low(x), High(x);
    lo + 256 * hi
  }

  predicate Empty(x: Flags) {
    forall i :: 0 <= i < 16 ==> !x[i]
  }

  /** No bit of the high byte is set. */
  predicate LowOnly(x: Flags) {
    forall i :: 8 <= i < 16 ==> !x[i]
  }

  /** How the flags travel: with a varint, or in bytes. */
  datatype Style = Style(version: int, varint: bool)

  /** The flags with the placeholder bits that keep them from being zero. */
  function Marked(st: Style, x: Flags, isDir: bool): Flags {
    if st.varint then if Empty(x) then x[EXTENDED := true] else x
    else if st.version >= 28 then
      var y := if Empty(x) && !isDir then x[TOP_DIR := true] else x;
      if !LowOnly(y) || Empty(y) then y[EXTENDED := true] else y
    else if Empty(x) then if isDir then x[LONG_NAME := true] else x[TOP_DIR := true]
    else x
  }

  function PutFlags(st: Style, x: Flags, isDir: bool): seq<byte> {
    var y := Marked(st, x, isDir);
    if st.varint then
      PutVarint(Value(y))
    else if st.version >= 28 && y[EXTENDED] then [Low(y), High(y)]
    else [Low(y)]
  }

  /** The flags read, or none at the end marker. */
  datatype Seen = EndOfList | Seen(flags: Flags)

  function GetFlags(st: Style, s: seq<byte>): (r: Read<Seen>)
    ensures r.Got? ==> |r.rest| < |s|
  {
    if st.varint then
      var (v, s1) :- GetVarint(s);
      Got(if v == 0 then EndOfList else Seen(FromNat(Wrap32(v), 16)), s1)
    else
      var (b, s1) :- TakeByte(s);
      if b == 0 then Got(EndOfList, s1)
      else if st.version >= 28 && FromNat(b, 8)[EXTENDED] then
        var (h, s2) :- TakeByte(s1);
        Got(Seen(FromNat(b, 8) + FromNat(h, 8)), s2)
      else Got(Seen(FromNat(b, 8) + seq(8, _ => false)), s1)
  }

  // ------------------------------------------------------------------ round trip

  /** What the writer may hand over: the extension bit is the codec's own, and
      below protocol 28 only the low byte travels. */
  predicate Fits(st: Style, x: Flags) {
    !x[EXTENDED] && (!st.varint && st.version < 28 ==> LowOnly(x))
  }

  lemma Bytewise(x: Flags)
    ensures FromNat(Low(x), 8) == x[..8] && FromNat(High(x), 8) == x[8..]
    ensures ToNat(x) == Low(x) + 256 * High(x) < U16
    ensures FromNat(Low(x) + 256 * High(x), 16) == x
  {
    FromToNat(x[..8]);
    FromToNat(x[8..]);
    ToNatConcat(x[..8], x[8..]);
    assert x == x[..8] + x[8..];
    Pow2Values();
    FromToNat(x);
  }

  /** A non-empty low byte is not zero on the wire. */
  lemma LowNonzero(x: Flags)
    requires !Empty(x) && (LowOnly(x) || x[EXTENDED])
    ensures Low(x) != 0
  {
    ToNatZero(x[..8]);
    if !x[EXTENDED] {
      var i :| 0 <= i < 16 && x[i];
      assert x[..8][i];
    } else {
      assert x[..8][EXTENDED];
    }
  }

  lemma MarkedShape(st: Style, x: Flags, isDir: bool)
    requires Fits(st, x)
    ensures var y := Marked(st, x, isDir);
      && !Empty(y)
      && (!st.varint ==> LowOnly(y) || (st.version >= 28 && y[EXTENDED]))
  {
    var y := Marked(st, x, isDir);
    if Empty(x) {
      assert y[EXTENDED] || y[TOP_DIR] || y[LONG_NAME];
    } else {
      var i :| 0 <= i < 16 && x[i];
      assert y[i];
    }
  }

  /** Below protocol 28 only the low byte travels, so flags with high bits are
      read as other flags, or as the end of the list. */
  lemma HighFlagsLost(st: Style, x: Flags, isDir: bool, rest: seq<byte>)
    requires !st.varint && st.version < 28 && !LowOnly(x)
    ensures GetFlags(st, PutFlags(st, x, isDir) + rest) != Got(Seen(Marked(st, x, isDir)), rest)
    ensures (forall i :: 0 <= i < 8 ==> !x[i]) ==> GetFlags(st, PutFlags(st, x, isDir) + rest) == Got(EndOfList, rest)
  {
    var i :| 8 <= i < 16 && x[i];
    assert ([Low(x)] + rest)[1..] == rest;
    ToNatZero(x[..8]);
    var y := FromNat(Low(x), 8) + seq(8, _ => false);
    assert !y[i];
  }

  /** The reader sees the marked flags, never the end of the list. */
  lemma FlagsRoundTrip(st: Style, x: Flags, isDir: bool, rest: seq<byte>)
    requires Fits(st, x)
    ensures GetFlags(st, PutFlags(st, x, isDir) + rest) == Got(Seen(Marked(st, x, isDir)), rest)
  {
    MarkedShape(st, x, isDir);
    if st.varint {
      VarintFlags(st, Marked(st, x, isDir), rest);
    } else {
      ByteFlags(st, Marked(st, x, isDir), rest);
    }
  }

  lemma ValueFacts(x: Flags)
    ensures Value(x) < U16 && FromNat(Value(x), 16) == x
    ensures Value(x) == 0 ==> Empty(x)
  {
    Bytewise(x);
    ToNatZero(x);
  }

  lemma VarintFlags(st: Style, y: Flags, rest: seq<byte>)
    requires st.varint && !Empty(y)
    ensures GetFlags(st, PutVarint(Value(y)) + rest) == Got(Seen(y), rest)
  {
    ValueFacts(y);
    var n := Value(y);
    VarintRoundTrip(n, rest);
    VarintSeen(st, PutVarint(n) + rest, n, y, rest);
  }

  lemma VarintSeen(st: Style, wire: seq<byte>, n: int, y: Flags, rest: seq<byte>)
    requires st.varint && 0 < n < U16 && FromNat(n, 16) == y
    requires GetVarint(wire) == Got(n, rest)
    ensures GetFlags(st, wire) == Got(Seen(y), rest)
  {
    SmallWrap(n);
  }

  lemma SmallWrap(n: int)
    requires 0 <= n < U16
    ensures Wrap32(n) == n
  {
  }

  lemma ByteFlags(st: Style, y: Flags, rest: seq<byte>)
    requires !st.varint && !Empty(y)
    requires LowOnly(y) || (st.version >= 28 && y[EXTENDED])
    ensures var wire := if st.version >= 28 && y[EXTENDED] then [Low(y), High(y)] else [Low(y)];
      GetFlags(st, wire + rest) == Got(Seen(y), rest)
  {
    Bytewise(y);
    LowNonzero(y);
    assert y[..8][EXTENDED] == y[EXTENDED];
    if st.version >= 28 && y[EXTENDED] {
      TwoBytes(Low(y), High(y), rest);
      assert y[..8] + y[8..] == y;
    } else {
      assert ([Low(y)] + rest)[1..] == rest;
      assert y[..8] + seq(8, _ => false) == y;
    }
  }

  lemma TwoBytes(a: byte, b: byte, rest: seq<byte>)
    ensures TakeByte([a, b] + rest) == Got(a, [b] + rest) && TakeByte([b] + rest) == Got(b, rest)
  {
    assert ([a, b] + rest)[1..] == [b] + rest;
    assert ([b] + rest)[1..] == rest;
  }

  function PutEnd(st: Style): seq<byte> {
    if st.varint then PutVarint(0) + PutVarint(0) else [0]
  }
}
