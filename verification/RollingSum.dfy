/** The rolling weak checksum (server-send.go rollingChecksum, protocol/checksum.go
    Checksum1): a plain byte sum S1 and a position-weighted sum S2, in uint32
    arithmetic and cut to 16 bits. */
module RollingSum {
  import opened Bytes

  /** The byte-wise definition: s1 += b; s2 += s1, over every byte. */
  function S1(d: seq<byte>): nat {
    if d == [] then 0 else S1(d[..|d| - 1]) + d[|d| - 1]
  }

  function S2(d: seq<byte>): nat {
    if d == [] then 0 else S2(d[..|d| - 1]) + S1(d)
  }

  lemma SnocSums(d: seq<byte>, x: byte)
    ensures S1(d + [x]) == S1(d) + x
    ensures S2(d + [x]) == S2(d) + S1(d) + x
  {
    assert (d + [x])[..|d|] == d;
  }

  /** Four steps at once, as the unrolled loops take them. */
  lemma FourSums(p: seq<byte>, a: byte, b: byte, c: byte, d: byte)
    ensures S1(p + [a, b, c, d]) == S1(p) + a + b + c + d
    ensures S2(p + [a, b, c, d]) == S2(p) + 4 * S1(p) + 4 * a + 3 * b + 2 * c + d
  {
    SnocSums(p, a);
    SnocSums(p + [a], b);
    SnocSums(p + [a] + [b], c);
    SnocSums(p + [a] + [b] + [c], d);
    assert p + [a, b, c, d] == p + [a] + [b] + [c] + [d];
  }

  /** What the first byte contributes. */
  lemma {:induction false} ConsSums(b: byte, d: seq<byte>)
    ensures S1([b] + d) == b + S1(d)
    ensures S2([b] + d) == (|d| + 1) * b + S2(d)
  {
    if d == [] {
      assert [b] + d == [] + [b];
      SnocSums([], b);
    } else {
      var init, x := d[..|d| - 1], d[|d| - 1];
      ConsSums(b, init);
      SnocSums([b] + init, x);
      SnocSums(init, x);
      assert d == init + [x] && [b] + d == ([b] + init) + [x];
      assert (|init| + 1) * b + b == (|d| + 1) * b;
    }
  }

  /** Dropping the first byte of a window. */
  lemma DropSums(w: seq<byte>)
    requires w != []
    ensures S1(w[1..]) == S1(w) - w[0]
    ensures S2(w[1..]) == S2(w) - |w| * w[0]
  {
    ConsSums(w[0], w[1..]);
    assert [w[0]] + w[1..] == w;
  }

  // ------------------------------------------------- the unrolled computations

  lemma ModShift(a: int, q: int)
    ensures (a + q * U32) % U32 == a % U32
  {
  }

  lemma WrapStep(x: int, y: int, c: int)
    ensures (x % U32 + 4 * (y % U32) + c) % U32 == (x + 4 * y + c) % U32
    ensures (x % U32 + y % U32) % U32 == (x + y) % U32
    ensures (x % U32 + c) % U32 == (x + c) % U32
  {
    var q, q' := x / U32, y / U32;
    ModShift(x % U32 + 4 * (y % U32) + c, q + 4 * q');
    ModShift(x % U32 + y % U32, q + q');
    ModShift(x % U32 + c, q);
  }

  lemma Halves(x: int)
    ensures x % U32 % U16 == x % U16
  {
  }

  method FourStep(p: seq<byte>, d: seq<byte>, s1: uint32, s2: uint32) returns (t1: uint32, t2: uint32)
    requires |d| == 4
    requires s1 == S1(p) % U32 && s2 == S2(p) % U32
    ensures t1 == S1(p + d) % U32 && t2 == S2(p + d) % U32
  {
    FourSums(p, d[0], d[1], d[2], d[3]);
    assert d == [d[0], d[1], d[2], d[3]];
    var d0: int, d1: int, d2: int, d3: int := d[0], d[1], d[2], d[3];
    WrapStep(S2(p), S1(p), 4 * d0 + 3 * d1 + 2 * d2 + d3);
    WrapStep(S1(p), 0, d0 + d1 + d2 + d3);
    t2 := Wrap32(s2 + 4 * s1 + (4 * d0 + 3 * d1 + 2 * d2 + d3));
    t1 := Wrap32(s1 + (d0 + d1 + d2 + d3));
  }

  method OneStep(p: seq<byte>, x: byte, s1: uint32, s2: uint32) returns (t1: uint32, t2: uint32)
    requires s1 == S1(p) % U32 && s2 == S2(p) % U32
    ensures t1 == S1(p + [x]) % U32 && t2 == S2(p + [x]) % U32
  {
    SnocSums(p, x);
    WrapStep(S1(p), 0, x);
    WrapStep(S2(p), S1(p + [x]), 0);
    t1 := Wrap32(s1 + x);
    t2 := Wrap32(s2 + t1);
  }

  /** The uint32 sums after the 4-way loop and the byte loop. */
  method UnrolledSums(data: seq<byte>) returns (s1: uint32, s2: uint32)
    ensures s1 == S1(data) % U32 && s2 == S2(data) % U32
  {
    s1, s2 := 0, 0;
    var i := 0;
    while i + 4 <= |data|
      invariant 0 <= i <= |data|
      invariant s1 == S1(data[..i]) % U32 && s2 == S2(data[..i]) % U32
    {
      s1, s2 := FourStep(data[..i], data[i..i + 4], s1, s2);
      assert data[..i] + data[i..i + 4] == data[..i + 4];
      i := i + 4;
    }
    while i < |data|
      invariant 0 <= i <= |data|
      invariant s1 == S1(data[..i]) % U32 && s2 == S2(data[..i]) % U32
    {
      s1, s2 := OneStep(data[..i], data[i], s1, s2);
      assert data[..i] + [data[i]] == data[..i + 1];
      i := i + 1;
    }
    assert data[..i] == data;
  }

  /** rollingChecksum: both sums cut to 16 bits. */
  method RollingChecksum(data: seq<byte>) returns (s1: uint32, s2: uint32)
    ensures s1 == S1(data) % U16 && s2 == S2(data) % U16
  {
    s1, s2 := UnrolledSums(data);
    Halves(S1(data));
    Halves(S2(data));
    s1, s2 := s1 % U16, s2 % U16;
  }

  /** The packed checksum: S1 in the low half, S2 in the high half. */
  function Packed(d: seq<byte>): (c: uint32) {
    S1(d) % U16 + U16 * (S2(d) % U16)
  }

  /** Checksum1: (s1 & 0xffff) | (s2 << 16), the shift dropping s2's high half. */
  method Checksum1(data: seq<byte>) returns (c: uint32)
    ensures c == Packed(data)
  {
    var s1, s2 := UnrolledSums(data);
    Halves(S1(data));
    Halves(S2(data));
    c := s1 % U16 + U16 * (s2 % U16);
  }
}
