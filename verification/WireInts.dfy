/** The wire integers of protocol/wireint.go.

    Varint and varlong share one scheme: a value is laid out little-endian in
    `width` bytes, its high zero bytes beyond a minimum are dropped, and the
    first byte on the wire says in unary how many bytes beyond the minimum
    follow, keeping the top bits of the value in what is left of it. The scheme
    is specified once, over `width` and `min`, and proved to round-trip; the
    Go-shaped methods at the end compute it with in-place buffers and loops.
 */
module WireInts {
  import opened Bytes

  // ------------------------------------------------------------- fixed layouts

  function PutU32(v: uint32): (s: seq<byte>)
    ensures |s| == 4
  {
    LE(4, v)
  }

  function GetU32(s: seq<byte>): (r: Read<uint32>)
    ensures r.Got? ==> |r.rest| <= |s|
  {
    var (b, rest) :- Take(s, 4);
    Pow256Values();
    Got(FromLE(b), rest)
  }

  function PutI32(v: int32): (s: seq<byte>)
    ensures |s| == 4
  {
    LE(4, Wrap32(v))
  }

  function GetI32(s: seq<byte>): (r: Read<int32>)
    ensures r.Got? ==> |r.rest| <= |s|
  {
    var (u, rest) :- GetU32(s);
    Got(Signed32(u), rest)
  }

  function PutU16(v: uint16): (s: seq<byte>) {
    [v % 256, v / 256]
  }

  function GetU16(s: seq<byte>): (r: Read<uint16>)
    ensures r.Got? ==> |r.rest| <= |s|
  {
    var (b, rest) :- Take(s, 2);
    var lo: int, hi: int := b[0], b[1];
    Got(lo + 256 * hi, rest)
  }

  lemma U32RoundTrip(v: uint32, rest: seq<byte>)
    ensures GetU32(PutU32(v) + rest) == Got(v, rest)
  {
    Pow256Values();
    FromLEofLE(4, v);
    TakePrefix(LE(4, v), rest);
  }

  lemma I32RoundTrip(v: int32, rest: seq<byte>)
    ensures GetI32(PutI32(v) + rest) == Got(v, rest)
  {
    U32RoundTrip(Wrap32(v), rest);
  }

  lemma U16RoundTrip(v: uint16, rest: seq<byte>)
    ensures GetU16(PutU16(v) + rest) == Got(v, rest)
  {
    TakePrefix(PutU16(v), rest);
  }

  // ------------------------------------------------------- the variable scheme

  /** 2^(7 - k), the first-byte limit after k extra bytes. */
  function Limit(k: nat): (bit: nat)
    requires k <= 6
    ensures 2 <= bit <= 128
  {
    if k == 0 then 128 else if k == 1 then 64 else if k == 2 then 32 else if k == 3 then 16
    else if k == 4 then 8 else if k == 5 then 4 else 2
  }

  /** How many of the bytes b are kept: high zeros go, but never below min. */
  function Significant(b: seq<byte>, min: nat): (cnt: nat)
    requires min <= |b|
    ensures min <= cnt <= |b|
    ensures forall i :: cnt <= i < |b| ==> b[i] == 0
    decreases |b|
  {
    if |b| > min && b[|b| - 1] == 0 then Significant(b[..|b| - 1], min) else |b|
  }

  /** The widths and minima in use: 4-byte varints with minimum 1, 8-byte
      varlongs with minimum 3 to 8. */
  predicate Layout(width: nat, min: nat) {
    (width == 4 && min == 1) || (width == 8 && 3 <= min <= 8)
  }

  /** The first wire byte for a top digit k bytes beyond the minimum. */
  function Head(top: byte, k: nat): (first: byte)
    requires k <= 6
  {
    var bit := Limit(k);
    if top >= bit then 256 - bit else if k > 0 then top + (256 - 2 * bit) else top
  }

  /** The wire form of the little-endian digits b: when the first byte has no
      room for the top digit, that digit follows with the others. */
  function PutDigits(b: seq<byte>, min: nat): (s: seq<byte>)
    requires Layout(|b|, min)
    ensures min <= |s| <= |b| + 1
  {
    var cnt := Significant(b, min);
    var k, top := cnt - min, b[cnt - 1];
    [Head(top, k)] + b[..if top >= Limit(k) then cnt else cnt - 1]
  }

  /** intByteExtra: the number of extra bytes announced by a first byte. */
  function Extra(first: byte): (n: nat)
    ensures n <= 6
  {
    var q := first / 4;
    if q < 32 then 0 else if q < 48 then 1 else if q < 56 then 2
    else if q < 60 then 3 else if q < 62 then 4 else if q < 63 then 5 else 6
  }

  /** The part of a first byte that carries value bits. */
  function TopBits(first: byte): (top: byte) {
    if Extra(first) > 0 then first % (2 * Limit(Extra(first))) else first
  }

  /** The reader's buffer of width + 1 bytes, cut to the width. */
  function Digits(width: nat, low: seq<byte>, top: byte): (b: seq<byte>)
    requires |low| <= width
    ensures |b| == width
  {
    (low + [top] + seq(width - |low|, _ => 0))[..width]
  }

  /** The reader. A first byte that announces more bytes than the buffer of
      width + 1 holds is an out-of-range index. The varint reader fills its buffer
      directly, so for it a first byte that announces more bytes than the buffer
      has is already a slice out of range, before any of them is read. */
  function GetDigits(width: nat, min: nat, s: seq<byte>): (r: Read<seq<byte>>)
    requires Layout(width, min)
    ensures r.Got? ==> |r.value| == width && |r.rest| < |s|
  {
    var (head, s1) :- Take(s, min);
    var extra := Extra(head[0]);
    if min == 1 && extra > width + 1 then Panic
    else
      var (more, s2) :- Take(s1, extra);
      if min + extra > width + 1 then Panic
      else Got(Digits(width, head[1..] + more, TopBits(head[0])), s2)
  }

  /** The first byte announces the number of extra bytes and gives back the
      top bits it carries. */
  lemma HeadAnnounces(top: byte, k: nat)
    requires k <= 5
    ensures top >= Limit(k) ==> Extra(Head(top, k)) == k + 1 && TopBits(Head(top, k)) == 0
    ensures top < Limit(k) ==> Extra(Head(top, k)) == k && TopBits(Head(top, k)) == top
  {
  }

  /** What PutDigits writes: a first byte and the digits below the top one. */
  lemma PutDigitsShape(b: seq<byte>, min: nat) returns (first: byte, low: seq<byte>)
    requires Layout(|b|, min)
    ensures PutDigits(b, min) == [first] + low
    ensures |low| == min - 1 + Extra(first) <= |b|
    ensures Digits(|b|, low, TopBits(first)) == b
  {
    var cnt := Significant(b, min);
    var k, top := cnt - min, b[cnt - 1];
    HeadAnnounces(top, k);
    first := Head(top, k);
    if top >= Limit(k) {
      low := b[..cnt];
      DigitsPadded(b, cnt, 0);
    } else {
      low := b[..cnt - 1];
      DigitsPadded(b, cnt - 1, top);
    }
  }

  lemma DigitsPadded(b: seq<byte>, n: nat, top: byte)
    requires n <= |b| && (n < |b| ==> b[n] == top)
    requires forall i :: n < i < |b| ==> b[i] == 0
    ensures Digits(|b|, b[..n], top) == b
  {
  }

  /** Reading what was written gives the digits back and consumes exactly those
      bytes, whatever follows. */
  lemma {:induction false} DigitsRoundTrip(b: seq<byte>, min: nat, rest: seq<byte>)
    requires Layout(|b|, min)
    ensures GetDigits(|b|, min, PutDigits(b, min) + rest) == Got(b, rest)
  {
    var first, low := PutDigitsShape(b, min);
    DigitsTaken(|b|, min, first, low, rest);
  }

  /** A first byte and as many bytes as it announces. */
  lemma {:induction false} DigitsTaken(width: nat, min: nat, first: byte, low: seq<byte>, rest: seq<byte>)
    requires Layout(width, min) && |low| == min - 1 + Extra(first) <= width
    ensures GetDigits(width, min, [first] + low + rest) == Got(Digits(width, low, TopBits(first)), rest)
  {
    var head, more := [first] + low[..min - 1], low[min - 1..];
    assert [first] + low + rest == head + (more + rest);
    TakePrefix(head, more + rest);
    TakePrefix(more, rest);
    assert head[1..] + more == low;
  }

  // --------------------------------------------------- varint, varlong, longint

  function PutVarint(x: int32): (s: seq<byte>)
    ensures 1 <= |s| <= 5
  {
    PutDigits(LE(4, Wrap32(x)), 1)
  }

  function GetVarint(s: seq<byte>): (r: Read<int32>)
    ensures r.Got? ==> |r.rest| < |s|
  {
    var (b, rest) :- GetDigits(4, 1, s);
    Got(Signed32(FromLE(b)), rest)
  }

  function PutVarlong(x: int64, min: nat): (s: seq<byte>)
    requires 3 <= min <= 8
    ensures min <= |s| <= 9
  {
    PutDigits(LE(8, x % U64), min)
  }

  function GetVarlong(s: seq<byte>, min: nat): (r: Read<int64>)
    requires 3 <= min <= 8
    ensures r.Got? ==> |r.rest| <= |s|
  {
    var (b, rest) :- GetDigits(8, min, s);
    Got(Signed64(FromLE(b)), rest)
  }

  function PutLongInt(x: int64): (s: seq<byte>) {
    if 0 <= x <= 0x7FFF_FFFF then LE(4, x) else [0xFF, 0xFF, 0xFF, 0xFF] + LE(8, x % U64)
  }

  function GetLongInt(s: seq<byte>): (r: Read<int64>)
    ensures r.Got? ==> |r.rest| <= |s|
  {
    var (v32, s1) :- GetI32(s);
    if v32 != -1 then Got(v32, s1)
    else
      var (b, s2) :- Take(s1, 8);
      Got(Signed64(FromLE(b)), s2)
  }

  lemma VarintRoundTrip(x: int32, rest: seq<byte>)
    ensures GetVarint(PutVarint(x) + rest) == Got(x, rest)
  {
    Pow256Values();
    FromLEofLE(4, Wrap32(x));
    SignedOfWrap32(x);
    DigitsRoundTrip(LE(4, Wrap32(x)), 1, rest);
  }

  lemma VarlongRoundTrip(x: int64, min: nat, rest: seq<byte>)
    requires 3 <= min <= 8
    ensures GetVarlong(PutVarlong(x, min) + rest, min) == Got(x, rest)
  {
    Pow256Values();
    FromLEofLE(8, x % U64);
    SignedOfWrap64(x);
    DigitsRoundTrip(LE(8, x % U64), min, rest);
  }

  lemma {:induction false} LongIntRoundTrip(x: int64, rest: seq<byte>)
    ensures GetLongInt(PutLongInt(x) + rest) == Got(x, rest)
  {
    if 0 <= x <= 0x7FFF_FFFF {
      SmallRoundTrip(x, rest);
    } else {
      Pow256Values();
      FromLEofLE(8, x % U64);
      SentinelRoundTrip(x, LE(8, x % U64), rest);
    }
  }

  lemma {:induction false} SmallRoundTrip(x: int32, rest: seq<byte>)
    requires x >= 0
    ensures GetLongInt(LE(4, x) + rest) == Got(x, rest)
  {
    I32RoundTrip(x, rest);
    UnwrappedI32(x);
    ShortForm(PutI32(x) + rest, x, rest);
  }

  lemma {:induction false} UnwrappedI32(x: int32)
    requires x >= 0
    ensures PutI32(x) == LE(4, x)
  {
    assert Wrap32(x) == x;
  }

  lemma {:induction false} ShortForm(s: seq<byte>, v: int32, rest: seq<byte>)
    requires GetI32(s) == Got(v, rest) && v != -1
    ensures GetLongInt(s) == Got(v, rest)
  {
  }

  lemma {:induction false} SentinelRoundTrip(x: int64, tail: seq<byte>, rest: seq<byte>)
    requires |tail| == 8 && FromLE(tail) == x % U64
    ensures GetLongInt([0xFF, 0xFF, 0xFF, 0xFF] + tail + rest) == Got(x, rest)
  {
    AllOnes();
    I32RoundTrip(-1, tail + rest);
    Assoc([0xFF, 0xFF, 0xFF, 0xFF], tail, rest);
    TakePrefix(tail, rest);
    SignedOfWrap64(x);
  }

  lemma AllOnes()
    ensures PutI32(-1) == [0xFF, 0xFF, 0xFF, 0xFF]
  {
    assert LE(4, 0xFFFF_FFFF) == [0xFF] + LE(3, 0xFF_FFFF);
    assert LE(3, 0xFF_FFFF) == [0xFF] + LE(2, 0xFFFF);
    assert LE(2, 0xFFFF) == [0xFF] + LE(1, 0xFF);
    assert LE(1, 0xFF) == [0xFF] + LE(0, 0);
  }

  /** The varint reader leaves its five-byte buffer at once for a first byte of
      0xFC or more, and after the announced five bytes for one from 0xF8 to 0xFB;
      any smaller first byte keeps it in bounds. */
  lemma VarintPanicsExactly(s: seq<byte>)
    ensures GetVarint(s) == Panic <==> |s| > 0 && (s[0] >= 0xFC || (s[0] >= 0xF8 && |s| > 5))
  {
    if |s| > 0 {
      assert Take(s, 1) == Got(s[..1], s[1..]);
    }
  }

  /** The varlong reader leaves its nine-byte buffer if and only if minimum and
      announced bytes are more than that, and all of them arrive: never with a
      minimum of 3, from 0xFC on with 4, as for times. */
  lemma VarlongPanicsExactly(s: seq<byte>, min: nat)
    requires 3 <= min <= 8
    ensures GetVarlong(s, min) == Panic <==> |s| > 0 && min + Extra(s[0]) > 9 && |s| >= min + Extra(s[0])
  {
    if |s| >= min {
      assert Take(s, min) == Got(s[..min], s[min..]);
      assert s[..min][0] == s[0];
    }
  }

  // ------------------------------------------------------- the in-place writers

  /** The counting loop: run down over the high zero bytes of b[1..]. */
  method CountDown(b: array<byte>, min: nat) returns (cnt: nat)
    requires min < b.Length
    ensures cnt == Significant(b[1..], min)
  {
    cnt := b.Length - 1;
    assert b[1..][..cnt] == b[1..];
    while cnt > min && b[cnt] == 0
      invariant min <= cnt < b.Length
      invariant Significant(b[1..], min) == Significant(b[1..][..cnt], min)
    {
      assert b[1..][..cnt][..cnt - 1] == b[1..][..cnt - 1];
      cnt := cnt - 1;
    }
  }

  /** WriteVarint and WriteVarlong differ only in width and minimum: the value
      goes into b[1..], b[0] is patched, and b[..cnt] goes out. */
  method WriteDigits(w: Stream, digits: seq<byte>, min: nat)
    requires Layout(|digits|, min)
    modifies w
    ensures w.buf == old(w.buf) + PutDigits(digits, min)
  {
    var b := new byte[|digits| + 1](i requires 0 <= i <= |digits| => if i == 0 then 0 else digits[i - 1]);
    assert b[1..] == digits;
    var cnt := Patch(b, digits, min);
    w.Write(b[..cnt]);
  }

  /** Counts the bytes to send and patches the first one. */
  method Patch(b: array<byte>, digits: seq<byte>, min: nat) returns (cnt: nat)
    requires Layout(|digits|, min) && b.Length == |digits| + 1 && b[1..] == digits
    modifies b
    ensures 0 < cnt <= b.Length && b[..cnt] == PutDigits(digits, min)
  {
    cnt := CountDown(b, min);
    var k, top := cnt - min, b[cnt];
    assert top == digits[cnt - 1];
    b[0] := Head(top, k);
    if top >= Limit(k) {
      cnt := cnt + 1;
    }
    assert b[1..] == digits;
    FirstAndRest(b[..], digits, cnt);
  }

  lemma {:induction false} FirstAndRest(b: seq<byte>, digits: seq<byte>, n: nat)
    requires 0 < n <= |b| && b[1..] == digits
    ensures b[..n] == [b[0]] + digits[..n - 1]
  {
    assert forall i :: 0 <= i < n - 1 ==> b[i + 1] == b[1..][i];
  }

  method WriteVarint(w: Stream, x: int32)
    modifies w
    ensures w.buf == old(w.buf) + PutVarint(x)
  {
    WriteDigits(w, LE(4, Wrap32(x)), 1);
  }

  method WriteVarlong(w: Stream, x: int64, min: nat)
    requires 3 <= min <= 8
    modifies w
    ensures w.buf == old(w.buf) + PutVarlong(x, min)
  {
    WriteDigits(w, LE(8, x % U64), min);
  }

  /** ReadVarint and ReadVarlong: the bytes after the first land in u in wire
      order, then the first byte's value bits go on top of them. */
  method ReadDigits(r: Stream, width: nat, min: nat) returns (res: Read<seq<byte>>)
    requires Layout(width, min)
    modifies r
    ensures res == GetDigits(width, min, old(r.buf))
    ensures res.Got? ==> r.buf == res.rest
  {
    var head := r.ReadFull(min);
    if !head.Got? {
      return head;
    }
    var first := head.value[0];
    if min == 1 && Extra(first) > width + 1 {
      return Panic;
    }
    var more := r.ReadFull(Extra(first));
    if !more.Got? {
      return more;
    }
    if min + Extra(first) > width + 1 {
      return Panic;
    }
    var digits := FillBuffer(width, head.value[1..] + more.value, TopBits(first));
    return Got(digits, r.buf);
  }

  method FillBuffer(width: nat, low: seq<byte>, top: byte) returns (digits: seq<byte>)
    requires |low| <= width
    ensures digits == Digits(width, low, top)
  {
    var u := new byte[width + 1](i requires 0 <= i => if i < |low| then low[i] else 0);
    u[|low|] := top;
    assert u[..] == low + [top] + seq(width - |low|, _ => 0);
    return u[..width];
  }

  method ReadVarint(r: Stream) returns (res: Read<int32>)
    modifies r
    ensures res == GetVarint(old(r.buf))
    ensures res.Got? ==> r.buf == res.rest
  {
    var b := ReadDigits(r, 4, 1);
    if !b.Got? {
      return b.PropagateFailure();
    }
    return Got(Signed32(FromLE(b.value)), r.buf);
  }

  method ReadVarlong(r: Stream, min: nat) returns (res: Read<int64>)
    requires 3 <= min <= 8
    modifies r
    ensures res == GetVarlong(old(r.buf), min)
    ensures res.Got? ==> r.buf == res.rest
  {
    var b := ReadDigits(r, 8, min);
    if !b.Got? {
      return b.PropagateFailure();
    }
    return Got(Signed64(FromLE(b.value)), r.buf);
  }
}
