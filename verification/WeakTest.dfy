/** The weak test of the delta search (server-send.go hashSearch): a block's packed
    checksum is compared with s1|s2, without shifting s2 and without masking. When a
    block equal to the window passes it is stated exactly. */
module WeakTest {
  import opened Bytes
  import opened RollingSum
  import opened Windows

  /** Bitwise or of two naturals. */
  function BitOr(a: nat, b: nat): (r: nat) {
    if a == 0 && b == 0 then 0
    else 2 * BitOr(a / 2, b / 2) + (if a % 2 == 1 || b % 2 == 1 then 1 else 0)
  }

  lemma {:induction false} BitOrZero(a: nat)
    ensures BitOr(a, 0) == a
  {
    if a > 0 {
      BitOrZero(a / 2);
    }
  }

  lemma {:induction false} BitOrAtLeast(a: nat, b: nat)
    ensures BitOr(a, b) >= a
  {
    if a > 0 || b > 0 {
      BitOrAtLeast(a / 2, b / 2);
    }
  }

  lemma {:induction false} BitOrBound(a: nat, b: nat, n: nat)
    requires a < Pow2(n) && b < Pow2(n)
    ensures BitOr(a, b) < Pow2(n)
  {
    if n > 0 {
      BitOrBound(a / 2, b / 2, n - 1);
    }
  }

  /** u shifted left by n bits. */
  function Shl(u: nat, n: nat): nat {
    if n == 0 then u else 2 * Shl(u, n - 1)
  }

  lemma {:induction false} Shl16(u: nat)
    ensures Shl(u, 16) == U16 * u
  {
    Shl4(u, 0);
    Shl4(u, 4);
    Shl4(u, 8);
    Shl4(u, 12);
  }

  lemma {:induction false} Shl4(u: nat, n: nat)
    ensures Shl(u, n + 4) == 16 * Shl(u, n)
  {
    assert Shl(u, n + 4) == 2 * Shl(u, n + 3) && Shl(u, n + 3) == 2 * Shl(u, n + 2);
    assert Shl(u, n + 2) == 2 * Shl(u, n + 1);
  }

  /** Or works on low and high bits apart. */
  lemma {:induction false} BitOrParts(x: nat, u: nat, y: nat, v: nat, n: nat)
    requires x < Pow2(n) && y < Pow2(n)
    ensures BitOr(x + Shl(u, n), y + Shl(v, n)) == BitOr(x, y) + Shl(BitOr(u, v), n)
  {
    if n > 0 {
      var pu, pv, high := Shl(u, n - 1), Shl(v, n - 1), Shl(BitOr(u, v), n - 1);
      assert Pow2(n) == 2 * Pow2(n - 1) && Shl(u, n) == 2 * pu && Shl(v, n) == 2 * pv;
      assert Shl(BitOr(u, v), n) == 2 * high;
      BitOrParts(x / 2, u, y / 2, v, n - 1);
      BitOrStep(x, y, pu, pv, high);
    }
  }

  lemma {:induction false} BitOrStep(x: nat, y: nat, pu: nat, pv: nat, high: nat)
    requires BitOr(x / 2 + pu, y / 2 + pv) == BitOr(x / 2, y / 2) + high
    ensures BitOr(x + 2 * pu, y + 2 * pv) == BitOr(x, y) + 2 * high
  {
    BitOrTwice(x / 2 + pu, x % 2, y / 2 + pv, y % 2);
    BitOrTwice(x / 2, x % 2, y / 2, y % 2);
    assert x + 2 * pu == 2 * (x / 2 + pu) + x % 2 && y + 2 * pv == 2 * (y / 2 + pv) + y % 2;
  }

  /** The lowest bit, apart from the others. */
  lemma {:induction false} BitOrTwice(x: nat, r: nat, y: nat, t: nat)
    requires r < 2 && t < 2
    ensures BitOr(2 * x + r, 2 * y + t) == 2 * BitOr(x, y) + if r == 1 || t == 1 then 1 else 0
  {
    assert (2 * x + r) / 2 == x && (2 * y + t) / 2 == y;
  }

  lemma {:induction false} BitOrHalves(a: nat, b: nat)
    ensures BitOr(a, b) == BitOr(a % U16, b % U16) + U16 * BitOr(a / U16, b / U16)
    ensures BitOr(a % U16, b % U16) < U16
  {
    Pow2Values();
    BitOrParts(a % U16, a / U16, b % U16, b / U16, 16);
    Shl16(a / U16);
    Shl16(b / U16);
    Shl16(BitOr(a / U16, b / U16));
    BitOrBound(a % U16, b % U16, 16);
  }

  /** For any carried sums, masked or not: a block equal to the window passes the
      test if and only if the low halves or to the first sum and the high halves to
      the second. */
  lemma {:induction false} EqualBlockPasses(w: seq<byte>, s1: uint32, s2: uint32)
    requires s1 % U16 == S1(w) % U16 && s2 % U16 == S2(w) % U16
    ensures BitOr(s1, s2) == Packed(w) <==>
      && BitOr(S1(w) % U16, S2(w) % U16) == S1(w) % U16
      && BitOr(s1 / U16, s2 / U16) == S2(w) % U16
  {
    BitOrHalves(s1, s2);
    SameHalves(BitOr(S1(w) % U16, S2(w) % U16), BitOr(s1 / U16, s2 / U16), S1(w) % U16, S2(w) % U16);
  }

  lemma SameHalves(a: nat, b: nat, c: nat, d: nat)
    requires a < U16 && c < U16
    ensures a + U16 * b == c + U16 * d <==> a == c && b == d
  {
  }

  /** With masked sums, as at the start of the data, it passes if and only if the
      second sum is zero. */
  lemma {:induction false} MaskedBlockPasses(w: seq<byte>)
    ensures BitOr(S1(w) % U16, S2(w) % U16) == Packed(w) <==> S2(w) % U16 == 0
  {
    EqualBlockPasses(w, S1(w) % U16, S2(w) % U16);
    BitOrZero(S1(w) % U16);
    BitOrZero(0);
  }

  /** The condition, for a window and the multiples of 2^16 its sums are off by. */
  predicate PassesOff(w: seq<byte>, h1: nat, h2: nat) {
    && BitOr(S1(w) % U16, S2(w) % U16) == S1(w) % U16
    && BitOr((S1(w) / U16 - h1) % U16, (S2(w) / U16 - h2) % U16) == S2(w) % U16
  }

  /** Whether a block equal to the window passes, from the data alone: the window is
      n bytes behind the last start at a. */
  predicate Recognised(data: seq<byte>, blen: nat, a: nat, n: nat)
    requires a + n <= |data|
  {
    PassesOff(Window(data, blen, a + n), Off1(data, blen, a), Off2(data, blen, a, n))
  }

  /** At every spot of the search a block equal to the window passes the test if and
      only if it is recognised. */
  lemma {:induction false} EqualBlockPassesExactly(data: seq<byte>, blen: nat, a: nat, n: nat)
    requires blen > 0 && a + n <= |data|
    ensures var p := SpotFrom(data, blen, a, n);
      BitOr(p.s1, p.s2) == Packed(Window(data, blen, a + n)) <==> Recognised(data, blen, a, n)
  {
    CarriedSums(data, blen, a, n);
    PassesAt(data, blen, SpotFrom(data, blen, a, n), Off1(data, blen, a), Off2(data, blen, a, n));
  }

  lemma {:induction false} PassesAt(data: seq<byte>, blen: nat, p: Spot, h1: nat, h2: nat)
    requires p.offset <= |data| && OffAt(data, blen, p, U16 * h1, U16 * h2)
    ensures BitOr(p.s1, p.s2) == Packed(Window(data, blen, p.offset)) <==>
      PassesOff(Window(data, blen, p.offset), h1, h2)
  {
    PassesFrom(Window(data, blen, p.offset), p.s1, p.s2, h1, h2);
  }

  /** The same over any window and any amounts by which its sums are off. */
  lemma {:induction false} PassesFrom(w: seq<byte>, s1: uint32, s2: uint32, h1: nat, h2: nat)
    requires s1 == Wrap32(S1(w) - U16 * h1) && s2 == Wrap32(S2(w) - U16 * h2)
    ensures BitOr(s1, s2) == Packed(w) <==> PassesOff(w, h1, h2)
  {
    HighHalf(S1(w), h1);
    HighHalf(S2(w), h2);
    EqualBlockPasses(w, s1, s2);
  }

  /** A window of zeros is not recognised behind a start whose first sum exceeded 16
      bits, although its own sums are zero. */
  lemma {:induction false} ZerosMissed(data: seq<byte>, blen: nat, a: nat, n: nat)
    requires blen > 0 && a + n <= |data|
    requires S1(Window(data, blen, a + n)) == 0 == S2(Window(data, blen, a + n)) && Off1(data, blen, a) % U16 != 0
    ensures !Recognised(data, blen, a, n)
  {
    NotZero(Off1(data, blen, a), Off2(data, blen, a, n));
  }

  lemma {:induction false} NotZero(h1: nat, h2: nat)
    requires h1 % U16 != 0
    ensures BitOr((0 / U16 - h1) % U16, (0 / U16 - h2) % U16) > 0
  {
    assert (0 - h1) % U16 > 0;
    BitOrAtLeast((0 / U16 - h1) % U16, (0 / U16 - h2) % U16);
  }
}
