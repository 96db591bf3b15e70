/** The window that slides over the data in the delta search (server-send.go
    hashSearch), and the two sums carried along with it in uint32 arithmetic.

    The sums are computed from scratch, and masked, at a start: the beginning of
    the data, and one byte before the end of every match. From there on they are
    rolled byte by byte without masking. They stay those of the window modulo
    2^16, and what they are modulo 2^32 is stated exactly.
 */
module Windows {
  import opened Bytes
  import opened RollingSum

  function WindowLen(data: seq<byte>, blen: nat, offset: nat): (k: nat)
    requires offset <= |data|
    ensures k <= blen && offset + k <= |data|
  {
    Min(blen, |data| - offset)
  }

  function Window(data: seq<byte>, blen: nat, offset: nat): (w: seq<byte>)
    requires offset <= |data|
  {
    data[offset..offset + WindowLen(data, blen, offset)]
  }

  /** The rolled sums are those of the window, modulo 2^16. */
  ghost predicate Rolled(data: seq<byte>, blen: nat, offset: nat, k: nat, s1: uint32, s2: uint32)
    requires offset <= |data|
  {
    && k == WindowLen(data, blen, offset)
    && (s1 % U16, s2 % U16) == WindowSums(data, blen, offset)
  }

  /** The sums of the window at an offset, computed from its bytes. */
  function WindowSums(data: seq<byte>, blen: nat, offset: nat): (nat, nat)
    requires offset <= |data|
  {
    var w := Window(data, blen, offset);
    (S1(w) % U16, S2(w) % U16)
  }

  /** Where the search stands: an offset and the sums carried there. */
  datatype Spot = Spot(offset: nat, s1: uint32, s2: uint32)

  /** One byte on, in uint32 arithmetic. */
  function Shift(data: seq<byte>, blen: nat, p: Spot): Spot
    requires p.offset < |data|
  {
    var k := WindowLen(data, blen, p.offset);
    var b0: int := data[p.offset];
    var (t1, t2) := ShiftSums(p.s1, p.s2, b0, k * b0, Incoming(data, p.offset + k));
    Spot(p.offset + 1, t1, t2)
  }

  /** The byte that comes into the window, if there is one. */
  datatype Intake = Nothing | Byte(b: byte)

  function Incoming(data: seq<byte>, i: nat): Intake {
    if i < |data| then Byte(data[i]) else Nothing
  }

  /** The leaving byte out of both sums, then the incoming one into both. */
  function ShiftSums(s1: uint32, s2: uint32, b0: int, kb0: int, incoming: Intake): (uint32, uint32) {
    var a1, a2 := Wrap32(s1 - b0), Wrap32(s2 - kb0);
    match incoming
    case Nothing => (a1, a2)
    case Byte(b) => (Wrap32(a1 + b), Wrap32(a2 + Wrap32(a1 + b)))
  }

  /** The same without wrap-around. */
  function NextPair(sum1: int, sum2: int, b0: int, kb0: int, incoming: Intake): (int, int) {
    match incoming
    case Nothing => (sum1 - b0, sum2 - kb0)
    case Byte(b) => (sum1 - b0 + b, sum2 - kb0 + (sum1 - b0 + b))
  }

  /** At an offset with the sums of its window. */
  function Begin(data: seq<byte>, blen: nat, offset: nat): Spot
    requires offset <= |data|
  {
    Spot(offset, WindowSums(data, blen, offset).0, WindowSums(data, blen, offset).1)
  }

  // ------------------------------------------------------------- from window to window

  /** How the next window comes from this one. */
  lemma NextWindow(data: seq<byte>, blen: nat, offset: nat)
    requires blen > 0 && offset < |data|
    ensures var w, k := Window(data, blen, offset), WindowLen(data, blen, offset);
      && |w| == k > 0 && w[0] == data[offset]
      && (if offset + k < |data| then
            WindowLen(data, blen, offset + 1) == k && Window(data, blen, offset + 1) == w[1..] + [data[offset + k]]
          else
            WindowLen(data, blen, offset + 1) == k - 1 && Window(data, blen, offset + 1) == w[1..])
  {
  }

  /** The sums of the next window from those of this one, without wrap-around. */
  lemma {:induction false} NextSums(data: seq<byte>, blen: nat, offset: nat)
    requires blen > 0 && offset < |data|
    ensures var w, v := Window(data, blen, offset), Window(data, blen, offset + 1);
      var k, b0: int := WindowLen(data, blen, offset), data[offset];
      (S1(v), S2(v)) == NextPair(S1(w), S2(w), b0, k * b0, Incoming(data, offset + k))
  {
    var w, k := Window(data, blen, offset), WindowLen(data, blen, offset);
    NextWindow(data, blen, offset);
    DropSums(w);
    if offset + k < |data| {
      SnocSums(w[1..], data[offset + k]);
    }
  }

  /** A sum that is off by c stays off by c when something is added. */
  lemma WrapPlus(sum: int, c: int, x: int)
    ensures Wrap32(Wrap32(sum - c) + x) == Wrap32((sum + x) - c)
  {
    WrapStep(sum - c, 0, x);
  }

  /** Two sums that are off, added. */
  lemma WrapBoth(sum: int, c: int, sum': int, c': int)
    ensures Wrap32(Wrap32(sum - c) + Wrap32(sum' - c')) == Wrap32((sum + sum') - (c + c'))
  {
    WrapStep(sum - c, sum' - c', 0);
  }

  /** The sums at p are off by so much. */
  ghost predicate OffAt(data: seq<byte>, blen: nat, p: Spot, c1: int, c2: int)
    requires p.offset <= |data|
  {
    var w := Window(data, blen, p.offset);
    p.s1 == Wrap32(S1(w) - c1) && p.s2 == Wrap32(S2(w) - c2)
  }

  /** The shift, on sums that are off by c1 and c2: the first stays off by c1; the
      second takes the first in, and is then off by c1 more, as long as there is a
      byte to come into the window. */
  lemma {:induction false} ShiftExact(data: seq<byte>, blen: nat, p: Spot, c1: int, c2: int)
    requires blen > 0 && p.offset < |data| && OffAt(data, blen, p, c1, c2)
    ensures OffAt(data, blen, Shift(data, blen, p), c1, c2 + if p.offset + blen < |data| then c1 else 0)
  {
    var w, k := Window(data, blen, p.offset), WindowLen(data, blen, p.offset);
    var b0: int := data[p.offset];
    NextSums(data, blen, p.offset);
    ShiftArithmetic(S1(w), S2(w), c1, c2, b0, k * b0, Incoming(data, p.offset + k));
  }

  /** The arithmetic of the shift alone. */
  lemma {:induction false} ShiftArithmetic(sum1: int, sum2: int, c1: int, c2: int, b0: int, kb0: int, incoming: Intake)
    ensures var (n1, n2) := NextPair(sum1, sum2, b0, kb0, incoming);
      ShiftSums(Wrap32(sum1 - c1), Wrap32(sum2 - c2), b0, kb0, incoming)
      == (Wrap32(n1 - c1), Wrap32(n2 - (c2 + if incoming.Byte? then c1 else 0)))
  {
    WrapPlus(sum1, c1, -b0);
    WrapPlus(sum2, c2, -kb0);
    if incoming.Byte? {
      WrapPlus(sum1 - b0, c1, incoming.b);
      WrapBoth(sum2 - kb0, c2, (sum1 - b0) + incoming.b, c1);
    }
  }

  /** Being off by a multiple of 2^16 does not show modulo 2^16. */
  lemma WrapMod(x: int, c: int)
    requires c % U16 == 0
    ensures Wrap32(x - c) % U16 == x % U16
  {
    Halves(x - c);
    var q := c / U16;
    assert x == (x - c) + q * U16;
  }

  /** Congruent sums are off by a multiple of 2^16. */
  lemma OffBy(sum: nat, s: uint32)
    requires s % U16 == sum % U16
    ensures (sum - s) % U16 == 0 && s == Wrap32(sum - (sum - s))
  {
  }

  lemma {:induction false} ZeroSum(a: int, b: int)
    requires a % U16 == 0 && b % U16 == 0
    ensures (a + b) % U16 == 0
  {
  }

  /** Shifting keeps the sums those of the window. */
  lemma {:induction false} ShiftRolls(data: seq<byte>, blen: nat, p: Spot)
    requires blen > 0 && p.offset < |data|
    requires Rolled(data, blen, p.offset, WindowLen(data, blen, p.offset), p.s1, p.s2)
    ensures var q := Shift(data, blen, p);
      Rolled(data, blen, p.offset + 1, WindowLen(data, blen, p.offset + 1), q.s1, q.s2)
  {
    var w, v := Window(data, blen, p.offset), Window(data, blen, p.offset + 1);
    var c1, c2 := S1(w) - p.s1, S2(w) - p.s2;
    OffBy(S1(w), p.s1);
    OffBy(S2(w), p.s2);
    ZeroSum(c2, c1);
    ShiftExact(data, blen, p, c1, c2);
    WrapMod(S1(v), c1);
    WrapMod(S2(v), c2);
    WrapMod(S2(v), c2 + c1);
  }

  // ---------------------------------------------------------------- since the last start

  /** The spot reached from the start at offset a by n shifts. */
  function SpotFrom(data: seq<byte>, blen: nat, a: nat, n: nat): (p: Spot)
    requires a + n <= |data|
    ensures p.offset == a + n
  {
    if n == 0 then Begin(data, blen, a) else Shift(data, blen, SpotFrom(data, blen, a, n - 1))
  }

  /** How many of n shifts from a take in a new byte. */
  function Intakes(data: seq<byte>, blen: nat, a: nat, n: nat): nat {
    if a + blen >= |data| then 0 else Min(n, |data| - blen - a)
  }

  /** By how much the sums are off: what the start cut off the first sum stays off;
      for the second it adds up with every byte taken in. */
  function Off1(data: seq<byte>, blen: nat, a: nat): nat
    requires a <= |data|
  {
    S1(Window(data, blen, a)) / U16
  }

  function Off2(data: seq<byte>, blen: nat, a: nat, n: nat): nat
    requires a <= |data|
  {
    S2(Window(data, blen, a)) / U16 + Intakes(data, blen, a, n) * Off1(data, blen, a)
  }

  lemma MaskedIsOff(sum: nat)
    ensures sum % U16 == Wrap32(sum - U16 * (sum / U16))
  {
  }

  lemma {:induction false} OneMoreIntake(data: seq<byte>, blen: nat, a: nat, n: nat)
    requires a + n < |data|
    ensures Off2(data, blen, a, n + 1) == Off2(data, blen, a, n)
      + if a + n + blen < |data| then Off1(data, blen, a) else 0
  {
    var f, h := Intakes(data, blen, a, n), Off1(data, blen, a);
    assert Intakes(data, blen, a, n + 1) == f + if a + n + blen < |data| then 1 else 0;
    assert (f + 1) * h == f * h + h;
  }

  /** The sums at p, n shifts behind the start at a, in closed form. */
  ghost predicate CarriedAt(data: seq<byte>, blen: nat, a: nat, n: nat, p: Spot)
    requires a <= |data| && p.offset <= |data|
  {
    OffAt(data, blen, p, U16 * Off1(data, blen, a), U16 * Off2(data, blen, a, n))
  }

  lemma {:induction false} StartOff(data: seq<byte>, blen: nat, a: nat)
    requires a <= |data|
    ensures CarriedAt(data, blen, a, 0, Begin(data, blen, a))
  {
    MaskedIsOff(S1(Window(data, blen, a)));
    MaskedIsOff(S2(Window(data, blen, a)));
    assert Off2(data, blen, a, 0) == S2(Window(data, blen, a)) / U16;
  }

  lemma {:induction false} StepOff(data: seq<byte>, blen: nat, a: nat, n: nat, p: Spot)
    requires blen > 0 && p.offset == a + n < |data|
    requires CarriedAt(data, blen, a, n, p)
    ensures CarriedAt(data, blen, a, n + 1, Shift(data, blen, p))
  {
    var c1, c2 := U16 * Off1(data, blen, a), U16 * Off2(data, blen, a, n);
    OneMoreIntake(data, blen, a, n);
    assert U16 * Off2(data, blen, a, n + 1) == c2 + if a + n + blen < |data| then c1 else 0;
    ShiftExact(data, blen, p, c1, c2);
  }

  /** The carried sums modulo 2^32, in closed form. */
  lemma {:induction false} CarriedSums(data: seq<byte>, blen: nat, a: nat, n: nat)
    requires blen > 0 && a + n <= |data|
    ensures CarriedAt(data, blen, a, n, SpotFrom(data, blen, a, n))
  {
    if n == 0 {
      StartOff(data, blen, a);
    } else {
      CarriedSums(data, blen, a, n - 1);
      StepOff(data, blen, a, n - 1, SpotFrom(data, blen, a, n - 1));
    }
  }

  /** In particular they are the window's modulo 2^16. */
  lemma {:induction false} SpotRolled(data: seq<byte>, blen: nat, a: nat, n: nat)
    requires blen > 0 && a + n <= |data|
    ensures var p := SpotFrom(data, blen, a, n);
      Rolled(data, blen, a + n, WindowLen(data, blen, a + n), p.s1, p.s2)
  {
    CarriedSums(data, blen, a, n);
    OffIsRolled(data, blen, SpotFrom(data, blen, a, n), Off1(data, blen, a), Off2(data, blen, a, n));
  }

  lemma {:induction false} OffIsRolled(data: seq<byte>, blen: nat, p: Spot, h1: nat, h2: nat)
    requires p.offset <= |data| && OffAt(data, blen, p, U16 * h1, U16 * h2)
    ensures Rolled(data, blen, p.offset, WindowLen(data, blen, p.offset), p.s1, p.s2)
  {
    var w := Window(data, blen, p.offset);
    HighHalf(S1(w), h1);
    HighHalf(S2(w), h2);
  }

  /** The high half of a sum that is off by a multiple of 2^16. */
  lemma HighHalf(sum: nat, c: int)
    ensures Wrap32(sum - U16 * c) / U16 == (sum / U16 - c) % U16
    ensures Wrap32(sum - U16 * c) % U16 == sum % U16
  {
    var x := sum - U16 * c;
    var h := sum / U16 - c;
    var q := h / U16;
    assert x == U32 * q + (U16 * (h % U16) + sum % U16);
    DivMod(x, U32, q, U16 * (h % U16) + sum % U16);
    DivMod(x % U32, U16, h % U16, sum % U16);
  }

  // ----------------------------------------------------------------------- the methods

  /** The one-byte roll. */
  method Roll(data: seq<byte>, blen: nat, offset: nat, k: nat, s1: uint32, s2: uint32)
      returns (k': nat, t1: uint32, t2: uint32)
    requires blen > 0 && offset < |data|
    requires Rolled(data, blen, offset, k, s1, s2)
    ensures Rolled(data, blen, offset + 1, k', t1, t2)
    ensures Spot(offset + 1, t1, t2) == Shift(data, blen, Spot(offset, s1, s2))
  {
    ShiftRolls(data, blen, Spot(offset, s1, s2));
    k', t1, t2 := RollSums(data, blen, offset, k, s1, s2);
  }

  method RollSums(data: seq<byte>, blen: nat, offset: nat, k: nat, s1: uint32, s2: uint32)
      returns (k': nat, t1: uint32, t2: uint32)
    requires blen > 0 && offset < |data| && k == WindowLen(data, blen, offset)
    ensures k' == WindowLen(data, blen, offset + 1)
    ensures Spot(offset + 1, t1, t2) == Shift(data, blen, Spot(offset, s1, s2))
  {
    var b0: int := data[offset];
    t1, t2 := RollBytes(s1, s2, b0, k * b0, Incoming(data, offset + k));
    k' := if offset + k < |data| then k else k - 1;
  }

  method RollBytes(s1: uint32, s2: uint32, b0: int, kb0: int, incoming: Intake) returns (t1: uint32, t2: uint32)
    ensures (t1, t2) == ShiftSums(s1, s2, b0, kb0, incoming)
  {
    t1 := Wrap32(s1 - b0);
    t2 := Wrap32(s2 - kb0);
    if incoming.Byte? {
      t1 := Wrap32(t1 + incoming.b);
      t2 := Wrap32(t2 + t1);
    }
  }

  /** After a match that ends at next: sum the window one byte before from
      scratch, then roll once. */
  method Restart(data: seq<byte>, blen: nat, next: nat) returns (k': nat, t1: uint32, t2: uint32)
    requires blen > 0 && 0 < next <= |data|
    ensures Rolled(data, blen, next, k', t1, t2)
    ensures Spot(next, t1, t2) == Shift(data, blen, Begin(data, blen, next - 1))
  {
    var offset := next - 1;
    var k := WindowLen(data, blen, offset);
    var s1, s2 := RollingChecksum(data[offset..offset + k]);
    k', t1, t2 := Roll(data, blen, offset, k, s1, s2);
    assert offset + 1 == next;
  }
}
