/** Compressed file-list indices (NdxState in protocol/wireint.go).

    From protocol 30 on an index travels as the difference to the previous one
    of its sign, so writer and reader each keep a pair of trackers and must
    stay in step over the whole connection.
 */
module Ndx {
  import opened Bytes

  const NDX_DONE: int32 := -1
  const INT32_MIN: int32 := -0x8000_0000

  datatype Trackers = Trackers(pos: int32, neg: int32)

  const FRESH: Trackers := Trackers(-1, 1)

  /** Every pair of trackers that indices above INT32_MIN can lead to. */
  predicate Tracked(t: Trackers) {
    t.pos >= -1 && t.neg >= 0
  }

  // -------------------------------------------------------------------- writing

  /** How one index is expressed: a small difference, one up to 0x7FFF, or the
      absolute value. */
  datatype Form = Step(d: int) | Jump(d: int) | Absolute(u: int)
  {
    predicate Valid() {
      match this
      case Step(d) => 0 < d < 0xFE
      case Jump(d) => 0 <= d <= 0x7FFF
      case Absolute(u) => 0 <= u < U32
    }
  }

  function Choose(v: int32, prev: int32): (f: Form)
    ensures f.Valid()
  {
    var diff := Signed32(v - prev);
    if 0 < diff < 0xFE then Step(diff)
    else if diff < 0 || diff > 0x7FFF then Absolute(Wrap32(v))
    else Jump(diff)
  }

  /** One byte; 0xFE and two bytes; or 0xFE and four, the top byte first with
      its top bit set. */
  function Layout(f: Form): (s: seq<byte>)
    requires f.Valid()
    ensures 1 <= |s| <= 5 && s[0] != 0 && s[0] != 0xFF
  {
    match f
    case Step(d) => [d]
    case Jump(d) => [0xFE, d / 256, d % 256]
    case Absolute(u) => [0xFE, u / 0x100_0000 % 128 + 128, u % 256, u / 256 % 256, u / U16 % 256]
  }

  /** The part shared by both signs. */
  function PutIndex(v: int32, prev: int32): (s: seq<byte>)
    ensures 1 <= |s| <= 5 && s[0] != 0 && s[0] != 0xFF
  {
    Layout(Choose(v, prev))
  }

  function PutNdx(t: Trackers, ndx: int32): (r: (seq<byte>, Trackers)) {
    if ndx >= 0 then (PutIndex(ndx, t.pos), t.(pos := ndx))
    else if ndx == NDX_DONE then ([0], t)
    else
      var v := Signed32(-(ndx as int));
      ([0xFF] + PutIndex(v, t.neg), t.(neg := v))
  }

  // -------------------------------------------------------------------- reading

  /** An absolute value from its bytes: the top one comes first, with its top bit set. */
  function FourBytes(b0: int, b1: int, m0: int, m1: int): int {
    b1 + 256 * m0 + U16 * m1 + 0x100_0000 * (b0 - 128)
  }

  function GetForm(first: byte, s: seq<byte>): Read<Form> {
    if first == 0xFE then
      var (b, s1) :- Take(s, 2);
      var b0: int, b1: int := b[0], b[1];
      if b0 >= 128 then
        var (m, s2) :- Take(s1, 2);
        var m0: int, m1: int := m[0], m[1];
        Got(Absolute(FourBytes(b0, b1, m0, m1)), s2)
      else Got(Jump(b0 * 256 + b1), s1)
    else Got(Step(first), s)
  }

  /** The index a form stands for, in uint32 arithmetic. */
  function Resolve(f: Form, prev: int32): int {
    match f
    case Absolute(u) => u
    case _ => (f.d + Wrap32(prev)) % U32
  }

  function GetIndex(first: byte, prev: int32, s: seq<byte>): Read<int32> {
    var (f, s1) :- GetForm(first, s);
    var num := Resolve(f, prev);
    if 0 <= num <= 0x7FFF_FFFF then Got(num, s1) else Invalid
  }

  function GetNdx(t: Trackers, s: seq<byte>): Read<(int32, Trackers)> {
    var (b, s1) :- TakeByte(s);
    if b == 0xFF then
      var (c, s2) :- TakeByte(s1);
      var (v, s3) :- GetIndex(c, t.neg, s2);
      Got((-v, t.(neg := v)), s3)
    else if b == 0 then Got((NDX_DONE, t), s1)
    else
      var (v, s2) :- GetIndex(b, t.pos, s1);
      Got((v, t.(pos := v)), s2)
  }

  // --------------------------------------------------------------- one round trip

  lemma Recombine(u: int)
    requires 0 <= u < U32
    ensures u % 256 + 256 * (u / 256 % 256) + U16 * (u / U16 % 256) + 0x100_0000 * (u / 0x100_0000 % 128) == u % U31
  {
    var a := u / 256;
    var b := a / 256;
    var c := b / 256;
    var low2 := 256 * (a % 256) + u % 256;
    var low3 := U16 * (b % 256) + low2;
    DivMod(u, U16, b, low2);
    DivMod(u, 0x100_0000, c, low3);
    DivMod(u, U31, c / 128, 0x100_0000 * (c % 128) + low3);
  }

  /** The form as the reader sees it: an absolute value loses its top bit. */
  function Seen(f: Form): Form {
    if f.Absolute? then Absolute(f.u % U31) else f
  }

  lemma FormRoundTrip(f: Form, rest: seq<byte>)
    requires f.Valid()
    ensures GetForm(Layout(f)[0], Layout(f)[1..] + rest) == Got(Seen(f), rest)
  {
    var s := Layout(f);
    match f
    case Step(d) =>
      assert s[1..] + rest == rest;
    case Jump(d) =>
      TakePrefix(s[1..3], rest);
    case Absolute(u) =>
      Recombine(u);
      assert s[1..] == [s[1], s[2]] + [s[3], s[4]];
      AbsoluteForm([s[1], s[2]], [s[3], s[4]], rest);
  }

  lemma {:induction false} AbsoluteForm(b: seq<byte>, m: seq<byte>, rest: seq<byte>)
    requires |b| == 2 && |m| == 2 && b[0] >= 128
    ensures GetForm(0xFE, (b + m) + rest) == Got(Absolute(FourBytes(b[0], b[1], m[0], m[1])), rest)
  {
    Assoc(b, m, rest);
    TakePrefix(b, m + rest);
    TakePrefix(m, rest);
    AbsoluteSteps((b + m) + rest, b, m + rest, m, rest);
  }

  lemma {:induction false} AbsoluteSteps(s: seq<byte>, b: seq<byte>, s1: seq<byte>, m: seq<byte>, s2: seq<byte>)
    requires Take(s, 2) == Got(b, s1) && b[0] >= 128 && Take(s1, 2) == Got(m, s2)
    ensures GetForm(0xFE, s) == Got(Absolute(FourBytes(b[0], b[1], m[0], m[1])), s2)
  {
  }

  /** A form stands for the index it was chosen for; for INT32_MIN, which has no
      negation, it stands for zero or for a value out of range. */
  lemma ResolveChosen(v: int32, prev: int32)
    requires prev >= -1
    ensures v >= 0 ==> Resolve(Seen(Choose(v, prev)), prev) == v
    ensures v == INT32_MIN && prev >= 0 ==> Resolve(Seen(Choose(v, prev)), prev) in {0, U31}
  {
    if v >= 0 {
      ResolveIndex(v, prev);
    } else if v == INT32_MIN && prev >= 0 {
      ResolveLeast(prev);
    }
  }

  /** The difference, added again in uint32 arithmetic. */
  lemma {:induction false} AddBack(d: int, prev: int32, sum: int)
    requires d + prev == sum && 0 <= sum < U32
    ensures (d + Wrap32(prev)) % U32 == sum
  {
  }

  lemma {:induction false} ResolveIndex(v: int32, prev: int32)
    requires v >= 0 && prev >= -1
    ensures Resolve(Seen(Choose(v, prev)), prev) == v
  {
    var diff := v - prev;
    if diff < U31 {
      assert Signed32(diff) == diff;
      AddBack(diff, prev, v);
    } else {
      assert Signed32(diff) == -U31;
    }
  }

  lemma {:induction false} ResolveLeast(prev: int32)
    requires prev >= 0
    ensures Resolve(Seen(Choose(INT32_MIN, prev)), prev) in {0, U31}
  {
    if prev == 0 {
      assert Signed32(-U31) == -U31;
    } else {
      assert Signed32(-U31 - prev) == U31 - prev;
      AddBack(U31 - prev, prev, U31);
    }
  }

  lemma GetIndexOf(f: Form, prev: int32, rest: seq<byte>)
    requires f.Valid()
    ensures GetIndex(Layout(f)[0], prev, Layout(f)[1..] + rest) ==
      var num := Resolve(Seen(f), prev); if 0 <= num <= 0x7FFF_FFFF then Got(num, rest) else Invalid
  {
    FormRoundTrip(f, rest);
  }

  lemma IndexRoundTrip(v: int32, prev: int32, rest: seq<byte>)
    requires prev >= -1
    ensures var s := PutIndex(v, prev);
      && (v >= 0 ==> GetIndex(s[0], prev, s[1..] + rest) == Got(v, rest))
      && (v == INT32_MIN && prev >= 0 ==>
        GetIndex(s[0], prev, s[1..] + rest) == Invalid || GetIndex(s[0], prev, s[1..] + rest) == Got(0, rest))
  {
    var f := Choose(v, prev);
    ResolveChosen(v, prev);
    GetIndexOf(f, prev, rest);
  }

  /** The reader's view of an index that starts a stream. */
  lemma GetNdxCases(t: Trackers, body: seq<byte>, rest: seq<byte>)
    requires |body| > 0 && body[0] != 0 && body[0] != 0xFF
    ensures GetNdx(t, body + rest) ==
      var r := GetIndex(body[0], t.pos, body[1..] + rest);
      if r.Got? then Got((r.value, t.(pos := r.value)), r.rest) else r.PropagateFailure<(int32, Trackers)>()
    ensures GetNdx(t, [0xFF] + body + rest) ==
      var r := GetIndex(body[0], t.neg, body[1..] + rest);
      if r.Got? then Got((-r.value, t.(neg := r.value)), r.rest) else r.PropagateFailure<(int32, Trackers)>()
  {
    assert (body + rest)[1..] == body[1..] + rest;
    assert ([0xFF] + body + rest)[1..] == body + rest;
  }

  lemma PositiveRoundTrip(t: Trackers, ndx: int32, rest: seq<byte>)
    requires Tracked(t) && ndx >= 0
    ensures GetNdx(t, PutNdx(t, ndx).0 + rest) == Got((ndx, PutNdx(t, ndx).1), rest)
  {
    IndexRoundTrip(ndx, t.pos, rest);
    GetNdxCases(t, PutIndex(ndx, t.pos), rest);
  }

  /** The negative case, over any body and what the reader makes of it. */
  lemma NegativeRoundTrip(t: Trackers, ndx: int32, v: int32, body: seq<byte>, rest: seq<byte>)
    requires ndx < NDX_DONE && v == Signed32(-(ndx as int))
    requires |body| > 0 && body[0] != 0 && body[0] != 0xFF
    requires var r := GetIndex(body[0], t.neg, body[1..] + rest);
      if ndx == INT32_MIN then r == Invalid || r == Got(0, rest) else r == Got(v, rest)
    ensures GetNdx(t, [0xFF] + body + rest) == Got((ndx, t.(neg := v)), rest) <==> ndx != INT32_MIN
  {
    GetNdxCases(t, body, rest);
    Negated(ndx);
  }

  /** Negation in 32 bits: INT32_MIN is its own. */
  lemma Negated(ndx: int32)
    requires ndx < 0
    ensures Signed32(-(ndx as int)) == if ndx == INT32_MIN then INT32_MIN else -(ndx as int)
  {
  }

  /** An index survives the wire, moving both ends to the same trackers and
      consuming exactly its bytes, if and only if it is not INT32_MIN. */
  lemma NdxRoundTrip(t: Trackers, ndx: int32, rest: seq<byte>)
    requires Tracked(t)
    ensures GetNdx(t, PutNdx(t, ndx).0 + rest) == Got((ndx, PutNdx(t, ndx).1), rest) <==> ndx != INT32_MIN
    ensures ndx != INT32_MIN ==> Tracked(PutNdx(t, ndx).1)
  {
    if ndx >= 0 {
      PositiveRoundTrip(t, ndx, rest);
    } else if ndx == NDX_DONE {
      DoneNeedsNoTracker(t, t, rest);
    } else {
      NegativeNdx(t, ndx, rest);
    }
  }

  lemma {:induction false} NegativeNdx(t: Trackers, ndx: int32, rest: seq<byte>)
    requires Tracked(t) && ndx < NDX_DONE
    ensures GetNdx(t, PutNdx(t, ndx).0 + rest) == Got((ndx, PutNdx(t, ndx).1), rest) <==> ndx != INT32_MIN
    ensures ndx != INT32_MIN ==> Tracked(PutNdx(t, ndx).1)
  {
    Negated(ndx);
    NegativeOf(t, ndx, Signed32(-(ndx as int)), rest);
  }

  lemma {:induction false} NegativeOf(t: Trackers, ndx: int32, v: int32, rest: seq<byte>)
    requires Tracked(t) && ndx < NDX_DONE && v == Signed32(-(ndx as int))
    requires v == if ndx == INT32_MIN then INT32_MIN else -(ndx as int)
    ensures GetNdx(t, [0xFF] + PutIndex(v, t.neg) + rest) == Got((ndx, t.(neg := v)), rest) <==> ndx != INT32_MIN
  {
    IndexRoundTrip(v, t.neg, rest);
    NegativeRoundTrip(t, ndx, v, PutIndex(v, t.neg), rest);
  }

  /** NDX_DONE uses no tracker: a reader in any state decodes what a writer in
      any other state wrote, which is why the final goodbye may start over with
      fresh trackers. */
  lemma DoneNeedsNoTracker(writer: Trackers, reader: Trackers, rest: seq<byte>)
    ensures GetNdx(reader, PutNdx(writer, NDX_DONE).0 + rest) == Got((NDX_DONE, reader), rest)
  {
    assert ([0] + rest)[1..] == rest;
  }

  /** Whatever the bytes, INT32_MIN is never decoded. */
  lemma {:induction false} NdxNotLeast(t: Trackers, s: seq<byte>)
    ensures GetNdx(t, s).Got? ==> GetNdx(t, s).value.0 != INT32_MIN
  {
  }

  // ------------------------------------------------------------------ whole runs

  function PutAll(t: Trackers, ndxs: seq<int32>): (r: (seq<byte>, Trackers))
    decreases |ndxs|
  {
    if ndxs == [] then ([], t)
    else
      var (s, t1) := PutNdx(t, ndxs[0]);
      var (s', t2) := PutAll(t1, ndxs[1..]);
      (s + s', t2)
  }

  function GetAll(t: Trackers, n: nat, s: seq<byte>): Read<(seq<int32>, Trackers)>
    decreases n
  {
    if n == 0 then Got(([], t), s)
    else
      var (x, s1) :- GetNdx(t, s);
      var (xs, s2) :- GetAll(x.1, n - 1, s1);
      Got(([x.0] + xs.0, xs.1), s2)
  }

  /** Over any sequence of indices above INT32_MIN, a reader that starts with
      the writer's trackers returns the sequence, ends with the writer's
      trackers and stops exactly where the writer stopped. */
  lemma {:induction false} RunRoundTrip(t: Trackers, ndxs: seq<int32>, rest: seq<byte>)
    requires Tracked(t)
    requires forall i :: 0 <= i < |ndxs| ==> ndxs[i] != INT32_MIN
    ensures var (s, t') := PutAll(t, ndxs);
      GetAll(t, |ndxs|, s + rest) == Got((ndxs, t'), rest)
    decreases |ndxs|
  {
    if ndxs == [] {
      assert PutAll(t, ndxs).0 + rest == rest;
    } else {
      var (s, t1) := PutNdx(t, ndxs[0]);
      var (s', t2) := PutAll(t1, ndxs[1..]);
      NdxRoundTrip(t, ndxs[0], s' + rest);
      RunRoundTrip(t1, ndxs[1..], rest);
      Assoc(s, s', rest);
      assert [ndxs[0]] + ndxs[1..] == ndxs;
    }
  }

  // ------------------------------------------------------------------- the object

  class NdxState {
    var prevPositive: int32
    var prevNegative: int32

    function State(): Trackers
      reads this
    {
      Trackers(prevPositive, prevNegative)
    }

    constructor ()
      ensures State() == FRESH
    {
      prevPositive, prevNegative := -1, 1;
    }

    /** Fills b from cnt on with the index body and returns the new count. */
    method Fill(b: array<byte>, start: nat, v: int32, prev: int32) returns (cnt: nat)
      requires start <= 1 && b.Length == 6
      modifies b
      ensures start <= cnt <= 6 && b[..start] == old(b[..start])
      ensures b[start..cnt] == PutIndex(v, prev)
    {
      cnt := start;
      var diff := Signed32(v - prev);
      if 0 < diff < 0xFE {
        b[cnt] := diff;
        cnt := cnt + 1;
      } else if diff < 0 || diff > 0x7FFF {
        var u := Wrap32(v);
        b[cnt], b[cnt + 1], b[cnt + 2] := 0xFE, u / 0x100_0000 % 128 + 128, u % 256;
        b[cnt + 3], b[cnt + 4] := u / 256 % 256, u / U16 % 256;
        cnt := cnt + 5;
      } else {
        b[cnt], b[cnt + 1], b[cnt + 2] := 0xFE, diff / 256, diff % 256;
        cnt := cnt + 3;
      }
    }

    method WriteNdx(w: Stream, ndx: int32)
      modifies this, w
      ensures w.buf == old(w.buf) + PutNdx(old(State()), ndx).0
      ensures State() == PutNdx(old(State()), ndx).1
    {
      var b := new byte[6](_ => 0);
      var cnt := 0;
      if ndx >= 0 {
        cnt := Fill(b, 0, ndx, prevPositive);
        assert b[..cnt] == b[0..cnt];
        prevPositive := ndx;
      } else if ndx == NDX_DONE {
        b[0] := 0;
        cnt := 1;
        assert b[..cnt] == [0];
      } else {
        b[0] := 0xFF;
        assert b[..1] == [0xFF];
        var v := Signed32(-(ndx as int));
        cnt := Fill(b, 1, v, prevNegative);
        assert b[..cnt] == b[..1] + b[1..cnt];
        prevNegative := v;
      }
      w.Write(b[..cnt]);
    }

    method ReadNdx(r: Stream) returns (res: Read<int32>)
      modifies this, r
      ensures var spec := GetNdx(old(State()), old(r.buf));
        if spec.Got? then res == Got(spec.value.0, spec.rest) && State() == spec.value.1 && r.buf == spec.rest
        else res == spec.PropagateFailure<int32>() && State() == old(State())
    {
      var first := r.ReadFull(1);
      if !first.Got? {
        return first.PropagateFailure();
      }
      if first.value[0] == 0xFF {
        var second := r.ReadFull(1);
        if !second.Got? {
          return second.PropagateFailure();
        }
        res := ReadBody(r, second.value[0], prevNegative);
        if res.Got? {
          prevNegative := res.value;
          res := Got(-res.value, r.buf);
        }
      } else if first.value[0] == 0 {
        res := Got(NDX_DONE, r.buf);
      } else {
        res := ReadBody(r, first.value[0], prevPositive);
        if res.Got? {
          prevPositive := res.value;
        }
      }
    }

    /** readNdxPositive, without the tracker update. */
    method ReadBody(r: Stream, first: byte, prev: int32) returns (res: Read<int32>)
      modifies r
      ensures res == GetIndex(first, prev, old(r.buf))
      ensures res.Got? ==> r.buf == res.rest
    {
      var num: int;
      if first == 0xFE {
        var b := r.ReadFull(2);
        if !b.Got? {
          return b.PropagateFailure();
        }
        var b0: int, b1: int := b.value[0], b.value[1];
        if b0 >= 128 {
          var m := r.ReadFull(2);
          if !m.Got? {
            return m.PropagateFailure();
          }
          var m0: int, m1: int := m.value[0], m.value[1];
          num := b1 + 256 * m0 + U16 * m1 + 0x100_0000 * (b0 - 128);
        } else {
          num := (b0 * 256 + b1 + Wrap32(prev)) % U32;
        }
      } else {
        num := (first as int + Wrap32(prev)) % U32;
      }
      if num > 0x7FFF_FFFF {
        return Invalid;
      }
      return Got(num, r.buf);
    }
  }
}
