/** Selectors (protocol/selector.go): the generator's requests and the sender's
    echoes, an index with item flags and two optional fields. */
module Selectors {
  import opened Bytes
  import opened WireInts
  import opened Ndx

  const ITEM_TRANSFER: nat := 0x8000
  const ITEM_MISSING_DATA: nat := 0x1_0000
  const ITEM_IS_NEW: nat := 0x2000

  /** ItemBasisTypeFollows, bit 11. */
  predicate BasisFollows(iflags: nat) {
    iflags / 0x800 % 2 == 1
  }

  /** ItemXnameFollows, bit 12. */
  predicate XnameFollows(iflags: nat) {
    iflags / 0x1000 % 2 == 1
  }

  /** The last phase of the selector exchange. */
  function MaxPhase(version: int): nat {
    if version >= 29 then 2 else 1
  }

  datatype Selector = Selector(ndx: int32, iflags: nat, basisType: byte, xname: seq<byte>)

  /** An announced name fits a vstring. */
  predicate NameFits(sel: Selector) {
    XnameFollows(sel.iflags) ==> |sel.xname| <= 0x7FFF
  }

  // --------------------------------------------------------------------- vstrings

  function PutVstring(x: seq<byte>): (s: seq<byte>)
    requires |x| <= 0x7FFF
    ensures |s| > 0
  {
    (if |x| > 0x7F then [|x| / 256 + 128, |x| % 256] else [|x|]) + x
  }

  function GetVstring(s: seq<byte>): (r: Read<seq<byte>>)
    ensures r.Got? ==> |r.value| <= 0x7FFF
  {
    var (b, s1) :- TakeByte(s);
    if b >= 128 then
      var (c, s2) :- TakeByte(s1);
      Take(s2, (b - 128) * 256 + c)
    else Take(s1, b)
  }

  lemma VstringRoundTrip(x: seq<byte>, rest: seq<byte>)
    requires |x| <= 0x7FFF
    ensures GetVstring(PutVstring(x) + rest) == Got(x, rest)
  {
    var s := PutVstring(x) + rest;
    TakePrefix(x, rest);
    if |x| > 0x7F {
      assert s[1..][1..] == x + rest;
    } else {
      assert s[1..] == x + rest;
    }
  }

  // ---------------------------------------------------------------- the selector

  function PutIndex30(version: int, t: Trackers, ndx: int32): (seq<byte>, Trackers) {
    if version >= 30 then PutNdx(t, ndx) else (PutI32(ndx), t)
  }

  function GetIndex30(version: int, t: Trackers, s: seq<byte>): Read<(int32, Trackers)> {
    if version >= 30 then GetNdx(t, s)
    else var (v, s1) :- GetI32(s); Got((v, t), s1)
  }

  /** The fields after the index and the flags. */
  function PutOptional(sel: Selector): seq<byte>
    requires NameFits(sel)
  {
    (if BasisFollows(sel.iflags) then [sel.basisType] else [])
    + if XnameFollows(sel.iflags) then PutVstring(sel.xname) else []
  }

  function PutSelector(version: int, t: Trackers, sel: Selector): (r: (seq<byte>, Trackers))
    requires NameFits(sel)
  {
    var (i, t') := PutIndex30(version, t, sel.ndx);
    var flags := if version >= 29 && sel.ndx >= 0 then PutU16(sel.iflags % U16) else [];
    (i + (flags + PutOptional(sel)), t')
  }

  function GetFlags(version: int, ndx: int32, s: seq<byte>): Read<nat> {
    if version >= 29 && ndx >= 0 then GetU16(s) else Got(ITEM_TRANSFER + ITEM_MISSING_DATA, s)
  }

  function GetOptional(ndx: int32, iflags: nat, s: seq<byte>): (r: Read<Selector>)
    ensures r.Got? ==> NameFits(r.value)
  {
    var (b, s1) :- if BasisFollows(iflags) then TakeByte(s) else Got(0, s);
    var (x, s2) :- if XnameFollows(iflags) then GetVstring(s1) else Got([], s1);
    Got(Selector(ndx, iflags, b, x), s2)
  }

  function GetSelector(version: int, t: Trackers, s: seq<byte>): (r: Read<(Selector, Trackers)>)
    ensures r.Got? ==> NameFits(r.value.0)
  {
    var (i, s1) :- GetIndex30(version, t, s);
    var (f, s2) :- GetFlags(version, i.0, s1);
    var (sel, s3) :- GetOptional(i.0, f, s2);
    Got((sel, i.1), s3)
  }

  // ------------------------------------------------------------------ round trips

  /** Whether the peer learns the item flags, and with them what follows. */
  predicate CarriesFlags(version: int, sel: Selector) {
    version >= 29 && sel.ndx >= 0
  }

  /** What the reader makes of a selector. */
  function Carried(version: int, sel: Selector): Selector {
    if CarriesFlags(version, sel) then
      Selector(sel.ndx, sel.iflags % U16,
               if BasisFollows(sel.iflags) then sel.basisType else 0,
               if XnameFollows(sel.iflags) then sel.xname else [])
    else Selector(sel.ndx, ITEM_TRANSFER + ITEM_MISSING_DATA, 0, [])
  }

  /** Only the compressed form loses an index, the least int32. */
  predicate IndexFits(version: int, ndx: int32) {
    version < 30 || ndx != INT32_MIN
  }

  lemma Index30RoundTrip(version: int, t: Trackers, ndx: int32, rest: seq<byte>)
    requires Tracked(t) && IndexFits(version, ndx)
    ensures var (s, t') := PutIndex30(version, t, ndx); GetIndex30(version, t, s + rest) == Got((ndx, t'), rest)
    ensures Tracked(PutIndex30(version, t, ndx).1)
  {
    if version >= 30 {
      NdxRoundTrip(t, ndx, rest);
    } else {
      I32RoundTrip(ndx, rest);
    }
  }

  lemma LowFlags(iflags: nat)
    ensures BasisFollows(iflags % U16) == BasisFollows(iflags)
    ensures XnameFollows(iflags % U16) == XnameFollows(iflags)
  {
    var q, r := iflags / U16, iflags % U16;
    DivMod(iflags, 0x800, 32 * q + r / 0x800, r % 0x800);
    DivMod(iflags, 0x1000, 16 * q + r / 0x1000, r % 0x1000);
    EvenShift(16 * q, r / 0x800);
    EvenShift(8 * q, r / 0x1000);
  }

  lemma EvenShift(x: int, a: int)
    ensures (2 * x + a) % 2 == a % 2
  {
  }

  lemma OptionalRoundTrip(sel: Selector, rest: seq<byte>)
    requires NameFits(sel)
    ensures GetOptional(sel.ndx, sel.iflags % U16, PutOptional(sel) + rest)
         == Got(Selector(sel.ndx, sel.iflags % U16,
                         if BasisFollows(sel.iflags) then sel.basisType else 0,
                         if XnameFollows(sel.iflags) then sel.xname else []), rest)
  {
    LowFlags(sel.iflags);
    var b := if BasisFollows(sel.iflags) then [sel.basisType] else [];
    var x := if XnameFollows(sel.iflags) then PutVstring(sel.xname) else [];
    Assoc(b, x, rest);
    if b != [] {
      assert (b + (x + rest))[1..] == x + rest;
    } else {
      assert b + (x + rest) == x + rest;
    }
    if x != [] {
      VstringRoundTrip(sel.xname, rest);
    } else {
      assert x + rest == rest;
    }
  }

  /** The selector reader, from what its three parts return. */
  lemma SelectorSteps(version: int, t: Trackers, s: seq<byte>, ndx: int32, t': Trackers, s1: seq<byte>, f: nat,
                      s2: seq<byte>, sel: Selector, s3: seq<byte>)
    requires GetIndex30(version, t, s) == Got((ndx, t'), s1)
    requires GetFlags(version, ndx, s1) == Got(f, s2)
    requires GetOptional(ndx, f, s2) == Got(sel, s3)
    ensures GetSelector(version, t, s) == Got((sel, t'), s3)
  {
  }

  /** Without the flags, the reader stops before the optional fields. */
  lemma FlaglessSelector(version: int, t: Trackers, sel: Selector, rest: seq<byte>)
    requires Tracked(t) && IndexFits(version, sel.ndx) && NameFits(sel) && !CarriesFlags(version, sel)
    ensures var (s, t') := PutSelector(version, t, sel);
      GetSelector(version, t, s + rest) == Got((Carried(version, sel), t'), PutOptional(sel) + rest)
  {
    var (i, t') := PutIndex30(version, t, sel.ndx);
    var opt := PutOptional(sel);
    Index30RoundTrip(version, t, sel.ndx, opt + rest);
    assert [] + opt == opt;
    Assoc(i, opt, rest);
    FlaglessParts(version, sel, opt + rest);
    SelectorSteps(version, t, i + (opt + rest), sel.ndx, t', opt + rest,
                  ITEM_TRANSFER + ITEM_MISSING_DATA, opt + rest, Carried(version, sel), opt + rest);
  }

  lemma FlaglessParts(version: int, sel: Selector, s: seq<byte>)
    requires !CarriesFlags(version, sel)
    ensures GetFlags(version, sel.ndx, s) == Got(ITEM_TRANSFER + ITEM_MISSING_DATA, s)
    ensures GetOptional(sel.ndx, ITEM_TRANSFER + ITEM_MISSING_DATA, s) == Got(Carried(version, sel), s)
  {
  }

  lemma FlaggedSelector(version: int, t: Trackers, sel: Selector, rest: seq<byte>)
    requires Tracked(t) && IndexFits(version, sel.ndx) && NameFits(sel) && CarriesFlags(version, sel)
    ensures var (s, t') := PutSelector(version, t, sel);
      GetSelector(version, t, s + rest) == Got((Carried(version, sel), t'), rest)
  {
    var (i, t') := PutIndex30(version, t, sel.ndx);
    var flags, opt := PutU16(sel.iflags % U16), PutOptional(sel);
    Index30RoundTrip(version, t, sel.ndx, flags + (opt + rest));
    Assoc(flags, opt, rest);
    Assoc(i, flags + opt, rest);
    U16RoundTrip(sel.iflags % U16, opt + rest);
    OptionalRoundTrip(sel, rest);
    SelectorSteps(version, t, i + (flags + (opt + rest)), sel.ndx, t', flags + (opt + rest),
                  sel.iflags % U16, opt + rest, Carried(version, sel), rest);
  }

  /** The optional fields are absent if and only if no flag announces them. */
  lemma OptionalLeft(sel: Selector, rest: seq<byte>)
    requires NameFits(sel)
    ensures PutOptional(sel) + rest == rest <==> !BasisFollows(sel.iflags) && !XnameFollows(sel.iflags)
  {
    var opt := PutOptional(sel);
    assert |opt + rest| == |opt| + |rest|;
    if opt == [] {
      assert opt + rest == rest;
    }
  }

  /** The index survives, and the reader stops behind the selector. */
  predicate Echoable(version: int, sel: Selector) {
    && IndexFits(version, sel.ndx)
    && (CarriesFlags(version, sel) || (!BasisFollows(sel.iflags) && !XnameFollows(sel.iflags)))
  }

  /** The index of a selector is the one its first part gives, and the other parts
      take nothing back. */
  lemma {:induction false} IndexKept(version: int, t: Trackers, s: seq<byte>)
    ensures var i, r := GetIndex30(version, t, s), GetSelector(version, t, s);
      r.Got? ==> i.Got? && r.value.0.ndx == i.value.0 && |r.rest| <= |i.rest|
  {
    var i := GetIndex30(version, t, s);
    if i.Got? {
      var f := GetFlags(version, i.value.0, i.rest);
      if f.Got? {
        OptionalKeeps(i.value.0, f.value, f.rest);
      }
    }
  }

  lemma {:induction false} OptionalKeeps(ndx: int32, iflags: nat, s: seq<byte>)
    ensures var r := GetOptional(ndx, iflags, s); r.Got? ==> r.value.ndx == ndx && |r.rest| <= |s|
  {
  }

  /** No compressed index is read as the least int32. */
  lemma {:induction false} LeastNeverRead(version: int, t: Trackers, s: seq<byte>)
    requires version >= 30
    ensures var r := GetSelector(version, t, s); r.Got? ==> r.value.0.ndx != INT32_MIN
  {
    IndexKept(version, t, s);
    NdxNotLeast(t, s);
  }

  /** Reading a selector consumes exactly what was written, and returns what the
      version carries, if and only if the index is one the version can carry and the
      flags travel or announce nothing: a flag for an optional field that the reader
      never sees leaves that field on the stream. */
  lemma {:induction false} SelectorRoundTrip(version: int, t: Trackers, sel: Selector, rest: seq<byte>)
    requires Tracked(t) && NameFits(sel)
    ensures var (s, t') := PutSelector(version, t, sel);
      GetSelector(version, t, s + rest) == Got((Carried(version, sel), t'), rest) <==> Echoable(version, sel)
    ensures Echoable(version, sel) ==> Tracked(PutSelector(version, t, sel).1)
  {
    if !IndexFits(version, sel.ndx) {
      LeastNeverRead(version, t, PutSelector(version, t, sel).0 + rest);
    } else if CarriesFlags(version, sel) {
      FlaggedSelector(version, t, sel, rest);
      Index30RoundTrip(version, t, sel.ndx, []);
    } else {
      FlaglessSelector(version, t, sel, rest);
      OptionalLeft(sel, rest);
      Index30RoundTrip(version, t, sel.ndx, []);
    }
  }

  // --------------------------------------------------------------------- the methods

  method WriteVstring(w: Stream, x: seq<byte>) returns (ok: bool)
    modifies w
    ensures ok <==> |x| <= 0x7FFF
    ensures w.buf == if ok then old(w.buf) + PutVstring(x) else old(w.buf)
  {
    if |x| > 0x7FFF {
      return false;
    }
    if |x| > 0x7F {
      w.Write([|x| / 256 + 128, |x| % 256]);
    } else {
      w.Write([|x|]);
    }
    w.Write(x);
    Assoc(old(w.buf), if |x| > 0x7F then [|x| / 256 + 128, |x| % 256] else [|x|], x);
    return true;
  }

  /** Writes a selector and keeps the trackers; only an announced name that is too
      long fails. */
  method WriteSelector(w: Stream, ndx: NdxState, version: int, sel: Selector) returns (ok: bool)
    modifies w, ndx
    ensures ok <==> NameFits(sel)
    ensures ok ==> w.buf == old(w.buf) + PutSelector(version, old(ndx.State()), sel).0
    ensures ndx.State() == PutIndex30(version, old(ndx.State()), sel.ndx).1
  {
    ghost var start, i := w.buf, PutIndex30(version, ndx.State(), sel.ndx).0;
    if version >= 30 {
      ndx.WriteNdx(w, sel.ndx);
    } else {
      w.Write(PutI32(sel.ndx));
    }
    ghost var flags := if version >= 29 && sel.ndx >= 0 then PutU16(sel.iflags % U16) else [];
    if version >= 29 && sel.ndx >= 0 {
      w.Write(PutU16(sel.iflags % U16));
    } else {
      NoBytes(w.buf);
    }
    ghost var b := if BasisFollows(sel.iflags) then [sel.basisType] else [];
    if BasisFollows(sel.iflags) {
      w.Write([sel.basisType]);
    } else {
      NoBytes(w.buf);
    }
    ok := true;
    if XnameFollows(sel.iflags) {
      ok := WriteVstring(w, sel.xname);
    } else {
      NoBytes(w.buf);
    }
    if ok {
      ghost var x := if XnameFollows(sel.iflags) then PutVstring(sel.xname) else [];
      Assoc(start + i, flags, b);
      Assoc(start + i, flags + b, x);
      Assoc(flags, b, x);
      Assoc(start, i, flags + (b + x));
    }
  }

  method ReadIndex30(r: Stream, ndx: NdxState, version: int) returns (res: Read<int32>)
    modifies r, ndx
    ensures var spec := GetIndex30(version, old(ndx.State()), old(r.buf));
      if spec.Got? then res == Got(spec.value.0, spec.rest) && ndx.State() == spec.value.1 && r.buf == spec.rest
      else res == spec.PropagateFailure<int32>()
  {
    if version >= 30 {
      res := ndx.ReadNdx(r);
    } else {
      res := GetI32(r.buf);
      if res.Got? {
        r.buf := res.rest;
      }
    }
  }

  method ReadSelector(r: Stream, ndx: NdxState, version: int) returns (res: Read<Selector>)
    modifies r, ndx
    ensures var spec := GetSelector(version, old(ndx.State()), old(r.buf));
      if spec.Got? then res == Got(spec.value.0, spec.rest) && ndx.State() == spec.value.1 && r.buf == spec.rest
      else res == spec.PropagateFailure<Selector>()
  {
    var i := ReadIndex30(r, ndx, version);
    if !i.Got? {
      return i.PropagateFailure();
    }
    var f := GetFlags(version, i.value, r.buf);
    if !f.Got? {
      return f.PropagateFailure();
    }
    r.buf := f.rest;
    res := GetOptional(i.value, f.value, r.buf);
    if res.Got? {
      r.buf := res.rest;
    }
  }
}
