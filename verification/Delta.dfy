/** The delta token stream (protocol/delta.go).

    A delta rebuilds a file from literal bytes and references to blocks of a
    basis the receiver already has. The writer cuts literals into pieces of at
    most CHUNK bytes; the reader also accepts longer literals from a peer and
    hands them out in such pieces, keeping the rest as its residue.
 */
module Delta {
  import opened Bytes
  import opened WireInts

  const CHUNK: nat := 32768

  datatype Token = Literal(data: seq<byte>) | Match(idx: int)

  /** What a token list means against a basis of blocks. */
  function Rebuild(ts: seq<Token>, basis: int -> seq<byte>): (file: seq<byte>) {
    if ts == [] then []
    else (match ts[0] case Literal(d) => d case Match(i) => basis(i)) + Rebuild(ts[1..], basis)
  }

  lemma {:induction false} RebuildConcat(a: seq<Token>, b: seq<Token>, basis: int -> seq<byte>)
    ensures Rebuild(a + b, basis) == Rebuild(a, basis) + Rebuild(b, basis)
  {
    if a == [] {
      assert a + b == b;
    } else {
      assert (a + b)[1..] == a[1..] + b;
      RebuildConcat(a[1..], b, basis);
    }
  }

  lemma RebuildSnoc(ts: seq<Token>, t: Token, basis: int -> seq<byte>)
    ensures Rebuild(ts + [t], basis) == Rebuild(ts, basis) + match t case Literal(d) => d case Match(i) => basis(i)
  {
    RebuildConcat(ts, [t], basis);
    assert [t][1..] == [];
    assert Rebuild([t][1..], basis) == [];
  }

  // -------------------------------------------------------------------- cutting

  /** A literal as the pieces that travel: none when it is empty. */
  function Pieces(d: seq<byte>): (ts: seq<Token>) {
    if d == [] then [] else var n := Min(|d|, CHUNK); [Literal(d[..n])] + Pieces(d[n..])
  }

  function Cut(ts: seq<Token>): (r: seq<Token>) {
    if ts == [] then []
    else (match ts[0] case Literal(d) => Pieces(d) case Match(i) => [ts[0]]) + Cut(ts[1..])
  }

  lemma {:induction false} PiecesMean(d: seq<byte>, basis: int -> seq<byte>)
    ensures Rebuild(Pieces(d), basis) == d
    ensures forall t :: t in Pieces(d) ==> t.Literal? && 0 < |t.data| <= CHUNK
  {
    if d != [] {
      var n := Min(|d|, CHUNK);
      PiecesMean(d[n..], basis);
      assert Pieces(d)[1..] == Pieces(d[n..]);
      assert d == d[..n] + d[n..];
    }
  }

  /** Cutting keeps the meaning against every basis, keeps the matches, and
      leaves no piece empty or longer than CHUNK. */
  lemma {:induction false} CutMeans(ts: seq<Token>, basis: int -> seq<byte>)
    ensures Rebuild(Cut(ts), basis) == Rebuild(ts, basis)
    ensures forall t :: t in Cut(ts) && t.Literal? ==> 0 < |t.data| <= CHUNK
    ensures forall i :: Match(i) in Cut(ts) <==> Match(i) in ts
  {
    if ts != [] {
      CutMeans(ts[1..], basis);
      match ts[0] {
        case Literal(d) =>
          PiecesMean(d, basis);
          RebuildConcat(Pieces(d), Cut(ts[1..]), basis);
        case Match(i) =>
          RebuildConcat([ts[0]], Cut(ts[1..]), basis);
          assert Rebuild([ts[0]], basis) == basis(i) by { assert [ts[0]][1..] == []; }
      }
      assert ts == [ts[0]] + ts[1..];
    }
  }

  // ------------------------------------------------------------------- the wire

  /** A token a peer can put on the wire as it stands. */
  predicate Sendable(t: Token) {
    match t
    case Literal(d) => 0 < |d| < U31
    case Match(i) => 0 <= i < U31
  }

  function PutToken(t: Token): seq<byte>
    requires Sendable(t)
  {
    match t
    case Literal(d) => PutI32(|d|) + d
    case Match(i) => PutI32(-i - 1)
  }

  function PutTokens(ts: seq<Token>): seq<byte>
    requires forall t :: t in ts ==> Sendable(t)
  {
    if ts == [] then [] else PutToken(ts[0]) + PutTokens(ts[1..])
  }

  /** A whole stream: the tokens and the end marker. */
  function PutStream(ts: seq<Token>): seq<byte>
    requires forall t :: t in ts ==> Sendable(t)
  {
    PutTokens(ts) + PutI32(0)
  }

  lemma {:induction false} PutTokensConcat(a: seq<Token>, b: seq<Token>)
    requires forall t :: t in a ==> Sendable(t)
    requires forall t :: t in b ==> Sendable(t)
    ensures forall t :: t in a + b ==> Sendable(t)
    ensures PutTokens(a + b) == PutTokens(a) + PutTokens(b)
  {
    if a == [] {
      assert a + b == b;
    } else {
      assert (a + b)[1..] == a[1..] + b;
      PutTokensConcat(a[1..], b);
    }
  }

  /** WriteLiteral's bytes: a length and a piece, over and over. */
  function PutLiteral(d: seq<byte>): seq<byte> {
    if d == [] then []
    else var n := Min(|d|, CHUNK); PutI32(n) + d[..n] + PutLiteral(d[n..])
  }

  lemma {:induction false} PutLiteralPieces(d: seq<byte>)
    ensures forall t :: t in Pieces(d) ==> Sendable(t)
    ensures PutLiteral(d) == PutTokens(Pieces(d))
  {
    PiecesMean(d, _ => []);
    if d != [] {
      var n := Min(|d|, CHUNK);
      PutLiteralPieces(d[n..]);
      assert Pieces(d)[1..] == Pieces(d[n..]);
    }
  }

  lemma CutSendable(ts: seq<Token>)
    requires forall i :: Match(i) in ts ==> 0 <= i < U31
    ensures forall t :: t in Cut(ts) ==> Sendable(t)
  {
    CutMeans(ts, _ => []);
    forall t | t in Cut(ts) ensures Sendable(t) {
      if t.Match? {
        assert t == Match(t.idx);
      }
    }
  }

  /** The first token's share of what WriteDeltaStream writes. */
  lemma PutCutStep(ts: seq<Token>)
    requires ts != [] && forall t :: t in Cut(ts) ==> Sendable(t)
    ensures forall t :: t in Cut(ts[1..]) ==> Sendable(t)
    ensures match ts[0]
      case Literal(d) => PutTokens(Cut(ts)) == PutLiteral(d) + PutTokens(Cut(ts[1..]))
      case Match(i) => 0 <= i < U31 && PutTokens(Cut(ts)) == PutToken(ts[0]) + PutTokens(Cut(ts[1..]))
  {
    forall t | t in Cut(ts[1..]) ensures Sendable(t) {
      assert t in Cut(ts);
    }
    match ts[0]
    case Literal(d) =>
      PutLiteralPieces(d);
      PutTokensConcat(Pieces(d), Cut(ts[1..]));
    case Match(i) =>
      assert Cut(ts) == [ts[0]] + Cut(ts[1..]);
      assert ts[0] in Cut(ts);
      assert Cut(ts)[1..] == Cut(ts[1..]);
  }

  /** Every block reference fits the wire. */
  ghost predicate Indexable(ts: seq<Token>) {
    forall i :: Match(i) in ts ==> 0 <= i < U31
  }

  /** What WriteLiteral or WriteMatch writes for one token. */
  function Out(t: Token): seq<byte> {
    match t
    case Literal(d) => PutLiteral(d)
    case Match(i) => LE(4, Wrap32(-i - 1))
  }

  /** What a writer given these tokens one by one has written. */
  function Written(ts: seq<Token>): seq<byte> {
    if ts == [] then [] else Written(ts[..|ts| - 1]) + Out(ts[|ts| - 1])
  }

  lemma WrittenSnoc(ts: seq<Token>, t: Token)
    ensures Written(ts + [t]) == Written(ts) + Out(t)
  {
    assert (ts + [t])[..|ts|] == ts;
  }

  lemma {:induction false} WrittenConcat(a: seq<Token>, b: seq<Token>)
    ensures Written(a + b) == Written(a) + Written(b)
  {
    if b == [] {
      assert a + b == a;
    } else {
      var init, t := b[..|b| - 1], b[|b| - 1];
      assert a + b == (a + init) + [t];
      WrittenSnoc(a + init, t);
      WrittenConcat(a, init);
      Assoc(Written(a), Written(init), Out(t));
    }
  }

  lemma WrittenCons(t: Token, ts: seq<Token>)
    ensures Written([t] + ts) == Out(t) + Written(ts)
  {
    WrittenConcat([t], ts);
    WrittenSnoc([], t);
    assert [] + [t] == [t];
    assert [] + Out(t) == Out(t);
  }

  lemma {:induction false} WrittenIsCut(ts: seq<Token>)
    requires Indexable(ts)
    ensures forall t :: t in Cut(ts) ==> Sendable(t)
    ensures Written(ts) == PutTokens(Cut(ts))
  {
    CutSendable(ts);
    if ts != [] {
      assert forall i :: Match(i) in ts[1..] ==> Match(i) in ts;
      WrittenIsCut(ts[1..]);
      PutCutStep(ts);
      WrittenCons(ts[0], ts[1..]);
      assert ts == [ts[0]] + ts[1..];
    }
  }

  /** What ReadToken hands out. */
  datatype Item = Data(data: seq<byte>) | Ref(idx: int) | End

  /** The next piece of the current literal, and the residue left of it. */
  function GetPiece(residue: nat, s: seq<byte>): Read<(Item, nat)> {
    var n := Min(residue, CHUNK);
    var (d, s1) :- Take(s, n);
    Got((Data(d), residue - n), s1)
  }

  function GetItem(residue: nat, s: seq<byte>): Read<(Item, nat)> {
    if residue > 0 then GetPiece(residue, s)
    else
      var (v, s1) :- GetI32(s);
      if v == 0 then Got((End, 0), s1)
      else if v < 0 then Got((Ref(Signed32(-(v as int) - 1)), 0), s1)
      else GetPiece(v, s1)
  }

  lemma GetItemConsumes(residue: nat, s: seq<byte>)
    ensures GetItem(residue, s).Got? ==> |GetItem(residue, s).rest| < |s|
  {
  }

  /** ParseDeltaStream, from a reader with the given residue. */
  function Parse(residue: nat, s: seq<byte>): Read<seq<Token>>
    decreases |s|
  {
    GetItemConsumes(residue, s);
    var (x, s1) :- GetItem(residue, s);
    match x.0
    case End => Got([], s1)
    case Data(d) => Prepend([Literal(d)], Parse(x.1, s1))
    case Ref(i) => Prepend([Match(i)], Parse(x.1, s1))
  }

  // ----------------------------------------------------------------- round trips

  /** Parsing, after a first piece of a literal. */
  lemma {:induction false} ParsePiece(residue: nat, s: seq<byte>, d: seq<byte>, left: nat, s1: seq<byte>,
                                      ts: seq<Token>, rest: seq<byte>)
    requires GetItem(residue, s) == Got((Data(d), left), s1) && Parse(left, s1) == Got(ts, rest)
    ensures Parse(residue, s) == Got([Literal(d)] + ts, rest)
  {
  }

  lemma {:induction false} PieceFirst(d: seq<byte>, s: seq<byte>, n: nat)
    requires d != [] && n == Min(|d|, CHUNK)
    ensures GetItem(|d|, d + s) == Got((Data(d[..n]), |d| - n), d[n..] + s)
  {
    assert d == d[..n] + d[n..];
    Assoc(d[..n], d[n..], s);
    TakePrefix(d[..n], d[n..] + s);
  }

  lemma {:induction false} TokensAssoc(a: seq<Token>, b: seq<Token>, c: seq<Token>)
    ensures (a + b) + c == a + (b + c)
  {
  }

  /** A residue is drained in order and in full before the next token. */
  lemma {:induction false} ParseDrains(d: seq<byte>, s: seq<byte>, ts: seq<Token>, rest: seq<byte>)
    requires Parse(0, s) == Got(ts, rest)
    ensures Parse(|d|, d + s) == Got(Pieces(d) + ts, rest)
    decreases |d|
  {
    if d == [] {
      NoBytes(s);
      assert [] + ts == ts;
    } else {
      var n := Min(|d|, CHUNK);
      PieceFirst(d, s, n);
      ParseDrains(d[n..], s, ts, rest);
      ParsePiece(|d|, d + s, d[..n], |d| - n, d[n..] + s, Pieces(d[n..]) + ts, rest);
      TokensAssoc([Literal(d[..n])], Pieces(d[n..]), ts);
    }
  }

  /** A header opens a literal: from there on it is a residue. */
  lemma {:induction false} ParseHeader(s: seq<byte>, n: int32, s1: seq<byte>)
    requires n > 0 && GetI32(s) == Got(n, s1)
    ensures Parse(0, s) == Parse(n, s1)
  {
    assert GetItem(0, s) == GetItem(n, s1);
  }

  lemma {:induction false} ParseLiteral(d: seq<byte>, s: seq<byte>, ts: seq<Token>, rest: seq<byte>)
    requires 0 < |d| < U31
    requires Parse(0, s) == Got(ts, rest)
    ensures Parse(0, PutI32(|d|) + d + s) == Got(Pieces(d) + ts, rest)
  {
    ParseDrains(d, s, ts, rest);
    I32RoundTrip(|d|, d + s);
    Assoc(PutI32(|d|), d, s);
    ParseHeader(PutI32(|d|) + d + s, |d|, d + s);
  }

  /** Block indices up to 2^31 - 1 survive, although the largest one is the
      int32 whose negation wraps. */
  lemma {:induction false} ParseMatch(i: int, s: seq<byte>, ts: seq<Token>, rest: seq<byte>)
    requires 0 <= i < U31
    requires Parse(0, s) == Got(ts, rest)
    ensures Parse(0, PutI32(-i - 1) + s) == Got([Match(i)] + ts, rest)
  {
    I32RoundTrip(-i - 1, s);
    NegatedIndex(i);
    ParseRef(PutI32(-i - 1) + s, -i - 1, s, i, ts, rest);
  }

  lemma NegatedIndex(i: int)
    requires 0 <= i < U31
    ensures Signed32(-(-i - 1) - 1) == i
  {
    SmallSigned(i);
  }

  lemma {:induction false} ParseRef(wire: seq<byte>, v: int32, s: seq<byte>, i: int, ts: seq<Token>, rest: seq<byte>)
    requires v < 0 && GetI32(wire) == Got(v, s) && Signed32(-(v as int) - 1) == i
    requires Parse(0, s) == Got(ts, rest)
    ensures Parse(0, wire) == Got([Match(i)] + ts, rest)
  {
    assert GetItem(0, wire) == Got((Ref(i), 0), s);
  }

  lemma {:induction false} ParseEnd(rest: seq<byte>)
    ensures Parse(0, PutI32(0) + rest) == Got([], rest)
  {
    I32RoundTrip(0, rest);
    assert GetItem(0, PutI32(0) + rest) == Got((End, 0), rest);
  }

  /** Whatever tokens a peer sends, literals of any length included, parsing
      returns them cut into pieces, in order, with nothing lost, and stops
      right after the end marker. */
  lemma {:induction false} ParseOfStream(ts: seq<Token>, rest: seq<byte>)
    requires forall t :: t in ts ==> Sendable(t)
    ensures Parse(0, PutStream(ts) + rest) == Got(Cut(ts), rest)
  {
    if ts == [] {
      NoBytes(PutI32(0));
      ParseEnd(rest);
    } else {
      ParseOfStream(ts[1..], rest);
      assert Sendable(ts[0]);
      StreamCons(ts, rest);
      ParseToken(ts[0], PutStream(ts[1..]) + rest, Cut(ts[1..]), rest);
    }
  }

  lemma {:induction false} StreamCons(ts: seq<Token>, rest: seq<byte>)
    requires ts != [] && forall t :: t in ts ==> Sendable(t)
    ensures Sendable(ts[0]) && forall t :: t in ts[1..] ==> Sendable(t)
    ensures PutStream(ts) + rest == PutToken(ts[0]) + (PutStream(ts[1..]) + rest)
  {
    assert forall t :: t in ts[1..] ==> t in ts;
    Assoc(PutToken(ts[0]), PutTokens(ts[1..]), PutI32(0));
    Assoc(PutToken(ts[0]), PutStream(ts[1..]), rest);
  }

  /** One token in front of a stream that parses. */
  lemma {:induction false} ParseToken(t: Token, s: seq<byte>, ts: seq<Token>, rest: seq<byte>)
    requires Sendable(t) && Parse(0, s) == Got(ts, rest)
    ensures Parse(0, PutToken(t) + s)
         == Got((match t case Literal(d) => Pieces(d) case Match(i) => [t]) + ts, rest)
  {
    match t
    case Literal(d) => ParseLiteral(d, s, ts, rest);
    case Match(i) => ParseMatch(i, s, ts, rest);
  }

  /** The writer's side: any list of tokens with indices in range, written by
      WriteDeltaStream and parsed again, means the same against every basis. */
  lemma StreamRoundTrip(ts: seq<Token>, basis: int -> seq<byte>, rest: seq<byte>)
    requires forall i :: Match(i) in ts ==> 0 <= i < U31
    ensures forall t :: t in Cut(ts) ==> Sendable(t)
    ensures var r := Parse(0, PutStream(Cut(ts)) + rest);
      r.Got? && r.rest == rest && Rebuild(r.value, basis) == Rebuild(ts, basis)
  {
    CutMeans(ts, basis);
    CutSendable(ts);
    ParseOfStream(Cut(ts), rest);
    CutMeans(Cut(ts), basis);
  }

  // ------------------------------------------------------------------ the objects

  class DeltaWriter {
    const w: Stream

    constructor (w: Stream)
      ensures this.w == w
    {
      this.w := w;
    }

    method WriteLiteral(data: seq<byte>)
      modifies w
      ensures w.buf == old(w.buf) + PutLiteral(data)
    {
      var rest := data;
      while rest != []
        invariant w.buf + PutLiteral(rest) == old(w.buf) + PutLiteral(data)
        decreases |rest|
      {
        var n := Min(|rest|, CHUNK);
        ghost var before := w.buf;
        w.Write(PutI32(n));
        w.Write(rest[..n]);
        Assoc3(before, PutI32(n), rest[..n], PutLiteral(rest[n..]));
        rest := rest[n..];
      }
      assert w.buf + [] == w.buf;
    }

    method WriteMatch(i: int)
      requires 0 <= i < U31
      modifies w
      ensures w.buf == old(w.buf) + PutToken(Match(i))
    {
      w.Write(PutI32(-i - 1));
    }

    method WriteEnd()
      modifies w
      ensures w.buf == old(w.buf) + PutI32(0)
    {
      w.Write(PutI32(0));
    }
  }

  method WriteDeltaStream(w: Stream, ts: seq<Token>)
    requires forall i :: Match(i) in ts ==> 0 <= i < U31
    modifies w
    ensures forall t :: t in Cut(ts) ==> Sendable(t)
    ensures w.buf == old(w.buf) + PutStream(Cut(ts))
  {
    var dw := new DeltaWriter(w);
    CutSendable(ts);
    assert ts[0..] == ts;
    for k := 0 to |ts|
      invariant forall t :: t in Cut(ts[k..]) ==> Sendable(t)
      invariant w.buf + PutTokens(Cut(ts[k..])) == old(w.buf) + PutTokens(Cut(ts))
    {
      assert ts[k..][0] == ts[k] && ts[k..][1..] == ts[k + 1..];
      PutCutStep(ts[k..]);
      ghost var before, rest := w.buf, PutTokens(Cut(ts[k + 1..]));
      match ts[k] {
        case Literal(d) =>
          dw.WriteLiteral(d);
          Assoc(before, PutLiteral(d), rest);
        case Match(i) =>
          dw.WriteMatch(i);
          Assoc(before, PutToken(ts[k]), rest);
      }
    }
    assert w.buf + [] == w.buf;
    dw.WriteEnd();
    Assoc(old(w.buf), PutTokens(Cut(ts)), PutI32(0));
  }

  class DeltaReader {
    const r: Stream
    var residue: nat
    var buf: array<byte>
    var bufOff: nat

    /** The part of buf still to be filled is exactly the residue. */
    ghost predicate Valid()
      reads this
    {
      bufOff + residue == buf.Length
    }

    constructor (r: Stream)
      ensures Valid() && fresh(buf)
      ensures this.r == r && residue == 0
    {
      this.r := r;
      residue, bufOff := 0, 0;
      buf := new byte[0];
    }

    method ReadToken() returns (res: Read<Item>)
      requires Valid()
      modifies this, r, buf
      ensures Valid() && (buf == old(buf) || fresh(buf))
      ensures var spec := GetItem(old(residue), old(r.buf));
        if spec.Got? then res == Got(spec.value.0, spec.rest) && residue == spec.value.1 && r.buf == spec.rest
        else res == spec.PropagateFailure<Item>()
    {
      if residue == 0 {
        var hdr := r.ReadFull(4);
        if !hdr.Got? {
          return hdr.PropagateFailure();
        }
        Pow256Values();
        var val := Signed32(FromLE(hdr.value));
        if val == 0 {
          return Got(End, r.buf);
        }
        if val < 0 {
          return Got(Ref(Signed32(-(val as int) - 1)), r.buf);
        }
        residue, buf, bufOff := val, new byte[val], 0;
      }
      res := NextPiece();
    }

    /** Fills the next stretch of buf and hands it out. */
    method NextPiece() returns (res: Read<Item>)
      requires Valid() && residue > 0
      modifies this, r, buf
      ensures Valid() && (buf == old(buf) || fresh(buf))
      ensures var spec := GetPiece(old(residue), old(r.buf));
        if spec.Got? then res == Got(spec.value.0, spec.rest) && residue == spec.value.1 && r.buf == spec.rest
        else res == spec.PropagateFailure<Item>()
    {
      var n := Min(residue, CHUNK);
      var piece := r.ReadFull(n);
      if !piece.Got? {
        residue, bufOff, buf := 0, 0, new byte[0];
        return piece.PropagateFailure();
      }
      forall i | 0 <= i < n {
        buf[bufOff + i] := piece.value[i];
      }
      assert buf[bufOff..bufOff + n] == piece.value;
      res := Got(Data(buf[bufOff..bufOff + n]), r.buf);
      residue, bufOff := residue - n, bufOff + n;
    }
  }

  method ParseDeltaStream(r: Stream) returns (res: Read<seq<Token>>)
    modifies r
    ensures res == Parse(0, old(r.buf))
    ensures res.Got? ==> r.buf == res.rest
  {
    var dr := new DeltaReader(r);
    var tokens: seq<Token> := [];
    ghost var all := Parse(0, r.buf);
    PrependNone(all);
    while true
      invariant dr.Valid() && dr.r == r && fresh(dr) && fresh(dr.buf)
      invariant all == Prepend(tokens, Parse(dr.residue, r.buf))
      decreases |r.buf|
    {
      GetItemConsumes(dr.residue, r.buf);
      var item := dr.ReadToken();
      if !item.Got? {
        return item.PropagateFailure();
      }
      match item.value {
        case End =>
          assert tokens + [] == tokens;
          return Got(tokens, r.buf);
        case Data(d) =>
          PrependConcat(tokens, [Literal(d)], Parse(dr.residue, r.buf));
          tokens := tokens + [Literal(d)];
        case Ref(i) =>
          PrependConcat(tokens, [Match(i)], Parse(dr.residue, r.buf));
          tokens := tokens + [Match(i)];
      }
    }
  }
}
