/** Sum heads and block sums (protocol/checksum.go, server-send.go receiveSums):
    the description of the blocks a client already has. */
module SumHeads {
  import opened Bytes
  import opened WireInts
  import opened HashSearch

  datatype SumHead = SumHead(count: int32, blength: int32, s2length: int32, remainder: int32)

  const NULL_HEAD: SumHead := SumHead(0, 0, 0, 0)

  function PutSumHead(version: int, sh: SumHead): seq<byte> {
    PutI32(sh.count) + (PutI32(sh.blength)
    + ((if version >= 27 then PutI32(sh.s2length) else []) + PutI32(sh.remainder)))
  }

  /** The guards of read_sum_head. The remainder is not among them. */
  predicate Acceptable(version: int, sh: SumHead) {
    && sh.count >= 0
    && 0 <= sh.blength <= (if version >= 30 then 0x2_0000 else 0x2000_0000)
    && !(sh.count > 0 && sh.blength == 0)
    && !(sh.blength > 0 && sh.count > 0x7FFF_FFFF / sh.blength)
    && (version >= 27 ==> 0 <= sh.s2length <= 16)
  }

  function GetSumHead(version: int, s: seq<byte>): Read<SumHead> {
    var (c, s1) :- GetI32(s);
    var (b, s2) :- GetI32(s1);
    var (l, s3) :- if version >= 27 then GetI32(s2) else Got(0, s2);
    var (m, s4) :- GetI32(s3);
    var sh := SumHead(c, b, l, m);
    if Acceptable(version, sh) then Got(sh, s4) else Invalid
  }

  /** The head as the version carries it. */
  function CarriedHead(version: int, sh: SumHead): SumHead {
    if version >= 27 then sh else sh.(s2length := 0)
  }

  /** A written head comes back, less the strong length that old versions do not
      carry, if it passes the guards, and is refused if it does not. */
  lemma SumHeadRoundTrip(version: int, sh: SumHead, rest: seq<byte>)
    ensures GetSumHead(version, PutSumHead(version, sh) + rest)
         == if Acceptable(version, CarriedHead(version, sh)) then Got(CarriedHead(version, sh), rest) else Invalid
  {
    var c, b, m := PutI32(sh.count), PutI32(sh.blength), PutI32(sh.remainder);
    var l := if version >= 27 then PutI32(sh.s2length) else [];
    Assoc(c, b + (l + m), rest);
    Assoc(b, l + m, rest);
    Assoc(l, m, rest);
    I32RoundTrip(sh.count, b + (l + (m + rest)));
    I32RoundTrip(sh.blength, l + (m + rest));
    if version >= 27 {
      I32RoundTrip(sh.s2length, m + rest);
    } else {
      assert l + (m + rest) == m + rest;
    }
    I32RoundTrip(sh.remainder, rest);
  }

  /** One block of one byte, with a remainder of -1. */
  const NEGATIVE_HEAD: SumHead := SumHead(1, 1, 0, -1)

  /** Such a head passes the guards. */
  lemma {:induction false} NegativeRemainderAccepted(version: int, rest: seq<byte>)
    ensures GetSumHead(version, PutSumHead(version, NEGATIVE_HEAD) + rest) == Got(NEGATIVE_HEAD, rest)
  {
    SumHeadRoundTrip(version, NEGATIVE_HEAD, rest);
  }

  // ------------------------------------------------------------------- block sums

  /** n block sums with a digest of s2len bytes each. */
  function GetBlocks(n: nat, s2len: nat, blen: int32, s: seq<byte>): Read<seq<BlockSum>> {
    if n == 0 then Got([], s)
    else
      var (s1, r1) :- GetU32(s);
      var (s2, r2) :- Take(r1, s2len);
      var (bs, r3) :- GetBlocks(n - 1, s2len, blen, r2);
      Got([BlockSum(s1, s2, blen)] + bs, r3)
  }

  /** The last block has the remainder's length when there is a remainder. */
  function WithRemainder(bs: seq<BlockSum>, remainder: int32): seq<BlockSum> {
    if remainder != 0 && bs != [] then bs[|bs| - 1 := bs[|bs| - 1].(len := remainder)] else bs
  }

  function DigestLength(sh: SumHead): nat {
    if sh.s2length <= 0 then 16 else sh.s2length
  }

  function GetSums(version: int, s: seq<byte>): Read<(SumHead, seq<BlockSum>)> {
    var (sh, s1) :- GetSumHead(version, s);
    if sh.count <= 0 then Got((sh, []), s1)
    else
      var (bs, s2) :- GetBlocks(sh.count, DigestLength(sh), sh.blength, s1);
      Got((sh, WithRemainder(bs, sh.remainder)), s2)
  }

  lemma {:induction false} BlocksUniform(n: nat, s2len: nat, blen: int32, s: seq<byte>)
    ensures var r := GetBlocks(n, s2len, blen, s);
      r.Got? ==> |r.value| == n && forall i :: 0 <= i < n ==> r.value[i].len == blen
  {
    if n > 0 && GetU32(s).Got? && Take(GetU32(s).rest, s2len).Got? {
      BlocksUniform(n - 1, s2len, blen, Take(GetU32(s).rest, s2len).rest);
    }
  }

  /** Uniform blocks under an accepted head. */
  lemma {:induction false} UniformSearchable(version: int, sh: SumHead, bs: seq<BlockSum>)
    requires Acceptable(version, sh) && |bs| == sh.count > 0
    requires forall i :: 0 <= i < |bs| ==> bs[i].len == sh.blength
    ensures var sums := WithRemainder(bs, sh.remainder);
      && sh.blength > 0 && FromPeer(sums, sh.blength)
      && (sums[|sums| - 1].len > 0 <==> sh.remainder >= 0)
  {
  }

  /** Whatever bytes the peer sends, sums that are accepted are as the search
      requires them, and the search stays in bounds on them unless the peer sent
      a negative remainder. */
  lemma {:induction false} AcceptedSumsSearchable(version: int, s: seq<byte>)
    ensures var r := GetSums(version, s);
      r.Got? && r.value.0.count > 0 ==>
        && r.value.0.blength > 0 && FromPeer(r.value.1, r.value.0.blength)
        && (r.value.1[|r.value.1| - 1].len > 0 <==> r.value.0.remainder >= 0)
  {
    var h := GetSumHead(version, s);
    if h.Got? && h.value.count > 0 {
      var sh := h.value;
      var bs := GetBlocks(sh.count, DigestLength(sh), sh.blength, h.rest);
      BlocksUniform(sh.count, DigestLength(sh), sh.blength, h.rest);
      HeadGuarded(version, s);
      if bs.Got? {
        UniformSearchable(version, sh, bs.value);
      }
    }
  }

  lemma {:induction false} HeadGuarded(version: int, s: seq<byte>)
    ensures GetSumHead(version, s).Got? ==> Acceptable(version, GetSumHead(version, s).value)
  {
  }

  /** receiveSums: the head, then the loop over the blocks. */
  method ReceiveSums(r: Stream, version: int) returns (res: Read<(SumHead, seq<BlockSum>)>)
    modifies r
    ensures res == GetSums(version, old(r.buf))
    ensures res.Got? ==> r.buf == res.rest
  {
    var head := GetSumHead(version, r.buf);
    if !head.Got? {
      return head.PropagateFailure();
    }
    r.buf := head.rest;
    var sh := head.value;
    if sh.count <= 0 {
      return Got((sh, []), r.buf);
    }
    var blocks := ReadBlocks(r, sh.count, DigestLength(sh), sh.blength);
    if !blocks.Got? {
      return blocks.PropagateFailure();
    }
    return Got((sh, WithRemainder(blocks.value, sh.remainder)), r.buf);
  }

  method ReadBlocks(r: Stream, n: nat, s2len: nat, blen: int32) returns (res: Read<seq<BlockSum>>)
    modifies r
    ensures res == GetBlocks(n, s2len, blen, old(r.buf))
    ensures res.Got? ==> r.buf == res.rest
  {
    var sums: seq<BlockSum> := [];
    ghost var all := GetBlocks(n, s2len, blen, r.buf);
    PrependNone(all);
    for i := 0 to n
      invariant all == Prepend(sums, GetBlocks(n - i, s2len, blen, r.buf))
    {
      var s1 := GetU32(r.buf);
      if !s1.Got? {
        return s1.PropagateFailure();
      }
      r.buf := s1.rest;
      var s2 := r.ReadFull(s2len);
      if !s2.Got? {
        return s2.PropagateFailure();
      }
      var b := BlockSum(s1.value, s2.value, blen);
      PrependConcat(sums, [b], GetBlocks(n - i - 1, s2len, blen, r.buf));
      sums := sums + [b];
    }
    assert sums + [] == sums;
    return Got(sums, r.buf);
  }
}
