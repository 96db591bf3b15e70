/** The delta search (server-send.go hashSearch and matchSums).

    A window slides over the data; its rolling checksum picks a bucket of a hash
    table over the client's block checksums, and a block that passes the weak,
    length and strong tests replaces the window by a reference. The strong hash
    is a parameter. The results are that the search writes exactly the tokens of a
    plain search that scans all blocks at every offset, that those tokens rebuild
    the data, that the rolled sums are the sums of the window, and exactly when an
    index leaves its bounds.
 */
module HashSearch {
  import opened Bytes
  import opened Delta
  import opened RollingSum
  import opened Windows
  import opened WeakTest

  const TABLE_SIZE: nat := 65536

  datatype BlockSum = BlockSum(sum1: uint32, sum2: seq<byte>, len: int32)

  /** The strong hash: data and digest length to digest. */
  type Strong = (seq<byte>, nat) -> seq<byte>

  /** SUM2HASH2: the two halves folded together. */
  function Fold(sum1: uint32): (e: nat)
    ensures e < TABLE_SIZE
  {
    (sum1 % U16 + sum1 / U16) % U16
  }

  // ------------------------------------------------------------- table and chain

  /** The last block before n in bucket e, or -1: a linear scan. */
  function LastInBucket(sums: seq<BlockSum>, n: nat, e: int): (i: int)
    requires n <= |sums|
    ensures -1 <= i < n
    ensures i >= 0 ==> Fold(sums[i].sum1) == e
  {
    if n == 0 then -1 else if Fold(sums[n - 1].sum1) == e then n - 1 else LastInBucket(sums, n - 1, e)
  }

  lemma {:induction false} NoneAfterLast(sums: seq<BlockSum>, n: nat, e: int, j: nat)
    requires n <= |sums| && LastInBucket(sums, n, e) < j < n
    ensures Fold(sums[j].sum1) != e
  {
    if j < n - 1 {
      NoneAfterLast(sums, n - 1, e, j);
    }
  }

  /** The table and the chain after the first n blocks, as the loop leaves them. */
  function Table(sums: seq<BlockSum>, n: nat): (t: seq<int>)
    requires n <= |sums|
    ensures |t| == TABLE_SIZE
  {
    if n == 0 then seq(TABLE_SIZE, _ => -1) else Table(sums, n - 1)[Fold(sums[n - 1].sum1) := n - 1]
  }

  function Chain(sums: seq<BlockSum>, n: nat): (c: seq<int>)
    requires n <= |sums|
    ensures |c| == n
  {
    if n == 0 then [] else Chain(sums, n - 1) + [Table(sums, n - 1)[Fold(sums[n - 1].sum1)]]
  }

  lemma {:induction false} TableHolds(sums: seq<BlockSum>, n: nat, e: nat)
    requires n <= |sums| && e < TABLE_SIZE
    ensures Table(sums, n)[e] == LastInBucket(sums, n, e)
  {
    if n > 0 {
      TableHolds(sums, n - 1, e);
    }
  }

  lemma {:induction false} ChainHolds(sums: seq<BlockSum>, n: nat, i: nat)
    requires i < n <= |sums|
    ensures Chain(sums, n)[i] == LastInBucket(sums, i, Fold(sums[i].sum1))
  {
    if i == n - 1 {
      TableHolds(sums, i, Fold(sums[i].sum1));
    } else {
      ChainHolds(sums, n - 1, i);
    }
  }

  /** Fills table and chain in place; from then on they are only read. */
  method BuildIndex(sums: seq<BlockSum>) returns (table: seq<int>, chain: seq<int>)
    ensures table == Table(sums, |sums|) && chain == Chain(sums, |sums|)
  {
    var t := new int[TABLE_SIZE](_ => -1);
    var c := new int[|sums|](_ => -1);
    for i := 0 to |sums|
      invariant t[..] == Table(sums, i) && c[..i] == Chain(sums, i)
    {
      var entry := Fold(sums[i].sum1);
      assert t[entry] == t[..][entry];
      c[i] := t[entry];
      assert c[..i + 1] == c[..i] + [c[i]];
      t[entry] := i;
    }
    assert c[..] == c[..|sums|];
    return t[..], c[..];
  }

  /** The walk along the chain from block i. */
  function Walk(sums: seq<BlockSum>, i: int): seq<int>
    requires -1 <= i < |sums|
    decreases i
  {
    if i < 0 then [] else ChainHolds(sums, |sums|, i); [i] + Walk(sums, Chain(sums, |sums|)[i])
  }

  /** The blocks before n in bucket e, last first. */
  function Bucket(sums: seq<BlockSum>, n: nat, e: int): seq<int>
    requires n <= |sums|
  {
    if n == 0 then []
    else (if Fold(sums[n - 1].sum1) == e then [n - 1] else []) + Bucket(sums, n - 1, e)
  }

  lemma {:induction false} BucketFromLast(sums: seq<BlockSum>, n: nat, e: int)
    requires n <= |sums|
    ensures var i := LastInBucket(sums, n, e);
      Bucket(sums, n, e) == if i < 0 then [] else [i] + Bucket(sums, i, e)
  {
    if n > 0 && Fold(sums[n - 1].sum1) != e {
      BucketFromLast(sums, n - 1, e);
    }
  }

  lemma {:induction false} WalkFromLast(sums: seq<BlockSum>, n: nat, e: nat)
    requires n <= |sums| && e < TABLE_SIZE
    ensures Walk(sums, LastInBucket(sums, n, e)) == Bucket(sums, n, e)
    decreases n
  {
    BucketFromLast(sums, n, e);
    var i := LastInBucket(sums, n, e);
    if i >= 0 {
      ChainHolds(sums, |sums|, i);
      WalkFromLast(sums, i, e);
    }
  }

  /** The walk from a table entry visits the blocks of its bucket: all of them,
      only them, in strictly decreasing order. */
  lemma WalkIsBucket(sums: seq<BlockSum>, e: nat)
    requires e < TABLE_SIZE
    ensures -1 <= Table(sums, |sums|)[e] < |sums|
    ensures var walk := Walk(sums, Table(sums, |sums|)[e]);
      && (forall i :: i in walk <==> 0 <= i < |sums| && Fold(sums[i].sum1) == e)
      && (forall a, b :: 0 <= a < b < |walk| ==> walk[a] > walk[b])
  {
    TableHolds(sums, |sums|, e);
    WalkFromLast(sums, |sums|, e);
    BucketExact(sums, |sums|, e);
  }

  /** A bucket is the strictly decreasing list of exactly its blocks. */
  lemma {:induction false} BucketExact(sums: seq<BlockSum>, n: nat, e: int)
    requires n <= |sums|
    ensures forall i :: i in Bucket(sums, n, e) <==> 0 <= i < n && Fold(sums[i].sum1) == e
    ensures forall a, b :: 0 <= a < b < |Bucket(sums, n, e)| ==> Bucket(sums, n, e)[a] > Bucket(sums, n, e)[b]
  {
    if n > 0 {
      BucketExact(sums, n - 1, e);
      var rest := Bucket(sums, n - 1, e);
      forall a | 0 <= a < |rest| ensures rest[a] < n - 1 {
        assert rest[a] in rest;
      }
    }
  }

  // -------------------------------------------------------------------- the tests

  /** Block j passes every test against the window at offset. */
  predicate Hits(sums: seq<BlockSum>, j: nat, data: seq<byte>, blen: nat, offset: nat, s1: uint32, s2: uint32,
                 strong: Strong)
    requires j < |sums| && offset <= |data|
  {
    var w, s := Window(data, blen, offset), sums[j];
    && Fold(s.sum1) == (s1 + s2) % U16
    && s.sum1 == BitOr(s1, s2)
    && s.len == |w|
    && strong(w, |s.sum2|) == s.sum2
  }

  /** Between the bucket's last block before n and n itself nothing can hit. */
  lemma OthersMiss(sums: seq<BlockSum>, n: nat, data: seq<byte>, blen: nat, offset: nat, s1: uint32, s2: uint32,
                   strong: Strong)
    requires n <= |sums| && offset <= |data|
    ensures forall j :: LastInBucket(sums, n, (s1 + s2) % U16) < j < n ==>
      !Hits(sums, j, data, blen, offset, s1, s2, strong)
  {
    var e := (s1 + s2) % U16;
    forall j | LastInBucket(sums, n, e) < j < n ensures !Hits(sums, j, data, blen, offset, s1, s2, strong) {
      NoneAfterLast(sums, n, e, j);
    }
  }

  /** The chain walk finds exactly what a scan of all blocks from the last one
      down would find. */
  method FindMatch(table: seq<int>, chain: seq<int>, sums: seq<BlockSum>, data: seq<byte>, blen: nat, offset: nat,
                   s1: uint32, s2: uint32, strong: Strong) returns (m: int)
    requires table == Table(sums, |sums|) && chain == Chain(sums, |sums|)
    requires offset <= |data|
    ensures -1 <= m < |sums|
    ensures m >= 0 ==> Hits(sums, m, data, blen, offset, s1, s2, strong)
    ensures forall j :: m < j < |sums| ==> !Hits(sums, j, data, blen, offset, s1, s2, strong)
  {
    var e := (s1 + s2) % TABLE_SIZE;
    ghost var n: nat := |sums|;
    TableHolds(sums, |sums|, e);
    var i := table[e];
    while i >= 0
      invariant 0 <= n <= |sums| && i == LastInBucket(sums, n, e)
      invariant forall j :: n <= j < |sums| ==> !Hits(sums, j, data, blen, offset, s1, s2, strong)
      decreases i
    {
      OthersMiss(sums, n, data, blen, offset, s1, s2, strong);
      if Hits(sums, i, data, blen, offset, s1, s2, strong) {
        return i;
      }
      n := i;
      ChainHolds(sums, |sums|, i);
      i := chain[i];
    }
    OthersMiss(sums, n, data, blen, offset, s1, s2, strong);
    return -1;
  }

  /** The same by a scan of all blocks. */
  function LastHit(sums: seq<BlockSum>, n: nat, data: seq<byte>, blen: nat, p: Spot, strong: Strong): (m: int)
    requires n <= |sums| && p.offset <= |data|
    ensures -1 <= m < n
    ensures m >= 0 ==> Hits(sums, m, data, blen, p.offset, p.s1, p.s2, strong)
  {
    if n == 0 then -1
    else if Hits(sums, n - 1, data, blen, p.offset, p.s1, p.s2, strong) then n - 1
    else LastHit(sums, n - 1, data, blen, p, strong)
  }

  lemma {:induction false} LastHitIs(sums: seq<BlockSum>, n: nat, data: seq<byte>, blen: nat, p: Spot, strong: Strong,
                                     m: int)
    requires n <= |sums| && p.offset <= |data| && -1 <= m < n
    requires m >= 0 ==> Hits(sums, m, data, blen, p.offset, p.s1, p.s2, strong)
    requires forall j :: m < j < n ==> !Hits(sums, j, data, blen, p.offset, p.s1, p.s2, strong)
    ensures LastHit(sums, n, data, blen, p, strong) == m
  {
    if n > 0 && m < n - 1 {
      LastHitIs(sums, n - 1, data, blen, p, strong, m);
    }
  }

  /** Equal blocks share the window's bucket, whatever the unmasked sums are. */
  lemma EqualBlockInBucket(data: seq<byte>, blen: nat, offset: nat, k: nat, s1: uint32, s2: uint32, sum1: uint32)
    requires offset <= |data| && Rolled(data, blen, offset, k, s1, s2)
    requires sum1 == Packed(Window(data, blen, offset))
    ensures Fold(sum1) == (s1 + s2) % U16
  {
    var w := Window(data, blen, offset);
    FoldOfHalves(S1(w) % U16, S2(w) % U16, s1, s2);
  }

  lemma FoldOfHalves(a: nat, b: nat, s1: uint32, s2: uint32)
    requires a < U16 && b < U16 && s1 % U16 == a && s2 % U16 == b
    ensures Fold(a + U16 * b) == (s1 + s2) % U16
  {
    DivMod(a + U16 * b, U16, b, a);
    SumOfHalves(a, b, s1, s2);
  }

  lemma SumOfHalves(a: nat, b: nat, s1: nat, s2: nat)
    requires s1 % U16 == a && s2 % U16 == b
    ensures (a + b) % U16 == (s1 + s2) % U16
  {
    assert s1 + s2 == (a + b) + (s1 / U16 + s2 / U16) * U16;
  }

  /** The checksums are those of a block equal to w. */
  predicate Describes(s: BlockSum, w: seq<byte>, strong: Strong) {
    s.sum1 == Packed(w) && s.len == |w| && s.sum2 == strong(w, |s.sum2|)
  }

  /** A block equal to the window at a spot of the search, with its checksums right,
      passes all tests if and only if the weak test recognises it. */
  lemma {:induction false} EqualBlockHitsExactly(sums: seq<BlockSum>, j: nat, data: seq<byte>, blen: nat, a: nat,
                                                 n: nat, strong: Strong)
    requires j < |sums| && blen > 0 && a + n <= |data|
    requires Describes(sums[j], Window(data, blen, a + n), strong)
    ensures var p := SpotFrom(data, blen, a, n);
      Hits(sums, j, data, blen, p.offset, p.s1, p.s2, strong) <==> Recognised(data, blen, a, n)
  {
    SpotRolled(data, blen, a, n);
    EqualBlockPassesExactly(data, blen, a, n);
    HitsIfPasses(sums, j, data, blen, SpotFrom(data, blen, a, n), strong);
  }

  /** For an equal block only the weak test is left to decide. */
  lemma {:induction false} HitsIfPasses(sums: seq<BlockSum>, j: nat, data: seq<byte>, blen: nat, p: Spot,
                                        strong: Strong)
    requires j < |sums| && p.offset <= |data|
    requires Rolled(data, blen, p.offset, WindowLen(data, blen, p.offset), p.s1, p.s2)
    requires Describes(sums[j], Window(data, blen, p.offset), strong)
    ensures Hits(sums, j, data, blen, p.offset, p.s1, p.s2, strong) <==>
      BitOr(p.s1, p.s2) == Packed(Window(data, blen, p.offset))
  {
    EqualBlockInBucket(data, blen, p.offset, WindowLen(data, blen, p.offset), p.s1, p.s2, sums[j].sum1);
  }

  /** A one-byte file identical to its only block is not recognised. */
  lemma EqualBlockMissed(strong: Strong)
    ensures var s := BlockSum(Packed([1]), strong([1], 16), 1);
      !Hits([s], 0, [1], 1, 0, 1, 1, strong)
  {
    SnocSums([], 1);
    assert [] + [1] == [1];
    MaskedBlockPasses([1]);
  }

  // -------------------------------------------------------------- the plain search

  /** Block sums as receiveSums builds them: every block has the block length
      but the last, whose length is the remainder when that is not zero. */
  predicate FromPeer(sums: seq<BlockSum>, blen: nat) {
    && 0 < |sums| < U31 && 0 < blen
    && (forall i :: 0 <= i < |sums| - 1 ==> sums[i].len == blen)
    && sums[|sums| - 1].len != 0
  }

  /** Where the search stands, and up to where the data has been sent. */
  datatype Place = Place(spot: Spot, last: nat)

  predicate Within(data: seq<byte>, p: Place) {
    p.last <= p.spot.offset <= |data|
  }

  /** A stretch of the data as a literal, if there is any. */
  function Fill(data: seq<byte>, a: nat, b: nat): seq<Token>
    requires a <= b <= |data|
  {
    if a < b then [Literal(data[a..b])] else []
  }

  /** Whether unsent data is sent before a match is found. */
  predicate Early(blen: nat, end: int, offset: nat, last: nat) {
    offset - last >= blen + CHUNK && end - offset > CHUNK
  }

  /** From p to next: over a match of block m, or by one byte. */
  function Hop(data: seq<byte>, blen: nat, end: int, p: Place, m: int, next: nat): (r: (seq<Token>, Place))
    requires Within(data, p) && p.spot.offset < next <= |data| && (m < 0 ==> next == p.spot.offset + 1)
    ensures Within(data, r.1) && r.1.spot.offset == next && p.last <= r.1.last
  {
    var offset := p.spot.offset;
    if m >= 0 then
      (Fill(data, p.last, offset) + [Match(m)], Place(Shift(data, blen, Begin(data, blen, next - 1)), next))
    else
      var last := if Early(blen, end, offset, p.last) then offset - blen else p.last;
      (Fill(data, p.last, last), Place(Shift(data, blen, p.spot), last))
  }

  lemma {:induction false} HitFits(sums: seq<BlockSum>, m: nat, data: seq<byte>, blen: nat, p: Spot, strong: Strong)
    requires m < |sums| && p.offset <= |data| && FromPeer(sums, blen)
    requires Hits(sums, m, data, blen, p.offset, p.s1, p.s2, strong)
    ensures 0 < sums[m].len && p.offset + sums[m].len <= |data|
    ensures Window(data, blen, p.offset) == data[p.offset..p.offset + sums[m].len]
  {
  }

  /** One visit: scan all blocks for the last one that passes the tests, then hop. */
  function Visit(sums: seq<BlockSum>, data: seq<byte>, blen: nat, strong: Strong, p: Place): (r: (seq<Token>, Place))
    requires FromPeer(sums, blen) && Within(data, p) && p.spot.offset < |data|
    ensures Within(data, r.1) && p.spot.offset < r.1.spot.offset
  {
    var m := LastHit(sums, |sums|, data, blen, p.spot, strong);
    var end := |data| + 1 - sums[|sums| - 1].len;
    if m >= 0 then
      HitFits(sums, m, data, blen, p.spot, strong);
      Hop(data, blen, end, p, m, p.spot.offset + sums[m].len)
    else Hop(data, blen, end, p, m, p.spot.offset + 1)
  }

  /** The place after n visits, while there is data. */
  function PlaceAfter(sums: seq<BlockSum>, data: seq<byte>, blen: nat, strong: Strong, n: nat): (p: Place)
    requires FromPeer(sums, blen)
    ensures Within(data, p)
  {
    if n == 0 then Place(Begin(data, blen, 0), 0)
    else NextPlace(sums, data, blen, strong, PlaceAfter(sums, data, blen, strong, n - 1))
  }

  function NextPlace(sums: seq<BlockSum>, data: seq<byte>, blen: nat, strong: Strong, p: Place): (q: Place)
    requires FromPeer(sums, blen) && Within(data, p)
    ensures Within(data, q)
  {
    if p.spot.offset < |data| then Visit(sums, data, blen, strong, p).1 else p
  }

  /** Where the sums were last summed afresh: one byte before the end of the match, if
      the visit at p finds one, and as before if not. */
  function NextStart(sums: seq<BlockSum>, data: seq<byte>, blen: nat, strong: Strong, p: Place, a: nat): (b: nat)
    requires FromPeer(sums, blen) && Within(data, p) && a <= p.spot.offset
    ensures b <= NextPlace(sums, data, blen, strong, p).spot.offset
  {
    if p.spot.offset < |data| && LastHit(sums, |sums|, data, blen, p.spot, strong) >= 0
    then NextPlace(sums, data, blen, strong, p).spot.offset - 1
    else a
  }

  /** The last start before visit n: the beginning of the data, or one byte before the
      end of the last match. */
  function LastStart(sums: seq<BlockSum>, data: seq<byte>, blen: nat, strong: Strong, n: nat): (a: nat)
    requires FromPeer(sums, blen)
    ensures a <= PlaceAfter(sums, data, blen, strong, n).spot.offset
  {
    if n == 0 then 0
    else
      NextStart(sums, data, blen, strong, PlaceAfter(sums, data, blen, strong, n - 1),
                LastStart(sums, data, blen, strong, n - 1))
  }

  /** The spot at an offset, with the sums carried from the start at a. */
  function SpotSince(data: seq<byte>, blen: nat, a: nat, offset: nat): Spot
    requires a <= offset <= |data|
  {
    SpotFrom(data, blen, a, offset - a)
  }

  lemma {:induction false} ShiftSince(data: seq<byte>, blen: nat, a: nat, offset: nat)
    requires a <= offset < |data|
    ensures SpotSince(data, blen, a, offset + 1) == Shift(data, blen, SpotSince(data, blen, a, offset))
  {
  }

  lemma {:induction false} RestartSince(data: seq<byte>, blen: nat, a: nat)
    requires a < |data|
    ensures SpotSince(data, blen, a, a + 1) == Shift(data, blen, Begin(data, blen, a))
  {
    ShiftSince(data, blen, a, a);
  }

  lemma {:induction false} NextSince(sums: seq<BlockSum>, data: seq<byte>, blen: nat, strong: Strong, p: Place, a: nat)
    requires FromPeer(sums, blen) && Within(data, p) && a <= p.spot.offset
    requires p.spot == SpotSince(data, blen, a, p.spot.offset)
    ensures var q := NextPlace(sums, data, blen, strong, p).spot;
      q == SpotSince(data, blen, NextStart(sums, data, blen, strong, p, a), q.offset)
  {
    if p.spot.offset < |data| {
      var m := LastHit(sums, |sums|, data, blen, p.spot, strong);
      if m >= 0 {
        HitFits(sums, m, data, blen, p.spot, strong);
        RestartSince(data, blen, p.spot.offset + sums[m].len - 1);
      } else {
        ShiftSince(data, blen, a, p.spot.offset);
      }
    }
  }

  /** After any number of visits the sums are those carried from the last start. */
  lemma {:induction false} SpotsFromStart(sums: seq<BlockSum>, data: seq<byte>, blen: nat, strong: Strong, n: nat)
    requires FromPeer(sums, blen)
    ensures var p := PlaceAfter(sums, data, blen, strong, n).spot;
      p == SpotSince(data, blen, LastStart(sums, data, blen, strong, n), p.offset)
  {
    if n > 0 {
      var p, a := PlaceAfter(sums, data, blen, strong, n - 1), LastStart(sums, data, blen, strong, n - 1);
      SpotsFromStart(sums, data, blen, strong, n - 1);
      NextSince(sums, data, blen, strong, p, a);
    }
  }

  /** At a spot with the sums carried from a, a block equal to the window is matched if
      and only if the window is recognised. */
  lemma {:induction false} SpotHitsExactly(sums: seq<BlockSum>, j: nat, data: seq<byte>, blen: nat, strong: Strong,
                                           a: nat, p: Spot)
    requires j < |sums| && blen > 0 && a <= p.offset <= |data| && p == SpotSince(data, blen, a, p.offset)
    requires Describes(sums[j], Window(data, blen, p.offset), strong)
    ensures Hits(sums, j, data, blen, p.offset, p.s1, p.s2, strong) <==> Recognised(data, blen, a, p.offset - a)
  {
    EqualBlockHitsExactly(sums, j, data, blen, a, p.offset - a, strong);
  }

  /** So it is at every visit of a search, with the last start. */
  lemma {:induction false} VisitHitsExactly(sums: seq<BlockSum>, j: nat, data: seq<byte>, blen: nat, strong: Strong,
                                            n: nat, p: Spot, a: nat)
    requires FromPeer(sums, blen) && j < |sums|
    requires p == PlaceAfter(sums, data, blen, strong, n).spot && a == LastStart(sums, data, blen, strong, n)
    requires Describes(sums[j], Window(data, blen, p.offset), strong)
    ensures Hits(sums, j, data, blen, p.offset, p.s1, p.s2, strong) <==> Recognised(data, blen, a, p.offset - a)
  {
    SpotsFromStart(sums, data, blen, strong, n);
    SpotHitsExactly(sums, j, data, blen, strong, a, p);
  }

  /** Visits one after another while they move on and stay within a limit, and
      what is sent at the end. */
  function Tour(visit: Place -> (seq<Token>, Place), finish: Place -> seq<Token>, limit: int, p: Place): seq<Token>
    decreases limit - p.spot.offset
  {
    var (ts, q) := visit(p);
    ts + if p.spot.offset < q.spot.offset <= limit then Tour(visit, finish, limit, q) else finish(q)
  }

  /** All the tokens of a search. */
  datatype Script = Script(tokens: seq<Token>)

  function WholeTour(visit: Place -> (seq<Token>, Place), finish: Place -> seq<Token>, limit: int, p: Place): Script {
    Script(Tour(visit, finish, limit, p))
  }

  function Visitor(sums: seq<BlockSum>, data: seq<byte>, blen: nat, strong: Strong): Place -> (seq<Token>, Place)
    requires FromPeer(sums, blen)
  {
    (p: Place) => if Within(data, p) && p.spot.offset < |data| then Visit(sums, data, blen, strong, p) else ([], p)
  }

  function Finisher(data: seq<byte>): Place -> seq<Token> {
    (p: Place) => if p.last <= |data| then Fill(data, p.last, |data|) else []
  }

  /** The search without table and without streams: a scan of all blocks at every
      offset up to the last one at which the last block fits. */
  function PlainScript(sums: seq<BlockSum>, data: seq<byte>, blen: nat, strong: Strong): Script
    requires FromPeer(sums, blen)
  {
    WholeTour(Visitor(sums, data, blen, strong), Finisher(data), |data| - sums[|sums| - 1].len,
              Place(Begin(data, blen, 0), 0))
  }

  function PlainSearch(sums: seq<BlockSum>, data: seq<byte>, blen: nat, strong: Strong): seq<Token>
    requires FromPeer(sums, blen)
  {
    PlainScript(sums, data, blen, strong).tokens
  }

  /** Names for visitor and finisher that proofs need not look into. */
  ghost predicate Visits(visit: Place -> (seq<Token>, Place), sums: seq<BlockSum>, data: seq<byte>, blen: nat,
                         strong: Strong)
    requires FromPeer(sums, blen)
  {
    forall p: Place {:trigger Visit(sums, data, blen, strong, p)} :: Within(data, p) && p.spot.offset < |data| ==>
      visit(p) == Visit(sums, data, blen, strong, p)
  }

  ghost predicate Finishes(finish: Place -> seq<Token>, data: seq<byte>) {
    forall p: Place {:trigger Fill(data, p.last, |data|)} ::
      p.last <= |data| ==> finish(p) == Fill(data, p.last, |data|)
  }

  // ---------------------------------------------------- what the plain search rebuilds

  /** The strong hash tells this window from any other content than the block. */
  ghost predicate Genuine(s: BlockSum, block: seq<byte>, w: seq<byte>, strong: Strong) {
    s.len == |w| && strong(w, |s.sum2|) == s.sum2 ==> w == block
  }

  ghost predicate NoCollision(data: seq<byte>, blen: nat, sums: seq<BlockSum>, strong: Strong,
                              basis: int -> seq<byte>) {
    forall j, o {:trigger Genuine(sums[j], basis(j), Window(data, blen, o), strong)} ::
      0 <= j < |sums| && 0 <= o <= |data| ==> Genuine(sums[j], basis(j), Window(data, blen, o), strong)
  }

  /** Tokens that fit the wire and rebuild a stretch of the data. */
  ghost predicate Tiles(ts: seq<Token>, data: seq<byte>, a: nat, b: nat, basis: int -> seq<byte>)
    requires a <= b <= |data|
  {
    Indexable(ts) && Rebuild(ts, basis) == data[a..b]
  }

  lemma {:induction false} FillTiles(data: seq<byte>, a: nat, b: nat, basis: int -> seq<byte>)
    requires a <= b <= |data|
    ensures Tiles(Fill(data, a, b), data, a, b, basis)
  {
    if a < b {
      var l := Literal(data[a..b]);
      RebuildSnoc([], l, basis);
      assert [] + [l] == [l];
      assert [] + data[a..b] == data[a..b];
    }
  }

  lemma {:induction false} TilesConcat(ts: seq<Token>, us: seq<Token>, data: seq<byte>, a: nat, b: nat, c: nat,
                                       basis: int -> seq<byte>)
    requires a <= b <= c <= |data| && Tiles(ts, data, a, b, basis) && Tiles(us, data, b, c, basis)
    ensures Tiles(ts + us, data, a, c, basis)
  {
    RebuildConcat(ts, us, basis);
    Slices(data, a, b, c);
    IndexableConcat(ts, us);
  }

  lemma {:induction false} Slices(data: seq<byte>, a: nat, b: nat, c: nat)
    requires a <= b <= c <= |data|
    ensures data[a..b] + data[b..c] == data[a..c]
  {
  }

  lemma {:induction false} IndexableConcat(ts: seq<Token>, us: seq<Token>)
    requires Indexable(ts) && Indexable(us)
    ensures Indexable(ts + us)
  {
  }

  lemma {:induction false} MatchTiles(m: int, data: seq<byte>, a: nat, b: nat, basis: int -> seq<byte>)
    requires a <= b <= |data| && 0 <= m < U31 && basis(m) == data[a..b]
    ensures Tiles([Match(m)], data, a, b, basis)
  {
    RebuildSnoc([], Match(m), basis);
    assert [] + [Match(m)] == [Match(m)];
    assert [] + basis(m) == basis(m);
  }

  /** A hop sends exactly the data it leaves behind. */
  lemma {:induction false} HopTiles(data: seq<byte>, blen: nat, end: int, p: Place, m: int, next: nat,
                                    basis: int -> seq<byte>)
    requires Within(data, p) && p.spot.offset < next <= |data| && (m < 0 ==> next == p.spot.offset + 1)
    requires m >= 0 ==> m < U31 && basis(m) == data[p.spot.offset..next]
    ensures var (ts, q) := Hop(data, blen, end, p, m, next); Tiles(ts, data, p.last, q.last, basis)
  {
    if m >= 0 {
      FillTiles(data, p.last, p.spot.offset, basis);
      MatchTiles(m, data, p.spot.offset, next, basis);
      TilesConcat(Fill(data, p.last, p.spot.offset), [Match(m)], data, p.last, p.spot.offset, next, basis);
    } else {
      FillTiles(data, p.last, Hop(data, blen, end, p, m, next).1.last, basis);
    }
  }

  lemma {:induction false} VisitTiles(sums: seq<BlockSum>, data: seq<byte>, blen: nat, strong: Strong, p: Place,
                                      basis: int -> seq<byte>)
    requires FromPeer(sums, blen) && Within(data, p) && p.spot.offset < |data|
    requires NoCollision(data, blen, sums, strong, basis)
    ensures var (ts, q) := Visit(sums, data, blen, strong, p);
      p.last <= q.last && Tiles(ts, data, p.last, q.last, basis)
  {
    var m := LastHit(sums, |sums|, data, blen, p.spot, strong);
    var end := |data| + 1 - sums[|sums| - 1].len;
    if m >= 0 {
      HitFits(sums, m, data, blen, p.spot, strong);
      assert Genuine(sums[m], basis(m), Window(data, blen, p.spot.offset), strong);
      HopTiles(data, blen, end, p, m, p.spot.offset + sums[m].len, basis);
    } else {
      HopTiles(data, blen, end, p, m, p.spot.offset + 1, basis);
    }
  }

  lemma {:induction false} TourTiles(visit: Place -> (seq<Token>, Place), finish: Place -> seq<Token>, limit: int,
                                     p: Place, sums: seq<BlockSum>, data: seq<byte>, blen: nat, strong: Strong,
                                     basis: int -> seq<byte>)
    requires FromPeer(sums, blen) && Within(data, p) && p.spot.offset < |data| && limit < |data|
    requires NoCollision(data, blen, sums, strong, basis)
    requires Visits(visit, sums, data, blen, strong) && Finishes(finish, data)
    ensures Tiles(Tour(visit, finish, limit, p), data, p.last, |data|, basis)
    decreases limit - p.spot.offset
  {
    assert visit(p) == Visit(sums, data, blen, strong, p);
    VisitTiles(sums, data, blen, strong, p, basis);
    var (ts, q) := visit(p);
    if q.spot.offset <= limit {
      TourTiles(visit, finish, limit, q, sums, data, blen, strong, basis);
      TilesConcat(ts, Tour(visit, finish, limit, q), data, p.last, q.last, |data|, basis);
    } else {
      assert finish(q) == Fill(data, q.last, |data|);
      FillTiles(data, q.last, |data|, basis);
      TilesConcat(ts, finish(q), data, p.last, q.last, |data|, basis);
    }
  }

  lemma {:induction false} VisitorVisits(sums: seq<BlockSum>, data: seq<byte>, blen: nat, strong: Strong)
    requires FromPeer(sums, blen)
    ensures Visits(Visitor(sums, data, blen, strong), sums, data, blen, strong)
    ensures Finishes(Finisher(data), data)
  {
  }

  /** For every non-empty file, block table and basis on which the strong hash does
      not collide, the tokens rebuild the file. */
  lemma {:induction false} SearchRebuilds(sums: seq<BlockSum>, data: seq<byte>, blen: nat, strong: Strong,
                                          basis: int -> seq<byte>)
    requires |data| > 0 && FromPeer(sums, blen) && sums[|sums| - 1].len > 0
    requires NoCollision(data, blen, sums, strong, basis)
    ensures var ts := PlainSearch(sums, data, blen, strong); Indexable(ts) && Rebuild(ts, basis) == data
  {
    VisitorVisits(sums, data, blen, strong);
    TourRebuilds(Visitor(sums, data, blen, strong), Finisher(data), sums, data, blen, strong, basis);
  }

  lemma {:induction false} TourRebuilds(visit: Place -> (seq<Token>, Place), finish: Place -> seq<Token>,
                                        sums: seq<BlockSum>, data: seq<byte>, blen: nat, strong: Strong,
                                        basis: int -> seq<byte>)
    requires |data| > 0 && FromPeer(sums, blen) && sums[|sums| - 1].len > 0
    requires NoCollision(data, blen, sums, strong, basis)
    requires Visits(visit, sums, data, blen, strong) && Finishes(finish, data)
    ensures var ts := Tour(visit, finish, |data| - sums[|sums| - 1].len, Place(Begin(data, blen, 0), 0));
      Indexable(ts) && Rebuild(ts, basis) == data
  {
    TourTiles(visit, finish, |data| - sums[|sums| - 1].len, Place(Begin(data, blen, 0), 0),
              sums, data, blen, strong, basis);
    assert data[0..|data|] == data;
  }

  // -------------------------------------------------------------------- the real search

  method SendLiteralFill(dw: DeltaWriter, data: seq<byte>, a: nat, b: nat)
    requires a <= b <= |data|
    modifies dw.w
    ensures dw.w.buf == old(dw.w.buf) + Written(Fill(data, a, b))
  {
    if b <= a {
      assert dw.w.buf + [] == dw.w.buf;
      return;
    }
    WrittenOne(Literal(data[a..b]));
    dw.WriteLiteral(data[a..b]);
  }

  lemma {:induction false} WrittenOne(t: Token)
    ensures Written([t]) == Out(t)
  {
    WrittenSnoc([], t);
    assert [] + [t] == [t];
    assert [] + Out(t) == Out(t);
  }

  /** The literal bytes up to a match and the match token itself. */
  method SendMatch(dw: DeltaWriter, data: seq<byte>, lastMatch: nat, offset: nat, m: nat)
    requires lastMatch <= offset <= |data| && m < U31
    modifies dw.w
    ensures dw.w.buf == old(dw.w.buf) + Written(Fill(data, lastMatch, offset) + [Match(m)])
  {
    ghost var start, fill := dw.w.buf, Fill(data, lastMatch, offset);
    SendLiteralFill(dw, data, lastMatch, offset);
    dw.WriteMatch(m);
    WrittenSnoc(fill, Match(m));
    Assoc(start, Written(fill), Out(Match(m)));
  }

  /** The window's length and sums are right at a place. */
  ghost predicate RolledAt(data: seq<byte>, blen: nat, p: Place, k: nat) {
    Within(data, p) && Rolled(data, blen, p.spot.offset, k, p.spot.s1, p.spot.s2)
  }

  /** Stepping over a match, or by one byte with perhaps an early flush. */
  method StepBy(dw: DeltaWriter, data: seq<byte>, blen: nat, end: int, p: Place, k: nat, m: int, next: nat)
      returns (q: Place, k': nat)
    requires blen > 0 && RolledAt(data, blen, p, k)
    requires p.spot.offset < next <= |data| && m < U31 && (m < 0 ==> next == p.spot.offset + 1)
    modifies dw.w
    ensures RolledAt(data, blen, q, k') && q == Hop(data, blen, end, p, m, next).1
    ensures dw.w.buf == old(dw.w.buf) + Written(Hop(data, blen, end, p, m, next).0)
  {
    if m >= 0 {
      q, k' := StepMatch(dw, data, blen, end, p, m, next);
    } else {
      q, k' := StepMiss(dw, data, blen, end, p, k, m);
    }
  }

  method StepMatch(dw: DeltaWriter, data: seq<byte>, blen: nat, end: int, p: Place, m: nat, next: nat)
      returns (q: Place, k': nat)
    requires blen > 0 && Within(data, p) && p.spot.offset < next <= |data| && m < U31
    modifies dw.w
    ensures RolledAt(data, blen, q, k') && q == Hop(data, blen, end, p, m, next).1
    ensures dw.w.buf == old(dw.w.buf) + Written(Hop(data, blen, end, p, m, next).0)
  {
    var t1, t2;
    SendMatch(dw, data, p.last, p.spot.offset, m);
    k', t1, t2 := Restart(data, blen, next);
    q := Place(Spot(next, t1, t2), next);
  }

  method StepMiss(dw: DeltaWriter, data: seq<byte>, blen: nat, end: int, p: Place, k: nat, m: int)
      returns (q: Place, k': nat)
    requires blen > 0 && RolledAt(data, blen, p, k) && p.spot.offset < |data| && m < 0
    modifies dw.w
    ensures RolledAt(data, blen, q, k') && q == Hop(data, blen, end, p, m, p.spot.offset + 1).1
    ensures dw.w.buf == old(dw.w.buf) + Written(Hop(data, blen, end, p, m, p.spot.offset + 1).0)
  {
    var offset, lastMatch := p.spot.offset, p.last;
    var t1, t2;
    k', t1, t2 := Roll(data, blen, offset, k, p.spot.s1, p.spot.s2);
    if offset - lastMatch >= blen + CHUNK && end - offset > CHUNK {
      lastMatch := offset - blen;
    }
    SendLiteralFill(dw, data, p.last, lastMatch);
    q := Place(Spot(offset + 1, t1, t2), lastMatch);
  }

  /** What a turn with that outcome is to the plain search. */
  lemma {:induction false} TurnIsVisit(sums: seq<BlockSum>, data: seq<byte>, blen: nat, strong: Strong, p: Place,
                                       m: int, next: nat)
    requires FromPeer(sums, blen) && Within(data, p) && p.spot.offset < |data| && -1 <= m < |sums|
    requires m >= 0 ==> Hits(sums, m, data, blen, p.spot.offset, p.spot.s1, p.spot.s2, strong)
    requires forall j :: m < j < |sums| ==> !Hits(sums, j, data, blen, p.spot.offset, p.spot.s1, p.spot.s2, strong)
    requires p.spot.offset < next <= |data| && next == p.spot.offset + if m >= 0 then sums[m].len else 1
    ensures Visit(sums, data, blen, strong, p) == Hop(data, blen, |data| + 1 - sums[|sums| - 1].len, p, m, next)
  {
    LastHitIs(sums, |sums|, data, blen, p.spot, strong, m);
  }

  /** One turn of the loop: look the window up, then step over the match or by
      one byte, as the plain search does. It fails to read the next byte only at
      the end of the data. */
  method Advance(dw: DeltaWriter, table: seq<int>, chain: seq<int>, sums: seq<BlockSum>, data: seq<byte>, blen: nat,
                 p: Place, k: nat, strong: Strong, ghost visit: Place -> (seq<Token>, Place))
      returns (ok: bool, q: Place, k': nat)
    requires FromPeer(sums, blen) && Visits(visit, sums, data, blen, strong)
    requires table == Table(sums, |sums|) && chain == Chain(sums, |sums|)
    requires RolledAt(data, blen, p, k)
    modifies dw.w
    ensures ok <==> p.spot.offset < |data|
    ensures ok ==> p.spot.offset < q.spot.offset && RolledAt(data, blen, q, k')
    ensures ok ==> visit(p).1 == q && dw.w.buf == old(dw.w.buf) + Written(visit(p).0)
  {
    ok, q, k' := p.spot.offset < |data|, p, k;
    var m, next := Locate(table, chain, sums, data, blen, p, strong, visit);
    if ok {
      var end := |data| + 1 - sums[|sums| - 1].len;
      q, k' := StepBy(dw, data, blen, end, p, k, m, next);
    }
  }

  /** Looking the window up: the block to match, if any, and where to go on. */
  method Locate(table: seq<int>, chain: seq<int>, sums: seq<BlockSum>, data: seq<byte>, blen: nat, p: Place,
                strong: Strong, ghost visit: Place -> (seq<Token>, Place))
      returns (m: int, next: nat)
    requires FromPeer(sums, blen) && Within(data, p) && Visits(visit, sums, data, blen, strong)
    requires table == Table(sums, |sums|) && chain == Chain(sums, |sums|)
    ensures m < |sums| && next == p.spot.offset + if m >= 0 then sums[m].len else 1
    ensures p.spot.offset < |data| ==>
      && p.spot.offset < next <= |data|
      && visit(p) == Hop(data, blen, |data| + 1 - sums[|sums| - 1].len, p, m, next)
  {
    var offset := p.spot.offset;
    m := FindMatch(table, chain, sums, data, blen, offset, p.spot.s1, p.spot.s2, strong);
    next := offset + 1;
    if m >= 0 {
      HitFits(sums, m, data, blen, p.spot, strong);
      next := offset + sums[m].len;
    }
    if offset < |data| {
      TurnIsVisit(sums, data, blen, strong, p, m, next);
      assert visit(p) == Visit(sums, data, blen, strong, p);
    }
  }

  /** What was written, followed by what a tour from p will write, is all of it. */
  ghost predicate OnTour(visit: Place -> (seq<Token>, Place), finish: Place -> seq<Token>, limit: int, buf: seq<byte>,
                         p: Place, all: seq<byte>)
  {
    buf + TourBytes(visit, finish, limit, p) == all
  }

  ghost function TourBytes(visit: Place -> (seq<Token>, Place), finish: Place -> seq<Token>, limit: int,
                           p: Place): seq<byte> {
    ScriptBytes(WholeTour(visit, finish, limit, p))
  }

  ghost function ScriptBytes(t: Script): seq<byte> {
    Written(t.tokens)
  }

  ghost predicate Concluded(finish: Place -> seq<Token>, buf: seq<byte>, q: Place, all: seq<byte>) {
    buf + Written(finish(q)) == all
  }

  lemma {:induction false} TourStep(visit: Place -> (seq<Token>, Place), finish: Place -> seq<Token>, limit: int,
                                    buf: seq<byte>, p: Place, ts: seq<Token>, q: Place, all: seq<byte>)
    requires OnTour(visit, finish, limit, buf, p, all) && visit(p) == (ts, q)
    ensures if p.spot.offset < q.spot.offset <= limit then OnTour(visit, finish, limit, buf + Written(ts), q, all)
            else Concluded(finish, buf + Written(ts), q, all)
  {
    var later := if p.spot.offset < q.spot.offset <= limit then Tour(visit, finish, limit, q) else finish(q);
    WrittenConcat(ts, later);
    Assoc(buf, Written(ts), Written(later));
  }

  /** The loop writes what the plain search sends, up to its last literal. */
  method SearchLoop(dw: DeltaWriter, table: seq<int>, chain: seq<int>, data: seq<byte>, blen: nat, sums: seq<BlockSum>,
                    strong: Strong, k0: nat, p: Place, ghost limit: int, ghost visit: Place -> (seq<Token>, Place),
                    ghost finish: Place -> seq<Token>, ghost all: seq<byte>)
      returns (ok: bool, q: Place)
    requires |data| > 0 && FromPeer(sums, blen) && p.spot.offset == 0
    requires Visits(visit, sums, data, blen, strong)
    requires table == Table(sums, |sums|) && chain == Chain(sums, |sums|)
    requires RolledAt(data, blen, p, k0)
    requires limit == |data| - sums[|sums| - 1].len && OnTour(visit, finish, limit, dw.w.buf, p, all)
    modifies dw.w
    ensures ok <==> sums[|sums| - 1].len > 0
    ensures ok ==> q.last <= |data| && Concluded(finish, dw.w.buf, q, all)
  {
    var k := k0;
    ok, q := true, p;
    var end := |data| + 1 - sums[|sums| - 1].len;
    while true
      invariant ok && RolledAt(data, blen, q, k)
      invariant sums[|sums| - 1].len > 0 ==> q.spot.offset < |data|
      invariant OnTour(visit, finish, limit, dw.w.buf, q, all)
      modifies dw.w
      decreases |data| - q.spot.offset
    {
      ghost var here, before := q, dw.w.buf;
      ok, q, k := Advance(dw, table, chain, sums, data, blen, q, k, strong, visit);
      if !ok {
        return;
      }
      TourStep(visit, finish, limit, before, here, visit(here).0, q, all);
      if q.spot.offset >= end {
        return;
      }
    }
  }

  /** The sums at the start. */
  method Start(data: seq<byte>, blen: nat) returns (p: Place, k: nat)
    ensures p == Place(Begin(data, blen, 0), 0) && RolledAt(data, blen, p, k)
  {
    k := WindowLen(data, blen, 0);
    var s1, s2 := RollingChecksum(data[..k]);
    assert Window(data, blen, 0) == data[..k];
    p := Place(Spot(0, s1, s2), 0);
  }

  /** Index, loop, and the literal behind the last match. */
  method SearchAll(dw: DeltaWriter, data: seq<byte>, blen: nat, sums: seq<BlockSum>, strong: Strong, ghost limit: int,
                   ghost visit: Place -> (seq<Token>, Place), ghost finish: Place -> seq<Token>, ghost all: seq<byte>)
      returns (ok: bool)
    requires |data| > 0 && FromPeer(sums, blen)
    requires Visits(visit, sums, data, blen, strong) && Finishes(finish, data)
    requires limit == |data| - sums[|sums| - 1].len
    requires OnTour(visit, finish, limit, dw.w.buf, Place(Begin(data, blen, 0), 0), all)
    modifies dw.w
    ensures ok <==> sums[|sums| - 1].len > 0
    ensures ok ==> dw.w.buf == all
  {
    var table, chain := BuildIndex(sums);
    var p, k := Start(data, blen);
    var q;
    ok, q := SearchLoop(dw, table, chain, data, blen, sums, strong, k, p, limit, visit, finish, all);
    if ok {
      assert finish(q) == Fill(data, q.last, |data|);
      SendLiteralFill(dw, data, q.last, |data|);
    }
  }

  /** The plain search, as a tour from its start. */
  lemma {:induction false} PlainStart(sums: seq<BlockSum>, data: seq<byte>, blen: nat, strong: Strong, limit: int,
                                      buf: seq<byte>)
      returns (visit: Place -> (seq<Token>, Place), finish: Place -> seq<Token>, all: seq<byte>)
    requires FromPeer(sums, blen) && limit == |data| - sums[|sums| - 1].len
    ensures Visits(visit, sums, data, blen, strong) && Finishes(finish, data)
    ensures all == buf + Written(PlainSearch(sums, data, blen, strong))
    ensures OnTour(visit, finish, limit, buf, Place(Begin(data, blen, 0), 0), all)
  {
    VisitorVisits(sums, data, blen, strong);
    visit, finish := Visitor(sums, data, blen, strong), Finisher(data);
    SameScript(sums, data, blen, strong, limit);
    all := buf + ScriptBytes(PlainScript(sums, data, blen, strong));
  }

  lemma {:induction false} SameScript(sums: seq<BlockSum>, data: seq<byte>, blen: nat, strong: Strong, limit: int)
    requires FromPeer(sums, blen) && limit == |data| - sums[|sums| - 1].len
    ensures WholeTour(Visitor(sums, data, blen, strong), Finisher(data), limit, Place(Begin(data, blen, 0), 0))
         == PlainScript(sums, data, blen, strong)
  {
  }

  /** The search: for every file and block table it ends and writes the tokens of the
      plain search; it indexes past the data (`ok` is false) if and only if the last
      block's length is negative, which the peer's unchecked remainder allows. */
  method HashSearch(dw: DeltaWriter, data: seq<byte>, blen: nat, sums: seq<BlockSum>, strong: Strong) returns (ok: bool)
    requires |data| > 0 && FromPeer(sums, blen)
    modifies dw.w
    ensures ok <==> sums[|sums| - 1].len > 0
    ensures ok ==> dw.w.buf == old(dw.w.buf) + Written(PlainSearch(sums, data, blen, strong))
  {
    ghost var limit := |data| - sums[|sums| - 1].len;
    ghost var visit, finish, all := PlainStart(sums, data, blen, strong, limit, dw.w.buf);
    ok := SearchAll(dw, data, blen, sums, strong, limit, visit, finish, all);
  }
}
