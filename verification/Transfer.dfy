/** One file transfer, byte by byte (client-open.go openFile against server-send.go
    sendFiles, sendFile and matchSums).

    The client names an entry by its index; the server looks the entry up, echoes
    the request, streams the delta and the whole-file checksum; the client rebuilds
    the file and compares checksums. Composed, this returns the bytes of the entry
    the client asked for. The checksums are parameters.
 */
module Transfer {
  import opened Bytes
  import opened WireInts
  import opened Ndx
  import opened Selectors
  import opened SumHeads
  import opened Delta
  import opened HashSearch
  import opened Paths
  import opened FlistOrder

  /** The whole-file checksum of the negotiated digest, version and seed. */
  type FileSum = seq<byte> -> seq<byte>

  /** The digest has 16 bytes. */
  ghost predicate Sixteen(sum: FileSum) {
    forall d :: |sum(d)| == 16
  }

  // ------------------------------------------------------------------- the delta body

  /** matchSums: tokens, end marker, checksum. */
  function PutBody(tokens: seq<Token>, sum: FileSum, data: seq<byte>): seq<byte> {
    Written(tokens) + (PutI32(0) + sum(data))
  }

  /** matchSums searches when there is data and the client has blocks. */
  predicate Searched(data: seq<byte>, sh: SumHead) {
    data != [] && sh.count > 0
  }

  /** The tokens for a file: by the search, or the whole file as one literal. */
  function Tokens(data: seq<byte>, sh: SumHead, sums: seq<BlockSum>, strong: Strong): seq<Token>
    requires Searched(data, sh) ==> sh.blength > 0 && FromPeer(sums, sh.blength)
  {
    if Searched(data, sh) then PlainSearch(sums, data, sh.blength, strong) else [Literal(data)]
  }

  /** They rebuild the file on every basis on which the strong hash does not collide. */
  lemma {:induction false} TokensRebuild(data: seq<byte>, sh: SumHead, sums: seq<BlockSum>, strong: Strong,
                                         basis: int -> seq<byte>)
    requires Searched(data, sh) ==> sh.blength > 0 && FromPeer(sums, sh.blength)
    requires Searched(data, sh) ==> sums[|sums| - 1].len > 0 && NoCollision(data, sh.blength, sums, strong, basis)
    ensures var ts := Tokens(data, sh, sums, strong); Indexable(ts) && Rebuild(ts, basis) == data
  {
    if Searched(data, sh) {
      SearchRebuilds(sums, data, sh.blength, strong, basis);
    } else {
      OneLiteral(data, basis);
    }
  }

  lemma {:induction false} OneLiteral(data: seq<byte>, basis: int -> seq<byte>)
    ensures Indexable([Literal(data)]) && Rebuild([Literal(data)], basis) == data
  {
    RebuildSnoc([], Literal(data), basis);
    assert [] + [Literal(data)] == [Literal(data)];
    assert [] + data == data;
  }

  method MatchSums(dw: DeltaWriter, data: seq<byte>, sh: SumHead, sums: seq<BlockSum>, strong: Strong, sum: FileSum)
      returns (ok: bool)
    requires Searched(data, sh) ==> sh.blength > 0 && FromPeer(sums, sh.blength)
    modifies dw.w
    ensures ok <==> !(Searched(data, sh) && sums[|sums| - 1].len < 0)
    ensures ok ==> dw.w.buf == old(dw.w.buf) + PutBody(Tokens(data, sh, sums, strong), sum, data)
  {
    ghost var start, tokens := dw.w.buf, Tokens(data, sh, sums, strong);
    if |data| > 0 && sh.count > 0 {
      ok := HashSearch.HashSearch(dw, data, sh.blength, sums, strong);
      if !ok {
        return;
      }
    } else {
      dw.WriteLiteral(data);
      WrittenOne(Literal(data));
      ok := true;
    }
    dw.WriteEnd();
    dw.w.Write(sum(data));
    Assoc(start, Written(tokens), PutI32(0));
    Assoc(start + Written(tokens), PutI32(0), sum(data));
    Assoc(start, Written(tokens), PutI32(0) + sum(data));
  }

  // --------------------------------------------------------------------- the receiver

  /** The receiver's loop over the tokens and its checksum comparison, against the
      blocks it has. */
  function GetBody(basis: int -> seq<byte>, sum: FileSum, s2len: nat, s: seq<byte>): Read<seq<byte>> {
    var (ts, s1) :- Parse(0, s);
    var data := Rebuild(ts, basis);
    var (want, s2) :- Take(s1, s2len);
    if sum(data) == want then Got(data, s2) else Invalid
  }

  /** Behind the tokens, a checksum of another length than expected is refused. */
  lemma {:induction false} GetBodySteps(basis: int -> seq<byte>, sum: FileSum, s2len: nat, s: seq<byte>, ts: seq<Token>,
                                        data: seq<byte>, rest: seq<byte>)
    requires Rebuild(ts, basis) == data && Parse(0, s) == Got(ts, sum(data) + rest)
    ensures GetBody(basis, sum, s2len, s) == Got(data, rest) <==> s2len == |sum(data)|
    ensures GetBody(basis, sum, s2len, s).Got? <==> s2len == |sum(data)|
  {
    TakePrefix(sum(data), rest);
  }

  /** A receiver with the same blocks gets the file from any tokens that rebuild
      it, and its checksum comparison succeeds, if and only if it expects the
      checksum's length. */
  lemma {:induction false} BodyRoundTrip(tokens: seq<Token>, basis: int -> seq<byte>, sum: FileSum, s2len: nat,
                                         data: seq<byte>, rest: seq<byte>)
    requires Indexable(tokens) && Rebuild(tokens, basis) == data
    ensures var r := GetBody(basis, sum, s2len, PutBody(tokens, sum, data) + rest);
      (r == Got(data, rest) <==> s2len == |sum(data)|) && (r.Got? <==> s2len == |sum(data)|)
  {
    WrittenIsCut(tokens);
    CutMeans(tokens, basis);
    CutTwice(tokens, basis);
    var tail := sum(data) + rest;
    ParseOfStream(Cut(tokens), tail);
    Assoc(Written(tokens), PutI32(0) + sum(data), rest);
    Assoc(PutI32(0), sum(data), rest);
    Assoc(Written(tokens), PutI32(0), tail);
    GetBodySteps(basis, sum, s2len, PutStream(Cut(tokens)) + tail, Cut(Cut(tokens)), data, rest);
  }

  lemma CutTwice(tokens: seq<Token>, basis: int -> seq<byte>)
    ensures Rebuild(Cut(Cut(tokens)), basis) == Rebuild(tokens, basis)
  {
    CutMeans(tokens, basis);
    CutMeans(Cut(tokens), basis);
  }

  // --------------------------------------------------------------- request and reply

  const WANTED: nat := ITEM_TRANSFER + ITEM_MISSING_DATA

  /** openFile's request: a selector and a null sum head. */
  function PutRequest(version: int, t: Trackers, ndx: int32): (seq<byte>, Trackers) {
    var (s, t') := PutSelector(version, t, Selector(ndx, WANTED, 0, []));
    (s + PutSumHead(version, NULL_HEAD), t')
  }

  /** The server's files: which names are regular files, and their contents. */
  datatype Files = Files(regular: Name -> bool, contents: Name -> seq<byte>)

  /** What the server works with. */
  datatype Daemon = Daemon(version: int, entries: seq<Node>, files: Files, sum: FileSum, strong: Strong)
  {
    /** What it sends of an entry; nothing of one that is not a regular file. */
    function Data(ndx: nat): seq<byte>
      requires ndx < |entries|
    {
      if files.regular(entries[ndx].name) then files.contents(entries[ndx].name) else []
    }

    /** From protocol 30 on a request for anything but a regular file is refused. */
    predicate Answers(ndx: nat)
      requires ndx < |entries|
    {
      version < 30 || files.regular(entries[ndx].name)
    }
  }

  /** sendFile: the answer to a transfer request, from the bytes behind its selector. */
  function Answer(d: Daemon, tout: Trackers, sel: Selector, s: seq<byte>): (r: Read<(seq<byte>, Trackers)>)
    requires NameFits(sel) && 0 <= sel.ndx < |d.entries|
  {
    var (y, s1) :- GetSums(d.version, s);
    if !d.Answers(sel.ndx) then Invalid
    else
      SumsSearchable(d.version, s, y.0, y.1, s1);
      var data := d.Data(sel.ndx);
      if Searched(data, y.0) && y.0.remainder < 0 then Panic
      else
        Got((PutReply(d.version, tout, sel, y.0, Tokens(data, y.0, y.1, d.strong), d.sum, data),
             PutIndex30(d.version, tout, sel.ndx).1), s1)
  }

  lemma {:induction false} SumsSearchable(version: int, s: seq<byte>, sh: SumHead, sums: seq<BlockSum>, rest: seq<byte>)
    requires GetSums(version, s) == Got((sh, sums), rest)
    ensures sh.count > 0 ==> sh.blength > 0 && FromPeer(sums, sh.blength)
    ensures sh.count > 0 ==> (sums[|sums| - 1].len < 0 <==> sh.remainder < 0)
  {
    AcceptedSumsSearchable(version, s);
  }

  /** The echoed selector and sum head, and the body. */
  function PutReply(version: int, tout: Trackers, sel: Selector, sh: SumHead, tokens: seq<Token>, sum: FileSum,
                    data: seq<byte>): seq<byte>
    requires NameFits(sel)
  {
    PutSelector(version, tout, sel).0 + (PutSumHead(version, sh) + PutBody(tokens, sum, data))
  }

  const NO_BLOCKS: int -> seq<byte> := _ => []

  /** Reading an answer with the given blocks at hand: the data, and the tracker for
      echoed selectors. */
  function GetReplyOn(basis: int -> seq<byte>, version: int, t: Trackers, sum: FileSum,
                      s: seq<byte>): Read<(seq<byte>, Trackers)> {
    var (x, s1) :- GetSelector(version, t, s);
    var (sh, s2) :- GetSumHead(version, s1);
    var (data, s3) :- GetBody(basis, sum, DigestLength(sh), s2);
    Got((data, x.1), s3)
  }

  /** openFile's reading side. The client has no blocks, and takes nothing from a
      match token. */
  function GetReply(version: int, t: Trackers, sum: FileSum, s: seq<byte>): Read<(seq<byte>, Trackers)> {
    GetReplyOn(NO_BLOCKS, version, t, sum, s)
  }

  lemma {:induction false} GetReplySteps(basis: int -> seq<byte>, version: int, t: Trackers, sum: FileSum, s: seq<byte>,
                                         x: (Selector, Trackers), s1: seq<byte>, sh: SumHead, s2: seq<byte>)
    requires GetSelector(version, t, s) == Got(x, s1)
    requires GetSumHead(version, s1) == Got(sh, s2)
    ensures var b, r := GetBody(basis, sum, DigestLength(sh), s2), GetReplyOn(basis, version, t, sum, s);
      r.Got? == b.Got? && (b.Got? ==> r == Got((b.value, x.1), b.rest))
  {
  }

  lemma NullHeadRoundTrip(version: int, rest: seq<byte>)
    ensures GetSumHead(version, PutSumHead(version, NULL_HEAD) + rest) == Got(NULL_HEAD, rest)
    ensures GetSums(version, PutSumHead(version, NULL_HEAD) + rest) == Got((NULL_HEAD, []), rest)
  {
    SumHeadRoundTrip(version, NULL_HEAD, rest);
  }

  lemma WantedFlags(version: int, ndx: int32)
    ensures var sel := Selector(ndx, WANTED, 0, []);
      var got := Selectors.Carried(version, sel);
      && !BasisFollows(sel.iflags) && !XnameFollows(sel.iflags)
      && !BasisFollows(got.iflags) && !XnameFollows(got.iflags) && got.ndx == ndx && got.xname == []
      && got.iflags / ITEM_TRANSFER % 2 == 1
  {
  }

  /** The server answers a null sum head with the entry's contents as one literal, an
      empty one for anything but a regular file, or refuses it. */
  lemma {:induction false} NullHeadAnswered(d: Daemon, tout: Trackers, sel: Selector, rest: seq<byte>)
    requires NameFits(sel) && 0 <= sel.ndx < |d.entries|
    ensures var data := d.Data(sel.ndx);
      Answer(d, tout, sel, PutSumHead(d.version, NULL_HEAD) + rest)
      == if d.Answers(sel.ndx) then
           Got((PutReply(d.version, tout, sel, NULL_HEAD, [Literal(data)], d.sum, data),
                PutIndex30(d.version, tout, sel.ndx).1), rest)
         else Invalid
  {
    NullHeadRoundTrip(d.version, rest);
  }

  /** A head with remainder -1 and one block sum, as a request for any non-empty file,
      makes the server index past the file. */
  lemma {:induction false} NegativeRemainderPanics(d: Daemon, tout: Trackers, sel: Selector, sum2: seq<byte>)
    requires NameFits(sel) && 0 <= sel.ndx < |d.entries| && d.files.regular(d.entries[sel.ndx].name)
    requires d.Data(sel.ndx) != [] && |sum2| == 16
    ensures Answer(d, tout, sel, PutSumHead(d.version, NEGATIVE_HEAD) + (PutU32(0) + sum2)) == Panic
  {
    var s := PutU32(0) + sum2;
    NegativeRemainderAccepted(d.version, s);
    U32RoundTrip(0, sum2);
    assert sum2[..16] == sum2 && sum2[16..] == [];
    assert GetBlocks(0, 16, 1, sum2[16..]) == Got([], []);
    assert GetBlocks(1, 16, 1, s) == Got([BlockSum(0, sum2, 1)] + [], []);
  }

  /** A head that passes the guards as the version carries it. */
  predicate Echoed(version: int, sh: SumHead) {
    CarriedHead(version, sh) == sh && Acceptable(version, sh)
  }

  /** A receiver with the blocks reads a reply whose tokens rebuild the data as that
      data, whatever follows, if and only if the head announces digests of the file
      checksum's length, which is what it takes the checksum to have. */
  lemma {:induction false} ReplyUnderstood(basis: int -> seq<byte>, version: int, t: Trackers, sel: Selector,
                                           sh: SumHead, tokens: seq<Token>, sum: FileSum, data: seq<byte>,
                                           rest: seq<byte>)
    requires Tracked(t) && NameFits(sel) && Echoable(version, sel) && Echoed(version, sh)
    requires Indexable(tokens) && Rebuild(tokens, basis) == data
    ensures var reply := PutReply(version, t, sel, sh, tokens, sum, data);
      var back := Got((data, PutIndex30(version, t, sel.ndx).1), rest);
      GetReplyOn(basis, version, t, sum, reply + rest) == back <==> DigestLength(sh) == |sum(data)|
  {
    var (s, t') := PutSelector(version, t, sel);
    var head, body := PutSumHead(version, sh), PutBody(tokens, sum, data);
    BodyRoundTrip(tokens, basis, sum, DigestLength(sh), data, rest);
    SelectorRoundTrip(version, t, sel, head + (body + rest));
    SumHeadRoundTrip(version, sh, body + rest);
    Assoc(s, head + body, rest);
    Assoc(head, body, rest);
    GetReplySteps(basis, version, t, sum, s + (head + (body + rest)), (Selectors.Carried(version, sel), t'),
                  head + (body + rest), sh, body + rest);
  }

  /** Heads that were read can be echoed. */
  lemma {:induction false} ReadHeadEchoed(version: int, s: seq<byte>)
    ensures GetSumHead(version, s).Got? ==> Echoed(version, GetSumHead(version, s).value)
  {
  }

  /** Whatever sums a client sends of its blocks, if the strong hash does not collide on
      them it rebuilds the file from the answer, if and only if the digests it sent have
      the file checksum's length. */
  lemma {:induction false} AnswerRebuilds(d: Daemon, t: Trackers, sel: Selector, s: seq<byte>, sh: SumHead,
                                          sums: seq<BlockSum>, s1: seq<byte>, basis: int -> seq<byte>, rest: seq<byte>)
    requires Tracked(t) && NameFits(sel) && Echoable(d.version, sel) && 0 <= sel.ndx < |d.entries|
    requires GetSums(d.version, s) == Got((sh, sums), s1) && Answer(d, t, sel, s).Got?
    requires var data := d.Data(sel.ndx);
      Searched(data, sh) && sh.blength > 0 ==> NoCollision(data, sh.blength, sums, d.strong, basis)
    ensures var data, answer := d.Data(sel.ndx), Answer(d, t, sel, s).value;
      GetReplyOn(basis, d.version, t, d.sum, answer.0 + rest) == Got((data, answer.1), rest)
      <==> DigestLength(sh) == |d.sum(data)|
  {
    AnswerGot(d, t, sel, s, sh, sums, s1);
    TokensRebuild(d.Data(sel.ndx), sh, sums, d.strong, basis);
    ReplyUnderstood(basis, d.version, t, sel, sh, Tokens(d.Data(sel.ndx), sh, sums, d.strong), d.sum,
                    d.Data(sel.ndx), rest);
  }

  /** What an answer consists of, and what made it possible. */
  lemma {:induction false} AnswerGot(d: Daemon, t: Trackers, sel: Selector, s: seq<byte>, sh: SumHead,
                                     sums: seq<BlockSum>, s1: seq<byte>)
    requires NameFits(sel) && 0 <= sel.ndx < |d.entries|
    requires GetSums(d.version, s) == Got((sh, sums), s1) && Answer(d, t, sel, s).Got?
    ensures Echoed(d.version, sh)
    ensures Searched(d.Data(sel.ndx), sh) ==>
      sh.blength > 0 && FromPeer(sums, sh.blength) && sums[|sums| - 1].len > 0
    ensures Answer(d, t, sel, s).value
         == (PutReply(d.version, t, sel, sh, Tokens(d.Data(sel.ndx), sh, sums, d.strong), d.sum, d.Data(sel.ndx)),
             PutIndex30(d.version, t, sel.ndx).1)
  {
    ReadHeadEchoed(d.version, s);
    AnswerSteps(d, t, sel, s, sh, sums, s1);
  }

  /** The client reads the answer to a null head as the contents. */
  lemma {:induction false} AnswerUnderstood(version: int, tout: Trackers, sel: Selector, sum: FileSum, data: seq<byte>,
                                            rest: seq<byte>)
    requires Tracked(tout) && NameFits(sel) && Echoable(version, sel) && |sum(data)| == 16
    ensures GetReply(version, tout, sum, PutReply(version, tout, sel, NULL_HEAD, [Literal(data)], sum, data) + rest)
         == Got((data, PutIndex30(version, tout, sel.ndx).1), rest)
  {
    OneLiteral(data, NO_BLOCKS);
    ReplyUnderstood(NO_BLOCKS, version, tout, sel, NULL_HEAD, [Literal(data)], sum, data, rest);
  }

  // -------------------------------------------------------------------- the methods

  /** sendFile: reads the sums and writes the answer, moving the tracker, or fails. */
  method SendFile(input: Stream, out: Stream, d: Daemon, sel: Selector, outNdx: NdxState) returns (ok: bool)
    requires input != out && NameFits(sel) && 0 <= sel.ndx < |d.entries|
    modifies input, out, outNdx
    ensures var spec := Answer(d, old(outNdx.State()), sel, old(input.buf));
      && ok == spec.Got?
      && (ok ==> out.buf == old(out.buf) + spec.value.0 && outNdx.State() == spec.value.1 && input.buf == spec.rest)
  {
    ghost var sent := input.buf;
    var y := ReceiveSums(input, d.version);
    ok := false;
    if !y.Got? || !d.Answers(sel.ndx) {
      return;
    }
    AnswerSteps(d, outNdx.State(), sel, sent, y.value.0, y.value.1, y.rest);
    ok := SendAnswer(out, d, sel, outNdx, d.Data(sel.ndx), y.value.0, y.value.1);
  }

  lemma {:induction false} AnswerSteps(d: Daemon, tout: Trackers, sel: Selector, s: seq<byte>, sh: SumHead,
                                       sums: seq<BlockSum>, rest: seq<byte>)
    requires NameFits(sel) && 0 <= sel.ndx < |d.entries| && GetSums(d.version, s) == Got((sh, sums), rest)
    requires d.Answers(sel.ndx)
    ensures Searched(d.Data(sel.ndx), sh) ==> sh.blength > 0 && FromPeer(sums, sh.blength)
    ensures var data := d.Data(sel.ndx);
      Answer(d, tout, sel, s) ==
      if Searched(data, sh) && sums[|sums| - 1].len < 0 then Panic
      else Got((PutReply(d.version, tout, sel, sh, Tokens(data, sh, sums, d.strong), d.sum, data),
                PutIndex30(d.version, tout, sel.ndx).1), rest)
  {
    SumsSearchable(d.version, s, sh, sums, rest);
  }

  /** The echoed selector and head, then matchSums. */
  method SendAnswer(out: Stream, d: Daemon, sel: Selector, outNdx: NdxState, data: seq<byte>, sh: SumHead,
                    sums: seq<BlockSum>)
      returns (ok: bool)
    requires NameFits(sel) && (Searched(data, sh) ==> sh.blength > 0 && FromPeer(sums, sh.blength))
    modifies out, outNdx
    ensures ok <==> !(Searched(data, sh) && sums[|sums| - 1].len < 0)
    ensures var reply := PutReply(d.version, old(outNdx.State()), sel, sh, Tokens(data, sh, sums, d.strong), d.sum,
                                  data);
      ok ==> out.buf == old(out.buf) + reply
    ensures outNdx.State() == PutIndex30(d.version, old(outNdx.State()), sel.ndx).1
  {
    ghost var start, echo, head := out.buf, PutSelector(d.version, outNdx.State(), sel).0, PutSumHead(d.version, sh);
    var _ := WriteSelector(out, outNdx, d.version, sel);
    out.Write(PutSumHead(d.version, sh));
    var dw := new DeltaWriter(out);
    ok := MatchSums(dw, data, sh, sums, d.strong, d.sum);
    if ok {
      ghost var body := PutBody(Tokens(data, sh, sums, d.strong), d.sum, data);
      Assoc(start + echo, head, body);
      Assoc(start, echo, head + body);
    }
  }

  /** openFile up to its first read. */
  method WriteRequest(out: Stream, ndx: NdxState, version: int, idx: int32)
    modifies out, ndx
    ensures out.buf == old(out.buf) + PutRequest(version, old(ndx.State()), idx).0
    ensures ndx.State() == PutRequest(version, old(ndx.State()), idx).1
  {
    WantedFlags(version, idx);
    ghost var start, s := out.buf, PutSelector(version, ndx.State(), Selector(idx, WANTED, 0, [])).0;
    var _ := WriteSelector(out, ndx, version, Selector(idx, WANTED, 0, []));
    out.Write(PutSumHead(version, NULL_HEAD));
    Assoc(start, s, PutSumHead(version, NULL_HEAD));
  }

  /** openFile from its first read on. */
  method ReadAnswer(r: Stream, recvNdx: NdxState, version: int, sum: FileSum) returns (res: Read<seq<byte>>)
    modifies r, recvNdx
    ensures var spec := GetReply(version, old(recvNdx.State()), sum, old(r.buf));
      if spec.Got? then res == Got(spec.value.0, spec.rest) && recvNdx.State() == spec.value.1 && r.buf == spec.rest
      else res == spec.PropagateFailure<seq<byte>>()
  {
    var echo := ReadSelector(r, recvNdx, version);
    if !echo.Got? {
      return echo.PropagateFailure();
    }
    var head := GetSumHead(version, r.buf);
    if !head.Got? {
      return head.PropagateFailure();
    }
    r.buf := head.rest;
    res := ReadBody(r, DigestLength(head.value), sum);
  }

  /** What is still to come, behind the data already read. */
  ghost function DataFrom(data: seq<byte>, residue: nat, s: seq<byte>): Read<seq<byte>> {
    var (ts, s1) :- Parse(residue, s);
    Got(data + Rebuild(ts, NO_BLOCKS), s1)
  }

  /** One token more. */
  lemma {:induction false} DataStep(data: seq<byte>, residue: nat, s: seq<byte>)
    ensures var item, all := GetItem(residue, s), DataFrom(data, residue, s);
      if !item.Got? then all == item.PropagateFailure<seq<byte>>()
      else match item.value.0
        case End => all == Got(data, item.rest)
        case Data(d) => all == DataFrom(data + d, item.value.1, item.rest)
        case Ref(_) => all == DataFrom(data, item.value.1, item.rest)
  {
    var item := GetItem(residue, s);
    if item.Got? {
      NoBytes(data);
      var later := Parse(item.value.1, item.rest);
      if later.Got? && !item.value.0.End? {
        var t := if item.value.0.Data? then Literal(item.value.0.data) else Match(item.value.0.idx);
        RebuildFirst(t, later.value);
        if item.value.0.Data? {
          Assoc(data, item.value.0.data, Rebuild(later.value, NO_BLOCKS));
        } else {
          NoBytes(Rebuild(later.value, NO_BLOCKS));
        }
      }
    }
  }

  lemma {:induction false} RebuildFirst(t: Token, ts: seq<Token>)
    ensures Rebuild([t] + ts, NO_BLOCKS) == (if t.Literal? then t.data else []) + Rebuild(ts, NO_BLOCKS)
  {
    assert ([t] + ts)[1..] == ts;
  }

  /** The loop over the tokens. */
  method ReadTokens(r: Stream) returns (res: Read<seq<byte>>)
    modifies r
    ensures res == DataFrom([], 0, old(r.buf))
    ensures res.Got? ==> r.buf == res.rest
  {
    var dr := new DeltaReader(r);
    var data: seq<byte> := [];
    while true
      invariant dr.Valid() && dr.r == r && fresh(dr) && fresh(dr.buf)
      invariant DataFrom(data, dr.residue, r.buf) == DataFrom([], 0, old(r.buf))
      decreases |r.buf|
    {
      GetItemConsumes(dr.residue, r.buf);
      DataStep(data, dr.residue, r.buf);
      var item := dr.ReadToken();
      if !item.Got? {
        return item.PropagateFailure();
      }
      match item.value {
        case End =>
          return Got(data, r.buf);
        case Data(d) =>
          data := data + d;
        case Ref(_) =>
      }
    }
  }

  /** The tokens, and the checksum. */
  method ReadBody(r: Stream, s2len: nat, sum: FileSum) returns (res: Read<seq<byte>>)
    modifies r
    ensures res == GetBody(NO_BLOCKS, sum, s2len, old(r.buf))
    ensures res.Got? ==> r.buf == res.rest
  {
    AllData(r.buf);
    var data := ReadTokens(r);
    if !data.Got? {
      return data;
    }
    var want := r.ReadFull(s2len);
    if !want.Got? {
      return want.PropagateFailure();
    }
    return if sum(data.value) == want.value then Got(data.value, r.buf) else Invalid;
  }

  lemma {:induction false} AllData(s: seq<byte>)
    ensures var p := Parse(0, s);
      DataFrom([], 0, s) == if p.Got? then Got(Rebuild(p.value, NO_BLOCKS), p.rest) else p.PropagateFailure()
  {
    var p := Parse(0, s);
    if p.Got? {
      NoBytes(Rebuild(p.value, NO_BLOCKS));
    }
  }
}
