/** A whole session in bytes (client-open.go readFileList, openFile, finishSession and
    finalGoodbye against server-send.go recvFilterList, sendFileList, sendFiles,
    sendStats and readFinalGoodbye).

    The server is a function from the bytes it reads to the bytes it writes, the
    client one from the bytes it reads to what it learns. `Sessions` shows that the
    two get through their dialogue without blocking; here each understands, byte by
    byte, what the other said, for any number of requests in one session.
 */
module Conversation {
  import opened Bytes
  import opened WireInts
  import opened Ndx
  import opened Selectors
  import opened SumHeads
  import opened Delta
  import opened Paths
  import opened FlistOrder
  import opened FlistSort
  import opened FlistTree
  import opened Flist
  import opened FlistProofs
  import opened FlistLists
  import opened Transfer

  const NDX_FLIST_EOF: int32 := -2
  const NDX_DEL_STATS: int32 := -3

  // ------------------------------------------------------------------------- NDX_DONE

  function PutDone(version: int): seq<byte> {
    if version >= 30 then [0] else PutI32(NDX_DONE)
  }

  /** n times NDX_DONE, in front of what follows. */
  function PutDones(version: int, n: nat, tail: seq<byte>): seq<byte> {
    if n == 0 then tail else PutDone(version) + PutDones(version, n - 1, tail)
  }

  /** readPhaseNdx. */
  function GetDone(version: int, t: Trackers, s: seq<byte>): Read<Trackers> {
    if version >= 29 then
      var (x, s1) :- GetSelector(version, t, s);
      if x.0.ndx == NDX_DONE then Got(x.1, s1) else Invalid
    else
      var (v, s1) :- GetI32(s);
      if v == NDX_DONE then Got(t, s1) else Invalid
  }

  function GetDones(version: int, n: nat, t: Trackers, s: seq<byte>): Read<Trackers>
    decreases n
  {
    if n == 0 then Got(t, s)
    else
      var (t1, s1) :- GetDone(version, t, s);
      GetDones(version, n - 1, t1, s1)
  }

  const DONE: Selector := Selector(NDX_DONE, WANTED, 0, [])

  lemma {:induction false} DoneWritten(version: int, t: Trackers)
    ensures PutIndex30(version, t, NDX_DONE) == (PutDone(version), t)
  {
  }

  /** NDX_DONE is read as a selector without flags, and moves no tracker. */
  lemma {:induction false} DoneRead(version: int, t: Trackers, rest: seq<byte>)
    ensures GetSelector(version, t, PutDone(version) + rest) == Got((DONE, t), rest)
  {
    DoneIndex(version, t, rest);
    FlaglessParts(version, DONE, rest);
    SelectorSteps(version, t, PutDone(version) + rest, NDX_DONE, t, rest, WANTED, rest, DONE, rest);
  }

  lemma {:induction false} DoneIndex(version: int, t: Trackers, rest: seq<byte>)
    ensures GetIndex30(version, t, PutDone(version) + rest) == Got((NDX_DONE, t), rest)
  {
    if version >= 30 {
      DoneNeedsNoTracker(t, t, rest);
    } else {
      I32RoundTrip(NDX_DONE, rest);
    }
  }

  lemma {:induction false} DonesRead(version: int, n: nat, t: Trackers, rest: seq<byte>)
    ensures GetDones(version, n, t, PutDones(version, n, rest)) == Got(t, rest)
    decreases n
  {
    if n > 0 {
      var later := PutDones(version, n - 1, rest);
      DoneRead(version, t, later);
      I32RoundTrip(NDX_DONE, later);
      DonesRead(version, n - 1, t, rest);
    }
  }

  // ------------------------------------------------------------------------ sendFiles

  lemma {:induction false} FormConsumes(first: byte, s: seq<byte>)
    ensures GetForm(first, s).Got? ==> |GetForm(first, s).rest| <= |s|
  {
  }

  lemma {:induction false} NdxConsumes(t: Trackers, s: seq<byte>)
    ensures GetNdx(t, s).Got? ==> |GetNdx(t, s).rest| < |s|
  {
    if |s| > 0 {
      FormConsumes(s[0], s[1..]);
      if |s| > 1 {
        FormConsumes(s[1], s[1..][1..]);
      }
    }
  }

  lemma {:induction false} SelectorConsumes(version: int, t: Trackers, s: seq<byte>)
    ensures GetSelector(version, t, s).Got? ==> |GetSelector(version, t, s).rest| < |s|
  {
    IndexConsumes(version, t, s);
    IndexKept(version, t, s);
  }

  lemma {:induction false} IndexConsumes(version: int, t: Trackers, s: seq<byte>)
    ensures GetIndex30(version, t, s).Got? ==> |GetIndex30(version, t, s).rest| < |s|
  {
    NdxConsumes(t, s);
  }

  lemma {:induction false} BlocksConsume(n: nat, s2len: nat, blen: int32, s: seq<byte>)
    ensures GetBlocks(n, s2len, blen, s).Got? ==> |GetBlocks(n, s2len, blen, s).rest| <= |s|
    decreases n
  {
    if n > 0 && GetU32(s).Got? && Take(GetU32(s).rest, s2len).Got? {
      BlocksConsume(n - 1, s2len, blen, Take(GetU32(s).rest, s2len).rest);
    }
  }

  lemma {:induction false} HeadConsumes(version: int, s: seq<byte>)
    ensures GetSumHead(version, s).Got? ==> |GetSumHead(version, s).rest| <= |s|
  {
  }

  lemma {:induction false} SumsConsume(version: int, s: seq<byte>)
    ensures GetSums(version, s).Got? ==> |GetSums(version, s).rest| <= |s|
  {
    HeadConsumes(version, s);
    var h := GetSumHead(version, s);
    if h.Got? && h.value.count > 0 {
      BlocksConsume(h.value.count, DigestLength(h.value), h.value.blength, h.rest);
    }
  }

  lemma {:induction false} AnswerConsumes(d: Daemon, tout: Trackers, sel: Selector, s: seq<byte>)
    requires NameFits(sel) && 0 <= sel.ndx < |d.entries|
    ensures Answer(d, tout, sel, s).Got? ==> |Answer(d, tout, sel, s).rest| <= |s|
  {
    SumsConsume(d.version, s);
  }

  /** n items read and dropped. */
  function Skip<T>(get: seq<byte> -> Read<T>, n: nat, s: seq<byte>): Read<()>
    decreases n
  {
    if n == 0 then Got((), s)
    else
      var (_, s1) :- get(s);
      Skip(get, n - 1, s1)
  }

  lemma {:induction false} SkipOne<T>(get: seq<byte> -> Read<T>, n: nat, s: seq<byte>)
    requires n > 0
    ensures var v := get(s);
      Skip(get, n, s) == if v.Got? then Skip(get, n - 1, v.rest) else v.PropagateFailure()
  {
  }

  lemma {:induction false} SkipConsumes<T>(get: seq<byte> -> Read<T>, n: nat, s: seq<byte>)
    requires forall x :: get(x).Got? ==> |get(x).rest| <= |x|
    ensures Skip(get, n, s).Got? ==> |Skip(get, n, s).rest| <= |s|
    decreases n
  {
    if n > 0 && get(s).Got? {
      SkipConsumes(get, n - 1, get(s).rest);
    }
  }

  /** The generator's delete statistics. */
  function GetDelStats(s: seq<byte>): (r: Read<()>)
    ensures r.Got? ==> |r.rest| <= |s|
  {
    SkipConsumes(GetVarint, 5, s);
    Skip(GetVarint, 5, s)
  }

  /** One turn of the selector loop: what is written, and how the loop goes on. */
  datatype Turn = Last(out: seq<byte>) | Go(out: seq<byte>, phase: nat, tout: Trackers)

  /** The branches of sendFiles for a selector, from the bytes behind it. */
  function React(d: Daemon, phase: nat, tout: Trackers, sel: Selector, s: seq<byte>): Read<Turn>
    requires NameFits(sel)
  {
    if sel.ndx == NDX_DONE then
      var (echo, tout') := PutIndex30(d.version, tout, NDX_DONE);
      Got(if phase + 1 > MaxPhase(d.version) then Last(echo) else Go(echo, phase + 1, tout'), s)
    else if sel.ndx == NDX_FLIST_EOF then Invalid
    else if sel.ndx == NDX_DEL_STATS then
      var (_, s1) :- GetDelStats(s);
      var (echo, tout') := PutIndex30(d.version, tout, NDX_DEL_STATS);
      Got(Go(echo + [0, 0, 0, 0, 0], phase, tout'), s1)
    else if sel.ndx < 0 then Invalid
    else if d.version < 30 && sel.ndx == Signed32(|d.entries|) && sel.iflags == ITEM_IS_NEW then
      Got(Go([], phase, tout), s)
    else if sel.ndx >= |d.entries| then Invalid
    else if sel.iflags / ITEM_TRANSFER % 2 == 0 then
      var (echo, tout') := PutSelector(d.version, tout, sel);
      Got(Go(echo, phase, tout'), s)
    else if phase == 2 then Invalid
    else
      var (a, s1) :- Answer(d, tout, sel, s);
      Got(Go(a.0, phase, a.1), s1)
  }

  lemma {:induction false} ReactConsumes(d: Daemon, phase: nat, tout: Trackers, sel: Selector, s: seq<byte>)
    requires NameFits(sel)
    ensures React(d, phase, tout, sel, s).Got? ==> |React(d, phase, tout, sel, s).rest| <= |s|
  {
    if 0 <= sel.ndx < |d.entries| {
      AnswerConsumes(d, tout, sel, s);
    }
  }

  /** sendFiles: what the server writes in answer to the bytes it reads, up to the
      NDX_DONE that ends the last phase. */
  function Serve(d: Daemon, phase: nat, tin: Trackers, tout: Trackers, s: seq<byte>): Read<seq<byte>>
    decreases |s|
  {
    SelectorConsumes(d.version, tin, s);
    var (x, s1) :- GetSelector(d.version, tin, s);
    ReactConsumes(d, phase, tout, x.0, s1);
    var (turn, s2) :- React(d, phase, tout, x.0, s1);
    match turn
    case Last(out) => Got(out, s2)
    case Go(out, phase', tout') => Prepend(out, Serve(d, phase', x.1, tout', s2))
  }

  /** One turn, from what its parts give. */
  lemma {:induction false} ServeTurn(d: Daemon, phase: nat, tin: Trackers, tout: Trackers, s: seq<byte>, sel: Selector,
                                     t: Trackers, s1: seq<byte>, turn: Turn, s2: seq<byte>)
    requires GetSelector(d.version, tin, s) == Got((sel, t), s1)
    requires NameFits(sel) && React(d, phase, tout, sel, s1) == Got(turn, s2)
    ensures Serve(d, phase, tin, tout, s) ==
      match turn
      case Last(out) => Got(out, s2)
      case Go(out, phase', tout') => Prepend(out, Serve(d, phase', t, tout', s2))
  {
  }

  lemma {:induction false} ReactToDone(d: Daemon, phase: nat, tout: Trackers, s: seq<byte>)
    ensures NameFits(DONE)
    ensures React(d, phase, tout, DONE, s) ==
      Got(if phase + 1 > MaxPhase(d.version) then Last(PutDone(d.version))
          else Go(PutDone(d.version), phase + 1, tout), s)
  {
    DoneWritten(d.version, tout);
  }

  lemma {:induction false} ServeLastDone(d: Daemon, tin: Trackers, tout: Trackers, wire: seq<byte>, rest: seq<byte>)
    requires GetSelector(d.version, tin, wire) == Got((DONE, tin), rest)
    ensures Serve(d, MaxPhase(d.version), tin, tout, wire) == Got(PutDone(d.version), rest)
  {
    var phase := MaxPhase(d.version);
    ReactToDone(d, phase, tout, rest);
    ServeTurn(d, phase, tin, tout, wire, DONE, tin, rest, Last(PutDone(d.version)), rest);
  }

  lemma {:induction false} ServeDone(d: Daemon, phase: nat, tin: Trackers, tout: Trackers, wire: seq<byte>,
                                     rest: seq<byte>)
    requires GetSelector(d.version, tin, wire) == Got((DONE, tin), rest) && phase < MaxPhase(d.version)
    ensures Serve(d, phase, tin, tout, wire) == Prepend(PutDone(d.version), Serve(d, phase + 1, tin, tout, rest))
  {
    ReactToDone(d, phase, tout, rest);
    ServeTurn(d, phase, tin, tout, wire, DONE, tin, rest, Go(PutDone(d.version), phase + 1, tout), rest);
  }

  /** The NDX_DONE of every remaining phase is echoed, and the last one ends the loop. */
  lemma {:induction false} DonesServed(d: Daemon, phase: nat, tin: Trackers, tout: Trackers, n: nat, rest: seq<byte>)
    requires 0 < n == MaxPhase(d.version) + 1 - phase
    ensures Serve(d, phase, tin, tout, PutDones(d.version, n, rest)) == Got(PutDones(d.version, n, []), rest)
    decreases n
  {
    var later := PutDones(d.version, n - 1, rest);
    DoneRead(d.version, tin, later);
    DonesOne(d.version, n);
    if n == 1 {
      ServeLastDone(d, tin, tout, PutDones(d.version, n, rest), rest);
    } else {
      ServeDone(d, phase, tin, tout, PutDones(d.version, n, rest), later);
      DonesServed(d, phase + 1, tin, tout, n - 1, rest);
    }
  }

  lemma {:induction false} DonesOne(version: int, n: nat)
    requires n > 0
    ensures PutDones(version, n, [])
         == if n == 1 then PutDone(version) else PutDone(version) + PutDones(version, n - 1, [])
  {
    assert PutDone(version) + [] == PutDone(version);
  }

  datatype Status = Ended | Goes | Failed

  /** The body of the loop in sendFiles. */
  method ReactTo(input: Stream, out: Stream, d: Daemon, phase: nat, sel: Selector, outNdx: NdxState)
      returns (status: Status, phase': nat)
    requires input != out && NameFits(sel)
    modifies input, out, outNdx
    ensures var spec := React(d, phase, old(outNdx.State()), sel, old(input.buf));
      if spec.Got? then
        && input.buf == spec.rest && out.buf == old(out.buf) + spec.value.out
        && status == (if spec.value.Last? then Ended else Goes)
        && (spec.value.Go? ==> phase' == spec.value.phase && outNdx.State() == spec.value.tout)
      else status == Failed
  {
    status, phase' := Goes, phase;
    if sel.ndx == NDX_DONE {
      phase' := phase + 1;
      EchoNdx(out, outNdx, d.version, NDX_DONE);
      if phase' > MaxPhase(d.version) {
        status := Ended;
      }
    } else if sel.ndx == NDX_FLIST_EOF {
      status := Failed;
    } else if sel.ndx == NDX_DEL_STATS {
      status := EchoDelStats(input, out, outNdx, d.version);
    } else if sel.ndx < 0 {
      status := Failed;
    } else if d.version < 30 && sel.ndx == Signed32(|d.entries|) && sel.iflags == ITEM_IS_NEW {
      assert out.buf + [] == out.buf;
    } else if sel.ndx >= |d.entries| {
      status := Failed;
    } else if sel.iflags / ITEM_TRANSFER % 2 == 0 {
      var _ := WriteSelector(out, outNdx, d.version, sel);
    } else if phase == 2 {
      status := Failed;
    } else {
      var ok := SendFile(input, out, d, sel, outNdx);
      if !ok {
        status := Failed;
      }
    }
  }

  method EchoNdx(out: Stream, outNdx: NdxState, version: int, ndx: int32)
    modifies out, outNdx
    ensures out.buf == old(out.buf) + PutIndex30(version, old(outNdx.State()), ndx).0
    ensures outNdx.State() == PutIndex30(version, old(outNdx.State()), ndx).1
  {
    if version >= 30 {
      outNdx.WriteNdx(out, ndx);
    } else {
      out.Write(PutI32(ndx));
    }
  }

  method EchoDelStats(input: Stream, out: Stream, outNdx: NdxState, version: int) returns (status: Status)
    requires input != out
    modifies input, out, outNdx
    ensures var spec, echo := GetDelStats(old(input.buf)), PutIndex30(version, old(outNdx.State()), NDX_DEL_STATS);
      if spec.Got? then
        && status == Goes && input.buf == spec.rest && outNdx.State() == echo.1
        && out.buf == old(out.buf) + (echo.0 + [0, 0, 0, 0, 0])
      else status == Failed
  {
    var ok := SkipNumbers(input, 5);
    if !ok {
      return Failed;
    }
    EchoNdx(out, outNdx, version, NDX_DEL_STATS);
    WriteZeros(out);
    Assoc(old(out.buf), PutIndex30(version, old(outNdx.State()), NDX_DEL_STATS).0, [0, 0, 0, 0, 0]);
    return Goes;
  }

  method SkipNumbers(input: Stream, count: nat) returns (ok: bool)
    modifies input
    ensures var spec := Skip(GetVarint, count, old(input.buf));
      ok == spec.Got? && (ok ==> input.buf == spec.rest)
  {
    var n := count;
    ghost var all := Skip(GetVarint, count, input.buf);
    while n > 0
      invariant StillToSkip(n, input.buf, all)
    {
      ghost var s := input.buf;
      var v := ReadVarint(input);
      NextSkipped(n, s, all);
      if !v.Got? {
        return false;
      }
      n := n - 1;
    }
    return true;
  }

  /** Skipping n more numbers completes the read of all. */
  ghost predicate StillToSkip(n: nat, s: seq<byte>, all: Read<()>) {
    Skip(GetVarint, n, s) == all
  }

  lemma {:induction false} NextSkipped(n: nat, s: seq<byte>, all: Read<()>)
    requires n > 0 && StillToSkip(n, s, all)
    ensures var v := GetVarint(s); if v.Got? then StillToSkip(n - 1, v.rest, all) else !all.Got?
  {
    SkipOne(GetVarint, n, s);
  }

  method WriteZeros(out: Stream)
    modifies out
    ensures out.buf == old(out.buf) + [0, 0, 0, 0, 0]
  {
    SmallVarint(0);
    for i := 0 to 5
      invariant out.buf == old(out.buf) + [0, 0, 0, 0, 0][..i]
    {
      WriteVarint(out, 0);
      assert [0, 0, 0, 0, 0][..i + 1] == [0, 0, 0, 0, 0][..i] + [0];
    }
  }

  /** The selector loop: it writes what `Serve` says, and consumes as much. */
  method SendFiles(input: Stream, out: Stream, d: Daemon) returns (ok: bool)
    requires input != out
    modifies input, out
    ensures var spec := Serve(d, 0, FRESH, FRESH, old(input.buf));
      ok == spec.Got? && (ok ==> out.buf == old(out.buf) + spec.value && input.buf == spec.rest)
  {
    var inNdx := new NdxState();
    var outNdx := new NdxState();
    var phase := 0;
    ghost var all, written := Serve(d, 0, FRESH, FRESH, input.buf), [];
    PrependNone(all);
    assert out.buf + [] == out.buf;
    while true
      invariant fresh(inNdx) && fresh(outNdx) && inNdx != outNdx
      invariant out.buf == old(out.buf) + written
      invariant Prepend(written, Serve(d, phase, inNdx.State(), outNdx.State(), input.buf)) == all
      decreases |input.buf|
    {
      ghost var s, tin, tout, before := input.buf, inNdx.State(), outNdx.State(), out.buf;
      SelectorConsumes(d.version, tin, s);
      var sel := ReadSelector(input, inNdx, d.version);
      if !sel.Got? {
        ServeNothing(d, phase, tin, tout, s);
        return false;
      }
      ghost var s1 := input.buf;
      ReactConsumes(d, phase, tout, sel.value, s1);
      ghost var turn := React(d, phase, tout, sel.value, s1);
      ServeUnfolds(d, phase, tin, tout, s);
      var status;
      status, phase := ReactTo(input, out, d, phase, sel.value, outNdx);
      if status == Failed {
        return false;
      }
      Assoc(old(out.buf), written, turn.value.out);
      if status == Ended {
        return true;
      }
      PrependConcat(written, turn.value.out, Serve(d, phase, inNdx.State(), outNdx.State(), input.buf));
      written := written + turn.value.out;
    }
  }

  lemma {:induction false} ServeNothing(d: Daemon, phase: nat, tin: Trackers, tout: Trackers, s: seq<byte>)
    requires !GetSelector(d.version, tin, s).Got?
    ensures !Serve(d, phase, tin, tout, s).Got?
  {
  }

  lemma {:induction false} ServeUnfolds(d: Daemon, phase: nat, tin: Trackers, tout: Trackers, s: seq<byte>)
    requires GetSelector(d.version, tin, s).Got?
    ensures var x := GetSelector(d.version, tin, s);
      var turn, r := React(d, phase, tout, x.value.0, x.rest), Serve(d, phase, tin, tout, s);
      && (!turn.Got? ==> !r.Got?)
      && (turn.Got? && turn.value.Last? ==> r == Got(turn.value.out, turn.rest))
      && (turn.Got? && turn.value.Go? ==>
            r == Prepend(turn.value.out, Serve(d, turn.value.phase, x.value.1, turn.value.tout, turn.rest)))
  {
  }

  // ------------------------------------------------------------------------- requests

  function Wanted(ndx: int32): Selector {
    Selector(ndx, WANTED, 0, [])
  }

  /** The client's requests, one after another. */
  function PutRequests(version: int, t: Trackers, ndxs: seq<int32>, tail: seq<byte>): seq<byte>
    decreases |ndxs|
  {
    if ndxs == [] then tail
    else
      var (s, t') := PutSelector(version, t, Wanted(ndxs[0]));
      s + (PutSumHead(version, NULL_HEAD) + PutRequests(version, t', ndxs[1..], tail))
  }

  /** Indices of entries. */
  predicate Listed(d: Daemon, ndxs: seq<int32>) {
    forall i :: 0 <= i < |ndxs| ==> 0 <= ndxs[i] < |d.entries|
  }

  /** Indices of entries that the server does not refuse. */
  predicate Servable(d: Daemon, ndxs: seq<int32>) {
    forall i :: 0 <= i < |ndxs| ==> 0 <= ndxs[i] < |d.entries| && d.Answers(ndxs[i])
  }

  function Contents(d: Daemon, ndxs: seq<int32>): seq<seq<byte>>
    requires Servable(d, ndxs)
  {
    if ndxs == [] then [] else [d.Data(ndxs[0])] + Contents(d, ndxs[1..])
  }

  function ReplyTo(d: Daemon, t: Trackers, ndx: int32): seq<byte>
    requires 0 <= ndx < |d.entries|
  {
    WantedFlags(d.version, ndx);
    PutReply(d.version, t, Selectors.Carried(d.version, Wanted(ndx)), NULL_HEAD, [Literal(d.Data(ndx))], d.sum,
             d.Data(ndx))
  }

  /** The server's replies, one after another. */
  function Replies(d: Daemon, t: Trackers, ndxs: seq<int32>, tail: seq<byte>): seq<byte>
    requires Servable(d, ndxs)
    decreases |ndxs|
  {
    if ndxs == [] then tail
    else ReplyTo(d, t, ndxs[0]) + Replies(d, PutIndex30(d.version, t, ndxs[0]).1, ndxs[1..], tail)
  }

  lemma {:induction false} ReactToRequest(d: Daemon, tout: Trackers, ndx: int32, rest: seq<byte>)
    requires 0 <= ndx < |d.entries|
    ensures var sel := Selectors.Carried(d.version, Wanted(ndx));
      NameFits(sel) && React(d, 0, tout, sel, PutSumHead(d.version, NULL_HEAD) + rest)
      == if d.Answers(ndx) then Got(Go(ReplyTo(d, tout, ndx), 0, PutIndex30(d.version, tout, ndx).1), rest)
         else Invalid
  {
    WantedFlags(d.version, ndx);
    var sel := Selectors.Carried(d.version, Wanted(ndx));
    assert sel.iflags != ITEM_IS_NEW;
    NullHeadAnswered(d, tout, sel, rest);
  }

  lemma {:induction false} ServeRequest(d: Daemon, tin: Trackers, tout: Trackers, ndx: int32, rest: seq<byte>)
    requires Tracked(tin) && 0 <= ndx < |d.entries|
    ensures var (s, t) := PutSelector(d.version, tin, Wanted(ndx));
      Serve(d, 0, tin, tout, s + (PutSumHead(d.version, NULL_HEAD) + rest))
      == if d.Answers(ndx) then Prepend(ReplyTo(d, tout, ndx), Serve(d, 0, t, PutIndex30(d.version, tout, ndx).1, rest))
         else Invalid
  {
    var (s, t) := PutSelector(d.version, tin, Wanted(ndx));
    var later := PutSumHead(d.version, NULL_HEAD) + rest;
    WantedFlags(d.version, ndx);
    SelectorRoundTrip(d.version, tin, Wanted(ndx), later);
    ReactToRequest(d, tout, ndx, rest);
    if d.Answers(ndx) {
      ServeTurn(d, 0, tin, tout, s + later, Selectors.Carried(d.version, Wanted(ndx)), t, later,
                Go(ReplyTo(d, tout, ndx), 0, PutIndex30(d.version, tout, ndx).1), rest);
    } else {
      ServeRefuses(d, 0, tin, tout, s + later, Selectors.Carried(d.version, Wanted(ndx)), t, later);
    }
  }

  lemma {:induction false} ServeRefuses(d: Daemon, phase: nat, tin: Trackers, tout: Trackers, s: seq<byte>,
                                        sel: Selector, t: Trackers, s1: seq<byte>)
    requires GetSelector(d.version, tin, s) == Got((sel, t), s1)
    requires NameFits(sel) && React(d, phase, tout, sel, s1) == Invalid
    ensures Serve(d, phase, tin, tout, s) == Invalid
  {
  }

  lemma {:induction false} TrackersKept(version: int, t: Trackers, ndx: int32)
    requires Tracked(t) && ndx >= 0
    ensures Tracked(PutIndex30(version, t, ndx).1)
    ensures PutSelector(version, t, Wanted(ndx)).1 == PutIndex30(version, t, ndx).1
  {
  }

  /** The server answers any sequence of requests that it does not refuse, each with
      the contents of the entry it names or, if that is no regular file, with nothing,
      echoes the phases, and stops where the client's selector phase ends. */
  lemma {:induction false} RequestsServed(d: Daemon, tin: Trackers, tout: Trackers, ndxs: seq<int32>, rest: seq<byte>)
    requires Tracked(tin) && Tracked(tout) && Servable(d, ndxs)
    ensures var n := MaxPhase(d.version) + 1;
      Serve(d, 0, tin, tout, PutRequests(d.version, tin, ndxs, PutDones(d.version, n, rest)))
      == Got(Replies(d, tout, ndxs, PutDones(d.version, n, [])), rest)
    decreases |ndxs|
  {
    var n := MaxPhase(d.version) + 1;
    if ndxs == [] {
      DonesServed(d, 0, tin, tout, n, rest);
    } else {
      var t, t' := PutIndex30(d.version, tin, ndxs[0]).1, PutIndex30(d.version, tout, ndxs[0]).1;
      TrackersKept(d.version, tin, ndxs[0]);
      TrackersKept(d.version, tout, ndxs[0]);
      ServeRequest(d, tin, tout, ndxs[0], PutRequests(d.version, t, ndxs[1..], PutDones(d.version, n, rest)));
      RequestsServed(d, t, t', ndxs[1..], rest);
    }
  }

  /** One refused request among any others, and the selector phase fails, whatever
      follows. */
  lemma {:induction false} RequestsRefused(d: Daemon, tin: Trackers, tout: Trackers, ndxs: seq<int32>, tail: seq<byte>)
    requires Tracked(tin) && Tracked(tout) && Listed(d, ndxs) && !Servable(d, ndxs)
    ensures Serve(d, 0, tin, tout, PutRequests(d.version, tin, ndxs, tail)) == Invalid
    decreases |ndxs|
  {
    var t, t' := PutIndex30(d.version, tin, ndxs[0]).1, PutIndex30(d.version, tout, ndxs[0]).1;
    TrackersKept(d.version, tin, ndxs[0]);
    TrackersKept(d.version, tout, ndxs[0]);
    ServeRequest(d, tin, tout, ndxs[0], PutRequests(d.version, t, ndxs[1..], tail));
    if d.Answers(ndxs[0]) {
      RequestsRefused(d, t, t', ndxs[1..], tail);
    }
  }

  /** The client reading n answers. */
  function GetAnswers(version: int, sum: FileSum, n: nat, t: Trackers, s: seq<byte>): Read<(seq<seq<byte>>, Trackers)>
    decreases n
  {
    if n == 0 then Got(([], t), s)
    else
      var (x, s1) :- GetReply(version, t, sum, s);
      var (xs, s2) :- GetAnswers(version, sum, n - 1, x.1, s1);
      Got(([x.0] + xs.0, xs.1), s2)
  }

  function TrackersAfter(version: int, t: Trackers, ndxs: seq<int32>): Trackers
    decreases |ndxs|
  {
    if ndxs == [] then t else TrackersAfter(version, PutIndex30(version, t, ndxs[0]).1, ndxs[1..])
  }

  lemma {:induction false} ReplyRead(d: Daemon, t: Trackers, ndx: int32, rest: seq<byte>)
    requires Tracked(t) && 0 <= ndx < |d.entries| && Sixteen(d.sum)
    ensures GetReply(d.version, t, d.sum, ReplyTo(d, t, ndx) + rest)
         == Got((d.Data(ndx), PutIndex30(d.version, t, ndx).1), rest)
  {
    WantedFlags(d.version, ndx);
    AnswerUnderstood(d.version, t, Selectors.Carried(d.version, Wanted(ndx)), d.sum, d.Data(ndx), rest);
  }

  /** The client reads the replies as the contents, in order. */
  lemma {:induction false} RepliesRead(d: Daemon, t: Trackers, ndxs: seq<int32>, rest: seq<byte>)
    requires Tracked(t) && Servable(d, ndxs) && Sixteen(d.sum)
    ensures GetAnswers(d.version, d.sum, |ndxs|, t, Replies(d, t, ndxs, rest))
         == Got((Contents(d, ndxs), TrackersAfter(d.version, t, ndxs)), rest)
    decreases |ndxs|
  {
    if ndxs != [] {
      var t' := PutIndex30(d.version, t, ndxs[0]).1;
      TrackersKept(d.version, t, ndxs[0]);
      ReplyRead(d, t, ndxs[0], Replies(d, t', ndxs[1..], rest));
      RepliesRead(d, t', ndxs[1..], rest);
    }
  }

  lemma {:induction false} RepliesTail(d: Daemon, t: Trackers, ndxs: seq<int32>, a: seq<byte>, b: seq<byte>)
    requires Servable(d, ndxs)
    ensures Replies(d, t, ndxs, a) + b == Replies(d, t, ndxs, a + b)
    decreases |ndxs|
  {
    if ndxs != [] {
      var t' := PutIndex30(d.version, t, ndxs[0]).1;
      Assoc(ReplyTo(d, t, ndxs[0]), Replies(d, t', ndxs[1..], a), b);
      RepliesTail(d, t', ndxs[1..], a, b);
    }
  }

  lemma {:induction false} DonesTail(version: int, n: nat, a: seq<byte>, b: seq<byte>)
    ensures PutDones(version, n, a) + b == PutDones(version, n, a + b)
  {
    if n > 0 {
      Assoc(PutDone(version), PutDones(version, n - 1, a), b);
      DonesTail(version, n - 1, a, b);
    }
  }

  // --------------------------------------------------- filter list, statistics, goodbye

  /** recvFilterList: rules are skipped up to a zero length. */
  function GetFilter(s: seq<byte>): Read<()>
    decreases |s|
  {
    var (n, s1) :- GetI32(s);
    if n == 0 then Got((), s1)
    else if n < 0 then Invalid
    else
      var (_, s2) :- Take(s1, n);
      GetFilter(s2)
  }

  function PutStat(version: int, v: int64): seq<byte> {
    if version >= 30 then PutVarlong(v, 3) else PutLongInt(v)
  }

  function PutStats(version: int, vals: seq<int64>, tail: seq<byte>): seq<byte> {
    if vals == [] then tail else PutStat(version, vals[0]) + PutStats(version, vals[1..], tail)
  }

  function GetStat(version: int, s: seq<byte>): Read<int64> {
    if version >= 30 then GetVarlong(s, 3) else GetLongInt(s)
  }

  lemma {:induction false} StatRoundTrip(version: int, v: int64, rest: seq<byte>)
    ensures GetStat(version, PutStat(version, v) + rest) == Got(v, rest)
  {
    if version >= 30 {
      VarlongRoundTrip(v, 3, rest);
    } else {
      LongIntRoundTrip(v, rest);
    }
  }

  function StatReader(version: int): seq<byte> -> Read<int64> {
    s => GetStat(version, s)
  }

  /** readStats. */
  function GetStats(version: int, n: nat, s: seq<byte>): Read<()> {
    Skip(StatReader(version), n, s)
  }

  function StatCount(version: int): nat {
    if version >= 29 then 5 else 3
  }

  lemma {:induction false} StatsRead(version: int, vals: seq<int64>, rest: seq<byte>)
    ensures GetStats(version, |vals|, PutStats(version, vals, rest)) == Got((), rest)
    decreases |vals|
  {
    if vals != [] {
      StatRoundTrip(version, vals[0], PutStats(version, vals[1..], rest));
      StatsRead(version, vals[1..], rest);
    }
  }

  /** How often the client says goodbye. */
  function Goodbyes(version: int): nat {
    if version >= 31 then 2 else 1
  }

  /** readFinalGoodbye, with fresh trackers: what the server echoes. Where the second
      goodbye is read, io.EOF is as good. */
  function ServeGoodbye(version: int, s: seq<byte>): Read<seq<byte>> {
    var (t, s1) :- GetDone(version, FRESH, s);
    if version < 31 then Got([], s1)
    else if GetDone(version, t, s1).Eof? then Got(PutDone(version), [])
    else
      var (_, s2) :- GetDone(version, t, s1);
      Got(PutDone(version), s2)
  }

  function GoodbyeEcho(version: int): seq<byte> {
    if version >= 31 then PutDone(version) else []
  }

  lemma {:induction false} GoodbyeServed(version: int, rest: seq<byte>)
    ensures ServeGoodbye(version, PutDones(version, Goodbyes(version), rest)) == Got(GoodbyeEcho(version), rest)
  {
    var second := PutDones(version, Goodbyes(version) - 1, rest);
    DoneRead(version, FRESH, second);
    I32RoundTrip(NDX_DONE, second);
    if version >= 31 {
      assert second == PutDones(version, 1, rest) == PutDone(version) + PutDones(version, 0, rest);
      DoneRead(version, FRESH, rest);
    }
  }

  /** A client that leaves after its first goodbye is served as well. */
  lemma {:induction false} SecondGoodbyeSpared(version: int)
    requires version >= 31
    ensures ServeGoodbye(version, PutDone(version)) == Got(GoodbyeEcho(version), [])
  {
    DoneRead(version, FRESH, []);
    assert PutDone(version) + [] == PutDone(version);
  }

  // ------------------------------------------------------------------------ both ends

  /** doServerSender: what the server writes in answer to what it reads. */
  function ServerRun(d: Daemon, c: Config, id0: bool, es: seq<Entry>, vals: seq<int64>, s: seq<byte>): Read<seq<byte>>
  {
    var (_, s1) :- GetFilter(s);
    var (body, s2) :- Serve(d, 0, FRESH, FRESH, s1);
    var (bye, s3) :- ServeGoodbye(d.version, s2);
    Got(PutList(c, NOTHING_SENT, es, PutTrailer(c, id0, body + PutStats(d.version, vals, bye))), s3)
  }

  lemma {:induction false} ServerSteps(d: Daemon, c: Config, id0: bool, es: seq<Entry>, vals: seq<int64>, s: seq<byte>,
                                       s1: seq<byte>, body: seq<byte>, s2: seq<byte>, bye: seq<byte>, s3: seq<byte>)
    requires GetFilter(s) == Got((), s1)
    requires Serve(d, 0, FRESH, FRESH, s1) == Got(body, s2)
    requires ServeGoodbye(d.version, s2) == Got(bye, s3)
    ensures ServerRun(d, c, id0, es, vals, s)
         == Got(PutList(c, NOTHING_SENT, es, PutTrailer(c, id0, body + PutStats(d.version, vals, bye))), s3)
  {
  }

  /** Everything the client writes in a session with these requests. */
  function ClientBytes(version: int, ndxs: seq<int32>, tail: seq<byte>): seq<byte> {
    PutI32(0) + PutRequests(version, FRESH, ndxs,
                            PutDones(version, MaxPhase(version) + 1, PutDones(version, Goodbyes(version), tail)))
  }

  /** What the client reads: the list, n answers, the phases, the statistics and the
      echo of its goodbye. */
  function ClientRun(c: Config, id0: bool, sum: FileSum, n: nat, s: seq<byte>): Read<(seq<Entry>, seq<seq<byte>>)> {
    var (es, s1) :- GetFileList(c, id0, s);
    var (a, s2) :- GetAnswers(c.version, sum, n, FRESH, s1);
    var (_, s3) :- ClientEnd(c.version, a.1, s2);
    Got((es, a.0), s3)
  }

  /** finishSession and finalGoodbye. */
  function ClientEnd(version: int, t: Trackers, s: seq<byte>): Read<Trackers> {
    var (t1, s1) :- GetDones(version, MaxPhase(version) + 1, t, s);
    var (_, s2) :- GetStats(version, StatCount(version), s1);
    GetDones(version, Goodbyes(version) - 1, t1, s2)
  }

  lemma {:induction false} ClientSteps(c: Config, id0: bool, sum: FileSum, n: nat, s: seq<byte>, es: seq<Entry>,
                                       s1: seq<byte>, xs: seq<seq<byte>>, t: Trackers, s2: seq<byte>, t': Trackers,
                                       s3: seq<byte>)
    requires GetFileList(c, id0, s) == Got(es, s1)
    requires GetAnswers(c.version, sum, n, FRESH, s1) == Got((xs, t), s2)
    requires ClientEnd(c.version, t, s2) == Got(t', s3)
    ensures ClientRun(c, id0, sum, n, s) == Got((es, xs), s3)
  {
  }

  /** The end of the server's output, in front of what follows. */
  function Ending(version: int, vals: seq<int64>, tail: seq<byte>): seq<byte> {
    PutDones(version, MaxPhase(version) + 1, PutStats(version, vals, PutDones(version, Goodbyes(version) - 1, tail)))
  }

  lemma {:induction false} EndingRead(version: int, vals: seq<int64>, t: Trackers, rest: seq<byte>)
    requires |vals| == StatCount(version)
    ensures ClientEnd(version, t, Ending(version, vals, rest)) == Got(t, rest)
  {
    var byes := PutDones(version, Goodbyes(version) - 1, rest);
    var stats := PutStats(version, vals, byes);
    DonesRead(version, MaxPhase(version) + 1, t, stats);
    StatsRead(version, vals, byes);
    DonesRead(version, Goodbyes(version) - 1, t, rest);
    EndSteps(version, t, Ending(version, vals, rest), stats, byes, rest);
  }

  lemma {:induction false} EndSteps(version: int, t: Trackers, s: seq<byte>, s1: seq<byte>, s2: seq<byte>,
                                    s3: seq<byte>)
    requires GetDones(version, MaxPhase(version) + 1, t, s) == Got(t, s1)
    requires GetStats(version, StatCount(version), s1) == Got((), s2)
    requires GetDones(version, Goodbyes(version) - 1, t, s2) == Got(t, s3)
    ensures ClientEnd(version, t, s) == Got(t, s3)
  {
  }

  /** The pieces of the server's output, put together. */
  lemma {:induction false} EndingJoined(d: Daemon, ndxs: seq<int32>, vals: seq<int64>)
    requires Servable(d, ndxs)
    ensures Replies(d, FRESH, ndxs, PutDones(d.version, MaxPhase(d.version) + 1, []))
              + PutStats(d.version, vals, GoodbyeEcho(d.version))
         == Replies(d, FRESH, ndxs, Ending(d.version, vals, []))
  {
    var version := d.version;
    var stats := PutStats(version, vals, GoodbyeEcho(version));
    assert PutDones(version, Goodbyes(version) - 1, []) == GoodbyeEcho(version) by {
      assert PutDone(version) + [] == PutDone(version);
    }
    RepliesTail(d, FRESH, ndxs, PutDones(version, MaxPhase(version) + 1, []), stats);
    DonesTail(version, MaxPhase(version) + 1, [], stats);
    assert [] + stats == stats;
  }

  /** The server's output for a session with these requests. */
  function ServerBytes(d: Daemon, c: Config, id0: bool, es: seq<Entry>, vals: seq<int64>, ndxs: seq<int32>): seq<byte>
    requires Servable(d, ndxs)
  {
    PutList(c, NOTHING_SENT, es, PutTrailer(c, id0, Replies(d, FRESH, ndxs, Ending(d.version, vals, []))))
  }

  /** The server understands everything the client writes, and stops where it stops. */
  lemma {:induction false} ServerUnderstands(d: Daemon, c: Config, id0: bool, es: seq<Entry>, vals: seq<int64>,
                                             ndxs: seq<int32>, rest: seq<byte>)
    requires Servable(d, ndxs)
    ensures ServerRun(d, c, id0, es, vals, ClientBytes(d.version, ndxs, rest))
         == Got(ServerBytes(d, c, id0, es, vals, ndxs), rest)
  {
    var v := d.version;
    var byes := PutDones(v, Goodbyes(v), rest);
    var requests := PutRequests(v, FRESH, ndxs, PutDones(v, MaxPhase(v) + 1, byes));
    var body := Replies(d, FRESH, ndxs, PutDones(v, MaxPhase(v) + 1, []));
    I32RoundTrip(0, requests);
    RequestsServed(d, FRESH, FRESH, ndxs, byes);
    GoodbyeServed(v, rest);
    ServerSteps(d, c, id0, es, vals, ClientBytes(v, ndxs, rest), requests, body, byes, GoodbyeEcho(v), rest);
    EndingJoined(d, ndxs, vals);
  }

  /** The server's run fails when one of the entries asked for is refused. */
  lemma {:induction false} ServerRefuses(d: Daemon, c: Config, id0: bool, es: seq<Entry>, vals: seq<int64>,
                                         ndxs: seq<int32>, rest: seq<byte>)
    requires Listed(d, ndxs) && !Servable(d, ndxs)
    ensures ServerRun(d, c, id0, es, vals, ClientBytes(d.version, ndxs, rest)) == Invalid
  {
    var v := d.version;
    var tail := PutDones(v, MaxPhase(v) + 1, PutDones(v, Goodbyes(v), rest));
    var requests := PutRequests(v, FRESH, ndxs, tail);
    I32RoundTrip(0, requests);
    RequestsRefused(d, FRESH, FRESH, ndxs, tail);
    ServerStops(d, c, id0, es, vals, ClientBytes(v, ndxs, rest), requests);
  }

  lemma {:induction false} ServerStops(d: Daemon, c: Config, id0: bool, es: seq<Entry>, vals: seq<int64>, s: seq<byte>,
                                       s1: seq<byte>)
    requires GetFilter(s) == Got((), s1) && Serve(d, 0, FRESH, FRESH, s1) == Invalid
    ensures ServerRun(d, c, id0, es, vals, s) == Invalid
  {
  }

  /** The client understands everything the server writes: it gets the list as the
      version carries it and the contents of every file it asked for, in order, and
      consumes every byte. */
  lemma {:induction false} ClientUnderstands(d: Daemon, c: Config, id0: bool, es: seq<Entry>, vals: seq<int64>,
                                             ndxs: seq<int32>)
    requires c.Valid() && c.uids && c.gids && c.version == d.version && AllWritable(c, NOTHING_SENT, es)
    requires Servable(d, ndxs) && Sixteen(d.sum) && |vals| == StatCount(d.version)
    ensures ClientRun(c, id0, d.sum, |ndxs|, ServerBytes(d, c, id0, es, vals, ndxs))
         == Got((CarriedList(c, NOTHING_SENT, es), Contents(d, ndxs)), [])
  {
    var v := d.version;
    var ending := Ending(v, vals, []);
    var replies := Replies(d, FRESH, ndxs, ending);
    var t := TrackersAfter(v, FRESH, ndxs);
    FileListRoundTrip(c, id0, es, replies);
    RepliesRead(d, FRESH, ndxs, ending);
    EndingRead(v, vals, t, []);
    ClientSteps(c, id0, d.sum, |ndxs|, ServerBytes(d, c, id0, es, vals, ndxs),
                CarriedList(c, NOTHING_SENT, es), replies, Contents(d, ndxs), t, ending, t, []);
  }

  // ---------------------------------------------------------------------- opening a file

  /** What the comparison sees of an entry. */
  function NodeOf(e: Entry): Node {
    Node(e.name, IsDir(e.mode))
  }

  function Nodes(es: seq<Entry>): (ns: seq<Node>)
    ensures |ns| == |es|
  {
    if es == [] then [] else [NodeOf(es[0])] + Nodes(es[1..])
  }

  lemma {:induction false} NodesCarried(c: Config, w: Sent, es: seq<Entry>)
    ensures Nodes(CarriedList(c, w, es)) == Nodes(es)
    decreases |es|
  {
    if es != [] {
      var first, rest := Flist.Carried(c, w, es[0]), CarriedList(c, AfterPut(c, w, es[0]), es[1..]);
      assert ([first] + rest)[1..] == rest;
      NodesCarried(c, AfterPut(c, w, es[0]), es[1..]);
    }
  }

  lemma {:induction false} NodesAt(es: seq<Entry>, i: nat)
    requires i < |es|
    ensures Nodes(es)[i] == NodeOf(es[i])
  {
    if i > 0 {
      NodesAt(es[1..], i - 1);
    }
  }

  lemma {:induction false} CarriedAt(c: Config, w: Sent, es: seq<Entry>, i: nat)
    requires i < |es|
    ensures |CarriedList(c, w, es)| == |es|
    ensures CarriedList(c, w, es)[i].name == es[i].name && CarriedList(c, w, es)[i].mode == es[i].mode
    decreases |es|
  {
    if |es| > 1 {
      CarriedAt(c, AfterPut(c, w, es[0]), es[1..], if i > 0 then i - 1 else 0);
    }
  }

  /** findFlistEntry. */
  function FindEntry(es: seq<Entry>, name: Name): (i: int)
    ensures -1 <= i < |es|
    ensures i >= 0 ==> es[i].name == name
    ensures i < 0 ==> forall j :: 0 <= j < |es| ==> es[j].name != name
  {
    if es == [] then -1
    else if es[0].name == name then 0
    else var i := FindEntry(es[1..], name); if i < 0 then -1 else i + 1
  }

  /** openFileFromContext: directories and symlinks are opened from the list alone. */
  predicate Fetched(mode: uint32) {
    Kind(mode) != S_DIR && Kind(mode) != S_LNK
  }

  /** The requests withEntry makes for a name. */
  function Requests(es: seq<Entry>, ndxByName: map<Name, int>, name: Name): seq<int> {
    var i := FindEntry(es, name);
    if i >= 0 && Fetched(es[i].mode) && name in ndxByName then [ndxByName[name]] else []
  }

  /** A session with these requests ends with both streams used up and the client
      holding the list and this data. */
  predicate Delivers(d: Daemon, c: Config, id0: bool, es: seq<Entry>, vals: seq<int64>, ndxs: seq<int>,
                     data: seq<seq<byte>>) {
    && (forall i :: 0 <= i < |ndxs| ==> 0 <= ndxs[i] < U31)
    && var out := ServerRun(d, c, id0, es, vals, ClientBytes(d.version, ndxs, []));
       && out.Got? && out.rest == []
       && ClientRun(c, id0, d.sum, |ndxs|, out.value) == Got((CarriedList(c, NOTHING_SENT, es), data), [])
  }

  /** What the client and the server agree on before the session. */
  predicate Agree(d: Daemon, c: Config, es: seq<Entry>, vals: seq<int64>) {
    && c.Valid() && c.uids && c.gids && c.version == d.version && AllWritable(c, NOTHING_SENT, es)
    && |vals| == StatCount(d.version) && d.entries == Nodes(es) && |es| < U31
  }

  /** modeToWire: regular files, and whatever is neither directory nor symlink, are sent
      as regular. */
  ghost predicate ModesSent(d: Daemon, es: seq<Entry>) {
    forall i :: 0 <= i < |es| && d.files.regular(es[i].name) ==> Kind(es[i].mode) == S_REG
  }

  lemma {:induction false} RequestsDeliver(d: Daemon, c: Config, id0: bool, es: seq<Entry>, vals: seq<int64>,
                                           ndxs: seq<int32>, data: seq<seq<byte>>)
    requires Agree(d, c, es, vals) && Sixteen(d.sum) && Servable(d, ndxs) && data == Contents(d, ndxs)
    ensures Delivers(d, c, id0, es, vals, ndxs, data)
  {
    ServerUnderstands(d, c, id0, es, vals, ndxs, []);
    ClientUnderstands(d, c, id0, es, vals, ndxs);
    DeliversSteps(d, c, id0, es, vals, ndxs, data, ServerBytes(d, c, id0, es, vals, ndxs));
  }

  lemma {:induction false} DeliversSteps(d: Daemon, c: Config, id0: bool, es: seq<Entry>, vals: seq<int64>,
                                         ndxs: seq<int32>, data: seq<seq<byte>>, out: seq<byte>)
    requires forall i :: 0 <= i < |ndxs| ==> 0 <= ndxs[i]
    requires ServerRun(d, c, id0, es, vals, ClientBytes(d.version, ndxs, [])) == Got(out, [])
    requires ClientRun(c, id0, d.sum, |ndxs|, out) == Got((CarriedList(c, NOTHING_SENT, es), data), [])
    ensures Delivers(d, c, id0, es, vals, ndxs, data)
  {
  }

  lemma {:induction false} OneContents(d: Daemon, ndx: int32)
    requires 0 <= ndx < |d.entries| && d.Answers(ndx)
    ensures Contents(d, [ndx]) == [d.Data(ndx)]
  {
    assert [ndx][1..] == [];
    assert Contents(d, [ndx][1..]) == [];
  }

  /** The client's own sort of the list it received gives every name its position in
      the list, which is the server's. */
  lemma {:induction false} OwnIndexes(version: int, walk: seq<Node>, es: seq<Entry>, ndxByName: map<Name, int>, i: nat)
    requires Proper(walk) && Nodes(es) == Sort(version, walk) && i < |es|
    requires LastIndexes(ndxByName, Sort(version, Nodes(es)))
    ensures es[i].name in ndxByName && ndxByName[es[i].name] == i
  {
    SortSorts(version, walk);
    ClientIndexIsServerIndex(version, walk, Nodes(es), ndxByName);
    NodesAt(es, i);
  }

  /** What the client finds in the list it received is what the server put there. */
  lemma {:induction false} FoundAsSent(c: Config, es: seq<Entry>, name: Name)
    ensures var i := FindEntry(CarriedList(c, NOTHING_SENT, es), name);
      i >= 0 ==> i < |es| && es[i].name == name && CarriedList(c, NOTHING_SENT, es)[i].mode == es[i].mode
    ensures FindEntry(CarriedList(c, NOTHING_SENT, es), name) < 0 ==> forall j :: 0 <= j < |es| ==> es[j].name != name
  {
    var got := CarriedList(c, NOTHING_SENT, es);
    forall j | 0 <= j < |es| ensures |got| == |es| && got[j].name == es[j].name && got[j].mode == es[j].mode {
      CarriedAt(c, NOTHING_SENT, es, j);
    }
    assert es == [] ==> got == [];
  }

  /** Opening any name. The server walks its files in any order, sorts and sends the
      list; the client sorts what it received, looks the name up and asks for its data
      unless it names a directory, a symlink or nothing. The session ends with every
      byte written on either side consumed on the other, and where data was asked for
      it is the contents of the regular file of that name, or nothing of any other
      entry that the list calls regular, if and only if the server does not refuse
      such an entry. */
  lemma {:induction false} OpenDelivers(d: Daemon, c: Config, id0: bool, walk: seq<Node>, es: seq<Entry>,
                                        vals: seq<int64>, ndxByName: map<Name, int>, name: Name)
    requires Agree(d, c, es, vals) && Sixteen(d.sum) && Proper(walk) && Nodes(es) == Sort(c.version, walk)
    requires LastIndexes(ndxByName, Sort(c.version, Nodes(CarriedList(c, NOTHING_SENT, es))))
    ensures var asked := Requests(CarriedList(c, NOTHING_SENT, es), ndxByName, name);
      var data := if d.files.regular(name) then d.files.contents(name) else [];
      Delivers(d, c, id0, es, vals, asked, if asked == [] then [] else [data])
      <==> asked == [] || d.version < 30 || d.files.regular(name)
  {
    var got := CarriedList(c, NOTHING_SENT, es);
    NodesCarried(c, NOTHING_SENT, es);
    FoundAsSent(c, es, name);
    var asked, i := Requests(got, ndxByName, name), FindEntry(got, name);
    if i >= 0 && Fetched(es[i].mode) {
      OwnIndexes(c.version, walk, es, ndxByName, i);
      NodesAt(es, i);
      assert asked == [i];
      OneDelivers(d, c, id0, es, vals, i);
    } else {
      RequestsDeliver(d, c, id0, es, vals, asked, []);
    }
  }

  /** A session with one request. */
  lemma {:induction false} OneDelivers(d: Daemon, c: Config, id0: bool, es: seq<Entry>, vals: seq<int64>, ndx: int32)
    requires Agree(d, c, es, vals) && Sixteen(d.sum) && 0 <= ndx < |es|
    ensures Delivers(d, c, id0, es, vals, [ndx], [d.Data(ndx)]) <==> d.Answers(ndx)
  {
    if d.Answers(ndx) {
      OneContents(d, ndx);
      RequestsDeliver(d, c, id0, es, vals, [ndx], [d.Data(ndx)]);
    } else {
      assert !Servable(d, [ndx]) by {
        assert [ndx][0] == ndx;
      }
      ServerRefuses(d, c, id0, es, vals, [ndx], []);
    }
  }

  /** Opening a regular file asks for its data, and returns its contents. */
  lemma {:induction false} OpenReturnsContents(d: Daemon, c: Config, id0: bool, walk: seq<Node>, es: seq<Entry>,
                                               vals: seq<int64>, ndxByName: map<Name, int>, name: Name)
    requires Agree(d, c, es, vals) && Sixteen(d.sum) && Proper(walk) && Nodes(es) == Sort(c.version, walk)
    requires LastIndexes(ndxByName, Sort(c.version, Nodes(CarriedList(c, NOTHING_SENT, es))))
    requires ModesSent(d, es) && (exists n :: n in walk && n.name == name) && d.files.regular(name)
    ensures var asked := Requests(CarriedList(c, NOTHING_SENT, es), ndxByName, name);
      |asked| == 1 && Delivers(d, c, id0, es, vals, asked, [d.files.contents(name)])
  {
    OpenDelivers(d, c, id0, walk, es, vals, ndxByName, name);
    RegularAsked(d, c, walk, es, ndxByName, name);
  }

  lemma {:induction false} RegularAsked(d: Daemon, c: Config, walk: seq<Node>, es: seq<Entry>,
                                        ndxByName: map<Name, int>, name: Name)
    requires Proper(walk) && Nodes(es) == Sort(c.version, walk)
    requires LastIndexes(ndxByName, Sort(c.version, Nodes(CarriedList(c, NOTHING_SENT, es))))
    requires ModesSent(d, es) && (exists n :: n in walk && n.name == name) && d.files.regular(name)
    ensures |Requests(CarriedList(c, NOTHING_SENT, es), ndxByName, name)| == 1
  {
    NodesCarried(c, NOTHING_SENT, es);
    FoundAsSent(c, es, name);
    NameSent(c.version, walk, es, name);
    OwnIndexes(c.version, walk, es, ndxByName, FindEntry(CarriedList(c, NOTHING_SENT, es), name));
  }

  lemma {:induction false} NameSent(version: int, walk: seq<Node>, es: seq<Entry>, name: Name)
    requires Proper(walk) && Nodes(es) == Sort(version, walk) && exists n :: n in walk && n.name == name
    ensures exists j :: 0 <= j < |es| && es[j].name == name
  {
    SortSorts(version, walk);
    var n :| n in walk && n.name == name;
    assert n in multiset(Nodes(es));
    var j :| 0 <= j < |es| && Nodes(es)[j] == n;
    NodesAt(es, j);
  }
}
