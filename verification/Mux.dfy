/** Multiplexed framing (protocol/mux/mux.go).

    The writer batches data into frames and interleaves control messages; the
    reader skips logging messages and hands out the data. Over every run the
    reader delivers exactly the bytes written, in order.
 */
module Mux {
  import opened Bytes
  import opened WireInts

  const MAX_PAYLOAD: nat := 0xFF_FFFF
  const MSG_DATA: byte := 0

  datatype Frame = Frame(code: byte, payload: seq<byte>)

  /** Logging and no-op messages: 1 to 8 and 42. */
  predicate IsInfoMessage(code: byte) {
    1 <= code <= 8 || code == 42
  }

  // ----------------------------------------------------------------------- frames

  /** The header: base plus code, in uint8 arithmetic, above a 24-bit length. */
  function Tag(f: Frame): uint32
    requires |f.payload| <= MAX_PAYLOAD
  {
    (7 + f.code as int) % 256 * 0x100_0000 + |f.payload|
  }

  function PutFrame(f: Frame): seq<byte>
    requires |f.payload| <= MAX_PAYLOAD
  {
    PutU32(Tag(f)) + f.payload
  }

  function GetFrame(s: seq<byte>): (r: Read<Frame>)
    ensures r.Got? ==> |r.rest| < |s|
  {
    var (tag, s1) :- GetU32(s);
    var (p, s2) :- Take(s1, tag % 0x100_0000);
    Got(Frame((tag / 0x100_0000 - 7) % 256, p), s2)
  }

  lemma TagParts(f: Frame)
    requires |f.payload| <= MAX_PAYLOAD
    ensures Tag(f) % 0x100_0000 == |f.payload| && (Tag(f) / 0x100_0000 - 7) % 256 == f.code
  {
    var c := (7 + f.code as int) % 256;
    assert Tag(f) / 0x100_0000 == c;
  }

  /** Every code survives, also those for which the base wraps around. */
  lemma FrameRoundTrip(f: Frame, rest: seq<byte>)
    requires |f.payload| <= MAX_PAYLOAD
    ensures GetFrame(PutFrame(f) + rest) == Got(f, rest)
  {
    TagParts(f);
    U32RoundTrip(Tag(f), f.payload + rest);
    Assoc(PutU32(Tag(f)), f.payload, rest);
    TakePrefix(f.payload, rest);
  }

  predicate Sendable(fs: seq<Frame>) {
    forall i :: 0 <= i < |fs| ==> |fs[i].payload| <= MAX_PAYLOAD
  }

  function PutFrames(fs: seq<Frame>): seq<byte>
    requires Sendable(fs)
  {
    if fs == [] then [] else PutFrame(fs[0]) + PutFrames(fs[1..])
  }

  lemma {:induction false} PutFramesConcat(fs: seq<Frame>, gs: seq<Frame>)
    requires Sendable(fs) && Sendable(gs)
    ensures Sendable(fs + gs) && PutFrames(fs + gs) == PutFrames(fs) + PutFrames(gs)
  {
    if fs == [] {
      assert fs + gs == gs;
    } else {
      assert (fs + gs)[1..] == fs[1..] + gs && (fs + gs)[0] == fs[0];
      PutFramesConcat(fs[1..], gs);
      Assoc(PutFrame(fs[0]), PutFrames(fs[1..]), PutFrames(gs));
    }
  }

  /** The data a stream of frames carries. */
  function DataOf(fs: seq<Frame>): seq<byte> {
    if fs == [] then [] else (if fs[0].code == MSG_DATA then fs[0].payload else []) + DataOf(fs[1..])
  }

  lemma {:induction false} DataOfConcat(fs: seq<Frame>, gs: seq<Frame>)
    ensures DataOf(fs + gs) == DataOf(fs) + DataOf(gs)
  {
    if fs == [] {
      assert fs + gs == gs;
    } else {
      assert (fs + gs)[1..] == fs[1..] + gs;
      DataOfConcat(fs[1..], gs);
    }
  }

  // -------------------------------------------------------------------- the writer

  /** Pending data as frames of at most the maximal payload. */
  function FlushFrames(data: seq<byte>): (fs: seq<Frame>)
    ensures Sendable(fs)
  {
    if data == [] then []
    else
      var n := Min(|data|, MAX_PAYLOAD);
      var rest := FlushFrames(data[n..]);
      [Frame(MSG_DATA, data[..n])] + rest
  }

  lemma {:induction false} FlushData(data: seq<byte>)
    ensures DataOf(FlushFrames(data)) == data
    ensures forall f :: f in FlushFrames(data) ==> f.code == MSG_DATA
  {
    if data != [] {
      var n := Min(|data|, MAX_PAYLOAD);
      FlushData(data[n..]);
      assert FlushFrames(data)[1..] == FlushFrames(data[n..]);
      assert data == data[..n] + data[n..];
    }
  }

  /** A full buffer is flushed before anything is added. */
  function Spill(size: nat, buf: seq<byte>): (r: (seq<Frame>, seq<byte>))
    requires size > 0
    ensures Sendable(r.0) && |r.1| < size
  {
    if |buf| >= size then (FlushFrames(buf), []) else ([], buf)
  }

  lemma {:induction false} SpillData(size: nat, buf: seq<byte>)
    requires size > 0
    ensures var (fs, b) := Spill(size, buf); DataOf(fs) + b == buf
  {
    FlushData(buf);
    NoBytes(buf);
  }

  /** Write with a bounded buffer: the frames it emits and the buffer after. */
  function Push(size: nat, buf: seq<byte>, p: seq<byte>): (r: (seq<Frame>, seq<byte>))
    requires size > 0
    ensures Sendable(r.0) && (|buf| <= size ==> |r.1| <= size)
    decreases |p|
  {
    if p == [] then ([], buf)
    else
      var (fs, b) := Spill(size, buf);
      var m := Min(|p|, size - |b|);
      var (gs, b') := Push(size, b + p[..m], p[m..]);
      (fs + gs, b')
  }

  /** What a push puts on the wire, and what it leaves pending. */
  function PushWrites(size: nat, buf: seq<byte>, p: seq<byte>): seq<byte>
    requires size > 0
  {
    PutFrames(Push(size, buf, p).0)
  }

  function PushLeaves(size: nat, buf: seq<byte>, p: seq<byte>): seq<byte>
    requires size > 0
  {
    Push(size, buf, p).1
  }

  lemma {:induction false} PushStep(size: nat, buf: seq<byte>, p: seq<byte>)
    requires size > 0 && p != []
    ensures var (fs, b) := Spill(size, buf);
      var m := Min(|p|, size - |b|);
      && PushWrites(size, buf, p) == PutFrames(fs) + PushWrites(size, b + p[..m], p[m..])
      && PushLeaves(size, buf, p) == PushLeaves(size, b + p[..m], p[m..])
  {
    var (fs, b) := Spill(size, buf);
    var m := Min(|p|, size - |b|);
    PutFramesConcat(fs, Push(size, b + p[..m], p[m..]).0);
  }

  /** Write; size 0 means unbounded. */
  function Accept(size: nat, buf: seq<byte>, p: seq<byte>): (r: (seq<Frame>, seq<byte>))
    ensures Sendable(r.0) && (size > 0 && |buf| <= size ==> |r.1| <= size)
  {
    if size == 0 then ([], buf + p) else Push(size, buf, p)
  }

  lemma {:induction false} PushData(size: nat, buf: seq<byte>, p: seq<byte>)
    requires size > 0
    ensures var (fs, b) := Push(size, buf, p); DataOf(fs) + b == buf + p
    decreases |p|
  {
    if p == [] {
      assert [] + buf == buf + p;
    } else {
      var (fs, b) := Spill(size, buf);
      var m := Min(|p|, size - |b|);
      var (gs, b') := Push(size, b + p[..m], p[m..]);
      SpillData(size, buf);
      PushData(size, b + p[..m], p[m..]);
      DataOfConcat(fs, gs);
      PushParts(DataOf(fs), DataOf(gs), b', b, p[..m], p[m..]);
      assert p == p[..m] + p[m..];
    }
  }

  /** The data of a flush and of the rest of a push, put together. */
  lemma {:induction false} PushParts(df: seq<byte>, dg: seq<byte>, b': seq<byte>, b: seq<byte>, p: seq<byte>,
                                     q: seq<byte>)
    requires dg + b' == (b + p) + q
    ensures (df + dg) + b' == (df + b) + (p + q)
  {
    Assoc(df, dg, b');
    Assoc(b, p, q);
    Assoc(df, b, p + q);
  }

  // ------------------------------------------------------------- runs of the writer

  datatype Op = Write(p: seq<byte>) | Flush | Message(code: byte, payload: seq<byte>)

  /** A logging or no-op message that fits a frame. */
  predicate Harmless(op: Op) {
    op.Message? ==> IsInfoMessage(op.code) && |op.payload| <= MAX_PAYLOAD
  }

  function Step(size: nat, buf: seq<byte>, op: Op): (r: (seq<Frame>, seq<byte>))
    requires Harmless(op)
    ensures Sendable(r.0)
  {
    match op
    case Write(p) => Accept(size, buf, p)
    case Flush => (FlushFrames(buf), [])
    case Message(code, payload) => (FlushFrames(buf) + [Frame(code, payload)], [])
  }

  function Run(size: nat, buf: seq<byte>, ops: seq<Op>): (r: (seq<Frame>, seq<byte>))
    requires forall op :: op in ops ==> Harmless(op)
    ensures Sendable(r.0)
    decreases |ops|
  {
    if ops == [] then ([], buf)
    else
      var (fs, b) := Step(size, buf, ops[0]);
      var (gs, b') := Run(size, b, ops[1..]);
      (fs + gs, b')
  }

  /** The bytes the operations write. */
  function Written(ops: seq<Op>): seq<byte> {
    if ops == [] then [] else (if ops[0].Write? then ops[0].p else []) + Written(ops[1..])
  }

  lemma StepData(size: nat, buf: seq<byte>, op: Op)
    requires Harmless(op)
    ensures var (fs, b) := Step(size, buf, op); DataOf(fs) + b == buf + if op.Write? then op.p else []
  {
    FlushData(buf);
    match op
    case Write(p) =>
      if size > 0 {
        PushData(size, buf, p);
      } else {
        assert [] + (buf + p) == buf + p;
      }
    case Flush =>
    case Message(code, payload) =>
      DataOfConcat(FlushFrames(buf), [Frame(code, payload)]);
      assert DataOf([Frame(code, payload)]) == [] + DataOf([]);
  }

  /** Over every run the pending data stays within a positive buffer size. */
  lemma {:induction false} RunBounded(size: nat, buf: seq<byte>, ops: seq<Op>)
    requires size > 0 && |buf| <= size && forall op :: op in ops ==> Harmless(op)
    ensures |Run(size, buf, ops).1| <= size
    decreases |ops|
  {
    if ops != [] {
      RunBounded(size, Step(size, buf, ops[0]).1, ops[1..]);
    }
  }

  /** Over every run the framed data followed by the pending data is what was
      written. */
  lemma {:induction false} RunData(size: nat, buf: seq<byte>, ops: seq<Op>)
    requires forall op :: op in ops ==> Harmless(op)
    ensures var (fs, b) := Run(size, buf, ops); DataOf(fs) + b == buf + Written(ops)
    decreases |ops|
  {
    if ops == [] {
      assert [] + buf == buf + [];
    } else {
      var (fs, b) := Step(size, buf, ops[0]);
      var (gs, b') := Run(size, b, ops[1..]);
      var p := if ops[0].Write? then ops[0].p else [];
      StepData(size, buf, ops[0]);
      RunData(size, b, ops[1..]);
      DataOfConcat(fs, gs);
      calc {
        DataOf(fs + gs) + b';
        { Assoc(DataOf(fs), DataOf(gs), b'); }
        DataOf(fs) + (DataOf(gs) + b');
        DataOf(fs) + (b + Written(ops[1..]));
        { Assoc(DataOf(fs), b, Written(ops[1..])); }
        (DataOf(fs) + b) + Written(ops[1..]);
        (buf + p) + Written(ops[1..]);
        { Assoc(buf, p, Written(ops[1..])); }
        buf + (p + Written(ops[1..]));
      }
    }
  }

  class Writer {
    const w: Stream
    var buf: seq<byte>
    var bufSize: nat

    constructor (w: Stream)
      ensures this.w == w && buf == [] && bufSize == 0x8000
    {
      this.w, buf, bufSize := w, [], 0x8000;
    }

    method WriteFrame(f: Frame) returns (ok: bool)
      modifies w
      ensures ok <==> |f.payload| <= MAX_PAYLOAD
      ensures w.buf == if ok then old(w.buf) + PutFrame(f) else old(w.buf)
    {
      if |f.payload| > MAX_PAYLOAD {
        return false;
      }
      w.Write(PutFrame(f));
      return true;
    }

    method Flush()
      modifies this`buf, w
      ensures buf == [] && w.buf == old(w.buf) + PutFrames(FlushFrames(old(buf)))
    {
      var data := buf;
      buf := [];
      while data != []
        invariant buf == []
        invariant w.buf + PutFrames(FlushFrames(data)) == old(w.buf) + PutFrames(FlushFrames(old(buf)))
        decreases |data|
      {
        var n := Min(|data|, MAX_PAYLOAD);
        assert FlushFrames(data)[1..] == FlushFrames(data[n..]);
        Assoc(w.buf, PutFrame(Frame(MSG_DATA, data[..n])), PutFrames(FlushFrames(data[n..])));
        var ok := WriteFrame(Frame(MSG_DATA, data[..n]));
        data := data[n..];
      }
      assert w.buf + [] == w.buf;
    }

    method Write(p: seq<byte>)
      modifies this`buf, w
      ensures var (fs, b) := Accept(bufSize, old(buf), p);
        buf == b && w.buf == old(w.buf) + PutFrames(fs)
    {
      if bufSize == 0 {
        buf := buf + p;
        assert w.buf + [] == w.buf;
        return;
      }
      var rest := p;
      while rest != []
        invariant PushLeaves(bufSize, buf, rest) == PushLeaves(bufSize, old(buf), p)
        invariant w.buf + PushWrites(bufSize, buf, rest) == old(w.buf) + PushWrites(bufSize, old(buf), p)
        decreases |rest|
      {
        PushStep(bufSize, buf, rest);
        ghost var fs := Spill(bufSize, buf).0;
        ghost var before := w.buf;
        NoBytes(before);
        if |buf| >= bufSize {
          Flush();
        }
        var m := Min(|rest|, bufSize - |buf|);
        Assoc(before, PutFrames(fs), PushWrites(bufSize, buf + rest[..m], rest[m..]));
        buf := buf + rest[..m];
        rest := rest[m..];
      }
      NoBytes(w.buf);
    }

    /** Pending data first, then the message, unless it does not fit a frame. */
    method SendMsg(code: byte, payload: seq<byte>) returns (ok: bool)
      modifies this`buf, w
      ensures ok <==> |payload| <= MAX_PAYLOAD
      ensures buf == []
      ensures w.buf == old(w.buf) + PutFrames(FlushFrames(old(buf)) + if ok then [Frame(code, payload)] else [])
    {
      ghost var fs := FlushFrames(buf);
      Flush();
      var f := Frame(code, payload);
      ok := WriteFrame(f);
      if ok {
        PutFramesConcat(fs, [f]);
        assert [f][1..] == [] && PutFrame(f) + [] == PutFrame(f);
        assert PutFrames([f]) == PutFrame(f);
        Assoc(old(w.buf), PutFrames(fs), PutFrame(f));
      } else {
        assert fs + [] == fs;
      }
    }
  }

  // -------------------------------------------------------------------- the reader

  /** The next non-empty data frame; other messages than logging end the read. */
  function GetData(s: seq<byte>): (r: Read<seq<byte>>)
    ensures r.Got? ==> r.value != [] && |r.rest| < |s|
    decreases |s|
  {
    var (f, s1) :- GetFrame(s);
    if f.code != MSG_DATA then if IsInfoMessage(f.code) then GetData(s1) else Invalid
    else if f.payload == [] then GetData(s1)
    else Got(f.payload, s1)
  }

  /** Read of up to n bytes: what is delivered and the buffer and stream after. */
  datatype Delivery = Delivery(data: seq<byte>, buf: seq<byte>, rest: seq<byte>) | Failed

  function Deliver(buf: seq<byte>, rest: seq<byte>, n: nat): Delivery {
    Delivery(buf[..Min(n, |buf|)], buf[Min(n, |buf|)..], rest)
  }

  function ReadStep(buf: seq<byte>, s: seq<byte>, n: nat): Delivery {
    if buf != [] then Deliver(buf, s, n)
    else if GetData(s).Got? then Deliver(GetData(s).value, GetData(s).rest, n)
    else Failed
  }

  class Reader {
    const r: Stream
    var buf: seq<byte>

    constructor (r: Stream)
      ensures this.r == r && buf == []
    {
      this.r, buf := r, [];
    }

    method Read(n: nat) returns (res: Delivery)
      modifies this, r
      ensures res == ReadStep(old(buf), old(r.buf), n)
      ensures res.Delivery? ==> buf == res.buf && r.buf == res.rest
    {
      while buf == []
        invariant buf != [] ==> old(buf) == [] ==> GetData(old(r.buf)) == Got(buf, r.buf)
        invariant buf == [] ==> old(buf) == [] && GetData(r.buf) == GetData(old(r.buf))
        invariant old(buf) != [] ==> buf == old(buf) && r.buf == old(r.buf)
        decreases |r.buf|, |buf| == 0
      {
        var f := GetFrame(r.buf);
        if !f.Got? {
          return Failed;
        }
        r.buf := f.rest;
        if f.value.code != MSG_DATA {
          if !IsInfoMessage(f.value.code) {
            return Failed;
          }
        } else {
          buf := f.value.payload;
        }
      }
      var m := Min(n, |buf|);
      res := Deliver(buf, r.buf, n);
      buf := buf[m..];
    }
  }

  // ---------------------------------------------------------------- runs of the reader

  /** What a frame stream may hold for a reader to get through it. */
  predicate Readable(fs: seq<Frame>) {
    Sendable(fs) && forall i :: 0 <= i < |fs| ==> fs[i].code == MSG_DATA || IsInfoMessage(fs[i].code)
  }

  /** The first data in a frame stream, and the frames behind it. */
  lemma {:induction false} GetDataOf(fs: seq<Frame>) returns (k: nat)
    requires Readable(fs)
    ensures k <= |fs|
    ensures DataOf(fs) == [] ==> GetData(PutFrames(fs)) == Eof
    ensures DataOf(fs) != [] ==>
      && k > 0 && DataOf(fs) == fs[k - 1].payload + DataOf(fs[k..])
      && GetData(PutFrames(fs)) == Got(fs[k - 1].payload, PutFrames(fs[k..]))
  {
    k := 0;
    if fs != [] {
      FirstFrame(fs[0], PutFrames(fs[1..]));
      if fs[0].code == MSG_DATA && fs[0].payload != [] {
        k := 1;
      } else {
        NoBytes(DataOf(fs[1..]));
        k := GetDataOf(fs[1..]);
        if k > 0 {
          assert fs[1..][k - 1] == fs[k] && fs[1..][k..] == fs[k + 1..];
        }
        k := k + 1;
      }
    }
  }

  /** A frame with data ends the search, any other readable one does not. */
  lemma {:induction false} FirstFrame(f: Frame, s: seq<byte>)
    requires |f.payload| <= MAX_PAYLOAD && (f.code == MSG_DATA || IsInfoMessage(f.code))
    ensures GetData(PutFrame(f) + s) == if f.code == MSG_DATA && f.payload != [] then Got(f.payload, s) else GetData(s)
  {
    FrameRoundTrip(f, s);
  }

  /** Reads with the given sizes, until one fails. */
  function Reads(buf: seq<byte>, s: seq<byte>, sizes: seq<nat>): (seq<byte>, bool)
    decreases |sizes|
  {
    if sizes == [] then ([], false)
    else
      var d := ReadStep(buf, s, sizes[0]);
      if d.Failed? then ([], true)
      else
        var (more, failed) := Reads(d.buf, d.rest, sizes[1..]);
        (d.data + more, failed)
  }

  /** Whatever the read sizes, the bytes delivered are a prefix of the data; a
      read fails only at the end, when all of it was delivered. */
  lemma {:induction false} ReadsDeliver(buf: seq<byte>, fs: seq<Frame>, sizes: seq<nat>)
    requires Readable(fs)
    ensures var (got, failed) := Reads(buf, PutFrames(fs), sizes);
      got <= buf + DataOf(fs) && (failed ==> got == buf + DataOf(fs))
    decreases |sizes|
  {
    if sizes != [] {
      var n := sizes[0];
      if buf != [] {
        var m := Min(n, |buf|);
        ReadsDeliver(buf[m..], fs, sizes[1..]);
        PrefixStep(buf[..m], buf[m..], DataOf(fs), Reads(buf[m..], PutFrames(fs), sizes[1..]).0);
        assert buf == buf[..m] + buf[m..];
      } else {
        var k := GetDataOf(fs);
        assert [] + DataOf(fs) == DataOf(fs);
        if DataOf(fs) != [] {
          var p, gs := fs[k - 1].payload, fs[k..];
          var m := Min(n, |p|);
          ReadsDeliver(p[m..], gs, sizes[1..]);
          PrefixStep(p[..m], p[m..], DataOf(gs), Reads(p[m..], PutFrames(gs), sizes[1..]).0);
          assert p == p[..m] + p[m..];
        }
      }
    }
  }

  /** How many of the reads ask for something. */
  function Asking(sizes: seq<nat>): nat {
    if sizes == [] then 0 else (if sizes[0] > 0 then 1 else 0) + Asking(sizes[1..])
  }

  /** Every read that asks for something and does not fail delivers something,
      whatever the stream holds. */
  lemma {:induction false} ReadsProgress(buf: seq<byte>, s: seq<byte>, sizes: seq<nat>)
    ensures var (got, failed) := Reads(buf, s, sizes);
      failed || |got| >= Asking(sizes)
    decreases |sizes|
  {
    if sizes != [] {
      var d := ReadStep(buf, s, sizes[0]);
      if d.Delivery? {
        ReadsProgress(d.buf, d.rest, sizes[1..]);
      }
    }
  }

  lemma PrefixStep(a: seq<byte>, b: seq<byte>, rest: seq<byte>, got: seq<byte>)
    requires got <= b + rest
    ensures a + got <= (a + b) + rest
    ensures got == b + rest ==> a + got == (a + b) + rest
  {
    Assoc(a, b, rest);
    assert a + (b + rest)[..|got|] == (a + (b + rest))[..|a| + |got|];
  }

  lemma {:induction false} RunReadable(size: nat, buf: seq<byte>, ops: seq<Op>)
    requires forall op :: op in ops ==> Harmless(op)
    ensures Readable(Run(size, buf, ops).0)
    decreases |ops|
  {
    if ops != [] {
      StepReadable(size, buf, ops[0]);
      RunReadable(size, Step(size, buf, ops[0]).1, ops[1..]);
    }
  }

  lemma StepReadable(size: nat, buf: seq<byte>, op: Op)
    requires Harmless(op)
    ensures Readable(Step(size, buf, op).0)
  {
    FlushData(buf);
    assert Readable(FlushFrames(buf)) by {
      forall i | 0 <= i < |FlushFrames(buf)| ensures FlushFrames(buf)[i].code == MSG_DATA {
        assert FlushFrames(buf)[i] in FlushFrames(buf);
      }
    }
    if op.Write? && size > 0 {
      PushReadable(size, buf, op.p);
    }
  }

  lemma {:induction false} PushReadable(size: nat, buf: seq<byte>, p: seq<byte>)
    requires size > 0
    ensures Readable(Push(size, buf, p).0)
    decreases |p|
  {
    if p != [] {
      var (fs, b) := Spill(size, buf);
      FlushData(buf);
      forall i | 0 <= i < |fs| ensures fs[i].code == MSG_DATA {
        assert fs[i] in fs;
      }
      var m := Min(|p|, size - |b|);
      PushReadable(size, b + p[..m], p[m..]);
    }
  }

  /** Transparency: for any interleaving of writes, flushes and logging messages
      that ends with a flush, any buffer size and any read sizes, the reader
      delivers exactly the bytes written, in order, before it reports the end,
      and enough reads deliver all of them. */
  lemma MuxTransparent(size: nat, ops: seq<Op>, sizes: seq<nat>)
    requires forall op :: op in ops ==> Harmless(op)
    ensures forall op :: op in ops + [Flush] ==> Harmless(op)
    ensures Sendable(Run(size, [], ops + [Flush]).0) && Run(size, [], ops + [Flush]).1 == []
    ensures var (got, failed) := Reads([], PutFrames(Run(size, [], ops + [Flush]).0), sizes);
      && got <= Written(ops) && (failed ==> got == Written(ops))
      && (Asking(sizes) >= |Written(ops)| ==> got == Written(ops))
  {
    ReadsProgress([], PutFrames(Run(size, [], ops + [Flush]).0), sizes);
    var all := ops + [Flush];
    RunData(size, [], all);
    RunReadable(size, [], all);
    var (fs, b) := Run(size, [], all);
    RunFlushed(size, [], ops);
    WrittenFlush(ops);
    assert DataOf(fs) + [] == DataOf(fs) && [] + Written(all) == Written(all);
    ReadsDeliver([], fs, sizes);
    assert [] + DataOf(fs) == DataOf(fs);
  }

  lemma {:induction false} RunFlushed(size: nat, buf: seq<byte>, ops: seq<Op>)
    requires forall op :: op in ops ==> Harmless(op)
    ensures forall op :: op in ops + [Flush] ==> Harmless(op)
    ensures Run(size, buf, ops + [Flush]).1 == []
    decreases |ops|
  {
    if ops == [] {
      assert ops + [Flush] == [Flush] && [Flush][1..] == [];
      assert Run(size, [], [Flush][1..]).1 == [];
    } else {
      assert (ops + [Flush])[1..] == ops[1..] + [Flush] && (ops + [Flush])[0] == ops[0];
      RunFlushed(size, Step(size, buf, ops[0]).1, ops[1..]);
    }
  }

  lemma {:induction false} WrittenFlush(ops: seq<Op>)
    ensures Written(ops + [Flush]) == Written(ops)
  {
    if ops == [] {
      assert ops + [Flush] == [Flush] && [Flush][1..] == [];
      assert Written([Flush][1..]) == [];
    } else {
      assert (ops + [Flush])[1..] == ops[1..] + [Flush] && (ops + [Flush])[0] == ops[0];
      WrittenFlush(ops[1..]);
    }
  }
}
