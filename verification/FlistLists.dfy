/** Whole file lists: entries, end marker and trailer, and where the codec is
    known to lose something. */
module FlistLists {
  import opened Bytes
  import opened WireInts
  import opened Xflags
  import opened Flist
  import opened FlistProofs

  // ------------------------------------------------------------------- the entries

  predicate AllWritable(c: Config, w: Sent, es: seq<Entry>)
    decreases |es|
  {
    es == [] || (Writable(c, w, es[0]) && AllWritable(c, AfterPut(c, w, es[0]), es[1..]))
  }

  /** Every entry and the end marker, in front of what follows. */
  function PutList(c: Config, w: Sent, es: seq<Entry>, tail: seq<byte>): seq<byte>
    decreases |es|
  {
    if es == [] then PutEnd(c.FlagStyle()) + tail
    else PutEntry(c, w, es[0], PutList(c, AfterPut(c, w, es[0]), es[1..], tail))
  }

  /** readFileList's loop: entries until the end marker, or until the stream has
      nothing left, within an entry as well. */
  function GetList(c: Config, r: Recv, s: seq<byte>): Read<seq<Entry>>
    decreases |s|
  {
    if GetEntry(c, r, s).Eof? then Got([], [])
    else
      var (x, s1) :- GetEntry(c, r, s);
      match x.0
      case End => Got([], s1)
      case Item(e) => Prepend([e], GetList(c, x.1, s1))
  }

  /** The stream holds whole entries up to an end marker. */
  ghost predicate Whole(c: Config, r: Recv, s: seq<byte>)
    decreases |s|
  {
    var x := GetEntry(c, r, s);
    x.Got? && (x.value.0.End? || Whole(c, x.value.1, x.rest))
  }

  /** The loop also accepts a list without its end marker, but only by using up the
      stream. */
  lemma {:induction false} UnmarkedDrains(c: Config, r: Recv, s: seq<byte>)
    ensures Whole(c, r, s) ==> GetList(c, r, s).Got?
    ensures GetList(c, r, s).Got? && !Whole(c, r, s) ==> GetList(c, r, s).rest == []
    decreases |s|
  {
    var x := GetEntry(c, r, s);
    if x.Got? && x.value.0.Item? {
      UnmarkedDrains(c, x.value.1, x.rest);
    }
  }

  function CarriedList(c: Config, w: Sent, es: seq<Entry>): seq<Entry>
    decreases |es|
  {
    if es == [] then [] else [Carried(c, w, es[0])] + CarriedList(c, AfterPut(c, w, es[0]), es[1..])
  }

  lemma EndRoundTrip(c: Config, r: Recv, tail: seq<byte>)
    ensures GetEntry(c, r, PutEnd(c.FlagStyle()) + tail) == Got((End, r), tail)
  {
    if c.varint {
      VarintRoundTrip(0, PutVarint(0) + tail);
      VarintRoundTrip(0, tail);
      Assoc(PutVarint(0), PutVarint(0), tail);
    } else {
      TakeFirst(0, tail);
    }
  }

  /** Reading a written list returns what each entry carries, in order, never
      takes an entry for the end marker, and stops exactly behind that marker. */
  lemma {:induction false} ListRoundTrip(c: Config, w: Sent, r: Recv, es: seq<Entry>, tail: seq<byte>)
    requires AllWritable(c, w, es) && InStep(c, w, r)
    ensures GetList(c, r, PutList(c, w, es, tail)) == Got(CarriedList(c, w, es), tail)
    decreases |es|
  {
    if es == [] {
      EndRoundTrip(c, r, tail);
    } else {
      var w', r' := AfterPut(c, w, es[0]), AfterGet(c, r, Carried(c, w, es[0]));
      EntryRoundTrip(c, w, r, es[0], PutList(c, w', es[1..], tail));
      ListRoundTrip(c, w', r', es[1..], tail);
    }
  }

  // ------------------------------------------------------------------- the trailer

  /** One id list: nothing when the id space is not preserved, else its terminator
      and, when negotiated, an empty name for id 0. */
  function PutIdList(version: int, preserved: bool, id0: bool): seq<byte> {
    if !preserved then []
    else (if version >= 30 then PutVarint(0) else PutI32(0)) + if id0 then [0] else []
  }

  function PutTrailer(c: Config, id0: bool, tail: seq<byte>): seq<byte> {
    PutIdList(c.version, c.uids, id0)
    + (PutIdList(c.version, c.gids, id0)
    + ((if c.version < 30 then PutI32(0) else []) + tail))
  }

  function SkipIdName(s: seq<byte>): (res: Read<()>)
    ensures res.Got? ==> |res.rest| < |s|
  {
    var (n, s1) :- TakeByte(s);
    var (_, s2) :- Take(s1, n);
    Got((), s2)
  }

  function GetIdNumber(version: int, s: seq<byte>): (res: Read<int32>)
    ensures res.Got? ==> |res.rest| <= |s|
  {
    if version >= 30 then GetVarint(s) else GetI32(s)
  }

  /** readIDList: numbered names up to a zero id. */
  function GetIdList(version: int, id0: bool, s: seq<byte>): Read<()>
    decreases |s|
  {
    var (id, s1) :- GetIdNumber(version, s);
    if id == 0 then if id0 then SkipIdName(s1) else Got((), s1)
    else
      var (_, s2) :- SkipIdName(s1);
      GetIdList(version, id0, s2)
  }

  /** readFlistTrailer, by a client that asked for both id lists. */
  function GetTrailer(c: Config, id0: bool, s: seq<byte>): Read<()> {
    var (_, s1) :- GetIdList(c.version, id0, s);
    var (_, s2) :- GetIdList(c.version, id0, s1);
    if !c.varint && c.version < 30 then
      var (_, s3) :- GetI32(s2);
      Got((), s3)
    else Got((), s2)
  }

  lemma IdListRoundTrip(version: int, id0: bool, rest: seq<byte>)
    ensures GetIdList(version, id0, PutIdList(version, true, id0) + rest) == Got((), rest)
  {
    var number := if version >= 30 then PutVarint(0) else PutI32(0);
    var name: seq<byte> := if id0 then [0] else [];
    Assoc(number, name, rest);
    VarintRoundTrip(0, name + rest);
    I32RoundTrip(0, name + rest);
    if id0 {
      TakeFirst(0, rest);
      TakePrefix([], rest);
      NoBytes(rest);
    } else {
      NoBytes(rest);
    }
  }

  lemma TrailerRoundTrip(c: Config, id0: bool, rest: seq<byte>)
    requires c.Valid() && c.uids && c.gids
    ensures GetTrailer(c, id0, PutTrailer(c, id0, rest)) == Got((), rest)
  {
    var t2 := (if c.version < 30 then PutI32(0) else []) + rest;
    var t1 := PutIdList(c.version, true, id0) + t2;
    IdListRoundTrip(c.version, id0, t1);
    IdListRoundTrip(c.version, id0, t2);
    if c.version < 30 {
      I32RoundTrip(0, rest);
    } else {
      NoBytes(rest);
    }
  }

  function GetFileList(c: Config, id0: bool, s: seq<byte>): Read<seq<Entry>> {
    var (es, s1) :- GetList(c, NOTHING_READ, s);
    var (_, s2) :- GetTrailer(c, id0, s1);
    Got(es, s2)
  }

  /** Whatever the bytes: a list that is cut off is never taken for a whole one. The
      loop may accept it, but the id lists are then missing. */
  lemma {:induction false} CutListRefused(c: Config, id0: bool, s: seq<byte>)
    requires !Whole(c, NOTHING_READ, s)
    ensures !GetFileList(c, id0, s).Got?
  {
    UnmarkedDrains(c, NOTHING_READ, s);
  }

  /** sendFileList against readFileList, from fresh ends: the client gets what
      every entry carries and is left exactly at the selector phase. */
  lemma FileListRoundTrip(c: Config, id0: bool, es: seq<Entry>, rest: seq<byte>)
    requires c.Valid() && c.uids && c.gids
    requires AllWritable(c, NOTHING_SENT, es)
    ensures GetFileList(c, id0, PutList(c, NOTHING_SENT, es, PutTrailer(c, id0, rest)))
         == Got(CarriedList(c, NOTHING_SENT, es), rest)
  {
    ListRoundTrip(c, NOTHING_SENT, NOTHING_READ, es, PutTrailer(c, id0, rest));
    TrailerRoundTrip(c, id0, rest);
  }

  // ---------------------------------------------------------- what is not carried

  /** The lossy fields of an entry are as they were, each exactly when it fits: times
      below protocol 30 must fit 32 bits, packed device numbers below 28 must fit
      their bits, at 28-29 a device number must not repeat the previous flagged one,
      and below 26 device and inode numbers must fit 32 bits. */
  ghost predicate LostExactly(c: Config, w: Sent, e: Entry, got: Entry) {
    && (got.mtime == e.mtime <==> c.version >= 30 || 0 <= e.mtime < U32)
    && (c.devices && IsDevice(e.mode) ==>
          ((got.rdevMajor, got.rdevMinor) == (e.rdevMajor, e.rdevMinor)
           <==> c.version >= 28 || (e.rdevMajor < 0x100_0000 && e.rdevMinor < 256)))
    && (FlaggedLink(c, e) ==> (got.dev == e.dev <==> e.dev != w.dev || e.dev == 0))
    && (c.version < 26 && c.hardlinks && Kind(e.mode) == S_REG ==>
          ((got.dev, got.ino) == (e.dev, e.ino) <==> 0 <= e.dev < U32 && 0 <= e.ino < U32))
  }

  lemma {:induction false} CarriedLoss(c: Config, w: Sent, e: Entry)
    ensures LostExactly(c, w, e, Carried(c, w, e))
  {
    assert ComputeFlags(c, w, e)[HLINKED] == FlaggedLink(c, e);
  }

  /** What the reader returns has lost exactly that. */
  lemma {:induction false} LossExactly(c: Config, w: Sent, r: Recv, e: Entry, tail: seq<byte>)
    requires Writable(c, w, e) && InStep(c, w, r)
    ensures var res := GetEntry(c, r, PutEntry(c, w, e, tail));
      res.Got? && res.value.0.Item? && LostExactly(c, w, e, res.value.0.entry)
  {
    EntryRoundTrip(c, w, r, e, tail);
    CarriedLoss(c, w, e);
  }

  /** A flagged link on the same device as the one before it arrives without its
      device number, which the reader would have to remember and does not. */
  lemma RepeatedDeviceLost(c: Config, w: Sent, r: Recv, e: Entry, tail: seq<byte>)
    requires Writable(c, w, e) && InStep(c, w, r)
    requires FlaggedLink(c, e) && e.dev == w.dev
    ensures var got := GetEntry(c, r, PutEntry(c, w, e, tail));
      got.Got? && got.value.0.Item? && got.value.0.entry.dev == 0 && got.value.0.entry.ino == e.ino
  {
    EntryRoundTrip(c, w, r, e, tail);
    RepeatedInode(c, w, e);
  }

  lemma RepeatedInode(c: Config, w: Sent, e: Entry)
    requires FlaggedLink(c, e) && e.dev == w.dev
    ensures CarriedInode(c, w, e) == (0, e.ino)
  {
    assert ComputeFlags(c, w, e)[HLINKED];
  }
}
