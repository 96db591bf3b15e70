/** FlistWriter and FlistReader (protocol/flist.go) as objects over a stream, and
    the loops around them, proved against the functions of Flist. */
module FlistObjects {
  import opened Bytes
  import opened WireInts
  import opened Xflags
  import opened Flist
  import opened FlistProofs
  import opened FlistLists

  lemma {:induction false} PrefixIs(a: seq<byte>, b: seq<byte>, max: nat, n: nat)
    requires n <= max && n <= |a| && n <= |b| && a[..n] == b[..n]
    requires n == max || n == |a| || n == |b| || a[n] != b[n]
    ensures PrefixUpTo(a, b, max) == n
  {
    if n > 0 {
      assert a[0] == a[..n][0] == b[..n][0] == b[0];
      assert a[1..][..n - 1] == a[..n][1..] == b[..n][1..] == b[1..][..n - 1];
      PrefixIs(a[1..], b[1..], max - 1, n - 1);
    }
  }

  /** The longest common prefix of at most 255 bytes. */
  method CommonPrefixLen(a: seq<byte>, b: seq<byte>) returns (n: nat)
    ensures n == CommonPrefix(a, b) && a[..n] == b[..n]
    ensures n < 255 && n < |a| && n < |b| ==> a[n] != b[n]
  {
    var m := |a|;
    if |b| < m {
      m := |b|;
    }
    if m > 255 {
      m := 255;
    }
    for i := 0 to m
      invariant a[..i] == b[..i]
    {
      if a[i] != b[i] {
        PrefixIs(a, b, 255, i);
        return i;
      }
      assert a[..i + 1] == a[..i] + [a[i]] && b[..i + 1] == b[..i] + [b[i]];
    }
    PrefixIs(a, b, 255, m);
    return m;
  }

  class FlistWriter {
    const w: Stream
    const c: Config
    var lastName: seq<byte>
    var lastMode: uint32
    var lastMtime: int64
    var lastAtime: int64
    var lastUID: int32
    var lastGID: int32
    var lastDev: int64

    function State(): Sent
      reads this
    {
      Sent(lastName, lastMode, lastMtime, lastAtime, lastUID, lastGID, lastDev)
    }

    constructor (w: Stream, c: Config)
      ensures this.w == w && this.c == c && State() == NOTHING_SENT
    {
      this.w, this.c := w, c;
      lastName, lastMode, lastMtime, lastAtime, lastUID, lastGID, lastDev := [], 0, 0, 0, 0, 0, 0;
    }

    method WriteEntry(e: Entry)
      modifies this, w
      ensures w.buf == old(w.buf) + PutEntry(c, old(State()), e, [])
      ensures State() == AfterPut(c, old(State()), e)
    {
      var x := ComputeFlags(c, State(), e);
      WriteFields(x, e);
      FlagMeaning(c, State(), e);
      Remember(x, e);
    }

    method WriteFields(x: Flags, e: Entry)
      requires x == ComputeFlags(c, State(), e)
      modifies w
      ensures w.buf == old(w.buf) + PutEntry(c, State(), e, [])
    {
      ghost var special := PutSpecial(c, x, e, []);
      ghost var owner := PutOwner(c, x, e, special);
      ghost var stat := PutStat(c, x, e, owner);
      Append(PutFlags(c.FlagStyle(), x, IsDir(e.mode)), PutName(x, lastName, e.name) + stat);
      WriteName(x, e.name, stat);
      WriteStat(x, e, owner);
      WriteOwner(x, e, special);
      WriteSpecial(x, e);
      assert w.buf + [] == w.buf;
    }

    method WriteName(x: Flags, name: seq<byte>, ghost later: seq<byte>)
      requires x[LONG_NAME] == (|name| - CommonPrefix(lastName, name) > 255)
      modifies w
      ensures w.buf + later == old(w.buf) + (PutName(x, lastName, name) + later)
    {
      var l1 := CommonPrefixLen(lastName, name);
      var suffix := name[l1..];
      var a := if x[SAME_NAME] then [l1] else [];
      var b := if x[LONG_NAME] then PutVarint(Signed32(|suffix|)) else [|suffix|];
      Assoc(a, b + suffix, later);
      Assoc(b, suffix, later);
      Append(a, b + (suffix + later));
      Append(b, suffix + later);
      Append(suffix, later);
    }

    /** The last* updates, each where the field was written. */
    method Remember(x: Flags, e: Entry)
      requires x[SAME_TIME] ==> e.mtime == lastMtime
      requires x[SAME_MODE] ==> e.mode == lastMode
      requires x[SAME_ATIME] ==> e.atime == lastAtime
      requires c.uids && x[SAME_UID] ==> e.uid == lastUID
      requires c.gids && x[SAME_GID] ==> e.gid == lastGID
      modifies this
      ensures State() == AfterPut(c, old(State()), e)
    {
      if FlaggedLink(c, e) {
        lastDev := e.dev;
      }
      lastName := e.name;
      RememberStat(x, e, IsDir(e.mode));
      RememberOwner(x, e);
    }

    method RememberStat(x: Flags, e: Entry, isDir: bool)
      requires x[SAME_TIME] ==> e.mtime == lastMtime
      requires x[SAME_MODE] ==> e.mode == lastMode
      requires x[SAME_ATIME] ==> e.atime == lastAtime
      modifies this`lastMtime, this`lastMode, this`lastAtime
      ensures lastMtime == e.mtime && lastMode == e.mode
      ensures lastAtime == if c.atimes && !isDir then e.atime else old(lastAtime)
    {
      if !x[SAME_TIME] {
        lastMtime := e.mtime;
      }
      if !x[SAME_MODE] {
        lastMode := e.mode;
      }
      if c.atimes && !isDir && !x[SAME_ATIME] {
        lastAtime := e.atime;
      }
    }

    method RememberOwner(x: Flags, e: Entry)
      requires c.uids && x[SAME_UID] ==> e.uid == lastUID
      requires c.gids && x[SAME_GID] ==> e.gid == lastGID
      modifies this`lastUID, this`lastGID
      ensures lastUID == if c.uids then e.uid else old(lastUID)
      ensures lastGID == if c.gids then e.gid else old(lastGID)
    {
      if c.uids && !x[SAME_UID] {
        lastUID := e.uid;
      }
      if c.gids && !x[SAME_GID] {
        lastGID := e.gid;
      }
    }

    /** One write; `later` is what is still to come. */
    method Append(p: seq<byte>, ghost later: seq<byte>)
      modifies w
      ensures w.buf + later == old(w.buf) + (p + later)
    {
      Assoc(w.buf, p, later);
      w.Write(p);
    }

    method WriteStat(x: Flags, e: Entry, ghost later: seq<byte>)
      modifies w
      ensures w.buf + later == old(w.buf) + PutStat(c, x, e, later)
    {
      ghost var t3 := PutMode(x, e.mode) + later;
      ghost var t2 := PutNsec(x, e.modNsec) + t3;
      ghost var t1 := PutMtime(c, x, e.mtime) + t2;
      Append(PutSize(c, e.size), t1);
      Append(PutMtime(c, x, e.mtime), t2);
      Append(PutNsec(x, e.modNsec), t3);
      Append(PutMode(x, e.mode), later);
    }

    method WriteOwner(x: Flags, e: Entry, ghost later: seq<byte>)
      modifies w
      ensures w.buf + later == old(w.buf) + PutOwner(c, x, e, later)
    {
      ghost var t2 := PutId(c.version, c.gids, x[SAME_GID], e.gid) + later;
      ghost var t1 := PutId(c.version, c.uids, x[SAME_UID], e.uid) + t2;
      Append(PutAtime(c, x, e.mode, e.atime), t1);
      Append(PutId(c.version, c.uids, x[SAME_UID], e.uid), t2);
      Append(PutId(c.version, c.gids, x[SAME_GID], e.gid), later);
    }

    method WriteSpecial(x: Flags, e: Entry)
      modifies w
      ensures w.buf + [] == old(w.buf) + PutSpecial(c, x, e, [])
    {
      ghost var t3 := PutChecksum(c, e.mode, e.checksum) + [];
      ghost var t2 := PutInode(c, x, e.mode, e.dev, e.ino) + t3;
      ghost var t1 := PutLink(c, e.mode, e.linkTarget) + t2;
      Append(PutRdev(c, e.mode, e.rdevMajor, e.rdevMinor), t1);
      Append(PutLink(c, e.mode, e.linkTarget), t2);
      Append(PutInode(c, x, e.mode, e.dev, e.ino), t3);
      Append(PutChecksum(c, e.mode, e.checksum), []);
    }
  }

  /** sendFileList: every entry, the end marker, the id lists and the error
      trailer. */
  method SendFileList(w: Stream, c: Config, id0: bool, es: seq<Entry>)
    modifies w
    ensures w.buf == old(w.buf) + PutList(c, NOTHING_SENT, es, PutTrailer(c, id0, []))
  {
    var fw := new FlistWriter(w, c);
    ghost var trailer := PutTrailer(c, id0, []);
    assert es[0..] == es;
    for i := 0 to |es|
      invariant fw.w == w && fw.c == c && fresh(fw)
      invariant w.buf + PutList(c, fw.State(), es[i..], trailer) == old(w.buf) + PutList(c, NOTHING_SENT, es, trailer)
    {
      ghost var before, st := w.buf, fw.State();
      assert es[i..][0] == es[i] && es[i..][1..] == es[i + 1..];
      fw.WriteEntry(es[i]);
      ghost var later := PutList(c, fw.State(), es[i + 1..], trailer);
      EntryTail(c, st, es[i], later);
      Assoc(before, PutEntry(c, st, es[i], []), later);
    }
    ghost var t2 := if c.version < 30 then PutI32(0) else [];
    ghost var t1 := PutIdList(c.version, c.gids, id0) + (t2 + []);
    fw.Append(PutEnd(c.FlagStyle()), trailer);
    fw.Append(PutIdList(c.version, c.uids, id0), t1);
    fw.Append(PutIdList(c.version, c.gids, id0), t2 + []);
    if c.version < 30 {
      fw.Append(PutI32(0), []);
    }
    assert w.buf + [] == w.buf;
  }

  lemma {:induction false} StatTail(c: Config, x: Flags, e: Entry, t: seq<byte>, tail: seq<byte>)
    ensures PutStat(c, x, e, t + tail) == PutStat(c, x, e, t) + tail
  {
    var p1, p2, p3, p4 := PutSize(c, e.size), PutMtime(c, x, e.mtime), PutNsec(x, e.modNsec), PutMode(x, e.mode);
    Assoc(p4, t, tail);
    Assoc(p3, p4 + t, tail);
    Assoc(p2, p3 + (p4 + t), tail);
    Assoc(p1, p2 + (p3 + (p4 + t)), tail);
  }

  lemma {:induction false} OwnerTail(c: Config, x: Flags, e: Entry, t: seq<byte>, tail: seq<byte>)
    ensures PutOwner(c, x, e, t + tail) == PutOwner(c, x, e, t) + tail
  {
    var p1 := PutAtime(c, x, e.mode, e.atime);
    var p2 := PutId(c.version, c.uids, x[SAME_UID], e.uid);
    var p3 := PutId(c.version, c.gids, x[SAME_GID], e.gid);
    Assoc(p3, t, tail);
    Assoc(p2, p3 + t, tail);
    Assoc(p1, p2 + (p3 + t), tail);
  }

  lemma {:induction false} SpecialTail(c: Config, x: Flags, e: Entry, tail: seq<byte>)
    ensures PutSpecial(c, x, e, tail) == PutSpecial(c, x, e, []) + tail
  {
    var p1 := PutRdev(c, e.mode, e.rdevMajor, e.rdevMinor);
    var p2 := PutLink(c, e.mode, e.linkTarget);
    var p3 := PutInode(c, x, e.mode, e.dev, e.ino);
    var p4 := PutChecksum(c, e.mode, e.checksum);
    NoBytes(tail);
    Assoc(p4, [], tail);
    Assoc(p3, p4 + [], tail);
    Assoc(p2, p3 + (p4 + []), tail);
    Assoc(p1, p2 + (p3 + (p4 + [])), tail);
  }

  /** Writing in front of a tail is writing, then the tail. */
  lemma {:induction false} EntryTail(c: Config, w: Sent, e: Entry, tail: seq<byte>)
    ensures PutEntry(c, w, e, tail) == PutEntry(c, w, e, []) + tail
  {
    var x := ComputeFlags(c, w, e);
    var flags, name := PutFlags(c.FlagStyle(), x, IsDir(e.mode)), PutName(x, w.name, e.name);
    var special := PutSpecial(c, x, e, []);
    var owner := PutOwner(c, x, e, special);
    SpecialTail(c, x, e, tail);
    OwnerTail(c, x, e, special, tail);
    StatTail(c, x, e, owner, tail);
    TwoInFront(flags, name, PutStat(c, x, e, owner), tail);
  }

  lemma {:induction false} TwoInFront(a: seq<byte>, b: seq<byte>, s: seq<byte>, tail: seq<byte>)
    ensures a + (b + (s + tail)) == (a + (b + s)) + tail
  {
    Assoc(b, s, tail);
    Assoc(a, b + s, tail);
  }

  // -------------------------------------------------------------------- the reader

  class FlistReader {
    const r: Stream
    const c: Config
    var lastName: seq<byte>
    var lastMode: uint32
    var lastMtime: int64
    var lastAtime: int64
    var lastUID: int32
    var lastGID: int32
    var used: nat

    function State(): Recv
      reads this
    {
      Recv(lastName, lastMode, lastMtime, lastAtime, lastUID, lastGID, used)
    }

    constructor (r: Stream, c: Config)
      ensures this.r == r && this.c == c && State() == NOTHING_READ
    {
      this.r, this.c := r, c;
      lastName, lastMode, lastMtime, lastAtime, lastUID, lastGID, used := [], 0, 0, 0, 0, 0, 0;
    }

    /** Takes the rest of a successful read off the stream. */
    method Advance(rest: seq<byte>)
      modifies r
      ensures r.buf == rest
    {
      r.buf := rest;
    }

    method ReadEntry() returns (res: Read<Item>)
      modifies this, r
      ensures var spec := GetEntry(c, old(State()), old(r.buf));
        if spec.Got? then res == Got(spec.value.0, spec.rest) && State() == spec.value.1 && r.buf == spec.rest
        else res == spec.PropagateFailure<Item>()
    {
      var seen := GetFlags(c.FlagStyle(), r.buf);
      if !seen.Got? {
        return seen.PropagateFailure();
      }
      if seen.value.EndOfList? {
        var after := GetListError(c, seen.rest);
        if !after.Got? {
          return after.PropagateFailure();
        }
        Advance(after.rest);
        return Got(End, r.buf);
      }
      var x := seen.value.flags;
      var name := GetName(x, lastName, seen.rest);
      if !name.Got? {
        return name.PropagateFailure();
      }
      Advance(name.rest);
      if Abbreviated(c, x) {
        res := ReadAbbreviated(name.value);
      } else {
        res := ReadFull(x, name.value);
      }
    }

    method ReadAbbreviated(name: seq<byte>) returns (res: Read<Item>)
      modifies this, r
      ensures var spec := GetAbbreviated(old(State()), name, old(r.buf));
        if spec.Got? then res == Got(spec.value.0, spec.rest) && State() == spec.value.1 && r.buf == spec.rest
        else res == spec.PropagateFailure<Item>()
    {
      var a := GetAbbreviated(State(), name, r.buf);
      if !a.Got? {
        return a.PropagateFailure();
      }
      Advance(a.rest);
      lastName, used := name, used + 1;
      return Got(a.value.0, r.buf);
    }

    method ReadFull(x: Flags, name: seq<byte>) returns (res: Read<Item>)
      modifies this, r
      ensures var spec := GetFull(c, x, old(State()), name, old(r.buf));
        if spec.Got? then res == Got(spec.value.0, spec.rest) && State() == spec.value.1 && r.buf == spec.rest
        else res == spec.PropagateFailure<Item>()
    {
      var st := GetStat(c, x, State(), r.buf);
      if !st.Got? {
        return st.PropagateFailure();
      }
      if !ModeAccepted(st.value.mode) || (RootName(name) && !IsDir(st.value.mode)) {
        return Invalid;
      }
      Advance(st.rest);
      res := ReadBehindMode(x, name, st.value);
    }

    method ReadBehindMode(x: Flags, name: seq<byte>, st: Stat) returns (res: Read<Item>)
      modifies this, r
      ensures var spec := GetBehindMode(c, x, old(State()), name, st, old(r.buf));
        if spec.Got? then res == Got(spec.value.0, spec.rest) && State() == spec.value.1 && r.buf == spec.rest
        else res == spec.PropagateFailure<Item>()
    {
      var ow := GetOwner(c, x, State(), st.mode, r.buf);
      if !ow.Got? {
        return ow.PropagateFailure();
      }
      var sp := GetSpecial(c, x, st.mode, ow.rest);
      if !sp.Got? {
        return sp.PropagateFailure();
      }
      Advance(sp.rest);
      var e := Assemble(name, x, st, ow.value, sp.value);
      Remember(e);
      return Got(Item(e), r.buf);
    }

    method Remember(e: Entry)
      modifies this
      ensures State() == AfterGet(c, old(State()), e)
    {
      lastName, lastMode, lastMtime := e.name, e.mode, e.mtime;
      if c.atimes && !IsDir(e.mode) {
        lastAtime := e.atime;
      }
      if c.uids {
        lastUID := e.uid;
      }
      if c.gids {
        lastGID := e.gid;
      }
      used := used + 1;
    }
  }

  /** readFileList's loop, which leaves an ended stream empty. */
  method ReadEntries(r: Stream, c: Config) returns (res: Read<seq<Entry>>)
    modifies r
    ensures res == GetList(c, NOTHING_READ, old(r.buf))
    ensures res.Got? ==> r.buf == res.rest
  {
    var fr := new FlistReader(r, c);
    var entries: seq<Entry> := [];
    ghost var all := GetList(c, NOTHING_READ, r.buf);
    PrependNone(all);
    while true
      invariant fr.r == r && fr.c == c && fresh(fr)
      invariant all == Prepend(entries, GetList(c, fr.State(), r.buf))
      decreases |r.buf|
    {
      var item := fr.ReadEntry();
      if item.Eof? {
        r.buf := [];
        assert entries + [] == entries;
        return Got(entries, r.buf);
      }
      if !item.Got? {
        return item.PropagateFailure();
      }
      if item.value.End? {
        assert entries + [] == entries;
        return Got(entries, r.buf);
      }
      PrependConcat(entries, [item.value.entry], GetList(c, fr.State(), r.buf));
      entries := entries + [item.value.entry];
    }
  }
}
