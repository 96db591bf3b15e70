/** Which entries the file-list codec carries, exactly: an entry comes back as the
    version carries it, with the stream right behind it, if and only if it is
    writable. One half is the round trip; here is the other.

    What the reader returns has passed its guards, so an entry that does not pass
    them cannot come back. Below protocol 28 there are two more: a repeated access
    time, whose flag does not travel, makes the reader take a time that was never
    written, and a directory without flags has its one-byte name length read as a
    varint. In both cases the reader is ahead of the writer by a few bytes, and no
    field of the entry, read as it should be, can make up for that.
 */
module FlistExact {
  import opened Bytes
  import opened WireInts
  import opened Xflags
  import opened Flist
  import opened FlistProofs

  // ------------------------------------------------------------------ how much is read

  lemma {:induction false} VarintTakes(s: seq<byte>)
    ensures var r := GetVarint(s); r.Got? ==> |s| > 0 && Extra(s[0]) <= 4 && |r.rest| == |s| - 1 - Extra(s[0])
  {
    if |s| > 0 {
      assert Take(s, 1) == Got(s[..1], s[1..]);
    }
  }

  lemma {:induction false} TimeTakes(s: seq<byte>)
    ensures var r := GetVarlong(s, 4); r.Got? ==> 4 <= |s| - |r.rest| <= 9 && r.rest == s[|s| - |r.rest|..]
  {
    if |s| >= 4 {
      assert Take(s, 4) == Got(s[..4], s[4..]);
      var k := Extra(s[..4][0]);
      if 4 + k <= |s| {
        assert s[4..][k..] == s[4 + k..];
      }
    }
  }

  lemma {:induction false} LongIntTakes(s: seq<byte>)
    ensures var r := GetLongInt(s); r.Got? ==>
      (|s| - |r.rest| == 4 || |s| - |r.rest| == 12) && r.rest == s[|s| - |r.rest|..]
  {
    if |s| >= 12 {
      assert s[4..][8..] == s[12..];
    }
  }

  lemma LongIntLength(v: int64)
    ensures |PutLongInt(v)| == 4 || |PutLongInt(v)| == 12
  {
  }

  lemma {:induction false} LEDrop(n: nat, k: nat, v: nat)
    requires k <= n
    ensures LE(n, v)[k..] == LE(n - k, v / Pow256(k))
    decreases k
  {
    if k > 0 {
      LEDrop(n - 1, k - 1, v / 256);
      assert LE(n, v)[k..] == LE(n - 1, v / 256)[k - 1..];
      DivTwice(v, Pow256(k - 1));
    }
  }

  lemma {:induction false} DivTwice(v: nat, p: nat)
    requires p > 0
    ensures v / 256 / p == v / (256 * p)
  {
    var h, q := v / 256, v / 256 / p;
    var m := h - p * q;
    assert h == p * q + m && 0 <= m < p;
    assert 256 * h == 256 * (p * q) + 256 * m;
    assert v == (256 * p) * q + (256 * m + v % 256);
    DivMod(v, 256 * p, q, 256 * m + v % 256);
  }

  /** The long form of a negative number that fits 32 bits ends in the mark of a long
      form. */
  lemma {:induction false} LongTail(v: int64)
    requires -U31 <= v < 0
    ensures PutLongInt(v)[8..12] == PutI32(-1)
  {
    var digits := LE(8, v % U64);
    Pow256Values();
    LEDrop(8, 4, v % U64);
    HighOnes(v);
    MarkThenDigits(v, digits);
  }

  lemma HighOnes(v: int64)
    requires -U31 <= v < 0
    ensures v % U64 / U32 == 0xFFFF_FFFF
  {
    DivMod(v % U64, U32, 0xFFFF_FFFF, v + U32);
  }

  lemma {:induction false} MarkThenDigits(v: int64, digits: seq<byte>)
    requires v < 0 && digits == LE(8, v % U64)
    ensures PutLongInt(v)[8..12] == digits[4..]
  {
  }

  /** Reading v eight bytes into its own encoding takes at least as much as that. */
  lemma {:induction false} LongIntAhead(v: int64, after: seq<byte>, rest: seq<byte>)
    requires |PutLongInt(v) + after| >= 8
    requires GetLongInt((PutLongInt(v) + after)[8..]) == Got(v, rest)
    ensures |PutLongInt(v) + after| - 8 - |rest| >= |PutLongInt(v)|
  {
    var s := (PutLongInt(v) + after)[8..];
    LongIntTakes(s);
    LongIntLength(v);
    if |s| - |rest| == 4 && |PutLongInt(v)| == 12 {
      assert -U31 <= v < 0;
      LongTail(v);
      assert s == PutI32(-1) + after;
      I32RoundTrip(-1, after);
      assert false;
    }
  }

  // ------------------------------------------------------------------------ the guards

  /** What any entry the reader returns in full has been checked for. */
  predicate Guarded(c: Config, e: Entry) {
    && |e.name| <= MAX_PATH_LEN && (c.links && Kind(e.mode) == S_LNK ==> |e.linkTarget| < U31)
    && ModeAccepted(e.mode) && (RootName(e.name) ==> IsDir(e.mode))
    && (HasChecksum(c, e.mode) ==> |e.checksum| == 16)
  }

  lemma {:induction false} NameGuard(y: Flags, last: seq<byte>, s: seq<byte>)
    ensures GetName(y, last, s).Got? ==> |GetName(y, last, s).value| <= MAX_PATH_LEN
  {
  }

  lemma {:induction false} LinkGuard(c: Config, mode: uint32, s: seq<byte>)
    ensures GetLink(c, mode, s).Got? ==> |GetLink(c, mode, s).value| < U31
  {
  }

  lemma {:induction false} FullGuard(c: Config, y: Flags, r: Recv, name: seq<byte>, s: seq<byte>)
    requires |name| <= MAX_PATH_LEN
    ensures var res := GetFull(c, y, r, name, s); res.Got? ==> res.value.0.Item? && Guarded(c, res.value.0.entry)
  {
    var st := GetStat(c, y, r, s);
    if st.Got? {
      var ow := GetOwner(c, y, r, st.value.mode, st.rest);
      if ow.Got? {
        SpecialGuard(c, y, st.value.mode, ow.rest);
      }
    }
  }

  lemma {:induction false} SpecialGuard(c: Config, y: Flags, mode: uint32, s: seq<byte>)
    ensures var res := GetSpecial(c, y, mode, s); res.Got? ==>
      |res.value.link| < U31 && (HasChecksum(c, mode) ==> |res.value.checksum| == 16)
  {
    var rdev := GetRdev(c, y, mode, s);
    if rdev.Got? {
      LinkGuard(c, mode, rdev.rest);
    }
  }

  /** An entry that is not an abbreviation, whatever the bytes it was read from. */
  lemma {:induction false} EntryGuard(c: Config, r: Recv, s: seq<byte>)
    ensures var res := GetEntry(c, r, s);
      res.Got? && res.value.0.Item? && res.value.0.entry.hlinkNdx == 0 ==> Guarded(c, res.value.0.entry)
  {
    var seen := GetFlags(c.FlagStyle(), s);
    if seen.Got? && seen.value.Seen? {
      var y := seen.value.flags;
      NameGuard(y, r.name, seen.rest);
      var name := GetName(y, r.name, seen.rest);
      if name.Got? && !Abbreviated(c, y) {
        FullGuard(c, y, r, name.value, name.rest);
      }
    }
  }

  // --------------------------------------------------- below protocol 28: field lengths

  /** The flags below protocol 28: nothing of the high byte. */
  predicate Below28(c: Config, y: Flags) {
    c.version < 28 && LowOnly(y)
  }

  lemma {:induction false} StatTakes(c: Config, y: Flags, r: Recv, s: seq<byte>)
    requires Below28(c, y)
    ensures var res := GetStat(c, y, r, s); res.Got? ==>
      var fixed := (if y[SAME_TIME] then 0 else 4) + (if y[SAME_MODE] then 0 else 4);
      |s| - |res.rest| == fixed + 4 || |s| - |res.rest| == fixed + 12
  {
    LongIntTakes(s);
  }

  function IdLength(preserve: bool, same: bool): nat {
    if preserve && !same then 4 else 0
  }

  lemma {:induction false} IdTakes(version: int, preserve: bool, same: bool, named: bool, last: int32, s: seq<byte>)
    requires version < 28
    ensures var res := GetId(version, preserve, same, named, last, s); res.Got? ==>
      var n := IdLength(preserve, same); n <= |s| && res.rest == s[n..]
  {
  }

  /** After the access time, the owner fields. */
  lemma {:induction false} OwnerTakes(c: Config, y: Flags, r: Recv, mode: uint32, s: seq<byte>)
    requires Below28(c, y)
    ensures var res := GetOwner(c, y, r, mode, s); res.Got? ==>
      var ids := IdLength(c.uids, y[SAME_UID]) + IdLength(c.gids, y[SAME_GID]);
      && GetAtime(c, y, mode, r.atime, s).Got?
      && var later := GetAtime(c, y, mode, r.atime, s).rest;
         ids <= |later| && res.rest == later[ids..]
  {
    var at := GetAtime(c, y, mode, r.atime, s);
    if at.Got? {
      var n := IdLength(c.uids, y[SAME_UID]);
      IdTakes(c.version, c.uids, y[SAME_UID], y[USER_NAME], r.uid, at.rest);
      var uid := GetId(c.version, c.uids, y[SAME_UID], y[USER_NAME], r.uid, at.rest);
      if uid.Got? {
        IdTakes(c.version, c.gids, y[SAME_GID], y[GROUP_NAME], r.gid, uid.rest);
        var m := IdLength(c.gids, y[SAME_GID]);
        if n + m <= |at.rest| {
          assert at.rest[n..][m..] == at.rest[n + m..];
        }
      }
    }
  }

  /** Whether device and inode travel as longints. */
  predicate LongInode(c: Config, mode: uint32) {
    26 <= c.version < 28 && c.hardlinks && Kind(mode) == S_REG
  }

  /** The special fields of an entry with this link, but for longints. */
  function SpecialLength(c: Config, mode: uint32, link: seq<byte>): nat {
    (if c.devices && IsDevice(mode) then 4 else 0)
    + (if c.links && Kind(mode) == S_LNK then 4 + |link| else 0)
    + (if c.version < 26 && c.hardlinks && Kind(mode) == S_REG then 8 else 0)
    + (if HasChecksum(c, mode) then 16 else 0)
  }

  lemma {:induction false} RdevTakes(c: Config, y: Flags, mode: uint32, s: seq<byte>)
    requires Below28(c, y)
    ensures var res := GetRdev(c, y, mode, s); res.Got? ==>
      |s| - |res.rest| == if c.devices && IsDevice(mode) then 4 else 0
  {
  }

  lemma {:induction false} LinkTakes(c: Config, mode: uint32, s: seq<byte>)
    requires c.version < 28
    ensures var res := GetLink(c, mode, s); res.Got? ==>
      |s| - |res.rest| == if c.links && Kind(mode) == S_LNK then 4 + |res.value| else 0
  {
  }

  lemma {:induction false} InodeTakes(c: Config, y: Flags, mode: uint32, s: seq<byte>)
    requires Below28(c, y) && !LongInode(c, mode)
    ensures var res := GetInode(c, y, mode, s); res.Got? ==>
      |s| - |res.rest| == if c.version < 26 && c.hardlinks && Kind(mode) == S_REG then 8 else 0
  {
  }

  lemma {:induction false} ChecksumTakes(c: Config, mode: uint32, s: seq<byte>)
    ensures var res := GetChecksum(c, mode, s); res.Got? ==>
      |s| - |res.rest| == if HasChecksum(c, mode) then 16 else 0
  {
  }

  lemma {:induction false} SpecialTakes(c: Config, y: Flags, mode: uint32, s: seq<byte>)
    requires Below28(c, y) && !LongInode(c, mode)
    ensures var res := GetSpecial(c, y, mode, s); res.Got? ==>
      |s| - |res.rest| == SpecialLength(c, mode, res.value.link)
  {
    var rdev := GetRdev(c, y, mode, s);
    if rdev.Got? {
      RdevTakes(c, y, mode, s);
      LinkTakes(c, mode, rdev.rest);
      var link := GetLink(c, mode, rdev.rest);
      if link.Got? {
        InodeTakes(c, y, mode, link.rest);
        var inode := GetInode(c, y, mode, link.rest);
        if inode.Got? {
          ChecksumTakes(c, mode, inode.rest);
        }
      }
    }
  }

  /** What is written has these lengths. */
  lemma {:induction false} SpecialWritten(c: Config, x: Flags, e: Entry, tail: seq<byte>)
    requires c.version < 28 && !LongInode(c, e.mode) && (HasChecksum(c, e.mode) ==> |ChecksumBytes(e.checksum)| == 16)
    ensures |PutSpecial(c, x, e, tail)| == SpecialLength(c, e.mode, e.linkTarget) + |tail|
  {
    assert |PutLink(c, e.mode, e.linkTarget)| == if c.links && Kind(e.mode) == S_LNK then 4 + |e.linkTarget| else 0;
    assert |PutRdev(c, e.mode, e.rdevMajor, e.rdevMinor)| == if c.devices && IsDevice(e.mode) then 4 else 0;
    assert |PutChecksum(c, e.mode, e.checksum)| == if HasChecksum(c, e.mode) then 16 else 0;
  }

  // ------------------------------------------------ below protocol 28: repeated atimes

  /** Longints read a few bytes late cannot both come out right and make up for it. */
  lemma {:induction false} InodeAhead(dev: int64, ino: int64, sum: seq<byte>, n: nat, t1: seq<byte>, t2: seq<byte>)
    requires var s := PutLongInt(dev) + (PutLongInt(ino) + sum);
      && 4 <= n <= 9 && n <= |s|
      && GetLongInt(s[n..]) == Got(dev, t1) && GetLongInt(t1) == Got(ino, t2)
    ensures |t2| != |sum|
  {
    var d, i := PutLongInt(dev), PutLongInt(ino);
    var s := d + (i + sum);
    LongIntLength(dev);
    LongIntLength(ino);
    LongIntTakes(s[n..]);
    LongIntTakes(t1);
    if |t2| == |sum| {
      assert n == 8;
      LongIntAhead(dev, i + sum, t1);
      assert |s[8..]| - |t1| == |d| && |i| == 12;
      Behind(d, i + sum, 8);
      LongIntAhead(ino, sum, t2);
      assert false;
    }
  }

  lemma {:induction false} Behind(d: seq<byte>, t: seq<byte>, n: nat)
    requires n <= |t|
    ensures (d + t)[n..][|d|..] == t[n..]
  {
  }

  /** The special fields read n bytes late. */
  lemma {:induction false} SpecialAhead(c: Config, w: Sent, e: Entry, x: Flags, y: Flags, n: nat, s: seq<byte>,
                                        tail: seq<byte>)
    requires c.version < 28 && LowOnly(y) && (HasChecksum(c, e.mode) ==> |ChecksumBytes(e.checksum)| == 16)
    requires x == ComputeFlags(c, w, e) && 4 <= n <= 9
    requires var special := PutSpecial(c, x, e, tail); n <= |special| && s == special[n..]
    ensures GetSpecial(c, y, e.mode, s) != Got(CarriedSpecial(c, w, e), tail)
  {
    if LongInode(c, e.mode) {
      LongSpecialAhead(c, w, e, x, y, n, tail);
    } else {
      SpecialWritten(c, x, e, tail);
      ShortSpecialAhead(c, w, e, y, |PutSpecial(c, x, e, tail)|, s, tail);
    }
  }

  lemma {:induction false} ShortSpecialAhead(c: Config, w: Sent, e: Entry, y: Flags, written: nat, s: seq<byte>,
                                             tail: seq<byte>)
    requires c.version < 28 && LowOnly(y) && !LongInode(c, e.mode)
    requires written == SpecialLength(c, e.mode, e.linkTarget) + |tail| && |s| < written
    ensures GetSpecial(c, y, e.mode, s) != Got(CarriedSpecial(c, w, e), tail)
  {
    SpecialTakes(c, y, e.mode, s);
  }

  lemma {:induction false} LongSpecialAhead(c: Config, w: Sent, e: Entry, x: Flags, y: Flags, n: nat, tail: seq<byte>)
    requires LongInode(c, e.mode) && LowOnly(y) && x == ComputeFlags(c, w, e)
    requires HasChecksum(c, e.mode) ==> |ChecksumBytes(e.checksum)| == 16
    requires 4 <= n <= 9 && n <= |PutSpecial(c, x, e, tail)|
    ensures GetSpecial(c, y, e.mode, PutSpecial(c, x, e, tail)[n..]) != Got(CarriedSpecial(c, w, e), tail)
  {
    var sum := PutChecksum(c, e.mode, e.checksum) + tail;
    assert !x[SAME_DEV] && !x[HLINKED];
    RegularSpecial(c, x, e, tail);
    CarriedLongs(c, w, e);
    var s := PutLongInt(e.dev) + (PutLongInt(e.ino) + sum);
    RegularRead(c, y, e.mode, s[n..]);
    var res := GetSpecial(c, y, e.mode, s[n..]);
    if res == Got(CarriedSpecial(c, w, e), tail) {
      var dev := GetLongInt(s[n..]);
      InodeAhead(e.dev, e.ino, sum, n, dev.rest, GetLongInt(dev.rest).rest);
    }
  }

  lemma {:induction false} CarriedLongs(c: Config, w: Sent, e: Entry)
    requires LongInode(c, e.mode)
    ensures CarriedSpecial(c, w, e).inode == (e.dev, e.ino)
  {
  }

  /** The special fields of a regular file: two longints and perhaps a checksum. */
  lemma {:induction false} RegularRead(c: Config, y: Flags, mode: uint32, s: seq<byte>)
    requires LongInode(c, mode) && LowOnly(y)
    ensures var res := GetSpecial(c, y, mode, s); res.Got? ==>
      var dev := GetLongInt(s);
      && dev.Got?
      && var ino := GetLongInt(dev.rest);
         && ino.Got? && res.value.inode == (dev.value, ino.value)
         && |ino.rest| - |res.rest| == if HasChecksum(c, mode) then 16 else 0
  {
    var inode := GetInode(c, y, mode, s);
    if inode.Got? {
      ChecksumTakes(c, mode, inode.rest);
    }
  }

  lemma {:induction false} RegularSpecial(c: Config, x: Flags, e: Entry, tail: seq<byte>)
    requires LongInode(c, e.mode) && !x[SAME_DEV]
    ensures PutSpecial(c, x, e, tail)
         == PutLongInt(e.dev) + (PutLongInt(e.ino) + (PutChecksum(c, e.mode, e.checksum) + tail))
  {
    var sum := PutChecksum(c, e.mode, e.checksum) + tail;
    NoBytes(PutInode(c, x, e.mode, e.dev, e.ino) + sum);
    Assoc(PutLongInt(e.dev), PutLongInt(e.ino), sum);
  }

  /** The whole entry behind its name, with a repeated access time. */
  lemma {:induction false} RepeatedAtimeFull(c: Config, w: Sent, r: Recv, e: Entry, y: Flags, tail: seq<byte>)
    requires c.version < 28 && LowOnly(y) && InStep(c, w, r) && ComputeFlags(c, w, e)[SAME_ATIME]
    requires y[..8] == ComputeFlags(c, w, e)[..8]
    requires HasChecksum(c, e.mode) ==> |ChecksumBytes(e.checksum)| == 16
    ensures var x := ComputeFlags(c, w, e);
      var res := GetFull(c, y, r, e.name, PutStat(c, x, e, PutOwner(c, x, e, PutSpecial(c, x, e, tail))));
      !(res.Got? && res.value.0 == Item(Carried(c, w, e)) && res.rest == tail)
  {
    var x := ComputeFlags(c, w, e);
    var special := PutSpecial(c, x, e, tail);
    var owner := PutOwner(c, x, e, special);
    SameLow(x, y);
    StatRoundTrip(c, w, r, e, x, y, owner);
    SpecialMissed(c, w, r, e, x, y, tail);
    LateFull(c, w, r, e, y, PutStat(c, x, e, owner), owner, tail);
  }

  lemma {:induction false} SpecialMissed(c: Config, w: Sent, r: Recv, e: Entry, x: Flags, y: Flags, tail: seq<byte>)
    requires c.version < 28 && LowOnly(y) && x == ComputeFlags(c, w, e) && x[SAME_ATIME]
    requires y[SAME_UID] == x[SAME_UID] && y[SAME_GID] == x[SAME_GID]
    requires HasChecksum(c, e.mode) ==> |ChecksumBytes(e.checksum)| == 16
    ensures var ow := GetOwner(c, y, r, e.mode, PutOwner(c, x, e, PutSpecial(c, x, e, tail)));
      ow.Got? ==> GetSpecial(c, y, e.mode, ow.rest) != Got(CarriedSpecial(c, w, e), tail)
  {
    var special := PutSpecial(c, x, e, tail);
    OwnerAhead(c, w, r, e, x, y, special);
    var ow := GetOwner(c, y, r, e.mode, PutOwner(c, x, e, special));
    if ow.Got? {
      SpecialAhead(c, w, e, x, y, |special| - |ow.rest|, ow.rest, tail);
    }
  }

  /** Whatever bytes led there: without its special fields the entry does not come
      back. */
  lemma {:induction false} LateFull(c: Config, w: Sent, r: Recv, e: Entry, y: Flags, s: seq<byte>, owner: seq<byte>,
                                    tail: seq<byte>)
    requires GetStat(c, y, r, s) == Got(CarriedStat(c, e), owner)
    requires var ow := GetOwner(c, y, r, e.mode, owner);
      ow.Got? ==> GetSpecial(c, y, e.mode, ow.rest) != Got(CarriedSpecial(c, w, e), tail)
    ensures var res := GetFull(c, y, r, e.name, s);
      !(res.Got? && res.value.0 == Item(Carried(c, w, e)) && res.rest == tail)
  {
    FullParts(c, y, r, e.name, s, CarriedStat(c, e), owner);
    var ow := GetOwner(c, y, r, e.mode, owner);
    if ow.Got? {
      var sp := GetSpecial(c, y, e.mode, ow.rest);
      if sp.Got? && Assemble(e.name, y, CarriedStat(c, e), ow.value, sp.value) == Carried(c, w, e) {
        SpecialOf(c, w, e, y, CarriedStat(c, e), ow.value, sp.value);
      }
    }
  }

  /** The parts of an entry that was read. */
  lemma {:induction false} FullParts(c: Config, y: Flags, r: Recv, name: seq<byte>, s: seq<byte>, st: Stat,
                                     s1: seq<byte>)
    requires GetStat(c, y, r, s) == Got(st, s1)
    ensures var res, ow := GetFull(c, y, r, name, s), GetOwner(c, y, r, st.mode, s1); res.Got? ==>
      && ow.Got?
      && var sp := GetSpecial(c, y, st.mode, ow.rest);
         sp.Got? && res.rest == sp.rest && res.value.0 == Item(Assemble(name, y, st, ow.value, sp.value))
  {
  }

  lemma {:induction false} SpecialOf(c: Config, w: Sent, e: Entry, y: Flags, st: Stat, ow: Owner, sp: Special)
    requires Assemble(e.name, y, st, ow, sp) == Carried(c, w, e)
    ensures sp == CarriedSpecial(c, w, e)
  {
  }

  lemma SameLow(x: Flags, y: Flags)
    requires y[..8] == x[..8]
    ensures forall i :: 0 <= i < 8 ==> y[i] == x[i]
  {
    assert forall i :: 0 <= i < 8 ==> y[i] == y[..8][i] && x[i] == x[..8][i];
  }

  /** The reader takes an access time of four bytes or more out of what follows. */
  lemma {:induction false} OwnerAhead(c: Config, w: Sent, r: Recv, e: Entry, x: Flags, y: Flags, special: seq<byte>)
    requires c.version < 28 && LowOnly(y) && x == ComputeFlags(c, w, e) && x[SAME_ATIME]
    requires y[SAME_UID] == x[SAME_UID] && y[SAME_GID] == x[SAME_GID]
    ensures var ow := GetOwner(c, y, r, e.mode, PutOwner(c, x, e, special)); ow.Got? ==>
      && |ow.rest| <= |special| && 4 <= |special| - |ow.rest| <= 9
      && ow.rest == special[|special| - |ow.rest|..]
  {
    var u, g := PutId(c.version, c.uids, x[SAME_UID], e.uid), PutId(c.version, c.gids, x[SAME_GID], e.gid);
    var owner := u + (g + special);
    AtimeTaken(c, w, e, x, y, r.atime, owner);
    OwnerWithoutTime(c, x, e, special);
    OwnerLate(c, r, e.mode, y, u, g, special);
  }

  lemma {:induction false} OwnerLate(c: Config, r: Recv, mode: uint32, y: Flags, u: seq<byte>, g: seq<byte>,
                                     special: seq<byte>)
    requires Below28(c, y) && |u| == IdLength(c.uids, y[SAME_UID]) && |g| == IdLength(c.gids, y[SAME_GID])
    requires var s := u + (g + special); GetAtime(c, y, mode, r.atime, s) == GetVarlong(s, 4)
    ensures var ow := GetOwner(c, y, r, mode, u + (g + special)); ow.Got? ==>
      && |ow.rest| <= |special| && 4 <= |special| - |ow.rest| <= 9
      && ow.rest == special[|special| - |ow.rest|..]
  {
    var owner := u + (g + special);
    OwnerTakes(c, y, r, mode, owner);
    TimeTakes(owner);
    if GetOwner(c, y, r, mode, owner).Got? {
      LateSuffix(u, g, special, |owner| - |GetVarlong(owner, 4).rest|);
    }
  }

  lemma {:induction false} OwnerWithoutTime(c: Config, x: Flags, e: Entry, special: seq<byte>)
    requires PutAtime(c, x, e.mode, e.atime) == []
    ensures PutOwner(c, x, e, special)
         == PutId(c.version, c.uids, x[SAME_UID], e.uid) + (PutId(c.version, c.gids, x[SAME_GID], e.gid) + special)
  {
    NoBytes(PutId(c.version, c.uids, x[SAME_UID], e.uid) + (PutId(c.version, c.gids, x[SAME_GID], e.gid) + special));
  }

  lemma {:induction false} AtimeTaken(c: Config, w: Sent, e: Entry, x: Flags, y: Flags, last: int64, s: seq<byte>)
    requires x == ComputeFlags(c, w, e) && x[SAME_ATIME] && LowOnly(y)
    ensures PutAtime(c, x, e.mode, e.atime) == []
    ensures GetAtime(c, y, e.mode, last, s) == GetVarlong(s, 4)
  {
    assert c.atimes && !IsDir(e.mode);
  }

  lemma {:induction false} LateSuffix(u: seq<byte>, g: seq<byte>, special: seq<byte>, n: nat)
    requires n <= |special|
    ensures (u + (g + special))[n..][|u| + |g|..] == special[n..]
  {
  }

  // ----------------------------------------- below protocol 28: directories without flags

  /** The one-byte length of a name, read as a varint: the name comes back, and the
      stream right behind it, if and only if the length is below 128. */
  lemma {:induction false} PlaceholderExactly(x: Flags, y: Flags, last: seq<byte>, name: seq<byte>, rest: seq<byte>)
    requires CommonPrefix(last, name) == 0 && |name| <= 255
    requires !x[SAME_NAME] && !x[LONG_NAME] && !y[SAME_NAME] && y[LONG_NAME]
    ensures GetName(y, last, PutName(x, last, name) + rest) == Got(name, rest) <==> |name| < 128
  {
    if |name| < 128 {
      NameRoundTrip(x, y, last, name, rest);
    } else {
      MisreadLength(x, y, last, name, rest);
    }
  }

  /** With a longer length, a name that comes back takes one to four bytes too many. */
  lemma {:induction false} MisreadLength(x: Flags, y: Flags, last: seq<byte>, name: seq<byte>, rest: seq<byte>)
    requires CommonPrefix(last, name) == 0 && 128 <= |name| <= 255
    requires !x[SAME_NAME] && !x[LONG_NAME] && !y[SAME_NAME] && y[LONG_NAME]
    ensures var r := GetName(y, last, PutName(x, last, name) + rest);
      r.Got? && r.value == name ==> 1 <= |rest| - |r.rest| <= 4
  {
    var n := |name|;
    assert name[0..] == name;
    var s := [n] + (name + rest);
    NoBytes([n] + name);
    assert PutName(x, last, name) == [n] + name;
    Assoc([n], name, rest);
    VarintTakes(s);
  }

  /** The bytes behind the name of such a directory. */
  lemma {:induction false} PlainDirWritten(c: Config, w: Sent, e: Entry, tail: seq<byte>)
    requires c.version < 28 && IsDir(e.mode) && Empty(ComputeFlags(c, w, e))
    requires HasChecksum(c, e.mode) ==> |ChecksumBytes(e.checksum)| == 16
    ensures var x := ComputeFlags(c, w, e);
      |PutStat(c, x, e, PutOwner(c, x, e, PutSpecial(c, x, e, tail)))|
      == |PutLongInt(e.size)| + 16 + SpecialLength(c, e.mode, e.linkTarget) + |tail|
  {
    var x := ComputeFlags(c, w, e);
    SpecialWritten(c, x, e, tail);
    EmptyFlags(x);
    assert c.uids && c.gids;
  }

  lemma EmptyFlags(x: Flags)
    requires Empty(x)
    ensures !x[SAME_MODE] && !x[SAME_UID] && !x[SAME_GID] && !x[SAME_NAME] && !x[LONG_NAME] && !x[SAME_TIME]
    ensures !x[MOD_NSEC] && !x[SAME_ATIME]
  {
  }

  /** What the reader takes for such a directory behind its name. */
  lemma {:induction false} PlainDirTaken(c: Config, w: Sent, r: Recv, e: Entry, y: Flags, s: seq<byte>)
    requires c.version < 28 && LowOnly(y) && IsDir(e.mode) && c.uids && c.gids
    requires !y[SAME_MODE] && !y[SAME_UID] && !y[SAME_GID] && !y[SAME_TIME]
    ensures var res := GetFull(c, y, r, e.name, s); res.Got? && res.value.0 == Item(Carried(c, w, e)) ==>
      var fixed := 16 + SpecialLength(c, e.mode, e.linkTarget);
      |s| - |res.rest| == fixed + 4 || |s| - |res.rest| == fixed + 12
  {
    var st := GetStat(c, y, r, s);
    if st.Got? {
      StatTakes(c, y, r, s);
      FullParts(c, y, r, e.name, s, st.value, st.rest);
      OwnerTakes(c, y, r, st.value.mode, st.rest);
      var ow := GetOwner(c, y, r, st.value.mode, st.rest);
      if ow.Got? && IsDir(st.value.mode) {
        SpecialTakes(c, y, st.value.mode, ow.rest);
      }
    }
  }

  lemma {:induction false} PlainDirLost(c: Config, w: Sent, r: Recv, e: Entry, tail: seq<byte>)
    requires c.version < 28 && !c.varint && InStep(c, w, r) && IsDir(e.mode) && Empty(ComputeFlags(c, w, e))
    requires |e.name| >= 128 && (HasChecksum(c, e.mode) ==> |ChecksumBytes(e.checksum)| == 16)
    ensures var res := GetEntry(c, r, PutEntry(c, w, e, tail));
      !(res.Got? && res.value.0 == Item(Carried(c, w, e)) && res.rest == tail)
  {
    var x := ComputeFlags(c, w, e);
    var y := x[LONG_NAME := true];
    var body := PutStat(c, x, e, PutOwner(c, x, e, PutSpecial(c, x, e, tail)));
    EmptyFlags(x);
    assert |e.name| - CommonPrefix(w.name, e.name) <= 255 && CommonPrefix(w.name, e.name) == 0;
    assert Marked(c.FlagStyle(), x, true) == y;
    var later := PutName(x, w.name, e.name) + body;
    FlagsRoundTrip(c.FlagStyle(), x, true, later);
    MisreadLength(x, y, w.name, e.name, body);
    PlainDirWritten(c, w, e, tail);
    LateDir(c, w, r, e, y, PutFlags(c.FlagStyle(), x, true) + later, later, |body|, tail);
  }

  /** Whatever bytes led there: read a few bytes late, such a directory does not come
      back. */
  lemma {:induction false} LateDir(c: Config, w: Sent, r: Recv, e: Entry, y: Flags, s: seq<byte>, later: seq<byte>,
                                   n: nat, tail: seq<byte>)
    requires c.version < 28 && LowOnly(y) && IsDir(e.mode) && c.uids && c.gids
    requires !y[SAME_MODE] && !y[SAME_UID] && !y[SAME_GID] && !y[SAME_TIME]
    requires GetFlags(c.FlagStyle(), s) == Got(Seen(y), later)
    requires var name := GetName(y, r.name, later);
      name.Got? && name.value == e.name ==> 1 <= n - |name.rest| <= 4
    requires n == |PutLongInt(e.size)| + 16 + SpecialLength(c, e.mode, e.linkTarget) + |tail|
    ensures var res := GetEntry(c, r, s);
      !(res.Got? && res.value.0 == Item(Carried(c, w, e)) && res.rest == tail)
  {
    LongIntLength(e.size);
    var name := GetName(y, r.name, later);
    if name.Got? {
      EntrySteps(c, y, r, s, later, name.value, name.rest);
      if name.value == e.name {
        PlainDirTaken(c, w, r, e, y, name.rest);
      } else {
        FullName(c, y, r, name.value, name.rest);
      }
    }
  }

  lemma {:induction false} FullName(c: Config, y: Flags, r: Recv, name: seq<byte>, s: seq<byte>)
    ensures var res := GetFull(c, y, r, name, s); res.Got? ==> res.value.0.Item? && res.value.0.entry.name == name
  {
  }

  // --------------------------------------------------------------------------- exactness

  lemma {:induction false} RepeatedAtimeLost(c: Config, w: Sent, r: Recv, e: Entry, tail: seq<byte>)
    requires c.version < 28 && !c.varint && InStep(c, w, r) && ComputeFlags(c, w, e)[SAME_ATIME]
    requires |e.name| <= MAX_PATH_LEN && (HasChecksum(c, e.mode) ==> |ChecksumBytes(e.checksum)| == 16)
    ensures var res := GetEntry(c, r, PutEntry(c, w, e, tail));
      !(res.Got? && res.value.0 == Item(Carried(c, w, e)) && res.rest == tail)
  {
    var x := ComputeFlags(c, w, e);
    var body := PutStat(c, x, e, PutOwner(c, x, e, PutSpecial(c, x, e, tail)));
    var later := PutName(x, w.name, e.name) + body;
    assert Marked(c.FlagStyle(), x, IsDir(e.mode)) == x;
    LowFlagsSeen(c.FlagStyle(), x, later);
    if Low(x) != 0 {
      var y := x[..8] + seq(8, _ => false);
      assert y[..8] == x[..8];
      SameLow(x, y);
      NameRoundTrip(x, y, w.name, e.name, body);
      EntrySteps(c, y, r, [Low(x)] + later, later, e.name, body);
      RepeatedAtimeFull(c, w, r, e, y, tail);
    }
  }

  /** Below protocol 28 only the low byte of the flags is seen. */
  lemma {:induction false} LowFlagsSeen(st: Style, x: Flags, rest: seq<byte>)
    requires !st.varint && st.version < 28
    ensures GetFlags(st, [Low(x)] + rest)
         == Got(if Low(x) == 0 then EndOfList else Seen(x[..8] + seq(8, _ => false)), rest)
  {
    Bytewise(x);
    assert ([Low(x)] + rest)[1..] == rest;
  }

  /** An entry comes back as the version carries it, with the stream right behind it,
      if and only if it is writable. */
  lemma {:induction false} EntryExactly(c: Config, w: Sent, r: Recv, e: Entry, tail: seq<byte>)
    requires c.Valid() && InStep(c, w, r)
    ensures var back := Got((Item(Carried(c, w, e)), AfterGet(c, r, Carried(c, w, e))), tail);
      GetEntry(c, r, PutEntry(c, w, e, tail)) == back <==> Writable(c, w, e)
  {
    if Writable(c, w, e) {
      EntryRoundTrip(c, w, r, e, tail);
    } else {
      EntryGuard(c, r, PutEntry(c, w, e, tail));
      if Guarded(c, Carried(c, w, e)) {
        GuardedOnly(c, w, e);
        if ComputeFlags(c, w, e)[SAME_ATIME] {
          RepeatedAtimeLost(c, w, r, e, tail);
        } else {
          PlainDirLost(c, w, r, e, tail);
        }
      }
    }
  }

  /** What the guards leave of being writable. */
  lemma {:induction false} GuardedOnly(c: Config, w: Sent, e: Entry)
    requires c.Valid() && !Writable(c, w, e) && Guarded(c, Carried(c, w, e))
    ensures c.version < 28 && !c.varint && |e.name| <= MAX_PATH_LEN
    ensures HasChecksum(c, e.mode) ==> |ChecksumBytes(e.checksum)| == 16
    ensures ComputeFlags(c, w, e)[SAME_ATIME]
      || (IsDir(e.mode) && Empty(ComputeFlags(c, w, e)) && |e.name| >= 128)
  {
  }
}
