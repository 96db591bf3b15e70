/** Reading a file list returns what was written, entry by entry and as a whole. */
module FlistProofs {
  import opened Bytes
  import opened WireInts
  import opened Xflags
  import opened Flist

  // --------------------------------------------------------------- field by field

  lemma {:induction false} SignificantZeros(b: seq<byte>, min: nat)
    requires min <= |b| && forall i :: min <= i < |b| ==> b[i] == 0
    ensures Significant(b, min) == min
  {
    if |b| > min {
      SignificantZeros(b[..|b| - 1], min);
    }
  }

  lemma {:induction false} LEZero(n: nat)
    ensures forall i :: 0 <= i < n ==> LE(n, 0)[i] == 0
  {
    if n > 0 {
      LEZero(n - 1);
    }
  }

  /** A number below 128 is its own varint. */
  lemma SmallVarint(n: byte)
    requires n < 128
    ensures PutVarint(n) == [n]
  {
    SmallDigits(n);
    SignificantZeros(LE(4, n), 1);
  }

  lemma SmallDigits(n: byte)
    ensures LE(4, n)[0] == n && forall i :: 1 <= i < 4 ==> LE(4, n)[i] == 0
  {
    LEZero(3);
    assert n / 256 == 0 && LE(4, n) == [n] + LE(3, 0);
  }

  lemma TakeFirst(b: byte, rest: seq<byte>)
    ensures TakeByte([b] + rest) == Got(b, rest)
  {
    assert ([b] + rest)[1..] == rest;
  }

  /** The suffix length, also when a placeholder bit makes the reader expect the
      long form of a length that is short enough to look the same. */
  lemma LengthRoundTrip(x: Flags, y: Flags, l2: nat, rest: seq<byte>)
    requires x[LONG_NAME] == (l2 > 255) && l2 < U31
    requires y[LONG_NAME] != x[LONG_NAME] ==> y[LONG_NAME] && l2 < 128
    ensures GetSuffixLength(y, (if x[LONG_NAME] then PutVarint(Signed32(l2)) else [l2]) + rest) == Got(l2, rest)
  {
    SmallSigned(l2);
    if y[LONG_NAME] {
      if l2 < 128 {
        SmallVarint(l2);
      }
      VarintRoundTrip(l2, rest);
    } else {
      TakeFirst(l2, rest);
    }
  }

  lemma {:induction false} NameSteps(y: Flags, last: seq<byte>, s: seq<byte>, l1: nat, s1: seq<byte>, l2: nat,
                                     s2: seq<byte>, suffix: seq<byte>, s3: seq<byte>)
    requires (if y[SAME_NAME] then TakeByte(s) else Got(0, s)) == Got(l1, s1)
    requires GetSuffixLength(y, s1) == Got(l2, s2)
    requires Take(s2, l2) == Got(suffix, s3)
    requires l1 <= |last| && l1 + l2 <= MAX_PATH_LEN
    ensures GetName(y, last, s) == Got(last[..l1] + suffix, s3)
  {
  }

  lemma NameRoundTrip(x: Flags, y: Flags, last: seq<byte>, name: seq<byte>, rest: seq<byte>)
    requires |name| <= MAX_PATH_LEN
    requires x[SAME_NAME] == y[SAME_NAME] == (CommonPrefix(last, name) > 0)
    requires x[LONG_NAME] == (|name| - CommonPrefix(last, name) > 255)
    requires y[LONG_NAME] != x[LONG_NAME] ==> y[LONG_NAME] && |name| - CommonPrefix(last, name) < 128
    ensures GetName(y, last, PutName(x, last, name) + rest) == Got(name, rest)
  {
    var l1 := CommonPrefix(last, name);
    assert last[..l1] + name[l1..] == name;
    NameParts(x, y, last, l1, name[l1..], rest);
  }

  lemma {:induction false} NameParts(x: Flags, y: Flags, last: seq<byte>, l1: byte, suffix: seq<byte>, rest: seq<byte>)
    requires l1 <= |last| && l1 + |suffix| <= MAX_PATH_LEN
    requires x[SAME_NAME] == y[SAME_NAME] == (l1 > 0)
    requires x[LONG_NAME] == (|suffix| > 255)
    requires y[LONG_NAME] != x[LONG_NAME] ==> y[LONG_NAME] && |suffix| < 128
    ensures GetName(y, last, PutNameParts(x, l1, suffix) + rest) == Got(last[..l1] + suffix, rest)
  {
    var a := if x[SAME_NAME] then [l1] else [];
    var b := if x[LONG_NAME] then PutVarint(Signed32(|suffix|)) else [|suffix|];
    LengthRoundTrip(x, y, |suffix|, suffix + rest);
    Assoc(a, b + suffix, rest);
    Assoc(b, suffix, rest);
    NameBytes(y, last, l1, b, suffix, rest);
  }

  /** The same for any spelling of the suffix length. */
  lemma {:induction false} NameBytes(y: Flags, last: seq<byte>, l1: byte, b: seq<byte>, suffix: seq<byte>,
                                     rest: seq<byte>)
    requires l1 <= |last| && l1 + |suffix| <= MAX_PATH_LEN && y[SAME_NAME] == (l1 > 0)
    requires GetSuffixLength(y, b + (suffix + rest)) == Got(|suffix|, suffix + rest)
    ensures GetName(y, last, (if l1 > 0 then [l1] else []) + (b + (suffix + rest))) == Got(last[..l1] + suffix, rest)
  {
    var t := b + (suffix + rest);
    TakePrefix(suffix, rest);
    PrefixLengthRoundTrip(y[SAME_NAME], l1, t);
    NameSteps(y, last, (if l1 > 0 then [l1] else []) + t, l1, t, |suffix|, suffix + rest, suffix, rest);
  }

  lemma PrefixLengthRoundTrip(same: bool, l1: byte, t: seq<byte>)
    requires same == (l1 > 0)
    ensures var s := (if same then [l1] else []) + t;
      (if same then TakeByte(s) else Got(0, s)) == Got(l1, t)
  {
    if same {
      TakeFirst(l1, t);
    } else {
      NoBytes(t);
    }
  }

  lemma SizeRoundTrip(c: Config, size: int64, rest: seq<byte>)
    ensures GetSize(c, PutSize(c, size) + rest) == Got(size, rest)
  {
    if c.version < 30 {
      LongIntRoundTrip(size, rest);
    } else {
      VarlongRoundTrip(size, 3, rest);
    }
  }

  lemma MtimeRoundTrip(c: Config, x: Flags, y: Flags, mtime: int64, last: int64, rest: seq<byte>)
    requires x[SAME_TIME] == y[SAME_TIME]
    requires x[SAME_TIME] ==> last == CarriedTime(c, mtime)
    ensures GetMtime(c, y, last, PutMtime(c, x, mtime) + rest) == Got(CarriedTime(c, mtime), rest)
  {
    if x[SAME_TIME] {
      NoBytes(rest);
    } else if c.version >= 30 {
      VarlongRoundTrip(mtime, 4, rest);
    } else {
      U32RoundTrip(Wrap32(mtime), rest);
    }
  }

  lemma NsecRoundTrip(x: Flags, y: Flags, nsec: int32, rest: seq<byte>)
    requires x[MOD_NSEC] == y[MOD_NSEC]
    ensures GetNsec(y, PutNsec(x, nsec) + rest) == Got(if x[MOD_NSEC] then nsec else 0, rest)
  {
    if x[MOD_NSEC] {
      VarintRoundTrip(nsec, rest);
    } else {
      NoBytes(rest);
    }
  }

  lemma ModeRoundTrip(x: Flags, y: Flags, mode: uint32, last: uint32, rest: seq<byte>)
    requires x[SAME_MODE] == y[SAME_MODE] && (x[SAME_MODE] ==> last == mode)
    ensures GetMode(y, last, PutMode(x, mode) + rest) == Got(mode, rest)
  {
    if x[SAME_MODE] {
      NoBytes(rest);
    } else {
      U32RoundTrip(mode, rest);
    }
  }

  lemma AtimeRoundTrip(c: Config, x: Flags, y: Flags, mode: uint32, atime: int64, last: int64, rest: seq<byte>)
    requires x[SAME_ATIME] == y[SAME_ATIME] && (x[SAME_ATIME] ==> last == atime)
    ensures GetAtime(c, y, mode, last, PutAtime(c, x, mode, atime) + rest)
         == Got(if c.atimes && !IsDir(mode) then atime else 0, rest)
  {
    if c.atimes && !IsDir(mode) && !x[SAME_ATIME] {
      VarlongRoundTrip(atime, 4, rest);
    } else {
      NoBytes(rest);
    }
  }

  lemma IdRoundTrip(version: int, preserve: bool, same: bool, named: bool, id: int32, last: int32, rest: seq<byte>)
    requires preserve && same ==> last == id
    requires version >= 30 ==> !named
    ensures GetId(version, preserve, same, named, last, PutId(version, preserve, same, id) + rest)
         == Got((if preserve then id else 0, []), rest)
  {
    if !preserve || same {
      NoBytes(rest);
    } else if version >= 30 {
      VarintRoundTrip(id, rest);
    } else {
      U32RoundTrip(Wrap32(id), rest);
      SignedOfWrap32(id);
    }
  }

  lemma PackedRdev(major: uint32, minor: uint32)
    ensures PackRdev(major, minor) / 256 == major % 0x100_0000
    ensures PackRdev(major, minor) % 256 == minor % 256
  {
  }

  lemma RdevRoundTrip(c: Config, y: Flags, e: Entry, rest: seq<byte>)
    requires IsDevice(e.mode) ==> !y[SAME_RDEV] && !y[MINOR8]
    ensures GetRdev(c, y, e.mode, PutRdev(c, e.mode, e.rdevMajor, e.rdevMinor) + rest) == Got(CarriedRdev(c, e), rest)
  {
    var major, minor := e.rdevMajor, e.rdevMinor;
    if !c.devices || !IsDevice(e.mode) {
      NoBytes(rest);
    } else if c.version < 28 {
      U32RoundTrip(PackRdev(major, minor), rest);
      PackedRdev(major, minor);
    } else if c.version < 30 {
      U32RoundTrip(major, PutU32(minor) + rest);
      U32RoundTrip(minor, rest);
      Assoc(PutU32(major), PutU32(minor), rest);
    } else {
      RdevVarints(c, y, e, rest);
    }
  }

  lemma WrapOfSigned32(u: uint32)
    ensures Wrap32(Signed32(u)) == u
  {
  }

  lemma RdevVarints(c: Config, y: Flags, e: Entry, rest: seq<byte>)
    requires c.devices && IsDevice(e.mode) && c.version >= 30 && !y[SAME_RDEV]
    ensures GetRdev(c, y, e.mode, PutRdev(c, e.mode, e.rdevMajor, e.rdevMinor) + rest)
         == Got((e.rdevMajor, e.rdevMinor), rest)
  {
    var a, b := Signed32(e.rdevMajor), Signed32(e.rdevMinor);
    VarintRoundTrip(a, PutVarint(b) + rest);
    VarintRoundTrip(b, rest);
    Assoc(PutVarint(a), PutVarint(b), rest);
    WrapOfSigned32(e.rdevMajor);
    WrapOfSigned32(e.rdevMinor);
  }

  lemma LinkRoundTrip(c: Config, mode: uint32, target: seq<byte>, rest: seq<byte>)
    requires c.links && Kind(mode) == S_LNK ==> |target| < U31
    ensures GetLink(c, mode, PutLink(c, mode, target) + rest)
         == Got(if c.links && Kind(mode) == S_LNK then target else [], rest)
  {
    if !c.links || Kind(mode) != S_LNK {
      NoBytes(rest);
    } else {
      SmallSigned(|target|);
      var n := if c.version < 30 then PutI32(|target|) else PutVarint(|target|);
      Assoc(n, target, rest);
      I32RoundTrip(|target|, target + rest);
      VarintRoundTrip(|target|, target + rest);
      TakePrefix(target, rest);
      LinkSteps(c, mode, n + (target + rest), |target|, target + rest, target, rest);
    }
  }

  lemma LinkSteps(c: Config, mode: uint32, s: seq<byte>, n: nat, s1: seq<byte>, target: seq<byte>, s2: seq<byte>)
    requires c.links && Kind(mode) == S_LNK
    requires (if c.version < 30 then GetI32(s) else GetVarint(s)) == Got(n, s1)
    requires Take(s1, n) == Got(target, s2)
    ensures GetLink(c, mode, s) == Got(target, s2)
  {
  }

  lemma InodeRoundTrip(c: Config, w: Sent, e: Entry, y: Flags, rest: seq<byte>)
    requires var x := ComputeFlags(c, w, e); y[HLINKED] == x[HLINKED] && y[SAME_DEV] == x[SAME_DEV]
    ensures GetInode(c, y, e.mode, PutInode(c, ComputeFlags(c, w, e), e.mode, e.dev, e.ino) + rest)
         == Got(CarriedInode(c, w, e), rest)
  {
    var x := ComputeFlags(c, w, e);
    assert x[HLINKED] == FlaggedLink(c, e) && x[SAME_DEV] == (FlaggedLink(c, e) && e.dev == w.dev);
    InodeFields(c, x, y, e.mode, e.dev, e.ino, rest);
  }

  lemma InodeFields(c: Config, x: Flags, y: Flags, mode: uint32, dev: int64, ino: int64, rest: seq<byte>)
    requires y[HLINKED] == x[HLINKED] && y[SAME_DEV] == x[SAME_DEV] && (x[HLINKED] ==> c.hardlinks)
    ensures GetInode(c, y, mode, PutInode(c, x, mode, dev, ino) + rest)
         == Got(if !c.hardlinks || !WritesInode(c, x, mode) then (0, 0)
                else if c.version < 26 then (Wrap32(dev), Wrap32(ino))
                else (if x[SAME_DEV] then 0 else dev, ino), rest)
  {
    if !WritesInode(c, x, mode) {
      NoBytes(rest);
    } else if c.version < 26 {
      var a, b := PutU32(Wrap32(dev)), PutU32(Wrap32(ino));
      U32RoundTrip(Wrap32(dev), b + rest);
      U32RoundTrip(Wrap32(ino), rest);
      Assoc(a, b, rest);
    } else {
      var a, b := if x[SAME_DEV] then [] else PutLongInt(dev), PutLongInt(ino);
      Assoc(a, b, rest);
      LongIntRoundTrip(ino, rest);
      if x[SAME_DEV] {
        NoBytes(b + rest);
      } else {
        LongIntRoundTrip(dev, b + rest);
      }
    }
  }

  lemma ChecksumRoundTrip(c: Config, mode: uint32, sum: seq<byte>, rest: seq<byte>)
    requires HasChecksum(c, mode) ==> sum == [] || |sum| == 16
    ensures GetChecksum(c, mode, PutChecksum(c, mode, sum) + rest)
         == Got(if HasChecksum(c, mode) then ChecksumBytes(sum) else [], rest)
  {
    if HasChecksum(c, mode) {
      TakePrefix(ChecksumBytes(sum), rest);
    } else {
      NoBytes(rest);
    }
  }

  // ---------------------------------------------------------------- whole entries

  /** The entries that the codec carries. Beyond the reader's own checks, below
      protocol 28 the flag for a repeated access time is lost, and a directory
      without flags takes the long-name bit as its placeholder, which turns a name
      of 128 to 255 bytes into another one. */
  predicate Writable(c: Config, w: Sent, e: Entry) {
    && c.Valid()
    && |e.name| <= MAX_PATH_LEN && (c.links && Kind(e.mode) == S_LNK ==> |e.linkTarget| < U31)
    && ModeAccepted(e.mode) && (RootName(e.name) ==> IsDir(e.mode))
    && (HasChecksum(c, e.mode) ==> e.checksum == [] || |e.checksum| == 16)
    && (c.version < 28 ==> !ComputeFlags(c, w, e)[SAME_ATIME])
    && (c.version < 28 && IsDir(e.mode) && Empty(ComputeFlags(c, w, e)) ==> |e.name| < 128)
  }

  /** Reader and writer agree on what came last. */
  predicate InStep(c: Config, w: Sent, r: Recv) {
    && r.name == w.name && r.mode == w.mode && r.mtime == CarriedTime(c, w.mtime)
    && r.atime == w.atime && r.uid == w.uid && r.gid == w.gid
  }

  /** The flags as the reader sees them: only placeholder bits differ. */
  predicate Alike(c: Config, e: Entry, x: Flags, y: Flags) {
    && (forall i :: 0 <= i < 16 && i != TOP_DIR && i != EXTENDED && i != LONG_NAME ==> x[i] == y[i])
    && (IsDir(e.mode) ==> x[TOP_DIR] == y[TOP_DIR])
    && (x[LONG_NAME] != y[LONG_NAME] ==> y[LONG_NAME] && |e.name| < 128)
  }

  /** What the repeat flags mean. */
  lemma FlagMeaning(c: Config, w: Sent, e: Entry)
    ensures var x := ComputeFlags(c, w, e);
      && (x[SAME_TIME] ==> e.mtime == w.mtime)
      && (x[SAME_MODE] ==> e.mode == w.mode)
      && (x[SAME_ATIME] ==> e.atime == w.atime)
      && (c.uids && x[SAME_UID] ==> e.uid == w.uid)
      && (c.gids && x[SAME_GID] ==> e.gid == w.gid)
  {
  }

  lemma FlagsFit(c: Config, w: Sent, e: Entry)
    requires Writable(c, w, e)
    ensures Fits(c.FlagStyle(), ComputeFlags(c, w, e))
  {
  }

  lemma FlagsAlike(c: Config, w: Sent, e: Entry)
    requires Writable(c, w, e)
    ensures var x := ComputeFlags(c, w, e); Alike(c, e, x, Marked(c.FlagStyle(), x, IsDir(e.mode)))
  {
  }

  lemma StatSteps(c: Config, y: Flags, r: Recv, s: seq<byte>, st: Stat, s1: seq<byte>, s2: seq<byte>, s3: seq<byte>,
                  s4: seq<byte>)
    requires GetSize(c, s) == Got(st.size, s1)
    requires GetMtime(c, y, r.mtime, s1) == Got(st.mtime, s2)
    requires GetNsec(y, s2) == Got(st.nsec, s3)
    requires GetMode(y, r.mode, s3) == Got(st.mode, s4)
    ensures GetStat(c, y, r, s) == Got(st, s4)
  {
  }

  lemma StatRoundTrip(c: Config, w: Sent, r: Recv, e: Entry, x: Flags, y: Flags, tail: seq<byte>)
    requires InStep(c, w, r) && x == ComputeFlags(c, w, e)
    requires y[SAME_TIME] == x[SAME_TIME] && y[MOD_NSEC] == x[MOD_NSEC] && y[SAME_MODE] == x[SAME_MODE]
    ensures GetStat(c, y, r, PutStat(c, x, e, tail)) == Got(CarriedStat(c, e), tail)
  {
    var t3 := PutMode(x, e.mode) + tail;
    var t2 := PutNsec(x, e.modNsec) + t3;
    var t1 := PutMtime(c, x, e.mtime) + t2;
    SizeRoundTrip(c, e.size, t1);
    MtimeRoundTrip(c, x, y, e.mtime, r.mtime, t2);
    NsecRoundTrip(x, y, e.modNsec, t3);
    ModeRoundTrip(x, y, e.mode, r.mode, tail);
    StatSteps(c, y, r, PutSize(c, e.size) + t1, CarriedStat(c, e), t1, t2, t3, tail);
  }

  // Parts of the carried entry.

  function CarriedStat(c: Config, e: Entry): Stat {
    Stat(e.size, CarriedTime(c, e.mtime), if c.version >= 31 then e.modNsec else 0, e.mode)
  }

  function CarriedOwner(c: Config, e: Entry): Owner {
    Owner(if c.atimes && !IsDir(e.mode) then e.atime else 0,
          (if c.uids then e.uid else 0, []), (if c.gids then e.gid else 0, []))
  }

  function CarriedSpecial(c: Config, w: Sent, e: Entry): Special {
    Special(CarriedRdev(c, e), if c.links && Kind(e.mode) == S_LNK then e.linkTarget else [],
            CarriedInode(c, w, e), if HasChecksum(c, e.mode) then ChecksumBytes(e.checksum) else [])
  }

  /** What the flags say about the fields after the mode. */
  lemma LaterFlags(c: Config, w: Sent, r: Recv, e: Entry, x: Flags, y: Flags)
    requires InStep(c, w, r) && x == ComputeFlags(c, w, e) && Alike(c, e, x, y)
    ensures x[SAME_ATIME] == y[SAME_ATIME] && (x[SAME_ATIME] ==> r.atime == e.atime)
    ensures x[SAME_UID] == y[SAME_UID] && (c.uids && x[SAME_UID] ==> r.uid == e.uid)
    ensures x[SAME_GID] == y[SAME_GID] && (c.gids && x[SAME_GID] ==> r.gid == e.gid)
    ensures c.version >= 30 ==> !y[USER_NAME] && !y[GROUP_NAME] && !y[HLINKED]
    ensures IsDevice(e.mode) ==> !y[SAME_RDEV] && !y[MINOR8]
    ensures y[HLINKED] == x[HLINKED] && y[SAME_DEV] == x[SAME_DEV]
  {
    assert !x[MINOR8] && x[SAME_DEV] == (FlaggedLink(c, e) && e.dev == w.dev);
    assert x[SAME_RDEV] == (IsDir(e.mode) && c.version >= 30 && e.noContentDir);
  }

  lemma OwnerSteps(c: Config, y: Flags, r: Recv, mode: uint32, s: seq<byte>, ow: Owner, s1: seq<byte>, s2: seq<byte>,
                   s3: seq<byte>)
    requires GetAtime(c, y, mode, r.atime, s) == Got(ow.atime, s1)
    requires GetId(c.version, c.uids, y[SAME_UID], y[USER_NAME], r.uid, s1) == Got(ow.uid, s2)
    requires GetId(c.version, c.gids, y[SAME_GID], y[GROUP_NAME], r.gid, s2) == Got(ow.gid, s3)
    ensures GetOwner(c, y, r, mode, s) == Got(ow, s3)
  {
  }

  lemma OwnerRoundTrip(c: Config, w: Sent, r: Recv, e: Entry, x: Flags, y: Flags, tail: seq<byte>)
    requires InStep(c, w, r) && x == ComputeFlags(c, w, e) && Alike(c, e, x, y)
    ensures GetOwner(c, y, r, e.mode, PutOwner(c, x, e, tail)) == Got(CarriedOwner(c, e), tail)
  {
    var t2 := PutId(c.version, c.gids, x[SAME_GID], e.gid) + tail;
    var t1 := PutId(c.version, c.uids, x[SAME_UID], e.uid) + t2;
    LaterFlags(c, w, r, e, x, y);
    AtimeRoundTrip(c, x, y, e.mode, e.atime, r.atime, t1);
    IdRoundTrip(c.version, c.uids, x[SAME_UID], y[USER_NAME], e.uid, r.uid, t2);
    IdRoundTrip(c.version, c.gids, x[SAME_GID], y[GROUP_NAME], e.gid, r.gid, tail);
    OwnerSteps(c, y, r, e.mode, PutAtime(c, x, e.mode, e.atime) + t1, CarriedOwner(c, e), t1, t2, tail);
  }

  lemma SpecialSteps(c: Config, y: Flags, mode: uint32, s: seq<byte>, sp: Special, s1: seq<byte>, s2: seq<byte>,
                     s3: seq<byte>, s4: seq<byte>)
    requires GetRdev(c, y, mode, s) == Got(sp.rdev, s1)
    requires GetLink(c, mode, s1) == Got(sp.link, s2)
    requires GetInode(c, y, mode, s2) == Got(sp.inode, s3)
    requires GetChecksum(c, mode, s3) == Got(sp.checksum, s4)
    ensures GetSpecial(c, y, mode, s) == Got(sp, s4)
  {
  }

  lemma SpecialRoundTrip(c: Config, w: Sent, r: Recv, e: Entry, x: Flags, y: Flags, tail: seq<byte>)
    requires InStep(c, w, r) && x == ComputeFlags(c, w, e) && Alike(c, e, x, y)
    requires c.links && Kind(e.mode) == S_LNK ==> |e.linkTarget| < U31
    requires HasChecksum(c, e.mode) ==> e.checksum == [] || |e.checksum| == 16
    ensures GetSpecial(c, y, e.mode, PutSpecial(c, x, e, tail)) == Got(CarriedSpecial(c, w, e), tail)
  {
    var t3 := PutChecksum(c, e.mode, e.checksum) + tail;
    var t2 := PutInode(c, x, e.mode, e.dev, e.ino) + t3;
    var t1 := PutLink(c, e.mode, e.linkTarget) + t2;
    LaterFlags(c, w, r, e, x, y);
    RdevRoundTrip(c, y, e, t1);
    LinkRoundTrip(c, e.mode, e.linkTarget, t2);
    InodeRoundTrip(c, w, e, y, t3);
    ChecksumRoundTrip(c, e.mode, e.checksum, tail);
    SpecialSteps(c, y, e.mode, PutRdev(c, e.mode, e.rdevMajor, e.rdevMinor) + t1, CarriedSpecial(c, w, e),
                 t1, t2, t3, tail);
  }

  lemma FullSteps(c: Config, y: Flags, r: Recv, name: seq<byte>, s: seq<byte>, st: Stat, s1: seq<byte>, ow: Owner,
                  s2: seq<byte>, sp: Special, s3: seq<byte>)
    requires GetStat(c, y, r, s) == Got(st, s1)
    requires ModeAccepted(st.mode) && (RootName(name) ==> IsDir(st.mode))
    requires GetOwner(c, y, r, st.mode, s1) == Got(ow, s2)
    requires GetSpecial(c, y, st.mode, s2) == Got(sp, s3)
    ensures var e := Assemble(name, y, st, ow, sp); GetFull(c, y, r, name, s) == Got((Item(e), AfterGet(c, r, e)), s3)
  {
  }

  lemma EntrySteps(c: Config, y: Flags, r: Recv, s: seq<byte>, s1: seq<byte>, name: seq<byte>, s2: seq<byte>)
    requires GetFlags(c.FlagStyle(), s) == Got(Seen(y), s1)
    requires GetName(y, r.name, s1) == Got(name, s2)
    requires !Abbreviated(c, y)
    ensures GetEntry(c, r, s) == GetFull(c, y, r, name, s2)
  {
  }

  lemma AssembleCarried(c: Config, w: Sent, e: Entry, y: Flags)
    requires Alike(c, e, ComputeFlags(c, w, e), y)
    ensures Assemble(e.name, y, CarriedStat(c, e), CarriedOwner(c, e), CarriedSpecial(c, w, e)) == Carried(c, w, e)
  {
    var x := ComputeFlags(c, w, e);
    assert x[TOP_DIR] == (IsDir(e.mode) && e.topDir);
    assert x[NO_CONTENT] == (IsDir(e.mode) && c.version >= 30 && e.noContentDir);
  }

  lemma NameOfEntry(c: Config, w: Sent, e: Entry, y: Flags, tail: seq<byte>)
    requires |e.name| <= MAX_PATH_LEN && Alike(c, e, ComputeFlags(c, w, e), y)
    ensures GetName(y, w.name, PutName(ComputeFlags(c, w, e), w.name, e.name) + tail) == Got(e.name, tail)
  {
    NameRoundTrip(ComputeFlags(c, w, e), y, w.name, e.name, tail);
  }

  lemma FullRoundTrip(c: Config, w: Sent, r: Recv, e: Entry, x: Flags, y: Flags, tail: seq<byte>)
    requires Writable(c, w, e) && InStep(c, w, r) && x == ComputeFlags(c, w, e) && Alike(c, e, x, y)
    ensures GetFull(c, y, r, e.name, PutStat(c, x, e, PutOwner(c, x, e, PutSpecial(c, x, e, tail))))
         == Got((Item(Carried(c, w, e)), AfterGet(c, r, Carried(c, w, e))), tail)
  {
    var special := PutSpecial(c, x, e, tail);
    var owner := PutOwner(c, x, e, special);
    StatRoundTrip(c, w, r, e, x, y, owner);
    OwnerRoundTrip(c, w, r, e, x, y, special);
    SpecialRoundTrip(c, w, r, e, x, y, tail);
    FullSteps(c, y, r, e.name, PutStat(c, x, e, owner), CarriedStat(c, e), owner,
              CarriedOwner(c, e), special, CarriedSpecial(c, w, e), tail);
    AssembleCarried(c, w, e, y);
  }

  lemma StaysInStep(c: Config, w: Sent, r: Recv, e: Entry)
    requires InStep(c, w, r)
    ensures InStep(c, AfterPut(c, w, e), AfterGet(c, r, Carried(c, w, e)))
  {
  }

  /** The flags and the name lead the reader to the rest of the entry. */
  lemma FrontRoundTrip(c: Config, w: Sent, r: Recv, e: Entry, body: seq<byte>)
    requires Writable(c, w, e) && InStep(c, w, r)
    ensures var x := ComputeFlags(c, w, e); var y := Marked(c.FlagStyle(), x, IsDir(e.mode));
      && Alike(c, e, x, y)
      && GetEntry(c, r, PutFlags(c.FlagStyle(), x, IsDir(e.mode)) + (PutName(x, w.name, e.name) + body))
         == GetFull(c, y, r, e.name, body)
  {
    var x := ComputeFlags(c, w, e);
    var y := Marked(c.FlagStyle(), x, IsDir(e.mode));
    FlagsFit(c, w, e);
    FlagsAlike(c, w, e);
    LaterFlags(c, w, r, e, x, y);
    var name := PutName(x, w.name, e.name) + body;
    FlagsRoundTrip(c.FlagStyle(), x, IsDir(e.mode), name);
    NameOfEntry(c, w, e, y, body);
    EntrySteps(c, y, r, PutFlags(c.FlagStyle(), x, IsDir(e.mode)) + name, name, e.name, body);
  }

  /** One entry: the reader returns exactly what the version carries, stays in
      step with the writer and stops right behind the entry. */
  lemma EntryRoundTrip(c: Config, w: Sent, r: Recv, e: Entry, tail: seq<byte>)
    requires Writable(c, w, e) && InStep(c, w, r)
    ensures GetEntry(c, r, PutEntry(c, w, e, tail))
         == Got((Item(Carried(c, w, e)), AfterGet(c, r, Carried(c, w, e))), tail)
    ensures InStep(c, AfterPut(c, w, e), AfterGet(c, r, Carried(c, w, e)))
  {
    var x := ComputeFlags(c, w, e);
    FrontRoundTrip(c, w, r, e, PutStat(c, x, e, PutOwner(c, x, e, PutSpecial(c, x, e, tail))));
    FullRoundTrip(c, w, r, e, x, Marked(c.FlagStyle(), x, IsDir(e.mode)), tail);
    StaysInStep(c, w, r, e);
  }
}
