/** The file-list codec (protocol/flist.go) as functions on byte sequences.

    Each entry is encoded against the previous one: flags say which fields repeat,
    names share a prefix, and the layout of the rest depends on the protocol
    version. Writer and reader each remember the last values. `Carried` states
    what a version carries of an entry; FlistProofs shows that reading returns
    exactly that and keeps both ends in step.
 */
module Flist {
  import opened Bytes
  import opened WireInts
  import opened Xflags

  const MAX_PATH_LEN: nat := 4096

  datatype Entry = Entry(
    name: seq<byte>, mode: uint32, size: int64, mtime: int64, modNsec: int32, atime: int64,
    uid: int32, gid: int32, userName: seq<byte>, groupName: seq<byte>,
    rdevMajor: uint32, rdevMinor: uint32, linkTarget: seq<byte>, hlinkNdx: int32,
    nlink: int64, dev: int64, ino: int64, checksum: seq<byte>, topDir: bool, noContentDir: bool)

  const BLANK: Entry := Entry([], 0, 0, 0, 0, 0, 0, 0, [], [], 0, 0, [], 0, 0, 0, 0, [], false, false)

  /** Both ends' settings. Varint flags are negotiated from protocol 30 on only. */
  datatype Config = Config(
    version: int, varint: bool, atimes: bool, uids: bool, gids: bool,
    devices: bool, links: bool, hardlinks: bool, checksums: bool)
  {
    predicate Valid() {
      varint ==> version >= 30
    }

    function FlagStyle(): Style {
      Style(version, varint)
    }
  }

  /** The writer's last* fields. */
  datatype Sent = Sent(name: seq<byte>, mode: uint32, mtime: int64, atime: int64, uid: int32, gid: int32, dev: int64)

  const NOTHING_SENT: Sent := Sent([], 0, 0, 0, 0, 0, 0)

  /** The reader's last* fields and entry count. */
  datatype Recv = Recv(name: seq<byte>, mode: uint32, mtime: int64, atime: int64, uid: int32, gid: int32, used: nat)

  const NOTHING_READ: Recv := Recv([], 0, 0, 0, 0, 0, 0)

  // ------------------------------------------------------------------- file types

  const S_FIFO := 1
  const S_CHR := 2
  const S_DIR := 4
  const S_BLK := 6
  const S_REG := 8
  const S_LNK := 10
  const S_SOCK := 12

  /** mode & 0o170000, as a number from 0 to 15. */
  function Kind(mode: uint32): (k: nat)
    ensures k < 16
  {
    mode / 4096 % 16
  }

  predicate IsDir(mode: uint32) {
    Kind(mode) == S_DIR
  }

  predicate IsDevice(mode: uint32) {
    Kind(mode) == S_CHR || Kind(mode) == S_BLK
  }

  /** The reader's type check; mode 0 is let through. */
  predicate ModeAccepted(mode: uint32) {
    mode == 0 || Kind(mode) in {S_REG, S_DIR, S_LNK, S_CHR, S_BLK, S_FIFO, S_SOCK}
  }

  /** "." and "/.", which must be directories. */
  predicate RootName(name: seq<byte>) {
    name == [46] || name == [47, 46]
  }

  // ------------------------------------------------------------------------ names

  /** The length of the common prefix, at most 255. */
  function CommonPrefix(a: seq<byte>, b: seq<byte>): (n: nat)
    ensures n <= 255 && n <= |a| && n <= |b|
    ensures a[..n] == b[..n]
  {
    PrefixUpTo(a, b, 255)
  }

  function PrefixUpTo(a: seq<byte>, b: seq<byte>, max: nat): (n: nat)
    ensures n <= max && n <= |a| && n <= |b|
    ensures a[..n] == b[..n]
  {
    if max == 0 || a == [] || b == [] || a[0] != b[0] then 0
    else
      var n := PrefixUpTo(a[1..], b[1..], max - 1);
      assert a[..n + 1] == [a[0]] + a[1..][..n];
      assert b[..n + 1] == [b[0]] + b[1..][..n];
      1 + n
  }

  // ----------------------------------------------------------------- writer flags

  /** The entry carries device and inode as a flagged hard link. */
  predicate FlaggedLink(c: Config, e: Entry) {
    28 <= c.version < 30 && c.hardlinks && !IsDir(e.mode) && e.nlink > 1
  }

  /** computeXflags. */
  function ComputeFlags(c: Config, w: Sent, e: Entry): (x: Flags) {
    var isDir := IsDir(e.mode);
    var l1 := CommonPrefix(w.name, e.name);
    [ isDir && e.topDir,
      e.mode == w.mode,
      false,
      !c.uids || (w.name != [] && e.uid == w.uid),
      !c.gids || (w.name != [] && e.gid == w.gid),
      l1 > 0,
      |e.name| - l1 > 255,
      e.mtime == w.mtime,
      isDir && c.version >= 30 && e.noContentDir,
      FlaggedLink(c, e),
      FlaggedLink(c, e) && e.dev == w.dev,
      false,
      false,
      c.version >= 31 && e.modNsec != 0,
      c.atimes && !isDir && e.atime == w.atime,
      false ]
  }

  // --------------------------------------------------------------- field by field

  /** The name: shared prefix length if any, suffix length, suffix. The long form
      of the length follows the writer's flags, before any placeholder bit. */
  function PutName(x: Flags, last: seq<byte>, name: seq<byte>): seq<byte>
    requires x[LONG_NAME] == (|name| - CommonPrefix(last, name) > 255)
  {
    var l1 := CommonPrefix(last, name);
    PutNameParts(x, l1, name[l1..])
  }

  function PutNameParts(x: Flags, l1: byte, suffix: seq<byte>): seq<byte>
    requires x[LONG_NAME] == (|suffix| > 255)
  {
    (if x[SAME_NAME] then [l1] else [])
    + ((if x[LONG_NAME] then PutVarint(Signed32(|suffix|)) else [|suffix|]) + suffix)
  }

  function GetSuffixLength(x: Flags, s: seq<byte>): (res: Read<int>)
    ensures res.Got? ==> |res.rest| <= |s|
  {
    if x[LONG_NAME] then GetVarint(s) else TakeByte(s)
  }

  function GetName(x: Flags, last: seq<byte>, s: seq<byte>): (res: Read<seq<byte>>)
    ensures res.Got? ==> |res.rest| <= |s|
  {
    var (l1, s1) :- if x[SAME_NAME] then TakeByte(s) else Got(0, s);
    var (l2, s2) :- GetSuffixLength(x, s1);
    if l2 < 0 || l1 + l2 > MAX_PATH_LEN then Invalid
    else
      var (suffix, s3) :- Take(s2, l2);
      if l1 > |last| then Panic else Got(last[..l1] + suffix, s3)
  }

  function PutSize(c: Config, size: int64): seq<byte> {
    if c.version < 30 then PutLongInt(size) else PutVarlong(size, 3)
  }

  function GetSize(c: Config, s: seq<byte>): (res: Read<int64>)
    ensures res.Got? ==> |res.rest| <= |s|
  {
    if c.version < 30 then GetLongInt(s) else GetVarlong(s, 3)
  }

  function PutMtime(c: Config, x: Flags, mtime: int64): seq<byte> {
    if x[SAME_TIME] then [] else if c.version >= 30 then PutVarlong(mtime, 4) else PutU32(Wrap32(mtime))
  }

  function GetMtime(c: Config, x: Flags, last: int64, s: seq<byte>): (res: Read<int64>)
    ensures res.Got? ==> |res.rest| <= |s|
  {
    if x[SAME_TIME] then Got(last, s) else if c.version >= 30 then GetVarlong(s, 4) else GetU32(s)
  }

  function PutNsec(x: Flags, nsec: int32): seq<byte> {
    if x[MOD_NSEC] then PutVarint(nsec) else []
  }

  function GetNsec(x: Flags, s: seq<byte>): (res: Read<int32>)
    ensures res.Got? ==> |res.rest| <= |s|
  {
    if x[MOD_NSEC] then GetVarint(s) else Got(0, s)
  }

  function PutMode(x: Flags, mode: uint32): seq<byte> {
    if x[SAME_MODE] then [] else PutU32(mode)
  }

  function GetMode(x: Flags, last: uint32, s: seq<byte>): (res: Read<uint32>)
    ensures res.Got? ==> |res.rest| <= |s|
  {
    if x[SAME_MODE] then Got(last, s) else GetU32(s)
  }

  function PutAtime(c: Config, x: Flags, mode: uint32, atime: int64): seq<byte> {
    if c.atimes && !IsDir(mode) && !x[SAME_ATIME] then PutVarlong(atime, 4) else []
  }

  function GetAtime(c: Config, x: Flags, mode: uint32, last: int64, s: seq<byte>): (res: Read<int64>)
    ensures res.Got? ==> |res.rest| <= |s|
  {
    if c.atimes && !IsDir(mode) then if x[SAME_ATIME] then Got(last, s) else GetVarlong(s, 4)
    else Got(0, s)
  }

  /** A uid or gid: varint from protocol 30 on, 32 bits before. */
  function PutId(version: int, preserve: bool, same: bool, id: int32): seq<byte> {
    if !preserve || same then [] else if version >= 30 then PutVarint(id) else PutU32(Wrap32(id))
  }

  function GetIdName(follows: bool, s: seq<byte>): (res: Read<seq<byte>>)
    ensures res.Got? ==> |res.rest| <= |s|
  {
    if !follows then Got([], s)
    else var (n, s1) :- TakeByte(s); Take(s1, n)
  }

  function GetId(version: int, preserve: bool, same: bool, named: bool, last: int32,
                 s: seq<byte>): (res: Read<(int32, seq<byte>)>)
    ensures res.Got? ==> |res.rest| <= |s|
  {
    if !preserve then Got((0, []), s)
    else if same then Got((last, []), s)
    else if version >= 30 then
      var (id, s1) :- GetVarint(s);
      var (name, s2) :- GetIdName(named, s1);
      Got((id, name), s2)
    else
      var (v, s1) :- GetU32(s);
      Got((Signed32(v), []), s1)
  }

  /** packRdev: (major << 8) | (minor & 0xFF) in 32 bits. */
  function PackRdev(major: uint32, minor: uint32): uint32 {
    major % 0x100_0000 * 256 + minor % 256
  }

  /** The writer never repeats a device's major nor shortens its minor, so the
      flags for that are clear. */
  function PutRdev(c: Config, mode: uint32, major: uint32, minor: uint32): seq<byte> {
    if !c.devices || !IsDevice(mode) then []
    else if c.version < 28 then PutU32(PackRdev(major, minor))
    else if c.version < 30 then PutU32(major) + PutU32(minor)
    else PutVarint(Signed32(major)) + PutVarint(Signed32(minor))
  }

  /** The reader's side of a repeated major is zero: it never assigns the field
      it would repeat. */
  function GetRdev(c: Config, x: Flags, mode: uint32, s: seq<byte>): (res: Read<(uint32, uint32)>)
    ensures res.Got? ==> |res.rest| <= |s|
  {
    if !c.devices || !IsDevice(mode) then Got((0, 0), s)
    else if c.version < 28 then
      if x[SAME_RDEV] then Got((0, 0), s)
      else var (v, s1) :- GetU32(s); Got((v / 256, v % 256), s1)
    else if c.version < 30 then
      var (major, s1) :- if x[SAME_RDEV] then Got(0, s) else GetU32(s);
      var (minor, s2) :- if x[MINOR8] then TakeByte(s1) else GetU32(s1);
      Got((major, minor), s2)
    else
      var (major, s1) :- if x[SAME_RDEV] then Got(0, s) else GetVarint(s);
      var (minor, s2) :- GetVarint(s1);
      Got((Wrap32(major), Wrap32(minor)), s2)
  }

  function PutLink(c: Config, mode: uint32, target: seq<byte>): seq<byte> {
    if !c.links || Kind(mode) != S_LNK then []
    else (if c.version < 30 then PutI32(Signed32(|target|)) else PutVarint(Signed32(|target|))) + target
  }

  function GetLink(c: Config, mode: uint32, s: seq<byte>): (res: Read<seq<byte>>)
    ensures res.Got? ==> |res.rest| <= |s|
  {
    if !c.links || Kind(mode) != S_LNK then Got([], s)
    else
      var (n, s1) :- if c.version < 30 then GetI32(s) else GetVarint(s);
      if n > 0 then Take(s1, n) else Got([], s1)
  }

  /** The writer's condition: every regular file below 28, flagged ones at 28-29. */
  predicate WritesInode(c: Config, x: Flags, mode: uint32) {
    (c.version < 28 && c.hardlinks && Kind(mode) == S_REG) || (28 <= c.version < 30 && x[HLINKED])
  }

  function PutInode(c: Config, x: Flags, mode: uint32, dev: int64, ino: int64): seq<byte> {
    if !WritesInode(c, x, mode) then []
    else if c.version < 26 then PutU32(Wrap32(dev)) + PutU32(Wrap32(ino))
    else (if x[SAME_DEV] then [] else PutLongInt(dev)) + PutLongInt(ino)
  }

  function GetInode(c: Config, x: Flags, mode: uint32, s: seq<byte>): (res: Read<(int64, int64)>)
    ensures res.Got? ==> |res.rest| <= |s|
  {
    if !c.hardlinks || !WritesInode(c, x, mode) then Got((0, 0), s)
    else if c.version < 26 then
      var (dev, s1) :- GetU32(s);
      var (ino, s2) :- GetU32(s1);
      Got((dev, ino), s2)
    else
      var (dev, s1) :- if x[SAME_DEV] then Got(0, s) else GetLongInt(s);
      var (ino, s2) :- GetLongInt(s1);
      Got((dev, ino), s2)
  }

  predicate HasChecksum(c: Config, mode: uint32) {
    c.checksums && (Kind(mode) == S_REG || c.version < 28)
  }

  function ChecksumBytes(sum: seq<byte>): seq<byte> {
    if sum == [] then seq(16, _ => 0) else sum
  }

  function PutChecksum(c: Config, mode: uint32, sum: seq<byte>): seq<byte> {
    if HasChecksum(c, mode) then ChecksumBytes(sum) else []
  }

  function GetChecksum(c: Config, mode: uint32, s: seq<byte>): (res: Read<seq<byte>>)
    ensures res.Got? ==> |res.rest| <= |s|
  {
    if HasChecksum(c, mode) then Take(s, 16) else Got([], s)
  }

  // ---------------------------------------------------------------- whole entries

  /** The fields up to the mode. */
  datatype Stat = Stat(size: int64, mtime: int64, nsec: int32, mode: uint32)

  /** Access time and ownership. */
  datatype Owner = Owner(atime: int64, uid: (int32, seq<byte>), gid: (int32, seq<byte>))

  /** What only some kinds of file carry. */
  datatype Special = Special(rdev: (uint32, uint32), link: seq<byte>, inode: (int64, int64), checksum: seq<byte>)

  function PutStat(c: Config, x: Flags, e: Entry, tail: seq<byte>): seq<byte> {
    PutSize(c, e.size) + (PutMtime(c, x, e.mtime) + (PutNsec(x, e.modNsec) + (PutMode(x, e.mode) + tail)))
  }

  function GetStat(c: Config, x: Flags, r: Recv, s: seq<byte>): (res: Read<Stat>)
    ensures res.Got? ==> |res.rest| <= |s|
  {
    var (size, s1) :- GetSize(c, s);
    var (mtime, s2) :- GetMtime(c, x, r.mtime, s1);
    var (nsec, s3) :- GetNsec(x, s2);
    var (mode, s4) :- GetMode(x, r.mode, s3);
    Got(Stat(size, mtime, nsec, mode), s4)
  }

  function PutOwner(c: Config, x: Flags, e: Entry, tail: seq<byte>): seq<byte> {
    PutAtime(c, x, e.mode, e.atime)
    + (PutId(c.version, c.uids, x[SAME_UID], e.uid)
    + (PutId(c.version, c.gids, x[SAME_GID], e.gid)
    + tail))
  }

  function GetOwner(c: Config, x: Flags, r: Recv, mode: uint32, s: seq<byte>): (res: Read<Owner>)
    ensures res.Got? ==> |res.rest| <= |s|
  {
    var (atime, s1) :- GetAtime(c, x, mode, r.atime, s);
    var (uid, s2) :- GetId(c.version, c.uids, x[SAME_UID], x[USER_NAME], r.uid, s1);
    var (gid, s3) :- GetId(c.version, c.gids, x[SAME_GID], x[GROUP_NAME], r.gid, s2);
    Got(Owner(atime, uid, gid), s3)
  }

  function PutSpecial(c: Config, x: Flags, e: Entry, tail: seq<byte>): seq<byte> {
    PutRdev(c, e.mode, e.rdevMajor, e.rdevMinor)
    + (PutLink(c, e.mode, e.linkTarget)
    + (PutInode(c, x, e.mode, e.dev, e.ino)
    + (PutChecksum(c, e.mode, e.checksum)
    + tail)))
  }

  function GetSpecial(c: Config, x: Flags, mode: uint32, s: seq<byte>): (res: Read<Special>)
    ensures res.Got? ==> |res.rest| <= |s|
  {
    var (rdev, s1) :- GetRdev(c, x, mode, s);
    var (link, s2) :- GetLink(c, mode, s1);
    var (inode, s3) :- GetInode(c, x, mode, s2);
    var (sum, s4) :- GetChecksum(c, mode, s3);
    Got(Special(rdev, link, inode, sum), s4)
  }

  /** WriteEntry: the bytes, in front of what follows them. */
  function PutEntry(c: Config, w: Sent, e: Entry, tail: seq<byte>): seq<byte> {
    var x := ComputeFlags(c, w, e);
    PutFlags(c.FlagStyle(), x, IsDir(e.mode))
    + (PutName(x, w.name, e.name) + PutStat(c, x, e, PutOwner(c, x, e, PutSpecial(c, x, e, tail))))
  }

  /** WriteEntry: the last* fields afterwards. */
  function AfterPut(c: Config, w: Sent, e: Entry): Sent {
    Sent(e.name, e.mode, e.mtime,
         if c.atimes && !IsDir(e.mode) then e.atime else w.atime,
         if c.uids then e.uid else w.uid,
         if c.gids then e.gid else w.gid,
         if FlaggedLink(c, e) then e.dev else w.dev)
  }

  /** The abbreviated form of a later hard link, which no writer here produces. */
  predicate Abbreviated(c: Config, x: Flags) {
    c.version >= 30 && c.hardlinks && x[HLINKED] && !x[HLINK_FIRST]
  }

  datatype Item = End | Item(entry: Entry)

  function Assemble(name: seq<byte>, x: Flags, st: Stat, ow: Owner, sp: Special): Entry {
    BLANK.(name := name, mode := st.mode, size := st.size, mtime := st.mtime, modNsec := st.nsec,
           atime := ow.atime, uid := ow.uid.0, userName := ow.uid.1, gid := ow.gid.0, groupName := ow.gid.1,
           rdevMajor := sp.rdev.0, rdevMinor := sp.rdev.1, linkTarget := sp.link,
           dev := sp.inode.0, ino := sp.inode.1, checksum := sp.checksum,
           topDir := IsDir(st.mode) && x[TOP_DIR], noContentDir := IsDir(st.mode) && x[NO_CONTENT])
  }

  /** The last* fields after an entry: those it did not carry stay. */
  function AfterGet(c: Config, r: Recv, e: Entry): Recv {
    Recv(e.name, e.mode, e.mtime,
         if c.atimes && !IsDir(e.mode) then e.atime else r.atime,
         if c.uids then e.uid else r.uid,
         if c.gids then e.gid else r.gid,
         r.used + 1)
  }

  /** The rest of a full entry, after its name. */
  function GetFull(c: Config, x: Flags, r: Recv, name: seq<byte>, s: seq<byte>): (res: Read<(Item, Recv)>)
    ensures res.Got? ==> |res.rest| <= |s|
  {
    var (st, s1) :- GetStat(c, x, r, s);
    if !ModeAccepted(st.mode) || (RootName(name) && !IsDir(st.mode)) then Invalid
    else GetBehindMode(c, x, r, name, st, s1)
  }

  function GetBehindMode(c: Config, x: Flags, r: Recv, name: seq<byte>, st: Stat,
                         s: seq<byte>): (res: Read<(Item, Recv)>)
    ensures res.Got? ==> |res.rest| <= |s|
  {
    var (ow, s1) :- GetOwner(c, x, r, st.mode, s);
    var (sp, s2) :- GetSpecial(c, x, st.mode, s1);
    var e := Assemble(name, x, st, ow, sp);
    Got((Item(e), AfterGet(c, r, e)), s2)
  }

  function GetAbbreviated(r: Recv, name: seq<byte>, s: seq<byte>): (res: Read<(Item, Recv)>)
    ensures res.Got? ==> |res.rest| <= |s|
  {
    var (ndx, s1) :- GetVarint(s);
    if ndx < 1 || ndx >= r.used + 1 then Invalid
    else Got((Item(BLANK.(name := name, hlinkNdx := ndx)), r.(name := name, used := r.used + 1)), s1)
  }

  /** After the end marker, varint style carries one more value, which is read
      and dropped; a stream that ends there is as good. */
  function GetListError(c: Config, s: seq<byte>): (res: Read<()>)
    ensures res.Got? ==> |res.rest| <= |s|
  {
    if !c.varint then Got((), s)
    else
      match GetVarint(s)
      case Got(_, rest) => Got((), rest)
      case Panic => Panic
      case _ => Got((), [])
  }

  /** ReadEntry. */
  function GetEntry(c: Config, r: Recv, s: seq<byte>): (res: Read<(Item, Recv)>)
    ensures res.Got? ==> |res.rest| < |s|
  {
    var (seen, s1) :- GetFlags(c.FlagStyle(), s);
    match seen
    case EndOfList =>
      var (_, s2) :- GetListError(c, s1);
      Got((End, r), s2)
    case Seen(x) =>
      var (name, s2) :- GetName(x, r.name, s1);
      if Abbreviated(c, x) then GetAbbreviated(r, name, s2) else GetFull(c, x, r, name, s2)
  }

  // ------------------------------------------------------------- what is carried

  /** Times below protocol 30 keep their low 32 bits. */
  function CarriedTime(c: Config, mtime: int64): int64 {
    if c.version >= 30 then mtime else Wrap32(mtime)
  }

  function CarriedRdev(c: Config, e: Entry): (uint32, uint32) {
    if !c.devices || !IsDevice(e.mode) then (0, 0)
    else if c.version < 28 then (e.rdevMajor % 0x100_0000, e.rdevMinor % 256)
    else (e.rdevMajor, e.rdevMinor)
  }

  /** A repeated device number of a flagged link reads as zero. */
  function CarriedInode(c: Config, w: Sent, e: Entry): (int64, int64) {
    if !c.hardlinks || !WritesInode(c, ComputeFlags(c, w, e), e.mode) then (0, 0)
    else if c.version < 26 then (Wrap32(e.dev), Wrap32(e.ino))
    else (if FlaggedLink(c, e) && e.dev == w.dev then 0 else e.dev, e.ino)
  }

  /** The entry as the reader is to see it. */
  function Carried(c: Config, w: Sent, e: Entry): Entry {
    var isDir := IsDir(e.mode);
    BLANK.(name := e.name, mode := e.mode, size := e.size, mtime := CarriedTime(c, e.mtime),
           modNsec := if c.version >= 31 then e.modNsec else 0,
           atime := if c.atimes && !isDir then e.atime else 0,
           uid := if c.uids then e.uid else 0,
           gid := if c.gids then e.gid else 0,
           rdevMajor := CarriedRdev(c, e).0, rdevMinor := CarriedRdev(c, e).1,
           linkTarget := if c.links && Kind(e.mode) == S_LNK then e.linkTarget else [],
           dev := CarriedInode(c, w, e).0, ino := CarriedInode(c, w, e).1,
           checksum := if HasChecksum(c, e.mode) then ChecksumBytes(e.checksum) else [],
           topDir := isDir && e.topDir,
           noContentDir := isDir && c.version >= 30 && e.noContentDir)
  }
}
