/** The greeting and the choice of algorithms (protocol/greet.go, and readLine,
    NegotiateAlgorithms and pickOne in protocol/handshake.go).

    Each peer writes one line of text, reads the other's, and computes on its own
    what both will use from then on; nothing later tells them if they differ.
    Text is ASCII.
 */
module Greetings {
  import opened Bytes
  import opened Selectors

  const MIN_VERSION: int := 20

  /** "@RSYNCD:" */
  const PREFIX: seq<byte> := [64, 82, 83, 89, 78, 67, 68, 58]
  const MD4: seq<byte> := [109, 100, 52]
  const MD5: seq<byte> := [109, 100, 53]

  datatype Option<+T> = None | Some(value: T)

  datatype Greeting = Greeting(version: int64, sub: byte, digests: seq<seq<byte>>)

  // ------------------------------------------------------------------------- text

  predicate Space(c: byte) {
    c == 32 || 9 <= c <= 13
  }

  predicate NoSpace(w: seq<byte>) {
    forall i :: 0 <= i < |w| ==> !Space(w[i])
  }

  predicate Word(w: seq<byte>) {
    w != [] && NoSpace(w)
  }

  predicate Words(ws: seq<seq<byte>>) {
    forall i :: 0 <= i < |ws| ==> Word(ws[i])
  }

  /** The length of the word s starts with. */
  function WordLen(s: seq<byte>): (n: nat)
    ensures n <= |s|
    ensures NoSpace(s[..n])
    ensures n == 0 <==> s == [] || Space(s[0])
  {
    if s == [] || Space(s[0]) then 0 else 1 + WordLen(s[1..])
  }

  /** strings.Fields. */
  function Fields(s: seq<byte>): (ws: seq<seq<byte>>)
    ensures Words(ws)
    decreases |s|
  {
    if s == [] then []
    else if Space(s[0]) then Fields(s[1..])
    else var n := WordLen(s); [s[..n]] + Fields(s[n..])
  }

  /** strings.Join with a space. */
  function Join(ws: seq<seq<byte>>): seq<byte> {
    if ws == [] then [] else if |ws| == 1 then ws[0] else ws[0] + ([32] + Join(ws[1..]))
  }

  lemma {:induction false} WordLenOf(w: seq<byte>, rest: seq<byte>)
    requires NoSpace(w) && (rest == [] || Space(rest[0]))
    ensures WordLen(w + rest) == |w|
  {
    if w == [] {
      assert w + rest == rest;
    } else {
      assert (w + rest)[1..] == w[1..] + rest;
      WordLenOf(w[1..], rest);
    }
  }

  lemma FieldsOfWord(w: seq<byte>, rest: seq<byte>)
    requires Word(w) && (rest == [] || Space(rest[0]))
    ensures Fields(w + rest) == [w] + Fields(rest)
  {
    WordLenOf(w, rest);
    assert (w + rest)[..|w|] == w && (w + rest)[|w|..] == rest;
  }

  /** Fields undoes Join on words. */
  lemma {:induction false} FieldsOfJoin(ws: seq<seq<byte>>)
    requires Words(ws)
    ensures Fields(Join(ws)) == ws
  {
    if |ws| == 1 {
      FieldsOfWord(ws[0], []);
      assert ws[0] + [] == ws[0];
    } else if ws != [] {
      var rest := [32] + Join(ws[1..]);
      FieldsOfWord(ws[0], rest);
      assert rest[1..] == Join(ws[1..]);
      FieldsOfJoin(ws[1..]);
    }
  }

  /** strings.TrimSpace. */
  function Trim(s: seq<byte>): seq<byte>
    decreases |s|
  {
    if s == [] then []
    else if Space(s[0]) then Trim(s[1..])
    else if Space(s[|s| - 1]) then Trim(s[..|s| - 1])
    else s
  }

  /** strings.Cut at a byte: what is before its first occurrence, and after. */
  function CutAt(s: seq<byte>, c: byte): (r: (seq<byte>, seq<byte>, bool)) {
    if s == [] then ([], [], false)
    else if s[0] == c then ([], s[1..], true)
    else var (a, b, found) := CutAt(s[1..], c); ([s[0]] + a, b, found)
  }

  lemma {:induction false} CutAtFirst(a: seq<byte>, c: byte, b: seq<byte>)
    requires forall i :: 0 <= i < |a| ==> a[i] != c
    ensures CutAt(a + ([c] + b), c) == (a, b, true)
  {
    if a == [] {
      assert a + ([c] + b) == [c] + b;
      assert ([c] + b)[1..] == b;
    } else {
      assert (a + ([c] + b))[1..] == a[1..] + ([c] + b);
      CutAtFirst(a[1..], c, b);
      assert [a[0]] + a[1..] == a;
    }
  }

  // ---------------------------------------------------------------------- numbers

  predicate Digits(s: seq<byte>) {
    forall i :: 0 <= i < |s| ==> 48 <= s[i] <= 57
  }

  function Decimal(n: nat): (s: seq<byte>)
    ensures s != [] && Digits(s)
    ensures n < 10 <==> |s| == 1
  {
    if n < 10 then [48 + n] else Decimal(n / 10) + [48 + n % 10]
  }

  /** "%d" */
  function Itoa(v: int): (s: seq<byte>)
    ensures s != [] && forall i :: 0 <= i < |s| ==> 48 <= s[i] <= 57 || s[i] == 45
  {
    if v < 0 then [45] + Decimal(-v) else Decimal(v)
  }

  function FromDecimal(s: seq<byte>): Option<nat> {
    if s == [] then Some(0)
    else
      var c := s[|s| - 1];
      var high := FromDecimal(s[..|s| - 1]);
      if high.Some? && 48 <= c <= 57 then Some(10 * high.value + (c - 48)) else None
  }

  /** strconv.Atoi: an optional sign, at least one digit, 64 bits. */
  function Atoi(s: seq<byte>): Option<int64> {
    var signed := s != [] && (s[0] == 43 || s[0] == 45);
    var digits := if signed then s[1..] else s;
    if digits == [] then None
    else
      var n := FromDecimal(digits);
      if n.None? then None
      else
        var v: int := if s[0] == 45 then -(n.value as int) else n.value;
        if -U63 <= v < U63 then Some(v) else None
  }

  lemma {:induction false} DecimalRoundTrip(n: nat)
    ensures FromDecimal(Decimal(n)) == Some(n)
  {
    if n >= 10 {
      DecimalRoundTrip(n / 10);
      assert Decimal(n)[..|Decimal(n)| - 1] == Decimal(n / 10);
    } else {
      assert FromDecimal([48 + n][..0]) == Some(0);
    }
  }

  lemma AtoiRoundTrip(v: int64)
    ensures Atoi(Itoa(v)) == Some(v)
  {
    var n: nat := if v < 0 then -(v as int) else v;
    var d := Decimal(n);
    DecimalRoundTrip(n);
    if v < 0 {
      assert ([45] + d)[1..] == d;
    } else {
      assert 48 <= d[0] <= 57;
    }
  }

  // --------------------------------------------------------------------- greeting

  /** The version word: number, dot, subprotocol. */
  function VersionWord(g: Greeting): seq<byte> {
    Itoa(g.version) + ([46] + Decimal(g.sub))
  }

  /** String, without the newline. */
  function GreetingLine(g: Greeting): seq<byte> {
    PREFIX + ([32] + Join([VersionWord(g)] + g.digests))
  }

  function PutGreeting(g: Greeting): seq<byte> {
    GreetingLine(g) + [10]
  }

  /** ParseGreeting. */
  function ParseGreeting(line: seq<byte>): (r: Option<Greeting>)
    ensures r.Some? ==> r.value.sub <= 9 && Words(r.value.digests)
  {
    var line := Trim(line);
    if |line| < |PREFIX| || line[..|PREFIX|] != PREFIX then None
    else ParseParts(Fields(line[|PREFIX|..]))
  }

  /** The words after the prefix. */
  function ParseParts(parts: seq<seq<byte>>): (r: Option<Greeting>)
    requires Words(parts)
    ensures r.Some? ==> r.value.sub <= 9 && Words(r.value.digests)
  {
    if |parts| < 1 then None
    else
      var (major, minor, hasSub) := CutAt(parts[0], 46);
      var version := Atoi(major);
      if version.None? then None
      else if hasSub then
        if |minor| != 1 || minor[0] < 48 || minor[0] > 57 then None
        else Some(Greeting(version.value, minor[0] - 48, parts[1..]))
      else if version.value >= 30 then None
      else Some(Greeting(version.value, 0, parts[1..]))
  }

  /** readLine: everything before the next newline. */
  function GetLine(s: seq<byte>): (r: Read<seq<byte>>) {
    if s == [] then Eof
    else if s[0] == 10 then Got([], s[1..])
    else var (l, rest) :- GetLine(s[1..]); Got([s[0]] + l, rest)
  }

  /** ReadGreeting. */
  function GetGreeting(s: seq<byte>): (r: Read<Greeting>) {
    var (line, rest) :- GetLine(s);
    var g := ParseGreeting(line);
    if g.Some? then Got(g.value, rest) else Invalid
  }

  method ReadLine(r: Stream) returns (res: Read<seq<byte>>)
    modifies r
    ensures res == GetLine(old(r.buf))
    ensures res.Got? ==> r.buf == res.rest
  {
    var line: seq<byte> := [];
    ghost var all := GetLine(r.buf);
    PrependNone(all);
    while |r.buf| > 0
      invariant all == Prepend(line, GetLine(r.buf))
      decreases |r.buf|
    {
      var b := r.ReadFull(1);
      if b.value[0] == 10 {
        assert line + [] == line;
        return Got(line, r.buf);
      }
      PrependConcat(line, [b.value[0]], GetLine(r.buf));
      line := line + [b.value[0]];
    }
    return Eof;
  }

  lemma {:induction false} LineRoundTrip(l: seq<byte>, rest: seq<byte>)
    requires forall i :: 0 <= i < |l| ==> l[i] != 10
    ensures GetLine(l + ([10] + rest)) == Got(l, rest)
  {
    if l == [] {
      assert l + ([10] + rest) == [10] + rest;
      assert ([10] + rest)[1..] == rest;
    } else {
      assert (l + ([10] + rest))[1..] == l[1..] + ([10] + rest);
      LineRoundTrip(l[1..], rest);
      assert [l[0]] + l[1..] == l;
    }
  }

  /** The version word is a word, and parses back when the subprotocol is one
      digit. */
  lemma VersionWordRoundTrip(g: Greeting)
    ensures Word(VersionWord(g))
    ensures CutAt(VersionWord(g), 46) == (Itoa(g.version), Decimal(g.sub), true)
    ensures Atoi(Itoa(g.version)) == Some(g.version)
  {
    AtoiRoundTrip(g.version);
    CutAtFirst(Itoa(g.version), 46, Decimal(g.sub));
  }

  /** Joined words end in a non-space, and hold no newline. */
  lemma {:induction false} JoinEnds(ws: seq<seq<byte>>)
    requires Words(ws) && ws != []
    ensures Join(ws) != [] && !Space(Join(ws)[|Join(ws)| - 1])
    ensures forall i :: 0 <= i < |Join(ws)| ==> Join(ws)[i] != 10
  {
    if |ws| > 1 {
      JoinEnds(ws[1..]);
    }
  }

  lemma PartsParse(g: Greeting)
    requires g.sub <= 9 && Words(g.digests)
    ensures var ws := [VersionWord(g)] + g.digests;
      Words(ws) && ParseParts(ws) == Some(g)
  {
    VersionWordRoundTrip(g);
    assert ([VersionWord(g)] + g.digests)[1..] == g.digests;
  }

  /** The prefix and a space before non-empty text that needs no trimming. */
  lemma PrefixCut(text: seq<byte>)
    requires text != [] && !Space(text[|text| - 1])
    ensures var line := PREFIX + ([32] + text);
      Trim(line) == line && |line| >= |PREFIX| && line[..|PREFIX|] == PREFIX && Fields(line[|PREFIX|..]) == Fields(text)
  {
    var line := PREFIX + ([32] + text);
    assert line[|line| - 1] == text[|text| - 1];
    assert line[|PREFIX|..] == [32] + text;
    assert ([32] + text)[1..] == text;
  }

  lemma PrefixParses(text: seq<byte>)
    requires text != [] && !Space(text[|text| - 1])
    ensures ParseGreeting(PREFIX + ([32] + text)) == ParseParts(Fields(text))
  {
    PrefixCut(text);
  }

  lemma PrefixOneLine(text: seq<byte>)
    requires forall i :: 0 <= i < |text| ==> text[i] != 10
    ensures forall i :: 0 <= i < |PREFIX + ([32] + text)| ==> (PREFIX + ([32] + text))[i] != 10
  {
  }

  lemma LineParses(g: Greeting)
    requires g.sub <= 9 && Words(g.digests)
    ensures ParseGreeting(GreetingLine(g)) == Some(g)
    ensures forall i :: 0 <= i < |GreetingLine(g)| ==> GreetingLine(g)[i] != 10
  {
    var ws := [VersionWord(g)] + g.digests;
    PartsParse(g);
    JoinEnds(ws);
    FieldsOfJoin(ws);
    PrefixParses(Join(ws));
    PrefixOneLine(Join(ws));
  }

  /** A greeting survives the wire, whatever follows it, if and only if its
      subprotocol is a single digit and its digests are words. */
  lemma GreetingRoundTrip(g: Greeting, rest: seq<byte>)
    ensures GetGreeting(PutGreeting(g) + rest) == Got(g, rest) <==> g.sub <= 9 && Words(g.digests)
  {
    if g.sub <= 9 && Words(g.digests) {
      LineParses(g);
      LineRoundTrip(GreetingLine(g), rest);
      Assoc(GreetingLine(g), [10], rest);
    }
  }

  // ------------------------------------------------------------------ negotiation

  datatype Agreed = Agreed(version: int64, sub: byte, digest: seq<byte>)

  /** The first of xs that is also in ys. */
  function FirstCommon<T(==)>(xs: seq<T>, ys: seq<T>): (r: Option<T>)
    ensures r.None? <==> forall x :: x in xs ==> x !in ys
    ensures r.Some? ==> r.value in xs && r.value in ys
  {
    if xs == [] then None else if xs[0] in ys then Some(xs[0]) else FirstCommon(xs[1..], ys)
  }

  /** Whether the older peer speaks a released protocol, or both the same one. */
  predicate Stable(c: Greeting, s: Greeting) {
    if c.version > s.version then s.sub == 0
    else if c.version < s.version then c.sub == 0
    else c.sub == s.sub
  }

  /** Negotiate as a function of the two greetings. */
  function Outcome(client: Greeting, server: Greeting): (r: Option<Agreed>) {
    var older := if client.version > server.version then server else client;
    var version := if Stable(client, server) then older.version else Signed64(older.version - 1);
    var sub := if Stable(client, server) then older.sub else 0;
    var common := FirstCommon(client.digests, server.digests);
    if version < MIN_VERSION then None
    else Some(Agreed(version, sub,
                     if common.Some? && common.value != [] then common.value
                     else if version >= 30 then MD5 else MD4))
  }

  /** The loops of Negotiate compute the outcome. */
  method Negotiate(client: Greeting, server: Greeting) returns (r: Option<Agreed>)
    ensures r == Outcome(client, server)
  {
    var version, sub := client.version, client.sub;
    if client.version > server.version {
      version, sub := server.version, server.sub;
      if server.sub != 0 {
        version, sub := Signed64(version - 1), 0;
      }
    } else if client.version == server.version {
      if client.sub != server.sub {
        version, sub := Signed64(version - 1), 0;
      }
    } else if client.sub != 0 {
      version, sub := Signed64(version - 1), 0;
    }
    if version < MIN_VERSION {
      return None;
    }
    var digest := FindDigest(client.digests, server.digests);
    if digest == [] {
      digest := if version >= 30 then MD5 else MD4;
    }
    return Some(Agreed(version, sub, digest));
  }

  /** The nested search loops; the empty name stands for none. */
  method FindDigest(mine: seq<seq<byte>>, peer: seq<seq<byte>>) returns (digest: seq<byte>)
    ensures var common := FirstCommon(mine, peer);
      digest == if common.Some? then common.value else []
  {
    for i := 0 to |mine|
      invariant FirstCommon(mine, peer) == FirstCommon(mine[i..], peer)
    {
      assert mine[i..][1..] == mine[i + 1..];
      for j := 0 to |peer|
        invariant mine[i] !in peer[..j]
      {
        if mine[i] == peer[j] {
          return mine[i];
        }
        assert peer[..j + 1] == peer[..j] + [peer[j]];
      }
      assert peer[..|peer|] == peer;
    }
    return [];
  }

  /** Each peer reads the other's line and computes for itself: they agree on the
      version, the subprotocol and the digest, or both give up. */
  lemma PeersAgree(client: Greeting, server: Greeting, toServer: seq<byte>, toClient: seq<byte>)
    requires client.sub <= 9 && Words(client.digests) && server.sub <= 9 && Words(server.digests)
    ensures var atServer := GetGreeting(PutGreeting(client) + toServer);
      var atClient := GetGreeting(PutGreeting(server) + toClient);
      && atServer.Got? && atServer.rest == toServer && atClient.Got? && atClient.rest == toClient
      && Outcome(client, atClient.value) == Outcome(atServer.value, server)
  {
    GreetingRoundTrip(client, toServer);
    GreetingRoundTrip(server, toClient);
  }

  /** The version does not depend on who is the client, and exceeds neither
      peer's, unless the step down from the least 64-bit integer wraps around. */
  lemma VersionFair(client: Greeting, server: Greeting)
    ensures var r, q := Outcome(client, server), Outcome(server, client);
      && (r.Some? <==> q.Some?)
      && (r.Some? ==> r.value.version == q.value.version && r.value.sub == q.value.sub)
    ensures var r := Outcome(client, server);
      r.Some? ==>
        (r.value.version <= client.version && r.value.version <= server.version
         <==> !((client.version == -U63 || server.version == -U63) && !Stable(client, server)))
  {
  }

  /** A greeting with the least version and subprotocol 1 arrives as such, and makes
      both peers agree on the greatest version. */
  lemma {:induction false} VersionWraps(rest: seq<byte>)
    ensures var odd, other := Greeting(-U63, 1, []), Greeting(32, 0, []);
      && GetGreeting(PutGreeting(odd) + rest) == Got(odd, rest)
      && Outcome(odd, other) == Some(Agreed(U63 - 1, 0, MD5)) == Outcome(other, odd)
  {
    GreetingRoundTrip(Greeting(-U63, 1, []), rest);
  }

  // ---------------------------------------------------------- algorithm negotiation

  /** Both lists follow one order of preference, in which names differ in rank. */
  ghost predicate Ranked(xs: seq<seq<byte>>, rank: seq<byte> -> int) {
    forall i, j :: 0 <= i < j < |xs| ==> rank(xs[i]) <= rank(xs[j])
  }

  ghost predicate Distinguishes(xs: seq<seq<byte>>, rank: seq<byte> -> int) {
    forall a, b :: a in xs && b in xs && rank(a) == rank(b) ==> a == b
  }

  lemma {:induction false} FirstIsLeast(xs: seq<seq<byte>>, ys: seq<seq<byte>>, rank: seq<byte> -> int, x: seq<byte>)
    requires Ranked(xs, rank) && x in xs && x in ys
    ensures var r := FirstCommon(xs, ys);
      r.Some? && rank(r.value) <= rank(x)
  {
    if xs[0] in ys {
      var i :| 0 <= i < |xs| && xs[i] == x;
    } else {
      assert x in xs[1..];
      FirstIsLeast(xs[1..], ys, rank, x);
    }
  }

  /** Each picks by its own list; a common order of preference makes the picks
      equal. */
  lemma SamePick(xs: seq<seq<byte>>, ys: seq<seq<byte>>, rank: seq<byte> -> int)
    requires Ranked(xs, rank) && Ranked(ys, rank) && Distinguishes(xs, rank)
    ensures FirstCommon(xs, ys) == FirstCommon(ys, xs)
  {
    var a, b := FirstCommon(xs, ys), FirstCommon(ys, xs);
    if a.Some? {
      FirstIsLeast(ys, xs, rank, a.value);
      FirstIsLeast(xs, ys, rank, b.value);
    }
  }

  /** Without one, they may differ. */
  lemma PicksDiffer()
    ensures FirstCommon([MD5, MD4], [MD4, MD5]) != FirstCommon([MD4, MD5], [MD5, MD4])
  {
    assert FirstCommon([MD5, MD4], [MD4, MD5]) == Some(MD5);
    assert FirstCommon([MD4, MD5], [MD5, MD4]) == Some(MD4);
  }

  /** pickOne. */
  method PickOne(mine: seq<seq<byte>>, peerList: seq<byte>) returns (r: seq<byte>)
    ensures r == Picked(mine, Fields(peerList))
  {
    var peers := Fields(peerList);
    var known: set<seq<byte>> := {};
    for i := 0 to |peers|
      invariant forall x :: x in known <==> x in peers[..i]
    {
      known := known + {peers[i]};
    }
    assert peers[..|peers|] == peers;
    for i := 0 to |mine|
      invariant FirstCommon(mine, peers) == FirstCommon(mine[i..], peers)
    {
      assert mine[i..][1..] == mine[i + 1..];
      if mine[i] in known {
        return mine[i];
      }
    }
    return [];
  }

  function Picked(mine: seq<seq<byte>>, peer: seq<seq<byte>>): seq<byte> {
    var common := FirstCommon(mine, peer);
    if common.Some? then common.value else []
  }

  datatype Algorithms = Algorithms(checksum: seq<byte>, compress: seq<byte>)

  /** What NegotiateAlgorithms sends: its lists, the second only if there is one. */
  function PutLists(checksums: seq<seq<byte>>, compressions: seq<seq<byte>>): seq<byte>
    requires |Join(checksums)| <= 0x7FFF && |Join(compressions)| <= 0x7FFF
  {
    PutVstring(Join(checksums)) + if compressions != [] then PutVstring(Join(compressions)) else []
  }

  /** What it makes of the peer's bytes. */
  function GetLists(checksums: seq<seq<byte>>, compressions: seq<seq<byte>>, s: seq<byte>): Read<Algorithms> {
    var (sums, s1) :- GetVstring(s);
    var sum := Picked(checksums, Fields(sums));
    if compressions == [] then Got(Algorithms(sum, []), s1)
    else
      var (comps, s2) :- GetVstring(s1);
      Got(Algorithms(sum, Picked(compressions, Fields(comps))), s2)
  }

  /** The exchange leaves the stream where the peer stopped writing, and picks by
      the peer's very lists, if both or neither negotiate compression. */
  lemma ListsRoundTrip(mine: seq<seq<byte>>, myComps: seq<seq<byte>>, peer: seq<seq<byte>>, peerComps: seq<seq<byte>>,
                       rest: seq<byte>)
    requires Words(peer) && Words(peerComps) && |Join(peer)| <= 0x7FFF && |Join(peerComps)| <= 0x7FFF
    requires myComps == [] <==> peerComps == []
    ensures GetLists(mine, myComps, PutLists(peer, peerComps) + rest)
         == Got(Algorithms(Picked(mine, peer), Picked(myComps, peerComps)), rest)
  {
    FieldsOfJoin(peer);
    FieldsOfJoin(peerComps);
    var a, b := PutVstring(Join(peer)), if peerComps != [] then PutVstring(Join(peerComps)) else [];
    Assoc(a, b, rest);
    VstringRoundTrip(Join(peer), b + rest);
    if peerComps != [] {
      VstringRoundTrip(Join(peerComps), rest);
    } else {
      assert b + rest == rest;
    }
  }

  /** Both peers come out with the same algorithms when their lists follow common
      orders of preference. */
  lemma AlgorithmsAgree(xs: seq<seq<byte>>, xc: seq<seq<byte>>, ys: seq<seq<byte>>, yc: seq<seq<byte>>,
                        rank: seq<byte> -> int, toX: seq<byte>, toY: seq<byte>)
    requires Words(xs) && Words(xc) && |Join(xs)| <= 0x7FFF && |Join(xc)| <= 0x7FFF
    requires Words(ys) && Words(yc) && |Join(ys)| <= 0x7FFF && |Join(yc)| <= 0x7FFF
    requires xc == [] <==> yc == []
    requires Ranked(xs, rank) && Ranked(ys, rank) && Distinguishes(xs, rank)
    requires Ranked(xc, rank) && Ranked(yc, rank) && Distinguishes(xc, rank)
    ensures var atX := GetLists(xs, xc, PutLists(ys, yc) + toX);
      var atY := GetLists(ys, yc, PutLists(xs, xc) + toY);
      atX.Got? && atY.Got? && atX.value == atY.value && atX.rest == toX && atY.rest == toY
  {
    ListsRoundTrip(xs, xc, ys, yc, toX);
    ListsRoundTrip(ys, yc, xs, xc, toY);
    SamePick(xs, ys, rank);
    SamePick(xc, yc, rank);
  }
}
