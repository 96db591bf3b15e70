/** One session between client and server (client-connect.go, client-open.go,
    server-handshake.go, server-send.go), from the checksum seed to the goodbye,
    as two programs over two channels.

    Both programs are written as the code runs: which message is next, what is
    done with a message read, and whether output goes through a mux buffer. A
    buffer is flushed only where the code flushes it: before a read, at the end,
    when it is full, and between the selector loop and the statistics. The server's
    flushes behind the file list, each file and the statistics are all followed by
    a read, before which it flushes anyway. Buffers and channels may be as small as one message. The
    results: no run deadlocks, every run ends, and it ends with both sides finished
    and nothing left over, unless the client asked a server of protocol 30 or more
    for an entry that is not a regular file.
 */
module Sessions {
  import Selectors

  datatype Msg =
    | Seed | FilterEnd | FileList
    | Selector(ndx: nat) | NullHead
    | EchoSelector(ndx: nat) | Head | Body
    | Done | Stats

  /** What the client wants: nothing beyond the list (a directory, a symlink, a
      missing name), or the data of one entry. */
  datatype Ask = ListOnly | Fetch(ndx: nat, regular: bool)

  datatype Setup = Setup(version: int, entries: nat, ask: Ask, cap: nat, bufCap: nat)
  {
    predicate Valid() {
      cap > 0 && bufCap > 0 && entries > 0 && (ask.Fetch? ==> ask.ndx < entries)
    }

    function MaxPhase(): nat {
      Selectors.MaxPhase(version)
    }

    /** The server can answer: from protocol 30 on it refuses to transfer what is
        not a regular file, although its file list calls everything regular that
        is neither a directory nor a symlink. */
    predicate Serves() {
      ask.Fetch? && version >= 30 ==> ask.regular
    }
  }

  // --------------------------------------------------------------------- the client

  datatype Client =
    | CSeed | CFilter | CFlist
    | CSelector | CHead | CEcho | CEchoHead | CBody
    | CPhaseWrite(i: nat) | CPhaseRead(i: nat)
    | CStats | CBye | CByeEcho | CByeAgain
    | CConsume | CDone | CFailed

  /** What a program does next. */
  datatype Act = Put(msg: Msg, buffered: bool) | Get | Finish | Stop

  function ClientAct(su: Setup, pc: Client): Act {
    var framed := su.version >= 30;
    match pc
    case CFilter => Put(FilterEnd, framed)
    case CSelector => Put(if su.ask.Fetch? then Selector(su.ask.ndx) else Selector(0), framed)
    case CHead => Put(NullHead, framed)
    case CPhaseWrite(_) => Put(Done, framed)
    case CBye => Put(Done, framed)
    case CByeAgain => Put(Done, framed)
    case CConsume => Finish
    case CDone => Stop
    case CFailed => Stop
    case _ => Get
  }

  /** openFile or straight to finishSession. */
  function ClientAfterList(su: Setup): Client {
    if su.ask.Fetch? then CSelector else CPhaseWrite(0)
  }

  function ClientWrote(su: Setup, pc: Client): Client {
    match pc
    case CFilter => CFlist
    case CSelector => CHead
    case CHead => CEcho
    case CPhaseWrite(i) => CPhaseRead(i)
    case CBye => if su.version >= 31 then CByeEcho else CConsume
    case CByeAgain => CConsume
    case _ => CFailed
  }

  function ClientRead(su: Setup, pc: Client, m: Msg): Client {
    match pc
    case CSeed => if m == Seed then CFilter else CFailed
    case CFlist => if m == FileList then ClientAfterList(su) else CFailed
    case CEcho => if m.EchoSelector? then CEchoHead else CFailed
    case CEchoHead => if m == Head then CBody else CFailed
    case CBody => if m == Body then CPhaseWrite(0) else CFailed
    case CPhaseRead(i) => if m != Done then CFailed else if i < su.MaxPhase() then CPhaseWrite(i + 1) else CStats
    case CStats => if m == Stats then CBye else CFailed
    case CByeEcho => if m == Done then CByeAgain else CFailed
    case _ => CFailed
  }

  // --------------------------------------------------------------------- the server

  datatype Server =
    | SSeed | SFilter | SFlist
    | SSelect(phase: nat) | SSums(phase: nat, ndx: nat)
    | SEcho(phase: nat, ndx: nat) | SHead(phase: nat) | SBody(phase: nat)
    | SEchoDone(phase: nat) | STrailing
    | SStats | SBye | SByeEcho | SByeAgain
    | SFlush | SDone | SFailed

  function ServerAct(su: Setup, pc: Server): Act {
    match pc
    case SSeed => Put(Seed, su.version < 23)
    case SFlist => Put(FileList, true)
    case SEcho(_, ndx) => Put(EchoSelector(ndx), true)
    case SHead(_) => Put(Head, true)
    case SBody(_) => Put(Body, true)
    case SEchoDone(_) => Put(Done, true)
    case STrailing => Put(Done, true)
    case SStats => Put(Stats, true)
    case SByeEcho => Put(Done, true)
    case SFlush => Finish
    case SDone => Stop
    case SFailed => Stop
    case _ => Get
  }

  function ServerWrote(su: Setup, pc: Server): Server {
    match pc
    case SSeed => SFilter
    case SFlist => SSelect(0)
    case SEcho(p, _) => SHead(p)
    case SHead(p) => SBody(p)
    case SBody(p) => SSelect(p)
    case SEchoDone(p) => SSelect(p)
    case STrailing => SStats
    case SStats => SBye
    case SByeEcho => SByeAgain
    case _ => SFailed
  }

  /** sendFiles' selector loop, its transfer branch, and the goodbye. */
  function ServerRead(su: Setup, pc: Server, m: Msg): Server {
    match pc
    case SFilter => if m == FilterEnd then SFlist else SFailed
    case SSelect(phase) =>
      if m == Done then if phase + 1 > su.MaxPhase() then STrailing else SEchoDone(phase + 1)
      else if !m.Selector? || m.ndx >= su.entries || phase == 2 then SFailed
      else SSums(phase, m.ndx)
    case SSums(phase, ndx) => if m == NullHead && su.Serves() then SEcho(phase, ndx) else SFailed
    case SBye => if m != Done then SFailed else if su.version >= 31 then SByeEcho else SFlush
    case SByeAgain => if m == Done then SFlush else SFailed
    case _ => SFailed
  }

  // ----------------------------------------------------------------- the two together

  /** cBuf and sBuf are the mux buffers, c2s and s2c the transport; the logs hold
      every message each side has written and read. */
  datatype State = State(
    client: Client, server: Server,
    cBuf: seq<Msg>, c2s: seq<Msg>, sBuf: seq<Msg>, s2c: seq<Msg>,
    cSent: seq<Msg>, cGot: seq<Msg>, sSent: seq<Msg>, sGot: seq<Msg>)

  const INIT: State := State(CSeed, SSeed, [], [], [], [], [], [], [], [])

  datatype Event = ClientMoves | ServerMoves | ClientFlushes | ServerFlushes

  /** Where a program flushes: before it reads or ends, and to make room for a
      buffered write. */
  predicate Flushing(act: Act, buf: seq<Msg>, bufCap: nat, forced: bool) {
    buf != [] && (forced || act.Get? || act.Finish? || (act.Put? && act.buffered && |buf| >= bufCap))
  }

  /** The server flushes what sendFiles wrote before it writes the statistics. */
  predicate FlushesFirst(pc: Server) {
    pc == SStats
  }

  /** A write needs room in the buffer, or in the channel when it is not buffered;
      a read needs its own buffer flushed and a message; a flush needs room. */
  predicate Enabled(su: Setup, s: State, ev: Event) {
    match ev
    case ClientMoves =>
      (match ClientAct(su, s.client)
       case Put(_, buffered) => if buffered then |s.cBuf| < su.bufCap else s.cBuf == [] && |s.c2s| < su.cap
       case Get => s.cBuf == [] && s.s2c != []
       case Finish => s.cBuf == []
       case Stop => false)
    case ServerMoves =>
      (match ServerAct(su, s.server)
       case Put(_, buffered) =>
         if FlushesFirst(s.server) then s.sBuf == []
         else if buffered then |s.sBuf| < su.bufCap
         else s.sBuf == [] && |s.s2c| < su.cap
       case Get => s.sBuf == [] && s.c2s != []
       case Finish => s.sBuf == []
       case Stop => false)
    case ClientFlushes => Flushing(ClientAct(su, s.client), s.cBuf, su.bufCap, false) && |s.c2s| < su.cap
    case ServerFlushes =>
      Flushing(ServerAct(su, s.server), s.sBuf, su.bufCap, FlushesFirst(s.server)) && |s.s2c| < su.cap
  }

  function ClientStep(su: Setup, s: State): State
    requires Enabled(su, s, ClientMoves)
  {
    match ClientAct(su, s.client)
    case Put(m, buffered) =>
      var t := s.(client := ClientWrote(su, s.client), cSent := s.cSent + [m]);
      if buffered then t.(cBuf := s.cBuf + [m]) else t.(c2s := s.c2s + [m])
    case Get =>
      s.(client := ClientRead(su, s.client, s.s2c[0]), cGot := s.cGot + [s.s2c[0]], s2c := s.s2c[1..])
    case Finish => s.(client := CDone)
  }

  function ServerStep(su: Setup, s: State): State
    requires Enabled(su, s, ServerMoves)
  {
    match ServerAct(su, s.server)
    case Put(m, buffered) =>
      var t := s.(server := ServerWrote(su, s.server), sSent := s.sSent + [m]);
      if buffered then t.(sBuf := s.sBuf + [m]) else t.(s2c := s.s2c + [m])
    case Get =>
      s.(server := ServerRead(su, s.server, s.c2s[0]), sGot := s.sGot + [s.c2s[0]], c2s := s.c2s[1..])
    case Finish => s.(server := SDone)
  }

  function Step(su: Setup, s: State, ev: Event): State
    requires Enabled(su, s, ev)
  {
    match ev
    case ClientMoves => ClientStep(su, s)
    case ServerMoves => ServerStep(su, s)
    case ClientFlushes => s.(cBuf := s.cBuf[1..], c2s := s.c2s + [s.cBuf[0]])
    case ServerFlushes => s.(sBuf := s.sBuf[1..], s2c := s.s2c + [s.sBuf[0]])
  }

  ghost predicate Runs(su: Setup, s: State, evs: seq<Event>, t: State)
    decreases |evs|
  {
    if evs == [] then s == t
    else Enabled(su, s, evs[0]) && Runs(su, Step(su, s, evs[0]), evs[1..], t)
  }

  predicate Stuck(su: Setup, s: State) {
    && !Enabled(su, s, ClientMoves) && !Enabled(su, s, ServerMoves)
    && !Enabled(su, s, ClientFlushes) && !Enabled(su, s, ServerFlushes)
  }

  // --------------------------------------------------------------------- the dialogue

  datatype Line = Line(fromClient: bool, msg: Msg)

  /** Where the phase exchange starts. */
  function Base(su: Setup): nat {
    if su.ask.Fetch? then 8 else 3
  }

  /** Where the statistics come. */
  function Last(su: Setup): nat {
    Base(su) + 2 * su.MaxPhase() + 2
  }

  /** The number of lines; a refused transfer ends after its request. */
  function Length(su: Setup): nat {
    if !su.Serves() then 5 else if su.version >= 31 then Last(su) + 4 else Last(su) + 2
  }

  /** The session as one dialogue that both programs follow line by line. */
  function LineAt(su: Setup, k: nat): Line
    requires k < Length(su)
  {
    if k == 0 then Line(false, Seed)
    else if k == 1 then Line(true, FilterEnd)
    else if k == 2 then Line(false, FileList)
    else if k < Base(su) then
      if k == 3 then Line(true, Selector(su.ask.ndx))
      else if k == 4 then Line(true, NullHead)
      else if k == 5 then Line(false, EchoSelector(su.ask.ndx))
      else if k == 6 then Line(false, Head)
      else Line(false, Body)
    else if k < Last(su) then Line((k - Base(su)) % 2 == 0, Done)
    else if k == Last(su) then Line(false, Stats)
    else Line(k != Last(su) + 2, Done)
  }

  /** Where the client is before line k. */
  function ClientAt(su: Setup, k: nat): Client
    requires k <= Length(su)
  {
    if k == 0 then CSeed else if k == 1 then CFilter else if k == 2 then CFlist
    else if k < Base(su) then
      if k == 3 then CSelector else if k == 4 then CHead else if k == 5 then CEcho
      else if k == 6 then CEchoHead else CBody
    else if k < Last(su) then
      if (k - Base(su)) % 2 == 0 then CPhaseWrite((k - Base(su)) / 2) else CPhaseRead((k - Base(su)) / 2)
    else if k == Last(su) then CStats
    else if k == Last(su) + 1 then CBye
    else if k == Length(su) then CConsume
    else if k == Last(su) + 2 then CByeEcho
    else CByeAgain
  }

  /** Where the server is before line k. */
  function ServerAt(su: Setup, k: nat): Server
    requires k <= Length(su)
  {
    if k == 0 then SSeed else if k == 1 then SFilter else if k == 2 then SFlist
    else if !su.Serves() && k == 5 then SFailed
    else if k < Base(su) then
      if k == 3 then SSelect(0) else if k == 4 then SSums(0, su.ask.ndx) else if k == 5 then SEcho(0, su.ask.ndx)
      else if k == 6 then SHead(0) else SBody(0)
    else if k < Last(su) then
      var p := (k - Base(su)) / 2;
      if (k - Base(su)) % 2 == 0 then SSelect(p) else if p == su.MaxPhase() then STrailing else SEchoDone(p + 1)
    else if k == Last(su) then SStats
    else if k == Last(su) + 1 then SBye
    else if k == Length(su) then SFlush
    else if k == Last(su) + 2 then SByeEcho
    else SByeAgain
  }

  /** The client's program writes its lines and reads the server's, in order. */
  lemma ClientFollows(su: Setup, k: nat)
    requires su.Valid() && k < Length(su)
    ensures var l := LineAt(su, k);
      if l.fromClient then
        && ClientAct(su, ClientAt(su, k)) == Put(l.msg, su.version >= 30)
        && ClientWrote(su, ClientAt(su, k)) == ClientAt(su, k + 1)
      else
        ClientAct(su, ClientAt(su, k)) == Get && ClientRead(su, ClientAt(su, k), l.msg) == ClientAt(su, k + 1)
  {
  }

  /** So does the server's, which decides by what it reads. */
  lemma ServerFollows(su: Setup, k: nat)
    requires su.Valid() && k < Length(su)
    ensures var l := LineAt(su, k);
      if l.fromClient then
        ServerAct(su, ServerAt(su, k)) == Get && ServerRead(su, ServerAt(su, k), l.msg) == ServerAt(su, k + 1)
      else
        && ServerAct(su, ServerAt(su, k)) == Put(l.msg, k > 0 || su.version < 23)
        && ServerWrote(su, ServerAt(su, k)) == ServerAt(su, k + 1)
  {
  }

  // --------------------------------------------------------------------- the invariant

  /** The messages of lines a to b. */
  function Msgs(su: Setup, a: nat, b: nat): seq<Msg>
    requires b <= Length(su)
    decreases b
  {
    if a >= b then [] else Msgs(su, a, b - 1) + [LineAt(su, b - 1).msg]
  }

  lemma {:induction false} MsgsFirst(su: Setup, a: nat, b: nat)
    requires a < b <= Length(su)
    ensures |Msgs(su, a, b)| == b - a
    ensures Msgs(su, a, b) == [LineAt(su, a).msg] + Msgs(su, a + 1, b)
    decreases b
  {
    if a == b - 1 {
      assert Msgs(su, a, b) == [] + [LineAt(su, a).msg];
    } else {
      MsgsFirst(su, a, b - 1);
      var x, m, y := [LineAt(su, a).msg], Msgs(su, a + 1, b - 1), [LineAt(su, b - 1).msg];
      assert (x + m) + y == x + (m + y);
    }
  }

  /** Every line from a to b is spoken by the client, or every one by the server. */
  predicate Spoken(su: Setup, a: nat, b: nat, byClient: bool)
    requires b <= Length(su)
  {
    forall k :: a <= k < b ==> LineAt(su, k).fromClient == byClient
  }

  /** The client is before line i and the server before line j: what is in flight
      is exactly what the one ahead has said since. */
  predicate At(su: Setup, s: State, i: nat, j: nat) {
    && su.Valid() && i <= Length(su) && j <= Length(su)
    && (s.client == ClientAt(su, i) || (s.client == CDone && su.Serves() && i == Length(su) && s.cBuf == []))
    && (s.server == ServerAt(su, j) || (s.server == SDone && su.Serves() && j == Length(su) && s.sBuf == []))
    && (su.version < 30 ==> s.cBuf == [])
    && Spoken(su, j, i, true) && Spoken(su, i, j, false)
    && s.c2s + s.cBuf == Msgs(su, j, i)
    && s.s2c + s.sBuf == Msgs(su, i, j)
    && s.cSent == s.sGot + (s.c2s + s.cBuf)
    && s.sSent == s.cGot + (s.s2c + s.sBuf)
  }

  /** How much there is left to do. */
  function Left(su: Setup, s: State, i: nat, j: nat): int {
    3 * (Length(su) - i) + 3 * (Length(su) - j) + |s.cBuf| + |s.sBuf|
    + (if s.client == CDone then 0 else 1) + (if s.server == SDone then 0 else 1)
  }

  lemma InitAt(su: Setup)
    requires su.Valid()
    ensures At(su, INIT, 0, 0)
  {
  }

  lemma ClientPut(su: Setup, s: State, i: nat, j: nat)
    requires At(su, s, i, j) && Enabled(su, s, ClientMoves) && ClientAct(su, s.client).Put?
    ensures i < Length(su) && At(su, ClientStep(su, s), i + 1, j)
    ensures Left(su, ClientStep(su, s), i + 1, j) < Left(su, s, i, j)
  {
    assert i < Length(su);
    ClientFollows(su, i);
    assert LineAt(su, i).fromClient;
    assert j <= i;
    var m := LineAt(su, i).msg;
    assert Msgs(su, j, i + 1) == Msgs(su, j, i) + [m];
    var t := ClientStep(su, s);
    assert t.c2s + t.cBuf == (s.c2s + s.cBuf) + [m];
    assert s.sGot + ((s.c2s + s.cBuf) + [m]) == (s.sGot + (s.c2s + s.cBuf)) + [m];
  }

  lemma ServerPut(su: Setup, s: State, i: nat, j: nat)
    requires At(su, s, i, j) && Enabled(su, s, ServerMoves) && ServerAct(su, s.server).Put?
    ensures j < Length(su) && At(su, ServerStep(su, s), i, j + 1)
    ensures Left(su, ServerStep(su, s), i, j + 1) < Left(su, s, i, j)
  {
    assert j < Length(su);
    ServerFollows(su, j);
    assert !LineAt(su, j).fromClient;
    assert i <= j;
    var m := LineAt(su, j).msg;
    assert Msgs(su, i, j + 1) == Msgs(su, i, j) + [m];
    var t := ServerStep(su, s);
    assert t.s2c + t.sBuf == (s.s2c + s.sBuf) + [m];
    assert s.cGot + ((s.s2c + s.sBuf) + [m]) == (s.cGot + (s.s2c + s.sBuf)) + [m];
  }

  /** Taking the first message in flight. */
  lemma FirstInFlight(channel: seq<Msg>, buf: seq<Msg>, got: seq<Msg>)
    requires channel != []
    ensures channel + buf == [channel[0]] + (channel[1..] + buf)
    ensures got + (channel + buf) == (got + [channel[0]]) + (channel[1..] + buf)
  {
    assert channel == [channel[0]] + channel[1..];
  }

  lemma ClientGet(su: Setup, s: State, i: nat, j: nat)
    requires At(su, s, i, j) && Enabled(su, s, ClientMoves) && ClientAct(su, s.client).Get?
    ensures i < j && At(su, ClientStep(su, s), i + 1, j)
    ensures Left(su, ClientStep(su, s), i + 1, j) < Left(su, s, i, j)
  {
    assert i < j;
    ClientFollows(su, i);
    MsgsFirst(su, i, j);
    FirstInFlight(s.s2c, s.sBuf, s.cGot);
    var t := ClientStep(su, s);
    assert Msgs(su, i, j)[0] == s.s2c[0];
    assert t.s2c + t.sBuf == (s.s2c + s.sBuf)[1..] == Msgs(su, i + 1, j);
  }

  lemma ServerGet(su: Setup, s: State, i: nat, j: nat)
    requires At(su, s, i, j) && Enabled(su, s, ServerMoves) && ServerAct(su, s.server).Get?
    ensures j < i && At(su, ServerStep(su, s), i, j + 1)
    ensures Left(su, ServerStep(su, s), i, j + 1) < Left(su, s, i, j)
  {
    assert j < i;
    ServerFollows(su, j);
    MsgsFirst(su, j, i);
    FirstInFlight(s.c2s, s.cBuf, s.sGot);
    var t := ServerStep(su, s);
    assert Msgs(su, j, i)[0] == s.c2s[0];
    assert t.c2s + t.cBuf == (s.c2s + s.cBuf)[1..] == Msgs(su, j + 1, i);
  }

  lemma ClientFinish(su: Setup, s: State, i: nat, j: nat)
    requires At(su, s, i, j) && Enabled(su, s, ClientMoves) && ClientAct(su, s.client).Finish?
    ensures At(su, ClientStep(su, s), i, j) && Left(su, ClientStep(su, s), i, j) < Left(su, s, i, j)
  {
  }

  lemma ServerFinish(su: Setup, s: State, i: nat, j: nat)
    requires At(su, s, i, j) && Enabled(su, s, ServerMoves) && ServerAct(su, s.server).Finish?
    ensures At(su, ServerStep(su, s), i, j) && Left(su, ServerStep(su, s), i, j) < Left(su, s, i, j)
  {
  }

  /** Moving the first buffered message to the channel. */
  lemma {:induction false} MoveFirst(channel: seq<Msg>, buf: seq<Msg>)
    requires buf != []
    ensures (channel + [buf[0]]) + buf[1..] == channel + buf
  {
    assert buf == [buf[0]] + buf[1..];
  }

  lemma ClientFlush(su: Setup, s: State, i: nat, j: nat)
    requires At(su, s, i, j) && Enabled(su, s, ClientFlushes)
    ensures var t := Step(su, s, ClientFlushes); At(su, t, i, j) && Left(su, t, i, j) < Left(su, s, i, j)
  {
    MoveFirst(s.c2s, s.cBuf);
  }

  lemma ServerFlush(su: Setup, s: State, i: nat, j: nat)
    requires At(su, s, i, j) && Enabled(su, s, ServerFlushes)
    ensures var t := Step(su, s, ServerFlushes); At(su, t, i, j) && Left(su, t, i, j) < Left(su, s, i, j)
  {
    MoveFirst(s.s2c, s.sBuf);
  }

  lemma ClientMove(su: Setup, s: State, i: nat, j: nat) returns (i': nat)
    requires At(su, s, i, j) && Enabled(su, s, ClientMoves)
    ensures At(su, ClientStep(su, s), i', j) && Left(su, ClientStep(su, s), i', j) < Left(su, s, i, j)
  {
    match ClientAct(su, s.client) {
      case Put(_, _) =>
        ClientPut(su, s, i, j);
        i' := i + 1;
      case Get =>
        ClientGet(su, s, i, j);
        i' := i + 1;
      case _ =>
        ClientFinish(su, s, i, j);
        i' := i;
    }
  }

  lemma ServerMove(su: Setup, s: State, i: nat, j: nat) returns (j': nat)
    requires At(su, s, i, j) && Enabled(su, s, ServerMoves)
    ensures At(su, ServerStep(su, s), i, j') && Left(su, ServerStep(su, s), i, j') < Left(su, s, i, j)
  {
    match ServerAct(su, s.server) {
      case Put(_, _) =>
        ServerPut(su, s, i, j);
        j' := j + 1;
      case Get =>
        ServerGet(su, s, i, j);
        j' := j + 1;
      case _ =>
        ServerFinish(su, s, i, j);
        j' := j;
    }
  }

  /** Every step keeps the invariant and leaves less to do. */
  lemma StepAt(su: Setup, s: State, i: nat, j: nat, ev: Event) returns (i': nat, j': nat)
    requires At(su, s, i, j) && Enabled(su, s, ev)
    ensures At(su, Step(su, s, ev), i', j') && Left(su, Step(su, s, ev), i', j') < Left(su, s, i, j)
  {
    i', j' := i, j;
    match ev
    case ClientMoves => i' := ClientMove(su, s, i, j);
    case ServerMoves => j' := ServerMove(su, s, i, j);
    case ClientFlushes => ClientFlush(su, s, i, j);
    case ServerFlushes => ServerFlush(su, s, i, j);
  }

  /** Over every run the invariant holds, and the run is no longer than what there
      was to do. */
  lemma {:induction false} RunsAt(su: Setup, s: State, i: nat, j: nat, evs: seq<Event>, t: State) returns (i': nat,
                                  j': nat)
    requires At(su, s, i, j) && Runs(su, s, evs, t)
    ensures At(su, t, i', j') && |evs| + Left(su, t, i', j') <= Left(su, s, i, j)
    decreases |evs|
  {
    if evs == [] {
      i', j' := i, j;
    } else {
      i', j' := StepAt(su, s, i, j, evs[0]);
      i', j' := RunsAt(su, Step(su, s, evs[0]), i', j', evs[1..], t);
    }
  }

  // ----------------------------------------------------------------------- the results

  /** When the server is behind, its next message is in the channel, or the client
      still holds it and either goes on writing or flushes. */
  lemma ServerBehind(su: Setup, s: State, i: nat, j: nat)
    requires At(su, s, i, j) && j < i
    ensures Enabled(su, s, ServerMoves) || Enabled(su, s, ClientFlushes) || Enabled(su, s, ClientMoves)
  {
    MsgsFirst(su, j, i);
    ServerFollows(su, j);
    if s.c2s == [] {
      if i < Length(su) {
        ClientFollows(su, i);
      }
    }
  }

  lemma ClientBehind(su: Setup, s: State, i: nat, j: nat)
    requires At(su, s, i, j) && i < j
    ensures Enabled(su, s, ClientMoves) || Enabled(su, s, ServerFlushes) || Enabled(su, s, ServerMoves)
  {
    MsgsFirst(su, i, j);
    ClientFollows(su, i);
    if s.s2c == [] {
      if j < Length(su) {
        ServerFollows(su, j);
      }
    }
  }

  /** When both are before the same line, the one that speaks it can. */
  lemma EvenCanMove(su: Setup, s: State, i: nat)
    requires At(su, s, i, i) && i < Length(su)
    ensures Enabled(su, s, ClientMoves) || Enabled(su, s, ServerMoves)
  {
    ClientFollows(su, i);
    ServerFollows(su, i);
  }

  lemma EndCanFinish(su: Setup, s: State)
    requires At(su, s, Length(su), Length(su)) && su.Serves()
    ensures s.client == CDone || Enabled(su, s, ClientMoves)
    ensures s.server == SDone || Enabled(su, s, ServerMoves)
  {
  }

  /** Nobody waits for a message that sits in a buffer, and never both wait: a
      state without a next step is the end of the dialogue. */
  lemma StuckAtEnd(su: Setup, s: State, i: nat, j: nat)
    requires At(su, s, i, j) && Stuck(su, s)
    ensures i == j == Length(su)
    ensures su.Serves() ==> s.client == CDone && s.server == SDone
  {
    if j < i {
      ServerBehind(su, s, i, j);
    } else if i < j {
      ClientBehind(su, s, i, j);
    } else if i < Length(su) {
      EvenCanMove(su, s, i);
    } else if su.Serves() {
      EndCanFinish(su, s);
    }
  }

  /** Every run is finite, and a run that cannot go on has consumed every message
      ever written: nothing is left in a buffer or a channel. It has finished on
      both sides if the server serves the request, and otherwise has the server
      failed and the client waiting for its echo. */
  lemma SessionCompletes(su: Setup, evs: seq<Event>, t: State)
    requires su.Valid() && Runs(su, INIT, evs, t)
    ensures |evs| <= 6 * Length(su) + 2
    ensures Stuck(su, t) ==>
      && t.cBuf == [] && t.c2s == [] && t.sBuf == [] && t.s2c == []
      && t.sGot == t.cSent && t.cGot == t.sSent
      && (if su.Serves() then t.client == CDone && t.server == SDone else t.client == CEcho && t.server == SFailed)
  {
    InitAt(su);
    var i, j := RunsAt(su, INIT, 0, 0, evs, t);
    if Stuck(su, t) {
      StuckAtEnd(su, t, i, j);
      assert t.sGot + [] == t.sGot && t.cGot + [] == t.cGot;
    }
  }

  /** No reachable state has both sides blocked on a read before the dialogue is
      over. */
  lemma NoMutualWait(su: Setup, evs: seq<Event>, t: State)
    requires su.Valid() && Runs(su, INIT, evs, t)
    requires ClientAct(su, t.client).Get? && ServerAct(su, t.server).Get?
    ensures !Stuck(su, t)
  {
    InitAt(su);
    var i, j := RunsAt(su, INIT, 0, 0, evs, t);
    if Stuck(su, t) {
      StuckAtEnd(su, t, i, j);
    }
  }

  /** Neither side ever meets a message it does not expect, unless the server
      refuses the transfer. */
  lemma NoFailure(su: Setup, evs: seq<Event>, t: State)
    requires su.Valid() && Runs(su, INIT, evs, t)
    ensures t.client != CFailed && (su.Serves() ==> t.server != SFailed)
  {
    InitAt(su);
    var i, j := RunsAt(su, INIT, 0, 0, evs, t);
    LinesDoNotFail(su, i, j);
  }

  lemma LinesDoNotFail(su: Setup, i: nat, j: nat)
    requires i <= Length(su) && j <= Length(su)
    ensures ClientAt(su, i) != CFailed && (su.Serves() ==> ServerAt(su, j) != SFailed)
  {
  }

  /** Once the client has closed the connection, the server has nothing left to
      write; what it still reads was flushed before the close. */
  lemma NoWriteAfterClose(su: Setup, evs: seq<Event>, t: State)
    requires su.Valid() && Runs(su, INIT, evs, t) && t.client == CDone
    ensures t.cBuf == [] && t.s2c == [] && t.sBuf == [] && !ServerAct(su, t.server).Put?
  {
    InitAt(su);
    var i, j := RunsAt(su, INIT, 0, 0, evs, t);
    ClientOnlyDoneAtEnd(su, t, i, j);
    if j < Length(su) {
      ServerFollows(su, j);
    }
  }

  lemma ClientOnlyDoneAtEnd(su: Setup, s: State, i: nat, j: nat)
    requires At(su, s, i, j) && s.client == CDone
    ensures i == Length(su) && s.cBuf == [] && Msgs(su, i, j) == []
  {
  }
}
