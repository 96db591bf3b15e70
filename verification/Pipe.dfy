/** The bounded in-memory pipe (pipe.go): one writer and one reader over a buffer
    of limited capacity, each waiting under a lock for the other.

    The lock makes every pass of a wait loop one atomic step, and the properties
    hold over every interleaving of steps. A side that has to wait sleeps until the
    other broadcasts; that it is then always woken is proved, so that first the
    steps can be studied without the sleeping.
 */
module Pipe {
  import opened Bytes

  /** The shared buffer, and what the two sides have got through so far. */
  datatype State = State(
    buf: seq<byte>, closed: bool,
    pending: seq<byte>,    // what the current Write call has still to place
    accepted: seq<byte>,   // every byte placed in the buffer
    delivered: seq<byte>,  // every byte a Read call has returned
    eof: bool,             // a Read call has returned io.EOF
    broken: bool)          // a Write call has returned io.ErrClosedPipe

  const START: State := State([], false, [], [], [], false, false)

  datatype Event = BeginWrite(p: seq<byte>) | WritePass | ReadPass(n: nat) | Close

  predicate WriterWaits(cap: nat, s: State) {
    s.pending != [] && |s.buf| >= cap && !s.closed
  }

  predicate ReaderWaits(s: State) {
    s.buf == [] && !s.closed
  }

  /** Whether an event can happen: a writer has one call at a time, and a side
      that waits takes no pass. */
  predicate Enabled(cap: nat, s: State, ev: Event) {
    match ev
    case BeginWrite(p) => s.pending == []
    case WritePass => s.pending != [] && !WriterWaits(cap, s)
    case ReadPass(n) => !ReaderWaits(s)
    case Close => true
  }

  /** One pass of the writer's loop: as much as fits. */
  function WriteSome(cap: nat, s: State): State
    requires s.pending != [] && !WriterWaits(cap, s)
  {
    if s.closed then s.(pending := [], broken := true)
    else
      var n := Min(|s.pending|, cap - |s.buf|);
      s.(buf := s.buf + s.pending[..n], accepted := s.accepted + s.pending[..n], pending := s.pending[n..])
  }

  /** A read: up to n bytes, or the end of a closed and drained pipe. */
  function ReadSome(s: State, n: nat): State
    requires !ReaderWaits(s)
  {
    if s.buf == [] then s.(eof := true)
    else
      var m := Min(n, |s.buf|);
      s.(delivered := s.delivered + s.buf[..m], buf := s.buf[m..])
  }

  function Apply(cap: nat, s: State, ev: Event): State
    requires Enabled(cap, s, ev)
  {
    match ev
    case BeginWrite(p) => s.(pending := p)
    case WritePass => WriteSome(cap, s)
    case ReadPass(n) => ReadSome(s, n)
    case Close => s.(closed := true)
  }

  /** The events happen one after another from s and lead to t. */
  ghost predicate Runs(cap: nat, s: State, evs: seq<Event>, t: State)
    decreases |evs|
  {
    if evs == [] then s == t
    else Enabled(cap, s, evs[0]) && Runs(cap, Apply(cap, s, evs[0]), evs[1..], t)
  }

  // ------------------------------------------------------------------------ safety

  /** First in, first out; within capacity; end of file only when drained. */
  predicate Inv(cap: nat, s: State) {
    && s.delivered + s.buf == s.accepted
    && |s.buf| <= cap
    && (s.eof ==> s.closed && s.buf == [])
    && (s.broken ==> s.closed)
  }

  lemma InvKept(cap: nat, s: State, ev: Event)
    requires Inv(cap, s) && Enabled(cap, s, ev)
    ensures Inv(cap, Apply(cap, s, ev))
    ensures s.closed ==> Apply(cap, s, ev).accepted == s.accepted
  {
    match ev
    case BeginWrite(p) =>
    case Close =>
    case WritePass =>
      if !s.closed {
        var n := Min(|s.pending|, cap - |s.buf|);
        Assoc(s.delivered, s.buf, s.pending[..n]);
      }
    case ReadPass(n) =>
      var m := Min(n, |s.buf|);
      Assoc(s.delivered, s.buf[..m], s.buf[m..]);
      assert s.buf == s.buf[..m] + s.buf[m..];
  }

  /** Over every run: the bytes delivered, followed by those buffered, are the
      bytes accepted; the capacity is never exceeded; and end of file is seen
      only after every accepted byte was delivered. */
  lemma {:induction false} RunsKeepInv(cap: nat, s: State, evs: seq<Event>, t: State)
    requires Inv(cap, s) && Runs(cap, s, evs, t)
    ensures Inv(cap, t) && (t.eof ==> t.delivered == t.accepted)
    ensures s.closed ==> t.accepted == s.accepted
    decreases |evs|
  {
    if evs == [] {
      assert t.delivered + [] == t.delivered;
    } else {
      InvKept(cap, s, evs[0]);
      RunsKeepInv(cap, Apply(cap, s, evs[0]), evs[1..], t);
    }
  }

  /** A new pipe, over every run of its writer and its reader. */
  lemma PipeIsFifo(cap: nat, evs: seq<Event>, t: State)
    requires Runs(cap, START, evs, t)
    ensures t.delivered + t.buf == t.accepted && |t.buf| <= cap
    ensures t.eof ==> t.closed && t.delivered == t.accepted
  {
    assert START.delivered + START.buf == START.accepted;
    RunsKeepInv(cap, START, evs, t);
  }

  // ---------------------------------------------------------------------- progress

  /** The two sides never wait for each other. */
  lemma NeverBothWait(cap: nat, s: State)
    requires cap > 0
    ensures !(WriterWaits(cap, s) && ReaderWaits(s))
  {
  }

  /** A pass of the writer, or a read that asks for something. */
  predicate Moving(ev: Event) {
    ev.WritePass? || (ev.ReadPass? && ev.n > 0)
  }

  /** What is left to do: a byte still to be placed has two moves before it. */
  function Left(s: State): nat {
    2 * |s.pending| + |s.buf|
  }

  /** Everything that was or will be delivered, in order. */
  function Flow(s: State): seq<byte> {
    s.delivered + (s.buf + s.pending)
  }

  /** Every such pass of an open pipe keeps the stream and leaves less to do. */
  lemma PassMoves(cap: nat, s: State, ev: Event)
    requires Inv(cap, s) && !s.closed && Enabled(cap, s, ev) && Moving(ev)
    ensures var t := Apply(cap, s, ev); Inv(cap, t) && !t.closed && Flow(t) == Flow(s) && Left(t) < Left(s)
  {
    InvKept(cap, s, ev);
    match ev
    case WritePass =>
      var n := Min(|s.pending|, cap - |s.buf|);
      assert s.pending == s.pending[..n] + s.pending[n..];
      Assoc(s.buf, s.pending[..n], s.pending[n..]);
    case ReadPass(k) =>
      var m := Min(k, |s.buf|);
      assert s.buf == s.buf[..m] + s.buf[m..];
      Assoc(s.buf[..m], s.buf[m..], s.pending);
      Assoc(s.delivered, s.buf[..m], s.buf[m..] + s.pending);
  }

  /** However the passes of writer and reader are scheduled, and however little
      each read takes, there are only so many of them, and when neither side has
      a pass left the whole write, whatever its size, has been delivered. */
  lemma {:induction false} WriteCompletes(cap: nat, s: State, evs: seq<Event>, t: State)
    requires cap > 0 && Inv(cap, s) && !s.closed && Runs(cap, s, evs, t)
    requires forall i :: 0 <= i < |evs| ==> Moving(evs[i])
    ensures |evs| + Left(t) <= Left(s)
    ensures !Enabled(cap, t, WritePass) && !Enabled(cap, t, ReadPass(1)) ==>
      t.pending == [] && t.buf == [] && t.delivered == s.delivered + (s.buf + s.pending)
    decreases |evs|
  {
    if evs != [] {
      PassMoves(cap, s, evs[0]);
      WriteCompletes(cap, Apply(cap, s, evs[0]), evs[1..], t);
    } else if t.pending == [] && t.buf == [] {
      assert t.delivered + ([] + []) == t.delivered;
    }
  }

  // ---------------------------------------------------------------------- wake-ups

  datatype Side = Writer | Reader

  /** The pipe and the sides asleep in cond.Wait. */
  datatype Monitor = Monitor(pipe: State, asleep: set<Side>)

  /** A step of the pipe, or a side that has to wait falling asleep. A side that was
      woken looks at its condition again, and may fall asleep again. */
  datatype Move = Do(ev: Event) | Sleep(side: Side)

  predicate Waits(cap: nat, s: State, side: Side) {
    match side
    case Writer => WriterWaits(cap, s)
    case Reader => ReaderWaits(s)
  }

  /** The side that takes the step; Close belongs to neither. */
  predicate Takes(side: Side, ev: Event) {
    match side
    case Writer => ev.BeginWrite? || ev.WritePass?
    case Reader => ev.ReadPass?
  }

  predicate Possible(cap: nat, m: Monitor, mv: Move) {
    match mv
    case Do(ev) => Enabled(cap, m.pipe, ev) && forall side :: side in m.asleep ==> !Takes(side, ev)
    case Sleep(side) => Waits(cap, m.pipe, side) && side !in m.asleep
  }

  /** The steps that call Broadcast: passes that move data, and the first Close. */
  predicate Broadcasts(s: State, ev: Event) {
    match ev
    case BeginWrite(_) => false
    case WritePass => !s.closed
    case ReadPass(_) => s.buf != []
    case Close => !s.closed
  }

  /** Who is still asleep after a step. */
  function Asleep(s: State, ev: Event, asleep: set<Side>): set<Side> {
    if Broadcasts(s, ev) then {} else asleep
  }

  function Next(cap: nat, m: Monitor, mv: Move): Monitor
    requires Possible(cap, m, mv)
  {
    match mv
    case Do(ev) => Monitor(Apply(cap, m.pipe, ev), Asleep(m.pipe, ev, m.asleep))
    case Sleep(side) => m.(asleep := m.asleep + {side})
  }

  ghost predicate Happens(cap: nat, m: Monitor, mvs: seq<Move>, n: Monitor)
    decreases |mvs|
  {
    if mvs == [] then m == n
    else Possible(cap, m, mvs[0]) && Happens(cap, Next(cap, m, mvs[0]), mvs[1..], n)
  }

  /** Whoever sleeps still has to wait. */
  predicate NoneMissed(cap: nat, m: Monitor) {
    forall side :: side in m.asleep ==> Waits(cap, m.pipe, side)
  }

  lemma {:induction false} NoneMissedKept(cap: nat, m: Monitor, mv: Move)
    requires NoneMissed(cap, m) && Possible(cap, m, mv)
    ensures NoneMissed(cap, Next(cap, m, mv))
  {
    if mv.Do? && !Broadcasts(m.pipe, mv.ev) {
      forall side | side in m.asleep ensures Waits(cap, Apply(cap, m.pipe, mv.ev), side) {
        assert Waits(cap, m.pipe, side) && !Takes(side, mv.ev);
      }
    }
  }

  /** No wake-up is lost: over every run, a side that sleeps is one that still has to
      wait, so sleeping never keeps anyone from a step the pipe allows, and the two
      sides never both sleep. */
  lemma {:induction false} NoLostWakeUp(cap: nat, m: Monitor, mvs: seq<Move>, n: Monitor)
    requires NoneMissed(cap, m) && Happens(cap, m, mvs, n)
    ensures NoneMissed(cap, n)
    ensures forall ev :: Enabled(cap, n.pipe, ev) <==> Possible(cap, n, Do(ev))
    ensures cap > 0 ==> !(Writer in n.asleep && Reader in n.asleep)
    decreases |mvs|
  {
    if mvs != [] {
      NoneMissedKept(cap, m, mvs[0]);
      NoLostWakeUp(cap, Next(cap, m, mvs[0]), mvs[1..], n);
    } else {
      forall ev ensures Enabled(cap, n.pipe, ev) <==> Possible(cap, n, Do(ev)) {
        SleeperCannot(cap, n, ev);
      }
      if cap > 0 {
        NeverBothWait(cap, n.pipe);
      }
    }
  }

  lemma {:induction false} SleeperCannot(cap: nat, m: Monitor, ev: Event)
    requires NoneMissed(cap, m)
    ensures Enabled(cap, m.pipe, ev) ==> Possible(cap, m, Do(ev))
  {
    forall side | side in m.asleep && Enabled(cap, m.pipe, ev) ensures !Takes(side, ev) {
      assert Waits(cap, m.pipe, side);
    }
  }

  /** The steps of a run without the sleeping. */
  function Steps(mvs: seq<Move>): seq<Event> {
    if mvs == [] then []
    else (if mvs[0].Do? then [mvs[0].ev] else []) + Steps(mvs[1..])
  }

  /** What holds over the runs of the pipe holds with the sleeping as well. */
  lemma {:induction false} SleepChangesNothing(cap: nat, m: Monitor, mvs: seq<Move>, n: Monitor)
    requires Happens(cap, m, mvs, n)
    ensures Runs(cap, m.pipe, Steps(mvs), n.pipe)
    decreases |mvs|
  {
    if mvs != [] {
      SleepChangesNothing(cap, Next(cap, m, mvs[0]), mvs[1..], n);
      if mvs[0].Do? {
        assert ([mvs[0].ev] + Steps(mvs[1..]))[1..] == Steps(mvs[1..]);
      } else {
        assert [] + Steps(mvs[1..]) == Steps(mvs[1..]);
      }
    }
  }

  /** A pass that moves, or a side falling asleep. */
  predicate Working(mv: Move) {
    mv.Do? ==> Moving(mv.ev)
  }

  /** What is left to do, with the falling asleep. */
  function Effort(m: Monitor): nat {
    3 * Left(m.pipe) + (if Writer in m.asleep then 0 else 1) + (if Reader in m.asleep then 0 else 1)
  }

  /** An open pipe in order, with no wake-up missed. */
  predicate Sound(cap: nat, m: Monitor) {
    Inv(cap, m.pipe) && !m.pipe.closed && NoneMissed(cap, m)
  }

  lemma {:induction false} MoveWorks(cap: nat, m: Monitor, mv: Move)
    requires Sound(cap, m) && Possible(cap, m, mv) && Working(mv)
    ensures var n := Next(cap, m, mv);
      Sound(cap, n) && Flow(n.pipe) == Flow(m.pipe) && Effort(n) < Effort(m)
  {
    NoneMissedKept(cap, m, mv);
    if mv.Do? {
      PassMoves(cap, m.pipe, mv.ev);
    }
  }

  /** However passes and sleeps are scheduled there are only so many of them, and when
      no pass is possible any more, for a side that is awake, the whole write has been
      delivered: nobody sleeps on while there is something to do. */
  lemma {:induction false} SleepersComplete(cap: nat, m: Monitor, mvs: seq<Move>, n: Monitor)
    requires cap > 0 && Sound(cap, m) && Happens(cap, m, mvs, n)
    requires forall i :: 0 <= i < |mvs| ==> Working(mvs[i])
    ensures |mvs| + Effort(n) <= Effort(m)
    ensures !Possible(cap, n, Do(WritePass)) && !Possible(cap, n, Do(ReadPass(1))) ==>
      n.pipe.pending == [] && n.pipe.buf == [] && n.pipe.delivered == Flow(m.pipe)
    decreases |mvs|
  {
    if mvs != [] {
      MoveWorks(cap, m, mvs[0]);
      SleepersComplete(cap, Next(cap, m, mvs[0]), mvs[1..], n);
    } else {
      SleeperCannot(cap, n, WritePass);
      SleeperCannot(cap, n, ReadPass(1));
      if n.pipe.pending == [] && n.pipe.buf == [] {
        assert n.pipe.delivered + ([] + []) == n.pipe.delivered;
      }
    }
  }

  // -------------------------------------------------------------------- the monitor

  datatype Outcome = Waiting | Moved(n: nat) | Ended

  class PipeBuf {
    var buf: seq<byte>
    var closed: bool
    var asleep: set<Side>  // the waiters of the condition variable
    const cap: nat

    constructor (cap: nat)
      ensures this.cap == cap && buf == [] && !closed && asleep == {}
    {
      this.cap, buf, closed, asleep := cap, [], false, {};
    }

    /** One pass of Write's loop over the rest p of its argument. */
    method WriteOnce(p: seq<byte>) returns (r: Outcome)
      requires p != [] && |buf| <= cap
      modifies this
      ensures closed == old(closed) && |buf| <= cap
      ensures var s := State(old(buf), old(closed), p, [], [], false, false);
        if WriterWaits(cap, s) then r == Waiting && buf == old(buf) && asleep == old(asleep) + {Writer}
        else
          && asleep == Asleep(s, WritePass, old(asleep))
          && if closed then r == Ended && buf == old(buf)
             else r.Moved? && r.n <= |p| && buf == WriteSome(cap, s).buf && p[r.n..] == WriteSome(cap, s).pending
    {
      if |buf| >= cap && !closed {
        asleep := asleep + {Writer};
        return Waiting;
      }
      if closed {
        return Ended;
      }
      var space := cap - |buf|;
      var n := |p|;
      if n > space {
        n := space;
      }
      buf := buf + p[..n];
      asleep := {};
      return Moved(n);
    }

    method ReadOnce(n: nat) returns (r: Outcome, data: seq<byte>)
      modifies this
      ensures closed == old(closed)
      ensures var s := State(old(buf), old(closed), [], [], [], false, false);
        if ReaderWaits(s) then r == Waiting && buf == old(buf) && asleep == old(asleep) + {Reader}
        else
          && asleep == Asleep(s, ReadPass(n), old(asleep))
          && if old(buf) == [] then r == Ended && buf == [] && ReadSome(s, n).eof
             else r == Moved(|data|) && buf == ReadSome(s, n).buf && data == ReadSome(s, n).delivered
    {
      data := [];
      if buf == [] && !closed {
        asleep := asleep + {Reader};
        return Waiting, data;
      }
      if buf == [] {
        return Ended, data;
      }
      var m := Min(n, |buf|);
      data := buf[..m];
      buf := buf[m..];
      asleep := {};
      return Moved(m), data;
    }

    method Close()
      modifies this
      ensures closed && buf == old(buf) && asleep == if old(closed) then old(asleep) else {}
    {
      if closed {
        return;
      }
      closed, asleep := true, {};
    }
  }
}
