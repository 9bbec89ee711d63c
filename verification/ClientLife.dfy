/** How the WebSocket client lives and ends: silence is noticed, losses are repaired, and it
    closes for exactly four reasons.  Each is about every event at every state of a run. */
module ClientLife {
  import opened Wrappers
  import opened ClientModel

  // ---- Silence ----

  /** The current socket of an open client. */
  predicate Current(c: Conn, sock: nat) {
    !c.closed && c.ws == Some(sock) && sock < |c.sockets|
  }

  /** The socket whose watchdog found it already closing: its close event is still to come. */
  function Lapses(c: Conn, e: Event): set<nat> {
    if e.WatchdogFires? && !e.open && c.watchdog.Some? then {c.watchdog.value} else {}
  }

  function Lapsed(c: Conn, es: seq<Event>): set<nat>
    decreases |es|
  {
    if es == [] || !Enabled(c, es[0]) then {} else Lapses(c, es[0]) + Lapsed(Apply(c, es[0]), es[1..])
  }

  /** An established current socket is watched by its own watchdog. */
  predicate Watched(c: Conn, lapsed: set<nat>) {
    !c.closed && c.ws.Some? && c.ws.value < |c.sockets| && c.sockets[c.ws.value].established && c.ws.value !in lapsed ==> c.watchdog == c.ws
  }

  lemma StepKeepsWatched(c: Conn, e: Event, lapsed: set<nat>)
    requires Live(c) && Watched(c, lapsed) && Enabled(c, e)
    ensures Watched(Apply(c, e), lapsed + Lapses(c, e))
  {
    hide FateOf, BookFrame, ReviseFrame, Advance;
  }

  lemma {:induction false} RunKeepsWatched(c: Conn, es: seq<Event>, lapsed: set<nat>, c': Conn)
    requires Live(c) && Watched(c, lapsed) && Leads(c, es, c')
    ensures Watched(c', lapsed + Lapsed(c, es))
    decreases |es|
  {
    hide Live, Watched, Apply, Lapses, Enabled;
    if es == [] {
      assert lapsed + {} == lapsed;
    } else {
      StepKeepsLive(c, es[0]);
      StepKeepsWatched(c, es[0], lapsed);
      RunKeepsWatched(Apply(c, es[0]), es[1..], lapsed + Lapses(c, es[0]), c');
      assert lapsed + Lapses(c, es[0]) + Lapsed(Apply(c, es[0]), es[1..]) == lapsed + (Lapses(c, es[0]) + Lapsed(Apply(c, es[0]), es[1..]));
    }
  }

  /** Over every run: the established current socket of an open client has its watchdog armed,
      unless that fired when the socket was already closing; and when it fires on an open
      socket, the socket is given up and the reconnect timer is armed. */
  lemma SilenceIsNoticed(since: int, sinceRev: int, maxUnacked: nat, es: seq<Event>, c: Conn, sock: nat)
    requires Leads(Init(since, sinceRev, maxUnacked), es, c) && Current(c, sock) && c.sockets[sock].established
    requires sock !in Lapsed(Init(since, sinceRev, maxUnacked), es)
    ensures c.watchdog == Some(sock)
    ensures var c' := Apply(c, WatchdogFires(true));
            && c'.ws == None && c'.timer && c'.watchdog == None && !c'.closed
            && c' == c.(ws := None, timer := true, watchdog := None, attempt := c.attempt + 1)
  {
    var c0 := Init(since, sinceRev, maxUnacked);
    RunKeepsWatched(c0, es, {}, c);
    NeverLiveButDeaf(c0, es, c);
  }

  // ---- Losses ----

  /** The current socket is gone, or could not be made, and no fatal answer says why. */
  predicate Lost(c: Conn, e: Event) {
    match e
    case SocketClosed(sock, code, _) => c.ws == Some(sock) && code != 1008 && sock < |c.sockets| && c.sockets[sock].established
    case WatchdogFires(open) => open && c.ws.Some? && c.ws == c.watchdog
    case TimerFires(constructs) => !constructs
    case ProbeReturns(result) => result.Transient?
    case _ => false
  }

  /** An open client arms its reconnect timer exactly at a loss, one attempt later each time;
      a frame other than a pong on the current socket sets the count back; a socket that closes
      before it was established is looked into by a probe; and the timer opens a new socket. */
  lemma LossesAreRepaired(c: Conn, e: Event)
    requires Live(c) && Enabled(c, e) && !c.closed && !Apply(c, e).closed
    ensures var c' := Apply(c, e);
            && (c'.timer <==> Lost(c, e) || (c.timer && !e.TimerFires?))
            && c'.attempt == (if Lost(c, e) then c.attempt + 1
                              else if e.Received? && c.ws == Some(e.sock) && !e.frame.Pong? then 0 else c.attempt)
            && (c'.probes > 0 <==> (c.probes > 0 && !e.ProbeReturns?)
                                   || (e.SocketClosed? && c.ws == Some(e.sock) && e.code != 1008 && !c.sockets[e.sock].established))
            && (c'.ws != c.ws ==> c'.ws == None || (e == TimerFires(true) && c'.ws == Some(|c.sockets|) && c'.sockets == c.sockets + [Socket(false, 0, {})]))
  {
    hide FateOf, BookFrame, ReviseFrame, Advance;
  }

  /** A connection that opens asks for what lies above the cursor at that time. */
  lemma HelloAtCursor(c: Conn, sock: nat)
    requires Current(c, sock)
    ensures Apply(c, Opened(sock)) == c.(sockets := c.sockets[sock := Socket(true, c.book.cursor, {})], watchdog := Some(sock))
  {}

  // ---- The end ----

  /** An ordinary message above the cursor and not delivered yet, for which the book is full. */
  predicate Overflows(c: Conn, e: Event) {
    && e.Received? && c.ws == Some(e.sock) && e.frame.Msg? && !e.frame.revised
    && e.frame.seqNo > c.book.cursor && e.frame.seqNo !in c.book.delivered && |c.book.unacked| >= c.book.max
  }

  /** The server's final word: close code 1008, or a probe with a fatal status. */
  predicate FatalAnswer(c: Conn, e: Event) {
    (e.SocketClosed? && c.ws == Some(e.sock) && e.code == 1008) || (e.ProbeReturns? && e.result.Fatal?)
  }

  function FatalFrames(e: Event): seq<Frame> {
    if e.SocketClosed? && e.fatal.Some? then [e.fatal.value] else if e.ProbeReturns? && e.result.Fatal? then [e.result.frame] else []
  }

  /** An open client closes exactly when the caller closes it, the server answers finally, a
      probe throws, or the book overflows.  Its readers get the fatal frame and then the end
      after a final answer, an error in the last two cases, and the plain end in the first. */
  lemma ClosesExactly(c: Conn, e: Event)
    requires Live(c) && Enabled(c, e) && !c.closed && !c.failed
    ensures var c' := Apply(c, e);
            && (c'.closed <==> e.CloseCall? || FatalAnswer(c, e) || e == ProbeReturns(Failing) || Overflows(c, e))
            && (c'.failed <==> e == ProbeReturns(Failing) || Overflows(c, e))
            && (c'.closed ==> c'.pushed == c.pushed + if FatalAnswer(c, e) then FatalFrames(e) else [])
            && (c'.closed ==> !c'.timer)
  {
    hide BookFrame, ReviseFrame, Advance;
  }

  /** A closed client stays closed: nothing is pushed, opened or armed any more. */
  lemma ClosedIsFinal(c: Conn, e: Event)
    requires Live(c) && Enabled(c, e) && c.closed
    ensures var c' := Apply(c, e);
            && c'.closed && c'.done && c'.failed == c.failed && c'.pushed == c.pushed && c'.sockets == c.sockets && c'.attempt == c.attempt
            && (c'.timer ==> c.timer) && c'.probes <= c.probes && (c'.ws == c.ws || c'.ws == None)
            && (c'.book == c.book || e.Ack?) && c'.revs == c.revs
  {}

  // ---- The revision cursor ----

  /** The revision a frame on the current socket tells of: its own, or after a full sync the
      server's latest. */
  function Told(c: Conn, e: Event): Option<int> {
    if !(e.Received? && Current(c, e.sock)) then None
    else
      match e.frame
      case Msg(_, _, _, revSeq) => revSeq
      case Update(revSeq) => revSeq
      case Welcome(lastRev) => if c.sockets[e.sock].helloSince == 0 then lastRev else None
      case _ => None
  }

  function Max(a: int, b: int): int {
    if a < b then b else a
  }

  function Highest(start: int, c: Conn, es: seq<Event>): int
    decreases |es|
  {
    if es == [] || !Enabled(c, es[0]) then start
    else Highest(if Told(c, es[0]).Some? then Max(start, Told(c, es[0]).value) else start, Apply(c, es[0]), es[1..])
  }

  lemma StepTells(c: Conn, e: Event)
    requires Enabled(c, e)
    ensures Apply(c, e).revs.cursor == if Told(c, e).Some? then Max(c.revs.cursor, Told(c, e).value) else c.revs.cursor
  {
    hide FateOf, BookFrame, Advance;
  }

  /** Over every run the revision cursor is the highest revision told of. */
  lemma {:induction false} RevisionCursorIsHighest(c: Conn, es: seq<Event>, c': Conn)
    requires Leads(c, es, c')
    ensures c'.revs.cursor == Highest(c.revs.cursor, c, es)
    decreases |es|
  {
    hide Apply, Enabled, Told;
    if es != [] {
      StepTells(c, es[0]);
      RevisionCursorIsHighest(Apply(c, es[0]), es[1..], c');
    }
  }
}
