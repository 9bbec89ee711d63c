/** The WebSocket client as a reaction to events: socket open, frame, close, inbound watchdog,
    reconnect timer, probe result, and the caller's ack and close.  Two things are proved of
    every run: it is never live but deaf, and frames are delivered exactly once, in order. */
module ClientModel {
  import opened Wrappers

  /** A parsed server frame, as far as the client looks at it.  `revised` and `mark` are what
      isRevisionSnapshot and revisionFingerprint say of a msg or status frame. */
  datatype Frame =
    | Msg(seqNo: int, revised: bool, mark: string, revSeq: Option<int>)
    | Sent(seqNo: int)
    | Welcome(lastRev: Option<int>)
    | Update(revSeq: Option<int>)
    | Pong
    | Error(code: string)
    | Other

  /** A WebSocket object.  `got` is the history of message seqs that arrived on it since it established. */
  datatype Socket = Socket(established: bool, helloSince: int, got: set<int>)

  datatype Probe = Transient | Fatal(frame: Frame) | Failing

  /** The consumer's cursor and the frames pushed above it, kept until acked. */
  datatype Book = Book(max: int, cursor: int, delivered: set<int>, unacked: map<int, Frame>)

  /** Revision cursor, and the last mark pushed for each revised message. */
  datatype Revisions = Revisions(cursor: int, marks: map<int, string>)

  datatype Conn = Conn(
    book: Book,
    revs: Revisions,
    closed: bool,
    attempt: nat,
    sockets: seq<Socket>,          // every socket ever constructed
    ws: Option<nat>,               // the current one
    timer: bool,                   // reconnect timer armed
    watchdog: Option<nat>,         // inbound watchdog, armed by that socket
    probes: nat,                   // probes in flight
    done: bool,                    // the frame queue was ended or failed
    failed: bool,                  // it was failed: readers get an error
    pushed: seq<Frame>,            // frames pushed to the queue by socket handlers
    refused: set<int>)             // messages that did not fit into the book

  /** After connect returned: the first socket is being opened. */
  function Init(since: int, sinceRev: int, maxUnacked: int): Conn {
    Conn(Book(maxUnacked, since, {}, map[]), Revisions(sinceRev, map[]), false, 0, [Socket(false, 0, {})], Some(0), false, None, 0, false, false, [], {})
  }

  datatype Event =
    | Opened(sock: nat)
    | Received(sock: nat, frame: Frame)
    | SocketClosed(sock: nat, code: int, fatal: Option<Frame>)  // fatal: what fatalCloseFrame makes of the reason
    | WatchdogFires(open: bool)         // readyState of its socket
    | TimerFires(constructs: bool)      // whether `new WebSocket` succeeds
    | ProbeReturns(result: Probe)
    | Ack(seqNo: int)
    | CloseCall

  predicate Enabled(c: Conn, e: Event) {
    match e
    case Opened(sock) => sock < |c.sockets|
    case Received(sock, _) => sock < |c.sockets| && (c.ws == Some(sock) ==> c.sockets[sock].established)
    case SocketClosed(sock, _, fatal) => sock < |c.sockets| && (fatal.Some? ==> fatal.value.Error?)
    case WatchdogFires(_) => c.watchdog.Some?
    case TimerFires(_) => c.timer
    case ProbeReturns(result) => c.probes > 0 && (result.Fatal? ==> result.frame.Error?)
    case Ack(_) => true
    case CloseCall => true
  }

  function Advance(k: Book, seqNo: int): Book {
    var cursor := if seqNo > k.cursor then seqNo else k.cursor;
    Book(k.max, cursor, set s | s in k.delivered && s > cursor,
         map s | s in k.unacked && !(s in k.delivered && s <= cursor) :: k.unacked[s])
  }

  function AdvanceRev(r: Revisions, rev: Option<int>): Revisions {
    if rev.Some? && rev.value > r.cursor then r.(cursor := rev.value) else r
  }

  function ScheduleReconnect(c: Conn): Conn {
    if c.closed || c.timer then c else c.(attempt := c.attempt + 1, timer := true)
  }

  function Push(c: Conn, f: Frame): Conn {
    if c.done then c else c.(pushed := c.pushed + [f])
  }

  /** Whether a frame is pushed, dropped as already seen, or does not fit. */
  datatype Fate = Pushed | Dropped | Overflow

  function FateOf(k: Book, r: Revisions, f: Frame): Fate {
    if !f.Msg? then Pushed
    else if f.revised then (if f.seqNo in r.marks && r.marks[f.seqNo] == f.mark then Dropped else Pushed)
    else if f.seqNo <= k.cursor || f.seqNo in k.delivered then Dropped
    else if |k.unacked| >= k.max then Overflow
    else Pushed
  }

  function BookFrame(k: Book, r: Revisions, f: Frame): Book {
    if f.Sent? then Advance(k, f.seqNo)
    else if f.Msg? && !f.revised && FateOf(k, r, f).Pushed?
    then k.(delivered := k.delivered + {f.seqNo}, unacked := k.unacked[f.seqNo := f])
    else k
  }

  function ReviseFrame(r: Revisions, f: Frame, helloSince: int): Revisions {
    match f
    case Welcome(lastRev) => if helloSince == 0 then AdvanceRev(r, lastRev) else r
    case Update(revSeq) => AdvanceRev(r, revSeq)
    case Msg(seqNo, revised, mark, revSeq) =>
      var r1 := AdvanceRev(r, revSeq);
      if revised then r1.(marks := r1.marks[seqNo := mark]) else r1
    case _ => r
  }

  function OnFrame(c: Conn, sock: nat, f: Frame): Conn
    requires sock < |c.sockets|
  {
    if c.closed || c.ws != Some(sock) then c
    else
      var s := c.sockets[sock];
      var fate := FateOf(c.book, c.revs, f);
      var c1 := c.(watchdog := if fate.Overflow? then None else Some(sock),
                   attempt := if f.Pong? then c.attempt else 0,
                   sockets := if f.Msg? && !f.revised then c.sockets[sock := s.(got := s.got + {f.seqNo})] else c.sockets,
                   book := BookFrame(c.book, c.revs, f),
                   revs := ReviseFrame(c.revs, f, s.helloSince));
      match fate
      case Pushed => Push(c1, f)
      case Dropped => c1
      case Overflow => c1.(closed := true, done := true, failed := true, refused := c1.refused + {f.seqNo})
  }

  function OnClose(c: Conn, sock: nat, code: int, fatal: Option<Frame>): Conn
    requires sock < |c.sockets|
  {
    if c.ws != Some(sock) then c
    else
      var c1 := c.(ws := None, watchdog := None);
      if c.closed then c1.(done := true)
      else if code == 1008 then (if fatal.Some? then Push(c1, fatal.value) else c1).(closed := true, done := true)
      else if !c.sockets[sock].established then c1.(probes := c1.probes + 1)
      else ScheduleReconnect(c1)
  }

  function OnProbed(c: Conn, result: Probe): Conn
    requires c.probes > 0
  {
    var c1 := c.(probes := c.probes - 1);
    if c.closed then c1
    else
      match result
      case Transient => ScheduleReconnect(c1)
      case Fatal(frame) => Push(c1, frame).(closed := true, done := true)
      case Failing => c1.(closed := true, done := true, failed := true)
  }

  function OpenSocket(c: Conn): Conn {
    c.(sockets := c.sockets + [Socket(false, 0, {})], ws := Some(|c.sockets|))
  }

  function Apply(c: Conn, e: Event): Conn
    requires Enabled(c, e)
  {
    match e
    case Opened(sock) =>
      if c.closed || c.ws != Some(sock) then c
      else c.(sockets := c.sockets[sock := Socket(true, c.book.cursor, {})], watchdog := Some(sock))
    case Received(sock, frame) => OnFrame(c, sock, frame)
    case SocketClosed(sock, code, fatal) => OnClose(c, sock, code, fatal)
    case WatchdogFires(open) =>
      var c1 := c.(watchdog := None);
      if c.closed || c.ws != c.watchdog || !open then c1 else ScheduleReconnect(c1.(ws := None))
    case TimerFires(constructs) =>
      var c1 := c.(timer := false);
      if c.closed then c1 else if constructs then OpenSocket(c1) else ScheduleReconnect(c1)
    case ProbeReturns(result) => OnProbed(c, result)
    case Ack(seqNo) => c.(book := Advance(c.book, seqNo))
    case CloseCall => if c.closed then c else c.(closed := true, watchdog := None, timer := false, done := true)
  }

  ghost predicate Leads(c: Conn, es: seq<Event>, c': Conn)
    decreases |es|
  {
    if es == [] then c == c' else Enabled(c, es[0]) && Leads(Apply(c, es[0]), es[1..], c')
  }

  // ---- Never live but deaf; bookkeeping of unacknowledged frames ----

  function Sources(c: Conn): nat {
    (if c.ws.Some? then 1 else 0) + (if c.timer then 1 else 0) + c.probes
  }

  ghost predicate Live(c: Conn) {
    && (c.ws.Some? ==> c.ws.value < |c.sockets|)
    && (!c.closed ==> Sources(c) == 1)
    && (c.closed <==> c.done)
    && (c.watchdog.Some? ==> c.watchdog.value < |c.sockets|)
  }

  ghost predicate Booked(k: Book) {
    && k.delivered == k.unacked.Keys
    && (forall s | s in k.delivered :: s > k.cursor && k.unacked[s].Msg? && k.unacked[s].seqNo == s)
    && |k.unacked.Keys| <= k.max
  }

  lemma AdvanceKeepsBooked(k: Book, seqNo: int)
    requires Booked(k)
    ensures Booked(Advance(k, seqNo))
  {
    var k' := Advance(k, seqNo);
    var dropped := k.unacked.Keys - k'.unacked.Keys;
    assert k.unacked.Keys == k'.unacked.Keys + dropped;
    assert |k'.unacked.Keys| <= |k.unacked.Keys|;
  }

  lemma FrameKeepsBooked(k: Book, r: Revisions, f: Frame)
    requires Booked(k)
    ensures Booked(BookFrame(k, r, f))
    ensures BookFrame(k, r, f).cursor >= k.cursor
    ensures BookFrame(k, r, f).cursor != k.cursor ==> f == Sent(BookFrame(k, r, f).cursor)
  {
    if f.Sent? {
      AdvanceKeepsBooked(k, f.seqNo);
    } else if f.Msg? && !f.revised && FateOf(k, r, f).Pushed? {
      assert k.unacked[f.seqNo := f].Keys == k.unacked.Keys + {f.seqNo};
    }
  }

  /** What a frame does to a live connection's current socket, field by field. */
  lemma OnFrameFields(c: Conn, sock: nat, f: Frame)
    requires sock < |c.sockets|
    ensures var c' := OnFrame(c, sock, f);
            if c.closed || c.ws != Some(sock) then c' == c
            else
              && c'.book == BookFrame(c.book, c.revs, f) && c'.revs == ReviseFrame(c.revs, f, c.sockets[sock].helloSince)
              && c'.ws == c.ws && |c'.sockets| == |c.sockets|
              && c'.closed == FateOf(c.book, c.revs, f).Overflow?
              && c'.pushed == (if FateOf(c.book, c.revs, f).Pushed? && !c.done then c.pushed + [f] else c.pushed)
              && c'.refused == (if FateOf(c.book, c.revs, f).Overflow? then c.refused + {f.seqNo} else c.refused)
              && (forall i | 0 <= i < |c.sockets| && i != sock :: c'.sockets[i] == c.sockets[i])
              && c'.sockets[sock].helloSince == c.sockets[sock].helloSince && c'.sockets[sock].established == c.sockets[sock].established
              && c'.sockets[sock].got == c.sockets[sock].got + if f.Msg? && !f.revised then {f.seqNo} else {}
  {}

  lemma StepKeepsBooked(c: Conn, e: Event)
    requires Booked(c.book) && Enabled(c, e)
    ensures Booked(Apply(c, e).book)
    ensures Apply(c, e).book.cursor >= c.book.cursor && Apply(c, e).revs.cursor >= c.revs.cursor
    ensures Apply(c, e).book.cursor != c.book.cursor ==>
              e == Ack(Apply(c, e).book.cursor) || (e.Received? && e.frame == Sent(Apply(c, e).book.cursor))
  {
    match e
    case Received(sock, frame) =>
      FrameKeepsBooked(c.book, c.revs, frame);
      OnFrameFields(c, sock, frame);
    case Ack(seqNo) => AdvanceKeepsBooked(c.book, seqNo);
    case _ =>
  }

  lemma StepKeepsLive(c: Conn, e: Event)
    requires Live(c) && Enabled(c, e)
    ensures Live(Apply(c, e))
  {}

  /** In every reachable state: a client that is not closed has exactly one of a current
      socket, an armed reconnect timer and a probe in flight; it is closed exactly when its
      queue is done; the frames kept for replay are the delivered ones, all above the cursor
      and within the limit; and the cursor never went back. */
  lemma {:induction false} NeverLiveButDeaf(c: Conn, es: seq<Event>, c': Conn)
    requires Live(c) && Booked(c.book) && Leads(c, es, c')
    ensures Live(c') && Booked(c'.book) && c'.book.cursor >= c.book.cursor && c'.revs.cursor >= c.revs.cursor
    decreases |es|
  {
    if es != [] {
      StepKeepsLive(c, es[0]);
      StepKeepsBooked(c, es[0]);
      NeverLiveButDeaf(Apply(c, es[0]), es[1..], c');
    }
  }

  lemma InitIsLive(since: int, sinceRev: int, maxUnacked: nat)
    ensures Live(Init(since, sinceRev, maxUnacked)) && Booked(Init(since, sinceRev, maxUnacked).book)
  {}

  // ---- Exactly once, in order, without gaps ----

  /** The server's log of message seqs, ascending. */
  ghost predicate Ascending(log: seq<int>) {
    forall i, j | 0 <= i < j < |log| :: log[i] < log[j]
  }

  /** The part of the log above lo and up to hi. */
  function Between(log: seq<int>, lo: int, hi: int): seq<int> {
    if log == [] then []
    else (if lo < log[0] <= hi then [log[0]] else []) + Between(log[1..], lo, hi)
  }

  /** The seqs of the ordinary (not revised) messages among the frames. */
  function Messages(frames: seq<Frame>): seq<int> {
    if frames == [] then []
    else
      var last := frames[|frames| - 1];
      Messages(frames[..|frames| - 1]) + if last.Msg? && !last.revised then [last.seqNo] else []
  }

  lemma MessagesSnoc(frames: seq<Frame>, f: Frame)
    ensures Messages(frames + [f]) == Messages(frames) + if f.Msg? && !f.revised then [f.seqNo] else []
  {}

  /** What is assumed of server and consumer: no `sent` frames; an ordinary message is in the log
      and arrives on a connection only after every log entry above hello.since and below it;
      acks name messages that were pushed.  Repeats are allowed. */
  ghost predicate Fair(log: seq<int>, c: Conn, e: Event) {
    match e
    case Received(sock, frame) =>
      && !frame.Sent?
      && (frame.Msg? && !frame.revised && sock < |c.sockets| ==>
            && frame.seqNo in log
            && forall s | s in log && c.sockets[sock].helloSince < s < frame.seqNo :: s in c.sockets[sock].got)
    case Ack(seqNo) => seqNo in Messages(c.pushed)
    case _ => true
  }

  ghost predicate FairRun(log: seq<int>, c: Conn, es: seq<Event>, c': Conn)
    decreases |es|
  {
    if es == [] then c == c' else Enabled(c, es[0]) && Fair(log, c, es[0]) && FairRun(log, Apply(c, es[0]), es[1..], c')
  }

  /** The last of the messages pushed so far, or the start cursor. */
  function Last(start: int, messages: seq<int>): int {
    if messages == [] then start else messages[|messages| - 1]
  }

  function Top(start: int, c: Conn): int {
    Last(start, Messages(c.pushed))
  }

  /** The messages pushed are a stretch of the log, and the book knows those not acked. */
  ghost predicate InStep(log: seq<int>, start: int, messages: seq<int>, k: Book) {
    var top := Last(start, messages);
    && messages == Between(log, start, top)
    && start <= k.cursor <= top
    && (forall s :: s in k.delivered <==> s in messages && s > k.cursor)
  }

  /** Nothing received on this socket lies above what was pushed, unless it did not fit. */
  ghost predicate Covered(s: Socket, top: int, refused: set<int>) {
    (forall x | x in s.got :: x <= top || x in refused) && (s.established ==> s.helloSince <= top)
  }

  ghost predicate Delivered(log: seq<int>, start: int, c: Conn) {
    && InStep(log, start, Messages(c.pushed), c.book)
    && (forall i | 0 <= i < |c.sockets| :: Covered(c.sockets[i], Top(start, c), c.refused))
    && |c.refused| <= 1 && (!c.closed ==> c.refused == {})
  }

  lemma {:induction false} BetweenIn(log: seq<int>, lo: int, hi: int)
    ensures forall s :: s in Between(log, lo, hi) <==> s in log && lo < s <= hi
  {
    if log != [] {
      BetweenIn(log[1..], lo, hi);
    }
  }

  lemma BetweenEmpty(log: seq<int>, lo: int, hi: int)
    requires forall s | s in log :: !(lo < s <= hi)
    ensures Between(log, lo, hi) == []
  {
    if log != [] {
      assert log[0] in log && forall s | s in log[1..] :: s in log;
      BetweenEmpty(log[1..], lo, hi);
    }
  }

  lemma AscendingTail(log: seq<int>)
    requires Ascending(log) && log != []
    ensures Ascending(log[1..]) && forall s | s in log[1..] :: log[0] < s
  {}

  /** Nothing of the log lies between hi and next. */
  ghost predicate Adjacent(log: seq<int>, hi: int, next: int) {
    next in log && hi < next && forall s | s in log :: s <= hi || next <= s
  }

  /** The next log entry extends the stretch by itself. */
  lemma {:induction false} BetweenNext(log: seq<int>, lo: int, hi: int, next: int)
    requires Ascending(log) && Adjacent(log, hi, next) && lo <= hi
    ensures Between(log, lo, next) == Between(log, lo, hi) + [next]
  {
    AscendingTail(log);
    if log[0] == next {
      assert forall s | s in log[1..] :: hi < next < s;
      BetweenEmpty(log[1..], lo, next);
      BetweenEmpty(log[1..], lo, hi);
    } else {
      assert log[0] in log;
      assert forall s | s in log[1..] :: s in log;
      BetweenNext(log[1..], lo, hi, next);
    }
  }

  /** An ordinary message is either already pushed, and then dropped, or the next in the log. */
  lemma NewMessage(log: seq<int>, start: int, messages: seq<int>, k: Book, r: Revisions, s: Socket, f: Frame)
    requires Ascending(log) && InStep(log, start, messages, k) && Covered(s, Last(start, messages), {}) && s.established
    requires f.Msg? && !f.revised && f.seqNo in log
    requires forall x | x in log && s.helloSince < x < f.seqNo :: x in s.got
    ensures FateOf(k, r, f).Dropped? <==> f.seqNo <= Last(start, messages)
    ensures FateOf(k, r, f).Pushed? ==> InStep(log, start, messages + [f.seqNo], BookFrame(k, r, f))
  {
    var top := Last(start, messages);
    BetweenIn(log, start, top);
    if f.seqNo > top {
      assert Adjacent(log, top, f.seqNo);
      BetweenNext(log, start, top, f.seqNo);
    }
  }

  lemma BookSame(k: Book, r: Revisions, f: Frame)
    ensures !f.Sent? && (!f.Msg? || f.revised || !FateOf(k, r, f).Pushed?) ==> BookFrame(k, r, f) == k
    ensures !f.Msg? || f.revised ==> !FateOf(k, r, f).Overflow?
  {}

  lemma FrameKeepsDelivered(log: seq<int>, start: int, c: Conn, sock: nat, f: Frame)
    requires Ascending(log) && Live(c) && Delivered(log, start, c)
    requires Enabled(c, Received(sock, f)) && Fair(log, c, Received(sock, f))
    ensures Delivered(log, start, OnFrame(c, sock, f))
  {
    hide InStep, OnFrame, FateOf, BookFrame, ReviseFrame, Messages;
    OnFrameFields(c, sock, f);
    BookSame(c.book, c.revs, f);
    MessagesSnoc(c.pushed, f);
    if !c.closed && c.ws == Some(sock) {
      var c' := OnFrame(c, sock, f);
      var messages := Messages(c.pushed);
      if f.Msg? && !f.revised {
        NewMessage(log, start, messages, c.book, c.revs, c.sockets[sock], f);
        if FateOf(c.book, c.revs, f).Pushed? {
          assert Messages(c'.pushed) == messages + [f.seqNo];
          assert Top(start, c') == f.seqNo > Top(start, c);
        } else {
          assert c'.book == c.book && c'.pushed == c.pushed;
        }
      } else {
        assert c'.book == c.book && Messages(c'.pushed) == messages;
      }
    }
  }

  lemma AckInStep(log: seq<int>, start: int, messages: seq<int>, k: Book, seqNo: int)
    requires InStep(log, start, messages, k) && seqNo in messages
    ensures InStep(log, start, messages, Advance(k, seqNo))
  {
    BetweenIn(log, start, Last(start, messages));
  }

  /** What the other events leave alone. */
  lemma OtherSteps(log: seq<int>, c: Conn, e: Event)
    requires Live(c) && Enabled(c, e) && Fair(log, c, e) && !e.Received? && !e.Ack?
    ensures var c' := Apply(c, e);
            && c'.book == c.book && Messages(c'.pushed) == Messages(c.pushed) && c'.refused == c.refused && (c.closed ==> c'.closed)
            && |c.sockets| <= |c'.sockets|
            && (forall i | 0 <= i < |c'.sockets| ::
                  || (i < |c.sockets| && c'.sockets[i] == c.sockets[i])
                  || c'.sockets[i] == Socket(true, c.book.cursor, {})
                  || c'.sockets[i] == Socket(false, 0, {}))
  {
    hide Messages;
    match e
    case SocketClosed(_, _, fatal) =>
      if fatal.Some? {
        MessagesSnoc(c.pushed, fatal.value);
      }
    case ProbeReturns(result) =>
      if result.Fatal? {
        MessagesSnoc(c.pushed, result.frame);
      }
    case _ =>
  }

  lemma StepKeepsDelivered(log: seq<int>, start: int, c: Conn, e: Event)
    requires Ascending(log) && Live(c) && Delivered(log, start, c) && Enabled(c, e) && Fair(log, c, e)
    ensures Delivered(log, start, Apply(c, e))
  {
    if e.Received? {
      FrameKeepsDelivered(log, start, c, e.sock, e.frame);
    } else if e.Ack? {
      AckInStep(log, start, Messages(c.pushed), c.book, e.seqNo);
    } else {
      OtherSteps(log, c, e);
    }
  }

  lemma {:induction false} RunKeepsDelivered(log: seq<int>, start: int, c: Conn, es: seq<Event>, c': Conn)
    requires Ascending(log) && Live(c) && Delivered(log, start, c) && FairRun(log, c, es, c')
    ensures Delivered(log, start, c')
    decreases |es|
  {
    if es != [] {
      StepKeepsDelivered(log, start, c, es[0]);
      StepKeepsLive(c, es[0]);
      RunKeepsDelivered(log, start, Apply(c, es[0]), es[1..], c');
    }
  }

  /** Through any drops, reconnects, repeats and acks: the ordinary messages pushed are exactly
      the log above the start cursor up to the highest one received on any socket, each once and
      in order; only the message that overflows the book, and closes the client, is left out. */
  lemma ExactlyOnceInOrder(log: seq<int>, start: int, sinceRev: int, maxUnacked: nat, es: seq<Event>, c: Conn)
    requires Ascending(log) && FairRun(log, Init(start, sinceRev, maxUnacked), es, c)
    ensures Messages(c.pushed) == Between(log, start, Top(start, c))
    ensures forall i, s | 0 <= i < |c.sockets| && s in c.sockets[i].got :: s <= Top(start, c) || s in c.refused
    ensures |c.refused| <= 1 && (!c.closed ==> c.refused == {})
    ensures start <= c.book.cursor <= Top(start, c)
  {
    var c0 := Init(start, sinceRev, maxUnacked);
    BetweenEmpty(log, start, start);
    RunKeepsDelivered(log, start, c0, es, c);
    RunIsLive(log, c0, es, c);
  }

  lemma {:induction false} RunIsLive(log: seq<int>, c: Conn, es: seq<Event>, c': Conn)
    requires Live(c) && FairRun(log, c, es, c')
    ensures Live(c')
    decreases |es|
  {
    if es != [] {
      StepKeepsLive(c, es[0]);
      RunIsLive(log, Apply(c, es[0]), es[1..], c');
    }
  }
}
