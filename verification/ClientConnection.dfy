/** The connection object itself, updating its variables and its queue handler by handler.  Each
    handler takes exactly the model's step and puts exactly the frames it pushes at the end of
    the queue's stream; `Serve` runs the object and carries ExactlyOnceInOrder to what the queue
    hands out and holds. */
module ClientConnection {
  import opened Wrappers
  import opened ClientModel
  import opened FrameQueues

  function FrameSeq(f: Frame): int {
    if f.Msg? then f.seqNo else 0
  }

  /** One frame of the queue's stream, and whether it was put back by a replay. */
  datatype Slot = Slot(frame: Frame, replayed: bool)

  function Frames(flow: seq<Slot>): (frames: seq<Frame>)
    ensures |frames| == |flow| && forall i | 0 <= i < |flow| :: frames[i] == flow[i].frame
  {
    seq(|flow|, i requires 0 <= i < |flow| => flow[i].frame)
  }

  function SlotsOf(frames: seq<Frame>, replayed: bool): (flow: seq<Slot>)
    ensures |flow| == |frames| && forall i | 0 <= i < |frames| :: flow[i] == Slot(frames[i], replayed)
  {
    seq(|frames|, i requires 0 <= i < |frames| => Slot(frames[i], replayed))
  }

  /** The frames that are no replays. */
  function Fresh(flow: seq<Slot>): seq<Frame> {
    if flow == [] then []
    else
      var last := flow[|flow| - 1];
      Fresh(flow[..|flow| - 1]) + (if last.replayed then [] else [last.frame])
  }

  lemma {:induction false} FreshAppend(a: seq<Slot>, b: seq<Slot>)
    ensures Fresh(a + b) == Fresh(a) + Fresh(b)
    decreases |b|
  {
    if b == [] {
      assert a + b == a;
    } else {
      assert (a + b)[..|a + b| - 1] == a + b[..|b| - 1];
      FreshAppend(a, b[..|b| - 1]);
    }
  }

  lemma {:induction false} FreshSlots(frames: seq<Frame>, replayed: bool)
    ensures Fresh(SlotsOf(frames, replayed)) == if replayed then [] else frames
    decreases |frames|
  {
    if frames != [] {
      FreshSlots(frames[..|frames| - 1], replayed);
      assert SlotsOf(frames, replayed)[..|frames| - 1] == SlotsOf(frames[..|frames| - 1], replayed);
    }
  }

  /** A flow that only grew by the frames pushed since, at its end. */
  ghost predicate Grew(flow: seq<Slot>, pushed: seq<Frame>, flow': seq<Slot>, pushed': seq<Frame>) {
    pushed <= pushed' && flow' == flow + SlotsOf(pushed'[|pushed|..], false)
  }

  lemma GrewNot(flow: seq<Slot>, pushed: seq<Frame>)
    ensures Grew(flow, pushed, flow, pushed)
  {}

  /** The queue's stream is the flow, except that a failed queue has dropped what it held;
      without replays the flow is what the model pushed, and only pushed frames are replayed. */
  ghost predicate Carries(flow: seq<Slot>, pushed: seq<Frame>, unacked: map<int, Frame>, stream: seq<Frame>, failed: bool) {
    && stream <= Frames(flow) && (!failed ==> stream == Frames(flow))
    && Fresh(flow) == pushed
    && (forall slot | slot in flow :: slot.frame in pushed)
    && (forall s | s in unacked :: unacked[s] in pushed)
  }

  lemma CarriesPush(flow: seq<Slot>, pushed: seq<Frame>, unacked: map<int, Frame>, stream: seq<Frame>, frame: Frame)
    requires Carries(flow, pushed, unacked, stream, false)
    ensures Carries(flow + [Slot(frame, false)], pushed + [frame], unacked, stream + [frame], false)
    ensures Grew(flow, pushed, flow + [Slot(frame, false)], pushed + [frame])
  {
    assert (flow + [Slot(frame, false)])[..|flow|] == flow;
    assert Frames(flow + [Slot(frame, false)]) == Frames(flow) + [frame];
  }

  lemma CarriesFail(flow: seq<Slot>, pushed: seq<Frame>, unacked: map<int, Frame>, stream: seq<Frame>, failed: bool, handed: seq<Frame>)
    requires Carries(flow, pushed, unacked, stream, failed) && handed <= stream
    ensures Carries(flow, pushed, unacked, handed, true)
  {}

  lemma CarriesUnacked(flow: seq<Slot>, pushed: seq<Frame>, unacked: map<int, Frame>, unacked': map<int, Frame>, stream: seq<Frame>, failed: bool)
    requires Carries(flow, pushed, unacked, stream, failed)
    requires forall s | s in unacked' :: unacked'[s] in pushed || (s in unacked && unacked'[s] == unacked[s])
    ensures Carries(flow, pushed, unacked', stream, failed)
  {}

  /** What a frame adds to the unacked ones. */
  lemma BookUnacked(k: Book, r: Revisions, f: Frame)
    ensures FateOf(k, r, f).Overflow? ==> f.Msg?
    ensures var k' := BookFrame(k, r, f);
            forall s | s in k'.unacked :: (s in k.unacked && k'.unacked[s] == k.unacked[s]) || (k'.unacked[s] == f && FateOf(k, r, f).Pushed?)
  {}

  lemma StepKeeps(c: Conn, e: Event)
    requires Live(c) && Booked(c.book) && Enabled(c, e)
    ensures Live(Apply(c, e)) && Booked(Apply(c, e).book)
    ensures c.closed <==> c.done
  {
    StepKeepsLive(c, e);
    StepKeepsBooked(c, e);
  }

  class Connection {
    const maxUnacked: int
    var cursor: int
    var revCursor: int
    var delivered: set<int>
    var unacked: map<int, Frame>
    var deliveredRevisions: map<int, string>
    var closed: bool
    var attempt: nat
    var sockets: seq<Socket>
    var ws: Option<nat>
    var reconnectTimer: bool
    var watchdog: Option<nat>
    var probes: nat
    const queue: FrameQueue<Frame>
    ghost var pushed: seq<Frame>
    ghost var refused: set<int>
    /** Everything the queue was given, in the order in which it hands it out. */
    ghost var flow: seq<Slot>

    ghost function View(): Conn
      reads this, queue
    {
      Conn(Book(maxUnacked, cursor, delivered, unacked), Revisions(revCursor, deliveredRevisions),
           closed, attempt, sockets, ws, reconnectTimer, watchdog, probes, queue.done, queue.failed, pushed, refused)
    }

    ghost predicate Valid()
      reads this, queue
    {
      && queue.Valid() && Carries(flow, pushed, unacked, queue.Stream(), queue.failed)
      && Live(View()) && Booked(View().book)
    }

    constructor (since: int, sinceRev: int, maxUnacked: nat)
      ensures Valid() && fresh(queue) && View() == Init(since, sinceRev, maxUnacked) && queue.Stream() == [] && flow == []
    {
      this.maxUnacked := maxUnacked;
      cursor, revCursor, delivered, unacked, deliveredRevisions := since, sinceRev, {}, map[], map[];
      closed, attempt, reconnectTimer, watchdog, probes := false, 0, false, None, 0;
      sockets, ws := [Socket(false, 0, {})], Some(0);
      queue := new FrameQueue<Frame>();
      pushed, refused, flow := [], {}, [];
    }

    method AdvanceTo(seqNo: int)
      modifies this`cursor, this`delivered, this`unacked
      ensures Book(maxUnacked, cursor, delivered, unacked) == Advance(old(Book(maxUnacked, cursor, delivered, unacked)), seqNo)
    {
      if seqNo > cursor {
        cursor := seqNo;
      }
      unacked := map s | s in unacked && !(s in delivered && s <= cursor) :: unacked[s];
      delivered := set s | s in delivered && s > cursor;
    }

    method AdvanceRevTo(rev: Option<int>)
      modifies this`revCursor
      ensures revCursor == if rev.Some? && rev.value > old(revCursor) then rev.value else old(revCursor)
    {
      if rev.Some? && rev.value > revCursor {
        revCursor := rev.value;
      }
    }

    method Reconnect()
      modifies this`attempt, this`reconnectTimer
      ensures if old(closed || reconnectTimer) then attempt == old(attempt) && reconnectTimer == old(reconnectTimer)
              else attempt == old(attempt) + 1 && reconnectTimer
    {
      if closed || reconnectTimer {
        return;
      }
      attempt := attempt + 1;
      reconnectTimer := true;
    }

    method PushFrame(frame: Frame, ghost kept: map<int, Frame>)
      requires queue.Valid() && !queue.done && Carries(flow, pushed, kept, queue.Stream(), false)
      modifies this`pushed, this`flow, queue
      ensures queue.Valid() && !queue.done && !queue.failed
      ensures pushed == old(pushed) + [frame] && Grew(old(flow), old(pushed), flow, pushed)
      ensures Carries(flow, pushed, kept, queue.Stream(), false)
    {
      queue.Running();
      CarriesPush(flow, pushed, kept, queue.Stream(), frame);
      pushed := pushed + [frame];
      flow := flow + [Slot(frame, false)];
      queue.Push(frame);
    }

    method OnOpen(sock: nat)
      requires Valid() && Enabled(View(), Opened(sock))
      modifies this`sockets, this`watchdog
      ensures Valid() && View() == Apply(old(View()), Opened(sock))
      ensures Grew(old(flow), old(pushed), flow, pushed)
    {
      hide Carries, Grew, Live, Booked, FrameQueue.Valid, FrameQueue.Stream;
      StepKeeps(View(), Opened(sock));
      GrewNot(flow, pushed);
      if closed || ws != Some(sock) {
        return;
      }
      sockets := sockets[sock := Socket(true, cursor, {})];
      watchdog := Some(sock);
    }

    /** Revision cursor and marks after a frame; whether a revision was seen before. */
    method NoteRevisions(frame: Frame, helloSince: int) returns (seen: bool)
      modifies this`revCursor, this`deliveredRevisions
      ensures Revisions(revCursor, deliveredRevisions) == ReviseFrame(old(Revisions(revCursor, deliveredRevisions)), frame, helloSince)
      ensures seen == (frame.Msg? && frame.revised && frame.seqNo in old(deliveredRevisions) && old(deliveredRevisions)[frame.seqNo] == frame.mark)
    {
      seen := false;
      if frame.Welcome? && helloSince == 0 {
        AdvanceRevTo(frame.lastRev);
      }
      if frame.Update? {
        AdvanceRevTo(frame.revSeq);
      }
      if frame.Msg? {
        AdvanceRevTo(frame.revSeq);
        if frame.revised {
          seen := frame.seqNo in deliveredRevisions && deliveredRevisions[frame.seqNo] == frame.mark;
          deliveredRevisions := deliveredRevisions[frame.seqNo := frame.mark];
        }
      }
    }

    /** Deduplication and bookkeeping: what becomes of a frame. */
    method TakeFrame(frame: Frame, helloSince: int) returns (fate: Fate)
      modifies this`revCursor, this`deliveredRevisions, this`cursor, this`delivered, this`unacked
      ensures var k, r := old(View().book), old(View().revs);
              fate == FateOf(k, r, frame) && View().book == BookFrame(k, r, frame) && View().revs == ReviseFrame(r, frame, helloSince)
    {
      var seen := NoteRevisions(frame, helloSince);
      if seen {
        return Dropped;
      }
      if frame.Msg? && !frame.revised {
        if frame.seqNo <= cursor || frame.seqNo in delivered {
          return Dropped;
        }
        if |unacked| >= maxUnacked {
          return Overflow;
        }
        delivered := delivered + {frame.seqNo};
        unacked := unacked[frame.seqNo := frame];
      }
      if frame.Sent? {
        AdvanceTo(frame.seqNo);
      }
      return Pushed;
    }

    /** A parsed frame proves the connection alive: watchdog, backoff and arrival history. */
    method NoteAlive(sock: nat, frame: Frame)
      requires sock < |sockets|
      modifies this`sockets, this`watchdog, this`attempt
      ensures watchdog == Some(sock) && attempt == if frame.Pong? then old(attempt) else 0
      ensures sockets == if frame.Msg? && !frame.revised
                         then old(sockets)[sock := old(sockets)[sock].(got := old(sockets)[sock].got + {frame.seqNo})]
                         else old(sockets)
    {
      if frame.Msg? && !frame.revised {
        sockets := sockets[sock := sockets[sock].(got := sockets[sock].got + {frame.seqNo})];
      }
      watchdog := Some(sock);
      if !frame.Pong? {
        attempt := 0;
      }
    }

    /** The queue carries the flow, and is open while the client is. */
    ghost predicate Carrying()
      reads this, queue
    {
      queue.Valid() && Carries(flow, pushed, unacked, queue.Stream(), queue.failed) && (!closed ==> !queue.done && !queue.failed)
    }

    /** What becomes of a frame whose bookkeeping is done. */
    method Deliver(frame: Frame, fate: Fate, ghost kept: map<int, Frame>)
      requires queue.Valid() && !queue.done && Carries(flow, pushed, kept, queue.Stream(), false)
      requires forall s | s in unacked :: (s in kept && unacked[s] == kept[s]) || (unacked[s] == frame && fate.Pushed?)
      modifies this`closed, this`watchdog, this`pushed, this`flow, this`refused, queue
      ensures queue.Valid() && Carries(flow, pushed, unacked, queue.Stream(), queue.failed) && Grew(old(flow), old(pushed), flow, pushed)
      ensures match fate
              case Pushed => refused == old(refused) && closed == old(closed) && watchdog == old(watchdog) && !queue.done && !queue.failed && pushed == old(pushed) + [frame]
              case Dropped => refused == old(refused) && closed == old(closed) && watchdog == old(watchdog) && !queue.done && !queue.failed && pushed == old(pushed)
              case Overflow => refused == old(refused) + {FrameSeq(frame)} && closed && watchdog == None && queue.done && queue.failed && pushed == old(pushed)
    {
      GrewNot(flow, pushed);
      queue.Running();
      hide Grew;
      match fate
      case Dropped =>
        CarriesUnacked(flow, pushed, kept, unacked, queue.Stream(), false);
      case Overflow =>
        refused := refused + {FrameSeq(frame)};
        closed := true;
        watchdog := None;
        CarriesUnacked(flow, pushed, kept, unacked, queue.Stream(), false);
        FailQueue();
      case Pushed =>
        PushFrame(frame, kept);
        CarriesUnacked(flow, pushed, kept, unacked, queue.Stream(), false);
    }

    /** Bookkeeping of a frame on the current socket, then its delivery. */
    method HandleMessage(sock: nat, frame: Frame)
      requires Carrying() && sock < |sockets| && !closed
      modifies this`sockets, this`watchdog, this`attempt, this`revCursor, this`deliveredRevisions, this`cursor, this`delivered, this`unacked, this`closed, this`pushed, this`flow, this`refused, queue
      ensures queue.Valid() && Carries(flow, pushed, unacked, queue.Stream(), queue.failed) && Grew(old(flow), old(pushed), flow, pushed)
      ensures ws == Some(sock) ==> View() == OnFrame(old(View()), sock, frame)
    {
      hide FateOf, BookFrame, ReviseFrame, FrameQueue.Valid, FrameQueue.Stream, Carries, Grew, Live, Booked;
      ghost var kept := unacked;
      BookUnacked(View().book, View().revs, frame);
      var helloSince := sockets[sock].helloSince;
      NoteAlive(sock, frame);
      var fate := TakeFrame(frame, helloSince);
      Deliver(frame, fate, kept);
    }

    /** One parsed frame of a message event. */
    method OnMessage(sock: nat, frame: Frame)
      requires Valid() && Enabled(View(), Received(sock, frame))
      modifies this`sockets, this`watchdog, this`attempt, this`revCursor, this`deliveredRevisions, this`cursor, this`delivered, this`unacked, this`closed, this`pushed, this`flow, this`refused, queue
      ensures Valid() && View() == OnFrame(old(View()), sock, frame)
      ensures Grew(old(flow), old(pushed), flow, pushed)
    {
      hide Carries, Grew, Live, Booked, FrameQueue.Valid, FrameQueue.Stream;
      StepKeeps(View(), Received(sock, frame));
      GrewNot(flow, pushed);
      if closed || ws != Some(sock) {
        return;
      }
      queue.Running();
      HandleMessage(sock, frame);
    }

    /** The end by a fatal answer of the server: its frame, then the end of the queue. */
    method Terminate(fatal: Option<Frame>)
      requires queue.Valid() && !queue.done && Carries(flow, pushed, unacked, queue.Stream(), false)
      modifies this`closed, this`pushed, this`flow, queue
      ensures queue.Valid() && queue.done && !queue.failed && Carries(flow, pushed, unacked, queue.Stream(), queue.failed)
      ensures closed && Grew(old(flow), old(pushed), flow, pushed)
      ensures pushed == if fatal.Some? then old(pushed) + [fatal.value] else old(pushed)
    {
      GrewNot(flow, pushed);
      queue.Running();
      hide Carries, Grew, FrameQueue.Valid;
      closed := true;
      if fatal.Some? {
        PushFrame(fatal.value, unacked);
      }
      queue.EndQueue();
    }

    /** An open client lost its socket. */
    method Lose(established: bool, code: int, fatal: Option<Frame>)
      requires queue.Valid() && !closed && !queue.done && Carries(flow, pushed, unacked, queue.Stream(), false)
      modifies this`probes, this`attempt, this`reconnectTimer, this`closed, this`pushed, this`flow, queue
      ensures queue.Valid() && Carries(flow, pushed, unacked, queue.Stream(), queue.failed) && Grew(old(flow), old(pushed), flow, pushed)
      ensures closed == queue.done == (code == 1008) && !queue.failed
      ensures pushed == if code == 1008 && fatal.Some? then old(pushed) + [fatal.value] else old(pushed)
      ensures probes == old(probes) + if code != 1008 && !established then 1 else 0
      ensures attempt == old(attempt) + if code != 1008 && established && !old(reconnectTimer) then 1 else 0
      ensures reconnectTimer == (old(reconnectTimer) || (code != 1008 && established))
    {
      GrewNot(flow, pushed);
      queue.Running();
      hide FrameQueue.Valid, FrameQueue.Stream, Carries, Grew;
      if code == 1008 {
        Terminate(fatal);
      } else if !established {
        probes := probes + 1;
      } else {
        Reconnect();
      }
    }

    method HandleClose(sock: nat, code: int, fatal: Option<Frame>)
      requires Carrying() && Enabled(View(), SocketClosed(sock, code, fatal)) && ws == Some(sock)
      modifies this`ws, this`watchdog, this`probes, this`attempt, this`reconnectTimer, this`closed, this`pushed, this`flow, queue
      ensures queue.Valid() && Carries(flow, pushed, unacked, queue.Stream(), queue.failed) && Grew(old(flow), old(pushed), flow, pushed)
      ensures View() == OnClose(old(View()), sock, code, fatal)
    {
      GrewNot(flow, pushed);
      hide FrameQueue.Valid, FrameQueue.Stream, Carries, Grew;
      ws := None;
      watchdog := None;
      if closed {
        queue.EndQueue();
      } else {
        Lose(sockets[sock].established, code, fatal);
      }
    }

    method OnClosed(sock: nat, code: int, fatal: Option<Frame>)
      requires Valid() && Enabled(View(), SocketClosed(sock, code, fatal))
      modifies this`ws, this`watchdog, this`probes, this`attempt, this`reconnectTimer, this`closed, this`pushed, this`flow, queue
      ensures Valid() && View() == OnClose(old(View()), sock, code, fatal)
      ensures Grew(old(flow), old(pushed), flow, pushed)
    {
      hide Carries, Grew, Live, Booked, FrameQueue.Valid, FrameQueue.Stream;
      StepKeeps(View(), SocketClosed(sock, code, fatal));
      GrewNot(flow, pushed);
      if ws != Some(sock) {
        return;
      }
      if !closed {
        queue.Running();
      }
      HandleClose(sock, code, fatal);
    }

    method OnWatchdog(open: bool)
      requires Valid() && Enabled(View(), WatchdogFires(open))
      modifies this`watchdog, this`ws, this`attempt, this`reconnectTimer
      ensures Valid() && View() == Apply(old(View()), WatchdogFires(open))
      ensures Grew(old(flow), old(pushed), flow, pushed)
    {
      hide Carries, Grew, Live, Booked, FrameQueue.Valid, FrameQueue.Stream;
      StepKeeps(View(), WatchdogFires(open));
      GrewNot(flow, pushed);
      var sock := watchdog;
      watchdog := None;
      if closed || ws != sock || !open {
        return;
      }
      ws := None;
      Reconnect();
    }

    method OnTimer(constructs: bool)
      requires Valid() && Enabled(View(), TimerFires(constructs))
      modifies this`reconnectTimer, this`ws, this`sockets, this`attempt
      ensures Valid() && View() == Apply(old(View()), TimerFires(constructs))
      ensures Grew(old(flow), old(pushed), flow, pushed)
    {
      hide Carries, Grew, Live, Booked, FrameQueue.Valid, FrameQueue.Stream;
      StepKeeps(View(), TimerFires(constructs));
      GrewNot(flow, pushed);
      reconnectTimer := false;
      if closed {
        return;
      }
      if constructs {
        ws := Some(|sockets|);
        sockets := sockets + [Socket(false, 0, {})];
      } else {
        Reconnect();
      }
    }

    /** A probe that found the end, or threw. */
    method EndByProbe(result: Probe)
      requires Carrying() && probes > 0 && !closed && !result.Transient?
      modifies this`closed, this`probes, this`pushed, this`flow, queue
      ensures queue.Valid() && Carries(flow, pushed, unacked, queue.Stream(), queue.failed) && Grew(old(flow), old(pushed), flow, pushed)
      ensures closed && queue.done && queue.failed == result.Failing? && probes == old(probes) - 1
      ensures pushed == if result.Fatal? then old(pushed) + [result.frame] else old(pushed)
    {
      probes := probes - 1;
      if result.Fatal? {
        Terminate(Some(result.frame));
      } else {
        GrewNot(flow, pushed);
        hide Grew;
        closed := true;
        FailQueue();
      }
    }

    method FailQueue()
      requires queue.Valid() && !queue.done && Carries(flow, pushed, unacked, queue.Stream(), false)
      modifies queue
      ensures queue.Valid() && queue.done && queue.failed && Carries(flow, pushed, unacked, queue.Stream(), queue.failed)
    {
      CarriesFail(flow, pushed, unacked, queue.Stream(), false, queue.handed);
      queue.Fail();
      assert queue.Stream() == queue.handed;
    }

    method OnProbe(result: Probe)
      requires Valid() && Enabled(View(), ProbeReturns(result))
      modifies this`probes, this`attempt, this`reconnectTimer, this`closed, this`pushed, this`flow, queue
      ensures Valid() && View() == Apply(old(View()), ProbeReturns(result))
      ensures Grew(old(flow), old(pushed), flow, pushed)
    {
      hide Carries, Grew, Live, Booked, FrameQueue.Valid, FrameQueue.Stream;
      StepKeeps(View(), ProbeReturns(result));
      GrewNot(flow, pushed);
      if closed {
        probes := probes - 1;
        return;
      }
      queue.Running();
      if result.Transient? {
        probes := probes - 1;
        Reconnect();
      } else {
        EndByProbe(result);
      }
    }

    method Acknowledge(seqNo: int)
      requires Valid()
      modifies this`cursor, this`delivered, this`unacked
      ensures Valid() && View() == Apply(old(View()), Ack(seqNo))
      ensures Grew(old(flow), old(pushed), flow, pushed)
    {
      hide Carries, Grew, Live, Booked, FrameQueue.Valid, FrameQueue.Stream;
      StepKeeps(View(), Ack(seqNo));
      GrewNot(flow, pushed);
      ghost var kept := unacked;
      AdvanceTo(seqNo);
      CarriesUnacked(flow, pushed, kept, unacked, queue.Stream(), queue.failed);
    }

    method Close()
      requires Valid()
      modifies this`closed, this`watchdog, this`reconnectTimer, queue
      ensures Valid() && View() == Apply(old(View()), CloseCall)
      ensures Grew(old(flow), old(pushed), flow, pushed)
    {
      hide Carries, Grew, Live, Booked, FrameQueue.Valid, FrameQueue.Stream;
      StepKeeps(View(), CloseCall);
      GrewNot(flow, pushed);
      if closed {
        return;
      }
      closed := true;
      watchdog := None;
      reconnectTimer := false;
      queue.EndQueue();
    }

    /** The unacked frames that are neither acked nor still buffered, oldest first. */
    method Unconfirmed() returns (frames: seq<Frame>)
      requires Booked(View().book)
      ensures Oldest(frames)
      ensures forall f :: f in frames <==> f.Msg? && f.seqNo in unacked && unacked[f.seqNo] == f && !Buffered(queue.items, f.seqNo)
    {
      var left := set s | s in unacked && s > cursor && !Buffered(queue.items, s);
      assert forall s | s in left :: unacked[s].Msg? && unacked[s].seqNo == s;
      assert forall s | s in unacked :: s > cursor;
      hide Buffered, Booked;
      frames := FramesOf(left, unacked);
    }

    /** Puts the unconfirmed frames back, behind what was handed out and before what waits. */
    method ReplayUnacked() returns (count: nat)
      requires Valid()
      modifies queue, this`flow
      ensures Valid() && View() == old(View())
      ensures exists frames: seq<Frame> ::
                && Oldest(frames)
                && (forall f :: f in frames <==>
                      f.Msg? && f.seqNo in unacked && unacked[f.seqNo] == f && !Buffered(old(queue.items), f.seqNo))
                && count == (if closed then 0 else |frames|)
                && (if count == 0 then flow == old(flow)
                    else flow == old(flow[..|queue.handed|]) + SlotsOf(frames, true) + old(flow[|queue.handed|..]))
                && queue.Stream() == if count == 0 then old(queue.Stream()) else old(queue.handed) + frames + old(queue.items)
    {
      hide Carries, Live, Booked, Oldest, Buffered, FrameQueue.Valid, FrameQueue.Stream;
      ClosedIsDone(View());
      var frames := Unconfirmed();
      count := PutBack(frames);
    }

    method PutBack(frames: seq<Frame>) returns (count: nat)
      requires queue.Valid() && Carries(flow, pushed, unacked, queue.Stream(), queue.failed)
      requires forall f | f in frames :: f.Msg? && f.seqNo in unacked && unacked[f.seqNo] == f
      modifies queue, this`flow
      ensures queue.Valid() && Carries(flow, pushed, unacked, queue.Stream(), queue.failed)
      ensures queue.done == old(queue.done) && queue.failed == old(queue.failed) && |old(queue.handed)| <= |old(flow)|
      ensures count == if queue.done then 0 else |frames|
      ensures flow == if count == 0 then old(flow)
                      else old(flow[..|queue.handed|]) + SlotsOf(frames, true) + old(flow[|queue.handed|..])
      ensures queue.Stream() == if count == 0 then old(queue.Stream()) else old(queue.handed) + frames + old(queue.items)
    {
      HandedInFlow(flow, pushed, unacked, queue.handed, queue.items, queue.failed);
      if queue.done || frames == [] {
        return 0;
      }
      queue.Running();
      CarriesReplay(flow, pushed, unacked, queue.handed, queue.items, frames);
      hide Carries, FrameQueue.Valid;
      flow := flow[..|queue.handed|] + SlotsOf(frames, true) + flow[|queue.handed|..];
      var accepted := queue.Prepend(frames);
      return |frames|;
    }

    /** The consumer takes the next frame, or waits for it. */
    method Take() returns (ticket: nat)
      requires Valid()
      modifies queue
      ensures Valid() && View() == old(View()) && ticket == old(queue.calls) && queue.Stream() == old(queue.Stream())
    {
      hide Carries, Live, Booked;
      ticket := queue.Next();
    }
  }

  lemma HandedInFlow(flow: seq<Slot>, pushed: seq<Frame>, unacked: map<int, Frame>, handed: seq<Frame>, items: seq<Frame>, failed: bool)
    requires Carries(flow, pushed, unacked, handed + items, failed)
    ensures |handed| <= |flow|
  {}

  lemma ClosedIsDone(c: Conn)
    requires Live(c)
    ensures c.closed <==> c.done
  {}

  lemma CarriesReplay(flow: seq<Slot>, pushed: seq<Frame>, unacked: map<int, Frame>, handed: seq<Frame>, items: seq<Frame>, frames: seq<Frame>)
    requires Carries(flow, pushed, unacked, handed + items, false)
    requires forall f | f in frames :: f.Msg? && f.seqNo in unacked && unacked[f.seqNo] == f
    ensures |handed| <= |flow|
    ensures Carries(flow[..|handed|] + SlotsOf(frames, true) + flow[|handed|..], pushed, unacked, handed + frames + items, false)
  {
    assert |Frames(flow)| == |flow|;
    var front, back := flow[..|handed|], flow[|handed|..];
    assert front + back == flow;
    ReplayFresh(front, frames, back);
    ReplayFrames(flow, handed, frames, items);
    assert forall slot | slot in front + back :: slot in flow;
    assert forall slot: Slot | slot in SlotsOf(frames, true) :: slot.frame in frames;
    hide Fresh, Frames;
  }

  lemma ReplayFresh(front: seq<Slot>, frames: seq<Frame>, back: seq<Slot>)
    ensures Fresh(front + SlotsOf(frames, true) + back) == Fresh(front + back)
  {
    FreshAppend(front, back);
    FreshAppend(front, SlotsOf(frames, true));
    FreshAppend(front + SlotsOf(frames, true), back);
    FreshSlots(frames, true);
    assert Fresh(front) + [] == Fresh(front);
  }

  lemma ReplayFrames(flow: seq<Slot>, handed: seq<Frame>, frames: seq<Frame>, items: seq<Frame>)
    requires Frames(flow) == handed + items
    ensures |handed| <= |flow|
    ensures Frames(flow[..|handed|] + SlotsOf(frames, true) + flow[|handed|..]) == handed + frames + items
  {
    assert |Frames(flow)| == |flow|;
    assert forall i | 0 <= i < |flow| :: flow[i].frame == (handed + items)[i];
  }

  /** A frame of that number waits in the queue. */
  predicate Buffered(items: seq<Frame>, seqNo: int) {
    exists g | g in items :: g.Msg? && g.seqNo == seqNo
  }

  ghost predicate Oldest(frames: seq<Frame>) {
    forall i, j | 0 <= i < j < |frames| :: frames[i].Msg? && frames[j].Msg? && frames[i].seqNo < frames[j].seqNo
  }

  /** The frames of some numbers, in ascending order. */
  method FramesOf(numbers: set<int>, unacked: map<int, Frame>) returns (frames: seq<Frame>)
    requires forall s | s in numbers :: s in unacked && unacked[s].Msg? && unacked[s].seqNo == s
    ensures Oldest(frames) && forall f :: f in frames <==> f.Msg? && f.seqNo in numbers && unacked[f.seqNo] == f
  {
    var left := numbers;
    frames := [];
    while left != {}
      invariant left <= numbers
      invariant forall f :: f in frames <==> f.Msg? && f.seqNo in numbers - left && unacked[f.seqNo] == f
      invariant Oldest(frames)
      invariant forall f, s | f in frames && s in left :: f.seqNo < s
      decreases left
    {
      ghost var least := Least(left);
      var s :| s in left && forall x | x in left :: s <= x;
      frames := frames + [unacked[s]];
      left := left - {s};
    }
  }

  /** A set of numbers that is not empty has a least one. */
  lemma {:induction false} Least(s: set<int>) returns (m: int)
    requires s != {}
    ensures m in s && forall x | x in s :: m <= x
    decreases s
  {
    assert (forall y :: y !in s) ==> s == {};
    m :| m in s;
    var rest := s - {m};
    assert forall x | x in s :: x == m || x in rest;
    if rest != {} {
      var n := Least(rest);
      m := if n < m then n else m;
    }
  }

  // ---- The object over a whole run ----

  /** What happens to a connection: an event, a replay, or the consumer asking for a frame. */
  datatype Call = Handle(event: Event) | Replay | Take

  function EventsOf(calls: seq<Call>): seq<Event> {
    if calls == [] then []
    else (if calls[0].Handle? then [calls[0].event] else []) + EventsOf(calls[1..])
  }

  method Dispatch(connection: Connection, event: Event)
    requires connection.Valid() && Enabled(connection.View(), event)
    modifies connection, connection.queue
    ensures connection.Valid() && connection.View() == Apply(old(connection.View()), event)
    ensures Grew(old(connection.flow), old(connection.pushed), connection.flow, connection.pushed)
  {
    hide Connection.Valid, Grew;
    match event
    case Opened(sock) => connection.OnOpen(sock);
    case Received(sock, frame) => connection.OnMessage(sock, frame);
    case SocketClosed(sock, code, fatal) => connection.OnClosed(sock, code, fatal);
    case WatchdogFires(open) => connection.OnWatchdog(open);
    case TimerFires(constructs) => connection.OnTimer(constructs);
    case ProbeReturns(result) => connection.OnProbe(result);
    case Ack(seqNo) => connection.Acknowledge(seqNo);
    case CloseCall => connection.Close();
  }

  function After(c: Conn, call: Call): Conn
    requires call.Handle? ==> Enabled(c, call.event)
  {
    if call.Handle? then Apply(c, call.event) else c
  }

  method Do(connection: Connection, call: Call)
    requires connection.Valid() && (call.Handle? ==> Enabled(connection.View(), call.event))
    modifies connection, connection.queue
    ensures connection.Valid() && connection.View() == After(old(connection.View()), call)
  {
    hide Connection.Valid, Connection.View, Apply, Enabled, Grew, Oldest, Buffered;
    match call
    case Handle(event) => Dispatch(connection, event);
    case Replay =>
      var count := connection.ReplayUnacked();
    case Take =>
      var ticket := connection.Take();
  }

  lemma LeadsOn(c: Conn, calls: seq<Call>, c': Conn)
    requires calls != [] && Leads(c, EventsOf(calls), c')
    ensures calls[0].Handle? ==> Enabled(c, calls[0].event)
    ensures Leads(After(c, calls[0]), EventsOf(calls[1..]), c')
  {
    hide Apply, Enabled;
    if calls[0].Handle? {
      assert EventsOf(calls)[0] == calls[0].event && EventsOf(calls)[1..] == EventsOf(calls[1..]);
    } else {
      assert EventsOf(calls) == EventsOf(calls[1..]);
    }
  }

  /** Any run of the object, replays and reads in between, is the model's run. */
  method Run(connection: Connection, calls: seq<Call>, ghost c: Conn)
    requires connection.Valid() && Leads(connection.View(), EventsOf(calls), c)
    modifies connection, connection.queue
    ensures connection.Valid() && connection.View() == c
  {
    hide Connection.Valid, Connection.View, After;
    for i := 0 to |calls|
      invariant connection.Valid() && Leads(connection.View(), EventsOf(calls[i..]), c)
    {
      LeadsOn(connection.View(), calls[i..], c);
      assert calls[i..][1..] == calls[i + 1..];
      Do(connection, calls[i]);
    }
    assert calls[|calls|..] == [];
  }

  lemma {:induction false} FairLeads(log: seq<int>, c: Conn, es: seq<Event>, c': Conn)
    requires FairRun(log, c, es, c')
    ensures Leads(c, es, c')
    decreases |es|
  {
    if es != [] {
      FairLeads(log, Apply(c, es[0]), es[1..], c');
    }
  }

  /** A connection served by a fair server: what its queue has handed out and still holds is,
      replays aside, the log above the start cursor, each message once and in order.  Replays
      put back only what was pushed before.  A queue that failed has dropped what it held. */
  method Serve(log: seq<int>, start: int, sinceRev: int, maxUnacked: nat, calls: seq<Call>, ghost c: Conn) returns (connection: Connection)
    requires Ascending(log) && FairRun(log, Init(start, sinceRev, maxUnacked), EventsOf(calls), c)
    ensures fresh(connection) && connection.View() == c
    ensures connection.queue.Stream() <= Frames(connection.flow)
    ensures !connection.queue.failed ==> connection.queue.Stream() == Frames(connection.flow)
    ensures Messages(Fresh(connection.flow)) == Between(log, start, Top(start, c))
    ensures forall slot | slot in connection.flow :: slot.frame in Fresh(connection.flow)
  {
    connection := new Connection(start, sinceRev, maxUnacked);
    FairLeads(log, connection.View(), EventsOf(calls), c);
    ExactlyOnceInOrder(log, start, sinceRev, maxUnacked, EventsOf(calls), c);
    Run(connection, calls, c);
  }
}
