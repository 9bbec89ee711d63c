/** Revision frames of the WebSocket client: edits, retractions and the like of a message, told
    apart by a mark.  Which of those that arrive are pushed, over whole runs. */
module ClientRevisions {
  import opened Wrappers
  import opened ClientModel

  /** The marks of the revisions of message s among the frames. */
  function MarksOf(frames: seq<Frame>, s: int): seq<string> {
    if frames == [] then []
    else
      var last := frames[|frames| - 1];
      MarksOf(frames[..|frames| - 1], s) + (if last.Msg? && last.revised && last.seqNo == s then [last.mark] else [])
  }

  lemma MarksSnoc(frames: seq<Frame>, f: Frame, s: int)
    ensures MarksOf(frames + [f], s) == MarksOf(frames, s) + (if f.Msg? && f.revised && f.seqNo == s then [f.mark] else [])
  {
    assert (frames + [f])[..|frames|] == frames;
  }

  /** Repeats in a row left out. */
  function Squeezed(marks: seq<string>): (kept: seq<string>)
    ensures (marks == [] <==> kept == []) && (marks != [] ==> kept[|kept| - 1] == marks[|marks| - 1])
  {
    if marks == [] then []
    else
      var last := marks[|marks| - 1];
      var kept := Squeezed(marks[..|marks| - 1]);
      if kept != [] && kept[|kept| - 1] == last then kept else kept + [last]
  }

  lemma SqueezedSnoc(marks: seq<string>, m: string)
    ensures Squeezed(marks + [m]) == if marks != [] && marks[|marks| - 1] == m then Squeezed(marks) else Squeezed(marks) + [m]
  {
    assert (marks + [m])[..|marks|] == marks;
  }

  /** The frame that an event brings to an open client on its current socket. */
  function Brought(c: Conn, e: Event): seq<Frame> {
    if e.Received? && !c.closed && c.ws == Some(e.sock) then [e.frame] else []
  }

  /** All of them, over a run. */
  function Arrived(c: Conn, es: seq<Event>): seq<Frame>
    decreases |es|
  {
    if es == [] || !Enabled(c, es[0]) then [] else Brought(c, es[0]) + Arrived(Apply(c, es[0]), es[1..])
  }

  /** The mark remembered for message s is the last that arrived. */
  predicate Remembered(marks: map<int, string>, arrived: seq<string>, s: int) {
    if s in marks then arrived != [] && arrived[|arrived| - 1] == marks[s] else arrived == []
  }

  /** The revisions pushed are those that arrived, squeezed. */
  ghost predicate InTurn(c: Conn, arrived: seq<Frame>) {
    && (forall s :: MarksOf(c.pushed, s) == Squeezed(MarksOf(arrived, s)))
    && (!c.closed ==> forall s :: Remembered(c.revs.marks, MarksOf(arrived, s), s))
  }

  /** What a frame does to the remembered marks. */
  lemma MarksAfter(r: Revisions, f: Frame, helloSince: int)
    ensures ReviseFrame(r, f, helloSince).marks == if f.Msg? && f.revised then r.marks[f.seqNo := f.mark] else r.marks
  {}

  /** A revision is dropped exactly when its mark is the last that arrived. */
  lemma RevisionFate(k: Book, r: Revisions, f: Frame, arrived: seq<string>)
    requires f.Msg? && f.revised && Remembered(r.marks, arrived, f.seqNo)
    ensures FateOf(k, r, f) == if arrived != [] && arrived[|arrived| - 1] == f.mark then Dropped else Pushed
  {}

  /** A frame, as message s sees it. */
  lemma FrameTurns(pushed: seq<Frame>, pushed': seq<Frame>, marks: map<int, string>, arrived: seq<Frame>, f: Frame, fate: Fate, s: int)
    requires MarksOf(pushed, s) == Squeezed(MarksOf(arrived, s)) && Remembered(marks, MarksOf(arrived, s), s)
    requires pushed' == if fate.Pushed? then pushed + [f] else pushed
    requires f.Msg? && f.revised && f.seqNo == s ==>
               fate == if MarksOf(arrived, s) != [] && MarksOf(arrived, s)[|MarksOf(arrived, s)| - 1] == f.mark then Dropped else Pushed
    ensures MarksOf(pushed', s) == Squeezed(MarksOf(arrived + [f], s))
    ensures Remembered(if f.Msg? && f.revised then marks[f.seqNo := f.mark] else marks, MarksOf(arrived + [f], s), s)
  {
    hide MarksOf, Squeezed;
    MarksSnoc(pushed, f, s);
    MarksSnoc(arrived, f, s);
    assert MarksOf(pushed, s) + [] == MarksOf(pushed, s) && MarksOf(arrived, s) + [] == MarksOf(arrived, s);
    if f.Msg? {
      SqueezedSnoc(MarksOf(arrived, s), f.mark);
    }
  }

  lemma FrameKeepsTurn(c: Conn, arrived: seq<Frame>, sock: nat, f: Frame)
    requires Live(c) && InTurn(c, arrived) && sock < |c.sockets| && !c.closed && c.ws == Some(sock)
    ensures InTurn(OnFrame(c, sock, f), arrived + [f])
  {
    var c' := OnFrame(c, sock, f);
    OnFrameFields(c, sock, f);
    MarksAfter(c.revs, f, c.sockets[sock].helloSince);
    hide OnFrame, ReviseFrame, BookFrame, FateOf, MarksOf, Squeezed, Remembered;
    forall s
      ensures MarksOf(c'.pushed, s) == Squeezed(MarksOf(arrived + [f], s)) && Remembered(c'.revs.marks, MarksOf(arrived + [f], s), s)
    {
      if f.Msg? && f.revised && f.seqNo == s {
        RevisionFate(c.book, c.revs, f, MarksOf(arrived, s));
      }
      FrameTurns(c.pushed, c'.pushed, c.revs.marks, arrived, f, FateOf(c.book, c.revs, f), s);
    }
  }

  /** What the other events push are errors. */
  lemma OthersKeepTurn(c: Conn, arrived: seq<Frame>, e: Event)
    requires Live(c) && InTurn(c, arrived) && Enabled(c, e) && Brought(c, e) == []
    ensures InTurn(Apply(c, e), arrived)
  {
    var c' := Apply(c, e);
    assert c'.pushed == c.pushed || exists f: Frame :: f.Error? && c'.pushed == c.pushed + [f];
    assert c'.revs == c.revs && (c.closed ==> c'.closed);
    hide MarksOf, Squeezed, Apply;
    if f: Frame :| f.Error? && c'.pushed == c.pushed + [f] {
      forall s ensures MarksOf(c'.pushed, s) == MarksOf(c.pushed, s) {
        MarksSnoc(c.pushed, f, s);
      }
    }
  }

  lemma {:induction false} RunKeepsTurn(c: Conn, arrived: seq<Frame>, es: seq<Event>, c': Conn)
    requires Live(c) && InTurn(c, arrived) && Leads(c, es, c')
    ensures InTurn(c', arrived + Arrived(c, es))
    decreases |es|
  {
    hide InTurn;
    if es == [] {
      assert arrived + [] == arrived;
    } else {
      var e := es[0];
      StepKeepsLive(c, e);
      if Brought(c, e) != [] {
        FrameKeepsTurn(c, arrived, e.sock, e.frame);
      } else {
        OthersKeepTurn(c, arrived, e);
      }
      var next := arrived + Brought(c, e);
      assert arrived + [] == arrived;
      RunKeepsTurn(Apply(c, e), next, es[1..], c');
      assert arrived + (Brought(c, e) + Arrived(Apply(c, e), es[1..])) == next + Arrived(Apply(c, e), es[1..]);
    }
  }

  /** Over any run, through reconnects and replays: of each message the revisions pushed are
      those that arrived, in order, with repeats in a row left out; so the last one pushed is
      the last one that arrived. */
  lemma RevisionsInTurn(since: int, sinceRev: int, maxUnacked: nat, es: seq<Event>, c: Conn, s: int)
    requires Leads(Init(since, sinceRev, maxUnacked), es, c)
    ensures MarksOf(c.pushed, s) == Squeezed(MarksOf(Arrived(Init(since, sinceRev, maxUnacked), es), s))
  {
    var c0 := Init(since, sinceRev, maxUnacked);
    InitInTurn(since, sinceRev, maxUnacked);
    hide Apply, MarksOf, Squeezed, Leads;
    RunKeepsTurn(c0, [], es, c);
    assert [] + Arrived(c0, es) == Arrived(c0, es);
  }

  lemma InitInTurn(since: int, sinceRev: int, maxUnacked: nat)
    ensures Live(Init(since, sinceRev, maxUnacked)) && InTurn(Init(since, sinceRev, maxUnacked), [])
  {}

  predicate Distinct(marks: seq<string>) {
    forall i, j | 0 <= i < j < |marks| :: marks[i] != marks[j]
  }

  /** No mark comes back after another one. */
  predicate NoReturn(marks: seq<string>) {
    forall i, k, j | 0 <= i < k < j < |marks| && marks[i] == marks[j] :: marks[k] == marks[i]
  }

  lemma {:induction false} SqueezedIn(marks: seq<string>)
    ensures forall m :: m in Squeezed(marks) <==> m in marks
    decreases |marks|
  {
    if marks != [] {
      SqueezedIn(marks[..|marks| - 1]);
      assert marks == marks[..|marks| - 1] + [marks[|marks| - 1]];
    }
  }

  lemma NoReturnInit(marks: seq<string>, last: string)
    requires NoReturn(marks + [last])
    ensures NoReturn(marks) && (last in marks ==> marks[|marks| - 1] == last)
  {
    var all := marks + [last];
    assert forall i | 0 <= i < |marks| :: all[i] == marks[i];
    if last in marks {
      var i :| 0 <= i < |marks| && marks[i] == last;
      assert all[i] == all[|marks|] && all[|marks| - 1] == marks[|marks| - 1];
      assert i < |marks| - 1 ==> all[|marks| - 1] == all[i];
    }
  }

  lemma NoReturnSnoc(marks: seq<string>, last: string)
    requires NoReturn(marks) && (last in marks ==> marks[|marks| - 1] == last)
    ensures NoReturn(marks + [last])
  {
    var all := marks + [last];
    forall i, k, j | 0 <= i < k < j < |all| && all[i] == all[j]
      ensures all[k] == all[i]
    {
      assert all[i] == marks[i] && all[k] == marks[k];
      if j == |marks| {
        assert marks[i] in marks;
        assert k == |marks| - 1 || marks[|marks| - 1] == marks[i];
      }
    }
  }

  lemma DistinctSnoc(kept: seq<string>, last: string)
    ensures Distinct(kept + [last]) <==> Distinct(kept) && last !in kept
  {
    var all := kept + [last];
    assert forall i | 0 <= i < |kept| :: all[i] == kept[i];
    if last in kept {
      var i :| 0 <= i < |kept| && kept[i] == last;
      assert all[i] == all[|kept|];
    }
  }

  /** Each mark is kept once if and only if none comes back after another one. */
  lemma {:induction false} OnceExactly(marks: seq<string>)
    ensures Distinct(Squeezed(marks)) <==> NoReturn(marks)
    decreases |marks|
  {
    if marks != [] {
      var init, last := marks[..|marks| - 1], marks[|marks| - 1];
      assert marks == init + [last];
      OnceExactly(init);
      SqueezedIn(init);
      SqueezedSnoc(init, last);
      DistinctSnoc(Squeezed(init), last);
      hide Squeezed, NoReturn, Distinct;
      if NoReturn(marks) {
        NoReturnInit(init, last);
      }
      if NoReturn(init) && (last in init ==> init[|init| - 1] == last) {
        NoReturnSnoc(init, last);
      }
    }
  }

  function Revision(mark: string): Frame {
    Msg(1, true, mark, None)
  }

  /** A message that is edited to one state, to another and back: the first is pushed twice. */
  lemma DeliveredTwice(since: int, sinceRev: int, maxUnacked: nat) returns (c: Conn)
    ensures Leads(Init(since, sinceRev, maxUnacked), [Opened(0), Received(0, Revision("a")), Received(0, Revision("b")), Received(0, Revision("a"))], c)
    ensures MarksOf(c.pushed, 1) == ["a", "b", "a"]
  {
    var c0 := Init(since, sinceRev, maxUnacked);
    var c1 := Apply(c0, Opened(0));
    var c2 := OnFrame(c1, 0, Revision("a"));
    var c3 := OnFrame(c2, 0, Revision("b"));
    c := OnFrame(c3, 0, Revision("a"));
    assert "a"[0] != "b"[0];
    assert c2.pushed == [Revision("a")] && c3.pushed == [Revision("a"), Revision("b")];
    assert c.pushed == [] + [Revision("a")] + [Revision("b")] + [Revision("a")];
    MarksSnoc([], Revision("a"), 1);
    MarksSnoc([] + [Revision("a")], Revision("b"), 1);
    MarksSnoc([] + [Revision("a")] + [Revision("b")], Revision("a"), 1);
    hide OnFrame, MarksOf, Apply;
    var es := [Opened(0), Received(0, Revision("a")), Received(0, Revision("b")), Received(0, Revision("a"))];
    assert es[1..] == [Received(0, Revision("a")), Received(0, Revision("b")), Received(0, Revision("a"))];
  }
}
