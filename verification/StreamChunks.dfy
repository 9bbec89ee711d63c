/** When what the parser handles does not depend on the chunks: exactly when no line over the
    limit has a tail that could be cut off and is an event. */
module StreamChunks {
  import opened Splitting
  import opened StreamJson
  import opened Wrappers

  // ---- Events that act ----

  /** The events of a list of lines, those that do nothing left out. */
  function Acting(parse: Parse, lines: seq<Text>): seq<Event> {
    if lines == [] then []
    else
      var e := EventOf(parse, Last(lines));
      if e == Other then Acting(parse, Init(lines)) else Acting(parse, Init(lines)) + [e]
  }

  lemma {:induction false} ActingAppend(parse: Parse, a: seq<Text>, b: seq<Text>)
    ensures Acting(parse, a + b) == Acting(parse, a) + Acting(parse, b)
    decreases |b|
  {
    hide EventOf;
    if b == [] {
      assert a + b == a;
    } else {
      assert Init(a + b) == a + Init(b) && Last(a + b) == Last(b);
      ActingAppend(parse, a, Init(b));
      Associate(Acting(parse, a), Acting(parse, Init(b)), [EventOf(parse, Last(b))]);
    }
  }

  lemma ActingOne(parse: Parse, line: Text)
    ensures Acting(parse, [line]) == if EventOf(parse, line) == Other then [] else [EventOf(parse, line)]
  {
    hide EventOf;
    assert Init([line]) == [] && Last([line]) == line && Acting(parse, []) == [];
  }

  lemma OtherIsIdle(run: Run)
    ensures Run(Next(run.state, Other), run.out + Out(run.state, Other)) == run
  {}

  lemma RunSnoc(events: seq<Event>, e: Event)
    ensures RunEvents(events + [e]) == Run(Next(RunEvents(events).state, e), RunEvents(events).out + Out(RunEvents(events).state, e))
  {
    assert Init(events + [e]) == events;
    hide Next, Out;
  }

  /** The others change nothing. */
  lemma {:induction false} OthersDoNothing(parse: Parse, lines: seq<Text>)
    ensures RunEvents(EventsOf(parse, lines)) == RunEvents(Acting(parse, lines))
    decreases |lines|
  {
    hide EventOf, Next, Out, RunEvents, EventsOf;
    if lines != [] {
      var init, last := Init(lines), Last(lines);
      assert lines == init + [last];
      OthersDoNothing(parse, init);
      HandleMore(parse, init, last);
      RunSnoc(Acting(parse, init), EventOf(parse, last));
      OtherIsIdle(RunEvents(EventsOf(parse, init)));
    } else {
      assert EventsOf(parse, []) == [];
    }
  }

  lemma SameEffect(parse: Parse, a: seq<Text>, b: seq<Text>)
    requires Acting(parse, a) == Acting(parse, b)
    ensures OutputOf(parse, a) == OutputOf(parse, b)
  {
    OthersDoNothing(parse, a);
    OthersDoNothing(parse, b);
  }

  // ---- Where an oversize line may be cut ----

  /** Position q is past the limit, and what starts there fits. */
  predicate Cuttable(line: Text, q: nat) {
    LINE_MAX < q <= |line| && |line| - q <= LINE_MAX
  }

  /** No tail that may be cut off is an event. */
  ghost predicate HarmlessLine(parse: Parse, line: Text) {
    forall q: nat | Cuttable(line, q) :: EventOf(parse, line[q..]) == Other
  }

  ghost predicate Harmless(parse: Parse, stream: Text) {
    forall p | p in Split(stream, LF) :: HarmlessLine(parse, p)
  }

  // ---- What is handed on, in any chunks ----

  /** The kept buffer is the unfinished line, or what is left of it after it was dropped. */
  ghost predicate Keeps(buffer: Text, line: Text) {
    if |line| <= LINE_MAX then buffer == line else exists q: nat :: Cuttable(line, q) && buffer == line[q..]
  }

  lemma KeepsAt(buffer: Text, line: Text) returns (q: nat)
    requires Keeps(buffer, line)
    ensures q <= |line| && buffer == line[q..] && (q == 0 || q > LINE_MAX) && (q == 0 <==> |line| <= LINE_MAX)
  {
    if |line| <= LINE_MAX {
      q := 0;
    } else {
      q :| Cuttable(line, q) && buffer == line[q..];
    }
  }

  /** An open line goes on: the buffer grows with it, or is dropped. */
  lemma KeepsMore(buffer: Text, line: Text, more: Text)
    requires Keeps(buffer, line)
    ensures Keeps(if |buffer + more| > LINE_MAX then [] else buffer + more, line + more)
  {
    var q := KeepsAt(buffer, line);
    var long := line + more;
    assert long[q..] == buffer + more;
    if |long| > LINE_MAX {
      if |buffer + more| > LINE_MAX {
        assert Cuttable(long, |long|) && long[|long|..] == [];
      } else {
        assert Cuttable(long, q);
      }
    }
  }

  /** A line ends: what is handed on has the effect of the line itself. */
  lemma EndsLine(parse: Parse, buffer: Text, line: Text, more: Text)
    requires Keeps(buffer, line) && HarmlessLine(parse, line + more)
    ensures Acting(parse, Fitting([buffer + more])) == Acting(parse, Fitting([line + more]))
  {
    hide EventOf;
    var q := KeepsAt(buffer, line);
    var long := line + more;
    assert long[q..] == buffer + more;
    FittingSingle(buffer + more);
    FittingSingle(long);
    if q > 0 && |buffer + more| <= LINE_MAX {
      assert Cuttable(long, q);
      ActingOne(parse, buffer + more);
    }
  }

  lemma {:induction false} SplitFront(a: Text, b: Text)
    requires LF !in a
    ensures Split(a + b, LF) == [a + Split(b, LF)[0]] + Split(b, LF)[1..]
  {
    var parts := Split(b, LF);
    if a == [] {
      assert a + b == b && [] + parts[0] == parts[0] && [parts[0]] + parts[1..] == parts;
    } else {
      assert (a + b)[1..] == a[1..] + b && (a + b)[0] == a[0] && a[0] in a;
      assert LF !in a[1..];
      SplitFront(a[1..], b);
      SplitCons(a[0], a[1..] + b);
      assert [a[0]] + (a[1..] + parts[0]) == a + parts[0];
    }
  }

  lemma SplitCons(u: Unit, t: Text)
    requires u != LF
    ensures Split([u] + t, LF) == [[u] + Split(t, LF)[0]] + Split(t, LF)[1..]
  {
    assert ([u] + t)[1..] == t;
  }

  ghost predicate Tracks(parse: Parse, f: Feeding, pieces: seq<Text>)
    requires pieces != []
  {
    LF !in f.buffer && Keeps(f.buffer, Last(pieces)) && Acting(parse, f.handed) == Acting(parse, Fitting(Init(pieces)))
  }

  /** A chunk without a line feed. */
  lemma FeedsOn(parse: Parse, f: Feeding, pieces: seq<Text>, b: Text)
    requires pieces != [] && Tracks(parse, f, pieces) && LF !in b
    ensures Tracks(parse, Feed(f, b), Init(pieces) + [Last(pieces) + b])
  {
    hide Split, Keeps, Acting, Fitting, Feed;
    SplitNone(f.buffer + b, LF);
    KeepsMore(f.buffer, Last(pieces), b);
    FeedIs(f, b, [], f.buffer + b);
    NoneFit(f.handed);
    assert Init(Init(pieces) + [Last(pieces) + b]) == Init(pieces);
  }

  lemma NoneFit(handed: seq<Text>)
    ensures handed + Fitting([]) == handed
  {}

  lemma FeedIs(f: Feeding, b: Text, ended: seq<Text>, last: Text)
    requires Split(f.buffer + b, LF) != [] && Init(Split(f.buffer + b, LF)) == ended && Last(Split(f.buffer + b, LF)) == last
    ensures Feed(f, b) == Feeding(f.handed + Fitting(ended), if |last| > LINE_MAX then [] else last)
  {
    hide Split, Fitting;
  }

  /** A chunk that ends the open line with `more`, has some lines, and leaves `last` open. */
  lemma FeedsLineEnd(parse: Parse, f: Feeding, pieces: seq<Text>, more: Text, lines: seq<Text>, last: Text)
    requires pieces != [] && Tracks(parse, f, pieces) && HarmlessLine(parse, Last(pieces) + more)
    ensures Acting(parse, f.handed + Fitting([f.buffer + more] + lines)) == Acting(parse, Fitting(Init(pieces) + [Last(pieces) + more] + lines))
  {
    EndsLine(parse, f.buffer, Last(pieces), more);
    hide Keeps, HarmlessLine, EventOf, Fitting;
    var line := Last(pieces) + more;
    FittingAppend([f.buffer + more], lines);
    FittingAppend(Init(pieces) + [line], lines);
    FittingAppend(Init(pieces), [line]);
    ActingAppend(parse, f.handed, Fitting([f.buffer + more]) + Fitting(lines));
    ActingAppend(parse, Fitting([f.buffer + more]), Fitting(lines));
    ActingAppend(parse, Fitting(Init(pieces)) + Fitting([line]), Fitting(lines));
    ActingAppend(parse, Fitting(Init(pieces)), Fitting([line]));
    Associate(Acting(parse, f.handed), Acting(parse, Fitting([line])), Acting(parse, Fitting(lines)));
  }

  /** What is kept of a line that has just begun. */
  lemma KeepsNew(last: Text)
    ensures Keeps(if |last| > LINE_MAX then [] else last, last)
  {
    if |last| > LINE_MAX {
      assert Cuttable(last, |last|) && last[|last|..] == [];
    }
  }

  lemma FeedTracks(parse: Parse, f: Feeding, pieces: seq<Text>, b: Text)
    requires pieces != [] && Tracks(parse, f, pieces)
    requires forall p | p in Init([Last(pieces) + Split(b, LF)[0]] + Split(b, LF)[1..]) :: HarmlessLine(parse, p)
    ensures Tracks(parse, Feed(f, b), Init(pieces) + ([Last(pieces) + Split(b, LF)[0]] + Split(b, LF)[1..]))
  {
    hide Split, Keeps, HarmlessLine, Fitting, Tracks, Feed;
    var parts := Split(b, LF);
    SplitMeans(b, LF);
    if |parts| == 1 {
      SinglePart(b);
      assert [Last(pieces) + parts[0]] + parts[1..] == [Last(pieces) + b];
      FeedsOn(parse, f, pieces, b);
    } else {
      assert Last(pieces) + parts[0] == Init([Last(pieces) + parts[0]] + parts[1..])[0];
      FeedsParts(parse, f, pieces, b);
    }
  }

  lemma SinglePart(b: Text)
    requires |Split(b, LF)| == 1
    ensures Split(b, LF) == [b] && LF !in b
  {
    SplitMeans(b, LF);
    assert Split(b, LF)[0] in Split(b, LF);
  }

  /** The lines that a chunk of several parts ends. */
  lemma PartsEnded<T>(init: seq<T>, first: T, parts: seq<T>)
    requires |parts| > 1
    ensures Init(init + ([first] + parts[1..])) == init + [first] + Init(parts[1..])
    ensures Last(init + ([first] + parts[1..])) == Last(parts)
  {}

  /** A chunk that ends the open line. */
  lemma FeedsParts(parse: Parse, f: Feeding, pieces: seq<Text>, b: Text)
    requires pieces != [] && Tracks(parse, f, pieces) && |Split(b, LF)| > 1 && HarmlessLine(parse, Last(pieces) + Split(b, LF)[0])
    ensures Tracks(parse, Feed(f, b), Init(pieces) + ([Last(pieces) + Split(b, LF)[0]] + Split(b, LF)[1..]))
  {
    hide Split, Keeps, HarmlessLine, Acting, Fitting, Feed;
    var parts := Split(b, LF);
    var lines, last := Init(parts[1..]), Last(parts);
    FeedsLineEnd(parse, f, pieces, parts[0], lines, last);
    SplitFront(f.buffer, b);
    KeepsNew(last);
    LastPiece(b);
    PartsEnded([], f.buffer + parts[0], parts);
    PartsEnded(Init(pieces), Last(pieces) + parts[0], parts);
    var split := [f.buffer + parts[0]] + parts[1..];
    assert [] + split == split && [] + [f.buffer + parts[0]] == [f.buffer + parts[0]];
    FeedIs(f, b, [f.buffer + parts[0]] + lines, last);
  }

  /** For any chunks: if the complete lines of the stream are harmless, what is handed on has
      the effect of the lines that fit. */
  lemma {:induction false} AnyChunksTrack(parse: Parse, chunks: seq<Text>)
    requires forall p | p in Init(Split(Concat(chunks), LF)) :: HarmlessLine(parse, p)
    ensures Tracks(parse, FeedAll(chunks), Split(Concat(chunks), LF))
    decreases |chunks|
  {
    if chunks != [] {
      var a, b := Concat(Init(chunks)), Last(chunks);
      var pieces := Split(a, LF);
      SplitAppend(a, b, LF);
      LastPiece(a);
      SplitFront(Last(pieces), b);
      var tail := [Last(pieces) + Split(b, LF)[0]] + Split(b, LF)[1..];
      PiecesOf(pieces, tail);
      hide Split, HarmlessLine, Tracks, Feed;
      assert forall p | p in Init(pieces) :: p in Init(pieces) + Init(tail);
      assert forall p | p in Init(tail) :: p in Init(pieces) + Init(tail);
      AnyChunksTrack(parse, Init(chunks));
      FeedTracks(parse, FeedAll(Init(chunks)), pieces, b);
    }
  }

  /** The stream's lines that fit, an unfinished one unless it is blank. */
  function LinesOf(stream: Text): seq<Text> {
    var last := Last(Split(stream, LF));
    Fitting(Init(Split(stream, LF))) + (if |last| > LINE_MAX || Trim(last) == [] then [] else [last])
  }

  /** What is kept at the end of a harmless line has the effect of the line. */
  lemma KeptEffect(parse: Parse, buffer: Text, last: Text)
    requires Keeps(buffer, last) && HarmlessLine(parse, last)
    ensures |last| <= LINE_MAX ==> buffer == last
    ensures |last| > LINE_MAX ==> Acting(parse, [buffer]) == []
  {
    hide EventOf;
    if |last| > LINE_MAX {
      var q: nat :| Cuttable(last, q) && buffer == last[q..];
      ActingOne(parse, buffer);
    }
  }

  lemma HandedEffect(parse: Parse, chunks: seq<Text>)
    requires Harmless(parse, Concat(chunks))
    ensures Acting(parse, Handed(chunks)) == Acting(parse, LinesOf(Concat(chunks)))
  {
    var pieces := Split(Concat(chunks), LF);
    var f, last := FeedAll(chunks), Last(pieces);
    hide Split, Keeps, HarmlessLine, Trim, Fitting, Acting, FeedAll;
    assert last in pieces && forall p | p in Init(pieces) :: p in pieces;
    AnyChunksTrack(parse, chunks);
    KeptEffect(parse, f.buffer, last);
    ActingAppend(parse, f.handed, [f.buffer]);
    ActingAppend(parse, Fitting(Init(pieces)), [last]);
    NothingMore(f.handed);
    NothingMore(Fitting(Init(pieces)));
    NothingMore(Acting(parse, f.handed));
  }

  lemma NothingMore<T>(s: seq<T>)
    ensures s + [] == s
  {}

  /** For every parser and every stream harmless to it, oversize lines included, the output
      depends on the stream alone: it is what the lines that fit print, exactly the text they
      carry. */
  lemma OutputOfStream(parse: Parse, chunks: seq<Text>)
    requires Harmless(parse, Concat(chunks))
    ensures Output(parse, chunks) == OutputOf(parse, LinesOf(Concat(chunks)))
    ensures var events := EventsOf(parse, LinesOf(Concat(chunks)));
            && multiset(InkAll(Output(parse, chunks))) == multiset(InkAll(Body(events)))
            && (NeverOvertakes(events) ==> InkAll(Output(parse, chunks)) == InkAll(Body(events)))
  {
    HandedEffect(parse, chunks);
    SameEffect(parse, Handed(chunks), LinesOf(Concat(chunks)));
    OutputInk(parse, LinesOf(Concat(chunks)));
  }

  // ---- Why the others are not ----

  lemma {:induction false} SplitFirst(t: Text)
    ensures var first := Split(t, LF)[0];
            && first <= t && LF !in first
            && (if |Split(t, LF)| == 1 then t == first
                else |first| < |t| && t[|first|] == LF && Split(t[|first| + 1..], LF) == Split(t, LF)[1..])
  {
    if t != [] {
      SplitFirst(t[1..]);
      var rest := Split(t[1..], LF);
      if t[0] == LF {
        assert ([[]] + rest)[1..] == rest;
      } else {
        var first := [t[0]] + rest[0];
        assert ([first] + rest[1..])[1..] == rest[1..] && t == [t[0]] + t[1..];
        if |rest| > 1 {
          assert t[|first| + 1..] == t[1..][|rest[0]| + 1..];
        }
      }
    }
  }

  /** The first line of several, its end, and the others. */
  lemma FirstLine(t: Text) returns (head: Text, rest: Text)
    requires |Split(t, LF)| > 1
    ensures t == head + rest && head != [] && Last(head) == LF && Split(rest, LF) == Split(t, LF)[1..]
  {
    var first := Split(t, LF)[0];
    SplitFirst(t);
    hide Split;
    head, rest := first + [LF], t[|first| + 1..];
    assert t == first + [LF] + rest;
  }

  lemma AtStart(t: Text) returns (after: Text)
    ensures LF !in Split(t, LF)[0] && t == Split(t, LF)[0] + after && (after == [] || after[0] == LF)
  {
    SplitFirst(t);
    hide Split;
    after := t[|Split(t, LF)[0]|..];
  }

  lemma LaterLine<T>(pieces: seq<T>, p: T)
    requires pieces != [] && p in pieces && p != pieces[0]
    ensures |pieces| > 1 && p in pieces[1..]
  {}

  /** Where a line stands in the stream. */
  lemma {:induction false} LineAt(stream: Text, line: Text) returns (before: Text, after: Text)
    requires line in Split(stream, LF)
    ensures stream == before + line + after && LF !in line
    ensures Last(Split(before, LF)) == [] && (after == [] || after[0] == LF)
    decreases |stream|
  {
    assert Last(Split<Unit>([], LF)) == [];
    hide Split;
    if line == Split(stream, LF)[0] {
      after := AtStart(stream);
      before := [];
      assert [] + line == line;
    } else {
      LaterLine(Split(stream, LF), line);
      var head, rest := FirstLine(stream);
      var b, a := LineAt(rest, line);
      AfterLineEnd(head, b);
      before, after := head + b, a;
      Associate(head, b, line);
      Associate(head, b + line, a);
    }
  }

  lemma AfterLineEnd(a: Text, b: Text)
    requires a != [] && Last(a) == LF && Last(Split(b, LF)) == []
    ensures Last(Split(a + b, LF)) == []
  {
    hide Split;
    SplitSnoc(Init(a), LF, LF);
    assert Init(a) + [LF] == a;
    SplitAppend(a, b, LF);
    assert Last(Split(a, LF)) + b == b;
  }

  /** A chunk that ends inside an oversize line. */
  lemma FirstChunk(before: Text, long: Text)
    requires LF !in long && Last(Split(before, LF)) == [] && |long| > LINE_MAX
    ensures Feed(Feeding([], []), before + long) == Feeding(Fitting(Init(Split(before, LF))), [])
  {
    hide Split, Fitting, Feed;
    var ended := Init(Split(before, LF));
    LongPieces(before, long, []);
    NothingBefore(before + long);
    EndsLast(ended, long);
    FeedIs(Feeding([], []), before + long, ended, long);
    NothingBefore(Fitting(ended));
  }

  /** A chunk that ends some lines and goes on with `rest`. */
  lemma FeedEnds(f: Feeding, b: Text, lines: seq<Text>, rest: Text)
    requires Split(f.buffer + b, LF) == lines + Split(rest, LF)
    ensures Feed(f, b) == Feeding(f.handed + Fitting(lines) + Feed(Feeding([], []), rest).handed, Feed(Feeding([], []), rest).buffer)
  {
    hide Split, Fitting;
    var parts := Split(rest, LF);
    assert Feeding([], []).buffer + rest == rest;
    assert Init(lines + parts) == lines + Init(parts) && Last(lines + parts) == Last(parts);
    FittingAppend(lines, Init(parts));
    FeedIs(f, b, lines + Init(parts), Last(parts));
    FeedIs(Feeding([], []), rest, Init(parts), Last(parts));
    hide Feed;
    Associate(f.handed, Fitting(lines), Fitting(Init(parts)));
    assert [] + Fitting(Init(parts)) == Fitting(Init(parts));
  }

  /** What is handed on after that, the end included. */
  lemma HandsOn(chunks: seq<Text>, ended: seq<Text>, rest: Text)
    requires FeedAll(chunks) == Feeding(ended + Feed(Feeding([], []), rest).handed, Feed(Feeding([], []), rest).buffer)
    ensures Handed(chunks) == ended + Handed([rest])
  {
    FeedOne(rest);
    hide Feed, FeedAll, Trim;
    var f := Feed(Feeding([], []), rest);
    Associate(ended, f.handed, if Trim(f.buffer) == [] then [] else [f.buffer]);
  }

  lemma DropsLong(lines: seq<Text>, long: Text)
    requires |long| > LINE_MAX
    ensures Fitting(lines + [long]) == Fitting(lines)
  {
    assert Init(lines + [long]) == lines && Last(lines + [long]) == long;
  }

  /** The stream in one chunk. */
  lemma OneChunk(before: Text, line: Text, rest: Text)
    requires LF !in line && Last(Split(before, LF)) == [] && |line| > LINE_MAX
    ensures Handed([before + line + [LF] + rest]) == Fitting(Init(Split(before, LF))) + Handed([rest])
  {
    hide Split, Feed, Fitting, FeedAll, Handed;
    var ended := Init(Split(before, LF));
    var stream := before + line + [LF] + rest;
    LongPieces(before, line, rest);
    NothingBefore(stream);
    FeedEnds(Feeding([], []), stream, ended + [line], rest);
    FeedOne(stream);
    DropsLong(ended, line);
    NothingBefore(Fitting(ended + [line]));
    HandsOn([stream], Fitting(ended), rest);
  }

  /** The stream cut in the oversize line. */
  lemma TwoChunks(before: Text, line: Text, q: nat, rest: Text)
    requires LF !in line && Last(Split(before, LF)) == [] && Cuttable(line, q)
    ensures Handed([before + line[..q], line[q..] + [LF] + rest]) == Fitting(Init(Split(before, LF))) + [line[q..]] + Handed([rest])
  {
    hide Split, Feed, Fitting, FeedAll, Handed;
    var tail, b := line[q..], line[q..] + [LF] + rest;
    var x := Fitting(Init(Split(before, LF)));
    FirstChunk(before, line[..q]);
    TailFeeds(x, tail, rest);
    FeedTwo(before + line[..q], b);
    HandsOn([before + line[..q], b], x + [tail], rest);
  }

  /** The rest of the line, fed after its beginning was dropped. */
  lemma TailFeeds(x: seq<Text>, tail: Text, rest: Text)
    requires LF !in tail && |tail| <= LINE_MAX
    ensures Feed(Feeding(x, []), tail + [LF] + rest)
         == Feeding(x + [tail] + Feed(Feeding([], []), rest).handed, Feed(Feeding([], []), rest).buffer)
  {
    hide Split, Feed, Fitting;
    var b := tail + [LF] + rest;
    SplitBlank();
    LongPieces([], tail, rest);
    NothingBefore(tail + [LF]);
    NothingBefore(tail);
    NothingBefore(b);
    NothingBefore([tail]);
    FeedEnds(Feeding(x, []), b, [tail], rest);
    FittingSingle(tail);
  }

  lemma EndsLast<T>(init: seq<T>, last: T)
    ensures Init(init + [last]) == init && Last(init + [last]) == last && [] + [last] == [last]
  {}

  lemma TrimBlank()
    ensures Trim([]) == []
  {}

  lemma SplitBlank()
    ensures Split<Unit>([], LF) != [] && Init(Split<Unit>([], LF)) == [] && Last(Split<Unit>([], LF)) == []
  {}

  lemma NothingBefore<T>(s: seq<T>)
    ensures [] + s == s
  {}

  /** The same for an oversize line at the end of the stream. */
  lemma LastLine(before: Text, line: Text, q: nat)
    requires LF !in line && Last(Split(before, LF)) == [] && Cuttable(line, q) && Trim(line[q..]) != []
    ensures Handed([before + line]) == Fitting(Init(Split(before, LF)))
    ensures Handed([before + line[..q], line[q..]]) == Fitting(Init(Split(before, LF))) + [line[q..]]
  {
    hide Split, Feed, Fitting, FeedAll, Trim;
    var tail := line[q..];
    var x := Fitting(Init(Split(before, LF)));
    FirstChunk(before, line);
    FirstChunk(before, line[..q]);
    FeedOne(before + line);
    FeedTwo(before + line[..q], tail);
    SplitNone(tail, LF);
    NothingBefore(tail);
    EndsLast([], tail);
    FeedIs(Feeding(x, []), tail, [], tail);
    NoneFit(x);
    NothingMore(x);
    TrimBlank();
  }

  /** What is handed on in one chunk, and with an oversize line cut: the rest of that line as well. */
  lemma CutHandsOnTail(before: Text, line: Text, q: nat, after: Text) returns (y: seq<Text>)
    requires LF !in line && Last(Split(before, LF)) == [] && (after == [] || after[0] == LF)
    requires Cuttable(line, q) && Trim(line[q..]) != []
    ensures Handed([before + line + after]) == Fitting(Init(Split(before, LF))) + y
    ensures Handed([before + line[..q], line[q..] + after]) == Fitting(Init(Split(before, LF))) + [line[q..]] + y
  {
    hide Split, Fitting, Handed, Trim;
    if after == [] {
      LastLine(before, line, q);
      y := [];
      assert before + line + after == before + line && line[q..] + after == line[q..];
      NothingMore(Fitting(Init(Split(before, LF))));
      NothingMore(Fitting(Init(Split(before, LF))) + [line[q..]]);
    } else {
      y := Handed([after[1..]]);
      OneChunk(before, line, after[1..]);
      TwoChunks(before, line, q, after[1..]);
      EndFirst(before + line, after);
      EndFirst(line[q..], after);
    }
  }

  lemma EndFirst(a: Text, after: Text)
    requires after != [] && after[0] == LF
    ensures a + [LF] + after[1..] == a + after
  {
    assert after == [LF] + after[1..];
  }

  lemma Rejoins(before: Text, line: Text, q: nat, after: Text)
    requires q <= |line|
    ensures Concat([before + line + after]) == before + line + after == Concat([before + line[..q], line[q..] + after])
  {
    assert line[..q] + line[q..] == line;
    FeedOne(before + line + after);
    FeedTwo(before + line[..q], line[q..] + after);
    hide FeedAll, Feed;
    Associate(before, line[..q], line[q..] + after);
    Associate(line[..q], line[q..], after);
    Associate(before, line, after);
  }

  lemma EventHasInk(parse: Parse, line: Text)
    requires EventOf(parse, line) != Other
    ensures Trim(line) != []
  {}

  /** A tail that is an event is one event more. */
  lemma CutActs(parse: Parse, stream: Text, line: Text, q: nat) returns (a: seq<Text>, b: seq<Text>)
    requires line in Split(stream, LF) && Cuttable(line, q) && EventOf(parse, line[q..]) != Other
    ensures Concat(a) == stream && Concat(b) == stream
    ensures |Acting(parse, Handed(b))| == |Acting(parse, Handed(a))| + 1
  {
    var before, after := LineAt(stream, line);
    hide Split, Handed, EventOf, Acting;
    EventHasInk(parse, line[q..]);
    var y := CutHandsOnTail(before, line, q, after);
    a, b := [before + line + after], [before + line[..q], line[q..] + after];
    Rejoins(before, line, q, after);
    var x := Fitting(Init(Split(before, LF)));
    ActingAppend(parse, x, y);
    ActingAppend(parse, x + [line[q..]], y);
    ActingAppend(parse, x, [line[q..]]);
    ActingOne(parse, line[q..]);
  }

  /** Wherever the chunk boundaries fall, the same events are handled. */
  ghost predicate SameEvents(parse: Parse, stream: Text) {
    forall a: seq<Text>, b: seq<Text> | Concat(a) == stream && Concat(b) == stream ::
      Acting(parse, Handed(a)) == Acting(parse, Handed(b))
  }

  /** For every parser: the events handled depend on the stream alone if and only if no line
      over the limit, an unfinished last one included, has a tail that starts past the limit,
      fits, and is an event. */
  lemma EventsExactly(parse: Parse, stream: Text)
    ensures SameEvents(parse, stream) <==> Harmless(parse, stream)
  {
    hide Split, Acting, Handed, EventOf;
    if Harmless(parse, stream) {
      forall a: seq<Text>, b: seq<Text> | Concat(a) == stream && Concat(b) == stream
        ensures Acting(parse, Handed(a)) == Acting(parse, Handed(b))
      {
        HandedEffect(parse, a);
        HandedEffect(parse, b);
      }
    } else {
      var line :| line in Split(stream, LF) && !HarmlessLine(parse, line);
      var q: nat :| Cuttable(line, q) && EventOf(parse, line[q..]) != Other;
      var a, b := CutActs(parse, stream, line, q);
    }
  }

  // ---- What a cut prints ----

  lemma BodySnoc(events: seq<Event>, e: Event)
    ensures Body(events + [e]) == Body(events) + Brings(RunEvents(events).state, e)
  {
    assert Init(events + [e]) == events;
    hide Brings, RunEvents;
  }

  /** A whole message in between brings its text, and changes nothing else. */
  lemma {:induction false} MessageBetween(x: seq<Event>, e: Event, y: seq<Event>)
    requires e.Assistant? && Prints(RunEvents(x).state, e)
    ensures RunEvents(x + [e] + y).state == RunEvents(x + y).state
    ensures multiset(InkAll(Body(x + [e] + y))) == multiset(InkAll(Body(x + y))) + multiset(InkAll(e.texts))
    decreases |y|
  {
    hide Next, Out, Body, InkAll, RunEvents;
    if y == [] {
      assert x + [e] + y == x + [e] && x + y == x;
      RunSnoc(x, e);
      BodySnoc(x, e);
      AssistantStays(RunEvents(x).state, e);
      InkAllAppend(Body(x), e.texts);
    } else {
      var init, last := Init(y), Last(y);
      assert x + [e] + y == (x + [e] + init) + [last] && x + y == (x + init) + [last];
      MessageBetween(x, e, init);
      var brings := Brings(RunEvents(x + init).state, last);
      RunSnoc(x + [e] + init, last);
      RunSnoc(x + init, last);
      BodySnoc(x + [e] + init, last);
      BodySnoc(x + init, last);
      InkAllAppend(Body(x + [e] + init), brings);
      InkAllAppend(Body(x + init), brings);
    }
  }

  lemma AssistantStays(s: State, e: Event)
    requires e.Assistant?
    ensures Next(s, e) == s
  {}

  lemma EventsJoin(parse: Parse, a: seq<Text>, b: seq<Text>)
    ensures EventsOf(parse, a + b) == EventsOf(parse, a) + EventsOf(parse, b)
  {}

  /** For every parser: a line over the limit with a tail that is a whole message not streamed
      before.  Cut there, its text is printed; in one chunk it is not. */
  lemma CutPrints(parse: Parse, before: Text, line: Text, q: nat, after: Text)
    requires LF !in line && Last(Split(before, LF)) == [] && (after == [] || after[0] == LF) && Cuttable(line, q)
    requires Prints(RunEvents(EventsOf(parse, Fitting(Init(Split(before, LF))))).state, EventOf(parse, line[q..]))
    ensures Concat([before + line + after]) == Concat([before + line[..q], line[q..] + after])
    ensures multiset(InkAll(Output(parse, [before + line[..q], line[q..] + after])))
         == multiset(InkAll(Output(parse, [before + line + after]))) + multiset(InkAll(EventOf(parse, line[q..]).texts))
  {
    hide Split, Handed, EventOf, InkAll, RunEvents, EventsOf, Body, OutputOf, Fitting;
    var tail := line[q..];
    var x := Fitting(Init(Split(before, LF)));
    EventHasInk(parse, tail);
    var y := CutHandsOnTail(before, line, q, after);
    Rejoins(before, line, q, after);
    OutputInk(parse, x + y);
    OutputInk(parse, x + [tail] + y);
    EventsJoin(parse, x, y);
    EventsJoin(parse, x + [tail], y);
    EventsJoin(parse, x, [tail]);
    OneEvent(parse, tail);
    MessageBetween(EventsOf(parse, x), EventOf(parse, tail), EventsOf(parse, y));
  }

  lemma OneEvent(parse: Parse, line: Text)
    ensures EventsOf(parse, [line]) == [EventOf(parse, line)]
  {}

  /** An input on which it fails, for whatever parser takes `tail` for a whole message without
      an id, as JSON.parse does {"type":"assistant","message":{"content":[...]}}: after too long
      a beginning the message is printed if a chunk ends before it, and not otherwise. */
  lemma JunkThenMessage(parse: Parse, junk: Text, tail: Text)
    requires LF !in junk && LF !in tail && |junk| > LINE_MAX && |tail| <= LINE_MAX
    requires EventOf(parse, tail).Assistant? && EventOf(parse, tail).message.None?
    ensures Concat([junk + tail]) == Concat([junk, tail])
    ensures Output(parse, [junk + tail]) == []
    ensures Output(parse, [junk, tail]) == EmittedSplit(EventOf(parse, tail).texts)
    ensures InkAll(Output(parse, [junk, tail])) == InkAll(EventOf(parse, tail).texts)
  {
    hide Split, Handed, EventOf, Fitting, FeedAll, Feed, Trim;
    var line, q := junk + tail, |junk|;
    assert line[q..] == tail && line[..q] == junk;
    NothingBefore(line);
    NothingBefore(junk);
    NothingBefore([tail]);
    SplitBlank();
    EventHasInk(parse, tail);
    LastLine([], line, q);
    NoneFit([]);
    FeedOne(line);
    FeedTwo(junk, tail);
    NothingPrinted(parse);
    MessagePrinted(parse, tail);
    EmittedSplitInk(EventOf(parse, tail).texts);
  }

  lemma FlushedEmpty()
    ensures Flush([], true).out == []
  {
    var blank: seq<Text> := [[]];
    assert Init(blank) == [] && Last(blank) == [] && Trim([]) == [] && Split<Unit>([], LF) == blank;
    assert Emitted([]) == [] && Emitted(blank) == [] + [];
  }

  lemma NothingPrinted(parse: Parse)
    ensures OutputOf(parse, []) == [] && RunEvents(EventsOf(parse, [])) == Run(Fresh, [])
  {
    FlushedEmpty();
    assert EventsOf(parse, []) == [];
  }

  lemma MessagePrinted(parse: Parse, line: Text)
    requires EventOf(parse, line).Assistant? && EventOf(parse, line).message.None?
    ensures OutputOf(parse, [line]) == EmittedSplit(EventOf(parse, line).texts)
  {
    FlushedEmpty();
    NothingPrinted(parse);
    HandleMore(parse, [], line);
    hide EventOf, Flush, EventsOf, RunEvents, EmittedSplit;
    var texts := EmittedSplit(EventOf(parse, line).texts);
    assert [] + [line] == [line] && [] + texts == texts == texts + [];
  }

  // ---- Without knowing the parser ----

  /** No brace stands past the limit where the rest of the line fits. */
  predicate NoLateBrace(line: Text) {
    forall q: nat | Cuttable(line, q) && q < |line| :: line[q] != BRACE
  }

  lemma {:induction false} TrimStartIn(t: Text)
    ensures forall u | u in TrimStart(t) :: u in t
  {
    if t != [] && White(t[0]) {
      TrimStartIn(t[1..]);
    }
  }

  lemma {:induction false} TrimIn(t: Text)
    ensures forall u | u in Trim(t) :: u in t
    decreases |t|
  {
    if t != [] && White(Last(t)) {
      TrimIn(Init(t));
    } else {
      TrimStartIn(t);
    }
  }

  lemma {:induction false} TrimHead(t: Text)
    requires t != [] && !White(t[0])
    ensures Trim(t) != [] && Trim(t)[0] == t[0]
    decreases |t|
  {
    if White(Last(t)) {
      TrimHead(Init(t));
    }
  }

  lemma NoLateBraceIsHarmless(parse: Parse, line: Text)
    requires NoLateBrace(line)
    ensures HarmlessLine(parse, line)
  {
    forall q: nat | Cuttable(line, q)
      ensures EventOf(parse, line[q..]) == Other
    {
      var tail := line[q..];
      forall i: nat | i < |tail| ensures tail[i] != BRACE {
        assert Cuttable(line, q + i) && tail[i] == line[q + i];
      }
      TrimIn(tail);
      assert Trim(tail) != [] ==> Trim(tail)[0] in Trim(tail);
    }
  }

  /** Wherever the chunk boundaries fall, the same is printed. */
  ghost predicate SameOutput(parse: Parse, stream: Text) {
    forall a: seq<Text>, b: seq<Text> | Concat(a) == stream && Concat(b) == stream :: Output(parse, a) == Output(parse, b)
  }

  lemma HarmlessIsSame(parse: Parse, stream: Text)
    requires Harmless(parse, stream)
    ensures SameOutput(parse, stream)
  {
    hide Harmless, Output, OutputOf;
    forall a: seq<Text>, b: seq<Text> | Concat(a) == stream && Concat(b) == stream
      ensures Output(parse, a) == Output(parse, b)
    {
      OutputOfStream(parse, a);
      OutputOfStream(parse, b);
    }
  }

  const MESSAGE := Assistant(None, [[BRACE]])

  /** To a parser that takes every line with a brace for a message, every late brace shows. */
  lemma LateBraceShows(stream: Text, line: Text, q: nat)
    requires line in Split(stream, LF) && Cuttable(line, q) && q < |line| && line[q] == BRACE
    ensures !SameOutput(_ => MESSAGE, stream)
  {
    hide Split, Trim, EventOf, Output, InkAll, RunEvents, EventsOf;
    var parse: Parse := _ => MESSAGE;
    var before, after := LineAt(stream, line);
    BraceIsMessage(line[q..]);
    CutPrints(parse, before, line, q, after);
    Rejoins(before, line, q, after);
    MessageHasInk();
  }

  lemma BraceIsMessage(tail: Text)
    requires tail != [] && tail[0] == BRACE
    ensures EventOf(_ => MESSAGE, tail) == MESSAGE
  {
    TrimHead(tail);
  }

  lemma MessageHasInk()
    ensures |multiset(InkAll(MESSAGE.texts))| > 0
  {
    InkOne([BRACE]);
    assert Ink([BRACE]) == [BRACE] + Ink([]);
  }

  /** For all parsers at once: the output depends on the stream alone if and only if no line
      over the limit has a brace past it where the rest of the line fits. */
  lemma IndependentExactly(stream: Text)
    ensures (forall parse: Parse :: SameOutput(parse, stream)) <==> forall p | p in Split(stream, LF) :: NoLateBrace(p)
  {
    hide Split, SameOutput, HarmlessLine;
    if forall p | p in Split(stream, LF) :: NoLateBrace(p) {
      forall parse: Parse ensures SameOutput(parse, stream) {
        forall p | p in Split(stream, LF) ensures HarmlessLine(parse, p) {
          NoLateBraceIsHarmless(parse, p);
        }
        HarmlessIsSame(parse, stream);
      }
    } else {
      var line :| line in Split(stream, LF) && !NoLateBrace(line);
      var q: nat :| Cuttable(line, q) && q < |line| && line[q] == BRACE;
      LateBraceShows(stream, line, q);
    }
  }
}
