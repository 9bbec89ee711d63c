/** The incremental parser of the model's event stream.  Text is a sequence of UTF-16 code
    units; JSON.parse is a parameter that yields one event per line. */
module StreamJson {
  import opened Wrappers
  import opened Splitting

  type Unit = u: nat | u < 0x10000
  type Text = seq<Unit>

  const LF: Unit := 10
  const SPACE: Unit := 32
  const BRACE: Unit := 123
  const LINE_MAX: nat := 4 * 1024 * 1024
  const SOFT_WRAP: nat := 120

  /** What String.prototype.trim removes. */
  predicate White(u: Unit) {
    9 <= u <= 13 || u in {32, 0xA0, 0x1680, 0x2028, 0x2029, 0x202F, 0x205F, 0x3000, 0xFEFF} || 0x2000 <= u <= 0x200A
  }

  function TrimStart(t: Text): Text {
    if t != [] && White(t[0]) then TrimStart(t[1..]) else t
  }

  function Trim(t: Text): Text
    decreases |t|
  {
    if t != [] && White(Last(t)) then Trim(Init(t)) else TrimStart(t)
  }

  /** t without its white space. */
  function Ink(t: Text): Text {
    if t == [] then [] else (if White(t[0]) then [] else [t[0]]) + Ink(t[1..])
  }

  function InkAll(ts: seq<Text>): Text {
    if ts == [] then [] else InkAll(Init(ts)) + Ink(Last(ts))
  }

  /** A parsed line; texts are the text blocks of a whole message. */
  datatype Event =
    | MessageStart(id: string)
    | TextDelta(text: Text)
    | BlockStop
    | Assistant(message: Option<string>, texts: seq<Text>)
    | Other

  type Parse = Text -> Event

  function EventOf(parse: Parse, raw: Text): Event {
    var trimmed := Trim(raw);
    if trimmed != [] && trimmed[0] == BRACE then parse(trimmed) else Other
  }

  // ---- Emitting text ----

  /** emit: blank pieces are dropped. */
  function Emitted(pieces: seq<Text>): seq<Text> {
    if pieces == [] then [] else Emitted(Init(pieces)) + (if Trim(Last(pieces)) == [] then [] else [Last(pieces)])
  }

  /** Where the last blank is, or -1. */
  function LastSpace(t: Text): (i: int)
    ensures -1 <= i < |t| && (i >= 0 ==> t[i] == SPACE)
    ensures forall j | i < j < |t| :: t[j] != SPACE
  {
    if t == [] then -1 else if Last(t) == SPACE then |t| - 1 else LastSpace(Init(t))
  }

  datatype Flushed = Flushed(out: seq<Text>, rest: Text)

  /** The soft wrap: cut at the last blank, or everything if there is none to cut at. */
  function Wrap(rest: Text): Flushed
    decreases |rest|
  {
    if |rest| < SOFT_WRAP then Flushed([], rest)
    else
      var cut := LastSpace(rest);
      if cut > 0 then
        var more := Wrap(rest[cut + 1..]);
        Flushed(Emitted([rest[..cut]]) + more.out, more.rest)
      else Flushed(Emitted([rest]), [])
  }

  function Flush(text: Text, all: bool): Flushed {
    var pieces := Split(text, LF);
    if all then Flushed(Emitted(pieces), [])
    else
      var wrapped := Wrap(Last(pieces));
      Flushed(Emitted(Init(pieces)) + wrapped.out, wrapped.rest)
  }

  /** The parser between two events, apart from its line buffer. */
  datatype State = State(text: Text, streamed: set<string>, current: Option<string>)

  const Fresh := State([], {}, None)

  function EmittedSplit(texts: seq<Text>): seq<Text> {
    if texts == [] then [] else EmittedSplit(Init(texts)) + Emitted(Split(Last(texts), LF))
  }

  /** A whole message is printed only if none of its text was streamed. */
  predicate Prints(s: State, e: Event) {
    e.Assistant? && !(e.message.Some? && e.message.value in s.streamed)
  }

  function Next(s: State, e: Event): State {
    match e
    case MessageStart(id) => s.(current := Some(id))
    case TextDelta(text) =>
      State(Flush(s.text + text, false).rest, if s.current.Some? then s.streamed + {s.current.value} else s.streamed, s.current)
    case BlockStop => s.(text := [])
    case Assistant(_, _) => s
    case Other => s
  }

  function Out(s: State, e: Event): seq<Text> {
    match e
    case MessageStart(_) => []
    case TextDelta(text) => Flush(s.text + text, false).out
    case BlockStop => Flush(s.text, true).out
    case Assistant(_, texts) => if Prints(s, e) then EmittedSplit(texts) else []
    case Other => []
  }

  /** Everything handed to the sink by a list of events. */
  datatype Run = Run(state: State, out: seq<Text>)

  function RunEvents(events: seq<Event>): Run {
    if events == [] then Run(Fresh, [])
    else
      var before := RunEvents(Init(events));
      Run(Next(before.state, Last(events)), before.out + Out(before.state, Last(events)))
  }

  function EventsOf(parse: Parse, lines: seq<Text>): (events: seq<Event>)
    ensures |events| == |lines|
  {
    seq(|lines|, i requires 0 <= i < |lines| => EventOf(parse, lines[i]))
  }

  // ---- Lines ----

  /** The lines handed on so far, and what is kept. */
  datatype Feeding = Feeding(handed: seq<Text>, buffer: Text)

  function Fitting(parts: seq<Text>): seq<Text> {
    if parts == [] then [] else Fitting(Init(parts)) + (if |Last(parts)| <= LINE_MAX then [Last(parts)] else [])
  }

  function Feed(f: Feeding, chunk: Text): Feeding {
    var parts := Split(f.buffer + chunk, LF);
    Feeding(f.handed + Fitting(Init(parts)), if |Last(parts)| > LINE_MAX then [] else Last(parts))
  }

  function FeedAll(chunks: seq<Text>): Feeding {
    if chunks == [] then Feeding([], []) else Feed(FeedAll(Init(chunks)), Last(chunks))
  }

  /** end() hands on what is kept unless it is blank. */
  function Handed(chunks: seq<Text>): seq<Text> {
    var f := FeedAll(chunks);
    f.handed + (if Trim(f.buffer) == [] then [] else [f.buffer])
  }

  // ---- Independence of chunk boundaries ----

  predicate AllFit(parts: seq<Text>) {
    forall p | p in parts :: |p| <= LINE_MAX
  }

  lemma {:induction false} FittingAll(parts: seq<Text>)
    requires AllFit(parts)
    ensures Fitting(parts) == parts
    decreases |parts|
  {
    if parts != [] {
      assert parts == Init(parts) + [Last(parts)];
      FittingAll(Init(parts));
    }
  }

  lemma {:induction false} FittingAppend(a: seq<Text>, b: seq<Text>)
    ensures Fitting(a + b) == Fitting(a) + Fitting(b)
    decreases |b|
  {
    if b == [] {
      assert a + b == a;
    } else {
      assert Init(a + b) == a + Init(b) && Last(a + b) == Last(b);
      FittingAppend(a, Init(b));
      Associate(Fitting(a), Fitting(Init(b)), if |Last(b)| <= LINE_MAX then [Last(b)] else []);
    }
  }

  lemma {:induction false} FirstPieceGrows(a: Text, b: Text)
    requires LF !in a
    ensures a <= Split(a + b, LF)[0]
  {
    if a != [] {
      assert (a + b)[1..] == a[1..] + b && a[0] in a;
      FirstPieceGrows(a[1..], b);
    }
  }

  lemma PiecesOf(before: seq<Text>, tail: seq<Text>)
    requires before != [] && tail != []
    ensures Init(Init(before) + tail) == Init(before) + Init(tail) && Last(Init(before) + tail) == Last(tail)
  {}

  lemma LastPiece(t: Text)
    ensures LF !in Last(Split(t, LF))
  {}

  lemma BufferOneLine(chunks: seq<Text>)
    ensures LF !in FeedAll(chunks).buffer
  {
    if chunks != [] {
      LastPiece(FeedAll(Init(chunks)).buffer + Last(chunks));
    }
  }

  /** Once the unfinished line is over the limit, a chunk that ends it would end an oversize line. */
  lemma LongStaysOpen(last: Text, kept: Text, b: Text)
    requires LF !in last && LF !in kept && |last| > LINE_MAX && AllFit(Init(Split(last + b, LF)))
    ensures Split(last + b, LF) == [last + b] && Split(kept + b, LF) == [kept + b]
  {
    FirstPieceGrows(last, b);
    OnePiece(last + b);
    assert LF !in b by {
      assert forall i | 0 <= i < |b| :: b[i] == (last + b)[|last| + i];
    }
    SplitNone(kept + b, LF);
  }

  lemma FirstInInit(pieces: seq<Text>)
    requires pieces != []
    ensures |pieces| == 1 || pieces[0] in Init(pieces)
  {}

  /** A first piece over the limit can only be the last one. */
  lemma OnePiece(t: Text)
    requires AllFit(Init(Split(t, LF))) && |Split(t, LF)[0]| > LINE_MAX
    ensures LF !in t && Split(t, LF) == [t]
  {
    var pieces := Split(t, LF);
    SplitMeans(t, LF);
    hide Split;
    FirstInInit(pieces);
    assert pieces[0] in pieces;
  }

  /** The pieces of a chunk that continues an open line within the limit. */
  lemma FeedsOpen(f: Feeding, init: seq<Text>, last: Text, b: Text)
    requires f.handed == init && f.buffer == last && AllFit(Init(Split(last + b, LF)))
    ensures Feed(f, b).handed == init + Init(Split(last + b, LF))
    ensures |Last(Split(last + b, LF))| <= LINE_MAX ==> Feed(f, b).buffer == Last(Split(last + b, LF))
  {
    FittingAll(Init(Split(last + b, LF)));
    hide Split, Fitting, AllFit;
  }

  /** Of a chunk that continues a line over the limit, nothing is handed on. */
  lemma FeedsLong(f: Feeding, init: seq<Text>, last: Text, b: Text)
    requires f.handed == init && LF !in f.buffer && LF !in last && |last| > LINE_MAX && AllFit(Init(Split(last + b, LF)))
    ensures Feed(f, b).handed == init + Init(Split(last + b, LF)) && |Last(Split(last + b, LF))| > LINE_MAX
  {
    LongStaysOpen(last, f.buffer, b);
    hide Split;
    assert Init([f.buffer + b]) == [] && Init([last + b]) == [] && Fitting([]) == [];
    assert init + [] == init;
  }

  /** The lines of a, fed as f, and a chunk b. */
  lemma FeedsMore(f: Feeding, a: Text, b: Text)
    requires AllFit(Init(Split(a + b, LF))) && LF !in f.buffer
    requires f.handed == Init(Split(a, LF)) && (|Last(Split(a, LF))| <= LINE_MAX ==> f.buffer == Last(Split(a, LF)))
    ensures Feed(f, b).handed == Init(Split(a + b, LF))
    ensures |Last(Split(a + b, LF))| <= LINE_MAX ==> Feed(f, b).buffer == Last(Split(a + b, LF))
  {
    var before := Split(a, LF);
    var init, last := Init(before), Last(before);
    var tail := Split(last + b, LF);
    SplitAppend(a, b, LF);
    LastPiece(a);
    hide Split, Fitting, Feed;
    PiecesOf(before, tail);
    assert AllFit(Init(tail)) by {
      assert forall p | p in Init(tail) :: p in init + Init(tail);
    }
    hide AllFit;
    if |last| > LINE_MAX {
      FeedsLong(f, init, last, b);
    } else {
      FeedsOpen(f, init, last, b);
    }
  }

  /** When every complete line of the stream fits, the lines handed on are the stream's lines,
      wherever the chunk boundaries fall; so is the rest, if it fits too. */
  lemma {:induction false} FeedsLines(chunks: seq<Text>)
    requires AllFit(Init(Split(Concat(chunks), LF)))
    ensures FeedAll(chunks).handed == Init(Split(Concat(chunks), LF))
    ensures |Last(Split(Concat(chunks), LF))| <= LINE_MAX ==> FeedAll(chunks).buffer == Last(Split(Concat(chunks), LF))
    decreases |chunks|
  {
    if chunks != [] {
      var a, b := Concat(Init(chunks)), Last(chunks);
      SplitAppend(a, b, LF);
      PiecesOf(Split(a, LF), Split(Last(Split(a, LF)) + b, LF));
      hide Split, Feed;
      assert forall p | p in Init(Split(a, LF)) :: p in Init(Split(a + b, LF));
      FeedsLines(Init(chunks));
      BufferOneLine(Init(chunks));
      FeedsMore(FeedAll(Init(chunks)), a, b);
    }
  }

  lemma LongPieces(before: Text, long: Text, after: Text)
    requires LF !in long && Last(Split(before, LF)) == []
    ensures Split(before + long, LF) == Init(Split(before, LF)) + [long]
    ensures Split(before + long + [LF] + after, LF) == Init(Split(before, LF)) + [long] + Split(after, LF)
  {
    hide Split;
    SplitAppend(before, long, LF);
    SplitNone(long, LF);
    assert [] + long == long;
    SplitSnoc(before + long, LF, LF);
    SplitAppend(before + long + [LF], after, LF);
    assert [] + after == after;
    assert Init(Init(Split(before, LF)) + [long] + [[]]) == Init(Split(before, LF)) + [long];
  }

  lemma FittingSingle(p: Text)
    ensures Fitting([p]) == if |p| <= LINE_MAX then [p] else []
  {}

  lemma FeedOne(chunk: Text)
    ensures FeedAll([chunk]) == Feed(Feeding([], []), chunk) && Concat([chunk]) == chunk
  {}

  lemma FeedTwo(a: Text, b: Text)
    ensures FeedAll([a, b]) == Feed(Feed(Feeding([], []), a), b) && Concat([a, b]) == a + b
  {
    assert Init([a, b]) == [a];
    FeedOne(a);
  }

  // ---- No text lost, added or moved ----

  lemma {:induction false} InkAppend(a: Text, b: Text)
    ensures Ink(a + b) == Ink(a) + Ink(b)
  {
    if a == [] {
      assert a + b == b;
    } else {
      assert (a + b)[1..] == a[1..] + b;
      InkAppend(a[1..], b);
    }
  }

  lemma {:induction false} InkAllAppend(a: seq<Text>, b: seq<Text>)
    ensures InkAll(a + b) == InkAll(a) + InkAll(b)
    decreases |b|
  {
    if b == [] {
      assert a + b == a;
    } else {
      assert Init(a + b) == a + Init(b) && Last(a + b) == Last(b);
      hide Ink;
      InkAllAppend(a, Init(b));
      Associate(InkAll(a), InkAll(Init(b)), Ink(Last(b)));
    }
  }

  lemma InkOne(t: Text)
    ensures InkAll([t]) == Ink(t)
  {}

  lemma {:induction false} TrimStartBlank(t: Text)
    ensures TrimStart(t) == [] <==> Ink(t) == []
  {
    if t != [] {
      TrimStartBlank(t[1..]);
    }
  }

  /** A piece is dropped exactly when it is all white. */
  lemma {:induction false} BlankIffNoInk(t: Text)
    ensures Trim(t) == [] <==> Ink(t) == []
    decreases |t|
  {
    if t != [] && White(Last(t)) {
      BlankIffNoInk(Init(t));
      assert t == Init(t) + [Last(t)];
      InkAppend(Init(t), [Last(t)]);
    } else {
      TrimStartBlank(t);
    }
  }

  lemma {:induction false} EmittedInk(pieces: seq<Text>)
    ensures InkAll(Emitted(pieces)) == InkAll(pieces)
    decreases |pieces|
  {
    hide White, Trim, Ink;
    if pieces != [] {
      EmittedInk(Init(pieces));
      BlankIffNoInk(Last(pieces));
      InkAllAppend(Emitted(Init(pieces)), [Last(pieces)]);
      InkOne(Last(pieces));
      if Trim(Last(pieces)) == [] {
        assert Emitted(pieces) == Emitted(Init(pieces)) && InkAll(Init(pieces)) + [] == InkAll(Init(pieces));
      }
    }
  }

  lemma InkPrepend(first: Text, rest: seq<Text>)
    ensures InkAll([first] + rest) == Ink(first) + InkAll(rest)
  {
    InkAllAppend([first], rest);
    InkOne(first);
  }

  lemma {:induction false} SplitInk(t: Text)
    ensures InkAll(Split(t, LF)) == Ink(t)
  {
    if t == [] {
      InkOne([]);
    } else {
      var rest := Split(t[1..], LF);
      SplitInk(t[1..]);
      assert Ink(t) == Ink([t[0]]) + Ink(t[1..]) by { InkAppend([t[0]], t[1..]); assert [t[0]] + t[1..] == t; }
      if t[0] == LF {
        assert White(LF) && Ink([LF]) == [] && Ink([]) == [];
        InkPrepend([], rest);
      } else {
        FirstWith(t[0], rest);
      }
    }
  }

  lemma FirstWith(u: Unit, rest: seq<Text>)
    requires rest != []
    ensures InkAll([[u] + rest[0]] + rest[1..]) == Ink([u]) + InkAll(rest)
  {
    hide Ink, InkAll;
    InkPrepend([u] + rest[0], rest[1..]);
    InkAppend([u], rest[0]);
    assert [rest[0]] + rest[1..] == rest;
    InkPrepend(rest[0], rest[1..]);
    Associate(Ink([u]), Ink(rest[0]), InkAll(rest[1..]));
  }

  lemma BlankPrepends(t: Text)
    ensures Ink([SPACE] + t) == Ink(t)
  {
    assert White(SPACE) && ([SPACE] + t)[1..] == t;
    hide White;
  }

  /** Cutting at a blank and dropping it. */
  lemma CutInk(rest: Text, cut: nat)
    requires cut < |rest| && rest[cut] == SPACE
    ensures Ink(rest[..cut]) + Ink(rest[cut + 1..]) == Ink(rest)
  {
    hide Ink;
    assert rest == rest[..cut] + ([SPACE] + rest[cut + 1..]);
    InkAppend(rest[..cut], [SPACE] + rest[cut + 1..]);
    BlankPrepends(rest[cut + 1..]);
  }

  /** One emitted piece, then more. */
  lemma EmitFirst(piece: Text, more: seq<Text>)
    ensures InkAll(Emitted([piece]) + more) == Ink(piece) + InkAll(more)
    ensures InkAll([]) == []
  {
    EmittedInk([piece]);
    InkOne(piece);
    InkAllAppend(Emitted([piece]), more);
  }

  lemma {:induction false} WrapShort(rest: Text)
    ensures |Wrap(rest).rest| < SOFT_WRAP
    decreases |rest|
  {
    hide LastSpace, Emitted;
    if |rest| >= SOFT_WRAP && LastSpace(rest) > 0 {
      WrapShort(rest[LastSpace(rest) + 1..]);
    }
  }

  /** The soft wrap keeps the text, up to white space. */
  lemma {:induction false} WrapKeeps(rest: Text)
    ensures InkAll(Wrap(rest).out) + Ink(Wrap(rest).rest) == Ink(rest)
    decreases |rest|
  {
    EmitFirst(rest, []);
    assert Ink([]) == [];
    hide White, Ink, InkAll, Emitted, LastSpace;
    if |rest| >= SOFT_WRAP {
      var cut := LastSpace(rest);
      if cut > 0 {
        var more := Wrap(rest[cut + 1..]);
        WrapKeeps(rest[cut + 1..]);
        CutInk(rest, cut);
        EmitFirst(rest[..cut], more.out);
        Associate(Ink(rest[..cut]), InkAll(more.out), Ink(more.rest));
      } else {
        assert Emitted([rest]) + [] == Emitted([rest]);
      }
    }
  }

  /** A flush keeps the text up to white space, and what it holds back is short. */
  lemma FlushKeeps(text: Text, all: bool)
    ensures var f := Flush(text, all);
            && InkAll(f.out) + Ink(f.rest) == Ink(text)
            && |f.rest| < SOFT_WRAP && (all ==> f.rest == [])
  {
    var pieces := Split(text, LF);
    SplitInk(text);
    EmittedInk(pieces);
    assert Ink([]) == [];
    hide White, Ink, InkAll, Emitted, Split, Wrap;
    if !all {
      FlushTail(Init(pieces), Last(pieces));
      assert pieces == Init(pieces) + [Last(pieces)];
    }
  }

  lemma FlushTail(pieces: seq<Text>, tail: Text)
    ensures InkAll(Emitted(pieces) + Wrap(tail).out) + Ink(Wrap(tail).rest) == InkAll(pieces + [tail])
    ensures |Wrap(tail).rest| < SOFT_WRAP
  {
    hide White, Ink, InkAll, Emitted, Wrap;
    InkAllAppend(pieces, [tail]);
    InkOne(tail);
    EmittedInk(pieces);
    WrapKeeps(tail);
    WrapShort(tail);
    InkAllAppend(Emitted(pieces), Wrap(tail).out);
    Associate(InkAll(pieces), InkAll(Wrap(tail).out), Ink(Wrap(tail).rest));
  }

  lemma {:induction false} EmittedSplitInk(texts: seq<Text>)
    ensures InkAll(EmittedSplit(texts)) == InkAll(texts)
    decreases |texts|
  {
    if texts != [] {
      EmittedSplitInk(Init(texts));
      EmittedInk(Split(Last(texts), LF));
      SplitInk(Last(texts));
      InkAllAppend(EmittedSplit(Init(texts)), Emitted(Split(Last(texts), LF)));
    }
  }

  /** The text an event brings: a delta's, or a whole message's that was not streamed. */
  function Brings(s: State, e: Event): seq<Text> {
    if e.TextDelta? then [e.text] else if Prints(s, e) then e.texts else []
  }

  function Body(events: seq<Event>): seq<Text> {
    if events == [] then [] else Body(Init(events)) + Brings(RunEvents(Init(events)).state, Last(events))
  }

  /** No whole message is printed over held text. */
  predicate NeverOvertakes(events: seq<Event>) {
    events == [] ||
    (NeverOvertakes(Init(events)) &&
     (Prints(RunEvents(Init(events)).state, Last(events)) ==> Ink(RunEvents(Init(events)).state.text) == []))
  }

  /** One event: the held text and the text it brings go out or stay held. */
  lemma EventKeeps(s: State, e: Event)
    ensures !Prints(s, e) ==> Ink(s.text) + InkAll(Brings(s, e)) == InkAll(Out(s, e)) + Ink(Next(s, e).text)
    ensures Prints(s, e) ==> InkAll(Brings(s, e)) == InkAll(Out(s, e)) && s.text == Next(s, e).text
    ensures |s.text| < SOFT_WRAP ==> |Next(s, e).text| < SOFT_WRAP
  {
    if e.TextDelta? {
      FlushKeeps(s.text + e.text, false);
      InkAppend(s.text, e.text);
      InkOne(e.text);
    } else if e.BlockStop? {
      FlushKeeps(s.text, true);
    } else if Prints(s, e) {
      EmittedSplitInk(e.texts);
    }
  }

  /** For every list of events: what was printed and what is held are the text received, up to
      white space, and less than one soft line is held.  They are in the order received unless
      a whole message is printed over held text. */
  lemma {:induction false} TextKept(events: seq<Event>)
    ensures |RunEvents(events).state.text| < SOFT_WRAP
    ensures multiset(InkAll(RunEvents(events).out) + Ink(RunEvents(events).state.text)) == multiset(InkAll(Body(events)))
    ensures NeverOvertakes(events) ==> InkAll(RunEvents(events).out) + Ink(RunEvents(events).state.text) == InkAll(Body(events))
    decreases |events|
  {
    if events != [] {
      var before, e := RunEvents(Init(events)), Last(events);
      TextKept(Init(events));
      EventKeeps(before.state, e);
      InkAllAppend(before.out, Out(before.state, e));
      InkAllAppend(Body(Init(events)), Brings(before.state, e));
      hide Next, Out, Brings, Prints, InkAll, Ink;
      var text, out, more := Ink(before.state.text), InkAll(Out(before.state, e)), InkAll(Brings(before.state, e));
      if Prints(before.state, e) {
        Overtakes(InkAll(before.out), text, out);
      } else {
        Regroup(InkAll(before.out), text, more, out, Ink(Next(before.state, e).text));
      }
    }
  }

  lemma Overtakes(a: Text, text: Text, out: Text)
    ensures multiset((a + out) + text) == multiset((a + text) + out)
    ensures text == [] ==> (a + out) + text == (a + text) + out
  {}

  lemma Regroup(a: Text, text: Text, more: Text, out: Text, left: Text)
    requires text + more == out + left
    ensures (a + text) + more == (a + out) + left
  {
    assert (a + text) + more == a + (text + more) == a + (out + left);
  }

  /** What a list of lines prints, the end included. */
  function OutputOf(parse: Parse, lines: seq<Text>): seq<Text> {
    var run := RunEvents(EventsOf(parse, lines));
    run.out + Flush(run.state.text, true).out
  }

  /** The output of a whole stream: feed every chunk, then end. */
  function Output(parse: Parse, chunks: seq<Text>): seq<Text> {
    OutputOf(parse, Handed(chunks))
  }

  /** One more line. */
  lemma HandleMore(parse: Parse, lines: seq<Text>, raw: Text)
    ensures var run := RunEvents(EventsOf(parse, lines));
            var e := EventOf(parse, raw);
            RunEvents(EventsOf(parse, lines + [raw])) == Run(Next(run.state, e), run.out + Out(run.state, e))
  {
    var events := EventsOf(parse, lines + [raw]);
    assert Init(events) == EventsOf(parse, lines) && Last(events) == EventOf(parse, raw);
  }

  /** The lines print exactly the text their events carry, up to white space. */
  lemma OutputInk(parse: Parse, lines: seq<Text>)
    ensures var events := EventsOf(parse, lines);
            && multiset(InkAll(OutputOf(parse, lines))) == multiset(InkAll(Body(events)))
            && (NeverOvertakes(events) ==> InkAll(OutputOf(parse, lines)) == InkAll(Body(events)))
  {
    var run := RunEvents(EventsOf(parse, lines));
    TextKept(EventsOf(parse, lines));
    FlushKeeps(run.state.text, true);
    InkAllAppend(run.out, Flush(run.state.text, true).out);
    assert InkAll(Flush(run.state.text, true).out) + Ink([]) == InkAll(Flush(run.state.text, true).out);
  }

  // ---- White space, and what is printed again ----

  /** The white space and line terminators of ECMA-262 (sections 12.2 and 12.3). */
  lemma WhiteExactly(u: Unit)
    ensures White(u) <==> u in {0x9, 0xA, 0xB, 0xC, 0xD, 0x20, 0xA0, 0x1680, 0x2000, 0x2001, 0x2002, 0x2003, 0x2004, 0x2005, 0x2006, 0x2007,
                                0x2008, 0x2009, 0x200A, 0x2028, 0x2029, 0x202F, 0x205F, 0x3000, 0xFEFF}
  {}

  /** The message that is being streamed: the last one started. */
  function StartedLast(events: seq<Event>): Option<string> {
    if events == [] then None
    else if Last(events).MessageStart? then Some(Last(events).id)
    else StartedLast(Init(events))
  }

  /** Some text of this message came as a delta. */
  ghost predicate StreamedBefore(events: seq<Event>, id: string) {
    exists i :: 0 <= i < |events| && events[i].TextDelta? && StartedLast(events[..i]) == Some(id)
  }

  lemma StreamedSnoc(events: seq<Event>, e: Event, id: string)
    ensures StreamedBefore(events + [e], id) <==> StreamedBefore(events, id) || (e.TextDelta? && StartedLast(events) == Some(id))
  {
    var all := events + [e];
    assert all[..|events|] == events;
    hide StartedLast;
    assert forall i | 0 <= i < |events| :: all[..i] == events[..i] && all[i] == events[i];
    if StreamedBefore(events, id) {
      var i :| 0 <= i < |events| && events[i].TextDelta? && StartedLast(events[..i]) == Some(id);
      assert all[i].TextDelta? && StartedLast(all[..i]) == Some(id);
    }
    if e.TextDelta? && StartedLast(events) == Some(id) {
      assert all[|events|].TextDelta? && StartedLast(all[..|events|]) == Some(id);
    }
  }

  lemma {:induction false} StreamedIs(events: seq<Event>)
    ensures RunEvents(events).state.current == StartedLast(events)
    ensures forall id :: id in RunEvents(events).state.streamed <==> StreamedBefore(events, id)
    decreases |events|
  {
    if events != [] {
      var init, last := Init(events), Last(events);
      assert events == init + [last];
      StreamedIs(init);
      forall id {
        StreamedSnoc(init, last, id);
      }
      hide StreamedBefore, Flush;
    }
  }

  /** After any events a whole message is printed if and only if it has no id or no text of it
      was streamed; so nothing is printed twice, and nothing that was not streamed is lost. */
  lemma PrintsExactly(events: seq<Event>, message: Option<string>, texts: seq<Text>)
    ensures Prints(RunEvents(events).state, Assistant(message, texts)) <==> message.None? || !StreamedBefore(events, message.value)
    ensures RunEvents(events + [Assistant(message, texts)]).out
         == RunEvents(events).out + (if message.None? || !StreamedBefore(events, message.value) then EmittedSplit(texts) else [])
  {
    StreamedIs(events);
    assert Init(events + [Assistant(message, texts)]) == events;
    hide StreamedBefore, EmittedSplit;
  }

  // ---- Where the soft wrap cuts ----

  /** The last blank of t is at i. */
  predicate LastBlank(t: Text, i: nat) {
    i < |t| && t[i] == SPACE && forall j | i < j < |t| :: t[j] != SPACE
  }

  lemma NoBlank(t: Text)
    requires forall j | 0 < j < |t| :: t[j] != SPACE
    ensures LastSpace(t) <= 0
  {}

  lemma BlankIsLast(t: Text, i: nat)
    requires LastBlank(t, i)
    ensures LastSpace(t) == i
  {}

  /** Below 120 units nothing is cut.  From there on the text is cut at its last blank, so no
      word is broken; without one it goes out whole, and so does what follows the blank if that
      alone has 120 units. */
  lemma WrapExactly(rest: Text, cut: nat)
    ensures |rest| < 120 ==> Wrap(rest) == Flushed([], rest)
    ensures |rest| >= 120 && (forall j | 0 < j < |rest| :: rest[j] != SPACE) ==> Wrap(rest) == Flushed(Emitted([rest]), [])
    ensures |rest| >= 120 && 0 < cut && LastBlank(rest, cut) ==>
              Wrap(rest) == if |rest| - cut - 1 < 120 then Flushed(Emitted([rest[..cut]]), rest[cut + 1..])
                            else Flushed(Emitted([rest[..cut]]) + Emitted([rest[cut + 1..]]), [])
  {
    hide Emitted, LastSpace;
    if |rest| >= 120 && forall j | 0 < j < |rest| :: rest[j] != SPACE {
      NoBlank(rest);
    }
    if |rest| >= 120 && 0 < cut && LastBlank(rest, cut) {
      BlankIsLast(rest, cut);
      NoBlank(rest[cut + 1..]);
      NothingAfter(Emitted([rest[..cut]]));
    }
  }

  lemma NothingAfter<T>(s: seq<T>)
    ensures s + [] == s
  {}
}
