/** The parser object, updated in place chunk by chunk, against StreamJson. */
module StreamParser {
  import opened Wrappers
  import opened Splitting
  import opened StreamChunks
  import opened StreamJson

  lemma WrapCases(rest: Text)
    ensures var cut := LastSpace(rest);
            Wrap(rest) ==
              if |rest| < SOFT_WRAP then Flushed([], rest)
              else if cut > 0 then Flushed(Emitted([rest[..cut]]) + Wrap(rest[cut + 1..]).out, Wrap(rest[cut + 1..]).rest)
              else Flushed(Emitted([rest]), [])
  {}

  class Parser {
    const parse: Parse
    var buffer: Text
    var text: Text
    var streamedMessages: set<string>
    var currentMessage: Option<string>
    /** What the sink was given; a sink that throws is ignored. */
    var printed: seq<Text>
    ghost var chunks: seq<Text>

    ghost function Now(): Run
      reads this
    {
      Run(State(text, streamedMessages, currentMessage), printed)
    }

    /** The object has seen exactly the lines of its chunks. */
    ghost predicate Valid()
      reads this
    {
      buffer == FeedAll(chunks).buffer && Now() == RunEvents(EventsOf(parse, FeedAll(chunks).handed))
    }

    constructor (parse: Parse)
      ensures Valid() && chunks == [] && printed == [] && this.parse == parse
    {
      this.parse := parse;
      buffer, text, streamedMessages, currentMessage, printed, chunks := [], [], {}, None, [], [];
    }

    method Emit(t: Text)
      modifies this`printed
      ensures printed == old(printed) + Emitted([t])
    {
      assert Init([t]) == [];
      if Trim(t) == [] {
        return;
      }
      printed := printed + [t];
    }

    method EmitPieces(pieces: seq<Text>)
      modifies this`printed
      ensures printed == old(printed) + Emitted(pieces)
    {
      for i := 0 to |pieces|
        invariant printed == old(printed) + Emitted(pieces[..i])
      {
        Emit(pieces[i]);
        EmittedSnoc(pieces[..i], pieces[i]);
        assert pieces[..i + 1] == pieces[..i] + [pieces[i]];
      }
      assert pieces[..|pieces|] == pieces;
    }

    static lemma EmittedSnoc(pieces: seq<Text>, t: Text)
      ensures Emitted(pieces + [t]) == Emitted(pieces) + Emitted([t])
    {}

    /** The soft-wrap loop. */
    method WrapText(tail: Text) returns (rest: Text)
      modifies this`printed
      ensures rest == Wrap(tail).rest && printed == old(printed) + Wrap(tail).out
    {
      hide Emitted, LastSpace, Trim, Wrap;
      WrapCases(tail);
      rest := tail;
      while |rest| >= SOFT_WRAP
        invariant old(printed) + Wrap(tail).out == printed + Wrap(rest).out
        invariant Wrap(tail).rest == Wrap(rest).rest
        decreases |rest|
      {
        WrapCases(rest);
        var cut := LastSpace(rest);
        var at := if cut > 0 then cut else |rest|;
        ghost var before, whole := printed, rest;
        Emit(rest[..at]);
        if cut <= 0 {
          assert whole[..at] == whole && printed + [] == before + Wrap(whole).out;
          return [];
        }
        rest := rest[at..];
        if rest != [] && rest[0] == SPACE {
          rest := rest[1..];
        }
        assert rest == whole[cut + 1..];
        Associate(before, Emitted([whole[..cut]]), Wrap(rest).out);
      }
      WrapCases(rest);
      assert printed + [] == printed;
    }

    method FlushText(all: bool)
      modifies this`text, this`printed
      ensures text == Flush(old(text), all).rest
      ensures printed == old(printed) + Flush(old(text), all).out
    {
      hide Emitted, Wrap, Split;
      var pieces := Split(text, LF);
      if all {
        EmitPieces(pieces);
        text := [];
      } else {
        EmitPieces(Init(pieces));
        text := WrapText(Last(pieces));
        assert (old(printed) + Emitted(Init(pieces))) + Wrap(Last(pieces)).out
            == old(printed) + (Emitted(Init(pieces)) + Wrap(Last(pieces)).out);
      }
    }

    method PrintMessage(texts: seq<Text>)
      modifies this`printed
      ensures printed == old(printed) + EmittedSplit(texts)
    {
      for i := 0 to |texts|
        invariant printed == old(printed) + EmittedSplit(texts[..i])
      {
        EmitPieces(Split(texts[i], LF));
        assert Init(texts[..i + 1]) == texts[..i];
      }
      assert texts[..|texts|] == texts;
    }

    method HandleLine(raw: Text)
      modifies this`text, this`printed, this`streamedMessages, this`currentMessage
      ensures Now() == Run(Next(old(Now()).state, EventOf(parse, raw)), old(printed) + Out(old(Now()).state, EventOf(parse, raw)))
    {
      var trimmed := Trim(raw);
      if trimmed == [] || trimmed[0] != BRACE {
        return;
      }
      match parse(trimmed)
      case MessageStart(id) =>
        currentMessage := Some(id);
      case TextDelta(delta) =>
        if currentMessage.Some? {
          streamedMessages := streamedMessages + {currentMessage.value};
        }
        text := text + delta;
        FlushText(false);
      case BlockStop =>
        FlushText(true);
      case Assistant(id, texts) =>
        if id.Some? && id.value in streamedMessages {
          return;
        }
        PrintMessage(texts);
      case Other =>
    }

    static lemma FittingSnoc(handed: seq<Text>, parts: seq<Text>, i: nat)
      requires i < |parts|
      ensures handed + Fitting(parts[..i + 1]) ==
                if |parts[i]| <= LINE_MAX then (handed + Fitting(parts[..i])) + [parts[i]] else handed + Fitting(parts[..i])
    {
      assert Init(parts[..i + 1]) == parts[..i];
    }

    method Feed(chunk: Text)
      requires Valid()
      modifies this
      ensures Valid() && chunks == old(chunks) + [chunk]
    {
      hide Next, Out, EventOf, RunEvents, Split;
      ghost var fed := FeedAll(chunks);
      assert fed.handed + Fitting([]) == fed.handed;
      var parts := Split(buffer + chunk, LF);
      buffer := Last(parts);
      parts := Init(parts);
      for i := 0 to |parts|
        invariant buffer == Last(Split(fed.buffer + chunk, LF)) && chunks == old(chunks)
        invariant Now() == RunEvents(EventsOf(parse, fed.handed + Fitting(parts[..i])))
      {
        FittingSnoc(fed.handed, parts, i);
        if |parts[i]| <= LINE_MAX {
          HandleMore(parse, fed.handed + Fitting(parts[..i]), parts[i]);
          HandleLine(parts[i]);
        }
      }
      assert parts[..|parts|] == parts;
      if |buffer| > LINE_MAX {
        buffer := [];
      }
      chunks := chunks + [chunk];
      assert Init(chunks) == old(chunks);
    }

    /** After the end the sink has had the output of the whole stream. */
    method End()
      requires Valid()
      modifies this
      ensures printed == Output(parse, chunks) && chunks == old(chunks) && text == [] && buffer == []
    {
      ghost var handed := FeedAll(chunks).handed;
      if Trim(buffer) != [] {
        HandleMore(parse, handed, buffer);
        HandleLine(buffer);
      } else {
        assert handed + [] == handed;
      }
      buffer := [];
      FlushText(true);
    }
  }

  /** Two ways of cutting one stream print the same, if no tail of a line over the limit is an
      event. */
  method ParseTwice(parse: Parse, a: seq<Text>, b: seq<Text>) returns (first: seq<Text>, second: seq<Text>)
    requires Concat(a) == Concat(b) && Harmless(parse, Concat(a))
    ensures first == second
  {
    first := ParseAll(parse, a);
    second := ParseAll(parse, b);
    OutputOfStream(parse, a);
    OutputOfStream(parse, b);
  }

  method ParseAll(parse: Parse, chunks: seq<Text>) returns (printed: seq<Text>)
    ensures printed == Output(parse, chunks)
  {
    var parser := new Parser(parse);
    for i := 0 to |chunks|
      invariant parser.Valid() && parser.chunks == chunks[..i] && parser.parse == parse && fresh(parser)
    {
      parser.Feed(chunks[i]);
      assert chunks[..i + 1] == chunks[..i] + [chunks[i]];
    }
    assert chunks[..|chunks|] == chunks;
    parser.End();
    printed := parser.printed;
  }
}
