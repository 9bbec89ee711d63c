/** The bounded line pump over one output stream of a child process: bytes are ASCII, so a
    decoded chunk is the chunk. */
module LinePump {
  import opened Wrappers
  import opened Splitting

  const LF: byte := 10
  const CR: byte := 13

  datatype Limits = Limits(maxBytes: int, maxLineBytes: int, maxLines: int)

  /** How a pump ends; the first three are limit errors. */
  datatype Outcome = TotalBytes | LineBytes | LineCount | CallbackThrew | BadLimits | Done

  /** split(/\r?\n/) takes one carriage return with the line feed. */
  function Chop(line: seq<byte>): seq<byte> {
    if line != [] && Last(line) == CR then Init(line) else line
  }

  function ChopAll(raw: seq<seq<byte>>): (lines: seq<seq<byte>>)
    ensures |lines| == |raw| && forall i | 0 <= i < |raw| :: lines[i] == Chop(raw[i])
  {
    seq(|raw|, i requires 0 <= i < |raw| => Chop(raw[i]))
  }

  /** The lines ended by a line feed. */
  function Ended(text: seq<byte>): seq<seq<byte>> {
    ChopAll(Init(Split(text, LF)))
  }

  function Rest(text: seq<byte>): seq<byte> {
    Last(Split(text, LF))
  }

  /** The lines of a whole text: an unfinished last line counts if it is not empty. */
  function Lines(text: seq<byte>): seq<seq<byte>> {
    Ended(text) + (if Rest(text) == [] then [] else [Rest(text)])
  }

  /** No line, its carriage return included, is longer than max bytes. */
  predicate LinesFit(text: seq<byte>, max: int) {
    forall p | p in Split(text, LF) :: |p| <= max
  }

  predicate Acceptable(text: seq<byte>, onLine: seq<byte> -> bool, limits: Limits) {
    && limits.maxBytes > 0 && limits.maxLineBytes > 0 && limits.maxLines > 0
    && |text| <= limits.maxBytes && LinesFit(text, limits.maxLineBytes) && |Lines(text)| <= limits.maxLines
    && forall line | line in Lines(text) :: onLine(line)
  }

  /** A chunk ends the lines it ends, wherever its boundaries fall. */
  lemma EndedGrows(a: seq<byte>, b: seq<byte>)
    ensures Ended(a + b) == Ended(a) + Ended(Rest(a) + b) && Rest(a + b) == Rest(Rest(a) + b)
    ensures Ended(a) <= Lines(a + b)
  {
    SplitAppend(a, b, LF);
    var tail := Split(Rest(a) + b, LF);
    assert Init(Init(Split(a, LF)) + tail) == Init(Split(a, LF)) + Init(tail);
  }

  lemma FitPieces(init: seq<seq<byte>>, last: seq<byte>, max: int)
    ensures (forall p | p in init + [last] :: |p| <= max) <==> (forall p | p in init :: |p| <= max) && |last| <= max
  {}

  /** One more byte: the length of the line it continues or ends. */
  lemma FitGrows(text: seq<byte>, b: byte, max: int)
    ensures Rest(text + [b]) == (if b == LF then [] else Rest(text) + [b])
    ensures LinesFit(text + [b], max) <==> LinesFit(text, max) && |Rest(text + [b])| <= max
  {
    var init, last := Init(Split(text, LF)), Last(Split(text, LF));
    SplitSnoc(text, b, LF);
    hide Split;
    assert Split(text, LF) == init + [last];
    FitPieces(init + [last], [], max);
    FitPieces(init, last, max);
    FitPieces(init, last + [b], max);
  }

  lemma {:induction false} FitPrefix(a: seq<byte>, b: seq<byte>, max: int)
    requires LinesFit(a + b, max)
    ensures LinesFit(a, max)
    decreases |b|
  {
    if b == [] {
      assert a + b == a;
    } else {
      assert a + b == (a + Init(b)) + [Last(b)];
      FitGrows(a + Init(b), Last(b), max);
      FitPrefix(a, Init(b), max);
    }
  }

  /** Why a pump failed; with every failure the callback has seen the returned lines. */
  ghost predicate Fails(text: seq<byte>, lines: seq<seq<byte>>, onLine: seq<byte> -> bool, limits: Limits, outcome: Outcome) {
    && lines <= Lines(text)
    && match outcome
       case TotalBytes => |text| > limits.maxBytes && forall line | line in lines :: onLine(line)
       case LineBytes => !LinesFit(text, limits.maxLineBytes) && forall line | line in lines :: onLine(line)
       case LineCount => |lines| == limits.maxLines < |Lines(text)| && forall line | line in lines :: onLine(line)
       case CallbackThrew => lines != [] && !onLine(Last(lines)) && forall line | line in Init(lines) :: onLine(line)
       case BadLimits => lines == [] && (limits.maxBytes <= 0 || limits.maxLineBytes <= 0 || limits.maxLines <= 0)
       case Done => false
  }

  /** The byte loop: the running length of the current line against the limit. */
  method CountBytes(ghost text: seq<byte>, value: seq<byte>, start: nat, max: int) returns (fits: bool, current: nat)
    requires start == |Rest(text)| && LinesFit(text, max)
    ensures fits <==> LinesFit(text + value, max)
    ensures fits ==> current == |Rest(text + value)|
  {
    current := start;
    assert text + value[..0] == text;
    for k := 0 to |value|
      invariant current == |Rest(text + value[..k])| && LinesFit(text + value[..k], max)
    {
      assert text + value[..k + 1] == (text + value[..k]) + [value[k]];
      FitGrows(text + value[..k], value[k], max);
      if value[k] == LF {
        current := 0;
      } else {
        current := current + 1;
        if current > max {
          assert text + value == (text + value[..k + 1]) + value[k + 1..];
          if LinesFit(text + value, max) {
            FitPrefix(text + value[..k + 1], value[k + 1..], max);
          }
          return false, current;
        }
      }
    }
    assert value[..|value|] == value;
    return true, current;
  }

  /** The rest of a chunk loop: hands over lines until the count or the callback stops it. */
  method AcceptLines(accepted: seq<seq<byte>>, more: seq<seq<byte>>, onLine: seq<byte> -> bool, maxLines: int)
    returns (outcome: Outcome, lines: seq<seq<byte>>)
    requires |accepted| <= maxLines && forall line | line in accepted :: onLine(line)
    ensures accepted <= lines <= accepted + more && |lines| <= maxLines
    ensures outcome == Done <==> |accepted + more| <= maxLines && forall line | line in more :: onLine(line)
    ensures outcome == Done ==> lines == accepted + more && forall line | line in lines :: onLine(line)
    ensures outcome == LineCount ==> |lines| == maxLines < |accepted + more| && forall line | line in lines :: onLine(line)
    ensures outcome == CallbackThrew ==> lines != [] && !onLine(Last(lines)) && forall line | line in Init(lines) :: onLine(line)
    ensures outcome in {Done, LineCount, CallbackThrew}
  {
    lines := accepted;
    for i := 0 to |more|
      invariant lines == accepted + more[..i] && |lines| <= maxLines
      invariant forall line | line in lines :: onLine(line)
      invariant forall line | line in more[..i] :: onLine(line)
    {
      if |lines| + 1 > maxLines {
        return LineCount, lines;
      }
      assert more[..i + 1] == more[..i] + [more[i]];
      lines := lines + [more[i]];
      if !onLine(more[i]) {
        assert Init(lines) == accepted + more[..i];
        return CallbackThrew, lines;
      }
    }
    assert more[..|more|] == more;
    return Done, lines;
  }

  /** What the lines handed over before a stop say about the whole text. */
  lemma Stops(text: seq<byte>, rest: seq<byte>, lines: seq<seq<byte>>, onLine: seq<byte> -> bool, limits: Limits, outcome: Outcome)
    requires lines <= Ended(text) || (lines <= Lines(text) && rest == [])
    requires outcome == CallbackThrew || forall line | line in lines :: onLine(line)
    requires match outcome
             case TotalBytes => |text| > limits.maxBytes
             case LineBytes => !LinesFit(text, limits.maxLineBytes)
             case LineCount => |lines| == limits.maxLines && |lines| < (if rest == [] then |Lines(text)| else |Ended(text)|)
             case CallbackThrew => lines != [] && !onLine(Last(lines)) && forall line | line in Init(lines) :: onLine(line)
             case BadLimits => false
             case Done => false
    ensures Fails(text + rest, lines, onLine, limits, outcome) && !Acceptable(text + rest, onLine, limits)
  {
    EndedGrows(text, rest);
    if rest == [] {
      assert text + rest == text;
    }
    assert lines <= Lines(text + rest);
    if outcome == LineBytes && LinesFit(text + rest, limits.maxLineBytes) {
      FitPrefix(text, rest, limits.maxLineBytes);
    }
    if outcome == CallbackThrew {
      assert Last(lines) in lines;
      assert Last(lines) in Lines(text + rest);
    }
  }

  /** One turn of the read loop. */
  method TakeChunk(ghost text: seq<byte>, value: seq<byte>, ghost rest: seq<byte>, totalBytes: int, start: nat, pending: seq<byte>,
                   accepted: seq<seq<byte>>, onLine: seq<byte> -> bool, limits: Limits)
    returns (outcome: Outcome, currentLineBytes: nat, left: seq<byte>, lines: seq<seq<byte>>)
    requires totalBytes == |text + value| && LinesFit(text, limits.maxLineBytes)
    requires start == |Rest(text)| && pending == Rest(text)
    requires accepted == Ended(text) && |accepted| <= limits.maxLines && forall line | line in accepted :: onLine(line)
    ensures outcome == Done ==>
              && totalBytes <= limits.maxBytes && LinesFit(text + value, limits.maxLineBytes)
              && currentLineBytes == |Rest(text + value)| && left == Rest(text + value)
              && lines == Ended(text + value) && forall line | line in lines :: onLine(line)
    ensures |lines| <= limits.maxLines
    ensures outcome != Done ==> Fails(text + value + rest, lines, onLine, limits, outcome) && !Acceptable(text + value + rest, onLine, limits)
  {
    hide Ended, Rest, Lines, LinesFit, Acceptable, Fails;
    currentLineBytes, left, lines := start, pending, accepted;
    EndedGrows(text, value);
    ghost var now := text + value;
    if totalBytes > limits.maxBytes {
      Stops(now, rest, lines, onLine, limits, TotalBytes);
      return TotalBytes, currentLineBytes, left, lines;
    }
    var fits;
    fits, currentLineBytes := CountBytes(text, value, start, limits.maxLineBytes);
    if !fits {
      Stops(now, rest, lines, onLine, limits, LineBytes);
      return LineBytes, currentLineBytes, left, lines;
    }
    left := Rest(pending + value);
    outcome, lines := AcceptLines(accepted, Ended(pending + value), onLine, limits.maxLines);
    if outcome != Done {
      EndedShorter(now);
      Stops(now, rest, lines, onLine, limits, outcome);
    }
  }

  /** However the stream is cut into chunks, the pump succeeds exactly on acceptable texts and
      then returns the lines of the whole text; otherwise it returns a first part of them, and
      never more than maxLines. */
  method Pump(chunks: seq<seq<byte>>, onLine: seq<byte> -> bool, limits: Limits) returns (outcome: Outcome, lines: seq<seq<byte>>)
    ensures outcome == Done <==> Acceptable(Concat(chunks), onLine, limits)
    ensures outcome == Done ==> lines == Lines(Concat(chunks))
    ensures outcome != Done ==> Fails(Concat(chunks), lines, onLine, limits, outcome)
    ensures outcome != BadLimits ==> |lines| <= limits.maxLines
  {
    lines := [];
    if limits.maxBytes <= 0 || limits.maxLineBytes <= 0 || limits.maxLines <= 0 {
      return BadLimits, lines;
    }
    hide Ended, Rest, Lines, LinesFit, Acceptable, Fails, Concat;
    ghost var whole := Concat(chunks);
    ghost var text: seq<byte> := [];
    var totalBytes, currentLineBytes, pending: seq<byte> := 0, 0, [];
    Starts(chunks, limits.maxLineBytes);
    for i := 0 to |chunks|
      invariant whole == text + Concat(chunks[i..])
      invariant totalBytes == |text| <= limits.maxBytes && LinesFit(text, limits.maxLineBytes)
      invariant currentLineBytes == |Rest(text)| && pending == Rest(text)
      invariant lines == Ended(text) && |lines| <= limits.maxLines && forall line | line in lines :: onLine(line)
    {
      ghost var rest := Concat(chunks[i + 1..]);
      ConcatAt(chunks, i);
      Associate(text, chunks[i], rest);
      totalBytes := totalBytes + |chunks[i]|;
      outcome, currentLineBytes, pending, lines :=
        TakeChunk(text, chunks[i], rest, totalBytes, currentLineBytes, pending, lines, onLine, limits);
      if outcome != Done {
        return;
      }
      text := text + chunks[i];
    }
    assert chunks[|chunks|..] == [];
    LinesAre(whole);
    NoChunks();
    assert whole == text;
    outcome, lines := AcceptLines(lines, if pending != [] then [pending] else [], onLine, limits.maxLines);
    if outcome != Done {
      Stops(whole, [], lines, onLine, limits, outcome);
      assert whole + [] == whole;
    } else {
      Succeeds(whole, lines, onLine, limits);
    }
  }

  lemma Succeeds(text: seq<byte>, lines: seq<seq<byte>>, onLine: seq<byte> -> bool, limits: Limits)
    requires limits.maxBytes > 0 && limits.maxLineBytes > 0 && limits.maxLines > 0
    requires |text| <= limits.maxBytes && LinesFit(text, limits.maxLineBytes)
    requires lines == Lines(text) && |lines| <= limits.maxLines && forall line | line in lines :: onLine(line)
    ensures Acceptable(text, onLine, limits)
  {}

  lemma NoChunks()
    ensures Concat<byte>([]) == []
  {}

  lemma EndedShorter(text: seq<byte>)
    ensures Ended(text) <= Lines(text)
  {}

  lemma Starts(chunks: seq<seq<byte>>, max: int)
    requires max > 0
    ensures Rest([]) == [] && Ended([]) == [] && LinesFit([], max)
    ensures Concat(chunks) == [] + Concat(chunks[0..])
  {}

  lemma LinesAre(text: seq<byte>)
    ensures Lines(text) == Ended(text) + (if Rest(text) == [] then [] else [Rest(text)])
  {}

  lemma ConcatAt(chunks: seq<seq<byte>>, i: nat)
    requires i < |chunks|
    ensures Concat(chunks[i..]) == chunks[i] + Concat(chunks[i + 1..])
  {
    assert chunks[i..] == [chunks[i]] + chunks[i + 1..];
    ConcatAppend([chunks[i]], chunks[i + 1..]);
    assert Concat([chunks[i]]) == Concat([]) + chunks[i];
  }

  // ---- Reading lines back ----

  /** Lines with their ends, a carriage return and a line feed or a line feed alone. */
  function Ending(lines: seq<seq<byte>>, crlf: seq<bool>): seq<byte>
    requires |lines| == |crlf|
  {
    if lines == [] then [] else lines[0] + (if crlf[0] then [CR, LF] else [LF]) + Ending(lines[1..], crlf[1..])
  }

  lemma SplitsFirst(line: seq<byte>, more: seq<byte>)
    requires LF !in line
    ensures Split(line + [LF] + more, LF) == [line] + Split(more, LF)
  {
    EndsPiece(line, LF);
    SplitAppend(line + [LF], more, LF);
    assert Init([line, []]) == [line] && [] + more == more;
  }

  lemma EndedFirst(line: seq<byte>, more: seq<byte>)
    requires LF !in line
    ensures Ended(line + [LF] + more) == [Chop(line)] + Ended(more) && Rest(line + [LF] + more) == Rest(more)
  {
    SplitsFirst(line, more);
    hide Split;
    assert Init([line] + Split(more, LF)) == [line] + Init(Split(more, LF));
  }

  lemma LinesFirst(line: seq<byte>, more: seq<byte>)
    requires LF !in line
    ensures Lines(line + [LF] + more) == [Chop(line)] + Lines(more)
  {
    EndedFirst(line, more);
    hide Ended, Rest, Chop;
    Associate([Chop(line)], Ended(more), if Rest(more) == [] then [] else [Rest(more)]);
  }

  function WithReturn(line: seq<byte>, crlf: bool): seq<byte> {
    if crlf then line + [CR] else line
  }

  lemma EndingFirst(lines: seq<seq<byte>>, crlf: seq<bool>, rest: seq<byte>)
    requires |lines| == |crlf| && lines != []
    ensures Ending(lines, crlf) + rest == WithReturn(lines[0], crlf[0]) + [LF] + (Ending(lines[1..], crlf[1..]) + rest)
  {
    assert lines[0] + [CR, LF] == lines[0] + [CR] + [LF];
    var line, more := WithReturn(lines[0], crlf[0]), Ending(lines[1..], crlf[1..]);
    assert Ending(lines, crlf) == line + [LF] + more;
    Associate(line + [LF], more, rest);
  }

  lemma ChopReturn(line: seq<byte>, crlf: bool)
    requires LF !in line && (line != [] ==> Last(line) != CR)
    ensures Chop(WithReturn(line, crlf)) == line && LF !in WithReturn(line, crlf)
  {
    assert crlf ==> Init(line + [CR]) == line;
  }

  lemma NoLines(rest: seq<byte>)
    requires LF !in rest
    ensures Lines(rest) == if rest == [] then [] else [rest]
  {
    SplitNone(rest, LF);
    assert Init([rest]) == [] && Last([rest]) == rest;
    assert Ended(rest) == [];
  }

  lemma ConsBack<T>(s: seq<T>, t: seq<T>)
    ensures s != [] ==> [s[0]] + (s[1..] + t) == s + t
    ensures s == [] ==> s + t == t
  {}

  /** Lines that hold no line feed and end in no carriage return are read back exactly, with
      either kind of line end, and an unfinished last line as it stands. */
  lemma {:induction false} LinesReadBack(lines: seq<seq<byte>>, crlf: seq<bool>, rest: seq<byte>)
    requires |lines| == |crlf| && LF !in rest
    requires forall line | line in lines :: LF !in line && (line != [] ==> Last(line) != CR)
    ensures Lines(Ending(lines, crlf) + rest) == lines + (if rest == [] then [] else [rest])
    decreases |lines|
  {
    hide Lines, Chop, WithReturn;
    NoLines(rest);
    var last := if rest == [] then [] else [rest];
    ConsBack(lines, last);
    if lines == [] {
      ConsBack<byte>([], rest);
    } else {
      hide Ending;
      var first, others := lines[0], lines[1..];
      assert first in lines && forall line | line in others :: line in lines;
      LinesReadBack(others, crlf[1..], rest);
      EndingFirst(lines, crlf, rest);
      ChopReturn(first, crlf[0]);
      LinesFirst(WithReturn(first, crlf[0]), Ending(others, crlf[1..]) + rest);
    }
  }
}
