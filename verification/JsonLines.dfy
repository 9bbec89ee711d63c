/** Streams of JSON texts (RFC 8259): what every JSON object looks like to a scanner of its
    braces and strings, and that no tail of one looks like it.  So a stream whose lines over
    the limit are whole JSON events prints the same in every chunking. */
module JsonLines {
  import opened Splitting
  import opened StreamJson
  import opened StreamChunks

  const QUOTE: Unit := 34
  const BACKSLASH: Unit := 92
  const CLOSE: Unit := 125

  /** Between two characters: how many braces are open, and whether in a string or behind a
      backslash in one; Broken after a backslash outside strings. */
  datatype Scan = At(depth: int, inString: bool, escaped: bool) | Broken

  function Step(s: Scan, u: Unit): Scan {
    if s.Broken? then Broken
    else if s.inString then
      if s.escaped then At(s.depth, true, false)
      else if u == BACKSLASH then At(s.depth, true, true)
      else At(s.depth, u != QUOTE, false)
    else if u == BACKSLASH then Broken
    else if u == QUOTE then At(s.depth, true, false)
    else At(s.depth + (if u == BRACE then 1 else if u == CLOSE then -1 else 0), false, false)
  }

  function Scanned(s: Scan, t: Text): Scan
    decreases |t|
  {
    if t == [] then s else Scanned(Step(s, t[0]), t[1..])
  }

  const Outside := At(0, false, false)

  /** The text opens with a brace, which its last character closes. */
  predicate Enclosed(t: Text) {
    && t != [] && t[0] == BRACE && Scanned(Outside, t) == Outside
    && forall k | 0 < k < |t| :: Scanned(Outside, t[..k]).At? && Scanned(Outside, t[..k]).depth > 0
  }

  /** What is known of JSON.parse: a text that opens with a brace is read only as an object,
      whose braces outside strings nest and which has backslashes in strings alone. */
  ghost predicate ReadsJson(parse: Parse) {
    forall t :: parse(t) != Other ==> Enclosed(t)
  }

  lemma {:induction false} ScannedJoin(s: Scan, a: Text, b: Text)
    ensures Scanned(s, a + b) == Scanned(Scanned(s, a), b)
    decreases |a|
  {
    if a == [] {
      assert a + b == b;
    } else {
      assert (a + b)[1..] == a[1..] + b;
      ScannedJoin(Step(s, a[0]), a[1..], b);
    }
  }

  lemma {:induction false} StaysBroken(t: Text)
    ensures Scanned(Broken, t) == Broken
  {
    if t != [] {
      StaysBroken(t[1..]);
    }
  }

  /** Outside strings the same text opens and closes the same braces at any depth. */
  lemma {:induction false} DepthShifts(a: Scan, d: int, t: Text)
    requires a.At? && Scanned(a, t).At?
    ensures Scanned(a.(depth := a.depth + d), t) == Scanned(a, t).(depth := Scanned(a, t).depth + d)
    decreases |t|
  {
    if t != [] {
      if Step(a, t[0]).Broken? {
        StaysBroken(t[1..]);
      }
      DepthShifts(Step(a, t[0]), d, t[1..]);
    }
  }

  /** Of two scans of one text, one in a string and one outside, not both end outside: each
      quote changes both over, and a backslash breaks one of them. */
  lemma {:induction false} Opposed(a: Scan, b: Scan, t: Text)
    requires a.At? && b.At? && a.inString && !a.escaped && !b.inString
    ensures !((Scanned(a, t).At? && !Scanned(a, t).inString) && (Scanned(b, t).At? && !Scanned(b, t).inString))
    decreases |t|
  {
    if t != [] {
      var a', b' := Step(a, t[0]), Step(b, t[0]);
      if t[0] == BACKSLASH {
        StaysBroken(t[1..]);
      } else if t[0] == QUOTE {
        Opposed(b', a', t[1..]);
      } else {
        Opposed(a', b', t[1..]);
      }
    }
  }

  /** No proper tail of an object is an object. */
  lemma TailNotEnclosed(t: Text, k: nat)
    requires Enclosed(t) && 0 < k < |t|
    ensures !Enclosed(t[k..])
  {
    var u, here := t[k..], Scanned(Outside, t[..k]);
    assert t == t[..k] + u;
    ScannedJoin(Outside, t[..k], u);
    if Enclosed(u) {
      if !here.inString {
        NotEscaped(t[..k]);
        DepthShifts(Outside, here.depth, u);
        assert false;
      }
      var b := Step(Outside, u[0]);
      Opposed(Step(here, u[0]), b, u[1..]);
      assert false;
    }
  }

  lemma {:induction false} NotEscaped(t: Text)
    ensures Scanned(Outside, t).At? && !Scanned(Outside, t).inString ==> !Scanned(Outside, t).escaped
    decreases |t|
  {
    if t != [] {
      var init, last := Init(t), Last(t);
      assert t == init + [last];
      ScannedJoin(Outside, init, [last]);
      assert [last][1..] == [];
      NotEscaped(init);
    }
  }

  // ---- Lines of a stream ----

  /** The line is one object, and it does not begin after more blanks than the limit. */
  ghost predicate JsonLine(line: Text) {
    Enclosed(Trim(line)) && exists k: nat :: k <= LINE_MAX && k < |line| && !White(line[k])
  }

  lemma {:induction false} TrimStartAt(t: Text) returns (i: nat)
    ensures i <= |t| && TrimStart(t) == t[i..] && (forall k | 0 <= k < i :: White(t[k])) && (i < |t| ==> !White(t[i]))
  {
    if t != [] && White(t[0]) {
      i := TrimStartAt(t[1..]);
      i := i + 1;
      assert forall k | 1 <= k < i :: t[k] == t[1..][k - 1];
    } else {
      i := 0;
    }
  }

  /** What is trimmed away is white, and what is left begins and ends with ink. */
  lemma {:induction false} TrimAt(t: Text) returns (i: nat, j: nat)
    ensures i <= j <= |t| && Trim(t) == t[i..j]
    ensures (forall k | 0 <= k < i || j <= k < |t| :: White(t[k])) && (i < j ==> !White(t[i]) && !White(t[j - 1]))
    decreases |t|
  {
    if t != [] && White(Last(t)) {
      i, j := TrimAt(Init(t));
      assert forall k | 0 <= k < |t| - 1 :: t[k] == Init(t)[k];
    } else {
      i := TrimStartAt(t);
      j := |t|;
    }
  }

  /** Trimming a tail of a line gives a proper tail of the trimmed line, or nothing. */
  lemma TrimTail(line: Text, q: nat) returns (k: nat)
    requires q <= |line| && Trim(line[q..]) != [] && exists k: nat :: k < q && !White(line[k])
    ensures 0 < k < |Trim(line)| && Trim(line[q..]) == Trim(line)[k..]
  {
    var i, j := TrimAt(line);
    var tail := line[q..];
    var i', j' := TrimAt(tail);
    hide Trim, White;
    assert forall n | 0 <= n < |tail| :: tail[n] == line[q + n];
    assert q + j' <= j;
    assert tail[j - 1 - q] == line[j - 1];
    assert j == q + j';
    k := q + i' - i;
    assert line[i..j][k..] == line[q + i'..j] == tail[i'..j'];
  }

  /** However its tail is cut off, a line that is an object leaves no event. */
  lemma JsonLineIsHarmless(parse: Parse, line: Text)
    requires ReadsJson(parse) && JsonLine(line)
    ensures HarmlessLine(parse, line)
  {
    hide Enclosed, Trim, White;
    forall q: nat | Cuttable(line, q)
      ensures EventOf(parse, line[q..]) == Other
    {
      if EventOf(parse, line[q..]) != Other {
        EventHasInk(parse, line[q..]);
        var k := TrimTail(line, q);
        TailNotEnclosed(Trim(line), k);
      }
    }
  }

  lemma ShortIsHarmless(parse: Parse, line: Text)
    requires |line| <= LINE_MAX
    ensures HarmlessLine(parse, line)
  {}

  /** For every parser that reads JSON: a stream whose lines over the limit are whole objects
      prints the same in every chunking, what its other lines print. */
  lemma WholeObjectsAreSame(parse: Parse, stream: Text)
    requires ReadsJson(parse) && forall p | p in Split(stream, LF) && |p| > LINE_MAX :: JsonLine(p)
    ensures Harmless(parse, stream) && SameOutput(parse, stream) && SameEvents(parse, stream)
  {
    hide Split, HarmlessLine, ReadsJson, JsonLine, SameOutput, SameEvents;
    forall p | p in Split(stream, LF) ensures HarmlessLine(parse, p) {
      if |p| <= LINE_MAX {
        ShortIsHarmless(parse, p);
      } else {
        JsonLineIsHarmless(parse, p);
      }
    }
    HarmlessIsSame(parse, stream);
    EventsExactly(parse, stream);
  }

  const EMPTY: Text := [BRACE, CLOSE]

  function OnlyEmpty(): Parse {
    t => if t == EMPTY then MESSAGE else Other
  }

  /** And it is not so for all streams: a parser that reads one empty object as a message, and
      that object after too long a beginning. */
  lemma ObjectAfterJunk(junk: Text)
    requires LF !in junk && |junk| > LINE_MAX
    ensures ReadsJson(OnlyEmpty()) && !SameOutput(OnlyEmpty(), junk + EMPTY)
  {
    EmptyObject();
    EmptyIsMessage();
    hide Output, InkAll, EventOf, OnlyEmpty, Split;
    JunkThenMessage(OnlyEmpty(), junk, EMPTY);
    MessageHasInk();
    FeedOne(junk + EMPTY);
  }

  lemma EmptyIsMessage()
    ensures EventOf(OnlyEmpty(), EMPTY) == MESSAGE && ReadsJson(OnlyEmpty()) && InkAll([]) == []
  {
    EmptyObject();
  }

  lemma EmptyObject()
    ensures Enclosed(EMPTY) && Trim(EMPTY) == EMPTY
  {
    var inside := Step(Outside, BRACE);
    assert EMPTY[1..] == [CLOSE] && [CLOSE][1..] == [] && EMPTY[..1] == [BRACE] && [BRACE][1..] == [];
    assert Scanned(Outside, EMPTY) == Scanned(inside, [CLOSE]) == Scanned(Step(inside, CLOSE), []) == Outside;
    assert Scanned(Outside, [BRACE]) == Scanned(inside, []) == inside;
  }
}
