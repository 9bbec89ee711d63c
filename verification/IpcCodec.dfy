/** The length-prefixed codec under the ChatGPT Desktop IPC client, which must not care how
    the stream is cut. */
module IpcCodec {
  import opened Wrappers

  const MAX_FRAME_BYTES: nat := 64 * 1024 * 1024

  function U32(n: nat): (b: seq<byte>)
    requires n < 0x1_0000_0000
    ensures |b| == 4
  {
    [n % 256, n / 256 % 256, n / 65536 % 256, n / 16777216]
  }

  function ReadU32(b: seq<byte>): nat
    requires |b| >= 4
  {
    (b[0] as int) + (b[1] as int) * 256 + (b[2] as int) * 65536 + (b[3] as int) * 16777216
  }

  lemma U32RoundTrip(n: nat)
    requires n < 0x1_0000_0000
    ensures ReadU32(U32(n)) == n
  {
    var b := n / 256;
    var c := b / 256;
    assert n / 65536 == c && n / 16777216 == c / 256;
  }

  predicate Fits(payload: seq<byte>) {
    0 < |payload| <= MAX_FRAME_BYTES
  }

  /** None when the request is too large to send. */
  function EncodeFrame(payload: seq<byte>): Option<seq<byte>> {
    if Fits(payload) then Some(U32(|payload|) + payload) else None
  }

  /** What stands at the front of the buffered stream. */
  datatype Front = Incomplete | Bad | Message(payload: seq<byte>, rest: seq<byte>)

  function FrontOf(parses: seq<byte> -> bool, b: seq<byte>): (f: Front)
    ensures f.Message? ==> |f.rest| < |b|
  {
    if |b| < 4 then Incomplete
    else
      var n := ReadU32(b);
      if n == 0 || n > MAX_FRAME_BYTES then Bad
      else if |b| < n + 4 then Incomplete
      else if !parses(b[4..n + 4]) then Bad
      else Message(b[4..n + 4], b[n + 4..])
  }

  /** What decoding a stretch of stream yields: complete payloads in order, the bytes left
      over, and whether the stream is still good.  `parses` stands for JSON.parse. */
  datatype Decoded = Decoded(payloads: seq<seq<byte>>, rest: seq<byte>, good: bool)

  function Decode(parses: seq<byte> -> bool, b: seq<byte>): Decoded
    decreases |b|
  {
    match FrontOf(parses, b)
    case Incomplete => Decoded([], b, true)
    case Bad => Decoded([], b, false)
    case Message(payload, rest) =>
      var d := Decode(parses, rest);
      Decoded([payload] + d.payloads, d.rest, d.good)
  }

  /** More bytes do not change what a complete front was. */
  lemma FrontStable(parses: seq<byte> -> bool, a: seq<byte>, b: seq<byte>)
    ensures FrontOf(parses, a).Bad? ==> FrontOf(parses, a + b).Bad?
    ensures FrontOf(parses, a).Message? ==>
              FrontOf(parses, a + b) == Message(FrontOf(parses, a).payload, FrontOf(parses, a).rest + b)
  {
    if |a| >= 4 {
      var n := ReadU32(a);
      assert ReadU32(a + b) == n;
      if |a| >= n + 4 {
        assert (a + b)[4..n + 4] == a[4..n + 4];
        assert (a + b)[n + 4..] == a[n + 4..] + b;
      }
    }
  }

  /** Decoding a + b is decoding a, then b after what a left over. */
  lemma {:induction false} DecodeConcat(parses: seq<byte> -> bool, a: seq<byte>, b: seq<byte>)
    ensures var d := Decode(parses, a);
            var e := Decode(parses, a + b);
            if d.good
            then var f := Decode(parses, d.rest + b); e == Decoded(d.payloads + f.payloads, f.rest, f.good)
            else e.payloads == d.payloads && !e.good
    decreases |a|
  {
    hide FrontOf;
    FrontStable(parses, a, b);
    var f := FrontOf(parses, a);
    if f.Message? {
      DecodeConcat(parses, f.rest, b);
    }
  }

  function Concat(chunks: seq<seq<byte>>): seq<byte> {
    if chunks == [] then [] else chunks[0] + Concat(chunks[1..])
  }

  lemma ConcatSnoc(chunks: seq<seq<byte>>, chunk: seq<byte>)
    ensures Concat(chunks + [chunk]) == Concat(chunks) + chunk
  {
    if chunks != [] {
      assert (chunks + [chunk])[1..] == chunks[1..] + [chunk];
    }
  }

  /** One turn of the loop: a message at the front is the first of the rest to come. */
  lemma DecodeFront(parses: seq<byte> -> bool, b: seq<byte>, n: nat)
    requires |b| >= n + 4 && n == ReadU32(b) && Fits(b[4..n + 4]) && parses(b[4..n + 4])
    ensures var d := Decode(parses, b[n + 4..]);
            Decode(parses, b) == Decoded([b[4..n + 4]] + d.payloads, d.rest, d.good)
  {}

  lemma DecodeStuck(parses: seq<byte> -> bool, b: seq<byte>)
    ensures FrontOf(parses, b).Incomplete? ==> Decode(parses, b) == Decoded([], b, true)
    ensures FrontOf(parses, b).Bad? ==> Decode(parses, b) == Decoded([], b, false)
  {}

  /** The receiving half of the client: `incoming`, `closed` and what handleMessage got. */
  class Receiver {
    var incoming: seq<byte>
    var closed: bool
    var handled: seq<seq<byte>>
    const parses: seq<byte> -> bool

    constructor (parses: seq<byte> -> bool)
      ensures this.parses == parses && Received([])
    {
      this.parses := parses;
      incoming, closed, handled := [], false, [];
    }

    /** The receiver stands exactly where decoding the whole stream at once would leave it. */
    ghost predicate Received(stream: seq<byte>)
      reads this
    {
      var d := Decode(parses, stream);
      handled == d.payloads && closed == !d.good && (d.good ==> incoming == d.rest)
    }

    method HandleData(chunk: seq<byte>, ghost stream: seq<byte>)
      requires Received(stream)
      modifies this
      ensures Received(stream + chunk)
    {
      hide Decode;
      DecodeConcat(parses, stream, chunk);
      ghost var d := Decode(parses, stream);
      if closed {
        return;
      }
      incoming := incoming + chunk;
      ghost var f := Decode(parses, incoming);
      while true
        invariant !closed
        invariant Decode(parses, incoming).rest == f.rest && Decode(parses, incoming).good == f.good
        invariant handled + Decode(parses, incoming).payloads == d.payloads + f.payloads
        decreases |incoming|
      {
        DecodeStuck(parses, incoming);
        if |incoming| < 4 {
          return;
        }
        var length := ReadU32(incoming);
        if length == 0 || length > MAX_FRAME_BYTES {
          closed := true;
          return;
        }
        if |incoming| < length + 4 {
          return;
        }
        var message := incoming[4..length + 4];
        if !parses(message) {
          closed := true;
          return;
        }
        DecodeFront(parses, incoming, length);
        incoming := incoming[length + 4..];
        handled := handled + [message];
      }
    }
  }

  /** Feeding the chunks one by one is feeding their concatenation: every cut of a stream gives
      the same messages, the same residue and the same verdict on the stream. */
  method FeedAll(receiver: Receiver, chunks: seq<seq<byte>>)
    requires receiver.Received([])
    modifies receiver
    ensures receiver.Received(Concat(chunks))
  {
    for i := 0 to |chunks|
      invariant receiver.Received(Concat(chunks[..i]))
    {
      ConcatSnoc(chunks[..i], chunks[i]);
      assert chunks[..i + 1] == chunks[..i] + [chunks[i]];
      receiver.HandleData(chunks[i], Concat(chunks[..i]));
    }
    assert chunks[..|chunks|] == chunks;
  }

  /** The stream of frames for these payloads. */
  function Frames(payloads: seq<seq<byte>>): seq<byte>
    requires forall p | p in payloads :: Fits(p)
  {
    if payloads == [] then [] else EncodeFrame(payloads[0]).value + Frames(payloads[1..])
  }

  ghost predicate Sendable(parses: seq<byte> -> bool, payloads: seq<seq<byte>>) {
    forall p | p in payloads :: Fits(p) && parses(p)
  }

  lemma FrameFront(parses: seq<byte> -> bool, payload: seq<byte>, rest: seq<byte>)
    requires Fits(payload) && parses(payload)
    ensures FrontOf(parses, EncodeFrame(payload).value + rest) == Message(payload, rest)
  {
    var b := EncodeFrame(payload).value + rest;
    var n := |payload|;
    U32RoundTrip(n);
    assert ReadU32(b) == ReadU32(U32(n));
    assert b[4..n + 4] == payload;
    assert b[n + 4..] == rest;
  }

  lemma PartFront(parses: seq<byte> -> bool, payload: seq<byte>, got: seq<byte>)
    requires Fits(payload) && got <= EncodeFrame(payload).value && got != EncodeFrame(payload).value
    ensures FrontOf(parses, got) == Incomplete
  {
    var n := |payload|;
    U32RoundTrip(n);
    if |got| >= 4 {
      assert forall i | 0 <= i < 4 :: got[i] == U32(n)[i];
      assert ReadU32(got) == ReadU32(U32(n));
    }
  }

  /** d is what the first payloads decode to, with only part of the next frame left over. */
  ghost predicate DecodedPrefix(payloads: seq<seq<byte>>, got: seq<byte>, d: Decoded)
    requires forall p | p in payloads :: Fits(p)
  {
    var k := |d.payloads|;
    && d.good && k <= |payloads| && d.payloads == payloads[..k]
    && got == Frames(payloads[..k]) + d.rest
    && (if k == |payloads| then d.rest == [] else d.rest < EncodeFrame(payloads[k]).value)
  }

  lemma PrefixCons(payloads: seq<seq<byte>>, rest: seq<byte>, d: Decoded)
    requires payloads != [] && (forall p | p in payloads :: Fits(p)) && DecodedPrefix(payloads[1..], rest, d)
    ensures DecodedPrefix(payloads, EncodeFrame(payloads[0]).value + rest, Decoded([payloads[0]] + d.payloads, d.rest, d.good))
  {}

  /** However much of the stream has arrived, it decodes to the first messages, in order, with
      nothing but a proper part of the next frame left over. */
  lemma {:induction false} PrefixDecodes(parses: seq<byte> -> bool, payloads: seq<seq<byte>>, got: seq<byte>)
    requires Sendable(parses, payloads) && got <= Frames(payloads)
    ensures DecodedPrefix(payloads, got, Decode(parses, got))
    decreases payloads, 0
  {
    if payloads == [] {
      assert FrontOf(parses, got) == Incomplete;
    } else {
      var frame := EncodeFrame(payloads[0]).value;
      var later := Frames(payloads[1..]);
      assert Frames(payloads) == frame + later;
      if |got| < |frame| {
        assert got == frame[..|got|];
        PartFront(parses, payloads[0], got);
        assert payloads[..0] == [];
      } else {
        var rest := got[|frame|..];
        assert got == frame + rest && rest <= later;
        OneMore(parses, payloads, rest);
      }
    }
  }

  lemma {:induction false} OneMore(parses: seq<byte> -> bool, payloads: seq<seq<byte>>, rest: seq<byte>)
    requires payloads != [] && Sendable(parses, payloads) && rest <= Frames(payloads[1..])
    ensures DecodedPrefix(payloads, EncodeFrame(payloads[0]).value + rest, Decode(parses, EncodeFrame(payloads[0]).value + rest))
    decreases payloads[1..], 1
  {
    hide FrontOf;
    FrameFront(parses, payloads[0], rest);
    PrefixDecodes(parses, payloads[1..], rest);
    PrefixCons(payloads, rest, Decode(parses, rest));
  }

  /** All frames, cut anywhere, decode to exactly the messages that were sent. */
  lemma RoundTrip(parses: seq<byte> -> bool, payloads: seq<seq<byte>>)
    requires Sendable(parses, payloads)
    ensures Decode(parses, Frames(payloads)) == Decoded(payloads, [], true)
  {
    PrefixDecodes(parses, payloads, Frames(payloads));
    var d := Decode(parses, Frames(payloads));
    if d.payloads != payloads {
      assert d.payloads == payloads[..|d.payloads|];
      FramesLonger(payloads, |d.payloads|);
      assert false;
    }
  }

  lemma FramesLonger(payloads: seq<seq<byte>>, n: nat)
    requires (forall p | p in payloads :: Fits(p)) && n < |payloads|
    ensures |Frames(payloads)| >= |Frames(payloads[..n])| + |EncodeFrame(payloads[n]).value|
  {
    if n > 0 {
      FramesLonger(payloads[1..], n - 1);
      assert payloads[..n][1..] == payloads[1..][..n - 1];
    } else {
      assert payloads[..0] == [];
    }
  }

  // ---- Limits and byte order ----

  /** Lengths are little-endian. */
  lemma LittleEndian()
    ensures U32(0x01020304) == [4, 3, 2, 1] && ReadU32([4, 3, 2, 1]) == 0x01020304
  {}

  /** What may be sent: 1 byte to 64 MiB. */
  lemma SendsExactly(payload: seq<byte>)
    ensures EncodeFrame(payload).Some? <==> 1 <= |payload| <= 67_108_864
  {}

  lemma LengthReads(n: nat, rest: seq<byte>)
    requires n < 0x1_0000_0000
    ensures |U32(n) + rest| == 4 + |rest| && ReadU32(U32(n) + rest) == n
    ensures |rest| >= n ==> (U32(n) + rest)[4..n + 4] == rest[..n]
  {
    U32RoundTrip(n);
    assert forall i | 0 <= i < 4 :: (U32(n) + rest)[i] == U32(n)[i];
    hide U32;
  }

  lemma BadEnds(parses: seq<byte> -> bool, b: seq<byte>)
    requires FrontOf(parses, b) == Bad
    ensures !Decode(parses, b).good && Decode(parses, b).payloads == []
  {
    hide FrontOf;
  }

  /** A frame that announces no bytes, or more than 64 MiB, ends the stream at once; so does a
      complete one that does not parse.  Nothing of it or behind it is handed on. */
  lemma BadFramesEnd(parses: seq<byte> -> bool, n: nat, rest: seq<byte>)
    requires n < 0x1_0000_0000
    requires n == 0 || n > 67_108_864 || (|rest| >= n && !parses(rest[..n]))
    ensures var d := Decode(parses, U32(n) + rest); !d.good && d.payloads == []
  {
    LengthReads(n, rest);
    hide U32, ReadU32, Decode;
    BadEnds(parses, U32(n) + rest);
  }

  /** Until four bytes are there, and then until the announced ones are, the stream waits. */
  lemma PartsWait(parses: seq<byte> -> bool, n: nat, part: seq<byte>)
    requires 1 <= n <= 67_108_864 && |part| < n
    ensures Decode(parses, U32(n) + part) == Decoded([], U32(n) + part, true)
    ensures forall k | 0 <= k < 4 :: Decode(parses, U32(n)[..k]) == Decoded([], U32(n)[..k], true)
  {
    U32RoundTrip(n);
    assert ReadU32(U32(n) + part) == ReadU32(U32(n));
  }
}
