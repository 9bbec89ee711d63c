/** WindowsPipeStream: bytes the pipe does not take yet wait in a queue, in order. */
module PipeQueue {
  import opened Wrappers
  import opened IpcCodec

  /** What one handle.write does: takes up to n bytes, or throws. */
  datatype Take = Upto(n: nat) | Throws

  function Min(a: nat, b: nat): nat {
    if a < b then a else b
  }

  /** How one flush goes: the bytes the pipe takes, and what is left of queue and schedule. */
  datatype Flushed = Flushed(bytes: seq<byte>, queue: seq<seq<byte>>, pipe: seq<Take>, threw: bool)

  function Flush(queue: seq<seq<byte>>, pipe: seq<Take>): Flushed {
    if queue == [] then Flushed([], [], pipe, false)
    else if pipe != [] && pipe[0].Throws? then Flushed([], queue, pipe[1..], true)
    else
      var head := queue[0];
      var took := if pipe == [] then 0 else Min(pipe[0].n, |head|);
      var pipe' := if pipe == [] then [] else pipe[1..];
      if took == |head| then
        var f := Flush(queue[1..], pipe');
        f.(bytes := head + f.bytes)
      else Flushed(head[..took], [head[took..]] + queue[1..], pipe', false)
  }

  /** However the pipe takes them, bytes leave in the order they were written, and what has not
      left is what is queued. */
  lemma {:induction false} FlushConserves(queue: seq<seq<byte>>, pipe: seq<Take>)
    ensures Flush(queue, pipe).bytes + Concat(Flush(queue, pipe).queue) == Concat(queue)
  {
    if queue != [] && !(pipe != [] && pipe[0].Throws?) {
      var head := queue[0];
      var took := if pipe == [] then 0 else Min(pipe[0].n, |head|);
      if took == |head| {
        FlushConserves(queue[1..], if pipe == [] then [] else pipe[1..]);
      } else {
        assert head == head[..took] + head[took..];
        assert ([head[took..]] + queue[1..])[1..] == queue[1..];
      }
    }
  }

  /** A flush stops early only where the pipe took less than it was offered, or threw. */
  lemma {:induction false} FlushStopsAtPipe(queue: seq<seq<byte>>, pipe: seq<Take>)
    requires forall t | t in pipe :: t.Upto? && t.n >= |Concat(queue)|
    requires |pipe| >= |queue|
    ensures Flush(queue, pipe).queue == [] && Flush(queue, pipe).bytes == Concat(queue)
  {
    if queue != [] {
      assert pipe[0] in pipe;
      FlushStopsAtPipe(queue[1..], pipe[1..]);
    }
  }

  /** A flush uses up a first part of the pipe's behaviour, and throws exactly if that ends with
      a throw. */
  lemma {:induction false} FlushThrowsExactly(queue: seq<seq<byte>>, pipe: seq<Take>) returns (used: nat)
    ensures used <= |pipe| && Flush(queue, pipe).pipe == pipe[used..]
    ensures Flush(queue, pipe).threw <==> used > 0 && pipe[used - 1].Throws?
    ensures forall k | 0 <= k < used - 1 :: pipe[k].Upto?
  {
    used := 0;
    if queue != [] && pipe != [] {
      used := 1;
      if pipe[0].Upto? && Min(pipe[0].n, |queue[0]|) == |queue[0]| {
        used := FlushThrowsExactly(queue[1..], pipe[1..]);
        used := used + 1;
      }
    } else if queue != [] && queue[0] == [] {
      used := FlushThrowsExactly(queue[1..], []);
    }
  }

  class WindowsPipeStream {
    var done: bool
    var outgoing: seq<seq<byte>>
    var closes: nat              // calls of onClose
    var pipe: seq<Take>          // how the pipe will behave; after that it takes nothing
    var taken: seq<byte>         // bytes the pipe has taken
    ghost var written: seq<byte> // bytes given to write

    constructor (pipe: seq<Take>)
      ensures Valid() && !done && written == [] && this.pipe == pipe
    {
      done, outgoing, closes, taken, written := false, [], 0, [], [];
      this.pipe := pipe;
    }

    /** Until the stream is destroyed, taken plus queued is exactly what was written; after
        that, what was taken is a prefix of it, and onClose came at most once. */
    ghost predicate Valid()
      reads this
    {
      && taken <= written
      && (if done then outgoing == [] && closes <= 1 else taken + Concat(outgoing) == written && closes == 0)
    }

    method HandleWrite(head: seq<byte>) returns (took: nat, threw: bool)
      modifies this`pipe, this`taken
      ensures threw <==> old(pipe) != [] && old(pipe)[0].Throws?
      ensures took == if old(pipe) != [] && old(pipe)[0].Upto? then Min(old(pipe)[0].n, |head|) else 0
      ensures taken == old(taken) + head[..took]
      ensures pipe == if old(pipe) == [] then [] else old(pipe)[1..]
    {
      took, threw := 0, false;
      if pipe != [] {
        if pipe[0].Throws? {
          threw := true;
        } else {
          took := Min(pipe[0].n, |head|);
        }
        pipe := pipe[1..];
      }
      taken := taken + head[..took];
    }

    /** Hands queued bytes to the pipe until it stops taking them. */
    method FlushQueue() returns (threw: bool)
      requires !done
      modifies this`pipe, this`taken, this`outgoing
      ensures var f := Flush(old(outgoing), old(pipe));
              outgoing == f.queue && pipe == f.pipe && threw == f.threw && taken == old(taken) + f.bytes
    {
      threw := false;
      ghost var f := Flush(outgoing, pipe);
      ghost var taken0 := taken;
      while outgoing != []
        invariant !threw
        invariant var g := Flush(outgoing, pipe);
                  g.queue == f.queue && g.pipe == f.pipe && g.threw == f.threw && taken + g.bytes == taken0 + f.bytes
        decreases |outgoing|
      {
        var head := outgoing[0];
        var took;
        took, threw := HandleWrite(head);
        if threw {
          return;
        }
        if took >= |head| {
          outgoing := outgoing[1..];
          continue;
        }
        outgoing := [head[took..]] + outgoing[1..];
        return;
      }
    }

    /** Queues the data and flushes.  A pipe that throws closes the stream from inside the
        call, which still returns; only a stream already closed throws. */
    method Write(data: seq<byte>) returns (threw: bool)
      requires Valid()
      modifies this
      ensures Valid() && threw == old(done)
      ensures written == if old(done) then old(written) else old(written) + data
      ensures old(taken) <= taken && (old(done) ==> taken == old(taken))
      ensures closes == old(closes) + if !old(done) && Flush(old(outgoing) + [data], old(pipe)).threw then 1 else 0
      ensures done <==> old(done) || Flush(old(outgoing) + [data], old(pipe)).threw
    {
      threw := done;
      if done {
        return;
      }
      ConcatSnoc(outgoing, data);
      assert taken + Concat(outgoing) + data == taken + (Concat(outgoing) + data);
      outgoing := outgoing + [data];
      written := written + data;
      FlushConserves(outgoing, pipe);
      ghost var f := Flush(outgoing, pipe);
      assert written == taken + (f.bytes + Concat(f.queue)) == (taken + f.bytes) + Concat(f.queue);
      var failed := FlushQueue();
      if failed {
        Fail();
      }
    }

    /** The timer's turn: tries the queue again. */
    method Pump()
      requires Valid()
      modifies this
      ensures Valid() && written == old(written) && old(taken) <= taken
      ensures old(done) ==> taken == old(taken)
      ensures !old(done) ==> taken == old(taken) + Flush(old(outgoing), old(pipe)).bytes
      ensures done <==> old(done) || Flush(old(outgoing), old(pipe)).threw
      ensures closes == old(closes) + if !old(done) && done then 1 else 0
    {
      if done {
        return;
      }
      FlushConserves(outgoing, pipe);
      ghost var f := Flush(outgoing, pipe);
      assert written == taken + (f.bytes + Concat(f.queue)) == (taken + f.bytes) + Concat(f.queue);
      var failed := FlushQueue();
      if failed {
        Fail();
      }
    }

    method Fail()
      requires taken <= written && !done && closes == 0
      modifies this
      ensures Valid() && done && closes == 1 && taken == old(taken) && written == old(written)
    {
      done, outgoing := true, [];
      closes := closes + 1;
    }

    method Destroy()
      requires Valid()
      modifies this`done, this`outgoing
      ensures Valid() && done && closes == old(closes)
    {
      if !done {
        done, outgoing := true, [];
      }
    }
  }

  /** What may happen next to a stream in use. */
  datatype Turn = Send | Timer | Destroy

  /** Frames written through the queue, with timer turns between them in any order, under any
      schedule of partial writes and failures, and read back in any cut: the receiver has the
      first messages, in order, intact. */
  method SendAndReceive(parses: seq<byte> -> bool, payloads: seq<seq<byte>>, turns: seq<Turn>, pipe: seq<Take>, cut: seq<seq<byte>>)
      returns (stream: WindowsPipeStream, receiver: Receiver, sent: nat)
    requires Sendable(parses, payloads)
    ensures fresh(stream) && fresh(receiver) && receiver.parses == parses
    ensures sent <= |payloads| && stream.written <= Frames(payloads[..sent])
    ensures stream.taken <= Frames(payloads)
    ensures Concat(cut) == stream.taken ==>
              && !receiver.closed
              && |receiver.handled| <= sent && receiver.handled == payloads[..|receiver.handled|]
              && (stream.taken == Frames(payloads[..sent]) ==> |receiver.handled| == sent && receiver.incoming == [])
  {
    stream := new WindowsPipeStream(pipe);
    sent := 0;
    assert payloads[..0] == [];
    for i := 0 to |turns|
      invariant stream.Valid() && fresh(stream) && sent <= |payloads|
      invariant stream.written <= Frames(payloads[..sent])
      invariant !stream.done ==> stream.written == Frames(payloads[..sent])
    {
      if turns[i].Timer? {
        stream.Pump();
      } else if turns[i].Destroy? {
        stream.Destroy();
      } else if sent < |payloads| {
        FramesSnoc(payloads[..sent], payloads[sent]);
        assert payloads[..sent + 1] == payloads[..sent] + [payloads[sent]];
        var threw := stream.Write(EncodeFrame(payloads[sent]).value);
        sent := sent + 1;
      }
    }
    receiver := new Receiver(parses);
    FeedAll(receiver, cut);
    FramesFirst(payloads, sent);
    if Concat(cut) == stream.taken {
      FirstArrive(parses, payloads[..sent], stream.taken);
    }
  }

  /** What a receiver decodes of any beginning of the frames. */
  lemma FirstArrive(parses: seq<byte> -> bool, payloads: seq<seq<byte>>, got: seq<byte>)
    requires Sendable(parses, payloads) && got <= Frames(payloads)
    ensures var d := Decode(parses, got);
            && d.good && |d.payloads| <= |payloads| && d.payloads == payloads[..|d.payloads|]
            && (got == Frames(payloads) ==> d == Decoded(payloads, [], true))
  {
    PrefixDecodes(parses, payloads, got);
    RoundTrip(parses, payloads);
  }

  lemma {:induction false} FramesFirst(payloads: seq<seq<byte>>, k: nat)
    requires k <= |payloads| && forall p | p in payloads :: Fits(p)
    ensures forall p | p in payloads[..k] :: Fits(p)
    ensures Frames(payloads[..k]) <= Frames(payloads)
    decreases |payloads| - k
  {
    if k < |payloads| {
      assert payloads[..k + 1] == payloads[..k] + [payloads[k]];
      FramesFirst(payloads, k + 1);
      FramesSnoc(payloads[..k], payloads[k]);
    } else {
      assert payloads[..k] == payloads;
    }
  }

  lemma FramesSnoc(payloads: seq<seq<byte>>, payload: seq<byte>)
    requires (forall p | p in payloads :: Fits(p)) && Fits(payload)
    ensures forall p | p in payloads + [payload] :: Fits(p)
    ensures Frames(payloads + [payload]) == Frames(payloads) + EncodeFrame(payload).value
  {
    if payloads == [] {
      assert [payload][1..] == [];
    } else {
      assert (payloads + [payload])[1..] == payloads[1..] + [payload];
      FramesSnoc(payloads[1..], payload);
    }
  }
}
