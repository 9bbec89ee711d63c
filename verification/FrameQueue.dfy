/** The async frame queue of the WebSocket client: `next()` hands out a promise, here a ticket;
    a ticket is answered with the next frame, in FIFO order. */
module FrameQueues {
  datatype Answer<F> = Item(frame: F) | End | Failed

  class FrameQueue<F> {
    var items: seq<F>
    var waiters: seq<nat>             // tickets of unresolved promises, oldest first
    var done: bool
    var failed: bool
    var calls: nat                    // tickets given out
    var answers: map<nat, Answer<F>>  // settled promises
    ghost var handed: seq<F>          // frames that answered a ticket, in ticket order

    constructor ()
      ensures Valid() && Stream() == [] && !done && calls == 0 && waiters == []
    {
      items, waiters, done, failed, calls, answers, handed := [], [], false, false, 0, map[], [];
    }

    /** Never both buffered frames and waiting readers; ticket i got the i-th frame handed out;
        the unsettled tickets are the newest ones, and there are none once the queue is done. */
    ghost predicate Valid()
      reads this
    {
      && (items == [] || waiters == [])
      && (done ==> waiters == [])
      && (failed ==> done && items == [])
      && |handed| + |waiters| <= calls
      && (!done ==> |handed| + |waiters| == calls)
      && (forall i | 0 <= i < |waiters| :: waiters[i] == calls - |waiters| + i)
      && (forall t: nat :: t in answers <==> t < calls - |waiters|)
      && (forall t: nat | t < |handed| :: answers[t] == Item(handed[t]))
      && (forall t: nat | |handed| <= t < calls - |waiters| :: answers[t] == if failed then Failed else End)
      && (|handed| < calls - |waiters| ==> items == [])
    }

    /** Every frame that is not lost: handed out, then buffered. */
    ghost function Stream(): seq<F>
      reads this
    {
      handed + items
    }

    lemma Running()
      requires Valid() && !done
      ensures !failed
    {}

    method Push(frame: F)
      requires Valid()
      modifies this`items, this`waiters, this`answers, this`handed
      ensures Valid() && done == old(done) && failed == old(failed) && calls == old(calls)
      ensures Stream() == if done then old(Stream()) else old(Stream()) + [frame]
      ensures old(handed) <= handed
    {
      if done {
        return;
      }
      if waiters != [] {
        Settle(frame);
      } else {
        items := items + [frame];
      }
    }

    /** Answers the oldest waiter. */
    method Settle(frame: F)
      requires Valid() && waiters != []
      modifies this`waiters, this`answers, this`handed
      ensures Valid() && handed == old(handed) + [frame] && waiters == old(waiters)[1..]
      ensures items == old(items) && done == old(done) && failed == old(failed) && calls == old(calls)
    {
      var w := waiters[0];
      waiters := waiters[1..];
      answers := answers[w := Item(frame)];
      handed := handed + [frame];
    }

    method EndQueue()
      requires Valid()
      modifies this`done, this`waiters, this`answers
      ensures Valid() && done && Stream() == old(Stream()) && calls == old(calls) && failed == old(failed)
      ensures !old(done) ==> forall t | t in old(waiters) :: t in answers && answers[t] == End
    {
      if done {
        return;
      }
      done := true;
      answers := map t: nat | t < calls :: if t in answers then answers[t] else End;
      waiters := [];
    }

    method Fail()
      requires Valid()
      modifies this`done, this`failed, this`items, this`waiters, this`answers
      ensures Valid() && done && calls == old(calls) && handed == old(handed)
      ensures !old(done) ==> failed && items == [] && forall t | t in old(waiters) :: t in answers && answers[t] == Failed
      ensures old(done) ==> Stream() == old(Stream()) && failed == old(failed)
    {
      if done {
        return;
      }
      done, failed, items := true, true, [];
      answers := map t: nat | t < calls :: if t in answers then answers[t] else Failed;
      waiters := [];
    }

    /** The ticket's answer is settled now or by a later push, prepend, end or fail. */
    method Next() returns (ticket: nat)
      requires Valid()
      modifies this`calls, this`items, this`waiters, this`answers, this`handed
      ensures Valid() && ticket == old(calls) && calls == old(calls) + 1
      ensures Stream() == old(Stream()) && done == old(done) && failed == old(failed)
      ensures old(items) != [] ==> ticket in answers && answers[ticket] == Item(old(items)[0])
      ensures old(items) == [] && !done ==> ticket in waiters
      ensures old(items) == [] && done ==> ticket in answers && answers[ticket] == if failed then Failed else End
    {
      ticket := calls;
      calls := calls + 1;
      if failed {
        answers := answers[ticket := Failed];
      } else if items != [] {
        answers := answers[ticket := Item(items[0])];
        handed := handed + [items[0]];
        items := items[1..];
      } else if done {
        answers := answers[ticket := End];
      } else {
        waiters := waiters + [ticket];
      }
    }

    /** Puts frames before the buffered ones, waiting readers first. */
    method Prepend(frames: seq<F>) returns (accepted: bool)
      requires Valid()
      modifies this`items, this`waiters, this`answers, this`handed
      ensures Valid() && done == old(done) && failed == old(failed) && calls == old(calls)
      ensures accepted == (!done && frames != [])
      ensures Stream() == if accepted then old(handed) + frames + old(items) else old(Stream())
    {
      if done || frames == [] {
        return false;
      }
      hide Valid;
      var index := 0;
      while index < |frames| && waiters != []
        invariant 0 <= index <= |frames| && Valid() && !done
        invariant items == old(items) && handed == old(handed) + frames[..index]
      {
        Settle(frames[index]);
        index := index + 1;
      }
      assert frames == frames[..index] + frames[index..];
      if index < |frames| {
        PutBack(frames[index..]);
      }
      return true;
    }

    /** Buffers frames before the others, when nobody waits. */
    method PutBack(frames: seq<F>)
      requires Valid() && !done && waiters == []
      modifies this`items
      ensures Valid() && items == frames + old(items)
    {
      items := frames + items;
    }
  }
}
