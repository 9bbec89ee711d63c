/** The revisioned replica of the ChatGPT Desktop IPC client: conversation states kept up to
    date by the owner's broadcasts of snapshots and patches. */
module Replica {
  import opened Wrappers

  /** What a broadcast says about one thread. */
  datatype Change<S, P> =
    | Snapshot(revision: int, state: S)
    | Patches(base: int, revision: int, patches: seq<P>)

  datatype Stored<S> = Stored(revision: int, state: S)

  /** How far a list of patches gets on a state.  A patch that does not apply throws before it
      changes anything, but those before it have been applied in place. */
  datatype Patched<S> = Patched(state: S, complete: bool)

  function ApplyAll<S, P>(patch: (S, P) -> Option<S>, state: S, patches: seq<P>): Patched<S> {
    if patches == [] then Patched(state, true)
    else
      match patch(state, patches[0])
      case None => Patched(state, false)
      case Some(next) => ApplyAll(patch, next, patches[1..])
  }

  /** handleMessage on a state change: the stored states, and whether it asks to be sent a
      snapshot again. */
  datatype Received<S> = Received(states: map<string, Stored<S>>, refollow: bool)

  function Receive<S, P>(patch: (S, P) -> Option<S>, states: map<string, Stored<S>>, thread: string, change: Change<S, P>): Received<S> {
    match change
    case Snapshot(revision, state) => Received(states[thread := Stored(revision, state)], false)
    case Patches(base, revision, patches) =>
      if thread !in states || states[thread].revision != base then Received(states, true)
      else
        var p := ApplyAll(patch, states[thread].state, patches);
        Received(states[thread := Stored(if p.complete then revision else base, p.state)], !p.complete)
  }

  /** The client, patching its stored state in place. */
  class ReplicaClient<S, P> {
    var states: map<string, Stored<S>>
    var refollows: nat
    const patch: (S, P) -> Option<S>

    constructor (patch: (S, P) -> Option<S>)
      ensures this.patch == patch && states == map[] && refollows == 0
    {
      this.patch := patch;
      states, refollows := map[], 0;
    }

    method HandleChange(thread: string, change: Change<S, P>)
      modifies this
      ensures var r := Receive(patch, old(states), thread, change);
              states == r.states && refollows == old(refollows) + if r.refollow then 1 else 0
    {
      match change
      case Snapshot(revision, state) =>
        states := states[thread := Stored(revision, state)];
      case Patches(base, revision, patches) =>
        if thread !in states || states[thread].revision != base {
          refollows := refollows + 1;
          return;
        }
        ghost var p := ApplyAll(patch, states[thread].state, patches);
        for i := 0 to |patches|
          invariant thread in states && states == old(states)[thread := Stored(base, states[thread].state)]
          invariant refollows == old(refollows)
          invariant ApplyAll(patch, states[thread].state, patches[i..]) == p
        {
          assert patches[i..][0] == patches[i] && patches[i..][1..] == patches[i + 1..];
          var next := patch(states[thread].state, patches[i]);
          if next.None? {
            refollows := refollows + 1;
            return;
          }
          states := states[thread := Stored(base, next.value)];
        }
        states := states[thread := Stored(revision, states[thread].state)];
    }
  }

  /** The owner's history of each thread. */
  type Owner<S> = (string, int) -> S

  ghost predicate Agrees<S>(owner: Owner<S>, states: map<string, Stored<S>>) {
    forall thread | thread in states :: states[thread].state == owner(thread, states[thread].revision)
  }

  /** A change the owner could have broadcast. */
  ghost predicate WellFormed<S, P>(patch: (S, P) -> Option<S>, owner: Owner<S>, thread: string, change: Change<S, P>) {
    match change
    case Snapshot(revision, state) => state == owner(thread, revision)
    case Patches(base, revision, patches) => ApplyAll(patch, owner(thread, base), patches) == Patched(owner(thread, revision), true)
  }

  datatype Broadcast<S, P> = Broadcast(thread: string, change: Change<S, P>)

  function ReceiveAll<S, P>(patch: (S, P) -> Option<S>, states: map<string, Stored<S>>, casts: seq<Broadcast<S, P>>): map<string, Stored<S>>
    decreases |casts|
  {
    if casts == [] then states
    else ReceiveAll(patch, Receive(patch, states, casts[0].thread, casts[0].change).states, casts[1..])
  }

  /** Whatever subset of the owner's broadcasts arrives, in whatever order and however often:
      every stored state is the owner's at its revision. */
  lemma {:induction false} ReplicaAgrees<S, P>(patch: (S, P) -> Option<S>, owner: Owner<S>, states: map<string, Stored<S>>,
                                               casts: seq<Broadcast<S, P>>)
    requires Agrees(owner, states)
    requires forall b | b in casts :: WellFormed(patch, owner, b.thread, b.change)
    ensures Agrees(owner, ReceiveAll(patch, states, casts))
    decreases |casts|
  {
    if casts != [] {
      assert casts[0] in casts;
      ReplicaAgrees(patch, owner, Receive(patch, states, casts[0].thread, casts[0].change).states, casts[1..]);
    }
  }

  /** For any change at all, well formed or not, received by an agreeing replica: agreement is
      kept exactly when a snapshot is the owner's state, and the patches taken on their base
      reach the owner's state at the revision that is then recorded.  In particular patches
      that fail after one with an effect leave a state that belongs to no revision. */
  lemma AgreementKeptExactly<S, P>(patch: (S, P) -> Option<S>, owner: Owner<S>, states: map<string, Stored<S>>, thread: string, change: Change<S, P>)
    requires Agrees(owner, states)
    ensures Agrees(owner, Receive(patch, states, thread, change).states) <==>
              match change
              case Snapshot(revision, state) => state == owner(thread, revision)
              case Patches(base, revision, patches) =>
                thread in states && states[thread].revision == base ==>
                  var p := ApplyAll(patch, owner(thread, base), patches);
                  p.state == owner(thread, if p.complete then revision else base)
  {
    var states' := Receive(patch, states, thread, change).states;
    if thread in states' {
      assert forall other | other in states' && other != thread :: other in states && states'[other] == states[other];
    }
  }

  /** How often a run of broadcasts makes the replica ask for a snapshot. */
  function Refollows<S, P>(patch: (S, P) -> Option<S>, states: map<string, Stored<S>>, casts: seq<Broadcast<S, P>>): nat
    decreases |casts|
  {
    if casts == [] then 0
    else
      var r := Receive(patch, states, casts[0].thread, casts[0].change);
      (if r.refollow then 1 else 0) + Refollows(patch, r.states, casts[1..])
  }

  /** The owner's changes of a thread, from one revision to the next. */
  datatype History<P> = History(thread: string, revisions: seq<int>, lists: seq<seq<P>>)

  ghost predicate Follows<S, P>(h: History<P>, patch: (S, P) -> Option<S>, owner: Owner<S>) {
    && |h.revisions| == |h.lists| + 1
    && (forall i, k | 0 <= i < k < |h.revisions| :: h.revisions[i] != h.revisions[k])
    && (forall i | 0 <= i < |h.lists| :: WellFormed(patch, owner, h.thread, Patches(h.revisions[i], h.revisions[i + 1], h.lists[i])))
  }

  /** The changes with these numbers, in this order. */
  function Delivery<S, P>(h: History<P>, numbers: seq<nat>): seq<Broadcast<S, P>>
    requires |h.revisions| == |h.lists| + 1 && forall i | i in numbers :: i < |h.lists|
    decreases |numbers|
  {
    if numbers == [] then []
    else
      assert numbers[0] in numbers && forall i | i in numbers[1..] :: i in numbers;
      [Broadcast(h.thread, Patches(h.revisions[numbers[0]], h.revisions[numbers[0] + 1], h.lists[numbers[0]]))] + Delivery(h, numbers[1..])
  }

  /** From the j-th revision on, any of the owner's changes arrive in any order and however
      often: the replica ends at the owner's state of some later revision, having asked for a
      snapshot once for each change that did not come in its turn; it never passes a change it
      missed.  So it never asks if and only if what arrived are the next changes, each once and in
      order; a loss is noticed at the next change that does arrive. */
  lemma {:induction false} GapsAreNoticed<S, P>(h: History<P>, patch: (S, P) -> Option<S>, owner: Owner<S>,
                                                 states: map<string, Stored<S>>, j: nat, numbers: seq<nat>) returns (end: nat)
    requires Follows(h, patch, owner) && j < |h.revisions| && forall i | i in numbers :: i < |h.lists|
    requires h.thread in states && states[h.thread] == Stored(h.revisions[j], owner(h.thread, h.revisions[j]))
    ensures var casts := Delivery(h, numbers);
            && j <= end < |h.revisions|
            && ReceiveAll(patch, states, casts) == states[h.thread := Stored(h.revisions[end], owner(h.thread, h.revisions[end]))]
            && Refollows(patch, states, casts) == |numbers| - (end - j)
            && (Refollows(patch, states, casts) == 0 <==> forall k | 0 <= k < |numbers| :: numbers[k] == j + k)
    ensures forall missed | missed >= j && missed !in numbers :: end <= missed
    decreases |numbers|
  {
    if numbers == [] {
      end := j;
      assert states[h.thread := states[h.thread]] == states;
    } else {
      var i, casts := numbers[0], Delivery(h, numbers);
      var r := Receive(patch, states, h.thread, casts[0].change);
      assert i in numbers && forall k | k in numbers[1..] :: k in numbers;
      assert casts[1..] == Delivery(h, numbers[1..]);
      assert WellFormed(patch, owner, h.thread, casts[0].change);
      var next := if i == j then j + 1 else j;
      assert r.refollow <==> i != j;
      end := GapsAreNoticed(h, patch, owner, r.states, next, numbers[1..]);
    }
  }

  /** A snapshot followed by the changes after it, without loss, brings the replica to the
      owner's latest revision; anything received before does not matter. */
  lemma {:induction false} CatchesUp<S, P>(patch: (S, P) -> Option<S>, owner: Owner<S>, states: map<string, Stored<S>>,
                                            thread: string, revisions: seq<int>, lists: seq<seq<P>>)
    requires |revisions| == |lists| + 1
    requires thread in states && states[thread] == Stored(revisions[0], owner(thread, revisions[0]))
    requires forall i | 0 <= i < |lists| :: WellFormed(patch, owner, thread, Patches(revisions[i], revisions[i + 1], lists[i]))
    ensures var casts := seq(|lists|, i requires 0 <= i < |lists| => Broadcast(thread, Patches(revisions[i], revisions[i + 1], lists[i])));
            var states' := ReceiveAll(patch, states, casts);
            thread in states' && states'[thread] == Stored(revisions[|lists|], owner(thread, revisions[|lists|]))
    decreases |lists|
  {
    var casts := seq(|lists|, i requires 0 <= i < |lists| => Broadcast(thread, Patches(revisions[i], revisions[i + 1], lists[i])));
    if lists != [] {
      var states1 := Receive(patch, states, thread, casts[0].change).states;
      assert WellFormed(patch, owner, thread, casts[0].change);
      CatchesUp(patch, owner, states1, thread, revisions[1..], lists[1..]);
      assert casts[1..] == seq(|lists[1..]|, i requires 0 <= i < |lists[1..]| =>
                                 Broadcast(thread, Patches(revisions[1..][i], revisions[1..][i + 1], lists[1..][i])));
    }
  }

  /** Patches are applied one after another, each to what the one before left, up to the first
      that does not apply: `states` are the states in between. */
  lemma {:induction false} PatchesInTurn<S, P>(patch: (S, P) -> Option<S>, state: S, patches: seq<P>) returns (states: seq<S>)
    ensures 1 <= |states| <= |patches| + 1 && states[0] == state
    ensures forall i | 0 <= i < |states| - 1 :: patch(states[i], patches[i]) == Some(states[i + 1])
    ensures ApplyAll(patch, state, patches).state == states[|states| - 1]
    ensures ApplyAll(patch, state, patches).complete <==> |states| == |patches| + 1
    ensures |states| <= |patches| ==> patch(states[|states| - 1], patches[|states| - 1]).None?
    decreases |patches|
  {
    states := [state];
    if patches != [] && patch(state, patches[0]).Some? {
      var rest := PatchesInTurn(patch, patch(state, patches[0]).value, patches[1..]);
      assert forall i | 0 <= i < |rest| - 1 :: patches[1..][i] == patches[i + 1];
      states := [state] + rest;
    }
  }

  /** The numbers of the changes from j on. */
  function NumbersFrom(j: nat, n: nat): (numbers: seq<nat>)
    requires j <= n
    ensures |numbers| == n - j && forall k | 0 <= k < n - j :: numbers[k] == j + k
  {
    seq(n - j, k requires 0 <= k < n - j => j + k)
  }

  /** Whatever a replica holds, or has missed: a snapshot and all changes after it bring it to
      the owner's latest state, and it asks for nothing. */
  lemma SnapshotSettles<S, P>(h: History<P>, patch: (S, P) -> Option<S>, owner: Owner<S>, states: map<string, Stored<S>>, j: nat)
    requires Follows(h, patch, owner) && j < |h.revisions|
    ensures var last := h.revisions[|h.lists|];
            var snapshot := Broadcast(h.thread, Snapshot(h.revisions[j], owner(h.thread, h.revisions[j])));
            var casts := [snapshot] + Delivery(h, NumbersFrom(j, |h.lists|));
            && Refollows(patch, states, casts) == 0
            && ReceiveAll(patch, states, casts) == states[h.thread := Stored(last, owner(h.thread, last))]
  {
    var numbers := NumbersFrom(j, |h.lists|);
    assert forall i | i in numbers :: i < |h.lists|;
    var first: Broadcast<S, P> := Broadcast(h.thread, Snapshot(h.revisions[j], owner(h.thread, h.revisions[j])));
    var casts := [first] + Delivery(h, numbers);
    assert casts[1..] == Delivery(h, numbers);
    var states1 := states[h.thread := Stored(h.revisions[j], owner(h.thread, h.revisions[j]))];
    var end := GapsAreNoticed(h, patch, owner, states1, j, numbers);
    assert end == |h.lists|;
  }
}
