/** At-most-once dispatch of ChatGPT turns: the session controller over its IPC clients, as an
    interleaving of everything that can happen between two awaits.  Only one submission runs
    at a time (the lane); its client, the responses, timers, socket closes, write failures,
    completion followers and `close()` come in any order. */
module NativeSession {
  import opened Wrappers

  type Id = string

  /** How a start-turn request ended for the submission that awaits it. */
  datatype Result =
    | Accepted        // success with a turn id
    | Unknown         // lost response, timeout, close or failed write after the frame was handed over; success without a turn id
    | Refused         // an explicit non-success response
    | NotSent         // nothing was handed to the socket

  /** Where submitExclusive awaits. */
  datatype Phase =
    | Preparing       // connect, followThread, beforeWrite
    | Discovering     // thread-owner-discovery inside startDelegatedTurn is pending
    | Owned           // its response arrived
    | Starting        // the start-turn request is pending
    | Settled(result: Result)
    | Notifying(uncertain: bool)   // dispatch listeners

  datatype Submission = Submission(id: Id, client: nat, phase: Phase)

  datatype Request = Request(start: bool, written: bool)

  /** An IPC client.  `closed` never becomes false again; at most one request of the
      submission is pending on it. */
  datatype Client = Client(closed: bool, pending: Option<Request>)

  /** A followCompletion loop. */
  datatype Follower = Follower(id: Id, uncertain: bool)

  /** What went over the wire and what came back, oldest first. */
  datatype Wire =
    | Wrote(id: Id)                  // at least a part of a start-turn frame left
    | Handed(id: Id)                 // the socket threw or closed on one, and nothing left
    | Rejected(id: Id)               // the owner refused it
    | Answered(id: Id, turn: bool)   // or accepted it, with a turn id or without
    | Seen(id: Id)                   // a follower saw the turn in the owner's state

  /** What the caller of submit is told. */
  datatype Dispatch = Started(id: Id) | Uncertain(id: Id) | Duplicate(id: Id) | Failed(id: Id) | ListenerFailed(id: Id)

  datatype State = State(
    closed: bool,
    turns: set<Id>,              // keys of turnsByClientId
    uncertain: set<Id>,          // uncertainClientIds
    lane: seq<Id>,
    active: Option<Submission>,
    clients: seq<Client>,        // every client ever created
    live: set<nat>,              // those still in the controller's set
    followers: set<Follower>,
    log: seq<Wire>,
    told: seq<Dispatch>)

  const Init := State(false, {}, {}, [], None, [], {}, {}, [], [])

  /** How socket.write went.  `leaked` says whether any byte left. */
  datatype Write = Taken | Throws(leaked: bool) | ClosesInside(leaked: bool)

  datatype Answer = Success(turn: bool) | Failure

  datatype Event =
    | Submit(id: Id)
    | Begin                           // the lane reaches the next submission
    | PrepareFails                    // connect, followThread or beforeWrite throws
    | Unauthorized                    // checkWriteAuthorized throws
    | Discover                        // sends thread-owner-discovery
    | DiscoverFails                   // refused, timed out, or no owner
    | OwnerFound
    | Start(fits: bool, write: Write) // sends start-turn
    | Respond(answer: Answer)
    | TimeOut
    | SocketClose(c: nat)
    | Continue                        // the code after the awaited start-turn runs
    | Notified(ok: bool)              // dispatch listeners returned, or one threw
    | FollowerStarts(f: Follower)     // an uncertain turn is seen: it did start
    | FollowerCompletes(f: Follower)
    | FollowerGivesUp(f: Follower)
    | Close

  predicate InPhase(s: State, phase: Phase) {
    s.active.Some? && s.active.value.phase == phase
  }

  /** The active submission has a client the controller created. */
  predicate HasClient(s: State) {
    s.active.Some? && s.active.value.client < |s.clients|
  }

  predicate PendingOf(s: State, start: bool) {
    HasClient(s) && s.clients[s.active.value.client].pending.Some? && s.clients[s.active.value.client].pending.value.start == start
  }

  predicate Enabled(s: State, e: Event) {
    match e
    case Submit(_) => true
    case Begin => s.active.None? && s.lane != []
    case PrepareFails => InPhase(s, Preparing)
    case Unauthorized => InPhase(s, Preparing) && HasClient(s)
    case Discover => InPhase(s, Preparing) && HasClient(s)
    case DiscoverFails => InPhase(s, Discovering) && HasClient(s)
    case OwnerFound => InPhase(s, Discovering) && HasClient(s)
    case Start(_, _) => InPhase(s, Owned) && HasClient(s)
    case Respond(_) => PendingOf(s, true)
    case TimeOut => PendingOf(s, true)
    case SocketClose(c) => c < |s.clients|
    case Continue => s.active.Some? && s.active.value.phase.Settled? && HasClient(s)
    case Notified(_) => s.active.Some? && s.active.value.phase.Notifying?
    case FollowerStarts(f) => f in s.followers && f.uncertain
    case FollowerCompletes(f) => f in s.followers && !f.uncertain
    case FollowerGivesUp(f) => f in s.followers
    case Close => true
  }

  function Go(s: State, phase: Phase): State
    requires s.active.Some?
  {
    s.(active := Some(s.active.value.(phase := phase)))
  }

  function SetClient(s: State, c: nat, client: Client): State
    requires c < |s.clients|
  {
    s.(clients := s.clients[c := client])
  }

  /** handleClose: every pending request of the client is rejected. */
  function CloseClient(s: State, c: nat): State
    requires c < |s.clients|
  {
    var client := s.clients[c];
    var s' := SetClient(s, c, Client(true, None));
    if client.pending.Some? && s.active.Some? && s.active.value.client == c
    then
      if client.pending.value.start then Go(s', Settled(if client.pending.value.written then Unknown else NotSent))
      else Go(s', Settled(NotSent))
    else s'
  }

  function CloseClients(s: State, n: nat): (s': State)
    requires n <= |s.clients|
    ensures |s'.clients| == |s.clients|
  {
    if n == 0 then s
    else
      var s' := CloseClients(s, n - 1);
      if n - 1 in s.live then CloseClient(s', n - 1) else s'
  }

  function Tell(s: State, d: Dispatch): State {
    s.(told := s.told + [d])
  }

  /** The submission failed before or without a start: close its client, reject the caller. */
  function Reject(s: State): State
    requires HasClient(s)
  {
    var c := s.active.value.client;
    Tell(SetClient(s, c, Client(true, None)).(active := None, live := s.live - {c}), Failed(s.active.value.id))
  }

  function StartRequest(s: State, fits: bool, write: Write): State
    requires HasClient(s)
  {
    var sub := s.active.value;
    var client := s.clients[sub.client];
    var wrote := s.(log := s.log + [Wrote(sub.id)]);
    var handed := s.(log := s.log + [Handed(sub.id)]);
    if client.closed || !fits then Go(s, Settled(NotSent))
    else
      match write
      case Taken => Go(SetClient(wrote, sub.client, client.(pending := Some(Request(true, true)))), Starting)
      case Throws(leaked) =>
        Go(SetClient(if leaked then wrote else handed, sub.client, client.(pending := None)), Settled(Unknown))
      case ClosesInside(leaked) =>
        Go(SetClient(if leaked then wrote else handed, sub.client, Client(true, None)), Settled(Unknown))
  }

  function Apply(s: State, e: Event): State
    requires Enabled(s, e)
  {
    match e
    case Submit(id) => s.(lane := s.lane + [id])
    case Begin =>
      var id := s.lane[0];
      var s' := s.(lane := s.lane[1..]);
      if s.closed then Tell(s', Failed(id))
      else if id in s.turns then Tell(s', Duplicate(id))
      else if id in s.uncertain then Tell(s', Uncertain(id))
      else s'.(clients := s.clients + [Client(false, None)], live := s.live + {|s.clients|},
               active := Some(Submission(id, |s.clients|, Preparing)))
    case PrepareFails => Tell(s.(active := None), Failed(s.active.value.id))
    case Unauthorized => Reject(s)
    case Discover =>
      var c := s.active.value.client;
      if s.clients[c].closed then Go(s, Settled(NotSent))
      else Go(SetClient(s, c, Client(false, Some(Request(false, true)))), Discovering)
    case DiscoverFails => Go(SetClient(s, s.active.value.client, s.clients[s.active.value.client].(pending := None)), Settled(NotSent))
    case OwnerFound => Go(SetClient(s, s.active.value.client, s.clients[s.active.value.client].(pending := None)), Owned)
    case Start(fits, write) => StartRequest(s, fits, write)
    case Respond(answer) =>
      var c := s.active.value.client;
      var s' := SetClient(s, c, s.clients[c].(pending := None));
      (match answer
       case Success(turn) => Go(s'.(log := s.log + [Answered(s.active.value.id, turn)]), Settled(if turn then Accepted else Unknown))
       case Failure => Go(s'.(log := s.log + [Rejected(s.active.value.id)]), Settled(Refused)))
    case TimeOut =>
      var c := s.active.value.client;
      Go(SetClient(s, c, s.clients[c].(pending := None)), Settled(Unknown))
    case SocketClose(c) => CloseClient(s, c)
    case Continue =>
      var id := s.active.value.id;
      (match s.active.value.phase.result
       case Accepted => Go(s.(turns := s.turns + {id}), Notifying(false))
       case Unknown => Go(s.(uncertain := s.uncertain + {id}), Notifying(true))
       case Refused => Reject(s)
       case NotSent => Reject(s))
    case Notified(ok) =>
      var f := Follower(s.active.value.id, s.active.value.phase.uncertain);
      if ok then Tell(s.(active := None, followers := s.followers + {f}), if f.uncertain then Uncertain(f.id) else Started(f.id))
      else Tell(s.(active := None), ListenerFailed(f.id))
    case FollowerStarts(f) =>
      s.(uncertain := s.uncertain - {f.id}, turns := s.turns + {f.id}, followers := s.followers - {f} + {Follower(f.id, false)},
         log := s.log + [Seen(f.id)])
    case FollowerCompletes(f) =>
      s.(turns := if s.closed then s.turns else s.turns + {f.id}, followers := s.followers - {f}, log := s.log + [Seen(f.id)])
    case FollowerGivesUp(f) => s.(followers := s.followers - {f})
    case Close => CloseClients(s, |s.clients|).(closed := true, uncertain := {}, live := {})
  }

  ghost predicate Leads(s: State, es: seq<Event>, s': State)
    decreases |es|
  {
    if es == [] then s == s' else Enabled(s, es[0]) && Leads(Apply(s, es[0]), es[1..], s')
  }

  ghost predicate Reachable(s: State) {
    exists es :: Leads(Init, es, s)
  }

  // ---- What may have started ----

  /** A start-turn frame for id left, at least in part, and no refusal has come since. */
  predicate MayHaveStarted(log: seq<Wire>, id: Id) {
    log != [] &&
    var last := log[|log| - 1];
    if last == Wrote(id) then true else if last == Rejected(id) then false else MayHaveStarted(log[..|log| - 1], id)
  }

  lemma StartedSnoc(log: seq<Wire>, w: Wire, id: Id)
    ensures MayHaveStarted(log + [w], id) == if w == Wrote(id) then true else if w == Rejected(id) then false else MayHaveStarted(log, id)
  {}

  /** Every frame is written for an id that cannot have started by then. */
  ghost predicate OnceEach(log: seq<Wire>) {
    forall j | 0 <= j < |log| && log[j].Wrote? :: !MayHaveStarted(log[..j], log[j].id)
  }

  lemma OnceSnoc(log: seq<Wire>, w: Wire)
    requires OnceEach(log) && (w.Wrote? ==> !MayHaveStarted(log, w.id))
    ensures OnceEach(log + [w])
  {
    forall j | 0 <= j < |log + [w]| && (log + [w])[j].Wrote?
      ensures !MayHaveStarted((log + [w])[..j], (log + [w])[j].id)
    {
      assert (log + [w])[..j] == log[..j];
      assert log[..|log|] == log;
    }
  }

  lemma {:induction false} RefusedBetween(log: seq<Wire>, i: nat, id: Id) returns (k: nat)
    requires i < |log| && log[i] == Wrote(id) && !MayHaveStarted(log, id)
    ensures i < k < |log| && log[k] == Rejected(id)
    decreases |log|
  {
    k := |log| - 1;
    if log[k] != Rejected(id) {
      k := RefusedBetween(log[..k], i, id);
    }
  }

  // ---- The invariant ----

  /** The active submission has handed its frame over and its end is not recorded yet. */
  predicate InDoubt(s: State, id: Id) {
    && s.active.Some? && s.active.value.id == id
    && (s.active.value.phase.Starting? || s.active.value.phase == Settled(Unknown) || s.active.value.phase == Settled(Accepted))
  }

  ghost predicate Inv(s: State) {
    && OnceEach(s.log)
    && (forall id | MayHaveStarted(s.log, id) && !s.closed :: id in s.turns || id in s.uncertain || InDoubt(s, id))
    && (s.active.Some? ==> ActiveOk(s, s.active.value))
    && (forall c | c in s.live :: c < |s.clients|)
    && (forall c | 0 <= c < |s.clients| && s.clients[c].pending.Some? :: !s.clients[c].closed && s.active.Some? && s.active.value.client == c)
  }

  ghost predicate ActiveOk(s: State, sub: Submission) {
    && sub.client < |s.clients|
    && (sub.client in s.live || s.clients[sub.client].closed)
    && (s.closed ==> s.clients[sub.client].closed)
    && (sub.phase.Preparing? || sub.phase.Discovering? || sub.phase.Owned? || sub.phase == Settled(NotSent) || sub.phase == Settled(Refused) ==>
          s.closed || !MayHaveStarted(s.log, sub.id))
    && (sub.phase.Starting? <==> s.clients[sub.client].pending == Some(Request(true, true)))
    && (sub.phase.Discovering? <==> s.clients[sub.client].pending == Some(Request(false, true)))
    && (s.clients[sub.client].pending.Some? ==> sub.phase.Starting? || sub.phase.Discovering?)
  }

  lemma CloseClientKeeps(s: State, c: nat)
    requires Inv(s) && c < |s.clients|
    ensures Inv(CloseClient(s, c))
  {}

  /** What closing some clients leaves alone. */
  ghost predicate OnlyClosed(s: State, s': State, n: nat) {
    && |s'.clients| == |s.clients|
    && s'.closed == s.closed && s'.live == s.live && s'.log == s.log
    && (forall c | 0 <= c < |s.clients| && s.clients[c].closed :: s'.clients[c].closed)
    && (forall c | 0 <= c < n && c < |s.clients| && c in s.live :: s'.clients[c].closed)
  }

  lemma CloseClientOnly(s: State, c: nat)
    requires c < |s.clients|
    ensures OnlyClosed(s, CloseClient(s, c), 0) && CloseClient(s, c).clients[c].closed
  {}

  lemma {:induction false} CloseClientsKeeps(s: State, n: nat)
    requires Inv(s) && n <= |s.clients|
    ensures Inv(CloseClients(s, n)) && OnlyClosed(s, CloseClients(s, n), n)
  {
    hide Inv, CloseClient;
    if n > 0 {
      CloseClientsKeeps(s, n - 1);
      var s1 := CloseClients(s, n - 1);
      if n - 1 in s.live {
        CloseClientKeeps(s1, n - 1);
        CloseClientOnly(s1, n - 1);
        assert CloseClients(s, n) == CloseClient(s1, n - 1);
      } else {
        assert CloseClients(s, n) == s1;
      }
    }
  }

  lemma StartKeepsInv(s: State, fits: bool, write: Write)
    requires Inv(s) && Enabled(s, Start(fits, write))
    ensures Inv(StartRequest(s, fits, write))
  {
    var id := s.active.value.id;
    if s.clients[s.active.value.client].closed {
      NotSentKeepsInv(s);
    } else {
      forall other
        ensures MayHaveStarted(s.log + [Wrote(id)], other) == (other == id || MayHaveStarted(s.log, other))
      {
        StartedSnoc(s.log, Wrote(id), other);
      }
      OnceSnoc(s.log, Wrote(id));
      HandedOver(s, fits, write);
    }
  }

  /** The id in doubt, and nothing else may have started that had not before. */
  lemma InDoubtKeepsInv(s: State, log: seq<Wire>, client: Client, phase: Phase)
    requires Inv(s) && InPhase(s, Owned) && HasClient(s) && !s.clients[s.active.value.client].closed
    requires OnceEach(log) && forall other :: MayHaveStarted(log, other) ==> other == s.active.value.id || MayHaveStarted(s.log, other)
    requires (phase == Starting && client == Client(false, Some(Request(true, true)))) || (phase == Settled(Unknown) && client.pending.None?)
    ensures Inv(Go(SetClient(s.(log := log), s.active.value.client, client), phase))
  {
    hide MayHaveStarted, OnceEach;
  }

  /** The frame is too long, or it was handed over and may have started. */
  lemma HandedOver(s: State, fits: bool, write: Write)
    requires Inv(s) && InPhase(s, Owned) && HasClient(s) && !s.clients[s.active.value.client].closed
    requires var id := s.active.value.id;
             && OnceEach(s.log + [Wrote(id)])
             && forall other :: MayHaveStarted(s.log + [Wrote(id)], other) == (other == id || MayHaveStarted(s.log, other))
    ensures Inv(StartRequest(s, fits, write))
  {
    var sub := s.active.value;
    var wrote, handed := s.log + [Wrote(sub.id)], s.log + [Handed(sub.id)];
    OnceSnoc(s.log, Handed(sub.id));
    forall other
      ensures MayHaveStarted(handed, other) == MayHaveStarted(s.log, other)
    {
      StartedSnoc(s.log, Handed(sub.id), other);
    }
    hide MayHaveStarted, OnceEach;
    if !fits {
      NotSentKeepsInv(s);
    } else {
      hide Inv;
      match write
      case Taken => InDoubtKeepsInv(s, wrote, Client(false, Some(Request(true, true))), Starting);
      case Throws(leaked) => InDoubtKeepsInv(s, if leaked then wrote else handed, s.clients[sub.client].(pending := None), Settled(Unknown));
      case ClosesInside(leaked) => InDoubtKeepsInv(s, if leaked then wrote else handed, Client(true, None), Settled(Unknown));
    }
  }

  lemma NotSentKeepsInv(s: State)
    requires Inv(s) && InPhase(s, Owned) && HasClient(s)
    ensures Inv(Go(s, Settled(NotSent)))
  {}

  lemma RespondKeepsInv(s: State, answer: Answer)
    requires Inv(s) && Enabled(s, Respond(answer))
    ensures Inv(Apply(s, Respond(answer)))
  {
    var w := if answer.Failure? then Rejected(s.active.value.id) else Answered(s.active.value.id, answer.turn);
    OnceSnoc(s.log, w);
    forall other
      ensures MayHaveStarted(s.log + [w], other) == (w != Rejected(other) && MayHaveStarted(s.log, other))
    {
      StartedSnoc(s.log, w, other);
    }
    hide OnceEach, MayHaveStarted;
  }

  /** Events before the submission sends its frame. */
  lemma PrepareKeepsInv(s: State, e: Event)
    requires Inv(s) && Enabled(s, e)
    requires e.Submit? || e.Begin? || e.PrepareFails? || e.Unauthorized? || e.Discover? || e.DiscoverFails? || e.OwnerFound?
    ensures Inv(Apply(s, e))
  {}

  /** Events after it. */
  lemma SettleKeepsInv(s: State, e: Event)
    requires Inv(s) && Enabled(s, e) && (e.TimeOut? || e.Continue? || e.Notified? || e.FollowerGivesUp?)
    ensures Inv(Apply(s, e))
  {
    hide MayHaveStarted, OnceEach, CloseClients, StartRequest;
  }

  /** Those of the followers, which are no frames. */
  lemma FollowKeepsInv(s: State, e: Event)
    requires Inv(s) && Enabled(s, e) && (e.FollowerStarts? || e.FollowerCompletes?)
    ensures Inv(Apply(s, e))
  {
    OnceSnoc(s.log, Seen(e.f.id));
    forall other
      ensures MayHaveStarted(s.log + [Seen(e.f.id)], other) == MayHaveStarted(s.log, other)
    {
      StartedSnoc(s.log, Seen(e.f.id), other);
    }
    hide MayHaveStarted, OnceEach, CloseClients, StartRequest;
  }

  lemma StepKeepsInv(s: State, e: Event)
    requires Inv(s) && Enabled(s, e)
    ensures Inv(Apply(s, e))
  {
    hide Inv;
    match e
    case Start(fits, write) => StartKeepsInv(s, fits, write);
    case Respond(answer) => RespondKeepsInv(s, answer);
    case SocketClose(c) => CloseClientKeeps(s, c);
    case Close => CloseKeepsInv(s);
    case Submit(_) => PrepareKeepsInv(s, e);
    case Begin => PrepareKeepsInv(s, e);
    case PrepareFails => PrepareKeepsInv(s, e);
    case Unauthorized => PrepareKeepsInv(s, e);
    case Discover => PrepareKeepsInv(s, e);
    case DiscoverFails => PrepareKeepsInv(s, e);
    case OwnerFound => PrepareKeepsInv(s, e);
    case TimeOut => SettleKeepsInv(s, e);
    case Continue => SettleKeepsInv(s, e);
    case Notified(_) => SettleKeepsInv(s, e);
    case FollowerStarts(_) => FollowKeepsInv(s, e);
    case FollowerCompletes(_) => FollowKeepsInv(s, e);
    case FollowerGivesUp(_) => SettleKeepsInv(s, e);
  }

  lemma CloseKeepsInv(s: State)
    requires Inv(s)
    ensures Inv(Apply(s, Close))
  {
    CloseClientsKeeps(s, |s.clients|);
    hide MayHaveStarted, OnceEach, CloseClients;
  }

  lemma {:induction false} LeadsKeepsInv(s: State, es: seq<Event>, s': State)
    requires Inv(s) && Leads(s, es, s')
    ensures Inv(s')
    decreases |es|
  {
    if es != [] {
      StepKeepsInv(s, es[0]);
      LeadsKeepsInv(Apply(s, es[0]), es[1..], s');
    }
  }

  /** In every run, a start-turn frame for the same id is put on the wire again only after an
      explicit refusal of the one before. */
  lemma AtMostOncePerRefusal(s: State, i: nat, j: nat, id: Id) returns (k: nat)
    requires Reachable(s) && i < j < |s.log| && s.log[i] == Wrote(id) && s.log[j] == Wrote(id)
    ensures i < k < j && s.log[k] == Rejected(id)
  {
    var es :| Leads(Init, es, s);
    LeadsKeepsInv(Init, es, s);
    k := RefusedBetween(s.log[..j], i, id);
  }

  /** An id whose turn may have started is remembered until the controller closes; between
      submissions, as a turn or as an uncertain id. */
  lemma StartedIsRemembered(s: State, id: Id)
    requires Reachable(s) && MayHaveStarted(s.log, id) && !s.closed
    ensures id in s.turns || id in s.uncertain || InDoubt(s, id)
    ensures s.active.None? ==> id in s.turns || id in s.uncertain
  {
    var es :| Leads(Init, es, s);
    LeadsKeepsInv(Init, es, s);
  }

  /** The other side: an id that was refused, or whose frame never left, is free to be
      submitted again; nothing but a possible start keeps it out. */
  lemma RefusedIsForgotten(s: State, e: Event)
    requires Reachable(s) && Enabled(s, e) && e == Continue
    requires s.active.value.phase == Settled(Refused) || s.active.value.phase == Settled(NotSent)
    ensures var s', c := Apply(s, e), s.active.value.client;
            && s'.turns == s.turns && s'.uncertain == s.uncertain && s'.active.None?
            && s'.clients[c].closed && s'.live == s.live - {c}
    ensures s.closed || !MayHaveStarted(s.log, s.active.value.id)
  {
    var es :| Leads(Init, es, s);
    LeadsKeepsInv(Init, es, s);
  }

  /** No frame is written once the controller is closed. */
  lemma NothingWrittenAfterClose(s: State, e: Event)
    requires Reachable(s) && s.closed && Enabled(s, e)
    ensures Apply(s, e).closed
    ensures s.log <= Apply(s, e).log && forall w | w in Apply(s, e).log[|s.log|..] :: !w.Wrote? && !w.Handed?
  {
    var es :| Leads(Init, es, s);
    LeadsKeepsInv(Init, es, s);
    if e.Close? {
      CloseClientsKeeps(s, |s.clients|);
    }
  }

  // ---- What is remembered, exactly, and what the caller is told ----

  /** A frame for id was handed to a socket, and not refused since. */
  predicate Tried(log: seq<Wire>, id: Id) {
    log != [] &&
    var last := log[|log| - 1];
    if last == Wrote(id) || last == Handed(id) then true else if last == Rejected(id) then false else Tried(log[..|log| - 1], id)
  }

  /** The owner named the turn of id, or showed it. */
  predicate Known(log: seq<Wire>, id: Id) {
    Answered(id, true) in log || Seen(id) in log
  }

  lemma HistorySnoc(log: seq<Wire>, w: Wire, id: Id)
    ensures Tried(log + [w], id) == if w == Wrote(id) || w == Handed(id) then true else if w == Rejected(id) then false else Tried(log, id)
    ensures Known(log + [w], id) == (Known(log, id) || w == Answered(id, true) || w == Seen(id))
  {
    assert (log + [w])[..|log|] == log;
  }

  predicate IsActive(s: State, id: Id, phases: set<Phase>) {
    s.active.Some? && s.active.value.id == id && s.active.value.phase in phases
  }

  const PENDING: set<Phase> := {Starting, Settled(Unknown)}

  ghost predicate Exact(s: State) {
    && (forall id | id in s.turns :: Known(s.log, id))
    && (s.active.Some? && s.active.value.phase == Settled(Accepted) ==> Known(s.log, s.active.value.id))
    && (s.active.Some? && s.active.value.phase == Notifying(false) ==> s.active.value.id in s.turns)
    && (!s.closed ==>
          && (forall id | Known(s.log, id) :: id in s.turns || IsActive(s, id, {Settled(Accepted)}))
          && (forall id :: Tried(s.log, id) && !Known(s.log, id) <==> id in s.uncertain || IsActive(s, id, PENDING))
          && (forall f | f in s.followers :: if f.uncertain then f.id in s.uncertain else f.id in s.turns)
          && (s.active.Some? ==>
                var sub := s.active.value;
                if sub.phase.Notifying? then sub.phase.uncertain ==> sub.id in s.uncertain && Follower(sub.id, true) !in s.followers
                else sub.id !in s.turns && sub.id !in s.uncertain))
  }

  /** A step that adds one thing to the history. */
  lemma HistoryStep(log: seq<Wire>, log': seq<Wire>)
    requires log' == log || exists w :: log' == log + [w]
    ensures log' == log || forall id ::
              var w := log'[|log|];
              && (Tried(log', id) == if w == Wrote(id) || w == Handed(id) then true else if w == Rejected(id) then false else Tried(log, id))
              && (Known(log', id) == (Known(log, id) || w == Answered(id, true) || w == Seen(id)))
  {
    if log' != log {
      var w :| log' == log + [w];
      forall id {
        HistorySnoc(log, w, id);
      }
    }
  }

  lemma PrepareKeepsExact(s: State, e: Event)
    requires Inv(s) && Exact(s) && Enabled(s, e)
    requires e.Submit? || e.Begin? || e.PrepareFails? || e.Unauthorized? || e.Discover? || e.DiscoverFails? || e.OwnerFound?
    ensures Exact(Apply(s, e))
  {
    hide Tried, Known, OnceEach, MayHaveStarted;
  }

  /** A frame handed to a socket, whatever becomes of it, leaves the id in doubt. */
  lemma HandKeepsExact(s: State, w: Wire, client: Client, phase: Phase)
    requires Exact(s) && InPhase(s, Owned) && HasClient(s) && phase in PENDING
    requires w == Wrote(s.active.value.id) || w == Handed(s.active.value.id)
    ensures Exact(Go(SetClient(s.(log := s.log + [w]), s.active.value.client, client), phase))
  {
    HistoryStep(s.log, s.log + [w]);
    hide Tried, Known;
  }

  lemma StartKeepsExact(s: State, fits: bool, write: Write)
    requires Inv(s) && Exact(s) && Enabled(s, Start(fits, write))
    ensures Exact(StartRequest(s, fits, write))
  {
    var sub := s.active.value;
    var client := s.clients[sub.client];
    if client.closed || !fits {
      hide Inv, Tried, Known;
    } else {
      hide Inv, Exact;
      match write
      case Taken => HandKeepsExact(s, Wrote(sub.id), client.(pending := Some(Request(true, true))), Starting);
      case Throws(leaked) => HandKeepsExact(s, if leaked then Wrote(sub.id) else Handed(sub.id), client.(pending := None), Settled(Unknown));
      case ClosesInside(leaked) => HandKeepsExact(s, if leaked then Wrote(sub.id) else Handed(sub.id), Client(true, None), Settled(Unknown));
    }
  }

  lemma PendingIsStarting(s: State)
    requires Inv(s) && PendingOf(s, true)
    ensures InPhase(s, Starting)
  {}

  /** The owner's answer settles the request. */
  lemma AnswerKeepsExact(s: State, w: Wire, client: Client, result: Result)
    requires Exact(s) && InPhase(s, Starting) && HasClient(s)
    requires var id := s.active.value.id;
             || (w == Answered(id, true) && result == Accepted)
             || (w == Answered(id, false) && result == Unknown)
             || (w == Rejected(id) && result == Refused)
    ensures Exact(Go(SetClient(s, s.active.value.client, client).(log := s.log + [w]), Settled(result)))
  {
    forall id
      ensures Tried(s.log + [w], id) == (w != Rejected(id) && Tried(s.log, id))
      ensures Known(s.log + [w], id) == (w == Answered(id, true) || Known(s.log, id))
    {
      HistorySnoc(s.log, w, id);
    }
    hide Tried, Known;
  }

  lemma RespondKeepsExact(s: State, answer: Answer)
    requires Inv(s) && Exact(s) && Enabled(s, Respond(answer))
    ensures Exact(Apply(s, Respond(answer)))
  {
    PendingIsStarting(s);
    hide Inv, Exact;
    var client := s.clients[s.active.value.client].(pending := None);
    if answer.Failure? {
      AnswerKeepsExact(s, Rejected(s.active.value.id), client, Refused);
    } else {
      AnswerKeepsExact(s, Answered(s.active.value.id, answer.turn), client, if answer.turn then Accepted else Unknown);
    }
  }

  lemma SettleKeepsExact(s: State, e: Event)
    requires Inv(s) && Exact(s) && Enabled(s, e)
    requires e.TimeOut? || e.Continue? || e.Notified? || e.FollowerGivesUp?
    ensures Exact(Apply(s, e))
  {
    hide Tried, Known, OnceEach, MayHaveStarted, CloseClients, StartRequest;
  }

  lemma FollowKeepsExact(s: State, e: Event)
    requires Inv(s) && Exact(s) && Enabled(s, e) && (e.FollowerStarts? || e.FollowerCompletes?)
    ensures Exact(Apply(s, e))
  {
    if e.FollowerStarts? {
      ShownKeepsExact(s, e.f);
    } else {
      CompletedKeepsExact(s, e.f);
    }
  }

  lemma SeenSnoc(log: seq<Wire>, id: Id)
    ensures forall other :: Tried(log + [Seen(id)], other) == Tried(log, other)
    ensures forall other :: Known(log + [Seen(id)], other) == (Known(log, other) || other == id)
  {
    forall other
      ensures Tried(log + [Seen(id)], other) == Tried(log, other) && Known(log + [Seen(id)], other) == (Known(log, other) || other == id)
    {
      HistorySnoc(log, Seen(id), other);
    }
  }

  lemma ShownKeepsExact(s: State, f: Follower)
    requires Exact(s) && f in s.followers && f.uncertain
    ensures Exact(Apply(s, FollowerStarts(f)))
  {
    SeenSnoc(s.log, f.id);
    hide Tried, Known;
  }

  lemma CompletedKeepsExact(s: State, f: Follower)
    requires Exact(s) && f in s.followers && !f.uncertain
    ensures Exact(Apply(s, FollowerCompletes(f)))
  {
    SeenSnoc(s.log, f.id);
    hide Tried, Known;
  }

  lemma SocketCloseKeepsExact(s: State, c: nat)
    requires Inv(s) && Exact(s) && c < |s.clients|
    ensures Exact(CloseClient(s, c))
  {
    hide Tried, Known, OnceEach, MayHaveStarted;
  }

  lemma {:induction false} CloseClientsKeepExact(s: State, n: nat)
    requires Inv(s) && Exact(s) && n <= |s.clients|
    ensures Exact(CloseClients(s, n))
  {
    hide Inv, Exact, CloseClient;
    if n > 0 {
      CloseClientsKeepExact(s, n - 1);
      CloseClientsKeeps(s, n - 1);
      if n - 1 in s.live {
        SocketCloseKeepsExact(CloseClients(s, n - 1), n - 1);
      }
    }
  }

  lemma CloseKeepsExact(s: State)
    requires Inv(s) && Exact(s)
    ensures Exact(Apply(s, Close))
  {
    CloseClientsKeepExact(s, |s.clients|);
    hide Inv, CloseClients, Tried, Known;
  }

  lemma StepKeepsExact(s: State, e: Event)
    requires Inv(s) && Exact(s) && Enabled(s, e)
    ensures Exact(Apply(s, e))
  {
    hide Inv, Exact;
    match e
    case Start(fits, write) => StartKeepsExact(s, fits, write);
    case Respond(answer) => RespondKeepsExact(s, answer);
    case SocketClose(c) => SocketCloseKeepsExact(s, c);
    case Close => CloseKeepsExact(s);
    case Submit(_) => PrepareKeepsExact(s, e);
    case Begin => PrepareKeepsExact(s, e);
    case PrepareFails => PrepareKeepsExact(s, e);
    case Unauthorized => PrepareKeepsExact(s, e);
    case Discover => PrepareKeepsExact(s, e);
    case DiscoverFails => PrepareKeepsExact(s, e);
    case OwnerFound => PrepareKeepsExact(s, e);
    case TimeOut => SettleKeepsExact(s, e);
    case Continue => SettleKeepsExact(s, e);
    case Notified(_) => SettleKeepsExact(s, e);
    case FollowerStarts(_) => FollowKeepsExact(s, e);
    case FollowerCompletes(_) => FollowKeepsExact(s, e);
    case FollowerGivesUp(_) => SettleKeepsExact(s, e);
  }

  lemma {:induction false} LeadsKeepsExact(s: State, es: seq<Event>, s': State)
    requires Inv(s) && Exact(s) && Leads(s, es, s')
    ensures Exact(s')
    decreases |es|
  {
    hide Inv, Exact;
    if es != [] {
      StepKeepsInv(s, es[0]);
      StepKeepsExact(s, es[0]);
      LeadsKeepsExact(Apply(s, es[0]), es[1..], s');
    }
  }

  lemma ReachableIs(s: State)
    requires Reachable(s)
    ensures Inv(s) && Exact(s)
  {
    var es :| Leads(Init, es, s);
    LeadsKeepsInv(Init, es, s);
    LeadsKeepsExact(Init, es, s);
  }

  /** While the controller is open, between submissions: an id is a known turn exactly when the
      owner named or showed its turn, and uncertain exactly when a frame for it was handed to a
      socket and not refused, and no turn of it is known. */
  lemma RememberedExactly(s: State, id: Id)
    requires Reachable(s) && !s.closed && s.active.None?
    ensures id in s.turns <==> Known(s.log, id)
    ensures id in s.uncertain <==> Tried(s.log, id) && !Known(s.log, id)
  {
    ReachableIs(s);
  }

  /** What a dispatch says of its id, given the history. */
  predicate True(d: Dispatch, s: State) {
    match d
    case Started(id) => Known(s.log, id)
    case Duplicate(id) => Known(s.log, id)
    case Uncertain(id) => s.closed || (Tried(s.log, id) && !Known(s.log, id))
    case Failed(id) => s.closed || (!Tried(s.log, id) && !Known(s.log, id))
    case ListenerFailed(_) => true
  }

  /** At most one more dispatch, and a true one. */
  predicate TellsTruth(s: State, s': State) {
    s'.told == s.told || (|s'.told| == |s.told| + 1 && s'.told[..|s.told|] == s.told && True(s'.told[|s.told|], s'))
  }

  lemma BeginTellsTruth(s: State)
    requires Exact(s) && Enabled(s, Begin)
    ensures TellsTruth(s, Apply(s, Begin))
  {
    hide Tried, Known;
  }

  lemma EndTellsTruth(s: State, e: Event)
    requires Exact(s) && Enabled(s, e) && (e.PrepareFails? || e.Unauthorized? || e.Continue? || e.Notified?)
    ensures TellsTruth(s, Apply(s, e))
  {
    hide Tried, Known;
  }

  /** In every run the caller is told the truth. */
  lemma ToldTruly(s: State, e: Event)
    requires Reachable(s) && Enabled(s, e)
    ensures TellsTruth(s, Apply(s, e))
  {
    ReachableIs(s);
    hide Exact, Inv, Reachable, True;
    if e.Begin? {
      BeginTellsTruth(s);
    } else if e.PrepareFails? || e.Unauthorized? || e.Continue? || e.Notified? {
      EndTellsTruth(s, e);
    } else if e.Close? {
      ClosingTellsNothing(s, |s.clients|);
    } else if e.Start? || e.SocketClose? {
      RequestKeepsService(s, e);
    }
    hide CloseClients, StartRequest, CloseClient;
  }

  lemma {:induction false} ClosingTellsNothing(s: State, n: nat)
    requires n <= |s.clients|
    ensures CloseClients(s, n).told == s.told && CloseClients(s, n).lane == s.lane
    ensures (CloseClients(s, n).active.Some? <==> s.active.Some?) && (s.active.Some? ==> CloseClients(s, n).active.value.id == s.active.value.id)
  {
    if n > 0 {
      ClosingTellsNothing(s, n - 1);
    }
  }

  function Submitted(es: seq<Event>): seq<Id> {
    if es == [] then [] else (if es[0].Submit? then [es[0].id] else []) + Submitted(es[1..])
  }

  function IdsOf(told: seq<Dispatch>): (ids: seq<Id>)
    ensures |ids| == |told| && forall i | 0 <= i < |told| :: ids[i] == told[i].id
  {
    seq(|told|, i requires 0 <= i < |told| => told[i].id)
  }

  /** Who has been answered, who is being served, who waits. */
  function Served(s: State): seq<Id> {
    IdsOf(s.told) + (if s.active.Some? then [s.active.value.id] else []) + s.lane
  }

  lemma IdsSnoc(told: seq<Dispatch>, d: Dispatch)
    ensures IdsOf(told + [d]) == IdsOf(told) + [d.id]
  {}

  /** Who is answered moves from the head of the queue, or from service, to the answers. */
  lemma MovesOn(s: State, s': State, d: Dispatch)
    requires s'.told == s.told + [d]
    requires (s.active.Some? && s.active.value.id == d.id && s'.active.None? && s'.lane == s.lane)
          || (s.active.None? && s'.active.None? && s.lane == [d.id] + s'.lane)
    ensures Served(s') == Served(s)
  {
    IdsSnoc(s.told, d);
    hide IdsOf;
    assert s.active.None? ==> IdsOf(s.told) + [] == IdsOf(s.told) && IdsOf(s'.told) + [] == IdsOf(s'.told);
  }

  lemma BeginsService(s: State, s': State)
    requires s.active.None? && s.lane != [] && s'.active.Some? && s'.active.value.id == s.lane[0] && s'.lane == s.lane[1..] && s'.told == s.told
    ensures Served(s') == Served(s)
  {
    hide IdsOf;
    assert s.lane == [s.lane[0]] + s.lane[1..] && IdsOf(s.told) + [] == IdsOf(s.told);
  }

  lemma SameService(s: State, s': State, e: Event)
    requires s'.told == s.told && s'.lane == (if e.Submit? then s.lane + [e.id] else s.lane)
    requires (s'.active.Some? <==> s.active.Some?) && (s.active.Some? ==> s'.active.value.id == s.active.value.id)
    ensures Served(s') == if e.Submit? then Served(s) + [e.id] else Served(s)
  {
    hide IdsOf;
  }

  /** What starting a request, or a closing socket, leaves alone. */
  lemma RequestKeepsService(s: State, e: Event)
    requires Enabled(s, e) && (e.Start? || e.SocketClose?)
    ensures var s' := Apply(s, e);
            s'.told == s.told && s'.lane == s.lane && (s'.active.Some? <==> s.active.Some?) && (s.active.Some? ==> s'.active.value.id == s.active.value.id)
  {}

  lemma StepServes(s: State, e: Event)
    requires Enabled(s, e)
    ensures Served(Apply(s, e)) == if e.Submit? then Served(s) + [e.id] else Served(s)
  {
    if e.Close? {
      ClosingTellsNothing(s, |s.clients|);
    }
    if e.Start? || e.SocketClose? {
      RequestKeepsService(s, e);
    }
    var s' := Apply(s, e);
    hide CloseClients, IdsOf, StartRequest, CloseClient, Served;
    if e.Begin? && s'.active.None? {
      assert s.lane == [s.lane[0]] + s.lane[1..];
      MovesOn(s, s', s'.told[|s.told|]);
    } else if e.Begin? {
      BeginsService(s, s');
    } else if s'.told != s.told {
      MovesOn(s, s', s'.told[|s.told|]);
    } else {
      SameService(s, s', e);
    }
  }

  lemma {:induction false} RunServes(s: State, es: seq<Event>, s': State)
    requires Leads(s, es, s')
    ensures Served(s') == Served(s) + Submitted(es)
    decreases |es|
  {
    hide Served, Apply, Enabled;
    if es != [] {
      StepServes(s, es[0]);
      RunServes(Apply(s, es[0]), es[1..], s');
      assert Served(s) + ((if es[0].Submit? then [es[0].id] else []) + Submitted(es[1..]))
          == (if es[0].Submit? then Served(s) + [es[0].id] else Served(s)) + Submitted(es[1..]);
    } else {
      assert Served(s) + [] == Served(s);
    }
  }

  /** Over any run the submissions are answered once each, in the order in which they came. */
  lemma AnsweredInOrder(es: seq<Event>, s: State)
    requires Leads(Init, es, s)
    ensures IdsOf(s.told) + (if s.active.Some? then [s.active.value.id] else []) + s.lane == Submitted(es)
  {
    RunServes(Init, es, s);
    assert Served(Init) == [];
  }

  /** What left is in the history as written, what did not as handed over, and a socket that
      closes inside the write closes the client. */
  lemma WriteIsRecorded(s: State, fits: bool, write: Write)
    requires Reachable(s) && Enabled(s, Start(fits, write))
    ensures var s', sub := Apply(s, Start(fits, write)), s.active.value;
            var sent := fits && !s.clients[sub.client].closed;
            && (Wrote(sub.id) in s'.log[|s.log|..] <==> sent && (write.Taken? || write.leaked))
            && (Handed(sub.id) in s'.log[|s.log|..] <==> sent && !write.Taken? && !write.leaked)
            && s.log <= s'.log && (s'.clients[sub.client].closed <==> s.clients[sub.client].closed || (sent && write.ClosesInside?))
            && (s'.active.value.phase == Settled(NotSent) <==> !sent)
  {}

  /** Closing forgets what is uncertain, closes every client in use, and leaves a start-turn
      request that was waiting in doubt; known turns stay. */
  lemma CloseForgets(s: State)
    requires Reachable(s)
    ensures var s' := Apply(s, Close);
            && s'.closed && s'.uncertain == {} && s'.live == {} && s'.turns == s.turns && s'.log == s.log
            && (forall c | c in s.live :: c < |s'.clients| && s'.clients[c].closed)
            && (s.active.Some? && s.active.value.phase == Starting ==> s'.active.Some? && s'.active.value.phase == Settled(Unknown))
  {
    ReachableIs(s);
    CloseClientsKeeps(s, |s.clients|);
    CloseClientsKeepExact(s, |s.clients|);
    ClosingKeepsPhase(s, |s.clients|);
    hide CloseClients, CloseClient;
  }

  /** Closing keeps the sets, and settles a waiting request. */
  lemma {:induction false} ClosingKeepsPhase(s: State, n: nat)
    requires Inv(s) && n <= |s.clients|
    ensures CloseClients(s, n).turns == s.turns && CloseClients(s, n).uncertain == s.uncertain
    ensures s.active.Some? && s.active.value.phase == Starting && s.active.value.client < n && s.active.value.client in s.live ==>
              CloseClients(s, n).active == Some(s.active.value.(phase := Settled(Unknown)))
    ensures s.active.Some? && s.active.value.phase == Starting && (s.active.value.client >= n || s.active.value.client !in s.live) ==>
              CloseClients(s, n).active == s.active
    decreases n
  {
    if n > 0 {
      CloseClientsKeeps(s, n - 1);
      ClosingKeepsPhase(s, n - 1);
    }
  }

  /** A follower reports what it saw once, and is gone when it completes or gives up. */
  lemma FollowersEnd(s: State, f: Follower)
    requires f in s.followers
    ensures f.uncertain ==> var s' := Apply(s, FollowerStarts(f));
              s'.followers == s.followers - {f} + {Follower(f.id, false)} && Known(s'.log, f.id) && f.id in s'.turns && f.id !in s'.uncertain
    ensures !f.uncertain ==> var s' := Apply(s, FollowerCompletes(f)); s'.followers == s.followers - {f} && Known(s'.log, f.id)
    ensures Apply(s, FollowerGivesUp(f)) == s.(followers := s.followers - {f})
  {}

  lemma {:induction false} LeadsSnoc(s: State, es: seq<Event>, s': State, e: Event)
    requires Leads(s, es, s') && Enabled(s', e)
    ensures Leads(s, es + [e], Apply(s', e))
    decreases |es|
  {
    hide Apply, Enabled;
    if es == [] {
      assert [e][1..] == [];
    } else {
      assert (es + [e])[1..] == es[1..] + [e];
      LeadsSnoc(Apply(s, es[0]), es[1..], s', e);
    }
  }

  lemma Step(s: State, e: Event) returns (s': State)
    requires Reachable(s) && Enabled(s, e)
    ensures Reachable(s') && s' == Apply(s, e)
  {
    var es :| Leads(Init, es, s);
    s' := Apply(s, e);
    LeadsSnoc(Init, es, s, e);
  }

  /** A submission up to the point where its frame is sent. */
  lemma Prepared(id: Id) returns (s: State)
    ensures Reachable(s) && s == Init.(active := Some(Submission(id, 0, Owned)), clients := [Client(false, None)], live := {0})
  {
    assert Leads(Init, [], Init);
    s := Step(Init, Submit(id));
    s := Step(s, Begin);
    s := Step(s, Discover);
    s := Step(s, OwnerFound);
  }

  /** And turns do get started: a submission whose frame is written and answered. */
  lemma TurnStarts(id: Id) returns (s: State)
    ensures Reachable(s) && s.log == [Wrote(id), Answered(id, true)] && s.told == [Started(id)] && s.turns == {id} && s.uncertain == {}
  {
    s := Prepared(id);
    hide Reachable;
    s := Step(s, Start(true, Taken));
    s := Step(s, Respond(Success(true)));
    s := Step(s, Continue);
    s := Step(s, Notified(true));
  }

  /** What was written and not answered stays uncertain until a follower sees the turn. */
  lemma LostAnswer(id: Id) returns (before: State, after: State)
    ensures Reachable(before) && before.log == [Wrote(id)] && before.told == [Uncertain(id)] && before.turns == {} && before.uncertain == {id}
    ensures Reachable(after) && after.log == [Wrote(id), Seen(id)] && after.turns == {id} && after.uncertain == {}
  {
    before := Prepared(id);
    hide Reachable;
    before := Step(before, Start(true, Taken));
    before := Step(before, TimeOut);
    before := Step(before, Continue);
    before := Step(before, Notified(true));
    after := Step(before, FollowerStarts(Follower(id, true)));
  }
}
