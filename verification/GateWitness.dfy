/** Runs of the Cross-session gate, built step by step: a send that goes through, and hooks
    that pass its barrier.  With GateBarrier they say exactly when the barrier holds. */
module GateWitness {
  import opened Wrappers
  import opened GateRules
  import opened GateRun
  import opened GateBarrier

  lemma {:induction false} LeadsSnoc(pace: Pace, s: State, es: seq<Event>, s': State, e: Event)
    requires Leads(pace, s, es, s') && Enabled(s', e) && InPace(pace, s', e)
    ensures Leads(pace, s, es + [e], Apply(s', e))
    decreases |es|
  {
    hide Enabled, InPace, Apply;
    if es == [] {
      assert [e][1..] == [] && Leads(pace, Apply(s, e), [], Apply(s, e));
    } else {
      assert (es + [e])[1..] == es[1..] + [e];
      LeadsSnoc(pace, Apply(s, es[0]), es[1..], s', e);
    }
  }

  lemma Step(pace: Pace, s: State, e: Event) returns (s': State)
    requires Reachable(pace, s) && Enabled(s, e) && InPace(pace, s, e)
    ensures Reachable(pace, s') && s' == Apply(s, e)
  {
    var n: nat, now: int, es :| Leads(pace, Init(n, now), es, s);
    s' := Apply(s, e);
    LeadsSnoc(pace, Init(n, now), es, s, e);
  }

  /** An access made in the instant its hook started, finding the files. */
  lemma Access(pace: Pace, s: State, p: nat) returns (s': State)
    requires Reachable(pace, s) && Enabled(s, Act(p, true, true)) && s.procs[p].now == s.clock
    ensures Reachable(pace, s') && s' == ActStep(s, p, true, true)
  {
    s' := Step(pace, s, Act(p, true, true));
  }

  /** p starts a hook, takes the lock and reads. */
  lemma Enter(pace: Pace, s0: State, p: nat, h: Hook) returns (s: State)
    requires Reachable(pace, s0) && p < |s0.procs| && s0.procs[p].pc.Idle? && s0.lock.None?
    requires h.main && h.session.Some?
    requires !h.SessionStart? ==> s0.arm == h.session
    requires h.PreToolUse? && h.tool == Exact(SendMessage) ==> SendTarget(h.input).Some? && Read(s0.file, s0.clock, true).barrier.None?
    ensures Reachable(pace, s)
    ensures s == s0.(lock := Some(p), procs := s0.procs[p := Proc(h, s0.clock, ReadState)])
  {
    hide Read, SendTarget, Decide, Unarmed, Reachable;
    s := Step(pace, s0, Start(p, h));
    s := Access(pace, s, p);
    if h.PreToolUse? && h.tool == Exact(SendMessage) {
      s := Access(pace, s, p);
    }
    assert s == s0.(procs := s0.procs[p := Proc(h, s0.clock, TakeLock)]);
    s := Access(pace, s, p);
  }

  /** A whole hook of the armed session that writes, in one instant. */
  lemma RunHook(pace: Pace, s0: State, p: nat, h: Hook) returns (s: State)
    requires Reachable(pace, s0) && p < |s0.procs| && s0.procs[p].pc.Idle? && s0.lock.None?
    requires h.main && h.session.Some? && s0.arm == h.session && !h.SessionStart?
    requires h.PreToolUse? && h.tool == Exact(SendMessage) ==> SendTarget(h.input).Some?
    requires Read(s0.file, s0.clock, true) == s0.file && s0.file.barrier.None?
    requires Decide(s0.file, h, s0.clock).next.Some?
    ensures Reachable(pace, s)
    ensures var o := Decide(s0.file, h, s0.clock);
            s == s0.(file := o.next.value, log := s0.log + [Entry(h, s0.clock, o.verdict, o.deed)],
                     trail := Advance(s0.trail, o.deed, |s0.log|), procs := s0.procs[p := Proc(h, s0.clock, Idle)])
  {
    hide Read, Decide, SendTarget, Advance;
    s := Enter(pace, s0, p, h);
    var o := Decide(s0.file, h, s0.clock);
    s := Access(pace, s, p);
    assert s == s0.(lock := Some(p), procs := s0.procs[p := Proc(h, s0.clock, WriteState(o, true))]);
    s := Access(pace, s, p);
    assert s == s0.(lock := Some(p), file := o.next.value, log := s0.log + [Entry(h, s0.clock, o.verdict, o.deed)],
                    trail := Advance(s0.trail, o.deed, |s0.log|), procs := s0.procs[p := Proc(h, s0.clock, DropLock)]);
    s := Access(pace, s, p);
  }

  lemma ArmSession(pace: Pace, s0: State, p: nat, session: string) returns (s: State)
    requires Reachable(pace, s0) && p < |s0.procs| && s0.procs[p].pc.Idle? && s0.lock.None?
    ensures Reachable(pace, s)
    ensures var h := SessionStart(true, Some(session));
            s == s0.(arm := Some(session), file := Empty(s0.clock), procs := s0.procs[p := Proc(h, s0.clock, Idle)],
                     log := s0.log + [Entry(h, s0.clock, NoVerdict, Emptied), Entry(h, s0.clock, NoVerdict, Armed)])
  {
    hide Reachable;
    var h := SessionStart(true, Some(session));
    s := Enter(pace, s0, p, h);
    s := Access(pace, s, p);
    s := Access(pace, s, p);
    assert s == s0.(lock := Some(p), file := Empty(s0.clock), log := s0.log + [Entry(h, s0.clock, NoVerdict, Emptied)],
                    procs := s0.procs[p := Proc(h, s0.clock, WriteArm)]);
    s := Access(pace, s, p);
    assert s.log == s0.log + [Entry(h, s0.clock, NoVerdict, Emptied), Entry(h, s0.clock, NoVerdict, Armed)];
    s := Access(pace, s, p);
  }

  // ---- One chain of results, and the send it permits ----

  const SESSION := "s"
  const ADDRESS := "apcs-a-000000000000"
  const PEER := Candidate("a", "n", "r")
  const LISTING := Listing(PEER, ADDRESS)
  const NO_INPUT := SendInput(None, None, None)

  function Ask(kind: Kind, id: string): Hook {
    PreToolUse(true, Some(SESSION), Exact(kind), Some(id), NO_INPUT)
  }

  function Answer(kind: Kind, id: string, response: Response): Hook {
    PostToolBatch(true, Some(SESSION), Some([Call(Some(kind), id, response)]))
  }

  const SEND := PreToolUse(true, Some(SESSION), Exact(SendMessage), Some("4"), SendInput(Some(ADDRESS), None, Some(1)))

  /** A hook of the same session that is none of the gate's tools. */
  const OTHER := PreToolUse(true, Some(SESSION), OtherTool, Some("5"), NO_INPUT)

  lemma AddressIsGenerated()
    ensures ContainsAddress(ADDRESS)
  {
    assert ADDRESS[0..19] == ADDRESS;
    assert ADDRESS[..5] == "apcs-";
    assert GeneratedAddress(ADDRESS[0..19]);
  }

  lemma OneRow()
    ensures Candidates([PEER]) == [PEER]
  {
    var rows := [PEER];
    assert Firsts(rows, 0) == [];
    assert Firsts(rows, 1) == rows;
    assert rows[1..] == [] && Settled(rows, []) == [];
    assert Undisputed(rows, PEER);
    assert Settled(rows, rows) == rows;
  }

  lemma OneCall(st: GateState, call: Call, now: int)
    requires st.pending.Some? && Matches(st.pending.value, call)
    ensures BatchUse(st, Some([call]), now).next.Some?
  {
    assert [call][0] in [call];
  }

  function Chain(now: int, candidates: seq<Candidate>, listings: seq<Listing>, permit: Option<Permit>, pending: Option<Pending>): GateState {
    GateState(now, candidates, listings, permit, pending, None)
  }

  lemma OneListing()
    ensures Listings(map["n" := ADDRESS], [PEER]) == [LISTING]
  {
    assert [PEER][1..] == [];
    assert Listings(map["n" := ADDRESS], []) == [];
  }

  /** A tool of the chain is asked for and its result comes in, in one instant. */
  lemma Round(pace: Pace, s0: State, p: nat, kind: Kind, id: string, response: Response, asked: GateState, answered: GateState) returns (s: State)
    requires Reachable(pace, s0) && p < |s0.procs| && s0.procs[p].pc.Idle? && s0.lock.None? && s0.arm == Some(SESSION)
    requires kind != SendMessage && s0.file.barrier.None? && asked.barrier.None?
    requires Read(s0.file, s0.clock, true) == s0.file && Read(asked, s0.clock, true) == asked
    requires OtherToolUse(s0.file, Exact(kind), Some(id), NO_INPUT, s0.clock).next == Some(asked)
    requires BatchUse(asked, Some([Call(Some(kind), id, response)]), s0.clock).next == Some(answered)
    ensures Reachable(pace, s) && |s.procs| == |s0.procs| && s.procs[p].pc.Idle? && s.clock == s0.clock && s.arm == s0.arm && s.lock.None?
    ensures forall q | 0 <= q < |s.procs| && q != p :: s.procs[q] == s0.procs[q]
    ensures s.file == answered
  {
    hide Read, OtherToolUse, BatchUse, Advance;
    s := RunHook(pace, s0, p, Ask(kind, id));
    s := RunHook(pace, s, p, Answer(kind, id, response));
  }

  lemma PeersRound(now: int)
    ensures OtherToolUse(Empty(now), Exact(Peers), Some("1"), NO_INPUT, now).next == Some(Chain(now, [], [], None, Some(Pending(Peers, "1"))))
    ensures var call := Call(Some(Peers), "1", Response([PEER], map[], []));
            BatchUse(Chain(now, [], [], None, Some(Pending(Peers, "1"))), Some([call]), now).next == Some(Chain(now, [PEER], [], None, None))
  {
    OneRow();
    hide Candidates;
    OneCall(Chain(now, [], [], None, Some(Pending(Peers, "1"))), Call(Some(Peers), "1", Response([PEER], map[], [])), now);
  }

  lemma AgentsRound(now: int)
    ensures OtherToolUse(Chain(now, [PEER], [], None, None), Exact(ListAgents), Some("2"), NO_INPUT, now).next ==
              Some(Chain(now, [PEER], [], None, Some(Pending(ListAgents, "2"))))
    ensures var call := Call(Some(ListAgents), "2", Response([], map["n" := ADDRESS], []));
            BatchUse(Chain(now, [PEER], [], None, Some(Pending(ListAgents, "2"))), Some([call]), now).next ==
              Some(Chain(now, [PEER], [LISTING], None, None))
  {
    OneListing();
    hide Listings;
    OneCall(Chain(now, [PEER], [], None, Some(Pending(ListAgents, "2"))), Call(Some(ListAgents), "2", Response([], map["n" := ADDRESS], [])), now);
  }

  lemma CheckRound(now: int)
    ensures OtherToolUse(Chain(now, [PEER], [LISTING], None, None), Exact(PeerCheck), Some("3"), NO_INPUT, now).next ==
              Some(Chain(now, [PEER], [LISTING], None, Some(Pending(PeerCheck, "3"))))
    ensures var call := Call(Some(PeerCheck), "3", Response([], map[], [LISTING]));
            BatchUse(Chain(now, [PEER], [LISTING], None, Some(Pending(PeerCheck, "3"))), Some([call]), now).next ==
              Some(Chain(now, [PEER], [LISTING], Some(Permit(LISTING, now + PERMIT_TTL_MS)), None))
  {
    OneCall(Chain(now, [PEER], [LISTING], None, Some(Pending(PeerCheck, "3"))), Call(Some(PeerCheck), "3", Response([], map[], [LISTING])), now);
  }

  /** The six hooks that lead from an armed session to a permit, all in one instant. */
  lemma EarnPermit(pace: Pace, s0: State, p: nat) returns (s: State)
    requires Reachable(pace, s0) && p < |s0.procs| && s0.procs[p].pc.Idle? && s0.lock.None?
    requires s0.arm == Some(SESSION) && s0.file == Empty(s0.clock)
    ensures Reachable(pace, s) && |s.procs| == |s0.procs| && s.procs[p].pc.Idle? && s.clock == s0.clock && s.arm == s0.arm && s.lock.None?
    ensures forall q | 0 <= q < |s.procs| && q != p :: s.procs[q] == s0.procs[q]
    ensures s.file == Chain(s0.clock, [PEER], [LISTING], Some(Permit(LISTING, s0.clock + PERMIT_TTL_MS)), None)
  {
    var now := s0.clock;
    var found, listed := Chain(now, [PEER], [], None, None), Chain(now, [PEER], [LISTING], None, None);
    var permitted := Chain(now, [PEER], [LISTING], Some(Permit(LISTING, now + PERMIT_TTL_MS)), None);
    PeersRound(now);
    AgentsRound(now);
    CheckRound(now);
    hide OtherToolUse, BatchUse, Reachable;
    s := Round(pace, s0, p, Peers, "1", Response([PEER], map[], []), Chain(now, [], [], None, Some(Pending(Peers, "1"))), found);
    s := Round(pace, s, p, ListAgents, "2", Response([], map["n" := ADDRESS], []), found.(pending := Some(Pending(ListAgents, "2"))), listed);
    s := Round(pace, s, p, PeerCheck, "3", Response([], map[], [LISTING]), listed.(pending := Some(Pending(PeerCheck, "3"))), permitted);
  }

  /** The send itself, at most 30 s after the permit. */
  lemma UsePermit(pace: Pace, s0: State, p: nat, earned: int) returns (s: State)
    requires Reachable(pace, s0) && p < |s0.procs| && s0.procs[p].pc.Idle? && s0.lock.None? && s0.arm == Some(SESSION)
    requires s0.file == Chain(earned, [PEER], [LISTING], Some(Permit(LISTING, earned + PERMIT_TTL_MS)), None)
    requires earned <= s0.clock <= earned + PERMIT_TTL_MS
    ensures Reachable(pace, s) && |s.procs| == |s0.procs| && s.clock == s0.clock && s.arm == s0.arm && s.lock.None?
    ensures forall q | 0 <= q < |s.procs| && q != p :: s.procs[q] == s0.procs[q]
    ensures s.log == s0.log + [Entry(SEND, s0.clock, Allow, Sent("4", ADDRESS))]
    ensures s.file.updatedAt == s0.clock && s.file.barrier == Some(s0.clock + PERMIT_TTL_MS) && |s.file.candidates| <= MAX_CANDIDATES
  {
    AddressIsGenerated();
    hide ContainsAddress;
    s := RunHook(pace, s0, p, SEND);
  }

  /** At clock 0 a session is armed and has its permit; a second hook has started. */
  lemma Prepare(pace: Pace) returns (s: State)
    ensures Reachable(pace, s) && |s.procs| == 2 && s.clock == 0 && s.lock.None? && s.arm == Some(SESSION)
    ensures s.procs[0].pc.Idle? && s.procs[1] == Proc(OTHER, 0, CheckArm)
    ensures s.file == Chain(0, [PEER], [LISTING], Some(Permit(LISTING, PERMIT_TTL_MS)), None)
  {
    s := Init(2, 0);
    assert Leads(pace, s, [], s);
    s := ArmSession(pace, s, 0, SESSION);
    s := EarnPermit(pace, s, 0);
    s := Step(pace, s, Start(1, OTHER));
  }

  /** Sends do happen, at any pace. */
  lemma SendHappens(pace: Pace) returns (s: State, k: nat)
    ensures Reachable(pace, s) && k < |s.log| && s.log[k].deed.Sent? && ToBridge(s.log[k].hook) && s.log[k].verdict == Allow
  {
    s := Prepare(pace);
    k := |s.log|;
    s := UsePermit(pace, s, 0, 0);
    AddressIsGenerated();
  }

  /** The armed session of a reachable state is the one the log says. */
  lemma ArmSays(pace: Pace, s: State)
    requires Reachable(pace, s)
    ensures ArmAt(s.log) == s.arm
  {
    ReachableInv(pace, s);
    hide ChainOk, LogOk, ProcsOk, Reachable;
  }

  lemma PassesNext(pace: Pace, s0: State, s: State, k: nat, en: Entry)
    requires Reachable(pace, s0) && s.log == s0.log + [en] && k == |s0.log| - 1 && s0.log[k].deed.Sent?
    requires s0.arm == Some(SESSION) && en.hook == OTHER && en.verdict == Allow && en.now <= Expiry(s0.log, k)
    ensures !BarrierKept(s.log)
  {
    hide Reachable, ArmAt;
    ArmSays(pace, s0);
    var m := |s0.log|;
    assert s.log[..m] == s0.log && s.log[k] == s0.log[k];
    assert Passes(s.log, m);
  }

  /** A hook that reads more than five seconds after its start passes a barrier that was
      sealed in between, and erases it. */
  lemma StalledHookPasses(pace: Pace) returns (s: State)
    requires pace.Any? || pace.delay > CLOCK_SKEW_MS
    ensures Reachable(pace, s) && !BarrierKept(s.log) && s.file == Empty(0)
  {
    s := Prepare(pace);
    s := Step(pace, s, Tick(CLOCK_SKEW_MS + 1));
    var sent := UsePermit(pace, s, 0, 0);
    TooLate(sent.file);
    s := PassUnread(pace, sent, true);
    PassesNext(pace, sent, s, |sent.log| - 1, Entry(OTHER, 0, Allow, Reset));
  }

  /** What the late hook reads lies too far ahead of its clock. */
  lemma TooLate(file: GateState)
    requires file.updatedAt == CLOCK_SKEW_MS + 1
    ensures Decide(Read(file, 0, true), OTHER, 0) == Outcome(Allow, Reset, Some(Empty(0)))
  {}

  /** Nor does it see a barrier in a state that it cannot read. */
  lemma Unread(file: GateState)
    ensures Decide(Read(file, 0, false), OTHER, 0) == Outcome(Allow, Reset, Some(Empty(0)))
  {}

  /** The way through the lock of a hook that reads nothing. */
  lemma PassUnread(pace: Pace, sent: State, readable: bool) returns (s: State)
    requires pace.Any? || (sent.clock <= pace.delay && (pace.torn || readable))
    requires Reachable(pace, sent) && |sent.procs| == 2 && sent.procs[1] == Proc(OTHER, 0, CheckArm) && sent.lock.None?
    requires sent.arm == Some(SESSION) && Decide(Read(sent.file, 0, readable), OTHER, 0) == Outcome(Allow, Reset, Some(Empty(0)))
    ensures Reachable(pace, s) && s.log == sent.log + [Entry(OTHER, 0, Allow, Reset)] && s.file == Empty(0)
  {
    hide Read, Decide, Reachable;
    s := Step(pace, sent, Act(1, true, readable));
    assert s == sent.(procs := sent.procs[1 := Proc(OTHER, 0, TakeLock)]);
    s := Step(pace, s, Act(1, true, readable));
    assert s == sent.(lock := Some(1), procs := sent.procs[1 := Proc(OTHER, 0, ReadState)]);
    s := Step(pace, s, Act(1, true, readable));
    assert s == sent.(lock := Some(1), procs := sent.procs[1 := Proc(OTHER, 0, WriteState(Outcome(Allow, Reset, Some(Empty(0))), readable))]);
    s := Step(pace, s, Act(1, true, readable));
  }

  /** A hook that does not find armed.json takes the session for an unarmed one. */
  lemma BlindHookPasses(pace: Pace) returns (s: State)
    requires pace.Any? || pace.blind
    ensures Reachable(pace, s) && !BarrierKept(s.log)
  {
    s := Prepare(pace);
    s := UsePermit(pace, s, 0, 0);
    var sent := s;
    s := Step(pace, s, Act(1, false, true));
    PassesNext(pace, sent, s, |sent.log| - 1, Entry(OTHER, 0, Allow, Nothing));
  }

  /** A hook that finds the state unreadable takes it for an empty one, and writes that. */
  lemma TornStatePasses(pace: Pace) returns (s: State)
    requires pace.Any? || pace.torn
    ensures Reachable(pace, s) && !BarrierKept(s.log) && s.file == Empty(0)
  {
    s := Prepare(pace);
    var sent := UsePermit(pace, s, 0, 0);
    Unread(sent.file);
    s := PassUnread(pace, sent, false);
    PassesNext(pace, sent, s, |sent.log| - 1, Entry(OTHER, 0, Allow, Reset));
  }

  /** The barrier's pace: at most five seconds, and nothing missed. */
  predicate Timely(pace: Pace) {
    pace.Within? && pace.delay <= CLOCK_SKEW_MS && !pace.blind && !pace.torn
  }

  /** A slower pace allows every run of a faster one. */
  lemma {:induction false} PaceWidens(pace: Pace, s: State, es: seq<Event>, s': State)
    requires Timely(pace) && Leads(pace, s, es, s')
    ensures Leads(PROMPT, s, es, s')
    decreases |es|
  {
    if es != [] {
      PaceWidens(pace, Apply(s, es[0]), es[1..], s');
    }
  }

  /** In every run the barrier holds, if and only if hooks read within five seconds of their
      start, always find armed.json and can always read the state. */
  lemma BarrierExactly(pace: Pace)
    ensures (forall s | Reachable(pace, s) :: BarrierKept(s.log))
       <==> Timely(pace)
  {
    if Timely(pace) {
      forall s | Reachable(pace, s) ensures BarrierKept(s.log) {
        var n: nat, now: int, es :| Leads(pace, Init(n, now), es, s);
        PaceWidens(pace, Init(n, now), es, s);
        BarrierHolds(s);
      }
    } else if pace.Any? || pace.blind {
      var s := BlindHookPasses(pace);
    } else if pace.torn {
      var s := TornStatePasses(pace);
    } else {
      var s := StalledHookPasses(pace);
    }
  }
}
