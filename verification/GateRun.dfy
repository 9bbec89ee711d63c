/** Whole runs of the Cross-session gate: any number of hook processes, interleaved at every
    access to the arm file, the state file and the lock, crashing anywhere.  consume.lock is
    a mutex here; ConsumeLock shows when it is one.  Each write and each verdict is recorded
    in a log, and the theorems speak about the log. */
module GateRun {
  import opened Wrappers
  import opened GateRules

  /** The next access of a hook process.  `readable` remembers whether its read succeeded. */
  datatype Pc =
    | Idle
    | CheckArm                 // reads armed.json without the lock
    | CheckBarrier             // built-in SendMessage only: reads state.json without the lock
    | TakeLock
    | ReadState                // holds the lock: rechecks the arm, reads and decides
    | WriteState(outcome: Outcome, readable: bool)
    | WriteArm
    | DropLock
    | Dead

  /** `now` is Date.now() when the hook started. */
  datatype Proc = Proc(hook: Hook, now: int, pc: Pc)

  datatype Entry = Entry(hook: Hook, now: int, verdict: Verdict, deed: Deed)

  /** Log positions the persisted chain rests on: where each tool was asked and its result written. */
  datatype Trail = Trail(asked1: nat, found: nat, asked2: nat, listed: nat, asked3: nat, permitted: nat)

  datatype State = State(
    clock: int,
    arm: Option<string>,
    file: GateState,
    lock: Option<nat>,
    procs: seq<Proc>,
    log: seq<Entry>,
    trail: Trail)

  datatype Event =
    | Tick(to: int)
    | Start(p: nat, hook: Hook)
    | Act(p: nat, seen: bool, readable: bool)   // the next access; a read may not see armed.json, or find state.json unreadable
    | Busy(p: nat)                  // gives up waiting for the lock
    | Crash(p: nat)
    | Reclaim                       // a waiting process removes a dead holder's lock

  function Init(n: nat, now: int): State {
    State(now, None, Empty(now), None, seq(n, _ => Proc(SessionStart(false, None), now, Idle)), [], Trail(0, 0, 0, 0, 0, 0))
  }

  predicate Matching(s: State, h: Hook) {
    h.session.Some? && s.arm == h.session
  }

  predicate Locked(pc: Pc) {
    pc.ReadState? || pc.WriteState? || pc.WriteArm? || pc.DropLock?
  }

  predicate Enabled(s: State, e: Event) {
    match e
    case Tick(to) => s.clock < to
    case Start(p, _) => p < |s.procs| && s.procs[p].pc.Idle?
    case Act(p, _, _) =>
      && p < |s.procs| && !s.procs[p].pc.Idle? && !s.procs[p].pc.Dead?
      && (s.procs[p].pc.TakeLock? ==> s.lock.None?)
    case Busy(p) => p < |s.procs| && s.procs[p].pc.TakeLock?
    case Crash(p) => p < |s.procs|
    case Reclaim => s.lock.Some? && s.lock.value < |s.procs| && s.procs[s.lock.value].pc.Dead?
  }

  function Goto(s: State, p: nat, pc: Pc): State
    requires p < |s.procs|
  {
    s.(procs := s.procs[p := s.procs[p].(pc := pc)])
  }

  /** Process p has its verdict without having written anything. */
  function Judge(s: State, p: nat, verdict: Verdict, pc: Pc): State
    requires p < |s.procs|
  {
    var proc := s.procs[p];
    Goto(s.(log := s.log + [Entry(proc.hook, proc.now, verdict, Nothing)]), p, pc)
  }

  function Advance(t: Trail, deed: Deed, at: nat): Trail {
    match deed
    case Asked(Peers, _) => t.(asked1 := at)
    case Asked(ListAgents, _) => t.(asked2 := at)
    case Asked(PeerCheck, _) => t.(asked3 := at)
    case Found(_, _) => t.(found := at)
    case Listed(_, _) => t.(listed := at)
    case Permitted(_, _) => t.(permitted := at)
    case _ => t
  }

  /** The lock-free check of the arm, and what needs no state at all. */
  function CheckArmStep(s: State, p: nat, seen: bool): State
    requires p < |s.procs|
  {
    var h := s.procs[p].hook;
    var armed := seen && Matching(s, h);
    match h
    case SessionStart(main, session) => Goto(s, p, if main && session.Some? then TakeLock else Idle)
    case PostToolBatch(main, _, _) => Goto(s, p, if main && armed then TakeLock else Idle)
    case PreToolUse(main, _, tool, _, input) =>
      if !main then Judge(s, p, if ToBridge(h) then Block else Allow, Idle)
      else if !armed || (tool == Exact(SendMessage) && SendTarget(input).None?) then Judge(s, p, Unarmed(h), Idle)
      else Goto(s, p, if tool == Exact(SendMessage) then CheckBarrier else TakeLock)
  }

  function ActStep(s: State, p: nat, seen: bool, readable: bool): State
    requires Enabled(s, Act(p, seen, readable))
  {
    var proc := s.procs[p];
    match proc.pc
    case CheckArm => CheckArmStep(s, p, seen)
    case CheckBarrier =>
      if Read(s.file, proc.now, readable).barrier.Some? then Judge(s, p, Block, Idle) else Goto(s, p, TakeLock)
    case TakeLock => Goto(s.(lock := Some(p)), p, ReadState)
    case ReadState =>
      if proc.hook.SessionStart? then Goto(s, p, WriteState(Decide(s.file, proc.hook, proc.now), readable))
      else if !(seen && Matching(s, proc.hook)) then Judge(s, p, Unarmed(proc.hook), DropLock)
      else
        var outcome := Decide(Read(s.file, proc.now, readable), proc.hook, proc.now);
        if outcome.next.None? then Judge(s, p, outcome.verdict, DropLock) else Goto(s, p, WriteState(outcome, readable))
    case WriteState(outcome, _) =>
      if outcome.next.None? then Goto(s, p, DropLock)
      else
        Goto(s.(file := outcome.next.value,
                log := s.log + [Entry(proc.hook, proc.now, outcome.verdict, outcome.deed)],
                trail := Advance(s.trail, outcome.deed, |s.log|)),
             p, if proc.hook.SessionStart? then WriteArm else DropLock)
    case WriteArm =>
      Goto(s.(arm := proc.hook.session, log := s.log + [Entry(proc.hook, proc.now, NoVerdict, Armed)]), p, DropLock)
    case DropLock => Goto(s.(lock := None), p, Idle)
    case Idle => s
    case Dead => s
  }

  function Apply(s: State, e: Event): State
    requires Enabled(s, e)
  {
    match e
    case Tick(to) => s.(clock := to)
    case Start(p, hook) => s.(procs := s.procs[p := Proc(hook, s.clock, CheckArm)])
    case Act(p, seen, readable) => ActStep(s, p, seen, readable)
    case Busy(p) =>
      if s.procs[p].hook.PreToolUse? then Judge(s, p, Block, Idle) else Goto(s, p, Idle)
    case Crash(p) => Goto(s, p, Dead)
    case Reclaim => s.(lock := None)
  }

  /** How runs are restricted: not at all, or every read comes at most `delay` milliseconds
      after its hook started, finds armed.json unless `blind`, and can read the state unless
      `torn`. */
  datatype Pace = Any | Within(delay: nat, blind: bool, torn: bool)

  predicate Reads(pc: Pc) {
    pc.CheckArm? || pc.CheckBarrier? || pc.ReadState?
  }

  predicate InPace(pace: Pace, s: State, e: Event) {
    pace.Within? && e.Act? && e.p < |s.procs| && Reads(s.procs[e.p].pc) ==>
      s.clock <= s.procs[e.p].now + pace.delay && (pace.blind || e.seen) && (pace.torn || e.readable)
  }

  /** The events es, taken in order and in pace, lead from s to s'. */
  ghost predicate Leads(pace: Pace, s: State, es: seq<Event>, s': State)
    decreases |es|
  {
    if es == [] then s == s'
    else Enabled(s, es[0]) && InPace(pace, s, es[0]) && Leads(pace, Apply(s, es[0]), es[1..], s')
  }

  /** Some number of process slots, some starting time. */
  ghost predicate Reachable(pace: Pace, s: State) {
    exists n: nat, now: int, es :: Leads(pace, Init(n, now), es, s)
  }

  // ---- What the log says ----

  /** The armed session after the log. */
  function ArmAt(log: seq<Entry>): Option<string> {
    if log == [] then None
    else
      var last := log[|log| - 1];
      if last.deed.Armed? then last.hook.session else ArmAt(log[..|log| - 1])
  }

  /** No SessionStart touched the files from position i on. */
  ghost predicate SameSession(log: seq<Entry>, i: nat, end: nat)
    requires end <= |log|
  {
    forall j | i <= j < end :: !log[j].deed.Armed? && !log[j].deed.Emptied?
  }

  ghost predicate NoSend(log: seq<Entry>, i: nat, end: nat)
    requires end <= |log|
  {
    forall j | i <= j < end :: !log[j].deed.Sent?
  }

  ghost predicate FoundBy(log: seq<Entry>, t: Trail, candidates: seq<Candidate>, end: nat)
    requires end <= |log|
  {
    && t.asked1 < t.found < end
    && SameSession(log, t.asked1, end)
    && log[t.found].deed.Found?
    && log[t.found].deed.candidates == candidates
    && log[t.asked1].deed == Asked(Peers, log[t.found].deed.id)
  }

  ghost predicate ListedBy(log: seq<Entry>, t: Trail, candidates: seq<Candidate>, listings: seq<Listing>, end: nat)
    requires end <= |log|
  {
    && t.found < t.asked2 < t.listed < end
    && NoSend(log, t.asked2, end)
    && log[t.listed].deed.Listed?
    && log[t.listed].deed.listings == listings
    && log[t.asked2].deed == Asked(ListAgents, log[t.listed].deed.id)
    && forall l | l in listings :: l.candidate in candidates
  }

  ghost predicate PermittedBy(log: seq<Entry>, t: Trail, listings: seq<Listing>, permit: Permit, end: nat)
    requires end <= |log|
  {
    && t.listed < t.asked3 < t.permitted < end
    && log[t.permitted].deed.Permitted?
    && log[t.permitted].deed.permit == permit
    && log[t.asked3].deed == Asked(PeerCheck, log[t.permitted].deed.id)
    && permit.listing in listings
    && permit.expiresAt == log[t.permitted].now + PERMIT_TTL_MS
  }

  /** The send recorded at k rests on one chain of deeds; what they mean is `Screened`. */
  ghost predicate Justified(log: seq<Entry>, k: nat)
    requires k < |log| && log[k].deed.Sent?
  {
    exists t: Trail, candidates, listings, permit: Permit ::
      && FoundBy(log, t, candidates, k)
      && ListedBy(log, t, candidates, listings, k)
      && PermittedBy(log, t, listings, permit, k)
      && permit.listing.sendTo == log[k].deed.to
      && log[k].now <= permit.expiresAt
      && ArmAt(log[..k]) == log[k].hook.session
  }

  /** A top-level PreToolUse of exactly this tool, with this id. */
  predicate Asks(h: Hook, kind: Kind, id: string) {
    h.PreToolUse? && h.main && h.tool == Exact(kind) && h.id == Some(id)
  }

  /** A top-level batch that holds this one call and nothing else. */
  predicate Answers(h: Hook, kind: Kind, id: string) {
    h.PostToolBatch? && h.main && h.calls.Some? && |h.calls.value| == 1 && Matches(Pending(kind, id), h.calls.value[0])
  }

  predicate AddressedBy(response: Response, l: Listing) {
    l.candidate.displayName in response.addresses && l.sendTo == response.addresses[l.candidate.displayName]
  }

  /** All valid listings that the check confirms are this one. */
  predicate ConfirmedBy(response: Response, l: Listing) {
    response.confirmed != [] && forall c | c in response.confirmed :: c == l
  }

  /** A message of 1 to 512 bytes. */
  predicate Fits(bytes: Option<nat>) {
    bytes.Some? && 1 <= bytes.value <= 512
  }

  /** A deed is what its hook and the tool results in it say.  A PreToolUse to a bridge
      address is allowed only as a recorded send to it. */
  ghost predicate Screened(en: Entry) {
    && (ToBridge(en.hook) && en.verdict == Allow ==> en.deed.Sent?)
    && match en.deed
       case Asked(kind, id) => Asks(en.hook, kind, id) && en.verdict == Allow
       case Found(id, candidates) =>
         && Answers(en.hook, Peers, id) && (forall c | c in candidates :: Undisputed(en.hook.calls.value[0].response.rows, c))
         && (|candidates| < MAX_CANDIDATES ==> forall c | Undisputed(en.hook.calls.value[0].response.rows, c) :: c in candidates)
       case Listed(id, listings) =>
         Answers(en.hook, ListAgents, id) && forall l | l in listings :: AddressedBy(en.hook.calls.value[0].response, l)
       case Permitted(id, permit) =>
         Answers(en.hook, PeerCheck, id) && ConfirmedBy(en.hook.calls.value[0].response, permit.listing)
       case Sent(id, to) =>
         Asks(en.hook, SendMessage, id) && en.verdict == Allow && SendTarget(en.hook.input) == Some(to) && Fits(en.hook.input.message)
       case _ => true
  }

  /** Deeds of the chain are done by hooks of the session that is armed. */
  predicate Chained(deed: Deed) {
    deed.Asked? || deed.Found? || deed.Listed? || deed.Permitted? || deed.Sent?
  }

  ghost predicate OfSession(log: seq<Entry>, k: nat)
    requires k < |log|
  {
    Chained(log[k].deed) ==> log[k].hook.session.Some? && log[k].hook.session == ArmAt(log[..k])
  }

  // ---- The invariant ----

  ghost predicate ChainOk(s: State) {
    var n := |s.log|;
    var file, t := s.file, s.trail;
    && (file.candidates != [] ==> FoundBy(s.log, t, file.candidates, n))
    && (file.listings != [] ==> file.candidates != [] && ListedBy(s.log, t, file.candidates, file.listings, n))
    && (file.permit.Some? ==> file.listings != [] && PermittedBy(s.log, t, file.listings, file.permit.value, n))
    && (file.pending.Some? ==> PendingOk(s, file.pending.value))
    && |file.candidates| <= MAX_CANDIDATES && |file.listings| <= |file.candidates|
  }

  /** The pending tool was asked for at its place in the trail, in the current session. */
  ghost predicate PendingOk(s: State, pending: Pending) {
    var n := |s.log|;
    match pending.kind
    case Peers => s.trail.asked1 < n && SameSession(s.log, s.trail.asked1, n) && s.log[s.trail.asked1].deed == Asked(Peers, pending.id)
    case ListAgents =>
      && s.file.listings == [] && s.trail.found < s.trail.asked2 < n
      && NoSend(s.log, s.trail.asked2, n) && s.log[s.trail.asked2].deed == Asked(ListAgents, pending.id)
    case PeerCheck =>
      && s.file.permit == None && s.trail.listed < s.trail.asked3 < n && s.log[s.trail.asked3].deed == Asked(PeerCheck, pending.id)
    case SendMessage => s.file.listings == [] && s.file.permit == None
  }

  ghost predicate ProcOk(s: State, p: nat)
    requires p < |s.procs|
  {
    var proc := s.procs[p];
    && (Locked(proc.pc) ==> s.lock == Some(p))
    && (proc.pc.CheckBarrier? ==> proc.hook.PreToolUse? && proc.hook.tool == Exact(SendMessage))
    && (proc.pc.CheckBarrier? || proc.pc.TakeLock? || Locked(proc.pc) ==>
          && proc.hook.main && proc.hook.session.Some?
          && (proc.hook.PreToolUse? && proc.hook.tool == Exact(SendMessage) ==> SendTarget(proc.hook.input).Some?))
    && (proc.pc.WriteState? ==>
          && proc.pc.outcome == Decide(if proc.hook.SessionStart? then s.file else Read(s.file, proc.now, proc.pc.readable), proc.hook, proc.now)
          && (!proc.hook.SessionStart? ==> s.arm == proc.hook.session))
    && (proc.pc.WriteArm? ==> proc.hook.SessionStart? && s.file == Empty(proc.now))
  }

  ghost predicate LogOk(log: seq<Entry>) {
    forall k | 0 <= k < |log| :: Screened(log[k]) && OfSession(log, k) && (log[k].deed.Sent? ==> Justified(log, k))
  }

  ghost predicate FilesOk(s: State) {
    s.arm == ArmAt(s.log) && ChainOk(s) && LogOk(s.log)
  }

  ghost predicate ProcsOk(s: State) {
    forall p: nat | p < |s.procs| :: ProcOk(s, p)
  }

  ghost predicate Inv(s: State) {
    FilesOk(s) && ProcsOk(s)
  }

  /** A step of process p that touches the files only while holding the lock disturbs nobody else. */
  lemma OthersUndisturbed(s: State, s': State, p: nat)
    requires ProcsOk(s) && p < |s.procs| == |s'.procs| && s'.procs == s.procs[p := s'.procs[p]]
    requires s.lock == Some(p) || (s'.file == s.file && s'.arm == s.arm && (s'.lock == s.lock || s.lock.None?))
    requires ProcOk(s', p)
    ensures ProcsOk(s')
  {
    forall q: nat | q < |s'.procs|
      ensures ProcOk(s', q)
    {
      assert ProcOk(s, q);
    }
  }

  // ---- Appending to the log ----

  lemma JustifiedSnoc(log: seq<Entry>, en: Entry, k: nat)
    requires k < |log| && log[k].deed.Sent? && Justified(log, k)
    ensures Justified(log + [en], k)
  {
    var t: Trail, candidates, listings, permit: Permit :|
      && FoundBy(log, t, candidates, k)
      && ListedBy(log, t, candidates, listings, k)
      && PermittedBy(log, t, listings, permit, k)
      && permit.listing.sendTo == log[k].deed.to
      && log[k].now <= permit.expiresAt
      && ArmAt(log[..k]) == log[k].hook.session;
    var log' := log + [en];
    assert log'[..k] == log[..k];
    assert FoundBy(log', t, candidates, k) && ListedBy(log', t, candidates, listings, k) && PermittedBy(log', t, listings, permit, k);
  }

  lemma OlderSnoc(log: seq<Entry>, en: Entry, k: nat)
    requires LogOk(log) && k < |log|
    ensures var log' := log + [en];
            Screened(log'[k]) && OfSession(log', k) && (log'[k].deed.Sent? ==> Justified(log', k))
  {
    LogAt(log, k);
    hide LogOk, Screened, ArmAt, Justified;
    assert (log + [en])[..k] == log[..k];
    if log[k].deed.Sent? {
      JustifiedSnoc(log, en, k);
    }
  }

  lemma LogAt(log: seq<Entry>, k: nat)
    requires LogOk(log) && k < |log|
    ensures Screened(log[k]) && OfSession(log, k) && (log[k].deed.Sent? ==> Justified(log, k))
  {}

  lemma LogSnoc(log: seq<Entry>, en: Entry)
    requires LogOk(log) && Screened(en)
    requires Chained(en.deed) ==> en.hook.session.Some? && en.hook.session == ArmAt(log)
    requires en.deed.Sent? ==> Justified(log + [en], |log|)
    ensures LogOk(log + [en])
    ensures ArmAt(log + [en]) == if en.deed.Armed? then en.hook.session else ArmAt(log)
  {
    var log' := log + [en];
    assert log'[..|log|] == log && log'[|log|] == en;
    assert OfSession(log', |log|);
    hide Screened, OfSession, Justified;
    forall k: nat | k < |log'|
      ensures Screened(log'[k]) && OfSession(log', k) && (log'[k].deed.Sent? ==> Justified(log', k))
    {
      if k < |log| {
        OlderSnoc(log, en, k);
      }
    }
  }

  /** An entry that is no SessionStart and no send takes nothing away from the chain. */
  lemma ChainSnoc(s: State, en: Entry)
    requires ChainOk(s) && !en.deed.Armed? && !en.deed.Emptied? && !en.deed.Sent?
    ensures ChainOk(s.(log := s.log + [en]))
  {}

  /** A verdict without a write. */
  lemma JudgeKeepsInv(s: State, p: nat, verdict: Verdict, pc: Pc)
    requires Inv(s) && p < |s.procs| && Screened(Entry(s.procs[p].hook, s.procs[p].now, verdict, Nothing))
    requires pc.Idle? || (pc.DropLock? && s.procs[p].pc.ReadState?)
    ensures Inv(Judge(s, p, verdict, pc))
  {
    var en := Entry(s.procs[p].hook, s.procs[p].now, verdict, Nothing);
    var s' := Judge(s, p, verdict, pc);
    var s1 := s.(log := s.log + [en]);
    LogSnoc(s.log, en);
    ChainSnoc(s, en);
    assert s'.file == s1.file && s'.trail == s1.trail && s'.log == s1.log;
    assert ChainOk(s');
    assert ProcOk(s, p);
    OthersUndisturbed(s, s', p);
  }

  lemma GotoKeepsInv(s: State, p: nat, pc: Pc)
    requires Inv(s) && p < |s.procs| && ProcOk(Goto(s, p, pc), p)
    ensures Inv(Goto(s, p, pc))
  {
    var s' := Goto(s, p, pc);
    assert s'.file == s.file && s'.trail == s.trail && s'.log == s.log;
    OthersUndisturbed(s, s', p);
  }

  // ---- Writes ----

  /** The state after the holder p wrote its outcome. */
  function Written(s: State, h: Hook, now: int, outcome: Outcome): State
    requires outcome.next.Some?
  {
    s.(file := outcome.next.value, log := s.log + [Entry(h, now, outcome.verdict, outcome.deed)],
       trail := Advance(s.trail, outcome.deed, |s.log|))
  }

  lemma ReadKeepsChain(s: State, now: int, readable: bool)
    requires ChainOk(s)
    ensures ChainOk(s.(file := Read(s.file, now, readable)))
  {}

  /** What another tool leaves of the chain, and asks for. */
  lemma OtherToolFile(st: GateState, h: Hook, now: int)
    requires h.PreToolUse? && h.main && h.tool != Exact(SendMessage) && OtherToolUse(st, h.tool, h.id, h.input, now).next.Some?
    ensures var o := OtherToolUse(st, h.tool, h.id, h.input, now);
            var next := o.next.value;
            && (next.candidates == [] || next.candidates == st.candidates) && next.permit.None?
            && (next.listings == [] || (next.listings == st.listings && next.candidates == st.candidates))
            && Screened(Entry(h, now, o.verdict, o.deed))
            && (o.deed.Asked? || o.deed.Reset?)
            && next.pending == (if o.deed.Asked? then Some(Pending(o.deed.kind, o.deed.id)) else None)
            && (o.deed.Asked? ==> o.deed.kind != SendMessage && (o.deed.kind == Peers ==> next.candidates == [])
                                  && (o.deed.kind == ListAgents ==> next.listings == [] && next.candidates != [])
                                  && (o.deed.kind == PeerCheck ==> next.listings != []))
  {}

  /** A chain cut short is a chain. */
  lemma ChainCut(s: State, file: GateState)
    requires ChainOk(s) && file.permit.None? && file.pending.None?
    requires file.candidates == [] || file.candidates == s.file.candidates
    requires file.listings == [] || (file.listings == s.file.listings && file.candidates == s.file.candidates)
    ensures ChainOk(s.(file := file))
  {}

  /** The tool asked for is pending at its place in the trail. */
  lemma ChainAsked(s: State, kind: Kind, id: string)
    requires ChainOk(s) && s.log != [] && s.log[|s.log| - 1].deed == Asked(kind, id) && s.file.permit.None?
    requires kind == Peers ==> s.file.candidates == []
    requires kind == ListAgents ==> s.file.listings == [] && s.file.candidates != [] && s.trail.found < |s.log| - 1
    requires kind == PeerCheck ==> s.file.listings != [] && s.trail.listed < |s.log| - 1
    requires kind != SendMessage
    ensures ChainOk(s.(file := s.file.(pending := Some(Pending(kind, id))), trail := Advance(s.trail, Asked(kind, id), |s.log| - 1)))
  {}

  lemma ChainSays(s: State)
    requires ChainOk(s)
    ensures s.file.candidates != [] ==> s.trail.found < |s.log|
    ensures s.file.listings != [] ==> s.trail.listed < |s.log|
  {}

  lemma OtherToolKeepsChain(s: State, h: Hook, now: int)
    requires ChainOk(s) && h.PreToolUse? && h.main && h.tool != Exact(SendMessage)
    requires OtherToolUse(s.file, h.tool, h.id, h.input, now).next.Some?
    ensures var o := OtherToolUse(s.file, h.tool, h.id, h.input, now);
            ChainOk(Written(s, h, now, o)) && Screened(Entry(h, now, o.verdict, o.deed)) && !o.deed.Sent?
  {
    hide OtherToolUse, Screened, ChainOk;
    var o := OtherToolUse(s.file, h.tool, h.id, h.input, now);
    var en := Entry(h, now, o.verdict, o.deed);
    OtherToolFile(s.file, h, now);
    var s1 := s.(file := o.next.value.(pending := None));
    ChainCut(s, s1.file);
    ChainSays(s1);
    ChainSnoc(s1, en);
    var s2 := s1.(log := s.log + [en]);
    if o.deed.Asked? {
      ChainAsked(s2, o.deed.kind, o.deed.id);
    }
    assert Written(s, h, now, o) == s2.(file := o.next.value, trail := Advance(s.trail, o.deed, |s.log|));
  }

  /** A send spends the chain it rests on. */
  lemma SendJustified(s: State, h: Hook, now: int, s': State)
    requires ChainOk(s) && s.file.permit.Some? && now <= s.file.permit.value.expiresAt && ArmAt(s.log) == h.session
    requires exists en :: s'.log == s.log + [en] && en.hook == h && en.now == now && en.deed.Sent? && en.deed.to == s.file.permit.value.listing.sendTo
    ensures Justified(s'.log, |s.log|)
  {
    var n := |s.log|;
    assert s'.log[..n] == s.log;
    hide ArmAt;
    assert FoundBy(s'.log, s.trail, s.file.candidates, n);
    assert ListedBy(s'.log, s.trail, s.file.candidates, s.file.listings, n);
    assert PermittedBy(s'.log, s.trail, s.file.listings, s.file.permit.value, n);
  }

  /** After a send tool only the candidates are left of the chain. */
  lemma ChainSpent(s: State, en: Entry, file: GateState)
    requires ChainOk(s) && !en.deed.Armed? && !en.deed.Emptied?
    requires file.candidates == s.file.candidates && file.listings == [] && file.permit.None?
    requires file.pending.Some? ==> file.pending.value.kind == SendMessage
    ensures ChainOk(s.(file := file, log := s.log + [en]))
  {}

  lemma SendScreened(st: GateState, h: Hook, now: int)
    requires h.PreToolUse? && h.main && h.tool == Exact(SendMessage) && SendTarget(h.input).Some?
    requires SendUse(st, SendTarget(h.input).value, h.id, h.input.message, now).next.Some?
    ensures var o := SendUse(st, SendTarget(h.input).value, h.id, h.input.message, now);
            var next := o.next.value;
            && Screened(Entry(h, now, o.verdict, o.deed)) && (o.deed.Sent? || o.deed.Spent? || o.deed.Reset?)
            && next.candidates == st.candidates && next.listings == [] && next.permit.None?
            && (next.pending.Some? ==> next.pending.value.kind == SendMessage)
            && (o.deed.Sent? ==> st.permit.Some? && o.deed.to == st.permit.value.listing.sendTo)
  {
    BridgeTarget(h);
    hide ContainsAddress, ContainsRecipient, ToBridge, SendTarget;
  }

  lemma SendKeepsChain(s: State, h: Hook, now: int)
    requires ChainOk(s) && h.PreToolUse? && h.main && h.tool == Exact(SendMessage) && SendTarget(h.input).Some?
    requires s.file.permit.Some? ==> now <= s.file.permit.value.expiresAt
    requires ArmAt(s.log) == h.session
    requires SendUse(s.file, SendTarget(h.input).value, h.id, h.input.message, now).next.Some?
    ensures var o := SendUse(s.file, SendTarget(h.input).value, h.id, h.input.message, now);
            var s' := Written(s, h, now, o);
            ChainOk(s') && Screened(s'.log[|s.log|]) && (o.deed.Sent? ==> Justified(s'.log, |s.log|))
  {
    hide SendUse, SendTarget, Screened, ChainOk, Justified, ArmAt;
    var o := SendUse(s.file, SendTarget(h.input).value, h.id, h.input.message, now);
    var s' := Written(s, h, now, o);
    var en := Entry(h, now, o.verdict, o.deed);
    SendScreened(s.file, h, now);
    ChainSpent(s, en, o.next.value);
    assert s' == s.(file := o.next.value, log := s.log + [en]);
    if o.deed.Sent? {
      SendJustified(s, h, now, s');
    }
  }

  lemma FoundKeepsChain(s: State, h: Hook, now: int)
    requires ChainOk(s) && h.PostToolBatch? && h.main
    requires BatchUse(s.file, h.calls, now).next.Some? && BatchUse(s.file, h.calls, now).deed.Found?
    ensures var o := BatchUse(s.file, h.calls, now);
            ChainOk(Written(s, h, now, o)) && Screened(Entry(h, now, o.verdict, o.deed))
  {
    CandidatesAreUndisputed(h.calls.value[0].response.rows);
  }

  lemma ListedKeepsChain(s: State, h: Hook, now: int)
    requires ChainOk(s) && h.PostToolBatch? && h.main
    requires BatchUse(s.file, h.calls, now).next.Some? && BatchUse(s.file, h.calls, now).deed.Listed?
    ensures var o := BatchUse(s.file, h.calls, now);
            ChainOk(Written(s, h, now, o)) && Screened(Entry(h, now, o.verdict, o.deed))
  {
    ListingsExtendCandidates(h.calls.value[0].response.addresses, s.file.candidates);
  }

  lemma PermittedKeepsChain(s: State, h: Hook, now: int)
    requires ChainOk(s) && h.PostToolBatch? && h.main
    requires BatchUse(s.file, h.calls, now).next.Some? && BatchUse(s.file, h.calls, now).deed.Permitted?
    ensures var o := BatchUse(s.file, h.calls, now);
            ChainOk(Written(s, h, now, o)) && Screened(Entry(h, now, o.verdict, o.deed))
  {}

  lemma ResetKeepsChain(s: State, h: Hook, now: int)
    requires ChainOk(s) && h.PostToolBatch? && h.main
    requires var o := BatchUse(s.file, h.calls, now);
             o.next.Some? && !o.deed.Found? && !o.deed.Listed? && !o.deed.Permitted?
    ensures var o := BatchUse(s.file, h.calls, now);
            ChainOk(Written(s, h, now, o)) && Screened(Entry(h, now, o.verdict, o.deed)) && !o.deed.Sent?
  {}

  lemma BatchKeepsChain(s: State, h: Hook, now: int)
    requires ChainOk(s) && h.PostToolBatch? && h.main
    requires BatchUse(s.file, h.calls, now).next.Some?
    ensures var o := BatchUse(s.file, h.calls, now);
            ChainOk(Written(s, h, now, o)) && Screened(Entry(h, now, o.verdict, o.deed)) && !o.deed.Sent?
  {
    hide BatchUse, ChainOk, Screened, Written;
    var deed := BatchUse(s.file, h.calls, now).deed;
    if deed.Found? {
      FoundKeepsChain(s, h, now);
    } else if deed.Listed? {
      ListedKeepsChain(s, h, now);
    } else if deed.Permitted? {
      PermittedKeepsChain(s, h, now);
    } else {
      ResetKeepsChain(s, h, now);
    }
  }

  lemma WriteKeepsFiles(s: State, h: Hook, now: int, readable: bool, o: Outcome)
    requires FilesOk(s) && h.main && h.session.Some? && o.next.Some?
    requires h.PreToolUse? && h.tool == Exact(SendMessage) ==> SendTarget(h.input).Some?
    requires o == Decide(if h.SessionStart? then s.file else Read(s.file, now, readable), h, now)
    requires !h.SessionStart? ==> s.arm == h.session
    ensures FilesOk(Written(s, h, now, o))
  {
    if !h.SessionStart? {
      var seen := s.(file := Read(s.file, now, readable));
      ReadKeepsChain(s, now, readable);
      if h.PostToolBatch? {
        BatchKeepsChain(seen, h, now);
      } else if h.tool == Exact(SendMessage) {
        SendKeepsChain(seen, h, now);
      } else {
        OtherToolKeepsChain(seen, h, now);
      }
      assert Written(seen, h, now, o) == Written(s, h, now, o);
    }
    LogSnoc(s.log, Entry(h, now, o.verdict, o.deed));
  }

  lemma WriteKeepsInv(s: State, p: nat, seen: bool, readable: bool)
    requires Inv(s) && Enabled(s, Act(p, seen, readable)) && s.procs[p].pc.WriteState?
    ensures Inv(ActStep(s, p, seen, readable))
  {
    var proc := s.procs[p];
    assert ProcOk(s, p);
    if proc.pc.outcome.next.Some? {
      WriteKeepsFiles(s, proc.hook, proc.now, proc.pc.readable, proc.pc.outcome);
      WrittenKeepsInv(s, p, seen, readable);
    } else {
      GotoKeepsInv(s, p, DropLock);
    }
  }

  lemma WrittenKeepsInv(s: State, p: nat, seen: bool, readable: bool)
    requires Inv(s) && Enabled(s, Act(p, seen, readable)) && s.procs[p].pc.WriteState? && s.procs[p].pc.outcome.next.Some?
    requires FilesOk(Written(s, s.procs[p].hook, s.procs[p].now, s.procs[p].pc.outcome))
    ensures Inv(ActStep(s, p, seen, readable))
  {
    var proc := s.procs[p];
    var s', w := ActStep(s, p, seen, readable), Written(s, proc.hook, proc.now, proc.pc.outcome);
    assert s'.file == w.file && s'.trail == w.trail && s'.log == w.log && s'.arm == w.arm;
    assert ProcOk(s, p);
    hide LogOk, FoundBy, ListedBy, PermittedBy, PendingOk, Advance, ArmAt;
    assert FilesOk(s') && ProcOk(s', p);
    OthersUndisturbed(s, s', p);
  }

  lemma ReadKeepsInv(s: State, p: nat, seen: bool, readable: bool)
    requires Inv(s) && Enabled(s, Act(p, seen, readable)) && s.procs[p].pc.ReadState?
    ensures Inv(ActStep(s, p, seen, readable))
  {
    var proc := s.procs[p];
    assert ProcOk(s, p);
    if proc.hook.SessionStart? {
      GotoKeepsInv(s, p, WriteState(Decide(s.file, proc.hook, proc.now), readable));
    } else if !(seen && Matching(s, proc.hook)) {
      JudgeKeepsInv(s, p, Unarmed(proc.hook), DropLock);
    } else {
      var o := Decide(Read(s.file, proc.now, readable), proc.hook, proc.now);
      if o.next.None? {
        JudgeKeepsInv(s, p, o.verdict, DropLock);
      } else {
        GotoKeepsInv(s, p, WriteState(o, readable));
      }
    }
  }

  lemma CheckArmKeepsInv(s: State, p: nat, seen: bool, readable: bool)
    requires Inv(s) && Enabled(s, Act(p, seen, readable)) && s.procs[p].pc.CheckArm?
    ensures Inv(ActStep(s, p, seen, readable))
  {
    var h := s.procs[p].hook;
    if h.PreToolUse? && !h.main {
      JudgeKeepsInv(s, p, if ToBridge(h) then Block else Allow, Idle);
    } else if h.PreToolUse? && (!(seen && Matching(s, h)) || (h.tool == Exact(SendMessage) && SendTarget(h.input).None?)) {
      JudgeKeepsInv(s, p, Unarmed(h), Idle);
    } else if h.PreToolUse? {
      GotoKeepsInv(s, p, if h.tool == Exact(SendMessage) then CheckBarrier else TakeLock);
    } else if h.SessionStart? {
      GotoKeepsInv(s, p, if h.main && h.session.Some? then TakeLock else Idle);
    } else {
      GotoKeepsInv(s, p, if h.main && seen && Matching(s, h) then TakeLock else Idle);
    }
  }

  lemma ArmKeepsInv(s: State, p: nat, seen: bool, readable: bool)
    requires Inv(s) && Enabled(s, Act(p, seen, readable)) && s.procs[p].pc.WriteArm?
    ensures Inv(ActStep(s, p, seen, readable))
  {
    var proc := s.procs[p];
    var s' := ActStep(s, p, seen, readable);
    assert ProcOk(s, p);
    LogSnoc(s.log, Entry(proc.hook, proc.now, NoVerdict, Armed));
    OthersUndisturbed(s, s', p);
  }

  lemma BarrierReadKeepsInv(s: State, p: nat, seen: bool, readable: bool)
    requires Inv(s) && Enabled(s, Act(p, seen, readable)) && s.procs[p].pc.CheckBarrier?
    ensures Inv(ActStep(s, p, seen, readable))
  {
    assert ProcOk(s, p);
    hide LogOk, ChainOk;
    if Read(s.file, s.procs[p].now, readable).barrier.Some? {
      JudgeKeepsInv(s, p, Block, Idle);
    } else {
      GotoKeepsInv(s, p, TakeLock);
    }
  }

  lemma LockKeepsInv(s: State, p: nat, seen: bool, readable: bool)
    requires Inv(s) && Enabled(s, Act(p, seen, readable)) && (s.procs[p].pc.TakeLock? || s.procs[p].pc.DropLock? || s.procs[p].pc.Idle? || s.procs[p].pc.Dead?)
    ensures Inv(ActStep(s, p, seen, readable))
  {
    assert ProcOk(s, p);
    hide LogOk, ChainOk;
    OthersUndisturbed(s, ActStep(s, p, seen, readable), p);
    SameFilesOk(s, ActStep(s, p, seen, readable));
  }

  lemma SameFilesOk(s: State, s': State)
    requires FilesOk(s) && s'.file == s.file && s'.arm == s.arm && s'.trail == s.trail && s'.log == s.log
    ensures FilesOk(s')
  {}

  lemma ActKeepsInv(s: State, p: nat, seen: bool, readable: bool)
    requires Inv(s) && Enabled(s, Act(p, seen, readable))
    ensures Inv(ActStep(s, p, seen, readable))
  {
    hide Inv, ActStep;
    var pc := s.procs[p].pc;
    if pc.CheckArm? {
      CheckArmKeepsInv(s, p, seen, readable);
    } else if pc.CheckBarrier? {
      BarrierReadKeepsInv(s, p, seen, readable);
    } else if pc.ReadState? {
      ReadKeepsInv(s, p, seen, readable);
    } else if pc.WriteState? {
      WriteKeepsInv(s, p, seen, readable);
    } else if pc.WriteArm? {
      ArmKeepsInv(s, p, seen, readable);
    } else {
      LockKeepsInv(s, p, seen, readable);
    }
  }

  lemma BusyKeepsInv(s: State, p: nat)
    requires Inv(s) && Enabled(s, Busy(p))
    ensures Inv(Apply(s, Busy(p)))
  {
    assert ProcOk(s, p);
    hide LogOk, ChainOk;
    if s.procs[p].hook.PreToolUse? {
      JudgeKeepsInv(s, p, Block, Idle);
    } else {
      GotoKeepsInv(s, p, Idle);
    }
  }

  lemma CrashKeepsInv(s: State, p: nat)
    requires Inv(s) && Enabled(s, Crash(p))
    ensures Inv(Apply(s, Crash(p)))
  {
    hide LogOk, ChainOk;
    GotoKeepsInv(s, p, Dead);
  }

  /** The clock, a new hook, and the removal of a lock left behind. */
  lemma OutsideKeepsInv(s: State, e: Event)
    requires Inv(s) && Enabled(s, e) && (e.Tick? || e.Start? || e.Reclaim?)
    ensures Inv(Apply(s, e))
  {
    hide LogOk, ChainOk;
    var s' := Apply(s, e);
    SameFilesOk(s, s');
    forall q: nat | q < |s'.procs|
      ensures ProcOk(s', q)
    {
      assert ProcOk(s, q);
    }
  }

  lemma StepKeepsInv(s: State, e: Event)
    requires Inv(s) && Enabled(s, e)
    ensures Inv(Apply(s, e))
  {
    if e.Act? {
      hide Inv;
      ActKeepsInv(s, e.p, e.seen, e.readable);
    } else if e.Busy? {
      BusyKeepsInv(s, e.p);
    } else if e.Crash? {
      CrashKeepsInv(s, e.p);
    } else {
      OutsideKeepsInv(s, e);
    }
  }

  // ---- Theorem 1: every send is justified ----

  lemma {:induction false} LeadsKeepsInv(pace: Pace, s: State, es: seq<Event>, s': State)
    requires Inv(s) && Leads(pace, s, es, s')
    ensures Inv(s')
    decreases |es|
  {
    if es != [] {
      StepKeepsInv(s, es[0]);
      LeadsKeepsInv(pace, Apply(s, es[0]), es[1..], s');
    }
  }

  lemma ReachableInv(pace: Pace, s: State)
    requires Reachable(pace, s)
    ensures Inv(s)
  {
    var n: nat, now: int, es :| Leads(pace, Init(n, now), es, s);
    assert ProcsOk(Init(n, now));
    LeadsKeepsInv(pace, Init(n, now), es, s);
  }

  /** The id of the one call in a batch, and its response. */
  function CallOf(h: Hook): Call
    requires h.PostToolBatch? && h.calls.Some? && |h.calls.value| == 1
  {
    h.calls.value[0]
  }

  /** The result at `answered` is the single call of a batch, and was asked for at `asked`. */
  ghost predicate Correlated(log: seq<Entry>, asked: nat, answered: nat, kind: Kind)
    requires asked < |log| && answered < |log|
  {
    var call := log[answered].hook;
    && call.PostToolBatch? && call.calls.Some? && |call.calls.value| == 1
    && Answers(call, kind, CallOf(call).id) && Asks(log[asked].hook, kind, CallOf(call).id) && log[asked].verdict == Allow
  }

  /** The send at k to l.sendTo, told by its hooks alone: peers asked and answered with an
      undisputed row for l's candidate; agents asked and answered with l's address under that
      candidate's display name; a check asked and answered with l and nothing else, at most
      30 s before; all of it by hooks of one armed session, with no SessionStart in between
      and no other send since the agents were asked for. */
  ghost predicate Earned(log: seq<Entry>, t: Trail, l: Listing, k: nat)
    requires k < |log|
  {
    && t.asked1 < t.found < t.asked2 < t.listed < t.asked3 < t.permitted < k
    && Correlated(log, t.asked1, t.found, Peers) && Undisputed(CallOf(log[t.found].hook).response.rows, l.candidate)
    && Correlated(log, t.asked2, t.listed, ListAgents) && AddressedBy(CallOf(log[t.listed].hook).response, l)
    && Correlated(log, t.asked3, t.permitted, PeerCheck) && ConfirmedBy(CallOf(log[t.permitted].hook).response, l)
    && log[k].hook.PreToolUse? && log[k].hook.main && log[k].hook.tool == Exact(SendMessage)
    && SendTarget(log[k].hook.input) == Some(l.sendTo)
    && log[k].now <= log[t.permitted].now + PERMIT_TTL_MS
    && log[k].hook.session.Some? && ArmAt(log[..k]) == log[k].hook.session
    && (forall i | i in {t.asked1, t.found, t.asked2, t.listed, t.asked3, t.permitted} :: log[i].hook.session == log[k].hook.session)
    && SameSession(log, t.asked1, k) && NoSend(log, t.asked2, k)
  }

  /** The armed session changes with a SessionStart only. */
  lemma {:induction false} ArmStays(log: seq<Entry>, i: nat, k: nat)
    requires i <= k <= |log| && SameSession(log, i, k)
    ensures ArmAt(log[..i]) == ArmAt(log[..k])
    decreases k
  {
    if i < k {
      ArmStays(log, i, k - 1);
      assert log[..k][..k - 1] == log[..k - 1];
    }
  }

  lemma SessionEarned(log: seq<Entry>, i: nat, k: nat)
    requires LogOk(log) && i < k < |log| && SameSession(log, i, k) && Chained(log[i].deed) && ArmAt(log[..k]) == log[k].hook.session
    ensures log[i].hook.session == log[k].hook.session
  {
    assert OfSession(log, i);
    ArmStays(log, i, k);
  }

  lemma FoundEarned(log: seq<Entry>, t: Trail, candidates: seq<Candidate>, k: nat, c: Candidate)
    requires LogOk(log) && k < |log| && FoundBy(log, t, candidates, k) && c in candidates
    requires ArmAt(log[..k]) == log[k].hook.session
    ensures Correlated(log, t.asked1, t.found, Peers) && Undisputed(CallOf(log[t.found].hook).response.rows, c)
    ensures log[t.asked1].hook.session == log[t.found].hook.session == log[k].hook.session
  {
    assert Screened(log[t.asked1]) && Screened(log[t.found]);
    hide LogOk, Undisputed;
    SessionEarned(log, t.asked1, k);
    SessionEarned(log, t.found, k);
  }

  lemma ListedEarned(log: seq<Entry>, t: Trail, candidates: seq<Candidate>, listings: seq<Listing>, k: nat, l: Listing)
    requires LogOk(log) && k < |log| && ListedBy(log, t, candidates, listings, k) && l in listings && SameSession(log, t.asked2, k)
    requires ArmAt(log[..k]) == log[k].hook.session
    ensures Correlated(log, t.asked2, t.listed, ListAgents) && AddressedBy(CallOf(log[t.listed].hook).response, l)
    ensures log[t.asked2].hook.session == log[t.listed].hook.session == log[k].hook.session
  {
    assert Screened(log[t.asked2]) && Screened(log[t.listed]);
    hide LogOk, AddressedBy;
    SessionEarned(log, t.asked2, k);
    SessionEarned(log, t.listed, k);
  }

  lemma PermittedEarned(log: seq<Entry>, t: Trail, listings: seq<Listing>, permit: Permit, k: nat)
    requires LogOk(log) && k < |log| && PermittedBy(log, t, listings, permit, k) && SameSession(log, t.asked3, k)
    requires ArmAt(log[..k]) == log[k].hook.session
    ensures Correlated(log, t.asked3, t.permitted, PeerCheck) && ConfirmedBy(CallOf(log[t.permitted].hook).response, permit.listing)
    ensures log[t.asked3].hook.session == log[t.permitted].hook.session == log[k].hook.session
  {
    assert Screened(log[t.asked3]) && Screened(log[t.permitted]);
    hide LogOk, ConfirmedBy;
    SessionEarned(log, t.asked3, k);
    SessionEarned(log, t.permitted, k);
  }

  /** The parts put together. */
  lemma EarnedOf(log: seq<Entry>, t: Trail, candidates: seq<Candidate>, listings: seq<Listing>, permit: Permit, k: nat)
    requires LogOk(log) && k < |log| && log[k].deed.Sent?
    requires FoundBy(log, t, candidates, k) && ListedBy(log, t, candidates, listings, k) && PermittedBy(log, t, listings, permit, k)
    requires permit.listing.sendTo == log[k].deed.to && log[k].now <= permit.expiresAt && ArmAt(log[..k]) == log[k].hook.session
    ensures Earned(log, t, permit.listing, k)
  {
    var l := permit.listing;
    TrailEarned(log, t, candidates, listings, permit, k);
    hide LogOk, Correlated, Undisputed, AddressedBy, ConfirmedBy, FoundBy, ListedBy, PermittedBy, ArmAt, NoSend, SameSession, SendTarget;
    FoundEarned(log, t, candidates, k, l.candidate);
    ListedEarned(log, t, candidates, listings, k, l);
    PermittedEarned(log, t, listings, permit, k);
  }

  lemma SameSessionLater(log: seq<Entry>, i: nat, j: nat, k: nat)
    requires i <= j && k <= |log| && SameSession(log, i, k)
    ensures SameSession(log, j, k)
  {}

  /** The order of the trail, its session, and the send itself. */
  lemma TrailEarned(log: seq<Entry>, t: Trail, candidates: seq<Candidate>, listings: seq<Listing>, permit: Permit, k: nat)
    requires LogOk(log) && k < |log| && log[k].deed.Sent?
    requires FoundBy(log, t, candidates, k) && ListedBy(log, t, candidates, listings, k) && PermittedBy(log, t, listings, permit, k)
    requires log[k].now <= permit.expiresAt
    ensures t.asked1 < t.found < t.asked2 < t.listed < t.asked3 < t.permitted < k
    ensures SameSession(log, t.asked1, k) && SameSession(log, t.asked2, k) && SameSession(log, t.asked3, k) && NoSend(log, t.asked2, k)
    ensures log[k].now <= log[t.permitted].now + PERMIT_TTL_MS
    ensures permit.listing in listings && permit.listing.candidate in candidates
    ensures Screened(log[k]) && OfSession(log, k)
  {
    LogAt(log, k);
    hide LogOk, Screened, OfSession, SameSession, NoSend, ArmAt;
    SameSessionLater(log, t.asked1, t.asked2, k);
    SameSessionLater(log, t.asked1, t.asked3, k);
  }

  lemma SendEarned(log: seq<Entry>, k: nat) returns (t: Trail, l: Listing)
    requires LogOk(log) && k < |log| && log[k].deed.Sent?
    ensures Earned(log, t, l, k) && l.sendTo == log[k].deed.to
  {
    assert Justified(log, k);
    hide LogOk, Earned, FoundBy, ListedBy, PermittedBy, ArmAt;
    var candidates, listings, permit: Permit;
    t, candidates, listings, permit :|
      && FoundBy(log, t, candidates, k)
      && ListedBy(log, t, candidates, listings, k)
      && PermittedBy(log, t, listings, permit, k)
      && permit.listing.sendTo == log[k].deed.to
      && log[k].now <= permit.expiresAt
      && ArmAt(log[..k]) == log[k].hook.session;
    EarnedOf(log, t, candidates, listings, permit, k);
    l := permit.listing;
  }

  /** In every run: an allowed PreToolUse to a bridge address is a recorded send to exactly
      that address, and every recorded send is earned. */
  lemma AllowedSendsAreJustified(pace: Pace, s: State, k: nat)
    requires Reachable(pace, s) && k < |s.log|
    ensures ToBridge(s.log[k].hook) && s.log[k].verdict == Allow ==> s.log[k].deed.Sent?
    ensures s.log[k].deed.Sent? ==> exists t, l :: Earned(s.log, t, l, k) && l.sendTo == s.log[k].deed.to
  {
    ReachableInv(pace, s);
    if s.log[k].deed.Sent? {
      var t, l := SendEarned(s.log, k);
    }
  }

  /** Between two recorded sends the agents are asked for, listed and checked anew. */
  lemma SendsNeedFreshChecks(pace: Pace, s: State, j: nat, k: nat) returns (t: Trail, l: Listing)
    requires Reachable(pace, s) && j < k < |s.log| && s.log[j].deed.Sent? && s.log[k].deed.Sent?
    ensures Earned(s.log, t, l, k) && l.sendTo == s.log[k].deed.to && j < t.asked2
  {
    ReachableInv(pace, s);
    t, l := SendEarned(s.log, k);
  }
}
