/** The same-batch send barrier over whole runs of the Cross-session gate.  When every hook
    reads the files within five seconds of starting, nothing but the three documented events
    ends the barrier; GateWitness shows what a slower hook, or one that does not find the
    files, does to it. */
module GateBarrier {
  import opened Wrappers
  import opened GateRules
  import opened GateRun

  /** Every read within five seconds of the start, and of files that are there. */
  const PROMPT := Within(CLOCK_SKEW_MS, false, false)

  function Expiry(log: seq<Entry>, k: nat): int
    requires k < |log|
  {
    log[k].now + PERMIT_TTL_MS
  }

  ghost predicate Carries(calls: seq<Call>, id: string) {
    exists c :: c in calls && c.id == id && c.kind == Some(SendMessage)
  }

  /** Entry j ends the barrier of the send at k: a SessionStart, a PostToolBatch holding that
      send's call, or a hook that started after the barrier expired. */
  ghost predicate Ends(log: seq<Entry>, k: nat, j: nat)
    requires k < |log| && j < |log| && log[k].deed.Sent?
  {
    || log[j].deed.Emptied? || log[j].deed.Armed?
    || (&& log[j].hook.PostToolBatch? && log[j].deed == Cleared(log[k].deed.id)
        && log[j].hook.calls.Some? && Carries(log[j].hook.calls.value, log[k].deed.id))
    || log[j].now > Expiry(log, k)
  }

  ghost predicate Stands(log: seq<Entry>, k: nat, end: nat)
    requires k < end <= |log|
  {
    log[k].deed.Sent? && forall j | k < j < end :: !Ends(log, k, j)
  }

  /** Entry m lets a top-level tool of the armed session run. */
  ghost predicate Passes(log: seq<Entry>, m: nat)
    requires m < |log|
  {
    && log[m].verdict == Allow && log[m].hook.PreToolUse? && log[m].hook.main
    && log[m].hook.session.Some? && log[m].hook.session == ArmAt(log[..m])
  }

  ghost predicate Sealed(file: GateState, en: Entry)
    requires en.deed.Sent?
  {
    && file.barrier == Some(en.now + PERMIT_TTL_MS)
    && file.updatedAt == en.now
    && file.pending == Some(Pending(SendMessage, en.deed.id))
    && file.permit == None && file.listings == []
  }

  /** Every barrier that stands is sealed in the file, and none was passed before its expiry. */
  ghost predicate LogSealed(log: seq<Entry>, file: GateState) {
    && (forall k | 0 <= k < |log| && Stands(log, k, |log|) :: Sealed(file, log[k]))
    && (forall k, m | 0 <= k < m < |log| && Stands(log, k, m) && Passes(log, m) :: log[m].now > Expiry(log, k))
  }

  ghost predicate ProcsPrompt(s: State) {
    && s.file.updatedAt <= s.clock
    && (forall p: nat | p < |s.procs| :: s.procs[p].now <= s.clock)
    && (forall p: nat | p < |s.procs| && s.procs[p].pc.WriteState? && !s.procs[p].hook.SessionStart? ::
          && s.procs[p].pc.readable && s.file.updatedAt <= s.procs[p].now + CLOCK_SKEW_MS && s.procs[p].pc.outcome.next.Some?)
  }

  ghost predicate BarrierInv(s: State) {
    LogSealed(s.log, s.file) && ProcsPrompt(s)
  }

  /** Standing and passing are about the prefix only. */
  lemma PrefixSame(log: seq<Entry>, en: Entry)
    ensures forall k: nat, end: nat | k < end <= |log| :: Stands(log + [en], k, end) <==> Stands(log, k, end)
    ensures forall m: nat | m < |log| :: Passes(log + [en], m) <==> Passes(log, m)
    ensures Passes(log + [en], |log|) <==>
              en.verdict == Allow && en.hook.PreToolUse? && en.hook.main && en.hook.session.Some? && en.hook.session == ArmAt(log)
    ensures forall k: nat | k < |log| && Stands(log + [en], k, |log| + 1) :: Stands(log, k, |log|) && !Ends(log + [en], k, |log|)
  {
    var log' := log + [en];
    assert log'[..|log|] == log;
    forall m: nat | m < |log|
      ensures log'[..m] == log[..m] && log'[m] == log[m]
    {
    }
    forall k: nat, j: nat | k < |log| && j < |log| && log[k].deed.Sent?
      ensures Ends(log', k, j) <==> Ends(log, k, j)
    {
    }
  }

  /** Appending an entry keeps the two log clauses, given what the new entry must satisfy. */
  lemma SnocKeeps(s: State, s': State, en: Entry)
    requires BarrierInv(s) && s'.log == s.log + [en]
    requires forall k: nat | k < |s.log| && Stands(s.log, k, |s.log|) && !Ends(s'.log, k, |s.log|) :: Sealed(s'.file, s.log[k])
    requires en.deed.Sent? ==> Sealed(s'.file, en)
    requires forall k: nat | k < |s.log| && Stands(s.log, k, |s.log|) && Passes(s'.log, |s.log|) :: en.now > Expiry(s.log, k)
    ensures LogSealed(s'.log, s'.file)
  {
    PrefixSame(s.log, en);
    forall k, m | 0 <= k < m < |s'.log| && Stands(s'.log, k, m) && Passes(s'.log, m)
      ensures s'.log[m].now > Expiry(s'.log, k)
    {
      assert s'.log[k] == s.log[k];
      if m < |s.log| {
        assert s'.log[m] == s.log[m];
        assert Stands(s.log, k, m) && Passes(s.log, m);
      } else {
        assert Stands(s.log, k, |s.log|);
      }
    }
  }

  /** What the locked hook of a sealed barrier can do. */
  lemma SealedDecision(file: GateState, en: Entry, h: Hook, now: int)
    requires en.deed.Sent? && Sealed(file, en) && |file.candidates| <= MAX_CANDIDATES
    requires file.updatedAt <= now + CLOCK_SKEW_MS && now <= en.now + PERMIT_TTL_MS
    requires h.PreToolUse? && h.tool == Exact(SendMessage) ==> SendTarget(h.input).Some?
    ensures var o := Decide(Read(file, now, true), h, now);
            match h
            case SessionStart(_, _) => o.deed == Emptied
            case PreToolUse(_, _, _, _, _) => o.next.None? && o.verdict == Block
            case PostToolBatch(_, _, calls) =>
              o.next.Some? ==> o.deed == Cleared(en.deed.id) && calls.Some? && Carries(calls.value, en.deed.id)
  {}

  /** A write under the lock either ends the barrier of the send at k, or there is none. */
  lemma WriteEnds(s: State, p: nat, k: nat)
    requires Inv(s) && BarrierInv(s) && p < |s.procs| && s.procs[p].pc.WriteState?
    requires k < |s.log| && Stands(s.log, k, |s.log|)
    ensures var proc := s.procs[p];
            var en := Entry(proc.hook, proc.now, proc.pc.outcome.verdict, proc.pc.outcome.deed);
            && Ends(s.log + [en], k, |s.log|)
            && (en.verdict == Allow && en.hook.PreToolUse? ==> en.now > Expiry(s.log, k))
  {
    var proc := s.procs[p];
    assert ProcOk(s, p);
    assert Sealed(s.file, s.log[k]);
    if proc.now <= Expiry(s.log, k) && !proc.hook.SessionStart? {
      SealedDecision(s.file, s.log[k], proc.hook, proc.now);
    }
  }

  /** The entry a writer leaves: what passes is allowed, what is sent is sealed. */
  lemma WriterLeaves(s: State, p: nat, en: Entry)
    requires p < |s.procs| && ProcOk(s, p) && s.procs[p].pc.WriteState? && s.procs[p].pc.outcome.next.Some?
    requires en == Entry(s.procs[p].hook, s.procs[p].now, s.procs[p].pc.outcome.verdict, s.procs[p].pc.outcome.deed)
    ensures Passes(s.log + [en], |s.log|) ==> en.verdict == Allow && en.hook.PreToolUse?
    ensures en.deed.Sent? ==> Sealed(s.procs[p].pc.outcome.next.value, en)
  {}

  lemma WriteKeepsBarrier(s: State, p: nat, seen: bool, readable: bool)
    requires Inv(s) && BarrierInv(s) && Enabled(s, Act(p, seen, readable)) && s.procs[p].pc.WriteState? && s.procs[p].pc.outcome.next.Some?
    ensures BarrierInv(ActStep(s, p, seen, readable))
  {
    var proc := s.procs[p];
    var o := proc.pc.outcome;
    var s' := ActStep(s, p, seen, readable);
    var en := Entry(proc.hook, proc.now, o.verdict, o.deed);
    assert s'.log == s.log + [en] && s'.file == o.next.value;
    assert ProcOk(s, p);
    hide *;
    WriterLeaves(s, p, en);
    WriteKeepsProcs(s, p, seen, readable);
    WriteKeepsLog(s, s', p, en);
    BarrierParts(s');
  }

  lemma BarrierParts(s: State)
    requires LogSealed(s.log, s.file) && ProcsPrompt(s)
    ensures BarrierInv(s)
  {}

  /** The writer was the only one about to write. */
  lemma WriteKeepsProcs(s: State, p: nat, seen: bool, readable: bool)
    requires Inv(s) && BarrierInv(s) && Enabled(s, Act(p, seen, readable)) && s.procs[p].pc.WriteState? && s.procs[p].pc.outcome.next.Some?
    ensures ProcsPrompt(ActStep(s, p, seen, readable))
  {
    hide LogSealed, LogOk;
    assert ProcOk(s, p);
    var s' := ActStep(s, p, seen, readable);
    forall q: nat | q < |s'.procs|
      ensures s'.procs[q].now <= s'.clock && !s'.procs[q].pc.WriteState?
    {
      assert ProcOk(s, q);
    }
  }

  lemma WriteKeepsLog(s: State, s': State, p: nat, en: Entry)
    requires Inv(s) && BarrierInv(s) && p < |s.procs| && s.procs[p].pc.WriteState?
    requires en == Entry(s.procs[p].hook, s.procs[p].now, s.procs[p].pc.outcome.verdict, s.procs[p].pc.outcome.deed)
    requires s'.log == s.log + [en]
    requires Passes(s'.log, |s.log|) ==> en.verdict == Allow && en.hook.PreToolUse?
    requires en.deed.Sent? ==> Sealed(s'.file, en)
    ensures LogSealed(s'.log, s'.file)
  {
    hide Inv, BarrierInv, LogSealed, Sealed, Passes, Ends, Expiry;
    forall k: nat | k < |s.log| && Stands(s.log, k, |s.log|)
      ensures Ends(s'.log, k, |s.log|) && (en.verdict == Allow && en.hook.PreToolUse? ==> en.now > Expiry(s.log, k))
    {
      WriteEnds(s, p, k);
    }
    SnocKeeps(s, s', en);
  }

  /** A verdict without a write: whatever passes here passes because no session is armed. */
  lemma JudgeKeepsBarrier(s: State, p: nat, verdict: Verdict, pc: Pc)
    requires Inv(s) && BarrierInv(s) && p < |s.procs| && (pc.Idle? || pc.DropLock?)
    requires verdict == Allow && s.procs[p].hook.PreToolUse? && s.procs[p].hook.main ==> !Matching(s, s.procs[p].hook)
    ensures BarrierInv(Judge(s, p, verdict, pc))
  {
    var s' := Judge(s, p, verdict, pc);
    var en := Entry(s.procs[p].hook, s.procs[p].now, verdict, Nothing);
    PrefixSame(s.log, en);
    SnocKeeps(s, s', en);
  }

  lemma CheckArmKeepsBarrier(s: State, p: nat, seen: bool, readable: bool)
    requires Inv(s) && BarrierInv(s) && Enabled(s, Act(p, seen, readable)) && InPace(PROMPT, s, Act(p, seen, readable)) && s.procs[p].pc.CheckArm?
    ensures BarrierInv(ActStep(s, p, seen, readable))
  {
    var h := s.procs[p].hook;
    hide Inv;
    if h.PreToolUse? && !h.main {
      JudgeKeepsBarrier(s, p, if ToBridge(h) then Block else Allow, Idle);
    } else if h.PreToolUse? && (!(seen && Matching(s, h)) || (h.tool == Exact(SendMessage) && SendTarget(h.input).None?)) {
      JudgeKeepsBarrier(s, p, Unarmed(h), Idle);
    }
  }

  lemma ReadKeepsBarrier(s: State, p: nat, seen: bool, readable: bool)
    requires Inv(s) && BarrierInv(s) && Enabled(s, Act(p, seen, readable)) && InPace(PROMPT, s, Act(p, seen, readable)) && s.procs[p].pc.ReadState?
    ensures BarrierInv(ActStep(s, p, seen, readable))
  {
    assert ProcOk(s, p);
    var proc := s.procs[p];
    if !proc.hook.SessionStart? {
      if !(seen && Matching(s, proc.hook)) {
        JudgeKeepsBarrier(s, p, Unarmed(proc.hook), DropLock);
      } else {
        var o := Decide(Read(s.file, proc.now, readable), proc.hook, proc.now);
        if o.next.None? {
          JudgeKeepsBarrier(s, p, o.verdict, DropLock);
        }
      }
    }
  }

  lemma ArmKeepsBarrier(s: State, p: nat, seen: bool, readable: bool)
    requires Inv(s) && BarrierInv(s) && Enabled(s, Act(p, seen, readable)) && s.procs[p].pc.WriteArm?
    ensures BarrierInv(ActStep(s, p, seen, readable))
  {
    assert ProcOk(s, p);
    var proc := s.procs[p];
    var en := Entry(proc.hook, proc.now, NoVerdict, Armed);
    PrefixSame(s.log, en);
    SnocKeeps(s, ActStep(s, p, seen, readable), en);
  }

  lemma BarrierReadKeepsBarrier(s: State, p: nat, seen: bool, readable: bool)
    requires Inv(s) && BarrierInv(s) && Enabled(s, Act(p, seen, readable)) && InPace(PROMPT, s, Act(p, seen, readable)) && s.procs[p].pc.CheckBarrier?
    ensures BarrierInv(ActStep(s, p, seen, readable))
  {
    assert ProcOk(s, p);
    if Read(s.file, s.procs[p].now, readable).barrier.Some? {
      JudgeKeepsBarrier(s, p, Block, Idle);
    }
  }

  lemma LockKeepsBarrier(s: State, p: nat, seen: bool, readable: bool)
    requires Inv(s) && BarrierInv(s) && Enabled(s, Act(p, seen, readable))
    requires var pc := s.procs[p].pc; !pc.CheckArm? && !pc.CheckBarrier? && !pc.ReadState? && !pc.WriteArm? && (pc.WriteState? ==> pc.outcome.next.None?)
    ensures BarrierInv(ActStep(s, p, seen, readable))
  {}

  lemma ActKeepsBarrier(s: State, p: nat, seen: bool, readable: bool)
    requires Inv(s) && BarrierInv(s) && Enabled(s, Act(p, seen, readable)) && InPace(PROMPT, s, Act(p, seen, readable))
    ensures BarrierInv(ActStep(s, p, seen, readable))
  {
    hide Inv, BarrierInv, ActStep, InPace;
    var pc := s.procs[p].pc;
    if pc.CheckArm? {
      CheckArmKeepsBarrier(s, p, seen, readable);
    } else if pc.CheckBarrier? {
      BarrierReadKeepsBarrier(s, p, seen, readable);
    } else if pc.ReadState? {
      ReadKeepsBarrier(s, p, seen, readable);
    } else if pc.WriteState? && pc.outcome.next.Some? {
      WriteKeepsBarrier(s, p, seen, readable);
    } else if pc.WriteArm? {
      ArmKeepsBarrier(s, p, seen, readable);
    } else {
      LockKeepsBarrier(s, p, seen, readable);
    }
  }

  lemma StepKeepsBarrier(s: State, e: Event)
    requires Inv(s) && BarrierInv(s) && Enabled(s, e) && InPace(PROMPT, s, e)
    ensures BarrierInv(Apply(s, e))
  {
    if e.Act? {
      ActKeepsBarrier(s, e.p, e.seen, e.readable);
    } else if e.Busy? && s.procs[e.p].hook.PreToolUse? {
      JudgeKeepsBarrier(s, e.p, Block, Idle);
    }
  }

  lemma {:induction false} LeadsKeepsBarrier(s: State, es: seq<Event>, s': State)
    requires Inv(s) && BarrierInv(s) && Leads(PROMPT, s, es, s')
    ensures Inv(s') && BarrierInv(s')
    decreases |es|
  {
    if es != [] {
      StepKeepsInv(s, es[0]);
      StepKeepsBarrier(s, es[0]);
      LeadsKeepsBarrier(Apply(s, es[0]), es[1..], s');
    }
  }

  /** Once a send is recorded, no top-level PreToolUse of the armed session passes, until the
      batch holding that send's call, a SessionStart, or a hook that started after the 30 s
      expiry. */
  ghost predicate BarrierKept(log: seq<Entry>) {
    forall k, m | 0 <= k < m < |log| && log[k].deed.Sent? && Passes(log, m) ::
      log[m].now > Expiry(log, k) || exists j :: k < j < m && Ends(log, k, j)
  }

  lemma BarrierHolds(s: State)
    requires Reachable(PROMPT, s)
    ensures BarrierKept(s.log)
  {
    var n: nat, now: int, es :| Leads(PROMPT, Init(n, now), es, s);
    assert ProcsOk(Init(n, now));
    LeadsKeepsBarrier(Init(n, now), es, s);
    forall k, m | 0 <= k < m < |s.log| && s.log[k].deed.Sent? && Passes(s.log, m)
      ensures s.log[m].now > Expiry(s.log, k) || exists j :: k < j < m && Ends(s.log, k, j)
    {
      if !exists j :: k < j < m && Ends(s.log, k, j) {
        assert Stands(s.log, k, m);
      }
    }
  }
}
