/** Exactly when the gate lets a call through, in every reachable state, told from the log: what
    was last written decides. */
module GateExact {
  import opened Wrappers
  import opened GateRules
  import opened GateRun

  /** The last entry that wrote the state. */
  function LastWrite(log: seq<Entry>): Option<Entry> {
    if log == [] then None
    else
      var last := log[|log| - 1];
      if last.deed.Nothing? || last.deed.Armed? then LastWrite(log[..|log| - 1]) else Some(last)
  }

  lemma LastWriteSnoc(log: seq<Entry>, en: Entry)
    ensures LastWrite(log + [en]) == if en.deed.Nothing? || en.deed.Armed? then LastWrite(log) else Some(en)
  {
    assert (log + [en])[..|log|] == log;
  }

  /** What an entry leaves standing: a permit after a confirmed check, a barrier after a send, a
      pending tool after a question or a send; nothing else. */
  predicate Leaves(en: Entry, file: GateState) {
    && file.updatedAt == en.now
    && file.permit == (if en.deed.Permitted? then Some(en.deed.permit) else None)
    && file.barrier == (if en.deed.Sent? then Some(en.now + 30_000) else None)
    && file.pending == (if en.deed.Asked? then Some(Pending(en.deed.kind, en.deed.id))
                        else if en.deed.Sent? then Some(Pending(SendMessage, en.deed.id)) else None)
    && (en.deed.Permitted? ==> en.deed.permit.expiresAt == en.now + 30_000)
  }

  ghost predicate Says(s: State) {
    match LastWrite(s.log)
    case None => s.file.permit.None? && s.file.barrier.None? && s.file.pending.None?
    case Some(en) => Leaves(en, s.file)
  }

  lemma DecisionLeaves(st: GateState, h: Hook, now: int)
    requires Decide(st, h, now).next.Some?
    ensures var o := Decide(st, h, now);
            !o.deed.Nothing? && !o.deed.Armed? && Leaves(Entry(h, now, o.verdict, o.deed), o.next.value)
  {
    hide Candidates, Listings, ContainsAddress, ContainsRecipient;
  }

  lemma WriteSays(s: State, p: nat, seen: bool, readable: bool)
    requires Inv(s) && Says(s) && Enabled(s, Act(p, seen, readable)) && s.procs[p].pc.WriteState? && s.procs[p].pc.outcome.next.Some?
    ensures Says(ActStep(s, p, seen, readable))
  {
    assert ProcOk(s, p);
    hide Inv, Decide, Leaves, Read, LastWrite;
    var proc := s.procs[p];
    DecisionLeaves(if proc.hook.SessionStart? then s.file else Read(s.file, proc.now, proc.pc.readable), proc.hook, proc.now);
    LastWriteSnoc(s.log, Entry(proc.hook, proc.now, proc.pc.outcome.verdict, proc.pc.outcome.deed));
  }

  /** An access that writes no state adds nothing to the log, or an entry that wrote nothing. */
  lemma QuietAct(s: State, p: nat, seen: bool, readable: bool)
    requires Enabled(s, Act(p, seen, readable)) && !(s.procs[p].pc.WriteState? && s.procs[p].pc.outcome.next.Some?)
    ensures var s' := ActStep(s, p, seen, readable);
            && s'.file == s.file
            && (s'.log == s.log || exists en: Entry :: (en.deed.Nothing? || en.deed.Armed?) && s'.log == s.log + [en])
  {
    hide Decide, Read, ToBridge, SendTarget, Unarmed;
  }

  lemma ActSays(s: State, p: nat, seen: bool, readable: bool)
    requires Inv(s) && Says(s) && Enabled(s, Act(p, seen, readable))
    ensures Says(ActStep(s, p, seen, readable))
  {
    hide Inv, ActStep, Leaves, LastWrite;
    if s.procs[p].pc.WriteState? && s.procs[p].pc.outcome.next.Some? {
      WriteSays(s, p, seen, readable);
    } else {
      QuietAct(s, p, seen, readable);
      var s' := ActStep(s, p, seen, readable);
      if s'.log != s.log {
        var en: Entry :| (en.deed.Nothing? || en.deed.Armed?) && s'.log == s.log + [en];
        LastWriteSnoc(s.log, en);
      }
    }
  }

  lemma StepSays(s: State, e: Event)
    requires Inv(s) && Says(s) && Enabled(s, e)
    ensures Says(Apply(s, e))
  {
    if e.Act? {
      ActSays(s, e.p, e.seen, e.readable);
    } else if Apply(s, e).log != s.log {
      LastWriteSnoc(s.log, Apply(s, e).log[|s.log|]);
    }
  }

  lemma {:induction false} LeadsSays(pace: Pace, s: State, es: seq<Event>, s': State)
    requires Inv(s) && Says(s) && Leads(pace, s, es, s')
    ensures Says(s')
    decreases |es|
  {
    hide Inv, Says, Enabled, Apply, InPace;
    if es != [] {
      StepKeepsInv(s, es[0]);
      StepSays(s, es[0]);
      LeadsSays(pace, Apply(s, es[0]), es[1..], s');
    }
  }

  /** In every reachable state the state file holds what the last entry that wrote it left. */
  lemma FileSaysLast(pace: Pace, s: State)
    requires Reachable(pace, s)
    ensures Says(s)
  {
    var n: nat, now: int, es :| Leads(pace, Init(n, now), es, s);
    assert ProcsOk(Init(n, now));
    LeadsSays(pace, Init(n, now), es, s);
  }

  /** What a hook that reads now takes the last entry to say: it must find armed.json with its
      own session and a readable state, not from more than 5 s in the future of its clock. */
  predicate Knows(s: State, h: Hook, now: int, seen: bool, readable: bool) {
    seen && h.session.Some? && s.arm == h.session && readable && s.file.updatedAt <= now + 5_000
  }

  /** A permit for exactly this target, at most 30 s old. */
  predicate Permits(last: Option<Entry>, target: string, now: int) {
    last.Some? && last.value.deed.Permitted? && last.value.deed.permit.listing.sendTo == target && now <= last.value.now + 30_000
  }

  /** A send at most 30 s ago. */
  predicate Bars(last: Option<Entry>, now: int) {
    last.Some? && last.value.deed.Sent? && now <= last.value.now + 30_000
  }

  /** The hook goes on to write, having allowed its call. */
  predicate Passes(s: State, p: nat)
    requires p < |s.procs|
  {
    s.procs[p].pc.WriteState? && s.procs[p].pc.outcome.verdict == Allow
  }

  /** A hook about to read under the lock. */
  predicate Reading(s: State, p: nat) {
    p < |s.procs| && s.procs[p].pc.ReadState? && s.procs[p].hook.PreToolUse?
  }

  /** The chain fits its limits. */
  lemma Bounded(pace: Pace, s: State)
    requires Reachable(pace, s)
    ensures |s.file.candidates| <= MAX_CANDIDATES && |s.file.listings| <= MAX_CANDIDATES
  {
    ReachableInv(pace, s);
    hide LogOk, ProcsOk;
  }

  /** In every reachable state, a send to a bridge address is let through if and only if the
      last thing written is a confirmed check for exactly its target, at most 30 s old, and it
      carries a message of 1 to 512 bytes and a tool id. */
  lemma SendPassesExactly(pace: Pace, s: State, p: nat, seen: bool, readable: bool)
    requires Reachable(pace, s) && Reading(s, p) && s.procs[p].hook.tool == Exact(SendMessage) && ToBridge(s.procs[p].hook)
    requires SendTarget(s.procs[p].hook.input).Some?
    ensures var h, now := s.procs[p].hook, s.procs[p].now;
            Passes(ActStep(s, p, seen, readable), p) <==>
              && Knows(s, h, now, seen, readable) && Permits(LastWrite(s.log), SendTarget(h.input).value, now)
              && Fits(h.input.message) && h.id.Some?
  {
    FileSaysLast(pace, s);
    Bounded(pace, s);
    BridgeTarget(s.procs[p].hook);
    hide Reachable, LastWrite, ToBridge, SendTarget, ContainsAddress;
  }

  /** A send to anybody else is let through if and only if no barrier stands. */
  lemma OtherSendPassesExactly(pace: Pace, s: State, p: nat, seen: bool, readable: bool)
    requires Reachable(pace, s) && Reading(s, p) && s.procs[p].hook.tool == Exact(SendMessage) && !ToBridge(s.procs[p].hook)
    requires SendTarget(s.procs[p].hook.input).Some? && seen && Matching(s, s.procs[p].hook)
    ensures var h, now := s.procs[p].hook, s.procs[p].now;
            Passes(ActStep(s, p, seen, readable), p) <==> !(Knows(s, h, now, seen, readable) && Bars(LastWrite(s.log), now))
  {
    FileSaysLast(pace, s);
    Bounded(pace, s);
    BridgeTarget(s.procs[p].hook);
    hide Reachable, LastWrite, ToBridge, SendTarget, ContainsAddress;
  }

  /** A hook that does not read the state of its session: what it finds lies too far ahead of
      its clock, is more than five minutes old, or is unreadable. */
  predicate ReadsEmpty(s: State, now: int, readable: bool) {
    !readable || s.file.updatedAt > now + 5_000 || now - s.file.updatedAt > 300_000
  }

  /** The next question of the chain: peers at any time, agents after candidates were found, a
      check after agents were listed. */
  predicate Advances(s: State, h: Hook, now: int, readable: bool)
    requires h.PreToolUse?
  {
    || h.tool == Exact(Peers)
    || (h.tool == Exact(ListAgents) && !ReadsEmpty(s, now, readable) && s.file.candidates != [])
    || (h.tool == Exact(PeerCheck) && !ReadsEmpty(s, now, readable) && s.file.listings != [])
  }

  /** Any other tool of the armed session is let through if and only if no barrier stands, it is
      no lookalike of SendMessage with a bridge address, and it carries a tool id where it
      goes on with the chain. */
  lemma ToolPassesExactly(pace: Pace, s: State, p: nat, seen: bool, readable: bool)
    requires Reachable(pace, s) && Reading(s, p) && s.procs[p].hook.tool != Exact(SendMessage)
    requires seen && Matching(s, s.procs[p].hook)
    ensures var h, now := s.procs[p].hook, s.procs[p].now;
            Passes(ActStep(s, p, seen, readable), p) <==>
              && !(Knows(s, h, now, seen, readable) && Bars(LastWrite(s.log), now))
              && !(h.tool == LookalikeSend && ToBridge(h))
              && (Advances(s, h, now, readable) ==> h.id.Some?)
  {
    FileSaysLast(pace, s);
    Bounded(pace, s);
    hide Reachable, LastWrite, ContainsAddress;
  }
}
