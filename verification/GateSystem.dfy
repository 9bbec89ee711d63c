/** The gate on its lock files: hook processes that take consume.lock by the calls of
    ConsumeLock instead of a mutex.  Within the stale threshold every run is one of GateRun. */
module GateSystem {
  import opened Wrappers
  import opened GateRules
  import G = GateRun
  import B = GateBarrier
  import W = GateWitness
  import L = ConsumeLock

  /** The gate's files, log and processes, whose lock field is not used, and the lock files. */
  datatype System = System(gate: G.State, locks: L.State)

  datatype Event =
    | Tick(ms: nat)
    | Start(p: nat, hook: Hook)
    | Act(p: nat, seen: bool, readable: bool)   // the next access to the gate's files, or to the lock files
    | Busy(p: nat)                              // gives up between two tries
    | Crash(p: nat)

  function Init(n: nat, now: int): System {
    System(G.Init(n, now), L.Init(n))
  }

  /** The gate as GateRun sees it: locked by the owner of the lock file. */
  function View(y: System): G.State {
    y.gate.(lock := if y.locks.lock.None? then None else Some(y.locks.lock.value.owner))
  }

  predicate Enabled(t: L.Timing, y: System, e: Event) {
    && |y.gate.procs| == |y.locks.procs|
    && match e
       case Tick(ms) => ms > 0 && L.Enabled(t, y.locks, L.Tick(y.locks.clock + ms))
       case Start(p, _) => p < |y.gate.procs| && y.gate.procs[p].pc.Idle?
       case Act(p, _, _) => p < |y.gate.procs| && !y.gate.procs[p].pc.Idle? && !y.gate.procs[p].pc.Dead?
       case Busy(p) => p < |y.gate.procs| && y.gate.procs[p].pc.TakeLock? && y.locks.procs[p].OpenLock?
       case Crash(p) => L.Enabled(t, y.locks, L.Crash(p))
  }

  /** One call on the lock files; who holds consume.lock goes on to read. */
  function LockCall(y: System, p: nat): System
    requires p < |y.gate.procs| == |y.locks.procs|
  {
    var locks := L.ActOf(y.locks, p);
    System(if locks.procs[p].Critical? then G.Goto(y.gate, p, G.ReadState) else y.gate, locks)
  }

  function ActOf(y: System, p: nat, seen: bool, readable: bool): System
    requires p < |y.gate.procs| == |y.locks.procs| && !y.gate.procs[p].pc.Idle? && !y.gate.procs[p].pc.Dead?
  {
    var pc := y.gate.procs[p].pc;
    if pc.TakeLock? then LockCall(y, p)
    else if pc.DropLock? then System(G.Goto(y.gate, p, G.Idle), L.ActOf(y.locks, p))
    else System(G.ActStep(y.gate, p, seen, readable), y.locks)
  }

  function Apply(t: L.Timing, y: System, e: Event): System
    requires Enabled(t, y, e)
  {
    match e
    case Tick(ms) => System(y.gate.(clock := y.gate.clock + ms), y.locks.(clock := y.locks.clock + ms))
    case Start(p, hook) => System(G.Apply(y.gate, G.Start(p, hook)), y.locks)
    case Act(p, seen, readable) => ActOf(y, p, seen, readable)
    case Busy(p) => System(G.Apply(y.gate, G.Busy(p)), y.locks)
    case Crash(p) => System(G.Goto(y.gate, p, G.Dead), L.At(y.locks, p, L.Dead))
  }

  predicate InPace(pace: G.Pace, y: System, e: Event) {
    e.Act? ==> G.InPace(pace, y.gate, G.Act(e.p, e.seen, e.readable))
  }

  ghost predicate Leads(t: L.Timing, pace: G.Pace, y: System, es: seq<Event>, y': System)
    decreases |es|
  {
    if es == [] then y == y'
    else Enabled(t, y, es[0]) && InPace(pace, y, es[0]) && Leads(t, pace, Apply(t, y, es[0]), es[1..], y')
  }

  ghost predicate Reachable(t: L.Timing, pace: G.Pace, y: System) {
    exists n: nat, now: int, es :: Leads(t, pace, Init(n, now), es, y)
  }

  predicate Safe(t: L.Timing) {
    t.section + t.gap <= L.STALE_MS && !t.dieInReclaim
  }

  // ---- The lock files are the mutex ----

  /** A process at the gate and at the lock files. */
  predicate Coupled(gate: G.Pc, lock: L.Pc) {
    && (gate.Dead? <==> lock.Dead?)
    && (G.Locked(gate) <==> lock.Critical?)
    && (!lock.OpenLock? && !lock.Critical? && !lock.Dead? ==> gate.TakeLock?)
  }

  /** Who owns the lock file is in the section, or died there. */
  predicate Owned(locks: L.State) {
    locks.lock.Some? ==>
      var p := locks.lock.value.owner;
      p < |locks.procs| && (locks.procs[p].Critical? || locks.procs[p].Dead?)
  }

  ghost predicate Inv(t: L.Timing, y: System) {
    && |y.gate.procs| == |y.locks.procs| && L.Inv(t, y.locks) && Owned(y.locks)
    && forall p: nat | p < |y.gate.procs| :: Coupled(y.gate.procs[p].pc, y.locks.procs[p])
  }

  lemma ActKeepsOwned(t: L.Timing, locks: L.State, p: nat)
    requires L.Inv(t, locks) && Owned(locks) && p < |locks.procs| && !locks.procs[p].Dead?
    ensures Owned(L.ActOf(locks, p))
  {}

  /** One step keeps the invariant, and is a step of GateRun or none. */
  lemma StepRefines(t: L.Timing, pace: G.Pace, y: System, e: Event)
    requires Safe(t) && Inv(t, y) && Enabled(t, y, e) && InPace(pace, y, e) && G.Reachable(pace, View(y))
    ensures Inv(t, Apply(t, y, e)) && G.Reachable(pace, View(Apply(t, y, e)))
  {
    if e.Act? {
      if y.gate.procs[e.p].pc.TakeLock? {
        LockCallRefines(t, pace, y, e.p, e.seen, e.readable);
      } else if y.gate.procs[e.p].pc.DropLock? {
        DropRefines(t, pace, y, e.p, e.seen, e.readable);
      } else {
        AccessRefines(t, pace, y, e.p, e.seen, e.readable);
      }
    } else {
      OtherRefines(t, pace, y, e);
    }
  }

  lemma OthersCoupled(y: System, y': System, p: nat)
    requires |y.gate.procs| == |y.locks.procs| && p < |y.gate.procs|
    requires forall q: nat | q < |y.gate.procs| :: Coupled(y.gate.procs[q].pc, y.locks.procs[q])
    requires |y'.gate.procs| == |y.gate.procs| && |y'.locks.procs| == |y.locks.procs| && Coupled(y'.gate.procs[p].pc, y'.locks.procs[p])
    requires forall q: nat | q < |y.gate.procs| && q != p :: y'.gate.procs[q] == y.gate.procs[q] && y'.locks.procs[q] == y.locks.procs[q]
    ensures forall q: nat | q < |y'.gate.procs| :: Coupled(y'.gate.procs[q].pc, y'.locks.procs[q])
  {}

  /** What a call while waiting means for the lock. */
  lemma LockCallIs(t: L.Timing, locks: L.State, p: nat)
    requires L.Inv(t, locks) && Owned(locks) && p < |locks.procs| && !locks.procs[p].Critical? && !locks.procs[p].Dead?
    ensures var locks' := L.ActOf(locks, p);
            && |locks'.procs| == |locks.procs| && !locks'.procs[p].Dead?
            && (forall q: nat | q < |locks.procs| && q != p :: locks'.procs[q] == locks.procs[q])
            && (if locks'.procs[p].Critical? then locks.lock.None? && locks'.lock.Some? && locks'.lock.value.owner == p
                else if locks.procs[p].RemoveLock? then
                  locks.lock.Some? && locks'.lock.None? && locks.lock.value.owner < |locks.procs| && locks.procs[locks.lock.value.owner].Dead?
                else locks'.lock == locks.lock)
  {
    assert L.ProcOk(t, locks, p);
  }

  /** A call while waiting: it takes the lock, removes a dead process's, or changes nothing of it. */
  lemma LockCallRefines(t: L.Timing, pace: G.Pace, y: System, p: nat, seen: bool, readable: bool)
    requires Safe(t) && Inv(t, y) && Enabled(t, y, Act(p, seen, readable)) && y.gate.procs[p].pc.TakeLock?
    requires InPace(pace, y, Act(p, seen, readable)) && G.Reachable(pace, View(y))
    ensures Inv(t, LockCall(y, p)) && G.Reachable(pace, View(LockCall(y, p)))
  {
    var y' := LockCall(y, p);
    L.StepKeepsInv(t, y.locks, L.Act(p));
    ActKeepsOwned(t, y.locks, p);
    LockCallIs(t, y.locks, p);
    hide G.Reachable, L.Inv, L.ActOf, Owned;
    OthersCoupled(y, y', p);
    if y'.locks.procs[p].Critical? {
      var s := W.Step(pace, View(y), G.Act(p, seen, readable));
      assert View(y') == s;
    } else if y.locks.procs[p].RemoveLock? {
      var s := W.Step(pace, View(y), G.Reclaim);
      assert View(y') == s;
    } else {
      assert View(y') == View(y);
    }
  }

  lemma DropRefines(t: L.Timing, pace: G.Pace, y: System, p: nat, seen: bool, readable: bool)
    requires Safe(t) && Inv(t, y) && Enabled(t, y, Act(p, seen, readable)) && y.gate.procs[p].pc.DropLock?
    requires InPace(pace, y, Act(p, seen, readable)) && G.Reachable(pace, View(y))
    ensures Inv(t, ActOf(y, p, seen, readable)) && G.Reachable(pace, View(ActOf(y, p, seen, readable)))
  {
    var y' := ActOf(y, p, seen, readable);
    L.StepKeepsInv(t, y.locks, L.Act(p));
    ActKeepsOwned(t, y.locks, p);
    OthersCoupled(y, y', p);
    var s := W.Step(pace, View(y), G.Act(p, seen, readable));
    assert View(y') == s;
  }

  /** Away from the lock, the lock field is not looked at, and nobody gets in or out. */
  lemma AccessIs(s: G.State, lock: Option<nat>, p: nat, seen: bool, readable: bool)
    requires G.Enabled(s, G.Act(p, seen, readable)) && !s.procs[p].pc.TakeLock? && !s.procs[p].pc.DropLock?
    ensures G.ActStep(s.(lock := lock), p, seen, readable) == G.ActStep(s, p, seen, readable).(lock := lock)
  {
    hide Read, Decide, ToBridge, SendTarget, Unarmed;
  }

  lemma AccessStays(s: G.State, p: nat, seen: bool, readable: bool)
    requires G.Enabled(s, G.Act(p, seen, readable)) && !s.procs[p].pc.TakeLock? && !s.procs[p].pc.DropLock?
    ensures var s' := G.ActStep(s, p, seen, readable);
            && |s'.procs| == |s.procs| && !s'.procs[p].pc.Dead? && (G.Locked(s'.procs[p].pc) <==> G.Locked(s.procs[p].pc))
            && forall q: nat | q < |s.procs| && q != p :: s'.procs[q] == s.procs[q]
  {
    hide Read, Decide, ToBridge, SendTarget, Unarmed;
  }

  /** An access to the gate's own files. */
  lemma AccessRefines(t: L.Timing, pace: G.Pace, y: System, p: nat, seen: bool, readable: bool)
    requires Inv(t, y) && Enabled(t, y, Act(p, seen, readable)) && !y.gate.procs[p].pc.TakeLock? && !y.gate.procs[p].pc.DropLock?
    requires InPace(pace, y, Act(p, seen, readable)) && G.Reachable(pace, View(y))
    ensures Inv(t, ActOf(y, p, seen, readable)) && G.Reachable(pace, View(ActOf(y, p, seen, readable)))
  {
    hide G.ActStep, G.Reachable, L.Inv;
    var y' := ActOf(y, p, seen, readable);
    AccessIs(y.gate, View(y).lock, p, seen, readable);
    AccessStays(y.gate, p, seen, readable);
    var s := W.Step(pace, View(y), G.Act(p, seen, readable));
    assert View(y') == s;
    OthersCoupled(y, y', p);
  }

  lemma OtherRefines(t: L.Timing, pace: G.Pace, y: System, e: Event)
    requires Safe(t) && Inv(t, y) && Enabled(t, y, e) && !e.Act? && G.Reachable(pace, View(y))
    ensures Inv(t, Apply(t, y, e)) && G.Reachable(pace, View(Apply(t, y, e)))
  {
    match e
    case Tick(ms) => TickRefines(t, pace, y, ms);
    case Crash(p) => CrashRefines(t, pace, y, p);
    case _ => HookRefines(t, pace, y, e);
  }

  lemma TickRefines(t: L.Timing, pace: G.Pace, y: System, ms: nat)
    requires Safe(t) && Inv(t, y) && Enabled(t, y, Tick(ms)) && G.Reachable(pace, View(y))
    ensures Inv(t, Apply(t, y, Tick(ms))) && G.Reachable(pace, View(Apply(t, y, Tick(ms))))
  {
    L.StepKeepsInv(t, y.locks, L.Tick(y.locks.clock + ms));
    hide G.Reachable, L.Inv;
    var s := W.Step(pace, View(y), G.Tick(y.gate.clock + ms));
    assert View(Apply(t, y, Tick(ms))) == s;
  }

  /** A hook starts, or gives up waiting. */
  lemma HookRefines(t: L.Timing, pace: G.Pace, y: System, e: Event)
    requires Inv(t, y) && Enabled(t, y, e) && (e.Start? || e.Busy?) && G.Reachable(pace, View(y))
    ensures Inv(t, Apply(t, y, e)) && G.Reachable(pace, View(Apply(t, y, e)))
  {
    hide G.Reachable, L.Inv;
    var y' := Apply(t, y, e);
    var s := W.Step(pace, View(y), if e.Start? then G.Start(e.p, e.hook) else G.Busy(e.p));
    assert View(y') == s;
    OthersCoupled(y, y', e.p);
  }

  lemma CrashRefines(t: L.Timing, pace: G.Pace, y: System, p: nat)
    requires Safe(t) && Inv(t, y) && Enabled(t, y, Crash(p)) && G.Reachable(pace, View(y))
    ensures Inv(t, Apply(t, y, Crash(p))) && G.Reachable(pace, View(Apply(t, y, Crash(p))))
  {
    L.StepKeepsInv(t, y.locks, L.Crash(p));
    hide G.Reachable, L.Inv;
    var y' := Apply(t, y, Crash(p));
    var s := W.Step(pace, View(y), G.Crash(p));
    assert View(y') == s;
    OthersCoupled(y, y', p);
  }

  lemma {:induction false} LeadsRefines(t: L.Timing, pace: G.Pace, y: System, es: seq<Event>, y': System)
    requires Safe(t) && Inv(t, y) && G.Reachable(pace, View(y)) && Leads(t, pace, y, es, y')
    ensures G.Reachable(pace, View(y'))
    decreases |es|
  {
    hide Inv, View, Apply, Enabled, InPace, Safe, G.Reachable;
    if es != [] {
      StepRefines(t, pace, y, es[0]);
      LeadsRefines(t, pace, Apply(t, y, es[0]), es[1..], y');
    }
  }

  /** When a section plus the age-check pause fits the stale threshold and nobody dies holding
      the reclaim file, every run on the lock files is a run with the mutex. */
  lemma LockFilesRefineMutex(t: L.Timing, pace: G.Pace, y: System)
    requires Safe(t) && Reachable(t, pace, y)
    ensures G.Reachable(pace, View(y))
  {
    var n: nat, now: int, es :| Leads(t, pace, Init(n, now), es, y);
    var y0 := Init(n, now);
    assert forall p: nat | p < n :: L.ProcOk(t, y0.locks, p);
    assert View(y0) == G.Init(n, now) && G.Leads(pace, View(y0), [], View(y0));
    LeadsRefines(t, pace, y0, es, y);
  }

  /** So the gate keeps its promises on the lock files: every allowed send is earned. */
  lemma SendsOnLockFiles(t: L.Timing, pace: G.Pace, y: System, k: nat)
    requires Safe(t) && Reachable(t, pace, y) && k < |y.gate.log|
    requires ToBridge(y.gate.log[k].hook) && y.gate.log[k].verdict == Allow
    ensures y.gate.log[k].deed.Sent?
    ensures exists trail, l :: G.Earned(y.gate.log, trail, l, k) && l.sendTo == y.gate.log[k].deed.to
  {
    LockFilesRefineMutex(t, pace, y);
    G.AllowedSendsAreJustified(pace, View(y), k);
  }

  /** And the send barrier holds. */
  lemma BarrierOnLockFiles(t: L.Timing, y: System)
    requires Safe(t) && Reachable(t, B.PROMPT, y)
    ensures B.BarrierKept(y.gate.log)
  {
    LockFilesRefineMutex(t, B.PROMPT, y);
    B.BarrierHolds(View(y));
  }
}
