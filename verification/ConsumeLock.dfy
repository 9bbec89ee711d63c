/** The consume.lock protocol of the Claude Cross-session gate, as an interleaving of its
    single file-system calls.  Any number of hook processes run `waitForConsumeLock`,
    `reclaimStaleConsumeLock` and `dropStaleLockFile` against two paths; a remove acts on
    whatever file is at the path when it runs, so a process may remove a file it did not
    look at.  The result is an equivalence: the lock excludes exactly when a section plus
    the pause between `lstat` and `Date.now()` fits the stale threshold, and nobody dies
    holding the reclaim file. */
module ConsumeLock {
  import opened Wrappers

  const STALE_MS: nat := 10_000

  /** What is assumed of live processes.  A process leaves the critical section, and the
      reclaim section, within `section` milliseconds of creating the file; `gap` bounds the
      pause between an `lstat` and the `Date.now()` its age is computed with. */
  datatype Timing = Timing(section: nat, gap: nat, dieInReclaim: bool)

  datatype LockFile = LockFile(owner: nat, mtime: nat)

  /** The next file-system call of a process.  `since` is when it created the file it holds. */
  datatype Pc =
    | OpenLock                                         // open(consume.lock, "wx"), first try or retry
    | Critical(since: nat)                             // holds consume.lock, will remove it
    | OpenReclaim                                      // open(consume.lock.reclaim, "wx")
    | StatLock(since: nat)                             // holds the reclaim file, will lstat consume.lock
    | AgeLock(since: nat, mtime: nat, at: nat)         // lstat done at `at`, will read the clock
    | RemoveLock(since: nat)                           // found it stale, will remove consume.lock
    | CloseReclaim(since: nat)                         // will remove the reclaim file
    | StatReclaim                                      // somebody else reclaims, will lstat its file
    | AgeReclaim(mtime: nat, at: nat)
    | RemoveReclaim
    | Dead

  datatype State = State(clock: nat, lock: Option<LockFile>, reclaim: Option<LockFile>, procs: seq<Pc>)

  datatype Event = Act(p: nat) | Crash(p: nat) | Tick(to: nat)

  function Init(n: nat): State {
    State(0, None, None, seq(n, _ => OpenLock))
  }

  predicate HoldsReclaim(pc: Pc) {
    pc.StatLock? || pc.AgeLock? || pc.RemoveLock? || pc.CloseReclaim?
  }

  /** A live process at `pc` may still be there at time `now`. */
  predicate InTime(t: Timing, pc: Pc, now: nat) {
    && (pc.Critical? || HoldsReclaim(pc) ==> now <= pc.since + t.section)
    && (pc.AgeLock? || pc.AgeReclaim? ==> now <= pc.at + t.gap)
  }

  predicate Enabled(t: Timing, s: State, e: Event) {
    match e
    case Act(p) => p < |s.procs| && !s.procs[p].Dead?
    case Crash(p) => p < |s.procs| && (HoldsReclaim(s.procs[p]) ==> t.dieInReclaim)
    case Tick(to) => s.clock < to && forall p: nat | p < |s.procs| :: InTime(t, s.procs[p], to)
  }

  function At(s: State, p: nat, pc: Pc): State
    requires p < |s.procs|
  {
    s.(procs := s.procs[p := pc])
  }

  /** One file-system call (or clock read) of process p. */
  function ActOf(s: State, p: nat): State
    requires p < |s.procs|
  {
    match s.procs[p]
    case OpenLock =>
      if s.lock.None? then At(s.(lock := Some(LockFile(p, s.clock))), p, Critical(s.clock)) else At(s, p, OpenReclaim)
    case Critical(_) => At(s.(lock := None), p, OpenLock)
    case OpenReclaim =>
      if s.reclaim.None? then At(s.(reclaim := Some(LockFile(p, s.clock))), p, StatLock(s.clock)) else At(s, p, StatReclaim)
    case StatLock(since) =>
      At(s, p, if s.lock.None? then CloseReclaim(since) else AgeLock(since, s.lock.value.mtime, s.clock))
    case AgeLock(since, mtime, _) =>
      At(s, p, if s.clock > mtime + STALE_MS then RemoveLock(since) else CloseReclaim(since))
    case RemoveLock(since) => At(s.(lock := None), p, CloseReclaim(since))
    case CloseReclaim(_) => At(s.(reclaim := None), p, OpenLock)
    case StatReclaim => At(s, p, if s.reclaim.None? then OpenLock else AgeReclaim(s.reclaim.value.mtime, s.clock))
    case AgeReclaim(mtime, _) => At(s, p, if s.clock > mtime + STALE_MS then RemoveReclaim else OpenLock)
    case RemoveReclaim => At(s.(reclaim := None), p, OpenLock)
    case Dead => s
  }

  function Apply(t: Timing, s: State, e: Event): State
    requires Enabled(t, s, e)
  {
    match e
    case Act(p) => ActOf(s, p)
    case Crash(p) => At(s, p, Dead)
    case Tick(to) => s.(clock := to)
  }

  /** The events es, taken in order, lead from s to s'. */
  ghost predicate Leads(t: Timing, s: State, es: seq<Event>, s': State)
    decreases |es|
  {
    if es == [] then s == s' else Enabled(t, s, es[0]) && Leads(t, Apply(t, s, es[0]), es[1..], s')
  }

  ghost predicate Reachable(t: Timing, n: nat, s: State) {
    exists es :: Leads(t, Init(n), es, s)
  }

  /** At most one live process is in the critical section, and the file it will remove is its own. */
  ghost predicate Exclusive(s: State) {
    && (forall p: nat, q: nat | p < |s.procs| && q < |s.procs| && s.procs[p].Critical? && s.procs[q].Critical? :: p == q)
    && (forall p: nat | p < |s.procs| && s.procs[p].Critical? :: s.lock == Some(LockFile(p, s.procs[p].since)))
  }

  // ---- Sufficiency: an inductive invariant ----

  /** consume.lock was left behind by a crash: it is there and nobody is in the section. */
  ghost predicate Orphaned(s: State) {
    s.lock.Some? && forall p: nat | p < |s.procs| :: !s.procs[p].Critical?
  }

  ghost predicate ProcOk(t: Timing, s: State, p: nat)
    requires p < |s.procs|
  {
    var pc := s.procs[p];
    && InTime(t, pc, s.clock)
    && (pc.Critical? ==> s.lock == Some(LockFile(p, pc.since)))
    && (HoldsReclaim(pc) ==> s.reclaim == Some(LockFile(p, pc.since)))
    && (pc.AgeLock? ==> (pc.at > pc.mtime + t.section ==> Orphaned(s)))
    && (pc.RemoveLock? ==> Orphaned(s))
    && (pc.AgeReclaim? ==> pc.at <= pc.mtime + t.section)
    && !pc.RemoveReclaim?
  }

  ghost predicate Inv(t: Timing, s: State) {
    && (forall p: nat {:trigger s.procs[p]} | p < |s.procs| :: ProcOk(t, s, p))
    && (s.reclaim.Some? ==>
          var f := s.reclaim.value;
          f.owner < |s.procs| && HoldsReclaim(s.procs[f.owner]) && s.procs[f.owner].since == f.mtime)
  }

  lemma StepKeepsInv(t: Timing, s: State, e: Event)
    requires t.section + t.gap <= STALE_MS && !t.dieInReclaim
    requires Inv(t, s) && Enabled(t, s, e)
    ensures Inv(t, Apply(t, s, e))
  {
    if e.Act? {
      ActKeepsInv(t, s, e.p);
    } else {
      forall q: nat | q < |Apply(t, s, e).procs|
        ensures ProcOk(t, Apply(t, s, e), q)
      {
        assert ProcOk(t, s, q);
      }
    }
  }

  /** A call of p leaves p as it should be. */
  lemma ActKeepsSelf(t: Timing, s: State, p: nat)
    requires t.section + t.gap <= STALE_MS && !t.dieInReclaim
    requires Inv(t, s) && Enabled(t, s, Act(p))
    ensures ProcOk(t, ActOf(s, p), p)
  {}

  /** And any other process. */
  lemma ActKeepsOther(t: Timing, s: State, p: nat, q: nat)
    requires t.section + t.gap <= STALE_MS && !t.dieInReclaim
    requires Inv(t, s) && Enabled(t, s, Act(p)) && q < |s.procs| && q != p
    ensures ProcOk(t, ActOf(s, p), q)
  {}

  lemma ActKeepsInv(t: Timing, s: State, p: nat)
    requires t.section + t.gap <= STALE_MS && !t.dieInReclaim
    requires Inv(t, s) && Enabled(t, s, Act(p))
    ensures Inv(t, Apply(t, s, Act(p)))
  {
    var s' := Apply(t, s, Act(p));
    assert ProcOk(t, s, p);
    if s.reclaim.Some? {
      assert ProcOk(t, s, s.reclaim.value.owner);
    }
    forall q: nat | q < |s'.procs|
      ensures ProcOk(t, s', q)
    {
      if q == p {
        ActKeepsSelf(t, s, p);
      } else {
        ActKeepsOther(t, s, p, q);
      }
    }
  }

  lemma {:induction false} LeadsKeepsInv(t: Timing, s: State, es: seq<Event>, s': State)
    requires t.section + t.gap <= STALE_MS && !t.dieInReclaim
    requires Inv(t, s) && Leads(t, s, es, s')
    ensures Inv(t, s')
    decreases |es|
  {
    if es != [] {
      StepKeepsInv(t, s, es[0]);
      LeadsKeepsInv(t, Apply(t, s, es[0]), es[1..], s');
    }
  }

  lemma ExclusiveInTime(t: Timing, n: nat, s: State)
    requires t.section + t.gap <= STALE_MS && !t.dieInReclaim
    requires Reachable(t, n, s)
    ensures Exclusive(s)
  {
    var es :| Leads(t, Init(n), es, s);
    assert forall p: nat | p < n :: ProcOk(t, Init(n), p);
    LeadsKeepsInv(t, Init(n), es, s);
    assert forall p: nat | p < |s.procs| :: ProcOk(t, s, p);
  }

  // ---- Necessity: three runs that break it ----

  lemma {:induction false} LeadsSnoc(t: Timing, s: State, es: seq<Event>, s': State, e: Event)
    requires Leads(t, s, es, s') && Enabled(t, s', e)
    ensures Leads(t, s, es + [e], Apply(t, s', e))
    decreases |es|
  {
    if es == [] {
      assert [e][1..] == [];
    } else {
      LeadsSnoc(t, Apply(t, s, es[0]), es[1..], s', e);
      assert (es + [e])[1..] == es[1..] + [e];
    }
  }

  lemma Step(t: Timing, n: nat, s: State, e: Event) returns (s': State)
    requires Reachable(t, n, s) && Enabled(t, s, e)
    ensures s' == Apply(t, s, e) && Reachable(t, n, s')
  {
    s' := Apply(t, s, e);
    var es :| Leads(t, Init(n), es, s);
    LeadsSnoc(t, Init(n), es, s, e);
  }

  lemma Start(t: Timing, n: nat) returns (s: State)
    ensures s == Init(n) && Reachable(t, n, s)
  {
    s := Init(n);
    assert Leads(t, s, [], s);
  }

  /** Process 0 takes the lock; at time `look` process 1 holds the reclaim file and has just
      looked at that lock. */
  lemma LookAtLiveLock(t: Timing, look: nat) returns (s: State)
    requires look <= t.section
    ensures Reachable(t, 3, s)
    ensures s == State(look, Some(LockFile(0, 0)), Some(LockFile(1, look)), [Critical(0), AgeLock(look, 0, look), OpenLock])
  {
    s := Start(t, 3);
    s := Step(t, 3, s, Act(0));
    assert s == State(0, Some(LockFile(0, 0)), None, [Critical(0), OpenLock, OpenLock]);
    if look > 0 {
      s := Step(t, 3, s, Tick(look));
    }
    s := TakeReclaim(t, 3, s, 1);
    assert s == State(look, Some(LockFile(0, 0)), Some(LockFile(1, look)), [Critical(0), StatLock(look), OpenLock]);
    s := Step(t, 3, s, Act(1));
  }

  /** The reclaimer looks at process 0's lock while it is live, pauses, and judges it stale;
      meanwhile 0 has left and 2 has taken the lock, which the reclaimer then removes. */
  lemma LateLockCheck(t: Timing) returns (s: State)
    requires t.section + t.gap > STALE_MS && (t.gap <= t.section || t.section > STALE_MS)
    ensures Reachable(t, 3, s) && !Exclusive(s)
  {
    var now := STALE_MS + 1;
    var look := if t.section < now then t.section else now;
    s := LookAtLiveLock(t, look);
    s := Step(t, 3, s, Act(0));
    assert s == State(look, None, Some(LockFile(1, look)), [OpenLock, AgeLock(look, 0, look), OpenLock]);
    if look < now {
      s := Step(t, 3, s, Tick(now));
    }
    assert s == State(now, None, Some(LockFile(1, look)), [OpenLock, AgeLock(look, 0, look), OpenLock]);
    s := RemoveAnother(t, s, look);
  }

  /** Process 0 has died in the section.  2 looks at the reclaim file that 1 holds, pauses
      until it judges it stale; meanwhile 1 has left, and the next reclaim file is the one
      that 2 will remove. */
  lemma LateReclaimCheck(t: Timing) returns (s: State)
    requires t.section <= STALE_MS && t.section + t.gap > STALE_MS
    ensures Reachable(t, 5, s)
    ensures s == State(STALE_MS + 1, Some(LockFile(0, 0)), None, [Dead, OpenLock, RemoveReclaim, OpenLock, OpenLock])
  {
    s := ReclaimAfterCrash(t, t.section);
    s := LookAtReclaim(t, s);
    s := LeaveReclaim(t, s, t.section);
    s := Step(t, 5, s, Tick(STALE_MS + 1));
    s := Step(t, 5, s, Act(2));
  }

  lemma ReclaimAfterCrash(t: Timing, look: nat) returns (s: State)
    requires look <= t.section
    ensures Reachable(t, 5, s)
    ensures s == State(look, Some(LockFile(0, 0)), Some(LockFile(1, 0)), [Dead, StatLock(0), OpenLock, OpenLock, OpenLock])
  {
    s := Start(t, 5);
    s := Step(t, 5, s, Act(0));
    s := Step(t, 5, s, Crash(0));
    assert s.procs == [Dead, OpenLock, OpenLock, OpenLock, OpenLock];
    s := TakeReclaim(t, 5, s, 1);
    if look > 0 {
      s := Step(t, 5, s, Tick(look));
    }
  }

  lemma LookAtReclaim(t: Timing, s0: State) returns (s: State)
    requires Reachable(t, 5, s0)
    requires s0 == State(s0.clock, Some(LockFile(0, 0)), Some(LockFile(1, 0)), [Dead, StatLock(0), OpenLock, OpenLock, OpenLock])
    ensures Reachable(t, 5, s) && s == At(s0, 2, AgeReclaim(0, s0.clock))
  {
    s := Step(t, 5, s0, Act(2));
    s := Step(t, 5, s, Act(2));
    s := Step(t, 5, s, Act(2));
  }

  lemma LeaveReclaim(t: Timing, s0: State, look: nat) returns (s: State)
    requires Reachable(t, 5, s0) && look <= STALE_MS
    requires s0 == State(look, Some(LockFile(0, 0)), Some(LockFile(1, 0)), [Dead, StatLock(0), AgeReclaim(0, look), OpenLock, OpenLock])
    ensures Reachable(t, 5, s)
    ensures s == State(look, Some(LockFile(0, 0)), None, [Dead, OpenLock, AgeReclaim(0, look), OpenLock, OpenLock])
  {
    s := Step(t, 5, s0, Act(1));
    s := Step(t, 5, s, Act(1));
    s := Step(t, 5, s, Act(1));
  }

  /** 3 and then 4 reclaim at once, 2 having removed the reclaim file of 3; the second of
      them removes the lock that 1 took after the first one had cleared the path. */
  lemma LateReclaimDrop(t: Timing) returns (s: State)
    requires t.section <= STALE_MS && t.section + t.gap > STALE_MS
    ensures Reachable(t, 5, s) && !Exclusive(s)
  {
    var now, dead := STALE_MS + 1, Some(LockFile(0, 0));
    s := LateReclaimCheck(t);
    s := TakeReclaim(t, 5, s, 3);
    s := Step(t, 5, s, Act(2));
    s := TakeReclaim(t, 5, s, 4);
    assert s == State(now, dead, Some(LockFile(4, now)), [Dead, OpenLock, OpenLock, StatLock(now), StatLock(now)]);
    s := JudgeStale(t, 5, s, 3);
    s := JudgeStale(t, 5, s, 4);
    assert s == State(now, dead, Some(LockFile(4, now)), [Dead, OpenLock, OpenLock, RemoveLock(now), RemoveLock(now)]);
    s := TwoHolders(t, s);
  }

  lemma TwoHolders(t: Timing, s0: State) returns (s: State)
    requires Reachable(t, 5, s0)
    requires s0 == State(STALE_MS + 1, Some(LockFile(0, 0)), Some(LockFile(4, STALE_MS + 1)),
                         [Dead, OpenLock, OpenLock, RemoveLock(STALE_MS + 1), RemoveLock(STALE_MS + 1)])
    ensures Reachable(t, 5, s) && !Exclusive(s)
  {
    s := Step(t, 5, s0, Act(3));
    s := Step(t, 5, s, Act(1));
    s := Step(t, 5, s, Act(4));
    s := Step(t, 5, s, Act(2));
    assert s.procs[1].Critical? && s.procs[2].Critical?;
  }

  /** Whenever a section and the pause of an age check together exceed the threshold. */
  lemma SlowAgeCheckBreaksExclusion(t: Timing) returns (n: nat, s: State)
    requires t.section + t.gap > STALE_MS
    ensures Reachable(t, n, s) && !Exclusive(s)
  {
    if t.section > STALE_MS {
      n := 3;
      s := LateLockCheck(t);
    } else {
      n := 5;
      s := LateReclaimDrop(t);
    }
  }

  lemma RemoveAnother(t: Timing, s0: State, look: nat) returns (s: State)
    requires s0 == State(STALE_MS + 1, None, Some(LockFile(1, look)), [OpenLock, AgeLock(look, 0, look), OpenLock])
    requires Reachable(t, 3, s0)
    ensures Reachable(t, 3, s) && !Exclusive(s)
  {
    var now := STALE_MS + 1;
    s := Step(t, 3, s0, Act(2));
    assert s == State(now, Some(LockFile(2, now)), Some(LockFile(1, look)), [OpenLock, AgeLock(look, 0, look), Critical(now)]);
    s := Step(t, 3, s, Act(1));
    assert s == State(now, Some(LockFile(2, now)), Some(LockFile(1, look)), [OpenLock, RemoveLock(look), Critical(now)]);
    s := Step(t, 3, s, Act(1));
    assert s == State(now, None, Some(LockFile(1, look)), [OpenLock, CloseReclaim(look), Critical(now)]);
    s := Step(t, 3, s, Act(0));
    assert s.procs[0].Critical? && s.procs[2].Critical?;
  }

  /** Steps of process p from OpenLock, with both files present and the reclaim file stale. */
  lemma FindStaleReclaim(t: Timing, n: nat, s0: State, p: nat) returns (s: State)
    requires Reachable(t, n, s0) && p < |s0.procs| && s0.procs[p] == OpenLock
    requires s0.lock.Some? && s0.reclaim.Some? && s0.clock > s0.reclaim.value.mtime + STALE_MS
    ensures Reachable(t, n, s) && s == At(s0, p, RemoveReclaim)
  {
    s := Step(t, n, s0, Act(p));
    s := Step(t, n, s, Act(p));
    s := Step(t, n, s, Act(p));
    s := Step(t, n, s, Act(p));
  }

  /** Steps of process p from OpenLock up to holding the reclaim file. */
  lemma TakeReclaim(t: Timing, n: nat, s0: State, p: nat) returns (s: State)
    requires Reachable(t, n, s0) && p < |s0.procs| && s0.procs[p] == OpenLock
    requires s0.lock.Some? && s0.reclaim.None?
    ensures Reachable(t, n, s) && s == At(s0.(reclaim := Some(LockFile(p, s0.clock))), p, StatLock(s0.clock))
  {
    s := Step(t, n, s0, Act(p));
    s := Step(t, n, s, Act(p));
  }

  /** Steps of process p, holding a reclaim file, up to having judged consume.lock stale. */
  lemma JudgeStale(t: Timing, n: nat, s0: State, p: nat) returns (s: State)
    requires Reachable(t, n, s0) && p < |s0.procs| && s0.procs[p].StatLock?
    requires s0.lock.Some? && s0.clock > s0.lock.value.mtime + STALE_MS
    ensures Reachable(t, n, s) && s == At(s0, p, RemoveLock(s0.procs[p].since))
  {
    s := Step(t, n, s0, Act(p));
    s := Step(t, n, s, Act(p));
  }

  /** Process 0 dies in the critical section. */
  lemma CrashInSection(t: Timing) returns (s: State)
    ensures Reachable(t, 6, s)
    ensures s == State(0, Some(LockFile(0, 0)), None, [Dead, OpenLock, OpenLock, OpenLock, OpenLock, OpenLock])
  {
    s := Start(t, 6);
    s := Step(t, 6, s, Act(0));
    s := Step(t, 6, s, Crash(0));
    assert s.procs == [Dead, OpenLock, OpenLock, OpenLock, OpenLock, OpenLock];
  }

  /** And 1 in the reclaim section; later both files are stale. */
  lemma CrashInBoth(t: Timing) returns (s: State)
    requires t.dieInReclaim
    ensures Reachable(t, 6, s)
    ensures s == State(STALE_MS + 1, Some(LockFile(0, 0)), Some(LockFile(1, 0)), [Dead, Dead, OpenLock, OpenLock, OpenLock, OpenLock])
  {
    s := CrashInSection(t);
    s := TakeReclaim(t, 6, s, 1);
    s := Step(t, 6, s, Crash(1));
    assert s.procs == [Dead, Dead, OpenLock, OpenLock, OpenLock, OpenLock];
    s := Step(t, 6, s, Tick(STALE_MS + 1));
  }

  /** 2 and 3 both judge the reclaim file stale; 2 removes it, 4 makes a new one, 3 removes
      that, and 5 makes another: 4 and 5 reclaim at once. */
  lemma TwoReclaimers(t: Timing) returns (s: State)
    requires t.dieInReclaim
    ensures Reachable(t, 6, s)
    ensures var now := STALE_MS + 1;
      s == State(now, Some(LockFile(0, 0)), Some(LockFile(5, now)), [Dead, Dead, OpenLock, OpenLock, StatLock(now), StatLock(now)])
  {
    var now, dead := STALE_MS + 1, Some(LockFile(0, 0));
    s := CrashInBoth(t);
    s := FindStaleReclaim(t, 6, s, 2);
    s := FindStaleReclaim(t, 6, s, 3);
    assert s == State(now, dead, Some(LockFile(1, 0)), [Dead, Dead, RemoveReclaim, RemoveReclaim, OpenLock, OpenLock]);
    s := Step(t, 6, s, Act(2));
    s := TakeReclaim(t, 6, s, 4);
    assert s == State(now, dead, Some(LockFile(4, now)), [Dead, Dead, OpenLock, RemoveReclaim, StatLock(now), OpenLock]);
    s := Step(t, 6, s, Act(3));
    s := TakeReclaim(t, 6, s, 5);
  }

  /** One crash in each section, at any timing: of two reclaimers, the second removes the
      lock that was taken after the first one had cleared the path. */
  lemma CrashInReclaimBreaksExclusion(t: Timing) returns (s: State)
    requires t.dieInReclaim
    ensures Reachable(t, 6, s) && !Exclusive(s)
  {
    var now := STALE_MS + 1;
    s := TwoReclaimers(t);
    s := JudgeStale(t, 6, s, 4);
    s := JudgeStale(t, 6, s, 5);
    s := Step(t, 6, s, Act(4));
    s := Step(t, 6, s, Act(2));
    assert s == State(now, Some(LockFile(2, now)), Some(LockFile(5, now)),
                      [Dead, Dead, Critical(now), OpenLock, CloseReclaim(now), RemoveLock(now)]);
    s := Step(t, 6, s, Act(5));
    s := Step(t, 6, s, Act(3));
    assert s.procs[2].Critical? && s.procs[3].Critical?;
  }

  /** Mutual exclusion, and no release of another's lock, in every interleaving of any number
      of processes with crashes: exactly when a section plus the age-check pause fits the
      stale threshold and no process dies holding the reclaim file. */
  lemma ExclusionExactly(t: Timing)
    ensures (forall n: nat, s :: Reachable(t, n, s) ==> Exclusive(s))
       <==> t.section + t.gap <= STALE_MS && !t.dieInReclaim
  {
    if t.section + t.gap <= STALE_MS && !t.dieInReclaim {
      forall n: nat, s | Reachable(t, n, s)
        ensures Exclusive(s)
      {
        ExclusiveInTime(t, n, s);
      }
    } else if t.section + t.gap > STALE_MS {
      var n, s := SlowAgeCheckBreaksExclusion(t);
    } else {
      var s := CrashInReclaimBreaksExclusion(t);
    }
  }

  /** A crash does not close the gate for good: once the left-behind lock is older than the
      threshold, any process that runs alone gets into the section. */
  lemma StaleLockIsRecovered(t: Timing, s: State, p: nat)
    requires p < |s.procs| && s.procs[p] == OpenLock
    requires s.reclaim.None? && s.lock.Some? && s.clock > s.lock.value.mtime + STALE_MS
    ensures Leads(t, s, seq(7, _ => Act(p)), At(s.(lock := Some(LockFile(p, s.clock))), p, Critical(s.clock)))
  {
    var done := At(s.(lock := Some(LockFile(p, s.clock))), p, Critical(s.clock));
    var s1 := ActOf(s, p);
    var s2 := ActOf(s1, p);
    var s3 := ActOf(s2, p);
    var s4 := ActOf(s3, p);
    var s5 := ActOf(s4, p);
    var s6 := ActOf(s5, p);
    assert ActOf(s6, p) == done;
    var es: seq<Event> := [];
    assert Leads(t, s, es, s);
    es := Extend(t, s, es, s, p);
    es := Extend(t, s, es, s1, p);
    es := Extend(t, s, es, s2, p);
    es := Extend(t, s, es, s3, p);
    es := Extend(t, s, es, s4, p);
    es := Extend(t, s, es, s5, p);
    es := Extend(t, s, es, s6, p);
    assert es == seq(7, _ => Act(p));
  }

  lemma Extend(t: Timing, s: State, es: seq<Event>, s': State, p: nat) returns (es': seq<Event>)
    requires Leads(t, s, es, s') && Enabled(t, s', Act(p))
    ensures es' == es + [Act(p)] && Leads(t, s, es', ActOf(s', p))
  {
    LeadsSnoc(t, s, es, s', Act(p));
    es' := es + [Act(p)];
  }
}
