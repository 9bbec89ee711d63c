/** The Stop-hook wake scheduler: every Stop event is a new process that reads the seen list,
    asks for the next mention, decides, records, and only then prints.  One identity on one
    channel; numbers are whole milliseconds and whole sequence numbers. */
module StopWake {
  import opened Wrappers

  const TTL: int := 30 * 60 * 1000
  const CAPACITY: nat := 64
  const DEBT_MAX_AGE: int := 7 * 24 * 60 * 60 * 1000

  datatype SeenEntry = SeenEntry(seqNo: int, ts: int)

  datatype Skip = NotStop | Continuation | Disabled | NoChannel | NoPending | StaleDebt | AlreadyWoken
  datatype Decision = Skipped(skip: Skip) | Wake(seqNo: int)

  /** stop_hook_active is None when the field is missing or not a boolean. */
  datatype Payload = Payload(isStop: bool, stopHookActive: Option<bool>)
  datatype Pending = Pending(seqNo: int, firstWakeTs: Option<int>)

  /** liveCodexStopWakeSeen */
  function Live(entries: seq<SeenEntry>, now: int): seq<int> {
    if entries == [] then []
    else (if now - entries[0].ts < TTL then [entries[0].seqNo] else []) + Live(entries[1..], now)
  }

  function Max(a: int, b: int): int {
    if a < b then b else a
  }

  function QuerySince(cursor: int, live: seq<int>): int {
    if live == [] then cursor else Max(QuerySince(cursor, live[..|live| - 1]), live[|live| - 1])
  }

  function Without(entries: seq<SeenEntry>, seqNo: int): seq<SeenEntry> {
    if entries == [] then []
    else (if entries[0].seqNo != seqNo then [entries[0]] else []) + Without(entries[1..], seqNo)
  }

  /** appendCodexStopWakeSeen: the newest entries are kept. */
  function Append(entries: seq<SeenEntry>, seqNo: int, now: int): seq<SeenEntry> {
    var next := Without(entries, seqNo) + [SeenEntry(seqNo, now)];
    if |next| <= CAPACITY then next else next[|next| - CAPACITY..]
  }

  /** codexStopWakeGate: None lets the hook go on. */
  function Gate(payload: Payload, enabled: bool, channel: Option<string>): Option<Skip> {
    if !payload.isStop then Some(NotStop)
    else if payload.stopHookActive != Some(false) then Some(Continuation)
    else if !enabled then Some(Disabled)
    else if channel.None? || channel.value == "" then Some(NoChannel)
    else None
  }

  /** decideCodexStopWake */
  function Decide(payload: Payload, enabled: bool, channel: Option<string>, pending: Option<Pending>, cursor: int,
                  seen: seq<int>, now: int): Decision {
    var gate := Gate(payload, enabled, channel);
    if gate.Some? then Skipped(gate.value)
    else if pending.None? || pending.value.seqNo <= 0 || pending.value.seqNo <= cursor then Skipped(NoPending)
    else if pending.value.firstWakeTs.Some? && now - pending.value.firstWakeTs.value > DEBT_MAX_AGE then Skipped(StaleDebt)
    else if pending.value.seqNo in seen then Skipped(AlreadyWoken)
    else Wake(pending.value.seqNo)
  }

  /** Where a hook process may die or give up. */
  datatype Fate = Completes | DiesBeforeRecord | DiesBeforeEmit

  /** One run of the hook.  `mentions` are the unhandled mentions the server knows, ascending;
      `answers` is false when the query fails.  `recordable` says there is a seen file and the
      prompt fits. */
  datatype Stop = Stop(
    payload: Payload, enabled: bool, channel: Option<string>,
    cursor: int, debt: Option<Pending>, mentions: seq<int>, answers: bool, recordable: bool,
    started: int, asked: int, decided: int, recorded: int, fate: Fate)

  /** What a hook run left behind: a recorded mention, and whether its prompt was printed. */
  datatype Mark = Mark(seqNo: int, started: int, at: int, shown: bool)

  /** The server's answer: the least mention above since. */
  function NextMention(mentions: seq<int>, since: int): Option<int> {
    if mentions == [] then None
    else if mentions[0] > since then Some(mentions[0])
    else NextMention(mentions[1..], since)
  }

  function Since(entries: seq<SeenEntry>, stop: Stop): int {
    QuerySince(stop.cursor, Live(entries, stop.started))
  }

  /** A local debt above since is used; otherwise the server is asked. */
  function PendingOf(stop: Stop, since: int): Option<Pending> {
    if stop.debt.Some? && stop.debt.value.seqNo > since then stop.debt
    else
      var next := if stop.answers then NextMention(stop.mentions, since) else None;
      if next.None? then None else Some(Pending(next.value, Some(stop.asked)))
  }

  /** What one run of the hook records. */
  function MarkOf(entries: seq<SeenEntry>, stop: Stop): Option<Mark> {
    if Gate(stop.payload, stop.enabled, stop.channel).Some? then None
    else
      var decision := Decide(stop.payload, true, stop.channel, PendingOf(stop, Since(entries, stop)), stop.cursor,
                             Live(entries, stop.started), stop.decided);
      if decision.Skipped? || !stop.recordable || stop.fate.DiesBeforeRecord? then None
      else Some(Mark(decision.seqNo, stop.started, stop.recorded, stop.fate.Completes?))
  }

  function After(entries: seq<SeenEntry>, mark: Option<Mark>): seq<SeenEntry> {
    if mark.None? then entries else Append(entries, mark.value.seqNo, mark.value.at)
  }

  /** The seen file and everything recorded so far. */
  datatype State = State(entries: seq<SeenEntry>, log: seq<Mark>)

  function Step(s: State, stop: Stop): State {
    var mark := MarkOf(s.entries, stop);
    State(After(s.entries, mark), if mark.None? then s.log else s.log + [mark.value])
  }

  function Run(s: State, stops: seq<Stop>): State
    decreases |stops|
  {
    if stops == [] then s else Step(Run(s, stops[..|stops| - 1]), stops[|stops| - 1])
  }

  // ---- The hook as it runs ----

  /** codexStopWakeQuerySince */
  method ComputeSince(cursor: int, live: seq<int>) returns (since: int)
    ensures since == QuerySince(cursor, live)
  {
    since := cursor;
    for i := 0 to |live|
      invariant since == QuerySince(cursor, live[..i])
    {
      assert live[..i + 1][..i] == live[..i];
      if live[i] > since {
        since := live[i];
      }
    }
    assert live[..|live|] == live;
  }

  class SeenFile {
    var entries: seq<SeenEntry>

    constructor (stored: seq<SeenEntry>)
      ensures entries == stored
    {
      entries := stored;
    }

    /** handleCodexStopRecord: records before it prints, and prints at most the pointer. */
    method HandleStop(stop: Stop) returns (printed: Option<int>)
      modifies this
      ensures entries == After(old(entries), MarkOf(old(entries), stop))
      ensures printed == (if MarkOf(old(entries), stop).Some? && stop.fate.Completes? then Some(MarkOf(old(entries), stop).value.seqNo) else None)
    {
      if Gate(stop.payload, stop.enabled, stop.channel).Some? {
        return None;
      }
      var seen := Live(entries, stop.started);
      var since := ComputeSince(stop.cursor, seen);
      var pending := None;
      if stop.debt.Some? && stop.debt.value.seqNo > since {
        pending := stop.debt;
      }
      if pending.None? {
        var next := if stop.answers then NextMention(stop.mentions, since) else None;
        if next.Some? {
          pending := Some(Pending(next.value, Some(stop.asked)));
        }
      }
      var decision := Decide(stop.payload, true, stop.channel, pending, stop.cursor, seen, stop.decided);
      if decision.Skipped? || !stop.recordable || stop.fate.DiesBeforeRecord? {
        return None;
      }
      entries := Append(entries, decision.seqNo, stop.recorded);
      if stop.fate.DiesBeforeEmit? {
        return None;
      }
      return Some(decision.seqNo);
    }
  }

  // ---- Since and the list ----

  lemma {:induction false} LiveIff(entries: seq<SeenEntry>, now: int, q: int)
    ensures q in Live(entries, now) <==> exists i | 0 <= i < |entries| :: entries[i].seqNo == q && now - entries[i].ts < TTL
  {
    if entries != [] {
      LiveIff(entries[1..], now, q);
      assert forall i | 0 <= i < |entries| - 1 :: entries[1..][i] == entries[i + 1];
      if exists i | 0 <= i < |entries| :: entries[i].seqNo == q && now - entries[i].ts < TTL {
        var i :| 0 <= i < |entries| && entries[i].seqNo == q && now - entries[i].ts < TTL;
        assert i == 0 || entries[1..][i - 1] == entries[i];
      }
    }
  }

  /** The query starts at the larger of the cursor and the live mentions. */
  lemma {:induction false} SinceIsMax(cursor: int, live: seq<int>)
    ensures QuerySince(cursor, live) >= cursor && forall q | q in live :: q <= QuerySince(cursor, live)
    ensures QuerySince(cursor, live) == cursor || QuerySince(cursor, live) in live
    decreases |live|
  {
    if live != [] {
      SinceIsMax(cursor, live[..|live| - 1]);
      assert live == live[..|live| - 1] + [live[|live| - 1]];
    }
  }

  lemma {:induction false} WithoutFrom(entries: seq<SeenEntry>, seqNo: int)
    ensures forall e | e in Without(entries, seqNo) :: e in entries
  {
    if entries != [] {
      WithoutFrom(entries[1..], seqNo);
    }
  }

  /** Recording puts the mention last, whatever is cut off, and adds nothing else. */
  lemma AppendIs(entries: seq<SeenEntry>, seqNo: int, now: int)
    ensures var next := Append(entries, seqNo, now);
            && 0 < |next| <= CAPACITY && next[|next| - 1] == SeenEntry(seqNo, now)
            && forall e | e in next :: e == SeenEntry(seqNo, now) || e in entries
  {
    WithoutFrom(entries, seqNo);
  }

  /** The other entries are kept, each as often as it was there. */
  lemma {:induction false} WithoutKeeps(entries: seq<SeenEntry>, seqNo: int, e: SeenEntry)
    ensures multiset(Without(entries, seqNo))[e] == if e.seqNo == seqNo then 0 else multiset(entries)[e]
  {
    if entries != [] {
      WithoutKeeps(entries[1..], seqNo, e);
      assert entries == [entries[0]] + entries[1..];
    }
  }

  /** Recording a mention keeps every other entry while there is room, and otherwise drops the
      oldest of them. */
  lemma AppendKeeps(entries: seq<SeenEntry>, seqNo: int, now: int) returns (dropped: seq<SeenEntry>)
    ensures var next := Append(entries, seqNo, now);
            && |next| > 0 && next[|next| - 1] == SeenEntry(seqNo, now)
            && (forall e: SeenEntry | e.seqNo != seqNo :: multiset(dropped + next[..|next| - 1])[e] == multiset(entries)[e])
            && (forall e | e in dropped + next[..|next| - 1] :: e.seqNo != seqNo)
            && (dropped != [] ==> |next| == 64)
  {
    var others, next := Without(entries, seqNo), Append(entries, seqNo, now);
    dropped := others[..|others| + 1 - |next|];
    assert dropped + next[..|next| - 1] == others;
    forall e: SeenEntry
      ensures multiset(others)[e] == if e.seqNo == seqNo then 0 else multiset(entries)[e]
    {
      WithoutKeeps(entries, seqNo, e);
    }
  }

  /** When the hook wakes the session, whatever it was given. */
  lemma WakesExactly(payload: Payload, enabled: bool, channel: Option<string>, pending: Option<Pending>, cursor: int, seen: seq<int>, now: int, q: int)
    ensures Decide(payload, enabled, channel, pending, cursor, seen, now) == Wake(q) <==>
              && payload.isStop && payload.stopHookActive == Some(false) && enabled && channel.Some? && |channel.value| > 0
              && pending.Some? && pending.value.seqNo == q && q > 0 && q > cursor && q !in seen
              && (pending.value.firstWakeTs.None? || now <= pending.value.firstWakeTs.value + 604_800_000)
  {}

  /** A hook that dies before it records leaves no trace; one that dies after it, no prompt. */
  lemma DeathsTell(s: State, stop: Stop)
    ensures stop.fate.DiesBeforeRecord? ==> Step(s, stop) == s
    ensures stop.fate.DiesBeforeEmit? && Step(s, stop).log != s.log ==> !Step(s, stop).log[|s.log|].shown
    ensures stop.fate.Completes? && Step(s, stop).log != s.log ==> Step(s, stop).log[|s.log|].shown
  {}

  lemma {:induction false} NextMentionAbove(mentions: seq<int>, since: int)
    ensures var next := NextMention(mentions, since); next.Some? ==> next.value > since && next.value in mentions
  {
    if mentions != [] {
      NextMentionAbove(mentions[1..], since);
    }
  }

  /** Whatever is recorded lies above the cursor and above every live entry, is a debt or a
      mention, and is recorded on a Stop that does not continue an earlier one: a user turn
      is prolonged at most once. */
  lemma MarkAbove(entries: seq<SeenEntry>, stop: Stop)
    requires MarkOf(entries, stop).Some?
    ensures var q := MarkOf(entries, stop).value.seqNo;
            && q > Since(entries, stop) && q > stop.cursor && q !in Live(entries, stop.started)
            && (q in stop.mentions || (stop.debt.Some? && stop.debt.value.seqNo == q))
    ensures stop.payload.isStop && stop.payload.stopHookActive == Some(false) && stop.enabled && stop.channel.Some? && stop.recordable
  {
    NextMentionAbove(stop.mentions, Since(entries, stop));
    SinceIsMax(stop.cursor, Live(entries, stop.started));
  }

  // ---- No repetition within the TTL ----

  predicate InOrder(stop: Stop) {
    stop.started <= stop.asked <= stop.decided <= stop.recorded
  }

  /** Clocks do not go back, inside a run and from run to run. */
  predicate Clocked(stops: seq<Stop>) {
    && (forall i | 0 <= i < |stops| :: InOrder(stops[i]))
    && (forall i, j | 0 <= i < j < |stops| :: stops[i].recorded <= stops[j].started)
  }

  /** Any two marks within a TTL of each other ascend. */
  predicate Ascends(log: seq<Mark>) {
    forall i, j | 0 <= i < j < |log| :: log[j].started - log[i].at < TTL ==> log[i].seqNo < log[j].seqNo
  }

  predicate LogInv(s: State, clock: int) {
    && Ascends(s.log)
    && (forall i, j | 0 <= i <= j < |s.log| :: s.log[i].started <= s.log[i].at <= s.log[j].at <= clock)
    && (s.log != [] ==>
          && s.entries != []
          && s.entries[|s.entries| - 1] == SeenEntry(s.log[|s.log| - 1].seqNo, s.log[|s.log| - 1].at))
  }

  /** A new mark above the last one, if that is recent, keeps the log ascending. */
  lemma AscendsSnoc(log: seq<Mark>, m: Mark, clock: int)
    requires Ascends(log) && clock <= m.started <= m.at
    requires forall i, j | 0 <= i <= j < |log| :: log[i].started <= log[i].at <= log[j].at <= clock
    requires log != [] && m.started - log[|log| - 1].at < TTL ==> log[|log| - 1].seqNo < m.seqNo
    ensures Ascends(log + [m])
    ensures forall i, j | 0 <= i <= j < |log + [m]| :: (log + [m])[i].started <= (log + [m])[i].at <= (log + [m])[j].at <= m.at
  {}

  lemma StepKeepsLog(s: State, stop: Stop, clock: int)
    requires LogInv(s, clock) && clock <= stop.started && InOrder(stop)
    ensures LogInv(Step(s, stop), stop.recorded)
  {
    hide MarkOf, Since, Ascends;
    var mark := MarkOf(s.entries, stop);
    if mark.Some? {
      MarkTimes(s.entries, stop);
      if s.log != [] && stop.started - s.log[|s.log| - 1].at < TTL {
        LastLive(s.entries, stop);
        MarkAbove(s.entries, stop);
      }
      AscendsSnoc(s.log, mark.value, clock);
      MarkLogged(s, mark.value, clock);
    }
  }

  lemma MarkTimes(entries: seq<SeenEntry>, stop: Stop)
    requires MarkOf(entries, stop).Some?
    ensures MarkOf(entries, stop).value.started == stop.started && MarkOf(entries, stop).value.at == stop.recorded
  {}

  lemma MarkLogged(s: State, m: Mark, clock: int)
    requires Ascends(s.log + [m])
    requires forall i, j | 0 <= i <= j < |s.log + [m]| :: (s.log + [m])[i].started <= (s.log + [m])[i].at <= (s.log + [m])[j].at <= m.at
    ensures LogInv(State(Append(s.entries, m.seqNo, m.at), s.log + [m]), m.at)
  {}

  lemma LastLive(entries: seq<SeenEntry>, stop: Stop)
    requires entries != [] && stop.started - entries[|entries| - 1].ts < TTL
    ensures entries[|entries| - 1].seqNo <= Since(entries, stop)
  {
    LiveIff(entries, stop.started, entries[|entries| - 1].seqNo);
    SinceIsMax(stop.cursor, Live(entries, stop.started));
  }

  /** No mention is injected twice within the TTL, and inside one TTL the injected mentions
      ascend: from any stored list, over any run, however often the list was cut to capacity,
      whatever the cursors, the debts and the server say and wherever processes die. */
  lemma {:induction false} NoRepeatWithinTtl(stored: seq<SeenEntry>, stops: seq<Stop>)
    requires Clocked(stops)
    ensures Ascends(Run(State(stored, []), stops).log)
    ensures LogInv(Run(State(stored, []), stops), if stops == [] then 0 else stops[|stops| - 1].recorded)
    decreases |stops|
  {
    if stops != [] {
      var init, last := stops[..|stops| - 1], stops[|stops| - 1];
      NoRepeatWithinTtl(stored, init);
      if init == [] {
        StepKeepsLog(State(stored, []), last, last.started);
      } else {
        assert init[|init| - 1] == stops[|stops| - 2];
        StepKeepsLog(Run(State(stored, []), init), last, init[|init| - 1].recorded);
      }
    }
  }

  // ---- Reaching every pending mention ----

  /** A Stop of the main session with everything in place to wake it. */
  predicate Effective(stop: Stop) {
    && Gate(stop.payload, stop.enabled, stop.channel).None? && stop.recordable && stop.answers && stop.fate.Completes?
    && InOrder(stop) && stop.decided - stop.asked <= DEBT_MAX_AGE
    && stop.cursor >= 0
  }

  predicate Stale(debt: Pending, now: int) {
    debt.firstWakeTs.Some? && now - debt.firstWakeTs.value > DEBT_MAX_AGE
  }

  /** With a mention pending, the hook injects the least one above since, unless a local debt
      above since is another mention or too old: then it injects that one, or nothing. */
  lemma InjectsLeastExactly(entries: seq<SeenEntry>, stop: Stop)
    requires Effective(stop) && NextMention(stop.mentions, Since(entries, stop)).Some?
    ensures var since := Since(entries, stop);
            var least := NextMention(stop.mentions, since).value;
            MarkOf(entries, stop) == Some(Mark(least, stop.started, stop.recorded, true)) <==>
              !(stop.debt.Some? && stop.debt.value.seqNo > since && (stop.debt.value.seqNo != least || Stale(stop.debt.value, stop.decided)))
  {
    NextMentionAbove(stop.mentions, Since(entries, stop));
    SinceIsMax(stop.cursor, Live(entries, stop.started));
  }

  /** A debt above since that has grown too old silences the hook for good: nothing is
      recorded on any later Stop that still finds it, whatever mentions wait on the server. */
  lemma {:induction false} StaleDebtStarves(s: State, stops: seq<Stop>, debt: Pending, cursor: int)
    requires Clocked(stops)
    requires forall stop | stop in stops :: stop.debt == Some(debt) && stop.cursor == cursor
    requires stops != [] ==> Stale(debt, stops[0].decided) && debt.seqNo > Since(s.entries, stops[0])
    ensures Run(s, stops) == s
    decreases |stops|
  {
    if stops != [] {
      var init, last := stops[..|stops| - 1], stops[|stops| - 1];
      StaleDebtStarves(s, init, debt, cursor);
      SinceFalls(s.entries, stops[0], last);
      assert MarkOf(s.entries, last).None?;
    }
  }

  /** Mention 9 waits; mention 5 is a debt first woken for at time 0, a week and k ms ago. */
  function Starved(k: nat): Stop {
    var t := DEBT_MAX_AGE + 1 + k;
    Stop(Payload(true, Some(false)), true, Some("c"), 0, Some(Pending(5, Some(0))), [9], true, true, t, t, t, t, Completes)
  }

  /** However many such Stops come, each with everything else in place, none wakes the session. */
  lemma StarvedForever(n: nat)
    ensures forall k: nat :: Effective(Starved(k)) && NextMention(Starved(k).mentions, Starved(k).cursor) == Some(9)
    ensures Run(State([], []), seq(n, k requires 0 <= k < n => Starved(k))) == State([], [])
  {
    var stops := seq(n, k requires 0 <= k < n => Starved(k));
    StaleDebtStarves(State([], []), stops, Pending(5, Some(0)), 0);
  }

  /** With the same list and cursor, since only falls as entries expire. */
  lemma SinceFalls(entries: seq<SeenEntry>, early: Stop, late: Stop)
    requires early.cursor == late.cursor && early.started <= late.started
    ensures Since(entries, late) <= Since(entries, early)
  {
    var live := Live(entries, late.started);
    SinceIsMax(late.cursor, live);
    SinceIsMax(early.cursor, Live(entries, early.started));
    if Since(entries, late) != late.cursor {
      LiveIff(entries, late.started, Since(entries, late));
      LiveIff(entries, early.started, Since(entries, late));
    }
  }

  predicate Ascending(q: seq<int>) {
    forall i, j | 0 <= i < j < |q| :: q[i] < q[j]
  }

  /** The mentions above since. */
  function Above(mentions: seq<int>, since: int): seq<int> {
    if mentions == [] then []
    else if mentions[0] > since then mentions
    else Above(mentions[1..], since)
  }

  function Seqs(log: seq<Mark>): seq<int> {
    seq(|log|, i requires 0 <= i < |log| => log[i].seqNo)
  }

  lemma {:induction false} NextIsFirst(mentions: seq<int>, since: int)
    ensures NextMention(mentions, since) == (if Above(mentions, since) == [] then None else Some(Above(mentions, since)[0]))
  {
    if mentions != [] && mentions[0] <= since {
      NextIsFirst(mentions[1..], since);
    }
  }

  lemma {:induction false} AboveAscends(mentions: seq<int>, since: int)
    requires Ascending(mentions)
    ensures Ascending(Above(mentions, since)) && forall q | q in Above(mentions, since) :: q > since
  {
    if mentions != [] && mentions[0] <= since {
      AboveAscends(mentions[1..], since);
    }
  }

  /** Querying above the k-th mention gives the rest of the list. */
  lemma {:induction false} AboveTwice(mentions: seq<int>, since: int, k: nat)
    requires Ascending(mentions) && k < |Above(mentions, since)|
    ensures Above(mentions, Above(mentions, since)[k]) == Above(mentions, since)[k + 1..]
    decreases |mentions|
  {
    AboveAscends(mentions, since);
    var q := Above(mentions, since)[k];
    assert q in Above(mentions, since);
    if mentions[0] <= since {
      AboveTwice(mentions[1..], since, k);
    } else {
      Skips(mentions, k);
    }
  }

  lemma {:induction false} Skips(mentions: seq<int>, k: nat)
    requires Ascending(mentions) && k < |mentions|
    ensures Above(mentions, mentions[k]) == mentions[k + 1..]
    decreases k
  {
    if k > 0 {
      Skips(mentions[1..], k - 1);
      assert mentions[1..][k - 1..][1..] == mentions[k + 1..];
    } else if |mentions| > 1 {
      assert mentions[1..][0] > mentions[0];
    }
  }

  /** One cursor, a list of mentions that only grows, no debt above the cursor, every Stop
      effective. */
  predicate Steady(stops: seq<Stop>, cursor: int) {
    && Clocked(stops)
    && (forall i | 0 <= i < |stops| ::
          && Effective(stops[i]) && stops[i].cursor == cursor && Ascending(stops[i].mentions)
          && (stops[i].debt.None? || stops[i].debt.value.seqNo <= cursor))
    && (forall i, j | 0 <= i < j < |stops| :: stops[i].mentions <= stops[j].mentions)
  }

  /** No entry expires between two moments. */
  predicate NoneExpires(entries: seq<SeenEntry>, from: int, until: int) {
    forall e | e in entries :: from - e.ts < TTL ==> until - e.ts < TTL
  }

  /** What the stored list means for the query after a run has recorded its log. */
  predicate Covers(entries: seq<SeenEntry>, stored: seq<SeenEntry>, log: seq<Mark>) {
    && (log == [] ==> entries == stored)
    && (forall e | e in entries :: e in stored || exists m | m in log :: e == SeenEntry(m.seqNo, m.at))
    && (log != [] ==> entries != [] && entries[|entries| - 1] == SeenEntry(log[|log| - 1].seqNo, log[|log| - 1].at))
  }

  /** After a run, since is the last recorded mention. */
  lemma SinceAfter(stored: seq<SeenEntry>, s: State, first: Stop, stop: Stop)
    requires Covers(s.entries, stored, s.log) && s.log != [] && first.started <= stop.started && first.cursor == stop.cursor
    requires forall m | m in s.log :: stop.started - m.at < TTL && Since(stored, first) < m.seqNo <= s.log[|s.log| - 1].seqNo
    ensures Since(s.entries, stop) == s.log[|s.log| - 1].seqNo
  {
    var last, since := s.log[|s.log| - 1], Since(s.entries, stop);
    SinceIsMax(stop.cursor, Live(s.entries, stop.started));
    SinceIsMax(first.cursor, Live(stored, first.started));
    LastLive(s.entries, stop);
    if since != stop.cursor {
      LiveIff(s.entries, stop.started, since);
      var i :| 0 <= i < |s.entries| && s.entries[i].seqNo == since && stop.started - s.entries[i].ts < TTL;
      if s.entries[i] in stored {
        var j :| 0 <= j < |stored| && stored[j] == s.entries[i];
        LiveIff(stored, first.started, since);
      }
    }
  }

  lemma {:induction false} AboveGrows(a: seq<int>, b: seq<int>, since: int)
    requires a <= b
    ensures Above(a, since) <= Above(b, since)
  {
    if a != [] && a[0] <= since {
      AboveGrows(a[1..], b[1..], since);
    }
  }

  /** Everything due from the first Stop on: the mentions above its since. */
  function Due(stored: seq<SeenEntry>, stops: seq<Stop>): seq<int>
    requires stops != []
  {
    Above(stops[|stops| - 1].mentions, Since(stored, stops[0]))
  }

  /** The log is the first part of what is due, all of it recent and printed. */
  predicate Reached(stored: seq<SeenEntry>, stops: seq<Stop>, s: State)
    requires stops != []
  {
    && Covers(s.entries, stored, s.log)
    && |s.log| <= |Due(stored, stops)| && Seqs(s.log) == Due(stored, stops)[..|s.log|]
    && (|s.log| == |stops| || |s.log| >= |Above(stops[0].mentions, Since(stored, stops[0]))|)
    && (forall m | m in s.log :: m.shown && stops[0].started <= m.at)
  }

  /** The mentions of a log are the first of what is due. */
  lemma LogFirst(log: seq<Mark>, due: seq<int>)
    requires |log| <= |due| && Seqs(log) == due[..|log|]
    ensures forall i | 0 <= i < |log| :: log[i].seqNo == due[i]
  {
    forall i | 0 <= i < |log| ensures log[i].seqNo == due[i] {
      assert log[i].seqNo == Seqs(log)[i] == due[..|log|][i];
    }
  }

  /** After some of what is due, the server's answer to the next query is the next of it. */
  lemma AnswerDue(stored: seq<SeenEntry>, s: State, first: Stop, stop: Stop, due: seq<int>)
    requires Ascending(stop.mentions) && first.started <= stop.started && first.cursor == stop.cursor && NoneExpires(stored, first.started, stop.started)
    requires due == Above(stop.mentions, Since(stored, first))
    requires Covers(s.entries, stored, s.log) && |s.log| <= |due| && Seqs(s.log) == due[..|s.log|]
    requires forall m | m in s.log :: stop.started - m.at < TTL
    ensures NextMention(stop.mentions, Since(s.entries, stop)) == if |s.log| < |due| then Some(due[|s.log|]) else None
  {
    hide Since, Above, Ascending, NextMention;
    var n := |s.log|;
    if n == 0 {
      SinceStays(stored, first, stop);
      NextIsFirst(stop.mentions, Since(stored, stop));
    } else {
      LogFirst(s.log, due);
      AboveAscends(stop.mentions, Since(stored, first));
      LogAscends(s.log, due, Since(stored, first));
      SinceAfter(stored, s, first, stop);
      AboveTwice(stop.mentions, Since(stored, first), n - 1);
      NextIsFirst(stop.mentions, due[n - 1]);
    }
  }

  lemma LogAscends(log: seq<Mark>, due: seq<int>, since: int)
    requires log != [] && |log| <= |due| && Ascending(due) && forall i | 0 <= i < |log| :: log[i].seqNo == due[i]
    requires forall q | q in due :: q > since
    ensures forall m | m in log :: since < m.seqNo <= log[|log| - 1].seqNo
  {
    forall m | m in log ensures since < m.seqNo <= log[|log| - 1].seqNo {
      var i :| 0 <= i < |log| && log[i] == m;
      assert due[i] in due;
    }
  }

  /** What an effective Stop without a debt above its cursor records. */
  lemma RecordsAnswer(entries: seq<SeenEntry>, stop: Stop)
    requires Effective(stop) && (stop.debt.None? || stop.debt.value.seqNo <= stop.cursor)
    ensures var next := NextMention(stop.mentions, Since(entries, stop));
            MarkOf(entries, stop) == if next.Some? then Some(Mark(next.value, stop.started, stop.recorded, true)) else None
  {
    SinceIsMax(stop.cursor, Live(entries, stop.started));
    if NextMention(stop.mentions, Since(entries, stop)).Some? {
      InjectsLeastExactly(entries, stop);
    }
  }

  /** One more Stop records exactly the next mention due, if there is one. */
  lemma NextDue(stored: seq<SeenEntry>, s: State, first: Stop, stop: Stop, due: seq<int>)
    requires Effective(stop) && (stop.debt.None? || stop.debt.value.seqNo <= stop.cursor) && Ascending(stop.mentions)
    requires first.started <= stop.started && first.cursor == stop.cursor && NoneExpires(stored, first.started, stop.started)
    requires due == Above(stop.mentions, Since(stored, first))
    requires Covers(s.entries, stored, s.log) && |s.log| <= |due| && Seqs(s.log) == due[..|s.log|]
    requires forall m | m in s.log :: stop.started - m.at < TTL
    ensures MarkOf(s.entries, stop) ==
              if |s.log| < |due| then Some(Mark(due[|s.log|], stop.started, stop.recorded, true)) else None
  {
    hide *;
    AnswerDue(stored, s, first, stop, due);
    RecordsAnswer(s.entries, stop);
  }

  lemma SinceStays(stored: seq<SeenEntry>, first: Stop, stop: Stop)
    requires first.started <= stop.started && first.cursor == stop.cursor && NoneExpires(stored, first.started, stop.started)
    ensures Since(stored, stop) == Since(stored, first)
  {
    SinceFalls(stored, first, stop);
    SinceIsMax(first.cursor, Live(stored, first.started));
    SinceIsMax(stop.cursor, Live(stored, stop.started));
    if Since(stored, first) != first.cursor {
      LiveIff(stored, first.started, Since(stored, first));
      var i :| 0 <= i < |stored| && stored[i].seqNo == Since(stored, first) && first.started - stored[i].ts < TTL;
      assert stored[i] in stored;
      LiveIff(stored, stop.started, Since(stored, first));
    }
  }

  lemma CoversNext(entries: seq<SeenEntry>, stored: seq<SeenEntry>, log: seq<Mark>, m: Mark)
    requires Covers(entries, stored, log)
    ensures Covers(Append(entries, m.seqNo, m.at), stored, log + [m])
  {
    AppendIs(entries, m.seqNo, m.at);
    forall e | e in Append(entries, m.seqNo, m.at) && e !in stored
      ensures exists x | x in log + [m] :: e == SeenEntry(x.seqNo, x.at)
    {
      if e != SeenEntry(m.seqNo, m.at) {
        var x :| x in log && e == SeenEntry(x.seqNo, x.at);
        assert x in log + [m];
      } else {
        assert m in log + [m];
      }
    }
  }

  lemma SteadyInit(stops: seq<Stop>, cursor: int)
    requires stops != [] && Steady(stops, cursor)
    ensures Steady(stops[..|stops| - 1], cursor)
    ensures forall i | 0 <= i < |stops| - 1 ::
              stops[i].mentions <= stops[|stops| - 1].mentions && stops[i].started <= stops[i].recorded <= stops[|stops| - 1].started
  {}

  lemma ReachedNext(stored: seq<SeenEntry>, stops: seq<Stop>, before: State, after: State)
    requires stops != []
    requires var due := Due(stored, stops); var n := |before.log|; var stop := stops[|stops| - 1];
             && Covers(before.entries, stored, before.log)
             && n <= |due| && Seqs(before.log) == due[..n]
             && (n == |stops| - 1 || n >= |Above(stops[0].mentions, Since(stored, stops[0]))|)
             && (forall m | m in before.log :: m.shown && stops[0].started <= m.at)
             && stops[0].started <= stop.recorded
             && (if n < |due| then
                   var m := Mark(due[n], stop.started, stop.recorded, true);
                   after == State(Append(before.entries, m.seqNo, m.at), before.log + [m])
                 else after == before)
             && |due| >= |Above(stops[0].mentions, Since(stored, stops[0]))|
    ensures Reached(stored, stops, after)
  {
    hide Since, Append, Above, Covers;
    var due, n, stop := Due(stored, stops), |before.log|, stops[|stops| - 1];
    if n < |due| {
      var m := Mark(due[n], stop.started, stop.recorded, true);
      CoversNext(before.entries, stored, before.log, m);
      assert Seqs(before.log + [m]) == Seqs(before.log) + [m.seqNo];
    }
  }

  /** While the cursor stays put and one TTL window lasts, each Stop injects the next mention
      due, so no mention at the head of the queue can hide the ones behind it: after as many
      Stops as there were mentions, all of them have been injected, each once, in order. */
  lemma {:induction false} EveryMentionReached(stored: seq<SeenEntry>, stops: seq<Stop>, cursor: int)
    requires stops != [] && Steady(stops, cursor)
    requires stops[|stops| - 1].recorded - stops[0].started < TTL
    requires NoneExpires(stored, stops[0].started, stops[|stops| - 1].started)
    ensures Reached(stored, stops, Run(State(stored, []), stops))
    decreases |stops|
  {
    hide MarkOf, Since, Append, Above, Covers, Steady, Effective;
    var first, stop, init := stops[0], stops[|stops| - 1], stops[..|stops| - 1];
    var before := Run(State(stored, []), init);
    var due := Due(stored, stops);
    SteadyInit(stops, cursor);
    LastOf(stops, cursor);
    AboveGrows(first.mentions, stop.mentions, Since(stored, first));
    if init != [] {
      assert init[|init| - 1] == stops[|stops| - 2] && init[0] == first;
      EveryMentionReached(stored, init, cursor);
      AboveGrows(init[|init| - 1].mentions, stop.mentions, Since(stored, first));
    } else {
      StartsCovered(stored);
    }
    NextDue(stored, before, first, stop, due);
    ReachedNext(stored, stops, before, Run(State(stored, []), stops));
  }

  lemma StartsCovered(stored: seq<SeenEntry>)
    ensures Covers(stored, stored, [])
  {}

  lemma LastOf(stops: seq<Stop>, cursor: int)
    requires stops != [] && Steady(stops, cursor)
    ensures var first, stop := stops[0], stops[|stops| - 1];
            && Effective(stop) && (stop.debt.None? || stop.debt.value.seqNo <= stop.cursor) && Ascending(stop.mentions)
            && first.started <= stop.started <= stop.recorded && first.cursor == stop.cursor == cursor
            && first.mentions <= stop.mentions
  {}
}
