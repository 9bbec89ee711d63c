/** The decision rules of the Claude Cross-session gate: what one hook process, holding
    consume.lock, does with the persisted state.  JSON and text extraction is replaced by its
    result (`Response`); everything from there on follows the source branch by branch. */
module GateRules {
  import opened Wrappers

  const STATE_TTL_MS := 300_000
  const PERMIT_TTL_MS := 30_000
  const CLOCK_SKEW_MS := 5_000
  const MAX_CANDIDATES := 64
  const MAX_MESSAGE_BYTES := 512

  datatype Candidate = Candidate(agent: string, displayName: string, ref: string)
  datatype Listing = Listing(candidate: Candidate, sendTo: string)
  datatype Permit = Permit(listing: Listing, expiresAt: int)
  datatype Kind = Peers | ListAgents | PeerCheck | SendMessage
  datatype Pending = Pending(kind: Kind, id: string)

  datatype GateState = GateState(
    updatedAt: int,
    candidates: seq<Candidate>,
    listings: seq<Listing>,
    permit: Option<Permit>,
    pending: Option<Pending>,
    barrier: Option<int>)

  function Empty(now: int): GateState {
    GateState(now, [], [], None, None, None)
  }

  /** What the extraction finds in a tool response: the valid candidate rows of a peers result
      in traversal order, the unique local address of each display name in a ListAgents
      result, and the valid listings confirmed by a peer check. */
  datatype Response = Response(rows: seq<Candidate>, addresses: map<string, string>, confirmed: seq<Listing>)

  /** One member of a tool batch; `kind` is None for any tool the gate does not track. */
  datatype Call = Call(kind: Option<Kind>, id: string, response: Response)

  datatype Tool = Exact(kind: Kind) | LookalikeSend | OtherTool

  /** `message` is the UTF-8 length of a string message. */
  datatype SendInput = SendInput(to: Option<string>, recipient: Option<string>, message: Option<nat>)

  /** A hook invocation.  `main` is false for a subagent; an id or session that is not a valid
      one is None, and so is a `tool_calls` that is not an array. */
  datatype Hook =
    | SessionStart(main: bool, session: Option<string>)
    | PreToolUse(main: bool, session: Option<string>, tool: Tool, id: Option<string>, input: SendInput)
    | PostToolBatch(main: bool, session: Option<string>, calls: Option<seq<Call>>)

  // ---- Addresses ----

  predicate Alnum(c: char) {
    'a' <= c <= 'z' || 'A' <= c <= 'Z' || '0' <= c <= '9'
  }

  predicate NameChar(c: char) {
    Alnum(c) || c == '_' || c == '-'
  }

  /** apcs-<1 to 46 name characters>-<12 lower-case hex digits> */
  predicate GeneratedAddress(a: string) {
    && 19 <= |a| <= 64
    && a[..5] == "apcs-"
    && Alnum(a[5])
    && (forall i | 6 <= i < |a| - 13 :: NameChar(a[i]))
    && a[|a| - 13] == '-'
    && (forall i | |a| - 12 <= i < |a| :: '0' <= a[i] <= '9' || 'a' <= a[i] <= 'f')
  }

  /** A complete generated address occurs in s, not as part of a longer name. */
  predicate ContainsAddress(s: string) {
    exists i, j | 0 <= i < j <= |s| ::
      && GeneratedAddress(s[i..j])
      && (i == 0 || !NameChar(s[i - 1]))
      && (j == |s| || !NameChar(s[j]))
  }

  function SendTarget(input: SendInput): Option<string> {
    if input.to.Some? && input.recipient.Some? && input.to != input.recipient then None
    else if input.to.Some? then input.to
    else input.recipient
  }

  predicate ContainsRecipient(input: SendInput) {
    (input.to.Some? && ContainsAddress(input.to.value)) || (input.recipient.Some? && ContainsAddress(input.recipient.value))
  }

  /** The call names SendMessage, built in or not, and addresses a bridged session. */
  predicate ToBridge(h: Hook) {
    h.PreToolUse? && (h.tool == Exact(SendMessage) || h.tool == LookalikeSend) && ContainsRecipient(h.input)
  }

  // ---- Reading the persisted state ----

  /** `readable` is false when the file is missing, oversized, foreign or not valid JSON. */
  function Read(file: GateState, now: int, readable: bool): GateState {
    if !readable || now - file.updatedAt > STATE_TTL_MS || file.updatedAt > now + CLOCK_SKEW_MS ||
       |file.candidates| > MAX_CANDIDATES || |file.listings| > MAX_CANDIDATES
    then Empty(now)
    else file.(permit := if file.permit.Some? && file.permit.value.expiresAt >= now then file.permit else None,
               barrier := if file.barrier.Some? && file.barrier.value >= now then file.barrier else None)
  }

  // ---- Tool results ----

  predicate HasRef(s: seq<Candidate>, ref: string) {
    exists c :: c in s && c.ref == ref
  }

  /** c is what all rows carrying its ref say. */
  predicate Undisputed(rows: seq<Candidate>, c: Candidate) {
    c in rows && !Disputed(rows, c.ref)
  }

  /** Two rows bind this ref to different identities. */
  predicate Disputed(rows: seq<Candidate>, ref: string) {
    exists r, r' :: r in rows && r' in rows && r.ref == ref && r'.ref == ref && r != r'
  }

  /** The first row of each ref, among the first n rows. */
  function Firsts(rows: seq<Candidate>, n: nat): seq<Candidate>
    requires n <= |rows|
  {
    if n == 0 then []
    else if HasRef(Firsts(rows, n - 1), rows[n - 1].ref) then Firsts(rows, n - 1)
    else Firsts(rows, n - 1) + [rows[n - 1]]
  }

  function Settled(rows: seq<Candidate>, firsts: seq<Candidate>): seq<Candidate> {
    if firsts == [] then []
    else (if Undisputed(rows, firsts[0]) then [firsts[0]] else []) + Settled(rows, firsts[1..])
  }

  function Take<T>(s: seq<T>, n: nat): seq<T> {
    if |s| <= n then s else s[..n]
  }

  function Candidates(rows: seq<Candidate>): seq<Candidate> {
    Take(Settled(rows, Firsts(rows, |rows|)), MAX_CANDIDATES)
  }

  ghost predicate DistinctRefs(s: seq<Candidate>) {
    forall i, j | 0 <= i < j < |s| :: s[i].ref != s[j].ref
  }

  lemma {:induction false} FirstsAreRows(rows: seq<Candidate>, n: nat)
    requires n <= |rows|
    ensures forall c | c in Firsts(rows, n) :: c in rows[..n]
  {
    if n > 0 {
      FirstsAreRows(rows, n - 1);
      assert rows[..n] == rows[..n - 1] + [rows[n - 1]];
    }
  }

  lemma {:induction false} FirstsCover(rows: seq<Candidate>, n: nat)
    requires n <= |rows|
    ensures DistinctRefs(Firsts(rows, n))
    ensures forall i | 0 <= i < n :: HasRef(Firsts(rows, n), rows[i].ref)
  {
    if n > 0 {
      var before := Firsts(rows, n - 1);
      FirstsCover(rows, n - 1);
      HasRefSnoc(before, rows[n - 1]);
    }
  }

  lemma {:induction false} SettledIs(rows: seq<Candidate>, firsts: seq<Candidate>)
    ensures |Settled(rows, firsts)| <= |firsts|
    ensures forall c :: c in Settled(rows, firsts) <==> c in firsts && Undisputed(rows, c)
    ensures DistinctRefs(firsts) ==> DistinctRefs(Settled(rows, firsts))
  {
    if firsts != [] {
      SettledIs(rows, firsts[1..]);
      if DistinctRefs(firsts) {
        assert forall i, j | 0 <= i < j < |firsts[1..]| :: firsts[1..][i] == firsts[i + 1] && firsts[1..][j] == firsts[j + 1];
        assert forall c | c in firsts[1..] :: c.ref != firsts[0].ref;
        assert forall i | 0 <= i < |Settled(rows, firsts[1..])| :: Settled(rows, firsts[1..])[i] in firsts[1..];
      }
    }
  }

  /** A ref that one response binds to two identities yields no candidate; every other row
      yields exactly one, up to the cap. */
  lemma CandidatesAreUndisputed(rows: seq<Candidate>)
    ensures |Candidates(rows)| <= MAX_CANDIDATES
    ensures forall c | c in Candidates(rows) :: Undisputed(rows, c)
    ensures DistinctRefs(Candidates(rows))
    ensures |Candidates(rows)| < MAX_CANDIDATES ==> forall c | Undisputed(rows, c) :: c in Candidates(rows)
  {
    var firsts := Firsts(rows, |rows|);
    FirstsCover(rows, |rows|);
    FirstsAreRows(rows, |rows|);
    assert rows[..|rows|] == rows;
    SettledIs(rows, firsts);
    forall c | Undisputed(rows, c)
      ensures c in firsts
    {
      var i :| 0 <= i < |rows| && rows[i] == c;
      var d :| d in firsts && d.ref == rows[i].ref;
    }
  }

  /** The map built row by row: a ref holds its candidate until two rows disagree. */
  ghost predicate TableOf(rows: seq<Candidate>, byRef: map<string, Option<Candidate>>) {
    && (forall c | c in rows :: c.ref in byRef && (byRef[c.ref].Some? ==> byRef[c.ref].value == c))
    && (forall ref | ref in byRef && byRef[ref].None? :: Disputed(rows, ref))
  }

  lemma DisputedStays(rows: seq<Candidate>, c: Candidate, ref: string)
    requires Disputed(rows, ref)
    ensures Disputed(rows + [c], ref)
  {
    var r, r' :| r in rows && r' in rows && r.ref == ref && r'.ref == ref && r != r';
    assert r in rows + [c] && r' in rows + [c];
  }

  lemma NewlyDisputed(rows: seq<Candidate>, c: Candidate, d: Candidate)
    requires d in rows && d.ref == c.ref && d != c
    ensures Disputed(rows + [c], c.ref)
  {
    assert d in rows + [c] && c in rows + [c];
  }

  lemma TableSnoc(rows: seq<Candidate>, c: Candidate, byRef: map<string, Option<Candidate>>)
    requires TableOf(rows, byRef) && forall ref | ref in byRef :: HasRef(rows, ref)
    ensures TableOf(rows + [c], Insert(byRef, c))
  {
    if c.ref in byRef && byRef[c.ref].Some? && byRef[c.ref].value != c {
      var d :| d in rows && d.ref == c.ref;
      NewlyDisputed(rows, c, d);
    }
    hide HasRef, Disputed;
    var byRef' := Insert(byRef, c);
    forall ref | ref in byRef' && byRef'[ref].None?
      ensures Disputed(rows + [c], ref)
    {
      if ref in byRef && byRef[ref].None? {
        DisputedStays(rows, c, ref);
      }
    }
  }

  lemma HasRefSnoc(s: seq<Candidate>, c: Candidate)
    ensures forall ref :: HasRef(s + [c], ref) <==> HasRef(s, ref) || ref == c.ref
  {}

  lemma KeysHaveRows(rows: seq<Candidate>, n: nat, byRef: map<string, Option<Candidate>>)
    requires n <= |rows| && forall ref :: ref in byRef <==> HasRef(Firsts(rows, n), ref)
    ensures forall ref | ref in byRef :: HasRef(rows[..n], ref)
  {
    FirstsAreRows(rows, n);
    forall ref | ref in byRef
      ensures HasRef(rows[..n], ref)
    {
      var d :| d in Firsts(rows, n) && d.ref == ref;
    }
  }

  ghost predicate Built(rows: seq<Candidate>, n: nat, byRef: map<string, Option<Candidate>>)
    requires n <= |rows|
  {
    TableOf(rows[..n], byRef) && forall ref :: ref in byRef <==> HasRef(Firsts(rows, n), ref)
  }

  function Insert(byRef: map<string, Option<Candidate>>, c: Candidate): map<string, Option<Candidate>> {
    if c.ref !in byRef then byRef[c.ref := Some(c)]
    else if byRef[c.ref].Some? && byRef[c.ref].value != c then byRef[c.ref := None]
    else byRef
  }

  lemma BuiltSnoc(rows: seq<Candidate>, n: nat, byRef: map<string, Option<Candidate>>)
    requires n < |rows| && Built(rows, n, byRef)
    ensures Built(rows, n + 1, Insert(byRef, rows[n]))
    ensures Firsts(rows, n + 1) == if rows[n].ref in byRef then Firsts(rows, n) else Firsts(rows, n) + [rows[n]]
  {
    assert rows[..n + 1] == rows[..n] + [rows[n]];
    KeysHaveRows(rows, n, byRef);
    HasRefSnoc(Firsts(rows, n), rows[n]);
    hide HasRef, TableOf;
    TableSnoc(rows[..n], rows[n], byRef);
  }

  lemma TableSays(rows: seq<Candidate>, byRef: map<string, Option<Candidate>>, c: Candidate)
    requires TableOf(rows, byRef) && c in rows
    ensures c.ref in byRef && byRef[c.ref] == if Undisputed(rows, c) then Some(c) else None
  {}

  method BuildTable(rows: seq<Candidate>) returns (byRef: map<string, Option<Candidate>>, order: seq<Candidate>)
    ensures order == Firsts(rows, |rows|) && Built(rows, |rows|, byRef)
  {
    byRef, order := map[], [];
    for n := 0 to |rows|
      invariant order == Firsts(rows, n) && Built(rows, n, byRef)
    {
      BuiltSnoc(rows, n, byRef);
      var c := rows[n];
      if c.ref !in byRef {
        byRef := byRef[c.ref := Some(c)];
        order := order + [c];
      } else if byRef[c.ref].Some? && byRef[c.ref].value != c {
        byRef := byRef[c.ref := None];
      }
    }
  }

  /** candidatesFromPeersResult: one pass into a map, then the surviving values in order. */
  method CandidatesFromPeers(rows: seq<Candidate>) returns (found: seq<Candidate>)
    ensures found == Candidates(rows)
  {
    var byRef, order := BuildTable(rows);
    FirstsAreRows(rows, |rows|);
    forall c | c in order
      ensures c.ref in byRef && byRef[c.ref] == if Undisputed(rows, c) then Some(c) else None
    {
      assert rows[..|rows|] == rows;
      TableSays(rows, byRef, c);
    }
    found := Survivors(rows, byRef, order);
    found := Take(found, MAX_CANDIDATES);
  }

  method Survivors(rows: seq<Candidate>, byRef: map<string, Option<Candidate>>, order: seq<Candidate>) returns (found: seq<Candidate>)
    requires forall c | c in order :: c.ref in byRef && byRef[c.ref] == if Undisputed(rows, c) then Some(c) else None
    ensures found == Settled(rows, order)
  {
    hide Settled, Undisputed;
    found := [];
    for i := 0 to |order|
      invariant found + Settled(rows, order[i..]) == Settled(rows, order)
    {
      assert order[i..] == [order[i]] + order[i + 1..];
      SettledCons(rows, order[i], order[i + 1..]);
      if byRef[order[i].ref].Some? {
        MoveOver(found, order[i], Settled(rows, order[i + 1..]));
        found := found + [byRef[order[i].ref].value];
      }
    }
    SettledNone(rows);
  }

  lemma SettledNone(rows: seq<Candidate>)
    ensures Settled(rows, []) == []
  {}

  lemma MoveOver<T>(a: seq<T>, x: T, b: seq<T>)
    ensures a + ([x] + b) == (a + [x]) + b
  {}

  lemma SettledCons(rows: seq<Candidate>, c: Candidate, rest: seq<Candidate>)
    ensures Settled(rows, [c] + rest) == (if Undisputed(rows, c) then [c] + Settled(rows, rest) else Settled(rows, rest))
  {}

  function Listings(addresses: map<string, string>, candidates: seq<Candidate>): seq<Listing> {
    if candidates == [] then []
    else
      var c := candidates[0];
      (if c.displayName in addresses then [Listing(c, addresses[c.displayName])] else []) + Listings(addresses, candidates[1..])
  }

  lemma {:induction false} ListingsExtendCandidates(addresses: map<string, string>, candidates: seq<Candidate>)
    ensures |Listings(addresses, candidates)| <= |candidates|
    ensures forall l :: l in Listings(addresses, candidates) <==>
              l.candidate in candidates && l.candidate.displayName in addresses && l.sendTo == addresses[l.candidate.displayName]
  {
    if candidates != [] {
      ListingsExtendCandidates(addresses, candidates[1..]);
    }
  }

  /** All confirmed listings of one response agree. */
  predicate OnlyOne(confirmed: seq<Listing>) {
    confirmed != [] && forall l | l in confirmed :: l == confirmed[0]
  }

  function PermitOf(confirmed: seq<Listing>, now: int): Option<Permit> {
    if OnlyOne(confirmed) then Some(Permit(confirmed[0], now + PERMIT_TTL_MS)) else None
  }

  // ---- Decisions under the lock ----

  datatype Verdict = Allow | Block | NoVerdict

  /** What a hook did to the chain, for the history. */
  datatype Deed =
    | Nothing
    | Emptied
    | Armed
    | Asked(kind: Kind, id: string)
    | Reset
    | Found(id: string, candidates: seq<Candidate>)
    | Listed(id: string, listings: seq<Listing>)
    | Permitted(id: string, permit: Permit)
    | Sent(id: string, to: string)
    | Spent
    | Cleared(id: string)

  datatype Outcome = Outcome(verdict: Verdict, deed: Deed, next: Option<GateState>)

  /** preToolUse of any tool but the built-in SendMessage. */
  function OtherToolUse(st: GateState, tool: Tool, id: Option<string>, input: SendInput, now: int): Outcome {
    var verdict := if tool.LookalikeSend? && ContainsRecipient(input) then Block else Allow;
    if st.barrier.Some? then Outcome(Block, Nothing, None)
    else
      var peers := tool == Exact(Peers);
      var list := tool == Exact(ListAgents);
      var check := tool == Exact(PeerCheck);
      var advances := peers || (list && st.candidates != []) || (check && st.listings != []);
      if advances && id.None? then Outcome(Block, Reset, Some(Empty(now)))
      else
        var next := if list then Empty(now).(candidates := st.candidates)
                    else if check then Empty(now).(candidates := st.candidates, listings := st.listings)
                    else Empty(now);
        if advances
        then Outcome(verdict, Asked(tool.kind, id.value), Some(next.(pending := Some(Pending(tool.kind, id.value)))))
        else Outcome(verdict, Reset, Some(next))
  }

  function WithoutChain(st: GateState, now: int): GateState {
    st.(updatedAt := now, listings := [], permit := None, pending := None)
  }

  /** preToolUse of the built-in SendMessage. */
  function SendUse(st: GateState, target: string, id: Option<string>, message: Option<nat>, now: int): Outcome {
    var spent := WithoutChain(st, now);
    if st.barrier.Some? then Outcome(Block, Nothing, None)
    else if !ContainsAddress(target) then Outcome(Allow, Reset, Some(spent))
    else if st.permit.None? || st.permit.value.listing.sendTo != target then Outcome(Block, Spent, Some(spent))
    else if message.None? || message.value == 0 || message.value > MAX_MESSAGE_BYTES then Outcome(Block, Spent, Some(spent))
    else if id.None? then Outcome(Block, Spent, Some(spent))
    else Outcome(Allow, Sent(id.value, target),
                 Some(spent.(pending := Some(Pending(SendMessage, id.value)), barrier := Some(now + PERMIT_TTL_MS))))
  }

  predicate Matches(pending: Pending, call: Call) {
    call.id == pending.id && call.kind == Some(pending.kind)
  }

  /** postToolBatch. */
  function BatchUse(st: GateState, calls: Option<seq<Call>>, now: int): Outcome {
    if st.pending.None? || calls.None? || (forall c | c in calls.value :: !Matches(st.pending.value, c))
    then Outcome(NoVerdict, Nothing, None)
    else
      var id := st.pending.value.id;
      var cleared := Outcome(NoVerdict, Cleared(id), Some(Empty(now)));
      if |calls.value| != 1 then cleared
      else
        var response := calls.value[0].response;
        match st.pending.value.kind
        case Peers =>
          var found := Candidates(response.rows);
          Outcome(NoVerdict, Found(id, found), Some(Empty(now).(candidates := found)))
        case ListAgents =>
          if st.candidates == [] then cleared
          else
            var listed := Listings(response.addresses, st.candidates);
            Outcome(NoVerdict, Listed(id, listed), Some(Empty(now).(candidates := st.candidates, listings := listed)))
        case PeerCheck =>
          var permit := PermitOf(response.confirmed, now);
          if st.listings != [] && permit.Some? && permit.value.listing in st.listings
          then Outcome(NoVerdict, Permitted(id, permit.value),
                       Some(Empty(now).(candidates := st.candidates, listings := st.listings, permit := permit)))
          else cleared
        case SendMessage => cleared
  }

  /** The whole decision of a main-session PreToolUse or PostToolBatch of the armed session. */
  function Decide(st: GateState, h: Hook, now: int): Outcome {
    match h
    case SessionStart(_, _) => Outcome(NoVerdict, Emptied, Some(Empty(now)))
    case PreToolUse(_, _, tool, id, input) =>
      if tool != Exact(SendMessage) then OtherToolUse(st, tool, id, input, now)
      else if SendTarget(input).None? then Outcome(Block, Nothing, None)
      else SendUse(st, SendTarget(input).value, id, input.message, now)
    case PostToolBatch(_, _, calls) => BatchUse(st, calls, now)
  }

  /** Verdict on a PreToolUse whose session is not the armed one. */
  function Unarmed(h: Hook): Verdict {
    if !h.PreToolUse? then NoVerdict
    else if ToBridge(h) || (h.tool == Exact(SendMessage) && SendTarget(h.input).None?) then Block
    else Allow
  }

  lemma BridgeTarget(h: Hook)
    requires h.PreToolUse? && h.tool == Exact(SendMessage) && SendTarget(h.input).Some?
    ensures ToBridge(h) <==> ContainsAddress(SendTarget(h.input).value)
  {}

  /** While a barrier stands and the state is read, no PreToolUse passes and nothing is
      written.  It is missed exactly when the read discards it: by expiry, or because the
      state is unreadable or lies more than five seconds ahead of the hook's clock. */
  lemma BarrierReadExactly(file: GateState, h: Hook, now: int, readable: bool)
    requires h.PreToolUse? && (h.tool == Exact(SendMessage) ==> SendTarget(h.input).Some?)
    requires file.barrier == Some(file.updatedAt + PERMIT_TTL_MS) && file.permit == None
    requires |file.candidates| <= MAX_CANDIDATES && |file.listings| <= MAX_CANDIDATES
    ensures Decide(Read(file, now, readable), h, now).next.None?
       <==> readable && now <= file.barrier.value && file.updatedAt <= now + CLOCK_SKEW_MS
    ensures Decide(Read(file, now, readable), h, now).next.None? ==> Decide(Read(file, now, readable), h, now).verdict == Block
  {}
}
