/** Evidence from a model's event stream that a cross-session message was sent: the offline
    inspection of the complete stream, and the line-by-line barrier that lets the receiver go.
    A stream is its parsed lines; a line that is no JSON object leaves no event. */
module StreamEvidence {
  import opened Wrappers

  /** None stands for a value of another type. */
  datatype Input = Input(message: Option<string>, to: Option<string>, recipient: Option<string>)
  datatype Use = Use(name: Option<string>, id: Option<string>, input: Option<Input>)

  /** address is what the listing in the result's content gives for the expected receiver. */
  datatype ToolResult = ToolResult(toolUseId: Option<string>, isError: bool, address: Option<string>)

  datatype Kind = SystemInit | Assistant(uses: seq<Use>) | User(results: seq<ToolResult>) | Other

  /** child: parent_tool_use_id or agent_id is set. */
  datatype Event = Event(kind: Kind, session: Option<string>, child: bool)

  const Inert := Event(Other, None, false)

  predicate Hex(c: char) {
    '0' <= c <= '9' || 'a' <= c <= 'f' || 'A' <= c <= 'F'
  }

  predicate IsSessionId(s: string) {
    && |s| == 36 && s[8] == s[13] == s[18] == s[23] == '-'
    && (forall i | 0 <= i < 36 && i !in {8, 13, 18, 23} :: Hex(s[i]))
    && '1' <= s[14] <= '8' && s[19] in {'8', '9', 'a', 'b', 'A', 'B'}
  }

  function Uses(e: Event, mainOnly: bool): seq<Use> {
    if e.kind.Assistant? && !(mainOnly && e.child) then e.kind.uses else []
  }

  function Results(e: Event, mainOnly: bool): seq<ToolResult> {
    if e.kind.User? && !(mainOnly && e.child) then e.kind.results else []
  }

  // ---- Offline ----

  predicate GoodInit(e: Event) {
    e.kind.SystemInit? && e.session.Some? && IsSessionId(e.session.value)
  }

  predicate BadInit(e: Event) {
    e.kind.SystemInit? && !GoodInit(e)
  }

  function GoodInits(events: seq<Event>): (found: seq<nat>)
    ensures forall i | i in found :: i < |events| && GoodInit(events[i])
    ensures forall i | 0 <= i < |events| && GoodInit(events[i]) :: i in found
  {
    if events == [] then []
    else
      var last := |events| - 1;
      GoodInits(events[..last]) + (if GoodInit(events[last]) then [last] else [])
  }

  function UniqueInit(events: seq<Event>): (index: Option<nat>)
    ensures index.Some? ==> index.value < |events| && GoodInit(events[index.value])
  {
    var found := GoodInits(events);
    if |found| == 1 then Some(found[0]) else None
  }

  /** sameSessionEventsAfterUniqueInit */
  function Masked(events: seq<Event>): (masked: Option<seq<Event>>)
    ensures masked.Some? ==> |masked.value| == |events|
  {
    var init := UniqueInit(events);
    if init.None? then None
    else Some(seq(|events|, i requires 0 <= i < |events| =>
                if i > init.value && events[i].session == events[init.value].session then events[i] else Inert))
  }

  function FindIndex(events: seq<Event>, p: (nat, Event) -> bool, from: nat): (index: Option<nat>)
    ensures index.Some? ==> from <= index.value < |events| && p(index.value, events[index.value])
    ensures index.Some? ==> forall i | from <= i < index.value :: !p(i, events[i])
    decreases |events| - from
  {
    if from >= |events| then None else if p(from, events[from]) then Some(from) else FindIndex(events, p, from + 1)
  }

  function CountNamed(uses: seq<Use>, name: string): nat {
    if uses == [] then 0 else (if uses[0].name == Some(name) then 1 else 0) + CountNamed(uses[1..], name)
  }

  /** toolUseCount: foreign and child sessions included. */
  function ToolUseCount(events: seq<Event>, name: string): nat {
    if events == [] then 0
    else ToolUseCount(events[..|events| - 1], name) + CountNamed(Uses(events[|events| - 1], false), name)
  }

  function MatchesOf(results: seq<ToolResult>, id: string): seq<ToolResult> {
    if results == [] then [] else (if results[0].toolUseId == Some(id) then [results[0]] else []) + MatchesOf(results[1..], id)
  }

  function AllMatches(events: seq<Event>, id: string): seq<ToolResult> {
    if events == [] then []
    else AllMatches(events[..|events| - 1], id) + MatchesOf(Results(events[|events| - 1], false), id)
  }

  /** The event is the one successful result of this call. */
  predicate Succeeds(e: Event, id: string) {
    var results := Results(e, true);
    |results| == 1 && results[0].toolUseId == Some(id) && !results[0].isError
  }

  /** uniqueSuccessfulClaudeToolResultIndex */
  function ResultIndex(events: seq<Event>, id: Option<string>, after: nat): (index: Option<nat>)
    ensures index.Some? ==> Masked(events).Some? && index.value < |events| && id.Some? && Succeeds(Masked(events).value[index.value], id.value)
  {
    if id.None? || id.value == "" || Masked(events).None? then None
    else
      var matches := AllMatches(events, id.value);
      if |matches| != 1 || matches[0].isError then None
      else FindIndex(Masked(events).value, (i, e) => i > after && Succeeds(e, id.value), 0)
  }

  const LIST := "ListAgents"
  const SEND := "SendMessage"

  /** The event holds exactly one tool use, of that name. */
  predicate OnlyUse(e: Event, name: string) {
    |Uses(e, true)| == 1 && Uses(e, true)[0].name == Some(name)
  }

  predicate ExactInput(input: Option<Input>, recipient: string, message: string) {
    && input.Some? && input.value.message == Some(message)
    && !(input.value.to.Some? && input.value.recipient.Some? && input.value.to != input.value.recipient)
    && (if input.value.to.Some? then input.value.to else input.value.recipient) == Some(recipient)
  }

  function NonEmpty(id: Option<string>): Option<string> {
    if id == Some("") then None else id
  }

  datatype Listing = Listing(result: nat, address: string)

  /** The listing the sender obtained: its result's position and the receiver's address. */
  function ListingOf(events: seq<Event>): Option<Listing> {
    if Masked(events).None? || ToolUseCount(events, LIST) != 1 then None
    else
      var sender := Masked(events).value;
      var list := FindIndex(sender, (i, e) => OnlyUse(e, LIST), 0);
      if list.None? then None
      else
        var id := NonEmpty(Uses(sender[list.value], true)[0].id);
        var result := ResultIndex(events, id, list.value);
        if result.None? then None
        else
          var address := Results(sender[result.value], true)[0].address;
          if address.None? then None else Some(Listing(result.value, address.value))
  }

  predicate NoToolBetween(events: seq<Event>, from: nat, until: nat) {
    forall i | from < i < until && i < |events| :: Uses(events[i], true) == []
  }

  predicate ExactSend(e: Event, address: string, marker: string) {
    OnlyUse(e, SEND) && ExactInput(Uses(e, true)[0].input, address, marker)
  }

  datatype Sent = Sent(send: nat, result: nat)

  /** sender_send_message_result_observed, with where the send and its result are. */
  function ObservedSend(events: seq<Event>, marker: string): Option<Sent> {
    if Masked(events).None? || ToolUseCount(events, SEND) != 1 || ListingOf(events).None? then None
    else
      var sender, listing := Masked(events).value, ListingOf(events).value;
      var send := FindIndex(sender, (i, e) => i > listing.result && ExactSend(e, listing.address, marker), 0);
      assert send.Some? ==> ExactSend(sender[send.value], listing.address, marker);
      if send.None? || !NoToolBetween(sender, listing.result, send.value) then None
      else
        var result := ResultIndex(events, NonEmpty(Uses(sender[send.value], true)[0].id), send.value);
        if result.None? || !NoToolBetween(sender, send.value, result.value) then None
        else Some(Sent(send.value, result.value))
  }

  // ---- Online ----

  datatype Barrier = Barrier(sessionId: Option<string>, toolUseId: Option<string>, invalid: bool, released: bool)

  const Closed := Barrier(None, None, false, false)

  predicate Matching(u: Use, marker: string) {
    u.name == Some(SEND) && u.input.Some? && u.input.value.message == Some(marker)
  }

  function CountMatching(uses: seq<Use>, marker: string): nat {
    if uses == [] then 0 else (if Matching(uses[0], marker) then 1 else 0) + CountMatching(uses[1..], marker)
  }

  /** The barrier after the uses of one event. */
  function SeeUses(b: Barrier, uses: seq<Use>, marker: string): Barrier {
    if CountMatching(uses, marker) == 0 then b
    else
      var id := if |uses| == 1 && uses[0].id.Some? then uses[0].id.value else "";
      if b.toolUseId.Some? || id == "" then b.(invalid := true) else b.(toolUseId := Some(id))
  }

  predicate Opens(b: Barrier, e: Event) {
    !b.invalid && !b.released && b.toolUseId.Some? && Succeeds(e, b.toolUseId.value)
  }

  function Observe(b: Barrier, e: Event, marker: string): Barrier {
    if e.kind.SystemInit? then
      if !GoodInit(e) || b.sessionId.Some? then b.(invalid := true) else b.(sessionId := e.session)
    else if b.sessionId.None? || e.session != b.sessionId then b
    else
      var seen := SeeUses(b, Uses(e, true), marker);
      if Opens(seen, e) then seen.(released := true) else seen
  }

  function After(events: seq<Event>, marker: string): Barrier {
    if events == [] then Closed else Observe(After(events[..|events| - 1], marker), events[|events| - 1], marker)
  }

  /** Event k is the one that calls release. */
  predicate ReleasesAt(events: seq<Event>, marker: string, k: nat) {
    k < |events| && !After(events[..k], marker).released && After(events[..k + 1], marker).released
  }

  /** createClaudeSendMessageResultBarrier */
  class ResultBarrier {
    const expectedMessage: string
    var sessionId: Option<string>
    var toolUseId: Option<string>
    var invalid: bool
    var released: bool
    ghost var seen: seq<Event>

    ghost predicate Valid()
      reads this
    {
      Barrier(sessionId, toolUseId, invalid, released) == After(seen, expectedMessage)
    }

    constructor (expectedMessage: string)
      ensures Valid() && seen == [] && this.expectedMessage == expectedMessage
    {
      this.expectedMessage := expectedMessage;
      sessionId, toolUseId, invalid, released, seen := None, None, false, false, [];
    }

    /** Line takes a parsed line, or None; `release` says that the callback is called. */
    method Line(event: Option<Event>) returns (release: bool)
      requires Valid()
      modifies this
      ensures Valid() && seen == (if event.Some? then old(seen) + [event.value] else old(seen))
      ensures release <==> event.Some? && ReleasesAt(seen, expectedMessage, |old(seen)|)
    {
      release := false;
      if event.None? {
        return;
      }
      var e := event.value;
      seen := seen + [e];
      assert seen[..|seen| - 1] == old(seen) && seen[..|seen|] == seen;
      if e.kind.SystemInit? {
        if !GoodInit(e) || sessionId.Some? {
          invalid := true;
        } else {
          sessionId := e.session;
        }
        return;
      }
      if sessionId.None? || e.session != sessionId {
        return;
      }
      var uses := Uses(e, true);
      if CountMatching(uses, expectedMessage) > 0 {
        var id := if |uses| == 1 && uses[0].id.Some? then uses[0].id.value else "";
        if toolUseId.Some? || id == "" {
          invalid := true;
        } else {
          toolUseId := Some(id);
        }
      }
      var results := Results(e, true);
      if !invalid && !released && toolUseId.Some? && |results| == 1 && results[0].toolUseId == toolUseId && !results[0].isError {
        released := true;
        release := true;
      }
    }
  }

  // ---- Agreement ----

  lemma {:induction false} ReleasedStays(events: seq<Event>, marker: string, i: nat, j: nat)
    requires i <= j <= |events| && After(events[..i], marker).released
    ensures After(events[..j], marker).released
    decreases j
  {
    if i < j {
      ReleasedStays(events, marker, i, j - 1);
      assert events[..j][..j - 1] == events[..j - 1];
    }
  }

  /** On every stream the barrier releases at most once. */
  lemma ReleasesOnce(events: seq<Event>, marker: string, i: nat, j: nat)
    requires ReleasesAt(events, marker, i) && ReleasesAt(events, marker, j)
    ensures i == j
  {
    if i < j {
      ReleasedStays(events, marker, i + 1, j);
    } else if j < i {
      ReleasedStays(events, marker, j + 1, i);
    }
  }

  lemma {:induction false} UsedAt(events: seq<Event>, name: string, i: nat)
    requires i < |events|
    ensures ToolUseCount(events, name) >= CountNamed(Uses(events[i], false), name)
    decreases |events|
  {
    if i < |events| - 1 {
      UsedAt(events[..|events| - 1], name, i);
    }
  }

  lemma {:induction false} UsedTwice(events: seq<Event>, name: string, i: nat, j: nat)
    requires i < j < |events|
    ensures ToolUseCount(events, name) >= CountNamed(Uses(events[i], false), name) + CountNamed(Uses(events[j], false), name)
    decreases |events|
  {
    if j < |events| - 1 {
      UsedTwice(events[..|events| - 1], name, i, j);
    } else {
      UsedAt(events[..|events| - 1], name, i);
    }
  }

  lemma {:induction false} MatchingAreNamed(uses: seq<Use>, marker: string)
    ensures CountMatching(uses, marker) <= CountNamed(uses, SEND)
  {
    if uses != [] {
      MatchingAreNamed(uses[1..], marker);
    }
  }

  /** What the offline inspection has established about the stream. */
  ghost predicate Chain(events: seq<Event>, marker: string, init: nat, sent: Sent, id: string) {
    && init < sent.send < sent.result < |events|
    && GoodInit(events[init])
    && (forall i | 0 <= i < |events| && GoodInit(events[i]) :: i == init)
    && events[sent.send].session == events[init].session == events[sent.result].session
    && (var uses := Uses(events[sent.send], true); |uses| == 1 && Matching(uses[0], marker) && uses[0].id == Some(id) && id != "")
    && (forall i | init < i < |events| && i != sent.send && events[i].session == events[init].session :: CountMatching(Uses(events[i], true), marker) == 0)
    && Succeeds(events[sent.result], id)
    && (forall i | sent.send < i < sent.result && events[i].session == events[init].session :: !Succeeds(events[i], id))
  }

  lemma GoodInitUnique(events: seq<Event>)
    requires UniqueInit(events).Some?
    ensures forall i | 0 <= i < |events| && GoodInit(events[i]) :: i == UniqueInit(events).value
  {}

  lemma MaskedIs(events: seq<Event>, i: nat)
    requires Masked(events).Some? && i < |events|
    ensures UniqueInit(events).Some?
    ensures var init := UniqueInit(events).value;
            Masked(events).value[i] == if i > init && events[i].session == events[init].session then events[i] else Inert
  {}

  /** A result index is a success of the masked stream, the first after its call. */
  lemma ResultIs(events: seq<Event>, id: Option<string>, after: nat)
    requires ResultIndex(events, id, after).Some?
    ensures id.Some? && id.value != "" && Masked(events).Some?
    ensures var r := ResultIndex(events, id, after).value;
            && after < r < |events| && Succeeds(Masked(events).value[r], id.value)
            && forall i | after < i < r :: !Succeeds(Masked(events).value[i], id.value)
  {}

  lemma SendIs(events: seq<Event>, marker: string)
    requires ObservedSend(events, marker).Some?
    ensures Masked(events).Some? && ToolUseCount(events, SEND) == 1
    ensures var sent := ObservedSend(events, marker).value;
            && sent.send < |events|
            && var sender := Masked(events).value;
            && OnlyUse(sender[sent.send], SEND)
            && Matching(Uses(sender[sent.send], true)[0], marker)
            && ResultIndex(events, NonEmpty(Uses(sender[sent.send], true)[0].id), sent.send) == Some(sent.result)
  {
    hide Masked, ToolUseCount, ListingOf, ResultIndex, NonEmpty, Uses;
    var send := ObservedSend(events, marker).value.send;
    assert ExactSend(Masked(events).value[send], ListingOf(events).value.address, marker);
  }

  /** The one send is the only event with a matching use. */
  lemma NoOtherSend(events: seq<Event>, marker: string, send: nat, i: nat)
    requires ToolUseCount(events, SEND) == 1 && send < |events| && i < |events| && i != send && OnlyUse(events[send], SEND)
    ensures CountMatching(Uses(events[i], true), marker) == 0
  {
    MatchingAreNamed(Uses(events[i], true), marker);
    assert CountNamed(Uses(events[send], true), SEND) >= 1;
    if i < send {
      UsedTwice(events, SEND, i, send);
    } else {
      UsedTwice(events, SEND, send, i);
    }
  }

  /** The offline verdict gives the chain. */
  lemma OfflineChain(events: seq<Event>, marker: string)
    requires ObservedSend(events, marker).Some?
    ensures UniqueInit(events).Some?
    ensures var sent := ObservedSend(events, marker).value;
            && sent.send < |events| && |Uses(events[sent.send], true)| == 1 && Uses(events[sent.send], true)[0].id.Some?
            && Chain(events, marker, UniqueInit(events).value, sent, Uses(events[sent.send], true)[0].id.value)
  {
    var sent := ObservedSend(events, marker).value;
    SendIs(events, marker);
    MaskedIs(events, sent.send);
    hide ObservedSend, ResultIndex, Masked, UniqueInit, Matching, CountMatching, ToolUseCount, GoodInit;
    GoodInitUnique(events);
    var uses := Uses(events[sent.send], true);
    ResultIs(events, NonEmpty(uses[0].id), sent.send);
    MaskedIs(events, sent.result);
    var id := uses[0].id.value;
    forall i: nat | i < |events| && i != sent.send ensures CountMatching(Uses(events[i], true), marker) == 0 {
      NoOtherSend(events, marker, sent.send, i);
    }
    forall i: nat | sent.send < i < sent.result && events[i].session == events[UniqueInit(events).value].session
      ensures !Succeeds(events[i], id)
    {
      MaskedIs(events, i);
    }
  }

  predicate BadInitBefore(events: seq<Event>, k: nat)
    requires k <= |events|
  {
    exists i | 0 <= i < k :: BadInit(events[i])
  }

  /** What the barrier holds after k events of such a stream. */
  function Expected(events: seq<Event>, init: nat, sent: Sent, id: string, k: nat): Barrier
    requires init < sent.send < sent.result < |events| && k <= |events|
  {
    Barrier(if k <= init then None else events[init].session,
            if k <= sent.send then None else Some(id),
            BadInitBefore(events, k),
            k > sent.result && !BadInitBefore(events, sent.result))
  }

  lemma {:induction false} BarrierFollows(events: seq<Event>, marker: string, init: nat, sent: Sent, id: string, k: nat)
    requires Chain(events, marker, init, sent, id) && k <= |events|
    ensures After(events[..k], marker) == Expected(events, init, sent, id, k)
    decreases k
  {
    if k > 0 {
      BarrierFollows(events, marker, init, sent, id, k - 1);
      assert events[..k][..k - 1] == events[..k - 1];
      BarrierStep(events, marker, init, sent, id, k - 1);
    }
  }

  lemma BarrierStep(events: seq<Event>, marker: string, init: nat, sent: Sent, id: string, k: nat)
    requires Chain(events, marker, init, sent, id) && k < |events|
    ensures Observe(Expected(events, init, sent, id, k), events[k], marker) == Expected(events, init, sent, id, k + 1)
  {}

  /** When the offline inspection reports the result observed, the barrier releases, exactly at
      that result and after the send, if and only if no malformed init event came before it. */
  lemma BarrierAgrees(events: seq<Event>, marker: string)
    requires ObservedSend(events, marker).Some?
    ensures var sent := ObservedSend(events, marker).value;
            && sent.send < sent.result < |events|
            && (forall k: nat :: ReleasesAt(events, marker, k) <==> k == sent.result && !BadInitBefore(events, sent.result))
  {
    OfflineChain(events, marker);
    var sent, init := ObservedSend(events, marker).value, UniqueInit(events).value;
    var id := Uses(events[sent.send], true)[0].id.value;
    assert sent.send < sent.result < |events|;
    hide *;
    forall k: nat ensures ReleasesAt(events, marker, k) <==> k == sent.result && !BadInitBefore(events, sent.result) {
      ReleaseExactly(events, marker, init, sent, id, k);
    }
  }

  lemma ReleaseExactly(events: seq<Event>, marker: string, init: nat, sent: Sent, id: string, k: nat)
    requires Chain(events, marker, init, sent, id)
    ensures ReleasesAt(events, marker, k) <==> k == sent.result && !BadInitBefore(events, sent.result)
  {
    if k < |events| {
      BarrierFollows(events, marker, init, sent, id, k);
      BarrierFollows(events, marker, init, sent, id, k + 1);
      hide After, Chain, BadInitBefore;
    }
  }

  // ---- A stream on which they disagree ----

  const SESSION := "00000000-0000-1000-8000-000000000000"

  /** A malformed init, then a good one, a listing and its result, a send and its result. */
  function Spoiled(marker: string): (events: seq<Event>)
    ensures |events| == 6 && forall k | 0 <= k <= 6 :: events[..k][..k] == events[..k]
  {
    [Event(SystemInit, None, false),
     Event(SystemInit, Some(SESSION), false),
     Event(Assistant([Use(Some(LIST), Some("a"), None)]), Some(SESSION), false),
     Event(User([ToolResult(Some("a"), false, Some("peer"))]), Some(SESSION), false),
     Event(Assistant([Use(Some(SEND), Some("b"), Some(Input(Some(marker), Some("peer"), None)))]), Some(SESSION), false),
     Event(User([ToolResult(Some("b"), false, None)]), Some(SESSION), false)]
  }

  lemma SessionIsId()
    ensures IsSessionId(SESSION)
  {
    assert SESSION[8] == '-';
  }

  lemma {:induction false} UniqueAt(events: seq<Event>, i: nat)
    requires i < |events| && GoodInit(events[i]) && forall j | 0 <= j < |events| && j != i :: !GoodInit(events[j])
    ensures GoodInits(events) == [i]
    decreases |events|
  {
    hide GoodInit;
    var last := |events| - 1;
    if i < last {
      UniqueAt(events[..last], i);
    } else {
      NoneGood(events[..last]);
    }
  }

  lemma NoneGood(events: seq<Event>)
    requires forall j | 0 <= j < |events| :: !GoodInit(events[j])
    ensures GoodInits(events) == []
  {
    if GoodInits(events) != [] {
      assert GoodInits(events)[0] in GoodInits(events);
    }
  }

  lemma SpoiledMasked(marker: string)
    ensures Masked(Spoiled(marker)) == Some([Inert, Inert] + Spoiled(marker)[2..])
  {
    var events := Spoiled(marker);
    SessionIsId();
    hide IsSessionId;
    UniqueAt(events, 1);
    assert UniqueInit(events) == Some(1);
    hide UniqueInit, GoodInit;
    var masked := [Inert, Inert] + events[2..];
    assert forall i | 0 <= i < 6 :: masked[i] == if i > 1 && events[i].session == events[1].session then events[i] else Inert;
    assert Masked(events).value == masked;
  }

  lemma OneMore(e: seq<Event>, k: nat, name: string, id: string)
    requires k < |e|
    ensures ToolUseCount(e[..k + 1], name) == ToolUseCount(e[..k], name) + CountNamed(Uses(e[k], false), name)
    ensures AllMatches(e[..k + 1], id) == AllMatches(e[..k], id) + MatchesOf(Results(e[k], false), id)
    ensures ToolUseCount(e[..0], name) == 0 && AllMatches(e[..0], id) == [] && e[..|e|] == e
  {
    assert e[..k + 1][..k] == e[..k];
  }

  /** Which event brings the use, and which its result. */
  lemma SpoiledBrings(marker: string, k: nat, name: string, id: string)
    requires k < 6 && ((name == LIST && id == "a") || (name == SEND && id == "b"))
    ensures CountNamed(Uses(Spoiled(marker)[k], false), name) == if k == (if id == "a" then 2 else 4) then 1 else 0
    ensures MatchesOf(Results(Spoiled(marker)[k], false), id) == if k == (if id == "a" then 3 else 5) then Spoiled(marker)[k].kind.results else []
  {
    var e := Spoiled(marker);
    assert e[2].kind.uses[1..] == [] && e[3].kind.results[1..] == [];
    assert e[4].kind.uses[1..] == [] && e[5].kind.results[1..] == [];
  }

  lemma {:induction false} SpoiledFirst(marker: string, k: nat, name: string, id: string)
    requires k <= 6 && ((name == LIST && id == "a") || (name == SEND && id == "b"))
    ensures ToolUseCount(Spoiled(marker)[..k], name) == if k > (if id == "a" then 2 else 4) then 1 else 0
    ensures AllMatches(Spoiled(marker)[..k], id) == if k > (if id == "a" then 3 else 5) then Spoiled(marker)[if id == "a" then 3 else 5].kind.results else []
    decreases k
  {
    hide ToolUseCount, AllMatches, Spoiled, CountNamed, MatchesOf, Uses, Results;
    if k > 0 {
      SpoiledFirst(marker, k - 1, name, id);
      OneMore(Spoiled(marker), k - 1, name, id);
      SpoiledBrings(marker, k - 1, name, id);
    } else {
      OneMore(Spoiled(marker), 0, name, id);
    }
  }

  lemma SpoiledHas(marker: string, name: string, id: string)
    requires (name == LIST && id == "a") || (name == SEND && id == "b")
    ensures ToolUseCount(Spoiled(marker), name) == 1
    ensures AllMatches(Spoiled(marker), id) == Spoiled(marker)[if id == "a" then 3 else 5].kind.results
  {
    SpoiledFirst(marker, 6, name, id);
    assert Spoiled(marker)[..6] == Spoiled(marker);
    hide ToolUseCount, AllMatches;
  }

  lemma {:induction false} FoundAt(events: seq<Event>, p: (nat, Event) -> bool, from: nat, i: nat)
    requires from <= i < |events| && p(i, events[i]) && forall j | from <= j < i :: !p(j, events[j])
    ensures FindIndex(events, p, from) == Some(i)
    decreases i - from
  {
    if from < i {
      FoundAt(events, p, from + 1, i);
    }
  }

  /** The masked stream, and which calls succeed where. */
  function SpoiledView(marker: string): (masked: seq<Event>)
    ensures |masked| == 6 && masked[0] == masked[1] == Inert && forall i | 2 <= i < 6 :: masked[i] == Spoiled(marker)[i]
    ensures Masked(Spoiled(marker)) == Some(masked)
  {
    SpoiledMasked(marker);
    [Inert, Inert] + Spoiled(marker)[2..]
  }

  lemma SpoiledSucceeds(marker: string, i: nat)
    requires i < 6
    ensures Succeeds(SpoiledView(marker)[i], "a") <==> i == 3
    ensures Succeeds(SpoiledView(marker)[i], "b") <==> i == 5
    ensures OnlyUse(SpoiledView(marker)[i], LIST) <==> i == 2
    ensures ExactSend(SpoiledView(marker)[i], "peer", marker) <==> i == 4
    ensures Uses(SpoiledView(marker)[i], true) == [] <==> i !in {2, 4}
  {
    var e := SpoiledView(marker)[i];
    assert "a"[0] != "b"[0] && LIST[0] != SEND[0];
    hide Masked;
    assert e == Inert || e == Spoiled(marker)[2] || e == Spoiled(marker)[3] || e == Spoiled(marker)[4] || e == Spoiled(marker)[5];
  }

  lemma SpoiledFields(marker: string)
    ensures Uses(SpoiledView(marker)[2], true)[0].id == Some("a") && Uses(SpoiledView(marker)[4], true)[0].id == Some("b")
    ensures Results(SpoiledView(marker)[3], true)[0].address == Some("peer")
  {}

  lemma SpoiledResult(marker: string, name: string, id: string)
    requires (name == LIST && id == "a") || (name == SEND && id == "b")
    ensures ResultIndex(Spoiled(marker), Some(id), if id == "a" then 2 else 4) == Some(if id == "a" then 3 else 5)
  {
    SpoiledHas(marker, name, id);
    assert Spoiled(marker)[3].kind.results == [ToolResult(Some("a"), false, Some("peer"))];
    assert Spoiled(marker)[5].kind.results == [ToolResult(Some("b"), false, None)];
    hide Masked, AllMatches, Succeeds, ExactSend, OnlyUse, Uses, Results, SpoiledView, Spoiled, ToolUseCount;
    forall i: nat | i < 6 {
      SpoiledSucceeds(marker, i);
    }
    if id == "a" {
      FoundAt(SpoiledView(marker), (i, e) => i > 2 && Succeeds(e, "a"), 0, 3);
    } else {
      FoundAt(SpoiledView(marker), (i, e) => i > 4 && Succeeds(e, "b"), 0, 5);
    }
  }

  lemma SpoiledListAt(marker: string)
    ensures FindIndex(SpoiledView(marker), (i, e) => OnlyUse(e, LIST), 0) == Some(2)
  {
    forall i: nat | i < 6 {
      SpoiledSucceeds(marker, i);
    }
    hide OnlyUse, SpoiledView;
    FoundAt(SpoiledView(marker), (i, e) => OnlyUse(e, LIST), 0, 2);
  }

  lemma SpoiledSendAt(marker: string, p: (nat, Event) -> bool)
    requires forall i, e :: p(i, e) <==> i > 3 && ExactSend(e, "peer", marker)
    ensures FindIndex(SpoiledView(marker), p, 0) == Some(4)
  {
    forall i: nat | i < 6 {
      SpoiledSucceeds(marker, i);
    }
    hide ExactSend, SpoiledView;
    FoundAt(SpoiledView(marker), p, 0, 4);
  }

  lemma SpoiledListing(marker: string)
    ensures ListingOf(Spoiled(marker)) == Some(Listing(3, "peer"))
  {
    SpoiledHas(marker, LIST, "a");
    SpoiledResult(marker, LIST, "a");
    SpoiledFields(marker);
    SpoiledListAt(marker);
    hide Masked, AllMatches, ResultIndex, ToolUseCount, OnlyUse, Uses, Results, SpoiledView, Spoiled, FindIndex;
  }

  lemma NextToEachOther(events: seq<Event>, i: nat)
    ensures NoToolBetween(events, i, i + 1)
  {}

  lemma SpoiledSent(marker: string)
    ensures ObservedSend(Spoiled(marker), marker) == Some(Sent(4, 5))
  {
    hide Masked, ResultIndex, ToolUseCount, ListingOf, ExactSend, Uses, SpoiledView, Spoiled, FindIndex, NoToolBetween;
    SpoiledHas(marker, SEND, "b");
    SpoiledResult(marker, SEND, "b");
    SpoiledListing(marker);
    SpoiledFields(marker);
    SpoiledSendAt(marker, (i, e) => i > 3 && ExactSend(e, "peer", marker));
    NextToEachOther(SpoiledView(marker), 3);
    NextToEachOther(SpoiledView(marker), 4);
  }

  /** A malformed init before a send that the offline inspection reports observed: the barrier
      never releases. */
  lemma BadInitNeverReleases(marker: string, k: nat)
    ensures ObservedSend(Spoiled(marker), marker) == Some(Sent(4, 5))
    ensures !ReleasesAt(Spoiled(marker), marker, k)
  {
    SpoiledSent(marker);
    BarrierAgrees(Spoiled(marker), marker);
    assert BadInit(Spoiled(marker)[0]);
    hide ObservedSend, ReleasesAt;
  }

  // ---- Session ids ----

  predicate HexText(s: string) {
    forall c | c in s :: c in "0123456789abcdefABCDEF"
  }

  /** Five groups of hexadecimal digits, 8-4-4-4-12, version 1 to 8, variant 8 to b. */
  predicate Grouped(s: string, a: string, b: string, c: string, d: string, e: string) {
    && s == a + "-" + b + "-" + c + "-" + d + "-" + e
    && |a| == 8 && |b| == 4 && |c| == 4 && |d| == 4 && |e| == 12
    && HexText(a) && HexText(b) && HexText(c) && HexText(d) && HexText(e)
    && c[0] in "12345678" && d[0] in "89abAB"
  }

  lemma HexIs(c: char)
    ensures Hex(c) <==> c in "0123456789abcdefABCDEF"
  {
    var all := "0123456789abcdefABCDEF";
    assert |all| == 22;
    if Hex(c) {
      var i := if c <= '9' then c as int - 48 else if c >= 'a' then c as int - 97 + 10 else c as int - 65 + 16;
      assert all[i] == c;
    }
  }

  lemma HexSlice(s: string, lo: nat, hi: nat)
    requires lo <= hi <= |s|
    ensures HexText(s[lo..hi]) <==> forall i | lo <= i < hi :: Hex(s[i])
  {
    forall i | lo <= i < hi
      ensures s[i] == s[lo..hi][i - lo] && s[i] in s[lo..hi] && (Hex(s[i]) <==> s[i] in "0123456789abcdefABCDEF")
    {
      HexIs(s[i]);
    }
    hide Hex;
    forall c | c in s[lo..hi]
      ensures exists i :: lo <= i < hi && s[i] == c
    {
      var k :| 0 <= k < hi - lo && s[lo..hi][k] == c;
      assert s[lo + k] == c;
    }
  }

  lemma Hyphens(s: string)
    requires |s| == 36
    ensures s == s[..8] + "-" + s[9..13] + "-" + s[14..18] + "-" + s[19..23] + "-" + s[24..] <==> s[8] == s[13] == s[18] == s[23] == '-'
  {
    var t := s[..8] + "-" + s[9..13] + "-" + s[14..18] + "-" + s[19..23] + "-" + s[24..];
    assert |t| == 36 && t[8] == t[13] == t[18] == t[23] == '-';
    assert forall i | 0 <= i < 36 && i !in {8, 13, 18, 23} :: t[i] == s[i];
  }

  lemma VersionAndVariant(v: char, w: char)
    ensures v in "12345678" <==> '1' <= v <= '8'
    ensures w in "89abAB" <==> w in {'8', '9', 'a', 'b', 'A', 'B'}
  {
    var versions := "12345678";
    assert |versions| == 8;
    if '1' <= v <= '8' {
      assert versions[v as int - 49] == v;
    }
  }

  /** Session ids are exactly the texts of that shape. */
  lemma SessionIdsExactly(s: string)
    ensures IsSessionId(s) <==> |s| == 36 && Grouped(s, s[..8], s[9..13], s[14..18], s[19..23], s[24..])
  {
    hide Hex, HexText;
    if |s| == 36 {
      Hyphens(s);
      HexSlice(s, 0, 8);
      HexSlice(s, 9, 13);
      HexSlice(s, 14, 18);
      HexSlice(s, 19, 23);
      HexSlice(s, 24, 36);
      VersionAndVariant(s[14], s[19]);
      assert s[0..8] == s[..8] && s[24..36] == s[24..] && s[14..18][0] == s[14] && s[19..23][0] == s[19];
    }
  }
}
