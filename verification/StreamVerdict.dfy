/** The offline verdict on a sender's stream, against what it is meant to establish: which events
    there must be, and that they are the only ones, whatever searches and counts find them. */
module StreamVerdict {
  import opened Wrappers
  import opened StreamEvidence

  // ---- Counting, event by event ----

  lemma {:induction false} CountNone(uses: seq<Use>, name: string)
    ensures CountNamed(uses, name) == 0 <==> forall k | 0 <= k < |uses| :: uses[k].name != Some(name)
  {
    if uses != [] {
      CountNone(uses[1..], name);
      assert forall k | 1 <= k < |uses| :: uses[k] == uses[1..][k - 1];
    }
  }

  lemma {:induction false} MatchesNone(results: seq<ToolResult>, id: string)
    ensures MatchesOf(results, id) == [] <==> forall k | 0 <= k < |results| :: results[k].toolUseId != Some(id)
  {
    if results != [] {
      MatchesNone(results[1..], id);
      assert forall k | 1 <= k < |results| :: results[k] == results[1..][k - 1];
    }
  }

  lemma {:induction false} CountParts(a: seq<Event>, b: seq<Event>, name: string)
    ensures ToolUseCount(a + b, name) == ToolUseCount(a, name) + ToolUseCount(b, name)
    decreases |b|
  {
    if b == [] {
      assert a + b == a;
    } else {
      assert (a + b)[..|a + b| - 1] == a + b[..|b| - 1];
      CountParts(a, b[..|b| - 1], name);
    }
  }

  lemma {:induction false} MatchParts(a: seq<Event>, b: seq<Event>, id: string)
    ensures AllMatches(a + b, id) == AllMatches(a, id) + AllMatches(b, id)
    decreases |b|
  {
    if b == [] {
      assert a + b == a;
    } else {
      assert (a + b)[..|a + b| - 1] == a + b[..|b| - 1];
      MatchParts(a, b[..|b| - 1], id);
    }
  }

  predicate Unnamed(e: Event, name: string) {
    forall k | 0 <= k < |Uses(e, false)| :: Uses(e, false)[k].name != Some(name)
  }

  predicate Unmatched(e: Event, id: string) {
    forall k | 0 <= k < |Results(e, false)| :: Results(e, false)[k].toolUseId != Some(id)
  }

  lemma {:induction false} NoUses(events: seq<Event>, name: string)
    ensures ToolUseCount(events, name) == 0 <==> forall e | e in events :: Unnamed(e, name)
    decreases |events|
  {
    if events != [] {
      var init, last := events[..|events| - 1], events[|events| - 1];
      assert events == init + [last];
      NoUses(init, name);
      CountNone(Uses(last, false), name);
      assert Unnamed(last, name) <==> CountNamed(Uses(last, false), name) == 0;
      hide CountNamed, Uses, Unnamed;
      assert (forall e | e in events :: Unnamed(e, name)) <==> (forall e | e in init :: Unnamed(e, name)) && Unnamed(last, name);
    }
  }

  lemma MatchSnoc(init: seq<Event>, last: Event, id: string)
    ensures AllMatches(init + [last], id) == AllMatches(init, id) + MatchesOf(Results(last, false), id)
  {
    assert (init + [last])[..|init|] == init;
    hide MatchesOf, Results;
  }

  lemma {:induction false} NoMatches(events: seq<Event>, id: string)
    ensures AllMatches(events, id) == [] <==> forall e | e in events :: Unmatched(e, id)
    decreases |events|
  {
    if events != [] {
      var init, last := events[..|events| - 1], events[|events| - 1];
      assert events == init + [last];
      NoMatches(init, id);
      MatchSnoc(init, last, id);
      MatchesNone(Results(last, false), id);
      assert Unmatched(last, id) <==> MatchesOf(Results(last, false), id) == [];
      hide MatchesOf, Results, Unmatched, AllMatches;
      assert (forall e | e in events :: Unmatched(e, id)) <==> (forall e | e in init :: Unmatched(e, id)) && Unmatched(last, id);
    }
  }

  /** The events but one. */
  lemma Others(events: seq<Event>, i: nat, j: nat)
    requires i < |events| && j < |events| && i != j
    ensures events[j] in events[..i] || events[j] in events[i + 1..]
  {
    if j < i {
      assert events[..i][j] == events[j];
    } else {
      assert events[i + 1..][j - i - 1] == events[j];
    }
  }

  lemma AroundCount(events: seq<Event>, i: nat, name: string)
    requires i < |events|
    ensures ToolUseCount(events, name) == ToolUseCount(events[..i], name) + CountNamed(Uses(events[i], false), name) + ToolUseCount(events[i + 1..], name)
  {
    assert events == (events[..i] + [events[i]]) + events[i + 1..];
    CountParts(events[..i] + [events[i]], events[i + 1..], name);
    CountParts(events[..i], [events[i]], name);
    assert [events[i]][..0] == [];
  }

  lemma AroundMatches(events: seq<Event>, i: nat, id: string)
    requires i < |events|
    ensures AllMatches(events, id) == AllMatches(events[..i], id) + MatchesOf(Results(events[i], false), id) + AllMatches(events[i + 1..], id)
  {
    assert events == (events[..i] + [events[i]]) + events[i + 1..];
    MatchParts(events[..i] + [events[i]], events[i + 1..], id);
    MatchParts(events[..i], [events[i]], id);
    assert [events[i]][..0] == [];
  }

  // ---- What must be there ----

  /** Event i holds one tool use, by the main agent and of that name, and no other event of the
      whole stream, child agents and other sessions included, holds one of that name. */
  ghost predicate UsedOnlyAt(events: seq<Event>, name: string, i: nat) {
    && i < |events| && !events[i].child && |Uses(events[i], false)| == 1 && Uses(events[i], false)[0].name == Some(name)
    && forall j | 0 <= j < |events| && j != i :: Unnamed(events[j], name)
  }

  /** Event r is the main agent's one result for this call, no error, and no other event of the
      whole stream holds a result for it. */
  ghost predicate AnsweredOnlyAt(events: seq<Event>, id: string, r: nat) {
    && r < |events| && !events[r].child && |Results(events[r], false)| == 1
    && Results(events[r], false)[0].toolUseId == Some(id) && !Results(events[r], false)[0].isError
    && forall j | 0 <= j < |events| && j != r :: Unmatched(events[j], id)
  }

  ghost predicate OnlyInit(events: seq<Event>, i: nat) {
    i < |events| && GoodInit(events[i]) && forall j | 0 <= j < |events| && j != i :: !GoodInit(events[j])
  }

  /** Event i belongs to the session that event `init` opened, and comes after it. */
  predicate InSession(events: seq<Event>, init: nat, i: nat) {
    init < i < |events| && events[i].session == events[init].session
  }

  /** A tool id: the single use of event i carries one that is not empty. */
  predicate Carries(events: seq<Event>, i: nat, id: string) {
    i < |events| && Uses(events[i], false) != [] && Uses(events[i], false)[0].id == Some(id) && id != ""
  }

  /** Between two events the main agent of the session uses no tool. */
  ghost predicate Quiet(events: seq<Event>, init: nat, from: nat, until: nat) {
    forall j | from < j < until && j < |events| && InSession(events, init, j) :: Uses(events[j], true) == []
  }

  /** `to` and `recipient` name the address: either, or both alike. */
  predicate Addresses(input: Input, address: string) {
    && (input.to == Some(address) || (input.to.None? && input.recipient == Some(address)))
    && (input.to.Some? && input.recipient.Some? ==> input.to == input.recipient)
  }

  /** The stream holds one init, the one listing call with its result, and after it the one
      send of the marker to the listed address with its result; no tool use in between. */
  ghost predicate Evidence(events: seq<Event>, marker: string, init: nat, list: nat, listId: string, listed: nat, sent: Sent, sendId: string) {
    && OnlyInit(events, init)
    && init < list < listed < sent.send < sent.result < |events|
    && InSession(events, init, list) && InSession(events, init, listed) && InSession(events, init, sent.send) && InSession(events, init, sent.result)
    && UsedOnlyAt(events, LIST, list) && Carries(events, list, listId) && AnsweredOnlyAt(events, listId, listed)
    && UsedOnlyAt(events, SEND, sent.send) && Carries(events, sent.send, sendId) && AnsweredOnlyAt(events, sendId, sent.result)
    && Results(events[listed], false)[0].address.Some?
    && Uses(events[sent.send], false)[0].input.Some?
    && Uses(events[sent.send], false)[0].input.value.message == Some(marker)
    && Addresses(Uses(events[sent.send], false)[0].input.value, Results(events[listed], false)[0].address.value)
    && Quiet(events, init, listed, sent.send) && Quiet(events, init, sent.send, sent.result)
  }

  // ---- Searches and counts find exactly that ----

  lemma UsedOnce(events: seq<Event>, name: string, i: nat)
    requires i < |events| && OnlyUse(events[i], name)
    ensures ToolUseCount(events, name) == 1 <==> UsedOnlyAt(events, name, i)
  {
    assert Uses(events[i], false)[1..] == [];
    AroundCount(events, i, name);
    NoUses(events[..i], name);
    NoUses(events[i + 1..], name);
    assert CountNamed(Uses(events[i], false), name) == 1;
    hide ToolUseCount, CountNamed, Unnamed;
    if UsedOnlyAt(events, name, i) {
      assert forall e | e in events[..i] || e in events[i + 1..] :: Unnamed(e, name);
    }
    if ToolUseCount(events, name) == 1 {
      forall j | 0 <= j < |events| && j != i ensures Unnamed(events[j], name) {
        Others(events, i, j);
      }
    }
  }

  lemma AnsweredOnce(events: seq<Event>, id: string, r: nat)
    requires r < |events| && Succeeds(events[r], id)
    ensures |AllMatches(events, id)| == 1 && !AllMatches(events, id)[0].isError <==> AnsweredOnlyAt(events, id, r)
  {
    var results := Results(events[r], false);
    assert results[1..] == [];
    assert MatchesOf(results, id) == results;
    AroundMatches(events, r, id);
    NoMatches(events[..r], id);
    NoMatches(events[r + 1..], id);
    hide AllMatches, MatchesOf, Unmatched;
    var a, b := AllMatches(events[..r], id), AllMatches(events[r + 1..], id);
    assert |a + results + b| == 1 <==> a == [] && b == [];
    assert a == [] && b == [] ==> a + results + b == results;
    if AnsweredOnlyAt(events, id, r) {
      assert forall e | e in events[..r] || e in events[r + 1..] :: Unmatched(e, id);
    }
    if a == [] && b == [] {
      forall j | 0 <= j < |events| && j != r ensures Unmatched(events[j], id) {
        Others(events, r, j);
      }
    }
  }

  lemma InitExactly(events: seq<Event>, init: nat)
    ensures UniqueInit(events) == Some(init) <==> OnlyInit(events, init)
  {
    if OnlyInit(events, init) {
      UniqueAt(events, init);
    } else if UniqueInit(events) == Some(init) {
      GoodInitUnique(events);
    }
  }

  /** The masked stream shows the session's events and hides the others. */
  lemma MaskedExactly(events: seq<Event>, init: nat, i: nat)
    requires OnlyInit(events, init) && i < |events|
    ensures Masked(events).Some? && Masked(events).value[i] == if InSession(events, init, i) then events[i] else Inert
  {
    InitExactly(events, init);
    MaskedIs(events, i);
  }

  lemma InertIs(name: string, id: string)
    ensures !OnlyUse(Inert, name) && !Succeeds(Inert, id) && Uses(Inert, true) == []
  {}

  lemma UsedIsOnly(events: seq<Event>, name: string, i: nat, j: nat)
    requires UsedOnlyAt(events, name, i) && j < |events|
    ensures OnlyUse(events[j], name) <==> j == i
    ensures Uses(events[i], true) == Uses(events[i], false)
  {
    assert Uses(events[j], true) != [] ==> Uses(events[j], true) == Uses(events[j], false);
    assert j != i ==> Unnamed(events[j], name);
    assert j != i && |Uses(events[j], false)| == 1 ==> Uses(events[j], false)[0].name != Some(name);
  }

  lemma AnsweredIsOnly(events: seq<Event>, id: string, r: nat, j: nat)
    requires AnsweredOnlyAt(events, id, r) && j < |events|
    ensures Succeeds(events[j], id) <==> j == r
    ensures Results(events[r], true) == Results(events[r], false)
  {
    assert Results(events[j], true) != [] ==> Results(events[j], true) == Results(events[j], false);
    assert j != r ==> Unmatched(events[j], id);
    assert j != r && |Results(events[j], false)| == 1 ==> Results(events[j], false)[0].toolUseId != Some(id);
  }

  /** What finding a call's result means. */
  lemma ResultExactly(events: seq<Event>, init: nat, id: Option<string>, after: nat, r: nat)
    requires OnlyInit(events, init)
    ensures ResultIndex(events, id, after) == Some(r) <==>
              id.Some? && id.value != "" && after < r && InSession(events, init, r) && AnsweredOnlyAt(events, id.value, r)
  {
    InitExactly(events, init);
    if ResultIndex(events, id, after) == Some(r) {
      ResultFound(events, init, id, after, r);
    }
    if id.Some? && id.value != "" && after < r && InSession(events, init, r) && AnsweredOnlyAt(events, id.value, r) {
      ResultComes(events, init, id.value, after, r);
    }
  }

  lemma ResultFound(events: seq<Event>, init: nat, id: Option<string>, after: nat, r: nat)
    requires OnlyInit(events, init) && ResultIndex(events, id, after) == Some(r)
    ensures id.Some? && id.value != "" && after < r && InSession(events, init, r) && AnsweredOnlyAt(events, id.value, r)
  {
    ResultIs(events, id, after);
    MaskedExactly(events, init, r);
    InertIs("", id.value);
    AnsweredOnce(events, id.value, r);
    hide Masked, AnsweredOnlyAt, Succeeds, OnlyInit, FindIndex;
  }

  lemma ResultComes(events: seq<Event>, init: nat, id: string, after: nat, r: nat)
    requires OnlyInit(events, init) && id != "" && after < r && InSession(events, init, r) && AnsweredOnlyAt(events, id, r)
    ensures ResultIndex(events, Some(id), after) == Some(r)
  {
    MaskedExactly(events, init, r);
    AnsweredIsOnly(events, id, r, r);
    AnsweredOnce(events, id, r);
    var masked := Masked(events).value;
    forall j | 0 <= j < r ensures !Succeeds(masked[j], id) {
      MaskedExactly(events, init, j);
      AnsweredIsOnly(events, id, r, j);
      InertIs("", id);
    }
    hide Masked, AnsweredOnlyAt, Succeeds, OnlyInit, AllMatches, InSession;
    FoundAt(masked, (i, e) => i > after && Succeeds(e, id), 0, r);
  }

  /** The listing, from what must be there. */
  ghost predicate ListedAt(events: seq<Event>, init: nat, list: nat, listId: string, listed: nat) {
    && list < listed < |events|
    && InSession(events, init, list) && UsedOnlyAt(events, LIST, list) && Carries(events, list, listId)
    && InSession(events, init, listed) && AnsweredOnlyAt(events, listId, listed)
    && Results(events[listed], false)[0].address.Some?
  }

  lemma ListingFound(events: seq<Event>, init: nat) returns (list: nat, listId: string)
    requires OnlyInit(events, init) && ListingOf(events).Some?
    ensures ListedAt(events, init, list, listId, ListingOf(events).value.result)
    ensures Results(events[ListingOf(events).value.result], false)[0].address == Some(ListingOf(events).value.address)
  {
    var sender := Masked(events).value;
    list := FindIndex(sender, (i, e) => OnlyUse(e, LIST), 0).value;
    var id := NonEmpty(Uses(sender[list], true)[0].id);
    var listed := ListingOf(events).value.result;
    assert ResultIndex(events, id, list) == Some(listed);
    ResultExactly(events, init, id, list, listed);
    listId := id.value;
    MaskedExactly(events, init, list);
    MaskedExactly(events, init, listed);
    InertIs(LIST, listId);
    UsedOnce(events, LIST, list);
    UsedIsOnly(events, LIST, list, list);
    AnsweredIsOnly(events, listId, listed, listed);
    hide ResultIndex, Masked, UsedOnlyAt, AnsweredOnlyAt, OnlyInit, ToolUseCount, Succeeds, OnlyUse, FindIndex;
  }

  lemma ListingComes(events: seq<Event>, init: nat, list: nat, listId: string, listed: nat)
    requires OnlyInit(events, init) && ListedAt(events, init, list, listId, listed)
    ensures ListingOf(events) == Some(Listing(listed, Results(events[listed], false)[0].address.value))
  {
    MaskedExactly(events, init, list);
    MaskedExactly(events, init, listed);
    UsedIsOnly(events, LIST, list, list);
    UsedOnce(events, LIST, list);
    AnsweredIsOnly(events, listId, listed, listed);
    ResultExactly(events, init, Some(listId), list, listed);
    var sender := Masked(events).value;
    forall j | 0 <= j < list ensures !OnlyUse(sender[j], LIST) {
      MaskedExactly(events, init, j);
      UsedIsOnly(events, LIST, list, j);
      InertIs(LIST, "");
    }
    hide ResultIndex, Masked, UsedOnlyAt, AnsweredOnlyAt, OnlyInit, ToolUseCount, Succeeds, OnlyUse, InSession;
    FoundAt(sender, (i, e) => OnlyUse(e, LIST), 0, list);
  }

  lemma AddressesExactly(input: Option<Input>, address: string, marker: string)
    ensures ExactInput(input, address, marker) <==> input.Some? && input.value.message == Some(marker) && Addresses(input.value, address)
  {}

  lemma QuietExactly(events: seq<Event>, init: nat, from: nat, until: nat)
    requires OnlyInit(events, init)
    ensures Masked(events).Some? && (NoToolBetween(Masked(events).value, from, until) <==> Quiet(events, init, from, until))
  {
    InitExactly(events, init);
    var masked := Masked(events).value;
    forall j | 0 <= j < |events|
      ensures Uses(masked[j], true) == [] <==> !InSession(events, init, j) || Uses(events[j], true) == []
    {
      MaskedExactly(events, init, j);
      InertIs("", "");
    }
    hide Masked, Uses, InSession, OnlyInit;
  }

  /** The send and its result, given the listing. */
  ghost predicate SentAt(events: seq<Event>, marker: string, init: nat, listed: nat, address: string, sent: Sent, sendId: string) {
    && listed < sent.send < sent.result < |events|
    && InSession(events, init, sent.send) && UsedOnlyAt(events, SEND, sent.send) && Carries(events, sent.send, sendId)
    && InSession(events, init, sent.result) && AnsweredOnlyAt(events, sendId, sent.result)
    && Uses(events[sent.send], false)[0].input.Some?
    && Uses(events[sent.send], false)[0].input.value.message == Some(marker)
    && Addresses(Uses(events[sent.send], false)[0].input.value, address)
    && Quiet(events, init, listed, sent.send) && Quiet(events, init, sent.send, sent.result)
  }

  /** What the search for the send has found. */
  lemma SendParts(events: seq<Event>, marker: string)
    requires ObservedSend(events, marker).Some?
    ensures Masked(events).Some? && ListingOf(events).Some? && ToolUseCount(events, SEND) == 1
    ensures var sent, listing, sender := ObservedSend(events, marker).value, ListingOf(events).value, Masked(events).value;
            && listing.result < sent.send < |events| && ExactSend(sender[sent.send], listing.address, marker)
            && ResultIndex(events, NonEmpty(Uses(sender[sent.send], true)[0].id), sent.send) == Some(sent.result)
            && NoToolBetween(sender, listing.result, sent.send) && NoToolBetween(sender, sent.send, sent.result)
  {
    hide Masked, ToolUseCount, ListingOf, ResultIndex, NonEmpty, Uses, NoToolBetween, OnlyUse;
  }

  lemma SendFound(events: seq<Event>, marker: string, init: nat) returns (sendId: string)
    requires OnlyInit(events, init) && ObservedSend(events, marker).Some?
    ensures ListingOf(events).Some?
    ensures SentAt(events, marker, init, ListingOf(events).value.result, ListingOf(events).value.address, ObservedSend(events, marker).value, sendId)
  {
    var sent := ObservedSend(events, marker).value;
    SendParts(events, marker);
    hide ObservedSend;
    var listing, sender := ListingOf(events).value, Masked(events).value;
    hide ListingOf;
    MaskedExactly(events, init, sent.send);
    InertIs(SEND, "");
    var use := Uses(sender[sent.send], true)[0];
    ResultExactly(events, init, NonEmpty(use.id), sent.send, sent.result);
    sendId := use.id.value;
    AddressesExactly(use.input, listing.address, marker);
    UsedOnce(events, SEND, sent.send);
    UsedIsOnly(events, SEND, sent.send, sent.send);
    QuietExactly(events, init, listing.result, sent.send);
    QuietExactly(events, init, sent.send, sent.result);
    hide ResultIndex, Masked, UsedOnlyAt, AnsweredOnlyAt, OnlyInit, ToolUseCount, Succeeds, NoToolBetween, Quiet, Addresses, ExactInput;
  }

  lemma VerdictFound(events: seq<Event>, marker: string) returns (init: nat, list: nat, listId: string, listed: nat, sendId: string)
    requires ObservedSend(events, marker).Some?
    ensures Evidence(events, marker, init, list, listId, listed, ObservedSend(events, marker).value, sendId)
  {
    SendParts(events, marker);
    MaskedIs(events, 0);
    init := UniqueInit(events).value;
    InitExactly(events, init);
    hide ObservedSend, ListingOf, UniqueInit, OnlyInit, Masked;
    list, listId := ListingFound(events, init);
    listed := ListingOf(events).value.result;
    sendId := SendFound(events, marker, init);
    hide UsedOnlyAt, AnsweredOnlyAt, Quiet, Addresses, Uses, Results;
  }

  lemma VerdictComes(events: seq<Event>, marker: string, init: nat, list: nat, listId: string, listed: nat, sent: Sent, sendId: string)
    requires Evidence(events, marker, init, list, listId, listed, sent, sendId)
    ensures ObservedSend(events, marker) == Some(sent)
  {
    var address := Results(events[listed], false)[0].address.value;
    ListingComes(events, init, list, listId, listed);
    MaskedExactly(events, init, sent.send);
    UsedIsOnly(events, SEND, sent.send, sent.send);
    UsedOnce(events, SEND, sent.send);
    AddressesExactly(Uses(events[sent.send], true)[0].input, address, marker);
    ResultExactly(events, init, Some(sendId), sent.send, sent.result);
    QuietExactly(events, init, listed, sent.send);
    QuietExactly(events, init, sent.send, sent.result);
    assert ExactSend(events[sent.send], address, marker);
    var sender := Masked(events).value;
    forall j | 0 <= j < sent.send ensures !ExactSend(sender[j], address, marker) {
      MaskedExactly(events, init, j);
      UsedIsOnly(events, SEND, sent.send, j);
      InertIs(SEND, "");
    }
    hide ResultIndex, Masked, ListingOf, UsedOnlyAt, AnsweredOnlyAt, OnlyInit, ToolUseCount, Succeeds, NoToolBetween, Quiet, Addresses, ExactSend, InSession;
    FoundAt(sender, (i, e) => i > listed && ExactSend(e, address, marker), 0, sent.send);
  }

  /** The offline verdict reports a send and its result exactly when the stream is evidence of
      them; what the searches find first is then the only such thing there is. */
  lemma VerdictExactly(events: seq<Event>, marker: string, sent: Sent)
    ensures ObservedSend(events, marker) == Some(sent) <==>
              exists init, list, listId, listed, sendId :: Evidence(events, marker, init, list, listId, listed, sent, sendId)
  {
    hide ObservedSend, Evidence;
    if ObservedSend(events, marker) == Some(sent) {
      var init, list, listId, listed, sendId := VerdictFound(events, marker);
    }
    if exists init, list, listId, listed, sendId :: Evidence(events, marker, init, list, listId, listed, sent, sendId) {
      var init, list, listId, listed, sendId :| Evidence(events, marker, init, list, listId, listed, sent, sendId);
      VerdictComes(events, marker, init, list, listId, listed, sent, sendId);
    }
  }

  // ---- The barrier, on any stream ----

  predicate InitEvent(e: Event) {
    e.kind.SystemInit?
  }

  predicate OfSession(events: seq<Event>, init: nat, j: nat) {
    init < j < |events| && !InitEvent(events[j]) && events[j].session == events[init].session
  }

  /** Among the first n events: one init, a good one, and no other. */
  ghost predicate OneInit(events: seq<Event>, init: nat, n: nat) {
    init < n <= |events| && GoodInit(events[init]) && forall j | 0 <= j < n && j != init :: !InitEvent(events[j])
  }

  /** Among the first n events: one use that sends the marker, alone in its event and with an
      id, and no other in its session. */
  ghost predicate OneSend(events: seq<Event>, marker: string, init: nat, send: nat, id: string, n: nat) {
    && send < n <= |events| && OfSession(events, init, send)
    && |Uses(events[send], true)| == 1 && Matching(Uses(events[send], true)[0], marker) && Uses(events[send], true)[0].id == Some(id) && id != ""
    && forall j | 0 <= j < n && j != send && OfSession(events, init, j) :: CountMatching(Uses(events[j], true), marker) == 0
  }

  /** What the barrier stands for after n events, unless it is invalid. */
  ghost predicate StandsFor(events: seq<Event>, marker: string, n: nat, b: Barrier, init: nat, send: nat) {
    n <= |events| &&
    if b.sessionId.None? then b.toolUseId.None? && !b.released && forall j | 0 <= j < n :: !InitEvent(events[j])
    else
      && OneInit(events, init, n) && b.sessionId == events[init].session
      && if b.toolUseId.None? then !b.released && forall j | 0 <= j < n && OfSession(events, init, j) :: CountMatching(Uses(events[j], true), marker) == 0
         else
           && OneSend(events, marker, init, send, b.toolUseId.value, n)
           && (!b.released ==> forall j | send < j < n && OfSession(events, init, j) :: !Succeeds(events[j], b.toolUseId.value))
  }

  lemma StandsNext(events: seq<Event>, marker: string, n: nat, b: Barrier, init: nat, send: nat) returns (init': nat, send': nat)
    requires n < |events| && StandsFor(events, marker, n, b, init, send) && !Observe(b, events[n], marker).invalid && !b.invalid
    ensures StandsFor(events, marker, n + 1, Observe(b, events[n], marker), init', send')
  {
    var e := events[n];
    init', send' := init, send;
    if InitEvent(e) {
      init' := n;
    } else if b.sessionId.Some? && e.session == b.sessionId && CountMatching(Uses(e, true), marker) > 0 {
      send' := n;
      assert |Uses(e, true)| == 1 ==> Uses(e, true)[1..] == [] && CountMatching(Uses(e, true)[1..], marker) == 0;
    }
  }

  lemma {:induction false} Stands(events: seq<Event>, marker: string, n: nat) returns (init: nat, send: nat)
    requires n <= |events| && !After(events[..n], marker).invalid
    ensures StandsFor(events, marker, n, After(events[..n], marker), init, send)
    decreases n
  {
    hide StandsFor, Observe;
    if n == 0 {
      init, send := 0, 0;
      NothingStands(events, marker);
    } else {
      assert events[..n][..n - 1] == events[..n - 1];
      InvalidStays(After(events[..n - 1], marker), events[n - 1], marker);
      init, send := Stands(events, marker, n - 1);
      init, send := StandsNext(events, marker, n - 1, After(events[..n - 1], marker), init, send);
    }
  }

  lemma NothingStands(events: seq<Event>, marker: string)
    ensures StandsFor(events, marker, 0, After(events[..0], marker), 0, 0)
  {}

  lemma InvalidStays(b: Barrier, e: Event, marker: string)
    ensures b.invalid ==> Observe(b, e, marker).invalid
  {}

  /** Everything is in place for the release at event k: one good init and no other so far, one
      send of the marker in its session, and at k the first success of that call. */
  ghost predicate Releasing(events: seq<Event>, marker: string, init: nat, send: nat, id: string, k: nat) {
    && k < |events| && send < k && OneInit(events, init, k + 1) && OneSend(events, marker, init, send, id, k + 1)
    && OfSession(events, init, k) && Succeeds(events[k], id)
    && forall j | send < j < k && OfSession(events, init, j) :: !Succeeds(events[j], id)
  }

  lemma ReleaseFound(events: seq<Event>, marker: string, k: nat) returns (init: nat, send: nat, id: string)
    requires ReleasesAt(events, marker, k)
    ensures Releasing(events, marker, init, send, id, k)
  {
    assert events[..k + 1][..k] == events[..k];
    var b := After(events[..k], marker);
    ReleaseMeans(b, events[k], marker);
    hide After, Observe;
    init, send := Stands(events, marker, k);
    id := b.toolUseId.value;
  }

  /** Releasing takes a valid barrier with its session and its call, and that call's success. */
  lemma ReleaseMeans(b: Barrier, e: Event, marker: string)
    requires !b.released && Observe(b, e, marker).released
    ensures !b.invalid && !InitEvent(e) && b.sessionId.Some? && e.session == b.sessionId && b.toolUseId.Some? && Succeeds(e, b.toolUseId.value)
    ensures Uses(e, true) == []
  {}

  lemma ReleaseComes(events: seq<Event>, marker: string, init: nat, send: nat, id: string, k: nat)
    requires Releasing(events, marker, init, send, id, k)
    ensures ReleasesAt(events, marker, k)
  {
    var first := events[..k + 1];
    assert forall j | 0 <= j <= k :: first[j] == events[j];
    assert Chain(first, marker, init, Sent(send, k), id);
    ReleaseExactly(first, marker, init, Sent(send, k), id, k);
    assert first[..k] == events[..k] && first[..k + 1] == events[..k + 1];
    hide Chain, After;
  }

  /** On every stream, whatever else is in it later: the barrier releases at event k if and only
      if everything is in place there. */
  lemma BarrierExactly(events: seq<Event>, marker: string, k: nat)
    ensures ReleasesAt(events, marker, k) <==> exists init, send, id :: Releasing(events, marker, init, send, id, k)
  {
    hide ReleasesAt, Releasing;
    if ReleasesAt(events, marker, k) {
      var init, send, id := ReleaseFound(events, marker, k);
    }
    if exists init, send, id :: Releasing(events, marker, init, send, id, k) {
      var init, send, id :| Releasing(events, marker, init, send, id, k);
      ReleaseComes(events, marker, init, send, id, k);
    }
  }
}
