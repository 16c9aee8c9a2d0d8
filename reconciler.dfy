/** The event/round reconciler: merges the events and rounds of an update
    request into a contest's stored events, in three phases (deletions, updates
    and additions, ordering by the event catalog's rank). The returned rounds
    stand for the stored round documents after the reconciler's writes. */
module Reconciler {
  import opened Domain
  import opened Sorting

  predicate HasResults(round: Round) {
    |round.results| > 0
  }

  predicate EventHasResults(e: CompEvent) {
    exists j :: 0 <= j < |e.rounds| && HasResults(e.rounds[j])
  }

  predicate HasRoundId(rounds: seq<Round>, id: nat) {
    exists round :: round in rounds && round.id == id
  }

  predicate HasEventId(events: seq<CompEvent>, eventId: string) {
    exists e :: e in events && e.eventId == eventId
  }

  /** Some round has the given id and the given results. */
  predicate RoundWith(rounds: seq<Round>, id: nat, results: seq<Result>) {
    exists round :: round in rounds && round.id == id && round.results == results
  }

  /** Some event with the given event id has a round with the given id and results. */
  predicate EventHolding(events: seq<CompEvent>, eventId: string, id: nat, results: seq<Result>) {
    exists e :: e in events && e.eventId == eventId && RoundWith(e.rounds, id, results)
  }

  /** Some event with the given event id has a round with the given id. */
  predicate EventHasRound(events: seq<CompEvent>, eventId: string, id: nat) {
    exists e :: e in events && e.eventId == eventId && HasRoundId(e.rounds, id)
  }

  /** Some event with the given event id holds exactly this round. */
  predicate EventContains(events: seq<CompEvent>, eventId: string, round: Round) {
    exists e :: e in events && e.eventId == eventId && round in e.rounds
  }

  /** The round is in the list and no other round there has its id. */
  predicate SoleRound(rounds: seq<Round>, x: Round) {
    x in rounds && forall z :: z in rounds && z.id == x.id ==> z == x
  }

  /** The events list the event id once, at index `m`. */
  predicate ListedOnceAt(events: seq<CompEvent>, eventId: string, m: nat) {
    m < |events| && events[m].eventId == eventId
    && forall p :: 0 <= p < |events| && p != m ==> events[p].eventId != eventId
  }

  /** The rounds list the round id once, at index `n`. */
  predicate RoundListedOnceAt(rounds: seq<Round>, id: nat, n: nat) {
    n < |rounds| && rounds[n].id == id
    && forall p :: 0 <= p < |rounds| && p != n ==> rounds[p].id != id
  }

  /** Every stored round that the request lists once, in an event it lists
      once, is in the result as the round update rule makes it. */
  ghost predicate RoundRuleApplied(stored: seq<CompEvent>, incoming: seq<CompEvent>, r: seq<CompEvent>) {
    forall e, x, m: nat, n: nat :: e in stored && SoleRound(e.rounds, x) && ListedOnceAt(incoming, e.eventId, m)
      && RoundListedOnceAt(incoming[m].rounds, x.id, n)
      ==> EventContains(r, e.eventId, UpdateRound(x, incoming[m].rounds[n]))
  }

  /** No two events share an event id (the stored contest keeps this). */
  predicate UniqueEventIds(events: seq<CompEvent>) {
    forall i, j :: 0 <= i < j < |events| ==> events[i].eventId != events[j].eventId
  }

  /** The first event with the given id, if any. */
  function FindEvent(events: seq<CompEvent>, eventId: string): (r: Option<nat>)
    ensures r.Some? ==> r.value < |events| && events[r.value].eventId == eventId
    ensures r.Some? ==> forall k :: 0 <= k < r.value ==> events[k].eventId != eventId
    ensures r.None? <==> !HasEventId(events, eventId)
  {
    if events == [] then None
    else if events[0].eventId == eventId then Some(0)
    else
      match FindEvent(events[1..], eventId)
      case None => (assert forall e :: e in events ==> e == events[0] || e in events[1..]; None)
      case Some(k) => Some(k + 1)
  }

  /** The first round with the given id, if any. */
  function FindRound(rounds: seq<Round>, id: nat): (r: Option<nat>)
    ensures r.Some? ==> r.value < |rounds| && rounds[r.value].id == id
    ensures r.Some? ==> forall j :: 0 <= j < r.value ==> rounds[j].id != id
    ensures r.None? <==> !HasRoundId(rounds, id)
  {
    if rounds == [] then None
    else if rounds[0].id == id then Some(0)
    else
      match FindRound(rounds[1..], id)
      case None => (assert forall x :: x in rounds ==> x == rounds[0] || x in rounds[1..]; None)
      case Some(j) => Some(j + 1)
  }

  /** The writes for a matching incoming round: decided on `seen`, the round as
      the reconciler holds it in memory, and applied to `target`, the stored
      round document. The round type is always set; the format only while the
      round has no results; the proceed rule is set when the request has one
      and the round has no results or no rule, and unset when the request has
      none but the round has one. */
  function WriteRound(seen: Round, incoming: Round, target: Round): (r: Round)
    // the round type always follows the request
    ensures r.roundTypeId == incoming.roundTypeId
    // the format is written only when the round in memory has no results
    ensures !HasResults(seen) ==> r.format == incoming.format
    ensures HasResults(seen) ==> r.format == target.format
    // a requested proceed rule is written when the round in memory has no results or no rule
    ensures incoming.proceed.Some? && (!HasResults(seen) || seen.proceed.None?) ==> r.proceed == incoming.proceed
    ensures incoming.proceed.Some? && HasResults(seen) && seen.proceed.Some? ==> r.proceed == target.proceed
    // without a requested rule, the rule is unset when the round in memory has one
    ensures incoming.proceed.None? && seen.proceed.Some? ==> r.proceed.None?
    ensures incoming.proceed.None? && seen.proceed.None? ==> r.proceed == target.proceed
    // identity, results, contest, date and visibility of the document are untouched
    ensures r.id == target.id && r.results == target.results && r.notPublished == target.notPublished
    ensures r.competitionId == target.competitionId && r.date == target.date
  {
    var format := if |seen.results| == 0 then incoming.format else target.format;
    var proceed :=
      if incoming.proceed.Some? then
        (if |seen.results| == 0 || seen.proceed.None? then incoming.proceed else target.proceed)
      else if seen.proceed.Some? then None
      else target.proceed;
    target.(roundTypeId := incoming.roundTypeId, format := format, proceed := proceed)
  }

  /** The update of a stored round from the matching incoming round, when the
      round in memory is the stored one. */
  function UpdateRound(stored: Round, incoming: Round): (r: Round)
    // the round type always follows the request
    ensures r.roundTypeId == incoming.roundTypeId
    // the format changes only while the round has no results, and then follows the request
    ensures r.format != stored.format ==> !HasResults(stored)
    ensures !HasResults(stored) ==> r.format == incoming.format
    // the round is a final round (no proceed rule) exactly when the incoming one is
    ensures r.proceed.None? <==> incoming.proceed.None?
    // an existing proceed rule of a round with results is kept
    ensures HasResults(stored) && stored.proceed.Some? && incoming.proceed.Some? ==> r.proceed == stored.proceed
    ensures incoming.proceed.Some? && (!HasResults(stored) || stored.proceed.None?) ==> r.proceed == incoming.proceed
    // identity, date, results and visibility are untouched
    ensures r.id == stored.id && r.competitionId == stored.competitionId && r.date == stored.date
    ensures r.results == stored.results && r.notPublished == stored.notPublished
  {
    WriteRound(stored, incoming, stored)
  }

  // ---------------------------------------------------------------------------
  // Phase 1: deletions

  /** The stored rounds that survive: those the request still lists and those with results. */
  function KeptRounds(rounds: seq<Round>, incoming: seq<Round>): seq<Round>
  {
    if rounds == [] then []
    else
      var last := rounds[|rounds| - 1];
      KeptRounds(rounds[..|rounds| - 1], incoming)
        + (if HasRoundId(incoming, last.id) || HasResults(last) then [last] else [])
  }

  /** The stored event with its unlisted, result-less rounds removed, when the request lists the event. */
  function PruneEvent(e: CompEvent, incoming: seq<CompEvent>): CompEvent
  {
    match FindEvent(incoming, e.eventId)
    case Some(k) => e.(rounds := KeptRounds(e.rounds, incoming[k].rounds))
    case None => e
  }

  function PruneEach(stored: seq<CompEvent>, incoming: seq<CompEvent>): (r: seq<CompEvent>)
    ensures |r| == |stored|
    ensures forall k :: 0 <= k < |stored| ==> r[k] == PruneEvent(stored[k], incoming)
  {
    if stored == [] then []
    else PruneEach(stored[..|stored| - 1], incoming) + [PruneEvent(stored[|stored| - 1], incoming)]
  }

  /** The ids of the stored events the request omits and that hold no results. */
  function Doomed(stored: seq<CompEvent>, incoming: seq<CompEvent>): set<string>
  {
    set k | 0 <= k < |stored| && !HasEventId(incoming, stored[k].eventId) && !EventHasResults(stored[k])
      :: stored[k].eventId
  }

  /** The events whose id is not in `ids`, in order. */
  function WithoutIds(events: seq<CompEvent>, ids: set<string>): seq<CompEvent>
  {
    if events == [] then []
    else
      var last := events[|events| - 1];
      WithoutIds(events[..|events| - 1], ids) + (if last.eventId in ids then [] else [last])
  }

  /** The stored events after the deletion phase. */
  function AfterDeletions(stored: seq<CompEvent>, incoming: seq<CompEvent>): seq<CompEvent>
  {
    WithoutIds(PruneEach(stored, incoming), Doomed(stored, incoming))
  }

  // ---------------------------------------------------------------------------
  // Phase 2: updates and additions
  //
  // The code decides each round update on the rounds it holds in memory (the
  // rounds as phase 1 left them, with the rounds it creates appended) and sends
  // the writes to the stored round documents, which it never reads back. The
  // `seen` sequences below are the rounds and events in memory; `written` ones
  // are the documents. Both list the same rounds in the same order.

  /** The rounds in memory and the round documents hold the same rounds, position
      by position: same ids and same results. */
  predicate Aligned(seen: seq<Round>, written: seq<Round>) {
    |seen| == |written|
    && forall j :: 0 <= j < |seen| ==> seen[j].id == written[j].id && seen[j].results == written[j].results
  }

  predicate AlignedEvents(seen: seq<CompEvent>, written: seq<CompEvent>) {
    |seen| == |written|
    && forall k :: 0 <= k < |seen| ==> seen[k].eventId == written[k].eventId && Aligned(seen[k].rounds, written[k].rounds)
  }

  /** The rounds in memory after the incoming rounds: each one whose id is not
      held yet is created and appended. */
  function SeenRounds(seen: seq<Round>, incoming: seq<Round>): (s: seq<Round>)
    ensures |seen| <= |s| && s[..|seen|] == seen
    ensures forall p :: |seen| <= p < |s| ==> s[p] in incoming
    ensures forall round :: round in incoming ==> HasRoundId(s, round.id)
  {
    if incoming == [] then seen
    else
      var mem := SeenRounds(seen, incoming[..|incoming| - 1]);
      var round := incoming[|incoming| - 1];
      match FindRound(mem, round.id)
      case Some(j) => assert mem[j] in mem; mem
      case None => assert (mem + [round])[|mem|] == round; mem + [round]
  }

  /** The round documents after each incoming round, in turn, either updates the
      document of the round in memory with its id or is created. */
  function MergeRounds(seen: seq<Round>, written: seq<Round>, incoming: seq<Round>): (r: seq<Round>)
    requires Aligned(seen, written)
    ensures Aligned(SeenRounds(seen, incoming), r)
  {
    if incoming == [] then written
    else
      var mem := SeenRounds(seen, incoming[..|incoming| - 1]);
      var acc := MergeRounds(seen, written, incoming[..|incoming| - 1]);
      var round := incoming[|incoming| - 1];
      match FindRound(mem, round.id)
      case Some(j) => acc[j := WriteRound(mem[j], round, acc[j])]
      case None => acc + [round]
  }

  /** The events in memory after one incoming event: its new rounds join the
      first event with its id, or the event is added. */
  function SeenEvent(seen: seq<CompEvent>, newEvent: CompEvent): (s: seq<CompEvent>)
    // events keep their place and id; only the one with the incoming id changes
    ensures |seen| <= |s| && forall i :: 0 <= i < |seen| ==> s[i].eventId == seen[i].eventId
    ensures forall i :: 0 <= i < |seen| && seen[i].eventId != newEvent.eventId ==> s[i] == seen[i]
  {
    match FindEvent(seen, newEvent.eventId)
    case Some(k) => seen[k := seen[k].(rounds := SeenRounds(seen[k].rounds, newEvent.rounds))]
    case None => seen + [newEvent]
  }

  function SeenEvents(seen: seq<CompEvent>, incoming: seq<CompEvent>): (s: seq<CompEvent>)
    // events keep their place and id; one whose id no incoming event has is unchanged
    ensures |seen| <= |s| && forall i :: 0 <= i < |seen| ==> s[i].eventId == seen[i].eventId
    ensures forall i :: 0 <= i < |seen| && !HasEventId(incoming, seen[i].eventId) ==> s[i] == seen[i]
  {
    if incoming == [] then seen
    else
      var init := incoming[..|incoming| - 1];
      assert forall e :: e in init ==> e in incoming;
      assert incoming[|incoming| - 1] in incoming;
      SeenEvent(SeenEvents(seen, init), incoming[|incoming| - 1])
  }

  /** One incoming event merged into the documents: its rounds merged into the
      first event in memory with its id, or the whole event added. */
  function MergeEvent(seen: seq<CompEvent>, written: seq<CompEvent>, newEvent: CompEvent): (r: seq<CompEvent>)
    requires AlignedEvents(seen, written)
    ensures AlignedEvents(SeenEvent(seen, newEvent), r)
  {
    match FindEvent(seen, newEvent.eventId)
    case Some(k) => written[k := written[k].(rounds := MergeRounds(seen[k].rounds, written[k].rounds, newEvent.rounds))]
    case None => written + [newEvent]
  }

  function MergeEvents(seen: seq<CompEvent>, written: seq<CompEvent>, incoming: seq<CompEvent>): (r: seq<CompEvent>)
    requires AlignedEvents(seen, written)
    ensures AlignedEvents(SeenEvents(seen, incoming), r)
  {
    if incoming == [] then written
    else
      var init := incoming[..|incoming| - 1];
      MergeEvent(SeenEvents(seen, init), MergeEvents(seen, written, init), incoming[|incoming| - 1])
  }

  // ---------------------------------------------------------------------------
  // Phase 3: ordering, and the whole reconciliation

  /** The sort key of an event: its rank in the event catalog. */
  function EventRank(rank: string -> int): CompEvent -> int
  {
    (e: CompEvent) => rank(e.eventId)
  }

  function Reconcile(stored: seq<CompEvent>, incoming: seq<CompEvent>, rank: string -> int): seq<CompEvent>
  {
    var deleted := AfterDeletions(stored, incoming);
    SortBy(MergeEvents(deleted, deleted, incoming), EventRank(rank))
  }

  // ---------------------------------------------------------------------------
  // Facts about the phases

  lemma {:induction false} KeptRoundsFacts(rounds: seq<Round>, incoming: seq<Round>)
    ensures forall round :: round in KeptRounds(rounds, incoming) ==> round in rounds
    ensures forall round :: round in rounds && (HasRoundId(incoming, round.id) || HasResults(round))
                  ==> round in KeptRounds(rounds, incoming)
    ensures forall round :: round in KeptRounds(rounds, incoming) ==> HasRoundId(incoming, round.id) || HasResults(round)
  {
    if rounds != [] {
      var init := rounds[..|rounds| - 1];
      KeptRoundsFacts(init, incoming);
      assert rounds == init + [rounds[|rounds| - 1]];
    }
  }

  lemma {:induction false} WithoutIdsFacts(events: seq<CompEvent>, ids: set<string>)
    ensures forall e :: e in WithoutIds(events, ids) <==> e in events && e.eventId !in ids
  {
    if events != [] {
      var init := events[..|events| - 1];
      WithoutIdsFacts(init, ids);
      assert events == init + [events[|events| - 1]];
    }
  }

  /** With unique event ids, an event is doomed only when the request omits it
      and it holds no results. */
  lemma NotDoomed(stored: seq<CompEvent>, incoming: seq<CompEvent>, k: nat)
    requires UniqueEventIds(stored) && k < |stored|
    requires HasEventId(incoming, stored[k].eventId) || EventHasResults(stored[k])
    ensures stored[k].eventId !in Doomed(stored, incoming)
  {
    forall k' | 0 <= k' < |stored| && stored[k'].eventId == stored[k].eventId ensures k' == k {
    }
  }

  /** Merging rounds keeps every stored round with its results, makes every
      requested round present, and adds nothing but requested rounds; no round's
      results change. */
  lemma MergeRoundsKeeps(seen: seq<Round>, written: seq<Round>, incoming: seq<Round>)
    requires Aligned(seen, written)
    ensures forall id, results :: RoundWith(written, id, results)
              ==> RoundWith(MergeRounds(seen, written, incoming), id, results)
    ensures forall id :: HasRoundId(written, id) ==> HasRoundId(MergeRounds(seen, written, incoming), id)
    ensures forall round :: round in incoming ==> HasRoundId(MergeRounds(seen, written, incoming), round.id)
    ensures forall x :: x in MergeRounds(seen, written, incoming)
              ==> RoundWith(written, x.id, x.results) || RoundWith(incoming, x.id, x.results)
  {
    var held := SeenRounds(seen, incoming);
    var merged := MergeRounds(seen, written, incoming);
    forall p | 0 <= p < |written| ensures merged[p].id == written[p].id && merged[p].results == written[p].results {
      assert held[p] == held[..|seen|][p];
    }
    forall id, results | RoundWith(written, id, results) ensures RoundWith(merged, id, results) {
      var x :| x in written && x.id == id && x.results == results;
      var p :| 0 <= p < |written| && written[p] == x;
      assert merged[p] in merged;
    }
    forall id | HasRoundId(written, id) ensures HasRoundId(merged, id) {
      var x :| x in written && x.id == id;
      var p :| 0 <= p < |written| && written[p] == x;
      assert merged[p] in merged;
    }
    forall round | round in incoming ensures HasRoundId(merged, round.id) {
      var x :| x in held && x.id == round.id;
      var p :| 0 <= p < |held| && held[p] == x;
      assert merged[p] in merged;
    }
    forall x | x in merged ensures RoundWith(written, x.id, x.results) || RoundWith(incoming, x.id, x.results) {
      var p :| 0 <= p < |merged| && merged[p] == x;
      if p < |written| {
        assert written[p] in written;
      } else {
        assert held[p] in incoming;
      }
    }
  }

  /** Merging one requested event keeps every stored round with its results and
      every event id, and makes the requested event and its rounds present. */
  lemma MergeEventFacts(seen: seq<CompEvent>, written: seq<CompEvent>, ne: CompEvent)
    requires AlignedEvents(seen, written)
    ensures forall eventId, id, results :: EventHolding(written, eventId, id, results)
                  ==> EventHolding(MergeEvent(seen, written, ne), eventId, id, results)
    ensures forall eventId, id :: EventHasRound(written, eventId, id)
                  ==> EventHasRound(MergeEvent(seen, written, ne), eventId, id)
    ensures forall round :: round in ne.rounds ==> EventHasRound(MergeEvent(seen, written, ne), ne.eventId, round.id)
    ensures forall eventId :: HasEventId(MergeEvent(seen, written, ne), eventId)
                  <==> HasEventId(written, eventId) || eventId == ne.eventId
  {
    var merged := MergeEvent(seen, written, ne);
    match FindEvent(seen, ne.eventId)
    case Some(k) =>
      MergeRoundsKeeps(seen[k].rounds, written[k].rounds, ne.rounds);
      assert merged == written[k := written[k].(rounds := MergeRounds(seen[k].rounds, written[k].rounds, ne.rounds))];
      assert merged[k] in merged;
      forall i | 0 <= i < |written| ensures merged[i].eventId == written[i].eventId && merged[i] in merged {
      }
      forall eventId, id, results | EventHolding(written, eventId, id, results)
        ensures EventHolding(merged, eventId, id, results)
      {
        var e :| e in written && e.eventId == eventId && RoundWith(e.rounds, id, results);
        var i :| 0 <= i < |written| && written[i] == e;
      }
      forall eventId, id | EventHasRound(written, eventId, id) ensures EventHasRound(merged, eventId, id) {
        var e :| e in written && e.eventId == eventId && HasRoundId(e.rounds, id);
        var i :| 0 <= i < |written| && written[i] == e;
      }
      forall eventId ensures HasEventId(merged, eventId) <==> HasEventId(written, eventId) || eventId == ne.eventId {
        if HasEventId(merged, eventId) {
          var e :| e in merged && e.eventId == eventId;
          var i :| 0 <= i < |merged| && merged[i] == e;
          assert written[i] in written;
        }
        if HasEventId(written, eventId) {
          var e :| e in written && e.eventId == eventId;
          var i :| 0 <= i < |written| && written[i] == e;
        }
      }
    case None =>
      assert merged == written + [ne];
      assert ne in merged;
      forall round | round in ne.rounds ensures HasRoundId(ne.rounds, round.id) {
      }
  }

  /** Merging one requested event adds nothing but the requested event's rounds,
      changes no round's results, and keeps event ids distinct. */
  lemma MergeEventOnlyAdds(seen: seq<CompEvent>, written: seq<CompEvent>, ne: CompEvent)
    requires AlignedEvents(seen, written)
    ensures forall eventId, id, results :: EventHolding(MergeEvent(seen, written, ne), eventId, id, results)
                  ==> EventHolding(written, eventId, id, results)
                      || (eventId == ne.eventId && RoundWith(ne.rounds, id, results))
    ensures UniqueEventIds(written) ==> UniqueEventIds(MergeEvent(seen, written, ne))
  {
    var merged := MergeEvent(seen, written, ne);
    match FindEvent(seen, ne.eventId)
    case Some(k) =>
      MergeRoundsKeeps(seen[k].rounds, written[k].rounds, ne.rounds);
      assert merged == written[k := written[k].(rounds := MergeRounds(seen[k].rounds, written[k].rounds, ne.rounds))];
      forall eventId, id, results | EventHolding(merged, eventId, id, results)
        ensures EventHolding(written, eventId, id, results) || (eventId == ne.eventId && RoundWith(ne.rounds, id, results))
      {
        var e :| e in merged && e.eventId == eventId && RoundWith(e.rounds, id, results);
        var i :| 0 <= i < |merged| && merged[i] == e;
        assert written[i] in written;
        if i == k {
          var x :| x in e.rounds && x.id == id && x.results == results;
        }
      }
    case None =>
      assert merged == written + [ne];
      assert !HasEventId(written, ne.eventId);
      forall eventId, id, results | EventHolding(merged, eventId, id, results)
        ensures EventHolding(written, eventId, id, results) || (eventId == ne.eventId && RoundWith(ne.rounds, id, results))
      {
        var e :| e in merged && e.eventId == eventId && RoundWith(e.rounds, id, results);
      }
      if UniqueEventIds(written) {
        forall i, j | 0 <= i < j < |merged| ensures merged[i].eventId != merged[j].eventId {
          if j == |written| {
            assert written[i] in written;
          }
        }
      }
  }

  lemma {:induction false} MergeEventsFacts(seen: seq<CompEvent>, written: seq<CompEvent>, incoming: seq<CompEvent>)
    requires AlignedEvents(seen, written)
    ensures forall eventId, id, results :: EventHolding(written, eventId, id, results)
                  ==> EventHolding(MergeEvents(seen, written, incoming), eventId, id, results)
    ensures forall eventId, id :: EventHasRound(written, eventId, id)
                  ==> EventHasRound(MergeEvents(seen, written, incoming), eventId, id)
    ensures forall ne, round :: ne in incoming && round in ne.rounds
                  ==> EventHasRound(MergeEvents(seen, written, incoming), ne.eventId, round.id)
    ensures forall eventId :: HasEventId(MergeEvents(seen, written, incoming), eventId)
                  <==> HasEventId(written, eventId) || HasEventId(incoming, eventId)
  {
    if incoming != [] {
      var init := incoming[..|incoming| - 1];
      var ne := incoming[|incoming| - 1];
      MergeEventsFacts(seen, written, init);
      assert incoming == init + [ne];
      MergeEventFacts(SeenEvents(seen, init), MergeEvents(seen, written, init), ne);
    }
  }

  /** Merging all requested events adds nothing but requested rounds, changes no
      round's results, and keeps event ids distinct. */
  lemma {:induction false} MergeEventsOnlyAdds(seen: seq<CompEvent>, written: seq<CompEvent>, incoming: seq<CompEvent>)
    requires AlignedEvents(seen, written)
    ensures forall eventId, id, results :: EventHolding(MergeEvents(seen, written, incoming), eventId, id, results)
                  ==> EventHolding(written, eventId, id, results) || EventHolding(incoming, eventId, id, results)
    ensures UniqueEventIds(written) ==> UniqueEventIds(MergeEvents(seen, written, incoming))
  {
    if incoming != [] {
      var init := incoming[..|incoming| - 1];
      var ne := incoming[|incoming| - 1];
      MergeEventsOnlyAdds(seen, written, init);
      MergeEventOnlyAdds(SeenEvents(seen, init), MergeEvents(seen, written, init), ne);
      forall eventId, id, results | EventHolding(MergeEvents(seen, written, incoming), eventId, id, results)
                                    && eventId == ne.eventId && RoundWith(ne.rounds, id, results)
        ensures EventHolding(incoming, eventId, id, results)
      {
        assert ne in incoming;
      }
      forall eventId, id, results | EventHolding(init, eventId, id, results)
        ensures EventHolding(incoming, eventId, id, results)
      {
        var e :| e in init && e.eventId == eventId && RoundWith(e.rounds, id, results);
        assert e in incoming;
      }
    }
  }

  // ---------------------------------------------------------------------------
  // Where the merge writes

  /** A round document whose id no incoming round carries is not written. */
  lemma {:induction false} MergeRoundsUntouched(seen: seq<Round>, written: seq<Round>, incoming: seq<Round>, j: nat)
    requires Aligned(seen, written) && j < |seen|
    requires forall round :: round in incoming ==> round.id != seen[j].id
    ensures j < |MergeRounds(seen, written, incoming)| && MergeRounds(seen, written, incoming)[j] == written[j]
  {
    if incoming != [] {
      var init := incoming[..|incoming| - 1];
      forall round | round in init ensures round.id != seen[j].id {
        var p :| 0 <= p < |init| && init[p] == round;
        assert incoming[p] in incoming;
      }
      MergeRoundsUntouched(seen, written, init, j);
      assert incoming[|incoming| - 1] in incoming;
      MergeRoundsElsewhere(seen, written, incoming, j);
    }
  }

  /** The first round with an id in a prefix is the first one in the whole list. */
  lemma FindRoundPrefix(rounds: seq<Round>, pre: seq<Round>, id: nat)
    requires |pre| <= |rounds| && forall i :: 0 <= i < |pre| ==> rounds[i].id == pre[i].id
    requires FindRound(pre, id).Some?
    ensures FindRound(rounds, id) == FindRound(pre, id)
  {
    var j := FindRound(pre, id).value;
    assert rounds[j] in rounds;
  }

  /** The first round with an id stays the first one in memory. */
  lemma SeenRoundsFirst(seen: seq<Round>, incoming: seq<Round>, j: nat)
    requires j < |seen| && FindRound(seen, seen[j].id) == Some(j)
    ensures FindRound(SeenRounds(seen, incoming), seen[j].id) == Some(j)
  {
    var mem := SeenRounds(seen, incoming);
    assert forall i :: 0 <= i < |seen| ==> mem[i] == mem[..|seen|][i];
    FindRoundPrefix(mem, seen, seen[j].id);
  }

  /** The last incoming round leaves the documents of other ids alone. */
  lemma MergeRoundsElsewhere(seen: seq<Round>, written: seq<Round>, incoming: seq<Round>, j: nat)
    requires Aligned(seen, written) && incoming != [] && j < |seen|
    requires incoming[|incoming| - 1].id != seen[j].id
    ensures j < |MergeRounds(seen, written, incoming[..|incoming| - 1])|
    ensures j < |MergeRounds(seen, written, incoming)|
    ensures MergeRounds(seen, written, incoming)[j] == MergeRounds(seen, written, incoming[..|incoming| - 1])[j]
  {
    var mem := SeenRounds(seen, incoming[..|incoming| - 1]);
    assert mem[j] == mem[..|seen|][j];
  }

  /** A round listed last, and only there, writes the document of the first
      round in memory with its id. */
  lemma MergeRoundsWritesLast(seen: seq<Round>, written: seq<Round>, incoming: seq<Round>, j: nat)
    requires Aligned(seen, written) && incoming != [] && j < |seen| && FindRound(seen, seen[j].id) == Some(j)
    requires incoming[|incoming| - 1].id == seen[j].id
    requires forall x :: x in incoming[..|incoming| - 1] ==> x.id != seen[j].id
    ensures j < |MergeRounds(seen, written, incoming)|
    ensures MergeRounds(seen, written, incoming)[j] == WriteRound(seen[j], incoming[|incoming| - 1], written[j])
  {
    var init := incoming[..|incoming| - 1];
    MergeRoundsUntouched(seen, written, init, j);
    SeenRoundsFirst(seen, init, j);
    var mem := SeenRounds(seen, init);
    assert mem[j] == mem[..|seen|][j];
  }

  /** The first round in memory with an id that the request lists once is
      written once: the update is decided on that round and applied to its
      document. */
  lemma {:induction false} MergeRoundsWritesOnce(seen: seq<Round>, written: seq<Round>, incoming: seq<Round>,
                                                 j: nat, n: nat)
    requires Aligned(seen, written) && j < |seen| && FindRound(seen, seen[j].id) == Some(j)
    requires RoundListedOnceAt(incoming, seen[j].id, n)
    ensures j < |MergeRounds(seen, written, incoming)|
    ensures MergeRounds(seen, written, incoming)[j] == WriteRound(seen[j], incoming[n], written[j])
  {
    var last := |incoming| - 1;
    var init := incoming[..last];
    if n == last {
      forall x | x in init ensures x.id != seen[j].id {
        var p :| 0 <= p < last && init[p] == x;
      }
      MergeRoundsWritesLast(seen, written, incoming, j);
    } else {
      MergeRoundsWritesOnce(seen, written, init, j, n);
      MergeRoundsElsewhere(seen, written, incoming, j);
    }
  }

  /** An event document whose id no incoming event carries is not written, and
      its event in memory is unchanged. */
  lemma {:induction false} MergeEventsUntouched(seen: seq<CompEvent>, written: seq<CompEvent>,
                                                incoming: seq<CompEvent>, k: nat)
    requires AlignedEvents(seen, written) && k < |seen|
    requires !HasEventId(incoming, seen[k].eventId)
    ensures k < |MergeEvents(seen, written, incoming)| && MergeEvents(seen, written, incoming)[k] == written[k]
  {
    if incoming != [] {
      var init := incoming[..|incoming| - 1];
      assert forall e :: e in init ==> e in incoming;
      MergeEventsUntouched(seen, written, init, k);
      assert incoming[|incoming| - 1] in incoming;
    }
  }

  /** The first event with an id stays the first one when the ids of a prefix are kept. */
  lemma FindEventSameIds(events: seq<CompEvent>, pre: seq<CompEvent>, eventId: string)
    requires |pre| <= |events| && forall i :: 0 <= i < |pre| ==> events[i].eventId == pre[i].eventId
    requires FindEvent(pre, eventId).Some?
    ensures FindEvent(events, eventId) == FindEvent(pre, eventId)
  {
    var k := FindEvent(pre, eventId).value;
    assert events[k] in events;
  }

  /** The last incoming event leaves the event documents of other ids alone. */
  lemma MergeEventsElsewhere(seen: seq<CompEvent>, written: seq<CompEvent>, incoming: seq<CompEvent>, k: nat)
    requires AlignedEvents(seen, written) && incoming != [] && k < |seen|
    requires incoming[|incoming| - 1].eventId != seen[k].eventId
    ensures k < |MergeEvents(seen, written, incoming[..|incoming| - 1])|
    ensures k < |MergeEvents(seen, written, incoming)|
    ensures MergeEvents(seen, written, incoming)[k] == MergeEvents(seen, written, incoming[..|incoming| - 1])[k]
  {
  }

  /** An event listed last, and only there, merges its rounds into the
      document of the first event in memory with its id. */
  lemma MergeEventsWritesLast(seen: seq<CompEvent>, written: seq<CompEvent>, incoming: seq<CompEvent>, k: nat)
    requires AlignedEvents(seen, written) && incoming != [] && k < |seen| && FindEvent(seen, seen[k].eventId) == Some(k)
    requires incoming[|incoming| - 1].eventId == seen[k].eventId
    requires !HasEventId(incoming[..|incoming| - 1], seen[k].eventId)
    ensures k < |MergeEvents(seen, written, incoming)|
    ensures MergeEvents(seen, written, incoming)[k]
            == written[k].(rounds := MergeRounds(seen[k].rounds, written[k].rounds, incoming[|incoming| - 1].rounds))
  {
    var init := incoming[..|incoming| - 1];
    MergeEventsUntouched(seen, written, init, k);
    FindEventSameIds(SeenEvents(seen, init), seen, seen[k].eventId);
  }

  /** The first event in memory with an id that the request lists once has its
      rounds merged once, from that event in memory into its document. */
  lemma {:induction false} MergeEventsWritesOnce(seen: seq<CompEvent>, written: seq<CompEvent>,
                                                 incoming: seq<CompEvent>, k: nat, m: nat)
    requires AlignedEvents(seen, written) && k < |seen| && FindEvent(seen, seen[k].eventId) == Some(k)
    requires ListedOnceAt(incoming, seen[k].eventId, m)
    ensures k < |MergeEvents(seen, written, incoming)|
    ensures MergeEvents(seen, written, incoming)[k]
            == written[k].(rounds := MergeRounds(seen[k].rounds, written[k].rounds, incoming[m].rounds))
  {
    var last := |incoming| - 1;
    var init := incoming[..last];
    if m == last {
      assert !HasEventId(init, seen[k].eventId) by {
        forall e | e in init ensures e.eventId != seen[k].eventId {
          var p :| 0 <= p < last && init[p] == e;
        }
      }
      MergeEventsWritesLast(seen, written, incoming, k);
    } else {
      MergeEventsWritesOnce(seen, written, init, k, m);
      MergeEventsElsewhere(seen, written, incoming, k);
    }
  }

  // ---------------------------------------------------------------------------
  // Properties of the reconciliation

  /** A stored round with results is still in the event after the deletion phase. */
  lemma DeletionKeeps(stored: seq<CompEvent>, incoming: seq<CompEvent>, k: nat, round: Round)
    requires UniqueEventIds(stored) && k < |stored|
    requires round in stored[k].rounds && HasResults(round)
    ensures EventHolding(AfterDeletions(stored, incoming), stored[k].eventId, round.id, round.results)
  {
    var e := stored[k];
    var pruned := PruneEach(stored, incoming);
    var doomed := Doomed(stored, incoming);
    assert EventHasResults(e) by {
      var j :| 0 <= j < |e.rounds| && e.rounds[j] == round;
    }
    NotDoomed(stored, incoming, k);
    WithoutIdsFacts(pruned, doomed);
    var p := pruned[k];
    assert p == PruneEvent(e, incoming);
    match FindEvent(incoming, e.eventId)
    case Some(m) =>
      KeptRoundsFacts(e.rounds, incoming[m].rounds);
    case None =>
    assert round in p.rounds;
    assert p in pruned;
  }

  /** A stored round with results survives, with its results, in an event of the
      same id. */
  lemma RoundsWithResultsKept(stored: seq<CompEvent>, incoming: seq<CompEvent>, rank: string -> int)
    requires UniqueEventIds(stored)
    ensures forall e, round :: e in stored && round in e.rounds && HasResults(round)
                ==> EventHolding(Reconcile(stored, incoming, rank), e.eventId, round.id, round.results)
  {
    var deleted := AfterDeletions(stored, incoming);
    var merged := MergeEvents(deleted, deleted, incoming);
    var r := Reconcile(stored, incoming, rank);
    MergeEventsFacts(deleted, deleted, incoming);
    SortByMembers(merged, EventRank(rank));
    forall e, round | e in stored && round in e.rounds && HasResults(round)
      ensures EventHolding(r, e.eventId, round.id, round.results)
    {
      var k :| 0 <= k < |stored| && stored[k] == e;
      DeletionKeeps(stored, incoming, k, round);
      var x :| x in merged && x.eventId == e.eventId && RoundWith(x.rounds, round.id, round.results);
      assert x in r;
    }
  }

  /** A stored event is gone afterwards exactly when the request omits it and none
      of its rounds has results (the "if" direction holds without unique ids). */
  lemma EventRemovalRule(stored: seq<CompEvent>, incoming: seq<CompEvent>, rank: string -> int)
    ensures forall e :: e in stored && !HasEventId(incoming, e.eventId) && !EventHasResults(e)
                  ==> !HasEventId(Reconcile(stored, incoming, rank), e.eventId)
    ensures UniqueEventIds(stored) ==> forall e :: e in stored ==>
                  (!HasEventId(Reconcile(stored, incoming, rank), e.eventId)
                  <==> !HasEventId(incoming, e.eventId) && !EventHasResults(e))
  {
    var pruned := PruneEach(stored, incoming);
    var doomed := Doomed(stored, incoming);
    var deleted := AfterDeletions(stored, incoming);
    var merged := MergeEvents(deleted, deleted, incoming);
    var r := Reconcile(stored, incoming, rank);
    WithoutIdsFacts(pruned, doomed);
    MergeEventsFacts(deleted, deleted, incoming);
    SortByMembers(merged, EventRank(rank));
    forall e | e in stored && !HasEventId(incoming, e.eventId) && !EventHasResults(e)
      ensures !HasEventId(r, e.eventId)
    {
      var k :| 0 <= k < |stored| && stored[k] == e;
      assert e.eventId in doomed;
      assert !HasEventId(deleted, e.eventId);
      assert !HasEventId(merged, e.eventId);
    }
    if UniqueEventIds(stored) {
      RoundsWithResultsKept(stored, incoming, rank);
      forall e | e in stored && (HasEventId(incoming, e.eventId) || EventHasResults(e))
        ensures HasEventId(r, e.eventId)
      {
        if HasEventId(incoming, e.eventId) {
          assert HasEventId(merged, e.eventId);
          var x :| x in merged && x.eventId == e.eventId;
          assert x in r;
        } else {
          var j :| 0 <= j < |e.rounds| && HasResults(e.rounds[j]);
          assert e.rounds[j] in e.rounds;
          assert EventHolding(r, e.eventId, e.rounds[j].id, e.rounds[j].results);
        }
      }
    }
  }

  /** Every requested event and every requested round is present afterwards. */
  lemma RequestedPresent(stored: seq<CompEvent>, incoming: seq<CompEvent>, rank: string -> int)
    ensures forall ne, round :: ne in incoming && round in ne.rounds
                  ==> EventHasRound(Reconcile(stored, incoming, rank), ne.eventId, round.id)
    ensures forall e :: e in Reconcile(stored, incoming, rank)
                  ==> HasEventId(stored, e.eventId) || HasEventId(incoming, e.eventId)
  {
    RequestedRoundsPresent(stored, incoming, rank);
    OnlyKnownEvents(stored, incoming, rank);
  }

  lemma RequestedRoundsPresent(stored: seq<CompEvent>, incoming: seq<CompEvent>, rank: string -> int)
    ensures forall ne, round :: ne in incoming && round in ne.rounds
                  ==> EventHasRound(Reconcile(stored, incoming, rank), ne.eventId, round.id)
  {
    var deleted := AfterDeletions(stored, incoming);
    var merged := MergeEvents(deleted, deleted, incoming);
    var r := Reconcile(stored, incoming, rank);
    MergeEventsFacts(deleted, deleted, incoming);
    SortByMembers(merged, EventRank(rank));
    forall ne, round | ne in incoming && round in ne.rounds
      ensures EventHasRound(r, ne.eventId, round.id)
    {
      var x :| x in merged && x.eventId == ne.eventId && HasRoundId(x.rounds, round.id);
      assert x in r;
    }
  }

  lemma OnlyKnownEvents(stored: seq<CompEvent>, incoming: seq<CompEvent>, rank: string -> int)
    ensures forall e :: e in Reconcile(stored, incoming, rank)
                  ==> HasEventId(stored, e.eventId) || HasEventId(incoming, e.eventId)
  {
    var deleted := AfterDeletions(stored, incoming);
    var merged := MergeEvents(deleted, deleted, incoming);
    var r := Reconcile(stored, incoming, rank);
    DeletedIdsStored(stored, incoming);
    MergeEventsFacts(deleted, deleted, incoming);
    SortByMembers(merged, EventRank(rank));
    forall e | e in r ensures HasEventId(stored, e.eventId) || HasEventId(incoming, e.eventId) {
      assert e in merged;
      assert HasEventId(merged, e.eventId);
    }
  }

  /** The deletion phase only removes events. */
  lemma DeletedIdsStored(stored: seq<CompEvent>, incoming: seq<CompEvent>)
    ensures forall eventId :: HasEventId(AfterDeletions(stored, incoming), eventId) ==> HasEventId(stored, eventId)
  {
    var pruned := PruneEach(stored, incoming);
    WithoutIdsFacts(pruned, Doomed(stored, incoming));
    forall eventId | HasEventId(AfterDeletions(stored, incoming), eventId) ensures HasEventId(stored, eventId) {
      var d :| d in AfterDeletions(stored, incoming) && d.eventId == eventId;
      var k :| 0 <= k < |pruned| && pruned[k] == d;
      assert stored[k] in stored;
    }
  }

  /** Phase 1 keeps a round of an event only if the request lists it for that
      event, or it is a stored round of that event that holds results or whose
      event the request omits. */
  lemma DeletionOnlyKeeps(stored: seq<CompEvent>, incoming: seq<CompEvent>)
    ensures forall eventId, id, results :: EventHolding(AfterDeletions(stored, incoming), eventId, id, results)
              ==> EventHasRound(incoming, eventId, id)
                  || (EventHolding(stored, eventId, id, results) && (|results| > 0 || !HasEventId(incoming, eventId)))
  {
    var pruned := PruneEach(stored, incoming);
    WithoutIdsFacts(pruned, Doomed(stored, incoming));
    forall eventId, id, results | EventHolding(AfterDeletions(stored, incoming), eventId, id, results)
      ensures EventHasRound(incoming, eventId, id)
              || (EventHolding(stored, eventId, id, results) && (|results| > 0 || !HasEventId(incoming, eventId)))
    {
      var e :| e in AfterDeletions(stored, incoming) && e.eventId == eventId && RoundWith(e.rounds, id, results);
      var x :| x in e.rounds && x.id == id && x.results == results;
      var k :| 0 <= k < |pruned| && pruned[k] == e;
      PrunedOnlyKeeps(stored, incoming, k, x);
      assert stored[k] in stored;
    }
  }

  /** A round of a pruned event is a round of the stored event that the request
      lists for it, or has results, or whose event the request omits. */
  lemma PrunedOnlyKeeps(stored: seq<CompEvent>, incoming: seq<CompEvent>, k: nat, x: Round)
    requires k < |stored| && x in PruneEach(stored, incoming)[k].rounds
    ensures PruneEach(stored, incoming)[k].eventId == stored[k].eventId && x in stored[k].rounds
    ensures EventHasRound(incoming, stored[k].eventId, x.id) || HasResults(x) || !HasEventId(incoming, stored[k].eventId)
  {
    match FindEvent(incoming, stored[k].eventId)
    case Some(m) =>
      KeptRoundsFacts(stored[k].rounds, incoming[m].rounds);
      assert incoming[m] in incoming;
    case None =>
  }

  /** The converse of deletion protection: a round is in an event afterwards only
      if the request lists it for that event, or it is a stored round of that
      event, with the same results, that holds results or whose event the request
      omits. So an omitted round without results in a listed event is gone. */
  lemma RoundRemovalRule(stored: seq<CompEvent>, incoming: seq<CompEvent>, rank: string -> int)
    ensures forall eventId, id, results :: EventHolding(Reconcile(stored, incoming, rank), eventId, id, results)
              ==> EventHasRound(incoming, eventId, id)
                  || (EventHolding(stored, eventId, id, results) && (|results| > 0 || !HasEventId(incoming, eventId)))
  {
    var deleted := AfterDeletions(stored, incoming);
    var merged := MergeEvents(deleted, deleted, incoming);
    var r := Reconcile(stored, incoming, rank);
    DeletionOnlyKeeps(stored, incoming);
    MergeEventsOnlyAdds(deleted, deleted, incoming);
    SortByMembers(merged, EventRank(rank));
    forall eventId, id, results | EventHolding(r, eventId, id, results)
      ensures EventHasRound(incoming, eventId, id)
              || (EventHolding(stored, eventId, id, results) && (|results| > 0 || !HasEventId(incoming, eventId)))
    {
      var e :| e in r && e.eventId == eventId && RoundWith(e.rounds, id, results);
      assert EventHolding(merged, eventId, id, results);
      if EventHolding(incoming, eventId, id, results) {
        var ne :| ne in incoming && ne.eventId == eventId && RoundWith(ne.rounds, id, results);
      }
    }
  }

  /** In an event the request lists, a round it omits is gone afterwards when no
      stored round of that event with its id holds results. */
  lemma OmittedRoundRemoved(stored: seq<CompEvent>, incoming: seq<CompEvent>, rank: string -> int,
                            eventId: string, id: nat)
    requires HasEventId(incoming, eventId) && !EventHasRound(incoming, eventId, id)
    requires forall e, x :: e in stored && e.eventId == eventId && x in e.rounds && x.id == id ==> !HasResults(x)
    ensures !EventHasRound(Reconcile(stored, incoming, rank), eventId, id)
  {
    RoundRemovalRule(stored, incoming, rank);
    NoSurvivor(Reconcile(stored, incoming, rank), stored, incoming, eventId, id);
  }

  lemma NoSurvivor(r: seq<CompEvent>, stored: seq<CompEvent>, incoming: seq<CompEvent>, eventId: string, id: nat)
    requires !EventHasRound(incoming, eventId, id)
    requires forall e, x :: e in stored && e.eventId == eventId && x in e.rounds && x.id == id ==> !HasResults(x)
    requires forall results :: EventHolding(r, eventId, id, results)
               ==> EventHasRound(incoming, eventId, id)
                   || (EventHolding(stored, eventId, id, results) && (|results| > 0 || !HasEventId(incoming, eventId)))
    requires HasEventId(incoming, eventId)
    ensures forall e, x :: e in r && e.eventId == eventId && x in e.rounds ==> x.id != id
  {
    forall e, x | e in r && e.eventId == eventId && x in e.rounds ensures x.id != id {
      assert RoundWith(e.rounds, x.id, x.results);
    }
  }

  lemma {:induction false} WithoutIdsUnique(events: seq<CompEvent>, ids: set<string>)
    requires UniqueEventIds(events)
    ensures UniqueEventIds(WithoutIds(events, ids))
  {
    if events != [] {
      var init := events[..|events| - 1];
      var last := events[|events| - 1];
      WithoutIdsUnique(init, ids);
      WithoutIdsFacts(init, ids);
      var w := WithoutIds(init, ids);
      if last.eventId !in ids {
        forall i | 0 <= i < |w| ensures w[i].eventId != last.eventId {
          assert w[i] in w;
          var m :| 0 <= m < |init| && init[m] == w[i];
        }
      }
    }
  }

  /** The reconciliation keeps event ids distinct: an event is added only when
      no event with its id is held. */
  lemma ReconcileKeepsUniqueIds(stored: seq<CompEvent>, incoming: seq<CompEvent>, rank: string -> int)
    requires UniqueEventIds(stored)
    ensures UniqueEventIds(Reconcile(stored, incoming, rank))
  {
    var pruned := PruneEach(stored, incoming);
    assert UniqueEventIds(pruned);
    WithoutIdsUnique(pruned, Doomed(stored, incoming));
    var deleted := AfterDeletions(stored, incoming);
    MergeEventsOnlyAdds(deleted, deleted, incoming);
    var merged := MergeEvents(deleted, deleted, incoming);
    UniqueIsDistinct(merged);
    SortByDistinct(merged, EventRank(rank), EventIdOf());
    UniqueIsDistinct(Reconcile(stored, incoming, rank));
  }

  /** The event id of an event. */
  function EventIdOf(): CompEvent -> string {
    (e: CompEvent) => e.eventId
  }

  lemma UniqueIsDistinct(events: seq<CompEvent>)
    ensures UniqueEventIds(events) <==> DistinctBy(events, EventIdOf())
  {
  }

  /** A round listed twice in one request is decided both times on the round in
      memory, which the first write does not change: a stored round with results
      and a proceed rule, listed first without a rule and then with one, ends
      without a proceed rule. */
  lemma RoundListedTwice(stored: Round, first: Round, second: Round)
    requires HasResults(stored) && stored.proceed.Some?
    requires first.id == stored.id && first.proceed.None?
    requires second.id == stored.id && second.proceed.Some?
    ensures MergeRounds([stored], [stored], [first, second])
            == [stored.(roundTypeId := second.roundTypeId, proceed := None)]
  {
    var incoming := [first, second];
    assert incoming[..1] == [first] && incoming[..1][..0] == [];
    assert SeenRounds([stored], [first]) == [stored];
    assert MergeRounds([stored], [stored], [first]) == [stored.(roundTypeId := first.roundTypeId, proceed := None)];
  }

  /** An event id listed once is found where it is listed. */
  lemma FindListedOnce(events: seq<CompEvent>, eventId: string, m: nat)
    requires ListedOnceAt(events, eventId, m)
    ensures FindEvent(events, eventId) == Some(m)
  {
    assert events[m] in events;
  }

  /** With distinct ids, each event is the first with its id. */
  lemma FindUnique(events: seq<CompEvent>, k: nat)
    requires UniqueEventIds(events) && k < |events|
    ensures FindEvent(events, events[k].eventId) == Some(k)
  {
    assert events[k] in events;
  }

  /** Pruning keeps event ids, so distinct ids stay distinct. */
  lemma PruneEachUnique(stored: seq<CompEvent>, incoming: seq<CompEvent>)
    requires UniqueEventIds(stored)
    ensures UniqueEventIds(PruneEach(stored, incoming))
  {
    var pruned := PruneEach(stored, incoming);
    forall i, j | 0 <= i < j < |pruned| ensures pruned[i].eventId != pruned[j].eventId {
      assert pruned[i].eventId == stored[i].eventId && pruned[j].eventId == stored[j].eventId;
    }
  }

  /** A stored event that the request lists once loses only its unlisted rounds without results. */
  lemma PrunedListed(stored: seq<CompEvent>, incoming: seq<CompEvent>, i: nat, m: nat)
    requires i < |stored| && ListedOnceAt(incoming, stored[i].eventId, m)
    ensures PruneEach(stored, incoming)[i] == stored[i].(rounds := KeptRounds(stored[i].rounds, incoming[m].rounds))
  {
    FindListedOnce(incoming, stored[i].eventId, m);
  }

  /** A stored event that the request lists once is, after the deletion phase,
      the first event with its id, holding its kept rounds. */
  lemma DeletedEventAt(stored: seq<CompEvent>, incoming: seq<CompEvent>, e: CompEvent, m: nat) returns (k: nat)
    requires UniqueEventIds(stored) && e in stored && ListedOnceAt(incoming, e.eventId, m)
    ensures k < |AfterDeletions(stored, incoming)|
    ensures AfterDeletions(stored, incoming)[k] == e.(rounds := KeptRounds(e.rounds, incoming[m].rounds))
    ensures FindEvent(AfterDeletions(stored, incoming), e.eventId) == Some(k)
  {
    var pruned := PruneEach(stored, incoming);
    var doomed := Doomed(stored, incoming);
    var deleted := AfterDeletions(stored, incoming);
    var i :| 0 <= i < |stored| && stored[i] == e;
    assert incoming[m] in incoming;
    NotDoomed(stored, incoming, i);
    PrunedListed(stored, incoming, i, m);
    WithoutIdsFacts(pruned, doomed);
    assert pruned[i] in deleted;
    k :| 0 <= k < |deleted| && deleted[k] == pruned[i];
    PruneEachUnique(stored, incoming);
    WithoutIdsUnique(pruned, doomed);
    FindUnique(deleted, k);
  }

  /** A round that is alone with its id and listed by the request is kept, as
      the first kept round with its id. */
  lemma KeptSole(rounds: seq<Round>, incoming: seq<Round>, x: Round, n: nat) returns (j: nat)
    requires SoleRound(rounds, x) && RoundListedOnceAt(incoming, x.id, n)
    ensures j < |KeptRounds(rounds, incoming)| && KeptRounds(rounds, incoming)[j] == x
    ensures FindRound(KeptRounds(rounds, incoming), x.id) == Some(j)
  {
    var kept := KeptRounds(rounds, incoming);
    KeptRoundsFacts(rounds, incoming);
    assert incoming[n] in incoming;
    assert x in kept;
    j := FindRound(kept, x.id).value;
    assert kept[j] in kept;
  }

  /** The round update rule holds in the reconciled events: a stored round that
      the request lists once, in an event it lists once, ends as `UpdateRound` of
      the stored round and the requested one. */
  lemma ListedRoundUpdated(stored: seq<CompEvent>, incoming: seq<CompEvent>, rank: string -> int,
                           e: CompEvent, x: Round, m: nat, n: nat)
    requires UniqueEventIds(stored) && e in stored && SoleRound(e.rounds, x)
    requires ListedOnceAt(incoming, e.eventId, m) && RoundListedOnceAt(incoming[m].rounds, x.id, n)
    ensures EventContains(Reconcile(stored, incoming, rank), e.eventId, UpdateRound(x, incoming[m].rounds[n]))
  {
    var deleted := AfterDeletions(stored, incoming);
    var k := DeletedEventAt(stored, incoming, e, m);
    var kept := KeptRounds(e.rounds, incoming[m].rounds);
    var j := KeptSole(e.rounds, incoming[m].rounds, x, n);
    MergeRoundsWritesOnce(kept, kept, incoming[m].rounds, j, n);
    MergeEventsWritesOnce(deleted, deleted, incoming, k, m);
    SortedContains(MergeEvents(deleted, deleted, incoming), rank, k, j);
  }

  /** Sorting by rank keeps every event with every round it holds. */
  lemma SortedContains(merged: seq<CompEvent>, rank: string -> int, k: nat, j: nat)
    requires k < |merged| && j < |merged[k].rounds|
    ensures EventContains(SortBy(merged, EventRank(rank)), merged[k].eventId, merged[k].rounds[j])
  {
    SortByMembers(merged, EventRank(rank));
    assert merged[k] in merged;
    assert merged[k].rounds[j] in merged[k].rounds;
  }

  lemma ReconcileAppliesRoundRule(stored: seq<CompEvent>, incoming: seq<CompEvent>, rank: string -> int)
    requires UniqueEventIds(stored)
    ensures RoundRuleApplied(stored, incoming, Reconcile(stored, incoming, rank))
  {
    forall e, x, m: nat, n: nat | e in stored && SoleRound(e.rounds, x) && ListedOnceAt(incoming, e.eventId, m)
                        && RoundListedOnceAt(incoming[m].rounds, x.id, n)
      ensures EventContains(Reconcile(stored, incoming, rank), e.eventId, UpdateRound(x, incoming[m].rounds[n]))
    {
      ListedRoundUpdated(stored, incoming, rank, e, x, m, n);
    }
  }

  // ---------------------------------------------------------------------------
  // The reconciler

  /** Phase 1 for one listed event: the stored rounds the request still lists or
      that hold results. */
  method RemoveDeletedRounds(rounds: seq<Round>, newRounds: seq<Round>) returns (kept: seq<Round>)
    ensures kept == KeptRounds(rounds, newRounds)
    ensures forall round :: round in kept ==> round in rounds
    ensures forall round :: round in rounds && HasResults(round) ==> round in kept
  {
    kept := [];
    var j := 0;
    while j < |rounds|
      invariant 0 <= j <= |rounds|
      invariant kept == KeptRounds(rounds[..j], newRounds)
    {
      var round := rounds[j];
      assert rounds[..j + 1][..j] == rounds[..j];
      // a round the request omits is deleted only if it has no results
      if HasRoundId(newRounds, round.id) || |round.results| > 0 {
        kept := kept + [round];
      }
      j := j + 1;
    }
    assert rounds[..j] == rounds;
    KeptRoundsFacts(rounds, newRounds);
  }

  /** Phase 1: walks the stored events; a listed event loses the rounds the
      request omits that have no results, an omitted event without results is
      marked for removal. The removals are applied together after the walk (they
      only concern omitted events, which the walk never prunes). */
  method RemoveDeleted(compEvents: seq<CompEvent>, newEvents: seq<CompEvent>) returns (events: seq<CompEvent>)
    ensures events == AfterDeletions(compEvents, newEvents)
  {
    events := compEvents;
    var doomed: set<string> := {};
    var i := 0;
    while i < |compEvents|
      invariant 0 <= i <= |compEvents| && |events| == |compEvents|
      invariant forall k :: 0 <= k < i ==> events[k] == PruneEvent(compEvents[k], newEvents)
      invariant forall k :: i <= k < |compEvents| ==> events[k] == compEvents[k]
      invariant doomed == set k | 0 <= k < i && !HasEventId(newEvents, compEvents[k].eventId)
                                  && !EventHasResults(compEvents[k]) :: compEvents[k].eventId
    {
      var compEvent := compEvents[i];
      var sameEventInNew := FindEvent(newEvents, compEvent.eventId);
      if sameEventInNew.Some? {
        var kept := RemoveDeletedRounds(compEvent.rounds, newEvents[sameEventInNew.value].rounds);
        events := events[i := compEvent.(rounds := kept)];
      } else if !EventHasResults(compEvent) {
        doomed := doomed + {compEvent.eventId};
      }
      i := i + 1;
    }
    assert events == PruneEach(compEvents, newEvents);
    assert doomed == Doomed(compEvents, newEvents);
    events := WithoutIds(events, doomed);
  }

  /** Phase 2 for one listed event: each requested round whose id the rounds in
      memory hold has its update decided on that round and written to its
      document; any other is created and appended to both. */
  method UpdateRounds(rounds: seq<Round>, docs: seq<Round>, newRounds: seq<Round>)
    returns (held: seq<Round>, merged: seq<Round>)
    requires Aligned(rounds, docs)
    ensures held == SeenRounds(rounds, newRounds) && merged == MergeRounds(rounds, docs, newRounds)
    ensures forall round :: round in newRounds ==> HasRoundId(merged, round.id)
    ensures forall id, results :: RoundWith(docs, id, results) ==> RoundWith(merged, id, results)
    ensures forall x :: x in merged ==> RoundWith(docs, x.id, x.results) || RoundWith(newRounds, x.id, x.results)
  {
    held, merged := rounds, docs;
    for j := 0 to |newRounds|
      invariant held == SeenRounds(rounds, newRounds[..j])
      invariant merged == MergeRounds(rounds, docs, newRounds[..j])
    {
      var round := newRounds[j];
      assert newRounds[..j + 1][..j] == newRounds[..j];
      var sameRoundInComp := FindRound(held, round.id);
      if sameRoundInComp.Some? {
        var k := sameRoundInComp.value;
        merged := merged[k := WriteRound(held[k], round, merged[k])];
      } else {
        held := held + [round];
        merged := merged + [round];
      }
    }
    assert newRounds[..|newRounds|] == newRounds;
    MergeRoundsKeeps(rounds, docs, newRounds);
  }

  /** Phase 2: merges each requested event into the first event in memory with
      its id, or adds it as a new event. */
  method AddAndUpdate(events: seq<CompEvent>, newEvents: seq<CompEvent>) returns (merged: seq<CompEvent>)
    ensures merged == MergeEvents(events, events, newEvents)
  {
    var held := events;
    merged := events;
    for i := 0 to |newEvents|
      invariant held == SeenEvents(events, newEvents[..i])
      invariant merged == MergeEvents(events, events, newEvents[..i])
    {
      var newEvent := newEvents[i];
      assert newEvents[..i + 1][..i] == newEvents[..i];
      var sameEventInComp := FindEvent(held, newEvent.eventId);
      if sameEventInComp.Some? {
        var k := sameEventInComp.value;
        var rounds, docs := UpdateRounds(held[k].rounds, merged[k].rounds, newEvent.rounds);
        held := held[k := held[k].(rounds := rounds)];
        merged := merged[k := merged[k].(rounds := docs)];
      } else {
        held := held + [newEvent];
        merged := merged + [newEvent];
      }
    }
    assert newEvents[..|newEvents|] == newEvents;
  }

  /** Merges the request's events into the stored events and returns the new
      event list: deletions, then updates and additions, then ordering by the
      catalog rank. */
  method UpdateCompetitionEvents(compEvents: seq<CompEvent>, newEvents: seq<CompEvent>, rank: string -> int)
    returns (r: seq<CompEvent>)
    ensures r == Reconcile(compEvents, newEvents, rank)
    // deletion protection: a round with results is never removed
    ensures UniqueEventIds(compEvents) ==>
              forall e, round :: e in compEvents && round in e.rounds && HasResults(round)
                ==> EventHolding(r, e.eventId, round.id, round.results)
    // an omitted event is removed exactly when it holds no results
    ensures forall e :: e in compEvents && !HasEventId(newEvents, e.eventId) && !EventHasResults(e)
                ==> !HasEventId(r, e.eventId)
    ensures UniqueEventIds(compEvents) ==>
              forall e :: e in compEvents ==>
                (!HasEventId(r, e.eventId) <==> !HasEventId(newEvents, e.eventId) && !EventHasResults(e))
    // a round survives only if requested, or stored with results or in an omitted event
    ensures forall eventId, id, results :: EventHolding(r, eventId, id, results)
              ==> EventHasRound(newEvents, eventId, id)
                  || (EventHolding(compEvents, eventId, id, results) && (|results| > 0 || !HasEventId(newEvents, eventId)))
    // every requested event and round is present, and nothing else is added
    ensures forall ne, round :: ne in newEvents && round in ne.rounds ==> EventHasRound(r, ne.eventId, round.id)
    ensures forall e :: e in r ==> HasEventId(compEvents, e.eventId) || HasEventId(newEvents, e.eventId)
    // event ids stay distinct
    ensures UniqueEventIds(compEvents) ==> UniqueEventIds(r)
    // a stored round listed once, in an event listed once, is updated by the round rule
    ensures UniqueEventIds(compEvents) ==> RoundRuleApplied(compEvents, newEvents, r)
    // ordered by catalog rank
    ensures SortedBy(r, EventRank(rank))
  {
    var events := RemoveDeleted(compEvents, newEvents);
    events := AddAndUpdate(events, newEvents);
    r := SortBy(events, EventRank(rank));

    SortBySortsAndPermutes(events, EventRank(rank));
    EventRemovalRule(compEvents, newEvents, rank);
    RequestedPresent(compEvents, newEvents, rank);
    RoundRemovalRule(compEvents, newEvents, rank);
    if UniqueEventIds(compEvents) {
      RoundsWithResultsKept(compEvents, newEvents, rank);
      ReconcileKeepsUniqueIds(compEvents, newEvents, rank);
      ReconcileAppliesRoundRule(compEvents, newEvents, rank);
    }
  }
}
