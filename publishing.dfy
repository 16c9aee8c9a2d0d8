/** Publishing a contest (the state change to Published): the not-yet-published
    flag is cleared on the contest's rounds and results. */
module Publishing {
  import opened Domain
  import opened Posting


  function PublishResults(results: seq<Result>, cid: string): (r: seq<Result>)
    ensures |r| == |results|
  {
    seq(|results|, i requires 0 <= i < |results| =>
      if results[i].competitionId == cid then results[i].(notPublished := false) else results[i])
  }

  function PublishRound(round: Round, cid: string): Round {
    round.(notPublished := if round.competitionId == cid then false else round.notPublished,
           results := PublishResults(round.results, cid))
  }

  function PublishEvents(events: seq<CompEvent>, cid: string): (r: seq<CompEvent>)
    ensures |r| == |events|
  {
    seq(|events|, i requires 0 <= i < |events| =>
      events[i].(rounds := seq(|events[i].rounds|, j requires 0 <= j < |events[i].rounds| =>
                             PublishRound(events[i].rounds[j], cid))))
  }

  /** Clears the not-yet-published flag of every round and result of contest `cid`. */
  function Publish(store: Store, cid: string): Store {
    Store(seq(|store.comps|, i requires 0 <= i < |store.comps| =>
                store.comps[i].(events := PublishEvents(store.comps[i].events, cid))),
          PublishResults(store.results, cid))
  }

  /** Publishing clears the flag on every round and result of the contest and on
      nothing else: items of other contests and all other fields are unchanged. */
  lemma PublishScope(store: Store, cid: string)
    ensures var s := Publish(store, cid);
            && |s.results| == |store.results| && |s.comps| == |store.comps|
            && (forall i :: 0 <= i < |s.results| && store.results[i].competitionId == cid
                  ==> s.results[i] == store.results[i].(notPublished := false))
            && (forall i :: 0 <= i < |s.results| && store.results[i].competitionId != cid
                  ==> s.results[i] == store.results[i])
            && (forall i :: 0 <= i < |s.comps| ==>
                  s.comps[i] == store.comps[i].(events := s.comps[i].events)
                  && |s.comps[i].events| == |store.comps[i].events|)
  {
  }

  /** Within a contest's events, the rounds of contest `cid` and their results of
      `cid` become published; every other round and result is unchanged. */
  lemma PublishRoundScope(events: seq<CompEvent>, cid: string, i: nat, j: nat)
    requires i < |events| && j < |events[i].rounds|
    ensures var e := PublishEvents(events, cid)[i];
            var before := events[i].rounds[j];
            && e.eventId == events[i].eventId && |e.rounds| == |events[i].rounds|
            && e.rounds[j] == before.(notPublished := e.rounds[j].notPublished, results := e.rounds[j].results)
            && (before.competitionId == cid ==> !e.rounds[j].notPublished)
            && (before.competitionId != cid ==> e.rounds[j].notPublished == before.notPublished)
            && |e.rounds[j].results| == |before.results|
            && (forall k :: 0 <= k < |before.results| ==>
                  e.rounds[j].results[k] == (if before.results[k].competitionId == cid
                                             then before.results[k].(notPublished := false)
                                             else before.results[k]))
  {
  }
}
