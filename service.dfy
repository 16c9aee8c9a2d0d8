/** The contests service: the store of contests (rounds populated) and of
    results, and the operations that update contests, change their state and
    post their results. */
module Service {
  import opened Domain
  import opened Participants
  import Reconciler
  import opened Lifecycle
  import opened Records
  import opened Posting
  import opened Publishing

  /** Where the first contest with identifier `cid` is stored, if any. */
  function Locate(comps: seq<Competition>, cid: string): (r: Option<nat>)
    ensures r.Some? ==> r.value < |comps| && comps[r.value].competitionId == cid
                        && forall j :: 0 <= j < r.value ==> comps[j].competitionId != cid
    ensures r.None? ==> forall j :: 0 <= j < |comps| ==> comps[j].competitionId != cid
  {
    if comps == [] then None
    else if comps[0].competitionId == cid then Some(0)
    else
      var rest := Locate(comps[1..], cid);
      if rest.Some? then Some(rest.value + 1) else None
  }

  /** The store after `UpdateState` has accepted a change of the contest at `i`. */
  function StateChanged(db: Store, i: nat, newState: CompetitionState, roles: seq<Role>): (r: Store)
    requires i < |db.comps|
    ensures |r.comps| == |db.comps|
  {
    var comp := db.comps[i];
    var base := if MayChangeState(comp.state, newState, roles) && newState == Published
                then Publish(db, comp.competitionId) else db;
    assert |base.comps| == |db.comps|;
    Store(base.comps[i := base.comps[i].(state := NextState(comp.state, newState, roles))], base.results)
  }

  /** A state change sets the contest's state as the caller's role allows and
      changes nothing else, except that an accepted publication clears the
      not-yet-published flags of the contest's results. */
  lemma StateChangeEffects(db: Store, i: nat, newState: CompetitionState, roles: seq<Role>)
    requires i < |db.comps|
    ensures var r := StateChanged(db, i, newState, roles);
            var comp := db.comps[i];
            var publishing := MayChangeState(comp.state, newState, roles) && newState == Published;
            && r.comps[i].state == NextState(comp.state, newState, roles)
            && r.comps[i].competitionId == comp.competitionId && r.comps[i].participants == comp.participants
            && (publishing ==> r.results == PublishResults(db.results, comp.competitionId))
            && (!publishing ==> r.results == db.results
                                && r.comps == db.comps[i := comp.(state := NextState(comp.state, newState, roles))])
  {
    PublishScope(db, db.comps[i].competitionId);
  }

  /** Applies to a loaded contest the fields of an update request that the
      caller's role and the contest's state allow, in the order the service
      assigns them; the events are reconciled with the stored ones. */
  method EditFields(stored: Competition, req: UpdateRequest, roles: seq<Role>,
                    rank: string -> int, persons: seq<int> -> seq<Person>) returns (comp: Competition)
    ensures comp == ApplyUpdate(stored, req, roles, rank, persons)
  {
    comp := stored;
    ghost var detailed := ApplyDetails(ApplyIdentity(stored, req, roles), req, roles, rank);
    var isAdmin := IsAdmin(roles);
    if isAdmin {
      comp := comp.(competitionId := req.competitionId, countryId := req.countryId);
    }

    if isAdmin || comp.state.Below(Finished) {
      if req.contact != "" { comp := comp.(contact := req.contact); }
      if req.description != "" { comp := comp.(description := req.description); }
      var events := Reconciler.UpdateCompetitionEvents(comp.events, req.events, rank);
      comp := comp.(events := events);
    }
    assert comp == detailed;

    comp := EditSchedule(comp, req, roles, persons);
  }

  /** The schedule stage of an update: name, place, dates, organizers, limit
      and main event, for an admin or before the contest is ongoing. */
  method EditSchedule(stored: Competition, req: UpdateRequest, roles: seq<Role>,
                      persons: seq<int> -> seq<Person>) returns (comp: Competition)
    ensures comp == ApplySchedule(stored, req, roles, persons)
  {
    comp := stored;
    if IsAdmin(roles) || comp.state.Below(Ongoing) {
      // optional fields the request leaves empty keep their stored values
      var address, latitude, longitude := comp.address, comp.latitude, comp.longitude;
      var endDate, organizers, competitorLimit := comp.endDate, comp.organizers, comp.competitorLimit;
      if req.address != "" { address := req.address; }
      if req.latitude != 0 && req.longitude != 0 {
        latitude, longitude := req.latitude, req.longitude;
      }
      if req.endDate.Some? { endDate := req.endDate; }
      if req.organizerIds.Some? { organizers := persons(req.organizerIds.value); }
      if req.competitorLimit != 0 { competitorLimit := req.competitorLimit; }
      comp := comp.(name := req.name, city := req.city, venue := req.venue, address := address,
                    latitude := latitude, longitude := longitude, startDate := req.startDate,
                    endDate := endDate, organizers := organizers, competitorLimit := competitorLimit,
                    mainEventId := req.mainEventId);
    }
  }

  class CompetitionsService {
    var comps: seq<Competition>
    var resultDocs: seq<Result>

    constructor (comps0: seq<Competition>, results0: seq<Result>)
      ensures comps == comps0 && resultDocs == results0
    {
      comps := comps0;
      resultDocs := results0;
    }

    function Db(): Store
      reads this
    {
      Store(comps, resultDocs)
    }

    /** Finds the first contest with identifier `cid`. */
    method FindCompetition(cid: string) returns (r: Option<nat>)
      ensures r == Locate(comps, cid)
    {
      var i := 0;
      while i < |comps|
        invariant 0 <= i <= |comps|
        invariant forall j :: 0 <= j < i ==> comps[j].competitionId != cid
      {
        if comps[i].competitionId == cid {
          return Some(i);
        }
        i := i + 1;
      }
      return None;
    }

    /** Validates an update request, then applies the fields the caller's role
        and the contest's state allow and saves the contest. */
    method UpdateCompetition(cid: string, req: UpdateRequest, roles: seq<Role>,
                             rank: string -> int, persons: seq<int> -> seq<Person>) returns (out: Outcome)
      modifies this
      ensures resultDocs == old(resultDocs)
      ensures Locate(old(comps), cid).None? ==> out == Failed(NotFound) && comps == old(comps)
      ensures Locate(old(comps), cid).Some? ==>
                var i := Locate(old(comps), cid).value;
                var reason := ValidateUpdate(old(comps)[i], req);
                if reason.Some? then out == Failed(BadRequest(reason.value)) && comps == old(comps)
                else out == Done && comps == old(comps)[i := ApplyUpdate(old(comps)[i], req, roles, rank, persons)]
    {
      var found := FindCompetition(cid);
      if found.None? {
        return Failed(NotFound);
      }
      var i := found.value;
      var comp := comps[i];

      var reason := ValidateUpdate(comp, req);
      if reason.Some? {
        return Failed(BadRequest(reason.value));
      }

      comp := EditFields(comp, req, roles, rank, persons);
      comps := comps[i := comp];
      return Done;
    }

    /** Changes a contest's state when the caller may; publishing also clears
        the not-yet-published flag on the contest's rounds and results. */
    method UpdateState(cid: string, newState: CompetitionState, roles: seq<Role>) returns (out: Outcome)
      modifies this
      ensures Locate(old(comps), cid).None? ==> out == Failed(NotFound) && Db() == old(Db())
      ensures Locate(old(comps), cid).Some? ==>
                out == Done && Db() == StateChanged(old(Db()), Locate(old(comps), cid).value, newState, roles)
    {
      var found := FindCompetition(cid);
      if found.None? {
        return Failed(NotFound);
      }
      var i := found.value;
      var comp := comps[i];
      if MayChangeState(comp.state, newState, roles) {
        if newState == Published {
          var published := Publish(Db(), comp.competitionId);
          comps, resultDocs := published.comps, published.results;
        }
        comps := comps[i := comps[i].(state := newState)];
      }
      return Done;
    }

    /** Marks the records set in one same-day batch (WR only) and saves the
        batch's rounds one by one; the write numbered `failAt`, counting from
        the `saved` writes made before, fails. */
    method SetRecordsAndSaveResults(sameDayRounds: seq<Round>, activeRecordTypes: seq<RecordType>,
                                    records: map<string, RecordPair>, setNewRecords: SetNewRecords,
                                    failAt: Option<nat>, saved: nat)
      returns (ok: bool, rounds: seq<Round>, newRecords: map<string, RecordPair>)
      requires CoversTypes(records, activeRecordTypes)
      modifies this
      ensures rounds == MarkBatch(sameDayRounds, activeRecordTypes, records, setNewRecords).0
      ensures newRecords == MarkBatch(sameDayRounds, activeRecordTypes, records, setNewRecords).1
      ensures ok <==> !(failAt.Some? && saved <= failAt.value < saved + |rounds|)
      ensures Db() == SaveRounds(old(Db()), if ok then rounds else rounds[..failAt.value - saved])
    {
      rounds, newRecords := sameDayRounds, records;
      for k := 0 to |activeRecordTypes|
        invariant (rounds, newRecords) == MarkBatch(sameDayRounds, activeRecordTypes[..k], records, setNewRecords)
      {
        var rt := activeRecordTypes[k];
        assert activeRecordTypes[..k + 1][..k] == activeRecordTypes[..k];
        if rt.active && rt.wcaEquivalent == WR {
          var marked := setNewRecords(rounds, newRecords[rt.wcaEquivalent], rt.recordLabel);
          rounds, newRecords := marked.0, newRecords[rt.wcaEquivalent := marked.1];
        }
      }
      assert activeRecordTypes[..|activeRecordTypes|] == activeRecordTypes;

      for j := 0 to |rounds|
        invariant !(failAt.Some? && saved <= failAt.value < saved + j)
        invariant Db() == SaveRounds(old(Db()), rounds[..j])
      {
        if failAt == Some(saved + j) {
          return false, rounds, newRecords;
        }
        var round := rounds[j];
        resultDocs := resultDocs + round.results;
        comps := CompsWithResults(comps, round.id, round.results);
        assert rounds[..j + 1][..j] == rounds[..j];
      }
      assert rounds[..|rounds|] == rounds;
      ok := true;
    }

    /** Sets the records of one same-day batch and saves it, continuing a walk
        that has saved `done` on top of `db`; on failure the store holds the
        first rounds of `full` up to the failing write. */
    method FlushDay(sameDayRounds: seq<Round>, activeRecordTypes: seq<RecordType>,
                    records: map<string, RecordPair>, setNewRecords: SetNewRecords,
                    failAt: Option<nat>, saved: nat, done: seq<Round>, ghost db: Store, ghost full: seq<Round>)
      returns (ok: bool, done': seq<Round>, records': map<string, RecordPair>)
      requires CoversTypes(records, activeRecordTypes)
      requires IsPrefix(done + MarkBatch(sameDayRounds, activeRecordTypes, records, setNewRecords).0, full)
      requires !(failAt.Some? && saved <= failAt.value < saved + |done|)
      requires Db() == SaveRounds(db, done)
      modifies this
      ensures done' == done + MarkBatch(sameDayRounds, activeRecordTypes, records, setNewRecords).0
      ensures records' == MarkBatch(sameDayRounds, activeRecordTypes, records, setNewRecords).1
      ensures ok <==> !(failAt.Some? && saved <= failAt.value < saved + |done'|)
      ensures ok ==> Db() == SaveRounds(db, done')
      ensures !ok ==> failAt.Some? && saved <= failAt.value < saved + |full|
                      && Db() == SaveRounds(db, full[..failAt.value - saved])
    {
      var marked;
      ok, marked, records' := SetRecordsAndSaveResults(sameDayRounds, activeRecordTypes, records,
                                                       setNewRecords, failAt, saved + |done|);
      done' := done + marked;
      if ok {
        SaveRoundsConcat(db, done, marked);
      } else {
        FailedInBatch(Db(), db, done, marked, full, failAt.value - saved);
      }
    }

    /** A walk over an event's rounds that has reached round `j`: the batches
        closed so far are marked and saved on top of `db`, without a failed write. */
    ghost predicate Walking(rounds: seq<Round>, j: nat, types: seq<RecordType>, start: map<string, RecordPair>,
                            setNewRecords: SetNewRecords, failAt: Option<nat>, saved: nat, db: Store,
                            done: seq<Round>, records: map<string, RecordPair>, open: seq<Round>)
      reads this
    {
      && WalkedTo(rounds, j, types, start, setNewRecords, done, records, open)
      && !(failAt.Some? && saved <= failAt.value < saved + |done|)
      && Db() == SaveRounds(db, done)
    }

    /** One round of the walk: when its day differs from the open batch's, the
        open batch is marked and saved first; the round then joins the open batch. */
    method VisitRound(rounds: seq<Round>, j: nat, types: seq<RecordType>, ghost start: map<string, RecordPair>,
                      setNewRecords: SetNewRecords, failAt: Option<nat>, saved: nat, ghost db: Store,
                      done: seq<Round>, records: map<string, RecordPair>, open: seq<Round>)
      returns (ok: bool, done': seq<Round>, records': map<string, RecordPair>, open': seq<Round>)
      requires j < |rounds|
      requires Walking(rounds, j, types, start, setNewRecords, failAt, saved, db, done, records, open)
      modifies this
      ensures ok ==> Walking(rounds, j + 1, types, start, setNewRecords, failAt, saved, db, done', records', open')
      ensures !ok ==> var full := ProcessRuns(Runs(rounds), types, start, setNewRecords).0;
                      && failAt.Some? && saved <= failAt.value < saved + |full|
                      && Db() == SaveRounds(db, full[..failAt.value - saved])
    {
      var round := rounds[j];
      // the records of the last day are set when the day changes
      if |open| > 0 && round.date != open[0].date {
        WalkFlush(rounds, j, types, start, setNewRecords, done, records, open);
        ok, done', records' := FlushDay(open, types, records, setNewRecords, failAt, saved, done, db,
                                        ProcessRuns(Runs(rounds), types, start, setNewRecords).0);
        open' := [round];
      } else {
        WalkJoin(rounds, j, types, start, setNewRecords, done, records, open);
        ok, done', records', open' := true, done, records, open + [round];
      }
    }

    /** One event of a post: fetches the event's current records, walks its
        rounds in date order, marks and saves each same-day batch when the day
        changes and the last batch at the end, and adds the rounds' person ids
        to `personIds`. `saved` writes were made before this event. */
    method PostEventResults(compEvent: CompEvent, activeRecordTypes: seq<RecordType>, q: RecordQueries,
                            setNewRecords: SetNewRecords, failAt: Option<nat>, saved: nat, personIds: seq<int>)
      returns (ok: bool, eventRounds: seq<Round>, ids: seq<int>)
      modifies this
      ensures ok <==> !(failAt.Some? && saved <= failAt.value < saved + |ProcessEvent(compEvent, activeRecordTypes, q, setNewRecords)|)
      ensures ok ==> Db() == SaveRounds(old(Db()), ProcessEvent(compEvent, activeRecordTypes, q, setNewRecords))
      ensures !ok ==> Db() == SaveRounds(old(Db()), ProcessEvent(compEvent, activeRecordTypes, q, setNewRecords)[..failAt.value - saved])
      ensures ok ==> eventRounds == ProcessEvent(compEvent, activeRecordTypes, q, setNewRecords)
                     && ids == AddNew(personIds, RoundIds(SortRounds(compEvent.rounds)))
    {
      // no entries when no record type is active
      var fetched := GetEventRecords(compEvent.eventId, activeRecordTypes, None, q);
      var records := fetched.GetOr(map[]);
      ghost var start := records;
      assert start == StartRecords(compEvent.eventId, activeRecordTypes, q);
      var rounds := SortRounds(compEvent.rounds);
      ghost var full := ProcessRuns(Runs(rounds), activeRecordTypes, start, setNewRecords).0;
      assert full == ProcessEvent(compEvent, activeRecordTypes, q, setNewRecords);

      eventRounds := [];
      var sameDayRounds: seq<Round> := [];
      ids := personIds;
      WalkStart(rounds, activeRecordTypes, start, setNewRecords);
      for j := 0 to |rounds|
        invariant Walking(rounds, j, activeRecordTypes, start, setNewRecords, failAt, saved, old(Db()),
                          eventRounds, records, sameDayRounds)
        invariant ids == AddNew(personIds, RoundIds(rounds[..j]))
      {
        var visited;
        visited, eventRounds, records, sameDayRounds := VisitRound(rounds, j, activeRecordTypes, start, setNewRecords,
                                                                   failAt, saved, old(Db()), eventRounds, records,
                                                                   sameDayRounds);
        if !visited {
          return false, eventRounds, ids;
        }
        ParticipantsStep(personIds, rounds, j);
        ids := GetParticipantsInRound(rounds[j], ids);
      }

      // the records of the last day
      WalkEnd(rounds, activeRecordTypes, start, setNewRecords, eventRounds, records, sameDayRounds);
      assert rounds[..|rounds|] == rounds;
      ok, eventRounds, records := FlushDay(sameDayRounds, activeRecordTypes, records, setNewRecords,
                                           failAt, saved, eventRounds, old(Db()), full);
    }

    /** Posts the results of every event, in request order, and counts the
        distinct participants. The write numbered `failAt` (counting every
        round saved during the post) fails and ends the post. */
    method UpdateCompetitionResults(newCompEvents: seq<CompEvent>, activeRecordTypes: seq<RecordType>,
                                    q: RecordQueries, setNewRecords: SetNewRecords, failAt: Option<nat>)
      returns (ok: bool, participants: nat, outEvents: seq<CompEvent>)
      modifies this
      ensures ok <==> !(failAt.Some? && failAt.value < |Posted(newCompEvents, activeRecordTypes, q, setNewRecords)|)
      ensures ok ==> Db() == SaveRounds(old(Db()), Posted(newCompEvents, activeRecordTypes, q, setNewRecords))
      ensures !ok ==> Db() == SaveRounds(old(Db()), Posted(newCompEvents, activeRecordTypes, q, setNewRecords)[..failAt.value])
      ensures ok ==> participants == |Elems(EventIds(newCompEvents))|
      ensures ok ==> outEvents == PostedEvents(newCompEvents, activeRecordTypes, q, setNewRecords)
    {
      var personIds: seq<int> := [];
      var saved: nat := 0;
      outEvents := [];
      for k := 0 to |newCompEvents|
        invariant saved == |Posted(newCompEvents[..k], activeRecordTypes, q, setNewRecords)|
        invariant !(failAt.Some? && failAt.value < saved)
        invariant Db() == SaveRounds(old(Db()), Posted(newCompEvents[..k], activeRecordTypes, q, setNewRecords))
        invariant personIds == AddNew([], PostedIds(newCompEvents[..k]))
        invariant outEvents == PostedEvents(newCompEvents[..k], activeRecordTypes, q, setNewRecords)
      {
        var compEvent := newCompEvents[k];
        ghost var before := Db();
        var posted, eventRounds, ids := PostEventResults(compEvent, activeRecordTypes, q, setNewRecords,
                                                         failAt, saved, personIds);
        PostedStep(old(Db()), before, Db(), newCompEvents, k, activeRecordTypes, q, setNewRecords, failAt, saved, posted);
        if !posted {
          return false, 0, outEvents;
        }
        assert newCompEvents[..k + 1][..k] == newCompEvents[..k];
        AddNewConcat([], PostedIds(newCompEvents[..k]), RoundIds(SortRounds(compEvent.rounds)));
        saved := saved + |eventRounds|;
        personIds := ids;
        outEvents := outEvents + [compEvent.(rounds := eventRounds)];
      }
      assert newCompEvents[..|newCompEvents|] == newCompEvents;
      ParticipantCount(newCompEvents);
      participants := |personIds|;
      ok := true;
    }

    /** Posts a contest's results: only an approved contest that is not yet
        finished accepts them. The contest's results are set aside and
        deleted, the events posted, and the contest made ongoing with its
        participant count; if a write fails the set-aside results, when there
        are any, are restored and the post fails. */
    method PostResults(cid: string, req: UpdateRequest, activeRecordTypes: seq<RecordType>, q: RecordQueries,
                       setNewRecords: SetNewRecords, failAt: Option<nat>) returns (out: Outcome)
      modifies this
      ensures Locate(old(comps), cid).None? ==> out == Failed(NotFound) && Db() == old(Db())
      ensures Locate(old(comps), cid).Some? ==>
                var i := Locate(old(comps), cid).value;
                if old(comps)[i].state.Below(Approved) then
                  out == Failed(BadRequest(NotApproved)) && Db() == old(Db())
                else if !old(comps)[i].state.Below(Finished) then
                  out == Failed(BadRequest(AlreadyFinished)) && Db() == old(Db())
                else
                  (out, Db()) == AfterPost(old(Db()), i, req.events, activeRecordTypes, q, setNewRecords, failAt)
    {
      var found := FindCompetition(cid);
      if found.None? {
        return Failed(NotFound);
      }
      var i := found.value;
      var comp := comps[i];
      if comp.state.Below(Approved) {
        return Failed(BadRequest(NotApproved));
      } else if !comp.state.Below(Finished) {
        return Failed(BadRequest(AlreadyFinished));
      }

      // set the contest's results aside, then delete them
      var tempResults := ResultsOf(resultDocs, cid);
      resultDocs := WithoutResultsOf(resultDocs, cid);
      ghost var cleared := Db();
      var ok, participants, _ := UpdateCompetitionResults(req.events, activeRecordTypes, q, setNewRecords, failAt);
      if !ok {
        // the set-aside results are restored only when there were any
        if |tempResults| > 0 {
          resultDocs := Rollback(resultDocs, tempResults, cid);
        }
        return Failed(InternalError);
      }
      SavesKeepContests(cleared, Posted(req.events, activeRecordTypes, q, setNewRecords));
      comps := comps[i := comps[i].(participants := participants, state := Ongoing)];
      return Done;
    }
  }

  /** A write failing inside a batch leaves the rounds saved before it, which
      are the start of everything that was to be saved. */
  lemma FailedInBatch(now: Store, db: Store, before: seq<Round>, batch: seq<Round>, full: seq<Round>, n: nat)
    requires IsPrefix(before + batch, full) && |before| <= n < |before| + |batch|
    requires now == SaveRounds(SaveRounds(db, before), batch[..n - |before|])
    ensures now == SaveRounds(db, full[..n])
  {
    var k := n - |before|;
    SaveRoundsConcat(db, before, batch[..k]);
    assert before + batch[..k] == full[..n] by {
      assert full[..n] == (before + batch)[..n];
      assert before + batch[..k] == (before + batch)[..n];
    }
  }

  /** Aggregating one more round of the walk. */
  lemma ParticipantsStep(personIds: seq<int>, rounds: seq<Round>, j: nat)
    requires j < |rounds|
    ensures AddNew(personIds, RoundIds(rounds[..j + 1]))
         == AddNew(AddNew(personIds, RoundIds(rounds[..j])), ResultIds(rounds[j].results))
  {
    assert rounds[..j + 1][..j] == rounds[..j];
    AddNewConcat(personIds, RoundIds(rounds[..j]), ResultIds(rounds[j].results));
  }

  /** The events a post reports back: each with its rounds as they were saved. */
  function PostedEvents(events: seq<CompEvent>, types: seq<RecordType>, q: RecordQueries,
                        setNewRecords: SetNewRecords): (r: seq<CompEvent>)
    ensures |r| == |events|
    ensures forall k :: 0 <= k < |r| ==>
              r[k] == events[k].(rounds := ProcessEvent(events[k], types, q, setNewRecords))
  {
    if events == [] then []
    else
      var last := events[|events| - 1];
      PostedEvents(events[..|events| - 1], types, q, setNewRecords)
        + [last.(rounds := ProcessEvent(last, types, q, setNewRecords))]
  }

  /** The store when write `n` of a post fails: the contest's results deleted
      and the first `n` rounds of the post saved. */
  function PartialPost(db: Store, i: nat, events: seq<CompEvent>, types: seq<RecordType>, q: RecordQueries,
                       setNewRecords: SetNewRecords, n: nat): Store
    requires i < |db.comps| && n <= |Posted(events, types, q, setNewRecords)|
  {
    var cleared := Store(db.comps, WithoutResultsOf(db.results, db.comps[i].competitionId));
    SaveRounds(cleared, Posted(events, types, q, setNewRecords)[..n])
  }

  /** The outcome and the store after an accepted post of `events` to the
      contest at `i`: its results are set aside and deleted, the rounds saved
      in order; when write `failAt` fails the set-aside results are restored if
      there were any, otherwise the contest becomes ongoing with its
      participant count. */
  function AfterPost(db: Store, i: nat, events: seq<CompEvent>, types: seq<RecordType>, q: RecordQueries,
                     setNewRecords: SetNewRecords, failAt: Option<nat>): (r: (Outcome, Store))
    requires i < |db.comps|
    ensures |r.1.comps| == |db.comps|
  {
    var cid := db.comps[i].competitionId;
    var snapshot := ResultsOf(db.results, cid);
    var cleared := Store(db.comps, WithoutResultsOf(db.results, cid));
    var posted := Posted(events, types, q, setNewRecords);
    if failAt.Some? && failAt.value < |posted| then
      var partial := PartialPost(db, i, events, types, q, setNewRecords, failAt.value);
      SavesKeepContests(cleared, posted[..failAt.value]);
      (Failed(InternalError), Store(partial.comps, RollbackAsWritten(partial.results, snapshot, cid)))
    else
      var saved := SaveRounds(cleared, posted);
      SavesKeepContests(cleared, posted);
      (Done, Store(saved.comps[i := saved.comps[i].(participants := |Elems(EventIds(events))|, state := Ongoing)],
                   saved.results))
  }

  /** The post with the rollback the failure path evidently intends: the
      set-aside results are restored even when there were none, so that the
      partially saved ones are deleted. */
  function CorrectedAfterPost(db: Store, i: nat, events: seq<CompEvent>, types: seq<RecordType>, q: RecordQueries,
                              setNewRecords: SetNewRecords, failAt: Option<nat>): (r: (Outcome, Store))
    requires i < |db.comps|
    ensures |r.1.comps| == |db.comps|
  {
    var cid := db.comps[i].competitionId;
    var posted := Posted(events, types, q, setNewRecords);
    if failAt.Some? && failAt.value < |posted| then
      var partial := PartialPost(db, i, events, types, q, setNewRecords, failAt.value);
      SavesKeepContests(Store(db.comps, WithoutResultsOf(db.results, cid)), posted[..failAt.value]);
      (Failed(InternalError), Store(partial.comps, Rollback(partial.results, ResultsOf(db.results, cid), cid)))
    else
      AfterPost(db, i, events, types, q, setNewRecords, failAt)
  }

  /** A post succeeds exactly when no write fails; the contest is then ongoing
      and counts every distinct person of the posted results, and nothing else
      of it but its rounds' results changes. */
  lemma PostSucceeds(db: Store, i: nat, events: seq<CompEvent>, types: seq<RecordType>, q: RecordQueries,
                     setNewRecords: SetNewRecords, failAt: Option<nat>)
    requires i < |db.comps|
    ensures var r := AfterPost(db, i, events, types, q, setNewRecords, failAt);
            && (r.0 == Done <==> !(failAt.Some? && failAt.value < |Posted(events, types, q, setNewRecords)|))
            && (r.0 == Done ==>
                  && r.1.comps[i].state == Ongoing
                  && r.1.comps[i].participants == |Elems(EventIds(events))|
                  && r.1.comps[i] == db.comps[i].(events := r.1.comps[i].events, state := Ongoing,
                                                  participants := r.1.comps[i].participants))
  {
    var cid := db.comps[i].competitionId;
    var cleared := Store(db.comps, WithoutResultsOf(db.results, cid));
    SavesKeepContests(cleared, Posted(events, types, q, setNewRecords));
  }

  /** A failed post leaves the contest's state and participant count as they
      were. The contest gets back the results it had before when it had some;
      when it had none, the store is left as the failing post wrote it, the
      results saved before the failing write included. */
  lemma PostRollsBack(db: Store, i: nat, events: seq<CompEvent>, types: seq<RecordType>, q: RecordQueries,
                      setNewRecords: SetNewRecords, failAt: Option<nat>)
    requires i < |db.comps|
    ensures var r := AfterPost(db, i, events, types, q, setNewRecords, failAt);
            var cid := db.comps[i].competitionId;
            var posted := Posted(events, types, q, setNewRecords);
            r.0 != Done ==>
              && r.0 == Failed(InternalError)
              && r.1.comps[i].state == db.comps[i].state
              && r.1.comps[i].participants == db.comps[i].participants
              && failAt.Some? && failAt.value < |posted|
              && (ResultsOf(db.results, cid) != [] ==> ResultsOf(r.1.results, cid) == ResultsOf(db.results, cid))
              && (ResultsOf(db.results, cid) == [] ==> r.1 == SaveRounds(db, posted[..failAt.value]))
  {
    var cid := db.comps[i].competitionId;
    var cleared := Store(db.comps, WithoutResultsOf(db.results, cid));
    var posted := Posted(events, types, q, setNewRecords);
    if failAt.Some? && failAt.value < |posted| {
      var partial := SaveRounds(cleared, posted[..failAt.value]);
      SavesKeepContests(cleared, posted[..failAt.value]);
      if ResultsOf(db.results, cid) != [] {
        RollbackRestores(partial.results, ResultsOf(db.results, cid), cid);
      } else {
        WithoutAbsent(db.results, cid);
        assert cleared == db;
      }
    }
  }

  /** The corrected post: a failed post gives the contest back exactly the
      results it had before, whether or not it had any, and leaves its state
      and participant count as they were. */
  lemma CorrectedPostRollsBack(db: Store, i: nat, events: seq<CompEvent>, types: seq<RecordType>, q: RecordQueries,
                               setNewRecords: SetNewRecords, failAt: Option<nat>)
    requires i < |db.comps|
    ensures var r := CorrectedAfterPost(db, i, events, types, q, setNewRecords, failAt);
            var cid := db.comps[i].competitionId;
            r.0 != Done ==>
              && r.0 == Failed(InternalError)
              && ResultsOf(r.1.results, cid) == ResultsOf(db.results, cid)
              && r.1.comps[i].state == db.comps[i].state
              && r.1.comps[i].participants == db.comps[i].participants
  {
    var cid := db.comps[i].competitionId;
    var cleared := Store(db.comps, WithoutResultsOf(db.results, cid));
    var posted := Posted(events, types, q, setNewRecords);
    if failAt.Some? && failAt.value < |posted| {
      var partial := SaveRounds(cleared, posted[..failAt.value]);
      SavesKeepContests(cleared, posted[..failAt.value]);
      RollbackRestores(partial.results, ResultsOf(db.results, cid), cid);
    } else {
      PostSucceeds(db, i, events, types, q, setNewRecords, failAt);
    }
  }

  /** The post as written and the corrected post differ only for a contest
      without results: they agree whenever it had some, and always on success. */
  lemma CorrectionOnlyForEmptySnapshot(db: Store, i: nat, events: seq<CompEvent>, types: seq<RecordType>,
                                       q: RecordQueries, setNewRecords: SetNewRecords, failAt: Option<nat>)
    requires i < |db.comps|
    ensures ResultsOf(db.results, db.comps[i].competitionId) != [] ==>
              CorrectedAfterPost(db, i, events, types, q, setNewRecords, failAt)
              == AfterPost(db, i, events, types, q, setNewRecords, failAt)
    ensures AfterPost(db, i, events, types, q, setNewRecords, failAt).0 == Done ==>
              CorrectedAfterPost(db, i, events, types, q, setNewRecords, failAt)
              == AfterPost(db, i, events, types, q, setNewRecords, failAt)
  {
    PostSucceeds(db, i, events, types, q, setNewRecords, failAt);
  }

  /** One event of a post, seen from the whole post: the writes of the event
      continue those of the events before it, and a failing one leaves the
      first rounds of the whole post saved. */
  lemma PostedStep(db: Store, before: Store, now: Store, events: seq<CompEvent>, k: nat, types: seq<RecordType>,
                   q: RecordQueries, setNewRecords: SetNewRecords, failAt: Option<nat>, saved: nat, ok: bool)
    requires k < |events|
    requires saved == |Posted(events[..k], types, q, setNewRecords)|
    requires !(failAt.Some? && failAt.value < saved)
    requires before == SaveRounds(db, Posted(events[..k], types, q, setNewRecords))
    requires ok <==> !(failAt.Some? && saved <= failAt.value < saved + |ProcessEvent(events[k], types, q, setNewRecords)|)
    requires ok ==> now == SaveRounds(before, ProcessEvent(events[k], types, q, setNewRecords))
    requires !ok ==> now == SaveRounds(before, ProcessEvent(events[k], types, q, setNewRecords)[..failAt.value - saved])
    ensures ok ==> && saved + |ProcessEvent(events[k], types, q, setNewRecords)| == |Posted(events[..k + 1], types, q, setNewRecords)|
                   && !(failAt.Some? && failAt.value < |Posted(events[..k + 1], types, q, setNewRecords)|)
                   && now == SaveRounds(db, Posted(events[..k + 1], types, q, setNewRecords))
    ensures !ok ==> && failAt.Some? && failAt.value < |Posted(events, types, q, setNewRecords)|
                    && now == SaveRounds(db, Posted(events, types, q, setNewRecords)[..failAt.value])
  {
    var prior := Posted(events[..k], types, q, setNewRecords);
    var current := ProcessEvent(events[k], types, q, setNewRecords);
    assert events[..k + 1][..k] == events[..k];
    assert Posted(events[..k + 1], types, q, setNewRecords) == prior + current;
    PostedGrows(events, k + 1, types, q, setNewRecords);
    assert events[..|events|] == events;
    if ok {
      SaveRoundsConcat(db, prior, current);
    } else {
      FailedInBatch(now, db, prior, current, Posted(events, types, q, setNewRecords), failAt.value);
    }
  }
}
