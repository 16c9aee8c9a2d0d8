/** The contest state machine: who may change a contest's state, which fields an
    update applies in each state, and the checks an update must pass first. */
module Lifecycle {
  import opened Domain
  import Reconciler

  predicate IsAdmin(roles: seq<Role>) {
    Admin in roles
  }

  /** An admin may set any state; anyone else may only finish an ongoing contest. */
  predicate MayChangeState(current: CompetitionState, requested: CompetitionState, roles: seq<Role>) {
    IsAdmin(roles) || (requested == Finished && current == Ongoing)
  }

  /** The state after a caller with `roles` asks for `requested`. */
  function NextState(current: CompetitionState, requested: CompetitionState, roles: seq<Role>): (s: CompetitionState)
    ensures s == current || s == requested
    ensures IsAdmin(roles) ==> s == requested
    ensures !IsAdmin(roles) ==> (s != current <==> current == Ongoing && requested == Finished)
  {
    if MayChangeState(current, requested, roles) then requested else current
  }

  /** Identifier and region may be edited by an admin only. */
  predicate MayEditIdentity(roles: seq<Role>) {
    IsAdmin(roles)
  }

  /** Contact, description and events may be edited by an admin, or before the contest is finished. */
  predicate MayEditDetails(roles: seq<Role>, state: CompetitionState) {
    IsAdmin(roles) || state.Below(Finished)
  }

  /** Name, place, dates, organizers, competitor limit and main event may be edited
      by an admin, or before the contest is ongoing. */
  predicate MayEditSchedule(roles: seq<Role>, state: CompetitionState) {
    IsAdmin(roles) || state.Below(Ongoing)
  }

  /** The gates only close as the contest advances: whatever may be edited in a
      later state may also be edited in an earlier one, and schedule edits imply
      detail edits. */
  lemma GatesCloseMonotonically(roles: seq<Role>, earlier: CompetitionState, later: CompetitionState)
    requires !later.Below(earlier)
    ensures MayEditDetails(roles, later) ==> MayEditDetails(roles, earlier)
    ensures MayEditSchedule(roles, later) ==> MayEditSchedule(roles, earlier)
    ensures MayEditSchedule(roles, later) ==> MayEditDetails(roles, later)
  {
  }

  /** Why an update request is rejected, if it is: an event with more than
      MaxRounds rounds, an event without rounds, or a missing end date on a
      contest of type Competition, checked in this order. */
  function ValidateUpdate(comp: Competition, req: UpdateRequest): (r: Option<BadRequestReason>)
    ensures r.None? <==> (forall e :: e in req.events ==> 0 < |e.rounds| <= MaxRounds)
                           && (comp.kind == CompetitionType.Competition ==> req.endDate.Some?)
    ensures r == Some(TooManyRounds) <==> exists e :: e in req.events && |e.rounds| > MaxRounds
    ensures r == Some(NoRounds) <==> (forall e :: e in req.events ==> |e.rounds| <= MaxRounds)
                                      && exists e :: e in req.events && |e.rounds| == 0
    ensures r == Some(MissingEndDate) <==> (forall e :: e in req.events ==> 0 < |e.rounds| <= MaxRounds)
                                            && comp.kind == CompetitionType.Competition && req.endDate.None?
  {
    if exists e :: e in req.events && |e.rounds| > MaxRounds then Some(TooManyRounds)
    else if exists e :: e in req.events && |e.rounds| == 0 then Some(NoRounds)
    else if comp.kind == CompetitionType.Competition && req.endDate.None? then Some(MissingEndDate)
    else None
  }

  /** Identifier and region: applied for an admin only. */
  function ApplyIdentity(comp: Competition, req: UpdateRequest, roles: seq<Role>): Competition
  {
    if MayEditIdentity(roles) then comp.(competitionId := req.competitionId, countryId := req.countryId)
    else comp
  }

  /** Contact, description and events: applied for an admin or before Finished;
      an empty contact or description leaves the stored one. */
  function ApplyDetails(comp: Competition, req: UpdateRequest, roles: seq<Role>, rank: string -> int): Competition
  {
    if MayEditDetails(roles, comp.state) then
      comp.(contact := if req.contact != "" then req.contact else comp.contact,
            description := if req.description != "" then req.description else comp.description,
            events := Reconciler.Reconcile(comp.events, req.events, rank))
    else comp
  }

  /** Name, place, dates, organizers, competitor limit and main event: applied for
      an admin or before Ongoing; optional fields the request leaves out keep the
      stored value. */
  function ApplySchedule(comp: Competition, req: UpdateRequest, roles: seq<Role>,
                         persons: seq<int> -> seq<Person>): Competition
  {
    if MayEditSchedule(roles, comp.state) then
      var placed := req.latitude != 0 && req.longitude != 0;
      comp.(
        name := req.name,
        city := req.city,
        venue := req.venue,
        address := if req.address != "" then req.address else comp.address,
        latitude := if placed then req.latitude else comp.latitude,
        longitude := if placed then req.longitude else comp.longitude,
        startDate := req.startDate,
        endDate := if req.endDate.Some? then req.endDate else comp.endDate,
        organizers := if req.organizerIds.Some? then persons(req.organizerIds.value) else comp.organizers,
        competitorLimit := if req.competitorLimit != 0 then req.competitorLimit else comp.competitorLimit,
        mainEventId := req.mainEventId)
    else comp
  }

  /** The stored contest after an accepted update request, with the events
      reconciled by the catalog rank `rank` and organizers looked up by `persons`. */
  function ApplyUpdate(comp: Competition, req: UpdateRequest, roles: seq<Role>,
                       rank: string -> int, persons: seq<int> -> seq<Person>): Competition
  {
    ApplySchedule(ApplyDetails(ApplyIdentity(comp, req, roles), req, roles, rank), req, roles, persons)
  }

  /** The update never touches the lifecycle: state, type and participants keep
      their stored values, and which gates are open is decided by the stored state. */
  lemma UpdateKeepsLifecycle(comp: Competition, req: UpdateRequest, roles: seq<Role>,
                             rank: string -> int, persons: seq<int> -> seq<Person>)
    ensures var r := ApplyUpdate(comp, req, roles, rank, persons);
            r.state == comp.state && r.participants == comp.participants && r.kind == comp.kind
  {
  }

  /** Identifier and region change only for an admin, and then follow the request. */
  lemma IdentityGate(comp: Competition, req: UpdateRequest, roles: seq<Role>,
                     rank: string -> int, persons: seq<int> -> seq<Person>)
    ensures var r := ApplyUpdate(comp, req, roles, rank, persons);
            (r.competitionId != comp.competitionId || r.countryId != comp.countryId ==> IsAdmin(roles))
            && (IsAdmin(roles) ==> r.competitionId == req.competitionId && r.countryId == req.countryId)
  {
  }

  /** Contact, description and events change only for an admin or before Finished;
      then the events are the reconciled ones, and a non-empty contact or
      description is taken from the request. */
  lemma DetailsGate(comp: Competition, req: UpdateRequest, roles: seq<Role>,
                    rank: string -> int, persons: seq<int> -> seq<Person>)
    ensures var r := ApplyUpdate(comp, req, roles, rank, persons);
            && (!MayEditDetails(roles, comp.state) ==>
                  r.contact == comp.contact && r.description == comp.description && r.events == comp.events)
            && (MayEditDetails(roles, comp.state) ==> r.events == Reconciler.Reconcile(comp.events, req.events, rank))
            && (MayEditDetails(roles, comp.state) && req.contact != "" ==> r.contact == req.contact)
            && (MayEditDetails(roles, comp.state) && req.description != "" ==> r.description == req.description)
            && (req.contact == "" ==> r.contact == comp.contact)
            && (req.description == "" ==> r.description == comp.description)
  {
  }

  /** The schedule fields change only for an admin or before Ongoing; then the
      mandatory ones follow the request, and so does every optional one the
      request gives (non-empty address, both coordinates non-zero, an end date,
      an organizer list, a non-zero competitor limit). */
  lemma ScheduleGate(comp: Competition, req: UpdateRequest, roles: seq<Role>,
                     rank: string -> int, persons: seq<int> -> seq<Person>)
    ensures var r := ApplyUpdate(comp, req, roles, rank, persons);
            && (!MayEditSchedule(roles, comp.state) ==>
                  r.name == comp.name && r.city == comp.city && r.venue == comp.venue && r.address == comp.address
                  && r.latitude == comp.latitude && r.longitude == comp.longitude
                  && r.startDate == comp.startDate && r.endDate == comp.endDate && r.organizers == comp.organizers
                  && r.competitorLimit == comp.competitorLimit && r.mainEventId == comp.mainEventId)
            && (MayEditSchedule(roles, comp.state) ==>
                  r.name == req.name && r.city == req.city && r.venue == req.venue
                  && r.startDate == req.startDate && r.mainEventId == req.mainEventId)
            && (MayEditSchedule(roles, comp.state) && req.address != "" ==> r.address == req.address)
            && (MayEditSchedule(roles, comp.state) && req.latitude != 0 && req.longitude != 0 ==>
                  r.latitude == req.latitude && r.longitude == req.longitude)
            && (MayEditSchedule(roles, comp.state) && req.endDate.Some? ==> r.endDate == req.endDate)
            && (MayEditSchedule(roles, comp.state) && req.organizerIds.Some? ==>
                  r.organizers == persons(req.organizerIds.value))
            && (MayEditSchedule(roles, comp.state) && req.competitorLimit != 0 ==>
                  r.competitorLimit == req.competitorLimit)
  {
  }

  /** Optional fields the request leaves out (empty text, zero number, no date, no
      organizer list) keep their stored values in every state. */
  lemma OmittedFieldsKept(comp: Competition, req: UpdateRequest, roles: seq<Role>,
                          rank: string -> int, persons: seq<int> -> seq<Person>)
    ensures var r := ApplyUpdate(comp, req, roles, rank, persons);
            && (req.address == "" ==> r.address == comp.address)
            && (req.latitude == 0 || req.longitude == 0 ==> r.latitude == comp.latitude && r.longitude == comp.longitude)
            && (req.endDate.None? ==> r.endDate == comp.endDate)
            && (req.organizerIds.None? ==> r.organizers == comp.organizers)
            && (req.competitorLimit == 0 ==> r.competitorLimit == comp.competitorLimit)
  {
  }
}
