# Contests service: lifecycle and results engine

A Dafny model of the contests service of a speed-cubing contest site. It covers
the part that holds the rules:

- **Participant aggregation.** Collecting the distinct person ids of a round's results.
- **Event and round reconciliation.** When a contest is edited, the stored events
  are merged with the requested ones. A round or event that already has results
  is never deleted. Rounds are updated under the format and proceed rules, and the
  events are ordered by catalog rank.
- **State machine.** Who may move a contest to which state, and what publishing
  clears.
- **Update validation and field gating.** Which fields an update applies in which
  state. The checks are the round counts and the end date.
- **Posting results.** The state guard, the snapshot and delete of the contest's
  results, the re-posting of every event, the participant count, and the rollback
  when a write fails.
- **Same-day batching.** An event's rounds are sorted by date and cut into maximal
  runs of one date. Each run is marked for records against a running snapshot and
  saved.
- **Record snapshot.** For every active record type, the standing best single and
  best average before a cutoff: the UTC midnight of a given date, or the largest
  date. The value is -1 when there is none.

The modules follow the service's structure:

- `Domain`: the entities as values. These are results, rounds, contest events,
  contests, record types, update requests and error outcomes.
- `Sorting`: the stable sort that the array sort with a `key(a) - key(b)`
  comparator performs.
- `Participants`: the aggregator, as methods that push into an accumulator.
- `Reconciler`: the three-phase merge, as a specification function `Reconcile` and
  as the loops of the code. The update phase keeps the rounds in memory apart
  from the round documents, since the code decides each round write on the round
  it holds and never reads the written document back.
- `Lifecycle`: the state and role permissions, update validation and the field
  gates, as functions.
- `Records`: the record snapshot.
- `Posting`: the posting pipeline as values. This covers:
  - same-day runs (`Runs`) and record marking (`MarkBatch`, `ProcessRuns`);
  - the store the pipeline writes to (`SaveRounds`);
  - the snapshot and rollback of a contest's results.
- `Publishing`: what the state change to Published clears.
- `Service`: the class `CompetitionsService`, whose fields `comps` (the contest
  documents, rounds populated) and `resultDocs` (the result collection) its methods
  update in place.

The code's collaborators are parameters:

- the record-marking routine `setNewRecords`;
- the record queries of the results store;
- the catalog rank of an event;
- the person lookup for organizers.

A failing database write during a post is the parameter `failAt`. It is the number
of the round save that fails, counted over the whole post.

Several methods have no single function in the code; they split up loops of the
code:

- `EditFields` and `EditSchedule` are the field assignments of `updateCompetition`.
- `VisitRound` and `FlushDay` are one iteration of the round loop of
  `updateCompetitionResults`.
- `PostEventResults` is one iteration of its event loop.

Each such method is proved against the same specification functions as the whole.

## Model

| member | source | states |
|---|---|---|
| Participants.GetParticipantsInRound | server/src/modules/competitions/competitions.service.ts:385-394 | The accumulator gains, in order of first appearance, each id of the round's results not already in it. The old contents stay as a prefix, no id repeats if none did before, and the set of ids is the old set plus the round's ids. |
| Participants.GetCompetitionParticipants | server/src/modules/competitions/competitions.service.ts:376-382 | The result is the distinct ids of all rounds of all events in order of first appearance. It has no duplicates and its set is exactly the set of all ids. |
| Participants.AddNewFacts | server/src/modules/competitions/competitions.service.ts:385-394 | Aggregating keeps the accumulator as a prefix, never introduces a duplicate, and collects exactly the old ids and the new ones. |
| Participants.AddNewConcat | server/src/modules/competitions/competitions.service.ts:376-382 | Aggregating two id lists one after the other is aggregating their concatenation, so rounds can be visited one at a time. |
| Participants.NoDuplicatesCard | server/src/modules/competitions/competitions.service.ts:495 | A list without repetitions is as long as its set of ids, so the count of the aggregated list is the number of distinct persons. |
| Participants.ThreeResultsExample | server/src/modules/competitions/competitions.service.ts:387-391 | Results with person ids "5;9", "9" and "12" aggregate to exactly [5, 9, 12]. |
| Sorting.SortBySortsAndPermutes | server/src/modules/competitions/competitions.service.ts:457 | The sort output is ordered by key and is a permutation of its input. |
| Sorting.SortByIsStable | server/src/modules/competitions/competitions.service.ts:475 | Elements with equal keys keep their relative order, as the language's sort does. |
| Sorting.SortByMembers | server/src/modules/competitions/competitions.service.ts:457 | Sorting keeps exactly the elements it was given. |
| Sorting.SortByDistinct | server/src/modules/competitions/competitions.service.ts:457 | Sorting keeps elements with distinct keys of any kind distinct. |
| Reconciler.FindEvent | server/src/modules/competitions/competitions.service.ts:402 | The index found is the first event with the id, and there is none exactly when no event has it. |
| Reconciler.FindRound | server/src/modules/competitions/competitions.service.ts:428 | The index found is the first round with the id, and there is none exactly when no round has it. |
| Reconciler.WriteRound | server/src/modules/competitions/competitions.service.ts:430-446 | The round update rule, decided on the round in memory and applied to the document. The round type follows the request. The format follows the request only when the round in memory has no results. A requested proceed rule is written when that round has no results or no rule. Without a requested rule, the rule is unset when that round has one. Otherwise the document keeps its value, and its id, results, contest, date and visibility are untouched. |
| Reconciler.UpdateRound | server/src/modules/competitions/competitions.service.ts:430-446 | The update of a stored round by the request. The round type always follows the request. The format changes only for a round without results, and then follows the request. The proceed rule is replaced when the request has one and the round has no results or no rule, and kept otherwise. It is cleared exactly when the request has none. Id, date, results and visibility are untouched. |
| Reconciler.KeptRoundsFacts | server/src/modules/competitions/competitions.service.ts:404-413 | Phase 1 keeps only stored rounds. It keeps a round exactly when the request still lists its id or it has results. |
| Reconciler.WithoutIdsFacts | server/src/modules/competitions/competitions.service.ts:415-419 | Removing omitted events keeps exactly the events whose id is not removed. |
| Reconciler.NotDoomed | server/src/modules/competitions/competitions.service.ts:415-419 | With distinct stored ids, a stored event that is listed or holds results is not deleted. |
| Reconciler.SeenRounds | server/src/modules/competitions/competitions.service.ts:427-448 | The rounds in memory keep their order, only requested rounds are appended, and every requested id is held afterwards. |
| Reconciler.SeenEvent | server/src/modules/competitions/competitions.service.ts:424-454 | After one requested event, the events in memory keep their places and ids, and only the event with the requested id changes. |
| Reconciler.SeenEvents | server/src/modules/competitions/competitions.service.ts:423-455 | After all requested events, the events in memory keep their places and ids, and an event whose id no request lists is unchanged. |
| Reconciler.MergeRounds | server/src/modules/competitions/competitions.service.ts:427-451 | The round documents stay aligned with the rounds in memory: same rounds, same ids and same results, position by position. Each update is decided on the round in memory and written to its document. |
| Reconciler.MergeEvent | server/src/modules/competitions/competitions.service.ts:424-454 | The event documents stay aligned with the events in memory after one requested event is merged or added. |
| Reconciler.MergeEvents | server/src/modules/competitions/competitions.service.ts:423-455 | The event documents stay aligned with the events in memory after all requested events. |
| Reconciler.MergeRoundsKeeps | server/src/modules/competitions/competitions.service.ts:426-451 | Merging rounds keeps every stored round id with its results and makes every requested round id present. Every round afterwards is a stored or requested one with the same id and results. |
| Reconciler.MergeEventFacts | server/src/modules/competitions/competitions.service.ts:424-454 | Merging one requested event keeps every stored event id and round, and makes the requested event and all of its rounds present. The event ids afterwards are exactly the stored ones plus the requested one. |
| Reconciler.MergeEventOnlyAdds | server/src/modules/competitions/competitions.service.ts:424-454 | Merging one requested event adds only that event's rounds, changes no round's results, and keeps distinct event ids distinct. |
| Reconciler.MergeEventsFacts | server/src/modules/competitions/competitions.service.ts:423-455 | Merging all requested events keeps the stored rounds with their results and makes every requested event and round present. The event ids afterwards are exactly the stored ones plus the requested ones. |
| Reconciler.MergeEventsOnlyAdds | server/src/modules/competitions/competitions.service.ts:423-455 | Merging all requested events adds only requested rounds, changes no round's results, and keeps distinct event ids distinct. |
| Reconciler.MergeRoundsUntouched | server/src/modules/competitions/competitions.service.ts:427-451 | A round document whose id no requested round carries is not written. |
| Reconciler.MergeRoundsWritesOnce | server/src/modules/competitions/competitions.service.ts:428-446 | The first round in memory with an id that the request lists once has its document written once: `WriteRound` of that round in memory, the requested round and the document. |
| Reconciler.MergeEventsUntouched | server/src/modules/competitions/competitions.service.ts:423-455 | An event document whose id no requested event carries is not written. |
| Reconciler.MergeEventsWritesOnce | server/src/modules/competitions/competitions.service.ts:424-451 | The first event in memory with an id that the request lists once has its rounds merged once, from that event in memory into its document. |
| Reconciler.DeletionKeeps | server/src/modules/competitions/competitions.service.ts:401-420 | When stored event ids are distinct, a stored round with results is still in its event after the deletion phase. |
| Reconciler.RoundsWithResultsKept | server/src/modules/competitions/competitions.service.ts:401-457 | When stored event ids are distinct, a stored round with results survives the whole reconciliation, with its results, in an event of the same id. |
| Reconciler.EventRemovalRule | server/src/modules/competitions/competitions.service.ts:401-457 | An omitted event with no results is gone. When stored event ids are distinct, a stored event is gone exactly when the request omits it and none of its rounds has results. |
| Reconciler.RequestedPresent | server/src/modules/competitions/competitions.service.ts:423-455 | Every requested event and round is present afterwards, and every event in the output was stored or requested. |
| Reconciler.DeletionOnlyKeeps | server/src/modules/competitions/competitions.service.ts:401-420 | After the deletion phase a round is in an event only if the request lists it for that event, or it is a stored round of that event with the same results that has results or whose event the request omits. |
| Reconciler.RoundRemovalRule | server/src/modules/competitions/competitions.service.ts:401-457 | The same rule for the whole reconciliation: a round survives only if requested, or stored with results, or stored in an omitted event. |
| Reconciler.OmittedRoundRemoved | server/src/modules/competitions/competitions.service.ts:404-413 | In an event the request lists, a round it omits is gone afterwards when no stored round of that event with that id has results. |
| Reconciler.WithoutIdsUnique | server/src/modules/competitions/competitions.service.ts:415-419 | Removing events by id keeps distinct event ids distinct. |
| Reconciler.ReconcileKeepsUniqueIds | server/src/modules/competitions/competitions.service.ts:423-457 | When stored event ids are distinct, so are the reconciled ones: an event is added only when no event with its id is held. |
| Reconciler.RoundListedTwice | server/src/modules/competitions/competitions.service.ts:428-446 | A round listed twice in one request is decided both times on the unchanged round in memory. A stored round with results and a rule, listed without a rule and then with one, ends without a rule. |
| Reconciler.ListedRoundUpdated | server/src/modules/competitions/competitions.service.ts:401-457 | The round update rule holds in the reconciled events. Take a stored round that is alone with its id in its event, in a contest whose event ids are distinct, and that the request lists once, in an event it lists once. That round ends as `UpdateRound` of the stored round and the requested one. |
| Reconciler.ReconcileAppliesRoundRule | server/src/modules/competitions/competitions.service.ts:401-457 | The same fact for every such round at once. |
| Reconciler.RemoveDeletedRounds | server/src/modules/competitions/competitions.service.ts:404-413 | The loop's kept rounds are the specification's, a subset of the stored rounds that holds every round with results. |
| Reconciler.RemoveDeleted | server/src/modules/competitions/competitions.service.ts:401-420 | The deletion loop computes the deletion phase of `Reconcile`. |
| Reconciler.UpdateRounds | server/src/modules/competitions/competitions.service.ts:427-451 | The round loop decides each update on the round in memory and writes it to the round document. It computes the round merge, makes every requested round id present, keeps stored rounds with their results and adds only requested rounds. |
| Reconciler.AddAndUpdate | server/src/modules/competitions/competitions.service.ts:423-455 | The event loop keeps the events in memory and the event documents apart and computes the merge phase of `Reconcile`. |
| Reconciler.UpdateCompetitionEvents | server/src/modules/competitions/competitions.service.ts:396-460 | The result is `Reconcile` of the stored and requested events. When stored event ids are distinct, it states deletion protection, the event removal rule in both directions, and the round update rule for every stored round listed once. It states the round removal rule, that every requested event and round is present and nothing unknown added, that distinct event ids stay distinct, and order by catalog rank. |
| Lifecycle.NextState | server/src/modules/competitions/competitions.service.ts:250-255 | An admin gets the requested state. Anyone else changes the state exactly when the contest is ongoing and finishing is requested; otherwise it is unchanged. |
| Lifecycle.GatesCloseMonotonically | server/src/modules/competitions/competitions.service.ts:217-224 | Whatever may be edited in a later state may be edited in an earlier one, and schedule edits imply detail edits. |
| Lifecycle.ValidateUpdate | server/src/modules/competitions/competitions.service.ts:199-207 | An update is accepted exactly when every event has between 1 and 10 rounds and a contest of type Competition gets an end date. Each error is reported exactly when the earlier checks pass and its own fails: too many rounds first, then no rounds, then the missing end date. |
| Lifecycle.UpdateKeepsLifecycle | server/src/modules/competitions/competitions.service.ts:209-242 | An update never changes the state, type or participant count. |
| Lifecycle.IdentityGate | server/src/modules/competitions/competitions.service.ts:212-215 | Identifier and region change only for an admin, and then follow the request. |
| Lifecycle.DetailsGate | server/src/modules/competitions/competitions.service.ts:217-222 | Contact, description and events change only for an admin or before Finished. The events are then the reconciled ones, and only a non-empty contact or description is taken. |
| Lifecycle.ScheduleGate | server/src/modules/competitions/competitions.service.ts:224-242 | Schedule fields change only for an admin or before Ongoing. When they may change, name, city, venue, start date and main event follow the request, and a non-empty address, a non-zero location, a given end date, given organizers and a non-zero competitor limit are applied. |
| Lifecycle.OmittedFieldsKept | server/src/modules/competitions/competitions.service.ts:228-240 | Address, location, end date, organizers and competitor limit left out of the request keep their stored values. |
| Records.Cutoff | server/src/modules/competitions/competitions.service.ts:507-510 | Without a date the cutoff is the largest date. Otherwise it is the midnight of the date's UTC day, a whole number of days no later than the date and less than a day before it. |
| Records.CutoffIsPerDay | server/src/modules/competitions/competitions.service.ts:509-510 | Two instants get the same cutoff exactly when they fall on the same UTC day. |
| Records.RecordsOfEntries | server/src/modules/competitions/competitions.service.ts:512-525 | The snapshot has one entry per equivalent of a given type. Each entry comes from the last type with that equivalent: the first result of each query, or -1 when a query finds nothing. |
| Records.GetEventRecords | server/src/modules/competitions/competitions.service.ts:499-528 | Nothing is returned exactly when no record type is active. Otherwise the keys are the types' equivalents, and each entry is the pair of its last type at the cutoff. |
| Posting.Runs | server/src/modules/competitions/competitions.service.ts:477-488 | The walk always has an open batch. |
| Posting.RunsPartition | server/src/modules/competitions/competitions.service.ts:477-491 | The batches concatenate back to the rounds, each is non-empty and of one date, and neighbours differ in date, so every run is maximal and every round is in exactly one batch. |
| Posting.RunsAscending | server/src/modules/competitions/competitions.service.ts:475-491 | On date-sorted rounds the batches' dates strictly increase. |
| Posting.EventBatching | server/src/modules/competitions/competitions.service.ts:475-491 | An event's rounds are sorted into a date-ordered permutation and cut into maximal same-date runs with strictly increasing dates. |
| Posting.ClosedGrows | server/src/modules/competitions/competitions.service.ts:477-491 | The batches closed by the walk only grow as the walk advances. |
| Posting.MarkBatch | server/src/modules/competitions/competitions.service.ts:538-543 | Marking a batch keeps the snapshot's categories. |
| Posting.OnlyWrMarks | server/src/modules/competitions/competitions.service.ts:538-543 | Without an active WR type, a batch and the snapshot pass unchanged. Entries other than WR never change. |
| Posting.ProcessRuns | server/src/modules/competitions/competitions.service.ts:477-491 | Marking batch after batch keeps the snapshot's categories. |
| Posting.LaterBatchesKeepEarlier | server/src/modules/competitions/competitions.service.ts:477-491 | What the earlier batches become does not depend on the batches after them. |
| Posting.ProcessRunsSnoc | server/src/modules/competitions/competitions.service.ts:481-482 | One more batch is marked against the snapshot left by the batches before it. |
| Posting.FlushPrefix | server/src/modules/competitions/competitions.service.ts:480-483 | When a day ends the open batch is closed and marked against the snapshot the closed batches left. |
| Posting.FinalFlush | server/src/modules/competitions/competitions.service.ts:489-490 | The whole output is the closed batches' output followed by the marked last batch. |
| Posting.WalkStart | server/src/modules/competitions/competitions.service.ts:466-474 | The walk starts with nothing saved and the fetched snapshot. |
| Posting.WalkJoin | server/src/modules/competitions/competitions.service.ts:484 | A round of the open batch's date joins it and the walk stays on track. |
| Posting.WalkFlush | server/src/modules/competitions/competitions.service.ts:480-484 | A round of a new date closes the open batch. The walk continues with that batch marked, and its output is a prefix of the whole. |
| Posting.WalkEnd | server/src/modules/competitions/competitions.service.ts:489-490 | At the end the event's output is what was saved followed by the marked last batch. |
| Posting.StartRecords | server/src/modules/competitions/competitions.service.ts:472-473 | The snapshot a post starts from has an entry for every active type's equivalent. |
| Posting.PostedGrows | server/src/modules/competitions/competitions.service.ts:470-493 | The rounds of the first events are saved before those of later ones. |
| Posting.SortedRoundsSameIds | server/src/modules/competitions/competitions.service.ts:474-486 | Sorting an event's rounds does not change which persons took part. |
| Posting.ParticipantCount | server/src/modules/competitions/competitions.service.ts:495 | The aggregated ids in posting order are exactly the ids of all rounds, and their count is the number of distinct persons. |
| Posting.RoundsWithResults | server/src/modules/competitions/competitions.service.ts:550 | Setting a round's results keeps the number of rounds. |
| Posting.EventsWithResults | server/src/modules/competitions/competitions.service.ts:550 | Setting a round's results keeps the number of events. |
| Posting.CompsWithResults | server/src/modules/competitions/competitions.service.ts:550 | Setting a round's results changes nothing of any contest but its events. |
| Posting.SaveRoundsConcat | server/src/modules/competitions/competitions.service.ts:547-551 | Saving two lists of rounds one after the other is saving their concatenation. |
| Posting.SavesKeepContests | server/src/modules/competitions/competitions.service.ts:547-551 | Saving rounds changes nothing of a contest but its rounds' results, in particular not its state or participants. |
| Posting.ResultsOf | server/src/modules/competitions/competitions.service.ts:287 | The snapshot holds only results of the contest, all from the collection. |
| Posting.ResultsOfConcat | server/src/modules/competitions/competitions.service.ts:287 | The snapshot of a concatenation is the concatenation of the snapshots. |
| Posting.WithoutAbsent | server/src/modules/competitions/competitions.service.ts:288 | Deleting a contest's results changes nothing when it has none. |
| Posting.ResultsOfWithout | server/src/modules/competitions/competitions.service.ts:288 | After the delete, the contest has no results and every other contest has the same results. |
| Posting.ResultsOfOwn | server/src/modules/competitions/competitions.service.ts:299 | Results that all belong to the contest are their own snapshot. |
| Posting.ResultsOfForeign | server/src/modules/competitions/competitions.service.ts:299 | Results of other contests add nothing to a contest's snapshot. |
| Posting.RollbackRestores | server/src/modules/competitions/competitions.service.ts:296-299 | After the rollback the contest's results are exactly the snapshot, and every other contest's results are unchanged. |
| Posting.RollbackKeepsOther | server/src/modules/competitions/competitions.service.ts:296-299 | The rollback leaves the results of any other contest unchanged. |
| Posting.AsWrittenRollbackWithSnapshot | server/src/modules/competitions/competitions.service.ts:296-299 | With a non-empty snapshot, the rollback as written restores the snapshot. |
| Posting.AsWrittenKeepsPartialResults | server/src/modules/competitions/competitions.service.ts:296-299 | With an empty snapshot, the rollback as written leaves a partially saved round's results behind. |
| Publishing.PublishResults | server/src/modules/competitions/competitions.service.ts:262-265 | Publishing keeps the number of results. |
| Publishing.PublishEvents | server/src/modules/competitions/competitions.service.ts:261 | Publishing keeps the number of events. |
| Publishing.PublishScope | server/src/modules/competitions/competitions.service.ts:257-265 | Publishing clears the flag on exactly the contest's results and changes nothing else of the results or contests. |
| Publishing.PublishRoundScope | server/src/modules/competitions/competitions.service.ts:261 | Within the events, the contest's rounds and results become published and every other round and result is unchanged. |
| Service.Locate | server/src/modules/competitions/competitions.service.ts:314-331 | The contest found is the first with the identifier, and there is none exactly when no contest has it. |
| Service.StateChanged | server/src/modules/competitions/competitions.service.ts:247-273 | A state change keeps the number of contests. |
| Service.StateChangeEffects | server/src/modules/competitions/competitions.service.ts:250-272 | The contest's state becomes `NextState`, with its identifier and participants unchanged. Only an accepted publication touches the results, clearing the contest's flags; otherwise only the state changes. |
| Service.EditFields | server/src/modules/competitions/competitions.service.ts:209-242 | The assignments compute `ApplyUpdate`, whose gates and kept fields the Lifecycle lemmas state. |
| Service.EditSchedule | server/src/modules/competitions/competitions.service.ts:224-242 | The schedule assignments compute `ApplySchedule`. |
| Service.CompetitionsService.FindCompetition | server/src/modules/competitions/competitions.service.ts:314-331 | The search returns `Locate` of the stored contests. |
| Service.CompetitionsService.UpdateCompetition | server/src/modules/competitions/competitions.service.ts:195-245 | An unknown contest gives NotFound. A rejected request gives its reason with nothing changed. Otherwise the contest, and only it, becomes `ApplyUpdate` of itself. The results are never touched. |
| Service.CompetitionsService.UpdateState | server/src/modules/competitions/competitions.service.ts:247-273 | An unknown contest gives NotFound with nothing changed. Otherwise the store becomes `StateChanged`. |
| Service.CompetitionsService.SetRecordsAndSaveResults | server/src/modules/competitions/competitions.service.ts:532-557 | The batch is marked by the active WR types against the snapshot. Its rounds are saved in order, up to the failing write if one fails. |
| Service.CompetitionsService.FlushDay | server/src/modules/competitions/competitions.service.ts:480-482 | Marking and saving a batch extends the saved output. On failure the store holds the event's output up to the failing write. |
| Service.CompetitionsService.VisitRound | server/src/modules/competitions/competitions.service.ts:478-484 | One round keeps the walk on track with `Runs` and `ProcessRuns`, or ends it with the output saved up to the failing write. |
| Service.CompetitionsService.PostEventResults | server/src/modules/competitions/competitions.service.ts:467-492 | An event's rounds are saved exactly as `ProcessEvent` marks them, up to the failing write if one fails. The ids grow by the event's rounds in date order. |
| Service.CompetitionsService.UpdateCompetitionResults | server/src/modules/competitions/competitions.service.ts:464-497 | All events are saved as `Posted` in order, up to the failing write if one fails. On success the participant count is the number of distinct persons and the reported events carry their saved rounds. |
| Service.CompetitionsService.PostResults | server/src/modules/competitions/competitions.service.ts:275-308 | An unknown contest, a state below Approved, or Finished and later are rejected with nothing changed. Otherwise the store becomes `AfterPost`, which rolls back only a non-empty snapshot, as the code does. |
| Service.FailedInBatch | server/src/modules/competitions/competitions.service.ts:546-554 | A write failing inside a batch leaves saved exactly the first rounds of the whole output. |
| Service.PostedStep | server/src/modules/competitions/competitions.service.ts:470-492 | The writes of one event continue those of the events before it. A failing one leaves the whole post's first rounds saved. |
| Service.PostedEvents | server/src/modules/competitions/competitions.service.ts:492 | Each reported event is the requested one with its rounds as saved. |
| Service.AfterPost | server/src/modules/competitions/competitions.service.ts:283-307 | A post keeps the number of contests. On failure the snapshot is restored only when it is non-empty. |
| Service.CorrectedAfterPost | server/src/modules/competitions/competitions.service.ts:296-299 | The corrected post, which restores the snapshot on every failure, keeps the number of contests. |
| Service.PostSucceeds | server/src/modules/competitions/competitions.service.ts:290-294 | A post succeeds exactly when no write fails. The contest is then Ongoing and counts every distinct person of the posted rounds, and nothing else of it but its rounds' results changes. |
| Service.PostRollsBack | server/src/modules/competitions/competitions.service.ts:295-303 | A failed post reports an internal error and keeps the contest's state and participant count. A contest that had results gets exactly those back. A contest that had none is left as the failing post wrote it, with the rounds saved before the failure. |
| Service.CorrectedPostRollsBack | server/src/modules/competitions/competitions.service.ts:295-303 | With the corrected rollback, a failed post gives the contest back exactly the results it had, none included. Its state and participant count stay as they were. |
| Service.CorrectionOnlyForEmptySnapshot | server/src/modules/competitions/competitions.service.ts:296-299 | The post as written and the corrected post agree on every successful post and whenever the contest had results. |

## Left out

- Reconciler.UpdateCompetitionEvents: deletion protection and the "only if" half of the event removal rule are stated for stored contests whose events have distinct ids, a property the reconciliation is proved to keep. With a repeated stored id, the code's filter by event id also removes a same-id event that holds results.
- Reconciler.MergeRounds: every requested round carries an id, and a created round keeps it, so a later requested round with that id updates it. The code matches a requested round only by a given id; a new round sent without one is never matched and gets a fresh id from the database. The model assumes new request rounds carry ids distinct from each other and from the held rounds.
- Reconciler.ListedRoundUpdated: the round update rule is stated for a round that the request lists once, in an event it lists once. A round or event listed twice is decided on the unchanged round in memory each time, as `Reconciler.RoundListedTwice` shows for one case.
- Storage failures outside the round saves of a post are not modelled. These are failures in `findCompetition`, `saveCompetition`, the publication updates of `updateState`, the round writes of `updateCompetitionEvents`, and the snapshot, delete and record-type fetch of `postResults`.
- The results create and the round update of one round are one write here. A failure between the two is not modelled.
- Results are held by value in their rounds, not by reference. After a failed post, the rounds saved before the failure keep their new results, as in the code. The model does not show that those references then name deleted documents.
- Organizer lookup, event-catalog rank and lookup, the record queries and `setNewRecords` are parameters. `setNewRecords` mutates the record pair in place; here it returns the new pair, which replaces the WR entry.
- Creating a new event's rounds in the database and fetching its catalog entry are not modelled: an added event is the requested one.
- Person ids are integer lists. The `;` split and integer parse of the stored field are a boundary conversion.
- Dates are integer milliseconds. Same-day batching compares dates by value, and the sort compares by the millisecond value.
- Latitude and longitude are integers. Only their zero or non-zero test matters to the update.
- Optional request fields use the code's truthiness: an empty string or a zero number is a left-out field. The end date and the organizer list are options.
- When no record type is active, the code's null snapshot is an empty map. No marking step reads it then.
- The timezone and geo lookup, logging, and the other service operations (listing, fetching and creating contests) are not part of this model.
- Concurrency is not modelled. This includes the window between the delete and the re-creation of results, and two posts at once.

## Findings

The service models the post as written: `PostResults` and `AfterPost` skip the
rollback on an empty snapshot. The corrected post is `CorrectedAfterPost`. The
rollback itself has the same pair: `Posting.AsWrittenKeepsPartialResults`
exhibits a concrete case, and `Posting.RollbackRestores` proves the correction.

| source | as written | input that shows it | evidently intended | confidence | as-written member | corrected member |
|---|---|---|---|---|---|---|
| server/src/modules/competitions/competitions.service.ts:296-299 | The rollback after a failed post runs only when the snapshot of the contest's results is non-empty. | A contest with no stored results whose post saves one round's results and then fails on the next write: those new results remain. | A failed post leaves the contest with exactly the results it had before, here none. | not executed; high that the behaviour occurs, medium that it is unintended | Service.PostRollsBack | Service.CorrectedPostRollsBack |
