/** The results-posting pipeline as values: same-day batches of an event's
    rounds, record marking batch by batch, the store the pipeline writes to and
    the rollback of a failed post. */
module Posting {
  import opened Domain
  import opened Sorting
  import opened Participants
  import opened Records

  /** The shared record-marking routine: marks the results of a batch of rounds
      that set a record of a label against the standing pair, and returns the
      marked rounds with the pair as it stands after the batch. */
  type SetNewRecords = (seq<Round>, RecordPair, string) -> (seq<Round>, RecordPair)

  function RoundDate(): Round -> int {
    (r: Round) => r.date
  }

  /** An event's rounds in ascending date order (stable). */
  function SortRounds(rounds: seq<Round>): seq<Round> {
    SortBy(rounds, RoundDate())
  }

  // ---------------------------------------------------------------------------
  // Same-day batches

  /** The batches formed by walking `rounds` in order: a round joins the open
      batch while its date equals the batch's first date, otherwise it opens a
      new batch. The last batch is the open one (empty only when `rounds` is). */
  function Runs(rounds: seq<Round>): (b: seq<seq<Round>>)
    ensures |b| > 0
  {
    if rounds == [] then [[]]
    else
      var p := Runs(rounds[..|rounds| - 1]);
      var round := rounds[|rounds| - 1];
      var open := p[|p| - 1];
      if |open| > 0 && round.date != open[0].date then p + [[round]]
      else p[..|p| - 1] + [open + [round]]
  }

  function Flatten(batches: seq<seq<Round>>): seq<Round> {
    if batches == [] then []
    else Flatten(batches[..|batches| - 1]) + batches[|batches| - 1]
  }

  predicate SameDate(batch: seq<Round>) {
    forall j :: 0 <= j < |batch| ==> batch[j].date == batch[0].date
  }

  /** `batches` cut `rounds`, in order, into non-empty runs of one date, and
      neighbouring runs have different dates (so every run is maximal). */
  predicate IsDayPartition(batches: seq<seq<Round>>, rounds: seq<Round>) {
    && Flatten(batches) == rounds
    && (forall k :: 0 <= k < |batches| ==> |batches[k]| > 0 && SameDate(batches[k]))
    && (forall k :: 0 < k < |batches| ==> batches[k][0].date != batches[k - 1][0].date)
  }

  /** The batches' first dates strictly increase. */
  predicate DatesAscend(batches: seq<seq<Round>>) {
    forall i, j :: 0 <= i < j < |batches| ==>
      |batches[i]| > 0 && |batches[j]| > 0 && batches[i][0].date < batches[j][0].date
  }

  lemma AscendOpen(p: seq<seq<Round>>, round: Round)
    requires |p| > 0 && |p[|p| - 1]| > 0 && DatesAscend(p) && p[|p| - 1][0].date < round.date
    ensures DatesAscend(p + [[round]])
  {
    var b: seq<seq<Round>> := p + [[round]];
    forall i, j | 0 <= i < j < |b|
      ensures |b[i]| > 0 && |b[j]| > 0 && b[i][0].date < b[j][0].date
    {
      assert b[i] == p[i];
      if j < |p| { assert b[j] == p[j]; }
      else if i < |p| - 1 { assert p[i][0].date < p[|p| - 1][0].date; }
    }
  }

  lemma AscendExtend(p: seq<seq<Round>>, round: Round)
    requires |p| > 0 && |p[|p| - 1]| > 0 && DatesAscend(p)
    ensures DatesAscend(p[..|p| - 1] + [p[|p| - 1] + [round]])
  {
    var b: seq<seq<Round>> := p[..|p| - 1] + [p[|p| - 1] + [round]];
    forall i, j | 0 <= i < j < |b|
      ensures |b[i]| > 0 && |b[j]| > 0 && b[i][0].date < b[j][0].date
    {
      assert b[i] == p[i];
      if j < |b| - 1 { assert b[j] == p[j]; } else { assert b[j][0] == p[j][0]; }
    }
  }

  lemma FlattenSnoc(p: seq<seq<Round>>, b: seq<Round>)
    ensures Flatten(p + [b]) == Flatten(p) + b
  {
    assert (p + [b])[..|p|] == p;
  }

  /** A round of another date than the open batch opens a new batch. */
  lemma OpenRun(p: seq<seq<Round>>, init: seq<Round>, round: Round)
    requires |p| > 0 && IsDayPartition(p, init) && round.date != p[|p| - 1][0].date
    ensures IsDayPartition(p + [[round]], init + [round])
  {
    FlattenSnoc(p, [round]);
  }

  /** A round of the open batch's date joins it. */
  lemma ExtendRun(p: seq<seq<Round>>, init: seq<Round>, round: Round)
    requires |p| > 0 && IsDayPartition(p, init) && round.date == p[|p| - 1][0].date
    ensures IsDayPartition(p[..|p| - 1] + [p[|p| - 1] + [round]], init + [round])
  {
    var front, open := p[..|p| - 1], p[|p| - 1];
    var b := front + [open + [round]];
    assert p == front + [open];
    FlattenSnoc(front, open);
    FlattenSnoc(front, open + [round]);
    forall k | 0 <= k < |b| ensures |b[k]| > 0 && SameDate(b[k]) {
      if k < |b| - 1 { assert b[k] == p[k]; }
    }
    forall k | 0 < k < |b| ensures b[k][0].date != b[k - 1][0].date {
      assert b[k - 1] == p[k - 1];
      if k < |b| - 1 { assert b[k] == p[k]; } else { assert b[k][0] == open[0]; }
    }
  }

  /** The walk cuts a non-empty sequence of rounds into maximal same-date runs. */
  lemma {:induction false} RunsPartition(rounds: seq<Round>)
    requires rounds != []
    ensures IsDayPartition(Runs(rounds), rounds)
  {
    var init: seq<Round>, round: Round := rounds[..|rounds| - 1], rounds[|rounds| - 1];
    assert rounds == init + [round];
    if init == [] {
      assert Runs(rounds) == [[round]];
      FlattenSnoc([], [round]);
    } else {
      RunsPartition(init);
      var p: seq<seq<Round>> := Runs(init);
      if round.date != p[|p| - 1][0].date {
        OpenRun(p, init, round);
      } else {
        ExtendRun(p, init, round);
      }
    }
  }

  /** The first round of the open batch is a round already walked. */
  lemma OpenStartsInInit(p: seq<seq<Round>>, init: seq<Round>)
    requires |p| > 0 && IsDayPartition(p, init)
    ensures exists j :: 0 <= j < |init| && init[j] == p[|p| - 1][0]
  {
    assert p == p[..|p| - 1] + [p[|p| - 1]];
    FlattenSnoc(p[..|p| - 1], p[|p| - 1]);
    assert init[|Flatten(p[..|p| - 1])|] == p[|p| - 1][0];
  }

  /** On rounds sorted by date, the batches come in strictly increasing date order,
      so a batch never sees a record set by a later day. */
  lemma {:induction false} RunsAscending(rounds: seq<Round>)
    requires rounds != [] && SortedBy(rounds, RoundDate())
    ensures DatesAscend(Runs(rounds))
  {
    var init: seq<Round>, round: Round := rounds[..|rounds| - 1], rounds[|rounds| - 1];
    RunsPartition(rounds);
    if init != [] {
      assert SortedBy(init, RoundDate());
      RunsAscending(init);
      RunsPartition(init);
      var p: seq<seq<Round>> := Runs(init);
      var open := p[|p| - 1];
      OpenStartsInInit(p, init);
      var j :| 0 <= j < |init| && init[j] == open[0];
      assert rounds[j] == open[0];
      assert RoundDate()(rounds[j]) <= RoundDate()(rounds[|rounds| - 1]);
      if round.date != open[0].date {
        AscendOpen(p, round);
      } else {
        AscendExtend(p, round);
      }
    }
  }

  predicate IsPrefix<T(==)>(a: seq<T>, b: seq<T>) {
    |a| <= |b| && b[..|a|] == a
  }

  /** The batches already closed when the walk has seen `rounds`: all but the open one. */
  function Closed(rounds: seq<Round>): seq<seq<Round>> {
    var p := Runs(rounds);
    p[..|p| - 1]
  }

  lemma ClosedStep(walked: seq<Round>, round: Round)
    ensures IsPrefix(Closed(walked), Closed(walked + [round]))
  {
    assert (walked + [round])[..|walked|] == walked;
  }

  /** A batch, once closed, stays a batch of the whole walk. */
  lemma {:induction false} ClosedGrows(rounds: seq<Round>, j: nat)
    requires j <= |rounds|
    ensures IsPrefix(Closed(rounds[..j]), Runs(rounds))
    decreases |rounds| - j
  {
    if j == |rounds| {
      assert rounds[..j] == rounds;
    } else {
      ClosedStep(rounds[..j], rounds[j]);
      assert rounds[..j] + [rounds[j]] == rounds[..j + 1];
      ClosedGrows(rounds, j + 1);
    }
  }

  // ---------------------------------------------------------------------------
  // Record marking

  predicate CoversTypes(records: map<string, RecordPair>, types: seq<RecordType>) {
    forall t :: t in types ==> t.wcaEquivalent in records
  }

  /** One batch marked against the snapshot: each active type whose equivalent is
      WR, in turn, marks the batch and moves the WR entry of the snapshot. */
  function MarkBatch(batch: seq<Round>, types: seq<RecordType>, records: map<string, RecordPair>,
                     setNewRecords: SetNewRecords): (r: (seq<Round>, map<string, RecordPair>))
    requires CoversTypes(records, types)
    ensures r.1.Keys == records.Keys
  {
    if types == [] then (batch, records)
    else
      var prior := MarkBatch(batch, types[..|types| - 1], records, setNewRecords);
      var rt := types[|types| - 1];
      if rt.active && rt.wcaEquivalent == WR then
        var marked := setNewRecords(prior.0, prior.1[WR], rt.recordLabel);
        (marked.0, prior.1[WR := marked.1])
      else prior
  }

  /** Only the WR category marks records: without an active WR type a batch and
      the snapshot pass unchanged, and entries other than WR never change. */
  lemma {:induction false} OnlyWrMarks(batch: seq<Round>, types: seq<RecordType>, records: map<string, RecordPair>,
                                       setNewRecords: SetNewRecords)
    requires CoversTypes(records, types)
    ensures (forall t :: t in types ==> !(t.active && t.wcaEquivalent == WR))
              ==> MarkBatch(batch, types, records, setNewRecords) == (batch, records)
    ensures forall w :: w in records && w != WR ==> MarkBatch(batch, types, records, setNewRecords).1[w] == records[w]
  {
    if types != [] {
      OnlyWrMarks(batch, types[..|types| - 1], records, setNewRecords);
      assert types[|types| - 1] in types;
      if forall t :: t in types ==> !(t.active && t.wcaEquivalent == WR) {
        assert forall t :: t in types[..|types| - 1] ==> t in types;
      }
    }
  }

  /** The batches marked in order, each against the snapshot left by the ones before. */
  function ProcessRuns(batches: seq<seq<Round>>, types: seq<RecordType>, records: map<string, RecordPair>,
                       setNewRecords: SetNewRecords): (r: (seq<Round>, map<string, RecordPair>))
    requires CoversTypes(records, types)
    ensures r.1.Keys == records.Keys
  {
    if batches == [] then ([], records)
    else
      var prior := ProcessRuns(batches[..|batches| - 1], types, records, setNewRecords);
      var marked := MarkBatch(batches[|batches| - 1], types, prior.1, setNewRecords);
      (prior.0 + marked.0, marked.1)
  }

  /** Records never reach back in time: what earlier batches become does not
      depend on the batches that follow them. */
  lemma {:induction false} LaterBatchesKeepEarlier(earlier: seq<seq<Round>>, later: seq<seq<Round>>,
                                                  types: seq<RecordType>, records: map<string, RecordPair>,
                                                  setNewRecords: SetNewRecords)
    requires CoversTypes(records, types)
    ensures var whole := ProcessRuns(earlier + later, types, records, setNewRecords).0;
            var part := ProcessRuns(earlier, types, records, setNewRecords).0;
            |part| <= |whole| && whole[..|part|] == part
  {
    if later == [] {
      assert earlier + later == earlier;
    } else {
      var init := later[..|later| - 1];
      LaterBatchesKeepEarlier(earlier, init, types, records, setNewRecords);
      assert (earlier + later)[..|earlier + later| - 1] == earlier + init;
    }
  }

  /** Marking one more batch continues the marking of the batches before it. */
  lemma ProcessRunsSnoc(batches: seq<seq<Round>>, batch: seq<Round>, types: seq<RecordType>,
                        records: map<string, RecordPair>, setNewRecords: SetNewRecords)
    requires CoversTypes(records, types)
    ensures var prior := ProcessRuns(batches, types, records, setNewRecords);
            var marked := MarkBatch(batch, types, prior.1, setNewRecords);
            ProcessRuns(batches + [batch], types, records, setNewRecords) == (prior.0 + marked.0, marked.1)
  {
    assert (batches + [batch])[..|batches|] == batches;
  }

  /** A round of another date than the non-empty open batch closes it. */
  lemma FlushStep(walked: seq<Round>, round: Round)
    requires var p := Runs(walked); |p[|p| - 1]| > 0 && round.date != p[|p| - 1][0].date
    ensures Closed(walked + [round]) == Runs(walked)
    ensures var q := Runs(walked + [round]); q[|q| - 1] == [round]
  {
    assert (walked + [round])[..|walked|] == walked;
  }

  /** Otherwise the round joins the open batch. */
  lemma JoinStep(walked: seq<Round>, round: Round)
    requires var p := Runs(walked); !(|p[|p| - 1]| > 0 && round.date != p[|p| - 1][0].date)
    ensures Closed(walked + [round]) == Closed(walked)
    ensures var p, q := Runs(walked), Runs(walked + [round]); q[|q| - 1] == p[|p| - 1] + [round]
  {
    assert (walked + [round])[..|walked|] == walked;
  }

  /** What the closed batches become is the start of what the whole walk becomes. */
  lemma ClosedOutputPrefix(rounds: seq<Round>, j: nat, types: seq<RecordType>,
                           records: map<string, RecordPair>, setNewRecords: SetNewRecords)
    requires j <= |rounds| && CoversTypes(records, types)
    ensures IsPrefix(ProcessRuns(Closed(rounds[..j]), types, records, setNewRecords).0,
                     ProcessRuns(Runs(rounds), types, records, setNewRecords).0)
  {
    ClosedGrows(rounds, j);
    var closed := Closed(rounds[..j]);
    var rest := Runs(rounds)[|closed|..];
    assert Runs(rounds) == closed + rest;
    LaterBatchesKeepEarlier(closed, rest, types, records, setNewRecords);
  }

  /** Closing the open batch at round `j`: the batches closed then are those
      closed before plus the open one, and what they become is the start of what
      the whole walk becomes. */
  lemma FlushPrefix(rounds: seq<Round>, j: nat, types: seq<RecordType>,
                    records: map<string, RecordPair>, setNewRecords: SetNewRecords)
    requires j < |rounds| && CoversTypes(records, types)
    requires var p := Runs(rounds[..j]); |p[|p| - 1]| > 0 && rounds[j].date != p[|p| - 1][0].date
    ensures var p := Runs(rounds[..j]);
            var prior := ProcessRuns(Closed(rounds[..j]), types, records, setNewRecords);
            var marked := MarkBatch(p[|p| - 1], types, prior.1, setNewRecords);
            && Closed(rounds[..j + 1]) == p
            && ProcessRuns(p, types, records, setNewRecords) == (prior.0 + marked.0, marked.1)
            && IsPrefix(prior.0 + marked.0, ProcessRuns(Runs(rounds), types, records, setNewRecords).0)
            && Runs(rounds[..j + 1])[|Runs(rounds[..j + 1])| - 1] == [rounds[j]]
  {
    var p := Runs(rounds[..j]);
    assert rounds[..j + 1] == rounds[..j] + [rounds[j]];
    FlushStep(rounds[..j], rounds[j]);
    assert p == Closed(rounds[..j]) + [p[|p| - 1]];
    ProcessRunsSnoc(Closed(rounds[..j]), p[|p| - 1], types, records, setNewRecords);
    ClosedOutputPrefix(rounds, j + 1, types, records, setNewRecords);
  }

  /** Closing the last open batch completes the walk. */
  lemma FinalFlush(rounds: seq<Round>, types: seq<RecordType>, records: map<string, RecordPair>,
                   setNewRecords: SetNewRecords)
    requires CoversTypes(records, types)
    ensures var p := Runs(rounds);
            var prior := ProcessRuns(Closed(rounds), types, records, setNewRecords);
            var marked := MarkBatch(p[|p| - 1], types, prior.1, setNewRecords);
            ProcessRuns(p, types, records, setNewRecords).0 == prior.0 + marked.0
  {
    var p := Runs(rounds);
    assert p == Closed(rounds) + [p[|p| - 1]];
    ProcessRunsSnoc(Closed(rounds), p[|p| - 1], types, records, setNewRecords);
  }

  /** The state of the walk after its first `j` rounds: `open` is the open
      batch, and `done` and `records` are what the closed batches became and
      the snapshot they left. */
  predicate WalkedTo(rounds: seq<Round>, j: nat, types: seq<RecordType>, start: map<string, RecordPair>,
                     setNewRecords: SetNewRecords, done: seq<Round>, records: map<string, RecordPair>,
                     open: seq<Round>)
  {
    && j <= |rounds| && CoversTypes(start, types) && CoversTypes(records, types)
    && open == Runs(rounds[..j])[|Runs(rounds[..j])| - 1]
    && (done, records) == ProcessRuns(Closed(rounds[..j]), types, start, setNewRecords)
  }

  lemma WalkStart(rounds: seq<Round>, types: seq<RecordType>, start: map<string, RecordPair>,
                  setNewRecords: SetNewRecords)
    requires CoversTypes(start, types)
    ensures WalkedTo(rounds, 0, types, start, setNewRecords, [], start, [])
  {
    assert rounds[..0] == [];
  }

  lemma WalkJoin(rounds: seq<Round>, j: nat, types: seq<RecordType>, start: map<string, RecordPair>,
                 setNewRecords: SetNewRecords, done: seq<Round>, records: map<string, RecordPair>, open: seq<Round>)
    requires WalkedTo(rounds, j, types, start, setNewRecords, done, records, open) && j < |rounds|
    requires !(|open| > 0 && rounds[j].date != open[0].date)
    ensures WalkedTo(rounds, j + 1, types, start, setNewRecords, done, records, open + [rounds[j]])
  {
    assert rounds[..j + 1] == rounds[..j] + [rounds[j]];
    JoinStep(rounds[..j], rounds[j]);
  }

  lemma WalkFlush(rounds: seq<Round>, j: nat, types: seq<RecordType>, start: map<string, RecordPair>,
                  setNewRecords: SetNewRecords, done: seq<Round>, records: map<string, RecordPair>, open: seq<Round>)
    requires WalkedTo(rounds, j, types, start, setNewRecords, done, records, open) && j < |rounds|
    requires |open| > 0 && rounds[j].date != open[0].date
    ensures var marked := MarkBatch(open, types, records, setNewRecords);
            && WalkedTo(rounds, j + 1, types, start, setNewRecords, done + marked.0, marked.1, [rounds[j]])
            && IsPrefix(done + marked.0, ProcessRuns(Runs(rounds), types, start, setNewRecords).0)
  {
    FlushPrefix(rounds, j, types, start, setNewRecords);
  }

  lemma WalkEnd(rounds: seq<Round>, types: seq<RecordType>, start: map<string, RecordPair>,
                setNewRecords: SetNewRecords, done: seq<Round>, records: map<string, RecordPair>, open: seq<Round>)
    requires WalkedTo(rounds, |rounds|, types, start, setNewRecords, done, records, open)
    ensures ProcessRuns(Runs(rounds), types, start, setNewRecords).0
            == done + MarkBatch(open, types, records, setNewRecords).0
  {
    assert rounds[..|rounds|] == rounds;
    FinalFlush(rounds, types, start, setNewRecords);
  }

  /** The snapshot an event starts from: its current records, or none. */
  function StartRecords(eventId: string, types: seq<RecordType>, q: RecordQueries): (r: map<string, RecordPair>)
    ensures CoversTypes(r, types)
  {
    RecordsOfEntries(eventId, types, MaxDate, q);
    EventRecords(eventId, types, None, q).GetOr(map[])
  }

  /** One event's rounds as the pipeline saves them: sorted by date, batched by
      day, marked batch after batch. */
  function ProcessEvent(e: CompEvent, types: seq<RecordType>, q: RecordQueries, setNewRecords: SetNewRecords): seq<Round>
  {
    ProcessRuns(Runs(SortRounds(e.rounds)), types, StartRecords(e.eventId, types, q), setNewRecords).0
  }

  /** The batches of an event: its rounds sorted by date (a permutation of
      them) and cut into maximal same-date runs, whose dates strictly increase. */
  lemma EventBatching(rounds: seq<Round>)
    requires rounds != []
    ensures var sorted := SortRounds(rounds);
            && multiset(sorted) == multiset(rounds) && SortedBy(sorted, RoundDate())
            && IsDayPartition(Runs(sorted), sorted)
            && DatesAscend(Runs(sorted))
  {
    var sorted := SortRounds(rounds);
    SortBySortsAndPermutes(rounds, RoundDate());
    assert sorted != [];
    RunsPartition(sorted);
    RunsAscending(sorted);
  }

  /** All rounds of all events, in the order the pipeline saves them. */
  function Posted(events: seq<CompEvent>, types: seq<RecordType>, q: RecordQueries, setNewRecords: SetNewRecords)
    : seq<Round>
  {
    if events == [] then []
    else
      Posted(events[..|events| - 1], types, q, setNewRecords)
        + ProcessEvent(events[|events| - 1], types, q, setNewRecords)
  }

  /** The rounds of the first events are saved before those of the later ones. */
  lemma {:induction false} PostedGrows(events: seq<CompEvent>, k: nat, types: seq<RecordType>, q: RecordQueries,
                                       setNewRecords: SetNewRecords)
    requires k <= |events|
    ensures IsPrefix(Posted(events[..k], types, q, setNewRecords), Posted(events, types, q, setNewRecords))
  {
    if k == |events| {
      assert events[..k] == events;
    } else {
      var init := events[..|events| - 1];
      assert events[..k] == init[..k];
      PostedGrows(init, k, types, q, setNewRecords);
      var part := Posted(init[..k], types, q, setNewRecords);
      var prior := Posted(init, types, q, setNewRecords);
      var whole := prior + ProcessEvent(events[|events| - 1], types, q, setNewRecords);
      assert Posted(events, types, q, setNewRecords) == whole;
      assert whole[..|part|] == prior[..|part|];
    }
  }


  /** The person ids the pipeline aggregates: each event's rounds in date order. */
  function PostedIds(events: seq<CompEvent>): seq<int> {
    if events == [] then []
    else PostedIds(events[..|events| - 1]) + RoundIds(SortRounds(events[|events| - 1].rounds))
  }

  lemma {:induction false} RoundIdsMembers(rounds: seq<Round>)
    ensures forall x :: x in RoundIds(rounds) <==> exists round :: round in rounds && x in ResultIds(round.results)
  {
    if rounds != [] {
      var init := rounds[..|rounds| - 1];
      RoundIdsMembers(init);
      assert rounds == init + [rounds[|rounds| - 1]];
    }
  }

  /** Sorting the rounds by date does not change which persons took part. */
  lemma SortedRoundsSameIds(rounds: seq<Round>)
    ensures Elems(RoundIds(SortRounds(rounds))) == Elems(RoundIds(rounds))
  {
    RoundIdsMembers(rounds);
    RoundIdsMembers(SortRounds(rounds));
    SortByMembers(rounds, RoundDate());
    forall x ensures x in RoundIds(SortRounds(rounds)) <==> x in RoundIds(rounds) {
      if x in RoundIds(rounds) {
        var round :| round in rounds && x in ResultIds(round.results);
        assert round in SortRounds(rounds);
      }
      if x in RoundIds(SortRounds(rounds)) {
        var round :| round in SortRounds(rounds) && x in ResultIds(round.results);
        assert round in rounds;
      }
    }
  }

  /** The participant count of a post is the number of distinct ids over all posted rounds. */
  lemma {:induction false} ParticipantCount(events: seq<CompEvent>)
    ensures Elems(PostedIds(events)) == Elems(EventIds(events))
    ensures |AddNew([], PostedIds(events))| == |Elems(EventIds(events))|
  {
    if events != [] {
      var init := events[..|events| - 1];
      var last := events[|events| - 1];
      ParticipantCount(init);
      SortedRoundsSameIds(last.rounds);
      assert Elems(PostedIds(events)) == Elems(PostedIds(init)) + Elems(RoundIds(SortRounds(last.rounds)));
      assert Elems(EventIds(events)) == Elems(EventIds(init)) + Elems(RoundIds(last.rounds));
    }
    AddNewFacts([], PostedIds(events));
    NoDuplicatesCard(AddNew([], PostedIds(events)));
  }

  // ---------------------------------------------------------------------------
  // The store

  /** The stored contests (their rounds populated) and the result collection. */
  datatype Store = Store(comps: seq<Competition>, results: seq<Result>)

  function RoundsWithResults(rounds: seq<Round>, id: nat, results: seq<Result>): (r: seq<Round>)
    ensures |r| == |rounds|
  {
    seq(|rounds|, i requires 0 <= i < |rounds| =>
      if rounds[i].id == id then rounds[i].(results := results) else rounds[i])
  }

  function EventsWithResults(events: seq<CompEvent>, id: nat, results: seq<Result>): (r: seq<CompEvent>)
    ensures |r| == |events|
  {
    seq(|events|, i requires 0 <= i < |events| =>
      events[i].(rounds := RoundsWithResults(events[i].rounds, id, results)))
  }

  /** Every round with the given id now refers to `results`; nothing else changes. */
  function CompsWithResults(comps: seq<Competition>, id: nat, results: seq<Result>): (r: seq<Competition>)
    ensures |r| == |comps|
    ensures forall i :: 0 <= i < |comps| ==> r[i] == comps[i].(events := r[i].events)
  {
    seq(|comps|, i requires 0 <= i < |comps| =>
      comps[i].(events := EventsWithResults(comps[i].events, id, results)))
  }

  /** Saving one round: its results are created and the round refers to them. */
  function SaveRound(store: Store, round: Round): Store {
    Store(CompsWithResults(store.comps, round.id, round.results), store.results + round.results)
  }

  function SaveRounds(store: Store, rounds: seq<Round>): Store {
    if rounds == [] then store
    else SaveRound(SaveRounds(store, rounds[..|rounds| - 1]), rounds[|rounds| - 1])
  }

  lemma {:induction false} SaveRoundsConcat(store: Store, a: seq<Round>, b: seq<Round>)
    ensures SaveRounds(store, a + b) == SaveRounds(SaveRounds(store, a), b)
  {
    if b == [] {
      assert a + b == a;
    } else {
      SaveRoundsConcat(store, a, b[..|b| - 1]);
      assert (a + b)[..|a + b| - 1] == a + b[..|b| - 1];
    }
  }

  /** Saving rounds never changes anything of a contest but its rounds' results:
      in particular its state and participants stay as they were. */
  lemma {:induction false} SavesKeepContests(store: Store, rounds: seq<Round>)
    ensures |SaveRounds(store, rounds).comps| == |store.comps|
    ensures forall i :: 0 <= i < |store.comps| ==>
              SaveRounds(store, rounds).comps[i] == store.comps[i].(events := SaveRounds(store, rounds).comps[i].events)
  {
    if rounds != [] {
      SavesKeepContests(store, rounds[..|rounds| - 1]);
    }
  }

  // ---------------------------------------------------------------------------
  // Snapshot and rollback of a contest's results

  /** The results of the contest `cid`, in store order. */
  function ResultsOf(results: seq<Result>, cid: string): (r: seq<Result>)
    ensures forall x :: x in r ==> x in results && x.competitionId == cid
  {
    if results == [] then []
    else
      var last := results[|results| - 1];
      ResultsOf(results[..|results| - 1], cid) + (if last.competitionId == cid then [last] else [])
  }

  /** The result collection without the results of the contest `cid`. */
  function WithoutResultsOf(results: seq<Result>, cid: string): seq<Result> {
    if results == [] then []
    else
      var last := results[|results| - 1];
      WithoutResultsOf(results[..|results| - 1], cid) + (if last.competitionId == cid then [] else [last])
  }

  lemma {:induction false} ResultsOfConcat(a: seq<Result>, b: seq<Result>, cid: string)
    ensures ResultsOf(a + b, cid) == ResultsOf(a, cid) + ResultsOf(b, cid)
  {
    if b != [] {
      ResultsOfConcat(a, b[..|b| - 1], cid);
      assert (a + b)[..|a + b| - 1] == a + b[..|b| - 1];
    } else {
      assert a + b == a;
    }
  }

  lemma {:induction false} ResultsOfWithout(results: seq<Result>, cid: string, other: string)
    ensures ResultsOf(WithoutResultsOf(results, cid), cid) == []
    ensures other != cid ==> ResultsOf(WithoutResultsOf(results, cid), other) == ResultsOf(results, other)
  {
    if results != [] {
      var init := results[..|results| - 1];
      var last := results[|results| - 1];
      ResultsOfWithout(init, cid, other);
      ResultsOfConcat(WithoutResultsOf(init, cid), if last.competitionId == cid then [] else [last], cid);
      ResultsOfConcat(WithoutResultsOf(init, cid), if last.competitionId == cid then [] else [last], other);
      assert ResultsOf([last], other) == ResultsOf([], other) + (if last.competitionId == other then [last] else []);
      assert ResultsOf([last], cid) == ResultsOf([], cid) + (if last.competitionId == cid then [last] else []);
    }
  }

  /** A result collection whose results all belong to `cid` is its own selection. */
  lemma {:induction false} ResultsOfOwn(results: seq<Result>, cid: string)
    requires forall x :: x in results ==> x.competitionId == cid
    ensures ResultsOf(results, cid) == results
  {
    if results != [] {
      ResultsOfOwn(results[..|results| - 1], cid);
      assert results == results[..|results| - 1] + [results[|results| - 1]];
    }
  }

  /** A collection holding no result of `cid` is unchanged by deleting them. */
  lemma {:induction false} WithoutAbsent(results: seq<Result>, cid: string)
    requires ResultsOf(results, cid) == []
    ensures WithoutResultsOf(results, cid) == results
  {
    if results != [] {
      var init := results[..|results| - 1];
      var last := results[|results| - 1];
      assert |ResultsOf(init, cid)| <= |ResultsOf(results, cid)|;
      WithoutAbsent(init, cid);
      assert results == init + [last];
    }
  }

  /** Rolling back: the contest's current results are deleted and the snapshot
      is created again. */
  function Rollback(results: seq<Result>, snapshot: seq<Result>, cid: string): seq<Result> {
    WithoutResultsOf(results, cid) + snapshot
  }

  /** The rollback as the posting code writes it: skipped when the snapshot is empty. */
  function RollbackAsWritten(results: seq<Result>, snapshot: seq<Result>, cid: string): seq<Result> {
    if |snapshot| > 0 then Rollback(results, snapshot, cid) else results
  }

  /** After a rollback the contest's results are exactly the snapshot, and every
      other contest's results are as they were. */
  lemma RollbackRestores(results: seq<Result>, snapshot: seq<Result>, cid: string)
    requires forall x :: x in snapshot ==> x.competitionId == cid
    ensures ResultsOf(Rollback(results, snapshot, cid), cid) == snapshot
    ensures forall other :: other != cid ==>
              ResultsOf(Rollback(results, snapshot, cid), other) == ResultsOf(results, other)
  {
    ResultsOfConcat(WithoutResultsOf(results, cid), snapshot, cid);
    ResultsOfWithout(results, cid, cid);
    ResultsOfOwn(snapshot, cid);
    forall other | other != cid
      ensures ResultsOf(Rollback(results, snapshot, cid), other) == ResultsOf(results, other)
    {
      RollbackKeepsOther(results, snapshot, cid, other);
    }
  }

  lemma RollbackKeepsOther(results: seq<Result>, snapshot: seq<Result>, cid: string, other: string)
    requires forall x :: x in snapshot ==> x.competitionId == cid
    requires other != cid
    ensures ResultsOf(Rollback(results, snapshot, cid), other) == ResultsOf(results, other)
  {
    ResultsOfConcat(WithoutResultsOf(results, cid), snapshot, other);
    ResultsOfWithout(results, cid, other);
    ResultsOfForeign(snapshot, other);
  }

  /** No result of a collection belongs to `cid`: nothing is selected. */
  lemma {:induction false} ResultsOfForeign(results: seq<Result>, cid: string)
    requires forall x :: x in results ==> x.competitionId != cid
    ensures ResultsOf(results, cid) == []
  {
    if results != [] {
      ResultsOfForeign(results[..|results| - 1], cid);
      assert results[|results| - 1] in results;
    }
  }

  /** With a non-empty snapshot the code as written rolls back like the corrected one. */
  lemma AsWrittenRollbackWithSnapshot(results: seq<Result>, snapshot: seq<Result>, cid: string)
    requires |snapshot| > 0 && forall x :: x in snapshot ==> x.competitionId == cid
    ensures ResultsOf(RollbackAsWritten(results, snapshot, cid), cid) == snapshot
  {
    RollbackRestores(results, snapshot, cid);
  }

  /** The code as written leaves partial results behind: a contest with no
      results whose post saves one round and then fails keeps that round's
      results, although its snapshot was empty. */
  lemma AsWrittenKeepsPartialResults(comps: seq<Competition>, result: Result, round: Round)
    requires result.competitionId == "c1" && round.results == [result]
    ensures var saved := SaveRounds(Store(comps, []), [round]);
            ResultsOf(RollbackAsWritten(saved.results, [], "c1"), "c1") == [result]
  {
    var saved := SaveRounds(Store(comps, []), [round]);
    assert [round][..0] == [];
    assert SaveRounds(Store(comps, []), []) == Store(comps, []);
    assert saved == SaveRound(Store(comps, []), round);
    assert saved.results == [result];
    assert [result][..0] == [];
  }
}
