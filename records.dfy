/** The record snapshot: for an event and a cutoff date, the standing best single
    and best average of every active record category. */
module Records {
  import opened Domain

  /** The record queries of the results store: the results of an event that hold
      a record label, set strictly before a cutoff, best first. */
  datatype RecordQueries = RecordQueries(
    singles: (string, string, int) -> seq<Result>,
    averages: (string, string, int) -> seq<Result>)

  /** The cutoff of a snapshot: the maximum date when none is given, otherwise
      the given instant truncated to its UTC midnight. */
  function Cutoff(beforeDate: Option<int>): (c: int)
    ensures beforeDate.None? ==> c == MaxDate
    ensures beforeDate.Some? ==> c % MsPerDay == 0 && c <= beforeDate.value < c + MsPerDay
  {
    match beforeDate
    case None => MaxDate
    case Some(d) => d - d % MsPerDay
  }

  /** Cutoffs are date-granular: two instants of the same UTC day get the same
      cutoff, and instants of different days get different ones. */
  lemma CutoffIsPerDay(a: int, b: int)
    ensures Cutoff(Some(a)) == Cutoff(Some(b)) <==> a / MsPerDay == b / MsPerDay
  {
    var ca, cb := Cutoff(Some(a)), Cutoff(Some(b));
    assert ca == a / MsPerDay * MsPerDay;
    assert cb == b / MsPerDay * MsPerDay;
    if a / MsPerDay == b / MsPerDay {
    } else if a / MsPerDay < b / MsPerDay {
      assert a / MsPerDay + 1 <= b / MsPerDay;
      assert ca + MsPerDay <= cb;
    } else {
      assert b / MsPerDay + 1 <= a / MsPerDay;
      assert cb + MsPerDay <= ca;
    }
  }

  /** The standing record of one record type: the best of the first result of each
      query, -1 when a query finds nothing. */
  function RecordFor(eventId: string, rt: RecordType, cutoff: int, q: RecordQueries): RecordPair
  {
    var singles := q.singles(eventId, rt.recordLabel, cutoff);
    var averages := q.averages(eventId, rt.recordLabel, cutoff);
    RecordPair(if |singles| > 0 then singles[0].best else -1,
               if |averages| > 0 then averages[0].average else -1)
  }

  /** The snapshot entries after visiting the given record types in order; a later
      type with the same equivalent overwrites an earlier one. */
  function RecordsOf(eventId: string, types: seq<RecordType>, cutoff: int, q: RecordQueries): map<string, RecordPair>
  {
    if types == [] then map[]
    else
      var last := types[|types| - 1];
      RecordsOf(eventId, types[..|types| - 1], cutoff, q)[last.wcaEquivalent := RecordFor(eventId, last, cutoff, q)]
  }

  /** The snapshot: nothing when no record type is active, otherwise the entries. */
  function EventRecords(eventId: string, types: seq<RecordType>, beforeDate: Option<int>, q: RecordQueries)
    : Option<map<string, RecordPair>>
  {
    if types == [] then None else Some(RecordsOf(eventId, types, Cutoff(beforeDate), q))
  }

  /** Whether no later type in `types` has the same equivalent as `types[i]`. */
  predicate LastOfEquivalent(types: seq<RecordType>, i: nat)
    requires i < |types|
  {
    forall j :: i < j < |types| ==> types[j].wcaEquivalent != types[i].wcaEquivalent
  }

  /** Which entries the snapshot holds: one per equivalent, from the last type that has it. */
  lemma {:induction false} RecordsOfEntries(eventId: string, types: seq<RecordType>, cutoff: int, q: RecordQueries)
    ensures RecordsOf(eventId, types, cutoff, q).Keys == set t | t in types :: t.wcaEquivalent
    ensures forall i :: 0 <= i < |types| && LastOfEquivalent(types, i)
              ==> RecordsOf(eventId, types, cutoff, q)[types[i].wcaEquivalent] == RecordFor(eventId, types[i], cutoff, q)
  {
    if types != [] {
      var init := types[..|types| - 1];
      RecordsOfEntries(eventId, init, cutoff, q);
      assert types == init + [types[|types| - 1]];
      forall i | 0 <= i < |types| - 1 && LastOfEquivalent(types, i) ensures LastOfEquivalent(init, i) {
      }
    }
  }

  /** Fetches the snapshot of an event's records before `beforeDate` (or of the
      current records, without a date) for the active record types. */
  method GetEventRecords(eventId: string, activeRecordTypes: seq<RecordType>, beforeDate: Option<int>, q: RecordQueries)
    returns (records: Option<map<string, RecordPair>>)
    ensures records == EventRecords(eventId, activeRecordTypes, beforeDate, q)
    ensures records.None? <==> |activeRecordTypes| == 0
    ensures records.Some? ==> records.value.Keys == set t | t in activeRecordTypes :: t.wcaEquivalent
    ensures records.Some? ==>
              forall i :: 0 <= i < |activeRecordTypes| && LastOfEquivalent(activeRecordTypes, i)
                ==> records.value[activeRecordTypes[i].wcaEquivalent]
                    == RecordFor(eventId, activeRecordTypes[i], Cutoff(beforeDate), q)
  {
    // no record types are active
    if |activeRecordTypes| == 0 {
      return None;
    }
    var cutoff := if beforeDate.None? then MaxDate else beforeDate.value - beforeDate.value % MsPerDay;
    assert cutoff == Cutoff(beforeDate);
    var entries: map<string, RecordPair> := map[];
    var i := 0;
    while i < |activeRecordTypes|
      invariant 0 <= i <= |activeRecordTypes|
      invariant entries == RecordsOf(eventId, activeRecordTypes[..i], cutoff, q)
    {
      var rt := activeRecordTypes[i];
      var newRecords := RecordPair(-1, -1);
      var singleResults := q.singles(eventId, rt.recordLabel, cutoff);
      if |singleResults| > 0 {
        newRecords := newRecords.(best := singleResults[0].best);
      }
      var avgResults := q.averages(eventId, rt.recordLabel, cutoff);
      if |avgResults| > 0 {
        newRecords := newRecords.(average := avgResults[0].average);
      }
      assert newRecords == RecordFor(eventId, rt, cutoff, q);
      assert activeRecordTypes[..i + 1][..i] == activeRecordTypes[..i];
      entries := entries[rt.wcaEquivalent := newRecords];
      i := i + 1;
    }
    assert activeRecordTypes[..i] == activeRecordTypes;
    records := Some(entries);
    RecordsOfEntries(eventId, activeRecordTypes, cutoff, q);
  }
}
