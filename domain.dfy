/** The entities of the contest store, as values: results, rounds, contest events,
    contests, record types and the update request. Dates are integer milliseconds
    since the Unix epoch; object and person identifiers are integers. */
module Domain {

  datatype Option<+T> = None | Some(value: T) {
    function GetOr(default: T): T {
      match this
      case Some(v) => v
      case None => default
    }
  }

  /** Maximum number of rounds an event may have. */
  const MaxRounds: nat := 10
  /** Milliseconds in one UTC day. */
  const MsPerDay: int := 86400000
  /** The largest instant a date can hold, used as "no cutoff". */
  const MaxDate: int := 8640000000000000
  /** The record category whose records are marked when results are posted. */
  const WR: string := "WR"

  /** Lifecycle states, in increasing order. */
  datatype CompetitionState = Created | Approved | Ongoing | Finished | Published {
    function Ordinal(): nat {
      match this
      case Created => 0
      case Approved => 1
      case Ongoing => 2
      case Finished => 3
      case Published => 4
    }
    predicate Below(other: CompetitionState) {
      Ordinal() < other.Ordinal()
    }
  }

  datatype CompetitionType = Meetup | Competition | Online

  datatype Role = User | Moderator | Admin

  /** One result document. `personIds` holds the ids that the stored field joins with `;`. */
  datatype Result = Result(
    competitionId: string,
    personIds: seq<int>,
    best: int,
    average: int,
    singleRecord: Option<string>,
    averageRecord: Option<string>,
    notPublished: bool)

  /** How many competitors advance from a round: a kind (number or percentage) and a value. */
  datatype Proceed = Proceed(kind: nat, value: nat)

  /** One round document; `results` stands for the results the round refers to. */
  datatype Round = Round(
    id: nat,
    competitionId: string,
    roundTypeId: string,
    format: string,
    date: int,
    proceed: Option<Proceed>,
    results: seq<Result>,
    notPublished: bool)

  /** An event of a contest with its rounds. */
  datatype CompEvent = CompEvent(eventId: string, rounds: seq<Round>)

  datatype Person = Person(personId: int, name: string)

  /** One contest document. Optional text fields are empty when absent. */
  datatype Competition = Competition(
    competitionId: string,
    countryId: string,
    name: string,
    city: string,
    venue: string,
    address: string,
    latitude: int,
    longitude: int,
    startDate: int,
    endDate: Option<int>,
    contact: string,
    description: string,
    organizers: seq<Person>,
    competitorLimit: int,
    mainEventId: string,
    kind: CompetitionType,
    state: CompetitionState,
    participants: nat,
    events: seq<CompEvent>)

  /** An update request. An empty string or a zero number stands for a field the
      request leaves out (both are falsy where the update tests the field). */
  datatype UpdateRequest = UpdateRequest(
    competitionId: string,
    countryId: string,
    name: string,
    city: string,
    venue: string,
    address: string,
    latitude: int,
    longitude: int,
    startDate: int,
    endDate: Option<int>,
    contact: string,
    description: string,
    organizerIds: Option<seq<int>>,
    competitorLimit: int,
    mainEventId: string,
    events: seq<CompEvent>)

  /** An entry of the record-type catalog. */
  datatype RecordType = RecordType(recordLabel: string, wcaEquivalent: string, active: bool)

  /** The standing record of one category: best single and best average, -1 for none. */
  datatype RecordPair = RecordPair(best: int, average: int)

  datatype BadRequestReason = TooManyRounds | NoRounds | MissingEndDate | NotApproved | AlreadyFinished

  datatype Error = NotFound | BadRequest(reason: BadRequestReason) | InternalError

  datatype Outcome = Done | Failed(error: Error)

  /** The elements of a sequence, as a set. */
  function Elems<T>(s: seq<T>): set<T> {
    set x | x in s
  }

  predicate NoDuplicates<T(==)>(s: seq<T>) {
    forall i, j :: 0 <= i < j < |s| ==> s[i] != s[j]
  }
}
