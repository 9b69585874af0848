/** Reconciling a reviewed capture queue with the stored records, read-only. */
module IngestionInbox {
  import opened Base
  import opened Text
  import opened WritePlan
  import opened PlanExecution
  import opened CaptureQueue

  const SCH_FIELD := "state_clearinghouse_number"
  const COUNTY_FIELD := "county"
  const PROVENANCE_FIELD := "provenance"

  datatype CandidateState =
    | PendingCapture
    | PendingExistingSch
    | ClaimMatch
    | ClaimConflict
    | CountyUnavailable

  /** A queue candidate beside the keys of the stored records of its project, and of the reviewed ones. */
  datatype Item = Item(
    sch: string,
    claimedCounty: string,
    state: CandidateState,
    existing: set<string>,
    reviewed: set<string>,
    knownCounties: set<string>,
    missingCounty: set<string>)

  /** Whether a record's provenance includes a reviewed CSV import. */
  type Reviewed = Json -> bool

  function CeqaRow(key: string): Identity {
    (CeqaRecords, key)
  }

  /** Keys of the stored records that carry a project number. */
  function RecordsFor(rows: Rows, sch: string): set<string> {
    set id | id in rows && id.0 == CeqaRecords && Get(rows[id], SCH_FIELD) == JString(sch) :: id.1
  }

  function ReviewedFor(reviewed: Reviewed, rows: Rows, sch: string): set<string> {
    set key | key in RecordsFor(rows, sch) && reviewed(Get(rows[CeqaRow(key)], PROVENANCE_FIELD))
  }

  function CountyOf(rows: Rows, key: string): Option<string>
    requires CeqaRow(key) in rows
  {
    StringOrNone(Get(rows[CeqaRow(key)], COUNTY_FIELD))
  }

  function KnownCounties(rows: Rows, keys: set<string>): set<string>
    requires forall key :: key in keys ==> CeqaRow(key) in rows
  {
    set key | key in keys && CountyOf(rows, key).Some? :: CountyOf(rows, key).value
  }

  function MissingCounty(rows: Rows, keys: set<string>): set<string>
    requires forall key :: key in keys ==> CeqaRow(key) in rows
  {
    set key | key in keys && CountyOf(rows, key) == None
  }

  function Classified(existing: set<string>, reviewed: set<string>, known: set<string>, missing: set<string>,
                      claimed: string): CandidateState
  {
    if reviewed == {} then (if existing == {} then PendingCapture else PendingExistingSch)
    else if exists county :: county in known && county != claimed then ClaimConflict
    else if missing != {} then CountyUnavailable
    else ClaimMatch
  }

  function Reconciled(reviewed: Reviewed, rows: Rows, c: Candidate): Item {
    var existing, ours := RecordsFor(rows, c.sch), ReviewedFor(reviewed, rows, c.sch);
    var known, missing := KnownCounties(rows, ours), MissingCounty(rows, ours);
    Item(c.sch, c.county, Classified(existing, ours, known, missing, c.county), existing, ours, known, missing)
  }

  predicate Pending(state: CandidateState) {
    state == PendingCapture || state == PendingExistingSch
  }

  function Select(items: seq<Item>, wanted: CandidateState -> bool): seq<Item> {
    if items == [] then []
    else (if wanted(items[0].state) then [items[0]] else []) + Select(items[1..], wanted)
  }

  datatype Inbox = Inbox(
    items: seq<Item>,
    candidateCount: nat,
    pendingCount: nat,
    persistedCount: nat,
    conflictCount: nat,
    unavailableCount: nat,
    nextPending: Option<string>)

  function InboxOf(items: seq<Item>): Inbox {
    var pending := Select(items, s => Pending(s));
    Inbox(items, |items|, |pending|, |Select(items, s => !Pending(s))|,
          |Select(items, s => s == ClaimConflict)|, |Select(items, s => s == CountyUnavailable)|,
          if pending == [] then None else Some(pending[0].sch))
  }

  type Reconciler = Candidate -> Item

  function ReconcilerOf(reviewed: Reviewed, rows: Rows): Reconciler {
    c => Reconciled(reviewed, rows, c)
  }

  function ReconcileAll(reconcile: Reconciler, candidates: seq<Candidate>): seq<Item> {
    seq(|candidates|, i requires 0 <= i < |candidates| => reconcile(candidates[i]))
  }

  datatype InboxError = QueueTooLarge | QueueNotDerivable(reason: QueueError) | QueueDiffers

  /** The saved queue must be exactly what its listing derives to now. */
  function CheckedQueue(p: Parsers, listing: Listing, listingLength: nat, saved: Queue, savedLength: nat)
    : Result<Queue, InboxError>
  {
    if savedLength > MAX_ARTIFACT_BYTES then Err(QueueTooLarge)
    else
      match QueueOf(p, listing, listingLength)
      case Err(error) => Err(QueueNotDerivable(error))
      case Ok(queue) => if saved != queue then Err(QueueDiffers) else Ok(queue)
  }

  function BuildInbox(reviewed: Reviewed, rows: Rows, p: Parsers, listing: Listing, listingLength: nat, saved: Queue,
                      savedLength: nat): Result<Inbox, InboxError>
  {
    match CheckedQueue(p, listing, listingLength, saved, savedLength)
    case Err(error) => Err(error)
    case Ok(queue) => Ok(InboxOf(ReconcileAll(ReconcilerOf(reviewed, rows), queue.candidates)))
  }

  /** The reconciling loop. */
  method ReconcileEach(reconcile: Reconciler, candidates: seq<Candidate>) returns (items: seq<Item>)
    ensures items == ReconcileAll(reconcile, candidates)
  {
    items := [];
    for k := 0 to |candidates|
      invariant items == ReconcileAll(reconcile, candidates[..k])
    {
      items := items + [reconcile(candidates[k])];
    }
    assert candidates[..|candidates|] == candidates;
  }

  method ReconcileQueue(reviewed: Reviewed, rows: Rows, p: Parsers, listing: Listing, listingLength: nat,
                        saved: Queue, savedLength: nat)
    returns (r: Result<Inbox, InboxError>)
    ensures r == BuildInbox(reviewed, rows, p, listing, listingLength, saved, savedLength)
  {
    var queue := CheckedQueue(p, listing, listingLength, saved, savedLength);
    if queue.Err? { return Err(queue.error); }
    var items := ReconcileEach(ReconcilerOf(reviewed, rows), queue.value.candidates);
    r := Ok(InboxOf(items));
  }
}
