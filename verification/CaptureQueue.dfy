/** The offline capture queue: saved listing pages are reviewed record by record into one candidate per
    project number. */
module CaptureQueue {
  import opened Base
  import opened Ordering
  import opened Text

  const COUNTIES := {"San Bernardino", "Riverside"}
  const MAX_PAGES := 10
  const MAX_CANDIDATES := 1_000
  const MAX_ARTIFACT_BYTES := 16 * 1024 * 1024
  const MAX_BODY_BYTES := 50_000

  datatype ListedRecord = ListedRecord(
    sch: Option<string>,
    detailUrl: string,
    county: Option<string>,
    title: string,
    requiresEnrichment: bool)

  /** One saved page; absent values are null. */
  datatype Snapshot =
    | SnapshotNotAnObject
    | Snapshot(
        pageNumber: Json,
        httpMethod: Json,
        requestUrl: Json,
        finalUrl: Json,
        statusCode: Json,
        executed: Json,
        reachable: Json,
        bodyTruncated: Json,
        error: Json,
        failureKind: Json,
        contentType: Json,
        bodyText: Json)

  /** What the report's metadata says; `accessDecision` and `decisionId` are read from nested objects. */
  datatype Metadata = Metadata(
    schemaVersion: Json,
    allowed: Json,
    accessDecision: Option<Json>,
    decisionId: Option<Json>,
    planned: Json,
    executed: Json,
    successful: Json,
    failed: Json)

  datatype Listing = Listing(metadata: Option<Metadata>, snapshots: Option<seq<Snapshot>>)

  /** The URL, HTML and encoding libraries: whether an address is the exact official search page, which
      project an exact official detail address names, a media type in lower case, and a page's records. */
  datatype Parsers = Parsers(
    searchUrl: string -> bool,
    detailSch: string -> Option<string>,
    mediaType: string -> string,
    utf8Length: string -> nat,
    records: (string, string) -> seq<ListedRecord>)

  datatype QueueError =
    | ArtifactTooLarge
    | NotAListingReport
    | PageSetIncomplete
    | SnapshotMalformed
    | UnofficialUrl
    | PageIncomplete
    | CountyConflict
    | TooManyCandidates

  // ---------- Reading the pages ----------

  function Envelope(listing: Listing, byteLength: nat): Option<QueueError> {
    if byteLength > MAX_ARTIFACT_BYTES then Some(ArtifactTooLarge)
    else if listing.metadata == None
         || listing.metadata.value.schemaVersion != JString("ceqanet_listing_execution.v2") then Some(NotAListingReport)
    else
      var m := listing.metadata.value;
      if && m.allowed == JBool(true) && m.accessDecision == Some(JString("allowed"))
         && m.decisionId.Some? && m.decisionId.value.JString? && m.decisionId.value.text != ""
         && listing.snapshots.Some? && 1 <= |listing.snapshots.value| <= MAX_PAGES
         && PythonInt(m.planned) == PythonInt(m.executed) == PythonInt(m.successful) == Some(|listing.snapshots.value|)
         && PythonInt(m.failed) == Some(0)
      then None else Some(PageSetIncomplete)
  }

  predicate OfficialSearch(p: Parsers, url: Json) {
    url.JString? && p.searchUrl(url.text)
  }

  predicate PageComplete(p: Parsers, page: Snapshot, index: nat)
    requires page.Snapshot?
  {
    && PythonInt(page.pageNumber) == Some(index)
    && page.httpMethod == JString("GET") && page.requestUrl == page.finalUrl
    && PythonInt(page.statusCode) == Some(200)
    && page.executed == JBool(true) && page.reachable == JBool(true) && page.bodyTruncated == JBool(false)
    && page.error == JNull && page.failureKind == JString("none")
    && page.contentType.JString? && p.mediaType(page.contentType.text) in {"text/html", "application/xhtml+xml"}
    && page.bodyText.JString? && Strip(page.bodyText.text) != ""
    && p.utf8Length(page.bodyText.text) <= MAX_BODY_BYTES
  }

  /** How a listed record is disposed of. */
  datatype Kind = Unidentified | Outside | Target(sch: string, county: string, link: string)

  predicate ExactSch(s: string) {
    |s| == 10 && forall i :: 0 <= i < 10 ==> '0' <= s[i] <= '9'
  }

  function Classify(p: Parsers, record: ListedRecord): Kind {
    if record.sch == None || !ExactSch(record.sch.value) then Unidentified
    else if p.detailSch(record.detailUrl) != record.sch then Unidentified
    else if record.county == None || record.county.value !in COUNTIES then Outside
    else Target(record.sch.value, record.county.value, record.detailUrl)
  }

  /** A record as the aggregation sees it. */
  datatype Observation = Observation(page: nat, kind: Kind, title: string, requiresEnrichment: bool)

  function Observe(p: Parsers, page: nat, record: ListedRecord): Observation {
    Observation(page, Classify(p, record), record.title, record.requiresEnrichment)
  }

  function ObserveAll(p: Parsers, page: nat, records: seq<ListedRecord>): seq<Observation> {
    seq(|records|, i requires 0 <= i < |records| => Observe(p, page, records[i]))
  }

  function ReadPage(p: Parsers, page: Snapshot, index: nat): Result<seq<Observation>, QueueError> {
    if page.SnapshotNotAnObject? then Err(SnapshotMalformed)
    else if !OfficialSearch(p, page.requestUrl) || !OfficialSearch(p, page.finalUrl) then Err(UnofficialUrl)
    else if !PageComplete(p, page, index) then Err(PageIncomplete)
    else Ok(ObserveAll(p, index, p.records(page.bodyText.text, page.requestUrl.text)))
  }

  // ---------- Aggregation ----------

  datatype Candidate = Candidate(
    sch: string,
    county: string,
    title: string,
    requiresEnrichment: bool,
    detailUrl: string,
    pages: seq<nat>,
    count: nat)

  /** `order` is the order in which the candidates dictionary got its keys. */
  datatype Tallies = Tallies(
    candidates: map<string, Candidate>,
    order: seq<string>,
    unidentified: nat,
    outside: nat)

  const NOTHING := Tallies(map[], [], 0, 0)

  function FirstSeen(o: Observation): Candidate
    requires o.kind.Target?
  {
    Candidate(o.kind.sch, o.kind.county, o.title, o.requiresEnrichment, o.kind.link, [o.page], 1)
  }

  function SeenAgain(c: Candidate, o: Observation): Candidate {
    c.(count := c.count + 1,
       pages := if o.page in c.pages then c.pages else c.pages + [o.page],
       requiresEnrichment := c.requiresEnrichment || o.requiresEnrichment)
  }

  function TallyOne(t: Tallies, o: Observation): Result<Tallies, QueueError> {
    match o.kind
    case Unidentified => Ok(t.(unidentified := t.unidentified + 1))
    case Outside => Ok(t.(outside := t.outside + 1))
    case Target(sch, county, _) =>
      if sch !in t.candidates then
        if |t.candidates| == MAX_CANDIDATES then Err(TooManyCandidates)
        else Ok(t.(candidates := t.candidates[sch := FirstSeen(o)], order := t.order + [sch]))
      else if t.candidates[sch].county != county then Err(CountyConflict)
      else Ok(t.(candidates := t.candidates[sch := SeenAgain(t.candidates[sch], o)]))
  }

  function TallyAll(t: Tallies, obs: seq<Observation>): Result<Tallies, QueueError> {
    if obs == [] then Ok(t)
    else
      match TallyAll(t, obs[..|obs| - 1])
      case Err(error) => Err(error)
      case Ok(before) => TallyOne(before, obs[|obs| - 1])
  }

  type PageReader = (Snapshot, nat) -> Result<seq<Observation>, QueueError>

  function PageReaderOf(p: Parsers): PageReader {
    (page, index: nat) => ReadPage(p, page, index)
  }

  datatype Scan = Scan(tallies: Tallies, parsed: nat)

  function ScanPages(read: PageReader, pages: seq<Snapshot>): Result<Scan, QueueError> {
    if pages == [] then Ok(Scan(NOTHING, 0))
    else
      match ScanPages(read, pages[..|pages| - 1])
      case Err(error) => Err(error)
      case Ok(before) =>
        match read(pages[|pages| - 1], |pages|)
        case Err(error) => Err(error)
        case Ok(obs) =>
          match TallyAll(before.tallies, obs)
          case Err(error) => Err(error)
          case Ok(tallies) => Ok(Scan(tallies, before.parsed + |obs|))
  }

  datatype Queue = Queue(
    candidates: seq<Candidate>,
    pagesReviewed: nat,
    recordsParsed: nat,
    unidentified: nat,
    outside: nat)

  function Pick(candidates: map<string, Candidate>, order: seq<string>): seq<Candidate> {
    if order == [] then []
    else (if order[0] in candidates then [candidates[order[0]]] else []) + Pick(candidates, order[1..])
  }

  function QueueFrom(scan: Scan, pages: nat): Queue {
    Queue(Pick(scan.tallies.candidates, SortedBy(TextKey, scan.tallies.order)), pages, scan.parsed,
          scan.tallies.unidentified, scan.tallies.outside)
  }

  function QueueOf(p: Parsers, listing: Listing, byteLength: nat): Result<Queue, QueueError> {
    match Envelope(listing, byteLength)
    case Some(error) => Err(error)
    case None =>
      if listing.snapshots == None then Err(PageSetIncomplete)
      else
        match ScanPages(PageReaderOf(p), listing.snapshots.value)
        case Err(error) => Err(error)
        case Ok(scan) => Ok(QueueFrom(scan, |listing.snapshots.value|))
  }

  // ---------- The loops ----------

  lemma {:induction false} FirstTallyFailureDecides(t: Tallies, obs: seq<Observation>, k: nat)
    requires k <= |obs| && TallyAll(t, obs[..k]).Err?
    ensures TallyAll(t, obs) == TallyAll(t, obs[..k])
  {
    if k < |obs| {
      assert obs[..|obs| - 1][..k] == obs[..k];
      FirstTallyFailureDecides(t, obs[..|obs| - 1], k);
    } else {
      assert obs[..k] == obs;
    }
  }

  lemma {:induction false} FirstPageFailureDecides(read: PageReader, pages: seq<Snapshot>, k: nat)
    requires k <= |pages| && ScanPages(read, pages[..k]).Err?
    ensures ScanPages(read, pages) == ScanPages(read, pages[..k])
  {
    if k < |pages| {
      assert pages[..|pages| - 1][..k] == pages[..k];
      FirstPageFailureDecides(read, pages[..|pages| - 1], k);
    } else {
      assert pages[..k] == pages;
    }
  }

  /** The inner loop, updating the dictionary, its order and the two exclusion counters. */
  method TallyPage(before: Tallies, obs: seq<Observation>) returns (r: Result<Tallies, QueueError>)
    ensures r == TallyAll(before, obs)
  {
    var candidates, order := before.candidates, before.order;
    var unidentified, outside := before.unidentified, before.outside;
    for k := 0 to |obs|
      invariant TallyAll(before, obs[..k]) == Ok(Tallies(candidates, order, unidentified, outside))
    {
      assert obs[..k + 1][..k] == obs[..k];
      match obs[k].kind {
        case Unidentified => unidentified := unidentified + 1;
        case Outside => outside := outside + 1;
        case Target(sch, county, _) =>
          if sch !in candidates {
            if |candidates| == MAX_CANDIDATES {
              FirstTallyFailureDecides(before, obs, k + 1);
              return Err(TooManyCandidates);
            }
            candidates, order := candidates[sch := FirstSeen(obs[k])], order + [sch];
          } else {
            if candidates[sch].county != county {
              FirstTallyFailureDecides(before, obs, k + 1);
              return Err(CountyConflict);
            }
            candidates := candidates[sch := SeenAgain(candidates[sch], obs[k])];
          }
      }
    }
    assert obs[..|obs|] == obs;
    r := Ok(Tallies(candidates, order, unidentified, outside));
  }

  /** The outer loop over the saved pages. */
  method ReviewPages(read: PageReader, pages: seq<Snapshot>) returns (r: Result<Scan, QueueError>)
    ensures r == ScanPages(read, pages)
  {
    var tallies, parsed: nat := NOTHING, 0;
    for index := 0 to |pages|
      invariant ScanPages(read, pages[..index]) == Ok(Scan(tallies, parsed))
    {
      assert pages[..index + 1][..index] == pages[..index];
      var obs := read(pages[index], index + 1);
      if obs.Err? {
        FirstPageFailureDecides(read, pages, index + 1);
        return Err(obs.error);
      }
      var tallied := TallyPage(tallies, obs.value);
      if tallied.Err? {
        FirstPageFailureDecides(read, pages, index + 1);
        return Err(tallied.error);
      }
      tallies, parsed := tallied.value, parsed + |obs.value|;
    }
    assert pages[..|pages|] == pages;
    r := Ok(Scan(tallies, parsed));
  }

  method BuildQueue(p: Parsers, listing: Listing, byteLength: nat) returns (r: Result<Queue, QueueError>)
    ensures r == QueueOf(p, listing, byteLength)
  {
    var refusal := Envelope(listing, byteLength);
    if refusal.Some? { return Err(refusal.value); }
    if listing.snapshots == None { return Err(PageSetIncomplete); }
    var scan := ReviewPages(PageReaderOf(p), listing.snapshots.value);
    if scan.Err? { return Err(scan.error); }
    r := Ok(QueueFrom(scan.value, |listing.snapshots.value|));
  }
}
