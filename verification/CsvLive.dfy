/** Inspecting a retained CSV body, and verifying the evidence that carries such an inspection. */
module CsvLive {
  import opened Base
  import opened Text

  datatype ExportKind = ProjectExport | DocumentExport

  datatype Request = Request(kind: ExportKind, sch: string, documentId: Option<nat>, sourceUrl: string)

  datatype Column = Column(name: string, isSch: bool, known: bool)

  /** A body split by the CSV reader: non-blank rows, header first; `broken` when reading fails after them. */
  datatype Table = Table(encoding: string, rows: seq<seq<string>>, broken: bool)

  datatype InspectionBody = InspectionBody(
    request: Request,
    contentType: Option<string>,
    encoding: string,
    byteLength: nat,
    sha256: string,
    columns: seq<Column>,
    rowCount: nat,
    rows: seq<seq<string>>,
    truncated: bool)

  datatype Inspection = Inspection(body: InspectionBody, digest: string)

  datatype InspectError =
    | NotCanonicalRequest
    | EmptyBody
    | BodyTooLarge
    | BadRowCap
    | UnsupportedMediaType
    | Undecodable
    | SyntaxInvalid
    | NoDataRow
    | BadHeader
    | NoSchColumn
    | RowWidth
    | SchMismatch

  /** What an execution states about its own conduct. */
  datatype Conduct = Conduct(
    httpMethod: string,
    retries: int,
    networkExecuted: bool,
    documentsDownloaded: bool,
    persistenceMutated: bool)

  const ONE_GET := Conduct("GET", 0, true, false, false)

  datatype LiveBody = LiveBody(
    request: Request,
    requestUrl: string,
    finalUrl: string,
    conduct: Conduct,
    status: Option<int>,
    contentType: Option<string>,
    observedLength: nat,
    retained: Bytes,
    retainedLength: nat,
    complete: bool,
    sha256: string,
    error: Option<string>,
    inspection: Option<Inspection>,
    inspectionError: Option<InspectError>)

  datatype LiveExecution = LiveExecution(body: LiveBody, executedAt: int, digest: string)

  /** The libraries the evidence code calls, as fixed functions. */
  datatype Library = Library(
    parseUrl: string -> Option<Request>,
    mediaType: string -> Option<string>,
    readTable: Bytes -> Option<Table>,
    columns: (seq<string>, ExportKind) -> Option<seq<Column>>,
    sha256: Bytes -> string,
    inspectionDigest: InspectionBody -> string,
    liveDigest: LiveBody -> string)

  const MAX_CSV_BYTES := 10_000_000
  const MAX_ROW_CAP := 5_000
  const DEFAULT_ROW_CAP := 1_000

  // ---------- Inspection ----------

  function StripAll(cells: seq<string>): seq<string> {
    seq(|cells|, i requires 0 <= i < |cells| => Strip(cells[i]))
  }

  function SchOrdinal(columns: seq<Column>): (i: nat)
    ensures i <= |columns| && (i < |columns| ==> columns[i].isSch)
  {
    if columns == [] || columns[0].isSch then 0 else 1 + SchOrdinal(columns[1..])
  }

  datatype RowState = RowState(count: nat, kept: seq<seq<string>>)

  /** One data row: its width, its SCH number, then the count and, below the cap, the values.
      The pattern check on the row's SCH is implied by its equality with the request's. */
  function TakeRow(columns: seq<Column>, request: Request, cap: nat, row: seq<string>, state: RowState)
    : Result<RowState, InspectError>
    requires SchOrdinal(columns) < |columns|
  {
    var values := StripAll(row);
    if |row| != |columns| then Err(RowWidth)
    else if values[SchOrdinal(columns)] != request.sch then Err(SchMismatch)
    else Ok(RowState(state.count + 1, if |state.kept| < cap then state.kept + [values] else state.kept))
  }

  function TakeRows(columns: seq<Column>, request: Request, cap: nat, rows: seq<seq<string>>, state: RowState)
    : Result<RowState, InspectError>
    requires SchOrdinal(columns) < |columns|
    decreases |rows|
  {
    if rows == [] then Ok(state)
    else
      match TakeRow(columns, request, cap, rows[0], state)
      case Err(error) => Err(error)
      case Ok(next) => TakeRows(columns, request, cap, rows[1..], next)
  }

  /** The reading loop. */
  method ReadRows(columns: seq<Column>, request: Request, cap: nat, rows: seq<seq<string>>)
    returns (r: Result<RowState, InspectError>)
    requires SchOrdinal(columns) < |columns|
    ensures r == TakeRows(columns, request, cap, rows, RowState(0, []))
  {
    var state := RowState(0, []);
    assert rows[0..] == rows;
    for i := 0 to |rows|
      invariant TakeRows(columns, request, cap, rows, RowState(0, []))
             == TakeRows(columns, request, cap, rows[i..], state)
    {
      assert rows[i..][0] == rows[i] && rows[i..][1..] == rows[i + 1..];
      var step := TakeRow(columns, request, cap, rows[i], state);
      match step {
        case Err(error) => return Err(error);
        case Ok(next) => state := next;
      }
    }
    r := Ok(state);
  }

  function NormalizedType(lib: Library, contentType: Option<string>): Result<Option<string>, InspectError> {
    match contentType
    case None => Ok(None)
    case Some(value) =>
      match lib.mediaType(value) case None => Err(UnsupportedMediaType) case Some(m) => Ok(Some(m))
  }

  /** Everything about a body that does not depend on how many rows are to be retained. */
  datatype Prepared = Prepared(contentType: Option<string>, table: Table, columns: seq<Column>)

  function Prepare(lib: Library, request: Request, content: Bytes, contentType: Option<string>)
    : (r: Result<Prepared, InspectError>)
    ensures r.Ok? ==> |r.value.table.rows| >= 2 && SchOrdinal(r.value.columns) < |r.value.columns|
  {
    match NormalizedType(lib, contentType)
    case Err(error) => Err(error)
    case Ok(media) =>
      match lib.readTable(content)
      case None => Err(Undecodable)
      case Some(table) =>
        if |table.rows| < 2 then Err(if table.broken then SyntaxInvalid else NoDataRow)
        else
          match lib.columns(StripAll(table.rows[0]), request.kind)
          case None => Err(BadHeader)
          case Some(columns) =>
            if SchOrdinal(columns) == |columns| then Err(NoSchColumn)
            else Ok(Prepared(media, table, columns))
  }

  function Inspect(lib: Library, request: Request, content: Bytes, contentType: Option<string>, cap: int)
    : Result<Inspection, InspectError>
  {
    if lib.parseUrl(request.sourceUrl) != Some(request) then Err(NotCanonicalRequest)
    else if content == [] then Err(EmptyBody)
    else if |content| > MAX_CSV_BYTES then Err(BodyTooLarge)
    else if cap < 0 || cap > MAX_ROW_CAP then Err(BadRowCap)
    else
      match Prepare(lib, request, content, contentType)
      case Err(error) => Err(error)
      case Ok(p) =>
        match TakeRows(p.columns, request, cap, p.table.rows[1..], RowState(0, []))
        case Err(error) => Err(error)
        case Ok(state) =>
          if p.table.broken then Err(SyntaxInvalid)
          else
            var body := InspectionBody(
              request, p.contentType, p.table.encoding, |content|, lib.sha256(content), p.columns,
              state.count, state.kept, |state.kept| < state.count);
            Ok(Inspection(body, lib.inspectionDigest(body)))
  }

  // ---- Re-inspection is a fixpoint ----

  /** Two caps that both keep, or both stop keeping, at `bound` rows keep the same rows. */
  lemma {:induction false} SameRowsKept(columns: seq<Column>, request: Request, a: nat, b: nat,
                                        rows: seq<seq<string>>, state: RowState)
    requires SchOrdinal(columns) < |columns|
    requires |state.kept| == Min(a, state.count)
    requires b == Min(a, state.count + |rows|)
    ensures TakeRows(columns, request, a, rows, state) == TakeRows(columns, request, b, rows, state)
    ensures var r := TakeRows(columns, request, a, rows, state);
      r.Ok? ==> r.value.count == state.count + |rows| && |r.value.kept| == b
    decreases |rows|
  {
    if rows != [] {
      var step := TakeRow(columns, request, a, rows[0], state);
      if step.Ok? {
        SameRowsKept(columns, request, a, b, rows[1..], step.value);
      }
    }
  }

  /** Re-inspecting the same bytes, retaining as many rows as were retained, gives the inspection back. */
  lemma ReinspectionIsAFixpoint(lib: Library, request: Request, content: Bytes, contentType: Option<string>, cap: int)
    requires Inspect(lib, request, content, contentType, cap).Ok?
    ensures var r := Inspect(lib, request, content, contentType, cap);
      && Inspect(lib, request, content, contentType, |r.value.body.rows|) == r
      && |r.value.body.rows| == Min(cap, r.value.body.rowCount)
  {
    var p := Prepare(lib, request, content, contentType).value;
    SameRowsKept(p.columns, request, cap, Min(cap, |p.table.rows| - 1), p.table.rows[1..], RowState(0, []));
  }

  // ---------- Live executions ----------

  datatype HttpResponse = HttpResponse(
    finalUrl: string,
    status: Option<int>,
    contentType: Option<string>,
    responseSize: nat,
    responseBody: Bytes,
    complete: bool,
    oversized: bool,
    errorType: Option<string>)

  /** What the execution model itself refuses. */
  predicate Retainable(b: LiveBody) {
    && b.requestUrl != "" && b.finalUrl != "" && b.conduct == ONE_GET
    && (b.status.Some? ==> 100 <= b.status.value <= 599)
    && |b.retained| == b.retainedLength
    && (b.complete ==> b.retainedLength == b.observedLength)
    && (!b.complete ==> b.retainedLength == 0)
    && (b.inspection.Some? ==> b.complete)
    && !(b.inspection.Some? && b.inspectionError.Some?)
  }

  function BuildLive(lib: Library, request: Request, o: HttpResponse, cap: int, executedAt: int)
    : Option<LiveExecution>
  {
    var retained := if o.complete then o.responseBody else [];
    var error := if o.oversized then Some("response_exceeds_max_body_bytes") else o.errorType;
    var inspected :=
      if o.status == Some(200) && o.complete then Some(Inspect(lib, request, retained, o.contentType, cap)) else None;
    var body := LiveBody(
      request, request.sourceUrl, o.finalUrl, ONE_GET, o.status, o.contentType, o.responseSize,
      retained, |retained|, o.complete, lib.sha256(retained), error,
      if inspected.Some? && inspected.value.Ok? then Some(inspected.value.value) else None,
      if inspected.Some? && inspected.value.Err? then Some(inspected.value.error) else None);
    if Retainable(body) then Some(LiveExecution(body, executedAt, lib.liveDigest(body))) else None
  }

  datatype Finding =
    | DigestMismatch
    | RequestUrlMismatch
    | FinalUrlInvalid
    | FinalUrlMismatch
    | MethodNotGet
    | RetryReported
    | NetworkNotAffirmed
    | DocumentsDownloaded
    | PersistenceMutated
    | StatusNot200
    | ErrorRecorded
    | RetainedLengthMismatch
    | CompleteLengthMismatch
    | BodyShaMismatch
    | BodyIncomplete
    | PartialBytes
    | InspectionFailed
    | InspectionMissing
    | InspectionDiffers
    | InspectionErrorRecorded
    | InspectionDigestMismatch

  datatype Verification = Verification(
    findings: seq<Finding>,
    requestUrl: string,
    status: Option<int>,
    inspectionDigest: Option<string>,
    executionDigest: string)
  {
    predicate Passed() { findings == [] }
  }

  function Reinspected(lib: Library, b: LiveBody): Result<Inspection, InspectError> {
    var cap := if b.inspection.Some? then |b.inspection.value.body.rows| else DEFAULT_ROW_CAP;
    Inspect(lib, b.request, b.retained, b.contentType, cap)
  }

  /** The body is inspected again only for a complete, error-free 200. */
  predicate Inspectable(b: LiveBody) {
    b.status == Some(200) && b.error == None && b.complete
  }

  /** The place of a finding in the verifier's order of checks. */
  function Rank(f: Finding): nat {
    match f
    case DigestMismatch => 0 case RequestUrlMismatch => 1 case FinalUrlInvalid => 2 case FinalUrlMismatch => 3
    case MethodNotGet => 4 case RetryReported => 5 case NetworkNotAffirmed => 6 case DocumentsDownloaded => 7
    case PersistenceMutated => 8 case StatusNot200 => 9 case ErrorRecorded => 10 case RetainedLengthMismatch => 11
    case CompleteLengthMismatch => 12 case BodyShaMismatch => 13 case BodyIncomplete => 14 case PartialBytes => 15
    case InspectionFailed => 16 case InspectionMissing => 17 case InspectionDiffers => 18
    case InspectionErrorRecorded => 19 case InspectionDigestMismatch => 20
  }

  /** Findings in the order of the checks, all of them before rank `below`. */
  predicate Ascending(findings: seq<Finding>, below: nat) {
    findings == []
    || (var n := |findings| - 1; Rank(findings[n]) < below && Ascending(findings[..n], Rank(findings[n])))
  }

  function Report(before: seq<Finding>, problem: bool, f: Finding): (r: seq<Finding>)
    ensures Ascending(before, Rank(f)) ==> Ascending(r, Rank(f) + 1)
  {
    assert (before + [f])[..|before|] == before;
    if problem then before + [f] else before
  }

  /** The two addresses. */
  function AddressFindings(lib: Library, b: LiveBody, before: seq<Finding>): (r: seq<Finding>)
    ensures Ascending(before, 1) ==> Ascending(r, 4)
  {
    var p := Report(before, b.requestUrl != b.request.sourceUrl, RequestUrlMismatch);
    match lib.parseUrl(b.finalUrl)
    case None => Report(p, true, FinalUrlInvalid)
    case Some(request) => Report(p, request != b.request, FinalUrlMismatch)
  }

  /** What the execution says of its conduct: that it was one GET, */
  function RequestConductFindings(x: Conduct, before: seq<Finding>): (r: seq<Finding>)
    ensures Ascending(before, 4) ==> Ascending(r, 7)
  {
    var a := Report(before, x.httpMethod != "GET", MethodNotGet);
    var b := Report(a, x.retries != 0, RetryReported);
    assert Ascending(before, 4) ==> Ascending(b, 6);
    Report(b, !x.networkExecuted, NetworkNotAffirmed)
  }

  /** and that it had no other effect. */
  function EffectConductFindings(x: Conduct, before: seq<Finding>): (r: seq<Finding>)
    ensures Ascending(before, 7) ==> Ascending(r, 9)
  {
    Report(Report(before, x.documentsDownloaded, DocumentsDownloaded), x.persistenceMutated, PersistenceMutated)
  }

  /** The response and the length of its retained body. */
  function ResponseFindings(b: LiveBody, before: seq<Finding>): (r: seq<Finding>)
    ensures Ascending(before, 9) ==> Ascending(r, 12)
  {
    var p := Report(before, b.status != Some(200), StatusNot200);
    var q := Report(p, b.error.Some?, ErrorRecorded);
    assert Ascending(before, 9) ==> Ascending(q, 11);
    Report(q, |b.retained| != b.retainedLength, RetainedLengthMismatch)
  }

  /** The body: whole and unaltered, or incomplete and not retained. */
  function BodyFindings(lib: Library, b: LiveBody, before: seq<Finding>): (r: seq<Finding>)
    ensures Ascending(before, 12) ==> Ascending(r, 16)
  {
    if b.complete then
      Report(Report(before, b.retainedLength != b.observedLength, CompleteLengthMismatch),
             lib.sha256(b.retained) != b.sha256, BodyShaMismatch)
    else Report(Report(before, true, BodyIncomplete), b.retainedLength != 0, PartialBytes)
  }

  /** The repeated inspection `again`, made for a complete, error-free 200 only. */
  function RepeatFindings(b: LiveBody, again: Result<Inspection, InspectError>, before: seq<Finding>)
    : (r: seq<Finding>)
    ensures Ascending(before, 16) ==> Ascending(r, 19)
  {
    if !Inspectable(b) then before
    else
      match again
      case Err(_) => Report(before, true, InspectionFailed)
      case Ok(inspection) =>
        if b.inspection == None then Report(before, true, InspectionMissing)
        else Report(before, inspection != b.inspection.value, InspectionDiffers)
  }

  /** The stored inspection by itself. */
  function StoredFindings(lib: Library, b: LiveBody, before: seq<Finding>): (r: seq<Finding>)
    ensures Ascending(before, 19) ==> Ascending(r, 21)
  {
    var p := Report(before, b.inspectionError.Some?, InspectionErrorRecorded);
    match b.inspection
    case None => p
    case Some(stored) => Report(p, stored.digest != lib.inspectionDigest(stored.body), InspectionDigestMismatch)
  }

  /** The findings about the digest, the addresses and the conduct. */
  function EarlyFindings(lib: Library, e: LiveExecution): (r: seq<Finding>)
    ensures Ascending(r, 9)
  {
    var first := AddressFindings(lib, e.body, Report([], e.digest != lib.liveDigest(e.body), DigestMismatch));
    EffectConductFindings(e.body.conduct, RequestConductFindings(e.body.conduct, first))
  }

  /** All findings, in the order of the checks. */
  function Findings(lib: Library, e: LiveExecution): (r: seq<Finding>)
    ensures Ascending(r, 21)
  {
    var b := e.body;
    var middle := BodyFindings(lib, b, ResponseFindings(b, EarlyFindings(lib, e)));
    StoredFindings(lib, b, RepeatFindings(b, Reinspected(lib, b), middle))
  }

  function Verify(lib: Library, e: LiveExecution): Verification {
    Verification(
      Findings(lib, e), e.body.requestUrl, e.body.status,
      if e.body.inspection.Some? then Some(e.body.inspection.value.digest) else None, e.digest)
  }

  method VerifyIdentity(lib: Library, e: LiveExecution) returns (findings: seq<Finding>)
    ensures findings == AddressFindings(lib, e.body, Report([], e.digest != lib.liveDigest(e.body), DigestMismatch))
  {
    findings := [];
    if e.digest != lib.liveDigest(e.body) { findings := findings + [DigestMismatch]; }
    if e.body.requestUrl != e.body.request.sourceUrl { findings := findings + [RequestUrlMismatch]; }
    match lib.parseUrl(e.body.finalUrl) {
      case None => findings := findings + [FinalUrlInvalid];
      case Some(request) => if request != e.body.request { findings := findings + [FinalUrlMismatch]; }
    }
  }

  method VerifyConduct(x: Conduct, before: seq<Finding>) returns (findings: seq<Finding>)
    ensures findings == EffectConductFindings(x, RequestConductFindings(x, before))
  {
    findings := before;
    if x.httpMethod != "GET" { findings := findings + [MethodNotGet]; }
    if x.retries != 0 { findings := findings + [RetryReported]; }
    if !x.networkExecuted { findings := findings + [NetworkNotAffirmed]; }
    if x.documentsDownloaded { findings := findings + [DocumentsDownloaded]; }
    if x.persistenceMutated { findings := findings + [PersistenceMutated]; }
  }

  method VerifyResponse(lib: Library, b: LiveBody, before: seq<Finding>) returns (findings: seq<Finding>)
    ensures findings == BodyFindings(lib, b, ResponseFindings(b, before))
  {
    findings := before;
    if b.status != Some(200) { findings := findings + [StatusNot200]; }
    if b.error.Some? { findings := findings + [ErrorRecorded]; }
    if |b.retained| != b.retainedLength { findings := findings + [RetainedLengthMismatch]; }
    if b.complete {
      if b.retainedLength != b.observedLength { findings := findings + [CompleteLengthMismatch]; }
      if lib.sha256(b.retained) != b.sha256 { findings := findings + [BodyShaMismatch]; }
    } else {
      findings := findings + [BodyIncomplete];
      if b.retainedLength != 0 { findings := findings + [PartialBytes]; }
    }
  }

  method VerifyInspection(lib: Library, b: LiveBody, before: seq<Finding>) returns (findings: seq<Finding>)
    ensures findings == StoredFindings(lib, b, RepeatFindings(b, Reinspected(lib, b), before))
  {
    findings := before;
    if Inspectable(b) {
      var again := Reinspected(lib, b);
      if again.Err? {
        findings := findings + [InspectionFailed];
      } else if b.inspection == None {
        findings := findings + [InspectionMissing];
      } else if again.value != b.inspection.value {
        findings := findings + [InspectionDiffers];
      }
    }
    if b.inspectionError.Some? { findings := findings + [InspectionErrorRecorded]; }
    if b.inspection.Some? && b.inspection.value.digest != lib.inspectionDigest(b.inspection.value.body) {
      findings := findings + [InspectionDigestMismatch];
    }
  }

  /** The verifier, appending findings stage by stage. */
  method VerifyLive(lib: Library, e: LiveExecution) returns (v: Verification)
    ensures v == Verify(lib, e)
  {
    var findings := VerifyIdentity(lib, e);
    findings := VerifyConduct(e.body.conduct, findings);
    findings := VerifyResponse(lib, e.body, findings);
    findings := VerifyInspection(lib, e.body, findings);
    v := Verification(
      findings, e.body.requestUrl, e.body.status,
      if e.body.inspection.Some? then Some(e.body.inspection.value.digest) else None, e.digest);
  }

  /** What no failed check means, for whatever the repeated inspection returned: of the identity, */
  ghost predicate SoundIdentity(lib: Library, e: LiveExecution) {
    && e.digest == lib.liveDigest(e.body) && e.body.requestUrl == e.body.request.sourceUrl
    && lib.parseUrl(e.body.finalUrl) == Some(e.body.request) && e.body.conduct == ONE_GET
  }

  /** of the response, */
  ghost predicate SoundResponse(lib: Library, b: LiveBody) {
    && b.status == Some(200) && b.error == None && b.complete
    && |b.retained| == b.retainedLength == b.observedLength && lib.sha256(b.retained) == b.sha256
  }

  /** and of the inspection. */
  ghost predicate SoundInspection(lib: Library, b: LiveBody, again: Result<Inspection, InspectError>) {
    && b.inspection.Some? && again == Ok(b.inspection.value) && b.inspectionError == None
    && b.inspection.value.digest == lib.inspectionDigest(b.inspection.value.body)
  }

  ghost predicate Sound(lib: Library, e: LiveExecution, again: Result<Inspection, InspectError>) {
    SoundIdentity(lib, e) && SoundResponse(lib, e.body) && SoundInspection(lib, e.body, again)
  }

  lemma NoEarlyFindingsIff(lib: Library, e: LiveExecution)
    ensures EarlyFindings(lib, e) == [] <==> SoundIdentity(lib, e)
  {
  }

  lemma NoResponseFindingsIff(lib: Library, b: LiveBody, before: seq<Finding>)
    ensures BodyFindings(lib, b, ResponseFindings(b, before)) == [] <==> before == [] && SoundResponse(lib, b)
  {
  }

  lemma NoInspectionFindingsIff(lib: Library, b: LiveBody, again: Result<Inspection, InspectError>,
                                before: seq<Finding>)
    requires before == [] ==> SoundResponse(lib, b)
    ensures StoredFindings(lib, b, RepeatFindings(b, again, before)) == []
        <==> before == [] && SoundInspection(lib, b, again)
  {
  }

  /** What passing proves about any execution, however it was made, and conversely. */
  lemma PassingExecution(lib: Library, e: LiveExecution)
    ensures Verify(lib, e).Passed() <==> Sound(lib, e, Reinspected(lib, e.body))
  {
    NoEarlyFindingsIff(lib, e);
    NoResponseFindingsIff(lib, e.body, EarlyFindings(lib, e));
    NoInspectionFindingsIff(lib, e.body, Reinspected(lib, e.body),
                            BodyFindings(lib, e.body, ResponseFindings(e.body, EarlyFindings(lib, e))));
  }

  /** In particular it is a complete, inspected 200. */
  lemma PassedIsInspected(lib: Library, e: LiveExecution)
    requires Verify(lib, e).Passed()
    ensures e.body.status == Some(200) && e.body.complete && e.body.inspection.Some?
  {
    PassingExecution(lib, e);
  }

  lemma BuiltIsSoundIff(lib: Library, request: Request, o: HttpResponse, cap: int, executedAt: int)
    requires BuildLive(lib, request, o, cap, executedAt).Some?
    ensures var e := BuildLive(lib, request, o, cap, executedAt).value;
      Sound(lib, e, Reinspected(lib, e.body)) <==>
        && o.status == Some(200) && o.complete && !o.oversized && o.errorType == None
        && lib.parseUrl(o.finalUrl) == Some(request)
        && Inspect(lib, request, o.responseBody, o.contentType, cap).Ok?
  {
    if Inspect(lib, request, o.responseBody, o.contentType, cap).Ok? {
      ReinspectionIsAFixpoint(lib, request, o.responseBody, o.contentType, cap);
    }
  }

  /** An execution built from a response passes its verifier exactly for a complete, error-free 200
      from the requested URL whose body can be inspected. */
  lemma BuiltExecutionPassesIff(lib: Library, request: Request, o: HttpResponse, cap: int, executedAt: int)
    requires BuildLive(lib, request, o, cap, executedAt).Some?
    ensures Verify(lib, BuildLive(lib, request, o, cap, executedAt).value).Passed() <==>
      && o.status == Some(200) && o.complete && !o.oversized && o.errorType == None
      && lib.parseUrl(o.finalUrl) == Some(request)
      && Inspect(lib, request, o.responseBody, o.contentType, cap).Ok?
  {
    PassingExecution(lib, BuildLive(lib, request, o, cap, executedAt).value);
    BuiltIsSoundIff(lib, request, o, cap, executedAt);
  }

  lemma {:induction false} AscendingBelow(findings: seq<Finding>, below: nat, i: nat)
    requires Ascending(findings, below) && i < |findings|
    ensures Rank(findings[i]) < below
  {
    var n := |findings| - 1;
    if i < n {
      AscendingBelow(findings[..n], Rank(findings[n]), i);
    }
  }

  lemma {:induction false} AscendingIsDistinct(findings: seq<Finding>, below: nat)
    requires Ascending(findings, below)
    ensures Distinct(findings)
  {
    if findings != [] {
      var n := |findings| - 1;
      AscendingIsDistinct(findings[..n], Rank(findings[n]));
      forall i | 0 <= i < n
        ensures findings[i] != findings[n]
      {
        AscendingBelow(findings[..n], Rank(findings[n]), i);
      }
    }
  }

  /** The verifier never reports one thing twice, as the ledger's observations require. */
  lemma FindingsAreDistinct(lib: Library, e: LiveExecution)
    ensures Distinct(Findings(lib, e))
  {
    AscendingIsDistinct(Findings(lib, e), 21);
  }

  // ---------- Encoding replays ----------

  datatype ReplayBody = ReplayBody(
    executionDigest: string,
    sha256: string,
    byteLength: nat,
    requestUrl: string,
    status: int,
    inspection: Inspection)

  datatype Replay = Replay(body: ReplayBody, digest: string)

  datatype ReplayError = ReplayRefused | ReplayInspection(error: InspectError) | ReplayInconsistent

  function BuildReplay(lib: Library, replayDigest: ReplayBody -> string, e: LiveExecution, cap: int)
    : Result<Replay, ReplayError>
  {
    var b := e.body;
    if e.digest != lib.liveDigest(b) || b.status != Some(200) || b.error.Some? || !b.complete || cap < 0
      || |b.retained| != b.observedLength || lib.sha256(b.retained) != b.sha256
    then Err(ReplayRefused)
    else
      match Inspect(lib, b.request, b.retained, b.contentType, cap)
      case Err(error) => Err(ReplayInspection(error))
      case Ok(inspection) =>
        var body := ReplayBody(e.digest, b.sha256, b.observedLength, b.requestUrl, 200, inspection);
        if b.requestUrl != inspection.body.request.sourceUrl then Err(ReplayInconsistent)
        else Ok(Replay(body, replayDigest(body)))
  }

  /** The replay verifier's verdict: no finding of any kind. */
  predicate ReplayPasses(lib: Library, replayDigest: ReplayBody -> string, e: LiveExecution, replay: Replay) {
    var b, r := e.body, replay.body;
    && e.digest == lib.liveDigest(b)
    && replay.digest == replayDigest(r)
    && r.executionDigest == e.digest && r.sha256 == b.sha256 && r.byteLength == b.observedLength
    && r.requestUrl == b.requestUrl && Some(r.status) == b.status
    && Inspect(lib, b.request, b.retained, b.contentType, |r.inspection.body.rows|) == Ok(r.inspection)
  }

  /** Every replay that can be built passes its verifier, whatever cap it was built with. */
  lemma BuiltReplayPasses(lib: Library, replayDigest: ReplayBody -> string, e: LiveExecution, cap: int)
    requires BuildReplay(lib, replayDigest, e, cap).Ok?
    ensures ReplayPasses(lib, replayDigest, e, BuildReplay(lib, replayDigest, e, cap).value)
  {
    ReinspectionIsAFixpoint(lib, e.body.request, e.body.retained, e.body.contentType, cap);
  }
}
