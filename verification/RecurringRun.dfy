/** Recurring runs: a definition, a manifest for one window, the verification of an attempt, and binding an
    attempt's listing evidence to an authorization. */
module RecurringRun {
  import opened Base
  import opened Text

  // ---------- Definitions and manifests ----------

  datatype WindowField = Received | Posted

  datatype Access = Access(
    requiresLogin: bool,
    hasCaptcha: bool,
    robotsDisallow: bool,
    termsDisallow: bool,
    paywalled: bool)

  datatype Template = Template(
    counties: seq<string>,
    documentTypes: seq<string>,
    leadAgencies: seq<string>,
    textTerms: seq<string>,
    highSignalOnly: bool,
    windowField: WindowField,
    pageSize: int,
    maxPages: int)

  predicate CleanValues(values: seq<string>) {
    Distinct(values) && forall v :: v in values ==> v != "" && Trimmed(v)
  }

  predicate ValidTemplate(t: Template) {
    && CleanValues(t.counties) && CleanValues(t.documentTypes) && CleanValues(t.leadAgencies) && t.textTerms == []
    && 1 <= t.pageSize <= 100 && 1 <= t.maxPages <= 10
  }

  /** The filters of a listing query; the two sizes are kept apart because they are read back as integers. */
  datatype Filters = Filters(
    counties: seq<string>,
    documentTypes: seq<string>,
    leadAgencies: seq<string>,
    textTerms: seq<string>,
    receivedFrom: Option<int>,
    receivedTo: Option<int>,
    postedFrom: Option<int>,
    postedTo: Option<int>,
    highSignalOnly: bool)

  datatype Query = Query(filters: Filters, pageSize: Json, maxPages: Json)

  datatype DefinitionBody = DefinitionBody(
    sourceKey: string,
    sourceName: string,
    executionBaseUrl: string,
    template: Template,
    timeoutMillis: int,
    maxBodyChars: int,
    access: Access,
    ready: bool,
    blockers: seq<string>,
    limitations: seq<string>,
    evidence: string)

  datatype Definition = Definition(body: DefinitionBody, digest: string)

  datatype ManifestBody = ManifestBody(
    runId: string,
    definitionDigest: string,
    sourceKey: string,
    sourceName: string,
    executionBaseUrl: string,
    windowField: WindowField,
    windowStart: int,
    windowEnd: int,
    query: Query,
    timeoutMillis: int,
    maxBodyChars: int,
    access: Access,
    ready: bool,
    blockers: seq<string>,
    limitations: seq<string>)

  datatype Manifest = Manifest(body: ManifestBody, digest: string)

  const MANIFEST_LIMITATION := "manifest authorizes no persistence and no background scheduling"

  /** Canonical digests, and the parts of an address, as fixed functions. */
  datatype Library = Library(
    definitionDigest: DefinitionBody -> string,
    manifestDigest: ManifestBody -> string,
    runId: (string, string, WindowField, int, int, Query) -> string,
    attemptId: (string, string, int) -> string,
    planId: (string, string, int) -> string,
    accessIdentity: (string, Access) -> string,
    executionDigest: ExecutionBody -> string,
    url: string -> UrlParts)

  datatype UrlParts = UrlParts(https: bool, host: string, path: string)

  predicate SameQuery(a: Query, b: Query) {
    a.filters == b.filters && PythonEqual(a.pageSize, b.pageSize) && PythonEqual(a.maxPages, b.maxPages)
  }

  function QueryFor(t: Template, windowStart: int, windowEnd: int): Query {
    var received := t.windowField == Received;
    Query(
      Filters(t.counties, t.documentTypes, t.leadAgencies, t.textTerms,
              if received then Some(windowStart) else None, if received then Some(windowEnd) else None,
              if received then None else Some(windowStart), if received then None else Some(windowEnd),
              t.highSignalOnly),
      JInt(t.pageSize), JInt(t.maxPages))
  }

  function RunIdFor(lib: Library, d: Definition, windowStart: int, windowEnd: int, query: Query): string {
    lib.runId(d.digest, d.body.sourceKey, d.body.template.windowField, windowStart, windowEnd, query)
  }

  datatype ManifestError = DefinitionAltered | WindowReversed | ManifestRejected

  /** The manifest model's own validators. */
  predicate ValidManifest(b: ManifestBody) {
    && b.windowStart <= b.windowEnd && Distinct(b.blockers) && Distinct(b.limitations)
    && (b.ready <==> b.blockers == [])
  }

  predicate ValidDefinition(b: DefinitionBody) {
    && ValidTemplate(b.template) && Distinct(b.blockers) && Distinct(b.limitations)
    && (b.ready <==> b.blockers == [])
  }

  function ManifestBodyFor(lib: Library, d: Definition, windowStart: int, windowEnd: int): ManifestBody {
    var query := QueryFor(d.body.template, windowStart, windowEnd);
    ManifestBody(RunIdFor(lib, d, windowStart, windowEnd, query), d.digest, d.body.sourceKey, d.body.sourceName,
                 d.body.executionBaseUrl, d.body.template.windowField, windowStart, windowEnd, query,
                 d.body.timeoutMillis, d.body.maxBodyChars, d.body.access, d.body.ready, d.body.blockers,
                 d.body.limitations + [MANIFEST_LIMITATION])
  }

  function BuildManifest(lib: Library, d: Definition, windowStart: int, windowEnd: int)
    : Result<Manifest, ManifestError>
  {
    if d.digest != lib.definitionDigest(d.body) then Err(DefinitionAltered)
    else if windowStart > windowEnd then Err(WindowReversed)
    else
      var body := ManifestBodyFor(lib, d, windowStart, windowEnd);
      if !ValidManifest(body) then Err(ManifestRejected) else Ok(Manifest(body, lib.manifestDigest(body)))
  }

  /** The definition and manifest belong together. */
  predicate Paired(lib: Library, d: Definition, m: Manifest) {
    && d.digest == lib.definitionDigest(d.body) && m.digest == lib.manifestDigest(m.body)
    && m.body.definitionDigest == d.digest
    && m.body.sourceKey == d.body.sourceKey && m.body.sourceName == d.body.sourceName
    && m.body.executionBaseUrl == d.body.executionBaseUrl
    && m.body.windowField == d.body.template.windowField
    && m.body.timeoutMillis == d.body.timeoutMillis && m.body.maxBodyChars == d.body.maxBodyChars
    && m.body.access == d.body.access && m.body.ready == d.body.ready && m.body.blockers == d.body.blockers
    && m.body.limitations == d.body.limitations + [MANIFEST_LIMITATION]
    && SameQuery(m.body.query, QueryFor(d.body.template, m.body.windowStart, m.body.windowEnd))
    && m.body.runId == RunIdFor(lib, d, m.body.windowStart, m.body.windowEnd,
                                QueryFor(d.body.template, m.body.windowStart, m.body.windowEnd))
  }

  // ---------- Attempts and their reports ----------

  datatype AccessReport = AccessReport(decision: Json, reason: Json, stateIdentity: Json)

  datatype Authorization = Authorization(decisionId: Json, action: Json, others: map<string, Json>)

  datatype Metadata = Metadata(
    schemaVersion: Json,
    allowed: Json,
    planned: Json,
    executed: Json,
    successful: Json,
    failed: Json,
    maximumRecords: Json,
    query: Option<Query>,
    attemptSequence: Json,
    planId: Json,
    access: Option<AccessReport>,
    authorization: Option<Authorization>,
    others: map<string, Json>)

  datatype Snapshot =
    | SnapshotNotAnObject
    | Snapshot(
        pageNumber: Json,
        httpMethod: Json,
        executed: Json,
        requestUrl: Json,
        finalUrl: Json,
        bodyText: Json,
        bodyLength: Json,
        bodyTruncated: Json,
        others: map<string, Json>)

  /** `others` are the report's remaining top-level entries. */
  datatype Report = Report(metadata: Option<Metadata>, snapshots: Option<seq<Snapshot>>, others: map<string, Json>)

  datatype ExecutionBody = ExecutionBody(
    runId: string,
    attemptSequence: int,
    attemptId: string,
    definitionDigest: string,
    manifestDigest: string,
    sourceKey: string,
    report: Report,
    networkExecuted: bool,
    persistenceMutated: bool)

  datatype Execution = Execution(body: ExecutionBody, executedAt: int, digest: string)

  const V1 := JString("ceqanet_listing_execution.v1")
  const V2 := JString("ceqanet_listing_execution.v2")
  const ATTEMPT_ACTION := JString("execute-ceqanet-recurring-run-attempt")

  // ---------- Verification ----------

  datatype SnapshotProblem =
    | SnapshotIsNotAnObject
    | PageNotInteger
    | PageOutOfBounds
    | PageRepeated
    | NotGet
    | NotExecuted
    | RequestUrlMissing
    | RequestHost
    | RequestPath
    | FinalUrlMissing
    | FinalHost
    | BodyNotText
    | BodyTooLong
    | LengthNotInteger
    | LengthTooSmall
    | TruncationNotBoolean
    | TruncationInconsistent

  datatype Finding =
    | ExecutionDigestMismatch
    | PairMismatch
    | EvidenceIncomplete
    | EvidenceStale
    | RunIdMismatch
    | DefinitionDigestMismatch
    | ManifestDigestMismatch
    | SourceKeyMismatch
    | AttemptIdMismatch
    | PersistenceMutated
    | MetadataMissing
    | SnapshotsMissing
    | SchemaMismatch
    | AttemptNotInteger
    | AttemptMismatch
    | PlanIdMismatch
    | NotAllowed
    | AccessNotAllowed
    | AuthorizationInvalid
    | QueryMismatch
    | MaximumRecordsMismatch
    | CountNotInteger
    | PlannedTooLarge
    | ExecutedMismatch
    | CountsMismatch
    | InSnapshot(index: nat, problem: SnapshotProblem)
    | NetworkMismatch

  /** The registry and checklist given beside an attempt: none, only one of them, or both with the outcome of
      checking that they still permit the run. */
  datatype Evidence = NoEvidence | HalfEvidence | CurrentEvidence(permits: bool)

  /** What the manifest allows a snapshot. */
  datatype Limits = Limits(host: string, maxPages: int, maxBodyChars: int)

  function PageProblems(s: Snapshot, limits: Limits, pages: set<int>): seq<SnapshotProblem>
    requires s.Snapshot?
  {
    match IntOrNone(s.pageNumber)
    case None => [PageNotInteger]
    case Some(n) =>
      if !(1 <= n <= limits.maxPages) then [PageOutOfBounds] else if n in pages then [PageRepeated] else []
  }

  function UrlProblems(lib: Library, s: Snapshot, limits: Limits): seq<SnapshotProblem>
    requires s.Snapshot?
  {
    (if !s.requestUrl.JString? then [RequestUrlMissing]
     else
       var parts := lib.url(s.requestUrl.text);
       Note(!parts.https || parts.host != limits.host, RequestHost) + Note(parts.path != "/Search", RequestPath))
    + if !s.finalUrl.JString? then [FinalUrlMissing]
      else
        var parts := lib.url(s.finalUrl.text);
        Note(!parts.https || parts.host != limits.host, FinalHost)
  }

  function BodyProblems(s: Snapshot, limits: Limits): seq<SnapshotProblem>
    requires s.Snapshot?
  {
    var text, length := s.bodyText, IntOrNone(s.bodyLength);
    Note(!text.JString?, BodyNotText)
    + Note(text.JString? && |text.text| > limits.maxBodyChars, BodyTooLong)
    + Note(length == None, LengthNotInteger)
    + Note(length.Some? && text.JString? && length.value < |text.text|, LengthTooSmall)
    + Note(!s.bodyTruncated.JBool?, TruncationNotBoolean)
    + Note(s.bodyTruncated.JBool? && length.Some?
           && s.bodyTruncated.flag != (length.value > limits.maxBodyChars), TruncationInconsistent)
  }

  function SnapshotProblems(lib: Library, s: Snapshot, limits: Limits, pages: set<int>): seq<SnapshotProblem> {
    if s.SnapshotNotAnObject? then [SnapshotIsNotAnObject]
    else
      PageProblems(s, limits, pages) + Note(s.httpMethod != JString("GET"), NotGet)
      + Note(s.executed != JBool(true), NotExecuted) + UrlProblems(lib, s, limits) + BodyProblems(s, limits)
  }

  /** The page numbers accepted so far, after one more snapshot. */
  function PagesAfter(s: Snapshot, limits: Limits, pages: set<int>): set<int> {
    if s.Snapshot? && IntOrNone(s.pageNumber).Some? && 1 <= IntOrNone(s.pageNumber).value <= limits.maxPages
    then pages + {IntOrNone(s.pageNumber).value} else pages
  }

  type SnapshotCheck = (Snapshot, set<int>) -> seq<SnapshotProblem>

  function CheckFor(lib: Library, limits: Limits): SnapshotCheck {
    (s, pages) => SnapshotProblems(lib, s, limits, pages)
  }

  function InSnapshotAll(index: nat, problems: seq<SnapshotProblem>): seq<Finding> {
    seq(|problems|, i requires 0 <= i < |problems| => InSnapshot(index, problems[i]))
  }

  function Pages(limits: Limits, snapshots: seq<Snapshot>): set<int> {
    if snapshots == [] then {}
    else PagesAfter(snapshots[|snapshots| - 1], limits, Pages(limits, snapshots[..|snapshots| - 1]))
  }

  function SnapshotFindings(check: SnapshotCheck, limits: Limits, snapshots: seq<Snapshot>): seq<Finding> {
    if snapshots == [] then []
    else
      var n := |snapshots| - 1;
      SnapshotFindings(check, limits, snapshots[..n])
      + InSnapshotAll(n, check(snapshots[n], Pages(limits, snapshots[..n])))
  }

  /** The loop over the snapshots, growing the findings and the set of page numbers. */
  method VerifySnapshots(check: SnapshotCheck, limits: Limits, snapshots: seq<Snapshot>, before: seq<Finding>)
    returns (findings: seq<Finding>)
    ensures findings == before + SnapshotFindings(check, limits, snapshots)
  {
    findings := before;
    var pages: set<int> := {};
    for index := 0 to |snapshots|
      invariant findings == before + SnapshotFindings(check, limits, snapshots[..index])
      invariant pages == Pages(limits, snapshots[..index])
    {
      assert snapshots[..index + 1][..index] == snapshots[..index];
      findings := findings + InSnapshotAll(index, check(snapshots[index], pages));
      pages := PagesAfter(snapshots[index], limits, pages);
    }
    assert snapshots[..|snapshots|] == snapshots;
  }

  predicate AuthorizationHolds(a: Option<Authorization>) {
    && a.Some? && a.value.decisionId.JString? && a.value.decisionId.text != "" && a.value.action == ATTEMPT_ACTION
  }

  /** Findings about the fields that a version 2 report adds. */
  function BindingFindings(lib: Library, m: Manifest, metadata: Metadata, attempt: int): seq<Finding> {
    if metadata.schemaVersion != V2 then []
    else
      var sequence := IntOrNone(metadata.attemptSequence);
      Note(sequence == None, AttemptNotInteger)
      + Note(sequence.Some? && sequence.value != attempt, AttemptMismatch)
      + Note(metadata.planId != JString(lib.planId(m.body.runId, m.digest, attempt)), PlanIdMismatch)
      + Note(!PythonEqual(metadata.allowed, JBool(true)), NotAllowed)
      + Note(metadata.access == None || metadata.access.value.decision != JString("allowed"), AccessNotAllowed)
      + Note(!AuthorizationHolds(metadata.authorization), AuthorizationInvalid)
  }

  function CountFindings(metadata: Metadata, snapshots: nat, maxPages: int): seq<Finding> {
    var planned, executed := IntOrNone(metadata.planned), IntOrNone(metadata.executed);
    var successful, failed := IntOrNone(metadata.successful), IntOrNone(metadata.failed);
    Note(planned == None, CountNotInteger) + Note(executed == None, CountNotInteger)
    + Note(successful == None, CountNotInteger) + Note(failed == None, CountNotInteger)
    + Note(planned.Some? && planned.value > maxPages, PlannedTooLarge)
    + Note(executed.Some? && executed.value != snapshots, ExecutedMismatch)
    + Note(executed.Some? && successful.Some? && failed.Some?
           && successful.value + failed.value != executed.value, CountsMismatch)
  }

  function SizeFindings(m: Manifest, metadata: Metadata, pageSize: int, maxPages: int): seq<Finding> {
    Note(metadata.query == None || !SameQuery(metadata.query.value, m.body.query), QueryMismatch)
    + Note(!PythonEqual(metadata.maximumRecords, JInt(pageSize * maxPages)), MaximumRecordsMismatch)
  }

  function LimitsOf(lib: Library, m: Manifest, maxPages: int): Limits {
    Limits(lib.url(m.body.executionBaseUrl).host, maxPages, m.body.maxBodyChars)
  }

  function MetadataFindings(lib: Library, m: Manifest, metadata: Metadata, snapshots: nat, attempt: int, pageSize: int,
                            maxPages: int): seq<Finding>
  {
    Note(metadata.schemaVersion != V1 && metadata.schemaVersion != V2, SchemaMismatch)
    + BindingFindings(lib, m, metadata, attempt)
    + SizeFindings(m, metadata, pageSize, maxPages)
    + CountFindings(metadata, snapshots, maxPages)
  }

  function ReportFindings(lib: Library, m: Manifest, report: Report, attempt: int, pageSize: int, maxPages: int)
    : seq<Finding>
  {
    if report.metadata == None then [MetadataMissing]
    else if report.snapshots == None then [SnapshotsMissing]
    else
      var limits := LimitsOf(lib, m, maxPages);
      MetadataFindings(lib, m, report.metadata.value, |report.snapshots.value|, attempt, pageSize, maxPages)
      + SnapshotFindings(CheckFor(lib, limits), limits, report.snapshots.value)
  }

  /** The executed count the report states, when it gets that far and states one. */
  function ExecutedCount(report: Report): Option<int> {
    if report.metadata == None || report.snapshots == None then None else IntOrNone(report.metadata.value.executed)
  }

  function EvidenceFindings(e: Evidence): seq<Finding> {
    Note(e.HalfEvidence?, EvidenceIncomplete) + Note(e.CurrentEvidence? && !e.permits, EvidenceStale)
  }

  function IdentityFindings(lib: Library, d: Definition, m: Manifest, b: ExecutionBody): seq<Finding> {
    Note(b.runId != m.body.runId, RunIdMismatch)
    + Note(b.definitionDigest != d.digest, DefinitionDigestMismatch)
    + Note(b.manifestDigest != m.digest, ManifestDigestMismatch)
    + Note(b.sourceKey != d.body.sourceKey, SourceKeyMismatch)
    + Note(b.attemptId != lib.attemptId(m.body.runId, m.digest, b.attemptSequence), AttemptIdMismatch)
    + Note(b.persistenceMutated, PersistenceMutated)
  }

  function NetworkFindings(b: ExecutionBody): seq<Finding> {
    var executed := ExecutedCount(b.report);
    Note(executed.Some? && b.networkExecuted != (executed.value > 0), NetworkMismatch)
  }

  function PairFindings(lib: Library, d: Definition, m: Manifest): seq<Finding> {
    Note(!Paired(lib, d, m), PairMismatch)
  }

  /** Whether the manifest's sizes have to be read, and can be: a manifest without integer sizes makes the
      verifier itself fail. */
  predicate Readable(m: Manifest, report: Report) {
    report.metadata.Some? && report.snapshots.Some? ==>
      IntOrNone(m.body.query.pageSize).Some? && IntOrNone(m.body.query.maxPages).Some?
  }

  function SizeOr(value: Json): int {
    if IntOrNone(value).Some? then IntOrNone(value).value else 0
  }

  /** The semantic findings, or nothing when the verifier fails. */
  function SemanticFindings(lib: Library, d: Definition, m: Manifest, e: Execution, evidence: Evidence)
    : Option<seq<Finding>>
  {
    if !Readable(m, e.body.report) then None
    else
      Some(PairFindings(lib, d, m) + EvidenceFindings(evidence) + IdentityFindings(lib, d, m, e.body)
           + ReportFindings(lib, m, e.body.report, e.body.attemptSequence, SizeOr(m.body.query.pageSize),
                            SizeOr(m.body.query.maxPages))
           + NetworkFindings(e.body))
  }

  /** The canonical verifier: the execution's digest is recomputed, and its mismatch reported first. */
  function Verify(lib: Library, d: Definition, m: Manifest, e: Execution, evidence: Evidence): Option<seq<Finding>> {
    match SemanticFindings(lib, d, m, e, evidence)
    case None => None
    case Some(findings) => Some(Note(e.digest != lib.executionDigest(e.body), ExecutionDigestMismatch) + findings)
  }

  lemma AppendStages(before: seq<Finding>, first: seq<Finding>, second: seq<Finding>)
    ensures before + first + second == before + (first + second)
  {
  }

  method VerifyReport(lib: Library, m: Manifest, report: Report, attempt: int, before: seq<Finding>)
    returns (findings: seq<Finding>)
    requires Readable(m, report)
    ensures findings == before + ReportFindings(lib, m, report, attempt, SizeOr(m.body.query.pageSize),
                                                SizeOr(m.body.query.maxPages))
  {
    if report.metadata == None { return before + [MetadataMissing]; }
    if report.snapshots == None { return before + [SnapshotsMissing]; }
    var pageSize, maxPages := SizeOr(m.body.query.pageSize), SizeOr(m.body.query.maxPages);
    var limits := LimitsOf(lib, m, maxPages);
    var stage := MetadataFindings(lib, m, report.metadata.value, |report.snapshots.value|, attempt, pageSize, maxPages);
    AppendStages(before, stage, SnapshotFindings(CheckFor(lib, limits), limits, report.snapshots.value));
    findings := VerifySnapshots(CheckFor(lib, limits), limits, report.snapshots.value, before + stage);
  }

  /** The semantic verifier, appending findings stage by stage. */
  method VerifySemantics(lib: Library, d: Definition, m: Manifest, e: Execution, evidence: Evidence)
    returns (r: Option<seq<Finding>>)
    ensures r == SemanticFindings(lib, d, m, e, evidence)
  {
    if !Readable(m, e.body.report) { return None; }
    var findings := PairFindings(lib, d, m) + EvidenceFindings(evidence) + IdentityFindings(lib, d, m, e.body);
    findings := VerifyReport(lib, m, e.body.report, e.body.attemptSequence, findings);
    r := Some(findings + NetworkFindings(e.body));
  }

  method VerifyExecution(lib: Library, d: Definition, m: Manifest, e: Execution, evidence: Evidence)
    returns (r: Option<seq<Finding>>)
    ensures r == Verify(lib, d, m, e, evidence)
  {
    r := VerifySemantics(lib, d, m, e, evidence);
    assert r.Some? ==> [] + r.value == r.value;
    if r.Some? && e.digest != lib.executionDigest(e.body) {
      r := Some([ExecutionDigestMismatch] + r.value);
    }
  }

  // ---------- Binding an attempt to an authorization ----------

  datatype BindError =
    | ExecutionAltered
    | ManifestAltered
    | ManifestDiffers
    | DecisionMissing
    | ActionDiffers
    | ReportIncomplete
    | SchemaUnsupported

  function BoundMetadata(lib: Library, m: Manifest, metadata: Metadata, attempt: int, a: Authorization): Metadata {
    metadata.(
      schemaVersion := V2,
      planId := JString(lib.planId(m.body.runId, m.digest, attempt)),
      attemptSequence := JInt(attempt),
      access := Some(AccessReport(
                       JString("allowed"),
                       JString("Reviewed recurring-run access assumptions permit this manual attempt."),
                       JString(lib.accessIdentity(m.digest, m.body.access)))),
      authorization := Some(a))
  }

  /** The bound report holds its metadata and its snapshots only; any other entry is dropped. */
  function BoundBody(lib: Library, m: Manifest, b: ExecutionBody, a: Authorization): ExecutionBody
    requires b.report.metadata.Some?
  {
    b.(report := Report(Some(BoundMetadata(lib, m, b.report.metadata.value, b.attemptSequence, a)),
                        b.report.snapshots, map[]))
  }

  function Bind(lib: Library, e: Execution, m: Manifest, a: Authorization): Result<Execution, BindError> {
    if e.digest != lib.executionDigest(e.body) then Err(ExecutionAltered)
    else if m.digest != lib.manifestDigest(m.body) then Err(ManifestAltered)
    else if e.body.runId != m.body.runId || e.body.manifestDigest != m.digest then Err(ManifestDiffers)
    else if !a.decisionId.JString? || a.decisionId.text == "" then Err(DecisionMissing)
    else if a.action != ATTEMPT_ACTION then Err(ActionDiffers)
    else if e.body.report.metadata == None || e.body.report.snapshots == None then Err(ReportIncomplete)
    else if e.body.report.metadata.value.schemaVersion !in {V1, V2} then Err(SchemaUnsupported)
    else
      var body := BoundBody(lib, m, e.body, a);
      Ok(Execution(body, e.executedAt, lib.executionDigest(body)))
  }
}
