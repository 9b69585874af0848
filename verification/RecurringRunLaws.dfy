/** What a passing verification of a recurring run implies, and what binding an authorization preserves. */
module RecurringRunLaws {
  import opened Base
  import opened Text
  import opened RecurringRun
  import Queue = CaptureQueue

  // ---------- What a passing verification says ----------

  ghost predicate PageHolds(s: Snapshot, limits: Limits) {
    s.Snapshot? && IntOrNone(s.pageNumber).Some? && 1 <= IntOrNone(s.pageNumber).value <= limits.maxPages
  }

  ghost predicate UrlsHold(lib: Library, s: Snapshot, limits: Limits)
    requires s.Snapshot?
  {
    && s.requestUrl.JString? && s.finalUrl.JString?
    && var request, final := lib.url(s.requestUrl.text), lib.url(s.finalUrl.text);
    && request.https && request.host == limits.host && request.path == "/Search"
    && final.https && final.host == limits.host
  }

  ghost predicate BodyHolds(s: Snapshot, limits: Limits)
    requires s.Snapshot?
  {
    && s.bodyText.JString? && |s.bodyText.text| <= limits.maxBodyChars
    && IntOrNone(s.bodyLength).Some? && |s.bodyText.text| <= IntOrNone(s.bodyLength).value
    && s.bodyTruncated == JBool(IntOrNone(s.bodyLength).value > limits.maxBodyChars)
  }

  /** A snapshot that is sound by itself: an executed GET of the search page on the manifest's host, within
      its limits. */
  ghost predicate SnapshotHolds(lib: Library, s: Snapshot, limits: Limits) {
    && PageHolds(s, limits) && s.httpMethod == JString("GET") && s.executed == JBool(true)
    && UrlsHold(lib, s, limits) && BodyHolds(s, limits)
  }

  lemma NoSnapshotProblemsIff(lib: Library, s: Snapshot, limits: Limits, pages: set<int>)
    ensures SnapshotProblems(lib, s, limits, pages) == []
        <==> SnapshotHolds(lib, s, limits) && IntOrNone(s.pageNumber).value !in pages
  {
    if s.Snapshot? {
      assert PageProblems(s, limits, pages) == [] <==> PageHolds(s, limits) && IntOrNone(s.pageNumber).value !in pages;
      assert UrlProblems(lib, s, limits) == [] <==> UrlsHold(lib, s, limits);
      assert BodyProblems(s, limits) == [] <==> BodyHolds(s, limits);
    }
  }

  ghost function PageNumbers(snapshots: seq<Snapshot>): seq<int> {
    seq(|snapshots|, i requires 0 <= i < |snapshots| =>
      if snapshots[i].Snapshot? && IntOrNone(snapshots[i].pageNumber).Some?
      then IntOrNone(snapshots[i].pageNumber).value else 0)
  }

  ghost predicate SnapshotsHold(lib: Library, snapshots: seq<Snapshot>, limits: Limits) {
    (forall s :: s in snapshots ==> SnapshotHolds(lib, s, limits)) && Distinct(PageNumbers(snapshots))
  }

  lemma {:induction false} PagesAreNumbers(snapshots: seq<Snapshot>, limits: Limits)
    requires forall s :: s in snapshots ==> PageHolds(s, limits)
    ensures Pages(limits, snapshots) == Elements(PageNumbers(snapshots))
  {
    if snapshots != [] {
      var n := |snapshots| - 1;
      PagesAreNumbers(snapshots[..n], limits);
      assert PageHolds(snapshots[n], limits);
      assert PageNumbers(snapshots) == PageNumbers(snapshots[..n]) + [IntOrNone(snapshots[n].pageNumber).value];
    }
  }

  lemma DistinctLast(numbers: seq<int>, n: int)
    ensures Distinct(numbers + [n]) <==> Distinct(numbers) && n !in Elements(numbers)
  {
    var all := numbers + [n];
    if Distinct(all) {
      forall i, j | 0 <= i < j < |numbers|
        ensures numbers[i] != numbers[j]
      {
        assert all[i] != all[j];
      }
      forall i | 0 <= i < |numbers|
        ensures numbers[i] != n
      {
        assert all[i] != all[|numbers|];
      }
    }
    if Distinct(numbers) && n !in Elements(numbers) {
      forall i | 0 <= i < |numbers|
        ensures numbers[i] != n
      {
        assert numbers[i] in Elements(numbers);
      }
    }
  }

  lemma SnapshotsSplit(lib: Library, snapshots: seq<Snapshot>, limits: Limits)
    requires snapshots != []
    ensures var n := |snapshots| - 1;
      SnapshotsHold(lib, snapshots, limits) <==>
        && SnapshotsHold(lib, snapshots[..n], limits) && SnapshotHolds(lib, snapshots[n], limits)
        && IntOrNone(snapshots[n].pageNumber).value !in Elements(PageNumbers(snapshots[..n]))
  {
    var n := |snapshots| - 1;
    assert snapshots == snapshots[..n] + [snapshots[n]];
    if SnapshotHolds(lib, snapshots[n], limits) {
      var number := IntOrNone(snapshots[n].pageNumber).value;
      assert PageNumbers(snapshots) == PageNumbers(snapshots[..n]) + [number];
      DistinctLast(PageNumbers(snapshots[..n]), number);
    }
  }

  /** The snapshot loop finds nothing exactly when every snapshot holds and no page occurs twice. */
  lemma {:induction false} NoSnapshotFindingsIff(lib: Library, limits: Limits, snapshots: seq<Snapshot>)
    ensures SnapshotFindings(CheckFor(lib, limits), limits, snapshots) == [] <==> SnapshotsHold(lib, snapshots, limits)
  {
    if snapshots != [] {
      var n := |snapshots| - 1;
      var front := snapshots[..n];
      NoSnapshotFindingsIff(lib, limits, front);
      NoSnapshotProblemsIff(lib, snapshots[n], limits, Pages(limits, front));
      SnapshotsSplit(lib, snapshots, limits);
      if SnapshotsHold(lib, front, limits) {
        PagesAreNumbers(front, limits);
      }
    }
  }

  ghost predicate CountsHold(metadata: Metadata, snapshots: nat, maxPages: int) {
    && IntOrNone(metadata.planned).Some? && IntOrNone(metadata.planned).value <= maxPages
    && IntOrNone(metadata.executed) == Some(snapshots)
    && IntOrNone(metadata.successful).Some? && IntOrNone(metadata.failed).Some?
    && IntOrNone(metadata.successful).value + IntOrNone(metadata.failed).value == snapshots
  }

  ghost predicate BindingHolds(lib: Library, m: Manifest, metadata: Metadata, attempt: int) {
    metadata.schemaVersion == V2 ==>
      && IntOrNone(metadata.attemptSequence) == Some(attempt)
      && metadata.planId == JString(lib.planId(m.body.runId, m.digest, attempt))
      && PythonEqual(metadata.allowed, JBool(true))
      && metadata.access.Some? && metadata.access.value.decision == JString("allowed")
      && AuthorizationHolds(metadata.authorization)
  }

  ghost predicate MetadataHolds(lib: Library, m: Manifest, metadata: Metadata, snapshots: nat, attempt: int,
                                pageSize: int, maxPages: int)
  {
    && metadata.schemaVersion in {V1, V2} && BindingHolds(lib, m, metadata, attempt)
    && metadata.query.Some? && SameQuery(metadata.query.value, m.body.query)
    && PythonEqual(metadata.maximumRecords, JInt(pageSize * maxPages))
    && CountsHold(metadata, snapshots, maxPages)
  }

  lemma NoMetadataFindingsIff(lib: Library, m: Manifest, metadata: Metadata, snapshots: nat, attempt: int,
                              pageSize: int, maxPages: int)
    ensures MetadataFindings(lib, m, metadata, snapshots, attempt, pageSize, maxPages) == []
        <==> MetadataHolds(lib, m, metadata, snapshots, attempt, pageSize, maxPages)
  {
    assert BindingFindings(lib, m, metadata, attempt) == [] <==> BindingHolds(lib, m, metadata, attempt);
    assert CountFindings(metadata, snapshots, maxPages) == [] <==> CountsHold(metadata, snapshots, maxPages);
  }

  ghost predicate ReportHolds(lib: Library, m: Manifest, report: Report, attempt: int, pageSize: int, maxPages: int) {
    && report.metadata.Some? && report.snapshots.Some?
    && MetadataHolds(lib, m, report.metadata.value, |report.snapshots.value|, attempt, pageSize, maxPages)
    && SnapshotsHold(lib, report.snapshots.value, LimitsOf(lib, m, maxPages))
  }

  lemma NoReportFindingsIff(lib: Library, m: Manifest, report: Report, attempt: int, pageSize: int, maxPages: int)
    ensures ReportFindings(lib, m, report, attempt, pageSize, maxPages) == []
        <==> ReportHolds(lib, m, report, attempt, pageSize, maxPages)
  {
    if report.metadata.Some? && report.snapshots.Some? {
      NoMetadataFindingsIff(lib, m, report.metadata.value, |report.snapshots.value|, attempt, pageSize, maxPages);
      NoSnapshotFindingsIff(lib, LimitsOf(lib, m, maxPages), report.snapshots.value);
    }
  }

  ghost predicate IdentitiesHold(lib: Library, d: Definition, m: Manifest, b: ExecutionBody) {
    && b.runId == m.body.runId && b.definitionDigest == d.digest && b.manifestDigest == m.digest
    && b.sourceKey == d.body.sourceKey && !b.persistenceMutated
    && b.attemptId == lib.attemptId(m.body.runId, m.digest, b.attemptSequence)
  }

  ghost predicate Passes(lib: Library, d: Definition, m: Manifest, e: Execution, evidence: Evidence) {
    Verify(lib, d, m, e, evidence) == Some([])
  }

  /** Exactly what a verification without findings says. */
  lemma PassesIff(lib: Library, d: Definition, m: Manifest, e: Execution, evidence: Evidence)
    ensures Passes(lib, d, m, e, evidence) <==>
      && e.digest == lib.executionDigest(e.body)
      && Readable(m, e.body.report) && Paired(lib, d, m) && IdentitiesHold(lib, d, m, e.body)
      && (evidence.NoEvidence? || (evidence.CurrentEvidence? && evidence.permits))
      && ReportHolds(lib, m, e.body.report, e.body.attemptSequence, SizeOr(m.body.query.pageSize),
                     SizeOr(m.body.query.maxPages))
      && e.body.networkExecuted == (|e.body.report.snapshots.value| > 0)
  {
    NoReportFindingsIff(lib, m, e.body.report, e.body.attemptSequence, SizeOr(m.body.query.pageSize),
                        SizeOr(m.body.query.maxPages));
    assert IdentityFindings(lib, d, m, e.body) == [] <==> IdentitiesHold(lib, d, m, e.body);
    assert EvidenceFindings(evidence) == []
      <==> evidence.NoEvidence? || (evidence.CurrentEvidence? && evidence.permits);
    assert PairFindings(lib, d, m) == [] <==> Paired(lib, d, m);
  }

  // ---------- Bounds nobody checks directly ----------

  /** A passing attempt executed at most as many requests as the template allows pages, although the executed
      count is only ever compared with the number of snapshots: the snapshots carry distinct page numbers
      within the bounds. */
  lemma PassingRunIsBounded(lib: Library, d: Definition, m: Manifest, e: Execution, evidence: Evidence)
    requires ValidDefinition(d.body) && Passes(lib, d, m, e, evidence)
    ensures var metadata, snapshots, t := e.body.report.metadata.value, e.body.report.snapshots.value, d.body.template;
      && IntOrNone(metadata.executed) == Some(|snapshots|) && |snapshots| <= t.maxPages <= 10
      && IntOrNone(metadata.planned).Some? && IntOrNone(metadata.planned).value <= t.maxPages
      && IntOrNone(metadata.successful).value + IntOrNone(metadata.failed).value <= t.maxPages
      && PythonEqual(metadata.maximumRecords, JInt(t.pageSize * t.maxPages)) && t.pageSize * t.maxPages <= 1000
      && (e.body.networkExecuted <==> snapshots != [])
      && Distinct(PageNumbers(snapshots)) && forall n :: n in PageNumbers(snapshots) ==> 1 <= n <= t.maxPages
  {
    PassesIff(lib, d, m, e, evidence);
    var snapshots, t := e.body.report.snapshots.value, d.body.template;
    ManifestSizes(lib, d, m);
    SnapshotsAreBounded(lib, snapshots, LimitsOf(lib, m, t.maxPages));
    SizesMultiply(t.pageSize, t.maxPages);
  }

  lemma SizesMultiply(a: int, b: int)
    requires 1 <= a <= 100 && 1 <= b <= 10
    ensures a * b <= 1000
  {
    assert a * b <= 100 * b;
  }

  lemma ManifestSizes(lib: Library, d: Definition, m: Manifest)
    requires Paired(lib, d, m)
    requires IntOrNone(m.body.query.pageSize).Some? && IntOrNone(m.body.query.maxPages).Some?
    ensures SizeOr(m.body.query.pageSize) == d.body.template.pageSize
    ensures SizeOr(m.body.query.maxPages) == d.body.template.maxPages
  {
  }

  lemma SnapshotsAreBounded(lib: Library, snapshots: seq<Snapshot>, limits: Limits)
    requires SnapshotsHold(lib, snapshots, limits)
    ensures forall n :: n in PageNumbers(snapshots) ==> 1 <= n <= limits.maxPages
    ensures |snapshots| <= Max(limits.maxPages, 0)
  {
    forall n | n in PageNumbers(snapshots)
      ensures 1 <= n <= limits.maxPages
    {
      var i :| 0 <= i < |snapshots| && PageNumbers(snapshots)[i] == n;
      assert snapshots[i] in snapshots && PageHolds(snapshots[i], limits);
    }
    Pigeonhole(PageNumbers(snapshots), 1, limits.maxPages);
  }

  /** One count alone is within a bound exactly when the other makes up for the rest: the verifier compares
      only their sum. Within the number of snapshots, that is when the other count is not negative; when
      neither is, both are within the page limit. */
  lemma SingleCountsIff(lib: Library, d: Definition, m: Manifest, e: Execution, evidence: Evidence, bound: int)
    requires ValidDefinition(d.body) && Passes(lib, d, m, e, evidence)
    ensures var metadata, n := e.body.report.metadata.value, |e.body.report.snapshots.value|;
      && metadata.successful.JInt? && metadata.failed.JInt?
      && (metadata.failed.number <= bound <==> metadata.successful.number >= n - bound)
      && (metadata.successful.number <= bound <==> metadata.failed.number >= n - bound)
      && (metadata.failed.number <= n <==> metadata.successful.number >= 0)
      && (metadata.successful.number <= n <==> metadata.failed.number >= 0)
      && (metadata.successful.number >= 0 && metadata.failed.number >= 0 ==>
            && metadata.successful.number <= d.body.template.maxPages
            && metadata.failed.number <= d.body.template.maxPages)
  {
    PassesIff(lib, d, m, e, evidence);
    PassingRunIsBounded(lib, d, m, e, evidence);
  }

  /** The attempt with `excess` moved from its successes to its failures, and a matching digest. */
  function Shifted(lib: Library, e: Execution, excess: nat): Execution
    requires e.body.report.metadata.Some?
    requires e.body.report.metadata.value.successful.JInt? && e.body.report.metadata.value.failed.JInt?
  {
    var metadata := e.body.report.metadata.value;
    var body := e.body.(report := e.body.report.(metadata := Some(metadata.(
      successful := JInt(metadata.successful.number - excess), failed := JInt(metadata.failed.number + excess)))));
    Execution(body, e.executedAt, lib.executionDigest(body))
  }

  lemma ShiftedReportHolds(lib: Library, m: Manifest, e: Execution, excess: nat, pageSize: int, maxPages: int)
    requires ReportHolds(lib, m, e.body.report, e.body.attemptSequence, pageSize, maxPages)
    requires e.body.report.metadata.value.successful.JInt? && e.body.report.metadata.value.failed.JInt?
    ensures ReportHolds(lib, m, Shifted(lib, e, excess).body.report, e.body.attemptSequence, pageSize, maxPages)
  {
    var metadata := e.body.report.metadata.value;
    ShiftedMetadataHolds(lib, m, metadata, Shifted(lib, e, excess).body.report.metadata.value,
                         |e.body.report.snapshots.value|, e.body.attemptSequence, pageSize, maxPages, excess);
  }

  lemma ShiftedMetadataHolds(lib: Library, m: Manifest, metadata: Metadata, shifted: Metadata, snapshots: nat,
                             attempt: int, pageSize: int, maxPages: int, excess: nat)
    requires MetadataHolds(lib, m, metadata, snapshots, attempt, pageSize, maxPages)
    requires metadata.successful.JInt? && metadata.failed.JInt?
    requires shifted == metadata.(successful := JInt(metadata.successful.number - excess),
                                  failed := JInt(metadata.failed.number + excess))
    ensures MetadataHolds(lib, m, shifted, snapshots, attempt, pageSize, maxPages)
  {
  }

  /** So no bound holds of the failures alone: from any attempt that passes, one that passes with any larger
      failure count is made by letting the success count go down, below zero if need be. */
  lemma FailuresAloneAreUnbounded(lib: Library, d: Definition, m: Manifest, e: Execution, evidence: Evidence,
                                  excess: nat)
    requires Passes(lib, d, m, e, evidence)
    ensures e.body.report.metadata.Some?
    ensures e.body.report.metadata.value.successful.JInt? && e.body.report.metadata.value.failed.JInt?
    ensures Passes(lib, d, m, Shifted(lib, e, excess), evidence)
    ensures Shifted(lib, e, excess).body.report.metadata.value.failed
         == JInt(e.body.report.metadata.value.failed.number + excess)
  {
    PassesIff(lib, d, m, e, evidence);
    var shifted := Shifted(lib, e, excess);
    ShiftedReportHolds(lib, m, e, excess, SizeOr(m.body.query.pageSize), SizeOr(m.body.query.maxPages));
    assert IdentitiesHold(lib, d, m, shifted.body);
    PassesIff(lib, d, m, shifted, evidence);
  }

  // ---------- A manifest fits its definition ----------

  /** A manifest can be built from a valid definition exactly when the definition is intact, the window is in
      order, and the definition does not already carry the manifest's own limitation; it then pairs with the
      definition. */
  lemma BuildManifestIff(lib: Library, d: Definition, windowStart: int, windowEnd: int)
    requires ValidDefinition(d.body)
    ensures BuildManifest(lib, d, windowStart, windowEnd).Ok? <==>
      && d.digest == lib.definitionDigest(d.body) && windowStart <= windowEnd
      && MANIFEST_LIMITATION !in d.body.limitations
    ensures BuildManifest(lib, d, windowStart, windowEnd).Ok? ==>
      Paired(lib, d, BuildManifest(lib, d, windowStart, windowEnd).value)
  {
    LimitationsDistinct(d.body.limitations);
  }

  lemma LimitationsDistinct(limitations: seq<string>)
    requires Distinct(limitations)
    ensures Distinct(limitations + [MANIFEST_LIMITATION]) <==> MANIFEST_LIMITATION !in limitations
  {
    var all := limitations + [MANIFEST_LIMITATION];
    if Distinct(all) {
      forall i | 0 <= i < |limitations|
        ensures limitations[i] != MANIFEST_LIMITATION
      {
        assert all[i] != all[|limitations|];
      }
    }
  }

  // ---------- Binding ----------

  ghost predicate AllowedFlag(e: Execution) {
    e.body.report.metadata.Some? && PythonEqual(e.body.report.metadata.value.allowed, JBool(true))
  }

  ghost predicate FromV1(e: Execution) {
    e.body.report.metadata.Some? && e.body.report.metadata.value.schemaVersion == V1
  }

  /** What a binding leaves: the same attempt and snapshots, the report's metadata bound to the authorization,
      no other entry in the report, and a fresh digest. */
  ghost predicate BoundFrom(lib: Library, m: Manifest, e: Execution, a: Authorization, bound: Execution) {
    && e.body.report.metadata.Some? && e.body.report.snapshots.Some?
    && e.body.report.metadata.value.schemaVersion in {V1, V2} && AuthorizationHolds(Some(a))
    && bound.body == BoundBody(lib, m, e.body, a) && bound.executedAt == e.executedAt
    && bound.digest == lib.executionDigest(bound.body) && e.digest == lib.executionDigest(e.body)
  }

  lemma BoundReport(lib: Library, e: Execution, m: Manifest, a: Authorization, bound: Execution)
    requires Bind(lib, e, m, a) == Ok(bound)
    ensures BoundFrom(lib, m, e, a, bound)
  {
  }

  /** Of the metadata's checks, binding settles the ones a version 2 report adds, except the allowed flag. */
  lemma BoundMetadataHolds(lib: Library, m: Manifest, metadata: Metadata, snapshots: nat, attempt: int, pageSize: int,
                           maxPages: int, a: Authorization)
    requires AuthorizationHolds(Some(a)) && metadata.schemaVersion in {V1, V2}
    ensures MetadataHolds(lib, m, BoundMetadata(lib, m, metadata, attempt, a), snapshots, attempt, pageSize, maxPages)
        <==> && PythonEqual(metadata.allowed, JBool(true))
             && metadata.query.Some? && SameQuery(metadata.query.value, m.body.query)
             && PythonEqual(metadata.maximumRecords, JInt(pageSize * maxPages))
             && CountsHold(metadata, snapshots, maxPages)
  {
  }

  /** An attempt that passes can be bound exactly by an authorization of the manual attempt that names its
      decision. */
  lemma PassingAttemptsBindIff(lib: Library, d: Definition, m: Manifest, e: Execution, evidence: Evidence,
                               a: Authorization)
    requires Passes(lib, d, m, e, evidence)
    ensures Bind(lib, e, m, a).Ok? <==> AuthorizationHolds(Some(a))
  {
    PassesIff(lib, d, m, e, evidence);
  }

  /** Binding preserves verification: what passed and was allowed still passes, and its digest matches. From a
      version 1 report nothing else can make the bound one pass. */
  lemma BindingPreservesVerification(lib: Library, d: Definition, m: Manifest, e: Execution, evidence: Evidence,
                                     a: Authorization, bound: Execution)
    requires Bind(lib, e, m, a) == Ok(bound)
    ensures Passes(lib, d, m, e, evidence) && AllowedFlag(e) ==> Passes(lib, d, m, bound, evidence)
    ensures FromV1(e) && Passes(lib, d, m, bound, evidence) ==> Passes(lib, d, m, e, evidence) && AllowedFlag(e)
    ensures bound.digest == lib.executionDigest(bound.body)
  {
    BoundReport(lib, e, m, a, bound);
    PassesIff(lib, d, m, e, evidence);
    PassesIff(lib, d, m, bound, evidence);
    assert V1 != V2;
    BoundMetadataHolds(lib, m, e.body.report.metadata.value, |e.body.report.snapshots.value|, e.body.attemptSequence,
                       SizeOr(m.body.query.pageSize), SizeOr(m.body.query.maxPages), a);
  }

  lemma BoundMetadataAgain(lib: Library, m: Manifest, metadata: Metadata, attempt: int, a: Authorization,
                           b: Authorization)
    ensures BoundMetadata(lib, m, BoundMetadata(lib, m, metadata, attempt, a), attempt, b)
         == BoundMetadata(lib, m, metadata, attempt, b)
  {
  }

  /** The last authorization wins: binding a bound attempt is binding the original, so binding again with the
      same authorization gives the same evidence. */
  lemma BindingAgain(lib: Library, e: Execution, m: Manifest, a: Authorization, b: Authorization, bound: Execution)
    requires Bind(lib, e, m, a) == Ok(bound)
    ensures Bind(lib, bound, m, b) == Bind(lib, e, m, b)
    ensures b == a ==> Bind(lib, bound, m, b) == Ok(bound)
  {
    BoundReport(lib, e, m, a, bound);
    BoundMetadataAgain(lib, m, e.body.report.metadata.value, e.body.attemptSequence, a, b);
    assert BoundBody(lib, m, bound.body, b) == BoundBody(lib, m, e.body, b);
  }

  // ---------- Bound evidence and the capture queue ----------

  function Field(others: map<string, Json>, name: string): Json {
    if name in others then others[name] else JNull
  }

  function ForQueue(s: Snapshot): Queue.Snapshot {
    match s
    case SnapshotNotAnObject => Queue.SnapshotNotAnObject
    case Snapshot(page, verb, executed, request, final, text, length, truncated, others) =>
      Queue.Snapshot(page, verb, request, final, Field(others, "status_code"), executed, Field(others, "reachable"),
                     truncated, Field(others, "error"), Field(others, "failure_kind"), Field(others, "content_type"),
                     text)
  }

  function ForQueueAll(snapshots: seq<Snapshot>): seq<Queue.Snapshot> {
    seq(|snapshots|, i requires 0 <= i < |snapshots| => ForQueue(snapshots[i]))
  }

  /** The report as the capture queue reads it. */
  function ListingOf(report: Report): Queue.Listing {
    Queue.Listing(
      match report.metadata {
        case None => None
        case Some(x) => Some(Queue.Metadata(
          x.schemaVersion, x.allowed, if x.access.Some? then Some(x.access.value.decision) else None,
          if x.authorization.Some? then Some(x.authorization.value.decisionId) else None,
          x.planned, x.executed, x.successful, x.failed)) },
      if report.snapshots.Some? then Some(ForQueueAll(report.snapshots.value)) else None)
  }

  /** Bound evidence that passes is accepted by the capture queue exactly when the run was allowed outright,
      fetched at least one page, and every planned request succeeded; the queue's own page limit then holds
      by itself. */
  lemma BoundEvidenceSuitsQueue(lib: Library, d: Definition, m: Manifest, e: Execution, evidence: Evidence,
                                a: Authorization, bound: Execution, byteLength: nat)
    requires ValidDefinition(d.body) && Bind(lib, e, m, a) == Ok(bound) && byteLength <= Queue.MAX_ARTIFACT_BYTES
    requires Passes(lib, d, m, bound, evidence)
    ensures Queue.Envelope(ListingOf(bound.body.report), byteLength) == None <==> CompleteRun(e.body.report)
  {
    BoundReport(lib, e, m, a, bound);
    PassingCounts(lib, d, m, bound, evidence);
    BoundReportSuitsQueue(lib, m, e.body.report, bound.body.report, e.body.attemptSequence, d.body.template.maxPages,
                          a, byteLength);
  }

  lemma PassingCounts(lib: Library, d: Definition, m: Manifest, e: Execution, evidence: Evidence)
    requires ValidDefinition(d.body) && Passes(lib, d, m, e, evidence)
    ensures var report := e.body.report;
      && report.metadata.Some? && report.snapshots.Some? && |report.snapshots.value| <= Queue.MAX_PAGES
      && CountsHold(report.metadata.value, |report.snapshots.value|, d.body.template.maxPages)
  {
    PassesIff(lib, d, m, e, evidence);
    ManifestSizes(lib, d, m);
    SnapshotsAreBounded(lib, e.body.report.snapshots.value, LimitsOf(lib, m, d.body.template.maxPages));
  }

  /** Allowed outright, with pages, and as many successes as were planned. */
  ghost predicate CompleteRun(report: Report) {
    && report.metadata.Some? && report.snapshots.Some? && report.snapshots.value != []
    && var metadata := report.metadata.value;
    && metadata.allowed == JBool(true)
    && IntOrNone(metadata.planned) == IntOrNone(metadata.executed) && IntOrNone(metadata.failed) == Some(0)
  }

  lemma BoundReportSuitsQueue(lib: Library, m: Manifest, before: Report, after: Report, attempt: int, maxPages: int,
                              a: Authorization, byteLength: nat)
    requires before.metadata.Some? && after.snapshots.Some? && after.snapshots == before.snapshots
    requires after.metadata == Some(BoundMetadata(lib, m, before.metadata.value, attempt, a))
    requires CountsHold(after.metadata.value, |after.snapshots.value|, maxPages)
    requires |after.snapshots.value| <= Queue.MAX_PAGES
    requires AuthorizationHolds(Some(a)) && byteLength <= Queue.MAX_ARTIFACT_BYTES
    ensures Queue.Envelope(ListingOf(after), byteLength) == None <==> CompleteRun(before)
  {
    CountsSuitQueue(after.metadata.value, |after.snapshots.value|, maxPages);
    assert |ListingOf(after).snapshots.value| == |after.snapshots.value|;
  }

  lemma CountsSuitQueue(metadata: Metadata, snapshots: nat, maxPages: int)
    requires CountsHold(metadata, snapshots, maxPages)
    ensures PythonInt(metadata.planned) == PythonInt(metadata.executed) == PythonInt(metadata.successful)
            == Some(snapshots) && PythonInt(metadata.failed) == Some(0)
        <==> IntOrNone(metadata.planned) == IntOrNone(metadata.executed) && IntOrNone(metadata.failed) == Some(0)
  {
  }
}
