/** The assurance audit: analytical passes, the union of their candidates, and quality gates, each bound to
    retained artifacts whose sources may not be shared. */
module AssuranceAudit {
  import opened Base
  import opened Ordering
  import opened Text

  const NATIVE_KINDS := {"deep_repository", "exact_diff", "adversarial_invariant"}
  const OTHER_KINDS := {"external_model", "independent_human"}
  const MINIMUM_NATIVE := 5
  const MINIMUM_DEEP := 3
  const MANDATORY_GATES := {
    "adapter-audit", "architecture-certification", "capability-certification", "compileall-py311",
    "compileall-py312", "dependency-integrity-py311", "dependency-integrity-py312", "diff-hygiene",
    "exact-checkout-py311", "exact-checkout-py312", "governance-contract-certification", "lock-verification-py311",
    "lock-verification-py312", "mypy-strict", "pytest-py311", "pytest-py312", "ruff", "sbom-py311", "sbom-py312",
    "security-mutation", "semantic-authorization-certification", "source-coverage-audit",
    "vulnerability-audit-py311", "vulnerability-audit-py312"}

  /** The number in a finding's code, and what it is about. */
  datatype Finding = Finding(code: nat, subject: string)

  // ---------- Values ----------

  predicate Nonblank(value: Json) {
    value.JString? && value.text != "" && Trimmed(value.text)
  }

  predicate NonnegativeInteger(value: Json) {
    value.JInt? && value.number >= 0
  }

  predicate PositiveInteger(value: Json) {
    value.JInt? && value.number > 0
  }

  predicate LowerHex(c: char) {
    '0' <= c <= '9' || 'a' <= c <= 'f'
  }

  predicate DigestText(value: Json) {
    value.JString? && |value.text| == 64 && forall i :: 0 <= i < 64 ==> LowerHex(value.text[i])
  }

  predicate Placeholder(value: Json) {
    value.JString? && forall i :: 0 <= i < |value.text| ==> value.text[i] == '0'
  }

  predicate PassIdText(s: string) {
    && 3 <= |s| <= 80 && 'a' <= s[0] <= 'z'
    && forall i :: 0 < i < |s| ==> 'a' <= s[i] <= 'z' || '0' <= s[i] <= '9' || s[i] == '-'
  }

  predicate CandidateIdText(s: string) {
    |s| == 9 && s[..6] == "CS-AC-" && forall i :: 6 <= i < 9 ==> '0' <= s[i] <= '9'
  }

  predicate StrictlyIncreasing(strings: seq<string>) {
    forall i, j :: 0 <= i < j < |strings| ==>
      AtMost(TextKey(strings[i]), TextKey(strings[j])) && strings[i] != strings[j]
  }

  function Texts(values: seq<Json>): seq<string> {
    seq(|values|, i requires 0 <= i < |values| => if values[i].JString? then values[i].text else "")
  }

  /** A nonempty array of trimmed strings, sorted and without repetition. */
  function CanonicalStrings(value: Option<seq<Json>>): Option<seq<string>> {
    if value == None || value.value == [] || (exists v :: v in value.value && !Nonblank(v)) then None
    else if !StrictlyIncreasing(Texts(value.value)) then None
    else Some(Texts(value.value))
  }

  // ---------- Retained artifacts ----------

  /** A file under the evidence tree: its canonical path, the digest of its bytes, and its object, if it is one. */
  datatype Retained<T> = Retained(path: string, digest: string, payload: Option<T>)

  datatype SourcePayload = SourcePayload(
    exactFields: bool,
    schema: Json,
    reviewedCommit: Json,
    kind: Json,
    contextId: Json,
    producer: Json,
    payload: Json)

  /** The fields a pass record and its evidence share. */
  datatype PassFacts = PassFacts(
    passId: Json,
    kind: Json,
    status: Json,
    freshContext: Json,
    completedReviews: Json,
    candidateCount: Json,
    coverageComplete: Json,
    coverageGaps: Json,
    unresolved: Json,
    deferred: Json)

  datatype PassEvidence = PassEvidence(
    exactFields: bool,
    schema: Json,
    facts: PassFacts,
    reviewedCommit: Json,
    tool: Json,
    sourcePath: Json,
    sourceDigest: Json)

  datatype RawPass =
    | PassNotAnObject
    | RawPass(
        exactFields: bool,
        facts: PassFacts,
        reviewer: Json,
        provider: Json,
        model: Json,
        artifactPath: Json,
        artifactDigest: Json)

  datatype RawResult =
    | ResultNotAnObject
    | RawResult(exactFields: bool, gateId: Json, status: Json, sourcePath: Json, sourceDigest: Json)

  datatype GateEvidence = GateEvidence(
    exactFields: bool,
    schema: Json,
    reviewedCommit: Json,
    results: Option<seq<RawResult>>)

  /** The working tree: artifacts by the path that names them, unless it is missing or unsafe; and whether a
      provider's name is OpenAI's, whatever its case. */
  datatype Repository = Repository(
    passEvidence: string -> Option<Retained<PassEvidence>>,
    gateEvidence: string -> Option<Retained<GateEvidence>>,
    sources: string -> Option<Retained<SourcePayload>>,
    openAi: Json -> bool)

  function Artifact<T>(lookup: string -> Option<Retained<T>>, path: Json, digest: Json): Option<(string, T)> {
    if !Nonblank(path) || !DigestText(digest) then None
    else
      match lookup(path.text)
      case None => None
      case Some(retained) =>
        if retained.payload.Some? && retained.digest == digest.text then Some((retained.path, retained.payload.value))
        else None
  }

  // ---------- Ownership of sources ----------

  datatype Owner = PassOwner(id: string) | GateOwner(id: string)

  datatype Identity = PathIdentity(path: string) | DigestIdentity(digest: string)

  type Owners = map<Identity, Owner>

  datatype Claim = Claim(owner: Owner, path: string, digest: string)

  predicate OwnedByOther(owners: Owners, id: Identity, owner: Owner) {
    id in owners && owners[id] != owner
  }

  function Own(owners: Owners, id: Identity, owner: Owner): Owners {
    if OwnedByOther(owners, id, owner) then owners else owners[id := owner]
  }

  function ClaimFindings(owners: Owners, c: Claim): seq<Finding> {
    Note(OwnedByOther(owners, PathIdentity(c.path), c.owner), Finding(27, c.path))
    + Note(OwnedByOther(owners, DigestIdentity(c.digest), c.owner), Finding(27, c.digest))
  }

  function Claimed(owners: Owners, c: Claim): Owners {
    Own(Own(owners, PathIdentity(c.path), c.owner), DigestIdentity(c.digest), c.owner)
  }

  const SOURCE_SCHEMA := JString("constructionsight.assurance-source-artifact/v1")

  predicate SourceBinds(s: SourcePayload, reviewed: Json, kind: Json, context: string) {
    && s.schema == SOURCE_SCHEMA && s.reviewedCommit == reviewed && s.kind == kind
    && s.contextId == JString(context) && Nonblank(s.producer) && s.payload != JNull
  }

  /** A source artifact that can be read and has the digest it is bound by. */
  function SourceOf(repo: Repository, path: Json, digest: Json): Option<(string, SourcePayload)> {
    if Placeholder(digest) then None else Artifact(repo.sources, path, digest)
  }

  /** What binding one source adds: its claim, when it can be read, and the findings about it. */
  function SourceClaim(repo: Repository, path: Json, digest: Json, owner: Owner): Option<Claim> {
    match SourceOf(repo, path, digest)
    case None => None
    case Some((canonical, _)) => Some(Claim(owner, canonical, digest.text))
  }

  function SourceFindings(repo: Repository, path: Json, digest: Json, reviewed: Json, kind: Json, context: string)
    : seq<Finding>
  {
    match SourceOf(repo, path, digest)
    case None => [Finding(27, context)]
    case Some((_, payload)) =>
      Note(!payload.exactFields, Finding(27, context))
      + Note(!SourceBinds(payload, reviewed, kind, context), Finding(27, context))
  }

  // ---------- Analytical passes ----------

  const PASS_EVIDENCE_SCHEMA := JString("constructionsight.assurance-pass-evidence/v2")

  predicate NativeKind(kind: Json) {
    kind.JString? && kind.text in NATIVE_KINDS
  }

  predicate KnownKind(kind: Json) {
    NativeKind(kind) || (kind.JString? && kind.text in OTHER_KINDS)
  }

  /** The findings about a pass record by itself. */
  function RecordFindings(repo: Repository, raw: RawPass, id: string): seq<Finding>
    requires raw.RawPass?
  {
    var f := raw.facts;
    Note(!KnownKind(f.kind), Finding(8, id))
    + Note(!Nonblank(raw.reviewer), Finding(8, id)) + Note(!Nonblank(raw.provider), Finding(8, id))
    + Note(!Nonblank(raw.model), Finding(8, id))
    + Note(f.freshContext != JBool(true), Finding(9, id))
    + Note(!PythonEqual(f.completedReviews, JInt(1)), Finding(9, id))
    + Note(f.status != JString("passed"), Finding(9, id))
    + Note(f.coverageComplete != JBool(true), Finding(9, id))
    + Note(!NonnegativeInteger(f.candidateCount), Finding(8, id))
    + Note(!NonnegativeInteger(f.coverageGaps), Finding(8, id))
    + Note(!NonnegativeInteger(f.unresolved), Finding(8, id)) + Note(!NonnegativeInteger(f.deferred), Finding(8, id))
    + Note(!PythonEqual(f.coverageGaps, JInt(0)), Finding(9, id))
    + Note(!PythonEqual(f.unresolved, JInt(0)), Finding(9, id))
    + Note(!PythonEqual(f.deferred, JInt(0)), Finding(9, id))
    + Note(NativeKind(f.kind) && !repo.openAi(raw.provider), Finding(23, id))
  }

  function AgreementFindings(f: PassFacts, e: PassFacts, id: string): seq<Finding> {
    Note(!PythonEqual(e.passId, f.passId), Finding(10, id)) + Note(!PythonEqual(e.kind, f.kind), Finding(10, id))
    + Note(!PythonEqual(e.status, f.status), Finding(10, id))
    + Note(!PythonEqual(e.freshContext, f.freshContext), Finding(10, id))
    + Note(!PythonEqual(e.completedReviews, f.completedReviews), Finding(10, id))
    + Note(!PythonEqual(e.candidateCount, f.candidateCount), Finding(10, id))
    + Note(!PythonEqual(e.coverageComplete, f.coverageComplete), Finding(10, id))
    + Note(!PythonEqual(e.coverageGaps, f.coverageGaps), Finding(10, id))
    + Note(!PythonEqual(e.unresolved, f.unresolved), Finding(10, id))
    + Note(!PythonEqual(e.deferred, f.deferred), Finding(10, id))
  }

  function EvidenceFindings(repo: Repository, raw: RawPass, e: PassEvidence, reviewed: Json, id: string): seq<Finding>
    requires raw.RawPass?
  {
    Note(!e.exactFields, Finding(10, id)) + Note(e.schema != PASS_EVIDENCE_SCHEMA, Finding(10, id))
    + AgreementFindings(raw.facts, e.facts, id)
    + Note(e.reviewedCommit != reviewed, Finding(10, id)) + Note(!Nonblank(e.tool), Finding(10, id))
    + SourceFindings(repo, e.sourcePath, e.sourceDigest, reviewed, raw.facts.kind, id)
  }

  /** What one pass record amounts to, whatever came before it: its identifier, its evidence path, the claim
      on its source, and the findings it causes by itself. */
  datatype PassReview = PassReview(
    id: Option<string>,
    evidencePath: Option<string>,
    claim: Option<Claim>,
    findings: seq<Finding>)

  type Examiner = RawPass -> PassReview

  function ReviewPass(repo: Repository, reviewed: Json, raw: RawPass): PassReview {
    if raw.PassNotAnObject? then PassReview(None, None, None, [Finding(8, "passes")])
    else if !(raw.facts.passId.JString? && PassIdText(raw.facts.passId.text)) then
      PassReview(None, None, None, Note(!raw.exactFields, Finding(8, "passes")) + [Finding(8, "passes")])
    else
      var id := raw.facts.passId.text;
      var first := Note(!raw.exactFields, Finding(8, "passes")) + RecordFindings(repo, raw, id);
      match Artifact(repo.passEvidence, raw.artifactPath, raw.artifactDigest)
      case None => PassReview(Some(id), None, None, first + [Finding(10, id)])
      case Some((path, e)) =>
        PassReview(Some(id), Some(path), SourceClaim(repo, e.sourcePath, e.sourceDigest, PassOwner(id)),
                   first + EvidenceFindings(repo, raw, e, reviewed, id))
  }

  function ExaminerOf(repo: Repository, reviewed: Json): Examiner {
    raw => ReviewPass(repo, reviewed, raw)
  }

  /** `passes` is in the order of the dictionary, `evidence` maps evidence paths to the last pass using them. */
  datatype PassState = PassState(
    findings: seq<Finding>,
    passes: seq<(string, RawPass)>,
    evidence: map<string, string>,
    owners: Owners)

  function Ids(passes: seq<(string, RawPass)>): set<string> {
    set p | p in passes :: p.0
  }

  /** A record with a repeated identifier is only reported; any other is kept even when it has findings. */
  function AuditPass(review: Examiner, s: PassState, raw: RawPass): PassState {
    var r := review(raw);
    if r.id == None then s.(findings := s.findings + r.findings)
    else if r.id.value in Ids(s.passes) then s.(findings := s.findings + RepeatFindings(raw))
    else
      PassState(
        s.findings + r.findings
        + Note(r.evidencePath.Some? && r.evidencePath.value in s.evidence, Finding(10, r.id.value))
        + (if r.claim.Some? then ClaimFindings(s.owners, r.claim.value) else []),
        s.passes + [(r.id.value, raw)],
        if r.evidencePath.Some? then s.evidence[r.evidencePath.value := r.id.value] else s.evidence,
        if r.claim.Some? then Claimed(s.owners, r.claim.value) else s.owners)
  }

  function RepeatFindings(raw: RawPass): seq<Finding> {
    Note(raw.RawPass? && !raw.exactFields, Finding(8, "passes")) + [Finding(8, "passes")]
  }

  const NO_PASSES := PassState([], [], map[], map[])

  function AuditPassList(review: Examiner, raws: seq<RawPass>): PassState {
    if raws == [] then NO_PASSES
    else AuditPass(review, AuditPassList(review, raws[..|raws| - 1]), raws[|raws| - 1])
  }

  function CountKinds(passes: seq<(string, RawPass)>, wanted: Json -> bool): nat {
    if passes == [] then 0
    else
      var last := passes[|passes| - 1].1;
      CountKinds(passes[..|passes| - 1], wanted) + if last.RawPass? && wanted(last.facts.kind) then 1 else 0
  }

  datatype Contract = Contract(
    nativeKinds: Option<seq<Json>>,
    minimumNative: Json,
    minimumDeep: Json,
    qualityGates: Option<seq<Json>>)

  /** The parts of the contract audit that the counts below rest on. */
  function ContractFindings(c: Contract): seq<Finding> {
    Note(CanonicalStrings(c.nativeKinds) == None
         || Elements(CanonicalStrings(c.nativeKinds).value) != NATIVE_KINDS, Finding(5, "policy"))
    + Note(!PositiveInteger(c.minimumNative) || c.minimumNative.number < MINIMUM_NATIVE, Finding(6, "policy"))
    + Note(!PositiveInteger(c.minimumDeep) || c.minimumDeep.number < MINIMUM_DEEP, Finding(7, "policy"))
    + Note(CanonicalStrings(c.qualityGates) == None
           || !(MANDATORY_GATES <= Elements(CanonicalStrings(c.qualityGates).value)), Finding(8, "policy"))
  }

  function TextSet(values: Option<seq<Json>>): set<Json> {
    if values == None then {} else Elements(values.value)
  }

  function NativeKindsOf(passes: seq<(string, RawPass)>): set<Json> {
    set p | p in passes && p.1.RawPass? && NativeKind(p.1.facts.kind) :: p.1.facts.kind
  }

  const DEEP := JString("deep_repository")

  function PassTotals(c: Contract, passes: seq<(string, RawPass)>): seq<Finding> {
    Note(NativeKindsOf(passes) != TextSet(c.nativeKinds), Finding(9, "native kinds"))
    + Note(!PositiveInteger(c.minimumNative)
           || CountKinds(passes, k => NativeKind(k)) < c.minimumNative.number, Finding(9, "native"))
    + Note(!PositiveInteger(c.minimumDeep) || CountKinds(passes, k => k == DEEP) < c.minimumDeep.number,
           Finding(9, "deep"))
  }

  /** The pass audit: `None` when the report holds no array of passes. */
  function AuditPasses(repo: Repository, c: Contract, reviewed: Json, raws: Option<seq<RawPass>>): PassState {
    if raws == None || raws.value == [] then PassState([Finding(8, "passes")], [], map[], map[])
    else
      var s := AuditPassList(ExaminerOf(repo, reviewed), raws.value);
      s.(findings := s.findings + PassTotals(c, s.passes))
  }

  lemma CountKindsNext(passes: seq<(string, RawPass)>, p: (string, RawPass), wanted: Json -> bool)
    ensures CountKinds(passes + [p], wanted)
         == CountKinds(passes, wanted) + if p.1.RawPass? && wanted(p.1.facts.kind) then 1 else 0
  {
    assert (passes + [p])[..|passes|] == passes;
  }

  /** A pass is added to the dictionary, or the dictionary stays as it is. */
  lemma PassAddedOrNot(review: Examiner, s: PassState, raw: RawPass)
    ensures var after := AuditPass(review, s, raw);
      after.passes == s.passes || (review(raw).id.Some? && after.passes == s.passes + [(review(raw).id.value, raw)])
  {
  }

  /** The loop, with the dictionaries and the two counters it updates. */
  method AuditPassLoop(review: Examiner, raws: seq<RawPass>) returns (s: PassState, native: nat, deep: nat)
    ensures s == AuditPassList(review, raws)
    ensures native == CountKinds(s.passes, k => NativeKind(k)) && deep == CountKinds(s.passes, k => k == DEEP)
  {
    s, native, deep := NO_PASSES, 0, 0;
    for index := 0 to |raws|
      invariant s == AuditPassList(review, raws[..index])
      invariant native == CountKinds(s.passes, k => NativeKind(k)) && deep == CountKinds(s.passes, k => k == DEEP)
    {
      assert raws[..index + 1][..index] == raws[..index];
      var before, raw := s.passes, raws[index];
      PassAddedOrNot(review, s, raw);
      s := AuditPass(review, s, raw);
      if |s.passes| > |before| {
        CountKindsNext(before, s.passes[|before|], k => NativeKind(k));
        CountKindsNext(before, s.passes[|before|], k => k == DEEP);
        if raw.RawPass? && NativeKind(raw.facts.kind) { native := native + 1; }
        if raw.RawPass? && raw.facts.kind == DEEP { deep := deep + 1; }
      }
    }
    assert raws[..|raws|] == raws;
  }
}
