/** The audit of the quality gates, and the whole audit's guarantee: no source serves two purposes. */
module AssuranceGates {
  import opened Base
  import opened Text
  import opened AssuranceAudit
  import opened AssuranceAuditLaws

  const GATES_SCHEMA := JString("constructionsight.assurance-quality-gates/v2")

  datatype RawGate =
    | GateNotAnObject
    | RawGate(exactFields: bool, gateId: Json, status: Json, artifactPath: Json, artifactDigest: Json)

  /** The results of one evidence artifact, by gate. */
  type Results = map<string, Json>

  datatype ResultState = ResultState(findings: seq<Finding>, results: Results, owners: Owners)

  /** What one result amounts to by itself: its gate, its claim on a source, and its own findings. */
  datatype ResultReview = ResultReview(id: Option<string>, status: Json, claim: Option<Claim>, findings: seq<Finding>)

  type ResultExaminer = RawResult -> ResultReview

  function ReviewResult(repo: Repository, reviewed: Json, raw: RawResult): ResultReview {
    if raw.ResultNotAnObject? then ResultReview(None, JNull, None, [Finding(15, "result")])
    else if !Nonblank(raw.gateId) then
      ResultReview(None, JNull, None, Note(!raw.exactFields, Finding(15, "result")) + [Finding(15, "result")])
    else
      var id := raw.gateId.text;
      ResultReview(
        Some(id), raw.status, SourceClaim(repo, raw.sourcePath, raw.sourceDigest, GateOwner(id)),
        Note(!raw.exactFields, Finding(15, id)) + Note(raw.status != JString("passed"), Finding(15, id))
        + SourceFindings(repo, raw.sourcePath, raw.sourceDigest, reviewed, JString("quality_gate"), id))
  }

  function ResultExaminerOf(repo: Repository, reviewed: Json): ResultExaminer {
    raw => ReviewResult(repo, reviewed, raw)
  }

  /** A repeated gate is only reported. */
  function AuditResult(review: ResultExaminer, s: ResultState, raw: RawResult): ResultState {
    var r := review(raw);
    if r.id == None then s.(findings := s.findings + r.findings)
    else if r.id.value in s.results then s.(findings := s.findings + [Finding(15, r.id.value)])
    else
      ResultState(
        s.findings + r.findings + (if r.claim.Some? then ClaimFindings(s.owners, r.claim.value) else []),
        s.results[r.id.value := r.status],
        if r.claim.Some? then Claimed(s.owners, r.claim.value) else s.owners)
  }

  function AuditResults(review: ResultExaminer, owners: Owners, raws: seq<RawResult>): ResultState {
    if raws == [] then ResultState([], map[], owners)
    else AuditResult(review, AuditResults(review, owners, raws[..|raws| - 1]), raws[|raws| - 1])
  }

  datatype GateState = GateState(
    findings: seq<Finding>,
    gates: set<string>,
    evidence: map<string, Results>,
    owners: Owners)

  /** An evidence artifact seen for the first time. */
  function AuditEvidence(review: ResultExaminer, owners: Owners, e: GateEvidence, reviewed: Json): ResultState {
    var first := Note(!e.exactFields, Finding(15, "evidence")) + Note(e.schema != GATES_SCHEMA, Finding(15, "evidence"))
                 + Note(e.reviewedCommit != reviewed, Finding(15, "evidence"));
    if e.results == None || e.results.value == [] then
      ResultState(first + [Finding(15, "evidence")], map[], owners)
    else
      var s := AuditResults(review, owners, e.results.value);
      s.(findings := first + s.findings)
  }

  type EvidenceAuditor = (Owners, GateEvidence) -> ResultState

  function EvidenceAuditorOf(repo: Repository, reviewed: Json): EvidenceAuditor {
    (owners, e) => AuditEvidence(ResultExaminerOf(repo, reviewed), owners, e, reviewed)
  }

  type GateLookup = RawGate -> Option<(string, GateEvidence)>

  function GateLookupOf(repo: Repository): GateLookup {
    (raw: RawGate) => if raw.RawGate? then Artifact(repo.gateEvidence, raw.artifactPath, raw.artifactDigest) else None
  }

  /** A gate is compared with the result its evidence holds for it; evidence is examined once. */
  function AuditGate(audit: EvidenceAuditor, lookup: GateLookup, s: GateState, raw: RawGate): GateState {
    if raw.GateNotAnObject? then s.(findings := s.findings + [Finding(14, "gates")])
    else
      var first := s.findings + Note(!raw.exactFields, Finding(14, "gates"));
      if !Nonblank(raw.gateId) || raw.gateId.text in s.gates then s.(findings := first + [Finding(14, "gates")])
      else
        var id := raw.gateId.text;
        var second := first + Note(raw.status != JString("passed"), Finding(14, id));
        match lookup(raw)
        case None => s.(findings := second + [Finding(10, id)], gates := s.gates + {id})
        case Some((path, e)) =>
          var examined :=
            if path in s.evidence then ResultState([], s.evidence[path], s.owners) else audit(s.owners, e);
          var agrees := id in examined.results && examined.results[id] == raw.status;
          GateState(second + examined.findings + Note(!agrees, Finding(15, id)), s.gates + {id},
                    s.evidence[path := examined.results], examined.owners)
  }

  function AuditGateList(audit: EvidenceAuditor, lookup: GateLookup, owners: Owners, raws: seq<RawGate>): GateState {
    if raws == [] then GateState([], {}, map[], owners)
    else AuditGate(audit, lookup, AuditGateList(audit, lookup, owners, raws[..|raws| - 1]), raws[|raws| - 1])
  }

  function RequiredGates(c: Contract): set<string> {
    if c.qualityGates == None then {} else Elements(Texts(c.qualityGates.value))
  }

  /** The gate audit, continuing with the owners the pass audit left. */
  function AuditGates(repo: Repository, c: Contract, reviewed: Json, owners: Owners, raws: Option<seq<RawGate>>)
    : GateState
  {
    if raws == None || raws.value == [] then GateState([Finding(14, "gates")], {}, map[], owners)
    else
      var s := AuditGateList(EvidenceAuditorOf(repo, reviewed), GateLookupOf(repo), owners, raws.value);
      s.(findings := s.findings + Note(s.gates != RequiredGates(c), Finding(14, "gates")))
  }

  /** The result loop of one evidence artifact. */
  method AuditResultLoop(review: ResultExaminer, before: Owners, raws: seq<RawResult>) returns (s: ResultState)
    ensures s == AuditResults(review, before, raws)
  {
    var findings: seq<Finding> := [];
    var results: Results := map[];
    var owners := before;
    for index := 0 to |raws|
      invariant ResultState(findings, results, owners) == AuditResults(review, before, raws[..index])
    {
      assert raws[..index + 1][..index] == raws[..index];
      var r := review(raws[index]);
      if r.id == None {
        findings := findings + r.findings;
      } else if r.id.value in results {
        findings := findings + [Finding(15, r.id.value)];
      } else {
        findings := findings + r.findings + (if r.claim.Some? then ClaimFindings(owners, r.claim.value) else []);
        results := results[r.id.value := r.status];
        owners := if r.claim.Some? then Claimed(owners, r.claim.value) else owners;
      }
    }
    assert raws[..|raws|] == raws;
    s := ResultState(findings, results, owners);
  }

  /** The gate loop. */
  method AuditGateLoop(audit: EvidenceAuditor, lookup: GateLookup, owners: Owners, raws: seq<RawGate>)
    returns (s: GateState)
    ensures s == AuditGateList(audit, lookup, owners, raws)
  {
    s := GateState([], {}, map[], owners);
    for index := 0 to |raws|
      invariant s == AuditGateList(audit, lookup, owners, raws[..index])
    {
      assert raws[..index + 1][..index] == raws[..index];
      s := AuditGate(audit, lookup, s, raws[index]);
    }
    assert raws[..|raws|] == raws;
  }

  // ---------- When evidence causes no finding ----------

  ghost predicate Regular(review: ResultExaminer) {
    forall raw :: review(raw).findings == [] ==> review(raw).id.Some? && review(raw).claim.Some?
  }

  lemma ResultExaminerIsRegular(repo: Repository, reviewed: Json)
    ensures Regular(ResultExaminerOf(repo, reviewed))
  {
    var review := ResultExaminerOf(repo, reviewed);
    forall raw | review(raw).findings == []
      ensures review(raw).id.Some? && review(raw).claim.Some?
    {
    }
  }

  /** The first status given for each gate. */
  function Statuses(review: ResultExaminer, raws: seq<RawResult>): Results {
    if raws == [] then map[]
    else
      var before, r := Statuses(review, raws[..|raws| - 1]), review(raws[|raws| - 1]);
      if r.id == None || r.id.value in before then before else before[r.id.value := r.status]
  }

  lemma {:induction false} ResultsAreStatuses(review: ResultExaminer, owners: Owners, raws: seq<RawResult>)
    ensures AuditResults(review, owners, raws).results == Statuses(review, raws)
  {
    if raws != [] {
      ResultsAreStatuses(review, owners, raws[..|raws| - 1]);
    }
  }

  ghost function ClaimOf(r: ResultReview): Claim {
    if r.claim.Some? then r.claim.value else Claim(GateOwner(""), "", "")
  }

  ghost function ResultClaims(review: ResultExaminer, raws: seq<RawResult>): seq<Claim> {
    if raws == [] then []
    else ResultClaims(review, raws[..|raws| - 1]) + [ClaimOf(review(raws[|raws| - 1]))]
  }

  lemma AppendLater<T>(a: seq<T>, b: seq<T>, c: seq<T>)
    ensures a + (b + c) == a + b + c
  {
  }

  lemma NextClaims(review: ResultExaminer, claims: seq<Claim>, raws: seq<RawResult>)
    requires raws != []
    ensures claims + ResultClaims(review, raws)
         == claims + ResultClaims(review, raws[..|raws| - 1]) + [ClaimOf(review(raws[|raws| - 1]))]
  {
    AppendLater(claims, ResultClaims(review, raws[..|raws| - 1]), [ClaimOf(review(raws[|raws| - 1]))]);
  }

  /** A further result is fine when it is clean and about a gate of its own. */
  ghost predicate ResultHolds(review: ResultExaminer, front: seq<RawResult>, raw: RawResult) {
    var r := review(raw);
    r.findings == [] && r.id.Some? && r.claim.Some? && r.id.value !in Statuses(review, front)
  }

  /** Every result is clean, and no two are about one gate. */
  ghost predicate ResultsHold(review: ResultExaminer, raws: seq<RawResult>) {
    forall k :: 0 <= k < |raws| ==> ResultHolds(review, raws[..k], raws[k])
  }

  lemma ResultsHoldNext(review: ResultExaminer, raws: seq<RawResult>)
    requires raws != []
    ensures var n := |raws| - 1;
      ResultsHold(review, raws) <==> ResultsHold(review, raws[..n]) && ResultHolds(review, raws[..n], raws[n])
  {
    var n := |raws| - 1;
    assert forall k :: 0 <= k < n ==> raws[..n][k] == raws[k] && raws[..n][..k] == raws[..k];
  }

  /** What the results of an artifact amount to, on top of the claims made before. */
  ghost predicate ResultsExact(review: ResultExaminer, s: ResultState, claims: seq<Claim>, raws: seq<RawResult>) {
    && (s.findings == [] <==> ResultsHold(review, raws) && Separated(claims + ResultClaims(review, raws)))
    && (s.findings == [] ==> Tracks(s.owners, claims + ResultClaims(review, raws)))
  }

  /** One result on top of the claims made before it. */
  lemma NextResult(review: ResultExaminer, s: ResultState, claims: seq<Claim>, front: seq<RawResult>, last: RawResult)
    requires Regular(review) && s.results == Statuses(review, front) && s.findings == [] && Tracks(s.owners, claims)
    ensures var after, all := AuditResult(review, s, last), claims + [ClaimOf(review(last))];
      && (after.findings == [] <==> ResultHolds(review, front, last) && Separated(all))
      && (after.findings == [] ==> Tracks(after.owners, all))
  {
    ClaimIff(s.owners, claims, ClaimOf(review(last)));
  }

  lemma {:induction false} ResultsAreExact(review: ResultExaminer, owners: Owners, claims: seq<Claim>,
                                           raws: seq<RawResult>)
    requires Regular(review) && Tracks(owners, claims)
    ensures ResultsExact(review, AuditResults(review, owners, raws), claims, raws)
  {
    if raws == [] {
      assert claims + [] == claims;
      TrackedClaimsAreSeparated(owners, claims);
    } else {
      var front, last := raws[..|raws| - 1], raws[|raws| - 1];
      var s := AuditResults(review, owners, front);
      ResultsAreExact(review, owners, claims, front);
      ResultsAreStatuses(review, owners, front);
      ResultsHoldNext(review, raws);
      NextClaims(review, claims, raws);
      if s.findings == [] {
        NextResult(review, s, claims + ResultClaims(review, front), front, last);
      } else if Separated(claims + ResultClaims(review, raws)) {
        SeparatedPrefix(claims + ResultClaims(review, front), ClaimOf(review(last)));
      }
    }
  }

  ghost function ResultsIn(e: GateEvidence): seq<RawResult> {
    if e.results == None then [] else e.results.value
  }

  /** An artifact of the right form about the reviewed commit, with results, all of which hold. */
  ghost predicate EvidenceHolds(review: ResultExaminer, e: GateEvidence, reviewed: Json) {
    && e.exactFields && e.schema == GATES_SCHEMA && e.reviewedCommit == reviewed
    && ResultsIn(e) != [] && ResultsHold(review, ResultsIn(e))
  }

  type EvidenceTest = GateEvidence -> bool

  ghost function HoldingEvidence(repo: Repository, reviewed: Json): EvidenceTest {
    e => EvidenceHolds(ResultExaminerOf(repo, reviewed), e, reviewed)
  }

  /** What examining an artifact amounts to, on top of the claims made before. */
  ghost predicate ExaminesExactly(review: ResultExaminer, holds: EvidenceTest, s: ResultState, claims: seq<Claim>,
                                  e: GateEvidence)
  {
    var all := claims + ResultClaims(review, ResultsIn(e));
    && s.results == Statuses(review, ResultsIn(e))
    && (s.findings == [] <==> holds(e) && Separated(all))
    && (s.findings == [] ==> Tracks(s.owners, all))
  }

  ghost predicate AuditsExactly(audit: EvidenceAuditor, review: ResultExaminer, holds: EvidenceTest) {
    forall owners, claims, e :: Tracks(owners, claims) ==> ExaminesExactly(review, holds, audit(owners, e), claims, e)
  }

  lemma EvidenceIsExact(repo: Repository, reviewed: Json, owners: Owners, claims: seq<Claim>, e: GateEvidence)
    requires Tracks(owners, claims)
    ensures ExaminesExactly(ResultExaminerOf(repo, reviewed), HoldingEvidence(repo, reviewed),
                            AuditEvidence(ResultExaminerOf(repo, reviewed), owners, e, reviewed), claims, e)
  {
    var review := ResultExaminerOf(repo, reviewed);
    ResultExaminerIsRegular(repo, reviewed);
    ResultsAreExact(review, owners, claims, ResultsIn(e));
    ResultsAreStatuses(review, owners, ResultsIn(e));
  }

  lemma AuditorIsExact(repo: Repository, reviewed: Json)
    ensures AuditsExactly(EvidenceAuditorOf(repo, reviewed), ResultExaminerOf(repo, reviewed),
                          HoldingEvidence(repo, reviewed))
  {
    forall owners, claims, e | Tracks(owners, claims)
      ensures ExaminesExactly(ResultExaminerOf(repo, reviewed), HoldingEvidence(repo, reviewed),
                              EvidenceAuditorOf(repo, reviewed)(owners, e), claims, e)
    {
      EvidenceIsExact(repo, reviewed, owners, claims, e);
    }
  }

  // ---------- When the gate list causes no finding ----------

  /** One path, one artifact: the same file has the same content however it is named. */
  ghost predicate OneContent(lookup: GateLookup) {
    forall a, b :: lookup(a).Some? && lookup(b).Some? && lookup(a).value.0 == lookup(b).value.0 ==>
      lookup(a).value.1 == lookup(b).value.1
  }

  ghost function EvidenceOf(lookup: GateLookup, raw: RawGate): seq<RawResult> {
    if lookup(raw).Some? then ResultsIn(lookup(raw).value.1) else []
  }

  /** The sources bound by the results of the artifacts that the gates refer to. */
  ghost function GateClaims(review: ResultExaminer, lookup: GateLookup, raws: seq<RawGate>): seq<Claim> {
    if raws == [] then []
    else GateClaims(review, lookup, raws[..|raws| - 1]) + ResultClaims(review, EvidenceOf(lookup, raws[|raws| - 1]))
  }

  /** A gate by itself: well formed, passed, and its evidence holds and says the same of it. */
  ghost predicate GateHolds(review: ResultExaminer, holds: EvidenceTest, lookup: GateLookup, raw: RawGate) {
    && raw.RawGate? && raw.exactFields && Nonblank(raw.gateId) && raw.status == JString("passed")
    && lookup(raw).Some? && holds(lookup(raw).value.1)
    && var statuses := Statuses(review, EvidenceOf(lookup, raw));
       raw.gateId.text in statuses && statuses[raw.gateId.text] == raw.status
  }

  lemma NextGateClaims(review: ResultExaminer, lookup: GateLookup, claims: seq<Claim>, raws: seq<RawGate>)
    requires raws != []
    ensures claims + GateClaims(review, lookup, raws)
         == claims + GateClaims(review, lookup, raws[..|raws| - 1])
            + ResultClaims(review, EvidenceOf(lookup, raws[|raws| - 1]))
  {
    AppendLater(claims, GateClaims(review, lookup, raws[..|raws| - 1]),
                ResultClaims(review, EvidenceOf(lookup, raws[|raws| - 1])));
  }

  ghost function GateIds(raws: seq<RawGate>): set<string> {
    set raw | raw in raws && raw.RawGate? && raw.gateId.JString? :: raw.gateId.text
  }

  /** A further gate is fine when it holds and has an identifier of its own. */
  ghost predicate NewGateHolds(review: ResultExaminer, holds: EvidenceTest, lookup: GateLookup, front: seq<RawGate>,
                               raw: RawGate)
  {
    GateHolds(review, holds, lookup, raw) && raw.gateId.text !in GateIds(front)
  }

  ghost predicate GatesHold(review: ResultExaminer, holds: EvidenceTest, lookup: GateLookup, raws: seq<RawGate>) {
    forall k :: 0 <= k < |raws| ==> NewGateHolds(review, holds, lookup, raws[..k], raws[k])
  }

  lemma GatesHoldNext(review: ResultExaminer, holds: EvidenceTest, lookup: GateLookup, raws: seq<RawGate>)
    requires raws != []
    ensures var n := |raws| - 1;
      GatesHold(review, holds, lookup, raws)
      <==> GatesHold(review, holds, lookup, raws[..n]) && NewGateHolds(review, holds, lookup, raws[..n], raws[n])
  {
    var n := |raws| - 1;
    assert forall k :: 0 <= k < n ==> raws[..n][k] == raws[k] && raws[..n][..k] == raws[..k];
  }

  /** An artifact on record was examined for an earlier gate. */
  ghost predicate Examined(review: ResultExaminer, lookup: GateLookup, raws: seq<RawGate>, path: string,
                           results: Results)
  {
    exists raw :: raw in raws && lookup(raw).Some? && lookup(raw).value.0 == path
                  && results == Statuses(review, ResultsIn(lookup(raw).value.1))
  }

  /** What the gate audit has on record while it finds nothing. */
  ghost predicate GatesOnRecord(review: ResultExaminer, lookup: GateLookup, s: GateState, claims: seq<Claim>,
                                raws: seq<RawGate>)
  {
    && s.gates == GateIds(raws)
    && (forall path :: path in s.evidence ==> Examined(review, lookup, raws, path, s.evidence[path]))
    && Tracks(s.owners, claims + GateClaims(review, lookup, raws))
  }

  lemma {:induction false} ClaimsOfGate(review: ResultExaminer, lookup: GateLookup, raws: seq<RawGate>, raw: RawGate)
    requires raw in raws
    ensures forall c :: c in ResultClaims(review, EvidenceOf(lookup, raw)) ==> c in GateClaims(review, lookup, raws)
  {
    var n := |raws| - 1;
    if raw != raws[n] {
      assert raws == raws[..n] + [raws[n]];
      ClaimsOfGate(review, lookup, raws[..n], raw);
    }
  }

  /** Repeating claims changes nothing. */
  lemma ClaimsAgain(owners: Owners, claims: seq<Claim>, again: seq<Claim>)
    requires Tracks(owners, claims) && forall c :: c in again ==> c in claims
    ensures Tracks(owners, claims + again) && Separated(claims + again)
  {
    forall id | id in owners
      ensures ClaimedIn(claims + again, id, owners[id])
    {
      assert ClaimedIn(claims, id, owners[id]);
      var c :| c in claims && c.owner == owners[id] && (id == PathIdentity(c.path) || id == DigestIdentity(c.digest));
      assert c in claims + again;
    }
    TrackedClaimsAreSeparated(owners, claims + again);
  }

  lemma GateIdsNext(front: seq<RawGate>, last: RawGate)
    requires last.RawGate? && last.gateId.JString?
    ensures GateIds(front + [last]) == GateIds(front) + {last.gateId.text}
  {
    assert forall raw :: raw in front + [last] <==> raw in front || raw == last;
  }

  /** The state that examining a gate's evidence leads to, or that is on record for it. */
  function ExaminedFor(audit: EvidenceAuditor, s: GateState, path: string, e: GateEvidence): ResultState {
    if path in s.evidence then ResultState([], s.evidence[path], s.owners) else audit(s.owners, e)
  }

  lemma ExaminedExactly(audit: EvidenceAuditor, review: ResultExaminer, holds: EvidenceTest, lookup: GateLookup,
                        s: GateState, claims: seq<Claim>, front: seq<RawGate>, raw: RawGate)
    requires AuditsExactly(audit, review, holds) && OneContent(lookup) && GatesHold(review, holds, lookup, front)
    requires GatesOnRecord(review, lookup, s, claims, front) && lookup(raw).Some?
    ensures var (path, e) := lookup(raw).value;
      ExaminesExactly(review, holds, ExaminedFor(audit, s, path, e), claims + GateClaims(review, lookup, front), e)
  {
    var path, e := lookup(raw).value.0, lookup(raw).value.1;
    var known := claims + GateClaims(review, lookup, front);
    if path in s.evidence {
      assert Examined(review, lookup, front, path, s.evidence[path]);
      var earlier :| earlier in front && lookup(earlier).Some? && lookup(earlier).value.0 == path
                     && s.evidence[path] == Statuses(review, ResultsIn(lookup(earlier).value.1));
      assert lookup(earlier).value.1 == e;
      var k :| 0 <= k < |front| && front[k] == earlier;
      assert NewGateHolds(review, holds, lookup, front[..k], front[k]);
      ClaimsOfGate(review, lookup, front, earlier);
      ClaimsAgain(s.owners, known, ResultClaims(review, ResultsIn(e)));
    } else {
      assert Tracks(s.owners, known);
    }
  }

  lemma AuditGateIff(audit: EvidenceAuditor, review: ResultExaminer, holds: EvidenceTest, lookup: GateLookup,
                     s: GateState, claims: seq<Claim>, front: seq<RawGate>, raw: RawGate)
    requires s.findings == [] && s.gates == GateIds(front)
    requires lookup(raw).Some? ==>
      var (path, e) := lookup(raw).value;
      ExaminesExactly(review, holds, ExaminedFor(audit, s, path, e), claims, e)
    ensures AuditGate(audit, lookup, s, raw).findings == [] <==>
      && NewGateHolds(review, holds, lookup, front, raw)
      && Separated(claims + ResultClaims(review, EvidenceOf(lookup, raw)))
  {
  }

  lemma EvidenceOnRecord(review: ResultExaminer, lookup: GateLookup, before: map<string, Results>,
                         front: seq<RawGate>, last: RawGate, results: Results)
    requires forall path :: path in before ==> Examined(review, lookup, front, path, before[path])
    requires lookup(last).Some? && results == Statuses(review, ResultsIn(lookup(last).value.1))
    ensures var after := before[lookup(last).value.0 := results];
      forall path :: path in after ==> Examined(review, lookup, front + [last], path, after[path])
  {
    var after := before[lookup(last).value.0 := results];
    forall path | path in after
      ensures Examined(review, lookup, front + [last], path, after[path])
    {
      if path == lookup(last).value.0 {
        assert last in front + [last];
      } else {
        var raw :| raw in front && lookup(raw).Some? && lookup(raw).value.0 == path
                   && before[path] == Statuses(review, ResultsIn(lookup(raw).value.1));
        assert raw in front + [last];
      }
    }
  }

  lemma CleanGateState(audit: EvidenceAuditor, lookup: GateLookup, s: GateState, raw: RawGate)
    requires raw.RawGate? && Nonblank(raw.gateId) && raw.gateId.text !in s.gates && lookup(raw).Some?
    ensures var examined := ExaminedFor(audit, s, lookup(raw).value.0, lookup(raw).value.1);
      var after := AuditGate(audit, lookup, s, raw);
      && after.gates == s.gates + {raw.gateId.text} && after.owners == examined.owners
      && after.evidence == s.evidence[lookup(raw).value.0 := examined.results]
      && (after.findings == [] ==> examined.findings == [])
  {
  }

  lemma AuditGateRecords(audit: EvidenceAuditor, review: ResultExaminer, lookup: GateLookup, s: GateState,
                         claims: seq<Claim>, front: seq<RawGate>, last: RawGate, examined: ResultState)
    requires GatesOnRecord(review, lookup, s, claims, front)
    requires last.RawGate? && Nonblank(last.gateId) && last.gateId.text !in s.gates && lookup(last).Some?
    requires examined == ExaminedFor(audit, s, lookup(last).value.0, lookup(last).value.1)
    requires examined.results == Statuses(review, ResultsIn(lookup(last).value.1))
    requires Tracks(examined.owners, claims + GateClaims(review, lookup, front + [last]))
    ensures GatesOnRecord(review, lookup, AuditGate(audit, lookup, s, last), claims, front + [last])
  {
    CleanGateState(audit, lookup, s, last);
    GateIdsNext(front, last);
    EvidenceOnRecord(review, lookup, s.evidence, front, last, examined.results);
  }

  /** Findings are never taken back. */
  lemma EarlierFindingsStay(audit: EvidenceAuditor, lookup: GateLookup, s: GateState, raw: RawGate)
    requires AuditGate(audit, lookup, s, raw).findings == []
    ensures s.findings == []
  {
    assert s.findings <= AuditGate(audit, lookup, s, raw).findings;
  }

  lemma SeparatedParts(claims: seq<Claim>, more: seq<Claim>)
    requires Separated(claims + more)
    ensures Separated(claims)
  {
    assert forall c :: c in claims ==> c in claims + more;
  }

  lemma NextGateIff(audit: EvidenceAuditor, review: ResultExaminer, holds: EvidenceTest, lookup: GateLookup,
                    s: GateState, claims: seq<Claim>, front: seq<RawGate>, last: RawGate)
    requires AuditsExactly(audit, review, holds) && OneContent(lookup) && s.findings == []
    requires GatesHold(review, holds, lookup, front) && GatesOnRecord(review, lookup, s, claims, front)
    ensures AuditGate(audit, lookup, s, last).findings == [] <==>
      && NewGateHolds(review, holds, lookup, front, last)
      && Separated(claims + GateClaims(review, lookup, front) + ResultClaims(review, EvidenceOf(lookup, last)))
  {
    if lookup(last).Some? {
      ExaminedExactly(audit, review, holds, lookup, s, claims, front, last);
    }
    AuditGateIff(audit, review, holds, lookup, s, claims + GateClaims(review, lookup, front), front, last);
  }

  lemma NextGateRecords(audit: EvidenceAuditor, review: ResultExaminer, holds: EvidenceTest, lookup: GateLookup,
                        s: GateState, claims: seq<Claim>, front: seq<RawGate>, last: RawGate)
    requires AuditsExactly(audit, review, holds) && OneContent(lookup)
    requires GatesHold(review, holds, lookup, front) && GatesOnRecord(review, lookup, s, claims, front)
    requires NewGateHolds(review, holds, lookup, front, last) && AuditGate(audit, lookup, s, last).findings == []
    ensures GatesOnRecord(review, lookup, AuditGate(audit, lookup, s, last), claims, front + [last])
  {
    ExaminedExactly(audit, review, holds, lookup, s, claims, front, last);
    CleanGateState(audit, lookup, s, last);
    NextGateClaims(review, lookup, claims, front + [last]);
    assert (front + [last])[..|front|] == front;
    AuditGateRecords(audit, review, lookup, s, claims, front, last,
                     ExaminedFor(audit, s, lookup(last).value.0, lookup(last).value.1));
  }

  /** The gate list causes no finding exactly when every gate holds, no two share an identifier, and the sources
      of all results stay apart from each other and from those bound before. */
  lemma {:induction false} GateListCleanIff(audit: EvidenceAuditor, review: ResultExaminer, holds: EvidenceTest,
                                            lookup: GateLookup, owners: Owners, claims: seq<Claim>, raws: seq<RawGate>)
    requires AuditsExactly(audit, review, holds) && OneContent(lookup) && Tracks(owners, claims)
    ensures var s := AuditGateList(audit, lookup, owners, raws);
      && (s.findings == []
          <==> GatesHold(review, holds, lookup, raws) && Separated(claims + GateClaims(review, lookup, raws)))
      && (s.findings == [] ==> GatesOnRecord(review, lookup, s, claims, raws))
  {
    if raws == [] {
      assert claims + [] == claims;
      TrackedClaimsAreSeparated(owners, claims);
    } else {
      var front, last := raws[..|raws| - 1], raws[|raws| - 1];
      var s := AuditGateList(audit, lookup, owners, front);
      GateListCleanIff(audit, review, holds, lookup, owners, claims, front);
      GatesHoldNext(review, holds, lookup, raws);
      assert raws == front + [last];
      NextGateClaims(review, lookup, claims, raws);
      if s.findings == [] {
        NextGateIff(audit, review, holds, lookup, s, claims, front, last);
        if AuditGate(audit, lookup, s, last).findings == [] {
          NextGateRecords(audit, review, holds, lookup, s, claims, front, last);
        }
      } else {
        if AuditGate(audit, lookup, s, last).findings == [] {
          EarlierFindingsStay(audit, lookup, s, last);
        }
        if Separated(claims + GateClaims(review, lookup, raws)) {
          SeparatedParts(claims + GateClaims(review, lookup, front), ResultClaims(review, EvidenceOf(lookup, last)));
        }
      }
    }
  }

  /** The gate audit as a whole, with the sources bound before it: no finding exactly when, besides, the gates
      are those the policy requires. */
  lemma GateAuditCleanIff(repo: Repository, c: Contract, reviewed: Json, owners: Owners, claims: seq<Claim>,
                          raws: seq<RawGate>)
    requires OneContent(GateLookupOf(repo)) && Tracks(owners, claims)
    ensures AuditGates(repo, c, reviewed, owners, Some(raws)).findings == [] <==>
      && raws != [] && GateIds(raws) == RequiredGates(c)
      && GatesHold(ResultExaminerOf(repo, reviewed), HoldingEvidence(repo, reviewed), GateLookupOf(repo), raws)
      && Separated(claims + GateClaims(ResultExaminerOf(repo, reviewed), GateLookupOf(repo), raws))
  {
    AuditorIsExact(repo, reviewed);
    GateListCleanIff(EvidenceAuditorOf(repo, reviewed), ResultExaminerOf(repo, reviewed),
                     HoldingEvidence(repo, reviewed), GateLookupOf(repo), owners, claims, raws);
  }

  // ---------- The audit as a whole ----------

  /** A source that some pass or some gate result is bound to. */
  ghost predicate BoundByPass(repo: Repository, reviewed: Json, raws: seq<RawPass>, c: Claim) {
    exists raw :: raw in raws && ExaminerOf(repo, reviewed)(raw).claim == Some(c)
  }

  ghost predicate BoundByGate(repo: Repository, reviewed: Json, raws: seq<RawGate>, c: Claim) {
    exists raw, result ::
      && raw in raws && GateLookupOf(repo)(raw).Some?
      && result in ResultsIn(GateLookupOf(repo)(raw).value.1)
      && ResultExaminerOf(repo, reviewed)(result).claim == Some(c)
  }

  lemma PassClaimIsListed(review: Examiner, raws: seq<RawPass>, raw: RawPass, claim: Claim)
    requires raw in raws && review(raw).claim == Some(claim)
    ensures claim in PassClaims(review, raws)
  {
    var i :| 0 <= i < |raws| && raws[i] == raw;
    assert PassClaims(review, raws)[i] == claim;
  }

  lemma {:induction false} ResultClaimIsListed(review: ResultExaminer, raws: seq<RawResult>, raw: RawResult,
                                               claim: Claim)
    requires raw in raws && review(raw).claim == Some(claim)
    ensures claim in ResultClaims(review, raws)
  {
    var n := |raws| - 1;
    if raw != raws[n] {
      assert raws == raws[..n] + [raws[n]];
      ResultClaimIsListed(review, raws[..n], raw, claim);
    }
  }

  lemma BoundIsListed(repo: Repository, reviewed: Json, passes: seq<RawPass>, gates: seq<RawGate>, claim: Claim)
    requires BoundByPass(repo, reviewed, passes, claim) || BoundByGate(repo, reviewed, gates, claim)
    ensures claim in PassClaims(ExaminerOf(repo, reviewed), passes)
                     + GateClaims(ResultExaminerOf(repo, reviewed), GateLookupOf(repo), gates)
  {
    if BoundByPass(repo, reviewed, passes, claim) {
      var raw :| raw in passes && ExaminerOf(repo, reviewed)(raw).claim == Some(claim);
      PassClaimIsListed(ExaminerOf(repo, reviewed), passes, raw, claim);
    } else {
      var raw, result :| raw in gates && GateLookupOf(repo)(raw).Some?
                         && result in ResultsIn(GateLookupOf(repo)(raw).value.1)
                         && ResultExaminerOf(repo, reviewed)(result).claim == Some(claim);
      ResultClaimIsListed(ResultExaminerOf(repo, reviewed), EvidenceOf(GateLookupOf(repo), raw), result, claim);
      ClaimsOfGate(ResultExaminerOf(repo, reviewed), GateLookupOf(repo), gates, raw);
    }
  }

  /** When neither the passes nor the gates cause a finding, sources bound for different purposes, be they two
      passes, two gates or a pass and a gate, differ in path and in digest. */
  lemma SourcesAreNotShared(repo: Repository, c: Contract, reviewed: Json, passes: Option<seq<RawPass>>,
                            gates: Option<seq<RawGate>>, a: Claim, b: Claim)
    requires ContractFindings(c) == [] && AuditPasses(repo, c, reviewed, passes).findings == []
    requires AuditGates(repo, c, reviewed, AuditPasses(repo, c, reviewed, passes).owners, gates).findings == []
    requires OneContent(GateLookupOf(repo)) && passes.Some? && gates.Some?
    requires BoundByPass(repo, reviewed, passes.value, a) || BoundByGate(repo, reviewed, gates.value, a)
    requires BoundByPass(repo, reviewed, passes.value, b) || BoundByGate(repo, reviewed, gates.value, b)
    requires a.owner != b.owner
    ensures a.path != b.path && a.digest != b.digest
  {
    CleanPassAudit(repo, c, reviewed, passes);
    GateAuditCleanIff(repo, c, reviewed, AuditPasses(repo, c, reviewed, passes).owners,
                      PassClaims(ExaminerOf(repo, reviewed), passes.value), gates.value);
    BoundIsListed(repo, reviewed, passes.value, gates.value, a);
    BoundIsListed(repo, reviewed, passes.value, gates.value, b);
  }

  /** A gate that passed, with evidence. */
  ghost predicate Passed(lookup: GateLookup, raw: RawGate, id: string) {
    raw.RawGate? && raw.gateId == JString(id) && raw.status == JString("passed") && lookup(raw).Some?
  }

  lemma NewGatePassed(audit: EvidenceAuditor, lookup: GateLookup, s: GateState, raw: RawGate, id: string)
    requires AuditGate(audit, lookup, s, raw).findings == []
    requires id in AuditGate(audit, lookup, s, raw).gates && id !in s.gates
    ensures Passed(lookup, raw, id)
  {
  }

  lemma {:induction false} SeenGatesPassed(audit: EvidenceAuditor, lookup: GateLookup, owners: Owners,
                                           raws: seq<RawGate>, id: string)
    requires AuditGateList(audit, lookup, owners, raws).findings == []
    requires id in AuditGateList(audit, lookup, owners, raws).gates
    ensures exists raw :: raw in raws && Passed(lookup, raw, id)
  {
    var front, last := raws[..|raws| - 1], raws[|raws| - 1];
    var s := AuditGateList(audit, lookup, owners, front);
    assert last in raws && forall raw :: raw in front ==> raw in raws;
    EarlierFindingsStay(audit, lookup, s, last);
    if id in s.gates {
      SeenGatesPassed(audit, lookup, owners, front, id);
    } else {
      NewGatePassed(audit, lookup, s, last, id);
    }
  }

  /** Under a sound contract, a gate audit without findings has seen every mandatory gate pass. */
  lemma MandatoryGatesPassed(repo: Repository, c: Contract, reviewed: Json, owners: Owners, raws: Option<seq<RawGate>>,
                             id: string)
    requires ContractFindings(c) == [] && AuditGates(repo, c, reviewed, owners, raws).findings == []
    requires id in MANDATORY_GATES
    ensures raws.Some? && exists raw :: raw in raws.value && Passed(GateLookupOf(repo), raw, id)
  {
    RequiredIncludesMandatory(c, id);
    SeenGatesPassed(EvidenceAuditorOf(repo, reviewed), GateLookupOf(repo), owners, raws.value, id);
  }

  lemma RequiredIncludesMandatory(c: Contract, id: string)
    requires ContractFindings(c) == [] && id in MANDATORY_GATES
    ensures id in RequiredGates(c)
  {
    assert CanonicalStrings(c.qualityGates).Some?;
    assert MANDATORY_GATES <= Elements(CanonicalStrings(c.qualityGates).value);
  }
}
