/** The audit of the candidate union: every candidate is disposed of, and the passes' candidate counts are
    exactly the union's. */
module AssuranceUnion {
  import opened Base
  import opened Ordering
  import opened Text
  import opened AssuranceAudit
  import opened AssuranceAuditLaws

  const UNION_SCHEMA := JString("constructionsight.assurance-candidate-union/v1")
  const SEVERITIES := {"P0", "P1", "P2", "P3", "informational"}

  datatype RawCandidate =
    | CandidateNotAnObject
    | RawCandidate(
        exactFields: bool,
        id: Json,
        sources: Option<seq<Json>>,
        severity: Json,
        disposition: Json,
        rationale: Json,
        resolutionCommit: Json,
        evidencePaths: Option<seq<Json>>)

  datatype UnionEvidence = UnionEvidence(
    exactFields: bool,
    schema: Json,
    reviewedCommit: Json,
    blind: Json,
    sourcePassIds: Option<seq<Json>>,
    coverageComplete: Json,
    gaps: Option<nat>,
    candidates: Option<seq<RawCandidate>>)

  datatype UnionReference =
    | ReferenceNotAnObject
    | UnionReference(exactFields: bool, path: Json, digest: Json)

  /** The working tree for the union: its artifact, the commits that resolve candidates within the reviewed
      history, and the files that exist. */
  datatype Workspace = Workspace(
    unions: string -> Option<Retained<UnionEvidence>>,
    inHistory: (string, Json) -> bool,
    present: string -> bool)

  predicate CommitText(s: string) {
    |s| == 40 && forall i :: 0 <= i < 40 ==> LowerHex(s[i])
  }

  /** The passes a candidate is attributed to, when they are named properly. */
  function SourcesOf(raw: RawCandidate, passes: set<string>): Option<seq<string>>
    requires raw.RawCandidate?
  {
    var sources := CanonicalStrings(raw.sources);
    if sources.Some? && Elements(sources.value) <= passes then sources else None
  }

  function DispositionFindings(w: Workspace, raw: RawCandidate, reviewed: Json): seq<Finding>
    requires raw.RawCandidate?
  {
    var resolved := raw.disposition == JString("resolved");
    Note(!resolved && raw.disposition != JString("rejected"), Finding(12, "disposition"))
    + Note(!Nonblank(raw.rationale), Finding(11, "rationale"))
    + Note(resolved && !(raw.resolutionCommit.JString? && CommitText(raw.resolutionCommit.text)
                         && w.inHistory(raw.resolutionCommit.text, reviewed)), Finding(12, "resolution"))
    + Note(!resolved && raw.resolutionCommit != JNull, Finding(11, "resolution"))
  }

  function PathFindings(w: Workspace, values: Option<seq<Json>>): seq<Finding> {
    match CanonicalStrings(values)
    case None => [Finding(12, "paths")]
    case Some(paths) => Note(exists p :: p in paths && !w.present(p), Finding(12, "paths"))
  }

  datatype UnionState = UnionState(findings: seq<Finding>, seen: set<string>, counts: multiset<string>)

  /** The findings about a candidate, its identifier apart. */
  function CandidateFindings(w: Workspace, raw: RawCandidate, passes: set<string>, reviewed: Json): seq<Finding>
    requires raw.RawCandidate?
  {
    Note(!raw.exactFields, Finding(11, "fields"))
    + Note(SourcesOf(raw, passes) == None, Finding(13, "sources"))
    + Note(!raw.severity.JString? || raw.severity.text !in SEVERITIES, Finding(11, "severity"))
    + DispositionFindings(w, raw, reviewed) + PathFindings(w, raw.evidencePaths)
  }

  /** What a candidate amounts to: its identifier, if well formed, its sources, and its own findings. */
  datatype CandidateReview = CandidateReview(id: Option<string>, sources: seq<string>, findings: seq<Finding>)

  type CandidateExaminer = RawCandidate -> CandidateReview

  function ReviewCandidate(w: Workspace, passes: set<string>, reviewed: Json, raw: RawCandidate): CandidateReview {
    if raw.CandidateNotAnObject? then CandidateReview(None, [], [Finding(11, "candidate")])
    else
      var sources := SourcesOf(raw, passes);
      CandidateReview(
        if raw.id.JString? && CandidateIdText(raw.id.text) then Some(raw.id.text) else None,
        if sources.Some? then sources.value else [],
        CandidateFindings(w, raw, passes, reviewed)
        + Note(!(raw.id.JString? && CandidateIdText(raw.id.text)), Finding(11, "id")))
  }

  function CandidateExaminerOf(w: Workspace, passes: set<string>, reviewed: Json): CandidateExaminer {
    raw => ReviewCandidate(w, passes, reviewed, raw)
  }

  /** A repeated identifier is reported, but the candidate still counts for its sources. */
  function AuditCandidate(review: CandidateExaminer, s: UnionState, raw: RawCandidate): UnionState {
    var r := review(raw);
    UnionState(
      s.findings + r.findings + Note(r.id.Some? && r.id.value in s.seen, Finding(11, "id")),
      if r.id.Some? then s.seen + {r.id.value} else s.seen,
      s.counts + multiset(r.sources))
  }

  const NO_CANDIDATES := UnionState([], {}, multiset{})

  function AuditCandidates(review: CandidateExaminer, raws: seq<RawCandidate>): UnionState {
    if raws == [] then NO_CANDIDATES
    else AuditCandidate(review, AuditCandidates(review, raws[..|raws| - 1]), raws[|raws| - 1])
  }

  function CountFindings(counts: multiset<string>, passes: seq<(string, RawPass)>): seq<Finding> {
    if passes == [] then []
    else
      var last := passes[|passes| - 1];
      CountFindings(counts, passes[..|passes| - 1])
      + Note(last.1.RawPass? && NonnegativeInteger(last.1.facts.candidateCount)
             && last.1.facts.candidateCount.number != counts[last.0], Finding(13, last.0))
  }

  function UnionFindings(u: UnionEvidence, passes: set<string>, reviewed: Json): seq<Finding> {
    Note(!u.exactFields, Finding(11, "union")) + Note(u.schema != UNION_SCHEMA, Finding(11, "union"))
    + Note(u.reviewedCommit != reviewed, Finding(13, "union")) + Note(u.blind != JBool(true), Finding(12, "union"))
    + Note(u.coverageComplete != JBool(true) || u.gaps != Some(0), Finding(12, "union"))
    + Note(CanonicalStrings(u.sourcePassIds) == None || Elements(CanonicalStrings(u.sourcePassIds).value) != passes,
           Finding(13, "union"))
  }

  /** The artifact's statements, its candidates, and the passes' counts against the candidates' sources. */
  function AuditUnionArtifact(w: Workspace, u: UnionEvidence, passes: seq<(string, RawPass)>, reviewed: Json)
    : seq<Finding>
  {
    if u.candidates == None then UnionFindings(u, Ids(passes), reviewed) + [Finding(11, "union")]
    else
      var s := AuditCandidates(CandidateExaminerOf(w, Ids(passes), reviewed), u.candidates.value);
      UnionFindings(u, Ids(passes), reviewed) + s.findings + CountFindings(s.counts, passes)
  }

  function AuditUnion(w: Workspace, reference: UnionReference, passes: seq<(string, RawPass)>, reviewed: Json)
    : seq<Finding>
  {
    if reference.ReferenceNotAnObject? then [Finding(11, "union")]
    else
      var first := Note(!reference.exactFields, Finding(11, "union"));
      match Artifact(w.unions, reference.path, reference.digest)
      case None => first + [Finding(10, "union")]
      case Some((_, u)) => first + AuditUnionArtifact(w, u, passes, reviewed)
  }

  /** The candidate loop, with the set of identifiers and the counter it updates. */
  method AuditCandidateLoop(review: CandidateExaminer, raws: seq<RawCandidate>) returns (s: UnionState)
    ensures s == AuditCandidates(review, raws)
  {
    var findings: seq<Finding> := [];
    var seen: set<string> := {};
    var counts: multiset<string> := multiset{};
    for index := 0 to |raws|
      invariant UnionState(findings, seen, counts) == AuditCandidates(review, raws[..index])
    {
      assert raws[..index + 1][..index] == raws[..index];
      var r := review(raws[index]);
      findings := findings + r.findings + Note(r.id.Some? && r.id.value in seen, Finding(11, "id"));
      if r.id.Some? { seen := seen + {r.id.value}; }
      counts := counts + multiset(r.sources);
    }
    assert raws[..|raws|] == raws;
    s := UnionState(findings, seen, counts);
  }

  // ---------- When the union causes no finding ----------

  /** Every candidate is clean, and no identifier is used twice. */
  ghost predicate CandidatesHold(review: CandidateExaminer, raws: seq<RawCandidate>) {
    (forall i :: 0 <= i < |raws| ==> review(raws[i]).findings == []) && OwnIds(review, raws)
  }

  ghost function IdsSeen(review: CandidateExaminer, raws: seq<RawCandidate>): set<string> {
    set raw | raw in raws && review(raw).id.Some? :: review(raw).id.value
  }

  lemma {:induction false} SeenAreIds(review: CandidateExaminer, raws: seq<RawCandidate>)
    ensures AuditCandidates(review, raws).seen == IdsSeen(review, raws)
  {
    if raws != [] {
      assert raws == raws[..|raws| - 1] + [raws[|raws| - 1]];
      SeenAreIds(review, raws[..|raws| - 1]);
    }
  }

  /** No two candidates share an identifier. */
  ghost predicate OwnIds(review: CandidateExaminer, raws: seq<RawCandidate>) {
    forall i, j :: 0 <= i < j < |raws| && review(raws[i]).id.Some? ==> review(raws[j]).id != review(raws[i]).id
  }

  lemma OwnIdsNextIff(review: CandidateExaminer, front: seq<RawCandidate>, last: RawCandidate)
    ensures OwnIds(review, front + [last])
        <==> OwnIds(review, front) && (review(last).id.Some? ==> review(last).id.value !in IdsSeen(review, front))
  {
    var all := front + [last];
    assert forall i :: 0 <= i < |front| ==> all[i] == front[i];
    assert all[|front|] == last;
    if OwnIds(review, all) {
      forall raw | raw in front && review(raw).id.Some?
        ensures review(raw).id != review(last).id
      {
        var i :| 0 <= i < |front| && front[i] == raw;
        assert all[i] == raw;
      }
    } else if OwnIds(review, front) {
      var i, j :| 0 <= i < j < |all| && review(all[i]).id.Some? && review(all[j]).id == review(all[i]).id;
      assert j == |front| && all[i] in front;
    }
  }

  /** The candidate list causes no finding exactly when every candidate is clean and no two share an
      identifier. */
  lemma {:induction false} CandidatesCleanIff(review: CandidateExaminer, raws: seq<RawCandidate>)
    ensures AuditCandidates(review, raws).findings == [] <==> CandidatesHold(review, raws)
  {
    if raws != [] {
      var front, last := raws[..|raws| - 1], raws[|raws| - 1];
      assert raws == front + [last];
      CandidatesCleanIff(review, front);
      SeenAreIds(review, front);
      OwnIdsNextIff(review, front, last);
    }
  }

  /** Every count a pass declares is its share of the candidates. */
  ghost predicate SharesAgree(counts: multiset<string>, passes: seq<(string, RawPass)>) {
    forall i :: 0 <= i < |passes| && passes[i].1.RawPass? && NonnegativeInteger(passes[i].1.facts.candidateCount) ==>
      passes[i].1.facts.candidateCount.number == counts[passes[i].0]
  }

  lemma {:induction false} CountsCleanIff(counts: multiset<string>, passes: seq<(string, RawPass)>)
    ensures CountFindings(counts, passes) == [] <==> SharesAgree(counts, passes)
  {
    if passes != [] {
      var n := |passes| - 1;
      assert forall i :: 0 <= i < n ==> passes[..n][i] == passes[i];
      CountsCleanIff(counts, passes[..n]);
    }
  }

  /** The union's own statements: blind, complete, of the reviewed commit, over exactly the passes. */
  ghost predicate StatementsHold(u: UnionEvidence, passes: set<string>, reviewed: Json) {
    && u.exactFields && u.schema == UNION_SCHEMA && u.reviewedCommit == reviewed && u.blind == JBool(true)
    && u.coverageComplete == JBool(true) && u.gaps == Some(0)
    && CanonicalStrings(u.sourcePassIds).Some? && Elements(CanonicalStrings(u.sourcePassIds).value) == passes
  }

  /** The artifact's statements, candidates and shares. */
  ghost predicate UnionHolds(w: Workspace, u: UnionEvidence, passes: seq<(string, RawPass)>, reviewed: Json) {
    && StatementsHold(u, Ids(passes), reviewed) && u.candidates.Some?
    && CandidatesHold(CandidateExaminerOf(w, Ids(passes), reviewed), u.candidates.value)
    && SharesAgree(AuditCandidates(CandidateExaminerOf(w, Ids(passes), reviewed), u.candidates.value).counts, passes)
  }

  lemma UnionHoldsIff(w: Workspace, u: UnionEvidence, passes: seq<(string, RawPass)>, reviewed: Json)
    ensures AuditUnionArtifact(w, u, passes, reviewed) == [] <==> UnionHolds(w, u, passes, reviewed)
  {
    if u.candidates.Some? {
      var review := CandidateExaminerOf(w, Ids(passes), reviewed);
      StatementsCleanIff(u, Ids(passes), reviewed);
      CandidatesCleanIff(review, u.candidates.value);
      CountsCleanIff(AuditCandidates(review, u.candidates.value).counts, passes);
    }
  }

  /** The union audit finds nothing exactly when the reference leads to an artifact that states what it must,
      whose candidates are clean under identifiers of their own, and whose shares are the declared counts. */
  lemma UnionCleanIff(w: Workspace, reference: UnionReference, passes: seq<(string, RawPass)>, reviewed: Json)
    ensures AuditUnion(w, reference, passes, reviewed) == [] <==>
      && reference.UnionReference? && reference.exactFields
      && Artifact(w.unions, reference.path, reference.digest).Some?
      && UnionHolds(w, Artifact(w.unions, reference.path, reference.digest).value.1, passes, reviewed)
  {
    if reference.UnionReference? && Artifact(w.unions, reference.path, reference.digest).Some? {
      UnionHoldsIff(w, Artifact(w.unions, reference.path, reference.digest).value.1, passes, reviewed);
    }
  }

  lemma StatementsCleanIff(u: UnionEvidence, passes: set<string>, reviewed: Json)
    ensures UnionFindings(u, passes, reviewed) == [] <==> StatementsHold(u, passes, reviewed)
  {
  }

  // ---------- Double counting ----------

  ghost function DeclaredBy(p: (string, RawPass)): nat {
    if p.1.RawPass? && NonnegativeInteger(p.1.facts.candidateCount) then p.1.facts.candidateCount.number else 0
  }

  /** Memberships of the candidates in the passes. */
  ghost function Memberships(review: CandidateExaminer, raws: seq<RawCandidate>): nat {
    if raws == [] then 0
    else Memberships(review, raws[..|raws| - 1]) + |review(raws[|raws| - 1]).sources|
  }

  ghost function Declared(passes: seq<(string, RawPass)>): nat {
    if passes == [] then 0 else Declared(passes[..|passes| - 1]) + DeclaredBy(passes[|passes| - 1])
  }

  lemma {:induction false} CountsAreMemberships(review: CandidateExaminer, raws: seq<RawCandidate>)
    ensures |AuditCandidates(review, raws).counts| == Memberships(review, raws)
  {
    if raws != [] {
      CountsAreMemberships(review, raws[..|raws| - 1]);
    }
  }

  ghost predicate SourcesWithin(review: CandidateExaminer, passes: set<string>) {
    forall raw, p :: p in review(raw).sources ==> p in passes
  }

  lemma SourcesAreWithin(w: Workspace, passes: set<string>, reviewed: Json)
    ensures SourcesWithin(CandidateExaminerOf(w, passes, reviewed), passes)
  {
    var review := CandidateExaminerOf(w, passes, reviewed);
    forall raw, p | p in review(raw).sources
      ensures p in passes
    {
      assert p in Elements(SourcesOf(raw, passes).value);
    }
  }

  lemma {:induction false} CountedAreWithin(review: CandidateExaminer, raws: seq<RawCandidate>, passes: set<string>)
    requires SourcesWithin(review, passes)
    ensures forall p :: p in AuditCandidates(review, raws).counts ==> p in passes
  {
    if raws != [] {
      CountedAreWithin(review, raws[..|raws| - 1], passes);
      forall p | p in multiset(review(raws[|raws| - 1]).sources)
        ensures p in passes
      {
        assert p in review(raws[|raws| - 1]).sources;
      }
    }
  }

  lemma IdsNext(passes: seq<(string, RawPass)>)
    requires passes != []
    ensures Ids(passes) == Ids(passes[..|passes| - 1]) + {passes[|passes| - 1].0}
    ensures OnlyIds(passes) ==>
      OnlyIds(passes[..|passes| - 1]) && passes[|passes| - 1].0 !in Ids(passes[..|passes| - 1])
  {
    var n := |passes| - 1;
    assert passes == passes[..n] + [passes[n]];
    if OnlyIds(passes) {
      OnlyIdsLast(passes);
    }
  }

  /** Counting the memberships by pass: each pass's declared count is its share. */
  lemma {:induction false} SharesAddUp(counts: multiset<string>, passes: seq<(string, RawPass)>)
    requires OnlyIds(passes) && forall p :: p in counts ==> p in Ids(passes)
    requires forall i :: 0 <= i < |passes| ==> DeclaredBy(passes[i]) == counts[passes[i].0]
    ensures Declared(passes) == |counts|
    decreases |passes|
  {
    if passes == [] {
      assert Ids(passes) == {};
      assert counts == multiset{};
    } else {
      var n := |passes| - 1;
      var rest := counts[passes[n].0 := 0];
      IdsNext(passes);
      forall p | p in rest
        ensures p in Ids(passes[..n])
      {
        assert p in counts && p != passes[n].0;
      }
      forall i | 0 <= i < n
        ensures DeclaredBy(passes[..n][i]) == rest[passes[..n][i].0]
      {
        assert passes[..n][i] == passes[i] && passes[i].0 != passes[n].0;
      }
      SharesAddUp(rest, passes[..n]);
      assert |counts| == |rest| + counts[passes[n].0];
    }
  }

  ghost function UnionCandidates(w: Workspace, reference: UnionReference): seq<RawCandidate>
    requires reference.UnionReference? && Artifact(w.unions, reference.path, reference.digest).Some?
    requires Artifact(w.unions, reference.path, reference.digest).value.1.candidates.Some?
  {
    Artifact(w.unions, reference.path, reference.digest).value.1.candidates.value
  }

  /** With clean passes and a clean union, the candidate counts the passes declare add up to the memberships
      of the candidates in the passes: nothing is dropped and nothing is counted for an unknown pass. */
  lemma DeclaredCountsAreMemberships(w: Workspace, reference: UnionReference, passes: seq<(string, RawPass)>,
                                     reviewed: Json)
    requires AuditUnion(w, reference, passes, reviewed) == [] && OnlyIds(passes)
    requires forall i :: 0 <= i < |passes| ==>
      passes[i].1.RawPass? && NonnegativeInteger(passes[i].1.facts.candidateCount)
    ensures reference.UnionReference? && Artifact(w.unions, reference.path, reference.digest).Some?
    ensures Artifact(w.unions, reference.path, reference.digest).value.1.candidates.Some?
    ensures Declared(passes)
         == Memberships(CandidateExaminerOf(w, Ids(passes), reviewed), UnionCandidates(w, reference))
  {
    UnionCleanIff(w, reference, passes, reviewed);
    var review, raws := CandidateExaminerOf(w, Ids(passes), reviewed), UnionCandidates(w, reference);
    var counts := AuditCandidates(review, raws).counts;
    SourcesAreWithin(w, Ids(passes), reviewed);
    CountedAreWithin(review, raws, Ids(passes));
    CountsAreMemberships(review, raws);
    assert SharesAgree(counts, passes);
    SharesAddUp(counts, passes);
  }

  /** The same from the audits alone: passes that audit clean declare counts that add up. */
  lemma CleanAuditCountsAddUp(repo: Repository, c: Contract, w: Workspace, reviewed: Json, raws: Option<seq<RawPass>>,
                              reference: UnionReference)
    requires ContractFindings(c) == [] && AuditPasses(repo, c, reviewed, raws).findings == []
    requires AuditUnion(w, reference, AuditPasses(repo, c, reviewed, raws).passes, reviewed) == []
    ensures reference.UnionReference? && Artifact(w.unions, reference.path, reference.digest).Some?
    ensures Artifact(w.unions, reference.path, reference.digest).value.1.candidates.Some?
    ensures var passes := AuditPasses(repo, c, reviewed, raws).passes;
      Declared(passes)
      == Memberships(CandidateExaminerOf(w, Ids(passes), reviewed), UnionCandidates(w, reference))
  {
    var passes := AuditPasses(repo, c, reviewed, raws).passes;
    CleanPassAudit(repo, c, reviewed, raws);
    CleanPassesDeclare(repo, reviewed, raws.value, passes);
    DeclaredCountsAreMemberships(w, reference, passes, reviewed);
  }

  lemma CleanPassesDeclare(repo: Repository, reviewed: Json, raws: seq<RawPass>, passes: seq<(string, RawPass)>)
    requires PassesHold(ExaminerOf(repo, reviewed), raws)
    requires passes == Paired(PassIds(ExaminerOf(repo, reviewed), raws), raws)
    ensures forall i :: 0 <= i < |passes| ==>
      passes[i].1.RawPass? && NonnegativeInteger(passes[i].1.facts.candidateCount)
  {
    forall i | 0 <= i < |passes|
      ensures passes[i].1.RawPass? && NonnegativeInteger(passes[i].1.facts.candidateCount)
    {
      assert passes[i].1 == raws[i] && ExaminerOf(repo, reviewed)(raws[i]).findings == [];
      CleanReviewFacts(repo, reviewed, raws[i]);
    }
  }
}
