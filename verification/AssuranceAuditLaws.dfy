/** Exactly when the audit of analytical passes finds nothing, and what that guarantees. */
module AssuranceAuditLaws {
  import opened Base
  import opened Ordering
  import opened Text
  import opened AssuranceAudit

  // ---------- Ownership ----------

  /** Claims by different owners share neither a path nor a digest. */
  ghost predicate Separated(claims: seq<Claim>) {
    forall a, b :: a in claims && b in claims && a.owner != b.owner ==> a.path != b.path && a.digest != b.digest
  }

  ghost predicate Records(owners: Owners, c: Claim) {
    && PathIdentity(c.path) in owners && owners[PathIdentity(c.path)] == c.owner
    && DigestIdentity(c.digest) in owners && owners[DigestIdentity(c.digest)] == c.owner
  }

  ghost predicate ClaimedIn(claims: seq<Claim>, id: Identity, owner: Owner) {
    exists c :: c in claims && c.owner == owner && (id == PathIdentity(c.path) || id == DigestIdentity(c.digest))
  }

  /** The dictionary holds the claims made so far, and nothing else. */
  ghost predicate Tracks(owners: Owners, claims: seq<Claim>) {
    && (forall c :: c in claims ==> Records(owners, c))
    && forall id :: id in owners ==> ClaimedIn(claims, id, owners[id])
  }

  lemma TrackedClaimsAreSeparated(owners: Owners, claims: seq<Claim>)
    requires forall c :: c in claims ==> Records(owners, c)
    ensures Separated(claims)
  {
  }

  /** A claim is registered without a finding exactly when it keeps the claims separated. */
  lemma ClaimIff(owners: Owners, claims: seq<Claim>, c: Claim)
    requires Tracks(owners, claims)
    ensures ClaimFindings(owners, c) == [] <==> Separated(claims + [c])
    ensures ClaimFindings(owners, c) == [] ==> Tracks(Claimed(owners, c), claims + [c])
  {
    var all := claims + [c];
    assert c in all && forall a :: a in claims ==> a in all;
    TrackedClaimsAreSeparated(owners, claims);
    if Separated(all) {
      forall id | id in {PathIdentity(c.path), DigestIdentity(c.digest)} && id in owners
        ensures owners[id] == c.owner
      {
        assert ClaimedIn(claims, id, owners[id]);
      }
      assert PathIdentity(c.path) in {PathIdentity(c.path), DigestIdentity(c.digest)};
      assert DigestIdentity(c.digest) in {PathIdentity(c.path), DigestIdentity(c.digest)};
    }
    if ClaimFindings(owners, c) == [] {
      ClaimTracks(owners, claims, c);
    }
  }

  lemma ClaimTracks(owners: Owners, claims: seq<Claim>, c: Claim)
    requires Tracks(owners, claims) && ClaimFindings(owners, c) == []
    ensures Tracks(Claimed(owners, c), claims + [c]) && Separated(claims + [c])
  {
    var all, after := claims + [c], Claimed(owners, c);
    forall a | a in all
      ensures Records(after, a)
    {
      assert a in claims || a == c;
    }
    forall id | id in after
      ensures ClaimedIn(all, id, after[id])
    {
      if id in owners {
        assert ClaimedIn(claims, id, owners[id]);
        var a :| a in claims && a.owner == owners[id] && (id == PathIdentity(a.path) || id == DigestIdentity(a.digest));
        assert a in all;
      } else {
        assert c in all;
      }
    }
    TrackedClaimsAreSeparated(after, all);
  }

  lemma SeparatedPrefix(claims: seq<Claim>, c: Claim)
    requires Separated(claims + [c])
    ensures Separated(claims)
  {
    assert forall a :: a in claims ==> a in claims + [c];
  }

  // ---------- The pass list ----------

  /** A review without findings has an identifier, an evidence artifact, and a claim of its own. */
  ghost predicate Regular(review: Examiner) {
    forall raw :: review(raw).findings == [] ==> RegularReview(review(raw))
  }

  ghost predicate RegularReview(r: PassReview) {
    r.id.Some? && r.evidencePath.Some? && r.claim.Some? && r.claim.value.owner == PassOwner(r.id.value)
  }

  lemma ReviewIsRegular(repo: Repository, reviewed: Json, raw: RawPass)
    requires ReviewPass(repo, reviewed, raw).findings == []
    ensures RegularReview(ReviewPass(repo, reviewed, raw))
  {
  }

  lemma ExaminerIsRegular(repo: Repository, reviewed: Json)
    ensures Regular(ExaminerOf(repo, reviewed))
  {
    var review := ExaminerOf(repo, reviewed);
    forall raw | review(raw).findings == []
      ensures RegularReview(review(raw))
    {
      ReviewIsRegular(repo, reviewed, raw);
    }
  }

  ghost function PassIds(review: Examiner, raws: seq<RawPass>): seq<string> {
    seq(|raws|, i requires 0 <= i < |raws| => if review(raws[i]).id.Some? then review(raws[i]).id.value else "")
  }

  ghost function EvidencePaths(review: Examiner, raws: seq<RawPass>): seq<string> {
    seq(|raws|, i requires 0 <= i < |raws| =>
      if review(raws[i]).evidencePath.Some? then review(raws[i]).evidencePath.value else "")
  }

  ghost function PassClaims(review: Examiner, raws: seq<RawPass>): seq<Claim> {
    seq(|raws|, i requires 0 <= i < |raws| =>
      if review(raws[i]).claim.Some? then review(raws[i]).claim.value else Claim(PassOwner(""), "", ""))
  }

  /** Every record is clean, and identifiers, evidence artifacts and sources are each used by one pass. */
  ghost predicate PassesHold(review: Examiner, raws: seq<RawPass>) {
    && (forall i :: 0 <= i < |raws| ==> review(raws[i]).findings == [])
    && Distinct(PassIds(review, raws)) && Distinct(EvidencePaths(review, raws))
    && Separated(PassClaims(review, raws))
  }

  ghost function Paired(ids: seq<string>, raws: seq<RawPass>): seq<(string, RawPass)>
    requires |ids| == |raws|
  {
    seq(|ids|, i requires 0 <= i < |ids| => (ids[i], raws[i]))
  }

  ghost predicate StateHolds(s: PassState, review: Examiner, raws: seq<RawPass>) {
    && s.passes == Paired(PassIds(review, raws), raws)
    && s.evidence.Keys == Elements(EvidencePaths(review, raws))
    && Tracks(s.owners, PassClaims(review, raws))
  }

  lemma DistinctLast<T>(front: seq<T>, x: T)
    ensures Distinct(front + [x]) <==> Distinct(front) && x !in front
    ensures Elements(front + [x]) == Elements(front) + {x}
  {
    var all := front + [x];
    assert forall y :: y in all <==> y in front || y == x;
    if Distinct(all) {
      forall i, j | 0 <= i < j < |front|
        ensures front[i] != front[j]
      {
        assert all[i] != all[j];
      }
      forall i | 0 <= i < |front|
        ensures front[i] != x
      {
        assert all[i] != all[|front|];
      }
    }
  }

  lemma ListsNext(review: Examiner, raws: seq<RawPass>)
    requires raws != [] && RegularReview(review(raws[|raws| - 1]))
    ensures var front, r := raws[..|raws| - 1], review(raws[|raws| - 1]);
      && PassIds(review, raws) == PassIds(review, front) + [r.id.value]
      && EvidencePaths(review, raws) == EvidencePaths(review, front) + [r.evidencePath.value]
      && PassClaims(review, raws) == PassClaims(review, front) + [r.claim.value]
  {
    assert forall i :: 0 <= i < |raws| - 1 ==> raws[..|raws| - 1][i] == raws[i];
  }

  /** A further record is fine when it is clean and brings a new identifier, evidence artifact and source. */
  ghost predicate NextHolds(review: Examiner, front: seq<RawPass>, raw: RawPass) {
    var r := review(raw);
    && r.findings == [] && RegularReview(r)
    && r.id.value !in PassIds(review, front) && r.evidencePath.value !in EvidencePaths(review, front)
    && Separated(PassClaims(review, front) + [r.claim.value])
  }

  lemma HoldsNextIff(review: Examiner, raws: seq<RawPass>)
    requires raws != [] && Regular(review)
    ensures PassesHold(review, raws)
        <==> PassesHold(review, raws[..|raws| - 1]) && NextHolds(review, raws[..|raws| - 1], raws[|raws| - 1])
  {
    var front, last := raws[..|raws| - 1], raws[|raws| - 1];
    assert forall i :: 0 <= i < |front| ==> front[i] == raws[i];
    if review(last).findings == [] {
      ListsNext(review, raws);
      DistinctLast(PassIds(review, front), review(last).id.value);
      DistinctLast(EvidencePaths(review, front), review(last).evidencePath.value);
      if Separated(PassClaims(review, raws)) {
        SeparatedPrefix(PassClaims(review, front), review(last).claim.value);
      }
    }
  }

  lemma KnownIds(s: PassState, review: Examiner, raws: seq<RawPass>, id: string)
    requires StateHolds(s, review, raws)
    ensures id in Ids(s.passes) <==> id in PassIds(review, raws)
  {
    if id in Ids(s.passes) {
      var p :| p in s.passes && p.0 == id;
      var i :| 0 <= i < |s.passes| && s.passes[i] == p;
      assert PassIds(review, raws)[i] == id;
    }
    if id in PassIds(review, raws) {
      var i :| 0 <= i < |raws| && PassIds(review, raws)[i] == id;
      assert s.passes[i] in s.passes;
    }
  }

  lemma AuditPassIff(review: Examiner, s: PassState, front: seq<RawPass>, raw: RawPass)
    requires Regular(review) && StateHolds(s, review, front) && s.findings == []
    ensures AuditPass(review, s, raw).findings == [] <==> NextHolds(review, front, raw)
  {
    var r := review(raw);
    if r.id.Some? { KnownIds(s, review, front, r.id.value); }
    if r.claim.Some? { ClaimIff(s.owners, PassClaims(review, front), r.claim.value); }
    assert r.evidencePath.Some? ==>
        (r.evidencePath.value in s.evidence <==> r.evidencePath.value in EvidencePaths(review, front));
  }

  lemma AuditPassAdvances(review: Examiner, s: PassState, raw: RawPass)
    requires RegularReview(review(raw)) && review(raw).id.value !in Ids(s.passes)
    ensures var r, after := review(raw), AuditPass(review, s, raw);
      && after.passes == s.passes + [(r.id.value, raw)]
      && after.evidence == s.evidence[r.evidencePath.value := r.id.value]
      && after.owners == Claimed(s.owners, r.claim.value)
  {
  }

  lemma StateExtends(review: Examiner, s: PassState, after: PassState, raws: seq<RawPass>)
    requires raws != [] && StateHolds(s, review, raws[..|raws| - 1]) && RegularReview(review(raws[|raws| - 1]))
    requires var r := review(raws[|raws| - 1]);
      && after.passes == s.passes + [(r.id.value, raws[|raws| - 1])]
      && after.evidence == s.evidence[r.evidencePath.value := r.id.value]
      && Tracks(after.owners, PassClaims(review, raws[..|raws| - 1]) + [r.claim.value])
    ensures StateHolds(after, review, raws)
  {
    var front, raw := raws[..|raws| - 1], raws[|raws| - 1];
    var r := review(raw);
    ListsNext(review, raws);
    DistinctLast(EvidencePaths(review, front), r.evidencePath.value);
    PairedNext(PassIds(review, front), front, r.id.value, raw);
    assert front + [raw] == raws;
  }

  lemma AuditPassKeeps(review: Examiner, s: PassState, raws: seq<RawPass>)
    requires raws != [] && StateHolds(s, review, raws[..|raws| - 1])
    requires s.findings == [] && NextHolds(review, raws[..|raws| - 1], raws[|raws| - 1])
    ensures StateHolds(AuditPass(review, s, raws[|raws| - 1]), review, raws)
  {
    var front, raw := raws[..|raws| - 1], raws[|raws| - 1];
    var r := review(raw);
    KnownIds(s, review, front, r.id.value);
    ClaimIff(s.owners, PassClaims(review, front), r.claim.value);
    AuditPassAdvances(review, s, raw);
    StateExtends(review, s, AuditPass(review, s, raw), raws);
  }

  lemma PairedNext(ids: seq<string>, raws: seq<RawPass>, id: string, raw: RawPass)
    requires |ids| == |raws|
    ensures Paired(ids + [id], raws + [raw]) == Paired(ids, raws) + [(id, raw)]
  {
  }

  /** Findings are never taken back. */
  lemma FindingsStay(review: Examiner, s: PassState, raw: RawPass)
    ensures s.findings <= AuditPass(review, s, raw).findings
  {
  }

  /** The pass list causes no finding exactly when every record is clean and no two passes share an
      identifier, an evidence artifact, or the path or digest of a source. */
  lemma {:induction false} PassListCleanIff(review: Examiner, raws: seq<RawPass>)
    requires Regular(review)
    ensures AuditPassList(review, raws).findings == [] <==> PassesHold(review, raws)
    ensures PassesHold(review, raws) ==> StateHolds(AuditPassList(review, raws), review, raws)
  {
    if raws == [] {
      assert PassesHold(review, raws);
    } else {
      var front, last := raws[..|raws| - 1], raws[|raws| - 1];
      var s := AuditPassList(review, front);
      PassListCleanIff(review, front);
      HoldsNextIff(review, raws);
      FindingsStay(review, s, last);
      if s.findings == [] {
        AuditPassIff(review, s, front, last);
        if NextHolds(review, front, last) {
          AuditPassKeeps(review, s, raws);
        }
      }
    }
  }

  // ---------- What a clean pass audit guarantees ----------

  ghost predicate OnlyIds(passes: seq<(string, RawPass)>) {
    forall i, j :: 0 <= i < j < |passes| ==> passes[i].0 != passes[j].0
  }

  ghost predicate OfKind(p: (string, RawPass), wanted: Json -> bool) {
    p.1.RawPass? && wanted(p.1.facts.kind)
  }

  ghost function IdsOfKind(passes: seq<(string, RawPass)>, wanted: Json -> bool): set<string> {
    set p | p in passes && OfKind(p, wanted) :: p.0
  }

  lemma KindsNext(front: seq<(string, RawPass)>, last: (string, RawPass), wanted: Json -> bool)
    requires forall p :: p in front ==> p.0 != last.0
    ensures |IdsOfKind(front + [last], wanted)| == |IdsOfKind(front, wanted)| + if OfKind(last, wanted) then 1 else 0
  {
    var all := front + [last];
    assert forall p :: p in all <==> p in front || p == last;
    assert IdsOfKind(all, wanted) == IdsOfKind(front, wanted) + if OfKind(last, wanted) then {last.0} else {};
    assert last.0 !in IdsOfKind(front, wanted);
  }

  lemma OnlyIdsLast(passes: seq<(string, RawPass)>)
    requires passes != [] && OnlyIds(passes)
    ensures OnlyIds(passes[..|passes| - 1])
    ensures forall p :: p in passes[..|passes| - 1] ==> p.0 != passes[|passes| - 1].0
  {
    var n := |passes| - 1;
    assert forall i :: 0 <= i < n ==> passes[..n][i] == passes[i];
    forall p | p in passes[..n]
      ensures p.0 != passes[n].0
    {
      var i :| 0 <= i < n && passes[..n][i] == p;
    }
  }

  /** With distinct identifiers, counting records is counting passes. */
  lemma {:induction false} KindsAreCounted(passes: seq<(string, RawPass)>, wanted: Json -> bool)
    requires OnlyIds(passes)
    ensures |IdsOfKind(passes, wanted)| == CountKinds(passes, wanted)
  {
    if passes == [] {
      assert IdsOfKind(passes, wanted) == {};
    } else {
      var front, last := passes[..|passes| - 1], passes[|passes| - 1];
      OnlyIdsLast(passes);
      KindsAreCounted(front, wanted);
      KindsNext(front, last, wanted);
      assert passes == front + [last];
    }
  }

  lemma PairedIdsAreDistinct(review: Examiner, raws: seq<RawPass>)
    requires PassesHold(review, raws)
    ensures OnlyIds(Paired(PassIds(review, raws), raws))
  {
    var ids := PassIds(review, raws);
    forall i, j | 0 <= i < j < |raws|
      ensures Paired(ids, raws)[i].0 != Paired(ids, raws)[j].0
    {
      assert ids[i] != ids[j];
    }
  }

  lemma TotalsReached(c: Contract, passes: seq<(string, RawPass)>)
    requires ContractFindings(c) == [] && PassTotals(c, passes) == []
    ensures CountKinds(passes, k => NativeKind(k)) >= MINIMUM_NATIVE
    ensures CountKinds(passes, k => k == DEEP) >= MINIMUM_DEEP
  {
  }

  /** Under a sound contract, a pass audit without findings has evidenced at least five native passes and three
      deep ones, counted by distinct identifiers, whose evidence and sources are pairwise distinct. */
  lemma CleanPassAudit(repo: Repository, c: Contract, reviewed: Json, raws: Option<seq<RawPass>>)
    requires ContractFindings(c) == [] && AuditPasses(repo, c, reviewed, raws).findings == []
    ensures raws.Some? && PassesHold(ExaminerOf(repo, reviewed), raws.value)
    ensures var s := AuditPasses(repo, c, reviewed, raws);
      && StateHolds(s, ExaminerOf(repo, reviewed), raws.value) && OnlyIds(s.passes)
      && |IdsOfKind(s.passes, k => NativeKind(k))| >= MINIMUM_NATIVE
      && |IdsOfKind(s.passes, k => k == DEEP)| >= MINIMUM_DEEP
  {
    var review, s := ExaminerOf(repo, reviewed), AuditPasses(repo, c, reviewed, raws);
    ExaminerIsRegular(repo, reviewed);
    PassListCleanIff(review, raws.value);
    PairedIdsAreDistinct(review, raws.value);
    TotalsReached(c, s.passes);
    KindsAreCounted(s.passes, k => NativeKind(k));
    KindsAreCounted(s.passes, k => k == DEEP);
  }

  /** What a record without findings of its own says. */
  ghost predicate CleanFacts(f: PassFacts) {
    && KnownKind(f.kind) && f.freshContext == JBool(true) && f.status == JString("passed")
    && f.coverageComplete == JBool(true) && NonnegativeInteger(f.candidateCount)
    && f.coverageGaps == JInt(0) && f.unresolved == JInt(0) && f.deferred == JInt(0)
  }

  lemma CleanReviewFacts(repo: Repository, reviewed: Json, raw: RawPass)
    requires ReviewPass(repo, reviewed, raw).findings == []
    ensures raw.RawPass? && CleanFacts(raw.facts)
    ensures ReviewPass(repo, reviewed, raw).id == Some(raw.facts.passId.text)
  {
    var r := ReviewPass(repo, reviewed, raw);
    assert RecordFindings(repo, raw, r.id.value) == [];
  }
}
