/** The append-only ledger of governed CSV evidence: one observation per execution, one execution per
    UTC day inside the policy window, each snapshot bound to the digest of the one before. */
module EvidenceSeries {
  import opened Base
  import opened Ordering
  import opened Text
  import opened CsvLive

  // ---------- Time ----------

  const MICROSECONDS_PER_DAY := 86_400_000_000

  /** UTC date of an instant, as a day number. */
  function Day(instant: int): int {
    instant / MICROSECONDS_PER_DAY
  }

  // ---------- Policy ----------

  datatype Policy = Policy(
    digest: string,
    sourceName: string,
    allowedKinds: seq<ExportKind>,
    requiredKinds: seq<ExportKind>,
    timeoutMillis: int,
    maxBodyBytes: int,
    haltCodes: seq<int>,
    effective: int,
    expires: int,
    minSuccessful: nat,
    minDates: nat)

  /** What the policy model itself refuses. */
  predicate ValidPolicy(p: Policy) {
    && Distinct(p.allowedKinds) && p.allowedKinds != [] && Distinct(p.requiredKinds) && p.requiredKinds != []
    && 0 < p.timeoutMillis <= 30_000 && 1 <= p.maxBodyBytes <= 10_000_000
    && Distinct(p.haltCodes) && p.haltCodes != [] && (forall c :: c in p.haltCodes ==> 100 <= c <= 599)
    && p.effective <= p.expires && p.expires - p.effective < 31
    && p.minSuccessful >= 2 && p.minDates >= 2
    && Elements(p.requiredKinds) == Elements(p.allowedKinds)
    && p.minDates <= p.minSuccessful
  }

  /** The only policy content the policy verifier reproduces for a source and a window. */
  function GovernedPolicy(digest: string, sourceName: string, effective: int, expires: int): Policy {
    Policy(
      digest, sourceName, [ProjectExport, DocumentExport], [ProjectExport, DocumentExport],
      20_000, 10_000_000, [401, 403, 407, 429, 451], effective, expires, 4, 3)
  }

  /** The policy evidence is accepted: valid, and equal to its recomputation. */
  predicate PolicyVerified(p: Policy) {
    ValidPolicy(p) && p == GovernedPolicy(p.digest, p.sourceName, p.effective, p.expires)
  }

  predicate Current(p: Policy, day: int) {
    p.effective <= day <= p.expires
  }

  // ---------- Executions and observations ----------

  datatype ExecutionBody = ExecutionBody(
    policyDigest: string,
    grantedAt: int,
    utcDate: int,
    timeoutMillis: int,
    maxBodyBytes: int,
    maxRows: int,
    live: LiveExecution,
    verification: Verification)

  datatype Execution = Execution(body: ExecutionBody, digest: string)

  predicate ConsistentExecution(b: ExecutionBody) {
    && Day(b.live.executedAt) == b.utcDate
    && b.grantedAt <= b.live.executedAt
    && Day(b.grantedAt) == b.utcDate
    && b.verification.executionDigest == b.live.digest
    && 0 < b.timeoutMillis <= 30_000 && 1 <= b.maxBodyBytes <= 10_000_000 && 0 <= b.maxRows <= 1_000
  }

  datatype ObservationBody = ObservationBody(
    ref: string,
    policyDigest: string,
    executionDigest: string,
    liveDigest: string,
    executedAt: int,
    utcDate: int,
    kind: ExportKind,
    sch: string,
    documentId: Option<nat>,
    requestUrl: string,
    status: Option<int>,
    observedLength: nat,
    complete: bool,
    bodySha256: string,
    inspectionDigest: Option<string>,
    findings: seq<Finding>,
    successful: bool,
    halt: bool)

  datatype Observation = Observation(body: ObservationBody, digest: string)

  /** A canonical repository-relative reference. */
  predicate CanonicalRef(s: string) {
    Strip(s) == s && '\\' !in s && forall part :: part in PathParts(s) ==> part !in {"", ".", ".."}
  }

  predicate ValidObservation(b: ObservationBody) {
    && CanonicalRef(b.ref)
    && b.requestUrl != "" && (b.status.Some? ==> 100 <= b.status.value <= 599)
    && Distinct(b.findings)
    && Day(b.executedAt) == b.utcDate
    && (b.kind == ProjectExport <==> b.documentId == None)
    && b.successful == (b.findings == [])
    && (b.successful ==> b.status == Some(200) && b.complete && b.inspectionDigest.Some?)
    && !(b.halt && b.successful)
  }

  // ---------- Series snapshots ----------

  datatype Status = Collecting | Halted | ReadyForMaturityReview

  datatype SeriesBody = SeriesBody(
    sourceName: string,
    policyDigest: string,
    effective: int,
    expires: int,
    observations: seq<Observation>,
    sequence: nat,
    predecessor: Option<string>,
    observationCount: nat,
    successfulCount: nat,
    successfulDates: seq<int>,
    successfulKinds: seq<ExportKind>,
    minSuccessful: nat,
    minDates: nat,
    requiredKinds: seq<ExportKind>,
    status: Status,
    haltedOn: Option<int>,
    haltStatus: Option<int>)

  datatype Series = Series(body: SeriesBody, digest: string)

  /** The digest functions of the ledger, as fixed functions of the digested content. */
  datatype Hashes = Hashes(
    lib: Library,
    execution: ExecutionBody -> string,
    observation: ObservationBody -> string,
    series: SeriesBody -> string)

  datatype LedgerError =
    | PolicyUnverified
    | ExecutionRejected
    | ObservationInvalid
    | SeriesTerminal
    | SeriesInvalid
    | GateClosed

  /** Sort key: execution time, then execution digest. */
  function Key(o: Observation): seq<int> {
    [o.body.executedAt] + seq(|o.body.executionDigest|, i requires 0 <= i < |o.body.executionDigest| =>
                                                          o.body.executionDigest[i] as int)
  }

  function Successful(obs: seq<Observation>): seq<Observation> {
    if obs == [] then []
    else (if obs[0].body.successful then [obs[0]] else []) + Successful(obs[1..])
  }

  function Dates(obs: seq<Observation>): seq<int> {
    seq(|obs|, i requires 0 <= i < |obs| => obs[i].body.utcDate)
  }

  /** Ascending, without repetition. */
  function SortedUnique(days: seq<int>): seq<int> {
    if days == [] then [] else InsertDay(days[0], SortedUnique(days[1..]))
  }

  function InsertDay(d: int, days: seq<int>): seq<int> {
    if days == [] || d < days[0] then [d] + days
    else if d == days[0] then days
    else [days[0]] + InsertDay(d, days[1..])
  }

  predicate SawKind(obs: seq<Observation>, kind: ExportKind) {
    exists o :: o in obs && o.body.kind == kind
  }

  /** The kinds seen, ordered by their names: document before project. */
  function KindsOf(obs: seq<Observation>): seq<ExportKind> {
    (if SawKind(obs, DocumentExport) then [DocumentExport] else [])
    + (if SawKind(obs, ProjectExport) then [ProjectExport] else [])
  }

  function Halts(obs: seq<Observation>): (r: seq<Observation>)
    ensures forall o :: o in r ==> o.body.halt
  {
    if obs == [] then [] else OneHalt(obs[0]) + Halts(obs[1..])
  }

  function OneHalt(o: Observation): seq<Observation> {
    if o.body.halt then [o] else []
  }

  predicate Ready(obs: seq<Observation>, minSuccessful: nat, minDates: nat, required: seq<ExportKind>) {
    var successful := Successful(obs);
    && |successful| >= minSuccessful
    && |SortedUnique(Dates(successful))| >= minDates
    && Elements(KindsOf(successful)) == Elements(required)
  }

  function StatusOf(p: Policy, obs: seq<Observation>): Status {
    if Halts(obs) != [] then Halted
    else if Ready(obs, p.minSuccessful, p.minDates, p.requiredKinds) then ReadyForMaturityReview
    else Collecting
  }

  function Draft(p: Policy, obs: seq<Observation>, predecessor: Option<string>): SeriesBody {
    var successful := Successful(obs);
    var halts := Halts(obs);
    SeriesBody(
      p.sourceName, p.digest, p.effective, p.expires, obs, |obs|, predecessor, |obs|, |successful|,
      SortedUnique(Dates(successful)), KindsOf(successful), p.minSuccessful, p.minDates, p.requiredKinds,
      StatusOf(p, obs),
      if halts != [] then Some(halts[0].body.utcDate) else None,
      if halts != [] then halts[0].body.status else None)
  }

  function RefOf(o: Observation): string { o.body.ref }

  function ExecutionDigestOf(o: Observation): string { o.body.executionDigest }

  function DigestOf(o: Observation): string { o.digest }

  function DateOf(o: Observation): int { o.body.utcDate }

  /** Identities and dates that occur once, under one policy digest, inside the window. */
  predicate Acceptable(policyDigest: string, effective: int, expires: int, obs: seq<Observation>) {
    && DistinctKeys(RefOf, obs) && DistinctKeys(ExecutionDigestOf, obs)
    && DistinctKeys(DigestOf, obs) && DistinctKeys(DateOf, obs)
    && forall o :: o in obs ==> o.body.policyDigest == policyDigest && effective <= o.body.utcDate <= expires
  }

  /** Halt metadata and status agree with the observations, and a halt is alone and last. */
  predicate StatusAgrees(s: SeriesBody) {
    var halts := Halts(s.observations);
    if halts != [] then
      && |halts| == 1 && s.observations != [] && s.observations[|s.observations| - 1] == halts[0]
      && s.status == Halted
      && s.haltedOn == Some(halts[0].body.utcDate) && s.haltStatus == halts[0].body.status
    else
      && s.haltedOn == None && s.haltStatus == None
      && s.status == if Ready(s.observations, s.minSuccessful, s.minDates, s.requiredKinds)
                     then ReadyForMaturityReview else Collecting
  }

  /** The series model's own validator, check by check. */
  predicate ValidSeries(s: SeriesBody) {
    var successful := Successful(s.observations);
    && s.effective <= s.expires
    && s.observationCount == |s.observations| && s.sequence == s.observationCount
    && (s.sequence == 0 <==> s.predecessor == None)
    && SortedBy(Key, s.observations) == s.observations
    && Acceptable(s.policyDigest, s.effective, s.expires, s.observations)
    && s.successfulCount == |successful|
    && s.successfulDates == SortedUnique(Dates(successful))
    && s.successfulKinds == KindsOf(successful)
    && StatusAgrees(s)
  }

  function Snapshot(h: Hashes, p: Policy, obs: seq<Observation>, predecessor: Option<string>)
    : Result<Series, LedgerError>
  {
    var body := Draft(p, obs, predecessor);
    if ValidSeries(body) then Ok(Series(body, h.series(body))) else Err(SeriesInvalid)
  }

  // ---------- Building ----------

  type Input = (string, Execution)

  /** The execution is intact, matches the policy, and its live evidence verifies as stored. */
  predicate Admissible(h: Hashes, p: Policy, e: Execution) {
    var b := e.body;
    && ConsistentExecution(b)
    && e.digest == h.execution(b)
    && b.policyDigest == p.digest && b.timeoutMillis == p.timeoutMillis && b.maxBodyBytes == p.maxBodyBytes
    && b.verification == Verify(h.lib, b.live)
    && Current(p, b.utcDate)
    && b.live.body.request.kind in p.allowedKinds
  }

  function ObservationOf(p: Policy, ref: string, e: Execution, v: Verification): ObservationBody {
    var b := e.body;
    var live := b.live.body;
    ObservationBody(
      ref, p.digest, e.digest, b.live.digest, b.live.executedAt, b.utcDate, live.request.kind, live.request.sch,
      live.request.documentId, live.requestUrl, live.status, live.observedLength, live.complete, live.sha256,
      v.inspectionDigest, v.findings, v.Passed(), live.status.Some? && live.status.value in p.haltCodes)
  }

  function Observe(h: Hashes, p: Policy, input: Input): Result<Observation, LedgerError> {
    if !Admissible(h, p, input.1) then Err(ExecutionRejected)
    else
      var o := ObservationOf(p, input.0, input.1, Verify(h.lib, input.1.body.live));
      if ValidObservation(o) then Ok(Observation(o, h.observation(o))) else Err(ObservationInvalid)
  }

  type Observer = Input -> Result<Observation, LedgerError>

  function ObserverOf(h: Hashes, p: Policy): Observer {
    input => Observe(h, p, input)
  }

  /** Every input observed, in input order, or the first rejection. */
  function Collect(observe: Observer, inputs: seq<Input>): Result<seq<Observation>, LedgerError> {
    if inputs == [] then Ok([])
    else
      match observe(inputs[0])
      case Err(error) => Err(error)
      case Ok(o) =>
        match Collect(observe, inputs[1..])
        case Err(error) => Err(error)
        case Ok(rest) => Ok([o] + rest)
  }

  function ObserveAll(h: Hashes, p: Policy, inputs: seq<Input>): Result<seq<Observation>, LedgerError> {
    Collect(ObserverOf(h, p), inputs)
  }

  /** How a snapshot is made from observations and the digest of its predecessor. */
  type Snapshotter = (seq<Observation>, Option<string>) -> Result<Series, LedgerError>

  function SnapshotsOf(h: Hashes, p: Policy): Snapshotter {
    (obs, predecessor) => Snapshot(h, p, obs, predecessor)
  }

  /** The snapshot after the first `k` observations, each built on the digest of the one before. */
  function Chain(snapshot: Snapshotter, obs: seq<Observation>, k: nat): Result<Series, LedgerError>
    requires k <= |obs|
  {
    if k == 0 then snapshot([], None)
    else
      match Chain(snapshot, obs, k - 1)
      case Err(error) => Err(error)
      case Ok(previous) =>
        if previous.body.status != Collecting then Err(SeriesTerminal)
        else snapshot(obs[..k], Some(previous.digest))
  }

  function Build(h: Hashes, p: Policy, inputs: seq<Input>): Result<Series, LedgerError> {
    if !PolicyVerified(p) then Err(PolicyUnverified)
    else
      match ObserveAll(h, p, inputs)
      case Err(error) => Err(error)
      case Ok(obs) => Chain(SnapshotsOf(h, p), SortedBy(Key, obs), |SortedBy(Key, obs)|)
  }

  /** The program's loop: snapshots are built one observation at a time. */
  method ChainSeries(snapshot: Snapshotter, obs: seq<Observation>) returns (r: Result<Series, LedgerError>)
    ensures r == Chain(snapshot, obs, |obs|)
  {
    r := snapshot([], None);
    for sequence := 1 to |obs| + 1
      invariant r == Chain(snapshot, obs, sequence - 1)
    {
      match r {
        case Err(_) =>
          ChainStops(snapshot, obs, sequence - 1, |obs|);
          return;
        case Ok(series) =>
          r := if series.body.status != Collecting then Err(SeriesTerminal)
               else snapshot(obs[..sequence], Some(series.digest));
      }
    }
  }

  method BuildSeries(h: Hashes, p: Policy, inputs: seq<Input>) returns (r: Result<Series, LedgerError>)
    ensures r == Build(h, p, inputs)
  {
    if !PolicyVerified(p) {
      return Err(PolicyUnverified);
    }
    match ObserveAll(h, p, inputs) {
      case Err(error) => return Err(error);
      case Ok(observed) => r := ChainSeries(SnapshotsOf(h, p), SortedBy(Key, observed));
    }
  }

  /** A failure is passed on unchanged to every longer chain. */
  lemma {:induction false} ChainStops(snapshot: Snapshotter, obs: seq<Observation>, k: nat, n: nat)
    requires k <= n <= |obs| && Chain(snapshot, obs, k).Err?
    ensures Chain(snapshot, obs, n) == Chain(snapshot, obs, k)
  {
    if k < n {
      ChainStops(snapshot, obs, k, n - 1);
    }
  }

  // ---------- When a snapshot is valid ----------

  predicate AcceptableFor(p: Policy, obs: seq<Observation>) {
    Acceptable(p.digest, p.effective, p.expires, obs)
  }

  ghost predicate HaltOnlyLast(obs: seq<Observation>) {
    forall i :: 0 <= i < |obs| - 1 ==> !obs[i].body.halt
  }

  lemma {:induction false} HaltsAppend(front: seq<Observation>, o: Observation)
    ensures Halts(front + [o]) == Halts(front) + OneHalt(o)
  {
    if front == [] {
      assert [] + [o] == [o] && [o][1..] == [];
    } else {
      assert (front + [o])[0] == front[0] && (front + [o])[1..] == front[1..] + [o];
      HaltsAppend(front[1..], o);
    }
  }

  lemma {:induction false} HaltsNothing(obs: seq<Observation>)
    ensures Halts(obs) == [] <==> forall i :: 0 <= i < |obs| ==> !obs[i].body.halt
  {
    if obs != [] {
      HaltsNothing(obs[1..]);
      assert forall i :: 0 <= i < |obs[1..]| ==> obs[1..][i] == obs[i + 1];
      assert obs[1..] == [] || obs[1..][0] == obs[1];
    }
  }

  /** The validator's halt check: a halting observation is alone and last. */
  predicate HaltCheck(obs: seq<Observation>) {
    Halts(obs) != [] ==> |Halts(obs)| == 1 && obs != [] && obs[|obs| - 1] == Halts(obs)[0]
  }

  lemma HaltCheckMeans(obs: seq<Observation>)
    ensures HaltCheck(obs) <==> HaltOnlyLast(obs)
  {
    if obs != [] {
      var front, last := obs[..|obs| - 1], obs[|obs| - 1];
      assert obs == front + [last];
      HaltsAppend(front, last);
      HaltsNothing(front);
      assert HaltOnlyLast(obs) <==> Halts(front) == [] by {
        assert forall i :: 0 <= i < |front| ==> front[i] == obs[i];
      }
    }
  }

  lemma DraftStatusAgrees(p: Policy, obs: seq<Observation>, predecessor: Option<string>)
    ensures StatusAgrees(Draft(p, obs, predecessor)) <==> HaltCheck(obs)
  {
    var s := Draft(p, obs, predecessor);
    assert s.observations == obs;
    assert s.status == StatusOf(p, obs);
  }

  lemma DraftChecks(p: Policy, obs: seq<Observation>, predecessor: Option<string>)
    requires p.effective <= p.expires
    ensures ValidSeries(Draft(p, obs, predecessor)) <==>
      (obs == [] <==> predecessor == None) && SortedBy(Key, obs) == obs && AcceptableFor(p, obs) && HaltCheck(obs)
  {
    DraftStatusAgrees(p, obs, predecessor);
  }

  /** A snapshot's computed fields always pass the validator: what can fail is the order, a repeated
      identity or date, the window, or a halt before the end. */
  lemma DraftIsValidIff(p: Policy, obs: seq<Observation>, predecessor: Option<string>)
    requires p.effective <= p.expires
    ensures ValidSeries(Draft(p, obs, predecessor)) <==>
      (obs == [] <==> predecessor == None) && InOrder(Key, obs) && AcceptableFor(p, obs) && HaltOnlyLast(obs)
  {
    DraftChecks(p, obs, predecessor);
    HaltCheckMeans(obs);
    SortedIsInOrder(Key, obs);
    if InOrder(Key, obs) {
      SortedWhenInOrder(Key, obs);
    }
  }
}
