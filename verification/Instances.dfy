/** Concrete instances of the longest hypotheses: each can be met, so the laws built on them are not empty. */
module Instances {
  import opened Base
  import opened Ordering
  import opened Text
  import L = CsvLive
  import E = EvidenceSeries
  import EL = EvidenceSeriesLaws
  import Step = EvidenceSeriesStep
  import X = CsvExport
  import R = RecurringRun
  import RL = RecurringRunLaws
  import W = WritePlan
  import PX = PlanExecution
  import C = CsvBridge
  import Q = CaptureQueue
  import I = IngestionInbox
  import IL = IngestionInboxLaws

  // ---------- Two days of a ledger ----------

  const SCH := "0123456789"

  function SomeRequest(): L.Request {
    L.Request(L.ProjectExport, SCH, None, "u")
  }

  /** Every body reads as a table with one row of the requested project. */
  function SomeLibrary(): L.Library {
    L.Library(url => Some(SomeRequest()), media => Some(media),
              bytes => Some(L.Table("utf-8", [["SCH"], [SCH]], false)),
              (header, kind) => Some([L.Column("sch", true, true)]), bytes => "b", inspection => "i", live => "l")
  }

  /** Digests that tell the two days apart. */
  function SomeHashes(): E.Hashes {
    E.Hashes(SomeLibrary(), (execution: E.ExecutionBody) => if execution.utcDate == 0 then "e0" else "e1",
             (observation: E.ObservationBody) => if observation.utcDate == 0 then "o0" else "o1", series => "s")
  }

  function SomePolicy(): E.Policy {
    E.GovernedPolicy("p", "n", 0, 1)
  }

  function SomeResponse(): L.HttpResponse {
    L.HttpResponse("u", Some(200), None, 1, [0], true, false, None)
  }

  /** One attempt a day. */
  function AttemptOn(day: nat): Step.Attempt {
    var midnight := day * E.MICROSECONDS_PER_DAY;
    Step.Attempt(if day == 0 then "r0" else "r1", SomeRequest(), 10, midnight, midnight, SomeResponse())
  }

  lemma PolicyIsVerified()
    ensures E.PolicyVerified(SomePolicy())
  {
    var p := SomePolicy();
    assert p.allowedKinds == p.requiredKinds == [L.ProjectExport, L.DocumentExport];
    assert p.haltCodes == [401, 403, 407, 429, 451];
  }

  lemma BodyIsInspected()
    ensures L.Inspect(SomeLibrary(), SomeRequest(), [0], None, 10).Ok?
  {
    var lib, columns := SomeLibrary(), [L.Column("sch", true, true)];
    var rows := [["SCH"], [SCH]];
    StripTrims(SCH);
    assert L.StripAll([SCH]) == [SCH];
    assert L.Prepare(lib, SomeRequest(), [0], None) == Ok(L.Prepared(None, L.Table("utf-8", rows, false), columns));
    assert rows[1..] == [[SCH]] && [[SCH]][1..] == [];
    var next := L.RowState(1, [[SCH]]);
    assert L.SchOrdinal(columns) == 0 && [] + [[SCH]] == [[SCH]];
    assert L.TakeRow(columns, SomeRequest(), 10, [SCH], L.RowState(0, [])) == Ok(next);
    assert L.TakeRows(columns, SomeRequest(), 10, [], next) == Ok(next);
    assert L.TakeRows(columns, SomeRequest(), 10, [[SCH]], L.RowState(0, [])) == Ok(next);
  }

  lemma LiveIsBuilt(at: int)
    ensures L.BuildLive(SomeLibrary(), SomeRequest(), SomeResponse(), 10, at).Some?
    ensures L.BuildLive(SomeLibrary(), SomeRequest(), SomeResponse(), 10, at).value.executedAt == at
    ensures L.Verify(SomeLibrary(), L.BuildLive(SomeLibrary(), SomeRequest(), SomeResponse(), 10, at).value).Passed()
  {
    BodyIsInspected();
    L.BuiltExecutionPassesIff(SomeLibrary(), SomeRequest(), SomeResponse(), 10, at);
  }

  lemma EmptySeriesIsBuilt()
    ensures E.Build(SomeHashes(), SomePolicy(), []).Ok?
    ensures E.Build(SomeHashes(), SomePolicy(), []).value.body.observations == []
  {
    PolicyIsVerified();
    E.DraftIsValidIff(SomePolicy(), [], None);
    assert SortedBy(E.Key, []) == [];
  }

  /** A ledger of at most one observation, which did not halt it, is still collecting. */
  lemma StillCollecting(obs: seq<E.Observation>)
    requires |obs| <= 1 && forall o :: o in obs ==> !o.body.halt
    ensures E.StatusOf(SomePolicy(), obs) == E.Collecting
  {
    if obs != [] {
      assert obs[0] in obs && obs[1..] == [];
      assert E.Halts(obs[1..]) == [] && E.Successful(obs[1..]) == [];
    }
  }

  /** The gates are open on a day of the window that no observation is from. */
  lemma GatesOpen(inputs: seq<E.Input>, series: E.Series, day: nat)
    requires day <= 1 && E.Build(SomeHashes(), SomePolicy(), inputs) == Ok(series)
    requires |series.body.observations| == day
    requires forall o :: o in series.body.observations ==>
      !o.body.halt && o.body.utcDate == 0 && o.body.executedAt == 0
    ensures Step.Gates(SomeHashes(), SomePolicy(), inputs, series, AttemptOn(day))
  {
    EL.BuiltSeries(SomeHashes(), SomePolicy(), inputs);
    StillCollecting(series.body.observations);
    assert E.Day(AttemptOn(day).authorizedAt) == day;
  }

  lemma ReferenceIsCanonical(day: nat)
    ensures E.CanonicalRef(AttemptOn(day).ref)
  {
    var ref := AttemptOn(day).ref;
    assert '/' !in ref && '\\' !in ref && |ref| == 2 && ref[0] == 'r';
    OnePart(ref);
    StripTrims(ref);
  }

  /** An attempt before open gates gets through, and its evidence passes. */
  lemma AttemptIsExecuted(inputs: seq<E.Input>, series: E.Series, day: nat)
    requires Step.Gates(SomeHashes(), SomePolicy(), inputs, series, AttemptOn(day))
    ensures Step.Execute(SomeHashes(), SomePolicy(), inputs, series, AttemptOn(day)).Ok?
    ensures L.Verify(SomeLibrary(),
                     Step.Execute(SomeHashes(), SomePolicy(), inputs, series, AttemptOn(day)).value.body.live).Passed()
  {
    LiveIsBuilt(AttemptOn(day).executedAt);
    Step.ExecuteSucceedsIff(SomeHashes(), SomePolicy(), inputs, series, AttemptOn(day));
  }

  /** A passing execution is observed as a success that does not halt the ledger. */
  lemma PassingIsObserved(h: E.Hashes, p: E.Policy, x: E.Input)
    requires E.PolicyVerified(p) && E.Observe(h, p, x).Ok? && L.Verify(h.lib, x.1.body.live).Passed()
    ensures E.Observe(h, p, x).value.body.successful && !E.Observe(h, p, x).value.body.halt
  {
  }

  lemma PassingAttempt(h: E.Hashes, p: E.Policy, inputs: seq<E.Input>, series: E.Series, t: Step.Attempt)
    requires Step.Execute(h, p, inputs, series, t).Ok? && E.PolicyVerified(p)
    requires Step.ValidRequest(t.request) && E.CanonicalRef(t.ref)
    requires L.Verify(h.lib, Step.Execute(h, p, inputs, series, t).value.body.live).Passed()
    ensures var x := Step.Filed(h, p, inputs, series, t);
      && x.1.body.utcDate == E.Day(t.authorizedAt) && E.Observe(h, p, x).Ok?
      && var o := E.Observe(h, p, x).value.body;
         o.successful && !o.halt && o.utcDate == E.Day(t.authorizedAt) && o.executedAt == t.executedAt
  {
    Step.NewObservation(h, p, inputs, series, t);
    PassingIsObserved(h, p, Step.Filed(h, p, inputs, series, t));
    Step.Executed(h, p, inputs, series, t);
  }

  lemma MidnightsDay(day: nat)
    ensures E.Day(AttemptOn(day).authorizedAt) == E.Day(AttemptOn(day).executedAt) == day
  {
  }

  /** It is a success of its own day. */
  lemma AttemptGetsThrough(inputs: seq<E.Input>, series: E.Series, day: nat)
    requires Step.Gates(SomeHashes(), SomePolicy(), inputs, series, AttemptOn(day))
    ensures Step.Execute(SomeHashes(), SomePolicy(), inputs, series, AttemptOn(day)).Ok?
    ensures var x := Step.Filed(SomeHashes(), SomePolicy(), inputs, series, AttemptOn(day));
      && x.0 == AttemptOn(day).ref && x.1.body.utcDate == day
      && E.Observe(SomeHashes(), SomePolicy(), x).Ok?
      && var o := E.Observe(SomeHashes(), SomePolicy(), x).value.body;
         o.successful && !o.halt && o.utcDate == day && o.executedAt == day * E.MICROSECONDS_PER_DAY
  {
    AttemptIsExecuted(inputs, series, day);
    ReferenceIsCanonical(day);
    PolicyIsVerified();
    MidnightsDay(day);
    PassingAttempt(SomeHashes(), SomePolicy(), inputs, series, AttemptOn(day));
  }

  ghost predicate TellsFirstDayApart(h: E.Hashes) {
    && (forall a: E.ExecutionBody, b: E.ExecutionBody ::
          a.utcDate == 0 && b.utcDate != 0 ==> h.execution(a) != h.execution(b))
    && (forall a: E.ObservationBody, b: E.ObservationBody ::
          a.utcDate == 0 && b.utcDate != 0 ==> h.observation(a) != h.observation(b))
  }

  lemma SomeHashesTellDaysApart()
    ensures TellsFirstDayApart(SomeHashes())
  {
    assert "e0"[1] != "e1"[1] && "o0"[1] != "o1"[1];
  }

  lemma ObservedApart(h: E.Hashes, p: E.Policy, x: E.Input, o: E.Observation, y: E.Input, q: E.Observation)
    requires TellsFirstDayApart(h) && x.1.body.utcDate == 0 && y.1.body.utcDate != 0
    requires EL.ObservationFacts(h, p, x, o) && EL.ObservationFacts(h, p, y, q)
    ensures o.digest != q.digest && h.execution(x.1.body) != h.execution(y.1.body)
  {
  }

  lemma ObservedDaysApart(h: E.Hashes, p: E.Policy, x: E.Input, y: E.Input)
    requires TellsFirstDayApart(h) && x.1.body.utcDate == 0 && y.1.body.utcDate != 0
    requires E.Observe(h, p, x).Ok? && E.Observe(h, p, y).Ok?
    ensures E.Observe(h, p, x).value.digest != E.Observe(h, p, y).value.digest
  {
    EL.ObservedFacts(h, p, x);
    EL.ObservedFacts(h, p, y);
    ObservedApart(h, p, x, E.Observe(h, p, x).value, y, E.Observe(h, p, y).value);
  }

  lemma DayDoesNotCollide(h: E.Hashes, p: E.Policy, x: E.Input, y: E.Input)
    requires TellsFirstDayApart(h) && x.1.body.utcDate == 0 && y.1.body.utcDate != 0
    ensures !EL.Collide(h, p, x, y) && !EL.Collide(h, p, y, x)
  {
    assert h.execution(x.1.body) != h.execution(y.1.body);
    if E.Observe(h, p, x).Ok? && E.Observe(h, p, y).Ok? {
      ObservedDaysApart(h, p, x, y);
    }
  }

  type Related = (E.Input, E.Input) -> bool

  lemma OfTwo(related: Related, x: E.Input, y: E.Input)
    requires !related(x, x) && !related(x, y) && !related(y, x) && !related(y, y)
    ensures forall a, b :: a in [x, y] && b in [x, y] ==> !related(a, b)
  {
  }

  lemma DaysDoNotCollide(h: E.Hashes, p: E.Policy, x: E.Input, y: E.Input)
    requires TellsFirstDayApart(h) && x.1.body.utcDate == 0 && y.1.body.utcDate != 0
    ensures EL.NoCollisions(h, p, [x, y])
  {
    var related: Related := (a, b) => EL.Collide(h, p, a, b);
    DayDoesNotCollide(h, p, x, y);
    OfTwo(related, x, y);
    forall a, b | a in [x, y] && b in [x, y]
      ensures !EL.Collide(h, p, a, b)
    {
      assert !related(a, b);
    }
  }

  /** The first attempt, before open gates. */
  lemma FirstAttempt() returns (series: E.Series)
    ensures E.Build(SomeHashes(), SomePolicy(), []) == Ok(series) && series.body.observations == []
    ensures Step.Execute(SomeHashes(), SomePolicy(), [], series, AttemptOn(0)).Ok?
  {
    EmptySeriesIsBuilt();
    series := E.Build(SomeHashes(), SomePolicy(), []).value;
    GatesOpen([], series, 0);
    AttemptGetsThrough([], series, 0);
  }

  lemma AloneNoCollision(h: E.Hashes, p: E.Policy, x: E.Input)
    ensures EL.NoCollisions(h, p, [] + [x])
  {
    assert [] + [x] == [x];
  }

  /** The first day, with everything the law about a gated step asks for. */
  lemma FirstDay() returns (series: E.Series, x: E.Input, next: E.Series)
    ensures E.Build(SomeHashes(), SomePolicy(), []) == Ok(series)
    ensures Step.Execute(SomeHashes(), SomePolicy(), [], series, AttemptOn(0)).Ok?
    ensures x == Step.Filed(SomeHashes(), SomePolicy(), [], series, AttemptOn(0))
    ensures x.0 == AttemptOn(0).ref && x.1.body.utcDate == 0
    ensures E.Build(SomeHashes(), SomePolicy(), [x]) == Ok(next) && |next.body.observations| == 1
    ensures forall o :: o in next.body.observations ==> !o.body.halt && o.body.utcDate == 0 && o.body.executedAt == 0
  {
    series := FirstAttempt();
    x := Step.Filed(SomeHashes(), SomePolicy(), [], series, AttemptOn(0));
    AttemptGetsThrough([], series, 0);
    ReferenceIsCanonical(0);
    FirstRebuild(SomeHashes(), SomePolicy(), series, AttemptOn(0));
    assert [] + [x] == [x];
    next := E.Build(SomeHashes(), SomePolicy(), [x]).value;
  }

  lemma FirstRebuild(h: E.Hashes, p: E.Policy, series: E.Series, t: Step.Attempt)
    requires Step.Execute(h, p, [], series, t).Ok? && series.body.observations == []
    requires Step.ValidRequest(t.request) && E.CanonicalRef(t.ref)
    ensures var x := Step.Filed(h, p, [], series, t);
      && E.Build(h, p, [] + [x]).Ok? && E.Observe(h, p, x).Ok?
      && E.Build(h, p, [] + [x]).value.body.observations == [E.Observe(h, p, x).value]
  {
    AloneNoCollision(h, p, Step.Filed(h, p, [], series, t));
    Step.ExecutionExtendsSeries(h, p, [], series, t);
  }

  lemma RunOfTwo(h: E.Hashes, p: E.Policy, a: seq<E.Input>, t: Step.Attempt, b: seq<E.Input>, u: Step.Attempt,
                 c: seq<E.Input>)
    requires Step.Advance(h, p, a, t) == b && Step.Advance(h, p, b, u) == c
    ensures Step.Run(h, p, a, [t, u]) == c
  {
    assert [t, u][1..] == [u] && [u][1..] == [];
    assert Step.Run(h, p, c, []) == c;
    assert Step.Run(h, p, b, [u]) == Step.Run(h, p, c, []);
  }

  lemma AdvanceFiles(h: E.Hashes, p: E.Policy, inputs: seq<E.Input>, series: E.Series, t: Step.Attempt)
    requires E.Build(h, p, inputs) == Ok(series) && Step.Execute(h, p, inputs, series, t).Ok?
    ensures Step.Advance(h, p, inputs, t) == inputs + [Step.Filed(h, p, inputs, series, t)]
  {
  }

  lemma OneAndTwo<T>(x: T, y: T)
    ensures [] + [x] == [x] && [x] + [y] == [x, y]
  {
  }

  lemma TwoFiled(h: E.Hashes, p: E.Policy, s: E.Series, t: Step.Attempt, x: E.Input, next: E.Series, u: Step.Attempt,
                 y: E.Input)
    requires E.Build(h, p, []) == Ok(s) && Step.Execute(h, p, [], s, t).Ok? && x == Step.Filed(h, p, [], s, t)
    requires E.Build(h, p, [x]) == Ok(next) && Step.Execute(h, p, [x], next, u).Ok?
    requires y == Step.Filed(h, p, [x], next, u)
    ensures Step.Run(h, p, [], [t, u]) == [x, y]
  {
    AdvanceFiles(h, p, [], s, t);
    AdvanceFiles(h, p, [x], next, u);
    OneAndTwo(x, y);
    RunOfTwo(h, p, [], t, [x], u, [x, y]);
  }

  lemma FreshAttempts()
    ensures Step.Fresh([], [AttemptOn(0), AttemptOn(1)]) && AttemptOn(0).ref != AttemptOn(1).ref
  {
    ReferenceIsCanonical(0);
    ReferenceIsCanonical(1);
    assert "r0"[1] != "r1"[1];
  }

  lemma SecondDay(x: E.Input, next: E.Series)
    requires E.Build(SomeHashes(), SomePolicy(), [x]) == Ok(next) && |next.body.observations| == 1
    requires forall o :: o in next.body.observations ==> !o.body.halt && o.body.utcDate == 0 && o.body.executedAt == 0
    ensures Step.Execute(SomeHashes(), SomePolicy(), [x], next, AttemptOn(1)).Ok?
    ensures var y := Step.Filed(SomeHashes(), SomePolicy(), [x], next, AttemptOn(1));
      && y.1.body.utcDate == 1 && E.Observe(SomeHashes(), SomePolicy(), y).Ok?
      && E.Observe(SomeHashes(), SomePolicy(), y).value.body.successful
  {
    GatesOpen([x], next, 1);
    AttemptGetsThrough([x], next, 1);
  }

  /** Some run of successful executions meets every hypothesis of the laws about steps and runs, at fresh
      references and with digests that do not collide, and extends the ledger twice. */
  lemma SomeRunExtendsTheLedger() returns (x: E.Input, next: E.Series, y: E.Input)
    ensures E.Build(SomeHashes(), SomePolicy(), []).Ok? && Step.Fresh([], [AttemptOn(0), AttemptOn(1)])
    ensures Step.Run(SomeHashes(), SomePolicy(), [], [AttemptOn(0), AttemptOn(1)]) == [x, y]
    ensures EL.NoCollisions(SomeHashes(), SomePolicy(), [x, y])
    ensures Step.Execute(SomeHashes(), SomePolicy(), [x], next, AttemptOn(1)).Ok?
    ensures y == Step.Filed(SomeHashes(), SomePolicy(), [x], next, AttemptOn(1)) && x.0 != AttemptOn(1).ref
    ensures E.Observe(SomeHashes(), SomePolicy(), y).Ok?
    ensures E.Observe(SomeHashes(), SomePolicy(), y).value.body.successful
  {
    var series;
    series, x, next := FirstDay();
    SecondDay(x, next);
    y := Step.Filed(SomeHashes(), SomePolicy(), [x], next, AttemptOn(1));
    TwoFiled(SomeHashes(), SomePolicy(), series, AttemptOn(0), x, next, AttemptOn(1), y);
    SomeHashesTellDaysApart();
    DaysDoNotCollide(SomeHashes(), SomePolicy(), x, y);
    FreshAttempts();
  }

  // ---------- A URL library ----------

  function Tally(n: nat): string {
    if n == 0 then "b" else "a" + Tally(n - 1)
  }

  /** A quotation: each character as a tally of its code. */
  function Quote(s: string): string {
    if s == "" then "" else Tally(s[0] as int) + Quote(s[1..])
  }

  function CountLeading(s: string): nat {
    if s == "" || s[0] != 'a' then 0 else 1 + CountLeading(s[1..])
  }

  predicate CharCode(n: nat) {
    n < 0xD800 || 0xE000 <= n < 0x110000
  }

  function Unquote(s: string): string
    decreases |s|
  {
    var n := CountLeading(s);
    if n >= |s| || !CharCode(n) then "" else [n as char] + Unquote(s[n + 1..])
  }

  lemma {:induction false} TallyIsRead(n: nat, rest: string)
    ensures CountLeading(Tally(n) + rest) == n && |Tally(n)| == n + 1
    ensures forall c :: c in Tally(n) ==> c == 'a' || c == 'b'
  {
    if n > 0 {
      TallyIsRead(n - 1, rest);
      assert (Tally(n) + rest)[1..] == Tally(n - 1) + rest;
    }
  }

  lemma {:induction false} QuoteRoundTrip(s: string)
    ensures Unquote(Quote(s)) == s
    ensures forall c :: c in Quote(s) ==> c == 'a' || c == 'b'
  {
    if s != "" {
      var n := s[0] as int;
      TallyIsRead(n, Quote(s[1..]));
      QuoteRoundTrip(s[1..]);
      assert Quote(s)[n + 1..] == Quote(s[1..]);
      assert [n as char] + s[1..] == s;
    }
  }

  function SplitAddress(url: string): X.UrlParts {
    if |url| >= |X.BASE| && url[..|X.BASE|] == X.BASE
    then X.UrlParts("https", "ceqanet.lci.ca.gov", "/Search", true, url[|X.BASE|..])
    else X.UrlParts("", "", "", false, "")
  }

  function SomeUrls(): X.UrlLibrary {
    X.UrlLibrary(url => SplitAddress(url), s => Quote(s), s => Unquote(s), c => false, s => None)
  }

  /** Some library meets the laws that the address results assume. */
  lemma SomeLibraryIsFaithful()
    ensures X.Faithful(SomeUrls())
  {
    forall s
      ensures SomeUrls().unquote(SomeUrls().quote(s)) == s
      ensures '&' !in SomeUrls().quote(s) && '=' !in SomeUrls().quote(s) && X.Plain(SomeUrls().quote(s))
    {
      QuoteRoundTrip(s);
    }
    forall query
      ensures SplitAddress(X.BASE + query) == X.UrlParts("https", "ceqanet.lci.ca.gov", "/Search", true, query)
    {
      assert (X.BASE + query)[..|X.BASE|] == X.BASE && (X.BASE + query)[|X.BASE|..] == query;
    }
  }

  // ---------- A recurring run that passes ----------

  function RunLibrary(): R.Library {
    R.Library(d => "d", m => "m", (a, b, f, from, to, q) => "r", (a, b, n) => "a", (a, b, n) => "p", (a, x) => "x",
              e => "e", url => R.UrlParts(true, "h", "/Search"))
  }

  function RunDefinition(): R.Definition {
    R.Definition(
      R.DefinitionBody("k", "n", "u", R.Template([], [], [], [], false, R.Received, 1, 1), 1, 1,
                       R.Access(false, false, false, false, false), true, [], [], ""), "d")
  }

  function RunManifest(): R.Manifest {
    R.Manifest(R.ManifestBodyFor(RunLibrary(), RunDefinition(), 0, 0), "m")
  }

  function RunSnapshot(): R.Snapshot {
    R.Snapshot(JInt(1), JString("GET"), JBool(true), JString("u"), JString("u"), JString(""), JInt(0), JBool(false),
               map[])
  }

  function RunMetadata(): R.Metadata {
    R.Metadata(R.V1, JBool(true), JInt(1), JInt(1), JInt(1), JInt(0), JInt(1), Some(RunManifest().body.query), JNull,
               JNull, None, None, map[])
  }

  function RunExecution(): R.Execution {
    R.Execution(
      R.ExecutionBody("r", 1, "a", "d", "m", "k", R.Report(Some(RunMetadata()), Some([RunSnapshot()]), map[]), true,
                      false),
      0, "e")
  }

  lemma RunPairs()
    ensures R.ValidDefinition(RunDefinition().body) && R.Paired(RunLibrary(), RunDefinition(), RunManifest())
  {
    RL.BuildManifestIff(RunLibrary(), RunDefinition(), 0, 0);
  }

  lemma RunSnapshotHolds()
    ensures RL.SnapshotsHold(RunLibrary(), [RunSnapshot()], R.LimitsOf(RunLibrary(), RunManifest(), 1))
  {
    assert RL.SnapshotHolds(RunLibrary(), RunSnapshot(), R.LimitsOf(RunLibrary(), RunManifest(), 1));
  }

  lemma RunReportHolds()
    ensures RL.ReportHolds(RunLibrary(), RunManifest(), RunExecution().body.report, 1, 1, 1)
  {
    RunSnapshotHolds();
    assert RL.MetadataHolds(RunLibrary(), RunManifest(), RunMetadata(), 1, 1, 1, 1);
  }

  /** Some attempt with a page passes the recurring-run verifier, and can be bound. */
  lemma SomeRunPasses()
    ensures R.ValidDefinition(RunDefinition().body)
    ensures RL.Passes(RunLibrary(), RunDefinition(), RunManifest(), RunExecution(), R.NoEvidence)
    ensures RL.AllowedFlag(RunExecution()) && RL.FromV1(RunExecution())
    ensures exists a :: R.Bind(RunLibrary(), RunExecution(), RunManifest(), a).Ok?
  {
    RunPairs();
    RunReportHolds();
    RL.PassesIff(RunLibrary(), RunDefinition(), RunManifest(), RunExecution(), R.NoEvidence);
    var a := R.Authorization(JString("decision"), R.ATTEMPT_ACTION, map[]);
    RL.PassingAttemptsBindIff(RunLibrary(), RunDefinition(), RunManifest(), RunExecution(), R.NoEvidence, a);
  }

  // ---------- A round of the inbox ----------

  const CEQA_FIELDS := {"ceqa_key", "title", "county", "state_clearinghouse_number", "provenance"}

  function ReadField(f: W.Fields, name: string): Json {
    var value := W.Get(f, name);
    if name != I.PROVENANCE_FIELD then value
    else if value == JNull then JOther("[]")
    else if value.JOther? then JOther(value.raw + "/")
    else value
  }

  /** A record model with declared fields only: others are dropped, a missing provenance becomes an empty list, and
      a provenance that is there is rewritten. Other models keep nothing but their key and name. */
  function ReadModel(t: W.Target, f: W.Fields): Option<W.Fields> {
    if t == W.CeqaRecords then Some(map name | name in CEQA_FIELDS :: ReadField(f, name))
    else Some(map[W.KeyField(t) := W.Get(f, W.KeyField(t)), W.NameField(t) := W.Get(f, W.NameField(t))])
  }

  function ZeroDigest(): string {
    seq(24, i => '0')
  }

  function SomeSource(): C.Source {
    C.Source(SCH, row => ZeroDigest(), (url, sch) => true, date => Some(JNull), apn => false,
             (index, row) => JOther("reviewed"), parts => JNull, (t, f) => ReadModel(t, f))
  }

  function IsReviewed(): I.Reviewed {
    provenance => provenance == JOther("reviewed/")
  }

  /** A reader that rewrites the provenance of every import keeps what the inbox needs of it. */
  lemma SomeSourceIsSound()
    ensures IL.SoundSource(IsReviewed(), SomeSource())
  {
    var s := SomeSource();
    FieldNamesDiffer();
    forall f | IL.BridgedRecord(s, f)
      ensures var model := ReadModel(W.CeqaRecords, f).value;
        && W.Get(model, I.SCH_FIELD) == W.Get(f, I.SCH_FIELD)
        && W.Get(model, I.COUNTY_FIELD) == W.Get(f, I.COUNTY_FIELD)
        && IsReviewed()(W.Get(model, I.PROVENANCE_FIELD))
    {
      assert W.Get(f, I.PROVENANCE_FIELD) == JOther("reviewed");
      assert "reviewed" + "/" == "reviewed/";
    }
  }

  /** It drops what it does not know, and fills in what is missing. */
  lemma SomeReaderIsNoIdentity()
    ensures exists f, model :: ReadModel(W.CeqaRecords, f) == Some(model) && "extra" in f && "extra" !in model
                               && I.PROVENANCE_FIELD !in f && W.Get(model, I.PROVENANCE_FIELD) == JOther("[]")
  {
    FieldNamesDiffer();
    var f: W.Fields := map["extra" := JNull];
    var model := ReadModel(W.CeqaRecords, f).value;
    assert ReadModel(W.CeqaRecords, f) == Some(model) && "extra" in f && "extra" !in model;
  }

  lemma FieldNamesDiffer()
    ensures I.SCH_FIELD in CEQA_FIELDS && I.COUNTY_FIELD in CEQA_FIELDS && I.PROVENANCE_FIELD in CEQA_FIELDS
    ensures I.SCH_FIELD != I.PROVENANCE_FIELD && I.COUNTY_FIELD != I.PROVENANCE_FIELD && "extra" !in CEQA_FIELDS
    ensures "extra" != I.PROVENANCE_FIELD
  {
    assert |I.SCH_FIELD| == 26 && |I.COUNTY_FIELD| == 6 && |I.PROVENANCE_FIELD| == 10 && |"extra"| == 5;
    assert |"title"| == 5 && "title"[0] == 't' && "extra"[0] == 'e' && |"ceqa_key"| == 8;
  }

  function SomeRow(): C.Row {
    map["sch_number" := SCH, "title" := "t", "county" := "Riverside"]
  }

  function SomeCandidate(): Q.Candidate {
    Q.Candidate(SCH, "Riverside", "t", false, "u", [1], 1)
  }

  lemma RowCells()
    ensures C.CheckRow(SomeSource(), SomeRow(), {}) == Ok(C.Cells("t", "Riverside", None, None))
  {
    var row := SomeRow();
    StripTrims(SCH);
    StripTrims("t");
    StripTrims("Riverside");
    assert Strip(SCH) == SCH && Strip("t") == "t" && Strip("Riverside") == "Riverside";
    CellNamesDiffer(row);
  }

  /** The row has a number, a title and a county, and no other cell that the bridge asks for. */
  lemma CellNamesDiffer(row: C.Row)
    requires row == SomeRow()
    ensures "project_title" !in row && "counties" !in row && "document_portal_url" !in row
    ensures "location_parcel_number" !in row && "apn" !in row && "parcel_number" !in row
    ensures "lead_agency_name" !in row && "lead_agency" !in row
    ensures "received" !in row && "received_date" !in row && "posted" !in row && "posted_date" !in row
    ensures row["sch_number"] == SCH && row["title"] == "t" && row["county"] == "Riverside"
  {
    assert |"sch_number"| == 10 && |"title"| == 5 && |"county"| == 6;
    assert |"project_title"| == 13 && |"counties"| == 8 && |"document_portal_url"| == 19;
    assert |"location_parcel_number"| == 22 && |"apn"| == 3 && |"parcel_number"| == 13;
    assert |"lead_agency_name"| == 16 && |"lead_agency"| == 11 && |"received"| == 8 && |"received_date"| == 13;
    assert |"posted"| == 6 && |"posted_date"| == 11 && "posted"[0] == 'p' && "county"[0] == 'c';
  }

  lemma RowIsAssembled()
    ensures var entry := C.Assemble(SomeSource(), SomeRow(), C.Cells("t", "Riverside", None, None), JOther("reviewed"));
      entry.Ok? && entry.value.county == "Riverside"
  {
    var s, row, cells := SomeSource(), SomeRow(), C.Cells("t", "Riverside", None, None);
    CellNamesDiffer(row);
    assert C.DateCell(s, C.Value(row, ["received", "received_date"])) == Some(JNull);
    assert C.DateCell(s, C.Value(row, ["posted", "posted_date"])) == Some(JNull);
    var others := C.OtherRecordFields(s, cells, row, JNull, JNull, None, None, JOther("reviewed"));
    RecordIsValid(others);
  }

  lemma RecordIsValid(others: W.Fields)
    ensures var record := C.RecordFields(SomeSource(), ZeroDigest(), C.Cells("t", "Riverside", None, None), others);
      W.Validated(SomeSource().reader, W.CeqaRecords, record).Some?
  {
    var record := C.RecordFields(SomeSource(), ZeroDigest(), C.Cells("t", "Riverside", None, None), others);
    C.RecordFieldsHold(SomeSource(), ZeroDigest(), C.Cells("t", "Riverside", None, None), others);
    assert |"title"| == 5 && |"ceqa_key"| == 8 && |"county"| == 6 && |"state_clearinghouse_number"| == 26;
    assert W.Get(record, "title") == JString("t");
    assert |C.KeyPrefix(W.CeqaRecords)| == 17;
  }

  lemma BridgeIsBuilt()
    ensures C.BuildBridge(SomeSource(), [SomeRow()]).Ok?
    ensures forall e :: e in C.BuildBridge(SomeSource(), [SomeRow()]).value.entries ==> e.county == "Riverside"
  {
    var s, row := SomeSource(), SomeRow();
    RowCells();
    RowIsAssembled();
    assert C.RowStepOf(s)(0, row, {}) == C.BridgeRow(s, 0, row, {});
    RowsOfOne(C.RowStepOf(s), s.sch, row);
    C.BridgeSucceedsIff(s, [row]);
  }

  lemma RowsOfOne(step: C.RowStep, sch: string, row: C.Row)
    requires step(0, row, {}).Ok?
    ensures C.BridgeRows(step, sch, [row]) == Ok([step(0, row, {}).value])
  {
    assert [row][..0] == [] && C.RecordKeys(sch, []) == {};
    assert C.BridgeRows(step, sch, []) == Ok([]);
    assert [] + [step(0, row, {}).value] == [step(0, row, {}).value];
  }

  function EmptyStore(): PX.State {
    PX.State(map[], [])
  }

  lemma CandidateIsPending()
    ensures IL.QueueCandidates([SomeCandidate()]) && IL.KeysNameProjects(EmptyStore().rows)
    ensures IL.InboxIn(IsReviewed(), EmptyStore(), [SomeCandidate()]).nextPending == Some(SCH)
  {
    var item := I.Reconciled(IsReviewed(), EmptyStore().rows, SomeCandidate());
    assert I.RecordsFor(EmptyStore().rows, SCH) == {};
    assert item.state == I.PendingCapture && item.sch == SCH;
    assert IL.ItemsIn(IsReviewed(), EmptyStore(), [SomeCandidate()]) == [item];
    assert [item][1..] == [] && [item] + [] == [item];
    assert I.Select([item], s => I.Pending(s)) == [item];
  }

  /** Some round meets every hypothesis of the inbox laws, through a reader that is no identity. */
  lemma SomeRoundIsMade() returns (after: PX.State)
    ensures IL.QueueCandidates([SomeCandidate()]) && IL.KeysNameProjects(EmptyStore().rows)
    ensures IL.Round(IsReviewed(), [SomeCandidate()], EmptyStore(), IL.Import(SomeSource(), [SomeRow()]), after)
  {
    var s, rows := SomeSource(), [SomeRow()];
    SomeSourceIsSound();
    BridgeIsBuilt();
    CandidateIsPending();
    C.BridgePlanIsAccepted(s, rows);
    var plan := W.PlanPayload(C.BuildBridge(s, rows).value.plan);
    after := PX.UpsertedAll(EmptyStore(), W.Prepare(s.reader, plan).value);
    assert IL.Captured(s, rows, SomeCandidate().county, EmptyStore(), after);
    assert SomeCandidate() in [SomeCandidate()];
  }
}
