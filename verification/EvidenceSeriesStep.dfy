/** Executing one gated request against a verified ledger, and running the ledger forward. */
module EvidenceSeriesStep {
  import opened Base
  import opened Ordering
  import opened CsvLive
  import opened EvidenceSeries
  import opened EvidenceSeriesLaws

  // The live executor's own ceiling, below the 30 seconds a policy may name.
  const MAX_LIVE_TIMEOUT_MILLIS := 20_000

  /** One attempt: what the operator asks for, when it was authorized and run, and what came back. */
  datatype Attempt = Attempt(
    ref: string,
    request: Request,
    maxRows: int,
    authorizedAt: int,
    executedAt: int,
    response: HttpResponse)

  /** The request model: project exports name no document, document exports name one. */
  predicate ValidRequest(r: Request) {
    r.kind == ProjectExport <==> r.documentId == None
  }

  /** The series verifier: intact, and equal to its recomputation from the executions. */
  predicate SeriesVerified(h: Hashes, p: Policy, inputs: seq<Input>, series: Series) {
    && series.digest == h.series(series.body)
    && Build(h, p, inputs).Ok? && Build(h, p, inputs).value.body == series.body
  }

  /** The checks made before anything is sent. */
  predicate Gates(h: Hashes, p: Policy, inputs: seq<Input>, series: Series, t: Attempt) {
    var obs := series.body.observations;
    && SeriesVerified(h, p, inputs, series)
    && Current(p, Day(t.authorizedAt))
    && series.body.status == Collecting
    && (forall o :: o in obs ==> o.body.utcDate != Day(t.authorizedAt))
    && (obs != [] ==> t.authorizedAt > obs[|obs| - 1].body.executedAt)
    && 0 <= t.maxRows <= 1_000
    && t.request.kind in p.allowedKinds
    && Day(t.executedAt) == Day(t.authorizedAt)
    && h.lib.parseUrl(t.request.sourceUrl) == Some(t.request)
    && 0 < p.timeoutMillis <= MAX_LIVE_TIMEOUT_MILLIS
    && 1 <= p.maxBodyBytes <= 10_000_000
  }

  /** Gate, send, verify, and bind the result; the models refuse inconsistent evidence. */
  function Execute(h: Hashes, p: Policy, inputs: seq<Input>, series: Series, t: Attempt)
    : Result<Execution, LedgerError>
  {
    if !Gates(h, p, inputs, series, t) then Err(GateClosed)
    else
      match BuildLive(h.lib, t.request, t.response, t.maxRows, t.executedAt)
      case None => Err(ExecutionRejected)
      case Some(live) =>
        var body := ExecutionBody(
          p.digest, t.authorizedAt, Day(t.executedAt), p.timeoutMillis, p.maxBodyBytes, t.maxRows,
          live, Verify(h.lib, live));
        if ConsistentExecution(body) then Ok(Execution(body, h.execution(body))) else Err(ExecutionRejected)
  }

  /** An attempt gets through exactly when the gates are open, it is not run before it was authorized, and the
      response can be retained as evidence. */
  lemma ExecuteSucceedsIff(h: Hashes, p: Policy, inputs: seq<Input>, series: Series, t: Attempt)
    ensures Execute(h, p, inputs, series, t).Ok? <==>
      && Gates(h, p, inputs, series, t) && t.authorizedAt <= t.executedAt
      && BuildLive(h.lib, t.request, t.response, t.maxRows, t.executedAt).Some?
    ensures Execute(h, p, inputs, series, t).Ok? ==>
      BuildLive(h.lib, t.request, t.response, t.maxRows, t.executedAt)
      == Some(Execute(h, p, inputs, series, t).value.body.live)
  {
  }

  // ---------- The new observation ----------

  /** What an execution that got through looks like. */
  ghost predicate ExecutedShape(h: Hashes, p: Policy, t: Attempt, e: Execution) {
    var live := e.body.live;
    && e.digest == h.execution(e.body) && ConsistentExecution(e.body)
    && e.body.policyDigest == p.digest
    && e.body.timeoutMillis == p.timeoutMillis && e.body.maxBodyBytes == p.maxBodyBytes
    && e.body.verification == Verify(h.lib, live)
    && e.body.utcDate == Day(t.executedAt) == Day(t.authorizedAt)
    && live.executedAt == t.executedAt >= t.authorizedAt
    && live.body.request == t.request && Retainable(live.body)
  }

  lemma Executed(h: Hashes, p: Policy, inputs: seq<Input>, series: Series, t: Attempt)
    requires Execute(h, p, inputs, series, t).Ok?
    ensures ExecutedShape(h, p, t, Execute(h, p, inputs, series, t).value)
  {
  }

  /** A passing execution makes a valid observation: it is a complete, inspected 200, and no code that
      halts the series is 200. */
  lemma ObservationIsValid(h: Hashes, p: Policy, t: Attempt, e: Execution)
    requires PolicyVerified(p) && ExecutedShape(h, p, t, e)
    requires ValidRequest(t.request) && CanonicalRef(t.ref)
    ensures ValidObservation(ObservationOf(p, t.ref, e, Verify(h.lib, e.body.live)))
  {
    if Verify(h.lib, e.body.live).Passed() {
      PassedIsInspected(h.lib, e.body.live);
    }
    FindingsAreDistinct(h.lib, e.body.live);
    assert 200 !in p.haltCodes;
  }

  /** An execution that got through can be observed. */
  lemma ExecutedIsObservable(h: Hashes, p: Policy, inputs: seq<Input>, series: Series, t: Attempt)
    requires Execute(h, p, inputs, series, t).Ok? && PolicyVerified(p)
    requires ValidRequest(t.request) && CanonicalRef(t.ref)
    ensures var e := Execute(h, p, inputs, series, t).value;
      && Observe(h, p, (t.ref, e)).Ok?
      && Observe(h, p, (t.ref, e)).value.body.executedAt == t.executedAt >= t.authorizedAt
  {
    var e := Execute(h, p, inputs, series, t).value;
    Executed(h, p, inputs, series, t);
    ObservationIsValid(h, p, t, e);
    assert Admissible(h, p, e);
  }

  lemma {:induction false} CollectAppend(observe: Observer, inputs: seq<Input>, x: Input)
    requires Collect(observe, inputs).Ok? && observe(x).Ok?
    ensures Collect(observe, inputs + [x]) == Ok(Collect(observe, inputs).value + [observe(x).value])
  {
    if inputs == [] {
      assert inputs + [x] == [x] && [x][1..] == [];
      assert Collect(observe, [x][1..]) == Ok([]);
      assert [observe(x).value] + [] == [observe(x).value] == [] + [observe(x).value];
    } else {
      assert (inputs + [x])[0] == inputs[0] && (inputs + [x])[1..] == inputs[1..] + [x];
      CollectAppend(observe, inputs[1..], x);
      var first, rest := observe(inputs[0]).value, Collect(observe, inputs[1..]).value;
      assert [first] + (rest + [observe(x).value]) == [first] + rest + [observe(x).value];
    }
  }

  // ---------- Order and identities after appending ----------

  lemma AppendInOrder(obs: seq<Observation>, last: Observation)
    requires InOrder(Key, obs)
    requires obs != [] ==> obs[|obs| - 1].body.executedAt < last.body.executedAt
    ensures InOrder(Key, obs + [last])
  {
    forall i | 0 <= i < |obs|
      ensures AtMost(Key(obs[i]), Key(last))
    {
      var top := obs[|obs| - 1];
      assert i < |obs| - 1 ==> AtMost(Key(obs[i]), Key(top));
      assert obs[i].body.executedAt <= top.body.executedAt by {
        assert Key(obs[i])[0] == obs[i].body.executedAt && Key(top)[0] == top.body.executedAt;
      }
      assert Key(obs[i])[0] < Key(last)[0];
    }
  }

  /** Appending an observation that is later than all others appends it to the sorted form. */
  lemma SortedAppend(obs: seq<Observation>, last: Observation)
    requires DistinctKeys(Key, obs + [last])
    requires var s := SortedBy(Key, obs);
      s != [] ==> s[|s| - 1].body.executedAt < last.body.executedAt
    ensures SortedBy(Key, obs + [last]) == SortedBy(Key, obs) + [last]
  {
    var s := SortedBy(Key, obs);
    SortedIsInOrder(Key, obs);
    SortedIsPermutation(Key, obs);
    AppendInOrder(s, last);
    SortForgetsOrder(Key, obs + [last], s + [last]);
    SortedWhenInOrder(Key, s + [last]);
  }

  lemma DistinctAppend<K>(key: Observation -> K, obs: seq<Observation>, last: Observation)
    requires DistinctKeys(key, obs) && forall o :: o in obs ==> key(o) != key(last)
    ensures DistinctKeys(key, obs + [last])
  {
  }

  /** A chain over the first observations does not see the later ones. */
  lemma {:induction false} ChainOfPrefix(snapshot: Snapshotter, a: seq<Observation>, b: seq<Observation>, k: nat)
    requires k <= |a| && a <= b
    ensures Chain(snapshot, a, k) == Chain(snapshot, b, k)
  {
    if k > 0 {
      ChainOfPrefix(snapshot, a, b, k - 1);
      assert a[..k] == b[..k];
    }
  }

  // ---------- The step refines the rebuild ----------

  /** An attempt that got through, as an input of the ledger. */
  function Filed(h: Hashes, p: Policy, inputs: seq<Input>, series: Series, t: Attempt): Input
    requires Execute(h, p, inputs, series, t).Ok?
  {
    (t.ref, Execute(h, p, inputs, series, t).value)
  }

  /** What the gates establish of the ledger: it is the rebuilt series, over the sorted observations, open. */
  lemma GatedLedger(h: Hashes, p: Policy, inputs: seq<Input>, series: Series, t: Attempt)
    requires Gates(h, p, inputs, series, t)
    ensures Build(h, p, inputs) == Ok(series) && ObserveAll(h, p, inputs).Ok? && PolicyVerified(p)
    ensures series.body.observations == SortedBy(Key, ObserveAll(h, p, inputs).value)
    ensures AcceptableFor(p, series.body.observations)
    ensures StatusOf(p, series.body.observations) == Collecting
    ensures OpenUntilTheEnd(p, series.body.observations, |series.body.observations|)
    ensures series.body.sequence == |series.body.observations|
  {
    BuiltSeries(h, p, inputs);
  }

  lemma ReferencesKept(h: Hashes, p: Policy, inputs: seq<Input>)
    requires ObserveAll(h, p, inputs).Ok?
    ensures |ObserveAll(h, p, inputs).value| == |inputs|
    ensures forall i :: 0 <= i < |inputs| ==> RefOf(ObserveAll(h, p, inputs).value[i]) == inputs[i].0
  {
    CollectedOneByOne(ObserverOf(h, p), inputs);
    forall i | 0 <= i < |inputs|
      ensures RefOf(ObserveAll(h, p, inputs).value[i]) == inputs[i].0
    {
      FactsAt(h, p, inputs, i);
    }
  }

  lemma FreshReference(inputs: seq<Input>, obs: seq<Observation>, ref: string)
    requires |obs| == |inputs| && forall i :: 0 <= i < |inputs| ==> RefOf(obs[i]) == inputs[i].0
    ensures (forall y :: y in obs ==> RefOf(y) != ref) <==> forall input :: input in inputs ==> input.0 != ref
  {
    if forall y :: y in obs ==> RefOf(y) != ref {
      forall input | input in inputs
        ensures input.0 != ref
      {
        var i :| 0 <= i < |inputs| && inputs[i] == input;
        assert obs[i] in obs;
      }
    }
  }

  /** The new observation falls on a day of its own: the gate has looked at every old one. */
  lemma NewDate(h: Hashes, p: Policy, inputs: seq<Input>, series: Series, t: Attempt, day: int)
    requires Gates(h, p, inputs, series, t) && day == Day(t.authorizedAt)
    ensures ObserveAll(h, p, inputs).Ok?
    ensures forall y :: y in ObserveAll(h, p, inputs).value ==> DateOf(y) != day
  {
    GatedLedger(h, p, inputs, series, t);
    SortedIsPermutation(Key, ObserveAll(h, p, inputs).value);
    SameElements(ObserveAll(h, p, inputs).value, series.body.observations);
  }

  /** The observation of an attempt that got through. */
  lemma NewObservation(h: Hashes, p: Policy, inputs: seq<Input>, series: Series, t: Attempt)
    requires Execute(h, p, inputs, series, t).Ok?
    requires ValidRequest(t.request) && CanonicalRef(t.ref)
    ensures var x := Filed(h, p, inputs, series, t);
      && Observe(h, p, x).Ok? && RefOf(Observe(h, p, x).value) == t.ref
      && DateOf(Observe(h, p, x).value) == Day(t.authorizedAt)
      && Observe(h, p, x).value.body.executedAt == t.executedAt >= t.authorizedAt
  {
    GatedLedger(h, p, inputs, series, t);
    ExecutedIsObservable(h, p, inputs, series, t);
    Executed(h, p, inputs, series, t);
    ObservedFacts(h, p, Filed(h, p, inputs, series, t));
  }

  /** Observing the longer list appends the new observation, also to the sorted form. */
  lemma AppendedObservations(h: Hashes, p: Policy, inputs: seq<Input>, series: Series, t: Attempt)
    requires Execute(h, p, inputs, series, t).Ok?
    requires ValidRequest(t.request) && CanonicalRef(t.ref)
    ensures var x := Filed(h, p, inputs, series, t);
      && Observe(h, p, x).Ok? && ObserveAll(h, p, inputs).Ok?
      && var obs, o := ObserveAll(h, p, inputs).value, Observe(h, p, x).value;
      && ObserveAll(h, p, inputs + [x]) == Ok(obs + [o])
      && DistinctKeys(DateOf, obs + [o])
      && SortedBy(Key, obs + [o]) == series.body.observations + [o]
  {
    var x := Filed(h, p, inputs, series, t);
    GatedLedger(h, p, inputs, series, t);
    NewObservation(h, p, inputs, series, t);
    var obs, o := ObserveAll(h, p, inputs).value, Observe(h, p, x).value;
    CollectAppend(ObserverOf(h, p), inputs, x);
    NewDate(h, p, inputs, series, t, DateOf(o));
    SortedIsPermutation(Key, obs);
    SameDistinctKeys(DateOf, obs, series.body.observations);
    DistinctAppend(DateOf, obs, o);
    DistinctDatesDistinctKeys(h, p, inputs + [x]);
    SortedAppend(obs, o);
  }

  lemma DistinctAppendIff<K>(key: Observation -> K, obs: seq<Observation>, last: Observation)
    requires DistinctKeys(key, obs)
    ensures DistinctKeys(key, obs + [last]) <==> forall o :: o in obs ==> key(o) != key(last)
  {
    if forall o :: o in obs ==> key(o) != key(last) {
      DistinctAppend(key, obs, last);
    } else {
      var i :| 0 <= i < |obs| && key(obs[i]) == key(last);
      assert (obs + [last])[i] == obs[i] && (obs + [last])[|obs|] == last;
    }
  }

  lemma AppendedReferences(h: Hashes, p: Policy, inputs: seq<Input>, series: Series, t: Attempt, o: Observation)
    requires Gates(h, p, inputs, series, t) && RefOf(o) == t.ref
    ensures ObserveAll(h, p, inputs).Ok?
    ensures DistinctKeys(RefOf, ObserveAll(h, p, inputs).value + [o])
        <==> forall input :: input in inputs ==> input.0 != t.ref
  {
    GatedLedger(h, p, inputs, series, t);
    var obs := ObserveAll(h, p, inputs).value;
    SortedIsPermutation(Key, obs);
    SameDistinctKeys(RefOf, obs, series.body.observations);
    DistinctAppendIff(RefOf, obs, o);
    ReferencesKept(h, p, inputs);
    FreshReference(inputs, obs, t.ref);
  }

  lemma StillOpen(p: Policy, s: seq<Observation>, longer: seq<Observation>)
    requires |longer| == |s| + 1 && longer[..|s|] == s
    requires OpenUntilTheEnd(p, s, |s|) && StatusOf(p, s) == Collecting
    ensures OpenUntilTheEnd(p, longer, |longer|)
  {
    forall j | 0 <= j < |longer|
      ensures StatusOf(p, longer[..j]) == Collecting
    {
      assert longer[..j] == s[..j];
      assert s[..|s|] == s;
    }
  }

  /** An execution that got through can be filed exactly under a fresh, canonical reference: then the rebuild
      succeeds, and otherwise it fails. */
  lemma RebuildSucceedsIff(h: Hashes, p: Policy, inputs: seq<Input>, series: Series, t: Attempt)
    requires Execute(h, p, inputs, series, t).Ok? && ValidRequest(t.request)
    requires NoCollisions(h, p, inputs + [Filed(h, p, inputs, series, t)])
    ensures Build(h, p, inputs + [Filed(h, p, inputs, series, t)]).Ok?
        <==> CanonicalRef(t.ref) && forall input :: input in inputs ==> input.0 != t.ref
  {
    var x := Filed(h, p, inputs, series, t);
    GatedLedger(h, p, inputs, series, t);
    BuildSucceedsIff(h, p, inputs + [x]);
    if CanonicalRef(t.ref) {
      AppendedObservations(h, p, inputs, series, t);
      NewObservation(h, p, inputs, series, t);
      AppendedReferences(h, p, inputs, series, t, Observe(h, p, x).value);
      StillOpen(p, series.body.observations, series.body.observations + [Observe(h, p, x).value]);
    } else {
      CollectedOneByOne(ObserverOf(h, p), inputs + [x]);
      assert (inputs + [x])[|inputs|] == x;
    }
  }

  /** A gated execution, filed under a fresh reference, makes the full rebuild succeed: the observations
      are the old ones and then the new one, and the predecessor is the series it was gated on. */
  lemma ExecutionExtendsSeries(h: Hashes, p: Policy, inputs: seq<Input>, series: Series, t: Attempt)
    requires Execute(h, p, inputs, series, t).Ok?
    requires ValidRequest(t.request) && CanonicalRef(t.ref)
    requires forall input :: input in inputs ==> input.0 != t.ref
    requires NoCollisions(h, p, inputs + [Filed(h, p, inputs, series, t)])
    ensures var x := Filed(h, p, inputs, series, t);
      && Observe(h, p, x).Ok? && Build(h, p, inputs + [x]).Ok?
      && var next := Build(h, p, inputs + [x]).value;
      && next.body.observations == series.body.observations + [Observe(h, p, x).value]
      && next.body.sequence == series.body.sequence + 1
      && next.body.predecessor == Some(series.digest)
      && SeriesVerified(h, p, inputs + [x], next)
  {
    var x := Filed(h, p, inputs, series, t);
    RebuildSucceedsIff(h, p, inputs, series, t);
    AppendedObservations(h, p, inputs, series, t);
    GatedLedger(h, p, inputs, series, t);
    BuiltSeries(h, p, inputs + [x]);
    Predecessor(h, p, inputs, series, inputs + [x], Observe(h, p, x).value);
  }

  /** A series over one more observation names the series without it as its predecessor. */
  lemma Predecessor(h: Hashes, p: Policy, inputs: seq<Input>, series: Series, more: seq<Input>, o: Observation)
    requires Build(h, p, inputs) == Ok(series) && Build(h, p, more).Ok? && PolicyVerified(p)
    requires ObserveAll(h, p, inputs).Ok? && ObserveAll(h, p, more).Ok?
    requires series.body.observations == SortedBy(Key, ObserveAll(h, p, inputs).value)
    requires SortedBy(Key, ObserveAll(h, p, more).value) == series.body.observations + [o]
    ensures Build(h, p, more).value.body.predecessor == Some(series.digest)
  {
    var s := series.body.observations;
    SnapshotsAreLawful(h, p);
    ChainContent(SnapshotsOf(h, p), p, s + [o], |s + [o]|);
    ChainOfPrefix(SnapshotsOf(h, p), s, s + [o], |s|);
    assert Chain(SnapshotsOf(h, p), s, |s|) == Ok(series);
  }

  // ---------- Whole runs ----------

  /** One attempt against the ledger of the inputs: an execution that gets through is filed, whatever the
      next rebuild will make of it. A ledger that cannot be rebuilt lets nothing through. */
  function Advance(h: Hashes, p: Policy, inputs: seq<Input>, t: Attempt): seq<Input> {
    match Build(h, p, inputs)
    case Err(_) => inputs
    case Ok(series) =>
      if Execute(h, p, inputs, series, t).Ok? then inputs + [Filed(h, p, inputs, series, t)] else inputs
  }

  function Run(h: Hashes, p: Policy, inputs: seq<Input>, attempts: seq<Attempt>): seq<Input>
    decreases |attempts|
  {
    if attempts == [] then inputs else Run(h, p, Advance(h, p, inputs, attempts[0]), attempts[1..])
  }

  /** How many of the attempts got through. */
  function Executions(h: Hashes, p: Policy, inputs: seq<Input>, attempts: seq<Attempt>): nat
    decreases |attempts|
  {
    if attempts == [] then 0
    else
      var series := Build(h, p, inputs);
      (if series.Ok? && Execute(h, p, inputs, series.value, attempts[0]).Ok? then 1 else 0)
      + Executions(h, p, Advance(h, p, inputs, attempts[0]), attempts[1..])
  }

  /** Valid requests under canonical references that nobody else uses. */
  ghost predicate Fresh(inputs: seq<Input>, attempts: seq<Attempt>) {
    && (forall t :: t in attempts ==> ValidRequest(t.request) && CanonicalRef(t.ref))
    && (forall input, t :: input in inputs && t in attempts ==> input.0 != t.ref)
    && forall i, j :: 0 <= i < j < |attempts| ==> attempts[i].ref != attempts[j].ref
  }

  lemma {:induction false} RunsOnlyAppend(h: Hashes, p: Policy, inputs: seq<Input>, attempts: seq<Attempt>)
    ensures inputs <= Run(h, p, inputs, attempts)
    ensures |Run(h, p, inputs, attempts)| == |inputs| + Executions(h, p, inputs, attempts)
    decreases |attempts|
  {
    if attempts != [] {
      RunsOnlyAppend(h, p, Advance(h, p, inputs, attempts[0]), attempts[1..]);
    }
  }

  lemma StillFresh(h: Hashes, p: Policy, inputs: seq<Input>, attempts: seq<Attempt>)
    requires attempts != [] && Fresh(inputs, attempts)
    ensures Fresh(Advance(h, p, inputs, attempts[0]), attempts[1..])
  {
    var next, rest := Advance(h, p, inputs, attempts[0]), attempts[1..];
    assert forall i :: 0 <= i < |rest| ==> rest[i] == attempts[i + 1];
    forall input, t | input in next && t in rest
      ensures input.0 != t.ref
    {
      var j :| 0 <= j < |rest| && rest[j] == t;
      assert attempts[j + 1].ref != attempts[0].ref;
      assert t in attempts;
    }
  }

  /** The later observations are the earlier ones and then those of the added inputs, in order. */
  ghost predicate Adds(observe: Observer, before: seq<Observation>, added: seq<Input>, after: seq<Observation>) {
    && Collect(observe, added).Ok? && |Collect(observe, added).value| == |added|
    && after == before + Collect(observe, added).value
  }

  lemma AddsNothing(observe: Observer, before: seq<Observation>)
    ensures Adds(observe, before, [], before)
  {
    assert before + [] == before;
  }

  lemma AddsOne(observe: Observer, before: seq<Observation>, x: Input)
    requires observe(x).Ok?
    ensures Adds(observe, before, [x], before + [observe(x).value])
  {
    assert [x][1..] == [];
    assert Collect(observe, [x][1..]) == Ok([]);
    assert [observe(x).value] + [] == [observe(x).value];
  }

  lemma {:induction false} CollectConcat(observe: Observer, a: seq<Input>, b: seq<Input>)
    requires Collect(observe, a).Ok? && Collect(observe, b).Ok?
    ensures Collect(observe, a + b) == Ok(Collect(observe, a).value + Collect(observe, b).value)
  {
    if a == [] {
      assert a + b == b;
      assert [] + Collect(observe, b).value == Collect(observe, b).value;
    } else {
      var first, rest := observe(a[0]).value, Collect(observe, a[1..]).value;
      assert (a + b)[0] == a[0] && (a + b)[1..] == a[1..] + b;
      CollectConcat(observe, a[1..], b);
      assert [first] + (rest + Collect(observe, b).value) == [first] + rest + Collect(observe, b).value;
    }
  }

  lemma Associative<T>(x: seq<T>, y: seq<T>, z: seq<T>)
    ensures x + y + z == x + (y + z)
  {
  }

  lemma AddsTwice(observe: Observer, x: seq<Observation>, a: seq<Input>, y: seq<Observation>, b: seq<Input>,
                  z: seq<Observation>)
    requires Adds(observe, x, a, y) && Adds(observe, y, b, z)
    ensures Adds(observe, x, a + b, z)
  {
    CollectConcat(observe, a, b);
    Associative(x, Collect(observe, a).value, Collect(observe, b).value);
  }

  lemma InParts<T>(a: seq<T>, b: seq<T>, c: seq<T>)
    requires a <= b <= c
    ensures a <= c && c[|a|..] == b[|a|..] + c[|b|..]
  {
  }

  lemma AddsInParts(observe: Observer, a: seq<Input>, b: seq<Input>, c: seq<Input>, x: seq<Observation>,
                    y: seq<Observation>, z: seq<Observation>)
    requires a <= b <= c && Adds(observe, x, b[|a|..], y) && Adds(observe, y, c[|b|..], z)
    ensures a <= c && Adds(observe, x, c[|a|..], z)
  {
    InParts(a, b, c);
    AddsTwice(observe, x, b[|a|..], y, c[|b|..], z);
  }

  function ObservationsOf(h: Hashes, p: Policy, inputs: seq<Input>): seq<Observation>
    requires Build(h, p, inputs).Ok?
  {
    Build(h, p, inputs).value.body.observations
  }

  /** Both ledgers can be rebuilt, and the longer one's observations are the shorter one's and then those of
      the added inputs, in order. */
  ghost predicate Grows(h: Hashes, p: Policy, inputs: seq<Input>, more: seq<Input>) {
    && inputs <= more && Build(h, p, inputs).Ok? && Build(h, p, more).Ok?
    && Adds(ObserverOf(h, p), ObservationsOf(h, p, inputs), more[|inputs|..], ObservationsOf(h, p, more))
  }

  lemma GrowsNothing(h: Hashes, p: Policy, inputs: seq<Input>)
    requires Build(h, p, inputs).Ok?
    ensures Grows(h, p, inputs, inputs)
  {
    assert inputs[|inputs|..] == [];
    AddsNothing(ObserverOf(h, p), ObservationsOf(h, p, inputs));
  }

  lemma GrowsTwice(h: Hashes, p: Policy, a: seq<Input>, b: seq<Input>, c: seq<Input>)
    requires Grows(h, p, a, b) && Grows(h, p, b, c)
    ensures Grows(h, p, a, c)
  {
    AddsInParts(ObserverOf(h, p), a, b, c, ObservationsOf(h, p, a), ObservationsOf(h, p, b), ObservationsOf(h, p, c));
  }

  /** One attempt of a run. */
  lemma AttemptGrows(h: Hashes, p: Policy, inputs: seq<Input>, t: Attempt)
    requires Build(h, p, inputs).Ok? && ValidRequest(t.request) && CanonicalRef(t.ref)
    requires forall input :: input in inputs ==> input.0 != t.ref
    requires NoCollisions(h, p, Advance(h, p, inputs, t))
    ensures Grows(h, p, inputs, Advance(h, p, inputs, t))
  {
    var series := Build(h, p, inputs).value;
    if Execute(h, p, inputs, series, t).Ok? {
      var x := Filed(h, p, inputs, series, t);
      assert Advance(h, p, inputs, t) == inputs + [x];
      ExecutionExtendsSeries(h, p, inputs, series, t);
      assert (inputs + [x])[|inputs|..] == [x];
      AddsOne(ObserverOf(h, p), series.body.observations, x);
    } else {
      GrowsNothing(h, p, inputs);
    }
  }

  lemma FewerInputsNoCollisions(h: Hashes, p: Policy, inputs: seq<Input>, more: seq<Input>)
    requires inputs <= more && NoCollisions(h, p, more)
    ensures NoCollisions(h, p, inputs)
  {
    assert forall x :: x in inputs ==> x in more;
  }

  lemma {:induction false} RunGrows(h: Hashes, p: Policy, inputs: seq<Input>, attempts: seq<Attempt>)
    requires Build(h, p, inputs).Ok? && Fresh(inputs, attempts)
    requires NoCollisions(h, p, Run(h, p, inputs, attempts))
    ensures Grows(h, p, inputs, Run(h, p, inputs, attempts))
    decreases |attempts|
  {
    if attempts == [] {
      GrowsNothing(h, p, inputs);
    } else {
      var next := Advance(h, p, inputs, attempts[0]);
      assert attempts[0] in attempts;
      RunsOnlyAppend(h, p, next, attempts[1..]);
      FewerInputsNoCollisions(h, p, next, Run(h, p, next, attempts[1..]));
      AttemptGrows(h, p, inputs, attempts[0]);
      StillFresh(h, p, inputs, attempts);
      RunGrows(h, p, next, attempts[1..]);
      GrowsTwice(h, p, inputs, next, Run(h, p, next, attempts[1..]));
    }
  }

  /** Whole runs. From a ledger that can be rebuilt, with requests under fresh canonical references, each
      attempt that gets through adds one input, and the ledger can still be rebuilt: its observations are the
      old ones and then those of the added executions in order. No attempt leaves a ledger behind that its own
      verifier rejects, and there are never more executions than the window has days. */
  lemma RunsExtendLedgers(h: Hashes, p: Policy, inputs: seq<Input>, attempts: seq<Attempt>)
    requires Build(h, p, inputs).Ok? && Fresh(inputs, attempts)
    requires NoCollisions(h, p, Run(h, p, inputs, attempts))
    ensures var r := Run(h, p, inputs, attempts);
      && inputs <= r && |r| == |inputs| + Executions(h, p, inputs, attempts)
      && Build(h, p, r).Ok? && SeriesVerified(h, p, r, Build(h, p, r).value)
      && Adds(ObserverOf(h, p), ObservationsOf(h, p, inputs), r[|inputs|..], ObservationsOf(h, p, r))
      && |r| <= p.expires - p.effective + 1 <= 31
  {
    RunsOnlyAppend(h, p, inputs, attempts);
    RunGrows(h, p, inputs, attempts);
    LedgersAreBounded(h, p, Run(h, p, inputs, attempts));
  }

  lemma LedgersAreBounded(h: Hashes, p: Policy, inputs: seq<Input>)
    requires Build(h, p, inputs).Ok?
    ensures |inputs| <= p.expires - p.effective + 1 <= 31
    ensures SeriesVerified(h, p, inputs, Build(h, p, inputs).value)
  {
    ObservationsAreBounded(h, p, inputs);
    BuiltSeries(h, p, inputs);
    CollectedOneByOne(ObserverOf(h, p), inputs);
    SortedIsPermutation(Key, ObserveAll(h, p, inputs).value);
    assert |multiset(ObserveAll(h, p, inputs).value)| == |inputs|;
  }

  /** Finality: a ledger that halted or completed is never changed again. */
  lemma {:induction false} TerminalLedgersAreFinal(h: Hashes, p: Policy, inputs: seq<Input>, attempts: seq<Attempt>)
    requires Build(h, p, inputs).Ok? && Build(h, p, inputs).value.body.status != Collecting
    ensures Run(h, p, inputs, attempts) == inputs && Executions(h, p, inputs, attempts) == 0
    decreases |attempts|
  {
    if attempts != [] {
      TerminalLedgersAreFinal(h, p, inputs, attempts[1..]);
    }
  }
}
