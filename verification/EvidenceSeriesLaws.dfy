/** What the evidence ledger guarantees: when it can be built, that input order does not matter, that one
    gated execution extends it, and the bounds that follow from one execution per day. */
module EvidenceSeriesLaws {
  import opened Base
  import opened Ordering
  import opened CsvLive
  import opened EvidenceSeries

  // ---------- The chain ----------

  /** The ledger is still open after each proper prefix: neither halted nor ready. */
  ghost predicate OpenUntilTheEnd(p: Policy, obs: seq<Observation>, k: nat)
    requires k <= |obs|
  {
    forall j :: 0 <= j < k ==> StatusOf(p, obs[..j]) == Collecting
  }

  /** What one snapshot needs, and what it then holds. */
  ghost predicate SnapshotLaw(snapshot: Snapshotter, p: Policy, obs: seq<Observation>, predecessor: Option<string>) {
    var r := snapshot(obs, predecessor);
    && (r.Ok? <==> InOrder(Key, obs) && AcceptableFor(p, obs) && HaltOnlyLast(obs))
    && (r.Ok? ==> Describes(p, obs, r.value.body) && r.value.body.predecessor == predecessor)
  }

  /** The parts of a snapshot that its observations and its policy fix. */
  ghost predicate Describes(p: Policy, obs: seq<Observation>, s: SeriesBody) {
    && s.observations == obs && s.sequence == |obs|
    && s.status == StatusOf(p, obs)
    && s.policyDigest == p.digest && s.effective == p.effective && s.expires == p.expires
  }

  lemma SnapshotIff(h: Hashes, p: Policy, obs: seq<Observation>, predecessor: Option<string>)
    requires p.effective <= p.expires && (obs == [] <==> predecessor == None)
    ensures SnapshotLaw(SnapshotsOf(h, p), p, obs, predecessor)
  {
    DraftIsValidIff(p, obs, predecessor);
  }

  ghost predicate Lawful(snapshot: Snapshotter, p: Policy) {
    forall obs, predecessor :: (obs == [] <==> predecessor == None) ==> SnapshotLaw(snapshot, p, obs, predecessor)
  }

  lemma SnapshotsAreLawful(h: Hashes, p: Policy)
    requires p.effective <= p.expires
    ensures Lawful(SnapshotsOf(h, p), p)
  {
    forall obs, predecessor: Option<string> | obs == [] <==> predecessor == None
      ensures SnapshotLaw(SnapshotsOf(h, p), p, obs, predecessor)
    {
      SnapshotIff(h, p, obs, predecessor);
    }
  }

  lemma PrefixesStayAcceptable(p: Policy, obs: seq<Observation>)
    requires obs != [] && InOrder(Key, obs) && AcceptableFor(p, obs)
    ensures InOrder(Key, obs[..|obs| - 1]) && AcceptableFor(p, obs[..|obs| - 1])
  {
    var front := obs[..|obs| - 1];
    assert forall i :: 0 <= i < |front| ==> front[i] == obs[i];
    assert forall o :: o in front ==> o in obs;
  }

  lemma HaltClosesTheLedger(p: Policy, obs: seq<Observation>)
    requires obs != []
    ensures StatusOf(p, obs[..|obs| - 1]) == Collecting ==> HaltOnlyLast(obs)
  {
    HaltsNothing(obs[..|obs| - 1]);
    assert forall i :: 0 <= i < |obs| - 1 ==> obs[..|obs| - 1][i] == obs[i];
  }

  /** The conditions a chain of length `k` needs. */
  ghost predicate ChainConditions(p: Policy, obs: seq<Observation>, k: nat)
    requires k <= |obs|
  {
    InOrder(Key, obs[..k]) && AcceptableFor(p, obs[..k]) && OpenUntilTheEnd(p, obs, k)
  }

  lemma ConditionsStep(p: Policy, obs: seq<Observation>, k: nat)
    requires 0 < k <= |obs|
    ensures ChainConditions(p, obs, k) <==>
      && ChainConditions(p, obs, k - 1) && StatusOf(p, obs[..k - 1]) == Collecting
      && InOrder(Key, obs[..k]) && AcceptableFor(p, obs[..k])
  {
    assert obs[..k][..k - 1] == obs[..k - 1];
    if InOrder(Key, obs[..k]) && AcceptableFor(p, obs[..k]) {
      PrefixesStayAcceptable(p, obs[..k]);
    }
  }

  /** A chain's last link covers the observations it was given. */
  lemma ChainContent(snapshot: Snapshotter, p: Policy, obs: seq<Observation>, k: nat)
    requires Lawful(snapshot, p) && k <= |obs| && Chain(snapshot, obs, k).Ok?
    ensures var s := Chain(snapshot, obs, k).value;
      && Describes(p, obs[..k], s.body)
      && (k > 0 ==> Chain(snapshot, obs, k - 1).Ok?
                    && s.body.predecessor == Some(Chain(snapshot, obs, k - 1).value.digest))
  {
    if k == 0 {
      assert obs[..0] == [];
      assert SnapshotLaw(snapshot, p, [], None);
    } else {
      assert SnapshotLaw(snapshot, p, obs[..k], Some(Chain(snapshot, obs, k - 1).value.digest));
    }
  }

  /** On top of an open ledger a snapshot needs only order, identities and window. */
  lemma LinkIff(snapshot: Snapshotter, p: Policy, obs: seq<Observation>, digest: string)
    requires Lawful(snapshot, p) && obs != [] && StatusOf(p, obs[..|obs| - 1]) == Collecting
    ensures snapshot(obs, Some(digest)).Ok? <==> InOrder(Key, obs) && AcceptableFor(p, obs)
  {
    assert SnapshotLaw(snapshot, p, obs, Some(digest));
    HaltClosesTheLedger(p, obs);
  }

  lemma NextLinkIff(snapshot: Snapshotter, p: Policy, obs: seq<Observation>, previous: Series)
    requires Lawful(snapshot, p) && obs != [] && Describes(p, obs[..|obs| - 1], previous.body)
    ensures previous.body.status == Collecting && snapshot(obs, Some(previous.digest)).Ok? <==>
      StatusOf(p, obs[..|obs| - 1]) == Collecting && InOrder(Key, obs) && AcceptableFor(p, obs)
  {
    if previous.body.status == Collecting {
      LinkIff(snapshot, p, obs, previous.digest);
    }
  }

  /** One link: the chain grows exactly when it is open and the new prefix is acceptable in order. */
  lemma ChainStep(snapshot: Snapshotter, p: Policy, obs: seq<Observation>, k: nat)
    requires Lawful(snapshot, p) && 0 < k <= |obs|
    ensures Chain(snapshot, obs, k).Ok? <==>
      && Chain(snapshot, obs, k - 1).Ok? && StatusOf(p, obs[..k - 1]) == Collecting
      && InOrder(Key, obs[..k]) && AcceptableFor(p, obs[..k])
  {
    var previous := Chain(snapshot, obs, k - 1);
    if previous.Ok? {
      ChainContent(snapshot, p, obs, k - 1);
      assert obs[..k][..k - 1] == obs[..k - 1];
      NextLinkIff(snapshot, p, obs[..k], previous.value);
    }
  }

  lemma ChainStart(snapshot: Snapshotter, p: Policy, obs: seq<Observation>)
    requires Lawful(snapshot, p)
    ensures Chain(snapshot, obs, 0).Ok? && ChainConditions(p, obs, 0)
  {
    assert obs[..0] == [];
    assert SnapshotLaw(snapshot, p, [], None);
  }

  type StepTest = nat -> bool

  /** Two properties that start out true and are kept by the same steps agree. */
  lemma {:induction false} SameSteps(a: StepTest, b: StepTest, step: StepTest, k: nat)
    requires a(0) && b(0)
    requires forall j: nat :: 0 < j <= k ==> (a(j) <==> a(j - 1) && step(j)) && (b(j) <==> b(j - 1) && step(j))
    ensures a(k) <==> b(k)
  {
    if k > 0 {
      SameSteps(a, b, step, k - 1);
    }
  }

  /** A chain is built exactly over acceptable observations in order that leave it open until the end. */
  lemma ChainIff(snapshot: Snapshotter, p: Policy, obs: seq<Observation>, k: nat)
    requires Lawful(snapshot, p) && k <= |obs|
    ensures Chain(snapshot, obs, k).Ok? <==> ChainConditions(p, obs, k)
  {
    var built: StepTest := (j: nat) => j <= |obs| && Chain(snapshot, obs, j).Ok?;
    var allowed: StepTest := (j: nat) => j <= |obs| && ChainConditions(p, obs, j);
    var step: StepTest := (j: nat) =>
      && 0 < j <= |obs| && StatusOf(p, obs[..j - 1]) == Collecting
      && InOrder(Key, obs[..j]) && AcceptableFor(p, obs[..j]);
    ChainStart(snapshot, p, obs);
    forall j: nat | 0 < j <= k
      ensures built(j) <==> built(j - 1) && step(j)
      ensures allowed(j) <==> allowed(j - 1) && step(j)
    {
      ChainStep(snapshot, p, obs, j);
      ConditionsStep(p, obs, j);
    }
    SameSteps(built, allowed, step, k);
  }

  ghost predicate BoundAndValid(h: Hashes, s: Series) {
    ValidSeries(s.body) && s.digest == h.series(s.body)
  }

  lemma SnapshotIsValid(h: Hashes, p: Policy, obs: seq<Observation>, predecessor: Option<string>)
    ensures var r := SnapshotsOf(h, p)(obs, predecessor);
      r.Ok? ==> BoundAndValid(h, r.value)
  {
  }

  /** A chain's last link is a digest-bound snapshot that passes the series model's validator. */
  lemma ChainIsValid(h: Hashes, p: Policy, obs: seq<Observation>, k: nat)
    requires k <= |obs| && Chain(SnapshotsOf(h, p), obs, k).Ok?
    ensures BoundAndValid(h, Chain(SnapshotsOf(h, p), obs, k).value)
  {
    var snapshot := SnapshotsOf(h, p);
    if k == 0 {
      SnapshotIsValid(h, p, [], None);
    } else {
      SnapshotIsValid(h, p, obs[..k], Some(Chain(snapshot, obs, k - 1).value.digest));
    }
  }

  // ---------- Observations of executions ----------

  /** Different executions, or different observations, with one digest. */
  ghost predicate Collide(h: Hashes, p: Policy, a: Input, b: Input) {
    || (a.1.body != b.1.body && h.execution(a.1.body) == h.execution(b.1.body))
    || (Observe(h, p, a).Ok? && Observe(h, p, b).Ok?
        && Observe(h, p, a).value.body != Observe(h, p, b).value.body
        && Observe(h, p, a).value.digest == Observe(h, p, b).value.digest)
  }

  /** The digests are free of collisions on the executions at hand. */
  ghost predicate NoCollisions(h: Hashes, p: Policy, inputs: seq<Input>) {
    forall a, b :: a in inputs && b in inputs ==> !Collide(h, p, a, b)
  }

  ghost predicate ObservationFacts(h: Hashes, p: Policy, input: Input, o: Observation) {
    && o.body.ref == input.0
    && o.body.policyDigest == p.digest && p.effective <= o.body.utcDate <= p.expires
    && o.body.utcDate == input.1.body.utcDate == Day(o.body.executedAt)
    && o.body.executionDigest == h.execution(input.1.body)
    && o.digest == h.observation(o.body)
  }

  lemma ObservedFacts(h: Hashes, p: Policy, input: Input)
    requires Observe(h, p, input).Ok?
    ensures ObservationFacts(h, p, input, Observe(h, p, input).value)
  {
  }

  lemma {:induction false} CollectedOneByOne(observe: Observer, inputs: seq<Input>)
    ensures Collect(observe, inputs).Ok? <==> forall i :: 0 <= i < |inputs| ==> observe(inputs[i]).Ok?
    ensures Collect(observe, inputs).Ok? ==>
      && |Collect(observe, inputs).value| == |inputs|
      && forall i :: 0 <= i < |inputs| ==> observe(inputs[i]) == Ok(Collect(observe, inputs).value[i])
  {
    if inputs != [] {
      CollectedOneByOne(observe, inputs[1..]);
      assert forall i :: 0 < i < |inputs| ==> inputs[i] == inputs[1..][i - 1];
      assert forall i :: 0 <= i < |inputs[1..]| ==> inputs[1..][i] == inputs[i + 1];
    }
  }

  lemma ObservedOneByOne(h: Hashes, p: Policy, inputs: seq<Input>, i: nat)
    requires ObserveAll(h, p, inputs).Ok? && i < |ObserveAll(h, p, inputs).value|
    ensures |ObserveAll(h, p, inputs).value| == |inputs|
    ensures Observe(h, p, inputs[i]) == Ok(ObserveAll(h, p, inputs).value[i])
  {
    CollectedOneByOne(ObserverOf(h, p), inputs);
    assert ObserverOf(h, p)(inputs[i]) == Ok(ObserveAll(h, p, inputs).value[i]);
  }

  /** The facts about the observation at one position. */
  lemma FactsAt(h: Hashes, p: Policy, inputs: seq<Input>, i: nat)
    requires ObserveAll(h, p, inputs).Ok? && i < |ObserveAll(h, p, inputs).value|
    ensures |ObserveAll(h, p, inputs).value| == |inputs|
    ensures ObservationFacts(h, p, inputs[i], ObserveAll(h, p, inputs).value[i])
  {
    ObservedOneByOne(h, p, inputs, i);
    ObservedFacts(h, p, inputs[i]);
  }

  /** Different dates make different executions and observations, so their digests differ too. */
  lemma DistinctDatesDistinctDigests(h: Hashes, p: Policy, inputs: seq<Input>)
    requires NoCollisions(h, p, inputs) && ObserveAll(h, p, inputs).Ok?
    requires DistinctKeys(DateOf, ObserveAll(h, p, inputs).value)
    ensures DistinctKeys(ExecutionDigestOf, ObserveAll(h, p, inputs).value)
    ensures DistinctKeys(DigestOf, ObserveAll(h, p, inputs).value)
  {
    var obs := ObserveAll(h, p, inputs).value;
    forall i, j | 0 <= i < j < |obs|
      ensures ExecutionDigestOf(obs[i]) != ExecutionDigestOf(obs[j]) && DigestOf(obs[i]) != DigestOf(obs[j])
    {
      assert DateOf(obs[i]) != DateOf(obs[j]);
      DifferingDigests(h, p, inputs, i, j);
    }
  }

  lemma DifferingDigests(h: Hashes, p: Policy, inputs: seq<Input>, i: nat, j: nat)
    requires NoCollisions(h, p, inputs) && ObserveAll(h, p, inputs).Ok?
    requires var obs := ObserveAll(h, p, inputs).value; i < |obs| && j < |obs| && DateOf(obs[i]) != DateOf(obs[j])
    ensures var obs := ObserveAll(h, p, inputs).value;
      ExecutionDigestOf(obs[i]) != ExecutionDigestOf(obs[j]) && DigestOf(obs[i]) != DigestOf(obs[j])
  {
    FactsAt(h, p, inputs, i);
    FactsAt(h, p, inputs, j);
    ObservedOneByOne(h, p, inputs, i);
    ObservedOneByOne(h, p, inputs, j);
    assert inputs[i] in inputs && inputs[j] in inputs;
    assert !Collide(h, p, inputs[i], inputs[j]);
  }

  lemma DistinctDatesDistinctKeys(h: Hashes, p: Policy, inputs: seq<Input>)
    requires ObserveAll(h, p, inputs).Ok?
    requires DistinctKeys(DateOf, ObserveAll(h, p, inputs).value)
    ensures DistinctKeys(Key, ObserveAll(h, p, inputs).value)
  {
    var obs := ObserveAll(h, p, inputs).value;
    forall i, j | 0 <= i < j < |obs|
      ensures Key(obs[i]) != Key(obs[j])
    {
      assert DateOf(obs[i]) != DateOf(obs[j]);
      FactsAt(h, p, inputs, i);
      FactsAt(h, p, inputs, j);
      assert Key(obs[i])[0] == obs[i].body.executedAt && Key(obs[j])[0] == obs[j].body.executedAt;
    }
  }

  // ---------- When a series can be built ----------

  /** Sorting changes neither the elements nor what is distinct about them. */
  lemma SortedAcceptableIff(p: Policy, obs: seq<Observation>)
    ensures AcceptableFor(p, SortedBy(Key, obs)) <==> AcceptableFor(p, obs)
  {
    var s := SortedBy(Key, obs);
    SortedIsPermutation(Key, obs);
    SameElements(s, obs);
    SameDistinctKeys(RefOf, obs, s);
    SameDistinctKeys(ExecutionDigestOf, obs, s);
    SameDistinctKeys(DigestOf, obs, s);
    SameDistinctKeys(DateOf, obs, s);
  }

  lemma SameDistinctKeys<K>(key: Observation -> K, a: seq<Observation>, b: seq<Observation>)
    requires multiset(a) == multiset(b)
    ensures DistinctKeys(key, a) <==> DistinctKeys(key, b)
  {
    if DistinctKeys(key, a) { PermutationKeepsDistinctKeys(key, a, b); }
    if DistinctKeys(key, b) { PermutationKeepsDistinctKeys(key, b, a); }
  }

  /** Observations carry the policy's digest and fall into its window. */
  lemma ObservedFitPolicy(h: Hashes, p: Policy, inputs: seq<Input>)
    requires ObserveAll(h, p, inputs).Ok?
    ensures forall o :: o in ObserveAll(h, p, inputs).value ==>
      o.body.policyDigest == p.digest && p.effective <= o.body.utcDate <= p.expires
  {
    var obs := ObserveAll(h, p, inputs).value;
    forall o | o in obs
      ensures o.body.policyDigest == p.digest && p.effective <= o.body.utcDate <= p.expires
    {
      var i :| 0 <= i < |obs| && obs[i] == o;
      FactsAt(h, p, inputs, i);
    }
  }

  /** Of the identities only references and dates can repeat. */
  lemma ObservedAcceptableIff(h: Hashes, p: Policy, inputs: seq<Input>)
    requires NoCollisions(h, p, inputs) && ObserveAll(h, p, inputs).Ok?
    ensures var obs := ObserveAll(h, p, inputs).value;
      AcceptableFor(p, obs) <==> DistinctKeys(RefOf, obs) && DistinctKeys(DateOf, obs)
  {
    ObservedFitPolicy(h, p, inputs);
    if DistinctKeys(DateOf, ObserveAll(h, p, inputs).value) {
      DistinctDatesDistinctDigests(h, p, inputs);
    }
  }

  /** Building, in terms of the sorted observations. */
  lemma BuildChains(h: Hashes, p: Policy, inputs: seq<Input>)
    requires PolicyVerified(p) && ObserveAll(h, p, inputs).Ok?
    ensures var s := SortedBy(Key, ObserveAll(h, p, inputs).value);
      && Build(h, p, inputs) == Chain(SnapshotsOf(h, p), s, |s|)
      && (Build(h, p, inputs).Ok? <==> AcceptableFor(p, s) && OpenUntilTheEnd(p, s, |s|))
  {
    var s := SortedBy(Key, ObserveAll(h, p, inputs).value);
    SnapshotsAreLawful(h, p);
    ChainIff(SnapshotsOf(h, p), p, s, |s|);
    SortedIsInOrder(Key, ObserveAll(h, p, inputs).value);
    assert s[..|s|] == s;
  }

  /** A series can be built exactly when every execution is observable, references and dates do not
      repeat, and, taken by execution time, no proper prefix already halts or completes it. */
  lemma BuildSucceedsIff(h: Hashes, p: Policy, inputs: seq<Input>)
    requires PolicyVerified(p) && NoCollisions(h, p, inputs)
    ensures Build(h, p, inputs).Ok? <==>
      && ObserveAll(h, p, inputs).Ok?
      && var obs := ObserveAll(h, p, inputs).value;
         var s := SortedBy(Key, obs);
         DistinctKeys(RefOf, obs) && DistinctKeys(DateOf, obs) && OpenUntilTheEnd(p, s, |s|)
  {
    if ObserveAll(h, p, inputs).Ok? {
      BuildChains(h, p, inputs);
      SortedAcceptableIff(p, ObserveAll(h, p, inputs).value);
      ObservedAcceptableIff(h, p, inputs);
    }
  }

  /** What a built series is: valid, digest-bound, over exactly the observations, oldest first, with
      every proper prefix still collecting and a halt, if any, at the very end. */
  lemma BuiltSeries(h: Hashes, p: Policy, inputs: seq<Input>)
    requires Build(h, p, inputs).Ok?
    ensures PolicyVerified(p) && ObserveAll(h, p, inputs).Ok?
    ensures var s := Build(h, p, inputs).value;
      && BoundAndValid(h, s)
      && Describes(p, SortedBy(Key, ObserveAll(h, p, inputs).value), s.body)
      && AcceptableFor(p, s.body.observations)
      && OpenUntilTheEnd(p, s.body.observations, |s.body.observations|)
      && HaltOnlyLast(s.body.observations)
  {
    var s := SortedBy(Key, ObserveAll(h, p, inputs).value);
    BuildChains(h, p, inputs);
    BuiltChain(h, p, s);
    if s != [] {
      HaltClosesTheLedger(p, s);
    }
  }

  lemma BuiltChain(h: Hashes, p: Policy, s: seq<Observation>)
    requires p.effective <= p.expires && Chain(SnapshotsOf(h, p), s, |s|).Ok?
    ensures BoundAndValid(h, Chain(SnapshotsOf(h, p), s, |s|).value)
    ensures Describes(p, s, Chain(SnapshotsOf(h, p), s, |s|).value.body)
  {
    SnapshotsAreLawful(h, p);
    ChainContent(SnapshotsOf(h, p), p, s, |s|);
    ChainIsValid(h, p, s, |s|);
    assert s[..|s|] == s;
  }

  // ---------- Input order does not matter ----------

  /** Observing an input late or first contributes the same observation. */
  lemma {:induction false} CollectMoved(observe: Observer, front: seq<Input>, x: Input, back: seq<Input>)
    ensures Collect(observe, front + [x] + back).Ok? <==> observe(x).Ok? && Collect(observe, front + back).Ok?
    ensures Collect(observe, front + [x] + back).Ok? ==>
      multiset(Collect(observe, front + [x] + back).value)
      == multiset{observe(x).value} + multiset(Collect(observe, front + back).value)
    decreases |front|
  {
    var whole := front + [x] + back;
    if front == [] {
      assert whole[0] == x && whole[1..] == back && front + back == back;
    } else {
      assert whole[0] == front[0] && whole[1..] == front[1..] + [x] + back;
      assert (front + back)[0] == front[0] && (front + back)[1..] == front[1..] + back;
      CollectMoved(observe, front[1..], x, back);
    }
  }

  lemma {:induction false} CollectIgnoresOrder(observe: Observer, a: seq<Input>, b: seq<Input>)
    requires multiset(a) == multiset(b)
    ensures Collect(observe, a).Ok? <==> Collect(observe, b).Ok?
    ensures Collect(observe, a).Ok? ==> multiset(Collect(observe, a).value) == multiset(Collect(observe, b).value)
    decreases |a|
  {
    assert |multiset(a)| == |a| && |multiset(b)| == |b|;
    if a != [] {
      var front, back := RemoveFirst(a, b);
      CollectIgnoresOrder(observe, a[1..], front + back);
      CollectMoved(observe, front, a[0], back);
    }
  }

  lemma SameElements<T>(a: seq<T>, b: seq<T>)
    requires multiset(a) == multiset(b)
    ensures forall x :: x in a <==> x in b
  {
    forall x
      ensures x in a <==> x in b
    {
      assert x in a <==> x in multiset(a);
      assert x in b <==> x in multiset(b);
    }
  }

  /** The same executions in any order give the same series, or fail both ways. */
  lemma BuildIgnoresOrder(h: Hashes, p: Policy, a: seq<Input>, b: seq<Input>)
    requires NoCollisions(h, p, a) && multiset(a) == multiset(b)
    ensures Build(h, p, a).Ok? <==> Build(h, p, b).Ok?
    ensures Build(h, p, a).Ok? ==> Build(h, p, a) == Build(h, p, b)
  {
    if PolicyVerified(p) {
      SameElements(a, b);
      BuildSucceedsIff(h, p, a);
      BuildSucceedsIff(h, p, b);
      CollectIgnoresOrder(ObserverOf(h, p), a, b);
      if ObserveAll(h, p, a).Ok? {
        var x, y := ObserveAll(h, p, a).value, ObserveAll(h, p, b).value;
        SameDistinctKeys(RefOf, x, y);
        SameDistinctKeys(DateOf, x, y);
        if DistinctKeys(DateOf, x) {
          DistinctDatesDistinctKeys(h, p, a);
          SortForgetsOrder(Key, x, y);
        }
      }
    }
  }

  // ---------- Bounds nobody checks directly ----------

  lemma {:induction false} InsertDayKeeps(d: int, days: seq<int>)
    ensures forall x :: x in InsertDay(d, days) <==> x == d || x in days
    ensures d !in days ==> |InsertDay(d, days)| == |days| + 1
  {
    if days != [] && d > days[0] {
      InsertDayKeeps(d, days[1..]);
      assert days == [days[0]] + days[1..];
    }
  }

  lemma {:induction false} SortedUniqueKeeps(days: seq<int>)
    ensures forall x :: x in SortedUnique(days) <==> x in days
    ensures Distinct(days) ==> |SortedUnique(days)| == |days|
  {
    if days != [] {
      SortedUniqueKeeps(days[1..]);
      InsertDayKeeps(days[0], SortedUnique(days[1..]));
      assert forall i :: 0 <= i < |days[1..]| ==> days[1..][i] == days[i + 1];
    }
  }

  lemma {:induction false} SuccessfulKeepsDates(obs: seq<Observation>)
    requires DistinctKeys(DateOf, obs)
    ensures forall o :: o in Successful(obs) ==> o in obs
    ensures DistinctKeys(DateOf, Successful(obs))
  {
    if obs != [] {
      var rest := obs[1..];
      assert forall i :: 0 <= i < |rest| ==> rest[i] == obs[i + 1];
      SuccessfulKeepsDates(rest);
      assert forall o :: o in Successful(rest) ==> DateOf(o) != DateOf(obs[0]);
    }
  }

  /** With one execution a day, successes and their distinct dates are equally many. */
  lemma SuccessesAreOnDistinctDates(obs: seq<Observation>)
    requires DistinctKeys(DateOf, obs)
    ensures |SortedUnique(Dates(Successful(obs)))| == |Successful(obs)|
  {
    SuccessfulKeepsDates(obs);
    SortedUniqueKeeps(Dates(Successful(obs)));
    assert forall i :: 0 <= i < |Successful(obs)| ==> Dates(Successful(obs))[i] == DateOf(Successful(obs)[i]);
  }

  lemma AtMostOnePerDay(p: Policy, obs: seq<Observation>)
    requires AcceptableFor(p, obs) && p.effective <= p.expires
    ensures |obs| <= p.expires - p.effective + 1
  {
    forall day | day in Dates(obs)
      ensures p.effective <= day <= p.expires
    {
      var i :| 0 <= i < |obs| && Dates(obs)[i] == day;
      assert obs[i] in obs;
    }
    assert forall i :: 0 <= i < |obs| ==> Dates(obs)[i] == DateOf(obs[i]);
    Pigeonhole(Dates(obs), p.effective, p.expires);
  }

  /** A built series has at most one observation per day of the window, so never more than 31. */
  lemma ObservationsAreBounded(h: Hashes, p: Policy, inputs: seq<Input>)
    requires Build(h, p, inputs).Ok?
    ensures |Build(h, p, inputs).value.body.observations| <= p.expires - p.effective + 1 <= 31
  {
    BuiltSeries(h, p, inputs);
    AtMostOnePerDay(p, Build(h, p, inputs).value.body.observations);
  }

  /** Under the policy's ordering of its two thresholds the distinct-date bar is never the binding one:
      readiness is the success count and the kinds. */
  lemma DateBarFollows(h: Hashes, p: Policy, inputs: seq<Input>)
    requires Build(h, p, inputs).Ok?
    ensures var s := Build(h, p, inputs).value.body;
      && |s.successfulDates| == s.successfulCount
      && (s.status == ReadyForMaturityReview <==>
            && Halts(s.observations) == []
            && s.successfulCount >= p.minSuccessful
            && Elements(s.successfulKinds) == Elements(p.requiredKinds))
  {
    BuiltSeries(h, p, inputs);
    var s := Build(h, p, inputs).value.body;
    assert Acceptable(s.policyDigest, s.effective, s.expires, s.observations);
    SuccessesAreOnDistinctDates(s.observations);
  }
}
