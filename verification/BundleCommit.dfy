/** Publishing an operator bundle: demote the old success manifest, replace the payloads, commit the
    new manifest last, clear the recovery marker. A run may stop after any filesystem step. */
module BundleCommit {
  import opened Base

  type Directory = map<string, Bytes>

  datatype Artifact = Artifact(filename: string, byteCount: nat, sha256: string)

  /** The hash function, and what a manifest's bytes list when they decode as a bundle manifest. */
  datatype Codec = Codec(sha256: Bytes -> string, listing: Bytes -> Option<seq<Artifact>>)

  const MANIFEST := "manifest.json"
  const PENDING := ".ceqanet-bundle.pending-manifest.json"
  const LOCK := ".ceqanet-bundle.lock"
  const MAX_ARTIFACT_BYTES := 16 * 1024 * 1024
  const MAX_MANIFEST_BYTES := 1024 * 1024

  const PAYLOADS := [
    "operator-package.json",
    "persistence-preview.json",
    "write-plan.json",
    "operator-report.json",
    "operator-report.md"
  ]

  // ---------- Filesystem steps ----------

  /** The directory-entry changes the writer makes; each is atomic and durable. */
  datatype Step =
    | Link(source: string, target: string)
    | Unlink(name: string)
    | Replace(name: string, content: Bytes)

  function Apply(step: Step, dir: Directory): Directory {
    match step
    case Link(source, target) =>
      if source in dir && target !in dir then dir[target := dir[source]] else dir
    case Unlink(name) => dir - {name}
    case Replace(name, content) => dir[name := content]
  }

  function ApplyAll(steps: seq<Step>, dir: Directory): Directory {
    if steps == [] then dir else ApplyAll(steps[1..], Apply(steps[0], dir))
  }

  /** The directory after at most `n` of the steps. */
  function Cut(steps: seq<Step>, n: nat, dir: Directory): Directory {
    ApplyAll(steps[..Min(n, |steps|)], dir)
  }

  lemma {:induction false} ApplyAllAppend(a: seq<Step>, b: seq<Step>, dir: Directory)
    ensures ApplyAll(a + b, dir) == ApplyAll(b, ApplyAll(a, dir))
  {
    if a == [] {
      assert a + b == b;
    } else {
      assert (a + b)[1..] == a[1..] + b;
      ApplyAllAppend(a[1..], b, Apply(a[0], dir));
    }
  }

  lemma CutConcat(a: seq<Step>, b: seq<Step>, n: nat, dir: Directory)
    ensures Cut(a + b, n, dir) == if n < |a| then Cut(a, n, dir) else Cut(b, n - |a|, ApplyAll(a, dir))
  {
    if n < |a| {
      assert (a + b)[..n] == a[..n];
    } else {
      var m := Min(n - |a|, |b|);
      assert (a + b)[..Min(n, |a + b|)] == a + b[..m];
      ApplyAllAppend(a, b[..m], dir);
    }
  }

  lemma CutAll(steps: seq<Step>, n: nat, dir: Directory)
    ensures n >= |steps| ==> Cut(steps, n, dir) == ApplyAll(steps, dir)
  {
    assert steps[..|steps|] == steps;
  }

  lemma ApplyShort(step: Step, dir: Directory)
    ensures ApplyAll([], dir) == dir
    ensures ApplyAll([step], dir) == Apply(step, dir)
  {
    assert ApplyAll([step], dir) == ApplyAll([step][1..], Apply(step, dir));
  }

  lemma CutShort(step: Step, n: nat, dir: Directory)
    ensures Cut([], n, dir) == dir
    ensures Cut([step], n, dir) == if n == 0 then dir else Apply(step, dir)
  {
    if n > 0 {
      assert [step][..1] == [step];
      assert ApplyAll([step], dir) == ApplyAll([], Apply(step, dir));
    }
  }

  lemma ReservedNamesDiffer()
    ensures MANIFEST != PENDING && MANIFEST != LOCK && PENDING != LOCK
    ensures forall i :: 0 <= i < |PAYLOADS| ==> PAYLOADS[i] !in {MANIFEST, PENDING, LOCK}
  {
    assert MANIFEST[0] == 'm' && PENDING[0] == '.' && LOCK[0] == '.';
    assert |LOCK| != |PENDING|;
    forall i | 0 <= i < |PAYLOADS|
      ensures PAYLOADS[i] !in {MANIFEST, PENDING, LOCK}
    {
      assert PAYLOADS[i][0] in {'o', 'p', 'w'};
    }
  }

  // ---------- One run, as the steps it would make ----------

  /** A run's input: the identities recorded while staging, and what the stage holds when each file
      is read again for publication. */
  datatype Bundle = Bundle(payloads: seq<Artifact>, manifest: Artifact, staged: Directory)

  ghost predicate FixedNames(b: Bundle) {
    && |b.payloads| == |PAYLOADS|
    && (forall i :: 0 <= i < |PAYLOADS| ==> b.payloads[i].filename == PAYLOADS[i])
    && b.manifest.filename == MANIFEST
  }

  /** Staging recorded one identity for each payload, and the verified manifest lists exactly those.
      The staged manifest is still the verified one; the staged payloads may hold anything by now. */
  ghost predicate Staged(codec: Codec, b: Bundle) {
    && FixedNames(b)
    && MANIFEST in b.staged
    && codec.listing(b.staged[MANIFEST]) == Some(b.payloads)
  }

  function Limit(filename: string): nat {
    if filename == MANIFEST then MAX_MANIFEST_BYTES else MAX_ARTIFACT_BYTES
  }

  predicate Matches(codec: Codec, content: Bytes, a: Artifact) {
    |content| == a.byteCount && codec.sha256(content) == a.sha256
  }

  datatype Plan = Plan(steps: seq<Step>, complete: bool)

  function LockSteps(dir: Directory): seq<Step> {
    if LOCK in dir then [] else [Replace(LOCK, [])]
  }

  /** The old manifest is demoted to the pending marker unless a marker is already there. */
  function InvalidateSteps(dir: Directory): seq<Step> {
    (if MANIFEST in dir && PENDING !in dir then [Link(MANIFEST, PENDING)] else [])
    + (if MANIFEST in dir then [Unlink(MANIFEST)] else [])
  }

  /** Publication replaces first and compares identities afterwards; an over-limit or missing staged
      file stops the run before its entry changes, a changed one stops it after. */
  function PublishPlan(codec: Codec, items: seq<Artifact>, staged: Directory): Plan {
    if items == [] then Plan([], true)
    else if items[0].filename !in staged then Plan([], false)
    else
      var content := staged[items[0].filename];
      if |content| > Limit(items[0].filename) then Plan([], false)
      else if !Matches(codec, content, items[0]) then Plan([Replace(items[0].filename, content)], false)
      else
        var rest := PublishPlan(codec, items[1..], staged);
        Plan([Replace(items[0].filename, content)] + rest.steps, rest.complete)
  }

  function ClearSteps(dir: Directory): seq<Step> {
    if PENDING in dir then [Unlink(PENDING)] else []
  }

  function Locked(dir: Directory): Directory {
    ApplyAll(LockSteps(dir), dir)
  }

  function Prepared(dir: Directory): Directory {
    ApplyAll(InvalidateSteps(Locked(dir)), Locked(dir))
  }

  function Publication(codec: Codec, b: Bundle): Plan {
    PublishPlan(codec, b.payloads + [b.manifest], b.staged)
  }

  function Published(codec: Codec, dir: Directory, b: Bundle): Directory {
    ApplyAll(Publication(codec, b).steps, Prepared(dir))
  }

  /** Every step of a run, and whether it gets through publication without being refused. */
  function RunPlan(codec: Codec, dir: Directory, b: Bundle): Plan {
    var publish := Publication(codec, b);
    var clear := if publish.complete then ClearSteps(Published(codec, dir, b)) else [];
    Plan(LockSteps(dir) + (InvalidateSteps(Locked(dir)) + (publish.steps + clear)), publish.complete)
  }

  /** The directory after a run that stops, by crash or refusal, within `budget` steps. */
  function AfterRun(codec: Codec, dir: Directory, b: Bundle, budget: nat): Directory {
    Cut(RunPlan(codec, dir, b).steps, budget, dir)
  }

  /** Where a run that stops after `n` steps stands, phase by phase. */
  lemma RunSplits(codec: Codec, dir: Directory, b: Bundle, n: nat)
    ensures var lock, invalidate, publish :=
              LockSteps(dir), InvalidateSteps(Locked(dir)), Publication(codec, b);
            var clear := if publish.complete then ClearSteps(Published(codec, dir, b)) else [];
            AfterRun(codec, dir, b, n) ==
              if n < |lock| then Cut(lock, n, dir)
              else if n - |lock| < |invalidate| then Cut(invalidate, n - |lock|, Locked(dir))
              else if n - |lock| - |invalidate| < |publish.steps| then
                Cut(publish.steps, n - |lock| - |invalidate|, Prepared(dir))
              else
                Cut(clear, n - |lock| - |invalidate| - |publish.steps|, Published(codec, dir, b))
  {
    var lock, invalidate, publish := LockSteps(dir), InvalidateSteps(Locked(dir)), Publication(codec, b);
    var clear := if publish.complete then ClearSteps(Published(codec, dir, b)) else [];
    CutConcat(lock, invalidate + (publish.steps + clear), n, dir);
    if n >= |lock| {
      CutConcat(invalidate, publish.steps + clear, n - |lock|, Locked(dir));
      if n - |lock| >= |invalidate| {
        CutConcat(publish.steps, clear, n - |lock| - |invalidate|, Prepared(dir));
      }
    }
  }

  // ---------- The writer ----------

  datatype Outcome = Committed | Refused | Crashed

  /** A file's own plan is at most one replacement; a list is published one file after the other. */
  lemma PublishFirst(codec: Codec, items: seq<Artifact>, staged: Directory)
    requires items != []
    ensures var first, rest := PublishPlan(codec, [items[0]], staged), PublishPlan(codec, items[1..], staged);
      && |first.steps| <= 1
      && PublishPlan(codec, items, staged)
         == if first.complete then Plan(first.steps + rest.steps, rest.complete) else first
  {
    assert [items[0]][1..] == [];
    assert PublishPlan(codec, [items[0]][1..], staged) == Plan([], true);
  }

  class BundleDirectory {
    var entries: Directory
    // Steps left before the machine stops; arbitrary, so every crash point is covered.
    var budget: nat

    constructor (entries: Directory, budget: nat)
      ensures this.entries == entries && this.budget == budget
    {
      this.entries, this.budget := entries, budget;
    }

    /** One filesystem call. */
    method Do(step: Step) returns (alive: bool)
      modifies this
      ensures alive == (old(budget) > 0)
      ensures alive ==> entries == Apply(step, old(entries)) && budget == old(budget) - 1
      ensures !alive ==> entries == old(entries) && budget == 0
    {
      alive := budget > 0;
      if alive {
        entries, budget := Apply(step, entries), budget - 1;
      }
    }

    method AcquireLock() returns (alive: bool)
      modifies this
      ensures var steps := LockSteps(old(entries));
        && alive == (old(budget) >= |steps|)
        && entries == Cut(steps, old(budget), old(entries))
        && (alive ==> budget == old(budget) - |steps|)
    {
      CutShort(Replace(LOCK, []), budget, entries);
      alive := true;
      if LOCK !in entries {
        alive := Do(Replace(LOCK, []));
      }
    }

    method Invalidate() returns (alive: bool)
      modifies this
      ensures var steps := InvalidateSteps(old(entries));
        && alive == (old(budget) >= |steps|)
        && entries == Cut(steps, old(budget), old(entries))
        && (alive ==> budget == old(budget) - |steps|)
    {
      var pendingExists := PENDING in entries;
      var manifestExists := MANIFEST in entries;
      ghost var link := if manifestExists && !pendingExists then [Link(MANIFEST, PENDING)] else [];
      ghost var unlink := if manifestExists then [Unlink(MANIFEST)] else [];
      CutConcat(link, unlink, budget, entries);
      CutShort(Link(MANIFEST, PENDING), budget, entries);
      CutShort(Unlink(MANIFEST), if link == [] then budget else Max(budget - 1, 0), ApplyAll(link, entries));
      if manifestExists && !pendingExists {
        alive := Do(Link(MANIFEST, PENDING));
        if !alive { return; }
      }
      alive := true;
      if manifestExists {
        alive := Do(Unlink(MANIFEST));
      }
    }

    /** One staged file: its entry is replaced, and then its identity is compared. */
    method PublishArtifact(codec: Codec, item: Artifact, staged: Directory) returns (outcome: Outcome)
      modifies this
      ensures var plan := PublishPlan(codec, [item], staged);
        && entries == Cut(plan.steps, old(budget), old(entries))
        && (outcome != Crashed ==> budget == old(budget) - |plan.steps|)
        && outcome == (if old(budget) < |plan.steps| then Crashed else if plan.complete then Committed else Refused)
    {
      PublishFirst(codec, [item], staged);
      assert [item][1..] == [];
      if item.filename !in staged {
        return Refused;
      }
      var content := staged[item.filename];
      if |content| > Limit(item.filename) {
        return Refused;
      }
      CutShort(Replace(item.filename, content), budget, entries);
      var alive := Do(Replace(item.filename, content));
      if !alive {
        return Crashed;
      }
      outcome := if Matches(codec, content, item) then Committed else Refused;
    }

    method Publish(codec: Codec, items: seq<Artifact>, staged: Directory) returns (outcome: Outcome)
      modifies this
      ensures var plan := PublishPlan(codec, items, staged);
        && entries == Cut(plan.steps, old(budget), old(entries))
        && (outcome != Crashed ==> budget == old(budget) - |plan.steps|)
        && outcome == (if old(budget) < |plan.steps| then Crashed else if plan.complete then Committed else Refused)
    {
      ghost var plan := PublishPlan(codec, items, staged);
      assert items[0..] == items;
      for i := 0 to |items|
        invariant var rest := PublishPlan(codec, items[i..], staged);
          && Cut(plan.steps, old(budget), old(entries)) == Cut(rest.steps, budget, entries)
          && plan.complete == rest.complete && old(budget) - |plan.steps| == budget - |rest.steps|
      {
        assert items[i..][0] == items[i] && items[i..][1..] == items[i + 1..];
        ghost var first := PublishPlan(codec, [items[i]], staged);
        PublishFirst(codec, items[i..], staged);
        CutConcat(first.steps, PublishPlan(codec, items[i + 1..], staged).steps, budget, entries);
        CutAll(first.steps, budget, entries);
        outcome := PublishArtifact(codec, items[i], staged);
        if outcome != Committed {
          return;
        }
      }
      CutAll([], budget, entries);
      return Committed;
    }

    method ClearPending() returns (alive: bool)
      modifies this
      ensures var steps := ClearSteps(old(entries));
        && alive == (old(budget) >= |steps|)
        && entries == Cut(steps, old(budget), old(entries))
    {
      CutShort(Unlink(PENDING), budget, entries);
      alive := true;
      if PENDING in entries {
        alive := Do(Unlink(PENDING));
      }
    }

    /** A whole run. Where it stops is decided by `budget`; what it leaves is the plan cut there. */
    method Commit(codec: Codec, b: Bundle) returns (outcome: Outcome)
      modifies this
      ensures entries == AfterRun(codec, old(entries), b, old(budget))
      ensures var plan := RunPlan(codec, old(entries), b);
        outcome == if old(budget) < |plan.steps| then Crashed else if plan.complete then Committed else Refused
    {
      ghost var dir, n := entries, budget;
      RunSplits(codec, dir, b, n);
      CutAll(LockSteps(dir), n, dir);
      var alive := AcquireLock();
      if !alive {
        return Crashed;
      }
      CutAll(InvalidateSteps(entries), budget, entries);
      alive := Invalidate();
      if !alive {
        return Crashed;
      }
      CutAll(Publication(codec, b).steps, budget, entries);
      outcome := Publish(codec, b.payloads + [b.manifest], b.staged);
      if outcome == Committed {
        alive := ClearPending();
        outcome := if alive then Committed else Crashed;
      }
    }
  }

  // ---------- Safety ----------

  /** Whenever the success manifest is present, every payload it lists is there as recorded. */
  ghost predicate Safe(codec: Codec, dir: Directory) {
    MANIFEST in dir ==>
      && codec.listing(dir[MANIFEST]).Some?
      && forall a :: a in codec.listing(dir[MANIFEST]).value ==>
           a.filename in dir && Matches(codec, dir[a.filename], a)
  }

  /** The old manifest, or the marker it was demoted to, is there. */
  ghost predicate Recoverable(dir: Directory) {
    MANIFEST in dir || PENDING in dir
  }


  // ---- Preparation: the manifest goes away before anything it lists can change ----

  function Demoted(locked: Directory): Directory {
    if MANIFEST in locked && PENDING !in locked then locked[PENDING := locked[MANIFEST]] else locked
  }

  /** The preparation steps one at a time. */
  lemma PreparationSteps(dir: Directory)
    ensures Locked(dir) == if LOCK in dir then dir else dir[LOCK := []]
    ensures Prepared(dir) == Demoted(Locked(dir)) - {MANIFEST}
    ensures forall n :: 0 <= n < |LockSteps(dir)| ==> Cut(LockSteps(dir), n, dir) == dir
    ensures forall n :: 0 <= n < |InvalidateSteps(Locked(dir))| ==>
      Cut(InvalidateSteps(Locked(dir)), n, Locked(dir)) in {Locked(dir), Demoted(Locked(dir))}
  {
    ReservedNamesDiffer();
    ApplyShort(Replace(LOCK, []), dir);
    CutShort(Replace(LOCK, []), 0, dir);
    var locked := Locked(dir);
    var link := if MANIFEST in locked && PENDING !in locked then [Link(MANIFEST, PENDING)] else [];
    var unlink := if MANIFEST in locked then [Unlink(MANIFEST)] else [];
    ApplyShort(Link(MANIFEST, PENDING), locked);
    ApplyShort(Unlink(MANIFEST), Demoted(locked));
    ApplyAllAppend(link, unlink, locked);
    assert Demoted(locked) == ApplyAll(link, locked);
    forall n | 0 <= n < |link + unlink|
      ensures Cut(link + unlink, n, locked) in {locked, Demoted(locked)}
    {
      CutConcat(link, unlink, n, locked);
      CutShort(Link(MANIFEST, PENDING), n, locked);
      CutShort(Unlink(MANIFEST), Max(n - |link|, 0), Demoted(locked));
    }
  }

  /** After preparation: no manifest, and the marker holds what it held, or else the old manifest. */
  lemma PreparedDirectory(dir: Directory)
    ensures var mid := Prepared(dir);
      && MANIFEST !in mid
      && (PENDING in mid <==> Recoverable(dir))
      && (Recoverable(dir) ==> mid[PENDING] == if PENDING in dir then dir[PENDING] else dir[MANIFEST])
      && (forall name :: name !in {MANIFEST, PENDING, LOCK} ==>
            (name in mid <==> name in dir) && (name in dir ==> mid[name] == dir[name]))
  {
    ReservedNamesDiffer();
    PreparationSteps(dir);
  }

  /** Cut anywhere, preparation keeps both properties: it changes nothing a manifest lists. */
  lemma PreparationIsSafe(codec: Codec, dir: Directory, n: nat)
    requires Safe(codec, dir)
    ensures n < |LockSteps(dir)| ==>
      var now := Cut(LockSteps(dir), n, dir);
      Safe(codec, now) && (Recoverable(dir) ==> Recoverable(now))
    ensures n < |InvalidateSteps(Locked(dir))| ==>
      var now := Cut(InvalidateSteps(Locked(dir)), n, Locked(dir));
      Safe(codec, now) && (Recoverable(dir) ==> Recoverable(now))
  {
    ReservedNamesDiffer();
    PreparationSteps(dir);
  }

  // ---- Publication ----

  ghost predicate DistinctNames(items: seq<Artifact>) {
    forall i, j :: 0 <= i < j < |items| ==> items[i].filename != items[j].filename
  }

  /** Publication, cut anywhere, leaves every name it was not given alone. */
  lemma {:induction false} PublishLeavesOthers(codec: Codec, items: seq<Artifact>, staged: Directory,
                                               n: nat, dir: Directory, name: string)
    requires forall a :: a in items ==> a.filename != name
    ensures var now := Cut(PublishPlan(codec, items, staged).steps, n, dir);
      (name in now <==> name in dir) && (name in dir ==> now[name] == dir[name])
  {
    var steps := PublishPlan(codec, items, staged).steps;
    CutShort(Unlink(name), 0, dir);
    if steps != [] {
      var item := items[0];
      assert item in items;
      var step := Replace(item.filename, staged[item.filename]);
      assert steps == [step] + steps[1..];
      CutConcat([step], steps[1..], n, dir);
      CutShort(step, n, dir);
      CutShort(step, 1, dir);
      if Matches(codec, staged[item.filename], item) {
        PublishLeavesOthers(codec, items[1..], staged, Max(n - 1, 0), Apply(step, dir), name);
      } else {
        CutShort(step, Max(n - 1, 0), Apply(step, dir));
      }
    }
  }

  /** A publication that was not refused has put every item in place as recorded and staged. */
  lemma {:induction false} PublishedAsRecorded(codec: Codec, items: seq<Artifact>, staged: Directory, dir: Directory)
    requires DistinctNames(items)
    requires PublishPlan(codec, items, staged).complete
    ensures var now := ApplyAll(PublishPlan(codec, items, staged).steps, dir);
      forall a :: a in items ==>
        && a.filename in now && a.filename in staged
        && now[a.filename] == staged[a.filename] && Matches(codec, now[a.filename], a)
  {
    if items != [] {
      var item := items[0];
      var step := Replace(item.filename, staged[item.filename]);
      var rest := PublishPlan(codec, items[1..], staged).steps;
      PublishedAsRecorded(codec, items[1..], staged, Apply(step, dir));
      forall a | a in items[1..]
        ensures a.filename != item.filename
      {
      }
      PublishLeavesOthers(codec, items[1..], staged, |rest|, Apply(step, dir), item.filename);
      CutAll(rest, |rest|, Apply(step, dir));
      assert PublishPlan(codec, items, staged).steps[1..] == rest;
    }
  }

  /** Publishing two lists is publishing the first and, unless refused, the second. */
  lemma {:induction false} PublishConcat(codec: Codec, a: seq<Artifact>, b: seq<Artifact>, staged: Directory)
    ensures var first, second := PublishPlan(codec, a, staged), PublishPlan(codec, b, staged);
      PublishPlan(codec, a + b, staged) ==
        if first.complete then Plan(first.steps + second.steps, second.complete) else first
  {
    if a == [] {
      assert a + b == b;
    } else {
      assert (a + b)[1..] == a[1..] + b && (a + b)[0] == a[0];
      PublishConcat(codec, a[1..], b, staged);
    }
  }

  lemma PayloadNamesDistinct(b: Bundle)
    requires FixedNames(b)
    ensures DistinctNames(b.payloads + [b.manifest])
    ensures forall a :: a in b.payloads ==> a.filename !in {MANIFEST, PENDING, LOCK}
  {
    ReservedNamesDiffer();
    assert |PAYLOADS[0]| == 21 && |PAYLOADS[1]| == 24 && |PAYLOADS[2]| == 15;
    assert |PAYLOADS[3]| == 20 && |PAYLOADS[4]| == 18;
  }

  /** Publication, cut anywhere: the marker stays, and a manifest appears only above a full set of
      payloads that are as it records them. */
  lemma PublicationIsSafe(codec: Codec, b: Bundle, mid: Directory, n: nat)
    requires Staged(codec, b) && MANIFEST !in mid
    ensures var now := Cut(Publication(codec, b).steps, n, mid);
      && Safe(codec, now)
      && (PENDING in mid <==> PENDING in now) && (PENDING in mid ==> now[PENDING] == mid[PENDING])
      && (MANIFEST in now ==> now[MANIFEST] == b.staged[MANIFEST])
  {
    PayloadNamesDistinct(b);
    ReservedNamesDiffer();
    var first := PublishPlan(codec, b.payloads, b.staged);
    var last := PublishPlan(codec, [b.manifest], b.staged);
    PublishConcat(codec, b.payloads, [b.manifest], b.staged);
    assert b.payloads == (b.payloads + [b.manifest])[..|b.payloads|];
    PublishLeavesOthers(codec, b.payloads, b.staged, n, mid, MANIFEST);
    PublishLeavesOthers(codec, b.payloads + [b.manifest], b.staged, n, mid, PENDING);
    if first.complete && n >= |first.steps| {
      CutConcat(first.steps, last.steps, n, mid);
      CutAll(first.steps, n, mid);
      var filled := ApplyAll(first.steps, mid);
      PublishedAsRecorded(codec, b.payloads, b.staged, mid);
      var commit := Replace(MANIFEST, b.staged[MANIFEST]);
      assert last.steps == [] || last.steps == [commit];
      CutShort(commit, n - |first.steps|, filled);
    } else if first.complete {
      CutConcat(first.steps, last.steps, n, mid);
    }
  }

  /** One run, stopped after any number of steps. */
  lemma RunIsSafe(codec: Codec, dir: Directory, b: Bundle, n: nat)
    requires Staged(codec, b) && Safe(codec, dir)
    ensures Safe(codec, AfterRun(codec, dir, b, n))
    ensures Recoverable(dir) ==> Recoverable(AfterRun(codec, dir, b, n))
  {
    RunSplits(codec, dir, b, n);
    ReservedNamesDiffer();
    PreparedDirectory(dir);
    var lock, invalidate, publish := LockSteps(dir), InvalidateSteps(Locked(dir)), Publication(codec, b);
    PreparationIsSafe(codec, dir, n);
    PreparationIsSafe(codec, dir, Max(n - |lock|, 0));
    PublicationIsSafe(codec, b, Prepared(dir), Max(n - |lock| - |invalidate|, 0));
    PublicationIsSafe(codec, b, Prepared(dir), |publish.steps|);
    CutAll(publish.steps, |publish.steps|, Prepared(dir));
    var done := Published(codec, dir, b);
    CutShort(Unlink(PENDING), Max(n - |lock| - |invalidate| - |publish.steps|, 0), done);
    if publish.complete {
      PayloadNamesDistinct(b);
      PublishedAsRecorded(codec, b.payloads + [b.manifest], b.staged, Prepared(dir));
      assert b.manifest in b.payloads + [b.manifest];
    }
  }

  // ---------- Any number of runs ----------

  datatype Attempt = Attempt(bundle: Bundle, budget: nat)

  function AfterRuns(codec: Codec, dir: Directory, attempts: seq<Attempt>): Directory
    decreases |attempts|
  {
    if attempts == [] then dir
    else AfterRuns(codec, AfterRun(codec, dir, attempts[0].bundle, attempts[0].budget), attempts[1..])
  }

  /** Crash safety. Over any sequence of runs, each stopped after any step, a manifest that is present
      describes the payloads that are present; and from a directory that ever had a manifest or marker,
      one of the two is always there. Payloads may change in the stage between verification and
      publication; only the staged manifest is relied on. */
  lemma {:induction false} RunsAreSafe(codec: Codec, dir: Directory, attempts: seq<Attempt>)
    requires forall t :: t in attempts ==> Staged(codec, t.bundle)
    requires Safe(codec, dir)
    ensures Safe(codec, AfterRuns(codec, dir, attempts))
    ensures Recoverable(dir) ==> Recoverable(AfterRuns(codec, dir, attempts))
    decreases |attempts|
  {
    if attempts != [] {
      assert attempts[0] in attempts;
      RunIsSafe(codec, dir, attempts[0].bundle, attempts[0].budget);
      RunsAreSafe(codec, AfterRun(codec, dir, attempts[0].bundle, attempts[0].budget), attempts[1..]);
    }
  }

  // ---------- What a run that gets to the end leaves ----------

  /** A publication is not refused exactly when every staged file is there, within its limit, and
      still has the identity recorded for it. */
  lemma {:induction false} PublicationCompletes(codec: Codec, items: seq<Artifact>, staged: Directory)
    ensures PublishPlan(codec, items, staged).complete <==>
      forall a :: a in items ==>
        a.filename in staged && |staged[a.filename]| <= Limit(a.filename) && Matches(codec, staged[a.filename], a)
  {
    if items != [] {
      PublicationCompletes(codec, items[1..], staged);
      assert items == [items[0]] + items[1..];
    }
  }

  lemma FinishedRunState(codec: Codec, dir: Directory, b: Bundle, n: nat)
    requires RunPlan(codec, dir, b).complete && n >= |RunPlan(codec, dir, b).steps|
    ensures AfterRun(codec, dir, b, n) == Published(codec, dir, b) - {PENDING}
  {
    RunSplits(codec, dir, b, n);
    var left := n - |LockSteps(dir)| - |InvalidateSteps(Locked(dir))| - |Publication(codec, b).steps|;
    CutShort(Unlink(PENDING), left, Published(codec, dir, b));
  }

  /** A finished run leaves the new bundle, payloads and manifest, and no marker. */
  lemma FinishedRun(codec: Codec, dir: Directory, b: Bundle, n: nat)
    requires FixedNames(b)
    requires RunPlan(codec, dir, b).complete && n >= |RunPlan(codec, dir, b).steps|
    ensures var now := AfterRun(codec, dir, b, n);
      && PENDING !in now
      && forall a :: a in b.payloads + [b.manifest] ==>
           && a.filename in now && a.filename in b.staged
           && now[a.filename] == b.staged[a.filename] && Matches(codec, now[a.filename], a)
  {
    FinishedRunState(codec, dir, b, n);
    PayloadNamesDistinct(b);
    ReservedNamesDiffer();
    PublishedAsRecorded(codec, b.payloads + [b.manifest], b.staged, Prepared(dir));
  }

  /** It changes no entry besides those, the marker and the lock. */
  lemma FinishedRunLeavesOthers(codec: Codec, dir: Directory, b: Bundle, n: nat, name: string)
    requires RunPlan(codec, dir, b).complete && n >= |RunPlan(codec, dir, b).steps|
    requires name !in {MANIFEST, PENDING, LOCK} && forall a :: a in b.payloads + [b.manifest] ==> a.filename != name
    ensures var now := AfterRun(codec, dir, b, n);
      (name in now <==> name in dir) && (name in dir ==> now[name] == dir[name])
  {
    var steps := Publication(codec, b).steps;
    FinishedRunState(codec, dir, b, n);
    PreparedDirectory(dir);
    PublishLeavesOthers(codec, b.payloads + [b.manifest], b.staged, |steps|, Prepared(dir), name);
    CutAll(steps, |steps|, Prepared(dir));
  }

  // ---------- What the marker holds ----------

  /** The manifest and the marker only ever hold bytes that were a manifest. */
  lemma {:induction false} ManifestsComeFromCommits(codec: Codec, dir: Directory, attempts: seq<Attempt>, name: string)
    requires forall t :: t in attempts ==> Staged(codec, t.bundle)
    requires name in {MANIFEST, PENDING} && name in AfterRuns(codec, dir, attempts)
    ensures var bytes := AfterRuns(codec, dir, attempts)[name];
      || (MANIFEST in dir && bytes == dir[MANIFEST])
      || (PENDING in dir && bytes == dir[PENDING])
      || exists t :: t in attempts && MANIFEST in t.bundle.staged && bytes == t.bundle.staged[MANIFEST]
    decreases |attempts|
  {
    if attempts != [] {
      var t := attempts[0];
      assert t in attempts;
      var now := AfterRun(codec, dir, t.bundle, t.budget);
      OneRunManifests(codec, dir, t.bundle, t.budget);
      ManifestsComeFromCommits(codec, now, attempts[1..], name);
    }
  }

  lemma OneRunManifests(codec: Codec, dir: Directory, b: Bundle, n: nat)
    requires Staged(codec, b)
    ensures var now := AfterRun(codec, dir, b, n);
      && (MANIFEST in now ==>
            (MANIFEST in dir && now[MANIFEST] == dir[MANIFEST]) || now[MANIFEST] == b.staged[MANIFEST])
      && (PENDING in now ==>
            (MANIFEST in dir && now[PENDING] == dir[MANIFEST]) || (PENDING in dir && now[PENDING] == dir[PENDING]))
  {
    RunSplits(codec, dir, b, n);
    ReservedNamesDiffer();
    PreparationSteps(dir);
    PreparedDirectory(dir);
    var lock, invalidate, steps := LockSteps(dir), InvalidateSteps(Locked(dir)), Publication(codec, b).steps;
    PublicationIsSafe(codec, b, Prepared(dir), Max(n - |lock| - |invalidate|, 0));
    PublicationIsSafe(codec, b, Prepared(dir), |steps|);
    CutAll(steps, |steps|, Prepared(dir));
    CutShort(Unlink(PENDING), Max(n - |lock| - |invalidate| - |steps|, 0), Published(codec, dir, b));
  }

  /** The demotion keeps the manifest it removes exactly when no other marker was in the way: the
      source's "retain any old manifest" does not hold for a marker left by an earlier crash. */
  lemma DemotionKeepsTheManifest(dir: Directory)
    requires MANIFEST in dir
    ensures PENDING in Prepared(dir)
    ensures Prepared(dir)[PENDING] == dir[MANIFEST] <==> PENDING !in dir || dir[PENDING] == dir[MANIFEST]
  {
    PreparedDirectory(dir);
  }

  /** So the newest committed manifest can vanish: a run that stops between its commit and its
      cleanup, then a run that stops before its own commit, leave only the manifest before both. */
  lemma NewestManifestCanBeLost(codec: Codec, dir: Directory, first: Bundle, second: Bundle)
    returns (m: nat, n: nat)
    requires Staged(codec, first) && RunPlan(codec, dir, first).complete
    requires MANIFEST in dir && PENDING !in dir && dir[MANIFEST] != first.staged[MANIFEST]
    ensures var once := AfterRuns(codec, dir, [Attempt(first, m)]);
      MANIFEST in once && once[MANIFEST] == first.staged[MANIFEST]
    ensures var twice := AfterRuns(codec, dir, [Attempt(first, m), Attempt(second, n)]);
      MANIFEST !in twice && PENDING in twice && twice[PENDING] == dir[MANIFEST]
  {
    var steps := Publication(codec, first).steps;
    m := |LockSteps(dir)| + |InvalidateSteps(Locked(dir))| + |steps|;
    var once := AfterRun(codec, dir, first, m);
    n := |LockSteps(once)| + |InvalidateSteps(Locked(once))|;
    RunSplits(codec, dir, first, m);
    RunSplits(codec, once, second, n);
    CutShort(Unlink(PENDING), 0, Published(codec, dir, first));
    CutShort(Unlink(PENDING), 0, Prepared(once));
    CutShort(Unlink(PENDING), 0, Published(codec, once, second));
    PreparedDirectory(dir);
    PreparedDirectory(once);
    PayloadNamesDistinct(first);
    PublishedAsRecorded(codec, first.payloads + [first.manifest], first.staged, Prepared(dir));
    assert first.manifest in first.payloads + [first.manifest];
    PublicationIsSafe(codec, first, Prepared(dir), |steps|);
    CutAll(steps, |steps|, Prepared(dir));
    assert once == Published(codec, dir, first);
    TwoRuns(codec, dir, Attempt(first, m), Attempt(second, n));
  }

  lemma TwoRuns(codec: Codec, dir: Directory, s: Attempt, t: Attempt)
    ensures AfterRuns(codec, dir, [s]) == AfterRun(codec, dir, s.bundle, s.budget)
    ensures AfterRuns(codec, dir, [s, t])
      == AfterRun(codec, AfterRun(codec, dir, s.bundle, s.budget), t.bundle, t.budget)
  {
    var now := AfterRun(codec, dir, s.bundle, s.budget);
    assert [s][1..] == [] && [s, t][1..] == [t] && [t][1..] == [];
    assert AfterRuns(codec, dir, [s, t]) == AfterRuns(codec, now, [t]);
    assert AfterRuns(codec, now, [t]) == AfterRuns(codec, AfterRun(codec, now, t.bundle, t.budget), []);
  }

  /** Why the staged manifest has to be trusted: its identity is compared only after it was put in
      place, so a changed one is committed by a run that then reports refusal. */
  lemma ChangedManifestIsCommitted(codec: Codec, dir: Directory, b: Bundle)
    requires FixedNames(b) && MANIFEST in b.staged
    requires PublishPlan(codec, b.payloads, b.staged).complete
    requires |b.staged[MANIFEST]| <= MAX_MANIFEST_BYTES && !Matches(codec, b.staged[MANIFEST], b.manifest)
    ensures var plan := RunPlan(codec, dir, b);
      var now := AfterRun(codec, dir, b, |plan.steps|);
      !plan.complete && MANIFEST in now && now[MANIFEST] == b.staged[MANIFEST]
  {
    var first := PublishPlan(codec, b.payloads, b.staged);
    var commit := Replace(MANIFEST, b.staged[MANIFEST]);
    PublishConcat(codec, b.payloads, [b.manifest], b.staged);
    assert PublishPlan(codec, [b.manifest], b.staged) == Plan([commit], false);
    RunSplits(codec, dir, b, |RunPlan(codec, dir, b).steps|);
    ApplyAllAppend(first.steps, [commit], Prepared(dir));
    ApplyShort(commit, ApplyAll(first.steps, Prepared(dir)));
    CutShort(commit, 0, Published(codec, dir, b));
  }
}
