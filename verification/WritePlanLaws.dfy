/** Exactly which write plans are accepted for execution, and which previews lead to one. */
module WritePlanLaws {
  import opened Base
  import opened Text
  import opened WritePlan

  // ---------- Canonical identities ----------

  /** An operation identifier names its collection and key: the three collection names start differently. */
  lemma IdentifierIsInjective(t: Target, a: string, u: Target, b: string)
    requires OperationId(t, a) == OperationId(u, b)
    ensures t == u && a == b
  {
    assert OperationId(t, a)[0] == TargetName(t)[0] && OperationId(u, b)[0] == TargetName(u)[0];
    assert a == OperationId(t, a)[|TargetName(t)| + 1..];
    assert b == OperationId(u, b)[|TargetName(u)| + 1..];
  }

  lemma TargetNamesRoundTrip(t: Target)
    ensures TargetOf(JString(TargetName(t))) == Some(t)
  {
  }

  /** Reading an identifier back strips nothing when its key is trimmed. */
  lemma IdentifierIsTrimmed(t: Target, key: string)
    requires key != "" && Trimmed(key)
    ensures StringOrNone(JString(OperationId(t, key))) == Some(OperationId(t, key))
  {
    var id := OperationId(t, key);
    assert id[0] == TargetName(t)[0] && id[|id| - 1] == key[|key| - 1];
    StripTrims(id);
  }

  // ---------- Acceptance of an arbitrary plan ----------

  /** What a sound operation says: where it goes, under which key, with which model, and the place it claims. */
  datatype Reading = Reading(target: Target, key: string, model: Fields, sourceIndex: Json)

  type Readings = RawOperation -> Option<Reading>

  /** What an operation must say by itself: a supported upsert whose identifier and key are, once stripped,
      those of its valid payload. */
  ghost predicate Sound(reader: Reader, raw: RawOperation) {
    && raw.RawOperation? && raw.action == ACTION && TargetOf(raw.target).Some? && raw.payload.Object?
    && var t := TargetOf(raw.target).value;
    && Validated(reader, t, raw.payload.fields).Some?
    && var key := ModelKey(t, raw.payload.fields);
    && StringOrNone(raw.targetKey) == Some(key) && StringOrNone(raw.operationId) == Some(OperationId(t, key))
  }

  ghost function ReadingsOf(reader: Reader): Readings {
    raw =>
      if Sound(reader, raw) then
        var t := TargetOf(raw.target).value;
        Some(Reading(t, ModelKey(t, raw.payload.fields), Validated(reader, t, raw.payload.fields).value,
                     raw.sourceIndex))
      else None
  }

  ghost function ReadCount(read: Readings, t: Target, raws: seq<RawOperation>): nat {
    if raws == [] then 0
    else
      var last := read(raws[|raws| - 1]);
      ReadCount(read, t, raws[..|raws| - 1]) + if last.Some? && last.value.target == t then 1 else 0
  }

  ghost predicate SameIdentity(a: Option<Reading>, b: Option<Reading>) {
    a.Some? && b.Some? && a.value.target == b.value.target && a.value.key == b.value.key
  }

  /** Sound, numbered by its place among the operations of its collection, and unlike any earlier one. */
  ghost predicate OperationHolds(read: Readings, raws: seq<RawOperation>, i: nat)
    requires i < |raws|
  {
    && read(raws[i]).Some?
    && read(raws[i]).value.sourceIndex == JInt(ReadCount(read, read(raws[i]).value.target, raws[..i]))
    && forall j :: 0 <= j < i ==> !SameIdentity(read(raws[j]), read(raws[i]))
  }

  ghost predicate OperationsHold(read: Readings, raws: seq<RawOperation>) {
    forall i :: 0 <= i < |raws| ==> OperationHolds(read, raws, i)
  }

  ghost predicate EnvelopeHolds(plan: RawPlan) {
    && plan.metadata.Some? && plan.operations.Some?
    && var metadata := plan.metadata.value;
    && Get(metadata, "schema_version") == JString("ceqanet_write_plan.v1")
    && PythonInt(Get(metadata, "operation_count")) == Some(|plan.operations.value|)
    && PythonInt(Get(metadata, "skipped_item_count")) == Some(0)
    && plan.skippedItems == Some(0)
    && Get(metadata, "network_executed") == Get(metadata, "database_opened")
       == Get(metadata, "persistence_mutated") == JBool(false)
  }

  ghost function PreparedFrom(reading: Reading, position: nat): Prepared {
    Prepared(OperationId(reading.target, reading.key), position, reading.target, reading.key, reading.model)
  }

  /** A step accepts an operation exactly when it reads, is new, and is numbered by its place. */
  ghost predicate StepFollows(step: Step, read: Readings) {
    forall raw, before :: StepAgrees(step(raw, before), read(raw), before)
  }

  ghost predicate StepAgrees(result: Result<Prepared, PrepareError>, reading: Option<Reading>, before: seq<Prepared>) {
    if && reading.Some?
       && OperationId(reading.value.target, reading.value.key) !in Identifiers(before)
       && reading.value.sourceIndex == JInt(CountTo(reading.value.target, before))
    then result == Ok(PreparedFrom(reading.value, CountTo(reading.value.target, before)))
    else result.Err?
  }

  lemma StepAgreesWithReading(reader: Reader, raw: RawOperation, before: seq<Prepared>)
    ensures StepAgrees(StepOf(reader)(raw, before), ReadingsOf(reader)(raw), before)
  {
    assert StepOf(reader)(raw, before) == PrepareOne(reader, raw, Identifiers(before), Positions(before));
    if raw.RawOperation? && TargetOf(raw.target).Some? {
      assert Position(Positions(before), TargetOf(raw.target).value) == CountTo(TargetOf(raw.target).value, before);
    }
  }

  lemma StepFollowsReadings(reader: Reader)
    ensures StepFollows(StepOf(reader), ReadingsOf(reader))
  {
    var step, read := StepOf(reader), ReadingsOf(reader);
    forall raw, before
      ensures StepAgrees(step(raw, before), read(raw), before)
    {
      StepAgreesWithReading(reader, raw, before);
    }
  }

  /** The prepared operations are, one for one, those of the plan. */
  ghost predicate Mirrors(read: Readings, raws: seq<RawOperation>, ops: seq<Prepared>) {
    && |ops| == |raws|
    && (raws == [] ||
        var n := |raws| - 1;
        && Mirrors(read, raws[..n], ops[..n])
        && read(raws[n]).Some?
        && ops[n] == PreparedFrom(read(raws[n]).value, ReadCount(read, read(raws[n]).value.target, raws[..n])))
  }

  lemma {:induction false} MirrorsAt(read: Readings, raws: seq<RawOperation>, ops: seq<Prepared>, i: nat)
    requires Mirrors(read, raws, ops) && i < |raws|
    ensures read(raws[i]).Some?
    ensures ops[i] == PreparedFrom(read(raws[i]).value, ReadCount(read, read(raws[i]).value.target, raws[..i]))
  {
    var n := |raws| - 1;
    if i < n {
      MirrorsAt(read, raws[..n], ops[..n], i);
      assert raws[..n][..i] == raws[..i];
    }
  }

  lemma {:induction false} MirrorsCount(read: Readings, raws: seq<RawOperation>, ops: seq<Prepared>, t: Target)
    requires Mirrors(read, raws, ops)
    ensures CountTo(t, ops) == ReadCount(read, t, raws)
  {
    if raws != [] {
      MirrorsCount(read, raws[..|raws| - 1], ops[..|raws| - 1], t);
    }
  }

  lemma MirrorsIdentifiers(read: Readings, raws: seq<RawOperation>, ops: seq<Prepared>, x: Reading)
    requires Mirrors(read, raws, ops)
    ensures OperationId(x.target, x.key) in Identifiers(ops)
        <==> exists j :: 0 <= j < |raws| && SameIdentity(read(raws[j]), Some(x))
  {
    if OperationId(x.target, x.key) in Identifiers(ops) {
      var op :| op in ops && op.operationId == OperationId(x.target, x.key);
      var j :| 0 <= j < |ops| && ops[j] == op;
      MirrorsAt(read, raws, ops, j);
      IdentifierIsInjective(x.target, x.key, read(raws[j]).value.target, read(raws[j]).value.key);
      assert SameIdentity(read(raws[j]), Some(x));
    }
    if j :| 0 <= j < |raws| && SameIdentity(read(raws[j]), Some(x)) {
      MirrorsAt(read, raws, ops, j);
      assert ops[j] in ops;
    }
  }

  lemma HoldsSplit(read: Readings, raws: seq<RawOperation>)
    requires raws != []
    ensures OperationsHold(read, raws)
        <==> OperationsHold(read, raws[..|raws| - 1]) && OperationHolds(read, raws, |raws| - 1)
  {
    var n := |raws| - 1;
    assert forall i :: 0 <= i < n ==> raws[..n][..i] == raws[..i];
    assert forall i :: 0 <= i < n ==> (OperationHolds(read, raws, i) <==> OperationHolds(read, raws[..n], i));
  }

  lemma LastPreparesIff(step: Step, read: Readings, raws: seq<RawOperation>, before: seq<Prepared>)
    requires StepFollows(step, read)
    requires raws != [] && Mirrors(read, raws[..|raws| - 1], before)
    ensures var last := step(raws[|raws| - 1], before);
      && (last.Ok? <==> OperationHolds(read, raws, |raws| - 1))
      && (last.Ok? ==> Mirrors(read, raws, before + [last.value]))
  {
    var n := |raws| - 1;
    var raw, front := raws[n], raws[..n];
    assert StepAgrees(step(raw, before), read(raw), before);
    if read(raw).Some? {
      MirrorsCount(read, front, before, read(raw).value.target);
      MirrorsIdentifiers(read, front, before, read(raw).value);
      assert forall j :: 0 <= j < n ==> front[j] == raws[j];
    }
    if step(raw, before).Ok? {
      assert (before + [step(raw, before).value])[..n] == before;
    }
  }

  /** Preparation of the operations succeeds exactly when each of them holds. */
  lemma {:induction false} OperationsPrepareIff(step: Step, read: Readings, raws: seq<RawOperation>)
    requires StepFollows(step, read)
    ensures PrepareAll(step, raws).Ok? <==> OperationsHold(read, raws)
    ensures PrepareAll(step, raws).Ok? ==> Mirrors(read, raws, PrepareAll(step, raws).value)
  {
    if raws != [] {
      var front := raws[..|raws| - 1];
      OperationsPrepareIff(step, read, front);
      HoldsSplit(read, raws);
      if PrepareAll(step, front).Ok? {
        LastPreparesIff(step, read, raws, PrepareAll(step, front).value);
      }
    }
  }

  lemma EnvelopeHoldsIff(plan: RawPlan)
    ensures EnvelopeHolds(plan) <==> Envelope(plan) == None
  {
  }

  /** A plan is accepted for execution exactly when its envelope and all its operations hold; what is
      prepared then mirrors the plan. */
  lemma PrepareSucceedsIff(reader: Reader, plan: RawPlan)
    ensures Prepare(reader, plan).Ok?
        <==> EnvelopeHolds(plan) && OperationsHold(ReadingsOf(reader), plan.operations.value)
    ensures Prepare(reader, plan).Ok? ==>
      Mirrors(ReadingsOf(reader), plan.operations.value, Prepare(reader, plan).value)
  {
    EnvelopeHoldsIff(plan);
    StepFollowsReadings(reader);
    if plan.operations.Some? {
      OperationsPrepareIff(StepOf(reader), ReadingsOf(reader), plan.operations.value);
    }
  }

  // ---------- Acceptance of a plan built from a preview ----------

  /** An item whose plan operation will be accepted: a valid object under a non-blank, trimmed key. */
  ghost predicate Reviewed(reader: Reader, t: Target, item: Item) {
    && item.Object? && Get(item.fields, KeyField(t)).JString?
    && Get(item.fields, KeyField(t)).text != "" && Trimmed(Get(item.fields, KeyField(t)).text)
    && Validated(reader, t, item.fields).Some?
  }

  ghost function ItemKey(t: Target, item: Item): Json {
    if item.Object? then Get(item.fields, KeyField(t)) else JNull
  }

  /** Every item is acceptable, and no two carry the same key. */
  ghost predicate ReviewedCollection(reader: Reader, t: Target, items: seq<Item>) {
    && (forall i :: 0 <= i < |items| ==> Reviewed(reader, t, items[i]))
    && forall i, j :: 0 <= i < j < |items| ==> ItemKey(t, items[i]) != ItemKey(t, items[j])
  }

  /** Every item is planned at its own place. */
  ghost predicate AllPlanned(planner: Planner, items: seq<Item>) {
    && |OperationsFor(planner, items)| == |items|
    && forall i :: 0 <= i < |items| ==> planner(items[i], i) == Ok(OperationsFor(planner, items)[i])
  }

  lemma {:induction false} PlannedOrSkipped(planner: Planner, items: seq<Item>)
    ensures |OperationsFor(planner, items)| + |SkippedFor(planner, items)| == |items|
  {
    if items != [] {
      PlannedOrSkipped(planner, items[..|items| - 1]);
    }
  }

  lemma {:induction false} NothingSkipped(planner: Planner, items: seq<Item>)
    requires SkippedFor(planner, items) == []
    ensures AllPlanned(planner, items)
  {
    PlannedOrSkipped(planner, items);
    if items != [] {
      var n := |items| - 1;
      var ops, before := OperationsFor(planner, items), OperationsFor(planner, items[..n]);
      assert SkippedFor(planner, items[..n]) <= SkippedFor(planner, items);
      NothingSkipped(planner, items[..n]);
      assert planner(items[n], n).Ok?;
      assert ops == before + [planner(items[n], n).value];
      forall i | 0 <= i < n
        ensures planner(items[i], i) == Ok(ops[i])
      {
        assert items[..n][i] == items[i] && ops[i] == before[i];
      }
    }
  }

  /** A reviewed item is planned, and its operation reads back as what the item says. */
  lemma ReviewedIff(reader: Reader, t: Target, item: Item, index: nat)
    ensures Reviewed(reader, t, item) <==>
      Planned(t, item, index).Ok? && ReadingsOf(reader)(Serialized(Planned(t, item, index).value)).Some?
    ensures Reviewed(reader, t, item) ==>
      var reading := ReadingsOf(reader)(Serialized(Planned(t, item, index).value)).value;
      reading.target == t && JString(reading.key) == ItemKey(t, item) && reading.sourceIndex == JInt(index)
      && Some(reading.model) == Validated(reader, t, item.fields)
  {
    TargetNamesRoundTrip(t);
    if item.Object? && Get(item.fields, KeyField(t)).JString? {
      var key := Get(item.fields, KeyField(t)).text;
      StripTrims(key);
      StripTrims(Strip(key));
      if Strip(key) != "" {
        IdentifierIsTrimmed(t, Strip(key));
      }
    }
  }

  lemma {:induction false} AllPlannedSkipsNothing(planner: Planner, items: seq<Item>)
    requires forall i :: 0 <= i < |items| ==> planner(items[i], i).Ok?
    ensures SkippedFor(planner, items) == []
  {
    if items != [] {
      AllPlannedSkipsNothing(planner, items[..|items| - 1]);
    }
  }

  lemma AllReviewedSkipsNothing(reader: Reader, t: Target, items: seq<Item>)
    requires ReviewedCollection(reader, t, items)
    ensures SkippedFor(PlannerFor(t), items) == []
  {
    var planner := PlannerFor(t);
    forall i | 0 <= i < |items|
      ensures planner(items[i], i).Ok?
    {
      ReviewedIff(reader, t, items[i], i);
    }
    AllPlannedSkipsNothing(planner, items);
  }

  /** Every operation reads, and no two are the same. */
  ghost predicate BlockHolds(read: Readings, raws: seq<RawOperation>) {
    && (forall i :: 0 <= i < |raws| ==> read(raws[i]).Some?)
    && forall i, j :: 0 <= i < j < |raws| ==> !SameIdentity(read(raws[i]), read(raws[j]))
  }

  /** Operations of one collection, numbered in order. */
  ghost predicate Numbered(read: Readings, t: Target, raws: seq<RawOperation>) {
    forall i :: 0 <= i < |raws| && read(raws[i]).Some? ==>
      read(raws[i]).value.target == t && read(raws[i]).value.sourceIndex == JInt(i)
  }

  ghost predicate Elsewhere(read: Readings, t: Target, raws: seq<RawOperation>) {
    forall i :: 0 <= i < |raws| && read(raws[i]).Some? ==> read(raws[i]).value.target != t
  }

  lemma {:induction false} NoneElsewhere(read: Readings, t: Target, front: seq<RawOperation>)
    requires Elsewhere(read, t, front)
    ensures ReadCount(read, t, front) == 0
  {
    if front != [] {
      NoneElsewhere(read, t, front[..|front| - 1]);
    }
  }

  lemma {:induction false} BlockCount(read: Readings, t: Target, front: seq<RawOperation>, raws: seq<RawOperation>)
    requires Elsewhere(read, t, front) && Numbered(read, t, raws)
    requires forall i :: 0 <= i < |raws| ==> read(raws[i]).Some?
    ensures ReadCount(read, t, front + raws) == |raws|
    decreases |raws|
  {
    var all := front + raws;
    if raws == [] {
      assert all == front;
      NoneElsewhere(read, t, front);
    } else {
      var rest := raws[..|raws| - 1];
      assert all[..|all| - 1] == front + rest;
      assert all[|all| - 1] == raws[|raws| - 1];
      BlockCount(read, t, front, rest);
    }
  }

  ghost predicate NewIdentity(read: Readings, raws: seq<RawOperation>, x: Option<Reading>) {
    forall j :: 0 <= j < |raws| ==> !SameIdentity(read(raws[j]), x)
  }

  lemma NewIdentityInBlock(read: Readings, t: Target, front: seq<RawOperation>, raws: seq<RawOperation>, x: Reading)
    requires Elsewhere(read, t, front) && x.target == t
    ensures NewIdentity(read, front + raws, Some(x)) <==> NewIdentity(read, raws, Some(x))
  {
    var all := front + raws;
    if NewIdentity(read, all, Some(x)) {
      forall i | 0 <= i < |raws|
        ensures !SameIdentity(read(raws[i]), Some(x))
      {
        assert all[|front| + i] == raws[i];
      }
    }
  }

  lemma BlockHoldsSplit(read: Readings, raws: seq<RawOperation>)
    requires raws != []
    ensures var n := |raws| - 1;
      BlockHolds(read, raws)
      <==> BlockHolds(read, raws[..n]) && read(raws[n]).Some? && NewIdentity(read, raws[..n], read(raws[n]))
  {
    var n := |raws| - 1;
    assert forall i :: 0 <= i < n ==> raws[..n][i] == raws[i];
  }

  lemma LastOfBlockHolds(read: Readings, t: Target, front: seq<RawOperation>, raws: seq<RawOperation>)
    requires raws != [] && Elsewhere(read, t, front) && Numbered(read, t, raws)
    requires BlockHolds(read, raws[..|raws| - 1])
    ensures OperationHolds(read, front + raws, |front| + |raws| - 1) <==> BlockHolds(read, raws)
  {
    var n, all := |raws| - 1, front + raws;
    var k, rest, last := |front| + n, raws[..n], read(raws[n]);
    assert all[..k] == front + rest && all[k] == raws[n];
    assert forall j :: 0 <= j < k ==> (front + rest)[j] == all[j];
    if last.Some? {
      BlockCount(read, t, front, rest);
      NewIdentityInBlock(read, t, front, rest, last.value);
      assert OperationHolds(read, all, k) <==> NewIdentity(read, front + rest, last);
    }
    BlockHoldsSplit(read, raws);
  }

  /** A block of operations for a new collection can be judged by itself. */
  lemma {:induction false} AppendBlock(read: Readings, t: Target, front: seq<RawOperation>, raws: seq<RawOperation>)
    requires Elsewhere(read, t, front) && Numbered(read, t, raws)
    ensures OperationsHold(read, front + raws) <==> OperationsHold(read, front) && BlockHolds(read, raws)
  {
    if raws == [] {
      assert front + raws == front;
    } else {
      var n := |raws| - 1;
      assert (front + raws)[..|front| + n] == front + raws[..n];
      AppendBlock(read, t, front, raws[..n]);
      HoldsSplit(read, front + raws);
      BlockHoldsSplit(read, raws);
      if BlockHolds(read, raws[..n]) {
        LastOfBlockHolds(read, t, front, raws);
      }
    }
  }

  /** The operations of one fully planned collection hold exactly when the collection is reviewed. */
  lemma BlockHoldsIff(reader: Reader, t: Target, items: seq<Item>)
    requires AllPlanned(PlannerFor(t), items)
    ensures var raws := SerializedAll(OperationsFor(PlannerFor(t), items));
      && Numbered(ReadingsOf(reader), t, raws)
      && (BlockHolds(ReadingsOf(reader), raws) <==> ReviewedCollection(reader, t, items))
  {
    var read, planner := ReadingsOf(reader), PlannerFor(t);
    var ops := OperationsFor(planner, items);
    var raws := SerializedAll(ops);
    forall i | 0 <= i < |items|
      ensures Reviewed(reader, t, items[i]) <==> read(raws[i]).Some?
      ensures read(raws[i]).Some? ==> ReadsAs(read(raws[i]).value, t, items[i], i)
    {
      assert planner(items[i], i) == Ok(ops[i]) == Planned(t, items[i], i);
      ReviewedIff(reader, t, items[i], i);
    }
    SameKeysIff(read, raws, t, items);
  }

  ghost predicate ReadsAs(reading: Reading, t: Target, item: Item, index: nat) {
    reading.target == t && JString(reading.key) == ItemKey(t, item) && reading.sourceIndex == JInt(index)
  }

  lemma SameKeysIff(read: Readings, raws: seq<RawOperation>, t: Target, items: seq<Item>)
    requires |raws| == |items|
    requires forall i :: 0 <= i < |items| && read(raws[i]).Some? ==> ReadsAs(read(raws[i]).value, t, items[i], i)
    ensures (forall i :: 0 <= i < |raws| ==> read(raws[i]).Some?) ==>
      (BlockHolds(read, raws)
       <==> forall i, j :: 0 <= i < j < |items| ==> ItemKey(t, items[i]) != ItemKey(t, items[j]))
  {
    if forall i :: 0 <= i < |raws| ==> read(raws[i]).Some? {
      forall i, j | 0 <= i < j < |items|
        ensures SameIdentity(read(raws[i]), read(raws[j])) <==> ItemKey(t, items[i]) == ItemKey(t, items[j])
      {
        assert ReadsAs(read(raws[i]).value, t, items[i], i) && ReadsAs(read(raws[j]).value, t, items[j], j);
      }
    }
  }

  ghost predicate ReviewedPreview(reader: Reader, preview: Preview) {
    && preview.ceqaRecords.Some? && preview.sites.Some? && preview.entities.Some?
    && ReviewedCollection(reader, CeqaRecords, preview.ceqaRecords.value)
    && ReviewedCollection(reader, Sites, preview.sites.value)
    && ReviewedCollection(reader, Entities, preview.entities.value)
  }

  lemma SerializedConcat(a: seq<Operation>, b: seq<Operation>)
    ensures SerializedAll(a + b) == SerializedAll(a) + SerializedAll(b)
  {
  }

  lemma NoOperationsHold(read: Readings, raws: seq<RawOperation>)
    requires raws == []
    ensures OperationsHold(read, raws) && forall t :: Elsewhere(read, t, raws)
  {
  }

  /** The three collections' operations, one after the other, hold exactly when each block does. */
  lemma ThreeBlocks(read: Readings, a: seq<RawOperation>, b: seq<RawOperation>, c: seq<RawOperation>)
    requires Numbered(read, CeqaRecords, a) && Numbered(read, Sites, b) && Numbered(read, Entities, c)
    ensures OperationsHold(read, a + b + c)
        <==> BlockHolds(read, a) && BlockHolds(read, b) && BlockHolds(read, c)
  {
    NoOperationsHold(read, []);
    assert [] + a == a;
    AppendBlock(read, CeqaRecords, [], a);
    assert Elsewhere(read, Sites, a) && Elsewhere(read, Entities, a) && Elsewhere(read, Entities, b);
    AppendBlock(read, Sites, a, b);
    ConcatElsewhere(read, Entities, a, b);
    AppendBlock(read, Entities, a + b, c);
  }

  lemma ConcatElsewhere(read: Readings, t: Target, a: seq<RawOperation>, b: seq<RawOperation>)
    requires Elsewhere(read, t, a) && Elsewhere(read, t, b)
    ensures Elsewhere(read, t, a + b)
  {
  }

  lemma PlanPayloadPrepares(reader: Reader, plan: Plan)
    ensures Prepare(reader, PlanPayload(plan)).Ok?
        <==> plan.skipped == [] && OperationsHold(ReadingsOf(reader), SerializedAll(plan.operations))
  {
    PrepareSucceedsIff(reader, PlanPayload(plan));
    assert EnvelopeHolds(PlanPayload(plan)) <==> plan.skipped == [];
  }

  lemma CollectionsReviewedIff(reader: Reader, x: seq<Item>, y: seq<Item>, z: seq<Item>)
    ensures AllSkipped(x, y, z) == [] && OperationsHold(ReadingsOf(reader), SerializedAll(AllOperations(x, y, z)))
        <==> && ReviewedCollection(reader, CeqaRecords, x) && ReviewedCollection(reader, Sites, y)
             && ReviewedCollection(reader, Entities, z)
  {
    var p, q, r := PlannerFor(CeqaRecords), PlannerFor(Sites), PlannerFor(Entities);
    if AllSkipped(x, y, z) == [] {
      assert |AllSkipped(x, y, z)| == |SkippedFor(p, x)| + |SkippedFor(q, y)| + |SkippedFor(r, z)|;
      NothingSkipped(p, x);
      NothingSkipped(q, y);
      NothingSkipped(r, z);
      PlannedBlocks(reader, x, y, z);
    } else if ReviewedCollection(reader, CeqaRecords, x) && ReviewedCollection(reader, Sites, y)
              && ReviewedCollection(reader, Entities, z) {
      AllReviewedSkipsNothing(reader, CeqaRecords, x);
      AllReviewedSkipsNothing(reader, Sites, y);
      AllReviewedSkipsNothing(reader, Entities, z);
    }
  }

  /** A plan built from a preview is accepted for execution exactly when the preview is fully reviewed:
      nothing to skip, keys trimmed and distinct in each collection, and valid payloads. */
  lemma PlanAcceptedIff(reader: Reader, preview: Preview)
    requires BuildPlan(preview).Ok?
    ensures Prepare(reader, PlanPayload(BuildPlan(preview).value)).Ok? <==> ReviewedPreview(reader, preview)
  {
    PlanPayloadPrepares(reader, BuildPlan(preview).value);
    CollectionsReviewedIff(reader, preview.ceqaRecords.value, preview.sites.value, preview.entities.value);
  }

  lemma PlannedBlocks(reader: Reader, x: seq<Item>, y: seq<Item>, z: seq<Item>)
    requires AllPlanned(PlannerFor(CeqaRecords), x) && AllPlanned(PlannerFor(Sites), y)
    requires AllPlanned(PlannerFor(Entities), z)
    ensures OperationsHold(ReadingsOf(reader), SerializedAll(AllOperations(x, y, z)))
        <==> && ReviewedCollection(reader, CeqaRecords, x) && ReviewedCollection(reader, Sites, y)
             && ReviewedCollection(reader, Entities, z)
  {
    var a, b, c := OperationsFor(PlannerFor(CeqaRecords), x), OperationsFor(PlannerFor(Sites), y),
                   OperationsFor(PlannerFor(Entities), z);
    SerializedConcat(a, b);
    SerializedConcat(a + b, c);
    BlockHoldsIff(reader, CeqaRecords, x);
    BlockHoldsIff(reader, Sites, y);
    BlockHoldsIff(reader, Entities, z);
    ThreeBlocks(ReadingsOf(reader), SerializedAll(a), SerializedAll(b), SerializedAll(c));
  }

  // ---------- What acceptance guarantees ----------

  /** Operations with distinct identities, each under its canonical identifier. */
  ghost predicate Canonical(ops: seq<Prepared>) {
    && (forall i :: 0 <= i < |ops| ==> ops[i].operationId == OperationId(ops[i].target, ops[i].targetKey))
    && forall i, j :: 0 <= i < j < |ops| ==>
      (ops[i].target, ops[i].targetKey) != (ops[j].target, ops[j].targetKey)
  }

  lemma PreparedIsCanonical(reader: Reader, plan: RawPlan)
    requires Prepare(reader, plan).Ok?
    ensures Canonical(Prepare(reader, plan).value)
  {
    PrepareSucceedsIff(reader, plan);
    var read, raws, ops := ReadingsOf(reader), plan.operations.value, Prepare(reader, plan).value;
    forall i | 0 <= i < |ops|
      ensures ops[i].operationId == OperationId(ops[i].target, ops[i].targetKey)
    {
      MirrorsAt(read, raws, ops, i);
    }
    forall i, j | 0 <= i < j < |ops|
      ensures (ops[i].target, ops[i].targetKey) != (ops[j].target, ops[j].targetKey)
    {
      MirrorsAt(read, raws, ops, i);
      MirrorsAt(read, raws, ops, j);
      assert OperationHolds(read, raws, j);
      assert !SameIdentity(read(raws[i]), read(raws[j]));
    }
  }

  /** A prepared operation carries a planned one's target and key, and the model of its payload. */
  ghost predicate Carries(reader: Reader, prepared: Prepared, planned: Operation) {
    && prepared.target == planned.target && prepared.targetKey == planned.targetKey
    && Some(prepared.model) == Validated(reader, planned.target, planned.payload)
  }

  lemma ReadingOfSerialized(reader: Reader, op: Operation)
    requires ReadingsOf(reader)(Serialized(op)).Some? && Trimmed(op.targetKey)
    ensures var reading := ReadingsOf(reader)(Serialized(op)).value;
      && reading.target == op.target && reading.key == op.targetKey
      && Some(reading.model) == Validated(reader, op.target, op.payload)
  {
    TargetNamesRoundTrip(op.target);
    StripTrims(op.targetKey);
  }

  lemma PlannedKeyIsTrimmed(t: Target, item: Item, index: nat)
    requires Planned(t, item, index).Ok?
    ensures Trimmed(Planned(t, item, index).value.targetKey)
    ensures item == Object(Planned(t, item, index).value.payload) && Planned(t, item, index).value.target == t
  {
    StripTrims(Get(item.fields, KeyField(t)).text);
  }

  /** Planned operations come from items, and every planned item has one. */
  lemma {:induction false} OperationsComeFromItems(planner: Planner, items: seq<Item>, op: Operation)
    ensures op in OperationsFor(planner, items) <==> exists i :: 0 <= i < |items| && planner(items[i], i) == Ok(op)
  {
    if items != [] {
      var n := |items| - 1;
      OperationsComeFromItems(planner, items[..n], op);
      assert forall i :: 0 <= i < n ==> items[..n][i] == items[i];
      if op in OperationsFor(planner, items[..n]) {
        var i :| 0 <= i < n && planner(items[..n][i], i) == Ok(op);
        assert planner(items[i], i) == Ok(op);
      } else if op in OperationsFor(planner, items) {
        assert planner(items[n], n) == Ok(op);
      }
    }
  }

  ghost predicate TrimmedKeys(ops: seq<Operation>) {
    forall op :: op in ops ==> Trimmed(op.targetKey)
  }

  /** Preparing a plan keeps its operations one for one, in order. */
  lemma PreparedCarriesPlan(reader: Reader, plan: Plan)
    requires Prepare(reader, PlanPayload(plan)).Ok? && TrimmedKeys(plan.operations)
    ensures var ops := Prepare(reader, PlanPayload(plan)).value;
      && |ops| == |plan.operations|
      && forall i :: 0 <= i < |ops| ==> Carries(reader, ops[i], plan.operations[i])
  {
    PrepareSucceedsIff(reader, PlanPayload(plan));
    var read, raws, ops := ReadingsOf(reader), SerializedAll(plan.operations), Prepare(reader, PlanPayload(plan)).value;
    forall i | 0 <= i < |ops|
      ensures Carries(reader, ops[i], plan.operations[i])
    {
      MirrorsAt(read, raws, ops, i);
      assert plan.operations[i] in plan.operations;
      ReadingOfSerialized(reader, plan.operations[i]);
    }
  }
}
