/** From a persistence preview to a write plan, and from a write plan to operations ready to apply. */
module WritePlan {
  import opened Base
  import opened Text

  datatype Target = CeqaRecords | Sites | Entities

  function TargetName(t: Target): string {
    match t
    case CeqaRecords => "ceqa_records"
    case Sites => "sites"
    case Entities => "entities"
  }

  function KeyField(t: Target): string {
    match t
    case CeqaRecords => "ceqa_key"
    case Sites => "site_key"
    case Entities => "entity_key"
  }

  /** The other field each model requires to be non-empty text. */
  function NameField(t: Target): string {
    match t
    case CeqaRecords => "title"
    case Sites => "county"
    case Entities => "name"
  }

  type Fields = map<string, Json>

  datatype Item = NotAnObject | Object(fields: Fields)

  function Get(fields: Fields, name: string): Json {
    if name in fields then fields[name] else JNull
  }

  function OperationId(t: Target, key: string): string {
    TargetName(t) + ":" + key
  }

  // ---------- Building a plan from a preview ----------

  datatype Operation = Operation(
    operationId: string,
    target: Target,
    targetKey: string,
    sourceIndex: nat,
    payload: Fields)

  datatype SkipReason = ItemIsNotAnObject | MissingKey

  datatype Skipped = Skipped(target: Target, sourceIndex: nat, reason: SkipReason)

  datatype Plan = Plan(operations: seq<Operation>, skipped: seq<Skipped>)

  datatype Preview = Preview(
    metadata: Option<Fields>,
    ceqaRecords: Option<seq<Item>>,
    sites: Option<seq<Item>>,
    entities: Option<seq<Item>>)

  datatype PlanError = NoMetadata | WrongSchema | NoCollection(target: Target)

  /** The one operation, or the one skip, an item leads to. */
  function Planned(t: Target, item: Item, index: nat): Result<Operation, Skipped> {
    match item
    case NotAnObject => Err(Skipped(t, index, ItemIsNotAnObject))
    case Object(fields) =>
      match StringOrNone(Get(fields, KeyField(t)))
      case None => Err(Skipped(t, index, MissingKey))
      case Some(key) => Ok(Operation(OperationId(t, key), t, key, index, fields))
  }

  type Planner = (Item, nat) -> Result<Operation, Skipped>

  function PlannerFor(t: Target): Planner {
    (item, index: nat) => Planned(t, item, index)
  }

  function OperationsFor(planner: Planner, items: seq<Item>): seq<Operation> {
    if items == [] then []
    else
      var n := |items| - 1;
      OperationsFor(planner, items[..n]) + (match planner(items[n], n) case Ok(op) => [op] case Err(_) => [])
  }

  function SkippedFor(planner: Planner, items: seq<Item>): seq<Skipped> {
    if items == [] then []
    else
      var n := |items| - 1;
      SkippedFor(planner, items[..n]) + (match planner(items[n], n) case Ok(_) => [] case Err(skip) => [skip])
  }

  function AllOperations(ceqaRecords: seq<Item>, sites: seq<Item>, entities: seq<Item>): seq<Operation> {
    OperationsFor(PlannerFor(CeqaRecords), ceqaRecords) + OperationsFor(PlannerFor(Sites), sites)
    + OperationsFor(PlannerFor(Entities), entities)
  }

  function AllSkipped(ceqaRecords: seq<Item>, sites: seq<Item>, entities: seq<Item>): seq<Skipped> {
    SkippedFor(PlannerFor(CeqaRecords), ceqaRecords) + SkippedFor(PlannerFor(Sites), sites)
    + SkippedFor(PlannerFor(Entities), entities)
  }

  function BuildPlan(preview: Preview): Result<Plan, PlanError> {
    if preview.metadata == None then Err(NoMetadata)
    else if Get(preview.metadata.value, "schema_version") != JString("ceqanet_persistence_preview.v1") then
      Err(WrongSchema)
    else if preview.ceqaRecords == None then Err(NoCollection(CeqaRecords))
    else if preview.sites == None then Err(NoCollection(Sites))
    else if preview.entities == None then Err(NoCollection(Entities))
    else
      Ok(Plan(AllOperations(preview.ceqaRecords.value, preview.sites.value, preview.entities.value),
              AllSkipped(preview.ceqaRecords.value, preview.sites.value, preview.entities.value)))
  }

  /** One collection: operations are returned, skips are appended to the caller's list. */
  method OperationsForCollection(planner: Planner, items: seq<Item>, skippedBefore: seq<Skipped>)
    returns (operations: seq<Operation>, skipped: seq<Skipped>)
    ensures operations == OperationsFor(planner, items) && skipped == skippedBefore + SkippedFor(planner, items)
    ensures |operations| + (|skipped| - |skippedBefore|) == |items|
  {
    operations, skipped := [], skippedBefore;
    for index := 0 to |items|
      invariant operations == OperationsFor(planner, items[..index])
      invariant skipped == skippedBefore + SkippedFor(planner, items[..index])
      invariant |operations| + (|skipped| - |skippedBefore|) == index
    {
      assert items[..index + 1][..index] == items[..index];
      match planner(items[index], index) {
        case Ok(op) => operations := operations + [op];
        case Err(skip) => skipped := skipped + [skip];
      }
    }
    assert items[..|items|] == items;
  }

  /** The whole plan, collection by collection; every item leads to one operation or one skip. */
  method BuildWritePlan(preview: Preview) returns (r: Result<Plan, PlanError>)
    ensures r == BuildPlan(preview)
    ensures r.Ok? ==>
      |r.value.operations| + |r.value.skipped|
      == |preview.ceqaRecords.value| + |preview.sites.value| + |preview.entities.value|
  {
    if preview.metadata == None { return Err(NoMetadata); }
    if Get(preview.metadata.value, "schema_version") != JString("ceqanet_persistence_preview.v1") {
      return Err(WrongSchema);
    }
    if preview.ceqaRecords == None { return Err(NoCollection(CeqaRecords)); }
    var operations, skipped := OperationsForCollection(PlannerFor(CeqaRecords), preview.ceqaRecords.value, []);
    if preview.sites == None { return Err(NoCollection(Sites)); }
    var more, skippedNow := OperationsForCollection(PlannerFor(Sites), preview.sites.value, skipped);
    if preview.entities == None { return Err(NoCollection(Entities)); }
    var last, skippedAll := OperationsForCollection(PlannerFor(Entities), preview.entities.value, skippedNow);
    assert skipped == SkippedFor(PlannerFor(CeqaRecords), preview.ceqaRecords.value);
    r := Ok(Plan(operations + more + last, skippedAll));
  }

  // ---------- A plan as it is read back ----------

  datatype RawOperation =
    | RawNotAnObject
    | RawOperation(
        operationId: Json,
        action: Json,
        target: Json,
        targetKey: Json,
        sourceIndex: Json,
        payload: Item)

  /** `skippedItems` is the length of the list under that name, when it is a list. */
  datatype RawPlan = RawPlan(
    metadata: Option<Fields>,
    operations: Option<seq<RawOperation>>,
    skippedItems: Option<nat>)

  const ACTION := JString("upsert_preview")

  function Serialized(op: Operation): RawOperation {
    RawOperation(JString(op.operationId), ACTION, JString(TargetName(op.target)), JString(op.targetKey),
                 JInt(op.sourceIndex), Object(op.payload))
  }

  function SerializedAll(ops: seq<Operation>): seq<RawOperation> {
    seq(|ops|, i requires 0 <= i < |ops| => Serialized(ops[i]))
  }

  function PlanPayload(plan: Plan): RawPlan {
    RawPlan(
      Some(map["schema_version" := JString("ceqanet_write_plan.v1"),
               "operation_count" := JInt(|plan.operations|),
               "skipped_item_count" := JInt(|plan.skipped|),
               "network_executed" := JBool(false),
               "database_opened" := JBool(false),
               "persistence_mutated" := JBool(false)]),
      Some(SerializedAll(plan.operations)),
      Some(|plan.skipped|))
  }

  // ---------- Preparing a plan for execution ----------

  /** Reads a payload's optional fields into a model, or refuses it. */
  type Reader = (Target, Fields) -> Option<Fields>

  datatype Prepared = Prepared(operationId: string, sourceIndex: nat, target: Target, targetKey: string, model: Fields)

  datatype PrepareError =
    | PlanWithoutMetadata
    | PlanSchema
    | PlanWithoutOperations
    | PlanCount
    | PlanSkips
    | PlanClaimsEffects
    | OperationNotAnObject
    | OperationIdMissing
    | OperationIdRepeated
    | ActionUnsupported
    | TargetUnsupported
    | PayloadNotAnObject
    | PayloadInvalid
    | TargetKeyMissing
    | TargetKeyDiffers
    | OperationIdDiffers
    | SourceIndexDiffers

  function TargetOf(value: Json): Option<Target> {
    if value == JString("ceqa_records") then Some(CeqaRecords)
    else if value == JString("sites") then Some(Sites)
    else if value == JString("entities") then Some(Entities)
    else None
  }

  predicate RequiredText(fields: Fields, name: string) {
    Get(fields, name).JString? && Get(fields, name).text != ""
  }

  function Validated(reader: Reader, t: Target, fields: Fields): Option<Fields> {
    if RequiredText(fields, KeyField(t)) && RequiredText(fields, NameField(t)) then reader(t, fields) else None
  }

  /** The key the model carries: not stripped. */
  function ModelKey(t: Target, fields: Fields): string
    requires RequiredText(fields, KeyField(t))
  {
    Get(fields, KeyField(t)).text
  }

  function Envelope(plan: RawPlan): Option<PrepareError> {
    if plan.metadata == None then Some(PlanWithoutMetadata)
    else
      var metadata := plan.metadata.value;
      if Get(metadata, "schema_version") != JString("ceqanet_write_plan.v1") then Some(PlanSchema)
      else if plan.operations == None then Some(PlanWithoutOperations)
      else if PythonInt(Get(metadata, "operation_count")) != Some(|plan.operations.value|) then Some(PlanCount)
      else if PythonInt(Get(metadata, "skipped_item_count")) != Some(0) then Some(PlanSkips)
      else if plan.skippedItems != Some(0) then Some(PlanSkips)
      else if Get(metadata, "network_executed") != JBool(false) || Get(metadata, "database_opened") != JBool(false)
        || Get(metadata, "persistence_mutated") != JBool(false) then Some(PlanClaimsEffects)
      else None
  }

  function Position(positions: map<Target, nat>, t: Target): nat {
    if t in positions then positions[t] else 0
  }

  /** One operation, given the identifiers already seen and the next position in each collection. */
  function PrepareOne(reader: Reader, raw: RawOperation, identifiers: set<string>, positions: map<Target, nat>)
    : Result<Prepared, PrepareError>
  {
    match raw
    case RawNotAnObject => Err(OperationNotAnObject)
    case RawOperation(operationId, action, target, targetKey, sourceIndex, payload) =>
      if StringOrNone(operationId) == None then Err(OperationIdMissing)
      else if StringOrNone(operationId).value in identifiers then Err(OperationIdRepeated)
      else if action != ACTION then Err(ActionUnsupported)
      else if TargetOf(target) == None then Err(TargetUnsupported)
      else if payload == NotAnObject then Err(PayloadNotAnObject)
      else
        var t := TargetOf(target).value;
        match Validated(reader, t, payload.fields)
        case None => Err(PayloadInvalid)
        case Some(model) =>
          var key := ModelKey(t, payload.fields);
          if StringOrNone(targetKey) == None then Err(TargetKeyMissing)
          else if StringOrNone(targetKey).value != key then Err(TargetKeyDiffers)
          else if StringOrNone(operationId).value != OperationId(t, key) then Err(OperationIdDiffers)
          else if sourceIndex != JInt(Position(positions, t)) then Err(SourceIndexDiffers)
          else Ok(Prepared(OperationId(t, key), Position(positions, t), t, key, model))
  }

  /** How many operations go to a collection. */
  function CountTo(t: Target, ops: seq<Prepared>): nat {
    if ops == [] then 0
    else CountTo(t, ops[..|ops| - 1]) + if ops[|ops| - 1].target == t then 1 else 0
  }

  function Positions(ops: seq<Prepared>): map<Target, nat> {
    map[CeqaRecords := CountTo(CeqaRecords, ops), Sites := CountTo(Sites, ops), Entities := CountTo(Entities, ops)]
  }

  function Identifiers(ops: seq<Prepared>): set<string> {
    set op | op in ops :: op.operationId
  }

  lemma CountNext(ops: seq<Prepared>, op: Prepared)
    ensures forall t :: CountTo(t, ops + [op]) == CountTo(t, ops) + if op.target == t then 1 else 0
    ensures Identifiers(ops + [op]) == Identifiers(ops) + {op.operationId}
  {
    assert (ops + [op])[..|ops|] == ops;
    assert forall o :: o in ops + [op] <==> o in ops || o == op;
  }

  /** What becomes of an operation after the ones prepared before it. */
  type Step = (RawOperation, seq<Prepared>) -> Result<Prepared, PrepareError>

  function StepOf(reader: Reader): Step {
    (raw, before) => PrepareOne(reader, raw, Identifiers(before), Positions(before))
  }

  function PrepareAll(step: Step, raws: seq<RawOperation>): Result<seq<Prepared>, PrepareError> {
    if raws == [] then Ok([])
    else
      var n := |raws| - 1;
      match PrepareAll(step, raws[..n])
      case Err(error) => Err(error)
      case Ok(before) =>
        match step(raws[n], before)
        case Err(error) => Err(error)
        case Ok(op) => Ok(before + [op])
  }

  function Prepare(reader: Reader, plan: RawPlan): Result<seq<Prepared>, PrepareError> {
    match Envelope(plan)
    case Some(error) => Err(error)
    case None => PrepareAll(StepOf(reader), plan.operations.value)
  }

  /** A failure among the first operations is the failure of all of them. */
  lemma {:induction false} FirstFailureDecides(step: Step, raws: seq<RawOperation>, k: nat)
    requires k <= |raws| && PrepareAll(step, raws[..k]).Err?
    ensures PrepareAll(step, raws) == PrepareAll(step, raws[..k])
  {
    if k < |raws| {
      var n := |raws| - 1;
      assert raws[..n][..k] == raws[..k];
      FirstFailureDecides(step, raws[..n], k);
    } else {
      assert raws[..k] == raws;
    }
  }

  /** What the preparing loop keeps beside its results. */
  datatype Progress = Progress(identifiers: set<string>, positions: map<Target, nat>)

  ghost predicate Tracks(progress: Progress, prepared: seq<Prepared>) {
    progress.identifiers == Identifiers(prepared) && progress.positions == Positions(prepared)
  }

  function Advance(progress: Progress, op: Prepared): Progress {
    Progress(progress.identifiers + {op.operationId},
             progress.positions[op.target := Position(progress.positions, op.target) + 1])
  }

  lemma AdvanceTracks(progress: Progress, prepared: seq<Prepared>, op: Prepared)
    requires Tracks(progress, prepared)
    ensures Tracks(Advance(progress, op), prepared + [op])
  {
    CountNext(prepared, op);
  }

  /** The loop, with the set of identifiers and the position counters it updates. */
  method PrepareEach(next: (RawOperation, Progress) -> Result<Prepared, PrepareError>, ghost step: Step,
                     raws: seq<RawOperation>)
    returns (r: Result<seq<Prepared>, PrepareError>)
    requires forall raw, progress, before ::
               Tracks(progress, before) ==> next(raw, progress) == step(raw, before)
    ensures r == PrepareAll(step, raws)
  {
    var prepared: seq<Prepared> := [];
    var progress := Progress({}, map[CeqaRecords := 0, Sites := 0, Entities := 0]);
    for index := 0 to |raws|
      invariant PrepareAll(step, raws[..index]) == Ok(prepared)
      invariant Tracks(progress, prepared)
    {
      assert raws[..index + 1][..index] == raws[..index];
      var one := next(raws[index], progress);
      assert one == step(raws[index], prepared);
      match one {
        case Err(error) =>
          FirstFailureDecides(step, raws, index + 1);
          return Err(error);
        case Ok(op) =>
          AdvanceTracks(progress, prepared, op);
          progress, prepared := Advance(progress, op), prepared + [op];
      }
    }
    assert raws[..|raws|] == raws;
    r := Ok(prepared);
  }

  method PrepareOperations(reader: Reader, plan: RawPlan) returns (r: Result<seq<Prepared>, PrepareError>)
    ensures r == Prepare(reader, plan)
  {
    var refusal := Envelope(plan);
    if refusal.Some? { return Err(refusal.value); }
    r := PrepareEach((raw, p: Progress) => PrepareOne(reader, raw, p.identifiers, p.positions),
                     StepOf(reader), plan.operations.value);
  }
}
