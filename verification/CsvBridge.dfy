/** The reviewed bridge: retained CSV rows of one project become a preview and a write plan. */
module CsvBridge {
  import opened Base
  import opened Text
  import opened WritePlan
  import opened WritePlanLaws

  const MAX_ROWS := 100
  const COUNTIES := {"San Bernardino", "Riverside"}

  type Row = map<string, string>

  datatype BridgeError =
    | RowCountOutOfRange
    | SchDiffers
    | TitleOrCountyMissing
    | OtherCounty
    | PortalUrlOutOfScope
    | RowRepeated
    | ModelRejected
    | DateUnreadable
    | PlanIncomplete

  /** The captured request, and the libraries the bridge calls as fixed functions. `digest` is the 24
      hexadecimal characters of the row hash that enter the keys: it need not be injective. */
  datatype Source = Source(
    sch: string,
    digest: Row -> string,
    portalInScope: (string, string) -> bool,
    date: string -> Option<Json>,
    exactApn: string -> bool,
    provenance: (nat, Row) -> Json,
    nested: seq<Fields> -> Json,
    reader: Reader)

  predicate HexDigest(d: string) {
    |d| == 24 && forall i :: 0 <= i < 24 ==> '0' <= d[i] <= '9' || 'a' <= d[i] <= 'f'
  }

  /** The first of the named cells that is not blank, stripped. */
  function Value(row: Row, names: seq<string>): Option<string> {
    if names == [] then None
    else if names[0] in row && Strip(row[names[0]]) != "" then Some(Strip(row[names[0]]))
    else Value(row, names[1..])
  }

  function TextOrNull(value: Option<string>): Json {
    if value.Some? then JString(value.value) else JNull
  }

  /** A date cell: absent, readable, or unreadable. */
  function DateCell(s: Source, value: Option<string>): Option<Json> {
    if value == None then Some(JNull) else s.date(value.value)
  }

  function KeyPrefix(t: Target): string {
    match t
    case CeqaRecords => "ceqa:ceqanet:csv:"
    case Sites => "site:ceqanet:csv:"
    case Entities => "entity:ceqanet:csv:agency:"
  }

  function RowKey(t: Target, sch: string, digest: string): string {
    KeyPrefix(t) + sch + ":" + digest
  }

  /** What one row contributes. */
  datatype Entry = Entry(digest: string, county: string, record: Fields, site: Option<Fields>, entity: Option<Fields>)
  {
    function Part(t: Target): Option<Fields> {
      match t
      case CeqaRecords => Some(record)
      case Sites => site
      case Entities => entity
    }
  }

  /** The cells of one row that passed the row checks. */
  datatype Cells = Cells(title: string, county: string, apn: Option<string>, agency: Option<string>)

  function SiteFields(s: Source, digest: string, cells: Cells, provenance: Json): Option<Fields> {
    if cells.apn == None then None
    else
      Some(map["apn" := JString(cells.apn.value), "provenance" := provenance]
           + map["site_key" := JString(RowKey(Sites, s.sch, digest)), "county" := JString(cells.county)])
  }

  function EntityFields(s: Source, digest: string, cells: Cells, provenance: Json): Option<Fields> {
    if cells.agency == None then None
    else
      Some(map["role" := JString("agency"), "county" := JString(cells.county), "provenance" := provenance]
           + map["entity_key" := JString(RowKey(Entities, s.sch, digest)), "name" := JString(cells.agency.value)])
  }

  function OtherRecordFields(s: Source, cells: Cells, row: Row, received: Json, posted: Json, site: Option<Fields>,
                             entity: Option<Fields>, provenance: Json): Fields
  {
    map["lead_agency" := TextOrNull(cells.agency),
        "document_type" := TextOrNull(Value(row, ["document_type"])),
        "received_date" := received, "posted_date" := posted,
        "project_location" := TextOrNull(Value(row, ["location_cross_streets", "project_location"])),
        "description" := TextOrNull(Value(row, ["document_description", "project_description"])),
        "site" := if site.Some? then s.nested([site.value]) else JNull,
        "entities" := s.nested(if entity.Some? then [entity.value] else []),
        "provenance" := provenance]
  }

  function RecordFields(s: Source, digest: string, cells: Cells, others: Fields): Fields {
    others + map["ceqa_key" := JString(RowKey(CeqaRecords, s.sch, digest)), "title" := JString(cells.title),
                 "county" := JString(cells.county), "state_clearinghouse_number" := JString(s.sch)]
  }

  /** The checks a row must pass, given the keys of the rows before it. */
  function CheckRow(s: Source, row: Row, keys: set<string>): Result<Cells, BridgeError> {
    var title, county := Value(row, ["project_title", "title"]), Value(row, ["counties", "county"]);
    var portal := Value(row, ["document_portal_url"]);
    var apn := Value(row, ["location_parcel_number", "apn", "parcel_number"]);
    if Value(row, ["sch_number"]) != Some(s.sch) then Err(SchDiffers)
    else if title == None || county == None then Err(TitleOrCountyMissing)
    else if county.value !in COUNTIES then Err(OtherCounty)
    else if portal.Some? && !s.portalInScope(portal.value, s.sch) then Err(PortalUrlOutOfScope)
    else if RowKey(CeqaRecords, s.sch, s.digest(row)) in keys then Err(RowRepeated)
    else
      Ok(Cells(title.value, county.value, if apn.Some? && s.exactApn(apn.value) then apn else None,
               Value(row, ["lead_agency_name", "lead_agency"])))
  }

  predicate Accepts(reader: Reader, t: Target, fields: Option<Fields>) {
    fields.Some? ==> Validated(reader, t, fields.value).Some?
  }

  /** The models of a checked row; each constructor may refuse. */
  function Assemble(s: Source, row: Row, cells: Cells, provenance: Json): Result<Entry, BridgeError> {
    var digest := s.digest(row);
    var site, entity := SiteFields(s, digest, cells, provenance), EntityFields(s, digest, cells, provenance);
    var received, posted := DateCell(s, Value(row, ["received", "received_date"])),
                            DateCell(s, Value(row, ["posted", "posted_date"]));
    if !Accepts(s.reader, Sites, site) || !Accepts(s.reader, Entities, entity) then Err(ModelRejected)
    else if received == None || posted == None then Err(DateUnreadable)
    else
      var others := OtherRecordFields(s, cells, row, received.value, posted.value, site, entity, provenance);
      var record := RecordFields(s, digest, cells, others);
      if !Accepts(s.reader, CeqaRecords, Some(record)) then Err(ModelRejected)
      else Ok(Entry(digest, cells.county, record, site, entity))
  }

  function BridgeRow(s: Source, index: nat, row: Row, keys: set<string>): Result<Entry, BridgeError> {
    match CheckRow(s, row, keys)
    case Err(error) => Err(error)
    case Ok(cells) => Assemble(s, row, cells, s.provenance(index, row))
  }

  type RowStep = (nat, Row, set<string>) -> Result<Entry, BridgeError>

  function RowStepOf(s: Source): RowStep {
    (index: nat, row, keys) => BridgeRow(s, index, row, keys)
  }

  function RecordKeys(sch: string, entries: seq<Entry>): set<string> {
    set e | e in entries :: RowKey(CeqaRecords, sch, e.digest)
  }

  function BridgeRows(step: RowStep, sch: string, rows: seq<Row>): Result<seq<Entry>, BridgeError> {
    if rows == [] then Ok([])
    else
      var n := |rows| - 1;
      match BridgeRows(step, sch, rows[..n])
      case Err(error) => Err(error)
      case Ok(before) =>
        match step(n, rows[n], RecordKeys(sch, before))
        case Err(error) => Err(error)
        case Ok(entry) => Ok(before + [entry])
  }

  function ItemsOf(t: Target, entries: seq<Entry>): seq<Item> {
    if entries == [] then []
    else
      var last := entries[|entries| - 1].Part(t);
      ItemsOf(t, entries[..|entries| - 1]) + if last.Some? then [Object(last.value)] else []
  }

  function PreviewOf(entries: seq<Entry>): Preview {
    Preview(Some(map["schema_version" := JString("ceqanet_persistence_preview.v1")]),
            Some(ItemsOf(CeqaRecords, entries)), Some(ItemsOf(Sites, entries)), Some(ItemsOf(Entities, entries)))
  }

  function PlannedWriteCount(entries: seq<Entry>): nat {
    |ItemsOf(CeqaRecords, entries)| + |ItemsOf(Sites, entries)| + |ItemsOf(Entities, entries)|
  }

  datatype Bridge = Bridge(entries: seq<Entry>, plan: Plan)

  function BuildBridge(s: Source, rows: seq<Row>): Result<Bridge, BridgeError> {
    if !(1 <= |rows| <= MAX_ROWS) then Err(RowCountOutOfRange)
    else
      match BridgeRows(RowStepOf(s), s.sch, rows)
      case Err(error) => Err(error)
      case Ok(entries) =>
        match BuildPlan(PreviewOf(entries))
        case Err(_) => Err(PlanIncomplete)
        case Ok(plan) =>
          if plan.skipped != [] || |plan.operations| != PlannedWriteCount(entries) then Err(PlanIncomplete)
          else Ok(Bridge(entries, plan))
  }

  /** The row loop, with the set of keys and the lists it grows. */
  method CollectRows(step: RowStep, sch: string, rows: seq<Row>) returns (r: Result<seq<Entry>, BridgeError>)
    ensures r == BridgeRows(step, sch, rows)
  {
    var entries: seq<Entry> := [];
    var keys: set<string> := {};
    for index := 0 to |rows|
      invariant BridgeRows(step, sch, rows[..index]) == Ok(entries)
      invariant keys == RecordKeys(sch, entries)
    {
      assert rows[..index + 1][..index] == rows[..index];
      match step(index, rows[index], keys) {
        case Err(error) =>
          FirstRowFailureDecides(step, sch, rows, index + 1);
          return Err(error);
        case Ok(entry) =>
          keys := keys + {RowKey(CeqaRecords, sch, entry.digest)};
          entries := entries + [entry];
      }
    }
    assert rows[..|rows|] == rows;
    r := Ok(entries);
  }

  lemma {:induction false} FirstRowFailureDecides(step: RowStep, sch: string, rows: seq<Row>, k: nat)
    requires k <= |rows| && BridgeRows(step, sch, rows[..k]).Err?
    ensures BridgeRows(step, sch, rows) == BridgeRows(step, sch, rows[..k])
  {
    if k < |rows| {
      assert rows[..|rows| - 1][..k] == rows[..k];
      FirstRowFailureDecides(step, sch, rows[..|rows| - 1], k);
    } else {
      assert rows[..k] == rows;
    }
  }

  // ---------- Every bridge plan is accepted ----------

  ghost predicate PartHolds(s: Source, t: Target, e: Entry) {
    e.Part(t).Some? ==>
      && Get(e.Part(t).value, KeyField(t)) == JString(RowKey(t, s.sch, e.digest))
      && Validated(s.reader, t, e.Part(t).value).Some?
  }

  ghost predicate ProvenanceFrom(s: Source, value: Json) {
    exists index, row :: value == s.provenance(index, row)
  }

  /** What a bridged row guarantees: the project's county and number, and parts that are valid models under
      keys derived from the same digest. */
  ghost predicate EntryHolds(s: Source, e: Entry) {
    && HexDigest(e.digest) && e.county in COUNTIES
    && Get(e.record, "county") == JString(e.county)
    && Get(e.record, "state_clearinghouse_number") == JString(s.sch)
    && ProvenanceFrom(s, Get(e.record, "provenance"))
    && PartHolds(s, CeqaRecords, e) && PartHolds(s, Sites, e) && PartHolds(s, Entities, e)
  }

  lemma RecordFieldsHold(s: Source, digest: string, cells: Cells, others: Fields)
    ensures var record := RecordFields(s, digest, cells, others);
      && Get(record, "ceqa_key") == JString(RowKey(CeqaRecords, s.sch, digest))
      && Get(record, "county") == JString(cells.county)
      && Get(record, "state_clearinghouse_number") == JString(s.sch)
  {
    assert "ceqa_key" != "title" && "ceqa_key" != "county" && "county" != "title";
  }

  lemma ProvenanceHolds(s: Source, digest: string, cells: Cells, others: Fields, provenance: Json)
    requires Get(others, "provenance") == provenance
    ensures Get(RecordFields(s, digest, cells, others), "provenance") == provenance
  {
    var known := map["ceqa_key" := JString(RowKey(CeqaRecords, s.sch, digest)), "title" := JString(cells.title),
                     "county" := JString(cells.county), "state_clearinghouse_number" := JString(s.sch)];
    assert |"provenance"| == 10;
    forall name | name in known
      ensures |name| != 10
    {
    }
    assert "provenance" !in known;
    assert RecordFields(s, digest, cells, others) == others + known;
  }

  lemma OthersProvenance(s: Source, cells: Cells, row: Row, received: Json, posted: Json, site: Option<Fields>,
                         entity: Option<Fields>, provenance: Json)
    ensures Get(OtherRecordFields(s, cells, row, received, posted, site, entity, provenance), "provenance")
         == provenance
  {
  }

  lemma PartFieldsHold(s: Source, digest: string, cells: Cells, provenance: Json)
    ensures var site := SiteFields(s, digest, cells, provenance);
      site.Some? ==> Get(site.value, "site_key") == JString(RowKey(Sites, s.sch, digest))
    ensures var entity := EntityFields(s, digest, cells, provenance);
      entity.Some? ==> Get(entity.value, "entity_key") == JString(RowKey(Entities, s.sch, digest))
  {
  }

  lemma AssembledHolds(s: Source, row: Row, cells: Cells, provenance: Json)
    requires ProvenanceFrom(s, provenance)
    requires HexDigest(s.digest(row)) && cells.county in COUNTIES && Assemble(s, row, cells, provenance).Ok?
    ensures EntryHolds(s, Assemble(s, row, cells, provenance).value)
    ensures Assemble(s, row, cells, provenance).value.digest == s.digest(row)
  {
    var e := Assemble(s, row, cells, provenance).value;
    var others := OtherRecordFields(
      s, cells, row, DateCell(s, Value(row, ["received", "received_date"])).value,
      DateCell(s, Value(row, ["posted", "posted_date"])).value, e.site, e.entity, provenance);
    assert e.record == RecordFields(s, e.digest, cells, others);
    RecordFieldsHold(s, e.digest, cells, others);
    OthersProvenance(s, cells, row, DateCell(s, Value(row, ["received", "received_date"])).value,
                     DateCell(s, Value(row, ["posted", "posted_date"])).value, e.site, e.entity, provenance);
    ProvenanceHolds(s, e.digest, cells, others, provenance);
    PartFieldsHold(s, e.digest, cells, provenance);
  }

  lemma BridgedRowHolds(s: Source, index: nat, row: Row, keys: set<string>)
    requires HexDigest(s.digest(row)) && BridgeRow(s, index, row, keys).Ok?
    ensures EntryHolds(s, BridgeRow(s, index, row, keys).value)
    ensures RowKey(CeqaRecords, s.sch, BridgeRow(s, index, row, keys).value.digest) !in keys
  {
    assert ProvenanceFrom(s, s.provenance(index, row));
    AssembledHolds(s, row, CheckRow(s, row, keys).value, s.provenance(index, row));
  }

  ghost predicate StepHolds(s: Source, step: RowStep) {
    forall index, row, keys :: step(index, row, keys).Ok? ==>
      && EntryHolds(s, step(index, row, keys).value)
      && RowKey(CeqaRecords, s.sch, step(index, row, keys).value.digest) !in keys
  }

  ghost predicate DistinctDigests(entries: seq<Entry>) {
    forall i, j :: 0 <= i < j < |entries| ==> entries[i].digest != entries[j].digest
  }

  lemma {:induction false} BridgedRowsHold(s: Source, step: RowStep, rows: seq<Row>)
    requires StepHolds(s, step) && BridgeRows(step, s.sch, rows).Ok?
    ensures var entries := BridgeRows(step, s.sch, rows).value;
      && |entries| == |rows| && DistinctDigests(entries)
      && forall e :: e in entries ==> EntryHolds(s, e)
  {
    if rows != [] {
      var n := |rows| - 1;
      var before := BridgeRows(step, s.sch, rows[..n]).value;
      var last := step(n, rows[n], RecordKeys(s.sch, before)).value;
      BridgedRowsHold(s, step, rows[..n]);
      assert EntryHolds(s, last);
      forall i | 0 <= i < n
        ensures before[i].digest != last.digest
      {
        assert before[i] in before;
        assert RowKey(CeqaRecords, s.sch, before[i].digest) in RecordKeys(s.sch, before);
      }
    }
  }

  /** Keys of one project differ when their digests do. */
  lemma RowKeyIsInjective(t: Target, sch: string, a: string, b: string)
    requires RowKey(t, sch, a) == RowKey(t, sch, b)
    ensures a == b
  {
    var k := |KeyPrefix(t) + sch + ":"|;
    assert RowKey(t, sch, a)[k..] == a && RowKey(t, sch, b)[k..] == b;
  }

  lemma RowKeyIsTrimmed(t: Target, sch: string, digest: string)
    requires HexDigest(digest)
    ensures RowKey(t, sch, digest) != "" && Trimmed(RowKey(t, sch, digest))
  {
    var key := RowKey(t, sch, digest);
    assert key[0] == KeyPrefix(t)[0] && key[|key| - 1] == digest[23];
  }

  lemma AppendReviewed(reader: Reader, t: Target, before: seq<Item>, item: Item)
    requires ReviewedCollection(reader, t, before) && Reviewed(reader, t, item)
    requires forall other :: other in before ==> ItemKey(t, other) != ItemKey(t, item)
    ensures ReviewedCollection(reader, t, before + [item])
  {
    forall i, j | 0 <= i < j < |before| + 1
      ensures ItemKey(t, (before + [item])[i]) != ItemKey(t, (before + [item])[j])
    {
      assert before[i] in before;
    }
  }

  lemma {:induction false} ItemsComeFromEntries(t: Target, entries: seq<Entry>, item: Item)
    requires item in ItemsOf(t, entries)
    ensures item.Object? && exists j :: 0 <= j < |entries| && entries[j].Part(t) == Some(item.fields)
  {
    var n := |entries| - 1;
    if item in ItemsOf(t, entries[..n]) {
      ItemsComeFromEntries(t, entries[..n], item);
      var j :| 0 <= j < n && entries[..n][j].Part(t) == Some(item.fields);
      assert entries[j].Part(t) == Some(item.fields);
    } else {
      assert entries[n].Part(t) == Some(item.fields);
    }
  }

  /** One key check for the records makes the keys of all three collections distinct. */
  lemma {:induction false} ItemsAreReviewed(s: Source, t: Target, entries: seq<Entry>)
    requires DistinctDigests(entries) && forall e :: e in entries ==> HexDigest(e.digest) && PartHolds(s, t, e)
    ensures ReviewedCollection(s.reader, t, ItemsOf(t, entries))
  {
    if entries != [] {
      var n := |entries| - 1;
      var last, before := entries[n], ItemsOf(t, entries[..n]);
      ItemsAreReviewed(s, t, entries[..n]);
      if last.Part(t).Some? {
        var item := Object(last.Part(t).value);
        assert last in entries && PartHolds(s, t, last);
        RowKeyIsTrimmed(t, s.sch, last.digest);
        forall other | other in before
          ensures ItemKey(t, other) != ItemKey(t, item)
        {
          ItemsComeFromEntries(t, entries[..n], other);
          var j :| 0 <= j < n && entries[..n][j].Part(t) == Some(other.fields);
          KeysDiffer(s, t, entries[j], last);
        }
        AppendReviewed(s.reader, t, before, item);
      }
    }
  }

  lemma KeysDiffer(s: Source, t: Target, a: Entry, b: Entry)
    requires a.digest != b.digest && PartHolds(s, t, a) && PartHolds(s, t, b) && a.Part(t).Some? && b.Part(t).Some?
    ensures Get(a.Part(t).value, KeyField(t)) != Get(b.Part(t).value, KeyField(t))
  {
    if RowKey(t, s.sch, a.digest) == RowKey(t, s.sch, b.digest) {
      RowKeyIsInjective(t, s.sch, a.digest, b.digest);
    }
  }

  lemma BridgeStepHolds(s: Source)
    requires forall row :: HexDigest(s.digest(row))
    ensures StepHolds(s, RowStepOf(s))
  {
    var step := RowStepOf(s);
    forall index: nat, row, keys | step(index, row, keys).Ok?
      ensures EntryHolds(s, step(index, row, keys).value)
      ensures RowKey(CeqaRecords, s.sch, step(index, row, keys).value.digest) !in keys
    {
      BridgedRowHolds(s, index, row, keys);
    }
  }

  lemma BridgePreviewIsReviewed(s: Source, rows: seq<Row>)
    requires forall row :: HexDigest(s.digest(row))
    requires BridgeRows(RowStepOf(s), s.sch, rows).Ok?
    ensures ReviewedPreview(s.reader, PreviewOf(BridgeRows(RowStepOf(s), s.sch, rows).value))
  {
    BridgeStepHolds(s);
    BridgedRowsHold(s, RowStepOf(s), rows);
    var entries := BridgeRows(RowStepOf(s), s.sch, rows).value;
    ItemsAreReviewed(s, CeqaRecords, entries);
    ItemsAreReviewed(s, Sites, entries);
    ItemsAreReviewed(s, Entities, entries);
  }

  lemma {:induction false} RowsNeverIncomplete(s: Source, rows: seq<Row>)
    ensures BridgeRows(RowStepOf(s), s.sch, rows) != Err(PlanIncomplete)
  {
    if rows != [] {
      var n := |rows| - 1;
      RowsNeverIncomplete(s, rows[..n]);
      if BridgeRows(RowStepOf(s), s.sch, rows[..n]).Ok? {
        RowNeverIncomplete(s, n, rows[n], RecordKeys(s.sch, BridgeRows(RowStepOf(s), s.sch, rows[..n]).value));
      }
    }
  }

  lemma RowNeverIncomplete(s: Source, index: nat, row: Row, keys: set<string>)
    ensures RowStepOf(s)(index, row, keys) != Err(PlanIncomplete)
  {
  }

  lemma NothingLost(reader: Reader, t: Target, items: seq<Item>)
    requires ReviewedCollection(reader, t, items)
    ensures SkippedFor(PlannerFor(t), items) == [] && |OperationsFor(PlannerFor(t), items)| == |items|
  {
    AllReviewedSkipsNothing(reader, t, items);
    PlannedOrSkipped(PlannerFor(t), items);
  }

  /** Nothing of a bridged preview is lost in its plan, so the bridge's own completeness check never
      fires. */
  lemma BridgeIsNeverIncomplete(s: Source, rows: seq<Row>)
    requires forall row :: HexDigest(s.digest(row))
    ensures BuildBridge(s, rows) != Err(PlanIncomplete)
  {
    RowsNeverIncomplete(s, rows);
    if BridgeRows(RowStepOf(s), s.sch, rows).Ok? {
      var entries := BridgeRows(RowStepOf(s), s.sch, rows).value;
      BridgePreviewIsReviewed(s, rows);
      NothingLost(s.reader, CeqaRecords, ItemsOf(CeqaRecords, entries));
      NothingLost(s.reader, Sites, ItemsOf(Sites, entries));
      NothingLost(s.reader, Entities, ItemsOf(Entities, entries));
      PreviewPlans(entries);
    }
  }

  /** So a bridge is built exactly from one to a hundred rows that all get through the row checks. */
  lemma BridgeSucceedsIff(s: Source, rows: seq<Row>)
    requires forall row :: HexDigest(s.digest(row))
    ensures BuildBridge(s, rows).Ok? <==> 1 <= |rows| <= MAX_ROWS && BridgeRows(RowStepOf(s), s.sch, rows).Ok?
    ensures BuildBridge(s, rows).Ok? ==>
      BridgeRows(RowStepOf(s), s.sch, rows) == Ok(BuildBridge(s, rows).value.entries)
  {
    BridgeIsNeverIncomplete(s, rows);
  }

  lemma PreviewPlans(entries: seq<Entry>)
    ensures var x, y, z := ItemsOf(CeqaRecords, entries), ItemsOf(Sites, entries), ItemsOf(Entities, entries);
      BuildPlan(PreviewOf(entries)) == Ok(Plan(AllOperations(x, y, z), AllSkipped(x, y, z)))
  {
  }

  /** Every plan the bridge builds is accepted for execution, and every record it plans names the requested
      project and one of the two counties. */
  lemma BridgePlanIsAccepted(s: Source, rows: seq<Row>)
    requires forall row :: HexDigest(s.digest(row))
    requires BuildBridge(s, rows).Ok?
    ensures Prepare(s.reader, PlanPayload(BuildBridge(s, rows).value.plan)).Ok?
    ensures |BuildBridge(s, rows).value.entries| == |rows|
    ensures forall e :: e in BuildBridge(s, rows).value.entries ==> EntryHolds(s, e)
  {
    BridgePreviewIsReviewed(s, rows);
    BridgeStepHolds(s);
    BridgedRowsHold(s, RowStepOf(s), rows);
    PlanAcceptedIff(s.reader, PreviewOf(BridgeRows(RowStepOf(s), s.sch, rows).value));
  }

  // ---------- What the accepted plan writes ----------

  /** The operation that writes a bridged row's record. */
  ghost predicate Writes(s: Source, op: Prepared, e: Entry) {
    && op.target == CeqaRecords && op.targetKey == RowKey(CeqaRecords, s.sch, e.digest)
    && Some(op.model) == Validated(s.reader, CeqaRecords, e.record)
  }

  lemma {:induction false} RecordItems(entries: seq<Entry>)
    ensures |ItemsOf(CeqaRecords, entries)| == |entries|
    ensures forall i :: 0 <= i < |entries| ==> ItemsOf(CeqaRecords, entries)[i] == Object(entries[i].record)
  {
    if entries != [] {
      RecordItems(entries[..|entries| - 1]);
    }
  }

  lemma CollectionKeysTrimmed(t: Target, items: seq<Item>)
    ensures forall op :: op in OperationsFor(PlannerFor(t), items) ==> Trimmed(op.targetKey) && op.target == t
  {
    var planner := PlannerFor(t);
    forall op | op in OperationsFor(planner, items)
      ensures Trimmed(op.targetKey) && op.target == t
    {
      OperationsComeFromItems(planner, items, op);
      var i: nat :| i < |items| && planner(items[i], i) == Ok(op);
      PlannedKeyIsTrimmed(t, items[i], i);
    }
  }

  lemma PlanKeysTrimmed(x: seq<Item>, y: seq<Item>, z: seq<Item>)
    ensures TrimmedKeys(AllOperations(x, y, z))
    ensures forall op :: op in AllOperations(x, y, z) && op.target == CeqaRecords
                     ==> op in OperationsFor(PlannerFor(CeqaRecords), x)
  {
    CollectionKeysTrimmed(CeqaRecords, x);
    CollectionKeysTrimmed(Sites, y);
    CollectionKeysTrimmed(Entities, z);
  }

  /** The planned operation of a bridged row's record. */
  function RecordOperation(s: Source, e: Entry, index: nat): Operation {
    var key := RowKey(CeqaRecords, s.sch, e.digest);
    Operation(OperationId(CeqaRecords, key), CeqaRecords, key, index, e.record)
  }

  lemma RecordIsPlanned(s: Source, e: Entry, index: nat)
    requires EntryHolds(s, e)
    ensures Planned(CeqaRecords, Object(e.record), index) == Ok(RecordOperation(s, e, index))
  {
    RowKeyIsTrimmed(CeqaRecords, s.sch, e.digest);
    StripTrims(RowKey(CeqaRecords, s.sch, e.digest));
    assert e.Part(CeqaRecords) == Some(e.record);
  }

  ghost predicate EntriesHold(s: Source, entries: seq<Entry>) {
    forall e :: e in entries ==> EntryHolds(s, e)
  }

  lemma PlannedRecords(s: Source, entries: seq<Entry>, op: Operation)
    requires EntriesHold(s, entries)
    ensures op in OperationsFor(PlannerFor(CeqaRecords), ItemsOf(CeqaRecords, entries))
        <==> exists i :: 0 <= i < |entries| && op == RecordOperation(s, entries[i], i)
  {
    var items, planner := ItemsOf(CeqaRecords, entries), PlannerFor(CeqaRecords);
    OperationsComeFromItems(planner, items, op);
    RecordItems(entries);
    forall i | 0 <= i < |entries|
      ensures planner(items[i], i) == Ok(RecordOperation(s, entries[i], i))
    {
      assert entries[i] in entries;
      RecordIsPlanned(s, entries[i], i);
    }
  }

  /** The records an executed bridge plan writes are those of its rows, each under its row's key. */
  lemma BridgeWrites(s: Source, rows: seq<Row>)
    requires forall row :: HexDigest(s.digest(row))
    requires BuildBridge(s, rows).Ok?
    ensures var entries, prepared := BuildBridge(s, rows).value.entries,
                                     Prepare(s.reader, PlanPayload(BuildBridge(s, rows).value.plan));
      && prepared.Ok?
      && (forall op :: op in prepared.value && op.target == CeqaRecords ==>
            exists e :: e in entries && Writes(s, op, e))
      && (forall e :: e in entries ==> exists op :: op in prepared.value && Writes(s, op, e))
  {
    BridgePlanIsAccepted(s, rows);
    var bridge := BuildBridge(s, rows).value;
    PreviewPlans(bridge.entries);
    var x, y, z := ItemsOf(CeqaRecords, bridge.entries), ItemsOf(Sites, bridge.entries),
                   ItemsOf(Entities, bridge.entries);
    assert bridge.plan == Plan(AllOperations(x, y, z), AllSkipped(x, y, z));
    PlanKeysTrimmed(x, y, z);
    PreparedCarriesPlan(s.reader, bridge.plan);
    PreparedWrites(s, bridge.entries, bridge.plan.operations, Prepare(s.reader, PlanPayload(bridge.plan)).value);
  }

  lemma PreparedWrites(s: Source, entries: seq<Entry>, planned: seq<Operation>, prepared: seq<Prepared>)
    requires EntriesHold(s, entries) && |prepared| == |planned|
    requires forall i :: 0 <= i < |prepared| ==> Carries(s.reader, prepared[i], planned[i])
    requires var records := OperationsFor(PlannerFor(CeqaRecords), ItemsOf(CeqaRecords, entries));
      && (forall op :: op in planned && op.target == CeqaRecords ==> op in records)
      && (forall op :: op in records ==> op in planned)
    ensures forall op :: op in prepared && op.target == CeqaRecords ==> exists e :: e in entries && Writes(s, op, e)
    ensures forall e :: e in entries ==> exists op :: op in prepared && Writes(s, op, e)
  {
    forall op | op in prepared && op.target == CeqaRecords
      ensures exists e :: e in entries && Writes(s, op, e)
    {
      var k :| 0 <= k < |prepared| && prepared[k] == op;
      assert planned[k] in planned;
      WritingEntry(s, entries, planned[k], op);
    }
    forall e | e in entries
      ensures exists op :: op in prepared && Writes(s, op, e)
    {
      var i :| 0 <= i < |entries| && entries[i] == e;
      var op := RecordOperation(s, e, i);
      PlannedRecords(s, entries, op);
      var k :| 0 <= k < |planned| && planned[k] == op;
      assert prepared[k] in prepared && Writes(s, prepared[k], e);
    }
  }

  lemma WritingEntry(s: Source, entries: seq<Entry>, planned: Operation, op: Prepared)
    requires EntriesHold(s, entries) && Carries(s.reader, op, planned) && op.target == CeqaRecords
    requires planned in OperationsFor(PlannerFor(CeqaRecords), ItemsOf(CeqaRecords, entries))
    ensures exists e :: e in entries && Writes(s, op, e)
  {
    PlannedRecords(s, entries, planned);
    var i :| 0 <= i < |entries| && planned == RecordOperation(s, entries[i], i);
    assert entries[i] in entries && Writes(s, op, entries[i]);
  }
}
