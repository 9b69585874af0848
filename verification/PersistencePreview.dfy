/** The preview built from a chain report: sites and entities are kept once per key, records are not. */
module PersistencePreview {
  import opened Base
  import opened Text
  import opened WritePlan
  import opened WritePlanLaws

  /** The libraries the preview calls: `slug` shortens a name, `provenance` fails on a malformed link. */
  datatype Chain = Chain(
    slug: string -> string,
    provenance: Fields -> Option<Json>,
    nested: seq<Fields> -> Json,
    reader: Reader)

  function KeyPrefix(t: Target): string {
    match t
    case CeqaRecords => "ceqa:ceqanet:"
    case Sites => "site:ceqanet:"
    case Entities => "entity:ceqanet:lead-agency:"
  }

  /** A model under the key its identifier gives it. */
  datatype Part = Part(id: string, fields: Fields)

  datatype Contribution = Contribution(record: Part, site: Option<Part>, entity: Option<Part>)

  datatype PreviewError = MalformedLink | ModelRejected

  function TextOrNull(value: Json): Json {
    if StringOrNone(value).Some? then JString(StringOrNone(value).value) else JNull
  }

  function SitePart(f: Fields, sch: string, provenance: Json): Option<Part> {
    match StringOrNone(Get(f, "county"))
    case None => None
    case Some(county) =>
      Some(Part(sch, map["jurisdiction" := TextOrNull(Get(f, "city")), "city" := TextOrNull(Get(f, "city")),
                         "address" := TextOrNull(Get(f, "project_location")), "provenance" := provenance]
                     + map["site_key" := JString(KeyPrefix(Sites) + sch), "county" := JString(county)]))
  }

  function EntityPart(chain: Chain, f: Fields, provenance: Json): Option<Part> {
    match StringOrNone(Get(f, "lead_agency"))
    case None => None
    case Some(agency) =>
      Some(Part(chain.slug(agency),
                map["role" := JString("agency"), "county" := TextOrNull(Get(f, "county")),
                    "jurisdiction" := TextOrNull(Get(f, "city")), "provenance" := provenance]
                + map["entity_key" := JString(KeyPrefix(Entities) + chain.slug(agency)), "name" := JString(agency)]))
  }

  function RecordPart(chain: Chain, f: Fields, sch: string, title: string, site: Option<Part>, entity: Option<Part>,
                      provenance: Json): Part
  {
    Part(sch,
         map["county" := TextOrNull(Get(f, "county")), "lead_agency" := TextOrNull(Get(f, "lead_agency")),
             "document_type" := TextOrNull(Get(f, "document_type")), "state_clearinghouse_number" := JString(sch),
             "project_location" := TextOrNull(Get(f, "project_location")),
             "description" := TextOrNull(Get(f, "project_description")),
             "site" := if site.Some? then chain.nested([site.value.fields]) else JNull,
             "entities" := chain.nested(if entity.Some? then [entity.value.fields] else []),
             "provenance" := provenance]
         + map["ceqa_key" := JString(KeyPrefix(CeqaRecords) + sch), "title" := JString(title)])
  }

  predicate Accepts(reader: Reader, t: Target, part: Option<Part>) {
    part.Some? ==> Validated(reader, t, part.value.fields).Some?
  }

  function Contribute(chain: Chain, f: Fields, sch: string, title: string): Result<Contribution, PreviewError> {
    match chain.provenance(f)
    case None => Err(MalformedLink)
    case Some(provenance) =>
      var site, entity := SitePart(f, sch, provenance), EntityPart(chain, f, provenance);
      var record := RecordPart(chain, f, sch, title, site, entity, provenance);
      if Accepts(chain.reader, Sites, site) && Accepts(chain.reader, Entities, entity)
         && Accepts(chain.reader, CeqaRecords, Some(record))
      then Ok(Contribution(record, site, entity)) else Err(ModelRejected)
  }

  /** What becomes of a report record: skipped (`None`), taken, or an error that ends the build. */
  function TakeRecord(chain: Chain, item: Item): Result<Option<Contribution>, PreviewError> {
    if item.NotAnObject? || StringOrNone(Get(item.fields, "sch_number")) == None
       || StringOrNone(Get(item.fields, "title")) == None
    then Ok(None)
    else
      match Contribute(chain, item.fields, StringOrNone(Get(item.fields, "sch_number")).value,
                       StringOrNone(Get(item.fields, "title")).value)
      case Err(error) => Err(error)
      case Ok(c) => Ok(Some(c))
  }

  // ---------- The loop and its collections ----------

  function Ids(parts: seq<Part>): set<string> {
    set p | p in parts :: p.id
  }

  /** Python's `setdefault`: the first part under a key stays. */
  function SetDefault(parts: seq<Part>, part: Option<Part>): seq<Part> {
    if part == None || part.value.id in Ids(parts) then parts else parts + [part.value]
  }

  datatype Collected = Collected(records: seq<Part>, sites: seq<Part>, entities: seq<Part>, skipped: nat)

  function Add(c: Collected, taken: Option<Contribution>): Collected {
    match taken
    case None => c.(skipped := c.skipped + 1)
    case Some(one) =>
      Collected(c.records + [one.record], SetDefault(c.sites, one.site), SetDefault(c.entities, one.entity), c.skipped)
  }

  type Taker = Item -> Result<Option<Contribution>, PreviewError>

  function TakerOf(chain: Chain): Taker {
    item => TakeRecord(chain, item)
  }

  function Collect(take: Taker, records: seq<Item>): Result<Collected, PreviewError> {
    if records == [] then Ok(Collected([], [], [], 0))
    else
      match Collect(take, records[..|records| - 1])
      case Err(error) => Err(error)
      case Ok(before) =>
        match take(records[|records| - 1])
        case Err(error) => Err(error)
        case Ok(taken) => Ok(Add(before, taken))
  }

  lemma {:induction false} FirstFailureDecides(take: Taker, records: seq<Item>, k: nat)
    requires k <= |records| && Collect(take, records[..k]).Err?
    ensures Collect(take, records) == Collect(take, records[..k])
  {
    if k < |records| {
      assert records[..|records| - 1][..k] == records[..k];
      FirstFailureDecides(take, records[..|records| - 1], k);
    } else {
      assert records[..k] == records;
    }
  }

  /** The loop over the report's records. */
  method CollectRecords(take: Taker, records: seq<Item>) returns (r: Result<Collected, PreviewError>)
    ensures r == Collect(take, records)
    ensures r.Ok? ==> |r.value.records| + r.value.skipped == |records|
  {
    var collected := Collected([], [], [], 0);
    for index := 0 to |records|
      invariant Collect(take, records[..index]) == Ok(collected)
      invariant |collected.records| + collected.skipped == index
    {
      assert records[..index + 1][..index] == records[..index];
      match take(records[index]) {
        case Err(error) =>
          FirstFailureDecides(take, records, index + 1);
          return Err(error);
        case Ok(taken) => collected := Add(collected, taken);
      }
    }
    assert records[..|records|] == records;
    r := Ok(collected);
  }

  function ItemsOf(parts: seq<Part>): seq<Item> {
    seq(|parts|, i requires 0 <= i < |parts| => Object(parts[i].fields))
  }

  function PreviewOf(c: Collected): Preview {
    Preview(Some(map["schema_version" := JString("ceqanet_persistence_preview.v1")]),
            Some(ItemsOf(c.records)), Some(ItemsOf(c.sites)), Some(ItemsOf(c.entities)))
  }

  // ---------- When the preview's plan is accepted ----------

  /** A valid model under the key its identifier gives it. */
  ghost predicate PartHolds(reader: Reader, t: Target, p: Part) {
    && p.id != "" && Trimmed(p.id)
    && Get(p.fields, KeyField(t)) == JString(KeyPrefix(t) + p.id)
    && Validated(reader, t, p.fields).Some?
  }

  lemma PartIsReviewed(reader: Reader, t: Target, p: Part)
    requires PartHolds(reader, t, p)
    ensures Reviewed(reader, t, Object(p.fields))
  {
    var key := KeyPrefix(t) + p.id;
    assert key[0] == KeyPrefix(t)[0] && key[|key| - 1] == p.id[|p.id| - 1];
  }

  lemma PartKeysMatch(reader: Reader, t: Target, p: Part, q: Part)
    requires PartHolds(reader, t, p) && PartHolds(reader, t, q)
    ensures ItemKey(t, Object(p.fields)) == ItemKey(t, Object(q.fields)) <==> p.id == q.id
  {
    assert (KeyPrefix(t) + p.id)[|KeyPrefix(t)|..] == p.id && (KeyPrefix(t) + q.id)[|KeyPrefix(t)|..] == q.id;
  }

  type PartCheck = Part -> bool

  ghost function Holding(reader: Reader, t: Target): PartCheck {
    p => PartHolds(reader, t, p)
  }

  ghost predicate AllHold(holds: PartCheck, parts: seq<Part>) {
    forall i :: 0 <= i < |parts| ==> holds(parts[i])
  }

  ghost predicate IfAnyHolds(holds: PartCheck, part: Option<Part>) {
    part.Some? ==> holds(part.value)
  }

  ghost predicate DistinctIds(parts: seq<Part>) {
    forall i, j :: 0 <= i < j < |parts| ==> parts[i].id != parts[j].id
  }

  lemma PartsReviewedIff(reader: Reader, t: Target, parts: seq<Part>)
    requires AllHold(Holding(reader, t), parts)
    ensures ReviewedCollection(reader, t, ItemsOf(parts)) <==> DistinctIds(parts)
  {
    forall i | 0 <= i < |parts|
      ensures Reviewed(reader, t, ItemsOf(parts)[i])
    {
      PartIsReviewed(reader, t, parts[i]);
    }
    forall i, j | 0 <= i < j < |parts|
      ensures ItemKey(t, ItemsOf(parts)[i]) == ItemKey(t, ItemsOf(parts)[j]) <==> parts[i].id == parts[j].id
    {
      PartKeysMatch(reader, t, parts[i], parts[j]);
    }
  }

  ghost predicate GoodSlugs(chain: Chain) {
    forall name :: chain.slug(name) != "" && Trimmed(chain.slug(name))
  }

  ghost predicate ContributionHolds(reader: Reader, c: Contribution) {
    && PartHolds(reader, CeqaRecords, c.record)
    && IfAnyHolds(Holding(reader, Sites), c.site) && IfAnyHolds(Holding(reader, Entities), c.entity)
  }

  lemma SitePartKey(f: Fields, sch: string, provenance: Json)
    ensures var part := SitePart(f, sch, provenance);
      part.Some? ==> part.value.id == sch && Get(part.value.fields, "site_key") == JString(KeyPrefix(Sites) + sch)
  {
  }

  lemma EntityPartKey(chain: Chain, f: Fields, provenance: Json)
    requires GoodSlugs(chain)
    ensures var part := EntityPart(chain, f, provenance);
      part.Some? ==>
        && part.value.id != "" && Trimmed(part.value.id)
        && Get(part.value.fields, "entity_key") == JString(KeyPrefix(Entities) + part.value.id)
  {
  }

  lemma RecordPartKey(chain: Chain, f: Fields, sch: string, title: string, site: Option<Part>, entity: Option<Part>,
                      provenance: Json)
    ensures var part := RecordPart(chain, f, sch, title, site, entity, provenance);
      part.id == sch && Get(part.fields, "ceqa_key") == JString(KeyPrefix(CeqaRecords) + sch)
  {
    assert "ceqa_key" != "title";
  }

  lemma ContributedHolds(chain: Chain, f: Fields, sch: string, title: string)
    requires GoodSlugs(chain) && sch != "" && Trimmed(sch) && Contribute(chain, f, sch, title).Ok?
    ensures ContributionHolds(chain.reader, Contribute(chain, f, sch, title).value)
  {
    var provenance := chain.provenance(f).value;
    var site, entity := SitePart(f, sch, provenance), EntityPart(chain, f, provenance);
    SitePartKey(f, sch, provenance);
    EntityPartKey(chain, f, provenance);
    RecordPartKey(chain, f, sch, title, site, entity, provenance);
    PartsHold(chain.reader, Contribute(chain, f, sch, title).value);
  }

  lemma PartsHold(reader: Reader, c: Contribution)
    requires Accepts(reader, Sites, c.site) && Accepts(reader, Entities, c.entity)
    requires Accepts(reader, CeqaRecords, Some(c.record))
    requires c.record.id != "" && Trimmed(c.record.id)
    requires c.site.Some? ==> c.site.value.id == c.record.id
    requires c.entity.Some? ==> c.entity.value.id != "" && Trimmed(c.entity.value.id)
    requires Get(c.record.fields, "ceqa_key") == JString(KeyPrefix(CeqaRecords) + c.record.id)
    requires c.site.Some? ==> Get(c.site.value.fields, "site_key") == JString(KeyPrefix(Sites) + c.site.value.id)
    requires c.entity.Some? ==>
      Get(c.entity.value.fields, "entity_key") == JString(KeyPrefix(Entities) + c.entity.value.id)
    ensures ContributionHolds(reader, c)
  {
  }

  ghost predicate TakesSound(reader: Reader, take: Taker) {
    forall item :: take(item).Ok? && take(item).value.Some? ==> ContributionHolds(reader, take(item).value.value)
  }

  lemma ChainTakesSound(chain: Chain)
    requires GoodSlugs(chain)
    ensures TakesSound(chain.reader, TakerOf(chain))
  {
    var take := TakerOf(chain);
    forall item | take(item).Ok? && take(item).value.Some?
      ensures ContributionHolds(chain.reader, take(item).value.value)
    {
      var sch := StringOrNone(Get(item.fields, "sch_number")).value;
      StripTrims(Get(item.fields, "sch_number").text);
      ContributedHolds(chain, item.fields, sch, StringOrNone(Get(item.fields, "title")).value);
    }
  }

  lemma SetDefaultKeeps(holds: PartCheck, parts: seq<Part>, part: Option<Part>)
    requires AllHold(holds, parts) && DistinctIds(parts) && IfAnyHolds(holds, part)
    ensures AllHold(holds, SetDefault(parts, part)) && DistinctIds(SetDefault(parts, part))
  {
    if part.Some? && part.value.id !in Ids(parts) {
      forall i | 0 <= i < |parts|
        ensures parts[i].id != part.value.id
      {
        assert parts[i] in parts;
      }
    }
  }

  ghost predicate CollectionsHold(reader: Reader, c: Collected) {
    && AllHold(Holding(reader, CeqaRecords), c.records)
    && AllHold(Holding(reader, Sites), c.sites) && DistinctIds(c.sites)
    && AllHold(Holding(reader, Entities), c.entities) && DistinctIds(c.entities)
  }

  lemma AddHolds(reader: Reader, before: Collected, one: Contribution)
    requires CollectionsHold(reader, before) && ContributionHolds(reader, one)
    ensures CollectionsHold(reader, Add(before, Some(one)))
  {
    SetDefaultKeeps(Holding(reader, Sites), before.sites, one.site);
    SetDefaultKeeps(Holding(reader, Entities), before.entities, one.entity);
  }

  lemma {:induction false} CollectedHolds(reader: Reader, take: Taker, records: seq<Item>)
    requires TakesSound(reader, take) && Collect(take, records).Ok?
    ensures CollectionsHold(reader, Collect(take, records).value)
  {
    if records != [] {
      var taken := take(records[|records| - 1]).value;
      CollectedHolds(reader, take, records[..|records| - 1]);
      if taken.Some? {
        AddHolds(reader, Collect(take, records[..|records| - 1]).value, taken.value);
      }
    }
  }

  lemma CollectedReviewedIff(reader: Reader, c: Collected)
    requires CollectionsHold(reader, c)
    ensures ReviewedPreview(reader, PreviewOf(c)) <==> DistinctIds(c.records)
  {
    PartsReviewedIff(reader, CeqaRecords, c.records);
    PartsReviewedIff(reader, Sites, c.sites);
    PartsReviewedIff(reader, Entities, c.entities);
  }

  /** The SCH number of a record that is not skipped. */
  function RetainedNumber(item: Item): Option<string> {
    if item.NotAnObject? || StringOrNone(Get(item.fields, "title")) == None then None
    else StringOrNone(Get(item.fields, "sch_number"))
  }

  type Numberer = Item -> Option<string>

  function SchNumber(): Numberer {
    item => RetainedNumber(item)
  }

  /** The SCH numbers of the records that are not skipped, in order. */
  function RetainedNumbers(number: Numberer, records: seq<Item>): seq<string> {
    if records == [] then []
    else
      var n := |records| - 1;
      RetainedNumbers(number, records[..n]) + if number(records[n]).Some? then [number(records[n]).value] else []
  }

  ghost predicate TakesNumbers(number: Numberer, take: Taker) {
    forall item :: take(item).Ok? ==>
      if take(item).value.Some? then number(item) == Some(take(item).value.value.record.id) else number(item) == None
  }

  lemma TakenNumber(chain: Chain, item: Item)
    requires TakeRecord(chain, item).Ok?
    ensures if TakeRecord(chain, item).value.Some?
            then RetainedNumber(item) == Some(TakeRecord(chain, item).value.value.record.id)
            else RetainedNumber(item) == None
  {
    if TakeRecord(chain, item).value.Some? {
      var f, sch := item.fields, StringOrNone(Get(item.fields, "sch_number")).value;
      var provenance := chain.provenance(f).value;
      RecordPartKey(chain, f, sch, StringOrNone(Get(f, "title")).value, SitePart(f, sch, provenance),
                    EntityPart(chain, f, provenance), provenance);
    }
  }

  lemma ChainTakesNumbers(chain: Chain)
    ensures TakesNumbers(SchNumber(), TakerOf(chain))
  {
    var take := TakerOf(chain);
    forall item | take(item).Ok?
      ensures if take(item).value.Some? then RetainedNumber(item) == Some(take(item).value.value.record.id)
              else RetainedNumber(item) == None
    {
      TakenNumber(chain, item);
    }
  }

  function IdList(parts: seq<Part>): seq<string> {
    seq(|parts|, i requires 0 <= i < |parts| => parts[i].id)
  }

  lemma {:induction false} CollectedNumbers(number: Numberer, take: Taker, records: seq<Item>)
    requires TakesNumbers(number, take) && Collect(take, records).Ok?
    ensures IdList(Collect(take, records).value.records) == RetainedNumbers(number, records)
  {
    if records != [] {
      CollectedNumbers(number, take, records[..|records| - 1]);
    }
  }

  ghost predicate PlanAccepted(reader: Reader, preview: Preview) {
    BuildPlan(preview).Ok? && Prepare(reader, PlanPayload(BuildPlan(preview).value)).Ok?
  }

  lemma PreviewBuilds(c: Collected)
    ensures BuildPlan(PreviewOf(c)).Ok?
  {
  }

  lemma DistinctIdList(parts: seq<Part>)
    ensures DistinctIds(parts) <==> Distinct(IdList(parts))
  {
    var ids := IdList(parts);
    if Distinct(ids) {
      forall i, j | 0 <= i < j < |parts|
        ensures parts[i].id != parts[j].id
      {
        assert ids[i] != ids[j];
      }
    }
  }

  lemma CollectedPlanAcceptedIff(reader: Reader, c: Collected)
    requires CollectionsHold(reader, c)
    ensures PlanAccepted(reader, PreviewOf(c)) <==> Distinct(IdList(c.records))
  {
    DistinctIdList(c.records);
    PreviewBuilds(c);
    PlanAcceptedIff(reader, PreviewOf(c));
    CollectedReviewedIff(reader, c);
  }

  /** The plan of a chain report's preview is accepted for execution exactly when no two of the report's
      retained records carry the same SCH number: sites and entities are kept once per key, records are
      not. */
  lemma PreviewPlanAcceptedIff(chain: Chain, records: seq<Item>)
    requires GoodSlugs(chain) && Collect(TakerOf(chain), records).Ok?
    ensures PlanAccepted(chain.reader, PreviewOf(Collect(TakerOf(chain), records).value))
        <==> Distinct(RetainedNumbers(SchNumber(), records))
  {
    ChainTakesSound(chain);
    ChainTakesNumbers(chain);
    CollectedHolds(chain.reader, TakerOf(chain), records);
    CollectedNumbers(SchNumber(), TakerOf(chain), records);
    var c := Collect(TakerOf(chain), records).value;
    CollectedPlanAcceptedIff(chain.reader, c);
  }
}
