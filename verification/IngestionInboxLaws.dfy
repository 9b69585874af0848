/** What the inbox counts, and how capturing and importing its next candidate moves it forward. */
module IngestionInboxLaws {
  import opened Base
  import opened Ordering
  import opened Text
  import opened WritePlan
  import opened WritePlanLaws
  import opened PlanExecution
  import opened CsvBridge
  import opened CaptureQueue
  import opened CaptureQueueLaws
  import I = IngestionInbox

  // ---------- Counts ----------

  type StateTest = I.CandidateState -> bool

  ghost function Tally(items: seq<I.Item>, wanted: StateTest): nat {
    |I.Select(items, wanted)|
  }

  lemma {:induction false} SelectSplits(items: seq<I.Item>, a: StateTest, b: StateTest, both: StateTest)
    requires forall s :: both(s) <==> a(s) || b(s)
    requires forall s :: !(a(s) && b(s))
    ensures Tally(items, both) == Tally(items, a) + Tally(items, b)
  {
    if items != [] {
      SelectSplits(items[1..], a, b, both);
    }
  }

  lemma {:induction false} SelectAll(items: seq<I.Item>, wanted: StateTest)
    requires forall s :: wanted(s)
    ensures Tally(items, wanted) == |items|
  {
    if items != [] {
      SelectAll(items[1..], wanted);
    }
  }

  lemma {:induction false} FirstSelected(items: seq<I.Item>, wanted: StateTest)
    ensures I.Select(items, wanted) == [] <==> forall i :: 0 <= i < |items| ==> !wanted(items[i].state)
    ensures I.Select(items, wanted) != [] ==>
      exists i :: 0 <= i < |items| && IsFirstIn(items, wanted, i) && I.Select(items, wanted)[0] == items[i]
  {
    if items != [] {
      FirstSelected(items[1..], wanted);
      assert forall i :: 0 < i < |items| ==> items[1..][i - 1] == items[i];
      if wanted(items[0].state) {
        assert IsFirstIn(items, wanted, 0);
      } else if I.Select(items[1..], wanted) != [] {
        var i :| 0 <= i < |items[1..]| && IsFirstIn(items[1..], wanted, i)
                 && I.Select(items[1..], wanted)[0] == items[1..][i];
        assert IsFirstIn(items, wanted, i + 1);
      }
    }
  }

  ghost predicate IsFirstIn(items: seq<I.Item>, wanted: StateTest, i: nat) {
    i < |items| && wanted(items[i].state) && forall j :: 0 <= j < i ==> !wanted(items[j].state)
  }

  /** The states divide the candidates, and the next pending number is that of the first pending one. */
  lemma InboxCountsAgree(items: seq<I.Item>)
    ensures var inbox := I.InboxOf(items);
      && inbox.pendingCount + inbox.persistedCount == inbox.candidateCount
      && inbox.persistedCount
         == inbox.conflictCount + inbox.unavailableCount + Tally(items, s => s == I.ClaimMatch)
      && (inbox.nextPending == None <==> inbox.pendingCount == 0)
      && (inbox.nextPending.Some? ==>
            exists i: nat :: IsFirstIn(items, s => I.Pending(s), i) && items[i].sch == inbox.nextPending.value)
  {
    var pending: StateTest, persisted: StateTest := s => I.Pending(s), s => !I.Pending(s);
    var conflict: StateTest, unavailable: StateTest, matching: StateTest :=
      s => s == I.ClaimConflict, s => s == I.CountyUnavailable, s => s == I.ClaimMatch;
    var disputed: StateTest := s => conflict(s) || unavailable(s);
    SelectSplits(items, pending, persisted, s => true);
    SelectAll(items, s => true);
    SelectSplits(items, conflict, unavailable, disputed);
    SelectSplits(items, disputed, matching, persisted);
    FirstSelected(items, pending);
  }

  lemma {:induction false} SelectUpdated(before: seq<I.Item>, after: seq<I.Item>, k: nat, wanted: StateTest)
    requires k < |before| == |after| && forall i :: 0 <= i < |before| && i != k ==> after[i] == before[i]
    ensures Tally(after, wanted) + (if wanted(before[k].state) then 1 else 0)
         == Tally(before, wanted) + (if wanted(after[k].state) then 1 else 0)
  {
    if k == 0 {
      assert before[1..] == after[1..];
    } else {
      SelectUpdated(before[1..], after[1..], k - 1, wanted);
    }
  }

  // ---------- What one import does to the stored records ----------

  /** Keys of the reviewed import name their project: a stored row under such a key carries its number. */
  ghost predicate KeysNameProjects(rows: Rows) {
    forall sch, digest ::
      ExactSch(sch) && I.CeqaRow(RowKey(CeqaRecords, sch, digest)) in rows ==>
        Get(rows[I.CeqaRow(RowKey(CeqaRecords, sch, digest))], I.SCH_FIELD) == JString(sch)
  }

  ghost function KeysOf(sch: string, digests: set<string>): set<string> {
    set d | d in digests :: RowKey(CeqaRecords, sch, d)
  }

  /** A row as the import leaves it: the project's number and county, from a reviewed import. */
  ghost predicate ImportedRow(reviewed: I.Reviewed, sch: string, county: string, row: Fields) {
    && Get(row, I.SCH_FIELD) == JString(sch) && Get(row, I.COUNTY_FIELD) == JString(county)
    && reviewed(Get(row, I.PROVENANCE_FIELD))
  }

  /** One import writes some rows of one project and leaves every other record alone. */
  ghost predicate Imports(reviewed: I.Reviewed, sch: string, county: string, keys: set<string>, before: Rows,
                          after: Rows)
  {
    && keys != {}
    && (forall key :: key in keys ==>
          I.CeqaRow(key) in after && ImportedRow(reviewed, sch, county, after[I.CeqaRow(key)]))
    && forall key :: key !in keys ==>
      && (I.CeqaRow(key) in after <==> I.CeqaRow(key) in before)
      && (I.CeqaRow(key) in before ==> after[I.CeqaRow(key)] == before[I.CeqaRow(key)])
  }

  lemma RowKeyNamesProject(a: string, x: string, b: string, y: string)
    requires |a| == |b| && RowKey(CeqaRecords, a, x) == RowKey(CeqaRecords, b, y)
    ensures a == b
  {
    var p := |CsvBridge.KeyPrefix(CeqaRecords)|;
    assert RowKey(CeqaRecords, a, x)[p..p + |a|] == a && RowKey(CeqaRecords, b, y)[p..p + |b|] == b;
  }

  lemma ImportKeepsKeyDiscipline(reviewed: I.Reviewed, sch: string, county: string, digests: set<string>,
                                 before: Rows, after: Rows)
    requires KeysNameProjects(before) && ExactSch(sch)
    requires Imports(reviewed, sch, county, KeysOf(sch, digests), before, after)
    ensures KeysNameProjects(after)
  {
    forall other, digest | ExactSch(other) && I.CeqaRow(RowKey(CeqaRecords, other, digest)) in after
      ensures Get(after[I.CeqaRow(RowKey(CeqaRecords, other, digest))], I.SCH_FIELD) == JString(other)
    {
      var key := RowKey(CeqaRecords, other, digest);
      if key in KeysOf(sch, digests) {
        var d :| d in digests && RowKey(CeqaRecords, sch, d) == key;
        RowKeyNamesProject(sch, d, other, digest);
      }
    }
  }

  /** Rows under the import's keys belong to its project, before and after. */
  ghost predicate OwnsKeys(sch: string, keys: set<string>, before: Rows) {
    forall key :: key in keys && I.CeqaRow(key) in before ==> Get(before[I.CeqaRow(key)], I.SCH_FIELD) == JString(sch)
  }

  lemma ProjectsOwnTheirKeys(sch: string, digests: set<string>, before: Rows)
    requires KeysNameProjects(before) && ExactSch(sch)
    ensures OwnsKeys(sch, KeysOf(sch, digests), before)
  {
  }

  lemma OtherRecordsUnchanged(reviewed: I.Reviewed, sch: string, county: string, keys: set<string>, before: Rows,
                              after: Rows, other: string)
    requires Imports(reviewed, sch, county, keys, before, after) && OwnsKeys(sch, keys, before) && other != sch
    ensures I.RecordsFor(after, other) == I.RecordsFor(before, other)
    ensures forall key :: key in I.RecordsFor(before, other) ==> after[I.CeqaRow(key)] == before[I.CeqaRow(key)]
  {
    forall key
      ensures key in I.RecordsFor(after, other) <==> key in I.RecordsFor(before, other)
      ensures key in I.RecordsFor(before, other) ==> after[I.CeqaRow(key)] == before[I.CeqaRow(key)]
    {
      RecordsAt(after, other, key);
      RecordsAt(before, other, key);
    }
  }

  lemma RecordsAt(rows: Rows, sch: string, key: string)
    ensures key in I.RecordsFor(rows, sch)
        <==> I.CeqaRow(key) in rows && Get(rows[I.CeqaRow(key)], I.SCH_FIELD) == JString(sch)
  {
  }

  /** A candidate of another project is reconciled as before. */
  lemma OtherCandidatesUnchanged(reviewed: I.Reviewed, sch: string, county: string, keys: set<string>,
                                 before: Rows, after: Rows, c: Candidate)
    requires Imports(reviewed, sch, county, keys, before, after) && OwnsKeys(sch, keys, before) && c.sch != sch
    ensures I.Reconciled(reviewed, after, c) == I.Reconciled(reviewed, before, c)
  {
    OtherRecordsUnchanged(reviewed, sch, county, keys, before, after, c.sch);
    var ours := I.ReviewedFor(reviewed, before, c.sch);
    assert I.ReviewedFor(reviewed, after, c.sch) == ours;
    assert forall key :: key in ours ==> I.CountyOf(after, key) == I.CountyOf(before, key);
    assert I.KnownCounties(after, ours) == I.KnownCounties(before, ours);
    assert I.MissingCounty(after, ours) == I.MissingCounty(before, ours);
  }

  lemma CountiesAreTrimmed(county: string)
    requires county in CaptureQueue.COUNTIES
    ensures StringOrNone(JString(county)) == Some(county)
  {
    assert Trimmed("San Bernardino") && Trimmed("Riverside");
    StripTrims(county);
  }

  /** The imported project's candidate becomes a match. */
  lemma ImportedCandidateMatches(reviewed: I.Reviewed, keys: set<string>, before: Rows, after: Rows, c: Candidate)
    requires Imports(reviewed, c.sch, c.county, keys, before, after) && c.county in CaptureQueue.COUNTIES
    requires I.ReviewedFor(reviewed, before, c.sch) == {}
    ensures I.Reconciled(reviewed, after, c).state == I.ClaimMatch
    ensures I.Reconciled(reviewed, after, c).reviewed == keys
  {
    var ours := I.ReviewedFor(reviewed, after, c.sch);
    forall key
      ensures key in ours <==> key in keys
    {
      RecordsAt(after, c.sch, key);
      RecordsAt(before, c.sch, key);
      assert key in ours && key !in keys ==> key in I.ReviewedFor(reviewed, before, c.sch);
    }
    assert ours == keys;
    CountiesAreTrimmed(c.county);
    assert forall key :: key in keys ==> I.CountyOf(after, key) == Some(c.county);
    assert I.MissingCounty(after, ours) == {};
    assert forall county :: county in I.KnownCounties(after, ours) ==> county == c.county;
  }

  // ---------- Capture, bridge and import as one round ----------

  /** A record as the bridge assembles it: its number and county are text, its provenance is the bridge's. */
  ghost predicate BridgedRecord(s: Source, f: Fields) {
    && Get(f, I.SCH_FIELD) == JString(s.sch)
    && Get(f, I.COUNTY_FIELD).JString? && Get(f, I.COUNTY_FIELD).text in CsvBridge.COUNTIES
    && ProvenanceFrom(s, Get(f, I.PROVENANCE_FIELD))
  }

  /** The record model reads a bridged record back with the same number and county, and with a provenance that
      shows the reviewed import. Nothing is said of other payloads or of other models, and the provenance may
      be rewritten. */
  ghost predicate KeepsImports(reviewed: I.Reviewed, s: Source) {
    forall f :: BridgedRecord(s, f) && s.reader(CeqaRecords, f).Some? ==>
      var model := s.reader(CeqaRecords, f).value;
      && Get(model, I.SCH_FIELD) == Get(f, I.SCH_FIELD) && Get(model, I.COUNTY_FIELD) == Get(f, I.COUNTY_FIELD)
      && reviewed(Get(model, I.PROVENANCE_FIELD))
  }

  /** What is assumed of the libraries: row digests are hexadecimal, and the record model keeps an import. */
  ghost predicate SoundSource(reviewed: I.Reviewed, s: Source) {
    (forall row :: HexDigest(s.digest(row))) && KeepsImports(reviewed, s)
  }

  /** A successful capture of a project's rows in one county, applied to the store. */
  ghost predicate Captured(s: Source, rows: seq<Row>, county: string, before: State, after: State) {
    && BuildBridge(s, rows).Ok?
    && (forall e :: e in BuildBridge(s, rows).value.entries ==> e.county == county)
    && Prepare(s.reader, PlanPayload(BuildBridge(s, rows).value.plan)).Ok?
    && after == UpsertedAll(before, Prepare(s.reader, PlanPayload(BuildBridge(s, rows).value.plan)).value)
  }

  ghost function DigestsOf(entries: seq<Entry>): set<string> {
    set e | e in entries :: e.digest
  }

  lemma WrittenRow(reviewed: I.Reviewed, s: Source, op: Prepared, e: Entry)
    requires SoundSource(reviewed, s) && EntryHolds(s, e) && Writes(s, op, e)
    ensures ImportedRow(reviewed, s.sch, e.county, op.model)
  {
    assert s.reader(CeqaRecords, e.record) == Some(op.model);
    assert BridgedRecord(s, e.record);
  }

  /** The operations write imported rows under just these keys. */
  ghost predicate WritesImport(reviewed: I.Reviewed, sch: string, county: string, keys: set<string>,
                               ops: seq<Prepared>)
  {
    && (forall op :: op in ops && op.target == CeqaRecords ==>
          op.targetKey in keys && ImportedRow(reviewed, sch, county, op.model))
    && forall key :: key in keys ==> exists op :: op in ops && IdentityOf(op) == I.CeqaRow(key)
  }

  ghost predicate EntriesIn(s: Source, county: string, entries: seq<Entry>) {
    forall e :: e in entries ==> EntryHolds(s, e) && e.county == county
  }

  lemma OperationIsImport(reviewed: I.Reviewed, s: Source, county: string, entries: seq<Entry>, op: Prepared, e: Entry)
    requires SoundSource(reviewed, s) && EntriesIn(s, county, entries) && e in entries && Writes(s, op, e)
    ensures op.targetKey in KeysOf(s.sch, DigestsOf(entries)) && ImportedRow(reviewed, s.sch, county, op.model)
  {
    WrittenRow(reviewed, s, op, e);
    assert e.digest in DigestsOf(entries);
  }

  lemma BridgeWritesImport(reviewed: I.Reviewed, s: Source, county: string, ops: seq<Prepared>, entries: seq<Entry>)
    requires SoundSource(reviewed, s) && EntriesIn(s, county, entries)
    requires forall op :: op in ops && op.target == CeqaRecords ==> exists e :: e in entries && Writes(s, op, e)
    requires forall e :: e in entries ==> exists op :: op in ops && Writes(s, op, e)
    ensures WritesImport(reviewed, s.sch, county, KeysOf(s.sch, DigestsOf(entries)), ops)
  {
    var keys := KeysOf(s.sch, DigestsOf(entries));
    forall op | op in ops && op.target == CeqaRecords
      ensures op.targetKey in keys && ImportedRow(reviewed, s.sch, county, op.model)
    {
      var e :| e in entries && Writes(s, op, e);
      OperationIsImport(reviewed, s, county, entries, op, e);
    }
    forall key | key in keys
      ensures exists op :: op in ops && IdentityOf(op) == I.CeqaRow(key)
    {
      KeyIsWritten(s, ops, entries, key);
    }
  }

  lemma KeyIsWritten(s: Source, ops: seq<Prepared>, entries: seq<Entry>, key: string)
    requires forall e :: e in entries ==> exists op :: op in ops && Writes(s, op, e)
    requires key in KeysOf(s.sch, DigestsOf(entries))
    ensures exists op :: op in ops && IdentityOf(op) == I.CeqaRow(key)
  {
    var d :| d in DigestsOf(entries) && RowKey(CeqaRecords, s.sch, d) == key;
    var e :| e in entries && e.digest == d;
    var op :| op in ops && Writes(s, op, e);
    assert IdentityOf(op) == I.CeqaRow(key);
  }

  lemma OverridesImport(reviewed: I.Reviewed, sch: string, county: string, keys: set<string>, ops: seq<Prepared>,
                        before: Rows, after: Rows)
    requires keys != {} && WritesImport(reviewed, sch, county, keys, ops) && Overrides(before, ops, after)
    ensures Imports(reviewed, sch, county, keys, before, after)
  {
    forall key | key in keys
      ensures I.CeqaRow(key) in after && ImportedRow(reviewed, sch, county, after[I.CeqaRow(key)])
    {
      var op :| op in ops && IdentityOf(op) == I.CeqaRow(key);
      assert IdentityOf(op) in Identities(ops);
    }
    forall key | key !in keys
      ensures I.CeqaRow(key) !in Identities(ops)
    {
    }
  }

  lemma CapturedImports(reviewed: I.Reviewed, s: Source, rows: seq<Row>, county: string, before: State, after: State)
    requires SoundSource(reviewed, s) && Captured(s, rows, county, before, after)
    ensures Imports(reviewed, s.sch, county, KeysOf(s.sch, DigestsOf(BuildBridge(s, rows).value.entries)),
                    before.rows, after.rows)
  {
    var bridge := BuildBridge(s, rows).value;
    var ops, entries := Prepare(s.reader, PlanPayload(bridge.plan)).value, bridge.entries;
    BridgePlanIsAccepted(s, rows);
    BridgeWrites(s, rows);
    BridgeWritesImport(reviewed, s, county, ops, entries);
    PreparedIsCanonical(s.reader, PlanPayload(bridge.plan));
    AppliedPlanOverrides(before, ops);
    SomeKey(s.sch, entries);
    OverridesImport(reviewed, s.sch, county, KeysOf(s.sch, DigestsOf(entries)), ops, before.rows, after.rows);
  }

  lemma SomeKey(sch: string, entries: seq<Entry>)
    requires entries != []
    ensures KeysOf(sch, DigestsOf(entries)) != {}
  {
    assert entries[0].digest in DigestsOf(entries);
    assert RowKey(CeqaRecords, sch, entries[0].digest) in KeysOf(sch, DigestsOf(entries));
  }

  // ---------- Progress ----------

  /** Candidates as a queue holds them: exact numbers, each once, in the two counties. */
  ghost predicate QueueCandidates(candidates: seq<Candidate>) {
    && (forall i, j :: 0 <= i < j < |candidates| ==> candidates[i].sch != candidates[j].sch)
    && forall c :: c in candidates ==> ExactSch(c.sch) && c.county in CaptureQueue.COUNTIES
  }

  lemma BuiltQueueCandidates(p: Parsers, listing: Listing, byteLength: nat)
    requires QueueOf(p, listing, byteLength).Ok?
    ensures QueueCandidates(QueueOf(p, listing, byteLength).value.candidates)
  {
    QueueIsSound(p, listing, byteLength);
    QueueSucceedsIff(p, listing, byteLength);
    var q, obs := QueueOf(p, listing, byteLength).value, AllObservations(PageReaderOf(p), listing.snapshots.value);
    TargetsAreExact(p, listing.snapshots.value);
    forall c | c in q.candidates
      ensures ExactSch(c.sch) && c.county in CaptureQueue.COUNTIES
    {
      assert Means(c, obs, c.sch);
      var i: nat :| i < |obs| && IsFirst(obs, c.sch, i) && c.county == obs[i].kind.county;
      assert obs[i] in obs;
    }
  }

  lemma {:induction false} TargetsAreExact(p: Parsers, pages: seq<Snapshot>)
    requires AllRead(PageReaderOf(p), pages)
    ensures forall o :: o in AllObservations(PageReaderOf(p), pages) && o.kind.Target? ==>
      ExactSch(o.kind.sch) && o.kind.county in CaptureQueue.COUNTIES
  {
    if pages != [] {
      AllReadNext(PageReaderOf(p), pages);
      TargetsAreExact(p, pages[..|pages| - 1]);
      PageTargetsAreExact(p, pages[|pages| - 1], |pages|);
    }
  }

  lemma PageTargetsAreExact(p: Parsers, page: Snapshot, index: nat)
    requires ReadPage(p, page, index).Ok?
    ensures forall o :: o in ReadPage(p, page, index).value && o.kind.Target? ==>
      ExactSch(o.kind.sch) && o.kind.county in CaptureQueue.COUNTIES
  {
  }

  ghost function ItemsIn(reviewed: I.Reviewed, store: State, candidates: seq<Candidate>): seq<I.Item> {
    I.ReconcileAll(I.ReconcilerOf(reviewed, store.rows), candidates)
  }

  ghost function InboxIn(reviewed: I.Reviewed, store: State, candidates: seq<Candidate>): I.Inbox {
    I.InboxOf(ItemsIn(reviewed, store, candidates))
  }

  datatype Import = Import(source: Source, rows: seq<Row>)

  /** One round: the next pending project is captured in the county the queue claims, and imported. */
  ghost predicate Round(reviewed: I.Reviewed, candidates: seq<Candidate>, before: State, step: Import, after: State) {
    && InboxIn(reviewed, before, candidates).nextPending == Some(step.source.sch)
    && SoundSource(reviewed, step.source)
    && exists c :: c in candidates && c.sch == step.source.sch
                   && Captured(step.source, step.rows, c.county, before, after)
  }

  /** The first pending candidate becomes a match; every other candidate stays as it is. */
  ghost predicate Settles(before: seq<I.Item>, after: seq<I.Item>, k: nat) {
    && k < |before| == |after| && I.Pending(before[k].state)
    && (forall j :: 0 <= j < k ==> !I.Pending(before[j].state))
    && after[k].state == I.ClaimMatch
    && forall i :: 0 <= i < |before| && i != k ==> after[i] == before[i]
  }

  lemma ImportSettles(reviewed: I.Reviewed, candidates: seq<Candidate>, before: State, after: State, keys: set<string>,
                      k: nat)
    requires QueueCandidates(candidates) && k < |candidates|
    requires var c := candidates[k];
      Imports(reviewed, c.sch, c.county, keys, before.rows, after.rows) && OwnsKeys(c.sch, keys, before.rows)
      && I.ReviewedFor(reviewed, before.rows, c.sch) == {}
    requires I.Pending(ItemsIn(reviewed, before, candidates)[k].state)
    requires forall j :: 0 <= j < k ==> !I.Pending(ItemsIn(reviewed, before, candidates)[j].state)
    ensures Settles(ItemsIn(reviewed, before, candidates), ItemsIn(reviewed, after, candidates), k)
  {
    var c := candidates[k];
    assert c in candidates;
    ImportedCandidateMatches(reviewed, keys, before.rows, after.rows, c);
    forall i | 0 <= i < |candidates| && i != k
      ensures I.Reconciled(reviewed, after.rows, candidates[i]) == I.Reconciled(reviewed, before.rows, candidates[i])
    {
      OtherCandidatesUnchanged(reviewed, c.sch, c.county, keys, before.rows, after.rows, candidates[i]);
    }
  }

  lemma RoundSettles(reviewed: I.Reviewed, candidates: seq<Candidate>, before: State, step: Import, after: State)
    returns (k: nat)
    requires QueueCandidates(candidates) && KeysNameProjects(before.rows)
    requires Round(reviewed, candidates, before, step, after)
    ensures Settles(ItemsIn(reviewed, before, candidates), ItemsIn(reviewed, after, candidates), k)
    ensures KeysNameProjects(after.rows)
  {
    var sch := step.source.sch;
    var c :| c in candidates && c.sch == sch && Captured(step.source, step.rows, c.county, before, after);
    var digests := DigestsOf(BuildBridge(step.source, step.rows).value.entries);
    CapturedImports(reviewed, step.source, step.rows, c.county, before, after);
    ImportKeepsKeyDiscipline(reviewed, sch, c.county, digests, before.rows, after.rows);
    ProjectsOwnTheirKeys(sch, digests, before.rows);
    k := FirstPending(reviewed, before, candidates, sch);
    assert candidates[k] == c by {
      var i :| 0 <= i < |candidates| && candidates[i] == c;
    }
    ImportSettles(reviewed, candidates, before, after, KeysOf(sch, digests), k);
  }

  lemma FirstPending(reviewed: I.Reviewed, store: State, candidates: seq<Candidate>, sch: string) returns (k: nat)
    requires InboxIn(reviewed, store, candidates).nextPending == Some(sch)
    ensures k < |candidates| && candidates[k].sch == sch
    ensures I.Pending(ItemsIn(reviewed, store, candidates)[k].state)
    ensures forall j :: 0 <= j < k ==> !I.Pending(ItemsIn(reviewed, store, candidates)[j].state)
    ensures I.ReviewedFor(reviewed, store.rows, sch) == {}
  {
    var items := ItemsIn(reviewed, store, candidates);
    InboxCountsAgree(items);
    var i: nat :| IsFirstIn(items, s => I.Pending(s), i) && items[i].sch == sch;
    k := i;
    assert items[k] == I.Reconciled(reviewed, store.rows, candidates[k]);
  }

  /** A run of rounds over the same queue. */
  ghost predicate Rounds(reviewed: I.Reviewed, candidates: seq<Candidate>, states: seq<State>, steps: seq<Import>) {
    && |states| == |steps| + 1
    && forall i :: 0 <= i < |steps| ==> Round(reviewed, candidates, states[i], steps[i], states[i + 1])
  }

  lemma SettlingCounts(before: seq<I.Item>, after: seq<I.Item>, k: nat)
    requires Settles(before, after, k)
    ensures I.InboxOf(after).pendingCount + 1 == I.InboxOf(before).pendingCount
    ensures I.InboxOf(after).conflictCount == I.InboxOf(before).conflictCount
    ensures I.InboxOf(after).unavailableCount == I.InboxOf(before).unavailableCount
  {
    SelectUpdated(before, after, k, s => I.Pending(s));
    SelectUpdated(before, after, k, s => s == I.ClaimConflict);
    SelectUpdated(before, after, k, s => s == I.CountyUnavailable);
  }

  /** Over any run, each round settles one pending candidate and adds no conflict. */
  lemma {:induction false} RoundsMakeProgress(reviewed: I.Reviewed, candidates: seq<Candidate>, states: seq<State>,
                                              steps: seq<Import>)
    requires QueueCandidates(candidates) && Rounds(reviewed, candidates, states, steps)
    requires KeysNameProjects(states[0].rows)
    ensures KeysNameProjects(states[|steps|].rows)
    ensures var first, last := InboxIn(reviewed, states[0], candidates), InboxIn(reviewed, states[|steps|], candidates);
      && last.pendingCount + |steps| == first.pendingCount
      && last.conflictCount == first.conflictCount && last.unavailableCount == first.unavailableCount
  {
    if steps != [] {
      var n := |steps| - 1;
      assert Rounds(reviewed, candidates, states[..n + 1], steps[..n]);
      RoundsMakeProgress(reviewed, candidates, states[..n + 1], steps[..n]);
      assert states[..n + 1][n] == states[n] && states[..n + 1][0] == states[0];
      var k := RoundSettles(reviewed, candidates, states[n], steps[n], states[n + 1]);
      SettlingCounts(ItemsIn(reviewed, states[n], candidates), ItemsIn(reviewed, states[n + 1], candidates), k);
    }
  }

  /** A run has at most one round per candidate, and after as many rounds as candidates were pending there is
      no next one. */
  lemma RunsEnd(reviewed: I.Reviewed, candidates: seq<Candidate>, states: seq<State>, steps: seq<Import>)
    requires QueueCandidates(candidates) && Rounds(reviewed, candidates, states, steps)
    requires KeysNameProjects(states[0].rows)
    ensures |steps| <= InboxIn(reviewed, states[0], candidates).pendingCount <= |candidates|
    ensures InboxIn(reviewed, states[|steps|], candidates).nextPending == None
        <==> |steps| == InboxIn(reviewed, states[0], candidates).pendingCount
  {
    RoundsMakeProgress(reviewed, candidates, states, steps);
    InboxCountsAgree(ItemsIn(reviewed, states[0], candidates));
    InboxCountsAgree(ItemsIn(reviewed, states[|steps|], candidates));
  }
}
