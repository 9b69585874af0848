/** Inputs at which a stated or expected promise fails, one for each place where the code and its promises part. */
module Counterexamples {
  import opened Base
  import opened Ordering
  import opened Text
  import B = BundleCommit
  import D = CentralDirectory
  import A = OperatorArchive
  import AL = OperatorArchiveLaws
  import P = PersistencePreview
  import W = WritePlan
  import R = RecurringRun
  import RL = RecurringRunLaws
  import Instances

  // ---------- The newest manifest of a bundle is lost ----------

  function ListedPayloads(): seq<B.Artifact> {
    seq(|B.PAYLOADS|, i requires 0 <= i < |B.PAYLOADS| => B.Artifact(B.PAYLOADS[i], 0, "h"))
  }

  function BundleCodec(): B.Codec {
    B.Codec(content => "h", bytes => Some(ListedPayloads()))
  }

  /** Empty payloads, and a manifest of one byte that tells the bundles apart. */
  function Staged(mark: byte): B.Directory {
    (map name | name in B.PAYLOADS :: [])[B.MANIFEST := [mark]]
  }

  function BundleOf(mark: byte): B.Bundle {
    B.Bundle(ListedPayloads(), B.Artifact(B.MANIFEST, 1, "h"), Staged(mark))
  }

  lemma BundleIsComplete(mark: byte, dir: B.Directory)
    ensures B.Staged(BundleCodec(), BundleOf(mark))
    ensures B.RunPlan(BundleCodec(), dir, BundleOf(mark)).complete
  {
    var b := BundleOf(mark);
    B.ReservedNamesDiffer();
    B.PublicationCompletes(BundleCodec(), b.payloads + [b.manifest], b.staged);
  }

  /** The directory a finished run of a first bundle leaves is in order: what its manifest lists is there. */
  lemma FirstDirectoryIsSafe()
    ensures B.Safe(BundleCodec(), Staged(0)) && B.MANIFEST in Staged(0) && B.PENDING !in Staged(0)
  {
    B.ReservedNamesDiffer();
  }

  /** From there a second bundle's run commits and stops before its cleanup, a third one's stops before its own
      commit: the second manifest is gone, and the marker holds the first. */
  lemma CommittedManifestIsLost() returns (m: nat, n: nat)
    ensures var codec, dir := BundleCodec(), Staged(0);
      var once := B.AfterRuns(codec, dir, [B.Attempt(BundleOf(1), m)]);
      var twice := B.AfterRuns(codec, dir, [B.Attempt(BundleOf(1), m), B.Attempt(BundleOf(2), n)]);
      && B.Safe(codec, dir) && B.Staged(codec, BundleOf(1)) && B.Staged(codec, BundleOf(2))
      && B.MANIFEST in once && once[B.MANIFEST] == [1]
      && B.MANIFEST !in twice && B.PENDING in twice && twice[B.PENDING] == [0]
  {
    FirstDirectoryIsSafe();
    BundleIsComplete(1, Staged(0));
    BundleIsComplete(2, Staged(0));
    m, n := B.NewestManifestCanBeLost(BundleCodec(), Staged(0), BundleOf(1), BundleOf(2));
  }

  // ---------- A well-formed directory that is refused ----------

  /** No entries, behind as many bytes as make the directory's offset read as an end signature. */
  lemma OffsetReadsAsSignature()
    ensures var body: Bytes := seq(D.SIGNATURE_AS_OFFSET, i => 0);
      D.Encodable(body, [], []) && D.CheckDirectory(D.Serialize(body, [], [])) == Err(D.EndRecordMissing)
  {
    D.CommentFreeAcceptance(seq(D.SIGNATURE_AS_OFFSET, i => 0), []);
  }

  // ---------- An archive that is built and does not pass ----------

  function Digest(): string {
    seq(64, i => 'd')
  }

  function UntrimmedEntry(): A.EntryJson {
    A.EntryObject(JString(" a"), JString("t"), JString(Digest()), JNull)
  }

  function ArchiveCodec(): A.Codec {
    A.Codec(content => Digest(), bytes => Some(A.Manifest(None, [UntrimmedEntry()])), members => 0)
  }

  function ArchiveFiles(): A.Files {
    map["a" := [], A.MANIFEST := []]
  }

  lemma EntryIsStripped()
    ensures A.ClaimOf(UntrimmedEntry()) == Some(A.Claim("a", Digest(), None))
  {
    assert " a"[1..] == "a" && StripLeft("a") == "a" && StripRight("a") == "a";
    assert Strip(" a") == "a" && Strip("t") == "t";
    assert Digest()[0] == 'd';
    StripTrims(Digest());
  }

  lemma NamesDiffer()
    ensures "a" != A.MANIFEST && A.SafeBasename("a")
  {
    assert |A.MANIFEST| == 13 && "a"[0] == 'a';
  }

  lemma BundlePasses()
    ensures A.VerifyBundle(ArchiveCodec(), ArchiveFiles()).Ok?
    ensures A.VerifyBundle(ArchiveCodec(), ArchiveFiles()).value.Passed()
  {
    var codec, files, entry := ArchiveCodec(), ArchiveFiles(), UntrimmedEntry();
    EntryIsStripped();
    NamesDiffer();
    var check := A.ArtifactCheck("a", Digest(), 0, A.Verified);
    assert A.VerifyBundleEntry(codec, files, entry, A.MAX_TOTAL_BYTES) == Ok((Some(check), A.MAX_TOTAL_BYTES));
    assert [entry][1..] == [] && [check] + [] == [check];
    assert A.VerifyBundleEntries(codec, files, [], A.MAX_TOTAL_BYTES, {} + {"a"}) == Ok(A.Checks([], 0));
    assert A.VerifyBundleEntries(codec, files, [entry], A.MAX_TOTAL_BYTES, {}) == Ok(A.Checks([check], 0));
  }

  lemma ClaimsOneName()
    ensures AL.ClaimedNames([UntrimmedEntry()]) == ["a"]
  {
    EntryIsStripped();
    assert [UntrimmedEntry()][1..] == [] && ["a"] + [] == ["a"];
  }

  lemma FilesFit()
    ensures |A.ArchiveNames(["a"])| == 2 && SumBy(AL.SizeIn(ArchiveFiles()), A.ArchiveNames(["a"])) == 0
  {
    NamesDiffer();
    var names := ["a", A.MANIFEST];
    assert ["a"] + [A.MANIFEST] == names && A.MANIFEST !in ["a"];
    SortedIsPermutation(TextKey, names);
    SumIgnoresOrder(AL.SizeIn(ArchiveFiles()), names, A.ArchiveNames(["a"]));
    assert names[1..] == [A.MANIFEST] && [A.MANIFEST][1..] == [];
    assert |multiset(names)| == |multiset(A.ArchiveNames(["a"]))|;
  }

  lemma ArchiveIsBuilt()
    ensures A.BuildArchive(ArchiveCodec(), ArchiveFiles(), ArchiveFiles(), true).Ok?
  {
    BundlePasses();
    ClaimsOneName();
    FilesFit();
    assert |Digest()| == 64;
    AL.SelectedUnchanged(ArchiveCodec(), ArchiveFiles());
    AL.UnchangedBundleIsArchivedIff(ArchiveCodec(), ArchiveFiles());
  }

  lemma NameIsUntrimmed()
    ensures !AL.TrimmedFilenames([UntrimmedEntry()])
  {
    assert UntrimmedEntry() in [UntrimmedEntry()] && IsSpace(" a"[0]);
  }

  /** A bundle that passes its verifier, archived unchanged by a builder that requires it to: the archive is read
      back without error and does not pass. */
  lemma PublishedArchiveFails()
    ensures var codec, files := ArchiveCodec(), ArchiveFiles();
      && A.VerifyBundle(codec, files).Ok? && A.VerifyBundle(codec, files).value.Passed()
      && A.BuildArchive(codec, files, files, true).Ok?
      && var members := A.BuildArchive(codec, files, files, true).value;
         A.VerifyArchive(codec, members).Ok? && !A.VerifyArchive(codec, members).value.Passed()
  {
    BundlePasses();
    ArchiveIsBuilt();
    ClaimsOneName();
    NamesDiffer();
    NameIsUntrimmed();
    AL.UntrimmedBundleIsPublished(ArchiveCodec(), ArchiveFiles());
  }

  // ---------- A preview whose plan is refused ----------

  function ReportChain(): P.Chain {
    P.Chain(name => "x", fields => Some(JNull), parts => JNull, (t, fields) => Some(fields))
  }

  function ReportRecord(): W.Item {
    W.Object(map["sch_number" := JString("1"), "title" := JString("t")])
  }

  lemma RecordFields()
    ensures StringOrNone(W.Get(ReportRecord().fields, "sch_number")) == Some("1")
    ensures StringOrNone(W.Get(ReportRecord().fields, "title")) == Some("t")
    ensures W.Get(ReportRecord().fields, "county") == JNull && W.Get(ReportRecord().fields, "lead_agency") == JNull
  {
    StripTrims("1");
    StripTrims("t");
    assert |"sch_number"| == 10 && |"title"| == 5 && |"county"| == 6 && |"lead_agency"| == 11;
  }

  lemma RecordIsTaken()
    ensures P.TakeRecord(ReportChain(), ReportRecord()).Ok? && P.TakeRecord(ReportChain(), ReportRecord()).value.Some?
    ensures P.RetainedNumber(ReportRecord()) == Some("1")
  {
    RecordFields();
    var f := ReportRecord().fields;
    var record := P.RecordPart(ReportChain(), f, "1", "t", None, None, JNull);
    P.RecordPartKey(ReportChain(), f, "1", "t", None, None, JNull);
    assert P.SitePart(f, "1", JNull) == None && P.EntityPart(ReportChain(), f, JNull) == None;
    assert W.RequiredText(record.fields, "title");
    assert W.Validated(ReportChain().reader, W.CeqaRecords, record.fields).Some?;
  }

  /** Taking one record twice. */
  lemma TakenTwice(take: P.Taker, number: P.Numberer, record: W.Item)
    requires take(record).Ok? && take(record).value.Some? && number(record).Some?
    ensures P.Collect(take, [record, record]).Ok? && !Distinct(P.RetainedNumbers(number, [record, record]))
  {
    var n, records := number(record).value, [record, record];
    assert records[..1] == [record] && [record][..0] == [];
    assert P.Collect(take, []).Ok? && P.Collect(take, [record]).Ok?;
    assert P.RetainedNumbers(number, [record]) == [] + [n] == [n];
    assert P.RetainedNumbers(number, records) == [n, n];
    assert [n, n][0] == [n, n][1];
  }

  /** A report with two records of one project: the preview is built, and its plan is refused. */
  lemma RepeatedProjectIsRefused()
    ensures var records := [ReportRecord(), ReportRecord()];
      && P.Collect(P.TakerOf(ReportChain()), records).Ok?
      && !P.PlanAccepted(ReportChain().reader, P.PreviewOf(P.Collect(P.TakerOf(ReportChain()), records).value))
  {
    RecordIsTaken();
    TakenTwice(P.TakerOf(ReportChain()), P.SchNumber(), ReportRecord());
    assert P.GoodSlugs(ReportChain());
    P.PreviewPlanAcceptedIff(ReportChain(), [ReportRecord(), ReportRecord()]);
  }

  // ---------- More failures than requests ----------

  /** From an attempt that passes with one success and no failure. */
  lemma OneSuccessShifted(lib: R.Library, d: R.Definition, m: R.Manifest, e: R.Execution) returns (shifted: R.Execution)
    requires RL.Passes(lib, d, m, e, R.NoEvidence)
    requires e.body.report.metadata.Some? && e.body.report.snapshots.Some?
    requires e.body.report.metadata.value.successful == JInt(1) && e.body.report.metadata.value.failed == JInt(0)
    ensures RL.Passes(lib, d, m, shifted, R.NoEvidence)
    ensures shifted.body.report.metadata.Some? && shifted.body.report.snapshots == e.body.report.snapshots
    ensures shifted.body.report.metadata.value.successful == JInt(-1)
    ensures shifted.body.report.metadata.value.failed == JInt(2)
  {
    RL.FailuresAloneAreUnbounded(lib, d, m, e, R.NoEvidence, 2);
    shifted := RL.Shifted(lib, e, 2);
  }

  /** An attempt of one request, under a definition of one page, that claims two failures and minus one success,
      and passes. */
  lemma NegativeSuccessesPass() returns (e: R.Execution)
    ensures RL.Passes(Instances.RunLibrary(), Instances.RunDefinition(), Instances.RunManifest(), e, R.NoEvidence)
    ensures e.body.report.metadata.Some? && e.body.report.snapshots.Some?
    ensures e.body.report.metadata.value.successful == JInt(-1)
    ensures e.body.report.metadata.value.failed == JInt(2)
    ensures |e.body.report.snapshots.value| == 1 == Instances.RunDefinition().body.template.maxPages
  {
    Instances.SomeRunPasses();
    e := OneSuccessShifted(Instances.RunLibrary(), Instances.RunDefinition(), Instances.RunManifest(),
                           Instances.RunExecution());
  }
}
