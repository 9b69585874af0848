# ConstructionSight evidence and governance model

A Dafny model of the evidence and governance layer of ConstructionSight, with proofs of what that layer
promises. `dafny verify dfyconfig.toml` verifies the whole project.

SHA-256 and canonical JSON are fixed functions, assumed free of collisions only where a lemma says so, and then
only on the data at hand. Files, stores, clocks and network responses are abstract state or plain input. Code
that works step by step is a method with a loop or a class, proved equal to a function; the promises are lemmas
about that function.

| files | what they model |
|---|---|
| `Base`, `Text`, `Ordering` | shared vocabulary: results, Python text and JSON values, stable sorting, sums, pigeonhole |
| `BundleCommit` | publishing an operator bundle, with a crash possible after every filesystem step |
| `CentralDirectory`, `BoundedReader` | the byte-level ZIP directory walk (sections 4.3.12 and 4.3.16 of PKWARE's APPNOTE.TXT) and the budgeted streaming readers |
| `OperatorArchive`, `OperatorArchiveLaws`, `ArchiveContainer` | bundle verification, archive creation and archive verification; the built archive's directory |
| `TreeDigest` | the byte stream that identifies an assured source tree |
| `AssuranceAudit`, `AssuranceAuditLaws`, `AssuranceUnion`, `AssuranceGates` | the assurance audit: passes, candidate union, quality gates, source ownership |
| `CsvExport`, `CsvColumns`, `CsvLive` | export addresses, column roles, CSV inspection, live executions and replays |
| `EvidenceSeries`, `EvidenceSeriesLaws`, `EvidenceSeriesStep` | the append-only, hash-chained evidence ledger |
| `RecurringRun`, `RecurringRunLaws` | recurring runs: manifests, verification, binding an authorization |
| `WritePlan`, `WritePlanLaws`, `PlanExecution` | write plans: building, acceptance, atomic application |
| `CsvBridge`, `PersistencePreview` | the two producers of write plans |
| `CaptureQueue`, `CaptureQueueLaws`, `IngestionInbox`, `IngestionInboxLaws` | the discovery queue and the reconciliation inbox |
| `Instances`, `Counterexamples` | concrete instances of the longest hypotheses, and of the promises that fail |

## Where the code and its promises part

The model follows the code. These are places where a stated or expected promise holds only under a condition;
each has a lemma that says exactly when, and one at a concrete input where it fails.

- The demotion of the old manifest is documented to retain any old manifest. It does so exactly when no other
  pending marker is in the way (`BundleCommit.DemotionKeepsTheManifest`, `Counterexamples.CommittedManifestIsLost`).
- A comment-free archive is refused exactly when its central directory starts at byte 0x06054b50
  (`CentralDirectory.CommentFreeAcceptance`, `Counterexamples.OffsetReadsAsSignature`). The builder never writes
  such an archive (`ArchiveContainer.BuiltDirectoryIsAccepted`).
- The bundle verifier strips manifest filenames and the archive inventory does not: archives agree exactly for
  trimmed names (`OperatorArchiveLaws.ArchivePassesIff`, `Counterexamples.PublishedArchiveFails`).
- The recurring-run verifier bounds successes plus failures. Either count alone is bounded exactly when the other
  is not negative (`RecurringRunLaws.SingleCountsIff`, `Counterexamples.NegativeSuccessesPass`).
- The plan of a chain report's preview is accepted exactly when no two retained records carry one SCH number
  (`PersistencePreview.PreviewPlanAcceptedIff`, `Counterexamples.RepeatedProjectIsRefused`).

## Model

| member | source | states |
|---|---|---|
| BundleCommit.RunsAreSafe | src/constructionsight/ceqanet_operator_bundle.py:150-173 | Over any sequence of publication runs, each stopped after any filesystem step, a success manifest that is present lists only payloads that are present with the recorded length and digest; and once there was a manifest or a pending marker, one of the two always exists. |
| BundleCommit.RunIsSafe | src/constructionsight/ceqanet_operator_bundle.py:150-173 | One run, cut anywhere, keeps both of these properties. |
| BundleCommit.BundleDirectory.Commit | src/constructionsight/ceqanet_operator_bundle.py:150-173 | The writer as it runs, lock to marker, leaves exactly the planned steps cut where the machine stopped, and reports a commit, a refusal or a crash accordingly. |
| BundleCommit.BundleDirectory.Invalidate | src/constructionsight/ceqanet_operator_bundle.py:234-253 | Demoting the old manifest is a link, unless a marker exists, followed by an unlink; a crash between the two leaves the plan cut there. |
| BundleCommit.BundleDirectory.Publish | src/constructionsight/ceqanet_operator_bundle.py:279-336 | Each staged file replaces its entry before its identity is compared; an over-limit or missing file stops the run first, a changed one afterwards. |
| BundleCommit.BundleDirectory.AcquireLock | src/constructionsight/ceqanet_operator_bundle.py:186-218 | Taking the lock creates its entry only when it is missing. |
| BundleCommit.BundleDirectory.ClearPending | src/constructionsight/ceqanet_operator_bundle.py:256-262 | Clearing removes the marker only when it is there. |
| BundleCommit.PublicationCompletes | src/constructionsight/ceqanet_operator_bundle.py:279-336 | A publication is not refused exactly when every staged file is there, within its limit, with the recorded length and digest. |
| BundleCommit.FinishedRun | src/constructionsight/ceqanet_operator_bundle.py:150-173 | A run that gets to the end leaves every payload and the manifest as staged and recorded, and no marker. |
| BundleCommit.FinishedRunLeavesOthers | src/constructionsight/ceqanet_operator_bundle.py:150-173 | It changes no entry besides those, the marker and the lock. |
| BundleCommit.ManifestsComeFromCommits | src/constructionsight/ceqanet_operator_bundle.py:234-262 | Over any runs, manifest and marker only ever hold bytes that were a manifest: an initial one or one that some run staged. |
| BundleCommit.DemotionKeepsTheManifest | src/constructionsight/ceqanet_operator_bundle.py:234-253 | The promise to retain the old manifest holds exactly when no different marker was already there. |
| BundleCommit.NewestManifestCanBeLost | src/constructionsight/ceqanet_operator_bundle.py:150-173 | Concretely: a run stopped between its commit and its cleanup, then a run stopped before its own commit, leave only the manifest before both. |
| BundleCommit.ChangedManifestIsCommitted | src/constructionsight/ceqanet_operator_bundle.py:320-336 | A staged manifest that changed is in place before the run reports the refusal, which is why the staged manifest has to be trusted. |
| CentralDirectory.RequireBoundedCentralDirectory | src/constructionsight/ceqanet_operator_archive_verify.py:210-254 | For any bytes the checks terminate, slice within bounds, take at most 128 header steps, and answer what the specification function says. |
| CentralDirectory.CheckIsExact | src/constructionsight/ceqanet_operator_archive_verify.py:210-254 | The walk accepts exactly the archives whose last end record is single-disk and complete and whose directory bytes tile into exactly the declared number of well-signed headers, within every limit. |
| CentralDirectory.WalkTiles | src/constructionsight/ceqanet_operator_archive_verify.py:236-252 | An accepted walk has cut the directory bytes into one header per step. |
| CentralDirectory.TilesWalk | src/constructionsight/ceqanet_operator_archive_verify.py:236-252 | Bytes that are a run of at most 128 headers are walked to the end. |
| CentralDirectory.TilingIsUnique | src/constructionsight/ceqanet_operator_archive_verify.py:236-252 | The bytes determine the headers: no directory can be read in two ways. |
| CentralDirectory.SerializedIsAccepted | src/constructionsight/ceqanet_operator_archive_verify.py:210-254 | Everything a writer can lay out, with up to 128 headers and any comment, is accepted with the header count when its end signature is the last one. |
| CentralDirectory.CommentFreeAcceptance | src/constructionsight/ceqanet_operator_archive_verify.py:210-254 | A comment-free archive is accepted if and only if its directory does not start at byte 0x06054b50; then the offset field itself reads as a later end record. |
| CentralDirectory.RecurrenceIsTheOffset | src/constructionsight/ceqanet_operator_archive_verify.py:213-216 | Inside a comment-free end record the signature can recur in the offset field only. |
| BoundedReader.ReadMember | src/constructionsight/ceqanet_operator_archive_verify.py:271-298 | However the stream cuts its data, every request is for a positive number of bytes; the member is accepted exactly when it is within its own limit and the shared budget, each byte is handed on once, and at most one byte past the tighter bound is consumed before a refusal. |
| BoundedReader.ReadAllIff | src/constructionsight/ceqanet_operator_archive.py:196-253 | A run of members is accepted exactly when each is within its limit and all together within the budget, which is then charged exactly. |
| BoundedReader.ReadAllIgnoresOrder | src/constructionsight/ceqanet_operator_bundle_verify.py:232-305 | Acceptance does not depend on the order of the members. |
| OperatorArchive.WriteZip | src/constructionsight/ceqanet_operator_archive.py:196-253 | The copying loop, budget and identity check included, is the specification function, error cases and order of errors alike. |
| OperatorArchive.CheckBundleEntry | src/constructionsight/ceqanet_operator_bundle_verify.py:232-305 | One bundle entry streamed under the shared budget answers, and charges, what the specification says. |
| OperatorArchive.CheckBundleEntries | src/constructionsight/ceqanet_operator_bundle_verify.py:136-177 | The bundle loop, with its growing results and set of filenames, is the specification function. |
| OperatorArchive.CheckArchiveEntries | src/constructionsight/ceqanet_operator_archive_verify.py:140-197 | The archive loop over the budget its manifest left is the specification function. |
| OperatorArchiveLaws.PassedBundleEntries | src/constructionsight/ceqanet_operator_bundle_verify.py:118-177 | A bundle that passes names distinct, safe, present files of the recorded lengths and digests, and its checks record what was read. |
| OperatorArchiveLaws.WrittenMembers | src/constructionsight/ceqanet_operator_archive.py:196-253 | Written members are, one for one and in order, the copied files, each unchanged since it was verified, within the budget. |
| OperatorArchiveLaws.InventoryCleanIff | src/constructionsight/ceqanet_operator_archive_verify.py:308-337 | For a sound archive the inventory has no issue exactly when the manifest writes its filenames without surrounding whitespace. |
| OperatorArchiveLaws.CopiedEntriesHold | src/constructionsight/ceqanet_operator_archive.py:170-193 | Files that changed in between but were copied satisfy the manifest entries the verified files satisfied. |
| OperatorArchiveLaws.ReadBack | src/constructionsight/ceqanet_operator_archive_verify.py:140-197 | Reading the members back reaches the inventory with every entry verified. |
| OperatorArchive.CheckStagedZip | src/constructionsight/ceqanet_operator_archive.py:256-296 | The builder reads its staged archive back under a fresh budget and answers what the specification function says, size check first. |
| OperatorArchiveLaws.StagedCheckIsTheSizeCheck | src/constructionsight/ceqanet_operator_archive.py:256-296 | Reading back what was written never disagrees: of the checks on the staged archive only the size of the compressed file can refuse it. |
| OperatorArchiveLaws.WriteSucceedsIff | src/constructionsight/ceqanet_operator_archive.py:196-253 | Copying succeeds exactly when every file is there, unchanged since it was verified and within its limit, and all together fit the budget. |
| OperatorArchiveLaws.UnchangedBundleIsArchivedIff | src/constructionsight/ceqanet_operator_archive.py:67-144 | A bundle that passes and does not change is archived exactly when its files, the manifest among them, fit the limits on number and total, and the compressed file fits its own. |
| OperatorArchiveLaws.ArchivePassesIff | src/constructionsight/ceqanet_operator_archive_verify.py:140-197 | Builder and verifier agree: an archive published from a bundle that had to verify, files changing in between or not, is read back without error and passes exactly when the manifest filenames are trimmed (the manifest does not list itself, and the hash does not collide on its two readings). |
| ArchiveContainer.BuiltDirectoryIsAccepted | src/constructionsight/ceqanet_operator_archive_verify.py:200-254 | Whatever the builder publishes, the bounded walk over its directory accepts it and counts its members: the limits on members and their total keep the directory small and away from the one offset that reads as an end record. |
| TreeDigest.FieldsAreNulFree | src/constructionsight/assurance_certification.py:453-466 | No field of any accepted entry holds a NUL: it follows from how the listing is split. |
| TreeDigest.CoveredEntriesAreTheListedOnes | src/constructionsight/assurance_certification.py:453-470 | The covered entries are exactly the listed ones outside the permitted finalization paths. |
| TreeDigest.EntryIsDetermined | src/constructionsight/assurance_certification.py:471-480 | An encoded entry followed by anything determines the entry: the encoding is prefix-free. |
| TreeDigest.EncodingIsInjective | src/constructionsight/assurance_certification.py:471-480 | Equal encodings come from equal entry sequences. |
| TreeDigest.AssuredTreeStream | src/constructionsight/assurance_certification.py:445-481 | The program's loops, including every error, are the specification function. |
| TreeDigest.StreamIdentifiesTree | src/constructionsight/assurance_certification.py:445-481 | For listings with unique paths, the hashed streams are equal exactly when the covered sets of (path, mode, object id) are equal, whatever the listing order. |
| TreeDigest.DigestIdentifiesTree | src/constructionsight/assurance_certification.py:445-481 | When the hash does not collide on the two streams, the same holds of the digests. |
| AssuranceAudit.AuditPassLoop | src/constructionsight/assurance_certification.py:668-895 | The pass loop, with its dictionaries and two counters, is the specification function, and the counters count the native and deep passes. |
| AssuranceAuditLaws.ClaimIff | src/constructionsight/assurance_certification.py:653-665 | Registering a source causes no finding exactly when sources of different owners stay different in path and digest. |
| AssuranceAuditLaws.PassListCleanIff | src/constructionsight/assurance_certification.py:685-858 | The pass list causes no finding if and only if every record is clean and no two passes share an identifier, an evidence artifact, or the path or digest of a source. |
| AssuranceAuditLaws.KindsAreCounted | src/constructionsight/assurance_certification.py:768-778 | With distinct identifiers, counting records is counting passes. |
| AssuranceAuditLaws.CleanPassAudit | src/constructionsight/assurance_certification.py:668-895 | Under a sound contract, a pass audit without findings has at least five native and three deep passes by distinct identifiers, with pairwise distinct evidence and sources. |
| AssuranceUnion.DeclaredCountsAreMemberships | src/constructionsight/assurance_certification.py:1090-1099 | With a clean union, the candidate counts the passes declare add up to the memberships of the candidates in the passes. |
| AssuranceUnion.CandidatesCleanIff | src/constructionsight/assurance_certification.py:992-1088 | The candidate list causes no finding exactly when every candidate is clean and no two share an identifier. |
| AssuranceUnion.UnionCleanIff | src/constructionsight/assurance_certification.py:925-1100 | The union audit finds nothing exactly when the reference leads to an artifact that makes the required statements about exactly the passes, its candidates are clean under identifiers of their own, and each declared count is the share of its pass. |
| AssuranceUnion.CleanAuditCountsAddUp | src/constructionsight/assurance_certification.py:925-1100 | The same from the two audits alone. |
| AssuranceUnion.SharesAddUp | src/constructionsight/assurance_certification.py:1033-1034 | Double counting: each pass's share of the counter adds up to the whole counter. |
| AssuranceGates.ResultsAreExact | src/constructionsight/assurance_certification.py:1176-1235 | The results of an evidence artifact cause no finding exactly when each is clean and about a gate of its own, and their sources stay apart from each other and from those bound before. |
| AssuranceGates.GateListCleanIff | src/constructionsight/assurance_certification.py:1118-1243 | The gate list causes no finding exactly when every gate is well formed, passed and agreed with by evidence that holds, no two share an identifier, and the sources of all results stay apart from each other and from those bound before; every one of them is then on record. |
| AssuranceGates.GateAuditCleanIff | src/constructionsight/assurance_certification.py:1103-1253 | The whole gate audit finds nothing exactly when, besides, the gates are those the policy requires. |
| AssuranceGates.SourcesAreNotShared | src/constructionsight/assurance_certification.py:560-665 | When neither passes nor gates cause a finding, sources bound for different purposes, be they two passes, two gates or one of each, differ in path and in digest. |
| AssuranceGates.MandatoryGatesPassed | src/constructionsight/assurance_certification.py:1244-1252 | Under a sound contract, a gate audit without findings has seen every mandatory gate pass with evidence. |
| CsvExport.BuiltUrlParses | src/constructionsight/ceqanet_csv_service.py:86-155 | A built export address parses back to the request it was built for. |
| CsvExport.ParsedIsCanonical | src/constructionsight/ceqanet_csv_service.py:115-155 | Whatever spelling of an address is accepted, its request is the canonical one, and its own address parses to it again. |
| CsvExport.AddressIdentifiesRequest | src/constructionsight/ceqanet_csv_service.py:86-112 | Different requests have different addresses. |
| CsvExport.QueryRoundTrip | src/constructionsight/ceqanet_csv_service.py:106-128 | Strict query parsing undoes query encoding. |
| CsvExport.DecimalRoundTrip | src/constructionsight/ceqanet_csv_service.py:100-104 | Reading a written document number gives the number back. |
| CsvColumns.SuppressionLeavesOne | src/constructionsight/ceqanet_csv_service.py:319-339 | Of several title-like columns exactly one keeps the title, the preferred one; the suppression never fails. |
| CsvColumns.ColumnsAcceptedIff | src/constructionsight/ceqanet_csv_service.py:319-376 | A header is accepted exactly when every column has a usable name of its own and no two share a role, titles apart. |
| CsvColumns.CollectColumns | src/constructionsight/ceqanet_csv_service.py:342-376 | The column loop is the specification function, error cases included. |
| CsvLive.ReinspectionIsAFixpoint | src/constructionsight/ceqanet_csv_service.py:158-276 | Inspecting the same bytes again with the cap set to the retained row count reproduces the inspection. |
| CsvLive.VerifyLive | src/constructionsight/ceqanet_csv_live_service.py:104-206 | The verifier, stage by stage and check by check, appends exactly the specified findings, those about its fixed fields included. |
| CsvLive.PassingExecution | src/constructionsight/ceqanet_csv_live_service.py:104-206 | An execution passes its verifier if and only if it is an intact, complete, error-free 200 from the requested address whose stored inspection is its recomputation. |
| CsvLive.BuiltExecutionPassesIff | src/constructionsight/ceqanet_csv_live_service.py:209-304 | A built execution passes exactly for a complete, error-free 200 from the exact address whose body can be inspected. |
| CsvLive.FindingsAreDistinct | src/constructionsight/ceqanet_csv_live_service.py:104-206 | No finding is reported twice, which the ledger's observations require. |
| CsvLive.BuiltReplayPasses | src/constructionsight/ceqanet_csv_replay_service.py:15-121 | Every replay that can be built passes its verifier, whatever cap it was built with. |
| EvidenceSeries.ChainSeries | src/constructionsight/ceqanet_csv_evidence_series_service.py:80-93 | The loop that rebuilds the ledger snapshot by snapshot is the specification chain. |
| EvidenceSeries.BuildSeries | src/constructionsight/ceqanet_csv_evidence_series_service.py:47-93 | Building a series, failures included, is the specification function. |
| EvidenceSeries.DraftIsValidIff | src/constructionsight/ceqanet_csv_evidence_series_models.py:308-417 | A snapshot's computed fields always pass the model validator; what can fail is the order, a repeated identity or date, the window, or a halt before the end. |
| EvidenceSeries.HaltCheckMeans | src/constructionsight/ceqanet_csv_evidence_series_models.py:376-417 | The validator's halt check says that a halt can only be last. |
| EvidenceSeriesLaws.ChainIff | src/constructionsight/ceqanet_csv_evidence_series_service.py:80-93 | The chain succeeds exactly when the observations are acceptable and every proper prefix is still collecting. |
| EvidenceSeriesLaws.ChainContent | src/constructionsight/ceqanet_csv_evidence_series_service.py:80-93 | A chained series holds its observations and its predecessor is the series one observation shorter. |
| EvidenceSeriesLaws.BuildSucceedsIff | src/constructionsight/ceqanet_csv_evidence_series_service.py:47-93 | A series can be built exactly when every execution is observable, references and dates do not repeat, dates are in the window, and the ledger stays open until its last observation. |
| EvidenceSeriesLaws.BuiltSeries | src/constructionsight/ceqanet_csv_evidence_series_models.py:308-417 | A built series passes the whole validator, is bound by its digest, and holds exactly the observations, oldest first. |
| EvidenceSeriesLaws.BuildIgnoresOrder | src/constructionsight/ceqanet_csv_evidence_series_service.py:70-79 | The same executions in any order give the same series, or fail both ways. |
| EvidenceSeriesLaws.SuccessesAreOnDistinctDates | src/constructionsight/ceqanet_csv_evidence_series_models.py:353-373 | Successes and their distinct dates are equally many. |
| EvidenceSeriesLaws.AtMostOnePerDay | src/constructionsight/ceqanet_csv_evidence_series_models.py:353-373 | Observations on distinct days of the window are no more than its days. |
| EvidenceSeriesLaws.ObservationsAreBounded | src/constructionsight/ceqanet_csv_access_policy_models.py:113-133 | A built series never has more than 31 observations, which nothing compares directly. |
| EvidenceSeriesLaws.DateBarFollows | src/constructionsight/ceqanet_csv_evidence_series_models.py:403-407 | Under the policy's threshold ordering the distinct-date bar follows from the success bar. |
| EvidenceSeriesStep.ExecutedIsObservable | src/constructionsight/ceqanet_csv_evidence_series_service.py:307-332 | An execution that got through the gates makes a valid observation at its own time. |
| EvidenceSeriesStep.ExecutionExtendsSeries | src/constructionsight/ceqanet_csv_evidence_series_service.py:153-354 | One gated step refines a full rebuild: appending the execution under a fresh reference makes the rebuild succeed, with the old observations plus the new one last and the old digest as predecessor. |
| EvidenceSeriesStep.ExecuteSucceedsIff | src/constructionsight/ceqanet_csv_evidence_series_service.py:153-354 | An attempt gets through exactly when every gate is open, it is not run before it was authorized, and its response can be retained as evidence. |
| EvidenceSeriesStep.RebuildSucceedsIff | src/constructionsight/ceqanet_csv_evidence_series_service.py:70-93 | An execution that got through can be filed exactly under a fresh, canonical reference: then the full rebuild succeeds, otherwise it fails. |
| EvidenceSeriesStep.RunsExtendLedgers | src/constructionsight/ceqanet_csv_evidence_series_service.py:175-214 | Over any run of attempts with valid requests under fresh canonical references, each attempt that gets through adds one input, the ledger can always be rebuilt and verifies, its observations are the old ones and then those of the added executions in order, and there are never more than 31. |
| EvidenceSeriesStep.TerminalLedgersAreFinal | src/constructionsight/ceqanet_csv_evidence_series_service.py:189-196 | A ledger that halted or completed is never changed again. |
| RecurringRun.VerifySnapshots | src/constructionsight/ceqanet_recurring_run_service.py:872-884 | The snapshot loop, growing findings and page numbers, is the specification function. |
| RecurringRun.VerifySemantics | src/constructionsight/ceqanet_recurring_run_service.py:352-425 | The semantic verifier appends its findings stage by stage as specified. |
| RecurringRun.VerifyExecution | src/constructionsight/ceqanet_recurring_run_verifier.py:20-48 | The canonical verifier adds a digest mismatch in front of the semantic findings. |
| RecurringRunLaws.NoSnapshotFindingsIff | src/constructionsight/ceqanet_recurring_run_service.py:899-988 | The snapshot checks find nothing exactly when every snapshot is a sound, bounded GET of the search page and no page occurs twice. |
| RecurringRunLaws.PassesIff | src/constructionsight/ceqanet_recurring_run_service.py:352-425 | Exactly what a verification without findings says. |
| RecurringRunLaws.PassingRunIsBounded | src/constructionsight/ceqanet_recurring_run_service.py:849-884 | A passing run executed as many requests as it has snapshots, at most the template's pages and at most ten; successes plus failures are within the same bound, and its maximum of records is at most 1000. |
| RecurringRunLaws.SnapshotsAreBounded | src/constructionsight/ceqanet_recurring_run_service.py:913-921 | Distinct page numbers within the bounds leave no room for more snapshots than pages. |
| RecurringRunLaws.SingleCountsIff | src/constructionsight/ceqanet_recurring_run_service.py:856-870 | In a passing attempt one count alone is within a bound exactly when the other makes up for the rest: within the number of snapshots exactly when the other is not negative; when neither is negative both are within the page limit. |
| RecurringRunLaws.FailuresAloneAreUnbounded | src/constructionsight/ceqanet_recurring_run_service.py:856-870 | The bound is on the sum only: from any passing attempt, one that passes with any larger failure count is made by letting the success count go down. |
| RecurringRunLaws.BuildManifestIff | src/constructionsight/ceqanet_recurring_run_service.py:112-158 | A manifest can be built from a valid definition exactly when the definition is intact, the window is in order and the definition does not already carry the manifest's limitation; it then pairs with the definition. |
| RecurringRunLaws.PassingAttemptsBindIff | src/constructionsight/ceqanet_recurring_run_service.py:284-311 | An attempt that passes can be bound exactly by an authorization of the manual attempt that names its decision. |
| RecurringRunLaws.BindingPreservesVerification | src/constructionsight/ceqanet_recurring_run_service.py:313-349 | Binding keeps a passing, allowed attempt passing, with a matching digest; from a version 1 report nothing else makes the bound one pass. |
| RecurringRunLaws.BindingAgain | src/constructionsight/ceqanet_recurring_run_service.py:313-349 | The last authorization wins: binding again with the same one gives the same evidence. |
| RecurringRunLaws.BoundEvidenceSuitsQueue | src/constructionsight/ceqanet_recurring_run_service.py:284-290 | Bound evidence that passes is accepted by the capture queue exactly when the run was allowed outright, fetched at least one page and every planned request succeeded. |
| WritePlan.OperationsForCollection | src/constructionsight/ceqanet_write_plan.py:116-157 | One collection's loop: every item leads to one operation or one skip, in order. |
| WritePlan.BuildWritePlan | src/constructionsight/ceqanet_write_plan.py:81-113 | The plan is the specification function, and operations plus skips are as many as the items. |
| WritePlan.PrepareEach | src/constructionsight/ceqanet_persistence_execute.py:143-220 | The preparing loop, with its identifier set and position counters, is the specification fold. |
| WritePlan.PrepareOperations | src/constructionsight/ceqanet_persistence_execute.py:139-220 | Preparation, envelope first, is the specification function with its error cases. |
| WritePlanLaws.IdentifierIsInjective | src/constructionsight/ceqanet_persistence_execute.py:193-198 | An operation identifier determines its collection and key. |
| WritePlanLaws.PrepareSucceedsIff | src/constructionsight/ceqanet_persistence_execute.py:139-246 | Any plan is accepted exactly when its envelope holds and every operation is sound, numbered by its place in its collection, and unlike any earlier one; what is prepared then mirrors it. |
| WritePlanLaws.PlanAcceptedIff | src/constructionsight/ceqanet_write_plan.py:96-157 | A plan built from a preview is accepted exactly when nothing would be skipped, keys are trimmed and distinct in each collection, and payloads are valid. |
| WritePlanLaws.PreparedIsCanonical | src/constructionsight/ceqanet_persistence_execute.py:154-198 | Accepted operations have distinct targets and canonical identifiers. |
| WritePlanLaws.PreparedCarriesPlan | src/constructionsight/ceqanet_persistence_execute.py:199-220 | Preparing a plan keeps its operations one for one, in order. |
| PlanExecution.ExecuteWritePlan | src/constructionsight/ceqanet_persistence_execute.py:86-129 | All or nothing: success exactly when the plan is accepted and every upsert and the commit work; then the store holds all operations and the applied list matches them one for one, otherwise the store is as it was and the failing operation is named. |
| PlanExecution.ApplyTransaction | src/constructionsight/ceqanet_persistence_execute.py:98-129 | The same for the transaction alone. |
| PlanExecution.Session.Upsert | src/constructionsight/storage/domain_store.py:99-128 | An upsert replaces one row and records a history event exactly when something changed. |
| PlanExecution.AppliedPlanOverrides | src/constructionsight/ceqanet_persistence_execute.py:100-113 | An applied plan leaves the old rows overridden by its models, and nothing else. |
| PlanExecution.HistoryOfPlan | src/constructionsight/storage/domain_store.py:47-90 | Each history event of an accepted plan is what its operation alone would have caused. |
| PlanExecution.ApplyingIgnoresOrder | src/constructionsight/ceqanet_persistence_execute.py:106-113 | The order of an accepted plan's operations does not matter: the same rows, and the same history events in some order. |
| PlanExecution.ApplyingTwiceIsOnce | src/constructionsight/ceqanet_persistence_execute.py:86-129 | Applying an accepted plan again changes nothing, not even the history. |
| CsvBridge.CollectRows | src/constructionsight/ceqanet_csv_operator_bridge.py:142-221 | The row loop, with its set of keys, is the specification fold. |
| CsvBridge.BridgedRowHolds | src/constructionsight/ceqanet_csv_operator_bridge.py:146-221 | A bridged row is of the requested project and a target county, and its models are valid under keys made from one digest. |
| CsvBridge.ItemsAreReviewed | src/constructionsight/ceqanet_csv_operator_bridge.py:157-204 | The one key check for the records also makes the keys of sites and entities distinct. |
| CsvBridge.BridgeIsNeverIncomplete | src/constructionsight/ceqanet_csv_operator_bridge.py:228-230 | The bridge's own completeness check never fires. |
| CsvBridge.BridgeSucceedsIff | src/constructionsight/ceqanet_csv_operator_bridge.py:128-238 | A bridge is built exactly from one to a hundred rows that all get through the row checks. |
| CsvBridge.BridgePlanIsAccepted | src/constructionsight/ceqanet_csv_operator_bridge.py:142-238 | Every plan the bridge builds is accepted for execution. |
| CsvBridge.BridgeWrites | src/constructionsight/ceqanet_csv_operator_bridge.py:205-221 | The records an executed bridge plan writes are those of its rows, each under its row's key. |
| PersistencePreview.CollectRecords | src/constructionsight/ceqanet_persistence_preview.py:80-123 | The report loop is the specification fold, and records taken plus records skipped are all records. |
| PersistencePreview.SetDefaultKeeps | src/constructionsight/ceqanet_persistence_preview.py:99-107 | Sites and entities are kept once per key. |
| PersistencePreview.PreviewPlanAcceptedIff | src/constructionsight/ceqanet_persistence_preview.py:65-130 | The plan of a chain report is accepted exactly when no two retained records carry the same SCH number. |
| CaptureQueue.TallyPage | src/constructionsight/ceqanet_capture_queue.py:113-156 | The inner loop, with its dictionary and exclusion counters, is the specification fold. |
| CaptureQueue.BuildQueue | src/constructionsight/ceqanet_capture_queue.py:46-192 | The whole derivation, failures included, is the specification function. |
| CaptureQueueLaws.TallyIff | src/constructionsight/ceqanet_capture_queue.py:130-156 | The aggregation succeeds exactly when the county claims of each project agree and the projects stay within the limit; it then summarises the observations. |
| CaptureQueueLaws.TallyCounts | src/constructionsight/ceqanet_capture_queue.py:112-156 | Each observation is counted exactly once: in a candidate or in one of the two exclusion counts. |
| CaptureQueueLaws.SummaryMeans | src/constructionsight/ceqanet_capture_queue.py:130-156 | A candidate has its first title and link, the number of its observations, their pages in strictly increasing order, their one county, and the OR of their enrichment flags. |
| CaptureQueueLaws.QueueSucceedsIff | src/constructionsight/ceqanet_capture_queue.py:56-158 | A queue is built exactly when the report is complete, every page reads, the counties agree and the projects stay within the limit. |
| CaptureQueueLaws.QueueIsSound | src/constructionsight/ceqanet_capture_queue.py:158-168 | A built queue has one candidate per project, strictly sorted, on pages within the report's, and parsed records equal observation counts plus exclusions. |
| IngestionInbox.ReconcileQueue | src/constructionsight/ceqanet_ingestion_inbox.py:83-206 | The reconciliation, from the queue check to the counts, is the specification function. |
| IngestionInboxLaws.InboxCountsAgree | src/constructionsight/ceqanet_ingestion_inbox.py:179-204 | The states divide the candidates, the counts agree, and the next pending number is that of the first pending candidate. |
| IngestionInboxLaws.OtherCandidatesUnchanged | src/constructionsight/ceqanet_ingestion_inbox.py:130-177 | Importing one project leaves the reconciliation of every other candidate as it was. |
| IngestionInboxLaws.ImportedCandidateMatches | src/constructionsight/ceqanet_ingestion_inbox.py:152-161 | The imported project's candidate becomes a match. |
| IngestionInboxLaws.BuiltQueueCandidates | src/constructionsight/ceqanet_capture_queue.py:113-129 | A built queue's candidates have exact, distinct numbers and a target county. |
| IngestionInboxLaws.RoundSettles | src/constructionsight/ceqanet_csv_operator_bridge_cli.py:691-698 | A successful capture of the next pending project in the queued county, bridged and applied, turns exactly the first pending candidate into a match and changes no other. |
| IngestionInboxLaws.RoundsMakeProgress | src/constructionsight/ceqanet_ingestion_inbox.py:199-204 | Over any run of rounds each settles one pending candidate and adds no conflict. |
| IngestionInboxLaws.RunsEnd | src/constructionsight/ceqanet_ingestion_inbox.py:204-204 | A run has at most one round per candidate, and there is no next candidate exactly after as many rounds as were pending. |
| Instances.SomeRunExtendsTheLedger | src/constructionsight/ceqanet_csv_evidence_series_service.py:175-214 | Two successful executions on two days, at fresh references and with digests that do not collide, meet every hypothesis of the laws about ledger steps and runs. |
| Instances.SomeLibraryIsFaithful | src/constructionsight/ceqanet_csv_service.py:86-155 | Some URL library meets the laws that the address results assume. |
| Instances.SomeRunPasses | src/constructionsight/ceqanet_recurring_run_service.py:352-425 | Some attempt with a page passes the recurring-run verifier and can be bound. |
| Instances.SomeSourceIsSound | src/constructionsight/ceqa_models.py:14-29 | A record model that drops undeclared fields, fills in a missing provenance and rewrites a given one meets what the inbox laws ask of it. |
| Instances.SomeRoundIsMade | src/constructionsight/ceqanet_ingestion_inbox.py:130-205 | Through that model, some round of the inbox meets every hypothesis of its progress laws. |
| Counterexamples.CommittedManifestIsLost | src/constructionsight/ceqanet_operator_bundle.py:150-173 | From a directory in order, two interrupted runs: the second bundle was committed, and its manifest is gone. |
| Counterexamples.OffsetReadsAsSignature | src/constructionsight/ceqanet_operator_archive_verify.py:210-254 | A well-formed archive whose directory starts at byte 0x06054b50 is refused. |
| Counterexamples.PublishedArchiveFails | src/constructionsight/ceqanet_operator_archive.py:67-144 | A bundle that passes, archived unchanged by a builder that requires it to pass: the published archive does not pass. |
| Counterexamples.NegativeSuccessesPass | src/constructionsight/ceqanet_recurring_run_service.py:856-870 | An attempt of one request that claims two failures and minus one success passes. |
| Counterexamples.RepeatedProjectIsRefused | src/constructionsight/ceqanet_persistence_preview.py:65-130 | A report with two records of one project gives a preview whose plan is refused. |

## Left out

- Hashing, JSON, ZIP containers, DEFLATE, `csv.reader`, text decoding, HTML parsing, URL splitting and regular expressions are fixed functions; only the laws a lemma names are assumed of them.
- `OperatorArchive` starts from decoded members, in directory order; how members are laid out as bytes, and the size of the compressed file, are fixed functions or hypotheses of `ArchiveContainer`.
- Names inside private staging directories, file descriptors, link and type checks on directory entries, and the unwinding of a failed replacement; a replacement is one atomic, durable step.
- BundleCommit.BundleDirectory.AcquireLock: does not model the lock's content, its file lock or the integrity checks on its entry; runs are sequential, so mutual exclusion between concurrent writers is not modelled either.
- HTTP transport, clocks and authorization decisions: a response, a trusted time and an authorized request are inputs of the step.
- EvidenceSeries.BuildSeries: takes the policy's own verification from registry, checklist, replay and maturity evidence as given; the policy's fields, window, thresholds and recomputed content are modelled.
- CsvLive.VerifyLive: the retained body is bytes, so the finding about undecodable Base64 is not modelled, nor is the repeated integrity check of an inspection just made, which cannot fail.
- The once-per-identity store of consumed effects, and running the listing planner and executor of recurring runs.
- Building a recurring-run definition from registry and checklist, and their drift: the outcome of that comparison is an input of the verifier.
- Timeouts are whole milliseconds.
- JSON floating-point numbers that Python compares equal to integers (such as `1.0`) are treated as other values.
- The reviewed bridge's checks on the retained execution and its replay before it reads rows; `CsvLive` models the replay itself.
- The models' optional fields: which payloads they accept, and what they make of them, is a parameter of `WritePlan` and its users.
- Watch triggers and timestamps of history events; the before and after values are modelled.
- The rest of the queue and inbox documents: fixed texts, digests and identifiers that are copied through. Keys that the inbox lists sorted are sets here.
- The assurance audit's other parts: modes, policy scalars, the review directory, resolved-commit ancestry (a parameter) and the list of referenced paths; several findings of one kind about an artifact's paths count as one.
- The other certification modules, the command lines, and the bid, agenda and document models.
