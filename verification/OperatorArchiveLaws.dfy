/** Builder and verifier agree: what the archive builder publishes from a verified bundle, its own
    verifier passes, with the one exception of filenames that carry surrounding whitespace. */
module OperatorArchiveLaws {
  import opened Base
  import opened Ordering
  import opened Text
  import opened BoundedReader
  import opened OperatorArchive

  // ---------- What a passed bundle verification says ----------

  function SizeIn(files: Files): string -> nat {
    name => if name in files then |files[name]| else 0
  }

  /** Every entry names a safe file that is there, small enough, and as claimed. */
  ghost predicate EntryHolds(codec: Codec, files: Files, entry: EntryJson) {
    && ClaimOf(entry).Some?
    && var claim := ClaimOf(entry).value;
    && SafeBasename(claim.filename) && claim.filename in files
    && |files[claim.filename]| <= MAX_MEMBER_BYTES
    && Compare(codec, claim, files[claim.filename]).status == Verified
  }

  ghost predicate EntriesHold(codec: Codec, files: Files, entries: seq<EntryJson>) {
    forall i :: 0 <= i < |entries| ==> EntryHolds(codec, files, entries[i])
  }

  function ClaimedName(entry: EntryJson): string {
    if ClaimOf(entry).Some? then ClaimOf(entry).value.filename else ""
  }

  function ClaimedNames(entries: seq<EntryJson>): seq<string> {
    if entries == [] then [] else [ClaimedName(entries[0])] + ClaimedNames(entries[1..])
  }

  lemma {:induction false} ClaimedNamesAt(entries: seq<EntryJson>)
    ensures |ClaimedNames(entries)| == |entries|
    ensures forall i :: 0 <= i < |entries| ==> ClaimedNames(entries)[i] == ClaimedName(entries[i])
  {
    if entries != [] {
      ClaimedNamesAt(entries[1..]);
    }
  }

  ghost predicate AllVerified(checks: Checks) {
    checks.malformed == 0 && forall a :: a in checks.artifacts ==> a.status == Verified
  }

  /** The check recorded the identity of the file it read. */
  ghost predicate ObservedIn(codec: Codec, files: Files, a: ArtifactCheck) {
    && a.status == Verified && a.filename in files
    && a.actualCount == |files[a.filename]| && a.actualSha256 == codec.sha256(files[a.filename])
  }

  lemma PassedEntry(codec: Codec, files: Files, entry: EntryJson, remaining: nat)
    requires VerifyBundleEntry(codec, files, entry, remaining).Ok?
    requires VerifyBundleEntry(codec, files, entry, remaining).value.0.Some?
    requires VerifyBundleEntry(codec, files, entry, remaining).value.0.value.status == Verified
    ensures EntryHolds(codec, files, entry)
    ensures var check := VerifyBundleEntry(codec, files, entry, remaining).value.0.value;
      ObservedIn(codec, files, check) && check.filename == ClaimedName(entry)
  {
  }

  /** What passed checks say of the entries and of what was read. */
  ghost predicate Passed(codec: Codec, files: Files, entries: seq<EntryJson>, checks: Checks, seen: set<string>) {
    && EntriesHold(codec, files, entries)
    && Distinct(ClaimedNames(entries)) && (forall n :: n in ClaimedNames(entries) ==> n !in seen)
    && VerifiedNames(checks.artifacts) == ClaimedNames(entries)
    && forall a :: a in checks.artifacts ==> ObservedIn(codec, files, a)
  }

  lemma PassedNext(codec: Codec, files: Files, entries: seq<EntryJson>, check: ArtifactCheck, rest: Checks,
                   seen: set<string>)
    requires entries != [] && EntryHolds(codec, files, entries[0]) && ObservedIn(codec, files, check)
    requires check.filename == ClaimedName(entries[0]) && check.filename !in seen
    requires Passed(codec, files, entries[1..], rest, seen + {check.filename})
    ensures Passed(codec, files, entries, Checks([check] + rest.artifacts, rest.malformed), seen)
  {
    assert forall i :: 0 < i < |entries| ==> entries[i] == entries[1..][i - 1];
    assert ClaimedNames(entries) == [check.filename] + ClaimedNames(entries[1..]);
  }

  lemma {:induction false} PassedBundleEntries(codec: Codec, files: Files, entries: seq<EntryJson>, remaining: nat,
                                               seen: set<string>)
    requires VerifyBundleEntries(codec, files, entries, remaining, seen).Ok?
    requires AllVerified(VerifyBundleEntries(codec, files, entries, remaining, seen).value)
    ensures Passed(codec, files, entries, VerifyBundleEntries(codec, files, entries, remaining, seen).value, seen)
    decreases |entries|
  {
    if entries != [] {
      var checks := VerifyBundleEntries(codec, files, entries, remaining, seen).value;
      var (one, left) := VerifyBundleEntry(codec, files, entries[0], remaining).value;
      assert one.Some?;
      var rest := VerifyBundleEntries(codec, files, entries[1..], left, seen + {one.value.filename}).value;
      assert checks.artifacts == [one.value] + rest.artifacts;
      assert one.value in checks.artifacts && forall a :: a in rest.artifacts ==> a in checks.artifacts;
      PassedEntry(codec, files, entries[0], remaining);
      PassedBundleEntries(codec, files, entries[1..], left, seen + {one.value.filename});
      PassedNext(codec, files, entries, one.value, rest, seen);
    }
  }

  // ---------- What the written members are ----------

  /** The file that was copied still has the identity observed when the bundle was verified. */
  ghost predicate Unchanged(codec: Codec, files: Files, expected: Identities, name: string) {
    && SafeBasename(name) && name in files && name in expected
    && |files[name]| <= MAX_MEMBER_BYTES
    && (|files[name]|, codec.sha256(files[name])) == expected[name]
  }

  lemma {:induction false} WrittenMembers(codec: Codec, files: Files, names: seq<string>, expected: Identities,
                                          remaining: nat)
    requires WriteMembers(codec, files, names, expected, remaining).Ok?
    ensures var members := WriteMembers(codec, files, names, expected, remaining).value;
      && |members| == |names|
      && (forall i :: 0 <= i < |names| ==> Unchanged(codec, files, expected, names[i]))
      && (forall i :: 0 <= i < |names| ==> members[i] == NewMember(names[i], files[names[i]]))
    ensures SumBy(SizeIn(files), names) <= remaining
    decreases |names|
  {
    if names != [] {
      var left := remaining - |files[names[0]]|;
      WrittenMembers(codec, files, names[1..], expected, left);
      assert forall i :: 0 < i < |names| ==> names[i] == names[1..][i - 1];
      var members := WriteMembers(codec, files, names, expected, remaining).value;
      assert members[1..] == WriteMembers(codec, files, names[1..], expected, left).value;
    }
  }

  /** Copying succeeds exactly when every file is unchanged and small enough, and all together fit the budget. */
  lemma {:induction false} WriteSucceedsIff(codec: Codec, files: Files, names: seq<string>, expected: Identities,
                                            remaining: nat)
    ensures WriteMembers(codec, files, names, expected, remaining).Ok? <==>
      (forall n :: n in names ==> Unchanged(codec, files, expected, n)) && SumBy(SizeIn(files), names) <= remaining
    decreases |names|
  {
    if names != [] {
      assert names == [names[0]] + names[1..];
      if Unchanged(codec, files, expected, names[0]) && |files[names[0]]| <= remaining {
        WriteSucceedsIff(codec, files, names[1..], expected, remaining - |files[names[0]]|);
      }
    }
  }

  function Identity(codec: Codec, data: Bytes): (nat, string) {
    (|data|, codec.sha256(data))
  }

  /** The recorded identities are those of the files as verified. */
  lemma {:induction false} RecordedIdentities(codec: Codec, files: Files, artifacts: seq<ArtifactCheck>)
    requires forall a :: a in artifacts ==> ObservedIn(codec, files, a)
    ensures forall name :: name in VerifiedContent(artifacts) ==>
      name in files && VerifiedContent(artifacts)[name] == Identity(codec, files[name])
  {
    if artifacts != [] {
      RecordedIdentities(codec, files, artifacts[..|artifacts| - 1]);
      assert artifacts[|artifacts| - 1] in artifacts;
    }
  }

  // ---------- Reading the archive back ----------

  lemma {:induction false} LookupFinds(members: seq<Member>, i: nat)
    requires i < |members| && Distinct(Names(members))
    ensures Lookup(members, members[i].name) == Some(members[i].content)
  {
    var front := members[..|members| - 1];
    assert forall j :: 0 <= j < |members| ==> Names(members)[j] == members[j].name;
    if i < |members| - 1 {
      assert forall j :: 0 <= j < |front| ==> Names(front)[j] == Names(members)[j];
      LookupFinds(front, i);
    }
  }

  /** Members hold what `files` held under the names they carry. */
  ghost predicate Holds(members: seq<Member>, files: Files, name: string) {
    name in files && Lookup(members, name) == Some(files[name])
  }

  lemma ArchivedEntryVerifies(codec: Codec, members: seq<Member>, files: Files, entry: EntryJson, remaining: nat)
    requires EntryHolds(codec, files, entry) && Holds(members, files, ClaimedName(entry))
    requires |files[ClaimedName(entry)]| <= remaining
    ensures var data := files[ClaimedName(entry)];
      VerifyArchiveEntry(codec, members, entry, remaining)
      == Ok((Some(Compare(codec, ClaimOf(entry).value, data)), remaining - |data|))
  {
  }

  ghost predicate ReadsVerified(r: Result<Checks, ArchiveError>) {
    r.Ok? && AllVerified(r.value)
  }

  lemma PrependVerified(check: ArtifactCheck, rest: Result<Checks, ArchiveError>)
    requires check.status == Verified && ReadsVerified(rest)
    ensures ReadsVerified(PrependChecks(OneCheck(Some(check), {}), rest))
  {
    forall a | a in [check] + rest.value.artifacts
      ensures a.status == Verified
    {
    }
  }

  ghost predicate AllHeld(members: seq<Member>, files: Files, entries: seq<EntryJson>) {
    forall i :: 0 <= i < |entries| ==> Holds(members, files, ClaimedName(entries[i]))
  }

  lemma HeldAfterFirst(codec: Codec, members: seq<Member>, files: Files, entries: seq<EntryJson>)
    requires entries != [] && EntriesHold(codec, files, entries) && AllHeld(members, files, entries)
    ensures EntryHolds(codec, files, entries[0]) && Holds(members, files, ClaimedName(entries[0]))
    ensures EntriesHold(codec, files, entries[1..]) && AllHeld(members, files, entries[1..])
  {
    assert forall i :: 0 <= i < |entries[1..]| ==> entries[1..][i] == entries[i + 1];
  }

  lemma NextArchiveEntry(codec: Codec, members: seq<Member>, entries: seq<EntryJson>, remaining: nat,
                         one: Option<ArtifactCheck>, left: nat)
    requires entries != [] && VerifyArchiveEntry(codec, members, entries[0], remaining) == Ok((one, left))
    ensures VerifyArchiveEntries(codec, members, entries, remaining)
         == PrependChecks(OneCheck(one, {}), VerifyArchiveEntries(codec, members, entries[1..], left))
  {
  }

  /** One verified entry in front of verified entries. */
  lemma NextEntryVerifies(codec: Codec, members: seq<Member>, entries: seq<EntryJson>, remaining: nat,
                          check: ArtifactCheck, left: nat)
    requires entries != [] && check.status == Verified
    requires VerifyArchiveEntry(codec, members, entries[0], remaining) == Ok((Some(check), left))
    requires ReadsVerified(VerifyArchiveEntries(codec, members, entries[1..], left))
    ensures ReadsVerified(VerifyArchiveEntries(codec, members, entries, remaining))
  {
    PrependVerified(check, VerifyArchiveEntries(codec, members, entries[1..], left));
    NextArchiveEntry(codec, members, entries, remaining, Some(check), left);
  }

  lemma FirstEntryVerifies(codec: Codec, members: seq<Member>, files: Files, entries: seq<EntryJson>, remaining: nat)
    requires entries != [] && EntryHolds(codec, files, entries[0]) && Holds(members, files, ClaimedName(entries[0]))
    requires |files[ClaimedName(entries[0])]| <= remaining
    requires ReadsVerified(VerifyArchiveEntries(codec, members, entries[1..],
                                                remaining - |files[ClaimedName(entries[0])]|))
    ensures ReadsVerified(VerifyArchiveEntries(codec, members, entries, remaining))
  {
    var data := files[ClaimedName(entries[0])];
    ArchivedEntryVerifies(codec, members, files, entries[0], remaining);
    NextEntryVerifies(codec, members, entries, remaining, Compare(codec, ClaimOf(entries[0]).value, data),
                      remaining - |data|);
  }

  /** What the first entry needs of the budget, and what it leaves. */
  lemma SizeOfFirst(files: Files, entries: seq<EntryJson>)
    requires entries != [] && ClaimedName(entries[0]) in files
    ensures SumBy(SizeIn(files), ClaimedNames(entries))
         == |files[ClaimedName(entries[0])]| + SumBy(SizeIn(files), ClaimedNames(entries[1..]))
  {
    assert ClaimedNames(entries) == [ClaimedName(entries[0])] + ClaimedNames(entries[1..]);
  }

  /** Entries that hold of the copied files verify against the members, whatever their order. */
  lemma {:induction false} ArchivedEntriesVerify(codec: Codec, members: seq<Member>, files: Files,
                                                 entries: seq<EntryJson>, remaining: nat)
    requires EntriesHold(codec, files, entries) && AllHeld(members, files, entries)
    requires SumBy(SizeIn(files), ClaimedNames(entries)) <= remaining
    ensures ReadsVerified(VerifyArchiveEntries(codec, members, entries, remaining))
    decreases |entries|
  {
    if entries != [] {
      HeldAfterFirst(codec, members, files, entries);
      SizeOfFirst(files, entries);
      ArchivedEntriesVerify(codec, members, files, entries[1..], remaining - |files[ClaimedName(entries[0])]|);
      FirstEntryVerifies(codec, members, files, entries, remaining);
    }
  }

  // ---------- The inventory ----------

  lemma {:induction false} ListedAt(codec: Codec, files: Files, entries: seq<EntryJson>)
    requires EntriesHold(codec, files, entries)
    ensures |Listed(entries)| == |entries|
    ensures forall i :: 0 <= i < |entries| ==>
      entries[i].EntryObject? && entries[i].filename.JString?
      && Listed(entries)[i] == entries[i].filename.text && ClaimedName(entries[i]) == Strip(Listed(entries)[i])
  {
    if entries != [] {
      assert EntryHolds(codec, files, entries[0]);
      assert forall i :: 0 <= i < |entries[1..]| ==> entries[1..][i] == entries[i + 1];
      ListedAt(codec, files, entries[1..]);
      assert Listed(entries) == [entries[0].filename.text] + Listed(entries[1..]);
    }
  }

  /** Every filename the manifest writes is free of surrounding whitespace. */
  ghost predicate TrimmedFilenames(entries: seq<EntryJson>) {
    forall e :: e in entries && e.EntryObject? && e.filename.JString? ==> Trimmed(e.filename.text)
  }

  lemma DistinctOccursOnce(s: seq<string>, x: string)
    requires Distinct(s)
    ensures multiset(s)[x] <= 1
  {
    DistinctCountsOnce((n: string) => n, s, x);
  }

  /** What is known when the inventory is compared: sound claims, and just their names plus the manifest. */
  ghost predicate InventoryContext(codec: Codec, files: Files, m: Manifest, names: seq<string>) {
    && EntriesHold(codec, files, m.entries) && CountAgrees(m)
    && Distinct(ClaimedNames(m.entries)) && MANIFEST !in ClaimedNames(m.entries)
    && forall n :: n in names <==> n in ClaimedNames(m.entries) || n == MANIFEST
  }

  lemma TrimmedInventoryIsClean(codec: Codec, files: Files, m: Manifest, names: seq<string>)
    requires InventoryContext(codec, files, m, names) && TrimmedFilenames(m.entries)
    ensures InventoryIssues(names, m) == {}
  {
    var entries, listed, claimed := m.entries, Listed(m.entries), ClaimedNames(m.entries);
    ListedAt(codec, files, entries);
    ClaimedNamesAt(entries);
    forall i | 0 <= i < |entries|
      ensures listed[i] == claimed[i]
    {
      assert entries[i] in entries;
      StripTrims(listed[i]);
    }
    assert listed == claimed;
    forall n
      ensures multiset(listed)[n] <= 1
    {
      DistinctOccursOnce(listed, n);
    }
  }

  lemma UntrimmedNameIsUnlisted(codec: Codec, files: Files, m: Manifest, names: seq<string>, i: nat)
    requires InventoryContext(codec, files, m, names)
    requires i < |m.entries| && m.entries[i].EntryObject? && m.entries[i].filename.JString?
    requires !Trimmed(m.entries[i].filename.text)
    ensures Unlisted(ClaimedName(m.entries[i])) in InventoryIssues(names, m)
  {
    var entries, listed, claimed := m.entries, Listed(m.entries), ClaimedNames(m.entries);
    ListedAt(codec, files, entries);
    ClaimedNamesAt(entries);
    var used := claimed[i];
    StripTrims(listed[i]);
    forall j | 0 <= j < |listed|
      ensures listed[j] != used
    {
      StripTrims(listed[j]);
      if j != i {
        assert claimed[j] != claimed[i];
      }
    }
    assert used in claimed;
  }

  /** The inventory is clean exactly when the manifest writes the names as they are used. */
  lemma InventoryCleanIff(codec: Codec, files: Files, m: Manifest, names: seq<string>)
    requires InventoryContext(codec, files, m, names)
    ensures InventoryIssues(names, m) == {} <==> TrimmedFilenames(m.entries)
  {
    if TrimmedFilenames(m.entries) {
      TrimmedInventoryIsClean(codec, files, m, names);
    } else {
      var e :| e in m.entries && e.EntryObject? && e.filename.JString? && !Trimmed(e.filename.text);
      var i :| 0 <= i < |m.entries| && m.entries[i] == e;
      UntrimmedNameIsUnlisted(codec, files, m, names, i);
    }
  }

  // ---------- Builder and verifier agree ----------

  lemma SafeBasenameIsSafePath(name: string)
    requires SafeBasename(name)
    ensures SafeRelativePath(name)
  {
    OnePart(name);
    assert name[0] in name && name[|name| - 1] in name;
  }

  /** Everything the builder established about the two readings of the directory. */
  ghost predicate Published(codec: Codec, first: Files, later: Files, m: Manifest, members: seq<Member>) {
    var names := ArchiveNames(ClaimedNames(m.entries));
    && MANIFEST in first && |first[MANIFEST]| <= MAX_MANIFEST_BYTES && codec.decode(first[MANIFEST]) == Some(m)
    && CountAgrees(m) && Distinct(ClaimedNames(m.entries))
    && EntriesHold(codec, first, m.entries)
    && |names| <= MAX_ENTRIES && |members| == |names|
    && (forall i :: 0 <= i < |names| ==>
          && SafeBasename(names[i]) && names[i] in later && names[i] in first
          && |later[names[i]]| <= MAX_MEMBER_BYTES
          && Identity(codec, later[names[i]]) == Identity(codec, first[names[i]])
          && members[i] == NewMember(names[i], later[names[i]]))
    && SumBy(SizeIn(later), names) <= MAX_TOTAL_BYTES
  }

  /** What a selection from a verified bundle is. */
  lemma SelectedFromVerified(codec: Codec, first: Files)
    requires Select(codec, first, true).Ok?
    ensures MANIFEST in first && |first[MANIFEST]| <= MAX_MANIFEST_BYTES && codec.decode(first[MANIFEST]).Some?
    ensures var m, s := codec.decode(first[MANIFEST]).value, Select(codec, first, true).value;
      && CountAgrees(m) && Distinct(ClaimedNames(m.entries)) && EntriesHold(codec, first, m.entries)
      && s.names == ArchiveNames(ClaimedNames(m.entries))
      && forall name :: name in s.expected ==> name in first && s.expected[name] == Identity(codec, first[name])
  {
    var m := codec.decode(first[MANIFEST]).value;
    var checks := VerifyBundleEntries(codec, first, m.entries, MAX_TOTAL_BYTES, {}).value;
    PassedBundleEntries(codec, first, m.entries, MAX_TOTAL_BYTES, {});
    RecordedIdentities(codec, first, checks.artifacts);
  }

  lemma BuiltFromVerified(codec: Codec, first: Files, later: Files)
    requires BuildArchive(codec, first, later, true).Ok?
    ensures MANIFEST in first && codec.decode(first[MANIFEST]).Some?
    ensures Published(codec, first, later, codec.decode(first[MANIFEST]).value,
                      BuildArchive(codec, first, later, true).value)
  {
    var s := Select(codec, first, true).value;
    SelectedFromVerified(codec, first);
    WrittenMembers(codec, later, s.names, s.expected, MAX_TOTAL_BYTES);
  }

  lemma {:induction false} RecordedNames(artifacts: seq<ArtifactCheck>)
    requires forall a :: a in artifacts ==> a.status == Verified && |a.actualSha256| == 64
    ensures forall n :: n in VerifiedNames(artifacts) ==> n in VerifiedContent(artifacts)
  {
    if artifacts != [] {
      var k := |artifacts| - 1;
      assert artifacts == artifacts[..k] + [artifacts[k]] && artifacts[k] in artifacts;
      RecordedNames(artifacts[..k]);
      VerifiedNamesAppend(artifacts[..k], artifacts[k]);
    }
  }

  lemma {:induction false} VerifiedNamesAppend(front: seq<ArtifactCheck>, last: ArtifactCheck)
    ensures VerifiedNames(front + [last])
         == VerifiedNames(front) + if last.status == Verified then [last.filename] else []
  {
    if front == [] {
      assert [] + [last] == [last] && [last][1..] == [];
    } else {
      assert (front + [last])[0] == front[0] && (front + [last])[1..] == front[1..] + [last];
      VerifiedNamesAppend(front[1..], last);
    }
  }

  lemma ManifestIsABasename()
    ensures SafeBasename(MANIFEST)
  {
    assert |MANIFEST| == 13;
  }

  lemma ArchivedName(names: seq<string>, n: string)
    requires n in ArchiveNames(names)
    ensures n in names || n == MANIFEST
  {
    var all := if MANIFEST in names then names else names + [MANIFEST];
    SortedIsPermutation(TextKey, all);
    assert n in multiset(ArchiveNames(names)) && n in multiset(all);
  }

  /** What passing says of the checks: everything claimed was verified, and its identity recorded. */
  lemma SelectedFromPassing(codec: Codec, files: Files)
    requires VerifyBundle(codec, files).Ok? && VerifyBundle(codec, files).value.Passed()
    requires forall content :: |codec.sha256(content)| == 64
    ensures Select(codec, files, true).Ok?
    ensures var entries := codec.decode(files[MANIFEST]).value.entries;
      && EntriesHold(codec, files, entries)
      && Select(codec, files, true).value.names == ArchiveNames(ClaimedNames(entries))
      && forall n :: n in ClaimedNames(entries) || n == MANIFEST ==> n in Select(codec, files, true).value.expected
  {
    var entries := codec.decode(files[MANIFEST]).value.entries;
    var checks := VerifyBundleEntries(codec, files, entries, MAX_TOTAL_BYTES, {}).value;
    PassedBundleEntries(codec, files, entries, MAX_TOTAL_BYTES, {});
    RecordedNames(checks.artifacts);
  }

  lemma ClaimedFileIsSafe(codec: Codec, files: Files, entries: seq<EntryJson>, n: string)
    requires EntriesHold(codec, files, entries) && n in ClaimedNames(entries)
    ensures SafeBasename(n) && n in files && |files[n]| <= MAX_MEMBER_BYTES
  {
    ClaimedNamesAt(entries);
    var i :| 0 <= i < |entries| && ClaimedNames(entries)[i] == n;
    assert EntryHolds(codec, files, entries[i]);
  }

  /** So the names and identities selected from a bundle that passes are those of its files. */
  lemma SelectedUnchanged(codec: Codec, files: Files)
    requires VerifyBundle(codec, files).Ok? && VerifyBundle(codec, files).value.Passed()
    requires forall content :: |codec.sha256(content)| == 64
    ensures Select(codec, files, true).Ok?
    ensures var s := Select(codec, files, true).value;
      && s.names == ArchiveNames(ClaimedNames(codec.decode(files[MANIFEST]).value.entries))
      && forall n :: n in s.names ==> Unchanged(codec, files, s.expected, n)
  {
    var entries := codec.decode(files[MANIFEST]).value.entries;
    SelectedFromPassing(codec, files);
    SelectedFromVerified(codec, files);
    ManifestIsABasename();
    var s := Select(codec, files, true).value;
    forall n | n in s.names
      ensures Unchanged(codec, files, s.expected, n)
    {
      ArchivedName(ClaimedNames(entries), n);
      if n in ClaimedNames(entries) {
        ClaimedFileIsSafe(codec, files, entries, n);
      }
    }
  }

  /** A bundle that passes and does not change is archived exactly when its files, the manifest among them, fit
      the limits on number and total, and the compressed file fits its own. */
  lemma UnchangedBundleIsArchivedIff(codec: Codec, files: Files)
    requires VerifyBundle(codec, files).Ok? && VerifyBundle(codec, files).value.Passed()
    requires forall content :: |codec.sha256(content)| == 64
    ensures Select(codec, files, true).Ok?
    ensures var s := Select(codec, files, true).value;
      BuildArchive(codec, files, files, true).Ok? <==>
        && |s.names| <= MAX_ENTRIES && SumBy(SizeIn(files), s.names) <= MAX_TOTAL_BYTES
        && var written := WriteMembers(codec, files, s.names, s.expected, MAX_TOTAL_BYTES);
           written.Ok? ==> codec.zipSize(written.value) <= MAX_FILE_BYTES
  {
    SelectedUnchanged(codec, files);
    var s := Select(codec, files, true).value;
    WriteSucceedsIff(codec, files, s.names, s.expected, MAX_TOTAL_BYTES);
    if WriteMembers(codec, files, s.names, s.expected, MAX_TOTAL_BYTES).Ok? {
      StagedCheckIsTheSizeCheck(codec, files, s.names, s.expected);
    }
  }

  /** Reading back what was written never disagrees: of the builder's checks of its own staged archive only
      the size of the compressed file can refuse it. */
  lemma {:induction false} StagedMembersAgree(codec: Codec, files: Files, names: seq<string>, expected: Identities,
                                              remaining: nat)
    requires WriteMembers(codec, files, names, expected, remaining).Ok?
    ensures VerifyStagedMembers(codec, WriteMembers(codec, files, names, expected, remaining).value, expected,
                                remaining) == None
    decreases |names|
  {
    if names != [] {
      var left := remaining - |files[names[0]]|;
      StagedMembersAgree(codec, files, names[1..], expected, left);
      var members := WriteMembers(codec, files, names, expected, remaining).value;
      assert members[1..] == WriteMembers(codec, files, names[1..], expected, left).value;
    }
  }

  lemma StagedCheckIsTheSizeCheck(codec: Codec, files: Files, names: seq<string>, expected: Identities)
    requires WriteMembers(codec, files, names, expected, MAX_TOTAL_BYTES).Ok?
    ensures var members := WriteMembers(codec, files, names, expected, MAX_TOTAL_BYTES).value;
      VerifyStaged(codec, members, names, expected)
      == if codec.zipSize(members) > MAX_FILE_BYTES then Some(ArchiveTooLarge) else None
  {
    var members := WriteMembers(codec, files, names, expected, MAX_TOTAL_BYTES).value;
    WrittenMembers(codec, files, names, expected, MAX_TOTAL_BYTES);
    StagedMembersAgree(codec, files, names, expected, MAX_TOTAL_BYTES);
    assert Names(members) == names;
  }

  /** The archived names: the claimed ones and the manifest, each once. */
  lemma ArchivedNames(claimed: seq<string>)
    requires Distinct(claimed) && MANIFEST !in claimed
    ensures var names := ArchiveNames(claimed);
      && Distinct(names)
      && (forall n :: n in names <==> n in claimed || n == MANIFEST)
      && multiset(names) == multiset(claimed + [MANIFEST])
  {
    var names := ArchiveNames(claimed);
    var self := (n: string) => n;
    SortedIsPermutation(TextKey, claimed + [MANIFEST]);
    PermutationKeepsDistinctKeys(self, claimed + [MANIFEST], names);
    assert forall i, j :: 0 <= i < j < |names| ==> self(names[i]) != self(names[j]);
    forall n
      ensures n in names <==> n in claimed || n == MANIFEST
    {
      assert n in names <==> n in multiset(names);
      assert n in claimed + [MANIFEST] <==> n in multiset(claimed + [MANIFEST]);
    }
  }

  lemma {:induction false} SameSizes(members: seq<Member>, files: Files, names: seq<string>)
    requires |members| == |names|
    requires forall i :: 0 <= i < |names| ==> names[i] in files && members[i] == NewMember(names[i], files[names[i]])
    ensures SumBy(ContentSize, members) == SumBy(SizeIn(files), names)
  {
    if names != [] {
      SameSizes(members[1..], files, names[1..]);
    }
  }

  lemma MemberNames(codec: Codec, first: Files, later: Files, m: Manifest, members: seq<Member>)
    requires Published(codec, first, later, m, members)
    ensures Names(members) == ArchiveNames(ClaimedNames(m.entries))
    ensures forall e :: e in members ==> DeterministicEntry(e) && |e.content| <= MAX_MEMBER_BYTES
  {
    var names := ArchiveNames(ClaimedNames(m.entries));
    forall e | e in members
      ensures DeterministicEntry(e) && |e.content| <= MAX_MEMBER_BYTES
    {
      var i :| 0 <= i < |members| && members[i] == e;
      SafeBasenameIsSafePath(names[i]);
    }
  }

  /** A reader finds, under each archived name, the file that was copied. */
  lemma MembersHoldFiles(members: seq<Member>, files: Files, names: seq<string>)
    requires |members| == |names| && Distinct(names) && Names(members) == names
    requires forall i :: 0 <= i < |names| ==> names[i] in files && members[i] == NewMember(names[i], files[names[i]])
    ensures forall n :: n in names ==> Holds(members, files, n)
  {
    forall n | n in names
      ensures Holds(members, files, n)
    {
      var i :| 0 <= i < |names| && names[i] == n;
      LookupFinds(members, i);
    }
  }

  /** Copied files satisfy the entries the verified files satisfied: equal sizes and digests are all the
      entries speak of. */
  lemma CopiedEntriesHold(codec: Codec, first: Files, later: Files, m: Manifest, members: seq<Member>)
    requires Published(codec, first, later, m, members) && MANIFEST !in ClaimedNames(m.entries)
    ensures EntriesHold(codec, later, m.entries)
    ensures MANIFEST in later && MANIFEST in first
    ensures Identity(codec, later[MANIFEST]) == Identity(codec, first[MANIFEST])
    ensures SumBy(SizeIn(later), ClaimedNames(m.entries)) + |later[MANIFEST]| <= MAX_TOTAL_BYTES
  {
    var claimed := ClaimedNames(m.entries);
    var names := ArchiveNames(claimed);
    ArchivedNames(claimed);
    ClaimedNamesAt(m.entries);
    forall n | n in names
      ensures n in later && n in first && Identity(codec, later[n]) == Identity(codec, first[n])
    {
      var i :| 0 <= i < |names| && names[i] == n;
    }
    forall i | 0 <= i < |m.entries|
      ensures EntryHolds(codec, later, m.entries[i])
    {
      assert EntryHolds(codec, first, m.entries[i]);
      assert claimed[i] in claimed;
    }
    SumIgnoresOrder(SizeIn(later), names, claimed + [MANIFEST]);
    SumAppend(SizeIn(later), claimed, MANIFEST);
  }

  /** Reading members back reaches the inventory with every entry verified. */
  lemma ReadBack(codec: Codec, members: seq<Member>, files: Files, m: Manifest)
    requires MANIFEST in files && |files[MANIFEST]| <= MAX_MANIFEST_BYTES
    requires codec.decode(files[MANIFEST]) == Some(m)
    requires EntriesHold(codec, files, m.entries)
    requires forall i :: 0 <= i < |m.entries| ==> Holds(members, files, ClaimedName(m.entries[i]))
    requires SumBy(SizeIn(files), ClaimedNames(m.entries)) + |files[MANIFEST]| <= MAX_TOTAL_BYTES
    ensures var r := VerifyContents(codec, members, files[MANIFEST]);
      && r.Ok? && r.value.manifestVerified && AllVerified(r.value.checks)
      && r.value.duplicates == !Distinct(Names(members))
      && r.value.issues == MetadataIssues(members) + InventoryIssues(Names(members), m)
  {
    ArchivedEntriesVerify(codec, members, files, m.entries, MAX_TOTAL_BYTES - |files[MANIFEST]|);
  }

  /** What a reader of the members holds: unique names, found contents, nothing over a limit. */
  lemma PublishedIsReadable(codec: Codec, first: Files, later: Files, m: Manifest, members: seq<Member>)
    requires Published(codec, first, later, m, members) && MANIFEST !in ClaimedNames(m.entries)
    ensures Distinct(Names(members)) && WithinLimits(members) && MetadataIssues(members) == {}
    ensures Holds(members, later, MANIFEST)
    ensures forall i :: 0 <= i < |m.entries| ==> Holds(members, later, ClaimedName(m.entries[i]))
    ensures forall n :: n in Names(members) <==> n in ClaimedNames(m.entries) || n == MANIFEST
  {
    var names := ArchiveNames(ClaimedNames(m.entries));
    MemberNames(codec, first, later, m, members);
    ArchivedNames(ClaimedNames(m.entries));
    MembersHoldFiles(members, later, names);
    SameSizes(members, later, names);
    ClaimedNamesAt(m.entries);
    forall i | 0 <= i < |m.entries|
      ensures Holds(members, later, ClaimedName(m.entries[i]))
    {
      assert ClaimedNames(m.entries)[i] in ClaimedNames(m.entries);
    }
  }

  lemma PublishedVerifies(codec: Codec, first: Files, later: Files, m: Manifest, members: seq<Member>)
    requires Published(codec, first, later, m, members) && MANIFEST !in ClaimedNames(m.entries)
    requires codec.zipSize(members) <= MAX_FILE_BYTES
    requires MANIFEST in later && codec.sha256(later[MANIFEST]) == codec.sha256(first[MANIFEST]) ==>
               later[MANIFEST] == first[MANIFEST]
    ensures VerifyArchive(codec, members).Ok?
    ensures VerifyArchive(codec, members).value.Passed() <==> TrimmedFilenames(m.entries)
  {
    PublishedIsReadable(codec, first, later, m, members);
    CopiedEntriesHold(codec, first, later, m, members);
    ReadBack(codec, members, later, m);
    InventoryCleanIff(codec, later, m, Names(members));
    assert VerifyArchive(codec, members) == VerifyContents(codec, members, later[MANIFEST]);
  }

  /** Builder and verifier agree. An archive built from a bundle that had to verify, with files that may
      have changed between verification and copying and a manifest that does not list itself, is read
      back without error, and passes exactly when the manifest writes its filenames without surrounding
      whitespace: the bundle verifier and the builder strip them, the archive inventory does not. Of the
      hash only this is assumed: it does not collide on the two readings of the manifest. */
  lemma ArchivePassesIff(codec: Codec, first: Files, later: Files)
    requires BuildArchive(codec, first, later, true).Ok? && MANIFEST in first
    requires MANIFEST in later && codec.sha256(later[MANIFEST]) == codec.sha256(first[MANIFEST]) ==>
               later[MANIFEST] == first[MANIFEST]
    requires codec.decode(first[MANIFEST]).Some?
    requires MANIFEST !in ClaimedNames(codec.decode(first[MANIFEST]).value.entries)
    ensures var members := BuildArchive(codec, first, later, true).value;
      && VerifyArchive(codec, members).Ok?
      && (VerifyArchive(codec, members).value.Passed()
          <==> TrimmedFilenames(codec.decode(first[MANIFEST]).value.entries))
  {
    BuiltFromVerified(codec, first, later);
    PublishedVerifies(codec, first, later, codec.decode(first[MANIFEST]).value,
                      BuildArchive(codec, first, later, true).value);
  }

  /** In particular a bundle that passes and does not change, but writes some filename with surrounding
      whitespace, is published as an archive that does not pass. */
  lemma UntrimmedBundleIsPublished(codec: Codec, files: Files)
    requires VerifyBundle(codec, files).Ok? && VerifyBundle(codec, files).value.Passed()
    requires BuildArchive(codec, files, files, true).Ok?
    requires var entries := codec.decode(files[MANIFEST]).value.entries;
      MANIFEST !in ClaimedNames(entries) && !TrimmedFilenames(entries)
    ensures var members := BuildArchive(codec, files, files, true).value;
      VerifyArchive(codec, members).Ok? && !VerifyArchive(codec, members).value.Passed()
  {
    ArchivePassesIff(codec, files, files);
  }
}
