/** Verifying an operator bundle, archiving it, and verifying the archive. The bundle is read once when it
    is verified and again when its files are copied; the files may change in between. */
module OperatorArchive {
  import opened Base
  import opened Ordering
  import opened Text
  import opened BoundedReader

  const MANIFEST := "manifest.json"
  const MAX_MANIFEST_BYTES := 1024 * 1024
  const MAX_MEMBER_BYTES := 16 * 1024 * 1024
  const MAX_TOTAL_BYTES := 64 * 1024 * 1024
  const MAX_FILE_BYTES := 128 * 1024 * 1024
  const MAX_ENTRIES := 128

  type Files = map<string, Bytes>

  datatype EntryJson =
    | NotAnObject
    | EntryObject(filename: Json, artifactType: Json, sha256: Json, byteCount: Json)

  datatype Manifest = Manifest(artifactCount: Option<Json>, entries: seq<EntryJson>)

  /** The hash function, the manifest that bytes decode to when they are one of the supported schema, and the
      size of the compressed archive that holds some members. */
  datatype Codec = Codec(
    sha256: Bytes -> string,
    decode: Bytes -> Option<Manifest>,
    zipSize: seq<Member> -> nat)

  datatype ArchiveError =
    | ManifestUnreadable
    | TooManyEntries
    | UnsafeName
    | DeclaredTooLarge
    | ReadLimit
    | DuplicateNames
    | NotVerified
    | SourceMissing
    | NoIdentity
    | SourceChanged
    | MemberTooLargeInDirectory
    | ArchiveTooLarge
    | InventoryDiffers
    | StagedDiffers

  datatype Status = Verified | Missing | Mismatch

  datatype ArtifactCheck = ArtifactCheck(
    filename: string,
    actualSha256: string,
    actualCount: nat,
    status: Status)

  // ---------- Checks shared by the bundle and the archive verifier ----------

  /** What an entry claims, when it names a file, a type and a digest. */
  datatype Claim = Claim(filename: string, sha256: string, byteCount: Option<int>)

  function ClaimOf(entry: EntryJson): Option<Claim> {
    match entry
    case NotAnObject => None
    case EntryObject(filename, artifactType, sha256, byteCount) =>
      if StringOrNone(filename).Some? && StringOrNone(artifactType).Some? && StringOrNone(sha256).Some? then
        Some(Claim(StringOrNone(filename).value, StringOrNone(sha256).value, IntOrNone(byteCount)))
      else None
  }

  /** The manifest's own count, when it states one, is the integer number of its entries. */
  predicate CountAgrees(m: Manifest) {
    m.artifactCount.Some? ==> m.artifactCount.value == JInt(|m.entries|)
  }

  function Compare(codec: Codec, claim: Claim, data: Bytes): ArtifactCheck {
    var same := codec.sha256(data) == claim.sha256 && (claim.byteCount.Some? ==> claim.byteCount.value == |data|);
    ArtifactCheck(claim.filename, codec.sha256(data), |data|, if same then Verified else Mismatch)
  }

  // ---------- Bundle verification ----------

  predicate SafeBasename(name: string) {
    name !in {"", ".", ".."} && '/' !in name && '\\' !in name && (0 as char) !in name
  }

  /** One entry against the directory; `None` marks it malformed. */
  function VerifyBundleEntry(codec: Codec, files: Files, entry: EntryJson, remaining: nat)
    : (r: Result<(Option<ArtifactCheck>, nat), ArchiveError>)
  {
    match ClaimOf(entry)
    case None => Ok((None, remaining))
    case Some(claim) =>
      if !SafeBasename(claim.filename) then Err(UnsafeName)
      else if claim.byteCount.Some? && claim.byteCount.value > MAX_MEMBER_BYTES then Err(DeclaredTooLarge)
      else if claim.filename !in files then Ok((Some(ArtifactCheck(claim.filename, "", 0, Missing)), remaining))
      else
        match BoundedRead(files[claim.filename], MAX_MEMBER_BYTES, remaining)
        case Err(_) => Err(ReadLimit)
        case Ok(data) => Ok((Some(Compare(codec, claim, data)), remaining - |data|))
  }

  datatype Checks = Checks(artifacts: seq<ArtifactCheck>, malformed: nat)

  /** What one entry adds to the checks. */
  function OneCheck(one: Option<ArtifactCheck>, seen: set<string>): Checks {
    match one
    case None => Checks([], 1)
    case Some(check) => Checks([check], if check.filename in seen then 1 else 0)
  }

  function SeenAfter(one: Option<ArtifactCheck>, seen: set<string>): set<string> {
    if one.Some? then seen + {one.value.filename} else seen
  }

  function PrependChecks(front: Checks, r: Result<Checks, ArchiveError>): Result<Checks, ArchiveError> {
    match r
    case Err(error) => Err(error)
    case Ok(rest) => Ok(Checks(front.artifacts + rest.artifacts, front.malformed + rest.malformed))
  }

  function VerifyBundleEntries(codec: Codec, files: Files, entries: seq<EntryJson>, remaining: nat, seen: set<string>)
    : Result<Checks, ArchiveError>
    decreases |entries|
  {
    if entries == [] then Ok(Checks([], 0))
    else
      match VerifyBundleEntry(codec, files, entries[0], remaining)
      case Err(error) => Err(error)
      case Ok((one, left)) =>
        PrependChecks(OneCheck(one, seen),
                      VerifyBundleEntries(codec, files, entries[1..], left, SeenAfter(one, seen)))
  }

  datatype BundleVerification = BundleVerification(
    manifestBytes: Bytes,
    artifacts: seq<ArtifactCheck>,
    malformed: nat)
  {
    predicate Passed() {
      malformed == 0 && forall a :: a in artifacts ==> a.status == Verified
    }
  }

  function VerifyBundle(codec: Codec, files: Files): Result<BundleVerification, ArchiveError> {
    if MANIFEST !in files || |files[MANIFEST]| > MAX_MANIFEST_BYTES || codec.decode(files[MANIFEST]) == None then
      Err(ManifestUnreadable)
    else
      var m := codec.decode(files[MANIFEST]).value;
      if |m.entries| > MAX_ENTRIES then Err(TooManyEntries)
      else
        match VerifyBundleEntries(codec, files, m.entries, MAX_TOTAL_BYTES, {})
        case Err(error) => Err(error)
        case Ok(checks) =>
          Ok(BundleVerification(
            files[MANIFEST], checks.artifacts, checks.malformed + if CountAgrees(m) then 0 else 1))
  }

  // ---------- Archive creation ----------

  datatype Member = Member(name: string, content: Bytes, timestamp: seq<int>, deflated: bool, attributes: int)

  const TIMESTAMP := [2026, 1, 1, 0, 0, 0]
  const EXTERNAL_ATTRIBUTES := 0x81A4 * 0x1_0000

  function NewMember(name: string, content: Bytes): Member {
    Member(name, content, TIMESTAMP, true, EXTERNAL_ATTRIBUTES)
  }

  /** Byte identity of a file as the bundle verifier observed it. */
  type Identities = map<string, (nat, string)>

  function VerifiedNames(artifacts: seq<ArtifactCheck>): seq<string> {
    if artifacts == [] then []
    else (if artifacts[0].status == Verified then [artifacts[0].filename] else []) + VerifiedNames(artifacts[1..])
  }

  function ArchiveNames(names: seq<string>): seq<string> {
    SortedBy(TextKey, if MANIFEST in names then names else names + [MANIFEST])
  }

  /** The last observation of each file that was there; a digest is 64 characters. */
  function VerifiedContent(artifacts: seq<ArtifactCheck>): Identities {
    if artifacts == [] then map[]
    else
      var last := artifacts[|artifacts| - 1];
      var before := VerifiedContent(artifacts[..|artifacts| - 1]);
      if last.status == Missing || |last.actualSha256| != 64 then before
      else before[last.filename := (last.actualCount, last.actualSha256)]
  }

  function WriteMembers(codec: Codec, files: Files, names: seq<string>, expected: Identities, remaining: nat)
    : Result<seq<Member>, ArchiveError>
    decreases |names|
  {
    if names == [] then Ok([])
    else
      var name := names[0];
      if !SafeBasename(name) then Err(UnsafeName)
      else if name !in files then Err(SourceMissing)
      else if name !in expected then Err(NoIdentity)
      else
        match BoundedRead(files[name], MAX_MEMBER_BYTES, remaining)
        case Err(_) => Err(ReadLimit)
        case Ok(data) =>
          if (|data|, codec.sha256(data)) != expected[name] then Err(SourceChanged)
          else
            match WriteMembers(codec, files, names[1..], expected, remaining - |data|)
            case Err(error) => Err(error)
            case Ok(rest) => Ok([NewMember(name, data)] + rest)
  }

  /** The staged archive is read back, member by member, and compared with what was verified. */
  function VerifyStagedMembers(codec: Codec, members: seq<Member>, expected: Identities, remaining: nat)
    : Option<ArchiveError>
    decreases |members|
  {
    if members == [] then None
    else
      var m := members[0];
      if m.name !in expected then Some(NoIdentity)
      else if |m.content| > MAX_MEMBER_BYTES then Some(MemberTooLargeInDirectory)
      else
        match BoundedRead(m.content, MAX_MEMBER_BYTES, remaining)
        case Err(_) => Some(ReadLimit)
        case Ok(data) =>
          if (|data|, codec.sha256(data)) != expected[m.name] then Some(StagedDiffers)
          else VerifyStagedMembers(codec, members[1..], expected, remaining - |data|)
  }

  function VerifyStaged(codec: Codec, members: seq<Member>, names: seq<string>, expected: Identities)
    : Option<ArchiveError>
  {
    if codec.zipSize(members) > MAX_FILE_BYTES then Some(ArchiveTooLarge)
    else if Names(members) != names then Some(InventoryDiffers)
    else VerifyStagedMembers(codec, members, expected, MAX_TOTAL_BYTES)
  }

  /** What an archive is built from: the names in order, and the identities seen when the bundle was verified. */
  datatype Selection = Selection(names: seq<string>, expected: Identities)

  function Select(codec: Codec, files: Files, requireVerified: bool): Result<Selection, ArchiveError> {
    match VerifyBundle(codec, files)
    case Err(error) => Err(error)
    case Ok(v) =>
      var names := VerifiedNames(v.artifacts);
      if !Distinct(names) then Err(DuplicateNames)
      else if requireVerified && !v.Passed() then Err(NotVerified)
      else
        Ok(Selection(ArchiveNames(names),
                     VerifiedContent(v.artifacts)[MANIFEST := (|v.manifestBytes|, codec.sha256(v.manifestBytes))]))
  }

  /** `first` is the directory as verified, `later` the directory as copied. */
  function BuildArchive(codec: Codec, first: Files, later: Files, requireVerified: bool)
    : Result<seq<Member>, ArchiveError>
  {
    match Select(codec, first, requireVerified)
    case Err(error) => Err(error)
    case Ok(s) =>
      if |s.names| > MAX_ENTRIES then Err(TooManyEntries)
      else
        match WriteMembers(codec, later, s.names, s.expected, MAX_TOTAL_BYTES)
        case Err(error) => Err(error)
        case Ok(members) =>
          match VerifyStaged(codec, members, s.names, s.expected)
          case Some(error) => Err(error)
          case None => Ok(members)
  }

  /** The copying loop: files are streamed into members under the shared budget, and compared with what
      was verified before the next one is opened. */
  method WriteZip(codec: Codec, files: Files, names: seq<string>, expected: Identities)
    returns (r: Result<seq<Member>, ArchiveError>)
    ensures r == WriteMembers(codec, files, names, expected, MAX_TOTAL_BYTES)
  {
    var members: seq<Member> := [];
    var budget := new ByteBudget(MAX_TOTAL_BYTES);
    assert names[0..] == names;
    ghost var whole := WriteMembers(codec, files, names, expected, MAX_TOTAL_BYTES);
    PrependNoMembers(whole);
    for i := 0 to |names|
      invariant budget.remaining >= 0
      invariant whole == PrependMembers(members, WriteMembers(codec, files, names[i..], expected, budget.remaining))
    {
      var name := names[i];
      assert names[i..][0] == name && names[i..][1..] == names[i + 1..];
      if !SafeBasename(name) { return Err(UnsafeName); }
      if name !in files { return Err(SourceMissing); }
      if name !in expected { return Err(NoIdentity); }
      var stream := new ByteStream(files[name]);
      var data := ReadMember(stream, MAX_MEMBER_BYTES, budget);
      match data {
        case Err(_) => return Err(ReadLimit);
        case Ok(content) =>
          if (|content|, codec.sha256(content)) != expected[name] { return Err(SourceChanged); }
          PrependMember(members, NewMember(name, content),
                        WriteMembers(codec, files, names[i + 1..], expected, budget.remaining));
          members := members + [NewMember(name, content)];
      }
    }
    assert members + [] == members;
    r := Ok(members);
  }

  /** The staged archive's check, over the whole budget again. */
  method CheckStagedZip(codec: Codec, members: seq<Member>, names: seq<string>, expected: Identities)
    returns (r: Option<ArchiveError>)
    ensures r == VerifyStaged(codec, members, names, expected)
  {
    if codec.zipSize(members) > MAX_FILE_BYTES { return Some(ArchiveTooLarge); }
    if Names(members) != names { return Some(InventoryDiffers); }
    var budget := new ByteBudget(MAX_TOTAL_BYTES);
    assert members[0..] == members;
    for i := 0 to |members|
      invariant budget.remaining >= 0
      invariant VerifyStagedMembers(codec, members, expected, MAX_TOTAL_BYTES)
             == VerifyStagedMembers(codec, members[i..], expected, budget.remaining)
    {
      var m := members[i];
      assert members[i..][0] == m && members[i..][1..] == members[i + 1..];
      if m.name !in expected { return Some(NoIdentity); }
      if |m.content| > MAX_MEMBER_BYTES { return Some(MemberTooLargeInDirectory); }
      var stream := new ByteStream(m.content);
      var data := ReadMember(stream, MAX_MEMBER_BYTES, budget);
      if data.Err? { return Some(ReadLimit); }
      if (|data.value|, codec.sha256(data.value)) != expected[m.name] { return Some(StagedDiffers); }
    }
    r := None;
  }

  function PrependMembers(front: seq<Member>, r: Result<seq<Member>, ArchiveError>): Result<seq<Member>, ArchiveError> {
    match r case Err(error) => Err(error) case Ok(rest) => Ok(front + rest)
  }

  lemma PrependNoMembers(r: Result<seq<Member>, ArchiveError>)
    ensures PrependMembers([], r) == r
  {
    if r.Ok? { assert [] + r.value == r.value; }
  }

  lemma PrependMember(front: seq<Member>, m: Member, r: Result<seq<Member>, ArchiveError>)
    ensures PrependMembers(front, PrependMembers([m], r)) == PrependMembers(front + [m], r)
  {
    if r.Ok? { assert front + ([m] + r.value) == front + [m] + r.value; }
  }

  // ---------- Archive verification ----------

  function Names(members: seq<Member>): seq<string> {
    seq(|members|, i requires 0 <= i < |members| => members[i].name)
  }

  /** Opening a name finds its last member. */
  function Lookup(members: seq<Member>, name: string): Option<Bytes> {
    if members == [] then None
    else
      var last := members[|members| - 1];
      if last.name == name then Some(last.content) else Lookup(members[..|members| - 1], name)
  }

  datatype Issue =
    | DuplicateListed(name: string)
    | CountMismatch
    | Unlisted(name: string)
    | EntryMetadata(name: string)

  /** The filenames a manifest lists, exactly as written. */
  function Listed(entries: seq<EntryJson>): seq<string> {
    if entries == [] then []
    else
      (if entries[0].EntryObject? && entries[0].filename.JString? then [entries[0].filename.text] else [])
      + Listed(entries[1..])
  }

  function InventoryIssues(names: seq<string>, m: Manifest): set<Issue> {
    var listed := Listed(m.entries);
    (set name | name in listed && multiset(listed)[name] > 1 :: DuplicateListed(name))
    + (if CountAgrees(m) then {} else {CountMismatch})
    + (set name | name in names && name !in listed && name != MANIFEST :: Unlisted(name))
  }

  predicate SafeRelativePath(name: string) {
    name != "" && '\\' !in name && name[0] != '/' && name[|name| - 1] != '/' && ".." !in PathParts(name)
  }

  predicate DeterministicEntry(m: Member) {
    SafeRelativePath(m.name) && m.timestamp == TIMESTAMP && m.deflated && m.attributes == EXTERNAL_ATTRIBUTES
  }

  function VerifyArchiveEntry(codec: Codec, members: seq<Member>, entry: EntryJson, remaining: nat)
    : Result<(Option<ArtifactCheck>, nat), ArchiveError>
  {
    match ClaimOf(entry)
    case None => Ok((None, remaining))
    case Some(claim) =>
      match Lookup(members, claim.filename)
      case None => Ok((Some(ArtifactCheck(claim.filename, "", 0, Missing)), remaining))
      case Some(content) =>
        match BoundedRead(content, MAX_MEMBER_BYTES, remaining)
        case Err(_) => Err(ReadLimit)
        case Ok(data) => Ok((Some(Compare(codec, claim, data)), remaining - |data|))
  }

  function VerifyArchiveEntries(codec: Codec, members: seq<Member>, entries: seq<EntryJson>, remaining: nat)
    : Result<Checks, ArchiveError>
    decreases |entries|
  {
    if entries == [] then Ok(Checks([], 0))
    else
      match VerifyArchiveEntry(codec, members, entries[0], remaining)
      case Err(error) => Err(error)
      case Ok((one, left)) =>
        PrependChecks(OneCheck(one, {}), VerifyArchiveEntries(codec, members, entries[1..], left))
  }

  datatype ArchiveVerification = ArchiveVerification(
    manifestVerified: bool,
    checks: Checks,
    issues: set<Issue>,
    duplicates: bool)
  {
    predicate Passed() {
      && manifestVerified && checks.malformed == 0 && issues == {} && !duplicates
      && forall a :: a in checks.artifacts ==> a.status == Verified
    }
  }

  function ContentSize(m: Member): nat {
    |m.content|
  }

  predicate WithinLimits(members: seq<Member>) {
    && (forall m :: m in members ==> |m.content| <= MAX_MEMBER_BYTES)
    && SumBy(ContentSize, members) <= MAX_TOTAL_BYTES
  }

  function MetadataIssues(members: seq<Member>): set<Issue> {
    set m | m in members && !DeterministicEntry(m) :: EntryMetadata(m.name)
  }

  /** The manifest, its entries and the inventory, once the manifest has been found. */
  function VerifyContents(codec: Codec, members: seq<Member>, content: Bytes)
    : Result<ArchiveVerification, ArchiveError>
  {
    match BoundedRead(content, MAX_MANIFEST_BYTES, MAX_TOTAL_BYTES)
    case Err(_) => Err(ReadLimit)
    case Ok(data) =>
      match codec.decode(data)
      case None => Ok(Unverified(members))
      case Some(m) =>
        match VerifyArchiveEntries(codec, members, m.entries, MAX_TOTAL_BYTES - |data|)
        case Err(error) => Err(error)
        case Ok(checks) =>
          Ok(ArchiveVerification(
            true, checks, MetadataIssues(members) + InventoryIssues(Names(members), m), !Distinct(Names(members))))
  }

  function Unverified(members: seq<Member>): ArchiveVerification {
    ArchiveVerification(false, Checks([], 0), MetadataIssues(members), !Distinct(Names(members)))
  }

  function VerifyArchive(codec: Codec, members: seq<Member>): Result<ArchiveVerification, ArchiveError> {
    if codec.zipSize(members) > MAX_FILE_BYTES then Err(ArchiveTooLarge)
    else if |members| > MAX_ENTRIES then Err(TooManyEntries)
    else if !WithinLimits(members) then Err(MemberTooLargeInDirectory)
    else
      match Lookup(members, MANIFEST)
      case None => Ok(Unverified(members))
      case Some(content) => VerifyContents(codec, members, content)
  }

  // ---------- The verifying loops ----------

  /** One bundle entry, streamed under the shared budget. */
  method CheckBundleEntry(codec: Codec, files: Files, entry: EntryJson, budget: ByteBudget)
    returns (r: Result<Option<ArtifactCheck>, ArchiveError>)
    requires budget.remaining >= 0
    modifies budget
    ensures match VerifyBundleEntry(codec, files, entry, old(budget.remaining))
            case Err(error) => r == Err(error)
            case Ok((one, left)) => r == Ok(one) && budget.remaining == left
  {
    var claimed := ClaimOf(entry);
    if claimed == None { return Ok(None); }
    var claim := claimed.value;
    if !SafeBasename(claim.filename) { return Err(UnsafeName); }
    if claim.byteCount.Some? && claim.byteCount.value > MAX_MEMBER_BYTES { return Err(DeclaredTooLarge); }
    if claim.filename !in files { return Ok(Some(ArtifactCheck(claim.filename, "", 0, Missing))); }
    var stream := new ByteStream(files[claim.filename]);
    var data := ReadMember(stream, MAX_MEMBER_BYTES, budget);
    if data.Err? { return Err(ReadLimit); }
    r := Ok(Some(Compare(codec, claim, data.value)));
  }

  lemma PrependNoChecks(r: Result<Checks, ArchiveError>)
    ensures PrependChecks(Checks([], 0), r) == r
  {
    if r.Ok? { assert [] + r.value.artifacts == r.value.artifacts; }
  }

  lemma PrependCheck(front: Checks, one: Checks, r: Result<Checks, ArchiveError>)
    ensures PrependChecks(front, PrependChecks(one, r))
         == PrependChecks(Checks(front.artifacts + one.artifacts, front.malformed + one.malformed), r)
  {
    if r.Ok? {
      assert front.artifacts + (one.artifacts + r.value.artifacts)
          == front.artifacts + one.artifacts + r.value.artifacts;
    }
  }

  /** The bundle loop: results and the set of filenames grow entry by entry, the budget shrinks. */
  method CheckBundleEntries(codec: Codec, files: Files, entries: seq<EntryJson>)
    returns (r: Result<Checks, ArchiveError>)
    ensures r == VerifyBundleEntries(codec, files, entries, MAX_TOTAL_BYTES, {})
  {
    var checks, seen := Checks([], 0), {};
    var budget := new ByteBudget(MAX_TOTAL_BYTES);
    ghost var whole := VerifyBundleEntries(codec, files, entries, MAX_TOTAL_BYTES, {});
    assert entries[0..] == entries;
    PrependNoChecks(whole);
    for i := 0 to |entries|
      invariant budget.remaining >= 0
      invariant whole == PrependChecks(checks, VerifyBundleEntries(codec, files, entries[i..], budget.remaining, seen))
    {
      assert entries[i..][0] == entries[i] && entries[i..][1..] == entries[i + 1..];
      var one := CheckBundleEntry(codec, files, entries[i], budget);
      if one.Err? { return Err(one.error); }
      PrependCheck(checks, OneCheck(one.value, seen),
                   VerifyBundleEntries(codec, files, entries[i + 1..], budget.remaining, SeenAfter(one.value, seen)));
      var more := OneCheck(one.value, seen);
      checks := Checks(checks.artifacts + more.artifacts, checks.malformed + more.malformed);
      seen := SeenAfter(one.value, seen);
    }
    assert checks.artifacts + [] == checks.artifacts;
    r := Ok(checks);
  }

  /** One archive entry, streamed out of its member under the shared budget. */
  method CheckArchiveEntry(codec: Codec, members: seq<Member>, entry: EntryJson, budget: ByteBudget)
    returns (r: Result<Option<ArtifactCheck>, ArchiveError>)
    requires budget.remaining >= 0
    modifies budget
    ensures match VerifyArchiveEntry(codec, members, entry, old(budget.remaining))
            case Err(error) => r == Err(error)
            case Ok((one, left)) => r == Ok(one) && budget.remaining == left
  {
    var claimed := ClaimOf(entry);
    if claimed == None { return Ok(None); }
    var content := Lookup(members, claimed.value.filename);
    if content == None { return Ok(Some(ArtifactCheck(claimed.value.filename, "", 0, Missing))); }
    var stream := new ByteStream(content.value);
    var data := ReadMember(stream, MAX_MEMBER_BYTES, budget);
    if data.Err? { return Err(ReadLimit); }
    r := Ok(Some(Compare(codec, claimed.value, data.value)));
  }

  /** The archive loop, over the budget the manifest left. */
  method CheckArchiveEntries(codec: Codec, members: seq<Member>, entries: seq<EntryJson>, remaining: nat)
    returns (r: Result<Checks, ArchiveError>)
    ensures r == VerifyArchiveEntries(codec, members, entries, remaining)
  {
    var checks := Checks([], 0);
    var budget := new ByteBudget(remaining);
    ghost var whole := VerifyArchiveEntries(codec, members, entries, remaining);
    assert entries[0..] == entries;
    PrependNoChecks(whole);
    for i := 0 to |entries|
      invariant budget.remaining >= 0
      invariant whole == PrependChecks(checks, VerifyArchiveEntries(codec, members, entries[i..], budget.remaining))
    {
      assert entries[i..][0] == entries[i] && entries[i..][1..] == entries[i + 1..];
      var one := CheckArchiveEntry(codec, members, entries[i], budget);
      if one.Err? { return Err(one.error); }
      PrependCheck(checks, OneCheck(one.value, {}),
                   VerifyArchiveEntries(codec, members, entries[i + 1..], budget.remaining));
      var more := OneCheck(one.value, {});
      checks := Checks(checks.artifacts + more.artifacts, checks.malformed + more.malformed);
    }
    assert checks.artifacts + [] == checks.artifacts;
    r := Ok(checks);
  }
}
