/** Column roles of a CSV export: several title-like columns are allowed, and exactly one of them is the
    title. */
module CsvColumns {
  import opened Base
  import opened CsvLive

  datatype Role =
    | SchNumber
    | DocumentId
    | DocumentType
    | LeadAgency
    | ReceivedDate
    | Title
    | County
    | Location
    | Description
    | ContactName
    | ContactEmail
    | ContactPhone
    | ParcelNumber

  const TITLE_NAMES := {"document_title", "project_title", "title"}

  /** The role a normalized header names. */
  function RoleOf(name: string): Option<Role> {
    if name in TITLE_NAMES then Some(Title)
    else if name in {"sch", "sch_no", "sch_num", "sch_number", "schnumber", "state_clearinghouse_number"} then
      Some(SchNumber)
    else if name in {"document_id", "documentid"} then Some(DocumentId)
    else if name in {"document_type", "documenttype", "type"} then Some(DocumentType)
    else if name in {"lead_agency", "lead_public_agency", "leadagency"} then Some(LeadAgency)
    else if name in {"date_received", "received", "received_date"} then Some(ReceivedDate)
    else if name in {"county", "county_name"} then Some(County)
    else if name in {"location", "project_location", "project_location_city"} then Some(Location)
    else if name in {"description", "project_description"} then Some(Description)
    else if name in {"contact", "contact_name", "contact_person"} then Some(ContactName)
    else if name in {"contact_email", "email"} then Some(ContactEmail)
    else if name in {"contact_phone", "phone"} then Some(ContactPhone)
    else if name in {"apn", "parcel", "parcel_number", "parcel_numbers"} then Some(ParcelNumber)
    else None
  }

  /** Which title-like column is preferred, best first. */
  function Preference(kind: ExportKind): seq<string> {
    if kind.ProjectExport? then ["project_title", "title", "document_title"]
    else ["document_title", "title", "project_title"]
  }

  function FirstIn(names: seq<string>, wanted: set<string>): Option<string> {
    if names == [] then None else if names[0] in wanted then Some(names[0]) else FirstIn(names[1..], wanted)
  }

  type Normalizer = string -> string

  type Roles = string -> Option<Role>

  function ExportRoles(): Roles {
    name => RoleOf(name)
  }

  function NormalizedAll(normalize: Normalizer, header: seq<string>): seq<string> {
    seq(|header|, i requires 0 <= i < |header| => normalize(header[i]))
  }

  datatype ColumnError = NoTitleIdentity | BlankHeader | UnusableHeader | RepeatedHeader | AmbiguousRole

  /** The title-like names that give up the title role, given those present. */
  function Suppressed(present: set<string>, preference: seq<string>): Result<set<string>, ColumnError> {
    if |present| <= 1 then Ok({})
    else
      match FirstIn(preference, present)
      case None => Err(NoTitleIdentity)
      case Some(preferred) => Ok(present - {preferred})
  }

  datatype RoleColumn = RoleColumn(ordinal: nat, original: string, normalized: string, role: Option<Role>)

  function ColumnFor(roles: Roles, suppressed: set<string>, ordinal: nat, original: string, name: string): RoleColumn {
    RoleColumn(ordinal, original, name, if name in suppressed then None else roles(name))
  }

  function ColumnsOf(roles: Roles, normalize: Normalizer, header: seq<string>, suppressed: set<string>)
    : seq<RoleColumn>
  {
    seq(|header|, i requires 0 <= i < |header| => ColumnFor(roles, suppressed, i, header[i], normalize(header[i])))
  }

  predicate DistinctNames(columns: seq<RoleColumn>) {
    forall i, j :: 0 <= i < j < |columns| ==> columns[i].normalized != columns[j].normalized
  }

  predicate DistinctRoles(columns: seq<RoleColumn>) {
    forall i, j :: 0 <= i < j < |columns| && columns[i].role.Some? ==> columns[i].role != columns[j].role
  }

  /** The first blank or unusable header, if there is one. */
  function HeaderProblem(normalize: Normalizer, header: seq<string>): Option<ColumnError> {
    if header == [] then None
    else
      match HeaderProblem(normalize, header[..|header| - 1])
      case Some(error) => Some(error)
      case None =>
        if header[|header| - 1] == "" then Some(BlankHeader)
        else if normalize(header[|header| - 1]) == "" then Some(UnusableHeader)
        else None
  }

  function BuildColumns(roles: Roles, normalize: Normalizer, header: seq<string>, suppressed: set<string>)
    : Result<seq<RoleColumn>, ColumnError>
  {
    match HeaderProblem(normalize, header)
    case Some(error) => Err(error)
    case None => CheckColumns(ColumnsOf(roles, normalize, header, suppressed))
  }

  function CheckColumns(columns: seq<RoleColumn>): Result<seq<RoleColumn>, ColumnError> {
    if !DistinctNames(columns) then Err(RepeatedHeader)
    else if !DistinctRoles(columns) then Err(AmbiguousRole)
    else Ok(columns)
  }

  /** The columns of an export: suppressions first, then the columns. */
  function ExportColumns(normalize: Normalizer, header: seq<string>, kind: ExportKind)
    : Result<seq<RoleColumn>, ColumnError>
  {
    match Suppressed(Elements(NormalizedAll(normalize, header)) * TITLE_NAMES, Preference(kind))
    case Err(error) => Err(error)
    case Ok(suppressed) => BuildColumns(ExportRoles(), normalize, header, suppressed)
  }

  lemma {:induction false} FirstProblemDecides(normalize: Normalizer, header: seq<string>, k: nat)
    requires k <= |header| && HeaderProblem(normalize, header[..k]).Some?
    ensures HeaderProblem(normalize, header) == HeaderProblem(normalize, header[..k])
  {
    if k < |header| {
      assert header[..|header| - 1][..k] == header[..k];
      FirstProblemDecides(normalize, header[..|header| - 1], k);
    } else {
      assert header[..k] == header;
    }
  }

  /** The header loop, appending columns. */
  method CollectColumns(roles: Roles, normalize: Normalizer, header: seq<string>, suppressed: set<string>)
    returns (r: Result<seq<RoleColumn>, ColumnError>)
    ensures r == BuildColumns(roles, normalize, header, suppressed)
  {
    var columns: seq<RoleColumn> := [];
    for ordinal := 0 to |header|
      invariant HeaderProblem(normalize, header[..ordinal]) == None
      invariant columns == ColumnsOf(roles, normalize, header[..ordinal], suppressed)
    {
      assert header[..ordinal + 1][..ordinal] == header[..ordinal];
      if header[ordinal] == "" {
        FirstProblemDecides(normalize, header, ordinal + 1);
        return Err(BlankHeader);
      }
      var name := normalize(header[ordinal]);
      if name == "" {
        FirstProblemDecides(normalize, header, ordinal + 1);
        return Err(UnusableHeader);
      }
      columns := columns + [ColumnFor(roles, suppressed, ordinal, header[ordinal], name)];
    }
    assert header[..|header|] == header;
    r := CheckColumns(columns);
  }

  // ---------- Which headers are accepted ----------

  ghost predicate Usable(normalize: Normalizer, header: seq<string>) {
    forall i :: 0 <= i < |header| ==> header[i] != "" && normalize(header[i]) != ""
  }

  lemma {:induction false} NoProblemIff(normalize: Normalizer, header: seq<string>)
    ensures HeaderProblem(normalize, header) == None <==> Usable(normalize, header)
  {
    if header != [] {
      var n := |header| - 1;
      NoProblemIff(normalize, header[..n]);
      assert forall i :: 0 <= i < n ==> header[..n][i] == header[i];
    }
  }

  lemma {:induction false} FirstInFinds(names: seq<string>, wanted: set<string>)
    ensures FirstIn(names, wanted) == None <==> forall n :: n in names ==> n !in wanted
    ensures FirstIn(names, wanted).Some? ==> FirstIn(names, wanted).value in wanted
  {
    if names != [] {
      FirstInFinds(names[1..], wanted);
      assert names == [names[0]] + names[1..];
    }
  }

  lemma PreferenceCoversTitles(kind: ExportKind)
    ensures forall name :: name in TITLE_NAMES ==> name in Preference(kind)
  {
  }

  lemma TitlesAreTitles()
    ensures forall name :: ExportRoles()(name) == Some(Title) <==> name in TITLE_NAMES
  {
  }

  /** At most one of the names present keeps the title, and the preferred one does when there are several. */
  ghost predicate OneTitleLeft(present: set<string>, preference: seq<string>, suppressed: set<string>) {
    && suppressed <= present
    && (forall a, b :: a in present - suppressed && b in present - suppressed ==> a == b)
    && (present != {} ==> present - suppressed != {})
    && (|present| > 1 ==> FirstIn(preference, present).Some? && FirstIn(preference, present).value !in suppressed)
  }

  lemma SuppressionLeavesOne(present: set<string>, preference: seq<string>)
    requires forall name :: name in present ==> name in preference
    ensures Suppressed(present, preference).Ok?
    ensures OneTitleLeft(present, preference, Suppressed(present, preference).value)
  {
    FirstInFinds(preference, present);
    if |present| > 1 {
      assert exists name :: name in present;
      var preferred := FirstIn(preference, present).value;
      assert preferred in present - (present - {preferred});
    } else {
      forall a, b | a in present && b in present
        ensures a == b
      {
        if a != b {
          SubsetSize({a, b}, present);
        }
      }
      assert present - {} == present;
    }
  }

  /** Roles other than the title, which several columns may not share. */
  ghost predicate DistinctOtherRoles(roles: Roles, names: seq<string>) {
    forall i, j :: 0 <= i < j < |names| && roles(names[i]).Some? && roles(names[i]) == roles(names[j]) ==>
      roles(names[i]) == Some(Title)
  }

  function RoleLeft(roles: Roles, suppressed: set<string>, name: string): Option<Role> {
    if name in suppressed then None else roles(name)
  }

  ghost predicate Clash(x: Option<Role>, y: Option<Role>) {
    x.Some? && x == y
  }

  /** Two columns still clash after the suppressions exactly when they share a role other than the title. */
  lemma ClashIff(roles: Roles, titles: set<string>, present: set<string>, preference: seq<string>,
                 suppressed: set<string>, a: string, b: string)
    requires (roles(a) == Some(Title) <==> a in titles) && (roles(b) == Some(Title) <==> b in titles)
    requires OneTitleLeft(present, preference, suppressed) && present <= titles && a != b
    requires (a in titles ==> a in present) && (b in titles ==> b in present)
    ensures Clash(RoleLeft(roles, suppressed, a), RoleLeft(roles, suppressed, b))
        <==> Clash(roles(a), roles(b)) && roles(a) != Some(Title)
  {
    assert !(a in present - suppressed && b in present - suppressed);
  }

  lemma RolesDistinctIff(roles: Roles, titles: set<string>, normalize: Normalizer, header: seq<string>,
                         preference: seq<string>, suppressed: set<string>)
    requires forall name :: roles(name) == Some(Title) <==> name in titles
    requires Distinct(NormalizedAll(normalize, header))
    requires OneTitleLeft(Elements(NormalizedAll(normalize, header)) * titles, preference, suppressed)
    ensures DistinctRoles(ColumnsOf(roles, normalize, header, suppressed))
        <==> DistinctOtherRoles(roles, NormalizedAll(normalize, header))
  {
    var names, columns := NormalizedAll(normalize, header), ColumnsOf(roles, normalize, header, suppressed);
    forall i, j | 0 <= i < j < |names|
      ensures Clash(columns[i].role, columns[j].role)
          <==> Clash(roles(names[i]), roles(names[j])) && roles(names[i]) != Some(Title)
    {
      assert names[i] != names[j] && names[i] in Elements(names) && names[j] in Elements(names);
      assert columns[i].role == RoleLeft(roles, suppressed, names[i]);
      assert columns[j].role == RoleLeft(roles, suppressed, names[j]);
      ClashIff(roles, titles, Elements(names) * titles, preference, suppressed, names[i], names[j]);
    }
    assert DistinctRoles(columns) <==>
        forall i, j :: 0 <= i < j < |columns| ==> !Clash(columns[i].role, columns[j].role);
  }

  lemma NamesDistinctIff(roles: Roles, normalize: Normalizer, header: seq<string>, suppressed: set<string>)
    ensures DistinctNames(ColumnsOf(roles, normalize, header, suppressed))
        <==> Distinct(NormalizedAll(normalize, header))
  {
    var names, columns := NormalizedAll(normalize, header), ColumnsOf(roles, normalize, header, suppressed);
    assert forall i :: 0 <= i < |header| ==> columns[i].normalized == names[i];
  }

  /** A header is accepted exactly when every column has a usable name of its own and no two share a role,
      titles apart: any number of title-like columns is fine. */
  lemma ColumnsAcceptedIff(normalize: Normalizer, header: seq<string>, kind: ExportKind)
    ensures ExportColumns(normalize, header, kind).Ok? <==>
      && Usable(normalize, header) && Distinct(NormalizedAll(normalize, header))
      && DistinctOtherRoles(ExportRoles(), NormalizedAll(normalize, header))
  {
    var present := Elements(NormalizedAll(normalize, header)) * TITLE_NAMES;
    PreferenceCoversTitles(kind);
    TitlesAreTitles();
    SuppressionLeavesOne(present, Preference(kind));
    var suppressed := Suppressed(present, Preference(kind)).value;
    NoProblemIff(normalize, header);
    NamesDistinctIff(ExportRoles(), normalize, header, suppressed);
    if Distinct(NormalizedAll(normalize, header)) {
      RolesDistinctIff(ExportRoles(), TITLE_NAMES, normalize, header, Preference(kind), suppressed);
    }
  }
}
